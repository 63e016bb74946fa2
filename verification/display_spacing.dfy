/**
  The ingredient line as the recipe detail view shows it (src/App.jsx:374):
  `ing.replace(/(\d)([a-zA-Z])/g, "$1 $2")`, which puts a space between a
  digit and a letter glued to it ("200g" becomes "200 g").
 */
module DisplaySpacing {

  /** `\d` without the `u` flag: the ASCII digits only. */
  predicate IsDigit(c: char) { '0' <= c <= '9' }

  /** `[a-zA-Z]`. */
  predicate IsLetter(c: char) { ('a' <= c <= 'z') || ('A' <= c <= 'Z') }

  /** A digit at `i` with a letter right after it. */
  predicate GluedAt(s: string, i: int) {
    0 <= i && i + 1 < |s| && IsDigit(s[i]) && IsLetter(s[i + 1])
  }

  predicate HasNoGlued(s: string) {
    forall i :: 0 <= i < |s| ==> !GluedAt(s, i)
  }

  /**
    The global replace as the regular-expression engine runs it: scan from
    the left; a match consumes the digit and the letter, the scan resumes after
    the letter; elsewhere one character is copied and the scan moves on.
   */
  function SpaceDigitLetters(s: string): (r: string)
    ensures |r| >= |s|
    ensures |s| > 0 ==> |r| > 0 && r[0] == s[0]
  {
    if |s| < 2 then s
    else if IsDigit(s[0]) && IsLetter(s[1]) then [s[0], ' ', s[1]] + SpaceDigitLetters(s[2..])
    else [s[0]] + SpaceDigitLetters(s[1..])
  }

  /**
    The same transform stated position by position, independent of how the
    matches are found: each character is copied, followed by one space exactly
    when it is a digit and the next character is a letter.
   */
  function SpaceAfterGluedDigits(s: string): (r: string)
  {
    if s == [] then []
    else [s[0]] + (if GluedAt(s, 0) then [' '] else []) + SpaceAfterGluedDigits(s[1..])
  }

  /** The number of glued digit-letter pairs in `s`. */
  function GluedCount(s: string): nat
  {
    if s == [] then 0 else (if GluedAt(s, 0) then 1 else 0) + GluedCount(s[1..])
  }

  /**
    Left-to-right, non-overlapping matching finds every glued pair: a letter
    can never start a match, so no pair is skipped by the one before it.
   */
  lemma {:induction false} ScanMatchesEveryPair(s: string)
    ensures SpaceDigitLetters(s) == SpaceAfterGluedDigits(s)
  {
    if |s| == 0 {
    } else if |s| == 1 {
      assert !GluedAt(s, 0);
    } else if GluedAt(s, 0) {
      var rest := s[1..];
      assert !GluedAt(rest, 0);
      assert rest[1..] == s[2..];
      ScanMatchesEveryPair(s[2..]);
    } else {
      ScanMatchesEveryPair(s[1..]);
    }
  }

  /** Exactly one space is inserted per glued pair and nothing else is added. */
  lemma {:induction false} OneSpacePerPair(s: string)
    ensures |SpaceDigitLetters(s)| == |s| + GluedCount(s)
  {
    ScanMatchesEveryPair(s);
    LengthOfReference(s);
  }

  lemma {:induction false} LengthOfReference(s: string)
    ensures |SpaceAfterGluedDigits(s)| == |s| + GluedCount(s)
  {
    if s != [] { LengthOfReference(s[1..]); }
  }

  /** A line with no glued pair is shown unchanged. */
  lemma {:induction false} UnchangedWithoutPairs(s: string)
    requires HasNoGlued(s)
    ensures SpaceDigitLetters(s) == s
  {
    if |s| >= 2 {
      assert !GluedAt(s, 0);
      assert forall i :: GluedAt(s[1..], i) ==> GluedAt(s, i + 1);
      UnchangedWithoutPairs(s[1..]);
    }
  }

  /** The output has no glued pair left, so applying the replace again changes nothing. */
  lemma {:induction false} NoPairsRemain(s: string)
    ensures HasNoGlued(SpaceDigitLetters(s))
  {
    var r := SpaceDigitLetters(s);
    if |s| < 2 {
    } else if IsDigit(s[0]) && IsLetter(s[1]) {
      var tail := SpaceDigitLetters(s[2..]);
      NoPairsRemain(s[2..]);
      assert r == [s[0], ' ', s[1]] + tail;
      forall i ensures !GluedAt(r, i) {
        if 3 <= i { assert GluedAt(r, i) ==> GluedAt(tail, i - 3); }
      }
    } else {
      var tail := SpaceDigitLetters(s[1..]);
      NoPairsRemain(s[1..]);
      assert r == [s[0]] + tail;
      forall i ensures !GluedAt(r, i) {
        if 1 <= i { assert GluedAt(r, i) ==> GluedAt(tail, i - 1); }
      }
    }
  }

  lemma Idempotent(s: string)
    ensures SpaceDigitLetters(SpaceDigitLetters(s)) == SpaceDigitLetters(s)
  {
    NoPairsRemain(s);
    UnchangedWithoutPairs(SpaceDigitLetters(s));
  }

  /** A digit, a space and a letter starting at `i`: what an inserted space looks like. */
  predicate SpacedAt(s: string, i: int) {
    0 <= i && i + 2 < |s| && IsDigit(s[i]) && s[i + 1] == ' ' && IsLetter(s[i + 2])
  }

  /** Deletes the space of every digit-space-letter triple. */
  function RemoveDigitLetterSpaces(t: string): (s: string)
    ensures |s| <= |t|
  {
    if t == [] then []
    else if SpacedAt(t, 0) then [t[0]] + RemoveDigitLetterSpaces(t[2..])
    else [t[0]] + RemoveDigitLetterSpaces(t[1..])
  }

  /**
    Deleting the digit-space-letter spaces of the shown line gives what
    deleting them from the original line gives: the replace only adds spaces
    the deletion takes away again. This holds for every line.
   */
  lemma {:induction false} RemovingSpacesUndoesReplace(s: string)
    ensures RemoveDigitLetterSpaces(SpaceDigitLetters(s)) == RemoveDigitLetterSpaces(s)
  {
    if |s| < 2 {
    } else if IsDigit(s[0]) && IsLetter(s[1]) {
      RemovingSpacesUndoesReplace(s[2..]);
      UndoAfterPair(s);
    } else if SpacedAt(s, 0) {
      RemovingSpacesUndoesReplace(s[2..]);
      UndoAfterSpace(s);
    } else {
      RemovingSpacesUndoesReplace(s[1..]);
      UndoAfterCopy(s);
    }
  }

  /** A glued pair: the replace's space is deleted, and the pair itself holds no space to delete. */
  lemma UndoAfterPair(s: string)
    requires |s| >= 2 && IsDigit(s[0]) && IsLetter(s[1])
    requires RemoveDigitLetterSpaces(SpaceDigitLetters(s[2..])) == RemoveDigitLetterSpaces(s[2..])
    ensures RemoveDigitLetterSpaces(SpaceDigitLetters(s)) == RemoveDigitLetterSpaces(s)
  {
    assert SpaceDigitLetters(s) == [s[0], ' ', s[1]] + SpaceDigitLetters(s[2..]);
    RemoveAfterPair(s[0], s[1], SpaceDigitLetters(s[2..]));
    RemoveOfPair(s[0], s[1], s[2..]);
    assert s == [s[0], s[1]] + s[2..];
  }

  lemma RemoveOfPair(d: char, c: char, t: string)
    requires IsLetter(c)
    ensures RemoveDigitLetterSpaces([d, c] + t) == [d, c] + RemoveDigitLetterSpaces(t)
  {
    assert [d, c] + t == [d] + ([c] + t);
    RemoveAfterCopy(d, [c] + t);
    RemoveAfterCopy(c, t);
  }

  /** A digit-space-letter triple of the line: the replace copies it and the deletion drops its space either way. */
  lemma UndoAfterSpace(s: string)
    requires SpacedAt(s, 0)
    requires RemoveDigitLetterSpaces(SpaceDigitLetters(s[2..])) == RemoveDigitLetterSpaces(s[2..])
    ensures RemoveDigitLetterSpaces(SpaceDigitLetters(s)) == RemoveDigitLetterSpaces(s)
  {
    var t := SpaceDigitLetters(s[2..]);
    ReplaceOfSpaced(s);
    RemoveAfterSpace(s[0], t);
    assert s == [s[0], ' '] + s[2..];
    RemoveAfterSpace(s[0], s[2..]);
  }

  /** The replace copies a digit-space-letter triple's digit and space. */
  lemma ReplaceOfSpaced(s: string)
    requires SpacedAt(s, 0)
    ensures SpaceDigitLetters(s) == [s[0], ' '] + SpaceDigitLetters(s[2..])
  {
    var u := s[2..];
    var rest := [' '] + u;
    assert s == [s[0]] + rest;
    ReplaceCopies(' ', u);
    ReplaceCopies(s[0], rest);
    assert [s[0]] + ([' '] + SpaceDigitLetters(u)) == [s[0], ' '] + SpaceDigitLetters(u);
  }

  /** A character that does not start a match is copied. */
  lemma ReplaceCopies(c: char, t: string)
    requires t != [] && !(IsDigit(c) && IsLetter(t[0]))
    ensures SpaceDigitLetters([c] + t) == [c] + SpaceDigitLetters(t)
  {
    assert ([c] + t)[1..] == t;
  }

  /** Any other first character: both sides copy it. */
  lemma UndoAfterCopy(s: string)
    requires |s| >= 2 && !(IsDigit(s[0]) && IsLetter(s[1])) && !SpacedAt(s, 0)
    requires RemoveDigitLetterSpaces(SpaceDigitLetters(s[1..])) == RemoveDigitLetterSpaces(s[1..])
    ensures RemoveDigitLetterSpaces(SpaceDigitLetters(s)) == RemoveDigitLetterSpaces(s)
  {
    assert SpaceDigitLetters(s) == [s[0]] + SpaceDigitLetters(s[1..]);
    CopiedNoTriple(s);
    RemoveAfterCopy(s[0], SpaceDigitLetters(s[1..]));
    assert s == [s[0]] + s[1..];
    RemoveAfterCopy(s[0], s[1..]);
  }

  /**
    Deleting the inserted spaces gives the line back, for every line that did
    not already hold a digit-space-letter triple of its own.
   */
  lemma RemovingSpacesRecoversLine(s: string)
    requires forall i :: 0 <= i < |s| ==> !SpacedAt(s, i)
    ensures RemoveDigitLetterSpaces(SpaceDigitLetters(s)) == s
  {
    RemovingSpacesUndoesReplace(s);
    NothingToRemove(s);
  }

  /** A line without a digit-space-letter triple loses nothing to the deletion. */
  lemma {:induction false} NothingToRemove(s: string)
    requires forall i :: 0 <= i < |s| ==> !SpacedAt(s, i)
    ensures RemoveDigitLetterSpaces(s) == s
  {
    if s != [] {
      assert !SpacedAt(s, 0);
      assert forall i :: SpacedAt(s[1..], i) ==> SpacedAt(s, i + 1);
      NothingToRemove(s[1..]);
    }
  }

  /** A digit, a space and then a letter-led rest: the space goes. */
  lemma RemoveAfterSpace(d: char, t: string)
    requires IsDigit(d) && t != [] && IsLetter(t[0])
    ensures RemoveDigitLetterSpaces([d, ' '] + t) == [d] + RemoveDigitLetterSpaces(t)
  {
    var r := [d, ' '] + t;
    assert SpacedAt(r, 0);
    assert r[2..] == t;
  }

  lemma RemoveAfterPair(d: char, c: char, t: string)
    requires IsDigit(d) && IsLetter(c)
    ensures RemoveDigitLetterSpaces([d, ' ', c] + t) == [d, c] + RemoveDigitLetterSpaces(t)
  {
    var r := [d, ' ', c] + t;
    assert SpacedAt(r, 0);
    assert r[2..] == [c] + t;
    assert ([c] + t)[1..] == t;
  }

  lemma RemoveAfterCopy(c: char, t: string)
    requires !SpacedAt([c] + t, 0)
    ensures RemoveDigitLetterSpaces([c] + t) == [c] + RemoveDigitLetterSpaces(t)
  {
    assert ([c] + t)[1..] == t;
  }

  lemma CopiedNoTriple(s: string)
    requires |s| >= 2 && !(IsDigit(s[0]) && IsLetter(s[1])) && !SpacedAt(s, 0)
    ensures !SpacedAt(SpaceDigitLetters(s), 0)
  {
    var r := SpaceDigitLetters(s);
    var rest := s[1..];
    var tail := SpaceDigitLetters(rest);
    assert r == [s[0]] + tail;
    if |s| > 2 && s[1] == ' ' {
      assert tail == [' '] + SpaceDigitLetters(rest[1..]);
      assert rest[1..] == s[2..];
      assert r[2] == s[2];
    }
  }
}
