/**
  String helpers the planner relies on: the normalisation `toLowerCase().trim()`
  that keys the shopping list, and the fixed order that stands for
  `localeCompare` when the list is sorted.
 */
module Text {

  // ---------------------------------------------------------------------------
  // Lower-casing (ASCII)
  // ---------------------------------------------------------------------------

  predicate IsUpper(c: char) { 'A' <= c <= 'Z' }

  function LowerChar(c: char): (d: char)
    ensures !IsUpper(d)
    ensures IsUpper(c) ==> d as int == c as int + 32
    ensures !IsUpper(c) ==> d == c
  {
    if IsUpper(c) then (c as int + 32) as char else c
  }

  /** `String.prototype.toLowerCase`, restricted to the ASCII letters. */
  function ToLower(s: string): string
  {
    if s == [] then [] else [LowerChar(s[0])] + ToLower(s[1..])
  }

  predicate IsLower(s: string) {
    forall i :: 0 <= i < |s| ==> !IsUpper(s[i])
  }

  /** Lower-casing keeps the length and maps every character on its own. */
  lemma {:induction false} ToLowerPointwise(s: string)
    ensures |ToLower(s)| == |s|
    ensures forall i :: 0 <= i < |s| ==> ToLower(s)[i] == LowerChar(s[i])
  {
    if s != [] {
      ToLowerPointwise(s[1..]);
    }
  }

  /** The result has no upper-case letter. */
  lemma ToLowerIsLower(s: string)
    ensures IsLower(ToLower(s))
  {
    ToLowerPointwise(s);
  }

  /** Text already in lower case is left alone. */
  lemma ToLowerOfLower(s: string)
    requires IsLower(s)
    ensures ToLower(s) == s
  {
    ToLowerPointwise(s);
  }

  // ---------------------------------------------------------------------------
  // Trimming
  // ---------------------------------------------------------------------------

  /**
    The characters `String.prototype.trim` removes: ECMAScript WhiteSpace
    (TAB, VT, FF, SP, NBSP, ZWNBSP and the Unicode space separators) and
    LineTerminator (LF, CR, LS, PS).
   */
  const SpaceChars: set<char> := {
    '\t', '\n', '\U{B}', '\U{C}', '\r', ' ', '\U{A0}', '\U{1680}',
    '\U{2000}', '\U{2001}', '\U{2002}', '\U{2003}', '\U{2004}', '\U{2005}',
    '\U{2006}', '\U{2007}', '\U{2008}', '\U{2009}', '\U{200A}',
    '\U{2028}', '\U{2029}', '\U{202F}', '\U{205F}', '\U{3000}', '\U{FEFF}'
  }

  predicate IsSpace(c: char) {
    c in SpaceChars
  }

  predicate AllSpace(s: string) {
    forall i :: 0 <= i < |s| ==> IsSpace(s[i])
  }

  /** Neither end of `t` is a space. */
  predicate IsTrimmed(t: string) {
    |t| == 0 || (!IsSpace(t[0]) && !IsSpace(t[|t| - 1]))
  }

  /** How many spaces `s` starts with. */
  function LeadingSpaces(s: string): (n: nat)
    ensures n <= |s|
    ensures forall i :: 0 <= i < n ==> IsSpace(s[i])
    ensures n < |s| ==> !IsSpace(s[n])
  {
    if s == [] || !IsSpace(s[0]) then 0 else 1 + LeadingSpaces(s[1..])
  }

  /** How many spaces `s` ends with. */
  function TrailingSpaces(s: string): (n: nat)
    ensures n <= |s|
    ensures forall i :: |s| - n <= i < |s| ==> IsSpace(s[i])
    ensures n < |s| ==> !IsSpace(s[|s| - n - 1])
  {
    if s == [] || !IsSpace(s[|s| - 1]) then 0 else 1 + TrailingSpaces(s[..|s| - 1])
  }

  /** `String.prototype.trim`: drop the leading and the trailing spaces. */
  function Trim(s: string): (t: string)
    ensures IsTrimmed(t)
  {
    var rest := s[LeadingSpaces(s)..];
    rest[..|rest| - TrailingSpaces(rest)]
  }

  /** Whatever `Trim` drops is spaces: `s` is spaces, then `Trim(s)`, then spaces. */
  lemma TrimDropsOnlySpaces(s: string)
    ensures exists p, q :: AllSpace(p) && AllSpace(q) && s == p + Trim(s) + q
  {
    var a := LeadingSpaces(s);
    var rest := s[a..];
    var b := TrailingSpaces(rest);
    var e := |s| - b;
    assert Trim(s) == s[a..e];
    var p, q := s[..a], s[e..];
    forall i | 0 <= i < |p| ensures IsSpace(p[i]) {
      assert p[i] == s[i];
    }
    forall i | 0 <= i < |q| ensures IsSpace(q[i]) {
      assert q[i] == rest[|rest| - b + i];
    }
    SplitThree(s, a, e);
    assert AllSpace(p) && AllSpace(q) && s == p + Trim(s) + q;
  }

  /** A sequence is its three consecutive pieces. */
  lemma SplitThree<T>(s: seq<T>, a: nat, e: nat)
    requires a <= e <= |s|
    ensures s == s[..a] + s[a..e] + s[e..]
  {
  }

  /**
    Trimming is determined: if `s` is spaces, then a piece with no space at
    either end, then spaces, that piece is `Trim(s)`.
   */
  lemma TrimUnique(p: string, t: string, q: string)
    requires AllSpace(p) && AllSpace(q) && IsTrimmed(t)
    ensures Trim(p + t + q) == t
  {
    var s := p + t + q;
    var a := LeadingSpaces(s);
    if t == [] {
      assert AllSpace(s);
      assert a == |s|;
    } else {
      assert s[|p|] == t[0];
      assert a == |p|;
      var rest := s[a..];
      assert rest == t + q;
      var b := TrailingSpaces(rest);
      assert rest[|t| - 1] == t[|t| - 1];
      assert b == |q|;
      assert rest[..|rest| - b] == t;
    }
  }

  lemma TrimOfTrimmed(s: string)
    requires IsTrimmed(s)
    ensures Trim(s) == s
  {
    assert [] + s + [] == s;
    TrimUnique([], s, []);
  }

  // ---------------------------------------------------------------------------
  // The shopping-list key
  // ---------------------------------------------------------------------------

  /** `ing.toLowerCase().trim()` (src/App.jsx:47). */
  function Normalize(s: string): string {
    Trim(ToLower(s))
  }

  /** A key has no upper-case letter and no space at either end. */
  lemma NormalizeGivesKey(s: string)
    ensures IsTrimmed(Normalize(s)) && IsLower(Normalize(s))
  {
    var u := ToLower(s);
    var t := Trim(u);
    ToLowerIsLower(s);
    TrimDropsOnlySpaces(u);
    var p, q :| AllSpace(p) && AllSpace(q) && u == p + t + q;
    forall i | 0 <= i < |t| ensures !IsUpper(t[i]) {
      assert t[i] == u[|p| + i];
    }
  }

  /** A key is its own key: normalising twice changes nothing. */
  lemma NormalizeIdempotent(s: string)
    ensures Normalize(Normalize(s)) == Normalize(s)
  {
    var k := Normalize(s);
    NormalizeGivesKey(s);
    ToLowerOfLower(k);
    TrimOfTrimmed(k);
  }

  /** `f` applied to every element, in order (built from the end, as a loop appends). */
  function Map<A, B>(f: A -> B, xs: seq<A>): seq<B>
  {
    if xs == [] then [] else Map(f, xs[..|xs| - 1]) + [f(xs[|xs| - 1])]
  }

  lemma {:induction false} MapPointwise<A, B>(f: A -> B, xs: seq<A>)
    ensures |Map(f, xs)| == |xs|
    ensures forall i :: 0 <= i < |xs| ==> Map(f, xs)[i] == f(xs[i])
  {
    if xs != [] {
      var init := xs[..|xs| - 1];
      MapPointwise(f, init);
      forall i | 0 <= i < |init| ensures Map(f, xs)[i] == f(xs[i]) {
        assert xs[i] == init[i];
      }
    }
  }

  /** The keys of a list of ingredient lines, line by line in order. */
  function NormalizeAll(lines: seq<string>): seq<string>
  {
    Map(Normalize, lines)
  }

  /** One key per line, the key of the line at the same position. */
  lemma NormalizeAllKeys(lines: seq<string>)
    ensures |NormalizeAll(lines)| == |lines|
    ensures forall i :: 0 <= i < |lines| ==> NormalizeAll(lines)[i] == Normalize(lines[i])
  {
    MapPointwise(Normalize, lines);
  }

  // ---------------------------------------------------------------------------
  // The sort order
  // ---------------------------------------------------------------------------

  /** Lexicographic order on code points: the fixed order that stands for `localeCompare`. */
  predicate Below(a: string, b: string)
  {
    if a == [] then b != []
    else if b == [] then false
    else if a[0] != b[0] then a[0] < b[0]
    else Below(a[1..], b[1..])
  }

  lemma {:induction false} BelowIrreflexive(a: string)
    ensures !Below(a, a)
  {
    if a != [] { BelowIrreflexive(a[1..]); }
  }

  lemma {:induction false} BelowTransitive(a: string, b: string, c: string)
    requires Below(a, b) && Below(b, c)
    ensures Below(a, c)
  {
    if a != [] && b != [] && c != [] && a[0] == b[0] == c[0] {
      BelowTransitive(a[1..], b[1..], c[1..]);
    }
  }

  lemma {:induction false} BelowTotal(a: string, b: string)
    ensures a == b || Below(a, b) || Below(b, a)
  {
    if a != [] && b != [] && a[0] == b[0] {
      BelowTotal(a[1..], b[1..]);
      if a[1..] == b[1..] { assert a == [a[0]] + a[1..] && b == [b[0]] + b[1..]; }
    }
  }

  lemma {:induction false} BelowAsymmetric(a: string, b: string)
    ensures Below(a, b) ==> !Below(b, a)
  {
    if a != [] && b != [] && a[0] == b[0] { BelowAsymmetric(a[1..], b[1..]); }
  }

  /** Lower-casing works character by character, so it distributes over concatenation. */
  lemma ToLowerAppend(a: string, b: string)
    ensures ToLower(a + b) == ToLower(a) + ToLower(b)
  {
    ToLowerPointwise(a + b);
    ToLowerPointwise(a);
    ToLowerPointwise(b);
    forall i | 0 <= i < |a + b| ensures ToLower(a + b)[i] == (ToLower(a) + ToLower(b))[i] {
      if i < |a| { assert (a + b)[i] == a[i]; } else { assert (a + b)[i] == b[i - |a|]; }
    }
  }

  /** Spaces have no upper case: lower-casing leaves them alone. */
  lemma ToLowerOfSpaces(p: string)
    requires AllSpace(p)
    ensures ToLower(p) == p
  {
    forall i | 0 <= i < |p| ensures !IsUpper(p[i]) {
      assert IsSpace(p[i]);
    }
    ToLowerOfLower(p);
  }

  /** Spaces around a piece of text are dropped by trimming, whatever the text. */
  lemma TrimIgnoresPadding(p: string, u: string, q: string)
    requires AllSpace(p) && AllSpace(q)
    ensures Trim(p + u + q) == Trim(u)
  {
    TrimDropsOnlySpaces(u);
    var p', q' :| AllSpace(p') && AllSpace(q') && u == p' + Trim(u) + q';
    AllSpaceAppend(p, p');
    AllSpaceAppend(q', q);
    Regroup(p, p', Trim(u), q', q);
    TrimUnique(p + p', Trim(u), q' + q);
  }

  lemma AllSpaceAppend(a: string, b: string)
    requires AllSpace(a) && AllSpace(b)
    ensures AllSpace(a + b)
  {
    forall i | 0 <= i < |a + b| ensures IsSpace((a + b)[i]) {
      if i < |a| { assert (a + b)[i] == a[i]; } else { assert (a + b)[i] == b[i - |a|]; }
    }
  }

  lemma Regroup<T>(p: seq<T>, p': seq<T>, t: seq<T>, q': seq<T>, q: seq<T>)
    ensures p + (p' + t + q') + q == (p + p') + t + (q' + q)
  {
  }

  /** Leading and trailing white space never changes a line's key ("Garlic" and " garlic\n" share one). */
  lemma NormalizeIgnoresPadding(p: string, s: string, q: string)
    requires AllSpace(p) && AllSpace(q)
    ensures Normalize(p + s + q) == Normalize(s)
  {
    ToLowerAppend(p + s, q);
    ToLowerAppend(p, s);
    ToLowerOfSpaces(p);
    ToLowerOfSpaces(q);
    TrimIgnoresPadding(p, ToLower(s), q);
  }
}
