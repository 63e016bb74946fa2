/**
  The shopping list (`generateShoppingList`, src/App.jsx:39-53): every
  ingredient line of every recipe placed in the week, keyed by its lower-cased,
  trimmed text, counted, and listed in key order.
 */
module ShoppingList {
  import opened Wrappers
  import opened Text
  import opened Recipes
  import opened Planner

  /** One `[key, count]` pair of the result. */
  datatype Entry = Entry(item: string, count: nat)

  // ---------------------------------------------------------------------------
  // The keys the week contributes, in the order the loops visit them
  // ---------------------------------------------------------------------------

  /** The keys of one slot: those of its resolved recipe's ingredient lines, or none. */
  function SlotLines(slot: Slot, recipes: seq<Recipe>): seq<string>
  {
    match ResolveSlot(slot, recipes)
    case None => []
    case Some(r) => NormalizeAll(r.ingredients)
  }

  function MealsLines(dayPlan: DayPlan, meals: seq<Meal>, recipes: seq<Recipe>): seq<string>
  {
    if meals == [] then []
    else MealsLines(dayPlan, meals[..|meals| - 1], recipes) + SlotLines(SlotOf(dayPlan, meals[|meals| - 1]), recipes)
  }

  function DaysLines(plan: WeekPlan, days: seq<Day>, recipes: seq<Recipe>): seq<string>
  {
    if days == [] then []
    else DaysLines(plan, days[..|days| - 1], recipes) + MealsLines(DayOf(plan, days[|days| - 1]), Meals, recipes)
  }

  /** Every key of the week, once per (slot, ingredient line). */
  function ShoppingLines(plan: WeekPlan, recipes: seq<Recipe>): seq<string> {
    DaysLines(plan, Days, recipes)
  }

  // ---------------------------------------------------------------------------
  // What a shopping list of some keys is
  // ---------------------------------------------------------------------------

  /** Strictly ascending by item, hence no item twice. */
  predicate StrictlySorted(list: seq<Entry>) {
    forall i, j :: 0 <= i < j < |list| ==> Below(list[i].item, list[j].item)
  }

  /**
    `list` is the shopping list of `lines`: one entry per distinct key, whose
    count is the number of times the key occurs, in ascending key order.
   */
  ghost predicate Tallies(list: seq<Entry>, lines: seq<string>) {
    && StrictlySorted(list)
    && (forall e :: e in list ==> e.item in lines && e.count == multiset(lines)[e.item])
    && (forall k :: k in lines ==> Entry(k, multiset(lines)[k]) in list)
  }

  /**
    The dictionary `ingredientMap` once the keys `lines` have been counted in
    order, starting from `{}`: each key seen maps to how often it was seen.
   */
  function Tally(lines: seq<string>): map<string, nat>
  {
    if lines == [] then map[]
    else
      var counts := Tally(lines[..|lines| - 1]);
      var key := lines[|lines| - 1];
      counts[key := (if key in counts then counts[key] else 0) + 1]
  }

  /** The dictionary holds exactly the keys seen, each with the number of times it was seen. */
  lemma {:induction false} TallyCounts(lines: seq<string>)
    ensures forall k :: k in Tally(lines) <==> k in lines
    ensures forall k :: k in Tally(lines) ==> Tally(lines)[k] == multiset(lines)[k]
  {
    if lines != [] {
      var init, key := lines[..|lines| - 1], lines[|lines| - 1];
      assert lines == init + [key];
      TallyCounts(init);
    }
  }

  /** Counting one more key: `ingredientMap[key] = (ingredientMap[key] || 0) + 1`. */
  lemma TallyOneMore(counts: map<string, nat>, lines: seq<string>, key: string)
    requires counts == Tally(lines)
    ensures Tally(lines + [key]) == counts[key := (if key in counts then counts[key] else 0) + 1]
  {
    assert (lines + [key])[..|lines|] == lines;
  }

  lemma MealsLinesOneMore(seen: seq<string>, dayPlan: DayPlan, j: nat, recipes: seq<Recipe>)
    requires j < |Meals|
    ensures seen + MealsLines(dayPlan, Meals[..j + 1], recipes)
         == (seen + MealsLines(dayPlan, Meals[..j], recipes)) + SlotLines(SlotOf(dayPlan, Meals[j]), recipes)
  {
    assert Meals[..j + 1][..j] == Meals[..j];
  }

  /** One more ingredient line of a recipe counted. */
  lemma CountOneMore(counts: map<string, nat>, seen: seq<string>, ingredients: seq<string>, k: nat, key: string)
    requires k < |ingredients| && key == Normalize(ingredients[k])
    requires counts == Tally(seen + NormalizeAll(ingredients[..k]))
    ensures Tally(seen + NormalizeAll(ingredients[..k + 1])) == counts[key := (if key in counts then counts[key] else 0) + 1]
  {
    assert ingredients[..k + 1][..k] == ingredients[..k];
    assert seen + NormalizeAll(ingredients[..k + 1]) == (seen + NormalizeAll(ingredients[..k])) + [key];
    TallyOneMore(counts, seen + NormalizeAll(ingredients[..k]), key);
  }

  /** The sorted pairs of the dictionary of `lines` are the shopping list of `lines`. */
  lemma EntriesOfTallyTally(list: seq<Entry>, lines: seq<string>)
    requires StrictlySorted(list)
    requires forall e :: e in list <==> e.item in Tally(lines) && e.count == Tally(lines)[e.item]
    ensures Tallies(list, lines)
    ensures forall e :: e in list ==> e.count >= 1
  {
    TallyCounts(lines);
  }

  // ---------------------------------------------------------------------------
  // The operation
  // ---------------------------------------------------------------------------

  /**
    `generateShoppingList(plan, recipes)`. The two nested `forEach` callbacks
    are `CountDay` and `CountSlot` below; the dictionary they update is passed
    in and handed back.
   */
  method GenerateShoppingList(plan: WeekPlan, recipes: seq<Recipe>) returns (list: seq<Entry>)
    ensures Tallies(list, ShoppingLines(plan, recipes))
    ensures forall e :: e in list ==> e.count >= 1
  {
    var counts: map<string, nat> := map[];
    var i := 0;
    while i < |Days|
      invariant 0 <= i <= |Days|
      invariant counts == Tally(DaysLines(plan, Days[..i], recipes))
    {
      var dayPlan := DayOf(plan, Days[i]);
      counts := CountDay(counts, DaysLines(plan, Days[..i], recipes), dayPlan, recipes);
      DaysLinesOneMore(plan, i, recipes);
      i := i + 1;
    }
    assert Days[..i] == Days;
    list := SortEntries(counts);
    EntriesOfTallyTally(list, ShoppingLines(plan, recipes));
  }

  lemma DaysLinesOneMore(plan: WeekPlan, i: nat, recipes: seq<Recipe>)
    requires i < |Days|
    ensures DaysLines(plan, Days[..i + 1], recipes) == DaysLines(plan, Days[..i], recipes) + MealsLines(DayOf(plan, Days[i]), Meals, recipes)
  {
    assert Days[..i + 1][..i] == Days[..i];
  }

  /** `dayPlan => Object.values(dayPlan).forEach(...)`: counts every key of one day. */
  method CountDay(counts: map<string, nat>, ghost seen: seq<string>, dayPlan: DayPlan, recipes: seq<Recipe>)
    returns (counts': map<string, nat>)
    requires counts == Tally(seen)
    ensures counts' == Tally(seen + MealsLines(dayPlan, Meals, recipes))
  {
    counts' := counts;
    ghost var done := seen;
    var j := 0;
    while j < |Meals|
      invariant 0 <= j <= |Meals|
      invariant done == seen + MealsLines(dayPlan, Meals[..j], recipes)
      invariant counts' == Tally(done)
    {
      var slot := SlotOf(dayPlan, Meals[j]);
      counts' := CountSlot(counts', done, slot, recipes);
      MealsLinesOneMore(seen, dayPlan, j, recipes);
      done := done + SlotLines(slot, recipes);
      j := j + 1;
    }
    assert Meals[..j] == Meals;
  }

  /**
    `id => { ... }`: skips a falsy id and an id `getRecipe` does not find,
    else counts the key of every ingredient line of the recipe.
   */
  method CountSlot(counts: map<string, nat>, ghost seen: seq<string>, slot: Slot, recipes: seq<Recipe>)
    returns (counts': map<string, nat>)
    requires counts == Tally(seen)
    ensures counts' == Tally(seen + SlotLines(slot, recipes))
  {
    counts' := counts;
    if !IsFilled(slot) {
      assert seen + [] == seen;
      return;
    }
    var r := GetRecipe(slot.value, recipes);
    if r.None? {
      assert seen + [] == seen;
      return;
    }
    counts' := CountLines(counts, seen, r.value.ingredients);
  }

  /** `r.ingredients.forEach(ing => { ... })`: counts the key of every line, in order. */
  method CountLines(counts: map<string, nat>, ghost seen: seq<string>, ingredients: seq<string>)
    returns (counts': map<string, nat>)
    requires counts == Tally(seen)
    ensures counts' == Tally(seen + NormalizeAll(ingredients))
  {
    counts' := counts;
    assert seen + NormalizeAll(ingredients[..0]) == seen;
    var k := 0;
    while k < |ingredients|
      invariant 0 <= k <= |ingredients|
      invariant counts' == Tally(seen + NormalizeAll(ingredients[..k]))
    {
      var key := Normalize(ingredients[k]);
      CountOneMore(counts', seen, ingredients, k, key);
      counts' := counts'[key := (if key in counts' then counts'[key] else 0) + 1];
      k := k + 1;
    }
    assert ingredients[..k] == ingredients;
  }

  /**
    `Object.entries(ingredientMap).sort((a, b) => a[0].localeCompare(b[0]))`:
    the dictionary's pairs, each inserted in key order.
   */
  method SortEntries(counts: map<string, nat>) returns (list: seq<Entry>)
    ensures StrictlySorted(list)
    ensures forall e :: e in list <==> e.item in counts && e.count == counts[e.item]
  {
    list := [];
    var remaining := counts.Keys;
    while remaining != {}
      invariant remaining <= counts.Keys
      invariant StrictlySorted(list)
      invariant forall e :: e in list ==> e.item in counts && e.item !in remaining && e.count == counts[e.item]
      invariant forall k :: k in counts && k !in remaining ==> Entry(k, counts[k]) in list
      decreases remaining
    {
      var k :| k in remaining;
      list := InsertEntry(list, Entry(k, counts[k]));
      remaining := remaining - {k};
    }
  }

  /** Puts `e` into an ascending list whose items all differ from its own, keeping it ascending. */
  function InsertEntry(list: seq<Entry>, e: Entry): (r: seq<Entry>)
    requires StrictlySorted(list)
    requires forall x :: x in list ==> x.item != e.item
    ensures StrictlySorted(r)
    ensures forall x :: x in r <==> x in list || x == e
    ensures |r| == |list| + 1
  {
    if list == [] then [e]
    else if Below(e.item, list[0].item) then
      assert forall j :: 0 < j < |list| ==> Below(e.item, list[j].item) by {
        forall j | 0 < j < |list| ensures Below(e.item, list[j].item) {
          BelowTransitive(e.item, list[0].item, list[j].item);
        }
      }
      [e] + list
    else
      BelowTotal(e.item, list[0].item);
      var rest := InsertEntry(list[1..], e);
      assert forall x :: x in rest ==> Below(list[0].item, x.item) by {
        forall x | x in rest ensures Below(list[0].item, x.item) {
          if x != e {
            var j :| 0 <= j < |list[1..]| && list[1..][j] == x;
            assert list[j + 1] == x;
          }
        }
      }
      var r := [list[0]] + rest;
      assert forall j :: 0 < j < |r| ==> r[j] in rest;
      r
  }

  // ---------------------------------------------------------------------------
  // The result does not depend on the visiting order
  // ---------------------------------------------------------------------------

  /** Two strictly ascending lists with the same entries are the same list. */
  lemma {:induction false} SortedListsEqual(a: seq<Entry>, b: seq<Entry>)
    requires StrictlySorted(a) && StrictlySorted(b)
    requires forall e :: e in a <==> e in b
    ensures a == b
  {
    if a != [] { assert a[0] in a; }
    if b != [] { assert b[0] in b; }
    if a != [] && b != [] {
      assert a[0] in b && b[0] in a;
      var i :| 0 <= i < |a| && a[i] == b[0];
      var j :| 0 <= j < |b| && b[j] == a[0];
      if i != 0 && j != 0 {
        BelowAsymmetric(a[0].item, a[i].item);
      }
      assert a[0] == b[0] by {
        if i == 0 {} else if j == 0 {} else {}
      }
      forall e ensures e in a[1..] <==> e in b[1..] {
        if e in a[1..] {
          var k :| 1 <= k < |a| && a[k] == e;
          BelowIrreflexive(a[0].item);
          assert e in a && e in b;
          var l :| 0 <= l < |b| && b[l] == e;
          assert l != 0;
          assert b[1..][l - 1] == e;
        }
        if e in b[1..] {
          var k :| 1 <= k < |b| && b[k] == e;
          BelowIrreflexive(b[0].item);
          assert e in b && e in a;
          var l :| 0 <= l < |a| && a[l] == e;
          assert l != 0;
          assert a[1..][l - 1] == e;
        }
      }
      SortedListsEqual(a[1..], b[1..]);
      assert a == [a[0]] + a[1..] && b == [b[0]] + b[1..];
    }
  }

  /**
    The shopping list depends only on how often each key occurs: lines visited
    in any other order (or split over the slots differently) give the same list.
   */
  lemma OrderIndependent(list1: seq<Entry>, lines1: seq<string>, list2: seq<Entry>, lines2: seq<string>)
    requires multiset(lines1) == multiset(lines2)
    requires Tallies(list1, lines1) && Tallies(list2, lines2)
    ensures list1 == list2
  {
    forall e ensures e in list1 <==> e in list2 {
      if e in list1 { assert e.item in multiset(lines2); }
      if e in list2 { assert e.item in multiset(lines1); }
    }
    SortedListsEqual(list1, list2);
  }

  // ---------------------------------------------------------------------------
  // Which keys occur, and how often
  // ---------------------------------------------------------------------------

  lemma {:induction false} InMealsLines(dayPlan: DayPlan, meals: seq<Meal>, recipes: seq<Recipe>, k: string)
    ensures k in MealsLines(dayPlan, meals, recipes) <==> exists m :: m in meals && k in SlotLines(SlotOf(dayPlan, m), recipes)
  {
    if meals != [] {
      var init, last := meals[..|meals| - 1], meals[|meals| - 1];
      InMealsLines(dayPlan, init, recipes, k);
      assert forall m :: m in meals <==> m in init || m == last;
    }
  }

  lemma {:induction false} InDaysLines(plan: WeekPlan, days: seq<Day>, recipes: seq<Recipe>, k: string)
    ensures k in DaysLines(plan, days, recipes) <==> exists d, m :: d in days && k in SlotLines(SlotAt(plan, d, m), recipes)
  {
    if days != [] {
      var init, last := days[..|days| - 1], days[|days| - 1];
      InDaysLines(plan, init, recipes, k);
      InMealsLines(DayOf(plan, last), Meals, recipes, k);
      assert DaysLines(plan, days, recipes) == DaysLines(plan, init, recipes) + MealsLines(DayOf(plan, last), Meals, recipes);
      if k in DaysLines(plan, days, recipes) {
        if k in DaysLines(plan, init, recipes) {
          var d, m :| d in init && k in SlotLines(SlotAt(plan, d, m), recipes);
          assert d in days;
        } else {
          var m :| m in Meals && k in SlotLines(SlotOf(DayOf(plan, last), m), recipes);
          assert last in days && k in SlotLines(SlotAt(plan, last, m), recipes);
        }
      }
      if exists d, m :: d in days && k in SlotLines(SlotAt(plan, d, m), recipes) {
        var d, m :| d in days && k in SlotLines(SlotAt(plan, d, m), recipes);
        if d == last {
          DaysAndMealsListed();
          assert m in Meals;
        } else {
          assert d in init;
        }
      }
    }
  }

  /** The keys of one slot are those of its recipe's ingredient lines. */
  lemma InSlotLines(slot: Slot, recipes: seq<Recipe>, k: string)
    ensures k in SlotLines(slot, recipes) <==>
      exists r, i :: ResolveSlot(slot, recipes) == Some(r) && 0 <= i < |r.ingredients| && Normalize(r.ingredients[i]) == k
  {
    if k in SlotLines(slot, recipes) {
      var r := ResolveSlot(slot, recipes).value;
      NormalizeAllKeys(r.ingredients);
      var i :| 0 <= i < |r.ingredients| && NormalizeAll(r.ingredients)[i] == k;
    }
    if exists r, i :: ResolveSlot(slot, recipes) == Some(r) && 0 <= i < |r.ingredients| && Normalize(r.ingredients[i]) == k {
      var r, i :| ResolveSlot(slot, recipes) == Some(r) && 0 <= i < |r.ingredients| && Normalize(r.ingredients[i]) == k;
      NormalizeAllKeys(r.ingredients);
      assert NormalizeAll(r.ingredients)[i] == k;
    }
  }

  /**
    A key is on the list exactly when some slot of the week resolves to a
    recipe with an ingredient line that normalises to it.
   */
  lemma KeysOfTheWeek(plan: WeekPlan, recipes: seq<Recipe>, list: seq<Entry>, k: string)
    requires Tallies(list, ShoppingLines(plan, recipes))
    ensures (exists n :: Entry(k, n) in list) <==>
      exists d, m, r, i :: ResolveSlot(SlotAt(plan, d, m), recipes) == Some(r) && 0 <= i < |r.ingredients| && Normalize(r.ingredients[i]) == k
  {
    DaysAndMealsListed();
    InDaysLines(plan, Days, recipes, k);
    var lines := ShoppingLines(plan, recipes);
    if exists n :: Entry(k, n) in list {
      var n :| Entry(k, n) in list;
      assert k in lines;
      var d, m :| d in Days && k in SlotLines(SlotAt(plan, d, m), recipes);
      InSlotLines(SlotAt(plan, d, m), recipes, k);
    }
    if exists d, m, r, i :: ResolveSlot(SlotAt(plan, d, m), recipes) == Some(r) && 0 <= i < |r.ingredients| && Normalize(r.ingredients[i]) == k {
      var d, m, r, i :| ResolveSlot(SlotAt(plan, d, m), recipes) == Some(r) && 0 <= i < |r.ingredients| && Normalize(r.ingredients[i]) == k;
      InSlotLines(SlotAt(plan, d, m), recipes, k);
      assert k in lines;
      assert Entry(k, multiset(lines)[k]) in list;
    }
  }

  /** With nothing planned there is nothing to buy. */
  lemma EmptyPlanEmptyList(recipes: seq<Recipe>, list: seq<Entry>)
    requires Tallies(list, ShoppingLines(EmptyPlan, recipes))
    ensures list == []
  {
    EmptyPlanIsEmpty();
    if list != [] {
      var k := list[0].item;
      assert k in ShoppingLines(EmptyPlan, recipes);
      InDaysLines(EmptyPlan, Days, recipes, k);
      assert false;
    }
  }

  // ---------------------------------------------------------------------------
  // Plan updates
  // ---------------------------------------------------------------------------

  /** Adding the same keys to both sides of a balance keeps it balanced. */
  lemma AddToBoth(a: multiset<string>, b: multiset<string>, x: multiset<string>, y: multiset<string>, sa: multiset<string>, sb: multiset<string>)
    requires b + x == a + y
    requires sa == sb
    ensures (b + sb) + x == (a + sa) + y
  {
    assert forall k :: ((b + sb) + x)[k] == (b + x)[k] + sb[k];
  }

  /** Swapping one contribution for another on both sides. */
  lemma Exchange(a: multiset<string>, b: multiset<string>, sa: multiset<string>, sb: multiset<string>)
    requires b + multiset{} == a + multiset{}
    ensures (b + sb) + sa == (a + sa) + sb
  {
    assert b == b + multiset{} && a == a + multiset{};
  }

  /** A balanced day placed over an unchanged rest of the week. */
  lemma ExchangeDay(ip: multiset<string>, iq: multiset<string>, lp: multiset<string>, lq: multiset<string>, sp: multiset<string>, sq: multiset<string>)
    requires iq + multiset{} == ip + multiset{}
    requires lq + sp == lp + sq
    ensures (iq + lq) + sp == (ip + lp) + sq
  {
    assert iq == iq + multiset{} && ip == ip + multiset{};
    assert forall k :: ((iq + lq) + sp)[k] == iq[k] + (lq + sp)[k];
    assert forall k :: ((ip + lp) + sq)[k] == ip[k] + (lp + sq)[k];
  }

  lemma {:induction false} MealsLinesChange(a: DayPlan, b: DayPlan, m: Meal, meals: seq<Meal>, recipes: seq<Recipe>)
    requires forall m': Meal :: m' != m ==> SlotOf(a, m') == SlotOf(b, m')
    requires Distinct(meals)
    ensures multiset(MealsLines(b, meals, recipes)) + (if m in meals then multiset(SlotLines(SlotOf(a, m), recipes)) else multiset{})
         == multiset(MealsLines(a, meals, recipes)) + (if m in meals then multiset(SlotLines(SlotOf(b, m), recipes)) else multiset{})
  {
    if meals != [] {
      var init, last := meals[..|meals| - 1], meals[|meals| - 1];
      assert Distinct(init);
      assert m in meals <==> m in init || m == last;
      MealsLinesChange(a, b, m, init, recipes);
      var sa, sb := multiset(SlotLines(SlotOf(a, last), recipes)), multiset(SlotLines(SlotOf(b, last), recipes));
      var ia, ib := multiset(MealsLines(a, init, recipes)), multiset(MealsLines(b, init, recipes));
      assert multiset(MealsLines(a, meals, recipes)) == ia + sa;
      assert multiset(MealsLines(b, meals, recipes)) == ib + sb;
      if last == m {
        assert m !in init;
        Exchange(ia, ib, sa, sb);
      } else {
        var x := if m in init then multiset(SlotLines(SlotOf(a, m), recipes)) else multiset{};
        var y := if m in init then multiset(SlotLines(SlotOf(b, m), recipes)) else multiset{};
        AddToBoth(ia, ib, x, y, sa, sb);
      }
    }
  }

  lemma {:induction false} DaysLinesChange(p: WeekPlan, q: WeekPlan, d: Day, m: Meal, days: seq<Day>, recipes: seq<Recipe>)
    requires forall d': Day, m': Meal :: d' != d || m' != m ==> SlotAt(p, d', m') == SlotAt(q, d', m')
    requires Distinct(days)
    ensures multiset(DaysLines(q, days, recipes)) + (if d in days then multiset(SlotLines(SlotAt(p, d, m), recipes)) else multiset{})
         == multiset(DaysLines(p, days, recipes)) + (if d in days then multiset(SlotLines(SlotAt(q, d, m), recipes)) else multiset{})
  {
    if days != [] {
      var init, last := days[..|days| - 1], days[|days| - 1];
      assert Distinct(init);
      assert d in days <==> d in init || d == last;
      DaysLinesChange(p, q, d, m, init, recipes);
      var dp, dq := DayOf(p, last), DayOf(q, last);
      var lp, lq := multiset(MealsLines(dp, Meals, recipes)), multiset(MealsLines(dq, Meals, recipes));
      var ip, iq := multiset(DaysLines(p, init, recipes)), multiset(DaysLines(q, init, recipes));
      assert multiset(DaysLines(p, days, recipes)) == ip + lp;
      assert multiset(DaysLines(q, days, recipes)) == iq + lq;
      if last == d {
        assert d !in init;
        ChangedDay(p, q, d, m, recipes);
        ExchangeDay(ip, iq, lp, lq, multiset(SlotLines(SlotAt(p, d, m), recipes)), multiset(SlotLines(SlotAt(q, d, m), recipes)));
      } else {
        UnchangedDay(p, q, d, m, last, recipes);
        var x := if d in init then multiset(SlotLines(SlotAt(p, d, m), recipes)) else multiset{};
        var y := if d in init then multiset(SlotLines(SlotAt(q, d, m), recipes)) else multiset{};
        AddToBoth(ip, iq, x, y, lp, lq);
      }
    }
  }

  /** The day holding the changed slot: its keys change by that slot's keys. */
  lemma ChangedDay(p: WeekPlan, q: WeekPlan, d: Day, m: Meal, recipes: seq<Recipe>)
    requires forall d': Day, m': Meal :: d' != d || m' != m ==> SlotAt(p, d', m') == SlotAt(q, d', m')
    ensures multiset(MealsLines(DayOf(q, d), Meals, recipes)) + multiset(SlotLines(SlotAt(p, d, m), recipes))
         == multiset(MealsLines(DayOf(p, d), Meals, recipes)) + multiset(SlotLines(SlotAt(q, d, m), recipes))
  {
    OtherSlotsOfDay(p, q, d, m, d);
    DaysAndMealsListed();
    MealsLinesChange(DayOf(p, d), DayOf(q, d), m, Meals, recipes);
  }

  /** Any other day keeps its keys. */
  lemma UnchangedDay(p: WeekPlan, q: WeekPlan, d: Day, m: Meal, day: Day, recipes: seq<Recipe>)
    requires forall d': Day, m': Meal :: d' != d || m' != m ==> SlotAt(p, d', m') == SlotAt(q, d', m')
    requires day != d
    ensures MealsLines(DayOf(p, day), Meals, recipes) == MealsLines(DayOf(q, day), Meals, recipes)
  {
    OtherSlotsOfDay(p, q, d, m, day);
    SameDaySameLines(DayOf(p, day), DayOf(q, day), Meals, recipes);
  }

  lemma {:induction false} SameDaySameLines(a: DayPlan, b: DayPlan, meals: seq<Meal>, recipes: seq<Recipe>)
    requires forall m: Meal :: SlotOf(a, m) == SlotOf(b, m)
    ensures MealsLines(a, meals, recipes) == MealsLines(b, meals, recipes)
  {
    if meals != [] {
      SameDaySameLines(a, b, meals[..|meals| - 1], recipes);
    }
  }

  /**
    Dropping a recipe onto a slot, empty or not: the week gains each of the
    recipe's ingredient keys once more and loses those of the recipe it replaces.
   */
  lemma AddToPlanAddsIngredients(plan: WeekPlan, day: Day, meal: Meal, recipeId: string, recipes: seq<Recipe>)
    ensures multiset(ShoppingLines(AddToPlan(plan, day, meal, recipeId), recipes)) + multiset(SlotLines(SlotAt(plan, day, meal), recipes))
         == multiset(ShoppingLines(plan, recipes)) + multiset(SlotLines(Some(recipeId), recipes))
  {
    DaysAndMealsListed();
    DaysLinesChange(plan, AddToPlan(plan, day, meal, recipeId), day, meal, Days, recipes);
  }

  /** Onto an empty slot nothing is lost: a recipe planned in two slots counts twice. */
  lemma AddToEmptySlotAddsIngredients(plan: WeekPlan, day: Day, meal: Meal, recipeId: string, recipes: seq<Recipe>)
    requires !IsFilled(SlotAt(plan, day, meal))
    ensures multiset(ShoppingLines(AddToPlan(plan, day, meal, recipeId), recipes))
         == multiset(ShoppingLines(plan, recipes)) + multiset(SlotLines(Some(recipeId), recipes))
  {
    AddToPlanAddsIngredients(plan, day, meal, recipeId, recipes);
    assert SlotLines(SlotAt(plan, day, meal), recipes) == [];
    assert multiset(ShoppingLines(AddToPlan(plan, day, meal, recipeId), recipes)) + multiset{}
        == multiset(ShoppingLines(AddToPlan(plan, day, meal, recipeId), recipes));
  }

  /** Clearing a slot takes exactly its recipe's keys off the week. */
  lemma RemoveFromPlanRemovesIngredients(plan: WeekPlan, day: Day, meal: Meal, recipes: seq<Recipe>)
    ensures multiset(ShoppingLines(RemoveFromPlan(plan, day, meal), recipes)) + multiset(SlotLines(SlotAt(plan, day, meal), recipes))
         == multiset(ShoppingLines(plan, recipes))
  {
    DaysAndMealsListed();
    DaysLinesChange(plan, RemoveFromPlan(plan, day, meal), day, meal, Days, recipes);
  }

  // ---------------------------------------------------------------------------
  // Recipe updates
  // ---------------------------------------------------------------------------

  lemma {:induction false} SameSlotLinesSameWeek(plan: WeekPlan, days: seq<Day>, meals: seq<Meal>, recipes: seq<Recipe>, recipes': seq<Recipe>)
    requires forall s: Slot :: SlotLines(s, recipes) == SlotLines(s, recipes')
    ensures DaysLines(plan, days, recipes) == DaysLines(plan, days, recipes')
    ensures forall d: Day :: MealsLines(DayOf(plan, d), meals, recipes) == MealsLines(DayOf(plan, d), meals, recipes')
    decreases |days|, |meals|
  {
    if meals != [] {
      SameSlotLinesSameWeek(plan, [], meals[..|meals| - 1], recipes, recipes');
    }
    if days != [] {
      SameSlotLinesSameWeek(plan, days[..|days| - 1], Meals, recipes, recipes');
    }
  }

  /** Rating a recipe or marking it cooked leaves the week's keys, and so the shopping list, as they were. */
  lemma RecipeUpdatesKeepShoppingLines(plan: WeekPlan, recipes: seq<Recipe>, id: string, rating: int)
    ensures ShoppingLines(plan, UpdateRating(recipes, id, rating)) == ShoppingLines(plan, recipes)
    ensures ShoppingLines(plan, MarkCooked(recipes, id)) == ShoppingLines(plan, recipes)
  {
    forall s: Slot ensures SlotLines(s, recipes) == SlotLines(s, UpdateRating(recipes, id, rating))
      && SlotLines(s, recipes) == SlotLines(s, MarkCooked(recipes, id))
    {
      if IsFilled(s) { UpdatesKeepPlannedData(recipes, id, rating, s.value); }
    }
    SameSlotLinesSameWeek(plan, Days, Meals, recipes, UpdateRating(recipes, id, rating));
    SameSlotLinesSameWeek(plan, Days, Meals, recipes, MarkCooked(recipes, id));
  }
}
