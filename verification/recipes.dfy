/**
  Recipes as the planner holds them in memory, the lookup by id, the two
  updates the recipe views make (star rating, "mark as cooked"), and the
  emoji picked for a recipe card.
 */
module Recipes {
  import opened Wrappers

  /**
    A recipe document. Optional numeric fields are `None` when the document
    lacks them; the remaining display fields (author, times, instructions, ...)
    are never read by the logic modelled here and are left out.
   */
  datatype Recipe = Recipe(
    id: string,
    title: string,
    ingredients: seq<string>,
    caloriesPerServing: Option<int>,
    rating: Option<int>,
    timesCooked: Option<int>)

  // ---------------------------------------------------------------------------
  // Lookup
  // ---------------------------------------------------------------------------

  /** The position `recipes.find(r => r.id === id)` stops at, if any. */
  function RecipeIndex(id: string, recipes: seq<Recipe>): (k: Option<nat>)
    ensures k.Some? ==> k.value < |recipes| && recipes[k.value].id == id
    ensures k.Some? ==> forall j :: 0 <= j < k.value ==> recipes[j].id != id
    ensures k.None? <==> forall j :: 0 <= j < |recipes| ==> recipes[j].id != id
  {
    if recipes == [] then None
    else if recipes[0].id == id then Some(0)
    else match RecipeIndex(id, recipes[1..])
      case None => None
      case Some(k) => Some(k + 1)
  }

  /** `getRecipe`: the first recipe with the given id, or `null`. */
  function GetRecipe(id: string, recipes: seq<Recipe>): (r: Option<Recipe>)
    ensures r.Some? ==> r.value in recipes && r.value.id == id
    ensures r.None? <==> forall j :: 0 <= j < |recipes| ==> recipes[j].id != id
  {
    match RecipeIndex(id, recipes)
    case None => None
    case Some(k) => Some(recipes[k])
  }

  /** Two lists whose recipes carry the same ids position by position resolve every id at the same position. */
  lemma {:induction false} SameIdsSameIndex(id: string, recipes: seq<Recipe>, recipes': seq<Recipe>)
    requires |recipes'| == |recipes|
    requires forall i :: 0 <= i < |recipes| ==> recipes'[i].id == recipes[i].id
    ensures RecipeIndex(id, recipes') == RecipeIndex(id, recipes)
  {
    if recipes != [] && recipes[0].id != id {
      SameIdsSameIndex(id, recipes[1..], recipes'[1..]);
    }
  }

  // ---------------------------------------------------------------------------
  // Numeric fields read with a default
  // ---------------------------------------------------------------------------

  /** `r.caloriesPerServing || 0`: an absent value counts as 0 (and 0 is 0). */
  function CaloriesOf(r: Recipe): int
  {
    match r.caloriesPerServing
    case None => 0
    case Some(c) => c
  }

  /** `r.timesCooked || 0`. */
  function TimesCooked(r: Recipe): int
  {
    match r.timesCooked
    case None => 0
    case Some(n) => n
  }

  // ---------------------------------------------------------------------------
  // Updates (src/App.jsx:492-498)
  // ---------------------------------------------------------------------------

  /** `updateRating`: `rs.map(r => r.id === id ? { ...r, rating } : r)`. */
  function UpdateRating(recipes: seq<Recipe>, id: string, rating: int): (rs: seq<Recipe>)
    ensures |rs| == |recipes|
    ensures forall i :: 0 <= i < |recipes| && recipes[i].id == id ==>
      rs[i].rating == Some(rating) && rs[i] == recipes[i].(rating := rs[i].rating)
    ensures forall i :: 0 <= i < |recipes| && recipes[i].id != id ==> rs[i] == recipes[i]
  {
    seq(|recipes|, i requires 0 <= i < |recipes| =>
      if recipes[i].id == id then recipes[i].(rating := Some(rating)) else recipes[i])
  }

  /** One recipe marked as cooked once more. */
  function Cooked(r: Recipe): Recipe {
    r.(timesCooked := Some(TimesCooked(r) + 1))
  }

  /** `markCooked`: `timesCooked: (r.timesCooked || 0) + 1` on the matching recipes. */
  function MarkCooked(recipes: seq<Recipe>, id: string): (rs: seq<Recipe>)
    ensures |rs| == |recipes|
    ensures forall i :: 0 <= i < |recipes| && recipes[i].id == id ==>
      rs[i].timesCooked.Some? && TimesCooked(rs[i]) == TimesCooked(recipes[i]) + 1
      && rs[i] == recipes[i].(timesCooked := rs[i].timesCooked)
    ensures forall i :: 0 <= i < |recipes| && recipes[i].id != id ==> rs[i] == recipes[i]
  {
    seq(|recipes|, i requires 0 <= i < |recipes| =>
      if recipes[i].id == id then Cooked(recipes[i]) else recipes[i])
  }

  /**
    The open recipe is updated alongside the list (src/App.jsx:619-620) by the
    same field update; looking the id up again in the updated list gives the
    same record.
   */
  lemma LookupAfterUpdateRating(recipes: seq<Recipe>, id: string, rating: int)
    ensures GetRecipe(id, UpdateRating(recipes, id, rating)) ==
      match GetRecipe(id, recipes)
      case None => None
      case Some(r) => Some(r.(rating := Some(rating)))
  {
    var rs := UpdateRating(recipes, id, rating);
    SameIdsSameIndex(id, recipes, rs);
    match RecipeIndex(id, recipes)
    case None =>
      assert GetRecipe(id, rs) == None == GetRecipe(id, recipes);
    case Some(k) =>
      assert GetRecipe(id, recipes) == Some(recipes[k]);
      assert GetRecipe(id, rs) == Some(rs[k]);
      assert rs[k] == recipes[k].(rating := Some(rating));
  }

  lemma LookupAfterMarkCooked(recipes: seq<Recipe>, id: string)
    ensures GetRecipe(id, MarkCooked(recipes, id)) ==
      match GetRecipe(id, recipes)
      case None => None
      case Some(r) => Some(Cooked(r))
  {
    var rs := MarkCooked(recipes, id);
    SameIdsSameIndex(id, recipes, rs);
    match RecipeIndex(id, recipes)
    case None =>
      assert GetRecipe(id, rs) == None == GetRecipe(id, recipes);
    case Some(k) =>
      assert GetRecipe(id, recipes) == Some(recipes[k]);
      assert GetRecipe(id, rs) == Some(rs[k]);
      assert rs[k] == Cooked(recipes[k]);
  }

  /**
    Neither update touches what the plan views read: for every id, the recipe
    resolved afterwards has the same ingredients and calorie value.
   */
  lemma {:induction false} UpdatesKeepPlannedData(recipes: seq<Recipe>, id: string, rating: int, x: string)
    ensures var a, b, c := GetRecipe(x, recipes), GetRecipe(x, UpdateRating(recipes, id, rating)), GetRecipe(x, MarkCooked(recipes, id));
      && a.Some? == b.Some? == c.Some?
      && (a.Some? ==> a.value.ingredients == b.value.ingredients == c.value.ingredients)
      && (a.Some? ==> a.value.caloriesPerServing == b.value.caloriesPerServing == c.value.caloriesPerServing)
  {
    SameIdsSameIndex(x, recipes, UpdateRating(recipes, id, rating));
    SameIdsSameIndex(x, recipes, MarkCooked(recipes, id));
  }

  // ---------------------------------------------------------------------------
  // Card emoji (src/App.jsx:77-81)
  // ---------------------------------------------------------------------------

  const RecipeEmojis: seq<string> :=
    ["\U{1F957}", "\U{1F372}", "\U{1F958}", "\U{1F35C}", "\U{1FAD5}", "\U{1F959}", "\U{1F371}"]

  /**
    The last UTF-16 code unit of a character, what `charCodeAt` reports: the
    code point itself in the Basic Multilingual Plane, else the low surrogate.
   */
  function LastCodeUnit(c: char): (u: nat)
    ensures u < 0x10000
    ensures (c as int) < 0x10000 ==> u == c as int
    ensures (c as int) >= 0x10000 ==> 0xDC00 <= u < 0xE000
  {
    if (c as int) < 0x10000 then c as int else 0xDC00 + (c as int - 0x10000) % 0x400
  }

  /**
    `recipeEmoji(id)`: the code of the id's last unit, modulo 7, picks the
    emoji; a missing id reads as code 0. For the empty id `charCodeAt(-1)` is
    NaN, which `??` does not replace, so the index is NaN and the result is
    `undefined` (`None` here).
   */
  function RecipeEmoji(id: Option<string>): (e: Option<string>)
    ensures e.None? <==> id == Some("")
    ensures e.Some? ==> e.value in RecipeEmojis
    ensures id.None? ==> e == Some(RecipeEmojis[0])
  {
    match id
    case None => Some(RecipeEmojis[0 % |RecipeEmojis|])
    case Some(s) =>
      if s == [] then None
      else Some(RecipeEmojis[LastCodeUnit(s[|s| - 1]) % |RecipeEmojis|])
  }

  /**
    Ids whose last characters share a code unit modulo 7 get the same emoji.
    This follows directly from the definition of `RecipeEmoji`; it says which
    ids share an emoji, not which emoji they get.
   */
  lemma EmojiDependsOnLastUnit(a: string, b: string)
    requires a != [] && b != []
    requires LastCodeUnit(a[|a| - 1]) % 7 == LastCodeUnit(b[|b| - 1]) % 7
    ensures RecipeEmoji(Some(a)) == RecipeEmoji(Some(b))
  {
  }
}
