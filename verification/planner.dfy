/**
  The week plan: seven days of three meals, each slot holding a recipe id or
  `null` (src/App.jsx:12-23), and the two updates the planner makes to it
  (src/App.jsx:484-490).
 */
module Planner {
  import opened Wrappers
  import opened Recipes

  datatype Day = Monday | Tuesday | Wednesday | Thursday | Friday | Saturday | Sunday
  datatype Meal = Breakfast | Lunch | Dinner

  /** `DAYS` and `MEALS`, in the order the plan object lists its keys. */
  const Days: seq<Day> := [Monday, Tuesday, Wednesday, Thursday, Friday, Saturday, Sunday]
  const Meals: seq<Meal> := [Breakfast, Lunch, Dinner]

  /** A slot holds a recipe id, or `null` (`None`). */
  type Slot = Option<string>
  type DayPlan = map<Meal, Slot>
  type WeekPlan = map<Day, DayPlan>

  /** No repeated elements. */
  predicate Distinct<T(==)>(xs: seq<T>) {
    forall i, j :: 0 <= i < j < |xs| ==> xs[i] != xs[j]
  }

  /** `DAYS` and `MEALS` list every day and every meal, once each. */
  lemma DaysAndMealsListed()
    ensures Distinct(Days) && Distinct(Meals)
    ensures forall d: Day :: d in Days
    ensures forall m: Meal :: m in Meals
  {
    forall d: Day ensures d in Days {
      match d
      case Monday => case Tuesday => case Wednesday => case Thursday =>
      case Friday => case Saturday => case Sunday =>
    }
    forall m: Meal ensures m in Meals {
      match m
      case Breakfast => case Lunch => case Dinner =>
    }
  }

  /** Every day key present, and under each every meal key: the shape of `EMPTY_PLAN`. */
  ghost predicate Shaped(plan: WeekPlan) {
    forall d: Day :: d in plan && FullDay(plan[d])
  }

  ghost predicate FullDay(dayPlan: DayPlan) {
    forall m: Meal :: m in dayPlan
  }

  const EmptyDay: DayPlan := map[Breakfast := None, Lunch := None, Dinner := None]

  /** `EMPTY_PLAN`. */
  const EmptyPlan: WeekPlan := map[
    Monday := EmptyDay, Tuesday := EmptyDay, Wednesday := EmptyDay, Thursday := EmptyDay,
    Friday := EmptyDay, Saturday := EmptyDay, Sunday := EmptyDay]

  /** The meals of a day; a day key that is absent reads as a day with no meals. */
  function DayOf(plan: WeekPlan, d: Day): DayPlan
  {
    if d in plan then plan[d] else map[]
  }

  /** The id in a slot; a meal key that is absent reads as `null`, which contributes nothing either way. */
  function SlotOf(dayPlan: DayPlan, m: Meal): Slot
  {
    if m in dayPlan then dayPlan[m] else None
  }

  function SlotAt(plan: WeekPlan, d: Day, m: Meal): Slot {
    SlotOf(DayOf(plan, d), m)
  }

  lemma EmptyPlanIsEmpty()
    ensures Shaped(EmptyPlan)
    ensures forall d: Day, m: Meal :: SlotAt(EmptyPlan, d, m) == None
  {
    assert FullDay(EmptyDay) by {
      forall m: Meal ensures m in EmptyDay { match m case Breakfast => case Lunch => case Dinner => }
    }
    forall d: Day ensures d in EmptyPlan && EmptyPlan[d] == EmptyDay {
      match d
      case Monday => case Tuesday => case Wednesday => case Thursday =>
      case Friday => case Saturday => case Sunday =>
    }
  }

  /** `addToPlan`: `{ ...p, [day]: { ...p[day], [meal]: recipeId } }`. */
  function AddToPlan(plan: WeekPlan, day: Day, meal: Meal, recipeId: string): (p: WeekPlan)
    ensures SlotAt(p, day, meal) == Some(recipeId)
    ensures forall d: Day, m: Meal :: d != day || m != meal ==> SlotAt(p, d, m) == SlotAt(plan, d, m)
    ensures p.Keys == plan.Keys + {day}
    ensures p[day].Keys == DayOf(plan, day).Keys + {meal}
    ensures forall d :: d in plan && d != day ==> p[d] == plan[d]
    ensures Shaped(plan) ==> Shaped(p)
  {
    plan[day := DayOf(plan, day)[meal := Some(recipeId)]]
  }

  /** `removeFromPlan`: `{ ...p, [day]: { ...p[day], [meal]: null } }`. */
  function RemoveFromPlan(plan: WeekPlan, day: Day, meal: Meal): (p: WeekPlan)
    ensures SlotAt(p, day, meal) == None
    ensures forall d: Day, m: Meal :: d != day || m != meal ==> SlotAt(p, d, m) == SlotAt(plan, d, m)
    ensures p.Keys == plan.Keys + {day}
    ensures p[day].Keys == DayOf(plan, day).Keys + {meal}
    ensures forall d :: d in plan && d != day ==> p[d] == plan[d]
    ensures Shaped(plan) ==> Shaped(p)
  {
    plan[day := DayOf(plan, day)[meal := None]]
  }

  /** Dropping a recipe into an empty slot and removing it again gives back the plan. */
  lemma RemoveUndoesAdd(plan: WeekPlan, day: Day, meal: Meal, recipeId: string)
    requires Shaped(plan) && plan[day][meal] == None
    ensures RemoveFromPlan(AddToPlan(plan, day, meal, recipeId), day, meal) == plan
  {
    var p := RemoveFromPlan(AddToPlan(plan, day, meal, recipeId), day, meal);
    assert FullDay(plan[day]);
    assert p[day] == plan[day];
  }

  /** The later of two drops onto the same slot wins. */
  lemma AddOverwrites(plan: WeekPlan, day: Day, meal: Meal, a: string, b: string)
    ensures AddToPlan(AddToPlan(plan, day, meal, a), day, meal, b) == AddToPlan(plan, day, meal, b)
  {
    var p, q := AddToPlan(AddToPlan(plan, day, meal, a), day, meal, b), AddToPlan(plan, day, meal, b);
    assert p[day] == q[day];
  }

  // ---------------------------------------------------------------------------
  // Resolving a slot
  // ---------------------------------------------------------------------------

  /** JavaScript truthiness of a slot: `null` and the empty id are skipped (`if (!id) return`). */
  predicate IsFilled(slot: Slot) {
    slot.Some? && slot.value != ""
  }

  /** The recipe a slot stands for: nothing for a falsy id or one `getRecipe` does not find. */
  function ResolveSlot(slot: Slot, recipes: seq<Recipe>): (r: Option<Recipe>)
    ensures r.Some? ==> IsFilled(slot) && r.value in recipes && r.value.id == slot.value
    ensures r.None? <==> !IsFilled(slot) || forall j :: 0 <= j < |recipes| ==> recipes[j].id != slot.value
  {
    if !IsFilled(slot) then None else GetRecipe(slot.value, recipes)
  }

  /** Plans that differ in at most one slot agree on every other slot of `day`. */
  lemma OtherSlotsOfDay(p: WeekPlan, q: WeekPlan, d: Day, m: Meal, day: Day)
    requires forall d': Day, m': Meal :: d' != d || m' != m ==> SlotAt(p, d', m') == SlotAt(q, d', m')
    ensures forall m': Meal :: day != d || m' != m ==> SlotOf(DayOf(p, day), m') == SlotOf(DayOf(q, day), m')
  {
    forall m': Meal | day != d || m' != m ensures SlotOf(DayOf(p, day), m') == SlotOf(DayOf(q, day), m') {
      assert SlotAt(p, day, m') == SlotAt(q, day, m');
    }
  }
}
