/**
  The calorie summary: per-day totals (`getDayCalories`, src/App.jsx:31-37),
  the week total and the rounded daily average (src/App.jsx:461-462).
 */
module Calories {
  import opened Wrappers
  import opened Recipes
  import opened Planner

  /** What one slot adds: the resolved recipe's `caloriesPerServing || 0`, and 0 when nothing resolves. */
  function SlotCalories(slot: Slot, recipes: seq<Recipe>): int
  {
    match ResolveSlot(slot, recipes)
    case None => 0
    case Some(r) => CaloriesOf(r)
  }

  /** The `reduce` over the given meals of a day, left to right from 0. */
  function MealsCalories(dayPlan: DayPlan, meals: seq<Meal>, recipes: seq<Recipe>): int
  {
    if meals == [] then 0
    else MealsCalories(dayPlan, meals[..|meals| - 1], recipes) + SlotCalories(SlotOf(dayPlan, meals[|meals| - 1]), recipes)
  }

  /** `getDayCalories(dayPlan, recipes)`. */
  function DayCalories(dayPlan: DayPlan, recipes: seq<Recipe>): int {
    MealsCalories(dayPlan, Meals, recipes)
  }

  /** The `reduce` over the given days of the plan. */
  function DaysCalories(plan: WeekPlan, days: seq<Day>, recipes: seq<Recipe>): int
  {
    if days == [] then 0
    else DaysCalories(plan, days[..|days| - 1], recipes) + DayCalories(DayOf(plan, days[|days| - 1]), recipes)
  }

  /** `totalWeekCalories`. */
  function WeekCalories(plan: WeekPlan, recipes: seq<Recipe>): int {
    DaysCalories(plan, Days, recipes)
  }

  /**
    `avgDailyCalories = Math.round(totalWeekCalories / 7)`: the integer nearest
    to total/7, halves rounded up. On integers this is floor((2 * total + 7) / 14).
   */
  function WeekAverage(total: int): (avg: int)
    ensures 14 * avg - 7 <= 2 * total < 14 * avg + 7
  {
    (2 * total + 7) / 14
  }

  function Abs(x: int): nat { if x < 0 then -x else x }

  /**
    The average is the nearest whole number to total/7, strictly: total/7 is
    never exactly halfway between two integers, so rounding has no tie to break.
   */
  lemma AverageIsNearest(total: int, b: int)
    requires b != WeekAverage(total)
    ensures Abs(total - 7 * WeekAverage(total)) < Abs(total - 7 * b)
  {
    var a := WeekAverage(total);
    assert -3 <= total - 7 * a <= 3;
    assert b < a ==> total - 7 * b >= 4;
    assert b > a ==> total - 7 * b <= -4;
  }

  // ---------------------------------------------------------------------------
  // Signs and the empty plan
  // ---------------------------------------------------------------------------

  predicate CaloriesNonNegative(recipes: seq<Recipe>) {
    forall i :: 0 <= i < |recipes| ==> CaloriesOf(recipes[i]) >= 0
  }

  lemma {:induction false} MealsCaloriesNonNegative(dayPlan: DayPlan, meals: seq<Meal>, recipes: seq<Recipe>)
    requires CaloriesNonNegative(recipes)
    ensures MealsCalories(dayPlan, meals, recipes) >= 0
  {
    if meals != [] {
      MealsCaloriesNonNegative(dayPlan, meals[..|meals| - 1], recipes);
      var slot := SlotOf(dayPlan, meals[|meals| - 1]);
      match ResolveSlot(slot, recipes)
      case None =>
      case Some(r) =>
        var j :| 0 <= j < |recipes| && recipes[j] == r;
    }
  }

  lemma {:induction false} DaysCaloriesNonNegative(plan: WeekPlan, days: seq<Day>, recipes: seq<Recipe>)
    requires CaloriesNonNegative(recipes)
    ensures DaysCalories(plan, days, recipes) >= 0
  {
    if days != [] {
      DaysCaloriesNonNegative(plan, days[..|days| - 1], recipes);
      MealsCaloriesNonNegative(DayOf(plan, days[|days| - 1]), Meals, recipes);
    }
  }

  /** With no negative calorie values, day totals, the week total and the average are all non-negative. */
  lemma TotalsNonNegative(plan: WeekPlan, recipes: seq<Recipe>, d: Day)
    requires CaloriesNonNegative(recipes)
    ensures DayCalories(DayOf(plan, d), recipes) >= 0
    ensures WeekCalories(plan, recipes) >= 0
    ensures WeekAverage(WeekCalories(plan, recipes)) >= 0
  {
    MealsCaloriesNonNegative(DayOf(plan, d), Meals, recipes);
    DaysCaloriesNonNegative(plan, Days, recipes);
  }

  ghost predicate NothingPlanned(plan: WeekPlan) {
    forall d: Day, m: Meal :: !IsFilled(SlotAt(plan, d, m))
  }

  lemma {:induction false} NothingPlannedNoCalories(plan: WeekPlan, days: seq<Day>, meals: seq<Meal>, recipes: seq<Recipe>)
    requires NothingPlanned(plan)
    ensures DaysCalories(plan, days, recipes) == 0
    ensures forall d: Day :: MealsCalories(DayOf(plan, d), meals, recipes) == 0
    decreases |days|, |meals|
  {
    if meals != [] {
      NothingPlannedNoCalories(plan, [], meals[..|meals| - 1], recipes);
      forall d: Day ensures MealsCalories(DayOf(plan, d), meals, recipes) == 0 {
        assert !IsFilled(SlotAt(plan, d, meals[|meals| - 1]));
      }
    }
    if days != [] {
      NothingPlannedNoCalories(plan, days[..|days| - 1], Meals, recipes);
    }
  }

  /** An all-`null` plan has 0 calories on every day, in the week, and on average. */
  lemma EmptyPlanNoCalories(recipes: seq<Recipe>, d: Day)
    ensures DayCalories(DayOf(EmptyPlan, d), recipes) == 0
    ensures WeekCalories(EmptyPlan, recipes) == 0
    ensures WeekAverage(WeekCalories(EmptyPlan, recipes)) == 0
  {
    EmptyPlanIsEmpty();
    NothingPlannedNoCalories(EmptyPlan, Days, Meals, recipes);
  }

  // ---------------------------------------------------------------------------
  // Plan updates
  // ---------------------------------------------------------------------------

  /** Changing one meal of a day moves the day's total by that slot's difference. */
  lemma {:induction false} MealsSlotChange(a: DayPlan, b: DayPlan, m: Meal, meals: seq<Meal>, recipes: seq<Recipe>)
    requires forall m': Meal :: m' != m ==> SlotOf(a, m') == SlotOf(b, m')
    requires Distinct(meals)
    ensures MealsCalories(b, meals, recipes) - (if m in meals then SlotCalories(SlotOf(b, m), recipes) else 0)
         == MealsCalories(a, meals, recipes) - (if m in meals then SlotCalories(SlotOf(a, m), recipes) else 0)
  {
    if meals != [] {
      var init, last := meals[..|meals| - 1], meals[|meals| - 1];
      assert Distinct(init);
      assert m in meals <==> m in init || m == last;
      assert last == m ==> m !in init;
      MealsSlotChange(a, b, m, init, recipes);
    }
  }

  /** Changing one slot of the plan moves the week total by that slot's difference. */
  lemma {:induction false} DaysSlotChange(p: WeekPlan, q: WeekPlan, d: Day, m: Meal, days: seq<Day>, recipes: seq<Recipe>)
    requires forall d': Day, m': Meal :: d' != d || m' != m ==> SlotAt(p, d', m') == SlotAt(q, d', m')
    requires Distinct(days)
    ensures DaysCalories(q, days, recipes) - (if d in days then SlotCalories(SlotAt(q, d, m), recipes) else 0)
         == DaysCalories(p, days, recipes) - (if d in days then SlotCalories(SlotAt(p, d, m), recipes) else 0)
  {
    if days != [] {
      var init, last := days[..|days| - 1], days[|days| - 1];
      assert Distinct(init);
      assert d in days <==> d in init || d == last;
      assert last == d ==> d !in init;
      DaysSlotChange(p, q, d, m, init, recipes);
      DayCaloriesChange(p, q, d, m, last, recipes);
    }
  }

  /** One day's total moves by the changed slot's difference, or not at all on any other day. */
  lemma DayCaloriesChange(p: WeekPlan, q: WeekPlan, d: Day, m: Meal, day: Day, recipes: seq<Recipe>)
    requires forall d': Day, m': Meal :: d' != d || m' != m ==> SlotAt(p, d', m') == SlotAt(q, d', m')
    ensures DayCalories(DayOf(q, day), recipes) - (if day == d then SlotCalories(SlotAt(q, d, m), recipes) else 0)
         == DayCalories(DayOf(p, day), recipes) - (if day == d then SlotCalories(SlotAt(p, d, m), recipes) else 0)
  {
    DaysAndMealsListed();
    OtherSlotsOfDay(p, q, d, m, day);
    MealsSlotChange(DayOf(p, day), DayOf(q, day), m, Meals, recipes);
  }

  /** Dropping a recipe into a slot: the week total gains its calories and loses those of what was there. */
  lemma AddToPlanCalories(plan: WeekPlan, day: Day, meal: Meal, recipeId: string, recipes: seq<Recipe>)
    ensures WeekCalories(AddToPlan(plan, day, meal, recipeId), recipes)
         == WeekCalories(plan, recipes) - SlotCalories(SlotAt(plan, day, meal), recipes) + SlotCalories(Some(recipeId), recipes)
  {
    DaysAndMealsListed();
    DaysSlotChange(plan, AddToPlan(plan, day, meal, recipeId), day, meal, Days, recipes);
  }

  /** Clearing a slot: the week total loses exactly that slot's calories. */
  lemma RemoveFromPlanCalories(plan: WeekPlan, day: Day, meal: Meal, recipes: seq<Recipe>)
    ensures WeekCalories(RemoveFromPlan(plan, day, meal), recipes)
         == WeekCalories(plan, recipes) - SlotCalories(SlotAt(plan, day, meal), recipes)
  {
    DaysAndMealsListed();
    DaysSlotChange(plan, RemoveFromPlan(plan, day, meal), day, meal, Days, recipes);
  }

  // ---------------------------------------------------------------------------
  // Recipe updates
  // ---------------------------------------------------------------------------

  lemma {:induction false} SameSlotCaloriesSameTotals(plan: WeekPlan, days: seq<Day>, meals: seq<Meal>, recipes: seq<Recipe>, recipes': seq<Recipe>)
    requires forall s: Slot :: SlotCalories(s, recipes) == SlotCalories(s, recipes')
    ensures DaysCalories(plan, days, recipes) == DaysCalories(plan, days, recipes')
    ensures forall d: Day :: MealsCalories(DayOf(plan, d), meals, recipes) == MealsCalories(DayOf(plan, d), meals, recipes')
    decreases |days|, |meals|
  {
    if meals != [] {
      SameSlotCaloriesSameTotals(plan, [], meals[..|meals| - 1], recipes, recipes');
    }
    if days != [] {
      SameSlotCaloriesSameTotals(plan, days[..|days| - 1], Meals, recipes, recipes');
    }
  }

  /** Rating a recipe or marking it cooked leaves every calorie figure of the plan as it was. */
  lemma RecipeUpdatesKeepCalories(plan: WeekPlan, recipes: seq<Recipe>, id: string, rating: int)
    ensures WeekCalories(plan, UpdateRating(recipes, id, rating)) == WeekCalories(plan, recipes)
    ensures WeekCalories(plan, MarkCooked(recipes, id)) == WeekCalories(plan, recipes)
  {
    forall s: Slot ensures SlotCalories(s, recipes) == SlotCalories(s, UpdateRating(recipes, id, rating))
      && SlotCalories(s, recipes) == SlotCalories(s, MarkCooked(recipes, id))
    {
      if IsFilled(s) { UpdatesKeepPlannedData(recipes, id, rating, s.value); }
    }
    SameSlotCaloriesSameTotals(plan, Days, Meals, recipes, UpdateRating(recipes, id, rating));
    SameSlotCaloriesSameTotals(plan, Days, Meals, recipes, MarkCooked(recipes, id));
  }
}
