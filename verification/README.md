# Meal planner core, modelled in Dafny

This project models the pure planning logic of a weekly meal planner. The
logic lives in `src/App.jsx`. The user places recipes into a 7-day by 3-meal
plan. The planner then shows:

- per-day calorie totals, the week's total and a rounded daily average;
- a shopping list of the planned recipes' ingredient lines, keyed
  case-insensitively and without surrounding whitespace, counted and sorted
  by key.

The user can rate a recipe or mark it as cooked. Each recipe card shows an
emoji picked from the recipe id. The detail view puts a space between a digit
and a letter glued to it ("200g" is shown as "200 g").

Modules, one per file:

- `Wrappers` (`wrappers.dfy`): `Option`.
- `Text` (`text.dfy`):
  - `toLowerCase`, limited to ASCII;
  - `trim`, over the ECMAScript WhiteSpace and LineTerminator characters;
  - the key normalisation `Normalize`, which is `toLowerCase().trim()`;
  - the order `Below`, which stands in for `localeCompare`.
- `Recipes` (`recipes.dfy`): the recipe record, `getRecipe`, `updateRating`,
  `markCooked` and `recipeEmoji`.
- `Planner` (`planner.dfy`): days, meals, `EMPTY_PLAN`, `addToPlan`,
  `removeFromPlan`, and how a slot resolves to a recipe.
- `Calories` (`calories.dfy`): `getDayCalories`, `totalWeekCalories` and
  `avgDailyCalories`.
- `ShoppingList` (`shopping_list.dfy`): `generateShoppingList`. It is a method
  whose nested loops fill a `map<string, nat>`, the `ingredientMap` dictionary.
  It is proved against `Tallies`, a specification of what a shopping list of a
  sequence of keys is.
- `DisplaySpacing` (`display_spacing.dfy`): the `/(\d)([a-zA-Z])/g` replace.

Modelling choices:

- JavaScript truthiness is written out:
  - a slot counts when it holds a non-empty id (`if (!id) return`);
  - `caloriesPerServing || 0` and `timesCooked || 0` read an absent value as 0.
- `Math.round(total / 7)` on an integer total is `(2 * total + 7) / 14` with
  floor division. `Calories.AverageIsNearest` proves this is the nearest
  integer.
- The plan's days and meals are visited in `DAYS` and `MEALS` order. That is
  the key order of `EMPTY_PLAN`, and spreading existing keys keeps that order.
  `ShoppingList.OrderIndependent` shows that the order cannot change the list.
  The calorie totals are sums, so they do not depend on the order either.
- A day or meal key missing from the plan reads as an empty slot. That slot
  contributes nothing, as it would in `Object.values`.

Each ingredient line adds one (src/App.jsx:46-49), so a recipe listing the
same ingredient twice adds two.

## Model

| member | source | states |
|---|---|---|
| Recipes.RecipeIndex | src/App.jsx:27-29 | `find` stops at the first recipe with the id: that index holds the id and no earlier one does; `None` exactly when no recipe has the id |
| Recipes.GetRecipe | src/App.jsx:27-29 | the result is a recipe of the list carrying the id; `null` exactly when no recipe carries it |
| Recipes.SameIdsSameIndex | src/App.jsx:492-498 | lists with the same ids position by position resolve every id at the same position |
| Recipes.UpdateRating | src/App.jsx:492-494 | same length; matching recipes get the new rating and keep every other field; other recipes are unchanged |
| Recipes.MarkCooked | src/App.jsx:496-498 | same length; matching recipes count one more cooking, absent counting as 0, and keep every other field; other recipes are unchanged |
| Recipes.LookupAfterUpdateRating | src/App.jsx:619 | looking the id up after rating gives the open recipe updated the same way, or still nothing |
| Recipes.LookupAfterMarkCooked | src/App.jsx:620 | looking the id up after marking it cooked gives the open recipe with its count raised by one, or still nothing |
| Recipes.UpdatesKeepPlannedData | src/App.jsx:492-498 | for every id, both updates resolve the same recipes with the same ingredients and calories |
| Recipes.LastCodeUnit | src/App.jsx:79 | `charCodeAt` of the last character: the code point inside the Basic Multilingual Plane, otherwise a low surrogate |
| Recipes.RecipeEmoji | src/App.jsx:77-81 | always one of the seven emojis, except `undefined` for the empty id; a missing id gives the first emoji |
| Recipes.EmojiDependsOnLastUnit | src/App.jsx:79-80 | ids whose last code units agree modulo 7 get the same emoji |
| Planner.DaysAndMealsListed | src/App.jsx:12-13 | `DAYS` and `MEALS` list every day and every meal once |
| Planner.EmptyPlanIsEmpty | src/App.jsx:15-23 | `EMPTY_PLAN` has every day and meal key and every slot `null` |
| Planner.AddToPlan | src/App.jsx:488-490 | the slot now holds the id; every other slot, every other day and the key shape are unchanged |
| Planner.RemoveFromPlan | src/App.jsx:484-486 | the slot now holds `null`; every other slot, every other day and the key shape are unchanged |
| Planner.RemoveUndoesAdd | src/App.jsx:484-490 | adding to an empty slot and then removing from it gives back the plan |
| Planner.AddOverwrites | src/App.jsx:488-490 | of two drops onto one slot, the later wins |
| Planner.ResolveSlot | src/App.jsx:43-45 | a slot resolves only when its id is truthy and some recipe carries that id, and then to such a recipe |
| Calories.WeekAverage | src/App.jsx:462 | the average is within half a unit of total/7 |
| Calories.AverageIsNearest | src/App.jsx:462 | every other integer is strictly farther from total/7 than the average |
| Calories.MealsCaloriesNonNegative | src/App.jsx:31-37 | with no negative calorie values, a day's running sum is never negative |
| Calories.DaysCaloriesNonNegative | src/App.jsx:461 | with no negative calorie values, the week's running sum is never negative |
| Calories.TotalsNonNegative | src/App.jsx:461-462 | with no negative calorie values, day totals, the week total and the average are non-negative |
| Calories.NothingPlannedNoCalories | src/App.jsx:31-37 | a plan whose slots are all `null` or empty sums to 0 on every day and over any days |
| Calories.EmptyPlanNoCalories | src/App.jsx:461-462 | the initial plan shows 0 per day, 0 for the week and 0 on average |
| Calories.MealsSlotChange | src/App.jsx:31-37 | changing one meal moves the day's sum by exactly that slot's change |
| Calories.DayCaloriesChange | src/App.jsx:31-37 | after a one-slot change, that slot's day moves by the slot's change and every other day stays the same |
| Calories.DaysSlotChange | src/App.jsx:461 | changing one slot moves the week's sum by exactly that slot's change |
| Calories.AddToPlanCalories | src/App.jsx:488-490 | after a drop, the week total gains the new recipe's calories and loses those of the slot's previous recipe |
| Calories.RemoveFromPlanCalories | src/App.jsx:484-486 | clearing a slot lowers the week total by exactly that slot's calories |
| Calories.SameSlotCaloriesSameTotals | src/App.jsx:461 | recipe lists that give every slot the same calories give the same day and week sums |
| Calories.RecipeUpdatesKeepCalories | src/App.jsx:492-498 | rating a recipe or marking it cooked leaves the week total unchanged |
| Text.LowerChar | src/App.jsx:47 | the result is never an upper-case letter; upper-case letters are shifted down by 32; everything else is kept |
| Text.ToLowerPointwise | src/App.jsx:47 | `toLowerCase` keeps the length and lowers each character in place |
| Text.ToLowerIsLower | src/App.jsx:47 | the result of `toLowerCase` has no upper-case letter |
| Text.ToLowerOfLower | src/App.jsx:47 | `toLowerCase` leaves a string with no upper-case letter unchanged |
| Text.ToLowerAppend | src/App.jsx:47 | `toLowerCase` distributes over concatenation |
| Text.ToLowerOfSpaces | src/App.jsx:47 | `toLowerCase` leaves whitespace unchanged |
| Text.LeadingSpaces | src/App.jsx:47 | counts exactly the whitespace run at the start: all of it is whitespace and the next character is not |
| Text.TrailingSpaces | src/App.jsx:47 | counts exactly the whitespace run at the end: all of it is whitespace and the character before it is not |
| Text.Trim | src/App.jsx:47 | `trim`'s result neither starts nor ends with whitespace |
| Text.TrimDropsOnlySpaces | src/App.jsx:47 | the input is whitespace, then the trimmed text, then whitespace |
| Text.TrimUnique | src/App.jsx:47 | a trimmed text padded with whitespace on both sides trims back to itself |
| Text.TrimOfTrimmed | src/App.jsx:47 | `trim` leaves a trimmed text unchanged |
| Text.TrimIgnoresPadding | src/App.jsx:47 | extra whitespace around any text does not change its `trim` |
| Text.AllSpaceAppend | src/App.jsx:47 | two whitespace runs together are a whitespace run |
| Text.NormalizeGivesKey | src/App.jsx:47 | every shopping key is trimmed and has no upper-case letter |
| Text.NormalizeIdempotent | src/App.jsx:47 | normalising a key again gives the same key |
| Text.NormalizeIgnoresPadding | src/App.jsx:47 | a line padded with whitespace gets the same key as the bare line |
| Text.NormalizeAllKeys | src/App.jsx:46-47 | the keys of a recipe's lines come one per line, in order |
| Text.BelowIrreflexive | src/App.jsx:52 | the key order never puts a key below itself |
| Text.BelowTransitive | src/App.jsx:52 | the key order is transitive |
| Text.BelowTotal | src/App.jsx:52 | any two different keys are ordered one way or the other |
| Text.BelowAsymmetric | src/App.jsx:52 | two keys are never each below the other |
| ShoppingList.TallyCounts | src/App.jsx:48 | the dictionary holds exactly the keys seen, each mapped to its number of occurrences |
| ShoppingList.CountOneMore | src/App.jsx:46-48 | counting a recipe's next line extends the dictionary by that line's key |
| ShoppingList.EntriesOfTallyTally | src/App.jsx:52 | the sorted pairs of the dictionary are the shopping list of the keys counted, and every count is at least 1 |
| ShoppingList.GenerateShoppingList | src/App.jsx:39-53 | the result lists each key of the week once, with its number of occurrences, in strictly ascending key order; every count is at least 1 |
| ShoppingList.CountDay | src/App.jsx:41-50 | the dictionary afterwards is the count of the keys seen so far plus that day's keys |
| ShoppingList.CountSlot | src/App.jsx:42-49 | the dictionary afterwards is the count of the keys seen so far plus that slot's keys; a falsy or unknown id adds none |
| ShoppingList.CountLines | src/App.jsx:46-49 | the dictionary afterwards is the count of the keys seen so far plus the key of every line, in order |
| ShoppingList.SortEntries | src/App.jsx:52 | the result is strictly ascending and holds exactly the dictionary's pairs |
| ShoppingList.InsertEntry | src/App.jsx:52 | inserting a new key keeps the list strictly ascending, adds exactly that pair, and grows the list by one |
| ShoppingList.SortedListsEqual | src/App.jsx:52 | two strictly ascending lists with the same pairs are equal, so the sorted result is unique |
| ShoppingList.OrderIndependent | src/App.jsx:41-52 | the shopping lists of two key sequences that are permutations of each other are equal |
| ShoppingList.InMealsLines | src/App.jsx:42 | a key comes from a day exactly when it comes from one of the day's meals |
| ShoppingList.InDaysLines | src/App.jsx:41 | a key comes from the week exactly when it comes from some slot of some day |
| ShoppingList.InSlotLines | src/App.jsx:43-47 | a key comes from a slot exactly when the slot resolves to a recipe with a line that normalises to it |
| ShoppingList.KeysOfTheWeek | src/App.jsx:39-53 | a key is on the list exactly when some planned recipe has an ingredient line that normalises to it |
| ShoppingList.EmptyPlanEmptyList | src/App.jsx:39-53 | the initial plan gives an empty shopping list |
| ShoppingList.MealsLinesChange | src/App.jsx:42-49 | changing one meal changes the day's keys by exactly that slot's old and new keys |
| ShoppingList.DaysLinesChange | src/App.jsx:41-50 | changing one slot changes the week's keys by exactly that slot's old and new keys |
| ShoppingList.ChangedDay | src/App.jsx:41-50 | the day holding the changed slot changes by exactly that slot's keys |
| ShoppingList.UnchangedDay | src/App.jsx:41-50 | every other day keeps its keys |
| ShoppingList.SameDaySameLines | src/App.jsx:42-49 | days that agree on every slot give the same keys |
| ShoppingList.AddToPlanAddsIngredients | src/App.jsx:488-490 | dropping a recipe onto any slot, empty or filled, adds each of its keys once more and removes those of the recipe it replaces |
| ShoppingList.AddToEmptySlotAddsIngredients | src/App.jsx:488-490 | dropping a recipe into an empty slot only adds its keys, so a recipe in two slots counts twice |
| ShoppingList.RemoveFromPlanRemovesIngredients | src/App.jsx:484-486 | clearing a slot removes exactly that slot's keys from the week |
| ShoppingList.SameSlotLinesSameWeek | src/App.jsx:41-50 | recipe lists that give every slot the same keys give the same keys for the week |
| ShoppingList.RecipeUpdatesKeepShoppingLines | src/App.jsx:492-498 | rating a recipe or marking it cooked leaves the week's keys, and so the list, unchanged |
| DisplaySpacing.SpaceDigitLetters | src/App.jsx:374 | the output is at least as long as the line and starts with the same character |
| DisplaySpacing.ScanMatchesEveryPair | src/App.jsx:374 | the left-to-right global replace equals inserting one space after every digit that has a letter right after it |
| DisplaySpacing.LengthOfReference | src/App.jsx:374 | the reference definition adds one character per glued pair |
| DisplaySpacing.OneSpacePerPair | src/App.jsx:374 | the replace adds exactly one character per glued digit-letter pair |
| DisplaySpacing.UnchangedWithoutPairs | src/App.jsx:374 | a line with no glued pair is shown unchanged |
| DisplaySpacing.NoPairsRemain | src/App.jsx:374 | the output has no glued digit-letter pair left |
| DisplaySpacing.Idempotent | src/App.jsx:374 | applying the replace twice gives the same as once |
| DisplaySpacing.RemoveDigitLetterSpaces | src/App.jsx:374 | deleting spaces never lengthens a line |
| DisplaySpacing.RemovingSpacesUndoesReplace | src/App.jsx:374 | for every line, deleting the digit-space-letter spaces from the shown line gives the same as deleting them from the original line |
| DisplaySpacing.NothingToRemove | src/App.jsx:374 | a line without a digit-space-letter triple loses nothing to the deletion |
| DisplaySpacing.RemovingSpacesRecoversLine | src/App.jsx:374 | for lines without a digit-space-letter triple of their own, deleting the inserted spaces gives the line back |

## Left out

- Loading recipes from Google Drive, sign-in, the calorie-estimation endpoint (`api/estimate-calories.js`), drag-and-drop, the checked shopping items, the progress bars and all rendering: these are I/O or UI, not planning logic.
- React state: `setPlan` and `setRecipes` apply the modelled functions to the current value. Re-rendering and batching are not modelled.
- Text.LowerChar: lowers ASCII letters only, not the full Unicode `toLowerCase`, because Dafny has no Unicode case tables.
- Text.Below: a fixed lexicographic order on code points, not the locale-dependent collation of `localeCompare`. Keys that collate as equal under a locale but differ as strings are not modelled.
- ShoppingList.GenerateShoppingList: keys that name `Object.prototype` members (such as `constructor` or `__proto__`) would break the JavaScript dictionary. The model's `map` has no such keys.
- Calories.WeekAverage: exact integer arithmetic. IEEE-754 doubles, `NaN` and non-numeric `caloriesPerServing` values are not modelled; `|| 0` mapping `NaN` to 0 is not modelled either.
- Recipes.Recipe: `ingredients` is always a list of strings. A recipe document without the list, which would throw in `forEach` (src/App.jsx:46), is not modelled. Neither is a non-string entry, which would throw in `ing.toLowerCase()` (src/App.jsx:47).
- Recipes.RecipeEmoji: takes an optional string. A non-string id, for which `charCodeAt` is missing, is not modelled.
- Recipes.MarkCooked and Recipes.UpdateRating: ratings and counts are unbounded integers. Double precision is not modelled.
- Recipe fields the modelled logic never reads are left out of the record: author, description, image, source URL, times, yield, instructions and tags.
