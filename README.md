# Diet planner calculation core, in Dafny

This project models the calculation part of a small diet-planning tool
(`app.py`). It covers four pieces:

- **Calorie adjustment** (`CalorieAdjustment`). A weekly weight-change goal in
  kg, which must lie in [-2, 2], becomes a daily calorie delta of
  goal · 7700 / 7. The delta is converted to an integer by truncation toward
  zero, as Python's `int()` does.
- **Generic meal plan** (`MealPlanGenerator`). Each diet type (vegan,
  vegetarian, keto, paleo) has a fixed, ordered list of four sample meals.
  One pass over that list appends a meal exactly when the running total plus
  its calories stays within the budget. There is no backtracking, and an
  unknown diet type has no candidates. The loop is a method (`SelectMeals`)
  proved against a recursive reference definition (`Greedy`). The properties
  are lemmas about that definition: within budget, sum, order-preserving
  subsequence, the exact skip rule, and that no skipped meal would still fit.
- **Diet plan record** (`DietPlanBuilder`). `create_diet_plan` adds the
  calorie adjustment to the BMR for a daily total. It splits the total evenly
  over "Meal 1".."Meal n" and "Snack 1".."Snack m", and it fails with a
  division by zero when n + m = 0. It chooses the generic plan against the
  whole daily total, not against the per-slot value. Slot numbers are written
  in decimal as Python's `str` writes them (`Decimal`).
- **Weight log** (`WeightTracking`, `DateOrder`). `update_weight_log` sets
  `log[date] = weight` on the caller's dictionary in place. Here that is a
  class whose `map` field the method reassigns. `display_progress` lists the
  entries in ascending key order. Python's `str` ordering is modelled as
  `LexLess`, and a lemma proves that on ISO-8601 dates it is the calendar
  order.

Errors that the Python code raises (`ValueError`, `ZeroDivisionError`) are
returned as `Result` values (`Wrappers`).

The generic plan's total does not exceed the budget in every case. It stays
within the budget only when the budget is non-negative or when some meal was
chosen. A negative budget (a BMR plus a large negative adjustment) gives the
empty plan, whose total 0 lies above the budget. `GenericPlanWithinBudget`
states both halves.

## Model

| member | source | states |
|---|---|---|
| CalorieAdjustment.TruncateTowardZero | app.py:19 | `int()` of a float: the result lies between 0 and x and is less than 1 away from x, for either sign |
| CalorieAdjustment.CalculateCalorieAdjustment | app.py:15-19 | fails with the "between -2kg and 2kg" ValueError exactly when the goal is outside [-2, 2]; otherwise the result is goal·1100 truncated toward zero, within [-2200, 2200] |
| CalorieAdjustment.AdjustmentExamples | app.py:15-19 | goal 0 gives 0, 1 gives 1100, -2 gives -2200, and 3 gives the range error |
| CalorieAdjustment.AdjustmentIsOdd | app.py:18-19 | a loss goal gives exactly the negated adjustment of the gain goal of the same size (truncation, not floor) |
| CalorieAdjustment.AdjustmentIsMonotone | app.py:18-19 | a larger weekly goal never yields a smaller daily adjustment |
| CalorieAdjustment.TruncationIsNotFloor | app.py:19 | goal -0.001 gives -1, where flooring -1.1 would give -2 |
| MealPlanGenerator.SelectMeals | app.py:49-55 | the loop yields exactly the reference selection `Greedy`; its running total is the sum of the chosen meals; once anything is chosen the total is within budget; the chosen meals are an order-preserving subsequence of the candidates |
| MealPlanGenerator.GenerateGenericDietPlan | app.py:21-61 | returns the diet-type label unchanged, a total equal to the sum of the returned meals, a total within the budget when any meal is chosen, and meals that are a subsequence of the diet type's list (empty for an unknown type) |
| MealPlanGenerator.GreedyWithinBudget | app.py:49-55 | if any meal is selected, the starting total plus the selected calories is within the budget |
| MealPlanGenerator.GreedyIsSubsequence | app.py:52-54 | the selected meals occur in the candidate list in the same order, each candidate used at most once |
| MealPlanGenerator.GreedyAppend | app.py:52-55 | scanning left to right, the next candidate is appended exactly when the total so far plus its calories is within the budget, and skipped exactly when it would overshoot |
| MealPlanGenerator.GreedyIsMaximal | app.py:52-55 | with non-negative meal sizes, every candidate left out would overshoot the budget even on top of the final total |
| MealPlanGenerator.GreedyNothingFits | app.py:52-53 | when no candidate fits on top of the starting total, nothing is selected |
| MealPlanGenerator.SampleMealsShape | app.py:22-47 | every diet type lists Breakfast, Lunch, Dinner and Snacks in that order, each with positive calories |
| MealPlanGenerator.GenericPlanWithinBudget | app.py:49-60 | for a non-negative budget the plan's total never exceeds it; a negative budget gives the empty plan with total 0 |
| MealPlanGenerator.VeganWithBudget900 | app.py:22-60 | "vegan" with 900 kcal selects Breakfast (350) and Lunch (500), total 850, and skips Dinner and Snacks |
| MealPlanGenerator.ZeroBudgetGivesEmptyPlan | app.py:49-60 | a zero budget gives an empty plan with total 0 for every diet type, label echoed |
| MealPlanGenerator.UnknownDietGivesEmptyPlan | app.py:52-60 | an unknown diet type gives an empty plan with total 0 under any budget, label echoed |
| Decimal.NatToDecimal | app.py:69-70 | the slot number is rendered as decimal digits with no leading zero, as `str` renders an int |
| Decimal.DecimalRoundTrip | app.py:69-70 | reading the rendered slot number back gives the number |
| DietPlanBuilder.CreateDietPlan | app.py:63-85 | fails with ZeroDivisionError exactly when meals + snacks = 0; otherwise echoes the inputs, sets the total to BMR + adjustment, makes max(meals, 0) entries "Meal 1".."Meal n" and max(snacks, 0) entries "Snack 1".."Snack m", each holding total / (meals + snacks), and sets the generic plan to the one chosen for the whole total |
| DietPlanBuilder.SlotLabelsDistinct | app.py:69-70 | two different slot numbers of one kind never share a label |
| DietPlanBuilder.MealAndSnackLabelsDiffer | app.py:69-70 | no meal label equals a snack label |
| DietPlanBuilder.SlotLabelNumber | app.py:69-70 | the text after "Meal " / "Snack " reads back as the slot's number |
| DietPlanBuilder.SlotsShareTheTotal | app.py:65-71 | with non-negative counts and at least one slot, the meal and snack entries add up to the daily total |
| DietPlanBuilder.GenericPlanFitsDailyTotal | app.py:74 | the generic plan is chosen against the whole daily total: when it holds any meal, its calories are within that total |
| DateOrder.IsoDateOrderIsChronological | app.py:110-116 | on ISO-8601 dates, Python's string order coincides with year-month-day order |
| WeightTracking.Recorded | app.py:111 | the given date maps to the new weight, the key set gains only that date, and every other date keeps its weight |
| WeightTracking.RecordingTwiceKeepsLatest | app.py:109-112 | a second weight for the same date replaces the first, leaving one entry for that date |
| WeightTracking.WeightLog.Update | app.py:109-112 | the caller's log is changed in place to the log with today's date set to the current weight |
| WeightTracking.DisplayProgress | app.py:114-117 | lists every logged date exactly once, each with its logged weight, in strictly ascending string order |
| WeightTracking.ListingIsChronological | app.py:114-117 | when the keys are ISO dates, the ascending listing runs from the earliest date to the latest |

## Left out

- `convert_to_metric` (app.py:7-13): float unit conversion and `"<feet>_<inches>"` parsing with `float()`; it is pure floating-point glue.
- `track_calories` and `set_goals` (app.py:87-107, 119-129): interactive `input()`/`print()` loops; their only logic is a float running sum and a re-prompt on bad input.
- `food_database` (app.py:131 onward): a static data table with no behaviour, used only by `track_calories`.
- The Flask app (app.py:3, 5), `json.dumps` (app.py:76-85) and the f-string formatting. `SlotEntry` carries the unrounded per-slot value instead of the `:.0f` text, and `DisplayProgress` returns (date, weight) pairs instead of `:.1f` lines.
- `datetime.date.today()` (app.py:110): a clock call; `WeightLog.Update` takes the date as a parameter.
- CalorieAdjustment.CalculateCalorieAdjustment: computes goal·7700/7 over exact reals. Python computes it in binary floating point, which can land just below an integer that the exact value equals and then truncate one lower. NaN goals are not modelled either.
- DietPlanBuilder.CreateDietPlan: the BMR (10·weight + 6.25·height − 5·age + 5) and the per-slot division are exact real arithmetic, not IEEE doubles.
- Weights and calorie budgets are `real`. Meal calories are `int`, as in the sample table.
- Python's `dict` insertion order is not modelled. `display_progress` sorts by key, so insertion order does not affect what it lists.
