/** The weekly-goal to daily-calorie rule of `calculate_calorie_adjustment`
    (app.py:15-19): a goal in kilograms per week, within [-2, 2], becomes a
    daily calorie delta of goal * 7700 / 7, converted to an integer the way
    Python's `int()` converts a float, by truncation toward zero. */
module CalorieAdjustment {
  import opened Wrappers

  /** Energy of one kilogram of body mass, in kcal. */
  const KcalPerKg: real := 7700.0
  const DaysPerWeek: real := 7.0
  const GoalRangeMessage: string := "Weekly goal must be between -2kg and 2kg."

  /** Python's `int()` on a float: drops the fractional part, so the result
      lies between zero and `x`, less than one away from `x`. */
  function TruncateTowardZero(x: real): (r: int)
    ensures 0.0 <= x ==> 0 <= r && r as real <= x < r as real + 1.0
    ensures x < 0.0 ==> r <= 0 && r as real - 1.0 < x <= r as real
  {
    if 0.0 <= x then x.Floor else -((-x).Floor)
  }

  predicate GoalInRange(weeklyGoal: real) {
    -2.0 <= weeklyGoal <= 2.0
  }

  function CalculateCalorieAdjustment(weeklyGoal: real): (r: Result<int>)
    ensures r.Err? <==> !GoalInRange(weeklyGoal)
    ensures r.Err? ==> r.error == ValueError(GoalRangeMessage)
    ensures r.Ok? ==> -2200 <= r.value <= 2200
    ensures r.Ok? ==> r.value == TruncateTowardZero(weeklyGoal * 1100.0)
  {
    if !GoalInRange(weeklyGoal) then
      Err(ValueError(GoalRangeMessage))
    else
      Ok(TruncateTowardZero(weeklyGoal * KcalPerKg / DaysPerWeek))
  }

  /** The worked values of the rule, and one goal outside the range. */
  lemma AdjustmentExamples()
    ensures CalculateCalorieAdjustment(0.0) == Ok(0)
    ensures CalculateCalorieAdjustment(1.0) == Ok(1100)
    ensures CalculateCalorieAdjustment(-2.0) == Ok(-2200)
    ensures CalculateCalorieAdjustment(3.0) == Err(ValueError(GoalRangeMessage))
  {
  }

  /** Truncation, unlike flooring, treats a loss goal as the mirror image of
      the gain goal of the same size. */
  lemma AdjustmentIsOdd(weeklyGoal: real)
    requires GoalInRange(weeklyGoal)
    ensures CalculateCalorieAdjustment(-weeklyGoal).Ok?
    ensures CalculateCalorieAdjustment(-weeklyGoal).value == -CalculateCalorieAdjustment(weeklyGoal).value
  {
  }

  /** A larger weekly goal never gives a smaller daily adjustment. */
  lemma AdjustmentIsMonotone(g1: real, g2: real)
    requires GoalInRange(g1) && GoalInRange(g2) && g1 <= g2
    ensures CalculateCalorieAdjustment(g1).value <= CalculateCalorieAdjustment(g2).value
  {
  }

  /** A small loss goal shows the difference from flooring: -0.001 kg a week
      is -1.1 kcal a day, which truncates to -1 where a floor would give -2. */
  lemma TruncationIsNotFloor()
    ensures CalculateCalorieAdjustment(-0.001) == Ok(-1)
    ensures (-0.001 * 1100.0).Floor == -2
  {
  }
}
