/** The structured result of `create_diet_plan` (app.py:63-85): the daily
    calorie total from the BMR and the adjustment, an even split of it over
    "Meal 1".."Meal n" and "Snack 1".."Snack m", and the generic plan chosen
    for the whole daily total. */
module DietPlanBuilder {
  import opened Wrappers
  import opened Decimal
  import opened MealPlanGenerator

  /** One entry of the breakdown: its label and the kcal assigned to it. */
  datatype SlotEntry = SlotEntry(title: string, calories: real)

  /** The "Meal Plan" record: "Meals", "Snacks" and "Total Calories". */
  datatype MealPlan = MealPlan(meals: seq<SlotEntry>, snacks: seq<SlotEntry>, totalCalories: real)

  /** The record that is serialized: the person's inputs, the "Meal Plan"
      and the "Generic Plan". */
  datatype DietPlan = DietPlan(
    name: string, age: int, weight: real, height: real, goal: string,
    dietType: string, mealPlan: MealPlan, genericPlan: GenericPlan)

  /** Mifflin-St Jeor, with the male constant +5 and no sex parameter. */
  function Bmr(weight: real, height: real, age: int): real {
    10.0 * weight + 6.25 * height - 5.0 * age as real + 5.0
  }

  /** "Meal 3", "Snack 1": the kind, a space and the 1-based slot number. */
  function SlotLabel(kind: string, number: nat): string {
    kind + " " + NatToDecimal(number)
  }

  /** The comprehension over `range(count)`: no entries for a count below 1. */
  function Slots(kind: string, count: int, perSlot: real): seq<SlotEntry> {
    seq(if count < 0 then 0 else count, i requires 0 <= i => SlotEntry(SlotLabel(kind, i + 1), perSlot))
  }

  function SlotCalories(entries: seq<SlotEntry>): real {
    if entries == [] then 0.0 else entries[0].calories + SlotCalories(entries[1..])
  }

  function CreateDietPlan(
    name: string, age: int, weight: real, height: real, goal: string,
    calorieAdjustment: int, meals: int, snacks: int, dietType: string): (r: Result<DietPlan>)
    ensures r.Err? <==> meals + snacks == 0
    ensures r.Err? ==> r.error == ZeroDivisionError
    ensures r.Ok? ==> r.value.name == name && r.value.age == age && r.value.weight == weight &&
                      r.value.height == height && r.value.goal == goal && r.value.dietType == dietType
    ensures r.Ok? ==> r.value.mealPlan.totalCalories == Bmr(weight, height, age) + calorieAdjustment as real
    ensures r.Ok? ==> |r.value.mealPlan.meals| == (if meals < 0 then 0 else meals)
    ensures r.Ok? ==> |r.value.mealPlan.snacks| == (if snacks < 0 then 0 else snacks)
    ensures r.Ok? ==> forall i :: 0 <= i < |r.value.mealPlan.meals| ==>
                        r.value.mealPlan.meals[i].title == SlotLabel("Meal", i + 1)
    ensures r.Ok? ==> forall i :: 0 <= i < |r.value.mealPlan.snacks| ==>
                        r.value.mealPlan.snacks[i].title == SlotLabel("Snack", i + 1)
    ensures r.Ok? ==> forall e :: e in r.value.mealPlan.meals + r.value.mealPlan.snacks ==>
                        e.calories == r.value.mealPlan.totalCalories / (meals + snacks) as real
    ensures r.Ok? ==> r.value.genericPlan == GenericDietPlan(r.value.mealPlan.totalCalories, dietType)
  {
    var calories := Bmr(weight, height, age) + calorieAdjustment as real;
    if meals + snacks == 0 then
      Err(ZeroDivisionError)
    else
      var perSlot := calories / (meals + snacks) as real;
      var mealPlan := MealPlan(Slots("Meal", meals, perSlot), Slots("Snack", snacks, perSlot), calories);
      Ok(DietPlan(name, age, weight, height, goal, dietType, mealPlan,
                  GenericDietPlan(calories, dietType)))
  }

  /** Two slots of one kind never share a label. */
  lemma SlotLabelsDistinct(kind: string, i: nat, j: nat)
    requires i != j
    ensures SlotLabel(kind, i) != SlotLabel(kind, j)
  {
    var prefix := kind + " ";
    if SlotLabel(kind, i) == SlotLabel(kind, j) {
      assert SlotLabel(kind, i)[|prefix|..] == NatToDecimal(i);
      assert SlotLabel(kind, j)[|prefix|..] == NatToDecimal(j);
      NatToDecimalInjective(i, j);
    }
  }

  /** A meal label is never a snack label. */
  lemma MealAndSnackLabelsDiffer(i: nat, j: nat)
    ensures SlotLabel("Meal", i) != SlotLabel("Snack", j)
  {
    assert SlotLabel("Meal", i)[0] == 'M';
    assert SlotLabel("Snack", j)[0] == 'S';
  }

  /** The number after the kind and the space reads back as the slot number. */
  lemma SlotLabelNumber(kind: string, number: nat)
    ensures var text := SlotLabel(kind, number);
            |text| > |kind| + 1 && AllDigits(text[|kind| + 1..]) &&
            DecimalValue(text[|kind| + 1..]) == number
  {
    assert SlotLabel(kind, number)[|kind| + 1..] == NatToDecimal(number);
    DecimalRoundTrip(number);
  }

  lemma {:induction false} SlotCaloriesOfEqualEntries(entries: seq<SlotEntry>, perSlot: real)
    requires forall e :: e in entries ==> e.calories == perSlot
    ensures SlotCalories(entries) == |entries| as real * perSlot
  {
    if entries != [] {
      assert entries[0] in entries;
      assert forall e :: e in entries[1..] ==> e in entries;
      SlotCaloriesOfEqualEntries(entries[1..], perSlot);
    }
  }

  lemma {:induction false} SlotCaloriesOfConcat(xs: seq<SlotEntry>, ys: seq<SlotEntry>)
    ensures SlotCalories(xs + ys) == SlotCalories(xs) + SlotCalories(ys)
  {
    if xs == [] {
      assert xs + ys == ys;
    } else {
      assert (xs + ys)[0] == xs[0];
      assert (xs + ys)[1..] == xs[1..] + ys;
      SlotCaloriesOfConcat(xs[1..], ys);
    }
  }

  lemma WholeOfShares(whole: real, count: real)
    requires count != 0.0
    ensures count * (whole / count) == whole
  {
  }

  lemma SharesAddUp(plan: MealPlan, meals: nat, snacks: nat)
    requires meals + snacks > 0 && |plan.meals| == meals && |plan.snacks| == snacks
    requires forall e :: e in plan.meals + plan.snacks ==>
               e.calories == plan.totalCalories / (meals + snacks) as real
    ensures SlotCalories(plan.meals) + SlotCalories(plan.snacks) == plan.totalCalories
  {
    var entries, count := plan.meals + plan.snacks, (meals + snacks) as real;
    var perSlot := plan.totalCalories / count;
    assert SlotCalories(entries) == count * perSlot by {
      assert |entries| as real == count;
      SlotCaloriesOfEqualEntries(entries, perSlot);
    }
    assert count * perSlot == plan.totalCalories by {
      WholeOfShares(plan.totalCalories, count);
    }
    SlotCaloriesOfConcat(plan.meals, plan.snacks);
  }

  /** With non-negative counts, the meal and snack entries together account
      for the whole daily total. */
  lemma SlotsShareTheTotal(
    name: string, age: int, weight: real, height: real, goal: string,
    calorieAdjustment: int, meals: int, snacks: int, dietType: string)
    requires 0 <= meals && 0 <= snacks && meals + snacks > 0
    ensures var r := CreateDietPlan(name, age, weight, height, goal, calorieAdjustment, meals, snacks, dietType);
            r.Ok? &&
            SlotCalories(r.value.mealPlan.meals) + SlotCalories(r.value.mealPlan.snacks)
            == r.value.mealPlan.totalCalories
  {
    var r := CreateDietPlan(name, age, weight, height, goal, calorieAdjustment, meals, snacks, dietType);
    SharesAddUp(r.value.mealPlan, meals, snacks);
  }

  /** The generic plan is chosen against the whole daily total, not the
      per-slot value: when anything is chosen it fits within that total. */
  lemma GenericPlanFitsDailyTotal(
    name: string, age: int, weight: real, height: real, goal: string,
    calorieAdjustment: int, meals: int, snacks: int, dietType: string)
    requires meals + snacks != 0
    ensures var r := CreateDietPlan(name, age, weight, height, goal, calorieAdjustment, meals, snacks, dietType);
            r.Ok? &&
            (r.value.genericPlan.meals == [] ||
             r.value.genericPlan.calories as real <= r.value.mealPlan.totalCalories)
  {
    var r := CreateDietPlan(name, age, weight, height, goal, calorieAdjustment, meals, snacks, dietType);
    var total := r.value.mealPlan.totalCalories;
    GreedyWithinBudget(Candidates(dietType), total, 0);
  }
}
