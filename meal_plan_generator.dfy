/** The generic meal plan of `generate_generic_diet_plan` (app.py:21-61):
    each diet type has a fixed, ordered list of four sample meals; one pass
    over that list, in order, takes a meal exactly when the running total
    plus its calories stays within the budget. There is no backtracking. */
module MealPlanGenerator {

  /** One sample meal: its slot ("Breakfast", ...), what it is, and its kcal. */
  datatype Meal = Meal(slot: string, description: string, calories: int)

  /** The returned record: "Diet Type", "Calories" and "Meals". */
  datatype GenericPlan = GenericPlan(dietType: string, calories: int, meals: seq<Meal>)

  /** The `sample_meals` table, keyed by diet type. */
  function SampleMeals(): map<string, seq<Meal>> {
    map[
      "vegan" := [
        Meal("Breakfast", "Oatmeal with almond milk and berries", 350),
        Meal("Lunch", "Quinoa salad with chickpeas and veggies", 500),
        Meal("Dinner", "Stir-fried tofu with broccoli and brown rice", 650),
        Meal("Snacks", "Hummus with carrot sticks", 200)
      ],
      "vegetarian" := [
        Meal("Breakfast", "Greek yogurt with granola and honey", 400),
        Meal("Lunch", "Vegetable pasta with tomato sauce", 550),
        Meal("Dinner", "Eggplant parmesan with a side salad", 650),
        Meal("Snacks", "Cheese and whole-grain crackers", 200)
      ],
      "keto" := [
        Meal("Breakfast", "Scrambled eggs with avocado and bacon", 400),
        Meal("Lunch", "Grilled chicken salad with olive oil dressing", 550),
        Meal("Dinner", "Salmon with asparagus and butter", 600),
        Meal("Snacks", "Mixed nuts", 200)
      ],
      "paleo" := [
        Meal("Breakfast", "Sweet potato hash with eggs", 400),
        Meal("Lunch", "Grilled steak with a mixed greens salad", 600),
        Meal("Dinner", "Roasted chicken with steamed vegetables", 700),
        Meal("Snacks", "Apple slices with almond butter", 200)
      ]
    ]
  }

  /** `sample_meals.get(diet_type, [])`: an unknown diet type has no candidates. */
  function Candidates(dietType: string): seq<Meal> {
    if dietType in SampleMeals() then SampleMeals()[dietType] else []
  }

  function TotalCalories(meals: seq<Meal>): int {
    if meals == [] then 0 else meals[0].calories + TotalCalories(meals[1..])
  }

  /** `xs` occurs in `ys` in the same order, possibly with gaps. */
  predicate IsSubsequence(xs: seq<Meal>, ys: seq<Meal>) {
    if xs == [] then true
    else if ys == [] then false
    else (xs[0] == ys[0] && IsSubsequence(xs[1..], ys[1..])) || IsSubsequence(xs, ys[1..])
  }

  /** Reference definition of the selection: the meals taken from
      `candidates` when the running total starts at `total`. */
  function Greedy(candidates: seq<Meal>, budget: real, total: int): seq<Meal> {
    if candidates == [] then []
    else
      var meal := candidates[0];
      if (total + meal.calories) as real <= budget then
        [meal] + Greedy(candidates[1..], budget, total + meal.calories)
      else
        Greedy(candidates[1..], budget, total)
  }

  /** The plan the source returns for a budget and a diet type. */
  function GenericDietPlan(calories: real, dietType: string): GenericPlan {
    var chosen := Greedy(Candidates(dietType), calories, 0);
    GenericPlan(dietType, TotalCalories(chosen), chosen)
  }

  /** The loop of `generate_generic_diet_plan`: one pass over the candidates
      that appends to the plan and keeps the running `total_calories`. */
  method SelectMeals(candidates: seq<Meal>, budget: real) returns (chosen: seq<Meal>, total: int)
    ensures chosen == Greedy(candidates, budget, 0)
    ensures total == TotalCalories(chosen)
    ensures chosen == [] || total as real <= budget
    ensures IsSubsequence(chosen, candidates)
  {
    total := 0;
    chosen := [];
    for i := 0 to |candidates|
      invariant total == TotalCalories(chosen)
      invariant chosen + Greedy(candidates[i..], budget, total) == Greedy(candidates, budget, 0)
    {
      var meal := candidates[i];
      assert candidates[i..][1..] == candidates[i + 1..];
      if (total + meal.calories) as real <= budget {
        TotalCaloriesAppend(chosen, [meal]);
        assert chosen + [meal] + Greedy(candidates[i + 1..], budget, total + meal.calories)
            == chosen + ([meal] + Greedy(candidates[i + 1..], budget, total + meal.calories));
        chosen := chosen + [meal];
        total := total + meal.calories;
      }
    }
    assert candidates[|candidates|..] == [];
    GreedyWithinBudget(candidates, budget, 0);
    GreedyIsSubsequence(candidates, budget, 0);
  }

  /** `generate_generic_diet_plan`: looks up the diet type's meals, selects
      from them, and returns the diet type, the total and the chosen meals. */
  method GenerateGenericDietPlan(calories: real, dietType: string) returns (plan: GenericPlan)
    ensures plan == GenericDietPlan(calories, dietType)
    ensures plan.dietType == dietType
    ensures plan.calories == TotalCalories(plan.meals)
    ensures plan.meals == [] || plan.calories as real <= calories
    ensures IsSubsequence(plan.meals, Candidates(dietType))
  {
    var chosen, total := SelectMeals(Candidates(dietType), calories);
    plan := GenericPlan(dietType, total, chosen);
  }

  lemma {:induction false} TotalCaloriesAppend(xs: seq<Meal>, ys: seq<Meal>)
    ensures TotalCalories(xs + ys) == TotalCalories(xs) + TotalCalories(ys)
  {
    if xs != [] {
      assert (xs + ys)[0] == xs[0];
      assert (xs + ys)[1..] == xs[1..] + ys;
      TotalCaloriesAppend(xs[1..], ys);
    } else {
      assert xs + ys == ys;
    }
  }

  /** Once anything is chosen, the running total stays within the budget. */
  lemma {:induction false} GreedyWithinBudget(candidates: seq<Meal>, budget: real, total: int)
    ensures var chosen := Greedy(candidates, budget, total);
            chosen == [] || (total + TotalCalories(chosen)) as real <= budget
  {
    if candidates != [] {
      var meal := candidates[0];
      if (total + meal.calories) as real <= budget {
        GreedyWithinBudget(candidates[1..], budget, total + meal.calories);
      } else {
        GreedyWithinBudget(candidates[1..], budget, total);
      }
    }
  }

  /** Each candidate is looked at once, in list order: the chosen meals are
      an order-preserving subsequence of the candidates. */
  lemma {:induction false} GreedyIsSubsequence(candidates: seq<Meal>, budget: real, total: int)
    ensures IsSubsequence(Greedy(candidates, budget, total), candidates)
  {
    if candidates != [] {
      var meal := candidates[0];
      if (total + meal.calories) as real <= budget {
        GreedyIsSubsequence(candidates[1..], budget, total + meal.calories);
        assert ([meal] + Greedy(candidates[1..], budget, total + meal.calories))[1..]
            == Greedy(candidates[1..], budget, total + meal.calories);
      } else {
        GreedyIsSubsequence(candidates[1..], budget, total);
        SubsequenceOfTail(Greedy(candidates[1..], budget, total), candidates);
      }
    }
  }

  lemma SubsequenceOfTail(xs: seq<Meal>, ys: seq<Meal>)
    requires ys != [] && IsSubsequence(xs, ys[1..])
    ensures IsSubsequence(xs, ys)
  {
  }

  lemma {:induction false} SubsequenceElements(xs: seq<Meal>, ys: seq<Meal>)
    requires IsSubsequence(xs, ys)
    ensures forall m :: m in xs ==> m in ys
  {
    if xs != [] && ys != [] {
      if xs[0] == ys[0] && IsSubsequence(xs[1..], ys[1..]) {
        SubsequenceElements(xs[1..], ys[1..]);
        assert xs == [xs[0]] + xs[1..];
      } else {
        SubsequenceElements(xs, ys[1..]);
      }
    }
  }

  /** Looking at the candidates left to right: the next candidate is taken
      exactly when the total chosen so far plus its calories is within the
      budget, and skipped exactly when it would overshoot. */
  lemma {:induction false} GreedyAppend(candidates: seq<Meal>, meal: Meal, budget: real, total: int)
    ensures var chosen := Greedy(candidates, budget, total);
            Greedy(candidates + [meal], budget, total)
            == if (total + TotalCalories(chosen) + meal.calories) as real <= budget
               then chosen + [meal] else chosen
  {
    if candidates == [] {
      assert [meal][1..] == [];
    } else {
      var first := candidates[0];
      assert (candidates + [meal])[1..] == candidates[1..] + [meal];
      if (total + first.calories) as real <= budget {
        GreedyAppend(candidates[1..], meal, budget, total + first.calories);
      } else {
        GreedyAppend(candidates[1..], meal, budget, total);
      }
    }
  }

  /** With non-negative meal sizes the plan may under-fill the budget, but no
      skipped candidate would still fit on top of the final total. */
  lemma {:induction false} GreedyIsMaximal(candidates: seq<Meal>, budget: real, total: int)
    requires forall m :: m in candidates ==> m.calories >= 0
    ensures var chosen := Greedy(candidates, budget, total);
            forall m :: m in candidates && m !in chosen ==>
              (total + TotalCalories(chosen) + m.calories) as real > budget
  {
    if candidates != [] {
      var first, rest := candidates[0], candidates[1..];
      assert forall m :: m in candidates ==> m == first || m in rest;
      if (total + first.calories) as real <= budget {
        GreedyIsMaximal(rest, budget, total + first.calories);
      } else {
        var chosen := Greedy(rest, budget, total);
        GreedyIsMaximal(rest, budget, total);
        GreedyIsSubsequence(rest, budget, total);
        SubsequenceElements(chosen, rest);
        TotalCaloriesNonNegative(chosen);
      }
    }
  }

  lemma {:induction false} TotalCaloriesNonNegative(meals: seq<Meal>)
    requires forall m :: m in meals ==> m.calories >= 0
    ensures TotalCalories(meals) >= 0
  {
    if meals != [] {
      assert forall m :: m in meals[1..] ==> m in meals;
      TotalCaloriesNonNegative(meals[1..]);
    }
  }

  /** When no candidate fits on top of the starting total, nothing is taken. */
  lemma {:induction false} GreedyNothingFits(candidates: seq<Meal>, budget: real, total: int)
    requires forall m :: m in candidates ==> (total + m.calories) as real > budget
    ensures Greedy(candidates, budget, total) == []
  {
    if candidates != [] {
      assert forall m :: m in candidates[1..] ==> m in candidates;
      GreedyNothingFits(candidates[1..], budget, total);
    }
  }

  /** Every diet type lists Breakfast, Lunch, Dinner and Snacks, in that
      order, each with a positive calorie count. */
  lemma SampleMealsShape(dietType: string)
    requires dietType in SampleMeals()
    ensures var meals := SampleMeals()[dietType];
            |meals| == 4 &&
            meals[0].slot == "Breakfast" && meals[1].slot == "Lunch" &&
            meals[2].slot == "Dinner" && meals[3].slot == "Snacks" &&
            forall m :: m in meals ==> m.calories > 0
  {
  }

  /** The plan never exceeds a non-negative budget; a negative budget gives
      the empty plan, whose total 0 is then above the budget. */
  lemma GenericPlanWithinBudget(calories: real, dietType: string)
    ensures var plan := GenericDietPlan(calories, dietType);
            (0.0 <= calories ==> plan.calories as real <= calories) &&
            (calories < 0.0 ==> plan.meals == [] && plan.calories == 0)
  {
    var candidates := Candidates(dietType);
    GreedyWithinBudget(candidates, calories, 0);
    if calories < 0.0 {
      if dietType in SampleMeals() {
        SampleMealsShape(dietType);
      }
      GreedyNothingFits(candidates, calories, 0);
    }
  }

  /** "vegan" with 900 kcal: Breakfast (350) and Lunch (500) fit, 850 in all;
      Dinner (650) and Snacks (200) would overshoot and are skipped. */
  lemma VeganWithBudget900()
    ensures GenericDietPlan(900.0, "vegan")
         == GenericPlan("vegan", 850, SampleMeals()["vegan"][..2])
  {
  }

  /** A zero budget gives the empty plan for every diet type. */
  lemma ZeroBudgetGivesEmptyPlan(dietType: string)
    ensures GenericDietPlan(0.0, dietType) == GenericPlan(dietType, 0, [])
  {
  }

  /** An unknown diet type gives the empty plan under any budget, and its
      label is echoed back unchanged. */
  lemma UnknownDietGivesEmptyPlan(calories: real, dietType: string)
    requires dietType !in SampleMeals()
    ensures GenericDietPlan(calories, dietType) == GenericPlan(dietType, 0, [])
  {
  }
}
