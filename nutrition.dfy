/**
 * The records the screens and both stores pass around: macronutrient
 * totals, food items, the analysis of a meal and the saved food entry
 * (`FoodItem` and `FoodEntry` of services/storageService.ts, which the
 * identification and manual-entry screens also build).
 */
module Nutrition {
  import opened Wrappers
  import opened Seqs

  /** Grams of the four macronutrients the application tracks. */
  datatype Macros = Macros(protein: real, carbs: real, fat: real, fiber: real)

  const Zero := Macros(0.0, 0.0, 0.0, 0.0)

  function Add(a: Macros, b: Macros): Macros {
    Macros(a.protein + b.protein, a.carbs + b.carbs, a.fat + b.fat, a.fiber + b.fiber)
  }

  /** `{ protein: m?.protein || 0, ... }`: a missing record counts as zeros. */
  function OrZero(m: Option<Macros>): Macros {
    m.GetOr(Zero)
  }

  datatype MealType = Breakfast | Lunch | Dinner | Snack

  datatype Portion = Portion(amount: real, unit: string)

  /**
   * One food of a meal. The manual-entry screen fills `nutrients`; the
   * identification screen fills `macronutrients` instead. Which of the two
   * is present decides what the stores add up.
   */
  datatype FoodItem = FoodItem(
    id: string, name: string, calories: real, weight: real, unit: string,
    nutrients: Option<Macros>, macronutrients: Option<Macros>,
    confidence: int, portion: Portion)

  datatype Analysis = Analysis(
    totalCalories: real, confidence: int, foodItems: seq<FoodItem>,
    macronutrients: Option<Macros>, nutritionSummary: Option<Macros>)

  /** `Omit<FoodEntry, "id">`: what the screens hand to a store to save. */
  datatype EntryDraft = EntryDraft(
    timestamp: int, imageUri: string, analysis: Analysis,
    mealType: Option<MealType>, notes: Option<string>, isManual: Option<bool>)

  datatype FoodEntry = FoodEntry(
    id: string, timestamp: int, imageUri: string, analysis: Analysis,
    mealType: Option<MealType>, notes: Option<string>, isManual: Option<bool>)

  /**
   * The user's profile as both stores keep it. The local store keeps the
   * record it is given; the Amplify store keeps the fields its table has.
   */
  datatype UserProfile = UserProfile(
    name: string, age: Option<real>, weight: Option<real>, height: Option<real>,
    gender: Option<string>, activityLevel: Option<string>, dailyCalorieGoal: Option<real>,
    createdAt: int, updatedAt: int, goal: Option<string>)

  /** Daily targets for calories and the four macronutrients. */
  datatype DailyGoals = DailyGoals(calories: real, protein: real, carbs: real, fat: real, fiber: real)

  /** What `getDailyStats` returns in both stores. */
  datatype DailyStats = DailyStats(totalCalories: real, totalMeals: nat, nutritionBreakdown: Macros)

  /** An entry's timestamp lies within the bounds of a day (both ends included). */
  function InRange(start: int, end: int): FoodEntry -> bool {
    (e: FoodEntry) => start <= e.timestamp <= end
  }

  function EntryCalories(e: FoodEntry): real { e.analysis.totalCalories }

  /** The four-field `reduce` the sources write out, added up from the left. */
  function SumMacrosBy<T>(s: seq<T>, f: T -> Macros): Macros {
    if s == [] then Zero else Add(SumMacrosBy(s[..|s| - 1], f), f(s[|s| - 1]))
  }

  /** Each field of a macro sum is the sum of that field. */
  lemma {:induction false} SumMacrosFieldwise<T>(s: seq<T>, f: T -> Macros)
    ensures SumMacrosBy(s, f).protein == SumBy(s, x => f(x).protein)
    ensures SumMacrosBy(s, f).carbs == SumBy(s, x => f(x).carbs)
    ensures SumMacrosBy(s, f).fat == SumBy(s, x => f(x).fat)
    ensures SumMacrosBy(s, f).fiber == SumBy(s, x => f(x).fiber)
  {
    if s != [] {
      SumMacrosFieldwise(s[..|s| - 1], f);
    }
  }

  /** A macro sum over a concatenation is the sum of the two sums. */
  lemma {:induction false} SumMacrosAppend<T>(a: seq<T>, b: seq<T>, f: T -> Macros)
    ensures SumMacrosBy(a + b, f) == Add(SumMacrosBy(a, f), SumMacrosBy(b, f))
  {
    if b == [] {
      assert a + b == a;
    } else {
      assert (a + b)[..|a + b| - 1] == a + b[..|b| - 1];
      SumMacrosAppend(a, b[..|b| - 1], f);
    }
  }

  /** Adding up `n` copies of one record multiplies each field by `n`. */
  lemma {:induction false} SumMacrosConstant<T>(s: seq<T>, f: T -> Macros, m: Macros)
    requires forall k | 0 <= k < |s| :: f(s[k]) == m
    ensures SumMacrosBy(s, f) == Macros(|s| as real * m.protein, |s| as real * m.carbs,
                                        |s| as real * m.fat, |s| as real * m.fiber)
  {
    if s != [] {
      SumMacrosConstant(s[..|s| - 1], f, m);
    }
  }

  function ItemNutrients(it: FoodItem): Macros { OrZero(it.nutrients) }

  function ItemMacronutrients(it: FoodItem): Macros { OrZero(it.macronutrients) }

  function ItemCalories(it: FoodItem): real { it.calories }

  /** The sum of the items' `nutrients`, what services/storageService.ts computes. */
  function SumNutrients(items: seq<FoodItem>): Macros {
    SumMacrosBy(items, ItemNutrients)
  }

  /** The sum of the items' `macronutrients`, what the identification screen and the Amplify store compute. */
  function SumItemMacros(items: seq<FoodItem>): Macros {
    SumMacrosBy(items, ItemMacronutrients)
  }

  function SumCalories(items: seq<FoodItem>): real {
    SumBy(items, ItemCalories)
  }

  /** Adding up macros over a mapped list is adding up the mapped values. */
  lemma {:induction false} SumMacrosOverMap<A, B>(s: seq<A>, t: seq<B>, f: A -> Macros, g: B -> Macros)
    requires |s| == |t|
    requires forall k | 0 <= k < |s| :: g(t[k]) == f(s[k])
    ensures SumMacrosBy(t, g) == SumMacrosBy(s, f)
  {
    if s != [] {
      SumMacrosOverMap(s[..|s| - 1], t[..|t| - 1], f, g);
    }
  }
}
