/**
 * services/geminiService.ts: the three calls to the Gemini model, each of
 * which answers with a fixed fallback result whenever anything inside its
 * `try` fails, the stripping of Markdown code fences from the model's reply,
 * and the trend averages over a list of analyses.
 *
 * The model itself is not part of this model. A call's reply is a parameter
 * (`None` when the request or `response.text()` fails) and `JSON.parse`
 * is a parameter `parse` (`None` when it throws). The elapsed time that
 * `Date.now()` measures is a parameter in milliseconds.
 */
module Gemini {
  import opened Wrappers
  import opened Text
  import opened Seqs
  import opened Nutrition

  /** One food the model recognised in a photo (`IdentifiedItem`). */
  datatype IdentifiedItem = IdentifiedItem(name: string, quantity: string, estimatedSize: string, confidence: int)

  datatype Identification = Identification(items: seq<IdentifiedItem>, confidence: int)

  /** What `calculateNutrition` is asked about: an identified item without its confidence. */
  datatype NutritionRequest = NutritionRequest(name: string, quantity: string, estimatedSize: string)

  /** The service's own food item: its weight is still text such as "150g". */
  datatype ServiceFoodItem = ServiceFoodItem(
    name: string, calories: real, weight: string, confidence: int, nutrients: Option<Macros>)

  datatype NutritionAnalysis = NutritionAnalysis(
    foodItems: seq<ServiceFoodItem>, totalCalories: real, totalWeight: string,
    processingTime: string, confidence: int, nutritionSummary: Macros)

  // ---------------------------------------------------------------------------
  // Code fences
  // ---------------------------------------------------------------------------

  predicate NoBackticks(s: string) {
    forall k | 0 <= k < |s| :: s[k] != '`'
  }

  /** `s` begins with `p`. */
  predicate HasPrefix(s: string, p: string) {
    |p| <= |s| && forall k | 0 <= k < |p| :: s[k] == p[k]
  }

  /**
   * `text.replace(/```json\n?|\n?```/g, "")`: scanning left to right, each
   * "```json" with the newline after it, each "```" with the newline before
   * it, and each other "```" is deleted; everything else is kept.
   */
  function StripFences(s: string): (r: string)
    ensures |r| <= |s|
    decreases |s|
  {
    if HasPrefix(s, "```json") then
      if HasPrefix(s, "```json\n") then StripFences(s[8..]) else StripFences(s[7..])
    else if HasPrefix(s, "\n```") then StripFences(s[4..])
    else if HasPrefix(s, "```") then StripFences(s[3..])
    else if s == [] then []
    else [s[0]] + StripFences(s[1..])
  }

  /** Text without backticks holds no fence and comes back unchanged. */
  lemma {:induction false} StripBacktickFree(s: string)
    requires NoBackticks(s)
    ensures StripFences(s) == s
  {
    if s != [] {
      assert !HasPrefix(s, "```") && !HasPrefix(s, "```json");
      assert !HasPrefix(s, "\n```") by {
        if |s| >= 4 { assert s[1] != '`'; }
      }
      StripBacktickFree(s[1..]);
    }
  }

  /** A backtick-free body followed by a closing fence loses exactly the fence and the newline before it. */
  lemma {:induction false} StripClosingFence(body: string)
    requires NoBackticks(body)
    ensures StripFences(body + "\n```") == body
  {
    var s := body + "\n```";
    if body == [] {
      assert s == "\n```";
      assert HasPrefix(s, "\n```") && !HasPrefix(s, "```json");
      assert s[4..] == [];
    } else {
      assert s[0] == body[0];
      assert !HasPrefix(s, "```") && !HasPrefix(s, "```json");
      assert !HasPrefix(s, "\n```") by {
        if |body| > 1 { assert s[1] == body[1]; } else { assert s[1] == '\n'; }
      }
      assert s[1..] == body[1..] + "\n```";
      StripClosingFence(body[1..]);
      assert body == [body[0]] + body[1..];
    }
  }

  /** A reply wrapped in a ```json fence gives back exactly its body. */
  lemma StripFencedReply(body: string)
    requires NoBackticks(body)
    ensures StripFences("```json\n" + body + "\n```") == body
  {
    var s := "```json\n" + body + "\n```";
    assert HasPrefix(s, "```json") && HasPrefix(s, "```json\n");
    assert s[8..] == body + "\n```";
    StripClosingFence(body);
  }

  // ---------------------------------------------------------------------------
  // The guarded call shared by the three requests
  // ---------------------------------------------------------------------------

  /**
   * What the `try` block of a request produces: the parsed reply, or `None`
   * when something in it throws. The key lookup may itself throw
   * (`Failure`); a missing or empty key throws "Gemini API key not found"
   * (`getModel`); a failed request throws; `JSON.parse` may throw.
   */
  function Attempt<T>(key: Result<Option<string>>, reply: Option<string>, parse: string -> Option<T>): (r: Option<T>)
    ensures r.Some? <==> key.Success? && key.value.Some? && key.value.value != ""
                         && reply.Some? && parse(StripFences(reply.value)).Some?
    ensures r.Some? ==> r == parse(StripFences(reply.value))
  {
    match key
    case Failure(_) => None
    case Success(k) =>
      if k.None? || k.value == "" then None
      else match reply
        case None => None
        case Some(text) => parse(StripFences(text))
  }

  // ---------------------------------------------------------------------------
  // identifyFood
  // ---------------------------------------------------------------------------

  const IdentifyFallback := Identification([IdentifiedItem("Unknown Food Item", "1 serving", "medium", 50)], 50)

  /**
   * `identifyFood`, given the key the lookup produced: the parsed reply,
   * or the fixed single "Unknown Food Item" answer on any failure.
   */
  function IdentifyWith(key: Result<Option<string>>, reply: Option<string>, parse: string -> Option<Identification>): (r: Identification)
    ensures Attempt(key, reply, parse).None? ==>
              |r.items| == 1 && r.confidence == 50 && r.items[0].name == "Unknown Food Item"
              && r.items[0].quantity == "1 serving" && r.items[0].estimatedSize == "medium" && r.items[0].confidence == 50
    ensures Attempt(key, reply, parse).Some? ==> r == Attempt(key, reply, parse).value
  {
    match Attempt(key, reply, parse)
    case Some(v) => v
    case None => IdentifyFallback
  }

  /**
   * The key lookup as written: `getModel` calls `getGeminiApiKey` on the
   * local storage service, which has no such method, so the call throws a
   * TypeError before any key is read.
   */
  function LocalKeyLookup(): Result<Option<string>> {
    Failure("storageService.getGeminiApiKey is not a function")
  }

  /** `identifyFood` as written: the key lookup throws, so the answer is always the fallback. */
  function IdentifyFoodAsWritten(reply: Option<string>, parse: string -> Option<Identification>): (r: Identification)
    ensures r == IdentifyFallback
  {
    IdentifyWith(LocalKeyLookup(), reply, parse)
  }

  /** The call reaches the model with a non-empty key and its reply parses. */
  predicate Answered<T>(key: Option<string>, reply: Option<string>, parse: string -> Option<T>) {
    key.Some? && key.value != "" && reply.Some? && parse(StripFences(reply.value)).Some?
  }

  /**
   * `identifyFood` with the key read from the per-user key row (what
   * `AmplifyStorageService.getGeminiApiKey` returns; `None` when there is
   * none or the lookup failed): the model's parsed answer, or the fallback
   * when there is no key, an empty key, no reply or a reply that does not parse.
   */
  function IdentifyFood(key: Option<string>, reply: Option<string>, parse: string -> Option<Identification>): (r: Identification)
    ensures Answered(key, reply, parse) ==> r == parse(StripFences(reply.value)).value
    ensures !Answered(key, reply, parse) ==> r == IdentifyFallback
    ensures key.None? || key == Some("") ==> r == IdentifyFallback
  {
    IdentifyWith(Success(key), reply, parse)
  }

  /** With a key, a reply and a reply that parses, the identification is the model's answer. */
  lemma IdentifyUsesReply(key: string, body: string, parse: string -> Option<Identification>)
    requires key != "" && NoBackticks(body) && parse(body).Some?
    ensures IdentifyFood(Some(key), Some("```json\n" + body + "\n```"), parse) == parse(body).value
  {
    StripFencedReply(body);
  }

  // ---------------------------------------------------------------------------
  // calculateNutrition
  // ---------------------------------------------------------------------------

  /** `((Date.now() - startTime) / 1000).toFixed(1) + "s"` for an elapsed time in milliseconds. */
  function ProcessingTime(elapsedMs: nat): (r: string)
    ensures |r| >= 4 && r[|r| - 1] == 's'
    ensures LeadingNumber(r).Some? && LeadingNumber(r).value.length == |r| - 1
    ensures var seconds := LeadingNumber(r).value.value;
            (seconds * 10.0).Floor as real == seconds * 10.0
            && elapsedMs as real / 1000.0 - 0.05 < seconds <= elapsedMs as real / 1000.0 + 0.05
  {
    var t := (elapsedMs + 50) / 100;
    NumberOfTenths(t, "s");
    TenthsNearElapsed(elapsedMs, t);
    FormatTenths(t) + "s"
  }

  /** Whole tenths rounded half up lie within 50 ms of the elapsed time. */
  lemma TenthsNearElapsed(elapsedMs: nat, t: nat)
    requires t == (elapsedMs + 50) / 100
    ensures ((t as real / 10.0) * 10.0).Floor as real == (t as real / 10.0) * 10.0
    ensures elapsedMs as real / 1000.0 - 0.05 < t as real / 10.0 <= elapsedMs as real / 1000.0 + 0.05
  {
    assert (t as real / 10.0) * 10.0 == t as real;
    assert t * 100 <= elapsedMs + 50 < t * 100 + 100;
    assert t as real / 10.0 == (t * 100) as real / 1000.0;
  }

  const FallbackItemMacros := Macros(10.0, 20.0, 8.0, 3.0)

  function FallbackItem(request: NutritionRequest): ServiceFoodItem {
    ServiceFoodItem(request.name, 200.0, "100g", 60, Some(FallbackItemMacros))
  }

  /** The answer `calculateNutrition` gives when its `try` fails: 200 kcal and 100 g per requested item. */
  function CalculateFallback(requests: seq<NutritionRequest>, elapsedMs: nat): (r: NutritionAnalysis)
    ensures |r.foodItems| == |requests|
    ensures forall k | 0 <= k < |requests| ::
              r.foodItems[k] == ServiceFoodItem(requests[k].name, 200.0, "100g", 60, Some(Macros(10.0, 20.0, 8.0, 3.0)))
    ensures r.totalCalories == 200.0 * |requests| as real && r.confidence == 60
    ensures r.totalWeight == NatToString(100 * |requests|) + "g"
    ensures r.nutritionSummary == Macros(10.0 * |requests| as real, 20.0 * |requests| as real,
                                         8.0 * |requests| as real, 3.0 * |requests| as real)
  {
    var n := |requests| as real;
    NutritionAnalysis(
      seq(|requests|, k requires 0 <= k < |requests| => FallbackItem(requests[k])),
      n * 200.0, NatToString(|requests| * 100) + "g", ProcessingTime(elapsedMs), 60,
      Macros(n * 10.0, n * 20.0, n * 8.0, n * 3.0))
  }

  /** The fallback's totals are the sums over its own items. */
  lemma CalculateFallbackTotalsAreSums(requests: seq<NutritionRequest>, elapsedMs: nat)
    ensures var r := CalculateFallback(requests, elapsedMs);
            r.totalCalories == SumBy(r.foodItems, (it: ServiceFoodItem) => it.calories)
            && r.nutritionSummary == SumMacrosBy(r.foodItems, (it: ServiceFoodItem) => OrZero(it.nutrients))
  {
    var r := CalculateFallback(requests, elapsedMs);
    SumByConstant(r.foodItems, (it: ServiceFoodItem) => it.calories, 200.0);
    SumMacrosConstant(r.foodItems, (it: ServiceFoodItem) => OrZero(it.nutrients), FallbackItemMacros);
  }

  /** `calculateNutrition` given the key the lookup produced. */
  function CalculateWith(
    requests: seq<NutritionRequest>, key: Result<Option<string>>, reply: Option<string>,
    parse: string -> Option<NutritionAnalysis>, elapsedMs: nat): NutritionAnalysis
  {
    match Attempt(key, reply, parse)
    case Some(v) => v.(processingTime := ProcessingTime(elapsedMs))
    case None => CalculateFallback(requests, elapsedMs)
  }

  /** `calculateNutrition` as written: the key lookup throws, so the answer is always the per-item fallback. */
  function CalculateNutritionAsWritten(
    requests: seq<NutritionRequest>, reply: Option<string>,
    parse: string -> Option<NutritionAnalysis>, elapsedMs: nat): (r: NutritionAnalysis)
    ensures r == CalculateFallback(requests, elapsedMs)
  {
    CalculateWith(requests, LocalKeyLookup(), reply, parse, elapsedMs)
  }

  /**
   * `calculateNutrition` with the per-user key: the parsed reply with the
   * measured processing time laid over it, or the per-item fallback.
   */
  function CalculateNutrition(
    requests: seq<NutritionRequest>, key: Option<string>, reply: Option<string>,
    parse: string -> Option<NutritionAnalysis>, elapsedMs: nat): (r: NutritionAnalysis)
    ensures r.processingTime == ProcessingTime(elapsedMs)
    ensures Answered(key, reply, parse) ==>
              r == parse(StripFences(reply.value)).value.(processingTime := ProcessingTime(elapsedMs))
    ensures !Answered(key, reply, parse) ==> r == CalculateFallback(requests, elapsedMs)
  {
    CalculateWith(requests, Success(key), reply, parse, elapsedMs)
  }

  // ---------------------------------------------------------------------------
  // analyzeFood
  // ---------------------------------------------------------------------------

  /**
   * The answer `analyzeFood` gives when its `try` fails: one "Mixed Food
   * Items" item of 350 kcal whose figures are also the reported totals.
   */
  function AnalyzeFallback(elapsedMs: nat): (r: NutritionAnalysis)
    ensures |r.foodItems| == 1 && r.processingTime == ProcessingTime(elapsedMs)
    ensures r.totalCalories == r.foodItems[0].calories == 350.0
    ensures r.totalWeight == r.foodItems[0].weight && r.confidence == r.foodItems[0].confidence == 75
    ensures r.foodItems[0].nutrients == Some(r.nutritionSummary)
  {
    NutritionAnalysis(
      [ServiceFoodItem("Mixed Food Items", 350.0, "200g", 75, Some(Macros(20.0, 35.0, 15.0, 5.0)))],
      350.0, "200g", ProcessingTime(elapsedMs), 75, Macros(20.0, 35.0, 15.0, 5.0))
  }

  /** The single fallback item's figures are the fallback's reported totals. */
  lemma AnalyzeFallbackTotalsAreSums(elapsedMs: nat)
    ensures var r := AnalyzeFallback(elapsedMs);
            |r.foodItems| == 1 && r.foodItems[0].name == "Mixed Food Items"
            && r.totalCalories == SumBy(r.foodItems, (it: ServiceFoodItem) => it.calories)
            && r.nutritionSummary == SumMacrosBy(r.foodItems, (it: ServiceFoodItem) => OrZero(it.nutrients))
            && r.totalWeight == r.foodItems[0].weight
  {
    var r := AnalyzeFallback(elapsedMs);
    assert r.foodItems[..0] == [];
  }

  /** `analyzeFood` given the key the lookup produced. */
  function AnalyzeWith(
    key: Result<Option<string>>, reply: Option<string>, parse: string -> Option<NutritionAnalysis>,
    elapsedMs: nat): NutritionAnalysis
  {
    match Attempt(key, reply, parse)
    case Some(v) => v.(processingTime := ProcessingTime(elapsedMs))
    case None => AnalyzeFallback(elapsedMs)
  }

  /** `analyzeFood` as written: the key lookup throws, so the answer is always "Mixed Food Items". */
  function AnalyzeFoodAsWritten(
    reply: Option<string>, parse: string -> Option<NutritionAnalysis>, elapsedMs: nat): (r: NutritionAnalysis)
    ensures r == AnalyzeFallback(elapsedMs)
  {
    AnalyzeWith(LocalKeyLookup(), reply, parse, elapsedMs)
  }

  /** `analyzeFood` with the per-user key: the parsed reply with the measured processing time, or the fallback. */
  function AnalyzeFood(
    key: Option<string>, reply: Option<string>, parse: string -> Option<NutritionAnalysis>,
    elapsedMs: nat): (r: NutritionAnalysis)
    ensures r.processingTime == ProcessingTime(elapsedMs)
    ensures Answered(key, reply, parse) ==>
              r == parse(StripFences(reply.value)).value.(processingTime := ProcessingTime(elapsedMs))
    ensures !Answered(key, reply, parse) ==> r == AnalyzeFallback(elapsedMs)
  {
    AnalyzeWith(Success(key), reply, parse, elapsedMs)
  }

  // ---------------------------------------------------------------------------
  // getNutritionTrends
  // ---------------------------------------------------------------------------

  datatype Averages = Averages(protein: int, carbs: int, fat: int, fiber: int)

  datatype Trends = Trends(totalCalories: real, avgCalories: int, avgNutrients: Averages, totalMeals: nat)

  function AnalysisCalories(a: NutritionAnalysis): real { a.totalCalories }

  function AnalysisSummary(a: NutritionAnalysis): Macros { a.nutritionSummary }

  /**
   * `getNutritionTrends`: totals over the analyses and their averages,
   * each rounded, over at least one meal. Its `days` argument is unused.
   */
  function NutritionTrends(analyses: seq<NutritionAnalysis>): (r: Trends)
    ensures r.totalMeals == |analyses|
    ensures r.totalCalories == SumBy(analyses, AnalysisCalories)
    ensures analyses == [] ==> r == Trends(0.0, 0, Averages(0, 0, 0, 0), 0)
    ensures analyses != [] ==>
              var n := |analyses| as real;
              var sums := SumMacrosBy(analyses, AnalysisSummary);
              WithinHalf(r.avgCalories, r.totalCalories / n)
              && WithinHalf(r.avgNutrients.protein, sums.protein / n)
              && WithinHalf(r.avgNutrients.carbs, sums.carbs / n)
              && WithinHalf(r.avgNutrients.fat, sums.fat / n)
              && WithinHalf(r.avgNutrients.fiber, sums.fiber / n)
  {
    var n := if |analyses| > 1 then |analyses| as real else 1.0;
    var total := SumBy(analyses, AnalysisCalories);
    var sums := SumMacrosBy(analyses, AnalysisSummary);
    Trends(total, JsRound(total / n),
           Averages(JsRound(sums.protein / n), JsRound(sums.carbs / n),
                    JsRound(sums.fat / n), JsRound(sums.fiber / n)),
           |analyses|)
  }

  /** `avg` is `mean` rounded: it lies within half a unit of it. */
  predicate WithinHalf(avg: int, mean: real) {
    mean - 0.5 < avg as real <= mean + 0.5
  }

  /** Meals that all have the same whole number of calories average to exactly that number. */
  lemma {:induction false} TrendsOfEqualMeals(analyses: seq<NutritionAnalysis>, c: int)
    requires analyses != []
    requires forall k | 0 <= k < |analyses| :: analyses[k].totalCalories == c as real
    ensures NutritionTrends(analyses).avgCalories == c
    ensures NutritionTrends(analyses).totalCalories == |analyses| as real * c as real
  {
    var n := |analyses| as real;
    var total := SumBy(analyses, AnalysisCalories);
    SumByConstant(analyses, AnalysisCalories, c as real);
    assert total / n == c as real by {
      assert total == n * c as real;
    }
    var r := JsRound(total / n);
    assert r == c by {
      assert c as real - 0.5 < r as real <= c as real + 0.5;
    }
    assert NutritionTrends(analyses).avgCalories == r;
  }
}
