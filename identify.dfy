/**
 * app/identify.tsx: the editable list of foods the model identified in a
 * photo, the quantity stepper, the weight and quantity parsers, and the
 * conversion of the nutrition answer into the analysis the results screen
 * receives.
 */
module Identify {
  import opened Wrappers
  import opened Text
  import opened Seqs
  import opened Nutrition
  import opened Gemini

  // ---------------------------------------------------------------------------
  // parseWeight and parseQuantity
  // ---------------------------------------------------------------------------

  /** A number and its unit, as `parseWeight` and `parseQuantity` return them. */
  datatype Measure = Measure(value: real, unit: string)

  /** `^(\d+(?:\.\d+)?)\s*([a-zA-Z]+)?$`: the text after the number and its spaces is letters only. */
  predicate WeightMatches(s: string) {
    NumberThenRest(s).Some? && AllLetters(NumberThenRest(s).value.rest)
  }

  /** `parseWeight`: the number and its letter unit ("g" when none), or 100 g when the text does not match. */
  function ParseWeight(s: string): (r: Measure)
    ensures r.value >= 0.0 && r.unit != "" && AllLetters(r.unit)
    ensures !WeightMatches(s) ==> r == Measure(100.0, "g")
  {
    match NumberThenRest(s)
    case Some(scan) =>
      if AllLetters(scan.rest) then Measure(scan.value, if scan.rest == "" then "g" else scan.rest)
      else Measure(100.0, "g")
    case None => Measure(100.0, "g")
  }

  /** `^(\d+(?:\.\d+)?)\s*(.+)?$`: the text after the number and its spaces stays on one line. */
  predicate QuantityMatches(s: string) {
    NumberThenRest(s).Some? && NoLineTerminator(NumberThenRest(s).value.rest)
  }

  /** `parseQuantity`: the number and the rest of the line ("serving" when none), or 1 serving. */
  function ParseQuantity(s: string): (r: Measure)
    ensures r.value >= 0.0 && r.unit != "" && !IsWhitespace(r.unit[0])
    ensures !QuantityMatches(s) ==> r == Measure(1.0, "serving")
  {
    match NumberThenRest(s)
    case Some(scan) =>
      if NoLineTerminator(scan.rest) then Measure(scan.value, if scan.rest == "" then "serving" else scan.rest)
      else Measure(1.0, "serving")
    case None => Measure(1.0, "serving")
  }

  /** What `parseQuantity` makes of a scan that leaves a one-line unit. */
  lemma ParseQuantityOfScan(s: string, value: real, unit: string)
    requires NumberThenRest(s) == Some(Scan(value, unit))
    requires unit != [] && NoLineTerminator(unit)
    ensures ParseQuantity(s) == Measure(value, unit)
  {
  }

  /** What `adjustQuantity` takes as the unit of a scan that leaves some text. */
  lemma QuantityUnitOfScan(q: string, value: real, unit: string)
    requires NumberThenRest(q) == Some(Scan(value, unit))
    requires unit != []
    ensures QuantityUnit(q) == unit
  {
  }

  /** A whole number of grams written with a letter unit reads back as that number and unit. */
  lemma ParseWeightOfWhole(n: nat, unit: string)
    requires AllLetters(unit)
    ensures ParseWeight(NatToString(n) + unit) == Measure(n as real, if unit == [] then "g" else unit)
  {
    assert unit != [] ==> IsLetter(unit[0]);
    ScanOfWhole(n, unit);
    assert SpaceRun(unit) == 0;
  }

  /** `parseWeight("250g")` is 250 g. */
  lemma ParseWeightGrams()
    ensures ParseWeight("250g") == Measure(250.0, "g")
  {
    assert NatToString(250) + "g" == "250g";
    ParseWeightOfWhole(250, "g");
  }

  /** A bare number is taken as grams: `parseWeight("12")` is 12 g. */
  lemma ParseWeightBare()
    ensures ParseWeight("12") == Measure(12.0, "g")
  {
    assert NatToString(12) + "" == "12";
    ParseWeightOfWhole(12, "");
  }

  /** Text that does not start with a number falls back to 100 g. */
  lemma ParseWeightNoNumber(s: string)
    requires s == [] || !IsDigit(s[0])
    ensures ParseWeight(s) == Measure(100.0, "g")
  {
  }

  /** A whole number, a space and a one-line unit read back as that number and unit. */
  lemma ParseQuantityOfWhole(n: nat, unit: string, s: string)
    requires unit != [] && !IsWhitespace(unit[0]) && NoLineTerminator(unit)
    requires s == NatToString(n) + " " + unit
    ensures ParseQuantity(s) == Measure(n as real, unit)
  {
    assert s == NatToString(n) + (" " + unit);
    ScanOfWhole(n, " " + unit);
    SpaceRunOfOne(unit);
    ParseQuantityOfScan(s, n as real, unit);
  }

  /** A bare whole number is taken as servings: `parseQuantity("2")` is 2 servings. */
  lemma ParseQuantityBare(n: nat)
    ensures ParseQuantity(NatToString(n)) == Measure(n as real, "serving")
  {
    assert NatToString(n) + "" == NatToString(n);
    ScanOfWhole(n, "");
  }

  /** `parseQuantity("3 pieces")` is 3 pieces. */
  lemma ParseQuantityPieces()
    ensures ParseQuantity("3 pieces") == Measure(3.0, "pieces")
  {
    assert NatToString(3) + " " + "pieces" == "3 pieces";
    ParseQuantityOfWhole(3, "pieces", "3 pieces");
  }

  /** Text that does not start with a number is one serving. */
  lemma ParseQuantityNoNumber(s: string)
    requires s == [] || !IsDigit(s[0])
    ensures ParseQuantity(s) == Measure(1.0, "serving")
  {
  }

  // ---------------------------------------------------------------------------
  // The quantity stepper
  // ---------------------------------------------------------------------------

  /** The number a quantity text starts with, or 1 when it starts with none. */
  function CurrentMagnitude(q: string): (r: real)
    ensures r >= 0.0
    ensures q == "" || !IsDigit(q[0]) ==> r == 1.0
    ensures LeadingNumber(q).Some? ==> r == LeadingNumber(q).value.value
  {
    match LeadingNumber(q)
    case Some(n) => n.value
    case None => 1.0
  }

  /** The quantity text without its leading number and the spaces after it, or "serving" when nothing is left. */
  function QuantityUnit(q: string): (u: string)
    ensures u != ""
    ensures q == "" || !IsDigit(q[0]) ==> u == if q == "" then "serving" else q
    ensures NumberThenRest(q).Some? && NumberThenRest(q).value.rest == "" ==> u == "serving"
    ensures u != "serving" ==> |u| <= |q| && u == q[|q| - |u|..]
  {
    var rest := match NumberThenRest(q) case Some(scan) => scan.rest case None => q;
    if rest == "" then "serving" else rest
  }

  /**
   * `Math.max(0.1, current + delta).toFixed(1)` as a count of tenths, with
   * `delta` given in tenths (the buttons pass -0.1 and 0.1).
   */
  function StepTenths(current: real, delta: int): (t: nat)
    ensures t >= 1
  {
    var m := if current + delta as real / 10.0 > 0.1 then current + delta as real / 10.0 else 0.1;
    (10.0 * m + 0.5).Floor
  }

  /** `${tenths.toFixed(1)} ${unit}`: the text the stepper writes. */
  function QuantityText(t: nat, unit: string): (r: string)
    ensures |r| > |unit| + 1 && r[|r| - |unit| - 1..] == " " + unit
    ensures LeadingNumber(r) == Some(Number(t as real / 10.0, |r| - |unit| - 1))
  {
    NumberOfTenths(t, " " + unit);
    FormatTenths(t) + (" " + unit)
  }

  /** The new quantity text `adjustQuantity` writes. */
  function AdjustedQuantity(q: string, delta: int): (r: string)
    ensures CurrentMagnitude(r) == StepTenths(CurrentMagnitude(q), delta) as real / 10.0
    ensures CurrentMagnitude(r) >= 0.1
    ensures var u := QuantityUnit(r); u != [] && !IsWhitespace(u[0])
    ensures !IsWhitespace(QuantityUnit(q)[0]) ==> QuantityUnit(r) == QuantityUnit(q)
  {
    var t := StepTenths(CurrentMagnitude(q), delta);
    UnitAfterText(t, QuantityUnit(q));
    MagnitudeOfText(t, QuantityUnit(q));
    UnitKeptByText(t, QuantityUnit(q));
    QuantityText(t, QuantityUnit(q))
  }

  /** On a magnitude that is a whole number of tenths, a step adds `delta` tenths and stops at one tenth. */
  lemma StepOfTenths(t: nat, delta: int)
    ensures StepTenths(t as real / 10.0, delta) == if t + delta >= 1 then t + delta else 1
  {
  }

  /** The adjusted text depends on the quantity only through its magnitude and its unit. */
  lemma AdjustedOf(q: string, delta: int, magnitude: real, unit: string)
    requires CurrentMagnitude(q) == magnitude && QuantityUnit(q) == unit
    ensures AdjustedQuantity(q, delta) == QuantityText(StepTenths(magnitude, delta), unit)
  {
  }

  /** A step on a quantity of `t` tenths adds `delta` tenths, stopping at one tenth, and keeps the unit. */
  lemma AdjustedOfTenths(q: string, delta: int, t: nat, unit: string)
    requires CurrentMagnitude(q) == t as real / 10.0 && QuantityUnit(q) == unit
    ensures AdjustedQuantity(q, delta) == QuantityText(if t + delta >= 1 then t + delta else 1, unit)
  {
    var magnitude := t as real / 10.0;
    var next := if t + delta >= 1 then t + delta else 1;
    assert StepTenths(magnitude, delta) == next by {
      StepOfTenths(t, delta);
    }
    AdjustedOf(q, delta, magnitude, unit);
  }

  lemma QuantityTextSplit(t: nat, unit: string)
    ensures QuantityText(t, unit) == FormatTenths(t) + (" " + unit)
  {
  }

  /** The stepper's text starts with the number of tenths it wrote. */
  lemma MagnitudeOfText(t: nat, unit: string)
    ensures CurrentMagnitude(QuantityText(t, unit)) == t as real / 10.0
  {
    QuantityTextSplit(t, unit);
    NumberOfTenths(t, " " + unit);
  }

  /** The stepper's text reads back the unit it wrote, when that unit does not start with a space. */
  lemma UnitOfText(t: nat, unit: string)
    requires unit != [] && !IsWhitespace(unit[0])
    ensures QuantityUnit(QuantityText(t, unit)) == unit
  {
    ScanOfTenthsUnit(t, unit, QuantityText(t, unit));
    QuantityUnitOfScan(QuantityText(t, unit), t as real / 10.0, unit);
  }

  lemma UnitKeptByText(t: nat, unit: string)
    requires unit != []
    ensures !IsWhitespace(unit[0]) ==> QuantityUnit(QuantityText(t, unit)) == unit
  {
    if !IsWhitespace(unit[0]) {
      UnitOfText(t, unit);
    }
  }

  /** Whatever unit the stepper wrote, the unit read back from its text does not start with a space. */
  lemma UnitAfterText(t: nat, unit: string)
    ensures var u := QuantityUnit(QuantityText(t, unit));
            u != [] && !IsWhitespace(u[0])
  {
    QuantityTextSplit(t, unit);
    ScanOfTenths(t, " " + unit, QuantityText(t, unit));
  }

  /** The stepper's text scans as its tenths followed by the unit. */
  lemma ScanOfText(t: nat, unit: string)
    requires unit != [] && !IsWhitespace(unit[0])
    ensures NumberThenRest(QuantityText(t, unit)) == Some(Scan(t as real / 10.0, unit))
  {
    QuantityTextSplit(t, unit);
    ScanOfTenthsUnit(t, unit, QuantityText(t, unit));
  }

  /** `parseQuantity` reads the stepper's text back as the number and unit it wrote. */
  lemma ParseQuantityOfText(t: nat, unit: string)
    requires unit != [] && !IsWhitespace(unit[0]) && NoLineTerminator(unit)
    ensures ParseQuantity(QuantityText(t, unit)) == Measure(t as real / 10.0, unit)
  {
    ScanOfText(t, unit);
  }

  /** A step on text that reads back as `t` tenths and a unit without a leading space writes that unit again. */
  lemma StepFromParts(q: string, t: nat, unit: string, delta: int)
    requires CurrentMagnitude(q) == t as real / 10.0 && QuantityUnit(q) == unit
    requires unit != [] && !IsWhitespace(unit[0])
    ensures AdjustedQuantity(q, delta) == QuantityText(if t + delta >= 1 then t + delta else 1, unit)
    ensures QuantityUnit(AdjustedQuantity(q, delta)) == unit
  {
    AdjustedOfTenths(q, delta, t, unit);
    UnitOfText(if t + delta >= 1 then t + delta else 1, unit);
  }

  /**
   * A quantity already in the stepper's own form moves by exactly `delta`
   * tenths, never below one tenth, and keeps its unit: repeated steps act
   * on the tenths alone.
   */
  lemma AdjustCanonical(t: nat, unit: string, delta: int)
    requires unit != [] && !IsWhitespace(unit[0])
    ensures AdjustedQuantity(QuantityText(t, unit), delta) == QuantityText(if t + delta >= 1 then t + delta else 1, unit)
  {
    MagnitudeOfText(t, unit);
    UnitOfText(t, unit);
    StepFromParts(QuantityText(t, unit), t, unit, delta);
  }

  /**
   * After one step the unit is fixed: when `p` is the text one step of `d1`
   * wrote, with `t` tenths and unit `u`, the next step only moves the tenths
   * and keeps that unit.
   */
  lemma AdjustTwice(q: string, d1: int, d2: int, p: string, t: nat, u: string)
    requires p == AdjustedQuantity(q, d1)
    requires t == StepTenths(CurrentMagnitude(q), d1) && u == QuantityUnit(p)
    ensures AdjustedQuantity(p, d2) == QuantityText(if t + d2 >= 1 then t + d2 else 1, u)
    ensures QuantityUnit(AdjustedQuantity(p, d2)) == u
  {
    StepFromParts(p, t, u, d2);
  }

  /** `AdjustCanonical` on a text and a result given by name. */
  lemma StepOnText(q: string, unit: string, r: string, t: nat, delta: int)
    requires unit != [] && !IsWhitespace(unit[0])
    requires q == QuantityText(t, unit) && r == QuantityText(if t + delta >= 1 then t + delta else 1, unit)
    ensures AdjustedQuantity(q, delta) == r
  {
    AdjustCanonical(t, unit, delta);
  }

  lemma WholeTextSplit(n: nat, unit: string, q: string)
    requires q == NatToString(n) + " " + unit
    ensures q == NatToString(n) + (" " + unit)
  {
  }

  /** A whole number, a space and a unit: the stepper takes that number and that unit. */
  lemma MagnitudeOfWhole(n: nat, unit: string, q: string)
    requires q == NatToString(n) + " " + unit
    ensures CurrentMagnitude(q) == n as real
  {
    WholeTextSplit(n, unit, q);
    NumberOfWhole(n, " " + unit);
  }

  lemma UnitOfWhole(n: nat, unit: string, q: string)
    requires unit != [] && !IsWhitespace(unit[0])
    requires q == NatToString(n) + " " + unit
    ensures QuantityUnit(q) == unit
  {
    WholeTextSplit(n, unit, q);
    ScanOfWhole(n, " " + unit);
    SpaceRunOfOne(unit);
    QuantityUnitOfScan(q, n as real, unit);
  }

  lemma TextOfTenths(t: nat, unit: string, s: string)
    requires 10 <= t < 100 && s == [DigitChar(t / 10), '.', DigitChar(t % 10), ' '] + unit
    ensures QuantityText(t, unit) == s
  {
  }

  /** A whole number `n`, a space and a unit read back as `10 * n` tenths and that unit. */
  lemma WholeParts(q: string, unit: string, n: nat, t: nat)
    requires unit != [] && !IsWhitespace(unit[0])
    requires q == NatToString(n) + " " + unit && t == 10 * n
    ensures CurrentMagnitude(q) == t as real / 10.0 && QuantityUnit(q) == unit
  {
    MagnitudeOfWhole(n, unit, q);
    UnitOfWhole(n, unit, q);
  }

  /** A step of `delta` on a whole number `n` and a unit moves to `10 * n + delta` tenths. */
  lemma StepOnWhole(q: string, unit: string, r: string, n: nat, delta: int)
    requires unit != [] && !IsWhitespace(unit[0])
    requires q == NatToString(n) + " " + unit
    requires r == QuantityText(if 10 * n + delta >= 1 then 10 * n + delta else 1, unit)
    ensures AdjustedQuantity(q, delta) == r
  {
    WholeParts(q, unit, n, 10 * n);
    AdjustedOfTenths(q, delta, 10 * n, unit);
  }

  /** Tapping plus on "1" and a unit gives "1.1" and the same unit. */
  lemma FirstStepOn(q: string, unit: string, r: string)
    requires unit != [] && !IsWhitespace(unit[0])
    requires q == "1 " + unit && r == "1.1 " + unit
    ensures AdjustedQuantity(q, 1) == r
  {
    assert q == NatToString(1) + " " + unit;
    TextOfTenths(11, unit, r);
    StepOnWhole(q, unit, r, 1, 1);
  }

  /** Tapping plus on "1.1" and a unit gives "1.2" and the same unit. */
  lemma SecondStepOn(q: string, unit: string, r: string)
    requires unit != [] && !IsWhitespace(unit[0])
    requires q == "1.1 " + unit && r == "1.2 " + unit
    ensures AdjustedQuantity(q, 1) == r
  {
    TextOfTenths(11, unit, q);
    TextOfTenths(12, unit, r);
    StepOnText(q, unit, r, 11, 1);
  }

  /** Tapping plus on "1 piece" gives "1.1 piece". */
  lemma AppleFirstStep(q: string, unit: string, r: string)
    requires unit == "piece" && q == "1 piece" && r == "1.1 piece"
    ensures AdjustedQuantity(q, 1) == r
  {
    assert q == "1 " + unit && r == "1.1 " + unit;
    FirstStepOn(q, unit, r);
  }

  /** Tapping plus on "1.1 piece" gives "1.2 piece". */
  lemma AppleSecondStep(q: string, unit: string, r: string)
    requires unit == "piece" && q == "1.1 piece" && r == "1.2 piece"
    ensures AdjustedQuantity(q, 1) == r
  {
    assert q == "1.1 " + unit && r == "1.2 " + unit;
    SecondStepOn(q, unit, r);
  }

  // ---------------------------------------------------------------------------
  // The editable list
  // ---------------------------------------------------------------------------

  /** The text fields `updateItemText` may change. */
  datatype TextField = Name | EstimatedSize | Quantity

  function WithText(item: IdentifiedItem, field: TextField, value: string): IdentifiedItem {
    match field
    case Name => item.(name := value)
    case EstimatedSize => item.(estimatedSize := value)
    case Quantity => item.(quantity := value)
  }

  const NewItem := IdentifiedItem("New Food Item", "1 serving", "medium", 50)

  /** The screen's `items` and `editingId` state. */
  class IdentifyScreen {
    var items: seq<IdentifiedItem>
    var editingId: Option<int>

    constructor ()
      ensures items == [] && editingId == None
    {
      items := [];
      editingId := None;
    }

    /** `identifyFood` on the screen: the items of the service's answer replace the list. */
    method ShowIdentification(result: Identification)
      modifies this
      ensures items == result.items && editingId == old(editingId)
    {
      items := result.items;
    }

    /** `updateItemText`: one field of item `index` is replaced; an index outside the list changes nothing. */
    method UpdateItemText(index: int, field: TextField, value: string)
      modifies this
      ensures 0 <= index < |old(items)| ==> items == old(items)[index := WithText(old(items)[index], field, value)]
      ensures !(0 <= index < |old(items)|) ==> items == old(items)
      ensures editingId == old(editingId)
    {
      var current := items;
      items := seq(|current|, i requires 0 <= i < |current| =>
                     if i == index then WithText(current[i], field, value) else current[i]);
    }

    /** `adjustQuantity`: the quantity of item `index` steps by `delta` tenths; nothing else changes. */
    method AdjustQuantity(index: int, delta: int)
      modifies this
      ensures 0 <= index < |old(items)| ==>
                items == old(items)[index := old(items)[index].(quantity := AdjustedQuantity(old(items)[index].quantity, delta))]
      ensures !(0 <= index < |old(items)|) ==> items == old(items)
      ensures editingId == old(editingId)
    {
      if !(0 <= index < |items|) {
        return;
      }
      var current := items[index];
      var q := AdjustedQuantity(current.quantity, delta);
      UpdateItemText(index, Quantity, q);
      assert WithText(current, Quantity, q) == current.(quantity := q);
    }

    /** `removeItem`: item `index` leaves the list and the others keep their order. */
    method RemoveItem(index: int)
      modifies this
      ensures 0 <= index < |old(items)| ==> items == old(items)[..index] + old(items)[index + 1..]
      ensures !(0 <= index < |old(items)|) ==> items == old(items)
      ensures editingId == old(editingId)
    {
      if 0 <= index < |items| {
        items := items[..index] + items[index + 1..];
      }
    }

    /** `addNewItem`: a placeholder item is appended and opened for editing. */
    method AddNewItem()
      modifies this
      ensures items == old(items) + [NewItem]
      ensures editingId == Some(|old(items)|)
    {
      editingId := Some(|items|);
      items := items + [NewItem];
    }
  }

  // ---------------------------------------------------------------------------
  // proceedToResults
  // ---------------------------------------------------------------------------

  /** `convertToNutritionItems`: each item without its confidence, in order. */
  function ToNutritionRequests(items: seq<IdentifiedItem>): (r: seq<NutritionRequest>)
    ensures |r| == |items|
    ensures forall k | 0 <= k < |items| ::
              r[k].name == items[k].name && r[k].quantity == items[k].quantity
              && r[k].estimatedSize == items[k].estimatedSize
  {
    seq(|items|, k requires 0 <= k < |items| => NutritionRequest(items[k].name, items[k].quantity, items[k].estimatedSize))
  }

  /** `requests.find(ni => ni.name === name)`: the position of the first request with that name. */
  function FindByName(requests: seq<NutritionRequest>, name: string): (r: Option<nat>)
    ensures r.Some? ==> r.value < |requests| && requests[r.value].name == name
                        && forall j | 0 <= j < r.value :: requests[j].name != name
    ensures r.None? ==> forall j | 0 <= j < |requests| :: requests[j].name != name
  {
    if requests == [] then None
    else if requests[0].name == name then Some(0)
    else match FindByName(requests[1..], name)
      case Some(k) => Some(k + 1)
      case None => None
  }

  /** `find(...)?.quantity || "1 serving"`: the quantity asked for under that name, when there is one. */
  function RequestedQuantity(requests: seq<NutritionRequest>, name: string): (q: string)
    ensures q != ""
    ensures var k := FindByName(requests, name);
            if k.Some? && requests[k.value].quantity != "" then q == requests[k.value].quantity
            else q == "1 serving"
  {
    match FindByName(requests, name)
    case Some(k) => if requests[k].quantity != "" then requests[k].quantity else "1 serving"
    case None => "1 serving"
  }

  /** One food item of the analysis, built from one item of the nutrition answer. */
  function ToFoodItem(item: ServiceFoodItem, requests: seq<NutritionRequest>, id: string): (r: FoodItem)
    ensures r.name == item.name && r.calories == item.calories && r.confidence == item.confidence
    ensures r.nutrients == None && r.macronutrients == Some(OrZero(item.nutrients))
    ensures r.weight == ParseWeight(item.weight).value && r.unit == ParseWeight(item.weight).unit
    ensures var quantity := ParseQuantity(RequestedQuantity(requests, item.name));
            r.portion == Portion(quantity.value, quantity.unit)
  {
    var weight := ParseWeight(item.weight);
    var quantity := ParseQuantity(RequestedQuantity(requests, item.name));
    FoodItem(id, item.name, item.calories, weight.value, weight.unit,
             None, Some(OrZero(item.nutrients)), item.confidence, Portion(quantity.value, quantity.unit))
  }

  function ServiceItemMacros(item: ServiceFoodItem): Macros { OrZero(item.nutrients) }

  /** The `map` in `proceedToResults`: one food item per item of the answer, in order. */
  function ToFoodItems(answerItems: seq<ServiceFoodItem>, requests: seq<NutritionRequest>, idFor: nat -> string): (r: seq<FoodItem>)
    ensures |r| == |answerItems|
    ensures forall k | 0 <= k < |r| :: r[k] == ToFoodItem(answerItems[k], requests, idFor(k))
  {
    seq(|answerItems|, k requires 0 <= k < |answerItems| => ToFoodItem(answerItems[k], requests, idFor(k)))
  }

  /** The macros of the built items add up to the macros of the answer's items, missing ones as zeros. */
  lemma FoodItemsMacros(answerItems: seq<ServiceFoodItem>, requests: seq<NutritionRequest>, idFor: nat -> string)
    ensures SumItemMacros(ToFoodItems(answerItems, requests, idFor)) == SumMacrosBy(answerItems, ServiceItemMacros)
  {
    var r := ToFoodItems(answerItems, requests, idFor);
    forall k | 0 <= k < |answerItems|
      ensures ItemMacronutrients(r[k]) == ServiceItemMacros(answerItems[k])
    {
    }
    SumMacrosOverMap(answerItems, r, ServiceItemMacros, ItemMacronutrients);
  }

  /**
   * `proceedToResults`: nothing when the list is empty; otherwise the
   * analysis handed to the results screen, built from the nutrition answer
   * for the list. `idFor(k)` is the random id given to the k-th item.
   */
  function ProceedToResults(items: seq<IdentifiedItem>, answer: NutritionAnalysis, idFor: nat -> string): (r: Option<Analysis>)
    ensures r.None? <==> items == []
    ensures r.Some? ==> |r.value.foodItems| == |answer.foodItems|
                        && r.value.totalCalories == answer.totalCalories
                        && r.value.confidence == answer.confidence
                        && r.value.macronutrients == r.value.nutritionSummary
                        && r.value.macronutrients == Some(SumItemMacros(r.value.foodItems))
  {
    if items == [] then None
    else
      var foodItems := ToFoodItems(answer.foodItems, ToNutritionRequests(items), idFor);
      var total := SumItemMacros(foodItems);
      Some(Analysis(answer.totalCalories, answer.confidence, foodItems, Some(total), Some(total)))
  }

  /**
   * The entry totals are the sums of the macros the answer gives per item,
   * a missing record counting as zeros; each food item keeps the answer's
   * figures and takes its portion from the item asked for under its name.
   */
  lemma ProceedTotals(items: seq<IdentifiedItem>, answer: NutritionAnalysis, idFor: nat -> string)
    requires items != []
    ensures var r := ProceedToResults(items, answer, idFor).value;
            r.nutritionSummary == Some(SumMacrosBy(answer.foodItems, ServiceItemMacros))
            && forall k | 0 <= k < |answer.foodItems| ::
                 r.foodItems[k].id == idFor(k)
                 && r.foodItems[k].name == answer.foodItems[k].name
                 && r.foodItems[k].calories == answer.foodItems[k].calories
                 && r.foodItems[k].macronutrients == Some(OrZero(answer.foodItems[k].nutrients))
                 && r.foodItems[k].weight == ParseWeight(answer.foodItems[k].weight).value
                 && r.foodItems[k].unit == ParseWeight(answer.foodItems[k].weight).unit
                 && r.foodItems[k].portion.amount
                    == ParseQuantity(RequestedQuantity(ToNutritionRequests(items), answer.foodItems[k].name)).value
                 && r.foodItems[k].portion.unit
                    == ParseQuantity(RequestedQuantity(ToNutritionRequests(items), answer.foodItems[k].name)).unit
  {
    FoodItemsMacros(answer.foodItems, ToNutritionRequests(items), idFor);
  }
}
