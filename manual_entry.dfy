/**
 * app/add-entry-manual.tsx: the form for typing a meal in by hand. It keeps
 * a list of item rows that never runs empty while row ids are distinct,
 * keeps only the rows with a name and a calorie figure, and adds up their
 * figures into the entry it saves.
 */
module ManualEntry {
  import opened Wrappers
  import opened Text
  import opened Seqs
  import opened Nutrition
  import opened Identify

  // ---------------------------------------------------------------------------
  // Rows of the form
  // ---------------------------------------------------------------------------

  /** One row of the form, every figure still the text the user typed. */
  datatype ItemInput = ItemInput(
    id: string, name: string, calories: string, protein: string,
    carbs: string, fat: string, fiber: string, weight: string)

  /** The fields a row's inputs edit (the form never edits a row's id). */
  datatype InputField = Name | Calories | Protein | Carbs | Fat | Fiber | Weight

  function BlankInput(id: string): ItemInput {
    ItemInput(id, "", "", "", "", "", "", "")
  }

  /** The text a field of the row holds. */
  function Get(item: ItemInput, field: InputField): string {
    match field
    case Name => item.name
    case Calories => item.calories
    case Protein => item.protein
    case Carbs => item.carbs
    case Fat => item.fat
    case Fiber => item.fiber
    case Weight => item.weight
  }

  /** `{ ...item, [field]: value }`: the named field takes the value, the id and every other field stay. */
  function WithField(item: ItemInput, field: InputField, value: string): (r: ItemInput)
    ensures r.id == item.id
    ensures Get(r, field) == value
    ensures forall f: InputField | f != field :: Get(r, f) == Get(item, f)
  {
    match field
    case Name => item.(name := value)
    case Calories => item.(calories := value)
    case Protein => item.(protein := value)
    case Carbs => item.(carbs := value)
    case Fat => item.(fat := value)
    case Fiber => item.(fiber := value)
    case Weight => item.(weight := value)
  }

  /** No two rows share an id. */
  predicate DistinctIds(s: seq<ItemInput>) {
    forall i, j | 0 <= i < j < |s| :: s[i].id != s[j].id
  }

  function KeepOtherIds(id: string): ItemInput -> bool {
    (item: ItemInput) => item.id != id
  }

  /** `handleRemoveFoodItem`: the rows with another id, but only while there is more than one row. */
  function RemoveById(s: seq<ItemInput>, id: string): (r: seq<ItemInput>)
    ensures |s| <= 1 ==> r == s
    ensures forall k | 0 <= k < |r| :: r[k] in s
  {
    if |s| > 1 then Filter(s, KeepOtherIds(id)) else s
  }

  /** With distinct ids, removing the id of row `i` drops exactly that row and keeps the others in order. */
  lemma RemoveUniqueId(s: seq<ItemInput>, id: string, i: nat)
    requires DistinctIds(s) && i < |s| && s[i].id == id && |s| > 1
    ensures RemoveById(s, id) == s[..i] + s[i + 1..]
  {
    assert s == s[..i] + ([s[i]] + s[i + 1..]);
    FilterDropsOne(s[..i], s[i], s[i + 1..], KeepOtherIds(id));
  }

  /** Removing an id no row has changes nothing. */
  lemma RemoveUnknownId(s: seq<ItemInput>, id: string)
    requires forall k | 0 <= k < |s| :: s[k].id != id
    ensures RemoveById(s, id) == s
  {
    FilterKeepsAll(s, KeepOtherIds(id));
  }

  /** While ids are distinct, removing a row never empties the list and keeps the ids distinct. */
  lemma RemoveKeepsRows(s: seq<ItemInput>, id: string)
    requires DistinctIds(s) && |s| >= 1
    ensures |RemoveById(s, id)| >= 1 && DistinctIds(RemoveById(s, id))
  {
    if |s| > 1 {
      if i :| 0 <= i < |s| && s[i].id == id {
        RemoveUniqueId(s, id, i);
      } else {
        RemoveUnknownId(s, id);
      }
    }
  }

  /** Two rows that share an id leave together: with repeated ids the list can run empty. */
  lemma RemoveSharedId(id: string)
    ensures RemoveById([BlankInput(id), BlankInput(id)], id) == []
  {
    var s := [BlankInput(id), BlankInput(id)];
    var keep := KeepOtherIds(id);
    assert s[1..] == [BlankInput(id)] && s[1..][1..] == [];
    assert Filter(s[1..][1..], keep) == [];
    assert Filter(s[1..], keep) == [];
  }

  /** `handleUpdateFoodItem`: one field of every row with that id takes the new value. */
  function UpdateById(s: seq<ItemInput>, id: string, field: InputField, value: string): (r: seq<ItemInput>)
    ensures |r| == |s|
    ensures forall k | 0 <= k < |s| :: r[k].id == s[k].id
  {
    seq(|s|, k requires 0 <= k < |s| => if s[k].id == id then WithField(s[k], field, value) else s[k])
  }

  /** Under distinct ids, an update touches the one row with that id and leaves the rest alone. */
  lemma UpdateUniqueId(s: seq<ItemInput>, id: string, field: InputField, value: string, i: nat)
    requires DistinctIds(s) && i < |s| && s[i].id == id
    ensures UpdateById(s, id, field, value) == s[i := WithField(s[i], field, value)]
    ensures DistinctIds(UpdateById(s, id, field, value))
  {
  }

  // ---------------------------------------------------------------------------
  // Validation and processing
  // ---------------------------------------------------------------------------

  /** A row counts when its name and its calories are not blank. */
  predicate IsValidInput(item: ItemInput) {
    !IsBlank(item.name) && !IsBlank(item.calories)
  }

  /** `validateForm`: some row has a name and a calorie figure. */
  function ValidateForm(s: seq<ItemInput>): (ok: bool)
    ensures ok <==> exists k | 0 <= k < |s| :: IsValidInput(s[k])
  {
    var valid := Filter(s, IsValidInput);
    if valid != [] then
      assert IsValidInput(valid[0]) && valid[0] in s;
      true
    else false
  }

  /** The weight field: the number and its letter unit ("g" when none), or 0 g when the text does not match. */
  function ManualWeight(s: string): (r: Measure)
    ensures WeightMatches(s) ==> r == ParseWeight(s)
    ensures !WeightMatches(s) ==> r == Measure(0.0, "g")
  {
    if WeightMatches(s) then ParseWeight(s) else Measure(0.0, "g")
  }

  /** The manual path and `parseWeight` agree on every weight that matches, and differ only in the fallback. */
  lemma ManualWeightFallbacks(s: string)
    requires !WeightMatches(s)
    ensures ManualWeight(s).value == 0.0 && ParseWeight(s).value == 100.0
    ensures ManualWeight(s).unit == ParseWeight(s).unit
  {
  }

  /**
   * One saved food item from a row. `num` stands for `parseFloat(x) || 0`
   * and `id` for the random id the item gets.
   */
  function ProcessItem(item: ItemInput, id: string, num: string -> real): (r: FoodItem)
    ensures r.id == id && r.name == item.name && r.calories == num(item.calories)
    ensures r.weight == ManualWeight(item.weight).value && r.unit == ManualWeight(item.weight).unit
    ensures r.nutrients == Some(Macros(num(item.protein), num(item.carbs), num(item.fat), num(item.fiber)))
    ensures r.macronutrients == None
    ensures r.confidence == 100 && r.portion == Portion(1.0, "serving")
  {
    var w := ManualWeight(item.weight);
    FoodItem(id, item.name, num(item.calories), w.value, w.unit,
             Some(Macros(num(item.protein), num(item.carbs), num(item.fat), num(item.fiber))),
             None, 100, Portion(1.0, "serving"))
  }

  /** The valid rows turned into food items, in their order; `idFor(k)` is the id of the k-th. */
  function ProcessedItems(s: seq<ItemInput>, idFor: nat -> string, num: string -> real): (r: seq<FoodItem>)
    ensures var valid := Filter(s, IsValidInput);
            |r| == |valid| && forall k | 0 <= k < |r| :: r[k] == ProcessItem(valid[k], idFor(k), num)
  {
    var valid := Filter(s, IsValidInput);
    seq(|valid|, k requires 0 <= k < |valid| => ProcessItem(valid[k], idFor(k), num))
  }

  /** What the user typed into a row, as numbers. */
  function InputCalories(num: string -> real): ItemInput -> real {
    (item: ItemInput) => num(item.calories)
  }

  function InputMacros(num: string -> real): ItemInput -> Macros {
    (item: ItemInput) => Macros(num(item.protein), num(item.carbs), num(item.fat), num(item.fiber))
  }

  /**
   * `handleSave`: nothing when no row is valid; otherwise the entry for
   * `saveManualFoodEntry`, with the totals of the processed items,
   * confidence 100, trimmed notes and the manual flag set.
   */
  function ManualEntry(s: seq<ItemInput>, idFor: nat -> string, num: string -> real, timestamp: int,
                       imageUri: Option<string>, mealType: MealType, notes: string): (r: Option<EntryDraft>)
    ensures r.None? <==> !ValidateForm(s)
    ensures r.Some? ==> var items := ProcessedItems(s, idFor, num);
                        r.value.analysis.foodItems == items && items != []
                        && r.value.analysis.totalCalories == SumCalories(items)
                        && r.value.analysis.nutritionSummary == Some(SumNutrients(items))
                        && r.value.analysis.macronutrients == None
                        && r.value.analysis.confidence == 100
                        && r.value.isManual == Some(true) && r.value.mealType == Some(mealType)
                        && r.value.timestamp == timestamp && r.value.imageUri == imageUri.GetOr("")
                        && r.value.notes == TrimOrNone(notes)
  {
    if !ValidateForm(s) then None
    else
      var items := ProcessedItems(s, idFor, num);
      Some(EntryDraft(timestamp, imageUri.GetOr(""),
                      Analysis(SumCalories(items), 100, items, None, Some(SumNutrients(items))),
                      Some(mealType), TrimOrNone(notes), Some(true)))
  }

  /** The saved totals are the figures typed into the valid rows, added up. */
  lemma ManualTotals(s: seq<ItemInput>, idFor: nat -> string, num: string -> real)
    ensures var items := ProcessedItems(s, idFor, num);
            var valid := Filter(s, IsValidInput);
            SumCalories(items) == SumBy(valid, InputCalories(num))
            && SumNutrients(items) == SumMacrosBy(valid, InputMacros(num))
  {
    var items := ProcessedItems(s, idFor, num);
    var valid := Filter(s, IsValidInput);
    SumByOverMap(valid, items, InputCalories(num), ItemCalories);
    SumMacrosOverMap(valid, items, InputMacros(num), ItemNutrients);
  }

  /**
   * Each processed item is made from a valid row of the form, so its name
   * is not blank; and each valid row of the form gives an item.
   */
  lemma ProcessedAreValid(s: seq<ItemInput>, idFor: nat -> string, num: string -> real)
    ensures var items := ProcessedItems(s, idFor, num);
            forall k | 0 <= k < |items| ::
              !IsBlank(items[k].name)
              && exists j | 0 <= j < |s| :: IsValidInput(s[j]) && items[k] == ProcessItem(s[j], idFor(k), num)
    ensures var items := ProcessedItems(s, idFor, num);
            forall j | 0 <= j < |s| && IsValidInput(s[j]) ::
              exists k | 0 <= k < |items| :: items[k] == ProcessItem(s[j], idFor(k), num)
  {
    var items := ProcessedItems(s, idFor, num);
    var valid := Filter(s, IsValidInput);
    forall k | 0 <= k < |items|
      ensures exists j | 0 <= j < |s| :: IsValidInput(s[j]) && items[k] == ProcessItem(s[j], idFor(k), num)
    {
      assert valid[k] in s && IsValidInput(valid[k]);
      var j :| 0 <= j < |s| && s[j] == valid[k];
      assert IsValidInput(s[j]) && items[k] == ProcessItem(s[j], idFor(k), num);
    }
    forall j | 0 <= j < |s| && IsValidInput(s[j])
      ensures exists k | 0 <= k < |items| :: items[k] == ProcessItem(s[j], idFor(k), num)
    {
      assert s[j] in valid;
      var k :| 0 <= k < |valid| && valid[k] == s[j];
      assert items[k] == ProcessItem(s[j], idFor(k), num);
    }
  }

  // ---------------------------------------------------------------------------
  // The screen
  // ---------------------------------------------------------------------------

  /** The form's state: `foodItems`, `mealType`, `notes` and `imageUri`. */
  class ManualEntryScreen {
    var foodItems: seq<ItemInput>
    var mealType: MealType
    var notes: string
    var imageUri: Option<string>

    /** The row list is never empty and no two rows share an id. */
    predicate Valid()
      reads this
    {
      |foodItems| >= 1 && DistinctIds(foodItems)
    }

    constructor ()
      ensures foodItems == [BlankInput("1")] && mealType == Lunch && notes == "" && imageUri == None
      ensures Valid()
    {
      foodItems := [BlankInput("1")];
      mealType := Lunch;
      notes := "";
      imageUri := None;
    }

    /** `handleAddFoodItem`: a blank row with id `newId` (the clock's milliseconds) is appended. */
    method AddFoodItem(newId: string)
      modifies this
      ensures foodItems == old(foodItems) + [BlankInput(newId)]
      ensures mealType == old(mealType) && notes == old(notes) && imageUri == old(imageUri)
      ensures old(Valid()) && (forall k | 0 <= k < |old(foodItems)| :: old(foodItems)[k].id != newId) ==> Valid()
    {
      foodItems := foodItems + [BlankInput(newId)];
    }

    /** `handleRemoveFoodItem`: the row with that id goes, unless it is the only row. */
    method RemoveFoodItem(id: string)
      modifies this
      ensures foodItems == RemoveById(old(foodItems), id)
      ensures mealType == old(mealType) && notes == old(notes) && imageUri == old(imageUri)
      ensures old(Valid()) ==> Valid()
    {
      if Valid() {
        RemoveKeepsRows(foodItems, id);
      }
      if |foodItems| > 1 {
        foodItems := Filter(foodItems, KeepOtherIds(id));
      }
    }

    /** `handleUpdateFoodItem`: one field of the row with that id takes the new value. */
    method UpdateFoodItem(id: string, field: InputField, value: string)
      modifies this
      ensures foodItems == UpdateById(old(foodItems), id, field, value)
      ensures mealType == old(mealType) && notes == old(notes) && imageUri == old(imageUri)
      ensures old(Valid()) ==> Valid()
    {
      foodItems := UpdateById(foodItems, id, field, value);
    }

    /** `handleSave`: the entry handed to the store, or nothing when the form is not valid. */
    method Save(idFor: nat -> string, num: string -> real, timestamp: int) returns (r: Option<EntryDraft>)
      ensures r == ManualEntry(foodItems, idFor, num, timestamp, imageUri, mealType, notes)
    {
      if !ValidateForm(foodItems) {
        return None;
      }
      var items := ProcessedItems(foodItems, idFor, num);
      r := Some(EntryDraft(timestamp, imageUri.GetOr(""),
                           Analysis(SumCalories(items), 100, items, None, Some(SumNutrients(items))),
                           Some(mealType), TrimOrNone(notes), Some(true)));
    }
  }
}
