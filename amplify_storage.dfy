/**
 * services/amplifyStorageService.ts: the store backed by the Amplify data
 * tables. An entry is one FoodEntry row plus one FoodItem row per food;
 * profile, goals and the Gemini key are one row per user, updated in place
 * when present. The backend client is modelled as the tables themselves,
 * the signed-in user as a field, and the ids the backend assigns as
 * parameters.
 */
module AmplifyStorage {
  import opened Wrappers
  import opened Text
  import opened Seqs
  import opened Nutrition
  import opened Gemini

  // ---------------------------------------------------------------------------
  // Rows
  // ---------------------------------------------------------------------------

  datatype EntryRow = EntryRow(
    id: string, userId: string, timestamp: int, imageUrl: string, totalCalories: real,
    confidence: int, mealType: Option<MealType>, notes: Option<string>, isManual: bool, macros: Macros)

  datatype ItemRow = ItemRow(
    id: string, foodEntryId: string, name: string, calories: real, weight: real, unit: string,
    macros: Macros, confidence: int, portion: Portion)

  datatype ProfileRow = ProfileRow(
    id: string, userId: string, name: string, email: string, age: Option<real>, weight: Option<real>,
    height: Option<real>, activityLevel: Option<string>, dailyCalorieGoal: Option<real>,
    createdAt: int, updatedAt: int)

  datatype GoalsRow = GoalsRow(id: string, userId: string, calories: int, protein: real, carbs: real, fat: real, fiber: real)

  datatype KeyRow = KeyRow(id: string, userId: string, service: string, encryptedKey: string)

  const NotAuthenticated := "User not authenticated"
  const MissingMacros := "Cannot read properties of undefined (reading 'protein')"

  // ---------------------------------------------------------------------------
  // Saving an entry
  // ---------------------------------------------------------------------------

  /** The FoodEntry row: the draft's fields, with the macros always recomputed from the items. */
  function EntryRowOf(user: string, draft: EntryDraft, id: string): (r: EntryRow)
    ensures r.id == id && r.userId == user && r.timestamp == draft.timestamp
    ensures r.macros == SumItemMacros(draft.analysis.foodItems)
    ensures r.isManual == (draft.isManual == Some(true))
    ensures r.imageUrl == draft.imageUri && r.totalCalories == draft.analysis.totalCalories
    ensures r.confidence == draft.analysis.confidence && r.mealType == draft.mealType && r.notes == draft.notes
  {
    EntryRow(id, user, draft.timestamp, draft.imageUri, draft.analysis.totalCalories, draft.analysis.confidence,
             draft.mealType, draft.notes, draft.isManual.GetOr(false), SumItemMacros(draft.analysis.foodItems))
  }

  /** The FoodItem row for one item of an entry. */
  function ItemRowOf(item: FoodItem, entryId: string, id: string): (r: ItemRow)
    ensures r.id == id && r.foodEntryId == entryId && r.name == item.name && r.calories == item.calories
    ensures r.macros == ItemMacronutrients(item)
    ensures r.weight == item.weight && r.unit == item.unit && r.confidence == item.confidence && r.portion == item.portion
  {
    ItemRow(id, entryId, item.name, item.calories, item.weight, item.unit,
            ItemMacronutrients(item), item.confidence, item.portion)
  }

  /** One row per item, in order, each linked to the entry; `itemId(k)` is the id of the k-th. */
  function ItemRowsOf(items: seq<FoodItem>, entryId: string, itemId: nat -> string): (r: seq<ItemRow>)
    ensures |r| == |items|
    ensures forall k | 0 <= k < |r| :: r[k] == ItemRowOf(items[k], entryId, itemId(k))
  {
    seq(|items|, k requires 0 <= k < |items| => ItemRowOf(items[k], entryId, itemId(k)))
  }

  lemma ItemRowsStep(items: seq<FoodItem>, i: nat, entryId: string, itemId: nat -> string)
    requires i < |items|
    ensures ItemRowsOf(items[..i + 1], entryId, itemId) == ItemRowsOf(items[..i], entryId, itemId) + [ItemRowOf(items[i], entryId, itemId(i))]
  {
  }

  function HasMacros(item: FoodItem): bool { item.macronutrients.Some? }

  /**
   * What one backend `create` or `delete` call does: the backend carries it
   * out, or it answers with `errors` (which `saveFoodEntry` and
   * `deleteFoodEntry` never look at for item rows and the entry delete),
   * or the call throws.
   */
  datatype CallOutcome = Done | Refused | Throws(message: string)

  /**
   * What a settings save returns after its one write: the thrown message is
   * rethrown, while `errors` the write answers with are not looked at.
   */
  function WriteResult(outcome: CallOutcome): (r: Result<()>)
    ensures r.Failure? <==> outcome.Throws?
    ensures outcome.Throws? ==> r.error == outcome.message
  {
    if outcome.Throws? then Failure(outcome.message) else Success(())
  }

  /** The first of the calls `0 .. n-1` that throws, or `n` when none does. */
  function FirstThrow(outcome: nat -> CallOutcome, n: nat): (t: nat)
    ensures t <= n
    ensures forall j | 0 <= j < t :: !outcome(j).Throws?
    ensures t < n ==> outcome(t).Throws?
  {
    if n == 0 then 0
    else
      var t := FirstThrow(outcome, n - 1);
      if t < n - 1 || outcome(n - 1).Throws? then t else n
  }

  /** One more call: the first throw so far stays first, else the new call is the first if it throws. */
  lemma FirstThrowNext(outcome: nat -> CallOutcome, n: nat)
    ensures var t := FirstThrow(outcome, n);
            FirstThrow(outcome, n + 1) == if t < n then t else if outcome(n).Throws? then n else n + 1
  {
  }

  /** A call that throws with none throwing before it is the first. */
  lemma FirstThrowAt(outcome: nat -> CallOutcome, n: nat, i: nat)
    requires i <= n && forall j | 0 <= j < i :: !outcome(j).Throws?
    requires i < n ==> outcome(i).Throws?
    ensures FirstThrow(outcome, n) == i
  {
  }

  /** The first item without macronutrients, whose `protein` read throws, or `|items|` when every item has them. */
  function FirstWithoutMacros(items: seq<FoodItem>): (n: nat)
    ensures n <= |items|
    ensures forall j | 0 <= j < n :: HasMacros(items[j])
    ensures n < |items| ==> !HasMacros(items[n])
  {
    match FirstMatch(items, (it: FoodItem) => !HasMacros(it))
    case Some(k) => k
    case None => |items|
  }

  /**
   * How many items the create loop of `saveFoodEntry` gets through: it
   * stops at the first item without macronutrients or whose create throws.
   */
  function ItemsReached(items: seq<FoodItem>, outcome: nat -> CallOutcome): (n: nat)
    ensures n <= |items|
    ensures forall j | 0 <= j < n :: HasMacros(items[j]) && !outcome(j).Throws?
    ensures n < |items| ==> !HasMacros(items[n]) || outcome(n).Throws?
  {
    var w := FirstWithoutMacros(items);
    var t := FirstThrow(outcome, |items|);
    if w <= t then w else t
  }

  /** An item that stops the loop, with none stopping it before, is where the loop ends. */
  lemma ItemsReachedAt(items: seq<FoodItem>, outcome: nat -> CallOutcome, i: nat)
    requires i <= |items| && forall j | 0 <= j < i :: HasMacros(items[j]) && !outcome(j).Throws?
    requires i < |items| ==> !HasMacros(items[i]) || outcome(i).Throws?
    ensures ItemsReached(items, outcome) == i
  {
  }

  /**
   * The item rows the creates for `items` leave: one per create the backend
   * carried out, in order; a refused create leaves no row. `itemId(k)` is
   * the id the k-th create is given.
   */
  function CreatedRows(items: seq<FoodItem>, entryId: string, itemId: nat -> string, outcome: nat -> CallOutcome): (r: seq<ItemRow>)
    ensures |r| <= |items|
    ensures (exists k | 0 <= k < |items| :: !outcome(k).Done?) ==> |r| < |items|
    decreases |items|
  {
    if items == [] then []
    else
      var n := |items| - 1;
      assert forall k | 0 <= k < n :: items[..n][k] == items[k];
      CreatedRows(items[..n], entryId, itemId, outcome)
      + if outcome(n).Done? then [ItemRowOf(items[n], entryId, itemId(n))] else []
  }

  lemma CreatedRowsStep(items: seq<FoodItem>, i: nat, entryId: string, itemId: nat -> string, outcome: nat -> CallOutcome)
    requires i < |items|
    ensures CreatedRows(items[..i + 1], entryId, itemId, outcome)
            == CreatedRows(items[..i], entryId, itemId, outcome)
               + if outcome(i).Done? then [ItemRowOf(items[i], entryId, itemId(i))] else []
  {
    assert items[..i + 1][..i] == items[..i];
  }

  /** The rows left are exactly those of the creates carried out: no other row, and none of them missing. */
  lemma {:induction false} CreatedRowsAreTheDone(items: seq<FoodItem>, entryId: string, itemId: nat -> string, outcome: nat -> CallOutcome)
    ensures var r := CreatedRows(items, entryId, itemId, outcome);
            (forall row | row in r :: exists k | 0 <= k < |items| :: outcome(k).Done? && row == ItemRowOf(items[k], entryId, itemId(k)))
            && (forall k | 0 <= k < |items| && outcome(k).Done? :: ItemRowOf(items[k], entryId, itemId(k)) in r)
    decreases |items|
  {
    if items != [] {
      var n := |items| - 1;
      var rest := CreatedRows(items[..n], entryId, itemId, outcome);
      var last := if outcome(n).Done? then [ItemRowOf(items[n], entryId, itemId(n))] else [];
      assert CreatedRows(items, entryId, itemId, outcome) == rest + last;
      CreatedRowsAreTheDone(items[..n], entryId, itemId, outcome);
      forall row | row in rest + last
        ensures exists k | 0 <= k < |items| :: outcome(k).Done? && row == ItemRowOf(items[k], entryId, itemId(k))
      {
        if row in rest {
          assert exists k | 0 <= k < |items[..n]| ::
                   outcome(k).Done? && row == ItemRowOf(items[..n][k], entryId, itemId(k));
          var k :| 0 <= k < |items[..n]| && outcome(k).Done? && row == ItemRowOf(items[..n][k], entryId, itemId(k));
          assert items[..n][k] == items[k];
        } else {
          assert outcome(n).Done? && row == ItemRowOf(items[n], entryId, itemId(n));
        }
      }
      forall k | 0 <= k < |items| && outcome(k).Done?
        ensures ItemRowOf(items[k], entryId, itemId(k)) in rest + last
      {
        if k < n {
          assert items[..n][k] == items[k];
        }
      }
    }
  }

  /** When every create is carried out, the rows are one per item, as `ItemRowsOf` lists them. */
  lemma {:induction false} CreatedRowsAllDone(items: seq<FoodItem>, entryId: string, itemId: nat -> string, outcome: nat -> CallOutcome)
    requires forall k | 0 <= k < |items| :: outcome(k).Done?
    ensures CreatedRows(items, entryId, itemId, outcome) == ItemRowsOf(items, entryId, itemId)
    decreases |items|
  {
    if items != [] {
      var n := |items| - 1;
      CreatedRowsAllDone(items[..n], entryId, itemId, outcome);
      ItemRowsStep(items, n, entryId, itemId);
      assert items[..n + 1] == items;
    }
  }

  /** A refused create is not noticed: the save goes on, and the item's row is missing. */
  lemma RefusedCreateIsMissed(items: seq<FoodItem>, entryId: string, itemId: nat -> string, outcome: nat -> CallOutcome)
    requires forall j | 0 <= j < |items| :: HasMacros(items[j]) && !outcome(j).Throws?
    requires exists k | 0 <= k < |items| :: outcome(k).Refused?
    ensures ItemsReached(items, outcome) == |items|
    ensures |CreatedRows(items, entryId, itemId, outcome)| < |items|
  {
  }

  /** The entry `saveFoodEntry` returns: the draft with its id and the recomputed macros. */
  function SavedEntry(draft: EntryDraft, id: string): (e: FoodEntry)
    ensures e.id == id && e.analysis.macronutrients == Some(SumItemMacros(draft.analysis.foodItems))
    ensures e.analysis.foodItems == draft.analysis.foodItems && e.timestamp == draft.timestamp
    ensures e.imageUri == draft.imageUri && e.mealType == draft.mealType && e.notes == draft.notes
    ensures e.isManual == draft.isManual && e.analysis.totalCalories == draft.analysis.totalCalories
    ensures e.analysis.confidence == draft.analysis.confidence
  {
    FoodEntry(id, draft.timestamp, draft.imageUri,
              draft.analysis.(macronutrients := Some(SumItemMacros(draft.analysis.foodItems))),
              draft.mealType, draft.notes, draft.isManual)
  }

  // ---------------------------------------------------------------------------
  // Reading entries back
  // ---------------------------------------------------------------------------

  function OwnedBy(user: string): EntryRow -> bool {
    (row: EntryRow) => row.userId == user
  }

  function BelongsTo(entryId: string): ItemRow -> bool {
    (row: ItemRow) => row.foodEntryId == entryId
  }

  function ItemOfRow(row: ItemRow): FoodItem {
    FoodItem(row.id, row.name, row.calories, row.weight, row.unit, None, Some(row.macros), row.confidence, row.portion)
  }

  /** The items `getFoodEntries` attaches to an entry: exactly the rows that reference it, in table order. */
  function ItemsOf(itemRows: seq<ItemRow>, entryId: string): (r: seq<FoodItem>)
    ensures var rows := Filter(itemRows, BelongsTo(entryId));
            |r| == |rows| && forall k | 0 <= k < |r| :: r[k] == ItemOfRow(rows[k])
  {
    var rows := Filter(itemRows, BelongsTo(entryId));
    seq(|rows|, k requires 0 <= k < |rows| => ItemOfRow(rows[k]))
  }

  /** An entry as `getFoodEntries` rebuilds it from its row and the item table. */
  function EntryOfRow(row: EntryRow, itemRows: seq<ItemRow>): (e: FoodEntry)
    ensures e.id == row.id && e.timestamp == row.timestamp
    ensures e.analysis.foodItems == ItemsOf(itemRows, row.id)
    ensures e.analysis.macronutrients == Some(row.macros)
    ensures e.notes == Some(row.notes.GetOr("")) && e.isManual == Some(row.isManual)
    ensures e.imageUri == row.imageUrl && e.mealType == row.mealType
    ensures e.analysis.totalCalories == row.totalCalories && e.analysis.confidence == row.confidence
  {
    FoodEntry(row.id, row.timestamp, row.imageUrl,
              Analysis(row.totalCalories, row.confidence, ItemsOf(itemRows, row.id), Some(row.macros), None),
              row.mealType, Some(row.notes.GetOr("")), Some(row.isManual))
  }

  function EntriesOfRows(rows: seq<EntryRow>, itemRows: seq<ItemRow>): (r: seq<FoodEntry>)
    ensures |r| == |rows| && forall k | 0 <= k < |r| :: r[k] == EntryOfRow(rows[k], itemRows)
  {
    seq(|rows|, k requires 0 <= k < |rows| => EntryOfRow(rows[k], itemRows))
  }

  lemma EntriesOfRowsStep(rows: seq<EntryRow>, i: nat, itemRows: seq<ItemRow>)
    requires i < |rows|
    ensures EntriesOfRows(rows[..i + 1], itemRows) == EntriesOfRows(rows[..i], itemRows) + [EntryOfRow(rows[i], itemRows)]
  {
  }

  /** Later timestamps first. */
  predicate SortedDesc(s: seq<FoodEntry>) {
    forall i, j | 0 <= i < j < |s| :: s[i].timestamp >= s[j].timestamp
  }

  /** Places `x` before the first entry that is not later than it. */
  function InsertDesc(x: FoodEntry, s: seq<FoodEntry>): (r: seq<FoodEntry>)
    ensures multiset(r) == multiset(s) + multiset{x}
  {
    if s == [] then [x]
    else if s[0].timestamp <= x.timestamp then [x] + s
    else
      assert s == [s[0]] + s[1..];
      [s[0]] + InsertDesc(x, s[1..])
  }

  /** Inserting into a list ordered latest first keeps it ordered. */
  lemma {:induction false} InsertDescSorted(x: FoodEntry, s: seq<FoodEntry>)
    requires SortedDesc(s)
    ensures SortedDesc(InsertDesc(x, s))
  {
    if s != [] && s[0].timestamp > x.timestamp {
      var t := InsertDesc(x, s[1..]);
      InsertDescSorted(x, s[1..]);
      forall k | 0 <= k < |t|
        ensures t[k].timestamp <= s[0].timestamp
      {
        assert t[k] in multiset(t);
        if t[k] != x {
          assert t[k] in multiset(s[1..]);
          var j :| 0 <= j < |s[1..]| && s[1..][j] == t[k];
          assert s[j + 1] == t[k];
        }
      }
    }
  }

  /** `sort((a, b) => b.timestamp - a.timestamp)`: the same entries, later ones first. */
  function SortDesc(s: seq<FoodEntry>): (r: seq<FoodEntry>)
    ensures multiset(r) == multiset(s)
  {
    if s == [] then [] else
      assert s == [s[0]] + s[1..];
      InsertDesc(s[0], SortDesc(s[1..]))
  }

  lemma {:induction false} SortDescSorted(s: seq<FoodEntry>)
    ensures SortedDesc(SortDesc(s))
  {
    if s != [] {
      SortDescSorted(s[1..]);
      InsertDescSorted(s[0], SortDesc(s[1..]));
    }
  }

  /** What `getFoodEntries` returns for a signed-in user: one entry per row of the user, latest first. */
  function UserEntries(entryRows: seq<EntryRow>, itemRows: seq<ItemRow>, user: string): (r: seq<FoodEntry>)
    ensures |r| == |Filter(entryRows, OwnedBy(user))|
    ensures multiset(r) == multiset(EntriesOfRows(Filter(entryRows, OwnedBy(user)), itemRows))
    ensures SortedDesc(r)
  {
    var built := EntriesOfRows(Filter(entryRows, OwnedBy(user)), itemRows);
    assert |multiset(SortDesc(built))| == |multiset(built)|;
    SortDescSorted(built);
    SortDesc(built)
  }

  /**
   * Every entry read back is one of the user's rows, carrying exactly the
   * items that reference it, and the list is ordered by time, latest first.
   */
  lemma UserEntriesAreOwned(entryRows: seq<EntryRow>, itemRows: seq<ItemRow>, user: string, e: FoodEntry)
    requires e in UserEntries(entryRows, itemRows, user)
    ensures exists row | row in entryRows :: row.userId == user && e == EntryOfRow(row, itemRows)
  {
    var owned := Filter(entryRows, OwnedBy(user));
    var built := EntriesOfRows(owned, itemRows);
    assert e in multiset(built);
    var k :| 0 <= k < |built| && built[k] == e;
    assert owned[k] in entryRows && owned[k].userId == user;
  }

  /**
   * A saved entry reads back with the time, image, calories, confidence,
   * meal type and macros that `saveFoodEntry` returned for it.
   */
  lemma SavedEntryReadsBack(user: string, draft: EntryDraft, id: string, itemRows: seq<ItemRow>)
    ensures var saved := SavedEntry(draft, id);
            var read := EntryOfRow(EntryRowOf(user, draft, id), itemRows);
            read.id == saved.id && read.timestamp == saved.timestamp && read.imageUri == saved.imageUri
            && read.analysis.totalCalories == saved.analysis.totalCalories
            && read.analysis.confidence == saved.analysis.confidence
            && read.mealType == saved.mealType && read.analysis.macronutrients == saved.analysis.macronutrients
  {
  }

  /**
   * After a save, the item rows that reference the new entry are exactly the
   * rows just written, provided no earlier row referenced its id; the
   * macros they carry add up to the totals stored on the entry row.
   */
  lemma SavedItemsReadBack(before: seq<ItemRow>, items: seq<FoodItem>, entryId: string, itemId: nat -> string)
    requires forall k | 0 <= k < |before| :: before[k].foodEntryId != entryId
    ensures Filter(before + ItemRowsOf(items, entryId, itemId), BelongsTo(entryId)) == ItemRowsOf(items, entryId, itemId)
    ensures SumItemMacros(ItemsOf(before + ItemRowsOf(items, entryId, itemId), entryId)) == SumItemMacros(items)
  {
    var added := ItemRowsOf(items, entryId, itemId);
    FilterAppend(before, added, BelongsTo(entryId));
    assert Filter(before, BelongsTo(entryId)) == [] by {
      FilterNone(before, BelongsTo(entryId));
    }
    FilterKeepsAll(added, BelongsTo(entryId));
    var read := ItemsOf(before + added, entryId);
    SumMacrosOverMap(items, read, ItemMacronutrients, ItemMacronutrients);
  }

  lemma {:induction false} FilterNone<T>(s: seq<T>, keep: T -> bool)
    requires forall k | 0 <= k < |s| :: !keep(s[k])
    ensures Filter(s, keep) == []
  {
    if s != [] {
      FilterNone(s[1..], keep);
    }
  }

  // ---------------------------------------------------------------------------
  // Profile, goals and key rows: one per user, updated in place
  // ---------------------------------------------------------------------------

  /** An optional field sent as `undefined` is dropped from the update, so the row keeps its value. */
  function Keep<T>(sent: Option<T>, stored: Option<T>): (r: Option<T>)
    ensures sent.Some? ==> r == sent
    ensures sent.None? ==> r == stored
  {
    if sent.Some? then sent else stored
  }

  function ProfileOf(user: string): ProfileRow -> bool {
    (row: ProfileRow) => row.userId == user
  }

  predicate OneProfileEach(rows: seq<ProfileRow>) {
    forall i, j | 0 <= i < j < |rows| :: rows[i].userId != rows[j].userId
  }

  /** `saveUserProfile`: the user's first row takes the profile's fields, or a new row is made. */
  function UpsertProfile(rows: seq<ProfileRow>, user: string, p: UserProfile, newId: string, now: int): (r: seq<ProfileRow>)
    ensures FirstMatch(rows, ProfileOf(user)).Some? ==>
              var k := FirstMatch(rows, ProfileOf(user)).value;
              |r| == |rows| && forall j | 0 <= j < |rows| && j != k :: r[j] == rows[j]
    ensures FirstMatch(rows, ProfileOf(user)).Some? ==>
              var k := FirstMatch(rows, ProfileOf(user)).value;
              r[k] == rows[k].(name := p.name, age := Keep(p.age, rows[k].age), weight := Keep(p.weight, rows[k].weight),
                               height := Keep(p.height, rows[k].height),
                               activityLevel := Keep(p.activityLevel, rows[k].activityLevel),
                               dailyCalorieGoal := Keep(p.dailyCalorieGoal, rows[k].dailyCalorieGoal), updatedAt := now)
    ensures FirstMatch(rows, ProfileOf(user)).None? ==>
              |r| == |rows| + 1 && r[..|rows|] == rows
              && r[|rows|] == ProfileRow(newId, user, p.name, "", p.age, p.weight, p.height, p.activityLevel,
                                         p.dailyCalorieGoal, now, now)
    ensures OneProfileEach(rows) ==> OneProfileEach(r)
    ensures FirstMatch(r, ProfileOf(user)).Some?
  {
    match FirstMatch(rows, ProfileOf(user))
    case Some(k) =>
      var row := rows[k];
      var updated := row.(name := p.name, age := Keep(p.age, row.age), weight := Keep(p.weight, row.weight),
                          height := Keep(p.height, row.height), activityLevel := Keep(p.activityLevel, row.activityLevel),
                          dailyCalorieGoal := Keep(p.dailyCalorieGoal, row.dailyCalorieGoal), updatedAt := now);
      assert ProfileOf(user)(rows[k := updated][k]);
      rows[k := updated]
    case None =>
      var r := rows + [ProfileRow(newId, user, p.name, "", p.age, p.weight, p.height, p.activityLevel,
                                  p.dailyCalorieGoal, now, now)];
      assert ProfileOf(user)(r[|rows|]);
      r
  }

  /** `x || undefined` on a number: zero reads back as absent. */
  function NonZero(x: Option<real>): (r: Option<real>)
    ensures r.Some? <==> x.Some? && x.value != 0.0
    ensures r.Some? ==> r == x
  {
    if x.Some? && x.value != 0.0 then x else None
  }

  function ProfileOfRow(row: ProfileRow): UserProfile {
    UserProfile(row.name, NonZero(row.age), NonZero(row.weight), NonZero(row.height), None,
                row.activityLevel, NonZero(row.dailyCalorieGoal), row.createdAt, row.updatedAt, None)
  }

  /** `getUserProfile` for a signed-in user: the first row of that user, or nothing. */
  function ReadProfile(rows: seq<ProfileRow>, user: string): (r: Option<UserProfile>)
    ensures r.Some? <==> exists k | 0 <= k < |rows| :: rows[k].userId == user
    ensures r.Some? ==> exists k | 0 <= k < |rows| :: rows[k].userId == user
                          && (forall j | 0 <= j < k :: rows[j].userId != user)
                          && r.value == ProfileOfRow(rows[k])
  {
    match FirstMatch(rows, ProfileOf(user))
    case Some(k) => Some(ProfileOfRow(rows[k]))
    case None => None
  }

  /**
   * A first save creates the profile: reading it back gives the name and
   * the given non-zero figures, stamped with the time of the save.
   */
  lemma ProfileFirstSave(rows: seq<ProfileRow>, user: string, p: UserProfile, newId: string, now: int)
    requires forall k | 0 <= k < |rows| :: rows[k].userId != user
    ensures var got := ReadProfile(UpsertProfile(rows, user, p, newId, now), user);
            got.Some? && got.value.name == p.name && got.value.age == NonZero(p.age)
            && got.value.weight == NonZero(p.weight) && got.value.height == NonZero(p.height)
            && got.value.activityLevel == p.activityLevel && got.value.dailyCalorieGoal == NonZero(p.dailyCalorieGoal)
            && got.value.createdAt == now && got.value.updatedAt == now
  {
    var r := UpsertProfile(rows, user, p, newId, now);
    assert FirstMatch(r, ProfileOf(user)) == Some(|rows|);
  }

  /**
   * A later save renames the profile, keeps every figure sent as undefined,
   * stamps the update time, leaves the creation time and other rows alone,
   * and is what reading the profile back gives.
   */
  lemma ProfileResave(rows: seq<ProfileRow>, user: string, p: UserProfile, newId: string, now: int, k: nat)
    requires FirstMatch(rows, ProfileOf(user)) == Some(k)
    ensures var r := UpsertProfile(rows, user, p, newId, now);
            r[k].id == rows[k].id && r[k].userId == user && r[k].name == p.name
            && r[k].age == Keep(p.age, rows[k].age) && r[k].weight == Keep(p.weight, rows[k].weight)
            && r[k].height == Keep(p.height, rows[k].height)
            && r[k].activityLevel == Keep(p.activityLevel, rows[k].activityLevel)
            && r[k].dailyCalorieGoal == Keep(p.dailyCalorieGoal, rows[k].dailyCalorieGoal)
            && r[k].createdAt == rows[k].createdAt && r[k].updatedAt == now
            && (forall j | 0 <= j < |rows| && j != k :: r[j] == rows[j])
            && ReadProfile(r, user) == Some(ProfileOfRow(r[k]))
  {
    var r := UpsertProfile(rows, user, p, newId, now);
    FirstMatchAt(r, ProfileOf(user), k);
  }

  function GoalsOf(user: string): GoalsRow -> bool {
    (row: GoalsRow) => row.userId == user
  }

  predicate OneGoalsEach(rows: seq<GoalsRow>) {
    forall i, j | 0 <= i < j < |rows| :: rows[i].userId != rows[j].userId
  }

  /** `saveDailyGoals`: the calories are stored rounded; the user's first row is updated or a new row made. */
  function UpsertGoals(rows: seq<GoalsRow>, user: string, g: DailyGoals, newId: string): (r: seq<GoalsRow>)
    ensures FirstMatch(rows, GoalsOf(user)).Some? ==>
              var k := FirstMatch(rows, GoalsOf(user)).value;
              |r| == |rows| && r[k].id == rows[k].id && r[k].userId == user
              && forall j | 0 <= j < |rows| && j != k :: r[j] == rows[j]
    ensures FirstMatch(rows, GoalsOf(user)).None? ==>
              r == rows + [GoalsRow(newId, user, JsRound(g.calories), g.protein, g.carbs, g.fat, g.fiber)]
    ensures OneGoalsEach(rows) ==> OneGoalsEach(r)
    ensures FirstMatch(r, GoalsOf(user)).Some?
    ensures var k := FirstMatch(r, GoalsOf(user)).value;
            r[k].calories == JsRound(g.calories) && r[k].protein == g.protein && r[k].carbs == g.carbs
            && r[k].fat == g.fat && r[k].fiber == g.fiber
  {
    var row := GoalsRow(newId, user, JsRound(g.calories), g.protein, g.carbs, g.fat, g.fiber);
    match FirstMatch(rows, GoalsOf(user))
    case Some(k) =>
      var r := rows[k := row.(id := rows[k].id)];
      FirstMatchAt(r, GoalsOf(user), k);
      r
    case None =>
      var r := rows + [row];
      FirstMatchAt(r, GoalsOf(user), |rows|);
      r
  }

  /** `getDailyGoals` for a signed-in user: the five figures of the user's first row, or nothing. */
  function ReadGoals(rows: seq<GoalsRow>, user: string): (r: Option<DailyGoals>)
    ensures r.Some? <==> FirstMatch(rows, GoalsOf(user)).Some?
    ensures r.Some? <==> exists k | 0 <= k < |rows| :: rows[k].userId == user
    ensures r.Some? ==> exists k | 0 <= k < |rows| :: rows[k].userId == user
                          && (forall j | 0 <= j < k :: rows[j].userId != user)
                          && r.value == DailyGoals(rows[k].calories as real, rows[k].protein, rows[k].carbs,
                                                   rows[k].fat, rows[k].fiber)
  {
    match FirstMatch(rows, GoalsOf(user))
    case Some(k) =>
      var row := rows[k];
      Some(DailyGoals(row.calories as real, row.protein, row.carbs, row.fat, row.fiber))
    case None => None
  }

  /** Goals read back after a save are the saved goals with the calories rounded to a whole number. */
  lemma GoalsRoundTrip(rows: seq<GoalsRow>, user: string, g: DailyGoals, newId: string)
    ensures ReadGoals(UpsertGoals(rows, user, g, newId), user) == Some(g.(calories := JsRound(g.calories) as real))
  {
  }

  function GeminiKeyOf(user: string): KeyRow -> bool {
    (row: KeyRow) => row.userId == user && row.service == "gemini"
  }

  predicate OneKeyEach(rows: seq<KeyRow>) {
    forall i, j | 0 <= i < j < |rows| :: !(rows[i].userId == rows[j].userId && rows[i].service == rows[j].service)
  }

  /** `saveGeminiApiKey`: the user's first "gemini" row takes the key, or a new row is made. */
  function UpsertKey(rows: seq<KeyRow>, user: string, key: string, newId: string): (r: seq<KeyRow>)
    ensures FirstMatch(rows, GeminiKeyOf(user)).Some? ==>
              var k := FirstMatch(rows, GeminiKeyOf(user)).value;
              |r| == |rows| && r[k] == rows[k].(encryptedKey := key)
              && forall j | 0 <= j < |rows| && j != k :: r[j] == rows[j]
    ensures FirstMatch(rows, GeminiKeyOf(user)).None? ==> r == rows + [KeyRow(newId, user, "gemini", key)]
    ensures OneKeyEach(rows) ==> OneKeyEach(r)
    ensures FirstMatch(r, GeminiKeyOf(user)).Some?
    ensures r[FirstMatch(r, GeminiKeyOf(user)).value].encryptedKey == key
  {
    match FirstMatch(rows, GeminiKeyOf(user))
    case Some(k) =>
      var r := rows[k := rows[k].(encryptedKey := key)];
      FirstMatchAt(r, GeminiKeyOf(user), k);
      r
    case None =>
      var r := rows + [KeyRow(newId, user, "gemini", key)];
      FirstMatchAt(r, GeminiKeyOf(user), |rows|);
      r
  }

  /** `getGeminiApiKey` for a signed-in user: the key of the user's first "gemini" row, or nothing. */
  function ReadKey(rows: seq<KeyRow>, user: string): (r: Option<string>)
    ensures r.Some? <==> exists k | 0 <= k < |rows| :: rows[k].userId == user && rows[k].service == "gemini"
    ensures r.Some? ==> exists k | 0 <= k < |rows| :: rows[k].userId == user && rows[k].service == "gemini"
                          && (forall j | 0 <= j < k :: !(rows[j].userId == user && rows[j].service == "gemini"))
                          && r.value == rows[k].encryptedKey
  {
    match FirstMatch(rows, GeminiKeyOf(user))
    case Some(k) => Some(rows[k].encryptedKey)
    case None => None
  }

  /** The key read back after a save is the key saved. */
  lemma KeyRoundTrip(rows: seq<KeyRow>, user: string, key: string, newId: string)
    ensures ReadKey(UpsertKey(rows, user, key, newId), user) == Some(key)
  {
  }

  /**
   * With the key looked up here, as the identification service evidently
   * meant to, a saved non-empty key lets the provider's reply through.
   */
  lemma SavedKeyReachesIdentify(rows: seq<KeyRow>, user: string, key: string, newId: string,
                                body: string, parse: string -> Option<Identification>)
    requires key != "" && NoBackticks(body) && parse(body).Some?
    ensures IdentifyFood(ReadKey(UpsertKey(rows, user, key, newId), user), Some("```json\n" + body + "\n```"), parse)
            == parse(body).value
  {
    KeyRoundTrip(rows, user, key, newId);
    IdentifyUsesReply(key, body, parse);
  }

  function EntryMacros(e: FoodEntry): Macros { OrZero(e.analysis.macronutrients) }

  /**
   * `getDailyStats`: the entries read back whose timestamp lies within the
   * day, counted and added up; the breakdown adds up each entry's
   * `macronutrients`, a missing one counting as zeros.
   */
  function DayStatsOf(entries: seq<FoodEntry>, start: int, end: int): (r: DailyStats)
    ensures r.totalMeals <= |entries|
    ensures r.totalMeals == 0 ==> r == DailyStats(0.0, 0, Zero)
  {
    var day := Filter(entries, InRange(start, end));
    DailyStats(SumBy(day, EntryCalories), |day|, SumMacrosBy(day, EntryMacros))
  }

  /** One more entry within the day adds one meal, its calories and its macros; outside it, nothing changes. */
  lemma DayStatsOfAfterAdd(entries: seq<FoodEntry>, e: FoodEntry, start: int, end: int)
    ensures var before := DayStatsOf(entries, start, end);
            var after := DayStatsOf([e] + entries, start, end);
            if start <= e.timestamp <= end then
              after.totalMeals == before.totalMeals + 1
              && after.totalCalories == e.analysis.totalCalories + before.totalCalories
              && after.nutritionBreakdown == Add(EntryMacros(e), before.nutritionBreakdown)
            else after == before
  {
    var keep := InRange(start, end);
    var day := Filter(entries, keep);
    if start <= e.timestamp <= end {
      FilterAppend([e], entries, keep);
      assert Filter([e], keep) == [e] by {
        assert [e][1..] == [];
      }
      SumByAppend([e], day, EntryCalories);
      SumMacrosAppend([e], day, EntryMacros);
      assert [e][..0] == [];
    } else {
      FilterRejectsOne(e, entries, keep);
    }
  }

  /** The ids of those of the first `n` rows whose delete the backend carried out. */
  function DoneIds(rows: seq<ItemRow>, outcome: nat -> CallOutcome, n: nat): set<string>
    requires n <= |rows|
  {
    set k | 0 <= k < n && outcome(k).Done? :: rows[k].id
  }

  function WithoutIds(ids: set<string>): ItemRow -> bool {
    (row: ItemRow) => row.id !in ids
  }

  function WithoutId(id: string): ItemRow -> bool {
    (row: ItemRow) => row.id != id
  }

  function OtherEntry(entryId: string): EntryRow -> bool {
    (row: EntryRow) => row.id != entryId
  }

  lemma NothingDeletedYet(s: seq<ItemRow>, rows: seq<ItemRow>, outcome: nat -> CallOutcome)
    ensures Filter(s, WithoutIds(DoneIds(rows, outcome, 0))) == s
  {
    assert DoneIds(rows, outcome, 0) == {};
    FilterKeepsAll(s, WithoutIds(DoneIds(rows, outcome, 0)));
  }

  /** Once the ids of every row that references an entry are deleted, no row references it. */
  lemma NoneLeftOf(s: seq<ItemRow>, entryId: string, outcome: nat -> CallOutcome)
    requires forall k | 0 <= k < |Filter(s, BelongsTo(entryId))| :: outcome(k).Done?
    ensures var matching := Filter(s, BelongsTo(entryId));
            forall row | row in Filter(s, WithoutIds(DoneIds(matching, outcome, |matching|))) :: row.foodEntryId != entryId
  {
    var matching := Filter(s, BelongsTo(entryId));
    var ids := DoneIds(matching, outcome, |matching|);
    assert forall row | row in s && row.foodEntryId == entryId :: row.id in ids by {
      forall row | row in s && row.foodEntryId == entryId
        ensures row.id in ids
      {
        var j :| 0 <= j < |s| && s[j] == row;
        assert row in matching;
        var k :| 0 <= k < |matching| && matching[k] == row;
        assert outcome(k).Done?;
      }
    }
    forall row | row in Filter(s, WithoutIds(ids))
      ensures row.foodEntryId != entryId
    {
      if row.foodEntryId == entryId {
        assert false;
      }
    }
  }

  /** Deleting the rows with one more id is filtering by the ids deleted so far and that one; a refused delete deletes nothing. */
  lemma DeleteOneMore(s: seq<ItemRow>, rows: seq<ItemRow>, outcome: nat -> CallOutcome, i: nat)
    requires i < |rows|
    ensures var before := Filter(s, WithoutIds(DoneIds(rows, outcome, i)));
            Filter(s, WithoutIds(DoneIds(rows, outcome, i + 1)))
            == if outcome(i).Done? then Filter(before, WithoutId(rows[i].id)) else before
  {
    var ids := DoneIds(rows, outcome, i);
    var ids' := DoneIds(rows, outcome, i + 1);
    if outcome(i).Done? {
      assert ids' == ids + {rows[i].id};
      FilterTwice(s, WithoutIds(ids), WithoutId(rows[i].id), WithoutIds(ids'));
    } else {
      assert ids' == ids;
    }
  }

  /**
   * The item rows `deleteFoodEntry` leaves: those that share no id with a
   * matching row whose delete the backend carried out before the first
   * call that threw.
   */
  function ItemsAfterDelete(itemRows: seq<ItemRow>, entryId: string, outcome: nat -> CallOutcome): (r: seq<ItemRow>)
    ensures forall row | row in r :: row in itemRows
  {
    var matching := Filter(itemRows, BelongsTo(entryId));
    Filter(itemRows, WithoutIds(DoneIds(matching, outcome, FirstThrow(outcome, |matching|))))
  }

  /**
   * What `deleteFoodEntry` returns: the message of the first call that
   * throws, the entry delete (call `m`) included; `errors` never fail it.
   */
  function DeleteResult(itemRows: seq<ItemRow>, entryId: string, outcome: nat -> CallOutcome): (r: Result<()>)
    ensures var m := |Filter(itemRows, BelongsTo(entryId))|;
            (r.Success? <==> forall k | 0 <= k <= m :: !outcome(k).Throws?)
            && (r.Failure? ==> exists k | 0 <= k <= m :: outcome(k).Throws? && r.error == outcome(k).message)
  {
    var m := |Filter(itemRows, BelongsTo(entryId))|;
    var t := FirstThrow(outcome, m + 1);
    if t <= m then Failure(outcome(t).message) else Success(())
  }

  /** The entry rows after `deleteFoodEntry`: the entry's row goes only when no call threw and the backend carried out the entry delete. */
  function EntriesAfterDelete(entryRows: seq<EntryRow>, itemRows: seq<ItemRow>, entryId: string, outcome: nat -> CallOutcome): (r: seq<EntryRow>)
    ensures var m := |Filter(itemRows, BelongsTo(entryId))|;
            if DeleteResult(itemRows, entryId, outcome).Success? && outcome(m).Done?
            then (forall row | row in r :: row in entryRows && row.id != entryId)
                 && (forall row | row in entryRows && row.id != entryId :: row in r)
            else r == entryRows
  {
    var m := |Filter(itemRows, BelongsTo(entryId))|;
    if DeleteResult(itemRows, entryId, outcome).Success? && outcome(m).Done?
    then Filter(entryRows, OtherEntry(entryId)) else entryRows
  }

  /** A delete in which no call threw and every item delete was carried out leaves no item of the entry. */
  lemma DeleteLeavesNoItems(itemRows: seq<ItemRow>, entryId: string, outcome: nat -> CallOutcome)
    requires DeleteResult(itemRows, entryId, outcome).Success?
    requires forall k | 0 <= k < |Filter(itemRows, BelongsTo(entryId))| :: outcome(k).Done?
    ensures forall row | row in ItemsAfterDelete(itemRows, entryId, outcome) :: row.foodEntryId != entryId
  {
    var m := |Filter(itemRows, BelongsTo(entryId))|;
    FirstThrowNext(outcome, m);
    NoneLeftOf(itemRows, entryId, outcome);
  }

  /**
   * A refused item delete is not noticed: when no item delete throws, the
   * call can still succeed, and a refused row whose id no other matching
   * row shares is still in the table.
   */
  lemma RefusedDeleteLeavesRow(itemRows: seq<ItemRow>, entryId: string, outcome: nat -> CallOutcome, k: nat)
    requires var matching := Filter(itemRows, BelongsTo(entryId));
             k < |matching| && outcome(k).Refused?
             && (forall j | 0 <= j < |matching| && j != k :: matching[j].id != matching[k].id)
    ensures Filter(itemRows, BelongsTo(entryId))[k] in ItemsAfterDelete(itemRows, entryId, outcome)
  {
    var matching := Filter(itemRows, BelongsTo(entryId));
    var ids := DoneIds(matching, outcome, FirstThrow(outcome, |matching|));
    assert matching[k].id !in ids;
    var j :| 0 <= j < |itemRows| && itemRows[j] == matching[k];
  }

  // ---------------------------------------------------------------------------
  // The store
  // ---------------------------------------------------------------------------

  /** The five tables and the signed-in user (`None` when `getCurrentUser` throws). */
  class AmplifyStore {
    var currentUser: Option<string>
    var entryRows: seq<EntryRow>
    var itemRows: seq<ItemRow>
    var profileRows: seq<ProfileRow>
    var goalsRows: seq<GoalsRow>
    var keyRows: seq<KeyRow>

    /** At most one profile, goals and "gemini" key row per user. */
    predicate Valid()
      reads this
    {
      OneProfileEach(profileRows) && OneGoalsEach(goalsRows) && OneKeyEach(keyRows)
    }

    constructor (user: Option<string>)
      ensures currentUser == user && entryRows == [] && itemRows == []
      ensures profileRows == [] && goalsRows == [] && keyRows == []
      ensures Valid()
    {
      currentUser := user;
      entryRows := [];
      itemRows := [];
      profileRows := [];
      goalsRows := [];
      keyRows := [];
    }

    /**
     * `saveFoodEntry`: without a user, or when the entry create reports
     * errors (`createError`), nothing is written and the call fails.
     * Otherwise the entry row is written, then the items are created in
     * order; `outcome(k)` is what the k-th item create does. The loop stops
     * at the first item without `macronutrients` (its `protein` read throws)
     * or whose create throws, leaving the rows written so far, and the save
     * rethrows. A refused create is not noticed.
     */
    method SaveFoodEntry(draft: EntryDraft, createError: Option<string>, entryId: string,
                         itemId: nat -> string, outcome: nat -> CallOutcome)
      returns (r: Result<FoodEntry>)
      requires Valid()
      modifies this
      ensures Valid() && currentUser == old(currentUser)
      ensures profileRows == old(profileRows) && goalsRows == old(goalsRows) && keyRows == old(keyRows)
      ensures old(currentUser).None? ==> r == Failure(NotAuthenticated) && entryRows == old(entryRows) && itemRows == old(itemRows)
      ensures old(currentUser).Some? && createError.Some? ==>
                r == Failure(createError.value) && entryRows == old(entryRows) && itemRows == old(itemRows)
      ensures old(currentUser).Some? && createError.None? ==>
                var items := draft.analysis.foodItems;
                var reached := ItemsReached(items, outcome);
                entryRows == old(entryRows) + [EntryRowOf(old(currentUser).value, draft, entryId)]
                && itemRows == old(itemRows) + CreatedRows(items[..reached], entryId, itemId, outcome)
                && (r.Success? <==> reached == |items|)
                && (r.Success? ==> r.value == SavedEntry(draft, entryId))
                && (r.Failure? ==> r.error == if HasMacros(items[reached]) then outcome(reached).message else MissingMacros)
    {
      if currentUser.None? {
        return Failure(NotAuthenticated);
      }
      if createError.Some? {
        return Failure(createError.value);
      }
      entryRows := entryRows + [EntryRowOf(currentUser.value, draft, entryId)];
      var thrown := CreateItemRows(draft.analysis.foodItems, entryId, itemId, outcome);
      if thrown.Some? {
        return Failure(thrown.value);
      }
      r := Success(SavedEntry(draft, entryId));
    }

    /**
     * The loop of `saveFoodEntry` that creates the item rows in order. It
     * returns the message of what threw: the missing `macronutrients`, or
     * the create itself.
     */
    method CreateItemRows(items: seq<FoodItem>, entryId: string, itemId: nat -> string, outcome: nat -> CallOutcome)
      returns (thrown: Option<string>)
      modifies this
      ensures var reached := ItemsReached(items, outcome);
              itemRows == old(itemRows) + CreatedRows(items[..reached], entryId, itemId, outcome)
              && (thrown.None? <==> reached == |items|)
              && (thrown.Some? ==> thrown.value == if HasMacros(items[reached]) then outcome(reached).message else MissingMacros)
      ensures entryRows == old(entryRows) && currentUser == old(currentUser)
      ensures profileRows == old(profileRows) && goalsRows == old(goalsRows) && keyRows == old(keyRows)
    {
      var i := 0;
      while i < |items| && items[i].macronutrients.Some? && !outcome(i).Throws?
        invariant 0 <= i <= |items|
        invariant forall j | 0 <= j < i :: HasMacros(items[j]) && !outcome(j).Throws?
        invariant itemRows == old(itemRows) + CreatedRows(items[..i], entryId, itemId, outcome)
        invariant entryRows == old(entryRows) && currentUser == old(currentUser)
        invariant profileRows == old(profileRows) && goalsRows == old(goalsRows) && keyRows == old(keyRows)
      {
        ghost var before := CreatedRows(items[..i], entryId, itemId, outcome);
        CreatedRowsStep(items, i, entryId, itemId, outcome);
        if outcome(i).Done? {
          ghost var row := ItemRowOf(items[i], entryId, itemId(i));
          assert old(itemRows) + before + [row] == old(itemRows) + (before + [row]);
          itemRows := itemRows + [ItemRowOf(items[i], entryId, itemId(i))];
        } else {
          assert before + [] == before;
        }
        i := i + 1;
      }
      ItemsReachedAt(items, outcome, i);
      if i == |items| {
        assert items[..i] == items;
        thrown := None;
      } else if items[i].macronutrients.None? {
        thrown := Some(MissingMacros);
      } else {
        thrown := Some(outcome(i).message);
      }
    }

    /**
     * `getFoodEntries`: the signed-in user's entries, each with the items
     * that reference it, latest first; nothing without a user. `readThrows`
     * says that one of its list calls throws: the read catches it and
     * returns nothing.
     */
    method GetFoodEntries(readThrows: bool) returns (r: seq<FoodEntry>)
      ensures currentUser.None? || readThrows ==> r == []
      ensures currentUser.Some? && !readThrows ==> r == UserEntries(entryRows, itemRows, currentUser.value)
    {
      if currentUser.None? || readThrows {
        return [];
      }
      var rows := Filter(entryRows, OwnedBy(currentUser.value));
      var built: seq<FoodEntry> := [];
      var i := 0;
      while i < |rows|
        invariant 0 <= i <= |rows|
        invariant built == EntriesOfRows(rows[..i], itemRows)
      {
        EntriesOfRowsStep(rows, i, itemRows);
        built := built + [EntryOfRow(rows[i], itemRows)];
        i := i + 1;
      }
      assert rows[..i] == rows;
      r := SortDesc(built);
    }

    /**
     * `deleteFoodEntry`: the item rows that reference the entry are deleted
     * one by one, then the entry row. `outcome(k)` is what the k-th call
     * does, the entry delete being the last call. The `errors` a delete
     * answers with are not looked at, so a refused delete leaves its row and
     * the call still succeeds; a call that throws ends it with a failure,
     * leaving the entry row and the items not yet deleted in place.
     */
    method DeleteFoodEntry(entryId: string, outcome: nat -> CallOutcome) returns (r: Result<()>)
      modifies this
      ensures r == DeleteResult(old(itemRows), entryId, outcome)
      ensures itemRows == ItemsAfterDelete(old(itemRows), entryId, outcome)
      ensures entryRows == EntriesAfterDelete(old(entryRows), old(itemRows), entryId, outcome)
      ensures currentUser == old(currentUser) && profileRows == old(profileRows)
      ensures goalsRows == old(goalsRows) && keyRows == old(keyRows)
    {
      var matching := Filter(itemRows, BelongsTo(entryId));
      var m := |matching|;
      var thrown := DeleteItemRows(matching, outcome);
      FirstThrowNext(outcome, m);
      if thrown.Some? {
        r := Failure(thrown.value);
      } else if outcome(m).Throws? {
        r := Failure(outcome(m).message);
      } else {
        if outcome(m).Done? {
          entryRows := Filter(entryRows, OtherEntry(entryId));
        }
        r := Success(());
      }
    }

    /**
     * The loop of `deleteFoodEntry` over the item rows that reference the
     * entry: it stops at the first delete that throws and returns its
     * message.
     */
    method DeleteItemRows(matching: seq<ItemRow>, outcome: nat -> CallOutcome) returns (thrown: Option<string>)
      modifies this
      ensures var t := FirstThrow(outcome, |matching|);
              itemRows == Filter(old(itemRows), WithoutIds(DoneIds(matching, outcome, t)))
              && (thrown.None? <==> t == |matching|)
              && (thrown.Some? ==> thrown.value == outcome(t).message)
      ensures entryRows == old(entryRows) && currentUser == old(currentUser)
      ensures profileRows == old(profileRows) && goalsRows == old(goalsRows) && keyRows == old(keyRows)
    {
      var before := itemRows;
      var rows := itemRows;
      NothingDeletedYet(rows, matching, outcome);
      var i := 0;
      while i < |matching| && !outcome(i).Throws?
        invariant 0 <= i <= |matching|
        invariant forall j | 0 <= j < i :: !outcome(j).Throws?
        invariant rows == Filter(before, WithoutIds(DoneIds(matching, outcome, i)))
        modifies {}
      {
        DeleteOneMore(before, matching, outcome, i);
        if outcome(i).Done? {
          rows := Filter(rows, WithoutId(matching[i].id));
        }
        i := i + 1;
      }
      FirstThrowAt(outcome, |matching|, i);
      itemRows := rows;
      thrown := if i < |matching| then Some(outcome(i).message) else None;
    }

    /**
     * `saveUserProfile`: the user's rows are listed and the first one is
     * updated, or a row is created. `outcome` is what that list-then-write
     * does: `Throws` when either call throws (the save logs and rethrows),
     * `Refused` when the write answers with `errors` (not looked at: the save
     * returns normally and the table is as it was), `Done` when it is written.
     */
    method SaveUserProfile(p: UserProfile, newId: string, now: int, outcome: CallOutcome) returns (r: Result<()>)
      requires Valid()
      modifies this
      ensures Valid() && currentUser == old(currentUser)
      ensures entryRows == old(entryRows) && itemRows == old(itemRows)
      ensures goalsRows == old(goalsRows) && keyRows == old(keyRows)
      ensures old(currentUser).None? ==> r == Failure(NotAuthenticated) && profileRows == old(profileRows)
      ensures old(currentUser).Some? ==>
                r == WriteResult(outcome)
                && profileRows == if outcome.Done? then UpsertProfile(old(profileRows), old(currentUser).value, p, newId, now) else old(profileRows)
    {
      if currentUser.None? {
        return Failure(NotAuthenticated);
      }
      if outcome.Done? {
        profileRows := UpsertProfile(profileRows, currentUser.value, p, newId, now);
      }
      r := WriteResult(outcome);
    }

    /**
     * `getUserProfile`: the user's profile, or nothing without a user or a
     * row, or when the list throws (`readThrows`: the read catches it).
     */
    function GetUserProfile(readThrows: bool): (r: Option<UserProfile>)
      reads this
      ensures readThrows ==> r == None
      ensures r.Some? <==> !readThrows && currentUser.Some? && exists k | 0 <= k < |profileRows| :: profileRows[k].userId == currentUser.value
      ensures r.Some? ==> exists k | 0 <= k < |profileRows| ::
                            profileRows[k].userId == currentUser.value && r.value == ProfileOfRow(profileRows[k])
    {
      if currentUser.None? || readThrows then None else ReadProfile(profileRows, currentUser.value)
    }

    /** `saveDailyGoals`: list, then update or create, with `outcome` as for `saveUserProfile`. */
    method SaveDailyGoals(g: DailyGoals, newId: string, outcome: CallOutcome) returns (r: Result<()>)
      requires Valid()
      modifies this
      ensures Valid() && currentUser == old(currentUser)
      ensures entryRows == old(entryRows) && itemRows == old(itemRows)
      ensures profileRows == old(profileRows) && keyRows == old(keyRows)
      ensures old(currentUser).None? ==> r == Failure(NotAuthenticated) && goalsRows == old(goalsRows)
      ensures old(currentUser).Some? ==>
                r == WriteResult(outcome)
                && goalsRows == if outcome.Done? then UpsertGoals(old(goalsRows), old(currentUser).value, g, newId) else old(goalsRows)
    {
      if currentUser.None? {
        return Failure(NotAuthenticated);
      }
      if outcome.Done? {
        goalsRows := UpsertGoals(goalsRows, currentUser.value, g, newId);
      }
      r := WriteResult(outcome);
    }

    /** `getDailyGoals`: the user's goals, or nothing without a user or a row, or when the list throws. */
    function GetDailyGoals(readThrows: bool): (r: Option<DailyGoals>)
      reads this
      ensures readThrows ==> r == None
      ensures r.Some? <==> !readThrows && currentUser.Some? && exists k | 0 <= k < |goalsRows| :: goalsRows[k].userId == currentUser.value
      ensures r.Some? ==> exists k | 0 <= k < |goalsRows| ::
                            goalsRows[k].userId == currentUser.value
                            && (forall j | 0 <= j < k :: goalsRows[j].userId != currentUser.value)
                            && r.value == DailyGoals(goalsRows[k].calories as real, goalsRows[k].protein,
                                                     goalsRows[k].carbs, goalsRows[k].fat, goalsRows[k].fiber)
    {
      if currentUser.None? || readThrows then None else ReadGoals(goalsRows, currentUser.value)
    }

    /** `saveGeminiApiKey`: list the "gemini" rows, then update or create, with `outcome` as for `saveUserProfile`. */
    method SaveGeminiApiKey(key: string, newId: string, outcome: CallOutcome) returns (r: Result<()>)
      requires Valid()
      modifies this
      ensures Valid() && currentUser == old(currentUser)
      ensures entryRows == old(entryRows) && itemRows == old(itemRows)
      ensures profileRows == old(profileRows) && goalsRows == old(goalsRows)
      ensures old(currentUser).None? ==> r == Failure(NotAuthenticated) && keyRows == old(keyRows)
      ensures old(currentUser).Some? ==>
                r == WriteResult(outcome)
                && keyRows == if outcome.Done? then UpsertKey(old(keyRows), old(currentUser).value, key, newId) else old(keyRows)
    {
      if currentUser.None? {
        return Failure(NotAuthenticated);
      }
      if outcome.Done? {
        keyRows := UpsertKey(keyRows, currentUser.value, key, newId);
      }
      r := WriteResult(outcome);
    }

    /** `getGeminiApiKey`: the user's "gemini" key, or nothing without a user or a row, or when the list throws. */
    function GetGeminiApiKey(readThrows: bool): (r: Option<string>)
      reads this
      ensures readThrows ==> r == None
      ensures r.Some? <==> !readThrows && currentUser.Some? && exists k | 0 <= k < |keyRows| ::
                             keyRows[k].userId == currentUser.value && keyRows[k].service == "gemini"
      ensures r.Some? ==> exists k | 0 <= k < |keyRows| ::
                            keyRows[k].userId == currentUser.value && keyRows[k].service == "gemini"
                            && r.value == keyRows[k].encryptedKey
    {
      if currentUser.None? || readThrows then None else ReadKey(keyRows, currentUser.value)
    }

    /**
     * `getDailyStats`: the day's entries among those `getFoodEntries`
     * returns; when that read throws (`readThrows`) it has returned nothing,
     * so the day has no meals.
     */
    method GetDailyStats(start: int, end: int, readThrows: bool) returns (r: DailyStats)
      ensures currentUser.None? || readThrows ==> r == DailyStats(0.0, 0, Zero)
      ensures currentUser.Some? && !readThrows ==> r == DayStatsOf(UserEntries(entryRows, itemRows, currentUser.value), start, end)
    {
      var entries := GetFoodEntries(readThrows);
      r := DayStatsOf(entries, start, end);
    }
  }
}
