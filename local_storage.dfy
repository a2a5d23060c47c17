/**
 * services/storageService.ts: the store that keeps everything on the
 * device, under three keys. The food entries are one JSON list under
 * "food_entries"; the profile and the daily goals are one record each.
 * A key holds nothing, text that does not parse, or a value.
 */
module LocalStorage {
  import opened Wrappers
  import opened Text
  import opened Seqs
  import opened Nutrition

  /** What a key of the device store holds. */
  datatype Slot<T> = Missing | Unreadable | Stored(value: T)

  /** Reading a key: its value, or nothing when it is missing or does not parse. */
  function ReadSlot<T>(slot: Slot<T>): (r: Option<T>)
    ensures r.Some? <==> slot.Stored?
    ensures slot.Stored? ==> r == Some(slot.value)
  {
    match slot
    case Stored(v) => Some(v)
    case _ => None
  }

  // ---------------------------------------------------------------------------
  // The entry list, as functions of the stored list
  // ---------------------------------------------------------------------------

  /**
   * The entry `saveFoodEntry` stores: the draft with its new id, keeping a
   * summary the caller supplied and otherwise adding up the items'
   * `nutrients`, missing ones as zeros.
   */
  function NewEntry(draft: EntryDraft, id: string): (e: FoodEntry)
    ensures e.id == id && e.timestamp == draft.timestamp && e.imageUri == draft.imageUri
    ensures e.mealType == draft.mealType && e.notes == draft.notes && e.isManual == draft.isManual
    ensures e.analysis.foodItems == draft.analysis.foodItems
    ensures e.analysis.totalCalories == draft.analysis.totalCalories
    ensures e.analysis.confidence == draft.analysis.confidence
    ensures e.analysis.macronutrients == draft.analysis.macronutrients
    ensures draft.analysis.nutritionSummary.Some? ==> e.analysis.nutritionSummary == draft.analysis.nutritionSummary
    ensures draft.analysis.nutritionSummary.None? ==>
              e.analysis.nutritionSummary == Some(SumNutrients(draft.analysis.foodItems))
  {
    var summary := draft.analysis.nutritionSummary.GetOr(SumNutrients(draft.analysis.foodItems));
    FoodEntry(id, draft.timestamp, draft.imageUri, draft.analysis.(nutritionSummary := Some(summary)),
              draft.mealType, draft.notes, draft.isManual)
  }

  function KeepOtherIds(id: string): FoodEntry -> bool {
    (e: FoodEntry) => e.id != id
  }

  /** `deleteFoodEntry`: every entry with that id goes; the others keep their order. */
  function DeleteEntries(entries: seq<FoodEntry>, id: string): (r: seq<FoodEntry>)
    ensures forall k | 0 <= k < |r| :: r[k].id != id && r[k] in entries
    ensures forall k | 0 <= k < |entries| :: entries[k].id != id ==> entries[k] in r
  {
    Filter(entries, KeepOtherIds(id))
  }

  /** Deleting an id no entry has leaves the list as it was. */
  lemma DeleteUnknown(entries: seq<FoodEntry>, id: string)
    requires forall k | 0 <= k < |entries| :: entries[k].id != id
    ensures DeleteEntries(entries, id) == entries
  {
    FilterKeepsAll(entries, KeepOtherIds(id));
  }

  /** Saving under a fresh id and then deleting that id gives back the old list. */
  lemma SaveThenDelete(entries: seq<FoodEntry>, draft: EntryDraft, id: string)
    requires forall k | 0 <= k < |entries| :: entries[k].id != id
    ensures DeleteEntries([NewEntry(draft, id)] + entries, id) == entries
  {
    FilterRejectsOne(NewEntry(draft, id), entries, KeepOtherIds(id));
    DeleteUnknown(entries, id);
  }

  /**
   * `Partial<FoodEntry>`: each field is left alone when absent. The
   * optional fields can also be given as `undefined`, which the spread
   * copies over, so those come wrapped twice.
   */
  datatype EntryUpdate = EntryUpdate(
    id: Option<string>, timestamp: Option<int>, imageUri: Option<string>, analysis: Option<Analysis>,
    mealType: Option<Option<MealType>>, notes: Option<Option<string>>, isManual: Option<Option<bool>>)

  /** `{ ...entry, ...updates }` */
  function Merge(e: FoodEntry, u: EntryUpdate): (r: FoodEntry)
    ensures u == EntryUpdate(None, None, None, None, None, None, None) ==> r == e
    ensures r.id == u.id.GetOr(e.id) && r.timestamp == u.timestamp.GetOr(e.timestamp)
    ensures r.imageUri == u.imageUri.GetOr(e.imageUri) && r.analysis == u.analysis.GetOr(e.analysis)
    ensures r.mealType == u.mealType.GetOr(e.mealType) && r.notes == u.notes.GetOr(e.notes)
    ensures r.isManual == u.isManual.GetOr(e.isManual)
  {
    FoodEntry(u.id.GetOr(e.id), u.timestamp.GetOr(e.timestamp), u.imageUri.GetOr(e.imageUri),
              u.analysis.GetOr(e.analysis), u.mealType.GetOr(e.mealType), u.notes.GetOr(e.notes),
              u.isManual.GetOr(e.isManual))
  }

  /** `updateFoodEntry`: entries with that id are merged with the update; the others stay as they are. */
  function UpdateEntries(entries: seq<FoodEntry>, id: string, u: EntryUpdate): (r: seq<FoodEntry>)
    ensures |r| == |entries|
    ensures forall k | 0 <= k < |entries| :: entries[k].id != id ==> r[k] == entries[k]
    ensures forall k | 0 <= k < |entries| :: entries[k].id == id ==> r[k] == Merge(entries[k], u)
  {
    seq(|entries|, k requires 0 <= k < |entries| => if entries[k].id == id then Merge(entries[k], u) else entries[k])
  }

  /** An update that keeps the id touches only entries a later delete of that id removes: the delete undoes it. */
  lemma UpdateThenDelete(entries: seq<FoodEntry>, id: string, u: EntryUpdate)
    requires u.id.None?
    ensures DeleteEntries(UpdateEntries(entries, id, u), id) == DeleteEntries(entries, id)
  {
    FilterSameOthers(entries, UpdateEntries(entries, id, u), id);
  }

  /** Two lists that agree on every entry without the id, and on which entries have it, keep the same entries. */
  lemma {:induction false} FilterSameOthers(s: seq<FoodEntry>, t: seq<FoodEntry>, id: string)
    requires |s| == |t|
    requires forall k | 0 <= k < |s| :: (s[k].id == id <==> t[k].id == id) && (s[k].id != id ==> t[k] == s[k])
    ensures Filter(t, KeepOtherIds(id)) == Filter(s, KeepOtherIds(id))
  {
    if s != [] {
      FilterSameOthers(s[1..], t[1..], id);
    }
  }

  /** `getFoodEntriesByDateRange`: the entries with a timestamp between the bounds, in stored order. */
  function EntriesInRange(entries: seq<FoodEntry>, start: int, end: int): (r: seq<FoodEntry>)
    ensures forall k | 0 <= k < |r| :: r[k] in entries && start <= r[k].timestamp <= end
    ensures forall k | 0 <= k < |entries| :: start <= entries[k].timestamp <= end ==> entries[k] in r
  {
    Filter(entries, InRange(start, end))
  }

  function EntrySummary(e: FoodEntry): Macros { OrZero(e.analysis.nutritionSummary) }

  /**
   * `getDailyStats` for a day given by its bounds: the number of entries of
   * that day, their calories and their summaries, a missing summary
   * counting as zeros.
   */
  function DayStats(entries: seq<FoodEntry>, start: int, end: int): (r: DailyStats)
    ensures r.totalMeals <= |entries|
    ensures r.totalMeals == 0 ==> r == DailyStats(0.0, 0, Zero)
  {
    var day := EntriesInRange(entries, start, end);
    DailyStats(SumBy(day, EntryCalories), |day|, SumMacrosBy(day, EntrySummary))
  }

  /** A new entry saved within a day adds one meal and its calories to that day; outside it, nothing. */
  lemma DayStatsAfterSave(entries: seq<FoodEntry>, e: FoodEntry, start: int, end: int)
    ensures var before := DayStats(entries, start, end);
            var after := DayStats([e] + entries, start, end);
            if start <= e.timestamp <= end then
              after.totalMeals == before.totalMeals + 1
              && after.totalCalories == e.analysis.totalCalories + before.totalCalories
              && after.nutritionBreakdown == Add(EntrySummary(e), before.nutritionBreakdown)
            else after == before
  {
    var keep := InRange(start, end);
    var day := Filter(entries, keep);
    if start <= e.timestamp <= end {
      FilterAppend([e], entries, keep);
      assert Filter([e], keep) == [e] by {
        assert [e][1..] == [];
      }
      SumByAppend([e], day, EntryCalories);
      SumMacrosAppend([e], day, EntrySummary);
      assert [e][..0] == [];
    } else {
      FilterRejectsOne(e, entries, keep);
    }
  }

  /** One day of `getWeeklyStats`: its date label and its bounds. */
  datatype Day = Day(date: string, start: int, end: int)

  datatype DayStat = DayStat(date: string, calories: real, meals: nat)

  datatype WeeklyStats = WeeklyStats(dailyStats: seq<DayStat>, weeklyAverage: int, totalCalories: real)

  function DayStatOf(entries: seq<FoodEntry>, day: Day): DayStat {
    var s := DayStats(entries, day.start, day.end);
    DayStat(day.date, s.totalCalories, s.totalMeals)
  }

  function StatCalories(d: DayStat): real { d.calories }

  // ---------------------------------------------------------------------------
  // The store
  // ---------------------------------------------------------------------------

  /** The three keys of the device store. */
  class LocalStore {
    var entries: Slot<seq<FoodEntry>>
    var profile: Slot<UserProfile>
    var goals: Slot<DailyGoals>

    constructor ()
      ensures entries == Missing && profile == Missing && goals == Missing
    {
      entries := Missing;
      profile := Missing;
      goals := Missing;
    }

    /** `getFoodEntries`: the stored list, or an empty one when the key is missing or does not parse. */
    function FoodEntries(): (r: seq<FoodEntry>)
      reads this
      ensures entries.Stored? ==> r == entries.value
      ensures !entries.Stored? ==> r == []
    {
      ReadSlot(entries).GetOr([])
    }

    /** `saveFoodEntry`: the new entry goes to the front of the list, which is written back. */
    method SaveFoodEntry(draft: EntryDraft, id: string) returns (e: FoodEntry)
      modifies this
      ensures e == NewEntry(draft, id)
      ensures entries == Stored([e] + old(FoodEntries()))
      ensures profile == old(profile) && goals == old(goals)
    {
      e := NewEntry(draft, id);
      entries := Stored([e] + FoodEntries());
    }

    method DeleteFoodEntry(id: string)
      modifies this
      ensures entries == Stored(DeleteEntries(old(FoodEntries()), id))
      ensures profile == old(profile) && goals == old(goals)
    {
      entries := Stored(DeleteEntries(FoodEntries(), id));
    }

    method UpdateFoodEntry(id: string, u: EntryUpdate)
      modifies this
      ensures entries == Stored(UpdateEntries(old(FoodEntries()), id, u))
      ensures profile == old(profile) && goals == old(goals)
    {
      entries := Stored(UpdateEntries(FoodEntries(), id, u));
    }

    /** `getFoodEntriesByDateRange`: the stored entries between the bounds, in stored order. */
    function FoodEntriesByDateRange(start: int, end: int): (r: seq<FoodEntry>)
      reads this
      ensures forall k | 0 <= k < |r| :: r[k] in FoodEntries() && start <= r[k].timestamp <= end
      ensures forall k | 0 <= k < |FoodEntries()| :: start <= FoodEntries()[k].timestamp <= end ==> FoodEntries()[k] in r
    {
      EntriesInRange(FoodEntries(), start, end)
    }

    method SaveUserProfile(p: UserProfile)
      modifies this
      ensures profile == Stored(p) && entries == old(entries) && goals == old(goals)
    {
      profile := Stored(p);
    }

    /** `getUserProfile`: the saved profile, or `null` when none is saved or it does not parse. */
    function GetUserProfile(): (r: Option<UserProfile>)
      reads this
      ensures r.Some? <==> profile.Stored?
      ensures profile.Stored? ==> r.value == profile.value
    {
      ReadSlot(profile)
    }

    method SaveDailyGoals(g: DailyGoals)
      modifies this
      ensures goals == Stored(g) && entries == old(entries) && profile == old(profile)
    {
      goals := Stored(g);
    }

    /** `getDailyGoals`: the saved goals, or `null` when none are saved or they do not parse. */
    function GetDailyGoals(): (r: Option<DailyGoals>)
      reads this
      ensures r.Some? <==> goals.Stored?
      ensures goals.Stored? ==> r.value == goals.value
    {
      ReadSlot(goals)
    }

    /** `getDailyStats`: the stats are taken over exactly the entries the date-range query returns. */
    function GetDailyStats(start: int, end: int): (r: DailyStats)
      reads this
      ensures var day := FoodEntriesByDateRange(start, end);
              r.totalMeals == |day| <= |FoodEntries()|
              && r.totalCalories == SumBy(day, EntryCalories)
              && r.nutritionBreakdown == SumMacrosBy(day, EntrySummary)
    {
      DayStats(FoodEntries(), start, end)
    }

    /**
     * `getWeeklyStats`: the stats of seven consecutive days, `day(i)` giving
     * the label and bounds of day `i`, their calorie total, and that total
     * over seven rounded.
     */
    method GetWeeklyStats(day: nat -> Day) returns (r: WeeklyStats)
      ensures |r.dailyStats| == 7
      ensures forall i | 0 <= i < 7 :: r.dailyStats[i] == DayStatOf(FoodEntries(), day(i))
      ensures r.totalCalories == SumBy(r.dailyStats, StatCalories)
      ensures r.weeklyAverage == JsRound(r.totalCalories / 7.0)
    {
      var all := FoodEntries();
      var stat := (k: nat) => DayStatOf(all, day(k));
      var stats: seq<DayStat> := [];
      var total := 0.0;
      var i := 0;
      while i < 7
        invariant 0 <= i <= 7 && |stats| == i
        invariant forall k | 0 <= k < i :: stats[k] == stat(k)
        invariant total == SumBy(stats, StatCalories)
      {
        var d := stat(i);
        SumByPush(stats, d, StatCalories);
        stats := stats + [d];
        total := total + d.calories;
        i := i + 1;
      }
      r := WeeklyStats(stats, JsRound(total / 7.0), total);
    }

    /** `clearAllData`: all three keys are removed. */
    method ClearAllData()
      modifies this
      ensures entries == Missing && profile == Missing && goals == Missing
      ensures FoodEntries() == [] && GetUserProfile() == None && GetDailyGoals() == None
    {
      entries := Missing;
      profile := Missing;
      goals := Missing;
    }

    /** `saveManualFoodEntry`: the draft is saved as manual and the new id returned. */
    method SaveManualFoodEntry(draft: EntryDraft, id: string) returns (newId: string)
      modifies this
      ensures newId == id
      ensures entries == Stored([NewEntry(draft.(isManual := Some(true)), id)] + old(FoodEntries()))
      ensures entries.value[0].isManual == Some(true)
      ensures profile == old(profile) && goals == old(goals)
    {
      var e := SaveFoodEntry(draft.(isManual := Some(true)), id);
      newId := e.id;
    }
  }
}
