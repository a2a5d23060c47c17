/**
 * app/results.tsx: the screen that shows one analysed meal. It loads either
 * a saved entry (by id) or the analysis the identification screen passed
 * along, picks a default meal type, and shapes what is saved.
 */
module Results {
  import opened Wrappers
  import opened Text
  import opened Nutrition

  // ---------------------------------------------------------------------------
  // Decisions the screen makes
  // ---------------------------------------------------------------------------

  /** A route parameter is taken only when it is present and not the empty string. */
  predicate Given(p: Option<string>) {
    p.Some? && p.value != ""
  }

  /** The meal type the screen picks for a new entry from the hour of the day. */
  function MealTypeForHour(hour: int): (m: MealType)
    ensures m == Breakfast <==> 5 <= hour < 11
    ensures m == Lunch <==> 11 <= hour < 15
    ensures m == Dinner <==> 15 <= hour < 21
    ensures m == Snack <==> hour < 5 || 21 <= hour
  {
    if 5 <= hour < 11 then Breakfast
    else if 11 <= hour < 15 then Lunch
    else if 15 <= hour < 21 then Dinner
    else Snack
  }

  /** Over the hours of a day, the meal types come in order: breakfast, lunch, dinner, then snack. */
  lemma MealTypeOrder(h1: int, h2: int)
    requires 5 <= h1 <= h2 < 21
    ensures MealRank(MealTypeForHour(h1)) <= MealRank(MealTypeForHour(h2))
  {
  }

  function MealRank(m: MealType): nat {
    match m
    case Breakfast => 0
    case Lunch => 1
    case Dinner => 2
    case Snack => 3
  }

  /** What the screen holds as its `entry`: a saved entry or the one built from a new analysis. */
  datatype ScreenEntry = ScreenEntry(imageUri: Option<string>, analysis: Analysis, isManual: Option<bool>)

  /** The screen state `loadExistingEntry` leaves: the entry, its meal type or lunch, its notes or "". */
  datatype Loaded = Loaded(entry: ScreenEntry, mealType: MealType, notes: string)

  /** `entries.find(e => e.id === id)`: the first entry with that id. */
  function FindEntry(entries: seq<FoodEntry>, id: string): (r: Option<FoodEntry>)
    ensures r.Some? ==> r.value in entries && r.value.id == id
    ensures r.None? <==> forall k | 0 <= k < |entries| :: entries[k].id != id
    ensures r.Some? ==> exists k | 0 <= k < |entries| :: entries[k] == r.value
                          && forall j | 0 <= j < k :: entries[j].id != id
  {
    if entries == [] then None
    else if entries[0].id == id then Some(entries[0])
    else
      var r := FindEntry(entries[1..], id);
      if r.Some? then
        ghost var k :| 0 <= k < |entries[1..]| && entries[1..][k] == r.value
                       && forall j | 0 <= j < k :: entries[1..][j].id != id;
        assert entries[k + 1] == r.value;
        r
      else r
  }

  /** `loadExistingEntry`: the entry with that id, with "lunch" and "" for a missing meal type and notes. */
  function LoadExisting(entries: seq<FoodEntry>, id: string): (r: Option<Loaded>)
    ensures r.None? <==> forall k | 0 <= k < |entries| :: entries[k].id != id
    ensures r.Some? ==> exists k | 0 <= k < |entries| :: entries[k].id == id
                          && r.value.entry == ScreenEntry(Some(entries[k].imageUri), entries[k].analysis, entries[k].isManual)
                          && r.value.mealType == entries[k].mealType.GetOr(Lunch)
                          && r.value.notes == entries[k].notes.GetOr("")
  {
    match FindEntry(entries, id)
    case None => None
    case Some(e) =>
      Some(Loaded(ScreenEntry(Some(e.imageUri), e.analysis, e.isManual), e.mealType.GetOr(Lunch), e.notes.GetOr("")))
  }

  /**
   * `loadNewEntry`: the parsed analysis with all-zero records in place of
   * missing macro totals, the image passed along, and not manual.
   */
  function NewEntry(imageUri: Option<string>, parsed: Analysis): (r: ScreenEntry)
    ensures r.imageUri == imageUri && r.isManual == Some(false)
    ensures r.analysis.totalCalories == parsed.totalCalories && r.analysis.confidence == parsed.confidence
    ensures r.analysis.foodItems == parsed.foodItems
    ensures r.analysis.macronutrients == Some(OrZero(parsed.macronutrients))
    ensures r.analysis.nutritionSummary == Some(OrZero(parsed.nutritionSummary))
  {
    var a := Analysis(parsed.totalCalories, parsed.confidence, parsed.foodItems,
                      Some(OrZero(parsed.macronutrients)), Some(OrZero(parsed.nutritionSummary)));
    ScreenEntry(imageUri, a, Some(false))
  }

  /** An analysis that already carries both totals reaches the screen unchanged. */
  lemma NewEntryKeepsFullAnalysis(imageUri: Option<string>, parsed: Analysis)
    requires parsed.macronutrients.Some? && parsed.nutritionSummary.Some?
    ensures NewEntry(imageUri, parsed).analysis == parsed
  {
  }

  /** The route parameters the screen reads. */
  datatype Params = Params(
    imageUri: Option<string>, analysisResult: Option<string>,
    entryId: Option<string>, pastEntryTimestamp: Option<string>)

  /** How `loadData` ends: the state it sets, or the alert it shows before going back. */
  datatype LoadOutcome =
    | Existing(loaded: Loaded)
    | Fresh(entry: ScreenEntry, mealType: MealType)
    | Failed(message: string)

  /**
   * `loadData`: an entry id wins over an analysis; with neither the screen
   * reports that there is no data. A missing entry or an analysis that does
   * not parse ends in the generic load failure. `entries` is what the store
   * returns, `parse` stands for `JSON.parse` and `hour` for the clock's hour.
   */
  function LoadResult(params: Params, entries: seq<FoodEntry>, parse: string -> Option<Analysis>, hour: int): (r: LoadOutcome)
    ensures Given(params.entryId) ==>
              (r.Existing? <==> exists k | 0 <= k < |entries| :: entries[k].id == params.entryId.value)
              && (r.Failed? <==> forall k | 0 <= k < |entries| :: entries[k].id != params.entryId.value)
              && (r.Failed? ==> r.message == "Failed to load entry data")
    ensures r.Existing? ==> Given(params.entryId) && LoadExisting(entries, params.entryId.value) == Some(r.loaded)
    ensures !Given(params.entryId) && Given(params.analysisResult) ==>
              (r.Fresh? <==> parse(params.analysisResult.value).Some?)
              && !r.Existing?
              && (r.Fresh? ==> r.entry == NewEntry(params.imageUri, parse(params.analysisResult.value).value)
                               && r.mealType == MealTypeForHour(hour))
    ensures !Given(params.entryId) && !Given(params.analysisResult) ==> r == Failed("No entry data found")
    ensures r.Failed? ==> r.message in {"No entry data found", "Failed to load entry data"}
  {
    if Given(params.entryId) then
      match LoadExisting(entries, params.entryId.value)
      case Some(l) => Existing(l)
      case None => Failed("Failed to load entry data")
    else if Given(params.analysisResult) then
      match parse(params.analysisResult.value)
      case Some(a) => Fresh(NewEntry(params.imageUri, a), MealTypeForHour(hour))
      case None => Failed("Failed to load entry data")
    else Failed("No entry data found")
  }

  // ---------------------------------------------------------------------------
  // Saving
  // ---------------------------------------------------------------------------

  /**
   * `handleSaveEntry`: the entry to hand to the store. The timestamp is the
   * past timestamp when one was passed, else now; notes are trimmed and a
   * blank note is dropped; a missing image becomes "" and a missing manual
   * flag false.
   */
  function SaveDraft(entry: ScreenEntry, pastEntryTimestamp: Option<string>, parseInt: string -> int, now: int,
                     mealType: MealType, notes: string): (r: EntryDraft)
    ensures r.timestamp == if Given(pastEntryTimestamp) then parseInt(pastEntryTimestamp.value) else now
    ensures r.analysis == entry.analysis && r.mealType == Some(mealType)
    ensures r.imageUri == entry.imageUri.GetOr("")
    ensures r.notes.None? <==> AllWhitespace(notes)
    ensures r.notes.Some? ==> r.notes.value == Trim(notes)
    ensures r.isManual == Some(entry.isManual.Some? && entry.isManual.value)
  {
    var timestamp := if Given(pastEntryTimestamp) then parseInt(pastEntryTimestamp.value) else now;
    EntryDraft(timestamp, entry.imageUri.GetOr(""), entry.analysis, Some(mealType),
               TrimOrNone(notes), Some(entry.isManual.GetOr(false)))
  }

  /** Notes without surrounding whitespace survive a save unchanged. */
  lemma SavedNotesTrimmed(notes: string)
    requires notes != [] && !IsWhitespace(notes[0]) && !IsWhitespace(notes[|notes| - 1])
    ensures TrimOrNone(notes) == Some(notes)
  {
    assert TrimStart(notes) == notes;
    assert TrimEnd(notes) == notes;
  }

  /**
   * What `handleSaveEntry` would write for a reloaded entry: its analysis,
   * image, meal type (lunch when it had none) and manual flag. The screen
   * itself never re-saves an existing entry: `handleFinish` saves only a new
   * one and otherwise goes back to the history tab, so this states what the
   * shaping does to a loaded entry, not a path the screen takes.
   */
  lemma ReloadThenSave(entries: seq<FoodEntry>, id: string, past: Option<string>, parseInt: string -> int, now: int)
    requires LoadExisting(entries, id).Some?
    ensures var l := LoadExisting(entries, id).value;
            var d := SaveDraft(l.entry, past, parseInt, now, l.mealType, l.notes);
            exists k | 0 <= k < |entries| :: entries[k].id == id
              && d.analysis == entries[k].analysis && d.imageUri == entries[k].imageUri
              && d.mealType == Some(entries[k].mealType.GetOr(Lunch))
              && d.isManual == Some(entries[k].isManual.Some? && entries[k].isManual.value)
  {
  }

  /**
   * Saving the entry built from a new analysis gives a draft that is not
   * manual and whose totals are never missing.
   */
  lemma NewEntrySaved(imageUri: Option<string>, parsed: Analysis, past: Option<string>, parseInt: string -> int,
                      now: int, hour: int, notes: string)
    ensures var d := SaveDraft(NewEntry(imageUri, parsed), past, parseInt, now, MealTypeForHour(hour), notes);
            d.isManual == Some(false) && d.analysis.macronutrients.Some? && d.analysis.nutritionSummary.Some?
            && d.imageUri == imageUri.GetOr("") && d.mealType == Some(MealTypeForHour(hour))
  {
  }

  // ---------------------------------------------------------------------------
  // Display
  // ---------------------------------------------------------------------------

  /** The macros shown: `macronutrients`, else `nutritionSummary`, else zeros. */
  function DisplayMacros(a: Analysis): (m: Macros)
    ensures a.macronutrients.Some? ==> m == a.macronutrients.value
    ensures a.macronutrients.None? && a.nutritionSummary.Some? ==> m == a.nutritionSummary.value
    ensures a.macronutrients.None? && a.nutritionSummary.None? ==> m == Zero
  {
    match a.macronutrients
    case Some(m) => m
    case None => OrZero(a.nutritionSummary)
  }

  /** A new entry shows the macros the analysis carried, or zeros when it carried none. */
  lemma NewEntryDisplay(imageUri: Option<string>, parsed: Analysis)
    ensures DisplayMacros(NewEntry(imageUri, parsed).analysis) == OrZero(parsed.macronutrients)
  {
  }

  datatype Confidence = High | Good | Moderate

  /** The band of the analysis confidence that picks the note. */
  function ConfidenceLabel(confidence: int): (c: Confidence)
    ensures c == High <==> confidence >= 90
    ensures c == Good <==> 70 <= confidence < 90
    ensures c == Moderate <==> confidence < 70
  {
    if confidence >= 90 then High else if confidence >= 70 then Good else Moderate
  }

  /** The note under the confidence badge; each band has its own note, so the note tells the band. */
  function ConfidenceText(c: Confidence): (r: string)
    ensures c == High <==> r == "High confidence - very accurate estimates"
    ensures c == Good <==> r == "Good confidence - reliable estimates"
    ensures c == Moderate <==> r == "Moderate confidence - estimates may vary"
  {
    match c
    case High => "High confidence - very accurate estimates"
    case Good => "Good confidence - reliable estimates"
    case Moderate => "Moderate confidence - estimates may vary"
  }

  function ConfidenceRank(c: Confidence): nat {
    match c
    case Moderate => 0
    case Good => 1
    case High => 2
  }

  /** A higher confidence never gets a lower label. */
  lemma ConfidenceLabelMonotone(c1: int, c2: int)
    requires c1 <= c2
    ensures ConfidenceRank(ConfidenceLabel(c1)) <= ConfidenceRank(ConfidenceLabel(c2))
  {
  }

  // ---------------------------------------------------------------------------
  // The screen
  // ---------------------------------------------------------------------------

  /** The screen's state: `loading`, `entry`, `isNewEntry`, `selectedMealType` and `entryNotes`. */
  class ResultsScreen {
    var loading: bool
    var entry: Option<ScreenEntry>
    var isNewEntry: bool
    var selectedMealType: MealType
    var entryNotes: string

    constructor ()
      ensures loading && entry == None && !isNewEntry && selectedMealType == Lunch && entryNotes == ""
    {
      loading := true;
      entry := None;
      isNewEntry := false;
      selectedMealType := Lunch;
      entryNotes := "";
    }

    /**
     * `loadData`: sets the state from the outcome and clears `loading`; on a
     * failure the state is left as it was and the alert text is returned.
     */
    method LoadData(params: Params, entries: seq<FoodEntry>, parse: string -> Option<Analysis>, hour: int)
      returns (alert: Option<string>)
      modifies this
      ensures !loading
      ensures match LoadResult(params, entries, parse, hour)
              case Existing(l) =>
                alert == None && entry == Some(l.entry) && selectedMealType == l.mealType
                && entryNotes == l.notes && !isNewEntry
              case Fresh(e, m) =>
                alert == None && entry == Some(e) && selectedMealType == m
                && entryNotes == old(entryNotes) && isNewEntry
              case Failed(msg) =>
                alert == Some(msg) && entry == old(entry) && selectedMealType == old(selectedMealType)
                && entryNotes == old(entryNotes) && isNewEntry == old(isNewEntry)
    {
      loading := true;
      var outcome := LoadResult(params, entries, parse, hour);
      match outcome {
        case Existing(l) =>
          entry := Some(l.entry);
          selectedMealType := l.mealType;
          entryNotes := l.notes;
          isNewEntry := false;
          alert := None;
        case Fresh(e, m) =>
          entry := Some(e);
          selectedMealType := m;
          isNewEntry := true;
          alert := None;
        case Failed(msg) =>
          alert := Some(msg);
      }
      loading := false;
    }

    /** `handleSaveEntry`: nothing without an entry; otherwise the draft for the store. */
    method SaveEntry(pastEntryTimestamp: Option<string>, parseInt: string -> int, now: int) returns (r: Option<EntryDraft>)
      ensures entry.None? ==> r.None?
      ensures entry.Some? ==> r == Some(SaveDraft(entry.value, pastEntryTimestamp, parseInt, now, selectedMealType, entryNotes))
    {
      if entry.None? {
        return None;
      }
      r := Some(SaveDraft(entry.value, pastEntryTimestamp, parseInt, now, selectedMealType, entryNotes));
    }
  }
}
