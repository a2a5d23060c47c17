# MacrosAI core, modelled in Dafny

MacrosAI is a React Native nutrition tracker. A user photographs a meal. The
Gemini model names the foods in the photo. The user then edits that list and
asks for a nutrition analysis. The result is saved as a food entry, either on
the device or in per-user Amplify tables. Meals can also be typed in by hand.
Accounts live in an Amplify/Cognito user pool. The sign-up, sign-in,
confirmation and password-reset screens validate their forms before calling
the provider.

This project models the logic of that core:

- **Identification** (`Identify`, `Gemini`):
  - the editable list of identified foods;
  - the quantity stepper;
  - the weight and quantity parsers;
  - the three Gemini calls, each with its fixed fallback;
  - stripping of Markdown code fences from a reply;
  - the trend averages.
- **Results and manual entry** (`Results`, `ManualEntry`):
  - how the results screen loads and saves an entry;
  - the manual-entry form, its row list and its totals.
- **The two stores** (`LocalStorage`, `AmplifyStorage`):
  - the on-device store keeps three keys, and the entry list is one JSON value;
  - the Amplify store keeps entry rows, item rows, and profile, goals and key rows with one row per user;
  - both stores compute daily and weekly statistics.
- **Authentication** (`FormRules`, `SignUp`, `SignIn`, `ForgotPassword`, `ResetPassword`, `ConfirmSignUp`, `AuthService`, `ProtectedRoute`, `PreSignUp`):
  - the form rules: the e-mail pattern, the password criteria and strength score, the six-slot code buffer and the 60-second resend countdown;
  - the five auth screens;
  - the mapping from provider errors to user-facing text;
  - the route guard;
  - the pre-sign-up trigger.

How the model is built:

- Screens and stores that change state are classes. Their fields are the React state or the store's content. Their methods carry `modifies` clauses.
- Pure decisions are functions.
- Everything the code gets from outside is a parameter:
  - the identity provider, the backend client, `JSON.parse`, the clock and random ids;
  - a provider or network call becomes `failure: Option<string>`, which is `None` when the call succeeds and otherwise carries the error's message.
- The shared modules are `Wrappers` (Option, Result), `Text` (JavaScript's `\s`, `trim`, `includes`, the leading-decimal scanner, `toFixed(1)`, `Math.round`), `Seqs` (`filter`, `find`, `reduce`) and `Nutrition` (the shared records).

## Behaviour worth knowing

The model follows the code in each case:

- **Deleting an entry from the Amplify store is not atomic.** Item rows are deleted one by one and the entry row last. A call that throws part-way leaves the entry row in place and the items before it deleted (`AmplifyStorage.AmplifyStore.DeleteFoodEntry`).
- **The Amplify store ignores the `errors` of item creates and of deletes.** Only the entry create's `errors` are checked. An item create or a delete that the backend refuses leaves the table as it was, and the save or delete still succeeds (`AmplifyStorage.RefusedCreateIsMissed`, `AmplifyStorage.RefusedDeleteLeavesRow`). An item create that throws makes the save fail after the entry row and the earlier item rows are written. The profile, goals and key saves likewise ignore the `errors` of their update or create, while a throwing list or write is rethrown.
- **Storage failures are swallowed.** The on-device store reads a missing or unparsable key as empty. Its write failures are logged and rethrown, but the model has no failing writes.
- **A missing Gemini key does not reach the user.** The identification call catches the missing-key error and answers with its fallback.

## Model

| member | source | states |
|---|---|---|
| Wrappers.GetOr | services/storageService.ts:249-254 | a missing optional value is replaced by the default, a present one is kept |
| Text.TrimStart | app/results.tsx:145 | the result is a suffix of the input, everything cut off is whitespace, and it does not start with whitespace |
| Text.TrimEnd | app/results.tsx:145 | the result is a prefix of the input, everything cut off is whitespace, and it does not end with whitespace |
| Text.BlankIffAllWhitespace | app/auth/signup.tsx:62 | `!s.trim()` holds exactly when every character is JavaScript whitespace |
| Text.TrimOrNone | app/results.tsx:145 | `s.trim() \|\| undefined` is absent exactly for all-whitespace text, otherwise the non-empty trimmed text |
| Text.NatToString | services/geminiService.ts:213 | printing a whole number gives a non-empty digit string |
| Text.NatToStringRoundTrip | services/geminiService.ts:213 | reading the printed digits back gives the number again |
| Text.DigitRun | app/identify.tsx:118 | greedy `\d*`: a digit prefix that is followed by a non-digit or the end |
| Text.SpaceRun | app/identify.tsx:118 | greedy `\s*`: a whitespace prefix that is followed by a non-space or the end |
| Text.LeadingNumber | app/identify.tsx:118 | `^\d+(\.\d+)?` matches exactly when the text starts with a digit; the match is maximal and its value non-negative |
| Text.NumberThenRest | app/identify.tsx:132 | `^(\d+(\.\d+)?)\s*` matches exactly when the text starts with a digit; what is left is a suffix that does not start with whitespace |
| Text.NumberOfWhole | app/identify.tsx:118 | a printed whole number followed by neither a digit nor a point is read back as exactly that number |
| Text.ScanOfWhole | app/identify.tsx:132 | after a printed whole number the scan leaves the following text minus its leading spaces |
| Text.FormatTenths | app/identify.tsx:86-87 | `toFixed(1)` text ends in a point and one digit |
| Text.NumberOfTenths | app/identify.tsx:76-81 | a number printed with `toFixed(1)` reads back as the same number of tenths |
| Text.TenthsValue | app/identify.tsx:86-87 | the digits `toFixed(1)` prints stand for exactly the tenths printed |
| Text.ScanOfTenths | app/identify.tsx:76-81 | after a one-decimal number the scan leaves what follows minus its leading spaces |
| Text.ScanOfTenthsUnit | app/identify.tsx:76-87 | the stepper's own "number space unit" text scans back as that number and that unit |
| Text.JsRound | services/storageService.ts:302 | `Math.round` lands within one half of its argument |
| Seqs.Filter | services/storageService.ts:147-149 | `filter` keeps exactly the elements that pass, and no others |
| Seqs.FilterAppend | services/storageService.ts:138-141 | filtering a concatenation filters each part |
| Seqs.FilterKeepsAll | app/add-entry-manual.tsx:72 | a filter every element passes changes nothing |
| Seqs.FilterDropsOne | app/identify.tsx:93 | a filter that rejects one element and keeps the rest removes exactly that element |
| Seqs.FilterSameTest | services/storageService.ts:147-149 | two tests that agree on the elements filter alike |
| Seqs.FilterTwice | services/amplifyStorageService.ts:421-424 | two filters in a row are one filter by both tests |
| Seqs.FirstMatch | app/results.tsx:67 | `find` gives the first position that passes, or nothing exactly when none passes |
| Seqs.SumByAppend | services/storageService.ts:241-244 | a `reduce` sum over a concatenation is the sum of the two sums |
| Seqs.SumByConstant | services/geminiService.ts:212-213 | adding up n equal values gives n times the value |
| Seqs.SumBySameTerms | services/storageService.ts:241-244 | sums of terms that agree are equal |
| Seqs.SumByOverMap | app/identify.tsx:190-199 | a sum over a mapped list equals the sum of the mapped values |
| Nutrition.SumMacrosFieldwise | services/storageService.ts:247-262 | each field of the four-field `reduce` is the sum of that field |
| Nutrition.SumMacrosAppend | services/storageService.ts:247-262 | the macro sum over a concatenation is the sum of the two sums |
| Nutrition.SumMacrosConstant | services/geminiService.ts:216-222 | n equal macro records add up to n times each field |
| Nutrition.SumMacrosOverMap | app/identify.tsx:190-199 | macro sums over a mapped list equal the sums of the mapped records |
| Gemini.StripFences | services/geminiService.ts:102-104 | removing the fence markers never lengthens the reply |
| Gemini.StripBacktickFree | services/geminiService.ts:102-104 | a reply without backticks comes back unchanged |
| Gemini.StripClosingFence | services/geminiService.ts:102-104 | a closing fence is removed together with the newline before it |
| Gemini.StripFencedReply | services/geminiService.ts:102-104 | a reply wrapped in a json fence comes back as exactly its body |
| Gemini.Attempt | services/geminiService.ts:47-58 | the `try` block succeeds exactly when a non-empty key was found, the model replied and the stripped reply parses; the result is that parse |
| Gemini.IdentifyWith | services/geminiService.ts:60-122 | any failure in the call gives the fixed "Unknown Food Item" answer; otherwise the parsed reply |
| Gemini.IdentifyFoodAsWritten | services/geminiService.ts:47-51 | as written, the key lookup throws, so every identification is the fallback whatever the model answers |
| Gemini.IdentifyUsesReply | services/geminiService.ts:60-104 | with a key, a fenced reply that parses is returned as the identification |
| Gemini.IdentifyFood | services/geminiService.ts:60-122 | with the per-user key: the model's parsed answer exactly when a non-empty key, a reply and a parse are there; otherwise, and always without a key or with an empty one, the fallback |
| Gemini.ProcessingTime | services/geminiService.ts:188 | a number of whole tenths followed by "s"; the number read back lies within 0.05 s of the elapsed time |
| Gemini.TenthsNearElapsed | services/geminiService.ts:188 | elapsed milliseconds rounded half up to tenths of a second are within 50 ms of the elapsed time |
| Gemini.CalculateFallback | services/geminiService.ts:196-222 | one 200 kcal, 100 g item per request, and totals that are the item count times the per-item figures |
| Gemini.CalculateFallbackTotalsAreSums | services/geminiService.ts:196-222 | the fallback's reported totals are the sums over its own items |
| Gemini.CalculateNutrition | services/geminiService.ts:124-224 | with the per-user key: the parsed reply with the measured processing time laid over it when a non-empty key, a reply and a parse are there, else the per-item fallback |
| Gemini.CalculateNutritionAsWritten | services/geminiService.ts:124-224 | as written, the key lookup throws, so the answer is always the per-item fallback |
| Gemini.AnalyzeFallbackTotalsAreSums | services/geminiService.ts:296-327 | the single fallback item's figures are the fallback's totals |
| Gemini.AnalyzeFallback | services/geminiService.ts:295-327 | one "Mixed Food Items" item of 350 kcal whose weight, confidence and nutrients are also the reported totals |
| Gemini.AnalyzeFood | services/geminiService.ts:226-328 | with the per-user key: the parsed reply with the measured processing time when a non-empty key, a reply and a parse are there, else the "Mixed Food Items" fallback |
| Gemini.AnalyzeFoodAsWritten | services/geminiService.ts:226-328 | as written, the key lookup throws, so the answer is always the "Mixed Food Items" fallback |
| Gemini.NutritionTrends | services/geminiService.ts:338-368 | the number of meals and the calorie total over the analyses; all zeros for no analyses; otherwise the average calories and each average nutrient lie within half a unit of the exact mean over the meals |
| Gemini.TrendsOfEqualMeals | services/geminiService.ts:339-357 | meals with equal whole calories average to exactly that value |
| Identify.ParseWeight | app/identify.tsx:117-126 | a non-negative value with a letters-only unit; 100 g whenever the pattern does not match |
| Identify.ParseQuantity | app/identify.tsx:129-140 | a non-negative value with a unit that does not start with a space; 1 serving whenever the pattern does not match |
| Identify.ParseQuantityOfScan | app/identify.tsx:129-140 | a scan that leaves a one-line unit is read as that value and unit |
| Identify.QuantityUnitOfScan | app/identify.tsx:82-85 | the stepper takes as unit whatever the number scan leaves |
| Identify.ParseWeightOfWhole | app/identify.tsx:117-126 | a whole number with a letter unit reads back as that number, with "g" when the unit is empty |
| Identify.ParseWeightGrams | app/identify.tsx:117-126 | "250g" is 250 g |
| Identify.ParseWeightBare | app/identify.tsx:117-126 | a bare number is grams |
| Identify.ParseWeightNoNumber | app/identify.tsx:117-126 | text that does not start with a digit is 100 g |
| Identify.ParseQuantityOfWhole | app/identify.tsx:129-140 | a whole number, a space and a one-line unit read back as that number and unit |
| Identify.ParseQuantityPieces | app/identify.tsx:129-140 | "3 pieces" is 3 pieces |
| Identify.ParseQuantityBare | app/identify.tsx:129-140 | a bare whole number n is n servings |
| Identify.ParseQuantityNoNumber | app/identify.tsx:129-140 | text that does not start with a digit is one serving |
| Identify.CurrentMagnitude | app/identify.tsx:76-81 | the value of the quantity's leading number when it has one, never negative, and 1 when the text does not start with a digit |
| Identify.QuantityUnit | app/identify.tsx:82-85 | never empty; the text itself (or "serving" for no text) when it does not start with a digit; "serving" when nothing follows the number; otherwise a tail of the text |
| Identify.StepTenths | app/identify.tsx:86 | `Math.max(0.1, current + delta)` in tenths is at least one tenth |
| Identify.StepOfTenths | app/identify.tsx:86 | on a whole number of tenths a step adds delta and stops at one tenth |
| Identify.AdjustedOfTenths | app/identify.tsx:71-90 | a step on a quantity of t tenths writes t + delta tenths, at least one, and keeps the unit |
| Identify.MagnitudeOfText | app/identify.tsx:76-81 | the stepper's text reads back the number it wrote |
| Identify.UnitOfText | app/identify.tsx:82-87 | the stepper's text reads back the unit it wrote |
| Identify.ParseQuantityOfText | app/identify.tsx:129-140 | `parseQuantity` reads the stepper's text as the number and unit it wrote |
| Identify.QuantityText | app/identify.tsx:87 | the text ends with a space and the unit, and starts with the number of tenths written, which reads back exactly |
| Identify.AdjustedQuantity | app/identify.tsx:71-90 | the new text reads back as the clamped step, at least 0.1, with a unit that does not start with a space, and keeps the old unit when that did not start with one |
| Identify.FirstStepOn | app/identify.tsx:71-90 | plus on "1" and a unit gives "1.1" and the same unit |
| Identify.SecondStepOn | app/identify.tsx:71-90 | plus on "1.1" and a unit gives "1.2" and the same unit |
| Identify.AdjustCanonical | app/identify.tsx:71-90 | a quantity already in the stepper's form moves by exactly delta tenths, never below one, and keeps its unit |
| Identify.AdjustTwice | app/identify.tsx:71-90 | after one step, later steps act on the tenths alone and keep the unit |
| Identify.StepOnWhole | app/identify.tsx:71-90 | a step on "n unit" moves to 10n + delta tenths |
| Identify.AppleFirstStep | app/identify.tsx:71-90 | plus on "1 piece" gives "1.1 piece" |
| Identify.AppleSecondStep | app/identify.tsx:71-90 | plus on "1.1 piece" gives "1.2 piece" |
| Identify.IdentifyScreen.constructor | app/identify.tsx:28-30 | no items and nothing being edited |
| Identify.IdentifyScreen.ShowIdentification | app/identify.tsx:38-49 | the service's items replace the list |
| Identify.IdentifyScreen.UpdateItemText | app/identify.tsx:51-59 | exactly one field of the indexed item changes; an index outside the list changes nothing |
| Identify.IdentifyScreen.AdjustQuantity | app/identify.tsx:71-90 | only the indexed item's quantity changes, to the adjusted text |
| Identify.IdentifyScreen.RemoveItem | app/identify.tsx:92-94 | the indexed item leaves the list and the others keep their order |
| Identify.IdentifyScreen.AddNewItem | app/identify.tsx:96-105 | a placeholder item is appended and opened for editing |
| Identify.ToNutritionRequests | app/identify.tsx:108-114 | one request per item, in order, with the item's name, quantity and size |
| Identify.FindByName | app/identify.tsx:164 | the first request with that name, or nothing exactly when no request has it |
| Identify.RequestedQuantity | app/identify.tsx:163-165 | the quantity of the first request with that name when it is not empty, otherwise "1 serving"; never empty |
| Identify.ToFoodItem | app/identify.tsx:160-189 | the answer's name, calories and confidence, its nutrients as the item's macronutrients, weight and unit read from its weight text, and the portion read from the quantity requested under its name |
| Identify.ToFoodItems | app/identify.tsx:160-189 | one food item per answer item, in order |
| Identify.FoodItemsMacros | app/identify.tsx:190-199 | the built items' macros add up to the answer's nutrients, a missing record counting as zeros |
| Identify.ProceedToResults | app/identify.tsx:142-207 | nothing exactly when the list is empty; otherwise an analysis with one food item per answer item |
| Identify.ProceedTotals | app/identify.tsx:142-207 | the analysis totals are the sums of the answer's per-item figures; each item keeps the answer's figures, with weight, unit and portion read from the texts |
| Results.MealTypeForHour | app/results.tsx:107-117 | breakfast for 5-10 h, lunch for 11-14 h, dinner for 15-20 h, snack otherwise (each an if-and-only-if) |
| Results.MealTypeOrder | app/results.tsx:107-117 | between 5 h and 21 h a later hour never gets an earlier meal type: breakfast, lunch, then dinner |
| Results.FindEntry | app/results.tsx:67 | the entry found has the id and is in the list; nothing exactly when no entry has the id |
| Results.LoadExisting | app/results.tsx:65-76 | loads exactly when some entry has the id, with lunch and "" for a missing meal type and notes |
| Results.NewEntry | app/results.tsx:78-104 | the parsed analysis with zero records in place of missing totals, the image passed on, and not manual |
| Results.NewEntryKeepsFullAnalysis | app/results.tsx:78-104 | an analysis that carries both totals arrives unchanged |
| Results.LoadResult | app/results.tsx:39-63 | an entry id wins over an analysis: the screen shows the stored entry with that id, or the generic failure when none has it; with neither the screen reports "No entry data found"; an analysis that does not parse gives the generic failure |
| Results.SaveDraft | app/results.tsx:124-147 | past timestamp or now; notes trimmed and dropped when blank; "" for no image; false for no manual flag |
| Results.SavedNotesTrimmed | app/results.tsx:145 | notes without surrounding whitespace survive a save unchanged |
| Results.ReloadThenSave | app/results.tsx:65-147 | the entry shaping applied to a reloaded entry keeps its analysis, image, meal type and manual flag; the screen itself never re-saves an existing entry, since `handleFinish` (app/results.tsx:167-174) saves only new ones |
| Results.NewEntrySaved | app/results.tsx:78-147 | saving a new analysis gives a non-manual draft whose totals are present |
| Results.DisplayMacros | app/results.tsx:211-217 | macronutrients, else the nutrition summary, else zeros |
| Results.NewEntryDisplay | app/results.tsx:78-104 | a new entry shows the analysis's own macros, or zeros |
| Results.ConfidenceLabel | app/results.tsx:408-412 | high for 90 and above, good for 70-89, moderate below 70 (each an if-and-only-if) |
| Results.ConfidenceLabelMonotone | app/results.tsx:408-412 | a higher confidence never gets a lower label |
| Results.ConfidenceText | app/results.tsx:408-412 | each band shows its own note, the three texts of the screen, so the note tells the band (each an if-and-only-if) |
| Results.ResultsScreen.constructor | app/results.tsx:28-33 | loading, no entry, lunch and empty notes |
| Results.ResultsScreen.LoadData | app/results.tsx:39-63 | the state is set as the load outcome says and loading ends; a failure leaves the state and returns the alert |
| Results.ResultsScreen.SaveEntry | app/results.tsx:124-147 | nothing without an entry; otherwise the draft built from the screen state |
| ManualEntry.WithField | app/add-entry-manual.tsx:76-86 | the named field takes the value; the id and every other field stay as they were |
| ManualEntry.RemoveById | app/add-entry-manual.tsx:70-74 | a one-row list is kept as it is; the rows left all come from the list |
| ManualEntry.RemoveUniqueId | app/add-entry-manual.tsx:70-74 | with distinct ids exactly the named row goes and the others keep their order |
| ManualEntry.RemoveUnknownId | app/add-entry-manual.tsx:70-74 | removing an id no row has changes nothing |
| ManualEntry.RemoveKeepsRows | app/add-entry-manual.tsx:70-74 | with distinct ids the list never runs empty and the ids stay distinct |
| ManualEntry.RemoveSharedId | app/add-entry-manual.tsx:54-74 | two rows that share an id leave together, so the list can run empty |
| ManualEntry.UpdateById | app/add-entry-manual.tsx:76-86 | same length and the same ids, row by row |
| ManualEntry.UpdateUniqueId | app/add-entry-manual.tsx:76-86 | with distinct ids exactly the named row changes, and ids stay distinct |
| ManualEntry.ValidateForm | app/add-entry-manual.tsx:106-121 | valid exactly when some row has a non-blank name and non-blank calories |
| ManualEntry.ManualWeight | app/add-entry-manual.tsx:135-141 | agrees with `parseWeight` on matching text and gives 0 g otherwise |
| ManualEntry.ManualWeightFallbacks | app/add-entry-manual.tsx:135-141 | on text that does not match, the manual path gives 0 where `parseWeight` gives 100, with the same unit |
| ManualEntry.ProcessItem | app/add-entry-manual.tsx:134-153 | the row's name, its typed figures as nutrients, its weight, confidence 100 and one serving |
| ManualEntry.ProcessedItems | app/add-entry-manual.tsx:130-154 | one item per valid row, in order |
| ManualEntry.ManualEntry | app/add-entry-manual.tsx:123-197 | nothing exactly when the form is not valid; otherwise a manual entry whose totals are the sums over the processed items |
| ManualEntry.ManualTotals | app/add-entry-manual.tsx:157-177 | the saved totals are the figures typed into the valid rows, added up |
| ManualEntry.ProcessedAreValid | app/add-entry-manual.tsx:130-154 | every saved item is made from a valid row of the form, so its name is not blank, and every valid row gives an item |
| ManualEntry.ManualEntryScreen.constructor | app/add-entry-manual.tsx:37-51 | one blank row with id "1", lunch, no notes and no image |
| ManualEntry.ManualEntryScreen.AddFoodItem | app/add-entry-manual.tsx:54-68 | a blank row is appended; with a fresh id the list stays valid |
| ManualEntry.ManualEntryScreen.RemoveFoodItem | app/add-entry-manual.tsx:70-74 | the rows become `RemoveById` of the old rows; a non-empty list with distinct ids stays so |
| ManualEntry.ManualEntryScreen.UpdateFoodItem | app/add-entry-manual.tsx:76-86 | the rows become `UpdateById` of the old rows; a non-empty list with distinct ids stays so |
| ManualEntry.ManualEntryScreen.Save | app/add-entry-manual.tsx:123-197 | the entry the form state gives, or nothing |
| LocalStorage.ReadSlot | services/storageService.ts:123-131 | a value only when one is stored; missing and unparsable keys read as nothing |
| LocalStorage.NewEntry | services/storageService.ts:86-108 | the draft with its id: time, image, meal type, notes, manual flag, items, calories and confidence copied; a given summary kept, otherwise the items' nutrients summed |
| LocalStorage.DeleteEntries | services/storageService.ts:144-158 | every entry with the id goes and every other entry stays |
| LocalStorage.DeleteUnknown | services/storageService.ts:144-158 | deleting an id no entry has changes nothing |
| LocalStorage.SaveThenDelete | services/storageService.ts:86-158 | saving under a fresh id and deleting it gives back the old list |
| LocalStorage.Merge | services/storageService.ts:166-168 | `{...entry, ...updates}`: each of the seven fields comes from the update when given, else from the entry; an empty update changes nothing |
| LocalStorage.UpdateEntries | services/storageService.ts:160-177 | same length; entries with the id merged, others unchanged |
| LocalStorage.UpdateThenDelete | services/storageService.ts:144-177 | an update that keeps the id is undone by a later delete of that id: the list left is the same |
| LocalStorage.EntriesInRange | services/storageService.ts:133-142 | exactly the entries with a timestamp within the bounds |
| LocalStorage.DayStats | services/storageService.ts:223-271 | no more meals than entries; a day without meals is all zeros |
| LocalStorage.DayStatsAfterSave | services/storageService.ts:86-121 | a saved entry within the day adds one meal and its calories; outside it, nothing |
| LocalStorage.LocalStore.constructor | services/storageService.ts:81-83 | all three keys empty |
| LocalStorage.LocalStore.FoodEntries | services/storageService.ts:123-131 | the stored list, or empty when the key is missing or does not parse |
| LocalStorage.LocalStore.SaveFoodEntry | services/storageService.ts:86-121 | the new entry goes to the front of the stored list; the other keys are unchanged |
| LocalStorage.LocalStore.DeleteFoodEntry | services/storageService.ts:144-158 | the stored list becomes `DeleteEntries` of the old one |
| LocalStorage.LocalStore.UpdateFoodEntry | services/storageService.ts:160-177 | the stored list becomes `UpdateEntries` of the old one |
| LocalStorage.LocalStore.SaveUserProfile | services/storageService.ts:180-190 | the profile is stored; the other keys are unchanged |
| LocalStorage.LocalStore.SaveDailyGoals | services/storageService.ts:203-210 | the goals are stored; the other keys are unchanged |
| LocalStorage.LocalStore.GetWeeklyStats | services/storageService.ts:273-305 | seven days, each the stats of its own day, with their calorie total and the rounded weekly average |
| LocalStorage.LocalStore.ClearAllData | services/storageService.ts:308-317 | all three keys removed, so every read gives nothing |
| LocalStorage.LocalStore.SaveManualFoodEntry | services/storageService.ts:320-331 | the entry is saved with the manual flag set, and the new id is returned |
| LocalStorage.LocalStore.FoodEntriesByDateRange | services/storageService.ts:133-142 | exactly the stored entries whose timestamp lies between the bounds |
| LocalStorage.LocalStore.GetUserProfile | services/storageService.ts:192-200 | the stored profile, or nothing when none is stored or it does not parse |
| LocalStorage.LocalStore.GetDailyGoals | services/storageService.ts:212-220 | the stored goals, or nothing when none are stored or they do not parse |
| LocalStorage.LocalStore.GetDailyStats | services/storageService.ts:223-271 | the count, calorie total and summary total over exactly the entries the date-range query returns |
| AmplifyStorage.EntryRowOf | services/amplifyStorageService.ts:83-107 | the user's row with the draft's time, image, calories, confidence, meal type and notes, the manual flag defaulting to false, and macros recomputed from the items |
| AmplifyStorage.ItemRowOf | services/amplifyStorageService.ts:115-128 | an item row linked to the entry, with the item's name, calories, weight, unit, confidence, portion and macros |
| AmplifyStorage.ItemRowsOf | services/amplifyStorageService.ts:114-129 | one linked row per item, in order |
| AmplifyStorage.FirstThrow | services/amplifyStorageService.ts:114-129 | the first call that throws, or the number of calls when none does |
| AmplifyStorage.FirstWithoutMacros | services/amplifyStorageService.ts:114-129 | the first item without macronutrients, or the number of items when all have them |
| AmplifyStorage.ItemsReached | services/amplifyStorageService.ts:114-129 | the create loop gets through every item before the first one without macronutrients or whose create throws |
| AmplifyStorage.CreatedRows | services/amplifyStorageService.ts:114-129 | at most one row per item, and fewer rows than items once a create is not carried out |
| AmplifyStorage.CreatedRowsAreTheDone | services/amplifyStorageService.ts:114-129 | the rows left are exactly the rows of the creates the backend carried out |
| AmplifyStorage.CreatedRowsAllDone | services/amplifyStorageService.ts:114-129 | when every create is carried out, one row per item, in order |
| AmplifyStorage.RefusedCreateIsMissed | services/amplifyStorageService.ts:114-129 | a create answered with `errors` does not stop the loop, and its row is missing |
| AmplifyStorage.SavedEntry | services/amplifyStorageService.ts:131-142 | the returned entry has the new id and the recomputed macros; every other field is the draft's |
| AmplifyStorage.SavedEntryReadsBack | services/amplifyStorageService.ts:93-202 | a saved entry reads back with the id, time, image, calories, confidence, meal type and macros the save returned |
| AmplifyStorage.ItemsOf | services/amplifyStorageService.ts:161-182 | exactly the item rows that reference the entry, in table order |
| AmplifyStorage.EntryOfRow | services/amplifyStorageService.ts:184-202 | the row's id, time, image, calories, confidence, meal type and macros, its notes or "", and exactly its items |
| AmplifyStorage.EntriesOfRows | services/amplifyStorageService.ts:157-203 | one entry per row, in order |
| AmplifyStorage.InsertDesc | services/amplifyStorageService.ts:205 | inserting keeps every entry and adds one |
| AmplifyStorage.InsertDescSorted | services/amplifyStorageService.ts:205 | inserting into a latest-first list keeps it latest first |
| AmplifyStorage.SortDesc | services/amplifyStorageService.ts:205 | sorting is a permutation of the entries |
| AmplifyStorage.SortDescSorted | services/amplifyStorageService.ts:205 | sorting puts later timestamps first |
| AmplifyStorage.UserEntriesAreOwned | services/amplifyStorageService.ts:149-210 | every entry read back is one of the user's rows with exactly its items |
| AmplifyStorage.UserEntries | services/amplifyStorageService.ts:149-210 | a permutation of the entries built from the user's rows, ordered latest first |
| AmplifyStorage.SavedItemsReadBack | services/amplifyStorageService.ts:78-210 | after a save, the rows that reference the new entry are the ones just written, and their macros add up to the entry's totals |
| AmplifyStorage.Keep | services/amplifyStorageService.ts:241-249 | a field sent as undefined keeps the stored value |
| AmplifyStorage.UpsertProfile | services/amplifyStorageService.ts:232-266 | the user's first row takes the sent name, each sent figure and activity level (a figure sent as undefined keeps the stored one) and the save time as its update time, and every other row is unchanged; with no row, a row with the new id, the user, the profile's fields, an empty e-mail and the save time as both stamps is appended after the unchanged old ones; one profile per user is kept |
| AmplifyStorage.NonZero | services/amplifyStorageService.ts:281-285 | `x \|\| undefined`: zero and absent both read back as absent |
| AmplifyStorage.ProfileFirstSave | services/amplifyStorageService.ts:232-293 | a first save reads back with the name, the non-zero age, weight, height and calorie goal, the activity level and the save time as both stamps |
| AmplifyStorage.ProfileResave | services/amplifyStorageService.ts:232-266 | a later save keeps the row's id and user, renames it, takes every sent figure and keeps every one sent as undefined, keeps the creation time, stamps the update time, leaves other rows alone, and reads back as that row |
| AmplifyStorage.UpsertGoals | services/amplifyStorageService.ts:296-327 | the user's first row is updated in place, keeping its id, every other row unchanged; with no row, exactly the new row is appended; the user's row carries the goals with the calories rounded; one goals row per user is kept |
| AmplifyStorage.ReadGoals | services/amplifyStorageService.ts:329-351 | goals exactly when the user has a row, and then the five figures of the user's first row |
| AmplifyStorage.ReadProfile | services/amplifyStorageService.ts:268-293 | a profile exactly when the user has a row; it is read from the user's first row |
| AmplifyStorage.ReadKey | services/amplifyStorageService.ts:383-401 | a key exactly when the user has a "gemini" row; it is the key of the user's first such row |
| AmplifyStorage.GoalsRoundTrip | services/amplifyStorageService.ts:296-351 | goals read back after a save are the saved goals with the calories rounded |
| AmplifyStorage.UpsertKey | services/amplifyStorageService.ts:354-381 | the user's first "gemini" row gets the key and nothing else changes; with no such row, exactly a new "gemini" row is appended; one key row per user is kept |
| AmplifyStorage.KeyRoundTrip | services/amplifyStorageService.ts:354-401 | the key read back after a save is the key saved |
| AmplifyStorage.SavedKeyReachesIdentify | services/amplifyStorageService.ts:383-401 | with the key read from this store, a saved key lets the model's reply through to the identification |
| AmplifyStorage.DayStatsOf | services/amplifyStorageService.ts:404-446 | no more meals than entries; a day without meals is all zeros |
| AmplifyStorage.DayStatsOfAfterAdd | services/amplifyStorageService.ts:404-446 | one more entry within the day adds one meal, its calories and its macros; outside the day nothing changes |
| AmplifyStorage.ItemsAfterDelete | services/amplifyStorageService.ts:212-229 | the item rows left by a delete are rows of the old table |
| AmplifyStorage.DeleteResult | services/amplifyStorageService.ts:212-229 | a delete succeeds exactly when none of its calls throws, whatever `errors` they answer with; a failure carries the message of a call that threw |
| AmplifyStorage.EntriesAfterDelete | services/amplifyStorageService.ts:223-224 | the entry row goes, and only it, exactly when the delete succeeds and the backend carries out the entry delete; otherwise the entry table is unchanged |
| AmplifyStorage.DeleteLeavesNoItems | services/amplifyStorageService.ts:212-229 | when no call throws and every item delete is carried out, no item row references the entry |
| AmplifyStorage.RefusedDeleteLeavesRow | services/amplifyStorageService.ts:219-221 | an item delete answered with `errors` leaves its row in the table, unless another matching row shares its id |
| AmplifyStorage.AmplifyStore.constructor | services/amplifyStorageService.ts:67-75 | empty tables for the given user |
| AmplifyStorage.AmplifyStore.SaveFoodEntry | services/amplifyStorageService.ts:78-147 | fails without a user or when the entry create reports errors; otherwise it writes the entry row and the rows of the item creates carried out before the loop stops; succeeds exactly when the loop gets through every item, and a failure carries what threw |
| AmplifyStorage.AmplifyStore.CreateItemRows | services/amplifyStorageService.ts:113-129 | adds the rows of the item creates carried out before the first item without macros or the first create that throws, and returns what threw |
| AmplifyStorage.AmplifyStore.GetFoodEntries | services/amplifyStorageService.ts:149-210 | the user's entries with their items, latest first; nothing without a user or when one of its list calls throws (the read catches it) |
| AmplifyStorage.AmplifyStore.DeleteFoodEntry | services/amplifyStorageService.ts:212-229 | the result, the item table and the entry table become `DeleteResult`, `ItemsAfterDelete` and `EntriesAfterDelete` of the old tables; nothing else changes |
| AmplifyStorage.AmplifyStore.DeleteItemRows | services/amplifyStorageService.ts:214-221 | removes the rows sharing an id with a matching row whose delete was carried out before the first delete that throws, and returns what threw |
| AmplifyStorage.WriteResult | services/amplifyStorageService.ts:262-265 | a settings save fails with the thrown message exactly when its list or write throws; `errors` of the write are ignored (the same catch-and-rethrow is at lines 323-326 and 377-380) |
| AmplifyStorage.AmplifyStore.SaveUserProfile | services/amplifyStorageService.ts:232-266 | fails without a user; a throwing list or write is rethrown with the table unchanged, a refused write succeeds with the table unchanged, a carried-out write upserts the profile; the other tables are unchanged |
| AmplifyStorage.AmplifyStore.SaveDailyGoals | services/amplifyStorageService.ts:296-327 | fails without a user; a throw is rethrown and a refused write ignored, both leaving the table; a carried-out write upserts the goals |
| AmplifyStorage.AmplifyStore.SaveGeminiApiKey | services/amplifyStorageService.ts:354-381 | fails without a user; a throw is rethrown and a refused write ignored, both leaving the table; a carried-out write upserts the key |
| AmplifyStorage.AmplifyStore.GetDailyStats | services/amplifyStorageService.ts:404-446 | the stats of the day over the entries read back; zeros without a user or when the entry read throws |
| AmplifyStorage.AmplifyStore.GetUserProfile | services/amplifyStorageService.ts:268-293 | a profile exactly when the list does not throw and there is a user with a profile row, and it is read from one of that user's rows; nothing when the list throws |
| AmplifyStorage.AmplifyStore.GetDailyGoals | services/amplifyStorageService.ts:329-351 | goals exactly when the list does not throw and there is a user with a goals row, and then the five figures of that user's first row; nothing when the list throws |
| AmplifyStorage.AmplifyStore.GetGeminiApiKey | services/amplifyStorageService.ts:383-401 | a key exactly when the list does not throw and there is a user with a "gemini" key row, and it is that row's key; nothing when the list throws |
| FormRules.MatchesEmail | app/auth/signup.tsx:69 | `/^[^\s@]+@[^\s@]+\.[^\s@]+$/`: three non-empty runs without whitespace or "@", split by "@" and then a "." |
| FormRules.MatchHasNoWhitespace | app/auth/signup.tsx:69 | a matching address holds no whitespace |
| FormRules.MatchIsNotBlank | app/auth/signup.tsx:67-72 | a matching address is not blank and has no whitespace at either end |
| FormRules.EmailError | app/auth/signup.tsx:67-72 | no error exactly for a matching address; "required" exactly for a blank one; otherwise "valid email" |
| FormRules.PaddedEmailRefused | app/auth/signup.tsx:67-72 | an address with a space around it is refused as invalid, not as missing |
| FormRules.Met | app/auth/signup.tsx:40-48 | exactly the criteria the password meets |
| FormRules.PasswordError | app/auth/signup.tsx:74-85 | no error exactly when all five criteria are met; "required" for an empty password; otherwise the message of the first failing criterion |
| FormRules.PasswordStrength | app/auth/signup.tsx:40-48 | the score is the number of criteria met, at most five, and five exactly when all are met |
| FormRules.CountIsSize | app/auth/signup.tsx:40-48 | counting the criteria one by one gives the size of the set met |
| FormRules.StrengthIsFiveExactlyWhenAllMet | app/auth/signup.tsx:40-85 | the password rules accept exactly the passwords with the full strength score |
| FormRules.NameError | app/auth/signup.tsx:61-65 | no error exactly when the trimmed name has two or more characters; "required" exactly when it is blank |
| FormRules.ConfirmError | app/auth/signup.tsx:87-91 | no error exactly for a non-empty repeat of the password; "confirm" exactly when empty |
| FormRules.ConfirmedPasswordIsTheOne | app/auth/reset-password.tsx:91-125 | an accepted confirmation repeats the password, so both get the same verdict |
| FormRules.EmptyCode | app/auth/reset-password.tsx:23 | six empty slots |
| FormRules.SetSlot | app/auth/reset-password.tsx:71-82 | a refused value changes nothing; an accepted one changes only its slot; digit-only slots stay digit-only |
| FormRules.Join | app/auth/reset-password.tsx:98 | the joined code is empty exactly when every slot is empty, and starts with the first slot |
| FormRules.JoinOfSingles | app/auth/confirm-signup.tsx:38-55 | slots of at most one character join to at most six characters, and to exactly six when all are filled |
| FormRules.JoinOfDigits | app/auth/reset-password.tsx:98 | digit-only slots join to digits only |
| FormRules.Tick | app/auth/reset-password.tsx:39-47 | the countdown goes down by one while positive and stays at zero |
| FormRules.TicksCountDown | app/auth/reset-password.tsx:39-47 | n ticks take n off, stopping at zero |
| FormRules.ResendOpensAfterSixtyTicks | app/auth/reset-password.tsx:154-164 | after a resend, the link opens again exactly at the sixtieth tick |
| SignUp.Fields.With | app/auth/signup.tsx:94-99 | only the named field changes |
| SignUp.Validate | app/auth/signup.tsx:102-128 | no errors exactly when the name, e-mail, password and confirmation rules all hold |
| SignUp.SignUpScreen.constructor | app/auth/signup.tsx:22-34 | empty form and no errors |
| SignUp.SignUpScreen.InputChange | app/auth/signup.tsx:94-99 | one field is set and only that field's error is cleared |
| SignUp.SignUpScreen.SignUp | app/auth/signup.tsx:102-128 | the errors shown are the form's; invalid exactly when there are errors; otherwise the confirmation screen, or an alert with the provider's message |
| SignUp.AcceptedForm | app/auth/signup.tsx:102-128 | an accepted form has an address without whitespace and a confirmed password of eight or more characters |
| SignIn.Fields.With | app/auth/signin.tsx:48-52 | only the named field changes |
| SignIn.PasswordRequired | app/auth/signin.tsx:42-45 | only an empty password is refused |
| SignIn.Validate | app/auth/signin.tsx:55-65 | no errors exactly when the address matches and a password is given |
| SignIn.FailureOutcome | app/auth/signin.tsx:70-88 | the verify prompt exactly when the message contains "verify your email"; otherwise an alert with the message |
| SignIn.SignInScreen.constructor | app/auth/signin.tsx:22-30 | empty form and no errors |
| SignIn.SignInScreen.InputChange | app/auth/signin.tsx:48-52 | one field is set and only that field's error is cleared |
| SignIn.SignInScreen.SignIn | app/auth/signin.tsx:55-94 | invalid exactly when there are errors; otherwise home, or the failure's outcome |
| SignIn.SignInAsWritten | app/auth/signin.tsx:20-94 | with `signIn` undefined, a press never leads home: invalid exactly when there are errors, and otherwise the failure outcome of the TypeError's message |
| SignIn.UnconfirmedGetsVerifyPrompt | app/auth/signin.tsx:70-78 | an unconfirmed account, after the message mapping, gets the verify prompt |
| SignIn.MarkerInVerifyFirst | services/authService.ts:244 | the mapped unconfirmed-account message contains the marker text |
| ForgotPassword.ForgotPasswordScreen.constructor | app/auth/forgot-password.tsx:22-24 | empty address, no error, not loading |
| ForgotPassword.ForgotPasswordScreen.InputChange | app/auth/forgot-password.tsx:35-38 | the new address and no error |
| ForgotPassword.ForgotPasswordScreen.SendCode | app/auth/forgot-password.tsx:41-73 | invalid exactly when the address does not match, and then the error is shown; otherwise the code is sent or an alert is shown, and loading ends |
| ResetPassword.Validate | app/auth/reset-password.tsx:91-125 | a code error exactly when the joined code is not six characters; the password and confirmation rules; no errors exactly when all hold |
| ResetPassword.ResetPasswordScreen.constructor | app/auth/reset-password.tsx:20-34 | empty code and fields, no errors, no cooldown |
| ResetPassword.ResetPasswordScreen.CodeChange | app/auth/reset-password.tsx:71-82 | the code becomes `SetSlot` of the old one, and the code error is cleared when the value is accepted |
| ResetPassword.ResetPasswordScreen.NewPasswordChange | app/auth/reset-password.tsx:258-264 | the new password, with its error cleared |
| ResetPassword.ResetPasswordScreen.ConfirmPasswordChange | app/auth/reset-password.tsx:334-340 | the confirmation, with its error cleared |
| ResetPassword.ResetPasswordScreen.ValidateForm | app/auth/reset-password.tsx:91-125 | all three errors shown, and true exactly when there are none |
| ResetPassword.ResetPasswordScreen.ResetPassword | app/auth/reset-password.tsx:128-151 | invalid exactly when there are errors; a submitted code is six digits; the reset succeeds exactly when the provider does |
| ResetPassword.ResetPasswordScreen.ResendCode | app/auth/reset-password.tsx:154-164 | blocked while the cooldown runs; a successful resend starts the 60-second cooldown; a failure gives an alert |
| ResetPassword.ResetPasswordScreen.CooldownTick | app/auth/reset-password.tsx:39-47 | one tick of the countdown, nothing else |
| ConfirmSignUp.ConfirmSignUpScreen.constructor | app/auth/confirm-signup.tsx:17-22 | empty code, no cooldown, not verifying |
| ConfirmSignUp.ConfirmSignUpScreen.Verify | app/auth/confirm-signup.tsx:65-72 | the given code, or the joined buffer when none is given, is refused unless it is six characters; otherwise verification starts |
| ConfirmSignUp.ConfirmSignUpScreen.FinishVerify | app/auth/confirm-signup.tsx:73-95 | success keeps the code; a failure alerts and empties the code; verification ends either way |
| ConfirmSignUp.ConfirmSignUpScreen.CodeChange | app/auth/confirm-signup.tsx:38-55 | the slot is set; verification starts automatically with the joined code exactly when all slots are filled and none is running |
| ConfirmSignUp.ConfirmSignUpScreen.ResendCode | app/auth/confirm-signup.tsx:98-111 | blocked while the cooldown runs; a successful resend starts the 60-second cooldown |
| ConfirmSignUp.ConfirmSignUpScreen.CooldownTick | app/auth/confirm-signup.tsx:27-35 | one tick of the countdown, nothing else |
| ConfirmSignUp.JoinOfFilled | app/auth/confirm-signup.tsx:48-54 | a filled buffer joins to a non-empty code |
| ConfirmSignUp.SingleDigitsAlwaysStart | app/auth/confirm-signup.tsx:38-72 | when typing fills the last slot, the joined code is always six digits, so auto-verification never meets the length error |
| AuthService.LastValueNone | services/authService.ts:234-259 | an object-literal lookup finds nothing exactly when no entry has the key |
| AuthService.LastValueAt | services/authService.ts:234-259 | an object-literal lookup gives the last entry with the key |
| AuthService.ErrorCode | services/authService.ts:232 | the error's name when it has one, else its code; empty only when both are |
| AuthService.GetErrorMessage | services/authService.ts:231-266 | the message is never empty |
| AuthService.HandleAuthError | services/authService.ts:223-226 | a plain `Error` carrying the mapped message |
| AuthService.PlainErrorNotInTable | services/authService.ts:234-259 | "Error" is not a key of the table |
| AuthService.HandleAuthErrorStable | services/authService.ts:223-266 | mapping an already mapped error keeps its message |
| AuthService.LimitExceededUsesLaterEntry | services/authService.ts:251-257 | of the two `LimitExceededException` entries, the later one is shown |
| AuthService.InvalidParameterUsesLaterEntry | services/authService.ts:239-258 | of the two `InvalidParameterException` entries, the later one is shown |
| AuthService.UnconfirmedMessage | services/authService.ts:244 | an unconfirmed account gets the message asking to verify the e-mail |
| AuthService.UnknownCodeFallsBack | services/authService.ts:261-265 | an unknown code falls back to the error's own message, then to the generic text |
| AuthService.GetCurrentUser | services/authService.ts:170-187 | a user exactly when both lookups succeed; `null` exactly when the failure is an unauthenticated user; otherwise the mapped error is thrown |
| AuthService.IsAuthenticated | services/authService.ts:211-218 | true exactly when the user lookup succeeds |
| AuthService.CurrentUserImpliesAuthenticated | services/authService.ts:170-218 | a found user implies authenticated; the converse fails only on a failed session fetch |
| ProtectedRoute.Decide | components/ProtectedRoute.tsx:14-27 | nothing while loading; to the welcome page exactly when signed out in the tabs; to the tabs exactly when signed in on an auth page |
| ProtectedRoute.Render | components/ProtectedRoute.tsx:29-36 | the spinner exactly while loading |
| ProtectedRoute.RedirectSettles | components/ProtectedRoute.tsx:14-27 | after a redirect the guard redirects no further |
| ProtectedRoute.DecideAsWritten | components/ProtectedRoute.tsx:11-27 | with `isAuthenticated` undefined, the guard never sends anyone to the tabs and sends everyone in the tabs to the welcome page once loaded |
| ProtectedRoute.SignedInUserLeavesTabsAsWritten | components/ProtectedRoute.tsx:11-27 | a signed-in user in the tabs is sent to the welcome page as written, and left there by the guard on the provider's state |
| PreSignUp.Respond | amplify-backup/backend/function/presignup/src/index.js:1-23 | auto-confirm always set; e-mail and phone auto-verified exactly when the attribute is present and non-empty, otherwise left as they were |
| PreSignUp.RespondIdempotent | amplify-backup/backend/function/presignup/src/index.js:1-23 | running the trigger twice is running it once |
| PreSignUp.Event.constructor | amplify-backup/backend/function/presignup/src/index.js:1-23 | the event carries the given request and response |
| PreSignUp.Handler | amplify-backup/backend/function/presignup/src/index.js:1-23 | the same event is returned, with its response set by the trigger's rules |

## Left out

- I/O is not modelled: the device key store, the backend client, the Gemini SDK, the image picker, haptics, navigation, focus and alerts. Their results are parameters and their effects are return values.
- `JSON.stringify` and `JSON.parse` are not modelled. Parsing is a parameter returning an Option, and storage holds values rather than text.
- The clock is a parameter: `Date.now()`, the hour of the day and the day bounds `getDailyStats` computes from a `Date`.
- Time zones and calendar arithmetic are left out.
- Random and backend-assigned ids are parameters. What each backend write of the Amplify store does (carried out, answered with `errors`, or thrown) is a parameter too: one per item create and delete, and one for the list-then-write of each settings save. Whether a read's list calls throw is a parameter of each read.
- Amplify list pagination is left out: a `list` call returns the whole table.
- LocalStorage.LocalStore.SaveFoodEntry: write failures of the device store are not modelled. They are logged and rethrown in the source.
- Floating point is not modelled. Numbers are exact reals, and `parseFloat` is taken as the exact decimal value. `toFixed(1)` and `Math.round` round halves up on exact values.
- Gemini.ProcessingTime: the elapsed time is rounded half up to tenths on its exact value. `toFixed(1)` works on the nearest double, so an elapsed time such as 150 ms, whose double lies just below 0.15, can print as "0.1s" where the model says "0.2s".
- Identify.IdentifyScreen.AdjustQuantity: the step `delta` is a whole number of tenths. The buttons pass plus or minus 0.1.
- AmplifyStorage.SortDesc: the order among entries with equal timestamps is not specified. JavaScript's sort is stable; the model does not prove that.
- ManualEntry.RemoveById: the list is proved never to run empty only while row ids are distinct. Ids come from `Date.now()`, and two rows added in the same millisecond share one. `RemoveSharedId` shows the list emptying then.
- Lengths (name length, password length, code length) are counted in characters. JavaScript counts UTF-16 code units, which differ outside the Basic Multilingual Plane.
- AuthService.GetErrorMessage: keys of `Object.prototype`, such as "constructor", are not modelled. A lookup of such a key in the `errorMessages` literal finds an inherited function rather than nothing.
- The five auth screens and the route guard are modelled against the hook that components/AuthProvider.tsx exports. That hook provides `signIn`, `signUp`, `resetPassword`, `confirmResetPassword`, `confirmSignUp`, `resendSignUpCode`, `clearError`, `error` and `isAuthenticated`. The files themselves import `useAuth` from hooks/useAuth.ts, which provides none of these; the two "## Findings" rows on this give what that does. The provider's own state (`isLoading`, `error`, `clearError`) is not part of this model, and its calls' results are parameters.
- PreSignUp.Handler: the response keys the trigger does not set are not modelled.
- ResetPassword.ResetPasswordScreen.CodeChange: the slot index is required to be below six. The screen renders exactly six inputs, indexed 0 to 5.
- ConfirmSignUp.ConfirmSignUpScreen.CodeChange: the slot index is required to be below six, as above.
- ConfirmSignUp.ConfirmSignUpScreen.Verify: `handleVerify` is split into a start step and a finish step, `FinishVerify`, around the awaited provider call.
- Password visibility toggles, the strength colours and labels, and the back-key focus handling are presentation only.

## Findings

| source | as written | input that shows it | evidently intended | confidence | as-written member | corrected member |
|---|---|---|---|---|---|---|
| services/geminiService.ts:48 | `getModel` calls `getGeminiApiKey` on the on-device storage service, which defines no such method. The call throws a TypeError inside the `try` of each of its three callers (`identifyFood`, `calculateNutrition` at line 130, `analyzeFood` at line 230), so each always returns its fallback. | any photo or item list, with any key saved in Settings and any model reply | read the key saved per user (`AmplifyStorageService.getGeminiApiKey`) and call the model with it | not executed | Gemini.IdentifyFoodAsWritten, Gemini.CalculateNutritionAsWritten, Gemini.AnalyzeFoodAsWritten | Gemini.IdentifyFood / Gemini.IdentifyUsesReply, Gemini.CalculateNutrition, Gemini.AnalyzeFood, AmplifyStorage.SavedKeyReachesIdentify |
| components/ProtectedRoute.tsx:11 | The guard reads `isAuthenticated` from the `useAuth` of hooks/useAuth.ts (line 1). That hook returns only `isLoggedIn`, `isLoading`, `login` and `logout` (hooks/useAuth.ts:37). So `isAuthenticated` is always undefined. Once loaded, the guard sends every user in the tabs to the welcome page and never sends anyone to the tabs. | a signed-in user (a session is stored) who opens the tabs | take the flag from the provider's hook in components/AuthProvider.tsx, or read `isLoggedIn` | not executed | ProtectedRoute.DecideAsWritten, ProtectedRoute.SignedInUserLeavesTabsAsWritten | ProtectedRoute.Decide, ProtectedRoute.RedirectSettles |
| app/auth/signin.tsx:20 | The screen takes `signIn`, `error` and `clearError` from the same hook, which has none of them. `await signIn(...)` throws a TypeError inside the `try`, so every valid press ends in the catch: the "Sign In Failed" alert with the TypeError's message. `handleInputChange` throws at `clearError()` (line 51). The other screens do the same. Sign-up calls `signUp` and `clearError` (app/auth/signup.tsx:20, 98, 119). Forgot-password calls `resetPassword` (app/auth/forgot-password.tsx:20). Reset-password calls `confirmResetPassword` and `resetPassword` (app/auth/reset-password.tsx:21). Confirm-sign-up calls `confirmSignUp` and `resendSignUpCode` (app/auth/confirm-signup.tsx:18). Each press ends in that screen's catch alert. | any valid e-mail and non-empty password | import `useAuth` from components/AuthProvider.tsx, whose hook provides these calls | not executed | SignIn.SignInAsWritten | SignIn.SignInScreen.SignIn, SignIn.UnconfirmedGetsVerifyPrompt |
