# DreamShape workout tracker — a Dafny model of its view logic

DreamShape is a React workout tracker. Users keep workout templates,
log workouts set by set, browse an exercise catalog, and see statistics of
their training. This project models the logic inside its views and states
what that logic guarantees:

- **Dashboard.** The day streak, the three best personal records, the weekly
  frequency and volume charts over eight weeks, and the 84-day activity map.
- **Active workout screen.** The `m:ss` clocks, the personal record shown
  beside each exercise, the PR badge, and the remove-set button.
- **Profile.** Lifetime volume and hours, the three goal rings, the most
  logged exercise, and the name editor.
- **Template builders.** The top-level builder and the template editor:
  blank-input rejection, appending and removing exercises by id, save
  validation, and catalog suggestions capped at eight.
- **Exercise catalog.** The case-insensitive duplicate guard, the listing
  under seven muscle-group headings, and the 51 built-in entries.
- **Library screen.** Template previews, and the grouping of the catalog by
  muscle group.
- **Finish dialog.** The decision between updating the template, saving a new
  template, and just finishing.
- **Workout list, history and detail screens.** Duration texts, the cards,
  and the read-only set rows.
- **Sync badge.** The relative "last synced" text and the offline / syncing /
  synced choice.

Conventions of the model:

- **Component state.** A component whose handlers rewrite its `useState`
  variables is a class. Its handlers are methods.
- **Loops.** The loops that fill arrays and records are methods whose loop
  invariants tie them to a specification function. Expressions and `map`s
  are functions.
- **Callbacks.** A callback the parent passes in is a value the handler
  returns. Examples: the template handed to `onSave`, the catalog entry
  handed to `onAddToDatabase`, the alert raised for a missing name.
- **Dates.** A logged workout carries the calendar day it was logged on, as
  `daysAgo`: the number of days before today. It also carries `timeMs`: the
  time of day in milliseconds after local midnight.
- **Clock values.** The current time, `Date.now()` ids and the locale date
  text are parameters.
- **Numbers.** Weights, repetitions and volumes are exact reals.
  `Math.round(x)` is `floor(x + 1/2)`. JavaScript's truncating `%` is written
  out where an operand can be negative.
- **Objects used as dictionaries.** The records `getBestPRs`,
  `getMostFrequentExercise` and the library `reduce` fill are each a list of
  keys in insertion order beside a map.

The streak loop follows its own comment at src/components/DashboardView.tsx:52:
one rest day is allowed, and two or more consecutive rest days end the streak.
So activity today, yesterday and three days ago gives a streak of 3
(`Dashboard.StreakWithOneRestDay`).

## Model

| member | source | states |
|---|---|---|
| Dashboard.GetCurrentStreak | src/components/DashboardView.tsx:28-69 | the loop's count equals the streak definition (each active day counts, one missing day after today is passed over when the day before it is active, otherwise the count stops); 0 with no logs or nothing logged today; at most the number of active days in the 365-day window, and at most 365 |
| Dashboard.StreakBounded | src/components/DashboardView.tsx:39-50 | from any day of the window, the streak is at most the number of active days left in the window, which is at most the days left |
| Dashboard.StreakCountsActiveDaysUntilBreak | src/components/DashboardView.tsx:49-62 | up to the first day that ends it, the streak is exactly the number of active days: a lone rest day neither counts nor breaks it |
| Dashboard.StreakWithOneRestDay | src/components/DashboardView.tsx:51-62 | activity 0, 1 and 3 days ago (none 2, 4, 5) gives a streak of 3 |
| Dashboard.HeatmapTodayMatchesStreak | src/components/DashboardView.tsx:63-65 | the streak is positive exactly when something was logged today, the last cell of the activity map |
| Dashboard.RoundHalfUp | src/components/DashboardView.tsx:153 | `Math.round` lands within one half of its argument, halves rounded up |
| Dashboard.GetFrequencyData | src/components/DashboardView.tsx:101-124 | eight points, oldest window first, labelled "-7" … "-1", "This"; point k counts the logs dated 7(7-k)+1 to 7(7-k)+7 days ago |
| Dashboard.GetVolumeData | src/components/DashboardView.tsx:127-158 | eight points over the same windows; each is the rounded thousandth of weight × reps summed over every set of the window's logs, completed or not |
| Dashboard.WeekWindowsDisjoint | src/components/DashboardView.tsx:104-115 | a log lies in at most one weekly window, and a log dated today or later lies in none |
| Dashboard.CountBetweenSplit | src/components/DashboardView.tsx:112-115 | the count over a day range is the sum of the counts over the two parts of any split of it |
| Dashboard.VolumeBetweenSplit | src/components/DashboardView.tsx:138-149 | the volume over a day range is the sum of the volumes over the two parts of any split of it |
| Dashboard.WeeksPartitionEightWeeks | src/components/DashboardView.tsx:104-121 | the first n windows together count each log dated 1 to 7n days ago exactly once, and sum exactly its volume |
| Dashboard.GetHeatmapData | src/components/DashboardView.tsx:161-183 | 84 cells, oldest first, from 83 days ago to today; a cell is 1 exactly when something was logged that day, else 0; the cells add up to the number of active days among the last 84 |
| Dashboard.BestInSnoc | src/components/DashboardView.tsx:77-79 | visiting one more set raises a name's best weight to that set's weight exactly when the set is that name's and heavier |
| Dashboard.RecordWeightStep | src/components/DashboardView.tsx:77-80 | one step of the innermost loop keeps the record equal to the running maxima: distinct keys, one per name with a positive weight, each at the name's heaviest set so far |
| Dashboard.RecordAllCorrect | src/components/DashboardView.tsx:72-83 | from an empty record, visiting any sequence of sets leaves exactly the per-name maxima of those sets |
| Dashboard.RecordFromAppend | src/components/DashboardView.tsx:74-83 | the nested loops visit the sets as one flat sequence: visiting a and then b is visiting a + b |
| Dashboard.RecordSets | src/components/DashboardView.tsx:76-81 | the innermost `forEach` leaves the record that visiting the exercise's sets in order produces |
| Dashboard.RecordExercises | src/components/DashboardView.tsx:75-82 | the middle `forEach` leaves the record that visiting every set of the log's entries in order produces |
| Dashboard.RecordPersonalRecords | src/components/DashboardView.tsx:74-83 | the outer `forEach` leaves the record of every set of every entry of every log |
| Dashboard.GetBestPRs | src/components/DashboardView.tsx:71-88 | at most three entries with distinct names, heaviest first; each is its name's heaviest set over all entries of all logs and is positive; a name left out is outweighed by the third entry |
| Dashboard.SortedRecordEntries | src/components/DashboardView.tsx:85-86 | any reordering of the record's entries has one entry per name, each at that name's best weight, and contains every name with a positive best |
| Dashboard.SortedRecordNamesDistinct | src/components/DashboardView.tsx:85-86 | reordering the record's entries keeps their names distinct |
| Dashboard.TopOfSorted | src/components/DashboardView.tsx:86-87 | the first three of the entries sorted heaviest first form the top three |
| Sorting.SortDesc | src/components/DashboardView.tsx:86 | the sort returns a permutation of its input, in non-increasing key order |
| Sorting.SortHeadIsFirstMax | src/components/ProfileView.tsx:84-85 | the head of the stable descending sort is the first element of the input with the largest key |
| WorkoutView.JsRem | src/components/WorkoutView.tsx:37 | JavaScript's `%` by a positive divisor: below the divisor, signed like the dividend |
| WorkoutView.FormatElapsedTime | src/components/WorkoutView.tsx:35-39 | the clock is not empty and starts with a minus sign exactly when the count is negative |
| WorkoutView.ElapsedTimeRoundTrip | src/components/WorkoutView.tsx:35-39 | a non-negative second count reads back exactly from its `m:ss` clock |
| WorkoutView.FormatRestTime | src/components/WorkoutView.tsx:41-45 | a positive rest count reads back exactly from its clock, which has at least four characters |
| WorkoutView.NegativeElapsedTime | src/components/WorkoutView.tsx:35-39 | a negative count keeps JavaScript's signs: -5 seconds shows "-1:-5" |
| WorkoutView.FirstNamed | src/components/WorkoutView.tsx:51 | `find` stops at the first entry with the name, or finds none, and no earlier entry has the name |
| WorkoutView.MaxOverSets | src/components/WorkoutView.tsx:53-57 | the inner loop leaves the maximum of its start value and the set weights |
| WorkoutView.PersonalRecord | src/components/WorkoutView.tsx:47-62 | the value `getPersonalRecord` returns is never negative and not below any weight the loops compare |
| WorkoutView.GetPersonalRecord | src/components/WorkoutView.tsx:47-62 | the loops return the maximum over 0 and the set weights of the first entry with the name in each log |
| WorkoutView.FirstEntryWeightsMembers | src/components/WorkoutView.tsx:50-58 | the weights the loops compare are exactly the set weights of the first matching entry of some log |
| WorkoutView.PersonalRecordBounds | src/components/WorkoutView.tsx:47-62 | the record is not negative; it bounds every set weight of a first matching entry; when positive, it is one of those weights; with no matching entry it is 0 |
| WorkoutView.SecondEntryIgnored | src/components/WorkoutView.tsx:51 | only the first matching entry counts: a log with "Squat" at 100 then 120 gives 100, while the dashboard's record gives 120 |
| WorkoutView.BothEntriesCount | src/components/DashboardView.tsx:74-83 | the dashboard's record visits both entries of a log that repeats a name |
| WorkoutView.PrBadge | src/components/WorkoutView.tsx:123-125 | the badge appears exactly when the personal record is positive, i.e. when some set of a first matching entry weighs more than 0, and then shows the record itself |
| WorkoutView.ShowRemoveSet | src/components/WorkoutView.tsx:162 | the remove-set button appears exactly when removing any one set leaves the exercise at least one set |
| Types.TotalVolume | src/components/ProfileView.tsx:25-33 | the nested `reduce`s of `getTotalVolume`: weight × reps summed over every set, log by log (its additivity is `Types.TotalVolumeAppend`) |
| Types.TotalVolumeAppend | src/components/ProfileView.tsx:25-33 | the volume of two lists of logs together is the sum of their volumes |
| Types.TotalSeconds | src/components/ProfileView.tsx:35-36 | the `reduce` of `getTotalDuration`: the durations summed, log by log (its additivity is `Types.TotalSecondsAppend`) |
| Types.TotalSecondsAppend | src/components/ProfileView.tsx:35-36 | the summed durations of two lists of logs together are the sum of their sums |
| Profile.TotalVolumeOfMoreLogs | src/components/ProfileView.tsx:25-33 | the total volume of no logs is 0, and the volume of two lists of logs together is the sum of their volumes |
| Profile.TotalVolumeNonNegative | src/components/ProfileView.tsx:25-33 | with no negative weight or repetition count, the total volume is not negative |
| Profile.TotalHours | src/components/ProfileView.tsx:35-39 | the whole hours in the summed durations: H hours when the total is at least 3600H seconds and below 3600(H+1) |
| Profile.CappedPercent | src/components/ProfileView.tsx:53 | at most 100; exactly 100 when the value reaches the goal; below it, the exact percentage; not negative for a non-negative value |
| Profile.CountLogs | src/components/ProfileView.tsx:47-50 | `filter(...).length` counts at most all the logs; with `Profile.CountOneLog` and `Profile.CountLogsAppend` it is the number of logs satisfying the test |
| Profile.CountOneLog | src/components/ProfileView.tsx:47-50 | one log counts 1 when it passes the test and 0 otherwise |
| Profile.CountLogsAppend | src/components/ProfileView.tsx:47-50 | the count over two runs of logs is the sum of their counts |
| Profile.CountLogsExtremes | src/components/ProfileView.tsx:47-50 | the count is 0 exactly when no log passes, and the number of logs exactly when every log passes |
| Profile.WeeklyGoalProgress | src/components/ProfileView.tsx:41-54 | between 0 and 100; 100 exactly when at least four logs fall in the current week; otherwise 25 per log of the week |
| Profile.ConsistencyScore | src/components/ProfileView.tsx:56-67 | between 0 and 100; 0 with no logs; 100 exactly when at least twelve logs fall in the last thirty days |
| Profile.ConsistencyGuardRedundant | src/components/ProfileView.tsx:57 | the early return for an empty history gives what the formula gives anyway |
| Profile.VolumeProgress | src/components/ProfileView.tsx:69-73 | at most 100; 100 exactly when the total volume reaches 50000; otherwise the volume over 500 |
| Profile.TallyCorrect | src/components/ProfileView.tsx:76-82 | the count record holds each logged name once, in first-logged order, with the number of entries that carry it |
| Profile.TallyExercises | src/components/ProfileView.tsx:79-81 | the inner loop adds the names of one log's entries to the count record, in order |
| Profile.TallyLogs | src/components/ProfileView.tsx:78-82 | the outer loop builds the count record of every entry name of every log |
| Profile.GetMostFrequentExercise | src/components/ProfileView.tsx:75-86 | "None" when nothing was logged; otherwise a name logged most often and, among those tied, the one logged first |
| Profile.HeadIsMostFrequent | src/components/ProfileView.tsx:84-85 | the head of the sorted counts is the most frequent name, earliest among ties |
| Profile.FirstMaxHasMaxCount | src/components/ProfileView.tsx:84 | the first entry with the top count has a count no other name exceeds |
| Profile.FirstMaxIsFirstLogged | src/components/ProfileView.tsx:84 | among names with the top count, the first record key was the first one logged |
| Profile.ProfileEditor.constructor | src/components/ProfileView.tsx:17-18 | the editor starts closed, holding the name of the profile at the first render |
| Profile.ProfileEditor.CardClicked | src/components/ProfileView.tsx:149 | a click on the card opens the editor and keeps the typed name |
| Profile.ProfileEditor.NameChanged | src/components/ProfileView.tsx:162 | typing replaces the name and leaves the editor open or closed as it was |
| Profile.ProfileEditor.Save | src/components/ProfileView.tsx:20-23 | emits the current `userProfile` prop with only its name replaced by the typed one, then closes the editor |
| Profile.ProfileEditor.Cancel | src/components/ProfileView.tsx:169-172 | restores the name of the current `userProfile` prop and closes the editor |
| ExerciseLists.RemoveById | src/App.tsx:38-40 | the filtered list is never longer than the list |
| ExerciseLists.RemoveByIdMembers | src/App.tsx:39 | an exercise is kept exactly when it was in the list and its id differs |
| ExerciseLists.RemoveByIdAppend | src/components/CreateTemplateView.tsx:90-92 | removing from a concatenation removes from each part, so the kept exercises stay in order |
| ExerciseLists.RemoveByIdAbsent | src/App.tsx:39 | a list without that id is kept whole |
| ExerciseLists.RemoveByIdIdempotent | src/App.tsx:39 | removing an id twice is removing it once |
| App.TemplateBuilder.constructor | src/App.tsx:18-22 | no templates, the form closed and empty; every saved template is valid |
| App.TemplateBuilder.OpenCreate | src/App.tsx:69 | opens the form and changes nothing else |
| App.TemplateBuilder.TemplateNameChanged | src/App.tsx:123 | replaces the template name only |
| App.TemplateBuilder.ExerciseNameChanged | src/App.tsx:136 | replaces the exercise input only |
| App.TemplateBuilder.AddExercise | src/App.tsx:24-36 | a blank name changes nothing; otherwise one exercise named as typed, "Barbell", "Chest", is appended and the input cleared |
| App.TemplateBuilder.RemoveExercise | src/App.tsx:38-40 | drops the exercises with that id from the form and nothing else |
| App.TemplateBuilder.SaveDisabled | src/App.tsx:168 | the save button is disabled exactly when the name is blank or there is no exercise |
| App.TemplateBuilder.SaveTemplate | src/App.tsx:42-55 | saves exactly when the save button is enabled; then appends one template holding the form's name and exercises, resets the form and leaves it; refused, nothing changes; every saved template has a name that is not blank and an exercise |
| App.TemplateBuilder.Back | src/App.tsx:106-110 | leaves the form, dropping its name and exercises; the saved templates stay |
| CreateTemplate.Matching | src/components/CreateTemplateView.tsx:35-36 | only catalog entries whose lower-cased name contains the lower-cased input, never more than the catalog |
| CreateTemplate.MatchingComplete | src/components/CreateTemplateView.tsx:35-36 | every catalog entry that matches is among the matches |
| CreateTemplate.MatchingAppend | src/components/CreateTemplateView.tsx:35-36 | matching a concatenation matches each part, so matches keep catalog order |
| CreateTemplate.Suggestions | src/components/CreateTemplateView.tsx:35-37 | the first eight matches, or all when fewer, each a matching catalog entry |
| CreateTemplate.TemplateEditor.constructor | src/components/CreateTemplateView.tsx:25-29 | starts from the edited template's name and exercises, or empty, with no input and no suggestions |
| CreateTemplate.TemplateEditor.TemplateNameChanged | src/components/CreateTemplateView.tsx:117 | replaces the template name only |
| CreateTemplate.TemplateEditor.ExerciseInputChanged | src/components/CreateTemplateView.tsx:31-45 | stores the input; blank input hides and empties the suggestions, other input shows the first eight matches in the current `exerciseDatabase` prop; at most eight suggestions |
| CreateTemplate.TemplateEditor.Focused | src/components/CreateTemplateView.tsx:133 | focus shows the suggestions when the input is not empty, otherwise leaves them as they were |
| CreateTemplate.TemplateEditor.Blurred | src/components/CreateTemplateView.tsx:134 | blur hides the suggestions and changes nothing else |
| CreateTemplate.TemplateEditor.SelectSuggestion | src/components/CreateTemplateView.tsx:47-59 | appends an exercise with the suggestion's name, group and equipment, and clears the input and suggestions |
| CreateTemplate.TemplateEditor.AddExercise | src/components/CreateTemplateView.tsx:61-88 | blank input changes nothing; otherwise appends the typed name with "Barbell" and "Other", clears the input, and asks to add the name to the catalog exactly when no name of the current `exerciseDatabase` prop equals it ignoring case |
| CreateTemplate.TemplateEditor.RemoveExercise | src/components/CreateTemplateView.tsx:90-92 | drops the exercises with that id and nothing else |
| CreateTemplate.TemplateEditor.SaveDisabled | src/components/CreateTemplateView.tsx:186 | the save button is disabled exactly when the name is blank or there is no exercise |
| CreateTemplate.TemplateEditor.HandleSave | src/components/CreateTemplateView.tsx:94-97 | hands on the name and exercises exactly when the name is not blank and there is an exercise, i.e. when the button is enabled |
| Catalog.InCatalog | src/components/ExercisesView.tsx:30-32 | the front-to-back `some` finds a name exactly when some entry's name equals it ignoring case |
| Catalog.InCatalogAppend | src/components/CreateTemplateView.tsx:72-82 | once the parent appends an entry, the lookup also finds every name equal to that entry's name ignoring case, so the same name is not offered again |
| Catalog.AddUnknownKeepsDistinct | src/components/ExercisesView.tsx:30-39 | adding a name the lookup does not find keeps catalog names distinct ignoring case |
| Catalog.InGroup | src/components/ExercisesView.tsx:125 | exactly the catalog entries of that muscle group |
| Catalog.InGroupAppend | src/components/ExercisesView.tsx:125 | filtering a concatenation filters each part, so a group keeps catalog order |
| Catalog.InGroupCounts | src/components/ExercisesView.tsx:125 | a group holds each of its entries as many times as the catalog does |
| Catalog.DistinctPassesGuard | src/components/ExercisesView.tsx:30-37 | in a catalog of case-distinct names, no entry is found among the entries before it |
| ExercisesView.SectionsOf | src/components/ExercisesView.tsx:124-126 | at most one section per heading, each holding exactly its group's entries and not empty; distinct headings give distinct sections |
| ExercisesView.SectionOf | src/components/ExercisesView.tsx:124-126 | every heading with entries gets a section |
| ExercisesView.Displayed | src/components/ExercisesView.tsx:124-126 | an entry is listed exactly when it is in the catalog and its group is one of the seven headings |
| ExercisesView.ListedOnce | src/components/ExercisesView.tsx:124 | no heading is listed twice |
| ExercisesView.ExerciseForm.constructor | src/components/ExercisesView.tsx:20-25 | the form starts closed with an empty name, "Chest" and "Barbell" |
| ExercisesView.ExerciseForm.Open | src/components/ExercisesView.tsx:50 | opens the form, keeping what was typed |
| ExercisesView.ExerciseForm.NameChanged | src/components/ExercisesView.tsx:65 | replaces the name only |
| ExercisesView.ExerciseForm.MuscleGroupChanged | src/components/ExercisesView.tsx:74 | replaces the muscle group only |
| ExercisesView.ExerciseForm.EquipmentChanged | src/components/ExercisesView.tsx:90 | replaces the equipment only |
| ExercisesView.ExerciseForm.SaveDisabled | src/components/ExercisesView.tsx:115 | the save button is disabled exactly when the name is blank |
| ExercisesView.ExerciseForm.SaveExercise | src/components/ExercisesView.tsx:27-42 | a blank name does nothing; a name the catalog has, ignoring case, raises the duplicate alert and adds nothing; any other entry is added as typed and the form reset and closed; an addition keeps the catalog's names distinct ignoring case |
| ExercisesView.ExerciseForm.Cancel | src/components/ExercisesView.tsx:105-108 | closes and resets the form |
| DefaultCatalog.ChestChecked | src/data/defaultExercises.ts:3-12 | each chest entry is under "Chest" with a known equipment option, and its name's key maps back to its own position (which certifies the names distinct) |
| DefaultCatalog.BackChecked | src/data/defaultExercises.ts:15-23 | each back entry is under "Back" with a known equipment option, and its name's key maps back to its own position (which certifies the names distinct) |
| DefaultCatalog.ShouldersChecked | src/data/defaultExercises.ts:26-33 | each shoulders entry is under "Shoulders" with a known equipment option, and its name's key maps back to its own position (which certifies the names distinct) |
| DefaultCatalog.ArmsChecked | src/data/defaultExercises.ts:36-45 | each arms entry is under "Arms" with a known equipment option, and its name's key maps back to its own position (which certifies the names distinct) |
| DefaultCatalog.LegsChecked | src/data/defaultExercises.ts:48-56 | each legs entry is under "Legs" with a known equipment option, and its name's key maps back to its own position (which certifies the names distinct) |
| DefaultCatalog.CoreChecked | src/data/defaultExercises.ts:59-63 | each core entry is under "Core" with a known equipment option, and its name's key maps back to its own position (which certifies the names distinct) |
| DefaultCatalog.DefaultCatalogShape | src/data/defaultExercises.ts:1-64 | 51 entries, each under its own heading; every group is one of the seven headings of the catalog screen, every equipment one of its six options |
| DefaultCatalog.DefaultNamesDistinct | src/data/defaultExercises.ts:1-64 | no two built-in names differ only in letter case |
| DefaultCatalog.DefaultsPassGuard | src/data/defaultExercises.ts:1-64 | entered one by one through the duplicate guard, every built-in entry is accepted |
| Library.TemplatePreview | src/components/LibraryView.tsx:88-97 | the first three exercise names in order (fewer when there are fewer), and a "+k more" line exactly when there are more than three |
| Library.PreviewCoversAll | src/components/LibraryView.tsx:93-97 | the names listed plus the count the "+k more" line announces add up to the template's exercises |
| Library.TemplatesContent | src/components/LibraryView.tsx:57-65 | the empty state exactly when there are no templates; otherwise one preview per template, in order |
| Library.InGroupEmptyIff | src/components/LibraryView.tsx:120 | a group has entries exactly when some catalog entry carries that group |
| Library.GroupStepMatches | src/components/LibraryView.tsx:120-121 | one `reduce` step keeps the accumulator's keys the distinct groups in first-seen order, each holding exactly its entries |
| Library.GroupingCorrect | src/components/LibraryView.tsx:119-123 | the `reduce` over the whole catalog holds each group once, in first-seen order, with exactly its entries |
| Library.InGroupSize | src/components/LibraryView.tsx:120-121 | a group's array is as long as the number of entries carrying that group |
| Library.LibraryGroupKeys | src/components/LibraryView.tsx:118-124 | the listed groups are the catalog's distinct muscle groups, in first-seen order |
| Library.LibraryGroupContents | src/components/LibraryView.tsx:118-124 | each listed group holds exactly the catalog's entries of that group, in order, and is not empty |
| Library.LibraryGroupSizes | src/components/LibraryView.tsx:118-124 | the groups together hold as many entries as the catalog |
| Library.LibraryGroupsPartition | src/components/LibraryView.tsx:118-124 | every catalog entry is listed, and only under its own muscle group |
| Library.GroupByMuscle | src/components/LibraryView.tsx:119-123 | the loop builds the grouped listing: distinct groups in first-seen order, holding the whole catalog between them |
| FinishWorkout.HandleFinish | src/components/FinishWorkoutModal.tsx:33-45 | update exactly when "update" is chosen for a workout from a template; save under the typed name and current exercises exactly when "new" is chosen with a name that is not blank; the missing-name alert exactly when "new" is chosen with a blank name; otherwise just finish |
| FinishWorkout.UpdateOptionShown | src/components/FinishWorkoutModal.tsx:65 | the "update" option is shown only for a workout from a template, once it was changed |
| FinishWorkout.ShownUpdateUpdates | src/components/FinishWorkoutModal.tsx:65 | whenever the "update" option is shown, choosing it updates the template |
| FinishWorkout.FinishDialog.constructor | src/components/FinishWorkoutModal.tsx:30-31 | the dialog opens with "just finish" chosen and no name typed |
| FinishWorkout.FinishDialog.Select | src/components/FinishWorkoutModal.tsx:71 | choosing an option keeps the typed name |
| FinishWorkout.FinishDialog.NameChanged | src/components/FinishWorkoutModal.tsx:93 | typing keeps the chosen option |
| FinishWorkout.FinishDialog.FinishClicked | src/components/FinishWorkoutModal.tsx:113 | the Finish button produces the decision for the dialog's current choice and name |
| History.FormatDuration | src/components/WorkoutsView.tsx:30-36 | the text ends in "m" and has an hour field exactly from 3600 seconds on |
| History.ReadMinuteForm | src/components/WorkoutsView.tsx:32 | "{mins}m" reads back as mins |
| History.ReadHourForm | src/components/WorkoutsView.tsx:33-35 | "{H}h {M}m" with M below 60 reads back as 60H + M minutes |
| History.DurationRoundTrip | src/components/WorkoutsView.tsx:30-36 | a non-negative duration reads back as its whole minutes: only leftover seconds are dropped |
| History.SameTextSameMinutes | src/components/HistoryView.tsx:29-35 | two non-negative durations show the same text exactly when they have the same whole minutes |
| History.HourFields | src/components/WorkoutDetailView.tsx:30-36 | from an hour on, the text is "{H}h {M}m" with H at least 1, M below 60 and 60H + M the whole minutes |
| History.NegativeDuration | src/components/HistoryView.tsx:30-31 | minutes are floored: -1 second shows "-1m" |
| History.LogListView | src/components/WorkoutsView.tsx:54-76 | the empty state exactly when there are no logs; otherwise one card per log, in order, showing its name, exercise count and duration and selecting that log when clicked |
| History.SetRows | src/components/WorkoutDetailView.tsx:80-87 | one row per set in set order, numbered 1 to n, with the set's weight and reps, and "✓" exactly for completed sets, "-" for the others |
| History.ChecksCountCompleted | src/components/WorkoutDetailView.tsx:85 | the table shows as many check marks as there are completed sets |
| History.DetailOf | src/components/WorkoutDetailView.tsx:38-89 | the delete button passes exactly the shown log's id; one section per exercise entry, in order, with its set rows |
| Sync.Age | src/components/SyncIndicator.tsx:24-38 | no last sync is "never"; under a minute, clock skew included, is "just now"; under an hour, whole minutes from 1 to 59; under a day, whole hours from 1 to 23; a day or more, the date |
| Sync.ReadCountAgo | src/components/SyncIndicator.tsx:32-35 | "{n}m ago" and "{n}h ago" read back as n minutes and n hours |
| Sync.AgeTextRoundTrip | src/components/SyncIndicator.tsx:25-35 | every bucket but the date reads back from its text, so the badge names its bucket and its count |
| Sync.FormatLastSync | src/components/SyncIndicator.tsx:24-38 | a day or more shows the locale date; every other text reads back as its bucket and count |
| Sync.Indicator | src/components/SyncIndicator.tsx:40-63 | "Offline" exactly when offline; "Syncing..." exactly when online and syncing; otherwise the last-sync text |
| Text.Trim | src/App.tsx:25 | the trimmed text is empty exactly when the input is all whitespace, and otherwise neither starts nor ends with whitespace |
| Text.ToLower | src/components/CreateTemplateView.tsx:36 | same length, each character lower-cased |
| Text.ContainsIffOccurs | src/components/CreateTemplateView.tsx:36 | `includes` holds exactly when the needle occurs at some position |
| Text.PadStart | src/components/WorkoutView.tsx:38 | the padded text is at least the width, ends with the original and is filled before it |
| Text.ParseNatRoundTrip | src/components/WorkoutView.tsx:38 | a number's decimal text reads back as that number |

The three copies of `formatDuration` are identical. WorkoutsView, HistoryView
and WorkoutDetailView all use `History.FormatDuration`: WorkoutsView at
src/components/WorkoutsView.tsx:30-36, HistoryView at
src/components/HistoryView.tsx:29-35, WorkoutDetailView at
src/components/WorkoutDetailView.tsx:30-36. HistoryView's card list
(src/components/HistoryView.tsx:41-64) is `History.LogListView` as well.

## Left out

- Sync service and authentication (src/lib/syncService.ts, src/components/AuthView.tsx): network and storage calls; syncService.ts and AuthView.tsx are not part of this model.
- Date handling: parsing ISO date strings, `setHours`/`setDate`, time zones, `toISOString` heatmap labels, and `toLocaleDateString`/`toLocaleTimeString`. Each log carries its day offset and time of day, and the locale date text is a parameter. The "Today"/"Yesterday" date labels of the list and detail screens are not modelled.
- `getAvgWorkoutsPerWeek` (src/components/DashboardView.tsx:90-98): floating-point division printed with `toFixed`.
- IEEE floating-point rounding: weights, reps and volumes are exact reals.
- Unicode case folding: `toLowerCase` is modelled for ASCII letters only, and `trim` for the common whitespace characters.
- `Object.entries` order for integer-like keys: the records are modelled in insertion order, which is the order for names that are not integer-like.
- Dashboard.GetBestPRs: names that are `Object.prototype` properties ("constructor", "toString", "__proto__", ...) are treated as ordinary names. In the source `{}` record they read as inherited values, so such a name records no PR, and an assignment to `__proto__` is lost.
- Profile.TallyCorrect: names that are `Object.prototype` properties are counted like any other name. In the source the inherited value turns that count into a string and the sort comparator into NaN.
- Profile.GetMostFrequentExercise: the same `Object.prototype` names are ranked like any other name, for the reason given for `Profile.TallyCorrect`.
- Library.GroupByMuscle: a muscle group that is an `Object.prototype` property ("toString", "constructor", ...) is grouped like any other. In the source it skips the `[]` initialisation and `push` throws a TypeError.
- The active-workout state machine (adding and removing sets, the rest timer, finishing and cancelling): its handlers live in the parent, which is not part of this model. Only the screen's computations and guards are modelled.
- The 200 ms delay before the suggestion list hides on blur.
- The browser's `online`/`offline` event listeners of the sync badge: the online flag is a parameter of `Sync.Indicator`.
- `alert` and the parents' callbacks are results of the handlers, not calls.
- The JSON export download of the profile screen and the circular progress drawing: browser download and floating-point geometry.
- The `hasChanges` summary lists of the finish dialog: display only.
- The sync badge's date text comes from the locale and is not read back: a locale date that looked like "5m ago" would not be told apart.
