# Workout planner: the application store and its persistence gateway

This project models the logic of a single-page workout planner. A user assigns one of a few
workouts to calendar dates, then edits the exercises of a workout. They mark a date's workout
as done, and they remove workouts from a date or from a whole month, except the done ones.

One state record, the store, holds the data and the UI flags. The store's actions rewrite it.
A persistence gateway stores the data either remotely or in the browser's local storage.

The model covers these parts:

- **Domain** (`domain.dfy`):
  - the `Exercise`, `Workout` and `WorkoutAssignment` records;
  - the seed workouts `DEFAULT_WORKOUTS`;
  - the `find`/`some`/`filter` lookups every component uses.
- **Store rules** (`store_rules.dfy`):
  - the pure rules inside the store's actions;
  - the numeric clamp and the min-to-max auto-adjust of an exercise edit;
  - the map over workouts that applies that edit;
  - the selection a date implies;
  - the list updates of assigning, marking done, removing a date and removing a month's pending workouts.
- **Store** (`workout_store.dfy`):
  - the store as a class whose twelve fields are the state record;
  - one method per action, all going through `Set`, which models zustand's `set`.
  - Each gateway call either succeeds or fails. The outcome is a parameter of the action, and every action returns the calls it issued.
- **Local storage** (`database.dfy`): the browser-storage service as a class holding two storage entries, with its ten methods.
- **Remote service** (`remote.dfy`):
  - the backend choice;
  - the remote service's row mappings;
  - the date range of its month delete.
- **Components**: the pure handlers and derived flags of the top-level component (`app.dfy`), the month grid and date predicates of the calendar (`calendar.dfy`), and the month listing (`monthly_schedule.dfy`).
- **Support modules**:
  - `collections.dfy`: `filter`, `findIndex`, `find`, upsert-by-key, unique keys;
  - `strings.dfy`: digits, `String(n)`, `padStart`, JavaScript's string `<`, `parseInt`, `parseFloat`;
  - `dates.dfy`: Gregorian day numbers, the weekday, the `YYYY-MM-DD` strings, the month cursor.

Dates are plain values: (year, 0-based month, day) and ISO strings. The month cursors of the store are `(year, month)` pairs, and the week cursor is a day number.

The source uses the same `done` flag in two ways. The store's `markWorkoutAsDone` sets it on
every assignment with the date. The browser storage's `updateAssignmentDone` sets it only on
the first such assignment. The two agree exactly when there is at most one assignment per date
(`StoreRules.SetDoneMatchesStorage`, `StoreRules.SetDoneDiffersOnDuplicates`). Every store
action except `loadData` keeps that invariant (`Store.Valid`). `loadData` takes whatever the
gateway returns, which may repeat a date.

## Model

| member | source | states |
|---|---|---|
| Domain.FindAssignment | src/stores/workoutStore.ts:182 | The found assignment is the first entry with the date, as `find` returns; it is absent exactly when no entry has the date. |
| Domain.FindWorkout | src/stores/workoutStore.ts:184 | The found workout is the first workout with the id, as `find` returns; it is absent exactly when no workout has the id. |
| Domain.WithoutDate | src/stores/workoutStore.ts:205 | No entry of the result has the date, every result entry is an old entry, and every old entry on another date is kept. |
| Domain.SeedWorkoutIds | src/types.ts:22-62 | The seed list has four workouts with pairwise distinct ids. |
| Domain.SeedExerciseIds | src/types.ts:27-59 | The fifteen seed exercises have pairwise distinct ids across all four workouts. |
| Domain.SeedExercisesWellFormed | src/types.ts:27-59 | Every seed exercise writes sets, min reps and max reps as whole numbers of at least 1, with min at most max, and its weight as such a number or "body"; hence every numeric field reads at least 1 except "body". |
| Strings.ParseDigits | src/stores/workoutStore.ts:136 | `parseInt` and `parseFloat` read a plain run of decimal digits as its value. |
| Strings.ParseIntPositiveThenFloat | src/stores/workoutStore.ts:136-146 | A string `parseInt` reads as a positive integer is read by `parseFloat` as a number at least that large, so the clamp never replaces it. |
| Strings.LexDigits | src/components/Calendar.tsx:71-73 | On digit strings of one length, string `<` is numeric `<`. |
| Strings.Pad2Digits | src/components/Calendar.tsx:55 | `String(n).padStart(2, '0')` for n below 100 is two digits worth n. |
| Dates.DayZeroOfNextMonth | src/components/Calendar.tsx:42-43 | Day 0 of the next month is the last day of the month: the day numbers differ by the month length. |
| Dates.MonthStepsAreInverse | src/stores/workoutStore.ts:319-341 | One month back undoes one month forward and the other way round. |
| Dates.IsoOrder | src/components/Calendar.tsx:71-73 | On `YYYY-MM-DD` strings, string `<` is the order of (year, month, day), and equality is equality of the fields. |
| Dates.DateStringRoundTrip | src/components/Calendar.tsx:55 | A date string the calendar builds for a valid date of a four-digit year parses back to that date. |
| Collections.FirstIndexIs | src/services/database.ts:210 | `findIndex` yields the least index whose entry matches. |
| Collections.UpsertKeepsUniqueKeys | src/services/database.ts:234-243 | Overwriting the first entry with the key, or pushing when there is none, keeps keys unique. |
| Collections.UpsertIdempotent | src/services/database.ts:208-217 | Saving the same entry twice is saving it once. |
| Collections.UpsertAsFilterAppend | src/stores/workoutStore.ts:205-208 | Under unique keys, dropping the key and appending holds the same entries as overwriting in place. |
| Collections.FilterPartition | src/services/database.ts:254-258 | What a filter keeps and what its complement keeps together are the old list, as a multiset and in count. |
| Database.DoneUpdated | src/services/database.ts:245-252 | No update exactly when no entry has the date; otherwise only the first entry with the date gets the flag and every other entry is unchanged. |
| Database.LocalStorageService.constructor | src/services/database.ts:198 | Fresh storage has neither entry and both loads return the empty list. |
| Database.LocalStorageService.SaveWorkouts | src/services/database.ts:199-201 | The workouts entry holds the list and the assignments entry is unchanged; loading it back returns the list. |
| Database.LocalStorageService.LoadWorkouts | src/services/database.ts:203-206 | The saved list, or the empty list when nothing was saved. |
| Database.LocalStorageService.SaveWorkout | src/services/database.ts:208-217 | The entry becomes the old list with the first workout of the same id replaced in its slot, or the workout pushed at the end. |
| Database.LocalStorageService.DeleteWorkout | src/services/database.ts:219-223 | The entry becomes the old list without every workout with the id, in order. |
| Database.LocalStorageService.SaveAssignments | src/services/database.ts:225-227 | The assignments entry holds the list and the workouts entry is unchanged. |
| Database.LocalStorageService.LoadAssignments | src/services/database.ts:229-232 | The saved list, or the empty list when nothing was saved. |
| Database.LocalStorageService.SaveAssignment | src/services/database.ts:234-243 | The entry becomes the upsert by date of the old list; one assignment per date is preserved. |
| Database.LocalStorageService.UpdateAssignmentDone | src/services/database.ts:245-252 | Storage is not written when no entry has the date; otherwise it holds the list with only the first such entry flagged. |
| Database.LocalStorageService.DeleteAssignment | src/services/database.ts:254-258 | The entry becomes the old list without every assignment on the date. |
| Database.LocalStorageService.DeleteAssignmentsByMonth | src/services/database.ts:260-267 | The entry becomes the old list without the assignments dated in the month. |
| Database.DeleteByMonthExact | src/services/database.ts:260-267 | No kept entry is in the month, every entry outside it is kept, and kept plus in-month is the old list. |
| Database.DeleteByKeyExact | src/services/database.ts:219-223 | No kept entry has the key, and kept plus deleted is the old list. |
| Remote.SelectBackend | src/services/database.ts:271-273 | Browser storage exactly when the project URL or the key is empty. |
| Remote.DoneOrFalse | src/services/database.ts:124 | `done \|\| false` is true exactly for a present true flag. |
| Remote.SingleRowRoundTrip | src/services/database.ts:128-139 | A row written by `saveAssignment` reads back with the same date, workout and done state; a present flag reads back unchanged. |
| Remote.BulkRowLosesDone | src/services/database.ts:97-100 | A row `saveAssignments` writes carries no flag. When it inserts a new row, that row reads back as not done. An existing row keeps its stored flag, which is not part of this model. |
| Remote.RangeEndFields | src/services/database.ts:182-183 | For a four-digit year the range ends are ISO dates with fields (y, m + 1, 1) and (y, m + 1, 31). |
| Remote.MonthRangeMatchesMonth | src/services/database.ts:182-189 | For a four-digit year, a valid date lies in the range exactly when it lies in the month. |
| Remote.RangeDeleteMatchesLocal | src/services/database.ts:185-189 | On valid dates of a four-digit year, the remote and the local month deletes keep the same list. |
| Remote.RangeCoversNonDates | src/services/database.ts:182-189 | The string "2024-02-30" is no date, so the local filter keeps it, but the remote range for February 2024 deletes it. |
| StoreRules.FieldNamed | src/stores/workoutStore.ts:142 | A property name outside the six exercise properties names no tracked field. |
| StoreRules.ClampResult | src/stores/workoutStore.ts:134-140 | A clamped numeric value is a number at least 1 or text that is no number; other fields and non-numbers are stored as typed; the result is "1" or the input. |
| StoreRules.ClampKeepsAccepted | src/stores/workoutStore.ts:134-140 | A value of at least 1, or no number at all, is stored as typed. |
| StoreRules.ClampIdempotent | src/stores/workoutStore.ts:134-140 | Clamping twice is clamping once. |
| StoreRules.ClampReplacesBelowOne | src/stores/workoutStore.ts:134-140 | The value changes exactly for a numeric field whose value `parseFloat` reads below 1, other than "1". |
| StoreRules.IdeographicSpaceClamped | src/stores/workoutStore.ts:136-139 | `parseFloat` skips leading Unicode space separators: an ideographic space before "0" reads as 0, so the clamp stores "1". |
| StoreRules.SeedClampFixpoint | src/stores/workoutStore.ts:134-152 | Writing a seed exercise's own value back into a numeric field changes nothing. |
| StoreRules.ShapedClampFixpoint | src/stores/workoutStore.ts:134-152 | The same for every exercise with ordered reps and numeric fields at least 1 or text. |
| StoreRules.SetFieldRoundTrip | src/stores/workoutStore.ts:142 | The spread update stores the value in its field, and writing a field's own value is the identity. |
| StoreRules.AutoAdjustRule | src/stores/workoutStore.ts:144-152 | A min-reps edit stores the clamped value; max reps become that same string exactly under the auto-adjust condition; other fields stay. |
| StoreRules.AutoAdjustOrders | src/stores/workoutStore.ts:144-152 | Against a positive integer max, a min-reps edit never leaves min above max. |
| StoreRules.EditOtherFields | src/stores/workoutStore.ts:142-154 | An edit of another field only sets that field to its clamped value. |
| StoreRules.UpdateTouchesOnlyTarget | src/stores/workoutStore.ts:126-160 | Lengths, order, ids and names are kept; a workout with another id is unchanged. |
| StoreRules.UpdateEditsTarget | src/stores/workoutStore.ts:126-160 | Each exercise becomes its edit when it and its workout have the ids, and stays otherwise. |
| StoreRules.UpdateKeepsIds | src/stores/workoutStore.ts:126-160 | Unless the id field is edited, workout ids stay unique and every exercise keeps its id. |
| StoreRules.SelectedFollowsEdit | src/stores/workoutStore.ts:162-169 | A selection with the edited id becomes the first updated workout with that id when one exists. A stale selection whose id no workout has is kept, and so is any other selection. |
| StoreRules.SelectionForDate | src/stores/workoutStore.ts:180-188 | The selected workout is named by an assignment on the date; none without an assignment; none exactly when the first assignment names an unknown workout. |
| StoreRules.AssignReplaces | src/stores/workoutStore.ts:198-208 | The new assignment is last and alone on its date; every entry on another date is kept in order before it. |
| StoreRules.AssignKeepsOnePerDate | src/stores/workoutStore.ts:205-208 | Assigning keeps at most one assignment per date. |
| StoreRules.AssignMatchesStorage | src/stores/workoutStore.ts:204-208 | Under one assignment per date, the store's list and the storage's list hold the same assignments. |
| StoreRules.SetDoneOnlyFlag | src/stores/workoutStore.ts:379-383 | Only the flag changes, on exactly the entries with the date; dates, workouts and length stay. |
| StoreRules.SetDoneMatchesStorage | src/stores/workoutStore.ts:378-383 | Under one assignment per date, the store's update and the storage's update give the same list, and neither changes a list without the date. |
| StoreRules.SetDoneDiffersOnDuplicates | src/services/database.ts:245-252 | With two entries on one date the storage flags only the first while the store flags both. |
| StoreRules.GuardProtectsDone | src/stores/workoutStore.ts:225-237 | Under one assignment per date, a remove that passes the guard keeps every done assignment. |
| StoreRules.RemoveClearsDate | src/stores/workoutStore.ts:233-237 | No entry on the date remains, every other entry is kept, and removed plus kept is the old count. |
| StoreRules.RemoveKeepsOnePerDate | src/stores/workoutStore.ts:256-258 | Removing a date keeps at most one assignment per date. |
| StoreRules.PendingIsDirectFilter | src/stores/workoutStore.ts:271-277 | The pending list is the month's not-done entries of the whole list. |
| StoreRules.RemoveAllExact | src/stores/workoutStore.ts:296-303 | No pending entry of the month remains; every done or out-of-month entry is kept; exactly the pending entries go. |
| StoreRules.RemoveAllKeepsOnePerDate | src/stores/workoutStore.ts:296-303 | Removing the pending entries keeps at most one assignment per date. |
| StoreRules.RemoveAllCounts | src/stores/workoutStore.ts:277-278 | Pending plus completed is the month's total. |
| StoreRules.NothingPendingKeepsAll | src/stores/workoutStore.ts:280-287 | With nothing pending the month filter keeps the whole list. |
| WorkoutStore.DeleteCalls | src/stores/workoutStore.ts:291-293 | One delete per entry, by its date, in order. |
| WorkoutStore.IssuedCount | src/stores/workoutStore.ts:291-293 | At most all deletes are issued, and all of them exactly when none before the last throws. |
| WorkoutStore.IssueDeletes | src/stores/workoutStore.ts:289-293 | The loop succeeds exactly when no delete throws; it issues the deletes of the pending entries in order up to and including the one that throws. |
| WorkoutStore.Store.constructor | src/stores/workoutStore.ts:64-78 | The initial record: the seed workouts, no assignments, today selected, loading, no error, no modal, no toast. |
| WorkoutStore.Store.Set | src/stores/workoutStore.ts:63 | The record becomes the given one. |
| WorkoutStore.Store.ShowToast | src/stores/workoutStore.ts:372-374 | The toast is shown, the error cleared, and nothing else changes. |
| WorkoutStore.Store.LoadData | src/stores/workoutStore.ts:97-121 | Two load calls. Loaded: the workouts, or the seed when the list is empty, and the assignments. Failed: the error set and each browser-storage entry present taken over. Always ends not loading. |
| WorkoutStore.Store.UpdateExercise | src/stores/workoutStore.ts:123-178 | The edit and the selection follow at once, whatever the outcome; one save call; a failed save writes the list to the workouts entry of browser storage; one assignment per date is kept. |
| WorkoutStore.Store.SelectDate | src/stores/workoutStore.ts:180-188 | The date is selected with the workout of its first assignment; nothing else changes. |
| WorkoutStore.Store.SelectWorkout | src/stores/workoutStore.ts:190-192 | The workout is selected and the modal opens; nothing else changes. |
| WorkoutStore.Store.AssignWorkout | src/stores/workoutStore.ts:194-219 | No call and no change without a date and a workout. Otherwise one save call. On success the date's entries are replaced by the new one at the end, the modal closes and the toast says whether it replaced one. On failure only the error is set. One assignment per date is kept. |
| WorkoutStore.Store.RemoveWorkout | src/stores/workoutStore.ts:221-243 | No change without a date. A done first assignment gives only the refusal toast and no call. Otherwise one delete call. On success the date's entries go, the selection clears, the modal closes and the removal toast shows. On failure only the error is set. |
| WorkoutStore.Store.RemoveWorkoutFromSchedule | src/stores/workoutStore.ts:245-263 | The same guard. Otherwise one delete call. On success only the date's entries go. On failure only the error is set. |
| WorkoutStore.Store.RemoveAllWorkoutsFromSchedule | src/stores/workoutStore.ts:265-317 | Nothing pending: no call, and the toast says whether completed workouts were preserved. Otherwise the pending deletes in order until one throws. If all succeed, the month's pending entries go and the toast gives the counts. If one fails, only the error is set. |
| WorkoutStore.Store.MarkWorkoutAsDone | src/stores/workoutStore.ts:376-389 | One update call. On success every entry on the date gets the flag and the toast shows. On failure only the error is set. One assignment per date is kept. |
| WorkoutStore.Store.ChangeMonth | src/stores/workoutStore.ts:319-329 | The planner month moves one month back or forward; nothing else changes. |
| WorkoutStore.Store.ChangeScheduleMonth | src/stores/workoutStore.ts:331-341 | The schedule month moves one month back or forward; nothing else changes. |
| WorkoutStore.Store.ChangeScheduleWeek | src/stores/workoutStore.ts:343-353 | The schedule week moves seven days back or forward; nothing else changes. |
| WorkoutStore.Store.GoToToday | src/stores/workoutStore.ts:355-360 | The planner month becomes today's and today is selected as `selectDate` would. |
| WorkoutStore.Store.GoToTodaySchedule | src/stores/workoutStore.ts:362-365 | The schedule month becomes today's; nothing else changes. |
| WorkoutStore.Store.GoToTodayWeekSchedule | src/stores/workoutStore.ts:367-370 | The schedule week becomes today; nothing else changes. |
| App.FindExercise | src/App.tsx:72-75 | The result is the first exercise with the id in the first workout with the workout id. It is absent exactly when there is no such workout or that workout has no such exercise. |
| App.BlurTrigger | src/App.tsx:71-84 | The correction fires exactly when the exercise is found, both values are integers, the typed max is below min and min is positive. It writes min reps into max reps. A non-number, an unknown workout or an unknown exercise gives none. |
| App.BlurResult | src/App.tsx:79-81 | Through the store's edit, the correction leaves max reps equal to min reps, in order. |
| App.MinIntoMax | src/App.tsx:81 | Copying a positive integer min into max is stored as is and leaves the reps ordered. |
| App.BlurUpdatesTarget | src/App.tsx:81 | The correction changes the found exercise of the matching workout to have max reps equal to min reps. |
| App.SaveWorkoutChanges | src/App.tsx:86-91 | Without a date and a workout nothing changes; otherwise the modal closes and the edited toast shows, and nothing else changes. |
| App.MarkAsDoneCall | src/App.tsx:99-103 | The store call is made exactly when a details date is set, with that date and flag. |
| App.DerivedFlags | src/App.tsx:105-117 | Assigned exactly when some entry has the selected date; done only when assigned, and never for an absent flag. |
| Calendar.GetDaysInMonth | src/components/Calendar.tsx:38-60 | The two loops build the month grid: as many blanks as the weekday of the 1st, then the month length's date strings. |
| Calendar.LastDayOfMonth | src/components/Calendar.tsx:42-43 | Day 0 of the next month gives the month length. |
| Calendar.GridCell | src/components/Calendar.tsx:49-57 | Cell i is blank for i below the blank count and otherwise the date string of day i - blanks + 1. |
| Calendar.GridDatesParse | src/components/Calendar.tsx:55 | For a four-digit year every day cell parses back to its own date in the month. |
| Calendar.GridDaysIncrease | src/components/Calendar.tsx:54-57 | For a four-digit year later day cells are later in string order. |
| Calendar.CompletedImpliesAssigned | src/components/Calendar.tsx:62-69 | A completed date has a workout; a first assignment without a flag is not completed; has-workout is membership. |
| Calendar.ClickedDate | src/components/Calendar.tsx:118 | A click selects only its own date. |
| Calendar.PastDatesNotSelectable | src/components/Calendar.tsx:71-73 | A click selects nothing exactly for a past date; on ISO dates "past" is the order of the fields. |
| MonthlySchedule.InsertByKey | src/components/MonthlySchedule.tsx:57 | One entry longer, with the same elements plus the inserted one. |
| MonthlySchedule.InsertKeepsSorted | src/components/MonthlySchedule.tsx:57 | Inserting into a sorted list keeps it sorted. |
| MonthlySchedule.SortByKey | src/components/MonthlySchedule.tsx:57 | The sort is a permutation. |
| MonthlySchedule.SortSorted | src/components/MonthlySchedule.tsx:57 | The sort's result is ascending by key. |
| MonthlySchedule.ListingIsTheMonth | src/components/MonthlySchedule.tsx:48-62 | One row per assignment of the month, each built from it, and the month's assignments are exactly the entries in the month. |
| MonthlySchedule.EntryFields | src/components/MonthlySchedule.tsx:58-62 | A row is done exactly for a present true flag, and its workout is the listed one with the id or none. |
| MonthlySchedule.ListingSorted | src/components/MonthlySchedule.tsx:57 | The rows are in ascending date order, as days and as strings. |
| MonthlySchedule.KeyOrderInMonth | src/components/MonthlySchedule.tsx:57 | Within one month, key order is day order and string order. |
| MonthlySchedule.RemoveAllShown | src/components/MonthlySchedule.tsx:121 | "Remove All" shows exactly when the month has at least two assignments. |

## Left out

- Asynchrony: every action is one atomic step. The model leaves out `await` ordering, `Promise.all` and interleaved actions. It also leaves out the stale snapshot `assignWorkout` reads before its await, because with atomic actions that snapshot equals the state.
- `migrateFromLocalStorage`, the Supabase client and the network bodies of the remote service are foreign calls, so they are left out. The gateway is a success or failure outcome per call, and only the remote row mappings and date-range strings are modelled.
- The model leaves out JSON serialisation, the `persist` and `devtools` middleware and `console` logging. A saved list is the stored value itself.
- Toast text: `formatDate` and `toLocaleDateString` are not part of this model. A toast is the kind of message together with the data its text is built from.
- JavaScript `Date`: the model takes dates and cursors as integers. It leaves out time zones (`toISOString` in UTC, getters in local time), `setMonth` day rollover (31 January plus a month), and how engines treat out-of-range date strings. A date string that fails to parse is in no month.
- Strings.ParseInt: hexadecimal prefixes are not modelled, because the store only reads reps typed by the user.
- Strings.ParseFloat: exponents and `Infinity` are not modelled. Values are exact rationals, not binary floating point.
- StoreRules.FieldNamed: a name outside the six properties leaves the exercise unchanged. The source then adds a new property, which the closed record type cannot hold.
- MonthlySchedule.SortByKey: JavaScript's `sort` is stable, but the model does not prove stability, only the permutation and the order.
- WorkoutStore.Store.LoadData: one failed load stands for a failure of either load. The one-per-date invariant is not claimed after loading, because loaded data comes from outside.
- The model leaves out the plain setters, `scheduleView` and `currentView`, because they only write one field.
- `WeeklySchedule`, the presentation components and the styling are left out, because they depend on week functions that are not part of this model.
- The store and the storage service of this model are separate objects. In the source, the local-storage gateway is the store's `databaseService` when no remote backend is configured. The model does not link the store's assignments to the storage's entry.
