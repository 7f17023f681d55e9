/** The application store (src/stores/workoutStore.ts): one record of state
    that the named actions overwrite. Every call on the persistence gateway
    either succeeds or fails; an action receives the outcome as a parameter
    and returns the calls it issued, in order. Each action runs atomically. */
module WorkoutStore {
  import opened Collections
  import opened Dates
  import opened Domain
  import opened Database
  import opened StoreRules

  /** The toast an action shows, by kind and the data its text is built from;
      the text itself depends on date formatting that is not part of this model. */
  datatype Toast =
    | NoToast
    | WorkoutAssigned(workoutName: string, date: string, replaced: bool)
    | CannotDeleteCompleted
    | WorkoutRemoved(date: string)
    | NoIncompleteToRemove
    | NoWorkoutsToRemove
    | IncompleteRemoved(removed: nat, preserved: nat, month: MonthCursor)
    | AllRemoved(removed: nat, month: MonthCursor)
    | MarkedDone(done: bool)
    | WorkoutEdited(workoutName: string, date: string)

  const LOAD_ERROR := "Failed to load data from database"
  const ASSIGN_ERROR := "Failed to assign workout"
  const REMOVE_ERROR := "Failed to remove workout"
  const REMOVE_ALL_ERROR := "Failed to remove workouts"
  const MARK_ERROR := "Failed to update workout status"

  /** What the two loads of `loadData` return, or that one of them failed. */
  datatype LoadOutcome = Loaded(workouts: seq<Workout>, assignments: seq<WorkoutAssignment>) | LoadFailed

  /** A snapshot of every field of the store. */
  datatype StoreState = StoreState(
    workouts: seq<Workout>,
    workoutAssignments: seq<WorkoutAssignment>,
    selectedDate: Option<string>,
    selectedWorkout: Option<Workout>,
    currentMonth: MonthCursor,
    scheduleMonth: MonthCursor,
    scheduleWeek: int,
    isLoading: bool,
    error: Option<string>,
    isModalOpen: bool,
    toastVisible: bool,
    toastMessage: Toast)

  /** The state after `showToast`. */
  function WithToast(st: StoreState, t: Toast): StoreState
  {
    st.(toastMessage := t, toastVisible := true, error := None)
  }

  /** The state after a failed gateway call: only the error is set. */
  function WithError(st: StoreState, message: string): StoreState
  {
    st.(error := Some(message))
  }

  /** `!selectedDate`: absent or the empty string. */
  predicate NoDate(d: Option<string>)
  {
    d.None? || d.value == ""
  }

  /** The delete calls for a list of assignments, one per entry, in order. */
  function DeleteCalls(s: seq<WorkoutAssignment>): (r: seq<GatewayCall>)
    ensures |r| == |s| && forall i :: 0 <= i < |s| ==> r[i] == DeleteAssignmentCall(s[i].date)
  {
    seq(|s|, i requires 0 <= i < |s| => DeleteAssignmentCall(s[i].date))
  }

  /** How many deletes of `removeAllWorkoutsFromSchedule` are issued when the
      one at `failAt` throws: the failing call is issued, the rest are not. */
  function IssuedCount(n: nat, failAt: Option<nat>): (k: nat)
    ensures k <= n
    ensures k == n <==> !(failAt.Some? && failAt.value < n - 1)
  {
    if failAt.Some? && failAt.value < n then failAt.value + 1 else n
  }

  /** The sequential delete loop of `removeAllWorkoutsFromSchedule`: one call
      per pending assignment until one throws. */
  method IssueDeletes(pending: seq<WorkoutAssignment>, failAt: Option<nat>) returns (calls: seq<GatewayCall>, ok: bool)
    ensures ok <==> !(failAt.Some? && failAt.value < |pending|)
    ensures calls == DeleteCalls(pending[..IssuedCount(|pending|, failAt)])
    ensures ok ==> calls == DeleteCalls(pending)
  {
    calls := [];
    ok := true;
    var i := 0;
    while i < |pending| && ok
      invariant 0 <= i <= |pending|
      invariant ok <==> !(failAt.Some? && failAt.value < i)
      invariant ok ==> calls == DeleteCalls(pending[..i])
      invariant !ok ==> i == failAt.value + 1 && calls == DeleteCalls(pending[..i])
    {
      calls := calls + [DeleteAssignmentCall(pending[i].date)];
      assert DeleteCalls(pending[..i + 1]) == DeleteCalls(pending[..i]) + [DeleteAssignmentCall(pending[i].date)];
      if failAt == Some(i) {
        ok := false;
      }
      i := i + 1;
    }
    assert pending[..|pending|] == pending;
  }

  class Store {
    var workouts: seq<Workout>
    var workoutAssignments: seq<WorkoutAssignment>
    var selectedDate: Option<string>
    var selectedWorkout: Option<Workout>
    var currentMonth: MonthCursor
    var scheduleMonth: MonthCursor
    /** The week cursor as a day number; only its ±7-day steps are modelled. */
    var scheduleWeek: int
    var isLoading: bool
    var error: Option<string>
    var isModalOpen: bool
    var toastVisible: bool
    var toastMessage: Toast

    function State(): StoreState
      reads this
    {
      StoreState(workouts, workoutAssignments, selectedDate, selectedWorkout, currentMonth,
                 scheduleMonth, scheduleWeek, isLoading, error, isModalOpen, toastVisible, toastMessage)
    }

    /** The invariant the actions keep: at most one assignment per date. */
    predicate Valid()
      reads this
    {
      OnePerDate(workoutAssignments)
    }

    /** The initial state; `today` and `todayString` stand for `new Date()`
        and its ISO date. */
    constructor(today: MonthCursor, todayDay: int, todayString: string)
      ensures State() == StoreState(DEFAULT_WORKOUTS, [], Some(todayString), None, today, today,
                                    todayDay, true, None, false, false, NoToast)
      ensures Valid()
    {
      workouts := DEFAULT_WORKOUTS;
      workoutAssignments := [];
      selectedDate := Some(todayString);
      selectedWorkout := None;
      currentMonth := today;
      scheduleMonth := today;
      scheduleWeek := todayDay;
      isLoading := true;
      error := None;
      isModalOpen := false;
      toastVisible := false;
      toastMessage := NoToast;
    }

    /** zustand's `set`: overwrite the record. */
    method Set(st: StoreState)
      modifies this
      ensures State() == st
    {
      workouts, workoutAssignments, selectedDate, selectedWorkout := st.workouts, st.workoutAssignments, st.selectedDate, st.selectedWorkout;
      currentMonth, scheduleMonth, scheduleWeek, isLoading := st.currentMonth, st.scheduleMonth, st.scheduleWeek, st.isLoading;
      error, isModalOpen, toastVisible, toastMessage := st.error, st.isModalOpen, st.toastVisible, st.toastMessage;
    }

    /** `showToast`. */
    method ShowToast(t: Toast)
      modifies this
      ensures State() == WithToast(old(State()), t)
    {
      Set(WithToast(State(), t));
    }

    /** `loadData`: load both lists; on failure set the error and fall back to
        whatever the two browser-storage entries hold. Always ends not loading. */
    method LoadData(outcome: LoadOutcome, storage: LocalStorageService) returns (calls: seq<GatewayCall>)
      modifies this
      ensures calls == [LoadWorkoutsCall, LoadAssignmentsCall]
      ensures !isLoading
      ensures outcome.Loaded? ==> State() == old(State()).(
        workouts := if |outcome.workouts| > 0 then outcome.workouts else DEFAULT_WORKOUTS,
        workoutAssignments := outcome.assignments, isLoading := false, error := None)
      ensures outcome.LoadFailed? ==> State() == old(State()).(
        workouts := if storage.workoutsEntry.Some? then storage.workoutsEntry.value else old(workouts),
        workoutAssignments :=
          if storage.assignmentsEntry.Some? then storage.assignmentsEntry.value else old(workoutAssignments),
        isLoading := false, error := Some(LOAD_ERROR))
    {
      Set(State().(isLoading := true, error := None));
      calls := [LoadWorkoutsCall, LoadAssignmentsCall];
      match outcome {
        case Loaded(ws, assignments) =>
          Set(State().(workouts := if |ws| > 0 then ws else DEFAULT_WORKOUTS, workoutAssignments := assignments));
        case LoadFailed =>
          Set(WithError(State(), LOAD_ERROR));
          if storage.workoutsEntry.Some? {
            Set(State().(workouts := storage.workoutsEntry.value));
          }
          if storage.assignmentsEntry.Some? {
            Set(State().(workoutAssignments := storage.assignmentsEntry.value));
          }
      }
      Set(State().(isLoading := false));
    }

    /** `updateExercise`: the edit is applied at once; a failed save writes
        the updated list to the workouts entry of browser storage instead. */
    method UpdateExercise(workoutId: string, exerciseId: string, field: Field, value: string,
                          gatewayOk: bool, storage: LocalStorageService) returns (calls: seq<GatewayCall>)
      modifies this, storage
      ensures var updated := UpdatedWorkouts(old(workouts), workoutId, exerciseId, field, value);
        calls == [SaveWorkoutsCall(updated)]
        && State() == old(State()).(workouts := updated,
             selectedWorkout := SelectedAfterEdit(old(selectedWorkout), updated, workoutId))
        && (gatewayOk ==> storage.workoutsEntry == old(storage.workoutsEntry))
        && (!gatewayOk ==> storage.workoutsEntry == Some(updated))
        && storage.assignmentsEntry == old(storage.assignmentsEntry)
      ensures old(Valid()) ==> Valid()
    {
      var updated := UpdatedWorkouts(workouts, workoutId, exerciseId, field, value);
      Set(State().(workouts := updated, selectedWorkout := SelectedAfterEdit(selectedWorkout, updated, workoutId)));
      calls := [SaveWorkoutsCall(updated)];
      if !gatewayOk {
        storage.SaveWorkouts(updated);
      }
    }

    /** `selectDate`. */
    method SelectDate(date: string)
      modifies this
      ensures State() == old(State()).(selectedDate := Some(date),
        selectedWorkout := SelectionFor(old(workoutAssignments), old(workouts), date))
    {
      Set(State().(selectedDate := Some(date), selectedWorkout := SelectionFor(workoutAssignments, workouts, date)));
    }

    /** `selectWorkout`: select and open the modal. */
    method SelectWorkout(workout: Workout)
      modifies this
      ensures State() == old(State()).(selectedWorkout := Some(workout), isModalOpen := true)
    {
      Set(State().(selectedWorkout := Some(workout), isModalOpen := true));
    }

    /** `assignWorkout`: save the assignment; only on success replace the
        date's entry, close the modal and show the toast. */
    method AssignWorkout(gatewayOk: bool) returns (calls: seq<GatewayCall>)
      modifies this
      ensures NoDate(old(selectedDate)) || old(selectedWorkout).None? ==> calls == [] && State() == old(State())
      ensures !(NoDate(old(selectedDate)) || old(selectedWorkout).None?) ==>
        var date, w := old(selectedDate).value, old(selectedWorkout).value;
        calls == [SaveAssignmentCall(NewAssignment(date, w.id))]
        && (gatewayOk ==> State() == WithToast(old(State()).(
              workoutAssignments := AssignOnDate(old(workoutAssignments), date, w.id), isModalOpen := false),
              WorkoutAssigned(w.name, date, HasAssignment(old(workoutAssignments), date))))
        && (!gatewayOk ==> State() == WithError(old(State()), ASSIGN_ERROR))
      ensures old(Valid()) ==> Valid()
    {
      if NoDate(selectedDate) || selectedWorkout.None? {
        return [];
      }
      var date, w := selectedDate.value, selectedWorkout.value;
      calls := [SaveAssignmentCall(NewAssignment(date, w.id))];
      if gatewayOk {
        var replaced := HasAssignment(workoutAssignments, date);
        if Valid() {
          AssignKeepsOnePerDate(workoutAssignments, date, w.id);
        }
        Set(State().(workoutAssignments := AssignOnDate(workoutAssignments, date, w.id), isModalOpen := false));
        ShowToast(WorkoutAssigned(w.name, date, replaced));
      } else {
        Set(WithError(State(), ASSIGN_ERROR));
      }
    }

    /** `removeWorkout`: refuse a done assignment; otherwise delete the date
        and, on success, clear the selection and close the modal. */
    method RemoveWorkout(gatewayOk: bool) returns (calls: seq<GatewayCall>)
      modifies this
      ensures NoDate(old(selectedDate)) ==> calls == [] && State() == old(State())
      ensures !NoDate(old(selectedDate)) && BlockedByDone(old(workoutAssignments), old(selectedDate).value) ==>
        calls == [] && State() == WithToast(old(State()), CannotDeleteCompleted)
      ensures !NoDate(old(selectedDate)) && !BlockedByDone(old(workoutAssignments), old(selectedDate).value) ==>
        var date := old(selectedDate).value;
        calls == [DeleteAssignmentCall(date)]
        && (gatewayOk ==> State() == WithToast(old(State()).(
              workoutAssignments := WithoutDate(old(workoutAssignments), date),
              selectedWorkout := None, isModalOpen := false), WorkoutRemoved(date)))
        && (!gatewayOk ==> State() == WithError(old(State()), REMOVE_ERROR))
      ensures old(Valid()) ==> Valid()
    {
      if NoDate(selectedDate) {
        return [];
      }
      var date := selectedDate.value;
      if BlockedByDone(workoutAssignments, date) {
        ShowToast(CannotDeleteCompleted);
        return [];
      }
      calls := [DeleteAssignmentCall(date)];
      if gatewayOk {
        if Valid() {
          RemoveKeepsOnePerDate(workoutAssignments, date);
        }
        Set(State().(workoutAssignments := WithoutDate(workoutAssignments, date), selectedWorkout := None,
                     isModalOpen := false));
        ShowToast(WorkoutRemoved(date));
      } else {
        Set(WithError(State(), REMOVE_ERROR));
      }
    }

    /** `removeWorkoutFromSchedule(date)`: the same guard, no toast on success. */
    method RemoveWorkoutFromSchedule(date: string, gatewayOk: bool) returns (calls: seq<GatewayCall>)
      modifies this
      ensures BlockedByDone(old(workoutAssignments), date) ==>
        calls == [] && State() == WithToast(old(State()), CannotDeleteCompleted)
      ensures !BlockedByDone(old(workoutAssignments), date) ==>
        calls == [DeleteAssignmentCall(date)]
        && (gatewayOk ==> State() == old(State()).(workoutAssignments := WithoutDate(old(workoutAssignments), date)))
        && (!gatewayOk ==> State() == WithError(old(State()), REMOVE_ERROR))
      ensures old(Valid()) ==> Valid()
    {
      if BlockedByDone(workoutAssignments, date) {
        ShowToast(CannotDeleteCompleted);
        return [];
      }
      calls := [DeleteAssignmentCall(date)];
      if gatewayOk {
        if Valid() {
          RemoveKeepsOnePerDate(workoutAssignments, date);
        }
        Set(State().(workoutAssignments := WithoutDate(workoutAssignments, date)));
      } else {
        Set(WithError(State(), REMOVE_ERROR));
      }
    }

    /** `removeAllWorkoutsFromSchedule`: delete the schedule month's pending
        assignments one by one; only when every delete succeeds drop them from
        the store, keeping done and out-of-month entries. */
    method RemoveAllWorkoutsFromSchedule(failAt: Option<nat>) returns (calls: seq<GatewayCall>)
      modifies this
      ensures var y, m := old(scheduleMonth).year, old(scheduleMonth).month;
        var pending := Pending(old(workoutAssignments), y, m);
        var completed := |MonthAssignments(old(workoutAssignments), y, m)| - |pending|;
        (|pending| == 0 ==>
           calls == [] && State() == WithToast(old(State()), if completed > 0 then NoIncompleteToRemove else NoWorkoutsToRemove))
        && (|pending| > 0 ==> calls == DeleteCalls(pending[..IssuedCount(|pending|, failAt)]))
        && (|pending| > 0 && !(failAt.Some? && failAt.value < |pending|) ==>
              State() == WithToast(old(State()).(workoutAssignments := RemoveAllInMonth(old(workoutAssignments), y, m)),
                if completed > 0 then IncompleteRemoved(|pending|, completed, old(scheduleMonth))
                else AllRemoved(|pending|, old(scheduleMonth))))
        && (|pending| > 0 && failAt.Some? && failAt.value < |pending| ==>
              State() == WithError(old(State()), REMOVE_ALL_ERROR))
      ensures old(Valid()) ==> Valid()
    {
      var y, m := scheduleMonth.year, scheduleMonth.month;
      var pending := Pending(workoutAssignments, y, m);
      var completed := |MonthAssignments(workoutAssignments, y, m)| - |pending|;
      if |pending| == 0 {
        ShowToast(if completed > 0 then NoIncompleteToRemove else NoWorkoutsToRemove);
        return [];
      }
      var ok;
      calls, ok := IssueDeletes(pending, failAt);
      if ok {
        if Valid() {
          RemoveAllKeepsOnePerDate(workoutAssignments, y, m);
        }
        Set(State().(workoutAssignments := RemoveAllInMonth(workoutAssignments, y, m)));
        ShowToast(if completed > 0 then IncompleteRemoved(|pending|, completed, scheduleMonth)
                  else AllRemoved(|pending|, scheduleMonth));
      } else {
        Set(WithError(State(), REMOVE_ALL_ERROR));
      }
    }

    /** `markWorkoutAsDone(date, done)`: only on success set the flag on every
        entry with the date. */
    method MarkWorkoutAsDone(date: string, done: bool, gatewayOk: bool) returns (calls: seq<GatewayCall>)
      modifies this
      ensures calls == [UpdateAssignmentDoneCall(date, done)]
      ensures gatewayOk ==> State() == WithToast(old(State()).(
        workoutAssignments := SetDoneOnDate(old(workoutAssignments), date, done)), MarkedDone(done))
      ensures !gatewayOk ==> State() == WithError(old(State()), MARK_ERROR)
      ensures old(Valid()) ==> Valid()
    {
      calls := [UpdateAssignmentDoneCall(date, done)];
      if gatewayOk {
        SetDoneOnlyFlag(workoutAssignments, date, done);
        Set(State().(workoutAssignments := SetDoneOnDate(workoutAssignments, date, done)));
        ShowToast(MarkedDone(done));
      } else {
        Set(WithError(State(), MARK_ERROR));
      }
    }

    /** `changeMonth`: one calendar month back or forward. */
    method ChangeMonth(prev: bool)
      modifies this
      ensures State() == old(State()).(currentMonth := if prev then PrevMonth(old(currentMonth)) else NextMonth(old(currentMonth)))
    {
      Set(State().(currentMonth := if prev then PrevMonth(currentMonth) else NextMonth(currentMonth)));
    }

    /** `changeScheduleMonth`. */
    method ChangeScheduleMonth(prev: bool)
      modifies this
      ensures State() == old(State()).(scheduleMonth := if prev then PrevMonth(old(scheduleMonth)) else NextMonth(old(scheduleMonth)))
    {
      Set(State().(scheduleMonth := if prev then PrevMonth(scheduleMonth) else NextMonth(scheduleMonth)));
    }

    /** `changeScheduleWeek`: seven days back or forward. */
    method ChangeScheduleWeek(prev: bool)
      modifies this
      ensures State() == old(State()).(scheduleWeek := if prev then old(scheduleWeek) - 7 else old(scheduleWeek) + 7)
    {
      Set(State().(scheduleWeek := if prev then scheduleWeek - 7 else scheduleWeek + 7));
    }

    /** `goToToday`: jump the planner to today's month and select today. */
    method GoToToday(today: MonthCursor, todayString: string)
      modifies this
      ensures State() == old(State()).(currentMonth := today, selectedDate := Some(todayString),
        selectedWorkout := SelectionFor(old(workoutAssignments), old(workouts), todayString))
    {
      Set(State().(currentMonth := today));
      SelectDate(todayString);
    }

    /** `goToTodaySchedule`: jump the monthly schedule to today's month. */
    method GoToTodaySchedule(today: MonthCursor)
      modifies this
      ensures State() == old(State()).(scheduleMonth := today)
    {
      Set(State().(scheduleMonth := today));
    }

    /** `goToTodayWeekSchedule`: jump the weekly schedule to today. */
    method GoToTodayWeekSchedule(todayDay: int)
      modifies this
      ensures State() == old(State()).(scheduleWeek := todayDay)
    {
      Set(State().(scheduleWeek := todayDay));
    }
  }
}
