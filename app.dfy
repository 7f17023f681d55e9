/** The handlers and derived flags of the top-level component (src/App.tsx)
    that involve logic: the max-reps blur correction, the save and mark-done
    guards, and the two flags read from the assignments. */
module App {
  import opened Collections
  import opened Strings
  import opened Domain
  import opened StoreRules
  import opened WorkoutStore

  /** A call of the store's `updateExercise`. */
  datatype EditCall = EditCall(workoutId: string, exerciseId: string, field: Field, value: string)

  /** `workout?.exercises.find(e => e.id === exerciseId)` after the workout
      lookup: the first exercise with the id in the first workout with the id,
      or none when either is missing. */
  function FindExercise(workouts: seq<Workout>, workoutId: string, exerciseId: string): (r: Option<Exercise>)
    ensures r.Some? ==>
      FindWorkout(workouts, workoutId).Some? && r.value in FindWorkout(workouts, workoutId).value.exercises
      && r.value.id == exerciseId
    ensures r.None? <==>
      FindWorkout(workouts, workoutId).None?
      || forall j :: 0 <= j < |FindWorkout(workouts, workoutId).value.exercises| ==>
           FindWorkout(workouts, workoutId).value.exercises[j].id != exerciseId
    ensures r.Some? ==>
      var es := FindWorkout(workouts, workoutId).value.exercises;
      exists i :: 0 <= i < |es| && es[i] == r.value && forall j :: 0 <= j < i ==> es[j].id != exerciseId
  {
    match FindWorkout(workouts, workoutId)
    case None => None
    case Some(w) =>
      assert forall j :: 0 <= j < |w.exercises| ==>
        KeyIs(ExerciseIdOf, exerciseId)(w.exercises[j]) == (w.exercises[j].id == exerciseId);
      Find(w.exercises, KeyIs(ExerciseIdOf, exerciseId))
  }

  /** `handleMaxRepsBlur(workoutId, exerciseId, value)`: the correction it
      asks the store for, if any. */
  function MaxRepsBlur(workouts: seq<Workout>, workoutId: string, exerciseId: string, value: string): Option<EditCall>
  {
    match FindExercise(workouts, workoutId, exerciseId)
    case None => None
    case Some(e) =>
      var minReps, maxReps := ParseInt(e.minReps), ParseInt(value);
      if minReps.Some? && maxReps.Some? && maxReps.value < minReps.value && minReps.value > 0
      then Some(EditCall(workoutId, exerciseId, MaxRepsField, e.minReps))
      else None
  }

  /** The correction fires exactly when the exercise is found, both values are
      integers, the typed max is below min and min is positive; it always
      writes the exercise's own min-reps string into max reps. */
  lemma BlurTrigger(workouts: seq<Workout>, workoutId: string, exerciseId: string, value: string)
    ensures var r := MaxRepsBlur(workouts, workoutId, exerciseId, value);
      var e := FindExercise(workouts, workoutId, exerciseId);
      (r.Some? <==> e.Some? && ParseInt(e.value.minReps).Some? && ParseInt(value).Some?
                    && ParseInt(value).value < ParseInt(e.value.minReps).value
                    && ParseInt(e.value.minReps).value > 0)
      && (r.Some? ==> r.value == EditCall(workoutId, exerciseId, MaxRepsField, e.value.minReps))
      && (ParseInt(value).None? ==> r.None?)
      && (FindWorkout(workouts, workoutId).None? ==> r.None?)
      && (FindWorkout(workouts, workoutId).Some?
          && (forall j :: 0 <= j < |FindWorkout(workouts, workoutId).value.exercises| ==>
                FindWorkout(workouts, workoutId).value.exercises[j].id != exerciseId)
          ==> r.None?)
  {
  }

  /** Applied through the store, the correction leaves the found exercise with
      max reps equal to its min reps: a positive integer is never clamped, and
      an edit of max reps never triggers the auto-adjust. */
  lemma BlurResult(workouts: seq<Workout>, workoutId: string, exerciseId: string, value: string)
    requires MaxRepsBlur(workouts, workoutId, exerciseId, value).Some?
    ensures var c := MaxRepsBlur(workouts, workoutId, exerciseId, value).value;
      var e := FindExercise(workouts, workoutId, exerciseId).value;
      var r := ApplyEdit(e, c.field, c.value);
      r == e.(maxReps := e.minReps) && RepsOrdered(r)
  {
    var e := FindExercise(workouts, workoutId, exerciseId).value;
    BlurTrigger(workouts, workoutId, exerciseId, value);
    MinIntoMax(e);
  }

  /** Copying a positive integer min reps into max reps. */
  lemma MinIntoMax(e: Exercise)
    requires ParseInt(e.minReps).Some? && ParseInt(e.minReps).value > 0
    ensures ApplyEdit(e, MaxRepsField, e.minReps) == e.(maxReps := e.minReps)
    ensures RepsOrdered(e.(maxReps := e.minReps))
  {
    ParseIntPositiveThenFloat(e.minReps);
    assert ProcessValue(MaxRepsField, e.minReps) == e.minReps;
  }

  /** The blur edit changes only the found exercise of the found workout's
      slots, and there it equals the corrected exercise. */
  lemma BlurUpdatesTarget(workouts: seq<Workout>, workoutId: string, exerciseId: string, value: string,
                          i: nat, j: nat)
    requires MaxRepsBlur(workouts, workoutId, exerciseId, value).Some?
    requires i < |workouts| && j < |workouts[i].exercises|
    requires workouts[i].exercises[j] == FindExercise(workouts, workoutId, exerciseId).value
    requires workouts[i].id == workoutId
    ensures var c := MaxRepsBlur(workouts, workoutId, exerciseId, value).value;
      var e := workouts[i].exercises[j];
      UpdatedWorkouts(workouts, c.workoutId, c.exerciseId, c.field, c.value)[i].exercises[j]
        == e.(maxReps := e.minReps)
  {
    var c := MaxRepsBlur(workouts, workoutId, exerciseId, value).value;
    UpdateEditsTarget(workouts, c.workoutId, c.exerciseId, c.field, c.value, i, j);
    BlurResult(workouts, workoutId, exerciseId, value);
  }

  /** `handleSaveWorkoutChanges`: with a date and a workout selected, close
      the modal and show the edited toast; otherwise nothing. */
  function SaveWorkoutChanges(st: StoreState): (r: StoreState)
    ensures NoDate(st.selectedDate) || st.selectedWorkout.None? ==> r == st
    ensures !(NoDate(st.selectedDate) || st.selectedWorkout.None?) ==>
      !r.isModalOpen && r.toastVisible && r.error.None?
      && r.toastMessage == WorkoutEdited(st.selectedWorkout.value.name, st.selectedDate.value)
      && r.(isModalOpen := st.isModalOpen, toastVisible := st.toastVisible, error := st.error,
            toastMessage := st.toastMessage) == st
  {
    if NoDate(st.selectedDate) || st.selectedWorkout.None? then st
    else WithToast(st.(isModalOpen := false),
                   WorkoutEdited(st.selectedWorkout.value.name, st.selectedDate.value))
  }

  /** `handleMarkAsDone(done)`: the store call it makes, only with a details
      date set. */
  function MarkAsDoneCall(detailsDate: Option<string>, done: bool): (r: Option<(string, bool)>)
    ensures r.Some? <==> !NoDate(detailsDate)
    ensures r.Some? ==> r.value == (detailsDate.value, done)
  {
    if NoDate(detailsDate) then None else Some((detailsDate.value, done))
  }

  /** `isDone`: the first assignment on the details date is done; false with
      no details date. */
  predicate IsDetailsDone(assignments: seq<WorkoutAssignment>, detailsDate: Option<string>)
  {
    if NoDate(detailsDate) then false
    else match FindAssignment(assignments, detailsDate.value)
      case Some(a) => IsDone(a)
      case None => false
  }

  /** `hasAssignedWorkout`: some assignment is on the selected date. */
  predicate HasAssignedWorkout(assignments: seq<WorkoutAssignment>, selectedDate: Option<string>)
  {
    if NoDate(selectedDate) then false else HasAssignment(assignments, selectedDate.value)
  }

  /** The two flags: assigned exactly when some entry has the selected date;
      done only when assigned, never with an absent flag. */
  lemma DerivedFlags(assignments: seq<WorkoutAssignment>, date: Option<string>)
    ensures HasAssignedWorkout(assignments, date) <==>
      !NoDate(date) && exists i :: 0 <= i < |assignments| && assignments[i].date == date.value
    ensures IsDetailsDone(assignments, date) ==> HasAssignedWorkout(assignments, date)
    ensures (!NoDate(date) && FindAssignment(assignments, date.value).Some?
             && FindAssignment(assignments, date.value).value.done.None?) ==> !IsDetailsDone(assignments, date)
    ensures !NoDate(date) && !HasAssignment(assignments, date.value) ==> !IsDetailsDone(assignments, date)
  {
    if !NoDate(date) {
      var d := date.value;
      assert forall i :: 0 <= i < |assignments| ==> KeyIs(DateOf, d)(assignments[i]) == (assignments[i].date == d);
    }
  }
}
