/** The pure rules inside the store's actions (src/stores/workoutStore.ts):
    the clamp and auto-adjust of an exercise edit, the map over workouts that
    applies it, the selection a date implies, and the list updates of
    assigning, marking done and removing. The store itself is in module
    WorkoutStore. */
module StoreRules {
  import opened Collections
  import opened Strings
  import opened Dates
  import opened Domain
  import opened Database

  /** The `field` argument of `updateExercise`, a property name of Exercise;
      any other name adds a property the model does not track. */
  datatype Field = IdField | NameField | SetsField | MinRepsField | MaxRepsField | WeightField
                 | OtherField(name: string)

  function FieldNamed(name: string): (f: Field)
    ensures f.OtherField? <==> name !in ["id", "name", "sets", "minReps", "maxReps", "weight"]
  {
    if name == "id" then IdField
    else if name == "name" then NameField
    else if name == "sets" then SetsField
    else if name == "minReps" then MinRepsField
    else if name == "maxReps" then MaxRepsField
    else if name == "weight" then WeightField
    else OtherField(name)
  }

  /** The fields the clamp applies to. */
  predicate IsNumericField(f: Field)
  {
    f == SetsField || f == MinRepsField || f == MaxRepsField || f == WeightField
  }

  /** The clamp: a numeric field whose value `parseFloat` reads as a number
      below 1 is stored as "1"; every other value is stored as typed. */
  function ProcessValue(f: Field, value: string): string
  {
    if IsNumericField(f) && ParseFloat(value).Some? && ParseFloat(value).value < 1.0 then "1"
    else value
  }

  /** `{ ...exercise, [field]: value }`. */
  function SetField(e: Exercise, f: Field, value: string): Exercise
  {
    match f
    case IdField => e.(id := value)
    case NameField => e.(name := value)
    case SetsField => e.(sets := value)
    case MinRepsField => e.(minReps := value)
    case MaxRepsField => e.(maxReps := value)
    case WeightField => e.(weight := value)
    case OtherField(_) => e
  }

  /** The auto-adjust condition: the new min reps and the old max reps are both
      integers, the old max is positive and the new min exceeds it. */
  predicate AutoAdjusts(newMin: string, oldMax: string)
  {
    ParseInt(newMin).Some? && ParseInt(oldMax).Some?
    && ParseInt(newMin).value > ParseInt(oldMax).value && ParseInt(oldMax).value > 0
  }

  /** The edit `updateExercise` makes to the one matching exercise. */
  function ApplyEdit(e: Exercise, f: Field, value: string): Exercise
  {
    var processed := ProcessValue(f, value);
    var updated := SetField(e, f, processed);
    if f == MinRepsField && AutoAdjusts(processed, e.maxReps) then updated.(maxReps := processed)
    else updated
  }

  /** The exercises of a workout after the edit. */
  function UpdatedExercises(exercises: seq<Exercise>, exerciseId: string, f: Field, value: string): seq<Exercise>
  {
    seq(|exercises|, j requires 0 <= j < |exercises| =>
      if exercises[j].id == exerciseId then ApplyEdit(exercises[j], f, value) else exercises[j])
  }

  /** The workouts after `updateExercise(workoutId, exerciseId, field, value)`. */
  function UpdatedWorkouts(workouts: seq<Workout>, workoutId: string, exerciseId: string, f: Field,
                           value: string): seq<Workout>
  {
    seq(|workouts|, i requires 0 <= i < |workouts| =>
      if workouts[i].id == workoutId
      then workouts[i].(exercises := UpdatedExercises(workouts[i].exercises, exerciseId, f, value))
      else workouts[i])
  }

  /** The new selected workout: the updated workout when the selected one has
      the edited id, the old selection otherwise. */
  function SelectedAfterEdit(selected: Option<Workout>, updated: seq<Workout>, workoutId: string): Option<Workout>
  {
    if selected.Some? && selected.value.id == workoutId then
      match FindWorkout(updated, workoutId)
      case Some(w) => Some(w)
      case None => selected
    else selected
  }

  /** The workout `selectDate(date)` selects: the one named by the first
      assignment on the date, if both exist. */
  function SelectionFor(assignments: seq<WorkoutAssignment>, workouts: seq<Workout>, date: string): Option<Workout>
  {
    match FindAssignment(assignments, date)
    case None => None
    case Some(a) => FindWorkout(workouts, a.workoutId)
  }

  /** The assignment `assignWorkout` creates; it carries no `done` flag. */
  function NewAssignment(date: string, workoutId: string): WorkoutAssignment
  {
    WorkoutAssignment(date, workoutId, None)
  }

  /** The assignments after a successful `assignWorkout`: the old ones without
      that date, then the new one at the end. */
  function AssignOnDate(s: seq<WorkoutAssignment>, date: string, workoutId: string): seq<WorkoutAssignment>
  {
    WithoutDate(s, date) + [NewAssignment(date, workoutId)]
  }

  /** The assignments after a successful `markWorkoutAsDone`: every entry on
      the date gets the flag. */
  function SetDoneOnDate(s: seq<WorkoutAssignment>, date: string, done: bool): seq<WorkoutAssignment>
  {
    seq(|s|, i requires 0 <= i < |s| => if s[i].date == date then s[i].(done := Some(done)) else s[i])
  }

  /** The done guard of the removes: the first assignment on the date is done. */
  predicate BlockedByDone(s: seq<WorkoutAssignment>, date: string)
  {
    match FindAssignment(s, date)
    case Some(a) => IsDone(a)
    case None => false
  }

  function NotDone(): WorkoutAssignment -> bool
  {
    (a: WorkoutAssignment) => !IsDone(a)
  }

  /** The entries `removeAllWorkoutsFromSchedule` keeps: outside the month, or
      done. */
  function KeptByRemoveAll(y: int, m: int): WorkoutAssignment -> bool
  {
    (a: WorkoutAssignment) => !InMonth(a.date, y, m) || IsDone(a)
  }

  /** The entries it deletes: in the month and not done. */
  function PendingInMonth(y: int, m: int): WorkoutAssignment -> bool
  {
    (a: WorkoutAssignment) => InMonth(a.date, y, m) && !IsDone(a)
  }

  /** `monthAssignments`. */
  function MonthAssignments(s: seq<WorkoutAssignment>, y: int, m: int): seq<WorkoutAssignment>
  {
    Filter(s, InMonthOf(y, m))
  }

  /** `nonCompletedAssignments`: the month's entries that are not done. */
  function Pending(s: seq<WorkoutAssignment>, y: int, m: int): seq<WorkoutAssignment>
  {
    Filter(MonthAssignments(s, y, m), NotDone())
  }

  /** The assignments after a successful `removeAllWorkoutsFromSchedule`. */
  function RemoveAllInMonth(s: seq<WorkoutAssignment>, y: int, m: int): seq<WorkoutAssignment>
  {
    Filter(s, KeptByRemoveAll(y, m))
  }

  // ---------------------------------------------------------------------
  // The clamp

  /** A clamped numeric field is a number of at least 1 or text that is not a
      number; other fields are stored exactly as typed. */
  lemma ClampResult(f: Field, value: string)
    ensures IsNumericField(f) ==> AtLeastOneOrText(ProcessValue(f, value))
    ensures !IsNumericField(f) ==> ProcessValue(f, value) == value
    ensures ParseFloat(value).None? ==> ProcessValue(f, value) == value
    ensures ProcessValue(f, value) == "1" || ProcessValue(f, value) == value
  {
    if ProcessValue(f, value) == "1" {
      ParseNatToString(1);
      assert NatToString(1) == "1";
    }
  }

  /** A value the clamp accepts is stored unchanged; in particular clamping
      twice is clamping once. */
  lemma ClampKeepsAccepted(f: Field, value: string)
    requires AtLeastOneOrText(value)
    ensures ProcessValue(f, value) == value
  {
  }

  lemma ClampIdempotent(f: Field, value: string)
    ensures ProcessValue(f, ProcessValue(f, value)) == ProcessValue(f, value)
  {
    if IsNumericField(f) {
      ClampResult(f, value);
      ClampKeepsAccepted(f, ProcessValue(f, value));
    }
  }

  /** Exactly the numeric values `parseFloat` reads below 1 are replaced. */
  lemma ClampReplacesBelowOne(f: Field, value: string)
    ensures ProcessValue(f, value) != value <==>
      (IsNumericField(f) && value != "1" && ParseFloat(value).Some? && ParseFloat(value).value < 1.0)
  {
  }

  /** Leading white space includes the Unicode space separators: an
      ideographic space before "0" is skipped, so the clamp stores "1". */
  lemma IdeographicSpaceClamped()
    ensures ParseFloat("\U{3000}0") == Some(0.0)
    ensures ProcessValue(SetsField, "\U{3000}0") == "1"
  {
    var v := "\U{3000}0";
    var z := "0";
    assert IsJsWhitespace(v[0]) && v[1..] == z;
    assert !IsJsWhitespace(z[0]);
    assert TrimStart(v) == z;
    assert !IsNegated(v);
    assert Unsigned(v) == z;
    assert DigitRunLength(z) == 1;
    assert IntegerDigits(z) == z && FractionDigits(z) == "";
    assert DigitsValue(z) == 0 && Pow10(0) == 1;
    assert ParseFloat(v) == RealOfDigits(false, z, "");
  }

  /** Every numeric field of every seed exercise is a fixpoint of the clamp. */
  lemma SeedClampFixpoint(e: Exercise, f: Field)
    requires e in AllExercises(DEFAULT_WORKOUTS)
    ensures IsNumericField(f) ==> ApplyEdit(e, f, FieldValue(e, f)) == e
  {
    SeedExercisesWellFormed();
    assert SeedShaped(e);
    ShapedClampFixpoint(e, f);
  }

  /** Writing back its own value into a numeric field of a well-shaped
      exercise changes nothing: the clamp keeps the value and ordered reps
      never trigger the auto-adjust. */
  lemma ShapedClampFixpoint(e: Exercise, f: Field)
    requires SeedShaped(e)
    ensures IsNumericField(f) ==> ApplyEdit(e, f, FieldValue(e, f)) == e
  {
    if IsNumericField(f) {
      ClampKeepsAccepted(f, FieldValue(e, f));
      if f == MinRepsField {
        assert !AutoAdjusts(e.minReps, e.maxReps);
      }
    }
  }

  /** The value of a field of an exercise; "" for a property it does not have. */
  function FieldValue(e: Exercise, f: Field): string
  {
    match f
    case IdField => e.id
    case NameField => e.name
    case SetsField => e.sets
    case MinRepsField => e.minReps
    case MaxRepsField => e.maxReps
    case WeightField => e.weight
    case OtherField(_) => ""
  }

  /** Setting a field to the value it reads back is the identity on the model. */
  lemma SetFieldRoundTrip(e: Exercise, f: Field, value: string)
    ensures f.OtherField? || FieldValue(SetField(e, f, value), f) == value
    ensures SetField(e, f, FieldValue(e, f)) == e
  {
  }

  // ---------------------------------------------------------------------
  // The auto-adjust

  /** Editing min reps stores the clamped value there and touches max reps
      only under the auto-adjust condition, copying the same string. */
  lemma AutoAdjustRule(e: Exercise, value: string)
    ensures var r := ApplyEdit(e, MinRepsField, value);
      var p := ProcessValue(MinRepsField, value);
      r.minReps == p
      && r.maxReps == (if AutoAdjusts(p, e.maxReps) then p else e.maxReps)
      && r.id == e.id && r.name == e.name && r.sets == e.sets && r.weight == e.weight
  {
  }

  /** After a min-reps edit against a positive integer max, min reps never
      exceed max reps when read as integers. */
  lemma AutoAdjustOrders(e: Exercise, value: string)
    requires ParseInt(e.maxReps).Some? && ParseInt(e.maxReps).value > 0
    requires ParseInt(ProcessValue(MinRepsField, value)).Some?
    ensures var r := ApplyEdit(e, MinRepsField, value);
      ParseInt(r.minReps).Some? && ParseInt(r.maxReps).Some?
      && ParseInt(r.minReps).value <= ParseInt(r.maxReps).value
  {
    AutoAdjustRule(e, value);
  }

  /** An edit of any other field never changes a different field. */
  lemma EditOtherFields(e: Exercise, f: Field, value: string)
    requires f != MinRepsField
    ensures ApplyEdit(e, f, value) == SetField(e, f, ProcessValue(f, value))
  {
  }

  // ---------------------------------------------------------------------
  // The map over workouts

  /** `updateExercise` changes only the matching exercises of the matching
      workouts; lengths, order, ids and names stay. */
  lemma UpdateTouchesOnlyTarget(workouts: seq<Workout>, workoutId: string, exerciseId: string,
                                f: Field, value: string)
    ensures var r := UpdatedWorkouts(workouts, workoutId, exerciseId, f, value);
      |r| == |workouts|
      && (forall i :: 0 <= i < |r| ==>
            r[i].id == workouts[i].id && r[i].name == workouts[i].name
            && |r[i].exercises| == |workouts[i].exercises|)
      && (forall i :: 0 <= i < |r| && workouts[i].id != workoutId ==> r[i] == workouts[i])
  {
  }

  lemma UpdateEditsTarget(workouts: seq<Workout>, workoutId: string, exerciseId: string,
                          f: Field, value: string, i: nat, j: nat)
    requires i < |workouts| && j < |workouts[i].exercises|
    ensures var r := UpdatedWorkouts(workouts, workoutId, exerciseId, f, value);
      var e := workouts[i].exercises[j];
      r[i].exercises[j] == if workouts[i].id == workoutId && e.id == exerciseId then ApplyEdit(e, f, value) else e
  {
  }

  /** Unless the edit rewrites ids, workout ids stay unique and every exercise
      keeps its id. */
  lemma UpdateKeepsIds(workouts: seq<Workout>, workoutId: string, exerciseId: string,
                       f: Field, value: string)
    requires UniqueKeys(workouts, WorkoutIdOf)
    requires f != IdField
    ensures var r := UpdatedWorkouts(workouts, workoutId, exerciseId, f, value);
      UniqueKeys(r, WorkoutIdOf)
      && forall i, j :: 0 <= i < |r| && 0 <= j < |r[i].exercises| ==>
           r[i].exercises[j].id == workouts[i].exercises[j].id
  {
    var r := UpdatedWorkouts(workouts, workoutId, exerciseId, f, value);
    assert forall i :: 0 <= i < |r| ==> r[i].id == workouts[i].id;
  }

  /** The selection follows the edit exactly when it is the edited workout
      and some workout has that id: it becomes the first updated workout with
      the id. A stale selection whose id no workout has is kept. */
  lemma SelectedFollowsEdit(selected: Option<Workout>, workouts: seq<Workout>, workoutId: string,
                            exerciseId: string, f: Field, value: string)
    ensures var updated := UpdatedWorkouts(workouts, workoutId, exerciseId, f, value);
      var r := SelectedAfterEdit(selected, updated, workoutId);
      (selected.Some? && selected.value.id == workoutId && FindWorkout(workouts, workoutId).Some? ==>
         r.Some? && r.value.id == workoutId && r.value in updated
         && exists i :: 0 <= i < |updated| && updated[i] == r.value
              && forall j :: 0 <= j < i ==> updated[j].id != workoutId)
      && (FindWorkout(workouts, workoutId).None? ==> r == selected)
      && (!(selected.Some? && selected.value.id == workoutId) ==> r == selected)
  {
    var updated := UpdatedWorkouts(workouts, workoutId, exerciseId, f, value);
    assert forall i :: 0 <= i < |updated| ==> updated[i].id == workouts[i].id;
    if FindWorkout(workouts, workoutId).Some? {
      var i :| 0 <= i < |workouts| && workouts[i].id == workoutId;
      assert updated[i].id == workoutId;
    }
  }

  // ---------------------------------------------------------------------
  // Selecting a date

  /** The selection is a workout named by an assignment on the date; it is
      absent exactly when no assignment is on the date or the first one names
      an unknown workout. */
  lemma SelectionForDate(assignments: seq<WorkoutAssignment>, workouts: seq<Workout>, date: string)
    ensures var r := SelectionFor(assignments, workouts, date);
      (r.Some? ==>
         r.value in workouts && exists a :: a in assignments && a.date == date && a.workoutId == r.value.id)
      && (!HasAssignment(assignments, date) ==> r.None?)
      && (FindAssignment(assignments, date).Some? ==>
            (r.None? <==> forall i :: 0 <= i < |workouts| ==> workouts[i].id != FindAssignment(assignments, date).value.workoutId))
  {
    if !HasAssignment(assignments, date) {
      assert forall i :: 0 <= i < |assignments| ==> !KeyIs(DateOf, date)(assignments[i]);
    }
  }

  // ---------------------------------------------------------------------
  // Assigning

  /** After assigning, exactly the new assignment is on the date, it is the
      last entry, and every entry on another date is kept in order. */
  lemma AssignReplaces(s: seq<WorkoutAssignment>, date: string, workoutId: string)
    ensures var r := AssignOnDate(s, date, workoutId);
      |r| >= 1 && r[|r| - 1] == NewAssignment(date, workoutId)
      && (forall i :: 0 <= i < |r| - 1 ==> r[i].date != date && r[i] in s)
      && (forall i :: 0 <= i < |s| && s[i].date != date ==> s[i] in r)
      && r[..|r| - 1] == WithoutDate(s, date)
  {
  }

  /** Assigning keeps at most one assignment per date. */
  lemma AssignKeepsOnePerDate(s: seq<WorkoutAssignment>, date: string, workoutId: string)
    requires OnePerDate(s)
    ensures OnePerDate(AssignOnDate(s, date, workoutId))
  {
    var w := WithoutDate(s, date);
    FilterKeepsUniqueKeys(s, KeyIsNot(DateOf, date), DateOf);
    var r := AssignOnDate(s, date, workoutId);
    forall i, j | 0 <= i < j < |r| ensures DateOf(r[i]) != DateOf(r[j]) {
      if j < |w| {
        assert r[i] == w[i] && r[j] == w[j];
      } else {
        assert r[i] == w[i];
      }
    }
  }

  /** Under one assignment per date, the store's filter-then-append and the
      storage's find-then-overwrite hold the same assignments; only the
      position of a replaced entry differs. */
  lemma AssignMatchesStorage(s: seq<WorkoutAssignment>, date: string, workoutId: string)
    requires OnePerDate(s)
    ensures multiset(AssignOnDate(s, date, workoutId)) == multiset(Upsert(s, NewAssignment(date, workoutId), DateOf))
  {
    UpsertAsFilterAppend(s, NewAssignment(date, workoutId), DateOf);
  }

  // ---------------------------------------------------------------------
  // Marking done

  /** Marking done changes only the flag, and only on entries with the date. */
  lemma SetDoneOnlyFlag(s: seq<WorkoutAssignment>, date: string, done: bool)
    ensures var r := SetDoneOnDate(s, date, done);
      |r| == |s|
      && (forall i :: 0 <= i < |s| ==> r[i].date == s[i].date && r[i].workoutId == s[i].workoutId)
      && (forall i :: 0 <= i < |s| && s[i].date == date ==> r[i].done == Some(done))
      && (forall i :: 0 <= i < |s| && s[i].date != date ==> r[i] == s[i])
      && OnePerDate(r) == OnePerDate(s)
  {
  }

  /** Under one assignment per date, the store's map over all entries and the
      storage's update of the first entry agree; with no entry on the date
      neither changes anything. */
  lemma SetDoneMatchesStorage(s: seq<WorkoutAssignment>, date: string, done: bool)
    requires OnePerDate(s)
    ensures DoneUpdated(s, date, done).None? ==> SetDoneOnDate(s, date, done) == s
    ensures DoneUpdated(s, date, done).Some? ==> DoneUpdated(s, date, done).value == SetDoneOnDate(s, date, done)
  {
    var r := SetDoneOnDate(s, date, done);
    if DoneUpdated(s, date, done).Some? {
      var u := DoneUpdated(s, date, done).value;
      var i :| 0 <= i < |s| && s[i].date == date
        && (forall j :: 0 <= j < i ==> s[j].date != date)
        && u[i] == s[i].(done := Some(done))
        && (forall j :: 0 <= j < |s| && j != i ==> u[j] == s[j]);
      forall j | 0 <= j < |s| ensures u[j] == r[j] {
        if j != i {
          assert DateOf(s[j]) != DateOf(s[i]);
        }
      }
    }
  }

  /** With two entries on one date the two differ: the storage flags only
      the first. */
  lemma SetDoneDiffersOnDuplicates()
    ensures var s := [WorkoutAssignment("2024-05-01", "a", None), WorkoutAssignment("2024-05-01", "b", None)];
      DoneUpdated(s, "2024-05-01", true).Some?
      && DoneUpdated(s, "2024-05-01", true).value != SetDoneOnDate(s, "2024-05-01", true)
  {
    var s := [WorkoutAssignment("2024-05-01", "a", None), WorkoutAssignment("2024-05-01", "b", None)];
    var u := DoneUpdated(s, "2024-05-01", true).value;
    assert u[1] == s[1];
    assert SetDoneOnDate(s, "2024-05-01", true)[1].done == Some(true);
  }

  // ---------------------------------------------------------------------
  // Removing

  /** A remove that passes the guard deletes no done assignment when there is
      at most one assignment per date. */
  lemma GuardProtectsDone(s: seq<WorkoutAssignment>, date: string)
    requires OnePerDate(s) && !BlockedByDone(s, date)
    ensures forall i :: 0 <= i < |s| && IsDone(s[i]) ==> s[i] in WithoutDate(s, date)
  {
    forall i | 0 <= i < |s| && s[i].date == date ensures s[i] == FindAssignment(s, date).value {
      var k :| 0 <= k < |s| && s[k] == FindAssignment(s, date).value;
      assert DateOf(s[k]) == DateOf(s[i]);
    }
  }

  /** After the remove, no entry is on the date, and every other entry is kept. */
  lemma RemoveClearsDate(s: seq<WorkoutAssignment>, date: string)
    ensures !HasAssignment(WithoutDate(s, date), date)
    ensures forall i :: 0 <= i < |s| && s[i].date != date ==> s[i] in WithoutDate(s, date)
    ensures |WithoutDate(s, date)| + |Filter(s, KeyIs(DateOf, date))| == |s|
  {
    var r := WithoutDate(s, date);
    assert forall i :: 0 <= i < |r| ==> !KeyIs(DateOf, date)(r[i]);
    FilterPartition(s, KeyIsNot(DateOf, date), KeyIs(DateOf, date));
  }

  /** Removing a date keeps at most one assignment per date. */
  lemma RemoveKeepsOnePerDate(s: seq<WorkoutAssignment>, date: string)
    requires OnePerDate(s)
    ensures OnePerDate(WithoutDate(s, date))
  {
    FilterKeepsUniqueKeys(s, KeyIsNot(DateOf, date), DateOf);
  }

  /** The pending list is the month's not-done entries taken straight from
      the whole list. */
  lemma PendingIsDirectFilter(s: seq<WorkoutAssignment>, y: int, m: int)
    ensures Pending(s, y, m) == Filter(s, PendingInMonth(y, m))
  {
    FilterFilter(s, InMonthOf(y, m), NotDone(), PendingInMonth(y, m));
  }

  /** After removing all, no pending entry of the month remains, every done
      or out-of-month entry is kept, and exactly the pending ones went. */
  lemma RemoveAllExact(s: seq<WorkoutAssignment>, y: int, m: int)
    ensures var r := RemoveAllInMonth(s, y, m);
      (forall i :: 0 <= i < |r| ==> !InMonth(r[i].date, y, m) || IsDone(r[i]))
      && (forall i :: 0 <= i < |s| && (!InMonth(s[i].date, y, m) || IsDone(s[i])) ==> s[i] in r)
      && multiset(r) + multiset(Pending(s, y, m)) == multiset(s)
      && |s| - |r| == |Pending(s, y, m)|
  {
    var r := RemoveAllInMonth(s, y, m);
    assert forall i :: 0 <= i < |r| ==> KeptByRemoveAll(y, m)(r[i]);
    PendingIsDirectFilter(s, y, m);
    FilterPartition(s, KeptByRemoveAll(y, m), PendingInMonth(y, m));
  }

  /** Removing all pending entries keeps at most one assignment per date. */
  lemma RemoveAllKeepsOnePerDate(s: seq<WorkoutAssignment>, y: int, m: int)
    requires OnePerDate(s)
    ensures OnePerDate(RemoveAllInMonth(s, y, m))
  {
    FilterKeepsUniqueKeys(s, KeptByRemoveAll(y, m), DateOf);
  }

  /** The counts of the toast: deleted plus completed is the month's total. */
  lemma RemoveAllCounts(s: seq<WorkoutAssignment>, y: int, m: int)
    ensures |Pending(s, y, m)| <= |MonthAssignments(s, y, m)|
    ensures |Pending(s, y, m)| + |Filter(MonthAssignments(s, y, m), DoneOf())| == |MonthAssignments(s, y, m)|
  {
    FilterPartition(MonthAssignments(s, y, m), NotDone(), DoneOf());
  }

  function DoneOf(): WorkoutAssignment -> bool
  {
    (a: WorkoutAssignment) => IsDone(a)
  }

  /** With nothing pending, removing all keeps every entry. */
  lemma NothingPendingKeepsAll(s: seq<WorkoutAssignment>, y: int, m: int)
    requires |Pending(s, y, m)| == 0
    ensures RemoveAllInMonth(s, y, m) == s
  {
    RemoveAllExact(s, y, m);
    assert multiset(RemoveAllInMonth(s, y, m)) == multiset(s);
    forall x | x in s ensures KeptByRemoveAll(y, m)(x) {
      assert x in multiset(s);
      assert x in multiset(RemoveAllInMonth(s, y, m));
      assert x in RemoveAllInMonth(s, y, m);
    }
    FilterAll(s, KeptByRemoveAll(y, m));
  }
}
