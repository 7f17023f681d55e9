/** The browser-storage half of the persistence gateway
    (src/services/database.ts): the service that keeps two JSON entries, one
    with every workout and one with every assignment. The backend choice and
    the remote service's row mappings are in module Remote. */
module Database {
  import opened Collections
  import opened Strings
  import opened Dates
  import opened Domain

  /** The storage key of the workout list. */
  const WORKOUTS_KEY := "workoutPlannerWorkouts"

  /** The storage key of the assignment list. */
  const ASSIGNMENTS_KEY := "workoutPlannerAssignments"

  /** A call on the `DatabaseService` interface, as the store issues it. */
  datatype GatewayCall =
    | LoadWorkoutsCall
    | LoadAssignmentsCall
    | SaveWorkoutsCall(workouts: seq<Workout>)
    | SaveAssignmentCall(assignment: WorkoutAssignment)
    | DeleteAssignmentCall(date: string)
    | UpdateAssignmentDoneCall(date: string, done: bool)

  /** The assignments outside year y and 0-based month m; a date that does not
      parse is outside every month. */
  function NotInMonth(y: int, m: int): WorkoutAssignment -> bool
  {
    (a: WorkoutAssignment) => !InMonth(a.date, y, m)
  }

  /** The list after `updateAssignmentDone(date, done)`: only the first entry
      with that date gets the flag, and None means no entry has the date. */
  function DoneUpdated(s: seq<WorkoutAssignment>, date: string, done: bool): (r: Option<seq<WorkoutAssignment>>)
    ensures r.None? <==> forall j :: 0 <= j < |s| ==> s[j].date != date
    ensures r.Some? ==> |r.value| == |s|
    ensures r.Some? ==> exists i :: (0 <= i < |s| && s[i].date == date
      && (forall j :: 0 <= j < i ==> s[j].date != date)
      && r.value[i] == s[i].(done := Some(done))
      && (forall j :: 0 <= j < |s| && j != i ==> r.value[j] == s[j]))
  {
    assert forall j :: 0 <= j < |s| ==> KeyIs(DateOf, date)(s[j]) == (s[j].date == date);
    match FirstIndex(s, KeyIs(DateOf, date))
    case None => None
    case Some(i) => Some(s[i := s[i].(done := Some(done))])
  }

  /** `LocalStorageService`: browser storage with one entry per key; an entry
      that was never written is None. */
  class LocalStorageService {
    var workoutsEntry: Option<seq<Workout>>
    var assignmentsEntry: Option<seq<WorkoutAssignment>>

    /** Empty storage. */
    constructor()
      ensures workoutsEntry == None && assignmentsEntry == None
      ensures StoredWorkouts() == [] && StoredAssignments() == []
    {
      workoutsEntry := None;
      assignmentsEntry := None;
    }

    /** What `loadWorkouts` returns: the saved list, or [] when nothing was saved. */
    function StoredWorkouts(): seq<Workout>
      reads this
    {
      match workoutsEntry
      case Some(ws) => ws
      case None => []
    }

    /** What `loadAssignments` returns. */
    function StoredAssignments(): seq<WorkoutAssignment>
      reads this
    {
      match assignmentsEntry
      case Some(s) => s
      case None => []
    }

    method SaveWorkouts(workouts: seq<Workout>)
      modifies this
      ensures workoutsEntry == Some(workouts) && assignmentsEntry == old(assignmentsEntry)
      ensures StoredWorkouts() == workouts
    {
      workoutsEntry := Some(workouts);
    }

    method LoadWorkouts() returns (workouts: seq<Workout>)
      ensures workouts == StoredWorkouts()
      ensures workoutsEntry.None? ==> workouts == []
    {
      match workoutsEntry
      case Some(ws) => workouts := ws;
      case None => workouts := [];
    }

    /** Overwrite the slot of the first workout with the same id, or push. */
    method SaveWorkout(workout: Workout)
      modifies this
      ensures workoutsEntry == Some(Upsert(old(StoredWorkouts()), workout, WorkoutIdOf))
      ensures assignmentsEntry == old(assignmentsEntry)
    {
      var workouts := LoadWorkouts();
      var index := FirstIndex(workouts, KeyIs(WorkoutIdOf, workout.id));
      if index.Some? {
        workouts := workouts[index.value := workout];
      } else {
        workouts := workouts + [workout];
      }
      SaveWorkouts(workouts);
    }

    method DeleteWorkout(workoutId: string)
      modifies this
      ensures workoutsEntry == Some(WithoutKey(old(StoredWorkouts()), WorkoutIdOf, workoutId))
      ensures assignmentsEntry == old(assignmentsEntry)
    {
      var workouts := LoadWorkouts();
      var filtered := Filter(workouts, KeyIsNot(WorkoutIdOf, workoutId));
      SaveWorkouts(filtered);
    }

    method SaveAssignments(assignments: seq<WorkoutAssignment>)
      modifies this
      ensures assignmentsEntry == Some(assignments) && workoutsEntry == old(workoutsEntry)
      ensures StoredAssignments() == assignments
    {
      assignmentsEntry := Some(assignments);
    }

    method LoadAssignments() returns (assignments: seq<WorkoutAssignment>)
      ensures assignments == StoredAssignments()
      ensures assignmentsEntry.None? ==> assignments == []
    {
      match assignmentsEntry
      case Some(s) => assignments := s;
      case None => assignments := [];
    }

    /** Overwrite the slot of the first assignment on the same date, or push. */
    method SaveAssignment(assignment: WorkoutAssignment)
      modifies this
      ensures assignmentsEntry == Some(Upsert(old(StoredAssignments()), assignment, DateOf))
      ensures workoutsEntry == old(workoutsEntry)
      ensures old(OnePerDate(StoredAssignments())) ==> OnePerDate(StoredAssignments())
    {
      var assignments := LoadAssignments();
      ghost var before := assignments;
      var index := FirstIndex(assignments, KeyIs(DateOf, assignment.date));
      if index.Some? {
        assignments := assignments[index.value := assignment];
      } else {
        assignments := assignments + [assignment];
      }
      if OnePerDate(before) {
        UpsertKeepsUniqueKeys(before, assignment, DateOf);
      }
      SaveAssignments(assignments);
    }

    /** Set the flag of the first assignment on the date in place; storage is
        not written at all when no assignment has the date. */
    method UpdateAssignmentDone(date: string, done: bool)
      modifies this
      ensures DoneUpdated(old(StoredAssignments()), date, done).None? ==>
        assignmentsEntry == old(assignmentsEntry)
      ensures DoneUpdated(old(StoredAssignments()), date, done).Some? ==>
        assignmentsEntry == DoneUpdated(old(StoredAssignments()), date, done)
      ensures workoutsEntry == old(workoutsEntry)
    {
      var assignments := LoadAssignments();
      var index := FirstIndex(assignments, KeyIs(DateOf, date));
      if index.Some? {
        var i := index.value;
        assignments := assignments[i := assignments[i].(done := Some(done))];
        SaveAssignments(assignments);
      }
    }

    method DeleteAssignment(date: string)
      modifies this
      ensures assignmentsEntry == Some(WithoutDate(old(StoredAssignments()), date))
      ensures workoutsEntry == old(workoutsEntry)
    {
      var assignments := LoadAssignments();
      var filtered := Filter(assignments, KeyIsNot(DateOf, date));
      SaveAssignments(filtered);
    }

    method DeleteAssignmentsByMonth(year: int, month: int)
      modifies this
      ensures assignmentsEntry == Some(Filter(old(StoredAssignments()), NotInMonth(year, month)))
      ensures workoutsEntry == old(workoutsEntry)
    {
      var assignments := LoadAssignments();
      var filtered := Filter(assignments, NotInMonth(year, month));
      SaveAssignments(filtered);
    }
  }

  /** A deletion by month removes exactly the entries dated in that month and
      keeps every other entry; together they are the old list. */
  lemma DeleteByMonthExact(s: seq<WorkoutAssignment>, y: int, m: int)
    ensures forall i :: 0 <= i < |Filter(s, NotInMonth(y, m))| ==>
      !InMonth(Filter(s, NotInMonth(y, m))[i].date, y, m)
    ensures forall i :: 0 <= i < |s| && !InMonth(s[i].date, y, m) ==> s[i] in Filter(s, NotInMonth(y, m))
    ensures multiset(Filter(s, NotInMonth(y, m))) + multiset(Filter(s, InMonthOf(y, m))) == multiset(s)
  {
    var keep := Filter(s, NotInMonth(y, m));
    assert forall i :: 0 <= i < |keep| ==> NotInMonth(y, m)(keep[i]);
    assert forall i :: 0 <= i < |s| ==> NotInMonth(y, m)(s[i]) == !InMonth(s[i].date, y, m);
    FilterPartition(s, NotInMonth(y, m), InMonthOf(y, m));
  }

  /** The assignments dated in year y and 0-based month m. */
  function InMonthOf(y: int, m: int): WorkoutAssignment -> bool
  {
    (a: WorkoutAssignment) => InMonth(a.date, y, m)
  }

  /** Deleting by key removes every entry with the key; what is deleted and
      what is kept together are the old list. */
  lemma DeleteByKeyExact<T, K>(s: seq<T>, key: T -> K, k: K)
    ensures forall i :: 0 <= i < |WithoutKey(s, key, k)| ==> key(WithoutKey(s, key, k)[i]) != k
    ensures multiset(WithoutKey(s, key, k)) + multiset(Filter(s, KeyIs(key, k))) == multiset(s)
    ensures |WithoutKey(s, key, k)| + |Filter(s, KeyIs(key, k))| == |s|
  {
    FilterPartition(s, KeyIsNot(key, k), KeyIs(key, k));
  }
}
