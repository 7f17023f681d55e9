/** The month listing of the schedule view (src/components/MonthlySchedule.tsx):
    the assignments of the displayed month, sorted by date, each with its
    workout and done flag, and the rule that shows "Remove All". */
module MonthlySchedule {
  import opened Collections
  import opened Strings
  import opened Dates
  import opened Domain
  import opened Database

  /** One row of the listing; the workout is absent for an unknown id. */
  datatype MonthlyEntry = MonthlyEntry(date: string, workout: Option<Workout>, isDone: bool)

  /** `new Date(a.date).getTime()` up to a constant factor: the day number of
      the date. Only dates that parse reach the sort; others get 0. */
  function DateKey(a: WorkoutAssignment): int
  {
    match ParseIsoDate(a.date)
    case Some(d) => DayNumber(d.year, d.month, d.day)
    case None => 0
  }

  predicate SortedBy<T>(s: seq<T>, key: T -> int)
  {
    forall i, j :: 0 <= i < j < |s| ==> key(s[i]) <= key(s[j])
  }

  /** Insert x after every element whose key is at most x's. */
  function InsertByKey<T>(s: seq<T>, x: T, key: T -> int): (r: seq<T>)
    ensures |r| == |s| + 1
    ensures multiset(r) == multiset(s) + multiset{x}
  {
    if s == [] then [x]
    else if key(x) < key(s[0]) then [x] + s
    else
      assert s == [s[0]] + s[1..];
      [s[0]] + InsertByKey(s[1..], x, key)
  }

  /** Inserting into a sorted sequence keeps it sorted. */
  lemma {:induction false} InsertKeepsSorted<T>(s: seq<T>, x: T, key: T -> int)
    requires SortedBy(s, key)
    ensures SortedBy(InsertByKey(s, x, key), key)
  {
    if s != [] && key(x) >= key(s[0]) {
      var t := InsertByKey(s[1..], x, key);
      InsertKeepsSorted(s[1..], x, key);
      forall y | y in t ensures key(s[0]) <= key(y) {
        assert y in multiset(s[1..]) + multiset{x};
        if y != x {
          assert y in s[1..];
        }
      }
      assert InsertByKey(s, x, key) == [s[0]] + t;
    }
  }

  /** A stable sort by key, as JavaScript's `sort` with a numeric comparator. */
  function SortByKey<T>(s: seq<T>, key: T -> int): (r: seq<T>)
    ensures |r| == |s| && multiset(r) == multiset(s)
  {
    if s == [] then []
    else
      var init := s[..|s| - 1];
      assert s == init + [s[|s| - 1]];
      InsertByKey(SortByKey(init, key), s[|s| - 1], key)
  }

  /** The sort's result is in ascending key order. */
  lemma {:induction false} SortSorted<T>(s: seq<T>, key: T -> int)
    ensures SortedBy(SortByKey(s, key), key)
  {
    if s != [] {
      var init := s[..|s| - 1];
      SortSorted(init, key);
      InsertKeepsSorted(SortByKey(init, key), s[|s| - 1], key);
    }
  }

  /** The `map` step of the listing. */
  function EntryOf(workouts: seq<Workout>, a: WorkoutAssignment): MonthlyEntry
  {
    MonthlyEntry(a.date, FindWorkout(workouts, a.workoutId), IsDone(a))
  }

  /** The month's assignments in listing order. */
  function MonthInOrder(assignments: seq<WorkoutAssignment>, y: int, m: int): seq<WorkoutAssignment>
  {
    SortByKey(Filter(assignments, InMonthOf(y, m)), DateKey)
  }

  /** `getWorkoutsForMonth`: filter to the month, sort by date, map to rows. */
  function GetWorkoutsForMonth(workouts: seq<Workout>, assignments: seq<WorkoutAssignment>, y: int, m: int): seq<MonthlyEntry>
  {
    var sorted := MonthInOrder(assignments, y, m);
    seq(|sorted|, i requires 0 <= i < |sorted| => EntryOf(workouts, sorted[i]))
  }

  /** The listing holds one row per assignment of the month and nothing else,
      each row carrying that assignment's date, its workout (absent for an
      unknown id) and `done || false`. */
  lemma ListingIsTheMonth(workouts: seq<Workout>, assignments: seq<WorkoutAssignment>, y: int, m: int)
    ensures var r := GetWorkoutsForMonth(workouts, assignments, y, m);
      |r| == |MonthInOrder(assignments, y, m)| == |Filter(assignments, InMonthOf(y, m))|
      && forall i :: 0 <= i < |r| ==> r[i] == EntryOf(workouts, MonthInOrder(assignments, y, m)[i])
    ensures multiset(MonthInOrder(assignments, y, m)) == multiset(Filter(assignments, InMonthOf(y, m)))
    ensures forall a :: a in MonthInOrder(assignments, y, m) <==> a in assignments && InMonth(a.date, y, m)
  {
    var f := Filter(assignments, InMonthOf(y, m));
    var sorted := MonthInOrder(assignments, y, m);
    forall a ensures a in sorted <==> a in f {
      assert a in sorted <==> a in multiset(sorted);
    }
    FilterMembers(assignments, y, m);
  }

  lemma FilterMembers(assignments: seq<WorkoutAssignment>, y: int, m: int)
    ensures forall a :: a in Filter(assignments, InMonthOf(y, m)) <==> a in assignments && InMonth(a.date, y, m)
  {
    var f := Filter(assignments, InMonthOf(y, m));
    forall a | a in f ensures a in assignments && InMonth(a.date, y, m) {
      var k :| 0 <= k < |f| && f[k] == a;
      assert InMonthOf(y, m)(f[k]);
    }
    forall a | a in assignments && InMonth(a.date, y, m) ensures a in f {
      var k :| 0 <= k < |assignments| && assignments[k] == a;
      assert InMonthOf(y, m)(assignments[k]);
    }
  }

  /** Entry fields: `isDone` is false for an absent flag, and the workout is
      the first one with the assignment's id. */
  lemma EntryFields(workouts: seq<Workout>, a: WorkoutAssignment)
    ensures EntryOf(workouts, a).isDone <==> a.done == Some(true)
    ensures a.done.None? ==> !EntryOf(workouts, a).isDone
    ensures EntryOf(workouts, a).workout.None? <==> forall i :: 0 <= i < |workouts| ==> workouts[i].id != a.workoutId
    ensures EntryOf(workouts, a).workout.Some? ==> EntryOf(workouts, a).workout.value in workouts
  {
  }

  /** Within one month's dates the sort key is the day, so the listing is in
      ascending date order, as day numbers and as strings. */
  lemma ListingSorted(workouts: seq<Workout>, assignments: seq<WorkoutAssignment>, y: int, m: int, i: int, j: int)
    requires 0 <= i < j < |GetWorkoutsForMonth(workouts, assignments, y, m)|
    ensures var r := GetWorkoutsForMonth(workouts, assignments, y, m);
      !LexLess(r[j].date, r[i].date)
      && ParseIsoDate(r[i].date).Some? && ParseIsoDate(r[j].date).Some?
      && ParseIsoDate(r[i].date).value.day <= ParseIsoDate(r[j].date).value.day
  {
    ListingIsTheMonth(workouts, assignments, y, m);
    var sorted := MonthInOrder(assignments, y, m);
    SortSorted(Filter(assignments, InMonthOf(y, m)), DateKey);
    assert sorted[i] in sorted && sorted[j] in sorted;
    KeyOrderInMonth(sorted[i], sorted[j], y, m);
  }

  /** Two dates of one month in key order are in day order and string order. */
  lemma KeyOrderInMonth(a: WorkoutAssignment, b: WorkoutAssignment, y: int, m: int)
    requires InMonth(a.date, y, m) && InMonth(b.date, y, m) && DateKey(a) <= DateKey(b)
    ensures ParseIsoDate(a.date).Some? && ParseIsoDate(b.date).Some?
    ensures ParseIsoDate(a.date).value.day <= ParseIsoDate(b.date).value.day
    ensures !LexLess(b.date, a.date)
  {
    var da, db := ParseIsoDate(a.date).value, ParseIsoDate(b.date).value;
    SameMonthKey(da, db);
    IsoOrder(b.date, a.date);
  }

  lemma SameMonthKey(a: CalendarDate, b: CalendarDate)
    requires a.year == b.year && a.month == b.month
    ensures DayNumber(a.year, a.month, a.day) - DayNumber(b.year, b.month, b.day) == a.day - b.day
  {
  }

  /** "Remove All" is shown only with more than one row. */
  predicate ShowRemoveAll(entries: seq<MonthlyEntry>)
  {
    |entries| > 1
  }

  /** "Remove All" is shown exactly when the month has at least two
      assignments, done or not. */
  lemma RemoveAllShown(workouts: seq<Workout>, assignments: seq<WorkoutAssignment>, y: int, m: int)
    ensures ShowRemoveAll(GetWorkoutsForMonth(workouts, assignments, y, m))
      <==> |Filter(assignments, InMonthOf(y, m))| >= 2
  {
    ListingIsTheMonth(workouts, assignments, y, m);
  }
}
