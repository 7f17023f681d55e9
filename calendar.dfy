/** The month grid and the date predicates of the planner calendar
    (src/components/Calendar.tsx). */
module Calendar {
  import opened Collections
  import opened Strings
  import opened Dates
  import opened Domain

  /** The grid of month m of year y: one blank per weekday before the 1st,
      then the date string of every day of the month. */
  function MonthGrid(y: int, m: Month0): seq<Option<string>>
  {
    Grid(Weekday(y, m, 1), y, m, MonthLength(y, m))
  }

  /** w blanks, then the entries of days 1..n of month m of year y. */
  function Grid(w: nat, y: int, m: Month0, n: nat): seq<Option<string>>
  {
    Blanks(w) + Entries(n, DayCell(y, m))
  }

  /** `getDaysInMonth`: the month length is the day of the month of day 0 of
      the next month, the blanks the weekday of the 1st. */
  method GetDaysInMonth(y: int, m: Month0) returns (days: seq<Option<string>>)
    ensures days == MonthGrid(y, m)
    ensures |days| == Weekday(y, m, 1) + MonthLength(y, m)
  {
    var next := NextMonth(MonthCursor(y, m));
    var daysInMonth := DayNumber(next.year, next.month, 0) - DayNumber(y, m, 0);
    var startingDayOfWeek := Weekday(y, m, 1);
    LastDayOfMonth(y, m);
    days := [];
    var i := 0;
    while i < startingDayOfWeek
      invariant 0 <= i <= startingDayOfWeek
      invariant days == Blanks(i)
    {
      BlanksStep(i);
      days := days + [None];
      i := i + 1;
    }
    var day := 1;
    while day <= daysInMonth
      invariant 1 <= day <= daysInMonth + 1
      invariant days == Grid(startingDayOfWeek, y, m, day - 1)
    {
      GridStep(startingDayOfWeek, y, m, day - 1);
      days := days + [Some(DateString(y, m, day))];
      day := day + 1;
    }
    GridLength(startingDayOfWeek, y, m, daysInMonth);
  }

  /** `new Date(y, m + 1, 0).getDate()` is the length of month m. */
  lemma LastDayOfMonth(y: int, m: Month0)
    ensures var next := NextMonth(MonthCursor(y, m));
      DayNumber(next.year, next.month, 0) - DayNumber(y, m, 0) == MonthLength(y, m)
  {
    DayZeroOfNextMonth(y, m);
  }

  /** w blank cells. */
  function Blanks(w: nat): seq<Option<string>>
  {
    seq(w, _ => None)
  }

  /** The cell of day d of month m of year y. */
  function DayCell(y: int, m: Month0): nat -> Option<string>
  {
    (d: nat) => Some(DateString(y, m, d))
  }

  /** The cells of days 1..n. */
  function Entries<T>(n: nat, cell: nat -> T): seq<T>
  {
    seq(n, i requires 0 <= i < n => cell(i + 1))
  }

  lemma GridLength(w: nat, y: int, m: Month0, n: nat)
    ensures |Grid(w, y, m, n)| == w + n
  {
  }

  lemma BlanksStep(w: nat)
    ensures Blanks(w + 1) == Blanks(w) + [None]
  {
  }

  lemma EntriesStep<T>(n: nat, cell: nat -> T)
    ensures Entries(n + 1, cell) == Entries(n, cell) + [cell(n + 1)]
  {
    var a, b := Entries(n + 1, cell), Entries(n, cell) + [cell(n + 1)];
    forall k | 0 <= k < n + 1 ensures a[k] == b[k] {
      if k < n {
        assert b[k] == Entries(n, cell)[k];
      }
    }
  }

  lemma GridStep(w: nat, y: int, m: Month0, n: nat)
    ensures Grid(w, y, m, n + 1) == Grid(w, y, m, n) + [Some(DateString(y, m, n + 1))]
  {
    var e := Entries(n, DayCell(y, m));
    var x := DayCell(y, m)(n + 1);
    EntriesStep(n, DayCell(y, m));
    assert x == Some(DateString(y, m, n + 1));
    assert Blanks(w) + (e + [x]) == (Blanks(w) + e) + [x];
  }

  /** The grid starts with exactly w blanks, then holds days 1 to n in order. */
  lemma GridCell(w: nat, y: int, m: Month0, n: nat, i: int)
    requires 0 <= i < w + n
    ensures |Grid(w, y, m, n)| == w + n
    ensures Grid(w, y, m, n)[i] == if i < w then None else Some(DateString(y, m, i - w + 1))
  {
    var b, e := Blanks(w), Entries(n, DayCell(y, m));
    assert Grid(w, y, m, n) == b + e;
    if i >= w {
      assert (b + e)[i] == e[i - w] == DayCell(y, m)(i - w + 1);
      DayCellAt(y, m, i - w + 1);
    }
  }

  lemma DayCellAt(y: int, m: Month0, d: nat)
    ensures DayCell(y, m)(d) == Some(DateString(y, m, d))
  {
  }

  /** For a four-digit year every day entry of a grid of month m (the month
      grid is the one with the weekday of the 1st as w and the month length
      as n) parses back to its own date, which lies in month m. */
  lemma GridDatesParse(w: nat, y: int, m: Month0, n: nat, d: int)
    requires 1000 <= y <= 9999 && 1 <= d <= n <= MonthLength(y, m)
    ensures |Grid(w, y, m, n)| == w + n
    ensures var s := Grid(w, y, m, n)[w + d - 1];
      s.Some? && ParseIsoDate(s.value) == Some(CalendarDate(y, m, d)) && InMonth(s.value, y, m)
  {
    GridCell(w, y, m, n, w + d - 1);
    DateStringRoundTrip(y, m, d);
  }

  /** For a four-digit year the day entries increase in string order, so
      later cells hold later dates. */
  lemma GridDaysIncrease(w: nat, y: int, m: Month0, n: nat, i: int, j: int)
    requires 1000 <= y <= 9999 && n <= MonthLength(y, m)
    requires w <= i < j < w + n
    ensures |Grid(w, y, m, n)| == w + n
    ensures Grid(w, y, m, n)[i].Some? && Grid(w, y, m, n)[j].Some?
    ensures LexLess(Grid(w, y, m, n)[i].value, Grid(w, y, m, n)[j].value)
  {
    GridCell(w, y, m, n, i);
    GridCell(w, y, m, n, j);
    DayStringsIncrease(y, m, i - w + 1, j - w + 1);
  }

  lemma DayStringsIncrease(y: int, m: Month0, di: int, dj: int)
    requires 1000 <= y <= 9999 && 1 <= di < dj < 100
    ensures LexLess(DateString(y, m, di), DateString(y, m, dj))
  {
    DateStringFields(y, m, di);
    DateStringFields(y, m, dj);
    IsoOrder(DateString(y, m, di), DateString(y, m, dj));
  }

  /** `hasWorkout`. */
  predicate HasWorkout(assignments: seq<WorkoutAssignment>, date: string)
  {
    HasAssignment(assignments, date)
  }

  /** `isWorkoutCompleted`: the first assignment on the date is done. */
  predicate IsWorkoutCompleted(assignments: seq<WorkoutAssignment>, date: string)
  {
    match FindAssignment(assignments, date)
    case Some(a) => IsDone(a)
    case None => false
  }

  /** A completed date always has a workout, and a first assignment without
      a `done` flag is not completed. */
  lemma CompletedImpliesAssigned(assignments: seq<WorkoutAssignment>, date: string)
    ensures IsWorkoutCompleted(assignments, date) ==> HasWorkout(assignments, date)
    ensures FindAssignment(assignments, date).Some? && FindAssignment(assignments, date).value.done.None? ==>
      !IsWorkoutCompleted(assignments, date)
    ensures HasWorkout(assignments, date) <==> exists a :: a in assignments && a.date == date
  {
    if IsWorkoutCompleted(assignments, date) {
      var a := FindAssignment(assignments, date).value;
      var k :| 0 <= k < |assignments| && assignments[k] == a;
      assert DateOf(a) == a.date;
      assert KeyIs(DateOf, date)(assignments[k]);
    }
    if exists a :: a in assignments && a.date == date {
      var a :| a in assignments && a.date == date;
      var k :| 0 <= k < |assignments| && assignments[k] == a;
      assert DateOf(a) == a.date;
      assert KeyIs(DateOf, date)(assignments[k]);
    }
  }

  /** `isPastDate`: plain string order against today's date string. */
  predicate IsPastDate(date: string, today: string)
  {
    LexLess(date, today)
  }

  /** The date a click on a cell selects: none for a past date. */
  function ClickedDate(date: string, today: string): (r: Option<string>)
    ensures r.Some? ==> r.value == date
  {
    if IsPastDate(date, today) then None else Some(date)
  }

  /** A past date's click never selects, every other date's does; on ISO
      dates "past" is the calendar order of the fields. */
  lemma PastDatesNotSelectable(date: string, today: string)
    ensures ClickedDate(date, today).None? <==> IsPastDate(date, today)
    ensures IsoShaped(date) && IsoShaped(today) ==>
      (IsPastDate(date, today) <==> FieldsBefore(YearField(date), MonthField(date), DayField(date),
                                                 YearField(today), MonthField(today), DayField(today)))
  {
    if IsoShaped(date) && IsoShaped(today) {
      IsoOrder(date, today);
    }
  }
}
