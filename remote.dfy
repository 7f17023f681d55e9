/** The remote service of src/services/database.ts as far as it is pure: the
    choice between it and browser storage, the rows it writes and reads, and
    the date range of its month delete. */
module Remote {
  import opened Collections
  import opened Strings
  import opened Dates
  import opened Domain
  import opened Database

  // The choice of backend, src/services/database.ts:271-273 with
  // src/config/supabase.ts:7-9.

  datatype Backend = Remote | BrowserStorage

  /** The remote service when both the project URL and the key are non-empty,
      browser storage otherwise. */
  function SelectBackend(url: string, anonKey: string): (b: Backend)
    ensures b == BrowserStorage <==> url == "" || anonKey == ""
  {
    if url != "" && anonKey != "" then Remote else BrowserStorage
  }

  // The remote service's rows and date range.

  /** A row of the remote `workout_assignments` table; the `done` column may
      be missing from a written row or null in a read one. */
  datatype AssignmentRow = AssignmentRow(date: string, workoutId: string, done: Option<bool>)

  /** `value || false` on an optional flag. */
  function DoneOrFalse(done: Option<bool>): (b: bool)
    ensures b <==> done == Some(true)
  {
    match done
    case Some(d) => d
    case None => false
  }

  /** The row `saveAssignments` writes for each assignment: no `done` column. */
  function BulkRow(a: WorkoutAssignment): AssignmentRow
  {
    AssignmentRow(a.date, a.workoutId, None)
  }

  /** The row `saveAssignment` writes: `done` defaults to false. */
  function SingleRow(a: WorkoutAssignment): AssignmentRow
  {
    AssignmentRow(a.date, a.workoutId, Some(DoneOrFalse(a.done)))
  }

  /** The assignment `loadAssignments` builds from a row. */
  function FromRow(r: AssignmentRow): (a: WorkoutAssignment)
    ensures a.done.Some?
  {
    WorkoutAssignment(r.date, r.workoutId, Some(DoneOrFalse(r.done)))
  }

  /** Writing one assignment and reading it back keeps its date, its workout
      and whether it is done; only an absent flag becomes an explicit false. */
  lemma SingleRowRoundTrip(a: WorkoutAssignment)
    ensures FromRow(SingleRow(a)).date == a.date && FromRow(SingleRow(a)).workoutId == a.workoutId
    ensures IsDone(FromRow(SingleRow(a))) <==> IsDone(a)
    ensures a.done.Some? ==> FromRow(SingleRow(a)) == a
  {
  }

  /** A freshly inserted bulk row carries no flag, so it reads back as not done
      whatever the assignment said. */
  lemma BulkRowLosesDone(a: WorkoutAssignment)
    ensures FromRow(BulkRow(a)) == a.(done := Some(false))
    ensures !IsDone(FromRow(BulkRow(a)))
  {
  }

  /** The first date string of the remote month range. */
  function MonthRangeStart(y: int, m: Month0): string
  {
    IntToString(y) + "-" + Pad2(m + 1) + "-" + "01"
  }

  /** The last date string of the remote month range: always day 31. */
  function MonthRangeEnd(y: int, m: Month0): string
  {
    IntToString(y) + "-" + Pad2(m + 1) + "-" + "31"
  }

  /** Whether the remote range delete for (y, m) matches a stored date: the
      store's `gte` and `lte` on the text column. */
  predicate InMonthRange(s: string, y: int, m: Month0)
  {
    !LexLess(s, MonthRangeStart(y, m)) && !LexLess(MonthRangeEnd(y, m), s)
  }

  /** For a four-digit year the range ends are ISO-shaped with fields
      (y, m + 1, 1) and (y, m + 1, 31). */
  lemma RangeEndFields(y: int, m: Month0)
    requires 1000 <= y <= 9999
    ensures IsoShaped(MonthRangeStart(y, m)) && IsoShaped(MonthRangeEnd(y, m))
    ensures YearField(MonthRangeStart(y, m)) == y && MonthField(MonthRangeStart(y, m)) == m + 1
    ensures DayField(MonthRangeStart(y, m)) == 1
    ensures YearField(MonthRangeEnd(y, m)) == y && MonthField(MonthRangeEnd(y, m)) == m + 1
    ensures DayField(MonthRangeEnd(y, m)) == 31
  {
    assert Pow10(3) == 1000 && Pow10(4) == 10000;
    NatToStringLength(y, 4);
    Pad2Digits(m + 1);
    DayNumerals();
    IsoFromParts(NatToString(y), Pad2(m + 1), "01");
    IsoFromParts(NatToString(y), Pad2(m + 1), "31");
  }

  lemma DayNumerals()
    ensures AllDigits("01") && DigitsValue("01") == 1
    ensures AllDigits("31") && DigitsValue("31") == 31
  {
  }

  /** A date with day between 1 and 31 lies between day 1 and day 31 of
      (y, mm) in field order exactly when it has year y and month mm. */
  lemma RangeFields(yy: int, mm: int, dd: int, y: int, m: int)
    requires 1 <= dd <= 31
    ensures (!FieldsBefore(yy, mm, dd, y, m, 1) && !FieldsBefore(y, m, 31, yy, mm, dd))
      <==> (yy == y && mm == m)
  {
  }

  /** For four-digit years, the remote range delete and the local month filter
      agree on every valid date string. */
  lemma MonthRangeMatchesMonth(s: string, y: int, m: Month0)
    requires 1000 <= y <= 9999 && ParseIsoDate(s).Some?
    ensures InMonthRange(s, y, m) <==> InMonth(s, y, m)
  {
    var lo, hi := MonthRangeStart(y, m), MonthRangeEnd(y, m);
    RangeEndFields(y, m);
    var d := ParseIsoDate(s).value;
    assert d == CalendarDate(YearField(s), MonthField(s) - 1, DayField(s));
    assert 1 <= DayField(s) <= 31 by {
      assert MonthLength(d.year, d.month) <= 31;
    }
    IsoOrder(s, lo);
    IsoOrder(hi, s);
    RangeFields(YearField(s), MonthField(s), DayField(s), y, m + 1);
  }

  /** The entries the remote month delete keeps. */
  function OutsideRange(y: int, m: Month0): WorkoutAssignment -> bool
  {
    (a: WorkoutAssignment) => !InMonthRange(a.date, y, m)
  }

  /** For a four-digit year and stored dates that are all valid, the remote
      and the browser-storage month deletes keep the same list. */
  lemma RangeDeleteMatchesLocal(s: seq<WorkoutAssignment>, y: int, m: Month0)
    requires 1000 <= y <= 9999
    requires forall i :: 0 <= i < |s| ==> ParseIsoDate(s[i].date).Some?
    ensures Filter(s, OutsideRange(y, m)) == Filter(s, NotInMonth(y, m))
  {
    forall i | 0 <= i < |s| ensures OutsideRange(y, m)(s[i]) == NotInMonth(y, m)(s[i]) {
      MonthRangeMatchesMonth(s[i].date, y, m);
    }
    FilterCongruent(s, OutsideRange(y, m), NotInMonth(y, m));
  }

  /** "2024-02-30" is not a date, so the local filter keeps it, but it lies
      inside the remote range for February 2024, which deletes it. */
  lemma RangeCoversNonDates()
    ensures InMonthRange("2024-02-30", 2024, 1)
    ensures !InMonth("2024-02-30", 2024, 1)
  {
    FebruaryThirtiethShape();
    FebruaryThirtiethInRange();
  }

  lemma FebruaryThirtiethShape()
    ensures IsoShaped("2024-02-30")
    ensures YearField("2024-02-30") == 2024 && MonthField("2024-02-30") == 2
    ensures DayField("2024-02-30") == 30
    ensures ParseIsoDate("2024-02-30") == None
  {
    assert "2024-02-30" == "2024" + "-" + "02" + "-" + "30";
    FebruaryThirtiethDigits();
    IsoFromParts("2024", "02", "30");
    assert IsLeapYear(2024) && !ValidDate(2024, 1, 30);
  }

  lemma FebruaryThirtiethInRange()
    requires IsoShaped("2024-02-30")
    requires YearField("2024-02-30") == 2024 && MonthField("2024-02-30") == 2
    requires DayField("2024-02-30") == 30
    ensures InMonthRange("2024-02-30", 2024, 1)
  {
    RangeEndFields(2024, 1);
    IsoOrder("2024-02-30", MonthRangeStart(2024, 1));
    IsoOrder(MonthRangeEnd(2024, 1), "2024-02-30");
  }

  lemma FebruaryThirtiethDigits()
    ensures AllDigits("2024") && DigitsValue("2024") == 2024
    ensures AllDigits("02") && DigitsValue("02") == 2
    ensures AllDigits("30") && DigitsValue("30") == 30
  {
    assert "2024"[..3] == "202" && "202"[..2] == "20" && "20"[..1] == "2";
  }
}
