/** The domain records of the planner (src/types.ts) and the lookups every
    component performs on them. All numeric-looking exercise fields are text,
    so that free-form values such as a body-weight "body" can be stored. */
module Domain {
  import opened Collections
  import opened Strings

  datatype Exercise = Exercise(id: string, name: string, sets: string, minReps: string,
                               maxReps: string, weight: string)

  datatype Workout = Workout(id: string, name: string, exercises: seq<Exercise>)

  /** A workout planned for a `YYYY-MM-DD` date; `done` may be absent. */
  datatype WorkoutAssignment = WorkoutAssignment(date: string, workoutId: string, done: Option<bool>)

  function WorkoutIdOf(w: Workout): string { w.id }

  function ExerciseIdOf(e: Exercise): string { e.id }

  function DateOf(a: WorkoutAssignment): string { a.date }

  /** `assignment.done` used as a condition: an absent flag means not done. */
  predicate IsDone(a: WorkoutAssignment)
  {
    a.done == Some(true)
  }

  /** `assignments.find(a => a.date === date)`. */
  function FindAssignment(assignments: seq<WorkoutAssignment>, date: string): (r: Option<WorkoutAssignment>)
    ensures r.Some? ==> r.value in assignments && r.value.date == date
    ensures r.None? <==> forall i :: 0 <= i < |assignments| ==> assignments[i].date != date
    ensures r.Some? ==>
      exists i :: 0 <= i < |assignments| && assignments[i] == r.value
        && forall j :: 0 <= j < i ==> assignments[j].date != date
  {
    assert forall i :: 0 <= i < |assignments| ==>
      KeyIs(DateOf, date)(assignments[i]) == (assignments[i].date == date);
    Find(assignments, KeyIs(DateOf, date))
  }

  /** `workouts.find(w => w.id === id)`. */
  function FindWorkout(workouts: seq<Workout>, id: string): (r: Option<Workout>)
    ensures r.Some? ==> r.value in workouts && r.value.id == id
    ensures r.None? <==> forall i :: 0 <= i < |workouts| ==> workouts[i].id != id
    ensures r.Some? ==>
      exists i :: 0 <= i < |workouts| && workouts[i] == r.value
        && forall j :: 0 <= j < i ==> workouts[j].id != id
  {
    assert forall i :: 0 <= i < |workouts| ==> KeyIs(WorkoutIdOf, id)(workouts[i]) == (workouts[i].id == id);
    Find(workouts, KeyIs(WorkoutIdOf, id))
  }

  /** `assignments.some(a => a.date === date)`. */
  predicate HasAssignment(assignments: seq<WorkoutAssignment>, date: string)
  {
    Any(assignments, KeyIs(DateOf, date))
  }

  /** `assignments.filter(a => a.date !== date)`. */
  function WithoutDate(assignments: seq<WorkoutAssignment>, date: string): (r: seq<WorkoutAssignment>)
    ensures forall i :: 0 <= i < |r| ==> r[i].date != date && r[i] in assignments
    ensures forall i :: 0 <= i < |assignments| && assignments[i].date != date ==> assignments[i] in r
  {
    WithoutKey(assignments, DateOf, date)
  }

  /** At most one assignment per date. */
  predicate OnePerDate(assignments: seq<WorkoutAssignment>)
  {
    UniqueKeys(assignments, DateOf)
  }

  /** Every exercise of every workout, in order. */
  function AllExercises(workouts: seq<Workout>): seq<Exercise>
  {
    if workouts == [] then [] else workouts[0].exercises + AllExercises(workouts[1..])
  }

  const CHEST_BACK: Workout := Workout("chest-back", "Chest & Back", [
    Exercise("13", "Pec Deck", "1", "6", "10", "4"),
    Exercise("14", "Incline Press", "1", "1", "3", "5"),
    Exercise("15", "Close Grip Pulldowns", "1", "6", "10", "100"),
    Exercise("16", "Deadlift", "1", "5", "8", "100")])

  const LEGS_ONE: Workout := Workout("legs-one", "Legs Day One", [
    Exercise("10", "Legs Extension", "1", "8", "15", "100"),
    Exercise("11", "Leg Press", "1", "8", "15", "150"),
    Exercise("12", "Standing Calf Raises", "1", "12", "20", "50")])

  const LEGS_TWO: Workout := Workout("legs-two", "Legs Day Two", [
    Exercise("1", "Legs Extension Hold 20sec", "1", "1", "1", "50"),
    Exercise("2", "Squat", "1", "8", "15", "12"),
    Exercise("3", "Calf Raises", "1", "12", "20", "100")])

  const SHOULDERS_ARMS: Workout := Workout("shoulders-arms", "Shoulders & Arms", [
    Exercise("5", "Lateral Raises", "1", "6", "10", "10"),
    Exercise("6", "Bentover Lateral Raises", "1", "6", "10", "10"),
    Exercise("7", "Barbell Curls", "1", "6", "10", "50"),
    Exercise("8", "Triceps Pressdowns", "1", "6", "10", "10"),
    Exercise("9", "Dips", "1", "3", "5", "body")])

  /** The workouts a fresh installation starts with. */
  const DEFAULT_WORKOUTS: seq<Workout> := [CHEST_BACK, LEGS_ONE, LEGS_TWO, SHOULDERS_ARMS]

  /** A stored numeric field that the clamp of the editor accepts as is: a
      number of at least 1, or free-form text that is not a number. */
  predicate AtLeastOneOrText(v: string)
  {
    match ParseFloat(v)
    case Some(x) => x >= 1.0
    case None => true
  }

  /** min reps do not exceed max reps, both read as integers. */
  predicate RepsOrdered(e: Exercise)
  {
    ParseInt(e.minReps).Some? && ParseInt(e.maxReps).Some?
    && ParseInt(e.minReps).value <= ParseInt(e.maxReps).value
  }

  lemma SeedWorkoutIds()
    ensures |DEFAULT_WORKOUTS| == 4
    ensures UniqueKeys(DEFAULT_WORKOUTS, WorkoutIdOf)
  {
  }

  lemma SeedExerciseIds()
    ensures |AllExercises(DEFAULT_WORKOUTS)| == 15
    ensures UniqueKeys(AllExercises(DEFAULT_WORKOUTS), ExerciseIdOf)
  {
    SeedExercisesAreTheFour();
    ChestBackIds();
    LegsOneIds();
    LegsTwoIds();
    ShouldersArmsIds();
    SeedIdsAcrossWorkouts();
    UniqueKeysConcat4(CHEST_BACK.exercises, LEGS_ONE.exercises, LEGS_TWO.exercises,
                      SHOULDERS_ARMS.exercises, ExerciseIdOf);
  }

  lemma SeedExercisesAreTheFour()
    ensures AllExercises(DEFAULT_WORKOUTS) == CHEST_BACK.exercises
      + LEGS_ONE.exercises + LEGS_TWO.exercises + SHOULDERS_ARMS.exercises
  {
    var w := DEFAULT_WORKOUTS;
    assert AllExercises(w[3..]) == w[3].exercises;
    assert AllExercises(w[2..]) == w[2].exercises + w[3].exercises;
    assert AllExercises(w[1..]) == w[1].exercises + w[2].exercises + w[3].exercises;
  }

  /** The seed exercise ids "13".."16": two digits, the first a '1'. */
  lemma ChestBackIds()
    ensures UniqueKeys(CHEST_BACK.exercises, ExerciseIdOf)
    ensures forall i :: 0 <= i < |CHEST_BACK.exercises| ==> IdShape(CHEST_BACK.exercises[i].id, 2, '3', '6')
  {
  }

  /** The seed exercise ids "10".."12". */
  lemma LegsOneIds()
    ensures UniqueKeys(LEGS_ONE.exercises, ExerciseIdOf)
    ensures forall i :: 0 <= i < |LEGS_ONE.exercises| ==> IdShape(LEGS_ONE.exercises[i].id, 2, '0', '2')
  {
  }

  /** The seed exercise ids "1".."3". */
  lemma LegsTwoIds()
    ensures UniqueKeys(LEGS_TWO.exercises, ExerciseIdOf)
    ensures forall i :: 0 <= i < |LEGS_TWO.exercises| ==> IdShape(LEGS_TWO.exercises[i].id, 1, '1', '3')
  {
  }

  /** The seed exercise ids "5".."9". */
  lemma ShouldersArmsIds()
    ensures UniqueKeys(SHOULDERS_ARMS.exercises, ExerciseIdOf)
    ensures forall i :: 0 <= i < |SHOULDERS_ARMS.exercises| ==> IdShape(SHOULDERS_ARMS.exercises[i].id, 1, '5', '9')
  {
  }

  /** An id of the given length (1, or 2 starting with '1') whose last
      character lies between lo and hi. */
  predicate IdShape(id: string, len: nat, lo: char, hi: char)
  {
    |id| == len && (len == 2 ==> id[0] == '1') && (len >= 1 ==> lo <= id[len - 1] <= hi)
  }

  /** No id of one seed workout's exercises reappears in a later workout. */
  lemma SeedIdsAcrossWorkouts()
    ensures KeysDisjoint(LEGS_TWO.exercises, SHOULDERS_ARMS.exercises, ExerciseIdOf)
    ensures KeysDisjoint(LEGS_ONE.exercises,
                         LEGS_TWO.exercises + SHOULDERS_ARMS.exercises, ExerciseIdOf)
    ensures KeysDisjoint(CHEST_BACK.exercises,
                         LEGS_ONE.exercises + LEGS_TWO.exercises
                         + SHOULDERS_ARMS.exercises, ExerciseIdOf)
  {
    ChestBackIds();
    LegsOneIds();
    LegsTwoIds();
    ShouldersArmsIds();
    var c, l1, l2, sa := CHEST_BACK.exercises, LEGS_ONE.exercises, LEGS_TWO.exercises, SHOULDERS_ARMS.exercises;
    ShapesDisjoint(l2, sa, 1, '1', '3', 1, '5', '9');
    ShapesDisjoint(l1, l2, 2, '0', '2', 1, '1', '3');
    ShapesDisjoint(l1, sa, 2, '0', '2', 1, '5', '9');
    ShapesDisjoint(c, l1, 2, '3', '6', 2, '0', '2');
    ShapesDisjoint(c, l2, 2, '3', '6', 1, '1', '3');
    ShapesDisjoint(c, sa, 2, '3', '6', 1, '5', '9');
    KeysDisjointConcat(l1, l2, sa, ExerciseIdOf);
    KeysDisjointConcat(c, l2, sa, ExerciseIdOf);
    KeysDisjointConcat(c, l1, l2 + sa, ExerciseIdOf);
    assert l1 + l2 + sa == l1 + (l2 + sa);
  }

  /** Ids of different lengths, or of the same length whose last characters
      lie in separate ranges, differ. */
  lemma ShapesDisjoint(a: seq<Exercise>, b: seq<Exercise>, la: nat, loa: char, hia: char,
                       lb: nat, lob: char, hib: char)
    requires la >= 1 && lb >= 1 && (la != lb || hia < lob || hib < loa)
    requires forall i :: 0 <= i < |a| ==> IdShape(a[i].id, la, loa, hia)
    requires forall j :: 0 <= j < |b| ==> IdShape(b[j].id, lb, lob, hib)
    ensures KeysDisjoint(a, b, ExerciseIdOf)
  {
    forall i, j | 0 <= i < |a| && 0 <= j < |b|
      ensures ExerciseIdOf(a[i]) != ExerciseIdOf(b[j])
    {
      assert IdShape(a[i].id, la, loa, hia) && IdShape(b[j].id, lb, lob, hib);
      if la == lb {
        assert a[i].id[la - 1] != b[j].id[lb - 1];
      }
    }
  }

  /** A stored numeric field well inside what the editor accepts: a numeral
      for a positive whole number. */
  predicate PositiveNumeral(v: string)
  {
    |v| >= 1 && AllDigits(v) && DigitsValue(v) >= 1
  }

  lemma PositiveNumeralParses(v: string)
    requires PositiveNumeral(v)
    ensures AtLeastOneOrText(v) && ParseInt(v) == Some(DigitsValue(v))
  {
    ParseDigits(v);
  }

  /** Min reps at most max reps, and every numeric field at least 1 unless it
      is the free-form weight "body". */
  predicate SeedShaped(e: Exercise)
  {
    RepsOrdered(e) && AtLeastOneOrText(e.sets) && AtLeastOneOrText(e.minReps)
    && AtLeastOneOrText(e.maxReps) && AtLeastOneOrText(e.weight)
    && (ParseFloat(e.weight).None? ==> e.weight == "body")
  }

  lemma BodyIsText()
    ensures ParseFloat("body") == None
  {
    var b := "body";
    assert !IsJsWhitespace(b[0]) && !IsDigit(b[0]) && b[0] != '.';
    assert TrimStart(b) == b;
    assert Unsigned(b) == b;
    assert DigitRunLength(b) == 0;
    assert IntegerDigits(b) == "" && FractionDigits(b) == "";
  }

  lemma WeightShaped(v: string)
    requires PositiveNumeral(v) || v == "body"
    ensures AtLeastOneOrText(v) && (ParseFloat(v).None? ==> v == "body")
  {
    if PositiveNumeral(v) {
      PositiveNumeralParses(v);
      ParseDigits(v);
    } else {
      BodyIsText();
    }
  }

  /** The written form of the seed exercises: whole-number numerals, min reps
      at most max reps, and a numeral or "body" as the weight. */
  predicate NumeralExercise(e: Exercise)
  {
    PositiveNumeral(e.sets) && PositiveNumeral(e.minReps) && PositiveNumeral(e.maxReps)
    && DigitsValue(e.minReps) <= DigitsValue(e.maxReps)
    && (PositiveNumeral(e.weight) || e.weight == "body")
  }

  lemma NumeralExerciseShaped(e: Exercise)
    requires NumeralExercise(e)
    ensures SeedShaped(e)
  {
    PositiveNumeralParses(e.sets);
    PositiveNumeralParses(e.minReps);
    PositiveNumeralParses(e.maxReps);
    WeightShaped(e.weight);
  }

  /** The numerals that occur in the seed workouts. */
  lemma SeedNumerals()
    ensures PositiveNumeral("1") && PositiveNumeral("3") && PositiveNumeral("4") && PositiveNumeral("5")
    ensures PositiveNumeral("6") && PositiveNumeral("8") && PositiveNumeral("10") && PositiveNumeral("12")
    ensures PositiveNumeral("15") && PositiveNumeral("20") && PositiveNumeral("50")
    ensures PositiveNumeral("100") && PositiveNumeral("150")
    ensures DigitsValue("1") == 1 && DigitsValue("3") == 3 && DigitsValue("5") == 5
    ensures DigitsValue("6") == 6 && DigitsValue("8") == 8 && DigitsValue("10") == 10
    ensures DigitsValue("12") == 12 && DigitsValue("15") == 15 && DigitsValue("20") == 20
  {
    OneDigitNumerals();
    TwoDigitNumerals();
  }

  lemma OneDigitNumerals()
    ensures DigitsValue("1") == 1 && DigitsValue("3") == 3 && DigitsValue("4") == 4
    ensures DigitsValue("5") == 5 && DigitsValue("6") == 6 && DigitsValue("8") == 8
    ensures AllDigits("1") && AllDigits("3") && AllDigits("4") && AllDigits("5")
    ensures AllDigits("6") && AllDigits("8")
  {
  }

  lemma TwoDigitNumerals()
    ensures DigitsValue("10") == 10 && DigitsValue("12") == 12 && DigitsValue("15") == 15
    ensures DigitsValue("20") == 20 && DigitsValue("50") == 50
    ensures DigitsValue("100") == 100 && DigitsValue("150") == 150
    ensures AllDigits("10") && AllDigits("12") && AllDigits("15") && AllDigits("20")
    ensures AllDigits("50") && AllDigits("100") && AllDigits("150")
  {
  }

  lemma ChestBackShaped()
    ensures forall e :: e in CHEST_BACK.exercises ==> NumeralExercise(e)
  {
    SeedNumerals();
  }

  lemma LegsOneShaped()
    ensures forall e :: e in LEGS_ONE.exercises ==> NumeralExercise(e)
  {
    SeedNumerals();
  }

  lemma LegsTwoShaped()
    ensures forall e :: e in LEGS_TWO.exercises ==> NumeralExercise(e)
  {
    SeedNumerals();
  }

  lemma ShouldersArmsShaped()
    ensures forall e :: e in SHOULDERS_ARMS.exercises ==> NumeralExercise(e)
  {
    SeedNumerals();
  }

  /** Every seed exercise is written with whole-number numerals of at least 1
      for sets and reps, min reps at most max reps, and a numeral or "body" as
      its weight; hence every numeric field is at least 1 except "body". */
  lemma SeedExercisesWellFormed()
    ensures forall e :: e in AllExercises(DEFAULT_WORKOUTS) ==> NumeralExercise(e)
    ensures forall e :: e in AllExercises(DEFAULT_WORKOUTS) ==> SeedShaped(e)
  {
    SeedExercisesAreTheFour();
    ChestBackShaped();
    LegsOneShaped();
    LegsTwoShaped();
    ShouldersArmsShaped();
    forall e | e in AllExercises(DEFAULT_WORKOUTS)
      ensures SeedShaped(e)
    {
      NumeralExerciseShaped(e);
    }
  }
}
