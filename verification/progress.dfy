/**
  The progress document (statistics, history and per-type counters) and the
  rule that applies one completed workout to it. A failure anywhere in the
  update means nothing is written, so the rule yields None and the stored
  document stays as it was.
*/
module Progress {
  import opened Wrappers
  import opened Streak
  import opened Catalog

  /** One history entry; dates are day numbers. */
  datatype WorkoutRecord = WorkoutRecord(
    date: int, workout: string, duration: string, completed: bool,
    calories: int, time: int, exercisesCompleted: nat)

  datatype Stats = Stats(
    totalWorkouts: int, totalCalories: int, streak: int, bestStreak: int,
    lastWorkoutDate: Option<int>)

  datatype ProgressDoc = ProgressDoc(stats: Stats, history: seq<WorkoutRecord>, workoutCounts: map<string, int>)

  /** The characters Python's `str.split()` treats as separators. */
  predicate IsSpace(c: char)
  {
    var n := c as int;
    || 9 <= n <= 13 || 28 <= n <= 32 || n == 0x85 || n == 0xA0 || n == 0x1680
    || 0x2000 <= n <= 0x200A || n == 0x2028 || n == 0x2029 || n == 0x202F
    || n == 0x205F || n == 0x3000
  }

  /** The number of separators that open the string. */
  function LeadingSpaces(s: string): (n: nat)
    ensures n <= |s|
    ensures forall i :: 0 <= i < n ==> IsSpace(s[i])
    ensures n < |s| ==> !IsSpace(s[n])
    decreases |s|
  {
    if s != [] && IsSpace(s[0]) then 1 + LeadingSpaces(s[1..]) else 0
  }

  /** The longest prefix without a separator. */
  function WordPrefix(s: string): (w: string)
    ensures |w| <= |s| && w == s[..|w|]
    ensures forall i :: 0 <= i < |w| ==> !IsSpace(w[i])
    ensures |w| < |s| ==> IsSpace(s[|w|])
    decreases |s|
  {
    if s == [] || IsSpace(s[0]) then [] else [s[0]] + WordPrefix(s[1..])
  }

  /** `name.split()[0]`: the first word, or None where Python raises IndexError
      because the name is empty or all separators. */
  function FirstWord(name: string): (r: Option<string>)
    ensures r.None? <==> forall i :: 0 <= i < |name| ==> IsSpace(name[i])
    ensures r.Some? ==> var start := LeadingSpaces(name);
      && r.value != []
      && (forall i :: 0 <= i < |r.value| ==> !IsSpace(r.value[i]))
      && start + |r.value| <= |name|
      && name[start..start + |r.value|] == r.value
      && (start + |r.value| < |name| ==> IsSpace(name[start + |r.value|]))
  {
    var start := LeadingSpaces(name);
    if start == |name| then None else Some(WordPrefix(name[start..]))
  }

  /** The history entry for a completed workout of `program` at `duration`. */
  function RecordOf(program: Program, duration: Duration, today: int): (r: WorkoutRecord)
    ensures r.completed && r.date == today && r.workout == program.name
    ensures r.exercisesCompleted == |program.exercises|
  {
    WorkoutRecord(today, program.name, duration.name, true, duration.calories, duration.time, |program.exercises|)
  }

  /** The progress document after one completed workout of `program` at
      `duration` today, or None when the program name has no first word. */
  function ApplyCompletion(doc: ProgressDoc, program: Program, duration: Duration, today: int): (r: Option<ProgressDoc>)
    ensures r.Some? <==> FirstWord(program.name).Some?
    ensures r.Some? ==>
      && r.value.stats.totalWorkouts == doc.stats.totalWorkouts + 1
      && r.value.stats.lastWorkoutDate == Some(today)
      && |r.value.history| == |doc.history| + 1
      && r.value.workoutCounts.Keys == doc.workoutCounts.Keys
  {
    match FirstWord(program.name)
    case None => None
    case Some(kind) =>
      var st := NextStreak(doc.stats.lastWorkoutDate, today, StreakState(doc.stats.streak, doc.stats.bestStreak));
      var stats := Stats(doc.stats.totalWorkouts + 1, doc.stats.totalCalories + duration.calories,
                         st.streak, st.best, Some(today));
      var counts := if kind in doc.workoutCounts then doc.workoutCounts[kind := doc.workoutCounts[kind] + 1]
                    else doc.workoutCounts;
      Some(ProgressDoc(stats, doc.history + [RecordOf(program, duration, today)], counts))
  }

  /** The statistics after a completion: one more workout, the duration's
      calories added, the streak rule applied, and today as the last date. The
      update fails exactly when the program name has no word. */
  lemma CompletionStats(doc: ProgressDoc, program: Program, duration: Duration, today: int)
    ensures ApplyCompletion(doc, program, duration, today).None?
            <==> forall i :: 0 <= i < |program.name| ==> IsSpace(program.name[i])
    ensures ApplyCompletion(doc, program, duration, today).Some? ==>
      var stats := ApplyCompletion(doc, program, duration, today).value.stats;
      var st := NextStreak(doc.stats.lastWorkoutDate, today, StreakState(doc.stats.streak, doc.stats.bestStreak));
      && stats.totalWorkouts == doc.stats.totalWorkouts + 1
      && stats.totalCalories == doc.stats.totalCalories + duration.calories
      && stats.streak == st.streak && stats.bestStreak == st.best
      && stats.lastWorkoutDate == Some(today)
  {
  }

  /** A completion appends exactly one entry, marked completed and counting the
      program's exercises, and leaves every earlier entry as it was. */
  lemma CompletionAppendsHistory(doc: ProgressDoc, program: Program, duration: Duration, today: int)
    requires ApplyCompletion(doc, program, duration, today).Some?
    ensures var h := ApplyCompletion(doc, program, duration, today).value.history;
      && |h| == |doc.history| + 1
      && h[..|doc.history|] == doc.history
      && h[|doc.history|] == RecordOf(program, duration, today)
      && h[|doc.history|].completed
      && h[|doc.history|].date == today
      && h[|doc.history|].workout == program.name
      && h[|doc.history|].calories == duration.calories
      && h[|doc.history|].exercisesCompleted == |program.exercises|
      && h[|doc.history|].duration == duration.name
      && h[|doc.history|].time == duration.time
  {
  }

  /** A completion adds one to the counter of the program's first word when
      that counter exists, and to no other; it never adds a counter. */
  lemma CompletionCounts(doc: ProgressDoc, program: Program, duration: Duration, today: int)
    requires ApplyCompletion(doc, program, duration, today).Some?
    ensures var counts := ApplyCompletion(doc, program, duration, today).value.workoutCounts;
      var kind := FirstWord(program.name).value;
      && counts.Keys == doc.workoutCounts.Keys
      && (forall k :: k in counts ==> counts[k] == doc.workoutCounts[k] + (if k == kind then 1 else 0))
  {
  }

  /** The calories of all entries of a history. */
  function SumCalories(history: seq<WorkoutRecord>): int
    decreases |history|
  {
    if history == [] then 0 else history[0].calories + SumCalories(history[1..])
  }

  lemma {:induction false} SumCaloriesAppend(history: seq<WorkoutRecord>, r: WorkoutRecord)
    ensures SumCalories(history + [r]) == SumCalories(history) + r.calories
    decreases |history|
  {
    if history != [] {
      assert (history + [r])[1..] == history[1..] + [r];
      SumCaloriesAppend(history[1..], r);
    }
  }

  /** Totals that agree with the history: one workout and its calories per entry. */
  predicate Consistent(doc: ProgressDoc)
  {
    doc.stats.totalWorkouts == |doc.history| && doc.stats.totalCalories == SumCalories(doc.history)
  }

  /** Completions keep the totals in agreement with the history. */
  lemma CompletionKeepsConsistent(doc: ProgressDoc, program: Program, duration: Duration, today: int)
    requires Consistent(doc)
    requires ApplyCompletion(doc, program, duration, today).Some?
    ensures Consistent(ApplyCompletion(doc, program, duration, today).value)
  {
    SumCaloriesAppend(doc.history, RecordOf(program, duration, today));
  }
}
