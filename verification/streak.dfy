/**
  The streak rule of the progress ledger. Dates are day numbers; the gap
  between the last workout and today is `today - last`, which is what
  `(datetime.now() - midnight(last)).days` yields for any time of day.
*/
module Streak {
  import opened Wrappers

  datatype StreakState = StreakState(streak: int, best: int)

  function Max(a: int, b: int): int
  {
    if a >= b then a else b
  }

  /** The streak and best streak after a workout today, given the date of the
      previous one (None when there is none). */
  function NextStreak(last: Option<int>, today: int, st: StreakState): (r: StreakState)
    ensures r.streak == 1 || r.streak == st.streak || r.streak == st.streak + 1
    ensures r.best >= st.best
    ensures r.best != st.best ==> r.best == r.streak
  {
    match last
    case None => st.(streak := 1)
    case Some(day) =>
      var gap := today - day;
      if gap == 1 then
        var streak := st.streak + 1;
        StreakState(streak, Max(streak, st.best))
      else if gap > 1 then st.(streak := 1)
      else st
  }

  /** The rule branch by branch: a first workout or a gap of more than one day
      restarts at 1, the next day extends the streak and raises the best to it,
      a gap of zero or less (same day, or a date in the future) changes nothing;
      the best streak moves in the next-day branch only, and never down. */
  lemma StreakRules(last: Option<int>, today: int, st: StreakState)
    ensures var r := NextStreak(last, today, st);
      && (last.None? ==> r.streak == 1)
      && (last.Some? && today - last.value == 1 ==> r.streak == st.streak + 1 && r.best == Max(r.streak, st.best))
      && (last.Some? && today - last.value > 1 ==> r.streak == 1)
      && (last.Some? && today - last.value <= 0 ==> r.streak == st.streak)
      && (r.best != st.best ==> last.Some? && today - last.value == 1)
      && r.best >= st.best
  {
  }

  /** The rule does not keep `best >= streak`: a first workout from a zero
      record leaves the best streak at 0 while the streak becomes 1. */
  lemma BestCanTrailStreak()
    ensures NextStreak(None, 0, StreakState(0, 0)) == StreakState(1, 0)
  {
  }

  /** The streak after workouts on each of the given days, in order. */
  function StreakOver(last: Option<int>, st: StreakState, days: seq<int>): StreakState
    decreases |days|
  {
    if days == [] then st else StreakOver(Some(days[0]), NextStreak(last, days[0], st), days[1..])
  }

  predicate Consecutive(days: seq<int>)
  {
    forall i :: 0 <= i < |days| - 1 ==> days[i + 1] == days[i] + 1
  }

  /** Workouts on the days right after the last one extend the streak by one
      per day and raise the best streak to the new streak. */
  lemma {:induction false} ExtendedStreak(last: int, st: StreakState, days: seq<int>)
    requires |days| >= 1 && days[0] == last + 1 && Consecutive(days)
    ensures StreakOver(Some(last), st, days) == StreakState(st.streak + |days|, Max(st.best, st.streak + |days|))
    decreases |days|
  {
    var next := NextStreak(Some(last), days[0], st);
    assert next == StreakState(st.streak + 1, Max(st.streak + 1, st.best));
    if |days| > 1 {
      assert Consecutive(days[1..]) by {
        forall i | 0 <= i < |days[1..]| - 1 ensures days[1..][i + 1] == days[1..][i] + 1 {
          assert days[i + 2] == days[i + 1] + 1;
        }
      }
      ExtendedStreak(days[0], next, days[1..]);
    }
  }

  /** N workouts on consecutive days, starting fresh (no previous date, or a
      gap of more than a day) give a streak of N; once N >= 2 the best streak
      is the larger of the previous best and N, while a single workout leaves
      it where it was. */
  lemma ConsecutiveDaysStreak(last: Option<int>, st: StreakState, days: seq<int>)
    requires |days| >= 1 && Consecutive(days)
    requires last.None? || days[0] - last.value > 1
    ensures StreakOver(last, st, days).streak == |days|
    ensures StreakOver(last, st, days).best == if |days| == 1 then st.best else Max(st.best, |days|)
  {
    var first := NextStreak(last, days[0], st);
    assert first == StreakState(1, st.best);
    if |days| > 1 {
      assert Consecutive(days[1..]) by {
        forall i | 0 <= i < |days[1..]| - 1 ensures days[1..][i + 1] == days[1..][i] + 1 {
          assert days[i + 2] == days[i + 1] + 1;
        }
      }
      ExtendedStreak(days[0], first, days[1..]);
    }
  }
}
