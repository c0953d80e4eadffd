/**
  The workout countdown as a pure transition system. The fields of the
  application that it abstracts are `timer_running`, `time_remaining`
  and `total_time`; the host's one-second callback becomes one `Tick`.
*/
module Session {

  datatype TimerState = TimerState(running: bool, remaining: int, total: int)

  /** The number of seconds a fresh application and `reset_timer` put on the clock. */
  const DefaultSeconds: int := 60

  /** The timer of a freshly built application: 60 seconds, not running.
      `total_time` does not exist yet; it is modelled as 0. */
  function Fresh(): TimerState
  {
    TimerState(false, DefaultSeconds, 0)
  }

  /** What `start_workout` sets before its immediate first tick. */
  function Armed(duration: int): TimerState
  {
    TimerState(true, duration, duration)
  }

  /** `reset_timer`: stop and put 60 seconds back, whatever the state. */
  function Reset(s: TimerState): TimerState
  {
    s.(running := false, remaining := DefaultSeconds)
  }

  /** A tick that runs the completion: running and nothing left (`not time_remaining > 0`). */
  predicate CompletesOnTick(s: TimerState)
  {
    s.running && s.remaining <= 0
  }

  /** One tick of either countdown: nothing while paused, one second less while
      time remains, otherwise stop (and the caller runs the completion). */
  function Tick(s: TimerState): (r: TimerState)
    ensures r.total == s.total
    ensures r.running ==> s.running
    ensures r.remaining < s.remaining <==> s.running && s.remaining > 0
    ensures s.remaining - 1 <= r.remaining <= s.remaining
  {
    if !s.running then s
    else if s.remaining > 0 then s.(remaining := s.remaining - 1)
    else s.(running := false)
  }

  /** The bookkeeping that holds during a session started with a duration >= 0. */
  predicate InSession(s: TimerState)
  {
    0 <= s.remaining <= s.total
  }

  /** The progress-bar value `(total_time - time_remaining) / total_time` that
      a counting-down tick displays; its denominator is positive there. */
  function Fraction(s: TimerState): (f: real)
    requires s.running && s.remaining > 0 && InSession(s)
    ensures 0.0 <= f < 1.0
  {
    var elapsed := (s.total - s.remaining) as real;
    var total := s.total as real;
    assert 0.0 <= elapsed < total;
    elapsed / total
  }

  /** The state after k ticks. */
  function Run(s: TimerState, k: nat): TimerState
    decreases k
  {
    if k == 0 then s else Run(Tick(s), k - 1)
  }

  /** How many of k ticks run the completion. */
  function Completions(s: TimerState, k: nat): nat
    decreases k
  {
    if k == 0 then 0 else (if CompletesOnTick(s) then 1 else 0) + Completions(Tick(s), k - 1)
  }

  /** One tick keeps a session's bookkeeping. */
  lemma TickKeepsSession(s: TimerState)
    requires InSession(s)
    ensures InSession(Tick(s)) && Tick(s).total == s.total
    ensures Tick(s).remaining == if s.running && s.remaining > 0 then s.remaining - 1 else s.remaining
  {
  }

  /** Ticks delivered while paused (or after completion) change nothing and
      complete nothing. */
  lemma {:induction false} PausedTicksAreIdle(s: TimerState, k: nat)
    requires !s.running
    ensures Run(s, k) == s && Completions(s, k) == 0
    decreases k
  {
    if k > 0 {
      PausedTicksAreIdle(Tick(s), k - 1);
    }
  }

  /** A running countdown with r >= 0 seconds left: the first r ticks each take
      one second off; tick r + 1 stops the timer and is the only tick of all
      that completes. */
  lemma {:induction false} CountdownRun(r: int, total: int, k: nat)
    requires r >= 0
    ensures k <= r ==> Run(TimerState(true, r, total), k) == TimerState(true, r - k, total)
                       && Completions(TimerState(true, r, total), k) == 0
    ensures k > r ==> Run(TimerState(true, r, total), k) == TimerState(false, 0, total)
                      && Completions(TimerState(true, r, total), k) == 1
    decreases k
  {
    var s := TimerState(true, r, total);
    if k == 0 {
    } else if r > 0 {
      assert Tick(s) == TimerState(true, r - 1, total);
      CountdownRun(r - 1, total, k - 1);
    } else {
      assert Tick(s) == TimerState(false, 0, total);
      PausedTicksAreIdle(Tick(s), k - 1);
    }
  }

  /** A session of N >= 0 seconds, counting the immediate first tick: it stays
      within `0 <= remaining <= total`, has N - k seconds left after k <= N ticks,
      completes on tick N + 1 (a 0-second session on its first tick) and
      completes exactly once however many ticks follow. */
  lemma SessionCompletesOnce(n: int, k: nat)
    requires n >= 0
    ensures InSession(Run(Armed(n), k))
    ensures Run(Armed(n), k).remaining == if k <= n then n - k else 0
    ensures Run(Armed(n), k).running <==> k <= n
    ensures CompletesOnTick(Run(Armed(n), k)) <==> k == n
    ensures Completions(Armed(n), k) == if k > n then 1 else 0
  {
    CountdownRun(n, n, k);
  }
}
