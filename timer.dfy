/** The countdown engine (sharp_timer/timer.py).

    The engine's four fields are kept by the class `TimerEngine`; the value
    `Engine` is their snapshot, and each operation is specified by a function
    from the old snapshot to the new one. The timer thread is replaced by a
    `Tick` method that performs one pass of the body of `_timer_loop`, and the
    completion callback by a counter of how many times it was called. */
module Timer {
  import opened Common

  /** `duration`, `remaining`, `running` and `paused`, in seconds. */
  datatype Engine = Engine(duration: int, remaining: int, running: bool, paused: bool)

  /** What a tick produced: the new engine and whether completion fired. */
  datatype TickOutcome = TickOutcome(engine: Engine, fired: bool)

  /** The invariant every operation keeps. */
  predicate Valid(e: Engine) {
    0 <= e.remaining <= e.duration && (e.paused ==> e.running)
  }

  /** The state a new engine starts in. */
  const Initial: Engine := Engine(0, 0, false, false)

  /** `is_running`: counting down, that is running and not paused. */
  predicate Counting(e: Engine) {
    e.running && !e.paused
  }

  /** `start_with_seconds`: a non-positive duration is ignored; otherwise the
      engine is stopped and restarted on the whole duration. */
  function StartedSeconds(e: Engine, seconds: int): (r: Engine)
    ensures seconds <= 0 ==> r == e
    ensures seconds > 0 ==> Counting(r) && r.duration == seconds && r.remaining == r.duration
    ensures Valid(e) ==> Valid(r)
  {
    if seconds <= 0 then e
    else Stopped(e).(duration := seconds, remaining := seconds, running := true, paused := false)
  }

  /** `start`: the same with a duration in minutes. */
  function Started(e: Engine, minutes: int): (r: Engine)
    ensures minutes <= 0 ==> r == e
    ensures minutes > 0 ==> Counting(r) && r.duration == 60 * minutes && r.remaining == r.duration
    ensures Valid(e) ==> Valid(r)
  {
    if minutes <= 0 then e
    else Stopped(e).(duration := minutes * 60, remaining := minutes * 60, running := true, paused := false)
  }

  /** `pause`: only a running, unpaused engine becomes paused. */
  function Paused(e: Engine): (r: Engine)
    ensures r.(paused := e.paused) == e
    ensures r.paused <==> e.paused || e.running
    ensures Valid(e) ==> Valid(r)
  {
    if e.running && !e.paused then e.(paused := true) else e
  }

  /** `resume`: only a running, paused engine is resumed. */
  function Resumed(e: Engine): (r: Engine)
    ensures r.(paused := e.paused) == e
    ensures r.paused <==> e.paused && !e.running
    ensures Valid(e) ==> Valid(r) && !r.paused
  {
    if e.running && e.paused then e.(paused := false) else e
  }

  /** `stop`: neither running nor paused; the remaining time is kept. */
  function Stopped(e: Engine): (r: Engine)
    ensures !Counting(r) && !r.paused
    ensures r.duration == e.duration && r.remaining == e.remaining
    ensures Valid(e) ==> Valid(r)
  {
    e.(running := false, paused := false)
  }

  /** `reset`: stop, then no time remains. */
  function Cleared(e: Engine): (r: Engine)
    ensures !Counting(r) && !r.paused
    ensures r.duration == e.duration && r.remaining == 0
    ensures Valid(e) ==> Valid(r)
  {
    Stopped(e).(remaining := 0)
  }

  /** One pass of `_timer_loop`'s body: a paused or stopped engine is left
      alone; an expired one stops and fires completion; otherwise one second
      is taken off. */
  function TickStep(e: Engine): (r: TickOutcome)
    ensures !Counting(e) ==> r == TickOutcome(e, false)
    ensures Counting(e) && e.remaining > 0 ==> r == TickOutcome(e.(remaining := e.remaining - 1), false)
    ensures Counting(e) && e.remaining <= 0 ==> r == TickOutcome(e.(running := false), true)
    ensures Valid(e) ==> Valid(r.engine)
  {
    if !e.running || e.paused then TickOutcome(e, false)
    else if e.remaining <= 0 then TickOutcome(e.(running := false), true)
    else TickOutcome(e.(remaining := e.remaining - 1), false)
  }

  /** `get_remaining_time`: whole minutes and leftover seconds of the
      remaining time, counted from zero when it is negative. */
  function RemainingTime(e: Engine): (r: (int, int))
    ensures r.0 >= 0 && 0 <= r.1 < 60
    ensures 60 * r.0 + r.1 == Max0(e.remaining)
  {
    (Max0(e.remaining) / 60, Max0(e.remaining) % 60)
  }

  /** A valid engine is never both counting down and paused. */
  lemma RunningExcludesPaused(e: Engine)
    requires Valid(e)
    ensures !(Counting(e) && e.paused)
    ensures e.paused ==> e.running
  {
  }

  /** Pausing and resuming are idempotent, and resuming a pause restores a
      running engine. */
  lemma PauseResumeIdempotent(e: Engine)
    ensures Paused(Paused(e)) == Paused(e)
    ensures Resumed(Resumed(e)) == Resumed(e)
    ensures Counting(e) ==> Resumed(Paused(e)) == e
  {
  }

  /** `n` passes of the loop body: the engine reached and how many times
      completion fired. */
  function Run(e: Engine, n: nat): (r: (Engine, nat))
    ensures Valid(e) ==> Valid(r.0)
    ensures !e.running ==> r == (e, 0)
    decreases n
  {
    if n == 0 then (e, 0)
    else
      var step := TickStep(e);
      var rest := Run(step.engine, n - 1);
      (rest.0, rest.1 + if step.fired then 1 else 0)
  }

  /** Running the loop for `a` and then `b` passes is running it for `a + b`. */
  lemma {:induction false} RunAdditive(e: Engine, a: nat, b: nat)
    ensures Run(e, a + b) == (Run(Run(e, a).0, b).0, Run(e, a).1 + Run(Run(e, a).0, b).1)
    decreases a
  {
    if a > 0 {
      RunAdditive(TickStep(e).engine, a - 1, b);
    }
  }

  /** While time remains, each pass takes exactly one second off and fires
      nothing. */
  lemma {:induction false} CountdownSteps(e: Engine, k: nat)
    requires Counting(e) && k <= e.remaining
    ensures Run(e, k) == (e.(remaining := e.remaining - k), 0)
    decreases k
  {
    if k > 0 {
      CountdownSteps(TickStep(e).engine, k - 1);
    }
  }

  /** From a counting engine with `r` seconds left, the first `r` passes
      count down one second each, the next one fires completion and stops the
      engine, and any later pass changes nothing. */
  lemma CountdownFrom(e: Engine, n: nat)
    requires Counting(e) && e.remaining >= 0
    ensures n <= e.remaining ==> Run(e, n) == (e.(remaining := e.remaining - n), 0)
    ensures n > e.remaining ==> Run(e, n) == (e.(remaining := 0, running := false), 1)
  {
    if n <= e.remaining {
      CountdownSteps(e, n);
    } else {
      CountdownSteps(e, e.remaining);
      var z := e.(remaining := 0);
      RunAdditive(e, e.remaining, n - e.remaining);
      RunAdditive(z, 1, n - e.remaining - 1);
    }
  }

  /** After `start_with_seconds(d)`, exactly `d` passes count down, then
      completion fires once: the timer ends stopped at zero. */
  lemma CountdownAfterStart(e: Engine, d: int, n: nat)
    requires d > 0
    ensures var s := StartedSeconds(e, d);
      && (n <= d ==> Run(s, n) == (s.(remaining := d - n), 0))
      && (n > d ==> Run(s, n) == (Engine(d, 0, false, false), 1))
  {
    CountdownFrom(StartedSeconds(e, d), n);
  }

  /** `TimerEngine`. */
  class TimerEngine {
    var duration: int
    var remaining: int
    var running: bool
    var paused: bool
    /** How many times the completion callback has been called. */
    var completions: nat

    /** The engine's fields as a value. */
    function Snapshot(): Engine
      reads this
    {
      Engine(duration, remaining, running, paused)
    }

    /** `__init__`: no duration, nothing remaining, idle. */
    constructor ()
      ensures Snapshot() == Initial && Valid(Snapshot())
      ensures completions == 0
    {
      duration := 0;
      remaining := 0;
      running := false;
      paused := false;
      completions := 0;
    }

    /** `start`. */
    method Start(durationMinutes: int)
      modifies this
      ensures Snapshot() == Started(old(Snapshot()), durationMinutes)
      ensures completions == old(completions)
    {
      if durationMinutes <= 0 {
        return;
      }
      Stop();
      duration := durationMinutes * 60;
      remaining := duration;
      running := true;
      paused := false;
    }

    /** `start_with_seconds`. */
    method StartWithSeconds(durationSeconds: int)
      modifies this
      ensures Snapshot() == StartedSeconds(old(Snapshot()), durationSeconds)
      ensures completions == old(completions)
    {
      if durationSeconds <= 0 {
        return;
      }
      Stop();
      duration := durationSeconds;
      remaining := durationSeconds;
      running := true;
      paused := false;
    }

    /** `pause`. */
    method Pause()
      modifies this
      ensures Snapshot() == Paused(old(Snapshot()))
      ensures completions == old(completions)
    {
      if running && !paused {
        paused := true;
      }
    }

    /** `resume`. */
    method Resume()
      modifies this
      ensures Snapshot() == Resumed(old(Snapshot()))
      ensures completions == old(completions)
    {
      if running && paused {
        paused := false;
      }
    }

    /** `stop` (the thread join is not modelled). */
    method Stop()
      modifies this
      ensures Snapshot() == Stopped(old(Snapshot()))
      ensures completions == old(completions)
    {
      running := false;
      paused := false;
    }

    /** `reset`. */
    method Reset()
      modifies this
      ensures Snapshot() == Cleared(old(Snapshot()))
      ensures completions == old(completions)
    {
      Stop();
      remaining := 0;
    }

    /** `get_remaining_time`. */
    method GetRemainingTime() returns (minutes: int, seconds: int)
      ensures (minutes, seconds) == RemainingTime(Snapshot())
    {
      var left := if remaining < 0 then 0 else remaining;
      minutes, seconds := left / 60, left % 60;
    }

    /** `is_running`. */
    function IsRunning(): (b: bool)
      reads this
      ensures b <==> Counting(Snapshot())
      ensures b ==> !IsPaused()
    {
      running && !paused
    }

    /** `is_paused`. */
    function IsPaused(): (b: bool)
      reads this
      ensures b ==> Valid(Snapshot()) ==> running
    {
      paused
    }

    /** One pass of `_timer_loop`'s body, calling the completion callback
        when the countdown has expired. */
    method Tick()
      modifies this
      ensures Snapshot() == TickStep(old(Snapshot())).engine
      ensures completions == old(completions) + if TickStep(old(Snapshot())).fired then 1 else 0
    {
      if running && !paused {
        if remaining <= 0 {
          running := false;
          completions := completions + 1;
          return;
        }
        remaining := remaining - 1;
      }
    }

    /** `_timer_loop` woken up at most `wakeups` times: it passes through the
        body while the engine is running and leaves as soon as it is not. */
    method TimerLoop(wakeups: nat)
      modifies this
      ensures Snapshot() == Run(old(Snapshot()), wakeups).0
      ensures completions == old(completions) + Run(old(Snapshot()), wakeups).1
    {
      var i := 0;
      while i < wakeups && running
        invariant 0 <= i <= wakeups
        invariant Run(old(Snapshot()), wakeups)
               == (Run(Snapshot(), wakeups - i).0, completions - old(completions) + Run(Snapshot(), wakeups - i).1)
        invariant completions >= old(completions)
      {
        ghost var before := Snapshot();
        RunAdditive(before, 1, wakeups - i - 1);
        Tick();
        i := i + 1;
      }
    }
  }
}
