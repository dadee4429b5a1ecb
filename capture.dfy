/** The timer state captured from the running engine, as
    `_get_current_timer_state` builds it in both sharp_timer/system_events.py
    and sharp_timer/quit_dialog.py. */
module Capture {
  import opened Common
  import opened Constants
  import opened TimerStates
  import Timer
  import Settings

  /** `get_duration(mode) * 60` for a duration of a numeric JSON type (a
      Python bool multiplies as 0 or 1); other types are not modelled. */
  function DurationSeconds(duration: Json): (r: Option<int>)
    ensures duration.JInt? ==> r == Some(60 * duration.i)
    ensures duration.JBool? ==> r == Some(if duration.b then 60 else 0)
    ensures r.None? <==> !(duration.JInt? || duration.JBool?)
  {
    match duration
    case JInt(i) => Some(i * 60)
    case JBool(b) => Some(if b then 60 else 0)
    case _ => None
  }

  /** The state captured from an engine and the settings: the remaining time
      in whole seconds, `is_running()` and `is_paused()`, the current mode and
      its configured duration in seconds; construction then fills an empty
      session id and a zero start time. None when the stored mode is not a
      string or its duration not a number. */
  function CapturedState(e: Timer.Engine, settings: Document, sessionId: string, startTimestamp: int,
                         now: int, freshId: string): (r: Option<TimerState>)
    ensures r.Some? <==>
      (Settings.CurrentModeIn(settings).JStr?
       && DurationSeconds(Settings.DurationIn(settings, Settings.CurrentModeIn(settings).s)).Some?)
    ensures r.Some? ==>
      && r.value.mode == Settings.CurrentModeIn(settings).s
      && r.value.remainingSeconds == Max0(e.remaining)
      && r.value.isRunning == Timer.Counting(e) && r.value.isPaused == e.paused
      && r.value.totalDurationSeconds == DurationSeconds(Settings.DurationIn(settings, r.value.mode)).value
      && r.value.lastUpdateTimestamp == now
      && !r.value.survivedSleep && !r.value.unexpectedTermination
    ensures r.Some? ==> r.value == PostInit(r.value.(sessionId := sessionId, startTimestamp := startTimestamp), now, freshId)
  {
    var current := Settings.CurrentModeIn(settings);
    if !current.JStr? then None
    else
      var mode := current.s;
      var total := DurationSeconds(Settings.DurationIn(settings, mode));
      if total.None? then None
      else
        var time := Timer.RemainingTime(e);
        Some(PostInit(TimerState(mode, time.0 * 60 + time.1, Timer.Counting(e), e.paused, sessionId, startTimestamp,
                                 now, total.value, false, false), now, freshId))
  }

  /** A capture from a valid engine whose remaining time fits in the
      configured duration of a known mode is a valid state. */
  lemma CapturedValid(e: Timer.Engine, settings: Document, sessionId: string, startTimestamp: int,
                      now: int, freshId: string)
    requires Timer.Valid(e)
    requires Settings.CurrentModeIn(settings).JStr? && IsKnownMode(Settings.CurrentModeIn(settings).s)
    requires Settings.DurationIn(settings, Settings.CurrentModeIn(settings).s).JInt?
    requires 0 < e.remaining <= 60 * Settings.DurationIn(settings, Settings.CurrentModeIn(settings).s).i
    requires now > 0 && startTimestamp >= 0 && freshId != ""
    ensures CapturedState(e, settings, sessionId, startTimestamp, now, freshId).Some?
    ensures IsValid(CapturedState(e, settings, sessionId, startTimestamp, now, freshId).value)
  {
    var r := CapturedState(e, settings, sessionId, startTimestamp, now, freshId).value;
    ConstructionFillsGaps(r.(sessionId := sessionId, startTimestamp := startTimestamp), now, freshId);
  }
}
