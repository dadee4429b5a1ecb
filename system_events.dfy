/** Sleep and wake handling (sharp_timer/system_events.py).

    The monitor thread is replaced by `MonitorCheck`, one pass of the body of
    `_monitor_loop` at a given time. The sleep and wake callbacks are not
    modelled. Timestamps and the sleep gap are whole seconds. */
module SystemEvents {
  import opened Common
  import opened TimerStates
  import Timer
  import Settings
  import Capture

  /** A gap of more than this many seconds between two checks of the monitor
      loop is taken for a sleep. */
  const SleepGapSeconds: int := 60

  /** The seconds from `lastCheck` to `now`. */
  function TimeSince(lastCheck: int, now: int): (gap: int)
    ensures lastCheck + gap == now
  {
    now - lastCheck
  }

  predicate SuggestsSleep(timeDiff: int) {
    timeDiff > SleepGapSeconds
  }

  /** `_adjust_for_sleep_duration`: a counting state loses the slept seconds,
      and one that would go below zero stops at zero. */
  function AdjustedForSleep(s: TimerState, sleepDuration: int): (r: TimerState)
    ensures !(s.isRunning && !s.isPaused) ==> r == s
    ensures s.isRunning && !s.isPaused ==> r.remainingSeconds == Max0(s.remainingSeconds - sleepDuration)
    ensures s.isRunning && !s.isPaused ==> (r.isRunning <==> s.remainingSeconds >= sleepDuration) && !r.isPaused
    ensures r.(remainingSeconds := s.remainingSeconds, isRunning := s.isRunning, isPaused := s.isPaused) == s
    ensures sleepDuration == 0 && s.remainingSeconds >= 0 ==> r == s
    ensures IsValid(s) && sleepDuration >= 0 ==> IsValid(r)
  {
    if s.isRunning && !s.isPaused then
      var left := s.remainingSeconds - sleepDuration;
      if left < 0 then s.(remainingSeconds := 0, isRunning := false, isPaused := false)
      else s.(remainingSeconds := left)
    else s
  }

  /** Two adjustments in a row are one adjustment by their sum. */
  lemma AdjustAdditive(s: TimerState, a: nat, b: nat)
    ensures AdjustedForSleep(AdjustedForSleep(s, a), b) == AdjustedForSleep(s, a + b)
  {
  }

  /** The engine a counting state describes. */
  function EngineOf(s: TimerState): Timer.Engine {
    Timer.Engine(s.totalDurationSeconds, s.remainingSeconds, s.isRunning, s.isPaused)
  }

  /** Adjusting a counting state by `d` seconds of sleep leaves it where `d`
      passes of the timer loop would have left its engine. */
  lemma AdjustMatchesTicks(s: TimerState, d: nat)
    requires s.isRunning && !s.isPaused && s.remainingSeconds >= 0
    ensures EngineOf(AdjustedForSleep(s, d)) == Timer.Run(EngineOf(s), d).0
  {
    Timer.CountdownFrom(EngineOf(s), d);
  }

  /** `SystemEventManager`. */
  class SystemEventManager {
    const timerStateManager: TimerStateManager
    const timerEngine: Timer.TimerEngine?
    /** `_last_check_time`. */
    var lastCheckTime: int

    /** `__init__`, which ends in `_setup_fallback_monitoring` recording the
        time of the first check. */
    constructor (timerStateManager: TimerStateManager, timerEngine: Timer.TimerEngine?, now: int)
      ensures this.timerStateManager == timerStateManager && this.timerEngine == timerEngine
      ensures lastCheckTime == now
    {
      this.timerStateManager := timerStateManager;
      this.timerEngine := timerEngine;
      lastCheckTime := now;
    }

    /** The state `_get_current_timer_state` captures from the engine with
        the settings read from `file`; None without an engine. */
    function Captured(file: Settings.SettingsFile, now: int, freshId: string): Option<TimerState>
      reads timerEngine
    {
      if timerEngine == null then None
      else Capture.CapturedState(timerEngine.Snapshot(), Settings.Loaded(file), "", 0, now, freshId)
    }

    /** `_get_current_timer_state`, with the settings a new `SettingsManager`
        reads from `file`; None without an engine. */
    method GetCurrentTimerState(file: Settings.SettingsFile, now: int, freshId: string) returns (r: Option<TimerState>)
      ensures timerEngine == null ==> r == None
      ensures timerEngine != null ==>
        r == Capture.CapturedState(timerEngine.Snapshot(), Settings.Loaded(file), "", 0, now, freshId)
    {
      if timerEngine == null {
        return None;
      }
      var minutes, seconds := timerEngine.GetRemainingTime();
      var remainingSeconds := minutes * 60 + seconds;
      var settings := new Settings.SettingsManager(file);
      var mode := settings.GetCurrentMode();
      if !mode.JStr? {
        return None;
      }
      var total := Capture.DurationSeconds(settings.GetDuration(mode.s));
      if total.None? {
        return None;
      }
      var raw := TimerState(mode.s, remainingSeconds, timerEngine.IsRunning(), timerEngine.IsPaused(), "", 0, now,
                            total.value, false, false);
      r := Some(PostInit(raw, now, freshId));
    }

    /** `on_system_sleep`: the captured state, flagged as having survived a
        sleep, is saved. */
    method OnSystemSleep(file: Settings.SettingsFile, now: int, freshId: string, replaced: bool)
      modifies timerStateManager
      ensures var c := Captured(file, now, freshId);
        timerStateManager.document
        == if c.Some? && replaced
           then SavedDocument(old(timerStateManager.document), c.value.(survivedSleep := true), now,
                              |old(timerStateManager.backups)|)
           else old(timerStateManager.document)
      ensures timerStateManager.backups == old(timerStateManager.backups)
    {
      var currentState := GetCurrentTimerState(file, now, freshId);
      if currentState.Some? {
        var state := currentState.value.(survivedSleep := true);
        var _ := timerStateManager.SaveTimerState(state, now, replaced);
      }
    }

    /** `_handle_potential_sleep_wake`: the captured state is flagged, stamped,
        adjusted by the gap and saved. */
    method HandlePotentialSleepWake(timeGap: int, file: Settings.SettingsFile, now: int, freshId: string, replaced: bool)
      modifies timerStateManager
      ensures var c := Captured(file, now, freshId);
        timerStateManager.document
        == SleepSavedDocument(old(timerStateManager.document), |old(timerStateManager.backups)|, c, timeGap, now, replaced)
      ensures timerStateManager.backups == old(timerStateManager.backups)
    {
      var currentState := GetCurrentTimerState(file, now, freshId);
      if currentState.Some? {
        var state := currentState.value.(survivedSleep := true);
        state := state.(lastUpdateTimestamp := now);
        state := AdjustedForSleep(state, timeGap);
        var _ := timerStateManager.SaveTimerState(state, now, replaced);
      }
    }

    /** `on_system_wake`: the stored state is loaded and, when it survived a
        sleep, adjusted by a gap of zero; the engine is left alone. Returns the
        state it ends with, which is the loaded one. */
    method OnSystemWake(now: int, freshId: string) returns (restored: Option<TimerState>)
      ensures restored == timerStateManager.LoadTimerState(now, freshId)
    {
      restored := timerStateManager.LoadTimerState(now, freshId);
      if restored.Some? && restored.value.survivedSleep {
        restored := Some(AdjustedForSleep(restored.value, 0));
      }
    }

    /** One pass of `_monitor_loop` at time `currentTime`: a gap of more than a
        minute since the last check is handled as a sleep. */
    method MonitorCheck(currentTime: int, file: Settings.SettingsFile, freshId: string, replaced: bool)
      returns (handled: bool)
      modifies this, timerStateManager
      ensures handled == SuggestsSleep(TimeSince(old(lastCheckTime), currentTime))
      ensures lastCheckTime == currentTime
      ensures handled ==>
        timerStateManager.document
        == SleepSavedDocument(old(timerStateManager.document), |old(timerStateManager.backups)|,
                              Captured(file, currentTime, freshId), TimeSince(old(lastCheckTime), currentTime), currentTime,
                              replaced)
      ensures !handled ==> timerStateManager.document == old(timerStateManager.document)
      ensures timerStateManager.backups == old(timerStateManager.backups)
    {
      var timeDiff := TimeSince(lastCheckTime, currentTime);
      handled := timeDiff > SleepGapSeconds;
      if handled {
        HandlePotentialSleepWake(timeDiff, file, currentTime, freshId, replaced);
      }
      lastCheckTime := currentTime;
    }
  }

  /** The settings document after `_handle_potential_sleep_wake` saved the
      captured state: unchanged without a capture or when the write fails. */
  function SleepSavedDocument(doc: Document, backupCount: nat, captured: Option<TimerState>, timeGap: int, now: int,
                              replaced: bool): Document
  {
    if captured.Some? && replaced then SavedDocument(doc, SleptState(captured.value, timeGap, now), now, backupCount)
    else doc
  }

  /** The state `_handle_potential_sleep_wake` saves. */
  function SleptState(captured: TimerState, timeGap: int, now: int): (r: TimerState)
    ensures r.survivedSleep && r.lastUpdateTimestamp == now
    ensures r.remainingSeconds
         == if captured.isRunning && !captured.isPaused then Max0(captured.remainingSeconds - timeGap)
            else captured.remainingSeconds
    ensures IsValid(captured) && timeGap >= 0 ==> IsValid(r)
  {
    AdjustedForSleep(captured.(survivedSleep := true, lastUpdateTimestamp := now), timeGap)
  }
}
