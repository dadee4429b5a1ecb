# Sharp Timer core in Dafny

A model of the state handling at the core of Sharp Timer, a macOS menu-bar
Pomodoro timer. It covers:

- the countdown engine (`TimerEngine`);
- the persisted timer snapshot (`TimerState`) and its store, which is the
  `timer_state` entry of the settings document plus a bounded set of backup
  files (`TimerStateManager`);
- the user settings (`SettingsManager`);
- automatic mode switching (`ModeTransitionManager`);
- sleep/wake adjustment (`SystemEventManager`);
- the quit confirmation (`QuitDialogManager`).

Modules, one file each:

| file | module | models |
|---|---|---|
| common.dfy | `Common` | `Option`, the JSON values the stores hold, `max(0, x)` |
| constants.dfy | `Constants` | mode names and default durations |
| timer.dfy | `Timer` | sharp_timer/timer.py |
| timer_state.dfy | `TimerStates` | sharp_timer/timer_state.py |
| settings.dfy | `Settings` | sharp_timer/settings.py |
| capture.dfy | `Capture` | the `_get_current_timer_state` both system_events.py and quit_dialog.py build |
| mode_transitions.dfy | `ModeTransitions` | sharp_timer/mode_transitions.py |
| system_events.dfy | `SystemEvents` | sharp_timer/system_events.py |
| quit_dialog.dfy | `QuitDialog` | sharp_timer/quit_dialog.py |

## How the model is organised

- **Objects and values.** Every Python object whose fields its methods
  update is a Dafny `class` with those fields. Each of its methods is
  specified by a function from the old state to the new one, for example
  `Snapshot() == Paused(old(Snapshot()))`. The properties the source
  promises are then proved about those functions as lemmas.
- **The engine's thread.** `_timer_loop` becomes `Tick` (one pass of its
  body) and `TimerLoop(n)` (at most `n` passes). `completions` counts calls
  of the completion callback.
- **The settings file.** The document is an in-memory JSON object. The
  backup directory is a map from the integer timestamp in a backup's file
  name to the backup document. A write through a temp file either replaces
  the document or leaves it as it was; the boolean parameter `replaced`
  says which. `save_settings` records the document it wrote in `written`.
- **Clock and UUIDs.** `time.time()` and `uuid.uuid4()` are parameters:
  `now` is a whole number of seconds, and `freshId` is the string a new UUID
  gives.
- **Transition table.** It is a Python dict keyed `"<from>_to_<to>"`. It is
  modelled as the sequence of its transitions in insertion order, which is
  the order every scan visits them in. `PrefixIdentifiesSource` proves that
  the `key.startswith("<mode>_to_")` test of the scans is the same as
  "leaves `mode`". `KeyInjective` proves that keys and mode pairs determine
  each other.
- **Settings-manager collaborators.** `ModeTransitionManager` calls
  `get_mode_transition_config` / `set_mode_transition_config` on its
  settings manager, and `QuitDialogManager` calls `clear_timer_state` /
  `save_timer_state` on its settings manager. `SettingsManager` in
  sharp_timer/settings.py defines none of these. So:
  - the transition configurations are the map `savedConfigs`, keyed by mode
    pair;
  - the quit dialog's clear and save go to a `TimerStateManager`, which
    defines them.
- **Dialog answers.** Both dialogs are replaced by the answer the user gave
  (`QuitDialog.Answer`): an alert return code, the text window's
  clicked/text pair, or a failure.
- `validate_timer_state` (sharp_timer/timer_state.py:158-160) is `is_valid`,
  which is `TimerStates.IsValid`.

## Model

| member | source | states |
|---|---|---|
| Timer.StartedSeconds | sharp_timer/timer.py:49-70 | a duration ≤ 0 changes nothing; otherwise the engine counts down from the whole duration (running, not paused, remaining = duration = seconds); validity is kept |
| Timer.Started | sharp_timer/timer.py:26-47 | the same with a duration of 60·minutes seconds |
| Timer.Paused | sharp_timer/timer.py:72-75 | only `paused` may change, and it is set exactly when the engine was running or already paused; validity is kept |
| Timer.Resumed | sharp_timer/timer.py:77-80 | only `paused` may change, and it stays set only when the engine is not running; a valid engine ends unpaused |
| Timer.Stopped | sharp_timer/timer.py:82-86 | neither counting nor paused, duration and remaining kept |
| Timer.Cleared | sharp_timer/timer.py:92-95 | stopped with nothing remaining, duration kept |
| Timer.TickStep | sharp_timer/timer.py:135-145 | no effect unless counting; with time left it takes off exactly one second; at zero it stops and fires completion once; validity is kept |
| Timer.RemainingTime | sharp_timer/timer.py:97-105 | minutes m ≥ 0 and seconds 0 ≤ s < 60 with 60·m + s = max(0, remaining) |
| Timer.RunningExcludesPaused | sharp_timer/timer.py:117-131 | on a valid engine `is_running()` and `is_paused()` are never both true, and paused implies running |
| Timer.PauseResumeIdempotent | sharp_timer/timer.py:72-80 | pause and resume are idempotent, and resume undoes a pause of a counting engine |
| Timer.Run | sharp_timer/timer.py:133-149 | n passes of the loop keep validity; a stopped engine is left alone and fires nothing |
| Timer.RunAdditive | sharp_timer/timer.py:133-149 | a passes then b passes are a + b passes, completions adding up |
| Timer.CountdownSteps | sharp_timer/timer.py:135-145 | while time remains each pass takes off one second and fires nothing |
| Timer.CountdownFrom | sharp_timer/timer.py:133-149 | from r seconds left, r passes count down to zero, the next one stops the engine and fires once, and later passes change nothing |
| Timer.CountdownAfterStart | sharp_timer/timer.py:133-149 | after `start_with_seconds(d)`, exactly d decrementing passes, then exactly one completion, stopped at zero |
| Timer.TimerEngine.constructor | sharp_timer/timer.py:12-24 | a new engine is idle with no duration and no time left |
| Timer.TimerEngine.Start | sharp_timer/timer.py:26-47 | the new fields are `Started` of the old ones |
| Timer.TimerEngine.StartWithSeconds | sharp_timer/timer.py:49-70 | the new fields are `StartedSeconds` of the old ones |
| Timer.TimerEngine.Pause | sharp_timer/timer.py:72-75 | the new fields are `Paused` of the old ones |
| Timer.TimerEngine.Resume | sharp_timer/timer.py:77-80 | the new fields are `Resumed` of the old ones |
| Timer.TimerEngine.Stop | sharp_timer/timer.py:82-90 | the new fields are `Stopped` of the old ones |
| Timer.TimerEngine.Reset | sharp_timer/timer.py:92-95 | the new fields are `Cleared` of the old ones |
| Timer.TimerEngine.GetRemainingTime | sharp_timer/timer.py:97-105 | returns `RemainingTime` of the fields |
| Timer.TimerEngine.IsRunning | sharp_timer/timer.py:117-123 | true exactly when counting down, and then not paused |
| Timer.TimerEngine.IsPaused | sharp_timer/timer.py:125-131 | on a valid engine, paused implies running |
| Timer.TimerEngine.Tick | sharp_timer/timer.py:135-145 | the fields become `TickStep` of the old ones, and the callback count grows by one exactly when it fires |
| Timer.TimerEngine.TimerLoop | sharp_timer/timer.py:133-149 | after at most n wake-ups the engine is where `Run(n)` leaves it, with as many completions |
| TimerStates.PostInit | sharp_timer/timer_state.py:26-31 | an empty session id becomes the fresh id, a zero start time becomes now, the last update is always now, and no other field changes |
| TimerStates.ConstructionFillsGaps | sharp_timer/timer_state.py:26-31 | with a clock past the epoch and a non-empty UUID, construction leaves a non-empty session id and a positive start time |
| TimerStates.ToDict | sharp_timer/timer_state.py:33-35 | one entry per dataclass field |
| TimerStates.FromDict | sharp_timer/timer_state.py:37-40 | a state exactly for a well-formed dict; its last update is now and its session id is non-empty |
| TimerStates.RoundTrip | sharp_timer/timer_state.py:26-40 | `from_dict(to_dict(s))` gives back every field of a constructed s except the refreshed last-update time |
| TimerStates.ValidityIgnoresLastUpdate | sharp_timer/timer_state.py:42-52 | refreshing the last-update time does not change validity |
| TimerStates.SavedDocument | sharp_timer/timer_state.py:64-82 | the saved document has the state under "timer_state", adds only "timer_state" and "metadata", and keeps every other entry |
| TimerStates.ClearedDocument | sharp_timer/timer_state.py:147-156 | only "timer_state" is removed and every other entry is kept |
| TimerStates.StoredValidState | sharp_timer/timer_state.py:84-100 | a state is found only under "timer_state", and it is valid and refreshed |
| TimerStates.LoadAfterSave | sharp_timer/timer_state.py:64-100 | a load after a save returns the saved state when it is valid and nothing when it is not |
| TimerStates.LoadAfterClear | sharp_timer/timer_state.py:147-156 | after a clear a load finds nothing, and clearing is idempotent |
| TimerStates.Ascending | sharp_timer/timer_state.py:165 | the backup timestamps in strictly increasing (name) order, each once |
| TimerStates.FirstKept | sharp_timer/timer_state.py:207-212 | the first kept position of `backup_files[-n:]` lies within the listing |
| TimerStates.Retained | sharp_timer/timer_state.py:207-212 | the kept backups are a subset with unchanged contents |
| TimerStates.RetainedAfterDrop | sharp_timer/timer_state.py:207-212 | unlinking the files before the kept ones, one by one, leaves exactly the retained backups |
| TimerStates.RetainedBound | sharp_timer/timer_state.py:207-212 | min(count, n) backups remain |
| TimerStates.RetainedAreNewest | sharp_timer/timer_state.py:207-212 | every removed backup is older than every kept one |
| TimerStates.BackupKeepsNewest | sharp_timer/timer_state.py:102-122 | a new backup is kept with its content, replaces one of the same second, and at most five remain |
| TimerStates.NewestValidState | sharp_timer/timer_state.py:124-145 | only the newest backup is read, and its state is returned only when valid |
| TimerStates.LoadBackup | sharp_timer/timer_state.py:102-145 | a backup file of a valid state reads back as that state |
| TimerStates.RestoreAfterBackup | sharp_timer/timer_state.py:102-145 | backing up a valid state and then restoring gives it back |
| TimerStates.HistoryStart | sharp_timer/timer_state.py:170 | `[-limit:]` keeps min(limit, count) files for a positive limit and all of them for 0 |
| TimerStates.ValidStates | sharp_timer/timer_state.py:169-181 | only valid states, at most one per backup |
| TimerStates.HistoryWindow | sharp_timer/timer_state.py:165-170 | the listed backups are in increasing order, there are min(limit, count) of them (all for 0), and they are the newest: every backup left out is older than every backup listed |
| TimerStates.SuffixIsNewest | sharp_timer/timer_state.py:170 | in an increasing listing of the backups, `[-limit:]` stays increasing, lists only backups, and leaves out only backups older than every one it keeps |
| TimerStates.History | sharp_timer/timer_state.py:162-186 | only valid states, no more than backups, no more than a positive limit |
| TimerStates.ValidStatesPrefix | sharp_timer/timer_state.py:169-181 | the states collected from the first i backups begin the states collected from all of them |
| TimerStates.ValidStatesFrom | sharp_timer/timer_state.py:169-181 | every collected state is the valid state of one of the listed backups |
| TimerStates.ValidAtRank | sharp_timer/timer_state.py:169-181 | a valid backup's state is in the result, at the position given by the number of valid backups before it |
| TimerStates.RankGrows | sharp_timer/timer_state.py:169-181 | a valid backup comes before every later backup in the result |
| TimerStates.ValidStatesPositions | sharp_timer/timer_state.py:169-181 | for any backups, valid or not: every valid one has its state in the result at its rank, and ranks follow listing order; invalid and unreadable ones are skipped |
| TimerStates.HistoryValidInOrder | sharp_timer/timer_state.py:162-186 | for any backups: the history holds the state of every valid backup among the newest `limit`, oldest first, and no state that does not come from one of them |
| TimerStates.ValidStatesInOrder | sharp_timer/timer_state.py:169-181 | when every listed backup is valid, one state per backup in listing order |
| TimerStates.HistoryOldestFirst | sharp_timer/timer_state.py:162-186 | when every backup holds a valid state (its precondition), the history has one entry per listed backup and entry i is the state of the i-th, oldest first; `HistoryValidInOrder` covers backups that are not all valid |
| TimerStates.TimerStateManager.constructor | sharp_timer/timer_state.py:58-62 | the store opens over the document and backups on disk |
| TimerStates.TimerStateManager.AtomicSave | sharp_timer/timer_state.py:195-205 | the document becomes the new one exactly when the replace succeeds, and that is the result |
| TimerStates.TimerStateManager.SaveTimerState | sharp_timer/timer_state.py:64-82 | the document becomes `SavedDocument` of the old one (metadata counting the backups) or stays; backups unchanged |
| TimerStates.TimerStateManager.LoadTimerState | sharp_timer/timer_state.py:84-100 | only a valid state is returned, and none without a "timer_state" entry |
| TimerStates.TimerStateManager.ClearTimerState | sharp_timer/timer_state.py:147-156 | the document becomes `ClearedDocument` of the old one or stays; backups unchanged |
| TimerStates.TimerStateManager.CreateBackup | sharp_timer/timer_state.py:102-122 | the backups become the new one added and then cleaned up; the document unchanged |
| TimerStates.TimerStateManager.CleanupOldBackups | sharp_timer/timer_state.py:207-212 | the backups become the five newest |
| TimerStates.TimerStateManager.RestoreFromBackup | sharp_timer/timer_state.py:124-145 | only a valid state, and none without backups |
| TimerStates.CollectValid | sharp_timer/timer_state.py:169-181 | the loop over the listed backups collects exactly `ValidStates` of the list, in list order |
| TimerStates.TimerStateManager.GetStateHistory | sharp_timer/timer_state.py:162-186 | returns `History` of the backups: the valid states among the newest `limit`, oldest first (see `HistoryValidInOrder`) |
| Settings.Merged | sharp_timer/settings.py:47-59 | keys of the defaults the file holds take the file's value, other keys keep theirs, and keys only the file holds are ignored |
| Settings.MergedOverSpec | sharp_timer/settings.py:53-56 | visiting the default keys one by one gives that merge |
| Settings.DurationIn | sharp_timer/settings.py:74-77 | the stored value, else the default for the key, else 25 |
| Settings.AcceptedDurations | sharp_timer/settings.py:79-86 | accepted exactly: whole numbers 1 to 60, and `True`, which Python counts as the int 1 |
| Settings.CurrentModeIn | sharp_timer/settings.py:88-90 | the stored mode, else "work" |
| Settings.DurationRoundTrip | sharp_timer/settings.py:74-86 | a set duration is read back; other modes' durations and the current mode read as before |
| Settings.DefaultReads | sharp_timer/settings.py:17-34 | fresh defaults read work 25, rest_eyes 5, long_rest 15 and mode "work" |
| Settings.MergeAddsNoKey | sharp_timer/settings.py:47-59 | loading adds no key to settings that hold every default key |
| Settings.Loaded | sharp_timer/settings.py:17-38 | a new manager holds every default key; the file's values win on default keys; with no readable file it holds the defaults |
| Settings.SettingsManager.constructor | sharp_timer/settings.py:17-38 | a new manager holds `Loaded(file)` and has written nothing |
| Settings.SettingsManager.LoadSettings | sharp_timer/settings.py:47-59 | no file: unchanged; unreadable: defaults; parsed: the merge |
| Settings.SettingsManager.SaveSettings | sharp_timer/settings.py:61-72 | writes the current settings |
| Settings.SettingsManager.SetDuration | sharp_timer/settings.py:79-86 | succeeds exactly on accepted durations, then stores and saves; otherwise nothing changes |
| Settings.SettingsManager.SetCurrentMode | sharp_timer/settings.py:92-98 | succeeds exactly on the three mode names, then stores and saves; otherwise nothing changes |
| Settings.SettingsManager.ResetToDefaults | sharp_timer/settings.py:100-103 | the settings become the defaults and are saved |
| Capture.DurationSeconds | sharp_timer/system_events.py:158 | `duration * 60` for a number, with `True`/`False` as 60/0; nothing for other types |
| Capture.CapturedState | sharp_timer/system_events.py:138-162 | a state exactly when the mode is a string and its duration a number; remaining = max(0, remaining), running = `is_running()`, paused, mode and total from the settings, then construction |
| Capture.CapturedValid | sharp_timer/quit_dialog.py:187-204 | a capture from a valid engine whose time fits in a known mode's duration is a valid state |
| ModeTransitions.TimerMode.Value | sharp_timer/mode_transitions.py:11-15 | every mode's value is one of the three mode names |
| ModeTransitions.ParseTransitionState | sharp_timer/mode_transitions.py:18-21 | `TransitionState(value)` finds the state with that value whenever there is one |
| ModeTransitions.ConfigOf | sharp_timer/mode_transitions.py:167-171 | the configuration handed over is never empty |
| ModeTransitions.PrefixIdentifiesSource | sharp_timer/mode_transitions.py:118-120 | a key starts with "<mode>_to_" exactly when its transition leaves that mode |
| ModeTransitions.KeyInjective | sharp_timer/mode_transitions.py:157-164 | two keys are equal exactly when their mode pairs are |
| ModeTransitions.FindFrom | sharp_timer/mode_transitions.py:119-120 | the first position a scan in dict order selects, or none when no position is selected |
| ModeTransitions.NextModeUnique | sharp_timer/mode_transitions.py:270-276 | with only one enabled transition leaving the mode, the next mode is its target |
| ModeTransitions.DefaultTableFacts | sharp_timer/mode_transitions.py:52-76 | three distinct transitions, all enabled, to a paused timer after 100 ms; next modes work → rest_eyes, rest_eyes → work, long_rest → work |
| ModeTransitions.Lookup | sharp_timer/mode_transitions.py:155-158 | a found transition is in the table with that pair; none means no transition has it |
| ModeTransitions.Put | sharp_timer/mode_transitions.py:160-164 | a new key is appended; an existing one is replaced in place with no other entry changed |
| ModeTransitions.LookupFinds | sharp_timer/mode_transitions.py:155-158 | looking up the key of a transition of the table finds it |
| ModeTransitions.PutShape | sharp_timer/mode_transitions.py:160-164 | after storing, the transition is in the table, keys stay distinct, and every other entry is an old one with another key |
| ModeTransitions.LookupAfterPut | sharp_timer/mode_transitions.py:155-164 | after storing t, looking up t's key returns t |
| ModeTransitions.LookupOtherAfterPut | sharp_timer/mode_transitions.py:155-164 | storing t changes the lookup of no other key |
| ModeTransitions.UpdatedFrom | sharp_timer/mode_transitions.py:195-268 | the setters keep every key, leave transitions from other modes as they were, and keep keys distinct |
| ModeTransitions.UpdatedFromSpec | sharp_timer/mode_transitions.py:183-217 | a setter leaves other modes' next mode and auto-switch flag alone; disabling leaves no next mode; `is_auto_switch_enabled` afterwards is the new flag when some transition leaves the mode and false otherwise |
| ModeTransitions.SavedAllSpec | sharp_timer/mode_transitions.py:283-293 | handing over each configuration stores it under its pair, and no other pair changes |
| ModeTransitions.LeavingSpec | sharp_timer/mode_transitions.py:199-200 | the transitions a setter hands over are exactly those leaving the mode, with distinct keys |
| ModeTransitions.Switched | sharp_timer/mode_transitions.py:126-130 | the state takes the target's mode, paused = target PAUSED, running = target RUNNING, nothing else changes, and validity is kept |
| ModeTransitions.LoadOne | sharp_timer/mode_transitions.py:82-89 | `enabled` defaults to true; a target state naming no state stops after `enabled`; otherwise target defaults to "paused" and delay to 100 |
| ModeTransitions.LoadFrom | sharp_timer/mode_transitions.py:78-111 | loading keeps the keys and changes only transitions with a stored, non-empty configuration |
| ModeTransitions.LoadFromAllValid | sharp_timer/mode_transitions.py:78-111 | with valid stored target states, each default transition with a configuration takes it |
| ModeTransitions.ModeTransitionManager.constructor | sharp_timer/mode_transitions.py:47-50 | the default table loaded with the stored configurations, with distinct keys |
| ModeTransitions.ModeTransitionManager.LoadSettingsTransitions | sharp_timer/mode_transitions.py:78-111 | the table becomes `LoadFrom` of the old one; the configurations are unchanged |
| ModeTransitions.ModeTransitionManager.LoadStored | sharp_timer/mode_transitions.py:81-89 | one block of the load: on success the rest of the load continues, and on an invalid target state the load ends |
| ModeTransitions.ModeTransitionManager.ExecuteAutoSwitch | sharp_timer/mode_transitions.py:113-153 | succeeds exactly when there is a next mode; then it switches through the first enabled transition from the mode and saves the new current mode; otherwise nothing changes |
| ModeTransitions.ModeTransitionManager.SwitchThrough | sharp_timer/mode_transitions.py:126-142 | the result names both modes, the state is `Switched`, and the new mode is saved |
| ModeTransitions.ModeTransitionManager.SetTransitionConfig | sharp_timer/mode_transitions.py:160-178 | the table becomes `Put` of t, t's configuration is stored, and `get_transition_config` returns t |
| ModeTransitions.ModeTransitionManager.GetAllTransitions | sharp_timer/mode_transitions.py:191-193 | a map from each transition's key to that transition, and nothing else |
| ModeTransitions.ModeTransitionManager.UpdateFrom | sharp_timer/mode_transitions.py:195-217 | the table becomes `UpdatedFrom`, the edited configurations are stored, and the result says whether any transition leaves the mode |
| ModeTransitions.ModeTransitionManager.EditAll | sharp_timer/mode_transitions.py:199-215 | the setters' loop edits every transition from the mode, hands over their configurations in order, and records a match |
| ModeTransitions.ModeTransitionManager.EnableAutoSwitch | sharp_timer/mode_transitions.py:195-217 | as `UpdateFrom` with the new `enabled` |
| ModeTransitions.ModeTransitionManager.SetTransitionDelay | sharp_timer/mode_transitions.py:219-244 | a delay below 0 or above 5000 returns false with no change; otherwise as `UpdateFrom` with the new delay |
| ModeTransitions.ModeTransitionManager.SetTargetState | sharp_timer/mode_transitions.py:246-268 | as `UpdateFrom` with the new target state |
| ModeTransitions.ModeTransitionManager.ResetToDefaults | sharp_timer/mode_transitions.py:278-293 | the table becomes the default one whatever came before, and each default configuration is handed over |
| ModeTransitions.KeyStartsWith | sharp_timer/mode_transitions.py:199-200 | the prefix test is true exactly when the transition leaves the mode |
| ModeTransitions.KeysDistinct | sharp_timer/mode_transitions.py:191-193 | in the table no two transitions share a key, so the copy loses none |
| SystemEvents.AdjustedForSleep | sharp_timer/system_events.py:164-180 | no change unless running and not paused; otherwise remaining = max(0, remaining − slept), still running exactly when the time sufficed, never paused, no other field changes; an adjustment by 0 changes nothing; validity is kept |
| SystemEvents.AdjustAdditive | sharp_timer/system_events.py:164-175 | adjusting by a then b is adjusting by a + b |
| SystemEvents.AdjustMatchesTicks | sharp_timer/system_events.py:164-175 | adjusting a counting state by d seconds gives the engine that d passes of the timer loop give |
| SystemEvents.SleptState | sharp_timer/system_events.py:80-87 | flagged as survived, stamped now, remaining adjusted by the gap, validity kept |
| SystemEvents.SystemEventManager.constructor | sharp_timer/system_events.py:12-53 | records the collaborators and the time of the first check |
| SystemEvents.SystemEventManager.GetCurrentTimerState | sharp_timer/system_events.py:138-162 | nothing without an engine; otherwise the capture from the engine and freshly loaded settings |
| SystemEvents.SystemEventManager.OnSystemSleep | sharp_timer/system_events.py:99-115 | saves the capture flagged as having survived sleep; nothing is saved without a capture |
| SystemEvents.SystemEventManager.HandlePotentialSleepWake | sharp_timer/system_events.py:74-97 | saves the capture flagged, stamped and adjusted by the gap; nothing is saved without a capture |
| SystemEvents.SystemEventManager.OnSystemWake | sharp_timer/system_events.py:117-136 | the state it ends with is the stored state as loaded: the adjustment by zero of a state that survived sleep changes nothing (`on_system_wake` returns nothing; the result is returned here only so the contract can name that state) |
| SystemEvents.SystemEventManager.MonitorCheck | sharp_timer/system_events.py:55-72 | a gap of more than 60 s is handled as a sleep: the captured state, flagged, stamped and adjusted by the gap, is saved (the document is unchanged without a capture or when the write fails); a shorter gap saves nothing; the check time is updated |
| QuitDialog.HasRemainingTime | sharp_timer/quit_dialog.py:50-56 | minutes or seconds remain exactly when remaining > 0 |
| QuitDialog.ShouldShowQuitDialog | sharp_timer/quit_dialog.py:44-48 | shown exactly when counting, or paused with time left; on a valid engine, running and not paused-at-zero |
| QuitDialog.AlertAction | sharp_timer/quit_dialog.py:114-121 | first button stops, second preserves, third and any other code cancel |
| QuitDialog.Strip | sharp_timer/quit_dialog.py:148 | a middle slice with only whitespace cut off both ends, and no whitespace left at either end |
| QuitDialog.StripPadded | sharp_timer/quit_dialog.py:148 | stripping whitespace padding gives the text back |
| QuitDialog.FallbackAction | sharp_timer/quit_dialog.py:143-155 | stop exactly for a confirmed "1" after stripping, preserve exactly for "2", cancel otherwise and whenever dismissed; the enhanced window (sharp_timer/quit_dialog.py:247-259) maps its answer the same way |
| QuitDialog.FallbackExamples | sharp_timer/quit_dialog.py:148-155 | " 1\n" stops and "\t2 " preserves |
| QuitDialog.FallbackCancels | sharp_timer/quit_dialog.py:150-155 | any other text with no blanks at its ends cancels |
| QuitDialog.AnswerAction | sharp_timer/quit_dialog.py:89-159 | the alert's code or the window's answer decides the action, and a failing window cancels |
| QuitDialog.StopOnlyOnRequest | sharp_timer/quit_dialog.py:114-155 | only the first alert button or a confirmed "1" stop the timer |
| QuitDialog.QuitDialogManager.constructor | sharp_timer/quit_dialog.py:39-42 | records the collaborators |
| QuitDialog.QuitDialogManager.HasRemaining | sharp_timer/quit_dialog.py:50-56 | computed from `get_remaining_time` as `HasRemainingTime` |
| QuitDialog.QuitDialogManager.ShouldShow | sharp_timer/quit_dialog.py:44-48 | computed from the engine as `ShouldShowQuitDialog` |
| QuitDialog.QuitDialogManager.GetCurrentTimerState | sharp_timer/quit_dialog.py:187-207 | the capture with a new session id and now as start and update time |
| QuitDialog.QuitDialogManager.ExecuteQuitAction | sharp_timer/quit_dialog.py:161-185 | always true; stop: the engine stops and the stored state is cleared; preserve: the decision's state is saved and the engine untouched; cancel: nothing changes |
| QuitDialog.QuitDialogManager.ShowQuitConfirmation | sharp_timer/quit_dialog.py:58-87 | nothing happens when the dialog should not show or no state can be captured; otherwise the response carries the answer's action and the captured state, and the action is executed: stop leaves the engine `Stopped` and the stored state cleared, preserve saves the captured state and leaves the engine alone, cancel changes nothing (each write only when it succeeds) |

## Left out

- Threads and timing: the timer thread, `stop_event`, `join` and `time.sleep`. `_timer_loop` is `Tick`/`TimerLoop`. The monitor thread and `start_monitoring`/`stop_monitoring`/`is_monitoring_active` are left out; `_monitor_loop` is one `MonitorCheck` per pass. So is the transition delay sleep.
- `TransitionResult.transition_time_ms` and `error_message`: wall-clock measurements and the exception text.
- `get_progress_percentage`: floating point. Timestamps are whole seconds, and `int(time_gap)` is the gap itself.
- Disk I/O: reading, writing and replacing files, `glob`, `unlink` and `mkdir`. A failed write is the `replaced` flag; a failed backup write is not modelled.
- Backup ordering: `sorted(glob(...))` orders file names as strings; it is modelled as numeric order of the timestamps, the same for the ten-digit timestamps of current clocks.
- The settings file is shared: `SettingsManager` and `TimerStateManager` read and write the same settings.json, and `save_settings` writes only the settings, dropping a saved "timer_state". The model keeps the two documents apart (`written` and `document`).
- `rumps.quit_application`, the alert and window construction, and the callbacks (`completion_callback` is counted by `completions`; `sleep_callback`, `wake_callback` and the quit dialog's `callback` are not modelled).
- `_restore_timer_engine_state` only prints; `set_callback`, `set_sleep_callback`, `set_wake_callback` and `get_dialog_history` (which returns an empty list) have no logic; `test_sleep_wake_handling` and `SystemEventSimulator` are test drivers.
- Object identity: `ModeTransition` and `TimerState` are values. `execute_auto_switch` and `_adjust_for_sleep_duration` return the updated state instead of changing the caller's object, and `get_all_transitions` returns a copy of the table. Aliasing between a stored transition and the caller's object is not modelled.
- TimerStates.FromDict: decodes typed JSON; a dict with a wrong value type gives None, whereas Python would build a state holding that value.
- Capture.CapturedState: a stored mode that is not a string, or a duration that is not a number, gives no state, whereas Python would build a state holding those values.
- ModeTransitions.ModeTransitionManager.ExecuteAutoSwitch: the `success=False` result of the exception handler is not modelled, since no step of the switch can raise in the model.
- ModeTransitions.LoadOne: stored `enabled` and `transition_delay_ms` values are a bool and an int; Python would store any JSON value.
- Settings.SettingsManager.SaveSettings: a failed write is not modelled; the document is always recorded as written.
- QuitDialog.IsWhitespace: follows `str.isspace` for the characters listed; Unicode categories are not computed.
