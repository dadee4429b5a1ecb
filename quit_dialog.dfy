/** The quit confirmation (sharp_timer/quit_dialog.py).

    The native alert and the text window are replaced by the answer the user
    gave (`Answer`); `rumps.quit_application` and the response callback are not
    modelled. The stored timer state is kept by a `TimerStateManager`. */
module QuitDialog {
  import opened Common
  import opened TimerStates
  import Timer
  import Settings
  import Capture

  /** `QuitAction`. */
  datatype QuitAction = StopAndQuit | PreserveAndQuit | Cancel

  /** `QuitDialogResponse`. */
  datatype QuitDialogResponse = QuitDialogResponse(
    action: QuitAction,
    timerStateAtDecision: TimerState,
    timestamp: int,
    userChoiceTimestamp: int)

  /** `_has_remaining_time`: whole minutes or leftover seconds remain. */
  function HasRemainingTime(e: Timer.Engine): (b: bool)
    ensures b <==> e.remaining > 0
  {
    var time := Timer.RemainingTime(e);
    time.0 > 0 || time.1 > 0
  }

  /** `should_show_quit_dialog`: `is_running() or (is_paused() and
      _has_remaining_time())`, since `and` binds tighter than `or`. */
  function ShouldShowQuitDialog(e: Timer.Engine): (b: bool)
    ensures b <==> Timer.Counting(e) || (e.paused && e.remaining > 0)
    ensures Timer.Valid(e) ==> (b <==> e.running && (!e.paused || e.remaining > 0))
    ensures !e.running && !e.paused ==> !b
  {
    Timer.Counting(e) || (e.paused && HasRemainingTime(e))
  }

  /** The return codes of the alert's three buttons. */
  const FirstButtonReturn: int := 1000
  const SecondButtonReturn: int := 1001
  const ThirdButtonReturn: int := 1002

  /** The action of an alert return code: the first button stops, the second
      preserves, the third and any other code cancel. */
  function AlertAction(code: int): (r: QuitAction)
    ensures r == StopAndQuit <==> code == FirstButtonReturn
    ensures r == PreserveAndQuit <==> code == SecondButtonReturn
    ensures code == ThirdButtonReturn ==> r == Cancel
  {
    if code == FirstButtonReturn then StopAndQuit
    else if code == SecondButtonReturn then PreserveAndQuit
    else if code == ThirdButtonReturn then Cancel
    else Cancel
  }

  /** Python's `str.isspace` on one character. */
  predicate IsWhitespace(c: char) {
    || '\t' <= c <= '\r'
    || '\U{1C}' <= c <= ' '
    || c == '\U{85}' || c == '\U{A0}' || c == '\U{1680}'
    || '\U{2000}' <= c <= '\U{200A}'
    || c == '\U{2028}' || c == '\U{2029}' || c == '\U{202F}' || c == '\U{205F}' || c == '\U{3000}'
  }

  /** `s` without its leading whitespace. */
  function TrimStart(s: string): (r: string)
    ensures |r| <= |s| && r == s[|s| - |r|..]
    ensures forall k :: 0 <= k < |s| - |r| ==> IsWhitespace(s[k])
    ensures r == [] || !IsWhitespace(r[0])
  {
    if s != [] && IsWhitespace(s[0]) then TrimStart(s[1..]) else s
  }

  /** `s` without its trailing whitespace. */
  function TrimEnd(s: string): (r: string)
    ensures |r| <= |s| && r == s[..|r|]
    ensures forall k :: |r| <= k < |s| ==> IsWhitespace(s[k])
    ensures r == [] || !IsWhitespace(r[|r| - 1])
  {
    if s != [] && IsWhitespace(s[|s| - 1]) then TrimEnd(s[..|s| - 1]) else s
  }

  /** `str.strip()`: the middle of `s` between its leading and its trailing
      whitespace. */
  function Strip(s: string): (r: string)
    ensures exists i, j ::
      (&& 0 <= i <= j <= |s| && r == s[i..j]
       && (forall k :: 0 <= k < i ==> IsWhitespace(s[k]))
       && (forall k :: j <= k < |s| ==> IsWhitespace(s[k])))
    ensures r == [] || (!IsWhitespace(r[0]) && !IsWhitespace(r[|r| - 1]))
  {
    var front := TrimStart(s);
    var r := TrimEnd(front);
    var i := |s| - |front|;
    assert r == s[i..i + |r|];
    r
  }

  /** The action of the text window: a dismissed window cancels, and of the
      stripped text only "1" stops and only "2" preserves. */
  function FallbackAction(clicked: bool, text: string): (r: QuitAction)
    ensures r == StopAndQuit <==> clicked && Strip(text) == "1"
    ensures r == PreserveAndQuit <==> clicked && Strip(text) == "2"
    ensures !clicked ==> r == Cancel
  {
    if !clicked then Cancel
    else
      var userInput := Strip(text);
      if userInput == "1" then StopAndQuit
      else if userInput == "2" then PreserveAndQuit
      else Cancel
  }

  /** Leading whitespace in front of text that starts with something else is
      dropped, and nothing more. */
  lemma {:induction false} TrimStartSkips(w: string, t: string)
    requires forall k :: 0 <= k < |w| ==> IsWhitespace(w[k])
    requires t == [] || !IsWhitespace(t[0])
    ensures TrimStart(w + t) == t
  {
    if w != [] {
      assert (w + t)[1..] == w[1..] + t;
      TrimStartSkips(w[1..], t);
    }
  }

  /** Trailing whitespace after text that ends with something else is
      dropped, and nothing more. */
  lemma {:induction false} TrimEndSkips(t: string, w: string)
    requires forall k :: 0 <= k < |w| ==> IsWhitespace(w[k])
    requires t == [] || !IsWhitespace(t[|t| - 1])
    ensures TrimEnd(t + w) == t
  {
    if w != [] {
      assert (t + w)[..|t + w| - 1] == t + w[..|w| - 1];
      TrimEndSkips(t, w[..|w| - 1]);
    }
  }

  /** Stripping text padded with whitespace on both sides gives back the text. */
  lemma StripPadded(before: string, text: string, after: string)
    requires forall k :: 0 <= k < |before| ==> IsWhitespace(before[k])
    requires forall k :: 0 <= k < |after| ==> IsWhitespace(after[k])
    requires text != [] && !IsWhitespace(text[0]) && !IsWhitespace(text[|text| - 1])
    ensures Strip(before + text + after) == text
  {
    assert before + text + after == before + (text + after);
    TrimStartSkips(before, text + after);
    TrimEndSkips(text, after);
  }

  /** Blanks around the digit do not matter. */
  lemma FallbackExamples()
    ensures FallbackAction(true, " 1\n") == StopAndQuit
    ensures FallbackAction(true, "\t2 ") == PreserveAndQuit
  {
    assert " 1\n" == " " + "1" + "\n";
    StripPadded(" ", "1", "\n");
    assert "\t2 " == "\t" + "2" + " ";
    StripPadded("\t", "2", " ");
  }

  /** Text without blanks at its ends that is neither "1" nor "2" (the
      window's default text "3", say, or "1.") cancels. */
  lemma FallbackCancels(text: string)
    requires text != [] && !IsWhitespace(text[0]) && !IsWhitespace(text[|text| - 1])
    requires text != "1" && text != "2"
    ensures FallbackAction(true, text) == Cancel
  {
    assert [] + text + [] == text;
    StripPadded([], text, []);
  }

  /** What the user answered: a button of the alert, or, when the alert is
      unavailable or fails, the text window (`WindowFailed` when that fails
      too). */
  datatype Answer = AlertButton(code: int) | Window(clicked: bool, text: string) | WindowFailed

  /** `_show_custom_quit_dialog`: always some action; every failure cancels. */
  function AnswerAction(answer: Answer): (r: QuitAction)
    ensures answer.AlertButton? ==> r == AlertAction(answer.code)
    ensures answer.Window? ==> r == FallbackAction(answer.clicked, answer.text)
    ensures answer.WindowFailed? ==> r == Cancel
  {
    match answer
    case AlertButton(code) => AlertAction(code)
    case Window(clicked, text) => FallbackAction(clicked, text)
    case WindowFailed => Cancel
  }

  /** Only the first alert button or the text "1" stop the timer. */
  lemma StopOnlyOnRequest(answer: Answer)
    ensures AnswerAction(answer) == StopAndQuit <==>
      (answer == AlertButton(FirstButtonReturn) || (answer.Window? && answer.clicked && Strip(answer.text) == "1"))
  {
  }

  /** `QuitDialogManager`. */
  class QuitDialogManager {
    const timerEngine: Timer.TimerEngine
    const settingsManager: Settings.SettingsManager
    /** The receiver of `clear_timer_state` and `save_timer_state`. */
    const stateStore: TimerStateManager

    constructor (timerEngine: Timer.TimerEngine, settingsManager: Settings.SettingsManager, stateStore: TimerStateManager)
      ensures this.timerEngine == timerEngine && this.settingsManager == settingsManager
      ensures this.stateStore == stateStore
    {
      this.timerEngine := timerEngine;
      this.settingsManager := settingsManager;
      this.stateStore := stateStore;
    }

    /** `_has_remaining_time`. */
    method HasRemaining() returns (b: bool)
      ensures b == HasRemainingTime(timerEngine.Snapshot())
    {
      var minutes, seconds := timerEngine.GetRemainingTime();
      b := minutes > 0 || seconds > 0;
    }

    /** `should_show_quit_dialog`. */
    method ShouldShow() returns (b: bool)
      ensures b == ShouldShowQuitDialog(timerEngine.Snapshot())
    {
      if timerEngine.IsRunning() {
        return true;
      }
      if !timerEngine.IsPaused() {
        return false;
      }
      b := HasRemaining();
    }

    /** `_get_current_timer_state`: a new session id and the current time as
        start and update time. */
    method GetCurrentTimerState(now: int, freshId: string) returns (r: Option<TimerState>)
      ensures r == Capture.CapturedState(timerEngine.Snapshot(), settingsManager.settings, freshId, now, now, freshId)
    {
      var minutes, seconds := timerEngine.GetRemainingTime();
      var remainingSeconds := minutes * 60 + seconds;
      var mode := settingsManager.GetCurrentMode();
      if !mode.JStr? {
        return None;
      }
      var total := Capture.DurationSeconds(settingsManager.GetDuration(mode.s));
      if total.None? {
        return None;
      }
      var raw := TimerState(mode.s, remainingSeconds, timerEngine.IsRunning(), timerEngine.IsPaused(), freshId, now,
                            now, total.value, false, false);
      r := Some(PostInit(raw, now, freshId));
    }

    /** `execute_quit_action`: stop and clear, save the state captured at the
        decision, or nothing; it reports success whatever the writes did. */
    method ExecuteQuitAction(response: QuitDialogResponse, now: int, replaced: bool) returns (ok: bool)
      modifies timerEngine, stateStore
      ensures ok
      ensures timerEngine.Snapshot()
           == if response.action == StopAndQuit then Timer.Stopped(old(timerEngine.Snapshot()))
              else old(timerEngine.Snapshot())
      ensures timerEngine.completions == old(timerEngine.completions)
      ensures stateStore.document
           == match response.action
              case StopAndQuit => if replaced then ClearedDocument(old(stateStore.document)) else old(stateStore.document)
              case PreserveAndQuit =>
                if replaced
                then SavedDocument(old(stateStore.document), response.timerStateAtDecision, now, |old(stateStore.backups)|)
                else old(stateStore.document)
              case Cancel => old(stateStore.document)
      ensures stateStore.backups == old(stateStore.backups)
    {
      match response.action
      case StopAndQuit =>
        timerEngine.Stop();
        var _ := stateStore.ClearTimerState(replaced);
        return true;
      case PreserveAndQuit =>
        var _ := stateStore.SaveTimerState(response.timerStateAtDecision, now, replaced);
        return true;
      case Cancel =>
        return true;
    }

    /** `show_quit_confirmation`: nothing is asked when the dialog should not
        show; otherwise the state is captured, the answer's action executed
        on it and the response returned. */
    method ShowQuitConfirmation(answer: Answer, now: int, freshId: string, replaced: bool)
      returns (r: Option<QuitDialogResponse>)
      modifies timerEngine, stateStore
      ensures var captured := Capture.CapturedState(old(timerEngine.Snapshot()), settingsManager.settings,
                                                   freshId, now, now, freshId);
        r == if ShouldShowQuitDialog(old(timerEngine.Snapshot())) && captured.Some?
             then Some(QuitDialogResponse(AnswerAction(answer), captured.value, now, now))
             else None
      ensures r.None? ==> timerEngine.Snapshot() == old(timerEngine.Snapshot())
      ensures r.None? ==> stateStore.document == old(stateStore.document)
      ensures r.Some? && r.value.action == StopAndQuit ==> !Timer.Counting(timerEngine.Snapshot())
      ensures r.Some? && r.value.action != StopAndQuit ==> timerEngine.Snapshot() == old(timerEngine.Snapshot())
      ensures r.Some? && r.value.action == StopAndQuit ==> timerEngine.Snapshot() == Timer.Stopped(old(timerEngine.Snapshot()))
      ensures r.Some? ==>
        (stateStore.document
         == match r.value.action
            case StopAndQuit => if replaced then ClearedDocument(old(stateStore.document)) else old(stateStore.document)
            case PreserveAndQuit =>
              if replaced
              then SavedDocument(old(stateStore.document), r.value.timerStateAtDecision, now, |old(stateStore.backups)|)
              else old(stateStore.document)
            case Cancel => old(stateStore.document))
      ensures timerEngine.completions == old(timerEngine.completions)
      ensures stateStore.backups == old(stateStore.backups)
    {
      var show := ShouldShow();
      if !show {
        return None;
      }
      var currentState := GetCurrentTimerState(now, freshId);
      if currentState.None? {
        return None;
      }
      var action := AnswerAction(answer);
      var response := QuitDialogResponse(action, currentState.value, now, now);
      var _ := ExecuteQuitAction(response, now, replaced);
      r := Some(response);
    }
  }
}
