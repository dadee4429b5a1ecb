/** Automatic mode switching (sharp_timer/mode_transitions.py).

    The transition table is a Python dict keyed "<from>_to_<to>"; since every
    key is built from its transition's two modes, the table is modelled as the
    sequence of transitions in the dict's insertion order, which is the order
    the lookups scan it in. The transition configurations that the settings
    manager stores (`get_mode_transition_config` / `set_mode_transition_config`,
    whose code is not part of this model) are the map `savedConfigs`. */
module ModeTransitions {
  import opened Common
  import opened Constants
  import opened TimerStates
  import Settings

  /** `TimerMode`. */
  datatype TimerMode = Work | RestEyes | LongRest {
    function Value(): (v: string)
      ensures IsKnownMode(v)
    {
      match this
      case Work => ModeWork
      case RestEyes => ModeRestEyes
      case LongRest => ModeLongRest
    }
  }

  /** `TransitionState`. */
  datatype TransitionState = Paused | Running {
    function Value(): string {
      match this
      case Paused => "paused"
      case Running => "running"
    }
  }

  /** `TransitionState(value)`: the state named by a string, if any. */
  function ParseTransitionState(value: string): (r: Option<TransitionState>)
    ensures r.Some? ==> r.value.Value() == value
    ensures (exists s: TransitionState :: s.Value() == value) ==> r.Some?
  {
    if value == "paused" then Some(Paused)
    else if value == "running" then Some(Running)
    else None
  }

  /** `ModeTransition`. */
  datatype ModeTransition = ModeTransition(
    fromMode: TimerMode,
    toMode: TimerMode,
    enabled: bool,
    targetState: TransitionState,
    transitionDelayMs: int)

  /** A transition built with the dataclass defaults: enabled, to a paused
      timer, after 100 ms. */
  function DefaultTransition(fromMode: TimerMode, toMode: TimerMode): ModeTransition {
    ModeTransition(fromMode, toMode, true, Paused, 100)
  }

  /** `TransitionResult` of a successful switch (the elapsed time is not
      modelled). */
  datatype TransitionResult = TransitionResult(success: bool, previousMode: TimerMode, newMode: TimerMode)

  /** A configuration as the settings manager holds it; each entry may be
      missing from the stored dict. */
  datatype StoredConfig = StoredConfig(enabled: Option<bool>, targetState: Option<string>, delayMs: Option<int>)

  /** Python's truth value of the stored dict: an empty one counts as no
      configuration. */
  predicate Configured(c: StoredConfig) {
    c.enabled.Some? || c.targetState.Some? || c.delayMs.Some?
  }

  /** The configuration the setters hand to the settings manager. */
  function ConfigOf(t: ModeTransition): (c: StoredConfig)
    ensures Configured(c)
  {
    StoredConfig(Some(t.enabled), Some(t.targetState.Value()), Some(t.transitionDelayMs))
  }

  // ---------------------------------------------------------------------------
  // Keys
  // ---------------------------------------------------------------------------

  /** The dict key "<from>_to_<to>". */
  function KeyOf(fromMode: TimerMode, toMode: TimerMode): string {
    fromMode.Value() + "_to_" + toMode.Value()
  }

  function Key(t: ModeTransition): string {
    KeyOf(t.fromMode, t.toMode)
  }

  /** The mode pair a key is built from. */
  function Pair(t: ModeTransition): (TimerMode, TimerMode) {
    (t.fromMode, t.toMode)
  }

  /** The prefix "<mode>_to_" the lookups search for. */
  function Prefix(mode: TimerMode): string {
    mode.Value() + "_to_"
  }

  predicate StartsWith(s: string, prefix: string) {
    |prefix| <= |s| && s[..|prefix|] == prefix
  }

  /** The first letter of a mode's prefix tells the mode. */
  lemma FirstLetterIdentifiesMode(a: TimerMode, b: TimerMode)
    ensures Prefix(a)[0] == Prefix(b)[0] <==> a == b
  {
    assert Prefix(Work)[0] == 'w' && Prefix(RestEyes)[0] == 'r' && Prefix(LongRest)[0] == 'l';
  }

  /** A key starts with a mode's prefix exactly when its transition leaves
      that mode: the source's `key.startswith(f"{mode}_to_")` test selects by
      source mode. */
  lemma PrefixIdentifiesSource(fromMode: TimerMode, toMode: TimerMode, mode: TimerMode)
    ensures StartsWith(KeyOf(fromMode, toMode), Prefix(mode)) <==> fromMode == mode
  {
    var key, p := KeyOf(fromMode, toMode), Prefix(mode);
    assert key == Prefix(fromMode) + toMode.Value();
    assert key[..|Prefix(fromMode)|] == Prefix(fromMode);
    assert key[0] == Prefix(fromMode)[0];
    assert StartsWith(key, p) ==> key[0] == p[0];
    FirstLetterIdentifiesMode(fromMode, mode);
  }

  /** Keys determine their mode pair. */
  lemma KeyInjective(a: ModeTransition, b: ModeTransition)
    ensures Key(a) == Key(b) <==> Pair(a) == Pair(b)
  {
    PrefixIdentifiesSource(a.fromMode, a.toMode, b.fromMode);
    PrefixIdentifiesSource(b.fromMode, b.toMode, b.fromMode);
    var n := |Prefix(b.fromMode)|;
    assert Key(b)[n..] == b.toMode.Value();
    assert Key(a) == Key(b) ==> Key(a)[n..] == a.toMode.Value();
    assert Key(a) == Key(b) ==> a.toMode.Value() == b.toMode.Value();
    assert a.toMode.Value() == b.toMode.Value() ==> Prefix(a.toMode)[0] == Prefix(b.toMode)[0];
    FirstLetterIdentifiesMode(a.toMode, b.toMode);
  }

  // ---------------------------------------------------------------------------
  // The table
  // ---------------------------------------------------------------------------

  /** No two transitions share a mode pair, that is a key (`KeyInjective`),
      as in a dict. */
  predicate DistinctKeys(table: seq<ModeTransition>) {
    forall i, j :: 0 <= i < j < |table| ==> Pair(table[i]) != Pair(table[j])
  }

  /** `_load_default_transitions`. */
  const DefaultTable: seq<ModeTransition> := [
    DefaultTransition(Work, RestEyes),
    DefaultTransition(RestEyes, Work),
    DefaultTransition(LongRest, Work)]


  /** Whether a scan for `mode` stops at `t`. The source tests that the key
      starts with "<mode>_to_", which `PrefixIdentifiesSource` shows is the
      same as leaving `mode`; when only enabled transitions count, `t` must
      also be enabled. */
  predicate Selected(t: ModeTransition, mode: TimerMode, onlyEnabled: bool) {
    t.fromMode == mode && (onlyEnabled ==> t.enabled)
  }

  /** The first transition a scan in dict order stops at. */
  function FindFrom(table: seq<ModeTransition>, mode: TimerMode, onlyEnabled: bool): (r: Option<nat>)
    ensures r.Some? ==> r.value < |table| && Selected(table[r.value], mode, onlyEnabled)
    ensures r.Some? ==> forall j :: 0 <= j < r.value ==> !Selected(table[j], mode, onlyEnabled)
    ensures r.None? ==> forall j :: 0 <= j < |table| ==> !Selected(table[j], mode, onlyEnabled)
  {
    if table == [] then None
    else if Selected(table[0], mode, onlyEnabled) then Some(0)
    else
      match FindFrom(table[1..], mode, onlyEnabled)
      case Some(i) => Some(i + 1)
      case None => None
  }

  /** `get_next_mode`: the target of the first enabled transition leaving the
      mode. */
  function NextMode(table: seq<ModeTransition>, mode: TimerMode): Option<TimerMode> {
    match FindFrom(table, mode, true)
    case Some(i) => Some(table[i].toMode)
    case None => None
  }

  /** `is_auto_switch_enabled`: whether the first transition leaving the mode
      is enabled; false when none leaves it. */
  function AutoSwitchEnabled(table: seq<ModeTransition>, mode: TimerMode): bool {
    match FindFrom(table, mode, false)
    case Some(i) => table[i].enabled
    case None => false
  }

  /** In a table with distinct keys at most one transition leaves a mode
      towards a given mode, so the next mode is defined by the only enabled
      transition leaving the mode, when the table has no two of them. */
  lemma NextModeUnique(table: seq<ModeTransition>, mode: TimerMode, i: nat)
    requires i < |table| && table[i].fromMode == mode && table[i].enabled
    requires forall j :: 0 <= j < |table| && j != i ==> !(table[j].fromMode == mode && table[j].enabled)
    ensures NextMode(table, mode) == Some(table[i].toMode)
    ensures AutoSwitchEnabled(table, mode) || exists j :: 0 <= j < i && table[j].fromMode == mode
  {
    var f := FindFrom(table, mode, true);
    assert f.Some? && f.value == i;
  }

  /** The default table has three distinct, enabled transitions to a paused
      timer after 100 ms, and the next modes work → rest_eyes, rest_eyes →
      work and long_rest → work. */
  lemma DefaultTableFacts()
    ensures |DefaultTable| == 3 && DistinctKeys(DefaultTable)
    ensures forall t :: t in DefaultTable ==> t.enabled && t.targetState == Paused && t.transitionDelayMs == 100
    ensures NextMode(DefaultTable, Work) == Some(RestEyes)
    ensures NextMode(DefaultTable, RestEyes) == Some(Work)
    ensures NextMode(DefaultTable, LongRest) == Some(Work)
    ensures AutoSwitchEnabled(DefaultTable, Work) && AutoSwitchEnabled(DefaultTable, RestEyes)
    ensures AutoSwitchEnabled(DefaultTable, LongRest)
  {
    NextModeUnique(DefaultTable, Work, 0);
    NextModeUnique(DefaultTable, RestEyes, 1);
    NextModeUnique(DefaultTable, LongRest, 2);
  }

  /** `self.transitions.get(key)` for the key of a mode pair. */
  function Lookup(table: seq<ModeTransition>, fromMode: TimerMode, toMode: TimerMode): (r: Option<ModeTransition>)
    ensures r.Some? ==> r.value in table && Pair(r.value) == (fromMode, toMode)
    ensures r.None? ==> forall t :: t in table ==> Pair(t) != (fromMode, toMode)
  {
    if table == [] then None
    else if Pair(table[0]) == (fromMode, toMode) then Some(table[0])
    else Lookup(table[1..], fromMode, toMode)
  }

  /** `self.transitions[key] = t`: replaces the transition with the same key
      where it stands, or appends it. */
  function Put(table: seq<ModeTransition>, t: ModeTransition): (r: seq<ModeTransition>)
    ensures Lookup(table, t.fromMode, t.toMode).None? ==> r == table + [t]
    ensures Lookup(table, t.fromMode, t.toMode).Some? ==> |r| == |table|
    ensures DistinctKeys(table) ==>
      forall i :: 0 <= i < |table| ==> r[i] == (if Pair(table[i]) == Pair(t) then t else table[i])
  {
    if table == [] then [t]
    else if Pair(table[0]) == Pair(t) then [t] + table[1..]
    else [table[0]] + Put(table[1..], t)
  }

  /** In a table with distinct keys, looking up the key of one of its
      transitions finds that transition. */
  lemma LookupFinds(table: seq<ModeTransition>, u: ModeTransition)
    requires DistinctKeys(table) && u in table
    ensures Lookup(table, u.fromMode, u.toMode) == Some(u)
  {
    var l := Lookup(table, u.fromMode, u.toMode);
    assert l.Some?;
    var i :| 0 <= i < |table| && table[i] == l.value;
    var j :| 0 <= j < |table| && table[j] == u;
    assert !(i < j) && !(j < i);
  }

  /** Storing a transition into a table with distinct keys puts it in place
      of the one with its key, or at the end, and keeps keys distinct. */
  lemma PutShape(table: seq<ModeTransition>, t: ModeTransition)
    requires DistinctKeys(table)
    ensures t in Put(table, t) && DistinctKeys(Put(table, t))
    ensures forall i :: 0 <= i < |Put(table, t)| ==>
      Put(table, t)[i] == t || (i < |table| && Put(table, t)[i] == table[i] && Pair(table[i]) != Pair(t))
  {
    var r := Put(table, t);
    var found := Lookup(table, t.fromMode, t.toMode);
    if found.Some? {
      var k :| 0 <= k < |table| && table[k] == found.value;
      assert r[k] == t;
    } else {
      assert r[|table|] == t;
    }
  }

  /** After storing a transition, keys stay distinct and looking up its key
      gives it back. */
  lemma LookupAfterPut(table: seq<ModeTransition>, t: ModeTransition)
    requires DistinctKeys(table)
    ensures DistinctKeys(Put(table, t))
    ensures Lookup(Put(table, t), t.fromMode, t.toMode) == Some(t)
  {
    PutShape(table, t);
    LookupFinds(Put(table, t), t);
  }

  /** Storing a transition changes the lookup of no other key. */
  lemma LookupOtherAfterPut(table: seq<ModeTransition>, t: ModeTransition, fromMode: TimerMode, toMode: TimerMode)
    requires DistinctKeys(table) && (fromMode, toMode) != Pair(t)
    ensures Lookup(Put(table, t), fromMode, toMode) == Lookup(table, fromMode, toMode)
  {
    var r := Put(table, t);
    PutShape(table, t);
    var before := Lookup(table, fromMode, toMode);
    if before.Some? {
      var k :| 0 <= k < |table| && table[k] == before.value;
      assert r[k] == before.value;
      LookupFinds(table, before.value);
      LookupFinds(r, before.value);
    } else {
      assert forall u :: u in r ==> u == t || u in table;
    }
  }

  /** One of the three setters' edits. */
  datatype Edit = SetEnabled(enabled: bool) | SetDelay(delayMs: int) | SetTarget(target: TransitionState)

  function Apply(t: ModeTransition, edit: Edit): (r: ModeTransition)
    ensures Pair(r) == Pair(t)
  {
    match edit
    case SetEnabled(b) => t.(enabled := b)
    case SetDelay(ms) => t.(transitionDelayMs := ms)
    case SetTarget(s) => t.(targetState := s)
  }

  /** The table after a setter edited every transition leaving `mode`. */
  function UpdatedFrom(table: seq<ModeTransition>, mode: TimerMode, edit: Edit): (r: seq<ModeTransition>)
    ensures |r| == |table|
    ensures forall i :: 0 <= i < |table| ==> Pair(r[i]) == Pair(table[i])
    ensures forall i :: 0 <= i < |table| && table[i].fromMode != mode ==> r[i] == table[i]
    ensures DistinctKeys(table) ==> DistinctKeys(r)
  {
    seq(|table|, i requires 0 <= i < |table| => if table[i].fromMode == mode then Apply(table[i], edit) else table[i])
  }

  /** A setter leaves the scans for every other mode alone; disabling leaves
      `mode` with no next mode, and enabling turns its auto-switch on exactly
      when some transition leaves it. */
  lemma UpdatedFromSpec(table: seq<ModeTransition>, mode: TimerMode, edit: Edit, other: TimerMode)
    ensures other != mode ==> NextMode(UpdatedFrom(table, mode, edit), other) == NextMode(table, other)
    ensures other != mode ==>
      AutoSwitchEnabled(UpdatedFrom(table, mode, edit), other) == AutoSwitchEnabled(table, other)
    ensures edit == SetEnabled(false) ==> NextMode(UpdatedFrom(table, mode, edit), mode) == None
    ensures edit.SetEnabled? ==>
      (AutoSwitchEnabled(UpdatedFrom(table, mode, edit), mode)
       <==> edit.enabled && exists i :: 0 <= i < |table| && table[i].fromMode == mode)
  {
    var r := UpdatedFrom(table, mode, edit);
    if other != mode {
      FindSame(table, r, other, true);
      FindSame(table, r, other, false);
    }
  }

  /** Two tables that select the same positions, with equal entries there,
      give the same scan result. */
  lemma FindSame(a: seq<ModeTransition>, b: seq<ModeTransition>, mode: TimerMode, onlyEnabled: bool)
    requires |a| == |b|
    requires forall i :: 0 <= i < |a| ==> (Selected(a[i], mode, onlyEnabled) <==> Selected(b[i], mode, onlyEnabled))
    requires forall i :: 0 <= i < |a| && Selected(a[i], mode, onlyEnabled) ==> a[i] == b[i]
    ensures FindFrom(a, mode, onlyEnabled) == FindFrom(b, mode, onlyEnabled)
  {
    var fa, fb := FindFrom(a, mode, onlyEnabled), FindFrom(b, mode, onlyEnabled);
    assert fa.Some? && fb.Some? ==> !(fa.value < fb.value) && !(fb.value < fa.value);
  }

  /** The transitions of `ts` that leave `mode`, in order. */
  function Leaving(ts: seq<ModeTransition>, mode: TimerMode): seq<ModeTransition> {
    if ts == [] then []
    else
      var last := ts[|ts| - 1];
      Leaving(ts[..|ts| - 1], mode) + if last.fromMode == mode then [last] else []
  }

  /** The configurations the settings manager holds after it was handed those
      of `ts`, one after the other. */
  function SavedAll(saved: map<(TimerMode, TimerMode), StoredConfig>, ts: seq<ModeTransition>)
    : map<(TimerMode, TimerMode), StoredConfig>
  {
    if ts == [] then saved
    else SavedAll(saved, ts[..|ts| - 1])[Pair(ts[|ts| - 1]) := ConfigOf(ts[|ts| - 1])]
  }

  /** Handing over the configurations of transitions with distinct keys
      stores each of them, and no other key changes. */
  lemma {:induction false} SavedAllSpec(saved: map<(TimerMode, TimerMode), StoredConfig>, ts: seq<ModeTransition>)
    requires DistinctKeys(ts)
    ensures forall t :: t in ts ==> Pair(t) in SavedAll(saved, ts) && SavedAll(saved, ts)[Pair(t)] == ConfigOf(t)
    ensures forall p :: p in saved && (forall t :: t in ts ==> Pair(t) != p) ==>
      p in SavedAll(saved, ts) && SavedAll(saved, ts)[p] == saved[p]
  {
    if ts != [] {
      var init, last := ts[..|ts| - 1], ts[|ts| - 1];
      SavedAllSpec(saved, init);
      assert ts == init + [last];
      forall t | t in init ensures Pair(t) != Pair(last) {
        var k :| 0 <= k < |init| && init[k] == t;
        assert ts[k] == t;
      }
    }
  }

  /** One more transition of `ts` handed over when it leaves `mode`. */
  lemma SavedLeavingStep(saved: map<(TimerMode, TimerMode), StoredConfig>, ts: seq<ModeTransition>, i: nat,
                         mode: TimerMode)
    requires i < |ts|
    ensures SavedAll(saved, Leaving(ts[..i + 1], mode))
      == if ts[i].fromMode == mode then SavedAll(saved, Leaving(ts[..i], mode))[Pair(ts[i]) := ConfigOf(ts[i])]
         else SavedAll(saved, Leaving(ts[..i], mode))
  {
    assert ts[..i + 1][..i] == ts[..i];
    var l := Leaving(ts[..i], mode);
    if ts[i].fromMode == mode {
      assert Leaving(ts[..i + 1], mode) == l + [ts[i]];
      assert (l + [ts[i]])[..|l|] == l;
    } else {
      assert Leaving(ts[..i + 1], mode) == l + [];
      assert l + [] == l;
    }
  }

  /** The transitions leaving a mode are those of `ts` that leave it, and
      their keys are distinct when those of `ts` are. */
  lemma {:induction false} LeavingSpec(ts: seq<ModeTransition>, mode: TimerMode)
    ensures forall t :: t in Leaving(ts, mode) <==> t in ts && t.fromMode == mode
    ensures DistinctKeys(ts) ==> DistinctKeys(Leaving(ts, mode))
  {
    if ts != [] {
      var init, last := ts[..|ts| - 1], ts[|ts| - 1];
      LeavingSpec(init, mode);
      assert ts == init + [last];
      var l := Leaving(init, mode);
      if DistinctKeys(ts) {
        forall t | t in l ensures Pair(t) != Pair(last) {
          var k :| 0 <= k < |init| && init[k] == t;
          assert ts[k] == t;
        }
        assert forall i :: 0 <= i < |l| ==> l[i] in l;
      }
    }
  }

  /** The timer state after an automatic switch through `t`. */
  function Switched(s: TimerState, t: ModeTransition): (r: TimerState)
    ensures r.mode == t.toMode.Value()
    ensures r.isPaused == (t.targetState == Paused) && r.isRunning == (t.targetState == Running)
    ensures r.(mode := s.mode, isPaused := s.isPaused, isRunning := s.isRunning) == s
    ensures IsValid(s) ==> IsValid(r)
  {
    s.(mode := t.toMode.Value(), isPaused := t.targetState == Paused, isRunning := t.targetState == Running)
  }

  /** One block of `_load_settings_transitions`: a stored configuration sets
      `enabled` (default true), then the target state (default "paused") and
      the delay (default 100 ms); false when the target state names no state,
      which raises before the delay is set. */
  function LoadOne(t: ModeTransition, c: StoredConfig): (r: (ModeTransition, bool))
    ensures Pair(r.0) == Pair(t)
    ensures r.0.enabled == (c.enabled.None? || c.enabled.value)
    ensures r.1 <==> c.targetState.None? || c.targetState.value in {"paused", "running"}
    ensures r.1 ==> r.0.targetState.Value() == (if c.targetState.Some? then c.targetState.value else "paused")
    ensures r.1 ==> r.0.transitionDelayMs == (if c.delayMs.Some? then c.delayMs.value else 100)
    ensures !r.1 ==> r.0 == t.(enabled := r.0.enabled)
  {
    var t1 := t.(enabled := if c.enabled.Some? then c.enabled.value else true);
    match ParseTransitionState(if c.targetState.Some? then c.targetState.value else "paused")
    case Some(state) =>
      (t1.(targetState := state, transitionDelayMs := if c.delayMs.Some? then c.delayMs.value else 100), true)
    case None => (t1, false)
  }

  /** The table `_load_settings_transitions` leaves when it starts at the
      `i`-th default key: each key with a stored configuration is loaded, and
      the first target state that names no state ends the loading. */
  function LoadFrom(table: seq<ModeTransition>, saved: map<(TimerMode, TimerMode), StoredConfig>, i: nat)
    : (r: seq<ModeTransition>)
    requires |table| == |DefaultTable| && i <= |table|
    ensures |r| == |table|
    ensures forall j :: 0 <= j < |table| ==> Pair(r[j]) == Pair(table[j])
    ensures forall j :: 0 <= j < i ==> r[j] == table[j]
    ensures forall j :: i <= j < |table| ==>
      (Pair(DefaultTable[j]) in saved && Configured(saved[Pair(DefaultTable[j])])) || r[j] == table[j]
    decreases |table| - i
  {
    if i == |table| then table
    else
      var key := Pair(DefaultTable[i]);
      if key !in saved || !Configured(saved[key]) then LoadFrom(table, saved, i + 1)
      else
        var loaded := LoadOne(table[i], saved[key]);
        if loaded.1 then LoadFrom(table[i := loaded.0], saved, i + 1) else table[i := loaded.0]
  }

  /** With every stored target state valid, each default transition with a
      stored configuration takes it, and with none stored the defaults stay. */
  lemma {:induction false} LoadFromAllValid(table: seq<ModeTransition>, saved: map<(TimerMode, TimerMode), StoredConfig>,
                                            i: nat)
    requires |table| == |DefaultTable| && i <= |table|
    requires forall p :: p in saved ==> LoadOne(DefaultTransition(p.0, p.1), saved[p]).1
    ensures forall j :: i <= j < |table| ==>
      LoadFrom(table, saved, i)[j]
      == (if Pair(DefaultTable[j]) in saved && Configured(saved[Pair(DefaultTable[j])])
          then LoadOne(table[j], saved[Pair(DefaultTable[j])]).0 else table[j])
    decreases |table| - i
  {
    if i < |table| {
      var key := Pair(DefaultTable[i]);
      if key !in saved || !Configured(saved[key]) {
        LoadFromAllValid(table, saved, i + 1);
      } else {
        var loaded := LoadOne(table[i], saved[key]);
        assert LoadOne(DefaultTransition(key.0, key.1), saved[key]).1;
        LoadFromAllValid(table[i := loaded.0], saved, i + 1);
      }
    }
  }

  /** `ModeTransitionManager`. */
  class ModeTransitionManager {
    var transitions: seq<ModeTransition>
    /** The transition configurations held by the settings manager, by mode
        pair. */
    var savedConfigs: map<(TimerMode, TimerMode), StoredConfig>
    const settingsManager: Settings.SettingsManager

    predicate Valid()
      reads this
    {
      DistinctKeys(transitions)
    }

    /** `__init__`: the default table, then `_load_settings_transitions`. */
    constructor (settingsManager: Settings.SettingsManager, savedConfigs: map<(TimerMode, TimerMode), StoredConfig>)
      ensures Valid()
      ensures this.settingsManager == settingsManager && this.savedConfigs == savedConfigs
      ensures transitions == LoadFrom(DefaultTable, savedConfigs, 0)
    {
      this.settingsManager := settingsManager;
      this.savedConfigs := savedConfigs;
      transitions := DefaultTable;
      new;
      DefaultTableFacts();
      LoadSettingsTransitions();
    }

    /** `_load_settings_transitions`: the three default keys in order; a
        stored target state that names no state raises, which ends the
        loading. */
    method LoadSettingsTransitions()
      requires |transitions| == |DefaultTable| && Valid()
      requires forall j :: 0 <= j < |transitions| ==> Pair(transitions[j]) == Pair(DefaultTable[j])
      modifies this
      ensures Valid()
      ensures transitions == LoadFrom(old(transitions), savedConfigs, 0)
      ensures savedConfigs == old(savedConfigs)
    {
      var ok := LoadStored(0);
      if ok {
        ok := LoadStored(1);
        if ok {
          ok := LoadStored(2);
          assert LoadFrom(transitions, savedConfigs, 3) == transitions;
        }
      }
    }

    /** One block of `_load_settings_transitions`, for the `i`-th default
        key; false when its stored target state names no state. */
    method LoadStored(i: nat) returns (ok: bool)
      requires i < |transitions| == |DefaultTable| && Valid()
      requires forall j :: 0 <= j < |transitions| ==> Pair(transitions[j]) == Pair(DefaultTable[j])
      modifies this
      ensures Valid() && |transitions| == |DefaultTable|
      ensures forall j :: 0 <= j < |transitions| ==> Pair(transitions[j]) == Pair(DefaultTable[j])
      ensures ok ==> LoadFrom(transitions, savedConfigs, i + 1) == LoadFrom(old(transitions), savedConfigs, i)
      ensures !ok ==> transitions == LoadFrom(old(transitions), savedConfigs, i)
      ensures savedConfigs == old(savedConfigs)
    {
      var key := Pair(DefaultTable[i]);
      if key !in savedConfigs || !Configured(savedConfigs[key]) {
        return true;
      }
      var loaded := LoadOne(transitions[i], savedConfigs[key]);
      transitions := transitions[i := loaded.0];
      ok := loaded.1;
    }

    /** `execute_auto_switch`: switches the state through the first enabled
        transition leaving the completed mode and records the new mode in the
        settings; nothing happens when there is none. */
    method ExecuteAutoSwitch(completedMode: TimerMode, state: TimerState)
      returns (result: Option<TransitionResult>, newState: TimerState)
      modifies settingsManager
      ensures result.Some? <==> NextMode(transitions, completedMode).Some?
      ensures FindFrom(transitions, completedMode, true).Some? ==>
        var t := transitions[FindFrom(transitions, completedMode, true).value];
        && result == Some(TransitionResult(true, completedMode, t.toMode))
        && newState == Switched(state, t)
        && settingsManager.settings == old(settingsManager.settings)["current_mode" := JStr(t.toMode.Value())]
        && settingsManager.written == Some(settingsManager.settings)
      ensures FindFrom(transitions, completedMode, true).None? ==>
        && newState == state && settingsManager.settings == old(settingsManager.settings)
        && settingsManager.written == old(settingsManager.written)
    {
      var transitionKey := Prefix(completedMode);
      var i := 0;
      while i < |transitions|
        invariant 0 <= i <= |transitions|
        invariant forall j :: 0 <= j < i ==> !Selected(transitions[j], completedMode, true)
        invariant settingsManager.settings == old(settingsManager.settings)
        invariant settingsManager.written == old(settingsManager.written)
      {
        var transition := transitions[i];
        var matches := KeyStartsWith(transition, transitionKey, completedMode);
        if matches && transition.enabled {
          assert FindFrom(transitions, completedMode, true) == Some(i);
          result, newState := SwitchThrough(completedMode, transition, state);
          return;
        }
        i := i + 1;
      }
      return None, state;
    }

    /** The body of `execute_auto_switch` once a transition is found: the
        state takes the new mode and the target state, and the settings the
        new mode. */
    method SwitchThrough(completedMode: TimerMode, transition: ModeTransition, state: TimerState)
      returns (result: Option<TransitionResult>, newState: TimerState)
      modifies settingsManager
      ensures result == Some(TransitionResult(true, completedMode, transition.toMode))
      ensures newState == Switched(state, transition)
      ensures settingsManager.settings == old(settingsManager.settings)["current_mode" := JStr(transition.toMode.Value())]
      ensures settingsManager.written == Some(settingsManager.settings)
    {
      var newMode := transition.toMode;
      newState := state.(mode := newMode.Value());
      newState := newState.(isPaused := transition.targetState == Paused);
      newState := newState.(isRunning := transition.targetState == Running);
      var _ := settingsManager.SetCurrentMode(newMode.Value());
      result := Some(TransitionResult(true, completedMode, newMode));
    }

    /** `get_transition_config`. */
    function GetTransitionConfig(fromMode: TimerMode, toMode: TimerMode): Option<ModeTransition>
      reads this
    {
      Lookup(transitions, fromMode, toMode)
    }

    /** `set_transition_config`: stores the transition under its key and hands
        its configuration to the settings manager. */
    method SetTransitionConfig(transition: ModeTransition) returns (ok: bool)
      requires Valid()
      modifies this
      ensures Valid() && ok
      ensures transitions == Put(old(transitions), transition)
      ensures savedConfigs == old(savedConfigs)[Pair(transition) := ConfigOf(transition)]
      ensures GetTransitionConfig(transition.fromMode, transition.toMode) == Some(transition)
    {
      LookupAfterPut(transitions, transition);
      transitions := Put(transitions, transition);
      savedConfigs := savedConfigs[Pair(transition) := ConfigOf(transition)];
      ok := true;
    }

    /** `is_auto_switch_enabled`. */
    function IsAutoSwitchEnabled(fromMode: TimerMode): bool
      reads this
    {
      AutoSwitchEnabled(transitions, fromMode)
    }

    /** `get_next_mode`. */
    function GetNextMode(currentMode: TimerMode): Option<TimerMode>
      reads this
    {
      NextMode(transitions, currentMode)
    }

    /** `get_all_transitions`: a copy of the table keyed as the dict is. */
    function GetAllTransitions(): (r: map<string, ModeTransition>)
      requires Valid()
      reads this
      ensures forall t :: t in transitions ==> Key(t) in r && r[Key(t)] == t
      ensures forall k :: k in r ==> exists t :: t in transitions && Key(t) == k
    {
      KeysDistinct(transitions);
      map t | t in transitions :: Key(t) := t
    }

    /** The loop the three setters share: edits every transition whose key
        starts with the mode's prefix and hands its configuration to the
        settings manager. */
    method UpdateFrom(mode: TimerMode, edit: Edit) returns (updated: bool)
      requires Valid()
      modifies this
      ensures Valid()
      ensures transitions == UpdatedFrom(old(transitions), mode, edit)
      ensures savedConfigs == SavedAll(old(savedConfigs), Leaving(transitions, mode))
      ensures updated <==> exists i :: 0 <= i < |transitions| && transitions[i].fromMode == mode
    {
      ghost var after := UpdatedFrom(transitions, mode, edit);
      updated := EditAll(mode, edit, after);
      assert after == after[..|after|];
    }

    /** The setters' loop itself, run towards the table `after` that differs
        from the current one exactly in the edited transitions. */
    method EditAll(mode: TimerMode, edit: Edit, ghost after: seq<ModeTransition>) returns (updated: bool)
      requires |after| == |transitions|
      requires forall j :: 0 <= j < |after| ==>
        after[j] == if transitions[j].fromMode == mode then Apply(transitions[j], edit) else transitions[j]
      modifies this
      ensures |transitions| == |after| && forall j :: 0 <= j < |after| ==> transitions[j] == after[j]
      ensures savedConfigs == SavedAll(old(savedConfigs), Leaving(after[..|after|], mode))
      ensures updated <==> exists j :: 0 <= j < |after| && old(transitions)[j].fromMode == mode
    {
      ghost var before := transitions;
      var transitionKey := Prefix(mode);
      updated := false;
      for i := 0 to |transitions|
        invariant |transitions| == |before|
        invariant forall j :: 0 <= j < |before| ==> transitions[j] == if j < i then after[j] else before[j]
        invariant savedConfigs == SavedAll(old(savedConfigs), Leaving(after[..i], mode))
        invariant updated <==> exists j :: 0 <= j < i && before[j].fromMode == mode
      {
        updated := EditAt(i, transitionKey, mode, edit, updated, old(savedConfigs), before, after);
      }
    }

    /** One pass of the setters' loop: edits the `i`-th transition when its
        key starts with the mode's prefix and hands over its configuration.
        `before` and `after` are the tables the loop starts and ends with, and `saved` the
        configurations it started from. */
    method EditAt(i: nat, transitionKey: string, mode: TimerMode, edit: Edit, updated: bool,
                  ghost saved: map<(TimerMode, TimerMode), StoredConfig>,
                  ghost before: seq<ModeTransition>, ghost after: seq<ModeTransition>)
      returns (updatedNow: bool)
      requires i < |transitions| == |after| == |before| && transitionKey == Prefix(mode)
      requires transitions[i] == before[i]
      requires after[i] == if before[i].fromMode == mode then Apply(before[i], edit) else before[i]
      requires savedConfigs == SavedAll(saved, Leaving(after[..i], mode))
      requires updated <==> exists j :: 0 <= j < i && before[j].fromMode == mode
      modifies this
      ensures updatedNow <==> exists j :: 0 <= j < i + 1 && before[j].fromMode == mode
      ensures transitions == old(transitions)[i := after[i]]
      ensures savedConfigs == SavedAll(saved, Leaving(after[..i + 1], mode))
    {
      SavedLeavingStep(saved, after, i, mode);
      var transition := transitions[i];
      var matches := KeyStartsWith(transition, transitionKey, mode);
      if matches {
        transition := Apply(transition, edit);
        transitions := transitions[i := transition];
        savedConfigs := savedConfigs[Pair(transition) := ConfigOf(transition)];
      }
      updatedNow := updated || matches;
    }

    /** `enable_auto_switch`. */
    method EnableAutoSwitch(fromMode: TimerMode, enabled: bool) returns (updated: bool)
      requires Valid()
      modifies this
      ensures Valid()
      ensures transitions == UpdatedFrom(old(transitions), fromMode, SetEnabled(enabled))
      ensures savedConfigs == SavedAll(old(savedConfigs), Leaving(transitions, fromMode))
      ensures updated <==> exists i :: 0 <= i < |transitions| && transitions[i].fromMode == fromMode
    {
      updated := UpdateFrom(fromMode, SetEnabled(enabled));
    }

    /** `set_transition_delay`: a delay outside 0..5000 ms is refused. */
    method SetTransitionDelay(fromMode: TimerMode, delayMs: int) returns (updated: bool)
      requires Valid()
      modifies this
      ensures Valid()
      ensures (delayMs < 0 || delayMs > 5000) ==>
        !updated && transitions == old(transitions) && savedConfigs == old(savedConfigs)
      ensures 0 <= delayMs <= 5000 ==>
        && transitions == UpdatedFrom(old(transitions), fromMode, SetDelay(delayMs))
        && savedConfigs == SavedAll(old(savedConfigs), Leaving(transitions, fromMode))
        && (updated <==> exists i :: 0 <= i < |transitions| && transitions[i].fromMode == fromMode)
    {
      if delayMs < 0 || delayMs > 5000 {
        return false;
      }
      updated := UpdateFrom(fromMode, SetDelay(delayMs));
    }

    /** `set_target_state`. */
    method SetTargetState(fromMode: TimerMode, targetState: TransitionState) returns (updated: bool)
      requires Valid()
      modifies this
      ensures Valid()
      ensures transitions == UpdatedFrom(old(transitions), fromMode, SetTarget(targetState))
      ensures savedConfigs == SavedAll(old(savedConfigs), Leaving(transitions, fromMode))
      ensures updated <==> exists i :: 0 <= i < |transitions| && transitions[i].fromMode == fromMode
    {
      updated := UpdateFrom(fromMode, SetTarget(targetState));
    }

    /** `reset_to_defaults`: the default table, each of its configurations
        handed to the settings manager. */
    method ResetToDefaults()
      modifies this
      ensures Valid() && transitions == DefaultTable
      ensures savedConfigs == SavedAll(old(savedConfigs), DefaultTable)
    {
      DefaultTableFacts();
      transitions := DefaultTable;
      for i := 0 to |transitions|
        invariant transitions == DefaultTable
        invariant savedConfigs == SavedAll(old(savedConfigs), DefaultTable[..i])
      {
        assert DefaultTable[..i + 1][..i] == DefaultTable[..i];
        var transition := transitions[i];
        savedConfigs := savedConfigs[Pair(transition) := ConfigOf(transition)];
      }
      assert DefaultTable[..|DefaultTable|] == DefaultTable;
    }
  }

  /** `key.startswith(transition_key)` for the key of `transition` and the
      prefix of `mode`: true exactly when the transition leaves `mode`. */
  method KeyStartsWith(transition: ModeTransition, transitionKey: string, mode: TimerMode) returns (b: bool)
    requires transitionKey == Prefix(mode)
    ensures b <==> transition.fromMode == mode
  {
    PrefixIdentifiesSource(transition.fromMode, transition.toMode, mode);
    b := StartsWith(Key(transition), transitionKey);
  }

  /** In a table with distinct mode pairs, no two transitions share a key. */
  lemma KeysDistinct(table: seq<ModeTransition>)
    requires DistinctKeys(table)
    ensures forall a, b :: a in table && b in table && Key(a) == Key(b) ==> a == b
  {
    forall a, b | a in table && b in table && Key(a) == Key(b) ensures a == b {
      KeyInjective(a, b);
      var i :| 0 <= i < |table| && table[i] == a;
      var j :| 0 <= j < |table| && table[j] == b;
      assert !(i < j) && !(j < i);
    }
  }
}
