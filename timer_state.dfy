/** The persisted snapshot of a countdown (TimerState) and the manager that keeps
    it in the settings document and in a bounded set of backup files
    (sharp_timer/timer_state.py).

    The settings document is held as an in-memory JSON object and the backup
    directory as a map from the integer timestamp in a backup's file name to the
    parsed backup file. The clock (`time.time()`) and `uuid.uuid4()` are
    parameters: `now` is a whole number of seconds and `freshId` is the string a
    new UUID would give. */
module TimerStates {
  import opened Common
  import opened Constants

  /** One countdown session as it is saved and restored. */
  datatype TimerState = TimerState(
    mode: string,
    remainingSeconds: int,
    isRunning: bool,
    isPaused: bool,
    sessionId: string,
    startTimestamp: int,
    lastUpdateTimestamp: int,
    totalDurationSeconds: int,
    survivedSleep: bool,
    unexpectedTermination: bool)

  /** The dataclass construction step (`__post_init__`): an empty session id is
      replaced by a fresh one, a zero start timestamp by the current time, and the
      last-update timestamp is always overwritten with the current time. */
  function PostInit(raw: TimerState, now: int, freshId: string): (s: TimerState)
    ensures s.lastUpdateTimestamp == now
    ensures raw.sessionId != "" ==> s.sessionId == raw.sessionId
    ensures freshId != "" ==> s.sessionId != ""
    ensures raw.startTimestamp != 0 ==> s.startTimestamp == raw.startTimestamp
    ensures now > 0 && raw.startTimestamp >= 0 ==> s.startTimestamp > 0
    // no other field is touched
    ensures s.(sessionId := raw.sessionId, startTimestamp := raw.startTimestamp,
               lastUpdateTimestamp := raw.lastUpdateTimestamp) == raw
  {
    raw.(sessionId := if raw.sessionId == "" then freshId else raw.sessionId,
         startTimestamp := if raw.startTimestamp == 0 then now else raw.startTimestamp,
         lastUpdateTimestamp := now)
  }

  /** A state whose session id and start timestamp construction keeps as they are. */
  predicate Constructed(s: TimerState) {
    s.sessionId != "" && s.startTimestamp != 0
  }

  /** With a clock past the epoch and a non-empty UUID, construction always
      leaves a non-empty session id and a positive start timestamp, unless the
      caller passed a negative one. */
  lemma ConstructionFillsGaps(raw: TimerState, now: int, freshId: string)
    requires now > 0 && freshId != ""
    requires raw.startTimestamp >= 0
    ensures PostInit(raw, now, freshId).sessionId != ""
    ensures PostInit(raw, now, freshId).startTimestamp > 0
    ensures Constructed(PostInit(raw, now, freshId))
  {
  }

  /** `is_valid`. */
  predicate IsValid(s: TimerState) {
    && IsKnownMode(s.mode)
    && s.remainingSeconds >= 0
    && s.totalDurationSeconds > 0
    && s.remainingSeconds <= s.totalDurationSeconds
    && !(s.isRunning && s.isPaused)
    && s.sessionId != ""
    && s.startTimestamp > 0
  }

  // ---------------------------------------------------------------------------
  // Dictionary form (`to_dict` / `from_dict`)
  // ---------------------------------------------------------------------------

  /** The eight dataclass fields without a default value. */
  const RequiredFields: set<string> := {
    "mode", "remaining_seconds", "is_running", "is_paused", "session_id",
    "start_timestamp", "last_update_timestamp", "total_duration_seconds"}

  /** The two fields that default to False. */
  const DefaultedFields: set<string> := {"survived_sleep", "unexpected_termination"}

  /** `to_dict` (`dataclasses.asdict`): one entry per field. */
  function ToDict(s: TimerState): (d: Document)
    ensures d.Keys == RequiredFields + DefaultedFields
  {
    map[
      "mode" := JStr(s.mode),
      "remaining_seconds" := JInt(s.remainingSeconds),
      "is_running" := JBool(s.isRunning),
      "is_paused" := JBool(s.isPaused),
      "session_id" := JStr(s.sessionId),
      "start_timestamp" := JInt(s.startTimestamp),
      "last_update_timestamp" := JInt(s.lastUpdateTimestamp),
      "total_duration_seconds" := JInt(s.totalDurationSeconds),
      "survived_sleep" := JBool(s.survivedSleep),
      "unexpected_termination" := JBool(s.unexpectedTermination)]
  }

  /** A dictionary that `TimerState(**data)` accepts: every required field,
      no unknown key, and each value of the field's type. */
  predicate WellFormedDict(d: Document) {
    && RequiredFields <= d.Keys
    && d.Keys <= RequiredFields + DefaultedFields
    && d["mode"].JStr?
    && d["remaining_seconds"].JInt?
    && d["is_running"].JBool?
    && d["is_paused"].JBool?
    && d["session_id"].JStr?
    && d["start_timestamp"].JInt?
    && d["last_update_timestamp"].JInt?
    && d["total_duration_seconds"].JInt?
    && ("survived_sleep" in d ==> d["survived_sleep"].JBool?)
    && ("unexpected_termination" in d ==> d["unexpected_termination"].JBool?)
  }

  /** `from_dict`: keyword construction, which runs `PostInit` again. */
  function FromDict(d: Document, now: int, freshId: string): (r: Option<TimerState>)
    ensures r.Some? <==> WellFormedDict(d)
    ensures r.Some? ==> r.value.lastUpdateTimestamp == now
    ensures r.Some? && freshId != "" ==> r.value.sessionId != ""
  {
    if !WellFormedDict(d) then None
    else
      var raw := TimerState(
        d["mode"].s, d["remaining_seconds"].i, d["is_running"].b, d["is_paused"].b,
        d["session_id"].s, d["start_timestamp"].i, d["last_update_timestamp"].i,
        d["total_duration_seconds"].i,
        if "survived_sleep" in d then d["survived_sleep"].b else false,
        if "unexpected_termination" in d then d["unexpected_termination"].b else false);
      Some(PostInit(raw, now, freshId))
  }

  /** Serializing a constructed state and reading it back gives every field
      back except the last-update timestamp, which construction refreshes. */
  lemma RoundTrip(s: TimerState, now: int, freshId: string)
    requires Constructed(s)
    ensures FromDict(ToDict(s), now, freshId) == Some(s.(lastUpdateTimestamp := now))
  {
  }

  /** Validity does not look at the last-update timestamp. */
  lemma ValidityIgnoresLastUpdate(s: TimerState, t: int)
    ensures IsValid(s.(lastUpdateTimestamp := t)) == IsValid(s)
  {
  }

  // ---------------------------------------------------------------------------
  // The settings document
  // ---------------------------------------------------------------------------

  const TimerStateKey: string := "timer_state"
  const MetadataKey: string := "metadata"
  const AppVersion: string := "1.1.0"
  /** How many backup files `_cleanup_old_backups` keeps. */
  const MaxBackups: nat := 5

  /** The metadata block written with every save. */
  function Metadata(now: int, backupCount: nat): Json {
    JObj(map["app_version" := JStr(AppVersion), "last_saved" := JInt(now),
             "backup_count" := JInt(backupCount)])
  }

  /** The document `save_timer_state` writes: the old one with its
      "timer_state" and "metadata" entries replaced. */
  function SavedDocument(doc: Document, s: TimerState, now: int, backupCount: nat): (r: Document)
    ensures r.Keys == doc.Keys + {TimerStateKey, MetadataKey}
    ensures r[TimerStateKey] == JObj(ToDict(s))
    ensures forall k :: k in doc && k != TimerStateKey && k != MetadataKey ==> r[k] == doc[k]
  {
    doc[TimerStateKey := JObj(ToDict(s))][MetadataKey := Metadata(now, backupCount)]
  }

  /** The document `clear_timer_state` writes: the old one without "timer_state". */
  function ClearedDocument(doc: Document): (r: Document)
    ensures r.Keys == doc.Keys - {TimerStateKey}
    ensures forall k :: k in r ==> r[k] == doc[k]
  {
    if TimerStateKey in doc then doc - {TimerStateKey} else doc
  }

  /** What `load_timer_state`, `restore_from_backup` and `get_state_history` do
      with one JSON document: take its "timer_state" entry, build a state from
      it and keep it only if it is valid. */
  function StoredValidState(doc: Document, now: int, freshId: string): (r: Option<TimerState>)
    ensures r.Some? ==> IsValid(r.value) && r.value.lastUpdateTimestamp == now
    ensures r.Some? ==> TimerStateKey in doc && doc[TimerStateKey].JObj?
  {
    if TimerStateKey in doc && doc[TimerStateKey].JObj? then
      match FromDict(doc[TimerStateKey].fields, now, freshId)
      case Some(s) => if IsValid(s) then Some(s) else None
      case None => None
    else
      None
  }

  /** A save followed by a load gives back the saved state when it is valid, and
      nothing when it is not. */
  lemma LoadAfterSave(doc: Document, s: TimerState, now: int, count: nat, later: int, freshId: string)
    requires Constructed(s)
    ensures StoredValidState(SavedDocument(doc, s, now, count), later, freshId)
         == if IsValid(s) then Some(s.(lastUpdateTimestamp := later)) else None
  {
    RoundTrip(s, later, freshId);
    ValidityIgnoresLastUpdate(s, later);
  }

  /** After a clear, a load finds nothing; clearing twice is clearing once. */
  lemma LoadAfterClear(doc: Document, now: int, freshId: string)
    ensures StoredValidState(ClearedDocument(doc), now, freshId) == None
    ensures ClearedDocument(ClearedDocument(doc)) == ClearedDocument(doc)
  {
  }

  // ---------------------------------------------------------------------------
  // Backup files, in name order
  // ---------------------------------------------------------------------------

  /** The content `create_backup` writes to "timer_state_backup_<ts>.json". */
  function BackupDocument(s: TimerState, timestamp: int): Document {
    map[TimerStateKey := JObj(ToDict(s)), "backup_timestamp" := JInt(timestamp),
        "app_version" := JStr(AppVersion)]
  }

  /** Any element of a non-empty set. */
  lemma Pick(s: set<int>) returns (y: int)
    requires s != {}
    ensures y in s
  {
    assert (forall k :: k !in s) ==> s == {};
    y :| y in s;
  }

  predicate IsMaxOf(m: int, s: set<int>) {
    m in s && forall j :: j in s ==> j <= m
  }

  /** The maximum of `s` is `y` or the maximum of the rest. */
  lemma MaxStep(s: set<int>, y: int, r: int)
    requires y in s && (s - {y} == {} || IsMaxOf(r, s - {y}))
    ensures IsMaxOf(if s - {y} == {} || y > r then y else r, s)
  {
    forall j | j in s && j != y ensures j in s - {y} { }
  }

  lemma {:induction false} LargestOf(s: set<int>) returns (m: int)
    requires s != {}
    ensures IsMaxOf(m, s)
    decreases |s|
  {
    var y := Pick(s);
    var r := y;
    if s - {y} != {} {
      r := LargestOf(s - {y});
    }
    MaxStep(s, y, r);
    m := if s - {y} == {} || y > r then y else r;
  }

  lemma MaxExists(s: set<int>)
    requires s != {}
    ensures exists m :: IsMaxOf(m, s)
  {
    var m := LargestOf(s);
  }

  /** The greatest element of a non-empty set of timestamps. */
  function Max(s: set<int>): (m: int)
    requires s != {}
    ensures IsMaxOf(m, s)
  {
    MaxExists(s);
    var m :| IsMaxOf(m, s);
    m
  }

  predicate StrictlyIncreasing(a: seq<int>) {
    forall i, j :: 0 <= i < j < |a| ==> a[i] < a[j]
  }

  function Elems(a: seq<int>): set<int> {
    set k | k in a
  }

  /** The backup timestamps in the order `sorted(glob(...))` lists the files. */
  function Ascending(s: set<int>): (a: seq<int>)
    ensures |a| == |s|
    ensures StrictlyIncreasing(a)
    ensures forall k :: k in a <==> k in s
    decreases |s|
  {
    if s == {} then []
    else
      var m := Max(s);
      var rest := Ascending(s - {m});
      assert forall k :: k in rest ==> k < m;
      rest + [m]
  }

  /** A strictly increasing sequence has as many distinct elements as entries. */
  lemma {:induction false} IncreasingCard(a: seq<int>)
    requires StrictlyIncreasing(a)
    ensures |Elems(a)| == |a|
  {
    if a != [] {
      var init := a[..|a| - 1];
      IncreasingCard(init);
      assert Elems(a) == Elems(init) + {a[|a| - 1]};
      assert a[|a| - 1] !in Elems(init);
    }
  }

  /** Removing the first `start` entries of a duplicate-free listing of `s`
      from `s` leaves exactly the other entries. */
  lemma DropPrefix(a: seq<int>, s: set<int>, start: nat)
    requires start <= |a| && StrictlyIncreasing(a)
    requires forall k :: k in a <==> k in s
    ensures s - Elems(a[..start]) == Elems(a[start..])
  {
    forall k | k in s
      ensures k in Elems(a[..start]) <==> k !in Elems(a[start..])
    {
      var p :| 0 <= p < |a| && a[p] == k;
      if p < start {
        assert k in Elems(a[..start]);
        assert forall q :: start <= q < |a| ==> a[q] != k;
      } else {
        assert k in Elems(a[start..]);
        assert forall q :: 0 <= q < start ==> a[q] != k;
      }
    }
  }

  /** In a sorted listing of a set, the greatest element comes last. */
  lemma LastIsMax(a: seq<int>, s: set<int>, top: int)
    requires StrictlyIncreasing(a)
    requires forall k :: k in a <==> k in s
    requires top in s && forall k :: k in s ==> k <= top
    ensures |a| > 0 && a[|a| - 1] == top
  {
    assert top in a;
    var p :| 0 <= p < |a| && a[p] == top;
    assert a[|a| - 1] in s;
  }

  /** The position of the first file that `backup_files[-n:]` keeps. */
  function FirstKept(count: nat, n: nat): (i: nat)
    ensures i <= count
  {
    if count > n then count - n else 0
  }

  /** The timestamps of the `n` newest backups. */
  function Newest(s: set<int>, n: nat): set<int> {
    var a := Ascending(s);
    Elems(a[FirstKept(|a|, n)..])
  }

  /** `m` with the keys `ks` removed one after the other. */
  function Without<V>(m: map<int, V>, ks: seq<int>): map<int, V> {
    if ks == [] then m else Without(m, ks[..|ks| - 1]) - {ks[|ks| - 1]}
  }

  /** Removing one more key of the list. */
  lemma WithoutStep<V>(m: map<int, V>, ks: seq<int>, i: nat)
    requires i < |ks|
    ensures Without(m, ks[..i + 1]) == Without(m, ks[..i]) - {ks[i]}
  {
    assert ks[..i + 1][..i] == ks[..i];
  }

  lemma {:induction false} WithoutKeys<V>(m: map<int, V>, ks: seq<int>)
    ensures Without(m, ks).Keys == m.Keys - Elems(ks)
    ensures forall k :: k in Without(m, ks) ==> Without(m, ks)[k] == m[k]
  {
    if ks != [] {
      WithoutKeys(m, ks[..|ks| - 1]);
      assert ks == ks[..|ks| - 1] + [ks[|ks| - 1]];
      assert Elems(ks) == Elems(ks[..|ks| - 1]) + {ks[|ks| - 1]};
    }
  }

  /** The entries of `m` whose key is in `keep`. */
  function KeepOnly<V>(m: map<int, V>, keep: set<int>): (r: map<int, V>)
    ensures r.Keys == m.Keys * keep
    ensures forall k :: k in r ==> r[k] == m[k]
  {
    map k | k in m.Keys && k in keep :: m[k]
  }

  /** Removing the first `start` keys of a sorted listing of `m`, one by one,
      keeps exactly the entries listed after them. */
  lemma WithoutPrefix<V>(m: map<int, V>, a: seq<int>, start: nat)
    requires start <= |a| && StrictlyIncreasing(a)
    requires forall k :: k in a <==> k in m
    ensures Without(m, a[..start]) == KeepOnly(m, Elems(a[start..]))
  {
    WithoutKeys(m, a[..start]);
    DropPrefix(a, m.Keys, start);
    var w := Without(m, a[..start]);
    var r := KeepOnly(m, Elems(a[start..]));
    assert w.Keys == r.Keys;
  }

  /** Unlinking, one by one, the files that come before the kept ones leaves
      the retained backups. */
  lemma RetainedAfterDrop<V>(all: map<int, V>, n: nat)
    ensures var a := Ascending(all.Keys);
      Without(all, a[..FirstKept(|a|, n)]) == Retained(all, n)
  {
    var a := Ascending(all.Keys);
    WithoutPrefix(all, a, FirstKept(|a|, n));
  }

  /** The backups `_cleanup_old_backups` leaves: the `n` last in name order. */
  function Retained<V>(m: map<int, V>, n: nat): (r: map<int, V>)
    ensures r.Keys <= m.Keys
    ensures forall k :: k in r ==> r[k] == m[k]
  {
    KeepOnly(m, Newest(m.Keys, n))
  }

  /** At most `n` backups remain, and exactly `n` when there were that many. */
  lemma RetainedBound<V>(m: map<int, V>, n: nat)
    ensures |Retained(m, n)| == if |m| < n then |m| else n
  {
    var a := Ascending(m.Keys);
    var start := FirstKept(|a|, n);
    var tail := a[start..];
    assert StrictlyIncreasing(tail);
    IncreasingCard(tail);
    assert Retained(m, n).Keys == Elems(tail);
  }

  /** Every removed backup is older than every kept one: the kept ones are the
      newest. */
  lemma RetainedAreNewest<V>(m: map<int, V>, n: nat, kept: int, dropped: int)
    requires kept in Retained(m, n)
    requires dropped in m && dropped !in Retained(m, n)
    ensures dropped < kept
  {
    var a := Ascending(m.Keys);
    var start := FirstKept(|a|, n);
    var p :| start <= p < |a| && a[p] == kept;
    var q :| 0 <= q < |a| && a[q] == dropped;
  }

  /** The backup set after `create_backup(s)` at time `now`. */
  function CreatedBackups(b: map<int, Document>, s: TimerState, now: int): map<int, Document> {
    Retained(b[now := BackupDocument(s, now)], MaxBackups)
  }

  /** A backup taken no earlier than every existing one is kept, replacing one
      taken in the same second, and at most five backups remain. */
  lemma BackupKeepsNewest(b: map<int, Document>, s: TimerState, now: int)
    requires forall k :: k in b ==> k <= now
    ensures now in CreatedBackups(b, s, now)
    ensures CreatedBackups(b, s, now)[now] == BackupDocument(s, now)
    ensures |CreatedBackups(b, s, now)| <= MaxBackups
    ensures now in b ==> |CreatedBackups(b, s, now)| == if |b| < MaxBackups then |b| else MaxBackups
  {
    var m := b[now := BackupDocument(s, now)];
    var a := Ascending(m.Keys);
    LastIsMax(a, m.Keys, now);
    var start := FirstKept(|a|, MaxBackups);
    assert a[|a| - 1] in a[start..];
    assert now in Newest(m.Keys, MaxBackups);
    RetainedBound(m, MaxBackups);
    if now in b {
      assert m.Keys == b.Keys;
    }
  }

  /** The state `restore_from_backup` returns: that of the last file in name
      order, when it is valid. Older backups are never consulted. */
  function NewestValidState(b: map<int, Document>, now: int, freshId: string): (r: Option<TimerState>)
    ensures r.Some? ==> IsValid(r.value) && b != map[]
    ensures b != map[] ==> r == StoredValidState(b[Max(b.Keys)], now, freshId)
  {
    var names := Ascending(b.Keys);
    if names == [] then None
    else
      assert names[|names| - 1] == Max(b.Keys) by {
        var p :| 0 <= p < |names| && names[p] == Max(b.Keys);
        assert p == |names| - 1;
      }
      StoredValidState(b[names[|names| - 1]], now, freshId)
  }

  /** A backup file of a valid state reads back as that state (refreshed). */
  lemma LoadBackup(s: TimerState, timestamp: int, later: int, freshId: string)
    requires Constructed(s) && IsValid(s)
    ensures StoredValidState(BackupDocument(s, timestamp), later, freshId)
         == Some(s.(lastUpdateTimestamp := later))
  {
    RoundTrip(s, later, freshId);
    ValidityIgnoresLastUpdate(s, later);
  }

  /** Backing up a valid state and then restoring gives it back (refreshed). */
  lemma RestoreAfterBackup(b: map<int, Document>, s: TimerState, now: int, later: int, freshId: string)
    requires Constructed(s) && IsValid(s)
    requires forall k :: k in b ==> k <= now
    ensures NewestValidState(CreatedBackups(b, s, now), later, freshId)
         == Some(s.(lastUpdateTimestamp := later))
  {
    var c := CreatedBackups(b, s, now);
    BackupKeepsNewest(b, s, now);
    assert c.Keys <= b.Keys + {now};
    assert IsMaxOf(now, c.Keys);
    var top := Max(c.Keys);
    assert top <= now && now <= top;
    LoadBackup(s, now, later, freshId);
  }

  /** The index `backup_files[-limit:]` starts at (Python slice semantics: a
      limit of 0 keeps every file, a negative limit drops the first -limit). */
  function HistoryStart(count: nat, limit: int): (start: nat)
    ensures start <= count
    ensures limit > 0 ==> count - start == if limit < count then limit else count
    ensures limit == 0 ==> start == 0
  {
    var st := -limit;
    if st < 0 then Max0(count + st)
    else if st < count then st
    else count
  }

  /** The valid states found in the given backups, in the given order. */
  function ValidStates(b: map<int, Document>, names: seq<int>, now: int, freshId: string): (r: seq<TimerState>)
    requires forall i :: 0 <= i < |names| ==> names[i] in b
    ensures |r| <= |names|
    ensures forall i :: 0 <= i < |r| ==> IsValid(r[i])
  {
    if names == [] then []
    else
      var rest := ValidStates(b, names[..|names| - 1], now, freshId);
      match StoredValidState(b[names[|names| - 1]], now, freshId)
      case Some(s) => rest + [s]
      case None => rest
  }

  /** Extending the list by one name adds that backup's state, if it is valid. */
  lemma ValidStatesSnoc(b: map<int, Document>, names: seq<int>, i: nat, now: int, freshId: string)
    requires i < |names|
    requires forall j :: 0 <= j < |names| ==> names[j] in b
    ensures var st := StoredValidState(b[names[i]], now, freshId);
      ValidStates(b, names[..i + 1], now, freshId)
        == ValidStates(b, names[..i], now, freshId) + (if st.Some? then [st.value] else [])
  {
    assert names[..i + 1][..i] == names[..i];
  }

  /** The backup timestamps `sorted(glob(...))[-limit:]` lists, oldest first. */
  function HistoryWindow(b: map<int, Document>, limit: int): (names: seq<int>)
    ensures StrictlyIncreasing(names)
    ensures forall i :: 0 <= i < |names| ==> names[i] in b
    ensures |names| <= |b|
    ensures limit > 0 ==> |names| == if limit < |b| then limit else |b|
    ensures limit == 0 ==> |names| == |b|
    ensures forall k, n :: k in b && k !in names && n in names ==> k < n
  {
    var all := Ascending(b.Keys);
    var start := HistoryStart(|all|, limit);
    SuffixIsNewest(all, b.Keys, start);
    all[start..]
  }

  /** In an increasing list, the entries a suffix leaves out are older than
      every entry it keeps. */
  lemma SuffixIsNewest(all: seq<int>, keys: set<int>, start: nat)
    requires StrictlyIncreasing(all) && start <= |all|
    requires forall k :: k in all <==> k in keys
    ensures StrictlyIncreasing(all[start..])
    ensures forall i :: 0 <= i < |all[start..]| ==> all[start..][i] in keys
    ensures forall k, n :: k in keys && k !in all[start..] && n in all[start..] ==> k < n
  {
    assert forall i :: 0 <= i < |all[start..]| ==> all[start..][i] == all[start + i];
    forall k, n | k in all && k !in all[start..] && n in all[start..] ensures k < n {
      var i :| 0 <= i < |all| && all[i] == k;
      var j :| 0 <= j < |all[start..]| && all[start..][j] == n;
      assert forall t :: start <= t < |all| ==> all[t] == all[start..][t - start];
    }
  }

  /** How many of the first `i` listed backups hold a valid state: the place
      the state of backup `i` takes in the history. */
  function Rank(b: map<int, Document>, names: seq<int>, i: nat, now: int, freshId: string): nat
    requires forall k :: 0 <= k < |names| ==> names[k] in b
    requires i <= |names|
  {
    |ValidStates(b, names[..i], now, freshId)|
  }

  /** The states of the first `i` backups start the states of all of them. */
  lemma {:induction false} ValidStatesPrefix(b: map<int, Document>, names: seq<int>, i: nat, now: int, freshId: string)
    requires forall k :: 0 <= k < |names| ==> names[k] in b
    requires i <= |names|
    ensures var p := ValidStates(b, names[..i], now, freshId);
      |p| <= |ValidStates(b, names, now, freshId)| && ValidStates(b, names, now, freshId)[..|p|] == p
    decreases |names|
  {
    if i < |names| {
      var init := names[..|names| - 1];
      assert init[..i] == names[..i];
      ValidStatesPrefix(b, init, i, now, freshId);
    } else {
      assert names[..i] == names;
    }
  }

  /** Every state in the result comes from one of the listed backups. */
  lemma {:induction false} ValidStatesFrom(b: map<int, Document>, names: seq<int>, now: int, freshId: string)
    requires forall k :: 0 <= k < |names| ==> names[k] in b
    ensures forall s :: s in ValidStates(b, names, now, freshId) ==>
      exists i :: 0 <= i < |names| && StoredValidState(b[names[i]], now, freshId) == Some(s)
  {
    if names != [] {
      var init := names[..|names| - 1];
      ValidStatesFrom(b, init, now, freshId);
      forall s | s in ValidStates(b, names, now, freshId)
        ensures exists i :: 0 <= i < |names| && StoredValidState(b[names[i]], now, freshId) == Some(s)
      {
        if s in ValidStates(b, init, now, freshId) {
          var i :| 0 <= i < |init| && StoredValidState(b[init[i]], now, freshId) == Some(s);
          assert names[i] == init[i];
        } else {
          assert StoredValidState(b[names[|names| - 1]], now, freshId) == Some(s);
        }
      }
    }
  }

  /** Whatever the backups hold, every valid one has its state in the result,
      at its rank, and the ranks of valid backups grow with their place in
      the list: invalid or unreadable backups are skipped and the order is
      kept. */
  lemma ValidStatesPositions(b: map<int, Document>, names: seq<int>, now: int, freshId: string)
    requires forall k :: 0 <= k < |names| ==> names[k] in b
    ensures forall i :: 0 <= i < |names| && StoredValidState(b[names[i]], now, freshId).Some? ==>
      && Rank(b, names, i, now, freshId) < |ValidStates(b, names, now, freshId)|
      && ValidStates(b, names, now, freshId)[Rank(b, names, i, now, freshId)]
         == StoredValidState(b[names[i]], now, freshId).value
    ensures forall i, j :: 0 <= i < j <= |names| && StoredValidState(b[names[i]], now, freshId).Some? ==>
      Rank(b, names, i, now, freshId) < Rank(b, names, j, now, freshId)
  {
    forall i | 0 <= i < |names| && StoredValidState(b[names[i]], now, freshId).Some? {
      ValidAtRank(b, names, i, now, freshId);
    }
    forall i, j | 0 <= i < j <= |names| && StoredValidState(b[names[i]], now, freshId).Some? {
      RankGrows(b, names, i, j, now, freshId);
    }
  }

  /** A valid backup's state sits at its rank in the result. */
  lemma ValidAtRank(b: map<int, Document>, names: seq<int>, i: nat, now: int, freshId: string)
    requires forall k :: 0 <= k < |names| ==> names[k] in b
    requires i < |names| && StoredValidState(b[names[i]], now, freshId).Some?
    ensures Rank(b, names, i, now, freshId) < |ValidStates(b, names, now, freshId)|
    ensures ValidStates(b, names, now, freshId)[Rank(b, names, i, now, freshId)]
            == StoredValidState(b[names[i]], now, freshId).value
  {
    ValidStatesPrefix(b, names, i + 1, now, freshId);
    ValidStatesSnoc(b, names, i, now, freshId);
  }

  /** A valid backup ranks below every later one. */
  lemma RankGrows(b: map<int, Document>, names: seq<int>, i: nat, j: nat, now: int, freshId: string)
    requires forall k :: 0 <= k < |names| ==> names[k] in b
    requires i < j <= |names| && StoredValidState(b[names[i]], now, freshId).Some?
    ensures Rank(b, names, i, now, freshId) < Rank(b, names, j, now, freshId)
  {
    var prefix := names[..j];
    assert prefix[..i + 1] == names[..i + 1];
    ValidStatesPrefix(b, prefix, i + 1, now, freshId);
    ValidStatesSnoc(b, names, i, now, freshId);
  }

  /** What `get_state_history(limit)` returns. */
  function History(b: map<int, Document>, limit: int, now: int, freshId: string): (r: seq<TimerState>)
    ensures forall i :: 0 <= i < |r| ==> IsValid(r[i])
    ensures |r| <= |b|
    ensures limit > 0 ==> |r| <= limit
  {
    ValidStates(b, HistoryWindow(b, limit), now, freshId)
  }

  /** When every listed backup holds a valid state, the result has one state
      per backup, in the order of the list. */
  lemma {:induction false} ValidStatesInOrder(b: map<int, Document>, names: seq<int>, now: int, freshId: string)
    requires forall i :: 0 <= i < |names| ==> names[i] in b
    requires forall i :: 0 <= i < |names| ==> StoredValidState(b[names[i]], now, freshId).Some?
    ensures |ValidStates(b, names, now, freshId)| == |names|
    ensures forall i :: 0 <= i < |names| ==>
              ValidStates(b, names, now, freshId)[i] == StoredValidState(b[names[i]], now, freshId).value
  {
    if names != [] {
      ValidStatesInOrder(b, names[..|names| - 1], now, freshId);
    }
  }

  /** History is oldest first: when all the backups are valid, entry `i` is the
      state of the `i`-th newest-but-kept file in ascending timestamp order. */
  lemma HistoryOldestFirst(b: map<int, Document>, limit: int, now: int, freshId: string)
    requires forall k :: k in b ==> StoredValidState(b[k], now, freshId).Some?
    ensures var names := HistoryWindow(b, limit);
      && |History(b, limit, now, freshId)| == |names|
      && forall i :: 0 <= i < |names| ==>
           History(b, limit, now, freshId)[i] == StoredValidState(b[names[i]], now, freshId).value
  {
    ValidStatesInOrder(b, HistoryWindow(b, limit), now, freshId);
  }

  /** `get_state_history` over any backups: the states of the valid backups
      among the newest `limit`, each at its rank, oldest first, and nothing
      else. */
  lemma HistoryValidInOrder(b: map<int, Document>, limit: int, now: int, freshId: string)
    ensures var names := HistoryWindow(b, limit);
      var h := History(b, limit, now, freshId);
      && (forall i :: 0 <= i < |names| && StoredValidState(b[names[i]], now, freshId).Some? ==>
            Rank(b, names, i, now, freshId) < |h|
            && h[Rank(b, names, i, now, freshId)] == StoredValidState(b[names[i]], now, freshId).value)
      && (forall i, j :: 0 <= i < j <= |names| && StoredValidState(b[names[i]], now, freshId).Some? ==>
            Rank(b, names, i, now, freshId) < Rank(b, names, j, now, freshId))
      && (forall s :: s in h ==>
            exists i :: 0 <= i < |names| && StoredValidState(b[names[i]], now, freshId) == Some(s))
  {
    var names := HistoryWindow(b, limit);
    ValidStatesPositions(b, names, now, freshId);
    ValidStatesFrom(b, names, now, freshId);
  }

  /** The loop of `get_state_history`: the valid states of the listed
      backups, in the order of the list, skipping the others. */
  method CollectValid(files: map<int, Document>, window: seq<int>, now: int, freshId: string)
    returns (states: seq<TimerState>)
    requires forall j :: 0 <= j < |window| ==> window[j] in files
    ensures states == ValidStates(files, window, now, freshId)
  {
    states := [];
    for i := 0 to |window|
      invariant states == ValidStates(files, window[..i], now, freshId)
    {
      ValidStatesSnoc(files, window, i, now, freshId);
      var restored := StoredValidState(files[window[i]], now, freshId);
      states := states + if restored.Some? then [restored.value] else [];
    }
    assert window[..|window|] == window;
  }

  // ---------------------------------------------------------------------------
  // The manager
  // ---------------------------------------------------------------------------

  /** `TimerStateManager`: the settings document and the backup directory. */
  class TimerStateManager {
    var document: Document
    var backups: map<int, Document>

    /** Opens the store over what is on disk. */
    constructor (document: Document, backups: map<int, Document>)
      ensures this.document == document && this.backups == backups
    {
      this.document := document;
      this.backups := backups;
    }

    /** `_atomic_save_settings`: the temp file either replaces the document
        (`replaced`) or the old document stays as it was. */
    method AtomicSave(settings: Document, replaced: bool) returns (ok: bool)
      modifies this
      ensures ok == replaced
      ensures document == if replaced then settings else old(document)
      ensures backups == old(backups)
    {
      if replaced {
        document := settings;
      }
      ok := replaced;
    }

    /** `save_timer_state`. */
    method SaveTimerState(state: TimerState, now: int, replaced: bool) returns (ok: bool)
      modifies this
      ensures ok == replaced
      ensures document == if replaced then SavedDocument(old(document), state, now, |old(backups)|)
                          else old(document)
      ensures backups == old(backups)
    {
      var settings := document;
      settings := settings[TimerStateKey := JObj(ToDict(state))];
      settings := settings[MetadataKey := Metadata(now, |backups|)];
      ok := AtomicSave(settings, replaced);
    }

    /** `load_timer_state`. */
    function LoadTimerState(now: int, freshId: string): (r: Option<TimerState>)
      reads this
      ensures r.Some? ==> IsValid(r.value)
      ensures TimerStateKey !in document ==> r == None
    {
      StoredValidState(document, now, freshId)
    }

    /** `clear_timer_state`. */
    method ClearTimerState(replaced: bool) returns (ok: bool)
      modifies this
      ensures ok == replaced
      ensures document == if replaced then ClearedDocument(old(document)) else old(document)
      ensures backups == old(backups)
    {
      var settings := document;
      if TimerStateKey in settings {
        settings := settings - {TimerStateKey};
      }
      ok := AtomicSave(settings, replaced);
    }

    /** `create_backup`: writes "timer_state_backup_<now>.json" (overwriting a
        backup of the same second) and then cleans up. */
    method CreateBackup(state: TimerState, now: int) returns (ok: bool)
      modifies this
      ensures ok
      ensures backups == CreatedBackups(old(backups), state, now)
      ensures document == old(document)
    {
      backups := backups[now := BackupDocument(state, now)];
      CleanupOldBackups();
      ok := true;
    }

    /** `_cleanup_old_backups`: unlinks every file but the last five in name
        order. */
    method CleanupOldBackups()
      modifies this
      ensures backups == Retained(old(backups), MaxBackups)
      ensures document == old(document)
    {
      var backupFiles := Ascending(backups.Keys);
      var start := FirstKept(|backupFiles|, MaxBackups);
      ghost var all := backups;
      for i := 0 to start
        invariant document == old(document)
        invariant backups == Without(all, backupFiles[..i])
      {
        WithoutStep(all, backupFiles, i);
        backups := backups - {backupFiles[i]};
      }
      RetainedAfterDrop(all, MaxBackups);
    }

    /** `restore_from_backup`. */
    function RestoreFromBackup(now: int, freshId: string): (r: Option<TimerState>)
      reads this
      ensures r.Some? ==> IsValid(r.value)
      ensures backups == map[] ==> r == None
    {
      NewestValidState(backups, now, freshId)
    }

    /** `get_state_history`: the valid states among the last `limit` backups,
        oldest first. */
    method GetStateHistory(limit: int, now: int, freshId: string) returns (states: seq<TimerState>)
      ensures states == History(backups, limit, now, freshId)
    {
      var files := backups;
      var window := HistoryWindow(files, limit);
      states := CollectValid(files, window, now, freshId);
    }
  }
}
