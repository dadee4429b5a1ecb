/** The user settings kept by `SettingsManager` (sharp_timer/settings.py).

    The settings are a JSON object held in memory. Reading the settings file
    is a parameter (`SettingsFile`) and a write by `save_settings` is recorded
    in the field `written`. */
module Settings {
  import opened Common
  import opened Constants

  /** `self.defaults`. */
  const Defaults: Document := map[
    "work_duration" := JInt(DefaultWorkDuration),
    "rest_eyes_duration" := JInt(DefaultRestEyesDuration),
    "long_rest_duration" := JInt(DefaultLongRestDuration),
    "current_mode" := JStr(ModeWork),
    "notifications_enabled" := JBool(true),
    "sound_enabled" := JBool(true),
    "auto_start_next" := JBool(false)]

  /** The keys of `self.defaults` in the order a loop over it visits them. */
  const DefaultKeys: seq<string> := [
    "work_duration", "rest_eyes_duration", "long_rest_duration", "current_mode",
    "notifications_enabled", "sound_enabled", "auto_start_next"]

  lemma DefaultKeysListDefaults()
    ensures forall k :: k in DefaultKeys <==> k in Defaults
  {
  }

  /** What reading the settings file gives: no file, a file that cannot be
      read or decoded, or a decoded JSON object. */
  datatype SettingsFile = Missing | Unreadable | Parsed(content: Document)

  /** The settings key of a mode's duration: "<mode>_duration". */
  function DurationKey(mode: string): string {
    mode + "_duration"
  }

  /** The value of `settings[key]` after the merge loop of `load_settings`:
      keys of the defaults that the file holds take the file's value, every
      other key keeps its value, and keys only the file holds are ignored. */
  function Merged(current: Document, loaded: Document): (r: Document)
    ensures r.Keys == current.Keys + (loaded.Keys * Defaults.Keys)
    ensures forall k :: k in loaded && k in Defaults ==> r[k] == loaded[k]
    ensures forall k :: k in current && !(k in loaded && k in Defaults) ==> r[k] == current[k]
  {
    map k | k in current.Keys + (loaded.Keys * Defaults.Keys) ::
      if k in loaded && k in Defaults then loaded[k] else current[k]
  }

  /** The merge restricted to the keys visited so far. */
  function MergedOver(current: Document, loaded: Document, keys: seq<string>): Document {
    if keys == [] then current
    else
      var k := keys[|keys| - 1];
      var before := MergedOver(current, loaded, keys[..|keys| - 1]);
      if k in loaded then before[k := loaded[k]] else before
  }

  /** Visiting the keys one after the other gives the merge over those keys. */
  lemma {:induction false} MergedOverSpec(current: Document, loaded: Document, keys: seq<string>)
    ensures MergedOver(current, loaded, keys).Keys == current.Keys + (loaded.Keys * (set k | k in keys))
    ensures forall k :: k in MergedOver(current, loaded, keys) ==>
      MergedOver(current, loaded, keys)[k] == if k in loaded && k in keys then loaded[k] else current[k]
  {
    if keys != [] {
      MergedOverSpec(current, loaded, keys[..|keys| - 1]);
      assert forall k :: k in keys <==> k in keys[..|keys| - 1] || k == keys[|keys| - 1];
    }
  }

  /** `get_duration`: the stored value, else the default, else 25. */
  function DurationIn(settings: Document, mode: string): (r: Json)
    ensures DurationKey(mode) in settings ==> r == settings[DurationKey(mode)]
    ensures DurationKey(mode) !in settings && DurationKey(mode) in Defaults ==> r == Defaults[DurationKey(mode)]
    ensures DurationKey(mode) !in settings && DurationKey(mode) !in Defaults ==> r == JInt(25)
  {
    var key := DurationKey(mode);
    if key in settings then settings[key]
    else if key in Defaults then Defaults[key]
    else JInt(25)
  }

  /** Python's `isinstance(duration, int) and 1 <= duration <= 60`: a bool is
      an int, so `True` (which equals 1) passes as well. */
  predicate AcceptedDuration(duration: Json) {
    match duration
    case JInt(i) => 1 <= i <= 60
    case JBool(b) => b
    case _ => false
  }

  /** The only accepted durations are the whole minutes 1 to 60 and `True`. */
  lemma AcceptedDurations(duration: Json)
    ensures AcceptedDuration(duration) <==>
      (duration.JInt? && 1 <= duration.i <= 60) || duration == JBool(true)
  {
  }

  /** `get_current_mode`: the stored mode, else "work". */
  function CurrentModeIn(settings: Document): (r: Json)
    ensures "current_mode" !in settings ==> r == JStr(ModeWork)
    ensures "current_mode" in settings ==> r == settings["current_mode"]
  {
    if "current_mode" in settings then settings["current_mode"] else JStr(ModeWork)
  }

  /** A set duration is read back, and nothing else is read differently. */
  lemma DurationRoundTrip(settings: Document, mode: string, other: string, duration: Json)
    ensures DurationIn(settings[DurationKey(mode) := duration], mode) == duration
    ensures DurationKey(other) != DurationKey(mode) ==>
      DurationIn(settings[DurationKey(mode) := duration], other) == DurationIn(settings, other)
    ensures CurrentModeIn(settings[DurationKey(mode) := duration]) == CurrentModeIn(settings)
  {
    assert DurationKey(mode) != "current_mode" by {
      assert DurationKey(mode)[|DurationKey(mode)| - 1] == 'n';
    }
  }

  /** On fresh defaults, the known modes read their default durations and the
      mode is "work". */
  lemma DefaultReads()
    ensures DurationIn(Defaults, ModeWork) == JInt(25)
    ensures DurationIn(Defaults, ModeRestEyes) == JInt(5)
    ensures DurationIn(Defaults, ModeLongRest) == JInt(15)
    ensures CurrentModeIn(Defaults) == JStr(ModeWork)
  {
    assert DurationKey(ModeWork) == "work_duration";
    assert DurationKey(ModeRestEyes) == "rest_eyes_duration";
    assert DurationKey(ModeLongRest) == "long_rest_duration";
  }

  /** A merge into settings that hold every default key adds no key. */
  lemma MergeAddsNoKey(current: Document, loaded: Document)
    requires Defaults.Keys <= current.Keys
    ensures Merged(current, loaded).Keys == current.Keys
    ensures Merged(Defaults, loaded).Keys == Defaults.Keys
  {
  }

  /** The settings a new `SettingsManager` holds after reading `file`. */
  function Loaded(file: SettingsFile): (r: Document)
    ensures Defaults.Keys <= r.Keys
    ensures file.Parsed? ==> forall k :: k in file.content && k in Defaults ==> r[k] == file.content[k]
    ensures !file.Parsed? ==> r == Defaults
  {
    match file
    case Parsed(loaded) => Merged(Defaults, loaded)
    case _ => Defaults
  }

  /** `SettingsManager`. */
  class SettingsManager {
    var settings: Document
    /** The document the last `save_settings` wrote, if any. */
    var written: Option<Document>

    /** `__init__`: the defaults, then `load_settings`. */
    constructor (file: SettingsFile)
      ensures settings == Loaded(file)
      ensures written == None
    {
      settings := Defaults;
      written := None;
      new;
      LoadSettings(file);
    }

    /** `load_settings`: merge the keys of the defaults from the file, or go
        back to the defaults when the file cannot be read or decoded. */
    method LoadSettings(file: SettingsFile)
      modifies this
      ensures settings == match file
        case Missing => old(settings)
        case Unreadable => Defaults
        case Parsed(loaded) => Merged(old(settings), loaded)
      ensures written == old(written)
    {
      match file
      case Missing =>
      case Unreadable =>
        settings := Defaults;
      case Parsed(loaded) =>
        for i := 0 to |DefaultKeys|
          invariant settings == MergedOver(old(settings), loaded, DefaultKeys[..i])
          invariant written == old(written)
        {
          assert DefaultKeys[..i + 1][..i] == DefaultKeys[..i];
          var key := DefaultKeys[i];
          if key in loaded {
            settings := settings[key := loaded[key]];
          }
        }
        assert DefaultKeys[..|DefaultKeys|] == DefaultKeys;
        MergedOverSpec(old(settings), loaded, DefaultKeys);
        DefaultKeysListDefaults();
        assert (set k | k in DefaultKeys) == Defaults.Keys;
    }

    /** `save_settings` (a failed write is not modelled). */
    method SaveSettings()
      modifies this
      ensures written == Some(settings) && settings == old(settings)
    {
      written := Some(settings);
    }

    /** `get_duration`. */
    function GetDuration(mode: string): Json
      reads this
    {
      DurationIn(settings, mode)
    }

    /** `set_duration`: an accepted duration is stored under the mode's key
        (the mode itself is not checked) and saved. */
    method SetDuration(mode: string, duration: Json) returns (ok: bool)
      modifies this
      ensures ok == AcceptedDuration(duration)
      ensures ok ==> settings == old(settings)[DurationKey(mode) := duration] && written == Some(settings)
      ensures !ok ==> settings == old(settings) && written == old(written)
    {
      if AcceptedDuration(duration) {
        settings := settings[DurationKey(mode) := duration];
        SaveSettings();
        return true;
      }
      return false;
    }

    /** `get_current_mode`. */
    function GetCurrentMode(): Json
      reads this
    {
      CurrentModeIn(settings)
    }

    /** `set_current_mode`: only the three known modes are stored. */
    method SetCurrentMode(mode: string) returns (ok: bool)
      modifies this
      ensures ok == IsKnownMode(mode)
      ensures ok ==> settings == old(settings)["current_mode" := JStr(mode)] && written == Some(settings)
      ensures !ok ==> settings == old(settings) && written == old(written)
    {
      if mode == ModeWork || mode == ModeRestEyes || mode == ModeLongRest {
        settings := settings["current_mode" := JStr(mode)];
        SaveSettings();
        return true;
      }
      return false;
    }

    /** `reset_to_defaults`. */
    method ResetToDefaults()
      modifies this
      ensures settings == Defaults && written == Some(Defaults)
    {
      settings := Defaults;
      SaveSettings();
    }
  }
}
