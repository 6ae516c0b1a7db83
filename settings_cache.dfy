/**
  The settings cache (lib/storage/settingsCache.ts): the three user settings kept in
  `localStorage` as JSON under one key, read back overlaid on the defaults. Every
  storage error is caught: reads then give the defaults and writes do nothing.
 */
module SettingsCache {
  import opened Wrappers
  import opened Types
  import opened JsonText
  import opened LocalStorage

  const SettingsKey: string := "ai-trivia-settings"
  const DefaultSettings: Settings := Settings("easy", false, "aura-asteria-en")

  /** One field of a partial update: left out, explicitly `undefined`, or given. */
  datatype Field<T> = Absent | Undefined | Present(value: T)

  /** A `Partial<UserSettingsCache>`. */
  datatype Patch = Patch(difficulty: Field<string>, ttsEnabled: Field<bool>, ttsVoice: Field<string>)

  const EmptyPatch: Patch := Patch(Absent, Absent, Absent)

  /**
    `{...base, ...parsed}` for parsed members, applied in order so a repeated key
    takes its last value. Keys other than the three settings do not belong to the
    settings record and are skipped; a settings key with a value of the wrong type
    makes the result missing.
   */
  function Overlaid(base: Settings, ms: seq<Member>): Option<Settings>
    decreases |ms|
  {
    if ms == [] then Some(base)
    else
      var m := ms[0];
      var next :=
        if m.key == "difficulty" then (if m.value.JStr? then Some(base.(difficulty := m.value.s)) else None)
        else if m.key == "tts_enabled" then (if m.value.JBool? then Some(base.(ttsEnabled := m.value.b)) else None)
        else if m.key == "tts_voice" then (if m.value.JStr? then Some(base.(ttsVoice := m.value.s)) else None)
        else Some(base);
      match next
      case None => None
      case Some(b) => Overlaid(b, ms[1..])
  }

  /** `getSettingsFromCache()`. */
  function GetSettings(s: StorageState): Settings {
    if !s.hasWindow then DefaultSettings
    else match ItemRead(s, SettingsKey)
      case Err(_) => DefaultSettings
      case Ok(None) => DefaultSettings
      case Ok(Some(text)) =>
        if text == "" then DefaultSettings
        else match Parse(text)
          case None => DefaultSettings
          case Some(ms) => match Overlaid(DefaultSettings, ms)
            case None => DefaultSettings
            case Some(v) => v
  }

  function StrMember(key: string, f: Field<string>, current: string): seq<Member> {
    match f
    case Absent => [Member(key, JStr(current))]
    case Undefined => []
    case Present(v) => [Member(key, JStr(v))]
  }

  function BoolMember(key: string, f: Field<bool>, current: bool): seq<Member> {
    match f
    case Absent => [Member(key, JBool(current))]
    case Undefined => []
    case Present(v) => [Member(key, JBool(v))]
  }

  /** The members of `{...current, ...patch}` that `JSON.stringify` writes: an `undefined` field is dropped. */
  function UpdatedMembers(current: Settings, p: Patch): seq<Member> {
    StrMember("difficulty", p.difficulty, current.difficulty)
    + BoolMember("tts_enabled", p.ttsEnabled, current.ttsEnabled)
    + StrMember("tts_voice", p.ttsVoice, current.ttsVoice)
  }

  /** `saveSettingsToCache(patch)`. */
  function SavedSettings(s: StorageState, p: Patch): StorageState {
    if !s.hasWindow then s
    else
      var text := Stringify(UpdatedMembers(GetSettings(s), p));
      match ItemWritten(s, SettingsKey, text)
      case Err(_) => s
      case Ok(next) => next
  }

  /** `clearSettingsCache()`. */
  function ClearedSettings(s: StorageState): StorageState {
    if !s.hasWindow then s
    else match ItemRemoved(s, SettingsKey)
      case Err(_) => s
      case Ok(next) => next
  }

  function ApplyStr(f: Field<string>, current: string, default: string): string {
    match f
    case Absent => current
    case Undefined => default
    case Present(v) => v
  }

  function ApplyBool(f: Field<bool>, current: bool, default: bool): bool {
    match f
    case Absent => current
    case Undefined => default
    case Present(v) => v
  }

  /**
    The settings a patch leaves: given fields take their value, left-out fields keep
    the current one, and an `undefined` field falls back to its default (it is
    dropped from the stored JSON).
   */
  function Applied(current: Settings, p: Patch): Settings {
    Settings(ApplyStr(p.difficulty, current.difficulty, DefaultSettings.difficulty),
             ApplyBool(p.ttsEnabled, current.ttsEnabled, DefaultSettings.ttsEnabled),
             ApplyStr(p.ttsVoice, current.ttsVoice, DefaultSettings.ttsVoice))
  }

  /** With no window, no stored entry, an empty entry or a failing read, the defaults are returned. */
  lemma NoEntryGivesDefaults(s: StorageState)
    requires !s.hasWindow || s.getFails || SettingsKey !in s.items || s.items[SettingsKey] == ""
    ensures GetSettings(s) == DefaultSettings
  {
  }

  /** Text that is not JSON, or the JSON text `null`, gives the defaults. */
  lemma UnparseableGivesDefaults(s: StorageState)
    requires SettingsKey in s.items
    requires Parse(s.items[SettingsKey]).None? || s.items[SettingsKey] == "null"
    ensures GetSettings(s) == DefaultSettings
  {
  }

  /** A stored object is overlaid on the defaults member by member. */
  lemma StoredObjectOverlaid(s: StorageState, ms: seq<Member>)
    requires s.hasWindow && !s.getFails
    requires SettingsKey in s.items && s.items[SettingsKey] == Stringify(ms)
    requires Overlaid(DefaultSettings, ms).Some?
    ensures GetSettings(s) == Overlaid(DefaultSettings, ms).value
  {
    ParseStringify(ms);
  }

  lemma {:induction false} OverlaidConcat(base: Settings, a: seq<Member>, b: seq<Member>)
    requires Overlaid(base, a).Some?
    ensures Overlaid(base, a + b) == Overlaid(Overlaid(base, a).value, b)
    decreases |a|
  {
    if a == [] {
      assert a + b == b;
    } else {
      assert (a + b)[0] == a[0] && (a + b)[1..] == a[1..] + b;
      var m := a[0];
      var next :=
        if m.key == "difficulty" then base.(difficulty := m.value.s)
        else if m.key == "tts_enabled" then base.(ttsEnabled := m.value.b)
        else if m.key == "tts_voice" then base.(ttsVoice := m.value.s)
        else base;
      assert Overlaid(base, a) == Overlaid(next, a[1..]);
      OverlaidConcat(next, a[1..], b);
    }
  }

  lemma OverlaidUpdated(current: Settings, p: Patch)
    ensures Overlaid(DefaultSettings, UpdatedMembers(current, p)) == Some(Applied(current, p))
  {
    var d := StrMember("difficulty", p.difficulty, current.difficulty);
    var t := BoolMember("tts_enabled", p.ttsEnabled, current.ttsEnabled);
    var v := StrMember("tts_voice", p.ttsVoice, current.ttsVoice);
    OverlaidConcat(DefaultSettings, d, t);
    var afterD := Overlaid(DefaultSettings, d).value;
    OverlaidConcat(DefaultSettings, d + t, v);
    assert UpdatedMembers(current, p) == d + t + v;
  }

  /**
    Saving a patch and reading back gives the patch applied to the settings read
    before: given fields win, left-out fields are preserved, `undefined` ones reset.
   */
  lemma SaveThenGet(s: StorageState, p: Patch)
    requires s.hasWindow && !s.getFails && !s.setFails
    ensures GetSettings(SavedSettings(s, p)) == Applied(GetSettings(s), p)
  {
    var ms := UpdatedMembers(GetSettings(s), p);
    OverlaidUpdated(GetSettings(s), p);
    StoredObjectOverlaid(SavedSettings(s, p), ms);
  }

  /** Saving the empty patch changes no setting that reads back. */
  lemma SaveEmptyKeeps(s: StorageState)
    requires s.hasWindow && !s.getFails && !s.setFails
    ensures GetSettings(SavedSettings(s, EmptyPatch)) == GetSettings(s)
  {
    SaveThenGet(s, EmptyPatch);
  }

  /** A setting saved as `undefined` reads back as its default, not as its earlier value. */
  lemma UndefinedResetsToDefault(s: StorageState)
    requires s.hasWindow && !s.getFails && !s.setFails
    ensures GetSettings(SavedSettings(s, Patch(Present("hard"), Undefined, Absent)))
         == Settings("hard", false, GetSettings(s).ttsVoice)
  {
    SaveThenGet(s, Patch(Present("hard"), Undefined, Absent));
  }

  /** Clearing removes the entry, so the next read gives the defaults. */
  lemma ClearThenGet(s: StorageState)
    requires !s.removeFails
    ensures GetSettings(ClearedSettings(s)) == DefaultSettings
  {
  }

  /** Save never fails: a storage error or a missing window leaves the storage as it was, and other keys are never touched. */
  lemma SaveIsSafe(s: StorageState, p: Patch)
    ensures s.setFails || !s.hasWindow ==> SavedSettings(s, p) == s
    ensures SavedSettings(s, p).items - {SettingsKey} == s.items - {SettingsKey}
    ensures SavedSettings(s, p).hasWindow == s.hasWindow
  {
    if s.hasWindow && !s.setFails {
      var text := Stringify(UpdatedMembers(GetSettings(s), p));
      assert SavedSettings(s, p) == s.(items := s.items[SettingsKey := text]);
      assert s.items[SettingsKey := text] - {SettingsKey} == s.items - {SettingsKey};
    }
  }

  /** Clear never fails either, and touches no other key. */
  lemma ClearIsSafe(s: StorageState)
    ensures s.removeFails || !s.hasWindow ==> ClearedSettings(s) == s
    ensures ClearedSettings(s).items - {SettingsKey} == s.items - {SettingsKey}
    ensures ClearedSettings(s).hasWindow == s.hasWindow
  {
  }

  method GetSettingsFromCache(storage: Storage) returns (r: Settings)
    ensures r == GetSettings(storage.State())
  {
    if !storage.hasWindow {
      return DefaultSettings;
    }
    var cached := storage.GetItem(SettingsKey);
    if cached.Err? || cached.value.None? || cached.value.value == "" {
      return DefaultSettings;
    }
    var parsed := Parse(cached.value.value);
    if parsed.None? {
      return DefaultSettings;
    }
    var overlaid := Overlaid(DefaultSettings, parsed.value);
    r := if overlaid.Some? then overlaid.value else DefaultSettings;
  }

  method SaveSettingsToCache(storage: Storage, p: Patch)
    modifies storage
    ensures storage.State() == SavedSettings(old(storage.State()), p)
  {
    if !storage.hasWindow {
      return;
    }
    var current := GetSettingsFromCache(storage);
    var ok := storage.SetItem(SettingsKey, Stringify(UpdatedMembers(current, p)));
  }

  method ClearSettingsCache(storage: Storage)
    modifies storage
    ensures storage.State() == ClearedSettings(old(storage.State()))
  {
    if !storage.hasWindow {
      return;
    }
    var ok := storage.RemoveItem(SettingsKey);
  }
}
