/**
  The settings store (lib/store/userSettingsStore.ts). Every action writes the
  settings cache first and then the store. A field set to `undefined` through
  `updateSettings` becomes `undefined` in the store, so store fields are optional.
 */
module UserSettingsStore {
  import opened Wrappers
  import opened Types
  import opened LocalStorage
  import opened SettingsCache

  /** The store's three fields; a missing value is `undefined`. */
  datatype StoreSettings = StoreSettings(difficulty: Option<string>, ttsEnabled: Option<bool>, ttsVoice: Option<string>)

  const InitialSettings: StoreSettings := StoreSettings(Some("easy"), Some(false), Some("aura-asteria-en"))

  /** The store holds exactly the given settings. */
  function Holding(v: Settings): StoreSettings {
    StoreSettings(Some(v.difficulty), Some(v.ttsEnabled), Some(v.ttsVoice))
  }

  /** The store starts with the cache's defaults. */
  lemma DefaultsAgree()
    ensures InitialSettings == Holding(DefaultSettings)
  {
  }

  function SetField<T>(current: Option<T>, f: Field<T>): Option<T> {
    match f
    case Absent => current
    case Undefined => None
    case Present(v) => Some(v)
  }

  /** `set(patch)`: given fields are replaced, `undefined` ones become `undefined`, others stay. */
  function Merged(st: StoreSettings, p: Patch): StoreSettings {
    StoreSettings(SetField(st.difficulty, p.difficulty), SetField(st.ttsEnabled, p.ttsEnabled), SetField(st.ttsVoice, p.ttsVoice))
  }

  /** `updateSettings(patch)` (and the single-field setters, with a one-field patch): the cache, then the store. */
  function SettingsUpdated(st: StoreSettings, s: StorageState, p: Patch): (r: (StoreSettings, StorageState))
    ensures r.1 == SavedSettings(s, p)
    ensures p.difficulty.Absent? ==> r.0.difficulty == st.difficulty
    ensures p.ttsEnabled.Absent? ==> r.0.ttsEnabled == st.ttsEnabled
    ensures p.ttsVoice.Absent? ==> r.0.ttsVoice == st.ttsVoice
    ensures p.difficulty.Present? ==> r.0.difficulty == Some(p.difficulty.value)
    ensures p.ttsEnabled.Present? ==> r.0.ttsEnabled == Some(p.ttsEnabled.value)
    ensures p.ttsVoice.Present? ==> r.0.ttsVoice == Some(p.ttsVoice.value)
  {
    (Merged(st, p), SavedSettings(s, p))
  }

  /** `initializeFromCache()`: on the client, take the cached settings unless the store already has them. */
  function SettingsInitialized(st: StoreSettings, s: StorageState): StoreSettings {
    if !s.hasWindow then st
    else
      var cached := GetSettings(s);
      if st != Holding(cached) then Holding(cached) else st
  }

  /** A patch without `undefined` fields. */
  predicate Defined(p: Patch) {
    !p.difficulty.Undefined? && !p.ttsEnabled.Undefined? && !p.ttsVoice.Undefined?
  }

  /**
    When storage works, the store and the cache stay in step: if the store held what
    the cache reads, it still does after any update without `undefined` fields.
   */
  lemma UpdateKeepsInStep(st: StoreSettings, s: StorageState, p: Patch)
    requires s.hasWindow && !s.getFails && !s.setFails && Defined(p)
    requires st == Holding(GetSettings(s))
    ensures var r := SettingsUpdated(st, s, p); r.0 == Holding(GetSettings(r.1))
  {
    SaveThenGet(s, p);
  }

  /** An `undefined` field breaks that: the store holds `undefined` while the cache reads the default. */
  lemma UndefinedLeavesStoreBehind(st: StoreSettings, s: StorageState)
    requires s.hasWindow && !s.getFails && !s.setFails
    ensures var r := SettingsUpdated(st, s, Patch(Absent, Undefined, Absent));
      r.0.ttsEnabled.None? && GetSettings(r.1).ttsEnabled == DefaultSettings.ttsEnabled
  {
    SaveThenGet(s, Patch(Absent, Undefined, Absent));
  }

  /** After initialising on the client, the store holds exactly what the cache reads. */
  lemma InitializeAdoptsCache(st: StoreSettings, s: StorageState)
    requires s.hasWindow
    ensures SettingsInitialized(st, s) == Holding(GetSettings(s))
  {
  }

  class Store {
    var difficulty: Option<string>
    var ttsEnabled: Option<bool>
    var ttsVoice: Option<string>

    ghost function State(): StoreSettings
      reads this
    {
      StoreSettings(difficulty, ttsEnabled, ttsVoice)
    }

    constructor ()
      ensures State() == InitialSettings
    {
      difficulty, ttsEnabled, ttsVoice := Some("easy"), Some(false), Some("aura-asteria-en");
    }

    method SetDifficulty(storage: Storage, d: string)
      modifies this, storage
      ensures (State(), storage.State()) == SettingsUpdated(old(State()), old(storage.State()), Patch(Present(d), Absent, Absent))
    {
      SaveSettingsToCache(storage, Patch(Present(d), Absent, Absent));
      difficulty := Some(d);
    }

    method SetTtsEnabled(storage: Storage, enabled: bool)
      modifies this, storage
      ensures (State(), storage.State()) == SettingsUpdated(old(State()), old(storage.State()), Patch(Absent, Present(enabled), Absent))
    {
      SaveSettingsToCache(storage, Patch(Absent, Present(enabled), Absent));
      ttsEnabled := Some(enabled);
    }

    method SetTtsVoice(storage: Storage, voice: string)
      modifies this, storage
      ensures (State(), storage.State()) == SettingsUpdated(old(State()), old(storage.State()), Patch(Absent, Absent, Present(voice)))
    {
      SaveSettingsToCache(storage, Patch(Absent, Absent, Present(voice)));
      ttsVoice := Some(voice);
    }

    method UpdateSettings(storage: Storage, p: Patch)
      modifies this, storage
      ensures (State(), storage.State()) == SettingsUpdated(old(State()), old(storage.State()), p)
    {
      SaveSettingsToCache(storage, p);
      difficulty, ttsEnabled, ttsVoice := SetField(difficulty, p.difficulty), SetField(ttsEnabled, p.ttsEnabled), SetField(ttsVoice, p.ttsVoice);
    }

    method InitializeFromCache(storage: Storage)
      modifies this
      ensures State() == SettingsInitialized(old(State()), storage.State())
    {
      if !storage.hasWindow {
        return;
      }
      var cached := GetSettingsFromCache(storage);
      if difficulty != Some(cached.difficulty) || ttsEnabled != Some(cached.ttsEnabled) || ttsVoice != Some(cached.ttsVoice) {
        difficulty, ttsEnabled, ttsVoice := Some(cached.difficulty), Some(cached.ttsEnabled), Some(cached.ttsVoice);
      }
    }
  }
}
