/**
  The run-once initialisation of both stores from the caches
  (lib/hooks/useStoreInitialization.ts), guarded by a module-level flag.
 */
module StoreInitialization {
  import opened LocalStorage
  import UserStore
  import UserSettingsStore
  import SettingsCache

  /** The flag and the two stores' states. */
  datatype Stores = Stores(initialized: bool, user: UserStore.UserState, settings: UserSettingsStore.StoreSettings)

  /** `initializeStores()`: the first call on the client sets the flag and initialises both stores from the caches. */
  function Initialized(st: Stores, s: StorageState): (r: Stores)
    ensures st.initialized || !s.hasWindow ==> r == st
    ensures !st.initialized && s.hasWindow ==>
      r == Stores(true, UserStore.UserInitialized(st.user, s), UserSettingsStore.SettingsInitialized(st.settings, s))
  {
    if st.initialized || !s.hasWindow then st
    else Stores(true, UserStore.UserInitialized(st.user, s), UserSettingsStore.SettingsInitialized(st.settings, s))
  }

  /** `resetStoreInitialization()`. */
  function Reset(st: Stores): Stores {
    st.(initialized := false)
  }

  /** Once initialised, further calls do nothing, whatever the caches hold by then. */
  lemma InitializeOnce(st: Stores, s: StorageState, later: StorageState)
    ensures Initialized(Initialized(st, s), later) == Initialized(st, s) || !s.hasWindow
  {
  }

  /** After a reset the next call on the client initialises again, and the stores then hold what the settings cache reads. */
  lemma ResetReinitializes(st: Stores, s: StorageState)
    requires s.hasWindow
    ensures Initialized(Reset(st), s).initialized
    ensures Initialized(Reset(st), s).settings == UserSettingsStore.Holding(SettingsCache.GetSettings(s))
    ensures Initialized(Reset(st), s).user == UserStore.UserInitialized(st.user, s)
  {
  }

  /** Without a window the flag is never set and the stores never change. */
  lemma NoWindowNeverInitializes(st: Stores, s: StorageState)
    requires !s.hasWindow
    ensures Initialized(st, s) == st && Initialized(Reset(st), s) == Reset(st)
  {
  }

  /** The module-level flag, with the two stores it initialises. */
  class Initializer {
    var initialized: bool

    constructor ()
      ensures !initialized
    {
      initialized := false;
    }

    method InitializeStores(users: UserStore.Store, settings: UserSettingsStore.Store, storage: Storage)
      modifies this, users, settings
      ensures Stores(initialized, users.State(), settings.State())
           == Initialized(old(Stores(initialized, users.State(), settings.State())), storage.State())
    {
      if initialized || !storage.hasWindow {
        return;
      }
      initialized := true;
      users.InitializeFromCache(storage);
      settings.InitializeFromCache(storage);
    }

    /** `useStoreInitialization()`: the same guard, checked before calling `initializeStores`. */
    method UseStoreInitialization(users: UserStore.Store, settings: UserSettingsStore.Store, storage: Storage)
      modifies this, users, settings
      ensures Stores(initialized, users.State(), settings.State())
           == Initialized(old(Stores(initialized, users.State(), settings.State())), storage.State())
    {
      if storage.hasWindow && !initialized {
        InitializeStores(users, settings, storage);
      }
    }

    method ResetStoreInitialization()
      modifies this
      ensures !initialized
    {
      initialized := false;
    }
  }
}
