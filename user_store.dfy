/**
  The user store (lib/store/userStore.ts): the signed-in user, kept in step with the
  user cache in `localStorage`.
 */
module UserStore {
  import opened Wrappers
  import opened Types
  import opened LocalStorage
  import opened UserCacheStorage

  /** The store's fields. */
  datatype UserState = UserState(username: string, userId: Option<string>, isAuthenticated: bool)

  /** Every store starts empty, to render the same on server and client. */
  const InitialUser: UserState := UserState("", None, false)

  /** The store holds user `u` (and is signed in). */
  predicate Holds(st: UserState, u: UserCache) {
    st.isAuthenticated && st.username == u.username && st.userId == u.userId
  }

  /** `setUser(user)`: unless the store already holds this user, save it to the cache and adopt it. */
  function UserSet(st: UserState, s: StorageState, u: UserCache): (r: (UserState, StorageState))
    ensures r.0 == UserState(u.username, u.userId, true)
    ensures Holds(st, u) ==> r.1 == s
    ensures !Holds(st, u) ==> r.1 == SavedUser(s, u)
  {
    if !Holds(st, u) then (UserState(u.username, u.userId, true), SavedUser(s, u))
    else (st, s)
  }

  /** `clearUser()`: clear the cache and go back to the initial state. */
  function UserCleared(s: StorageState): (r: (UserState, StorageState))
    ensures r.0 == InitialUser && r.1 == ClearedUser(s)
  {
    (InitialUser, ClearedUser(s))
  }

  /** `initializeFromCache()`: on the client, adopt a cached user unless the store already holds it. */
  function UserInitialized(st: UserState, s: StorageState): UserState {
    if !s.hasWindow then st
    else match GetUser(s)
      case None => st
      case Some(cached) => if !Holds(st, cached) then UserState(cached.username, cached.userId, true) else st
  }

  /** Calling `setUser` again with the same user changes neither the store nor the cache. */
  lemma SetUserIdempotent(st: UserState, s: StorageState, u: UserCache)
    ensures var once := UserSet(st, s, u); UserSet(once.0, once.1, u) == once
  {
  }

  /** Initialising from the cache changes nothing when the cache is empty, and otherwise signs in as the cached user. */
  lemma InitializeCases(st: UserState, s: StorageState)
    ensures !s.hasWindow || GetUser(s).None? ==> UserInitialized(st, s) == st
    ensures s.hasWindow && GetUser(s).Some? ==> Holds(UserInitialized(st, s), GetUser(s).value)
  {
  }

  /**
    A user set in one session is restored in the next: a fresh store initialised from
    the cache holds the same user (when the name and id are non-empty, storage works,
    and the store did not already hold the user, in which case nothing is written).
   */
  lemma SetUserSurvivesReload(st: UserState, s: StorageState, u: UserCache)
    requires s.hasWindow && !s.setFails && !s.getFails
    requires u.username != "" && TruthyString(u.userId) && !Holds(st, u)
    ensures var after := UserSet(st, s, u);
      UserInitialized(InitialUser, after.1) == after.0
  {
    SaveThenGet(s, u);
  }

  /** After `clearUser`, a reload finds no user: the store stays in its initial state. */
  lemma ClearUserSurvivesReload(s: StorageState)
    requires s.hasWindow && !s.removeFails && !s.getFails
    ensures UserInitialized(InitialUser, UserCleared(s).1) == InitialUser
  {
    ClearThenEmpty(s);
  }

  class Store {
    var username: string
    var userId: Option<string>
    var isAuthenticated: bool

    ghost function State(): UserState
      reads this
    {
      UserState(username, userId, isAuthenticated)
    }

    constructor ()
      ensures State() == InitialUser
    {
      username, userId, isAuthenticated := "", None, false;
    }

    method SetUser(storage: Storage, u: UserCache)
      modifies this, storage
      ensures (State(), storage.State()) == UserSet(old(State()), old(storage.State()), u)
    {
      if !isAuthenticated || username != u.username || userId != u.userId {
        SaveUserToCache(storage, u);
        username, userId, isAuthenticated := u.username, u.userId, true;
      }
    }

    method ClearUser(storage: Storage)
      modifies this, storage
      ensures (State(), storage.State()) == UserCleared(old(storage.State()))
    {
      ClearUserCache(storage);
      username, userId, isAuthenticated := "", None, false;
    }

    method InitializeFromCache(storage: Storage)
      modifies this
      ensures State() == UserInitialized(old(State()), storage.State())
    {
      if !storage.hasWindow {
        return;
      }
      var cached := GetUserFromCache(storage);
      if cached.Some? && (!isAuthenticated || username != cached.value.username || userId != cached.value.userId) {
        username, userId, isAuthenticated := cached.value.username, cached.value.userId, true;
      }
    }
  }
}
