/**
  The user cache (lib/storage/userCache.ts): the username and the user id under two
  `localStorage` keys. Reads and writes catch storage errors, except `hasUserCache`,
  whose read error reaches the caller.
 */
module UserCacheStorage {
  import opened Wrappers
  import opened Types
  import opened LocalStorage

  const UserKey: string := "ai-trivia-user"
  const UserIdKey: string := "ai-trivia-user-id"

  /** The value `getItem` gives for `key`, or missing after an exception. */
  function Read(s: StorageState, key: string): Option<string> {
    match ItemRead(s, key)
    case Ok(v) => v
    case Err(_) => None
  }

  /** `getUserFromCache()`: `null` unless a non-empty username is stored; an empty or missing id reads as `undefined`. */
  function GetUser(s: StorageState): Option<UserCache> {
    if !s.hasWindow || s.getFails then None
    else
      var username := Read(s, UserKey);
      var userId := Read(s, UserIdKey);
      if !TruthyString(username) then None
      else Some(UserCache(username.value, if TruthyString(userId) then userId else None))
  }

  /** `saveUserToCache(user)`: the username always, the id only when it is truthy. */
  function SavedUser(s: StorageState, u: UserCache): StorageState {
    if !s.hasWindow then s
    else match ItemWritten(s, UserKey, u.username)
      case Err(_) => s
      case Ok(next) =>
        if !TruthyString(u.userId) then next
        else match ItemWritten(next, UserIdKey, u.userId.value)
          case Err(_) => next
          case Ok(last) => last
  }

  /** `clearUserCache()`: remove both keys. */
  function ClearedUser(s: StorageState): StorageState {
    if !s.hasWindow then s
    else match ItemRemoved(s, UserKey)
      case Err(_) => s
      case Ok(next) =>
        match ItemRemoved(next, UserIdKey)
        case Err(_) => next
        case Ok(last) => last
  }

  /** `hasUserCache()`: whether a non-empty username is stored; a read error propagates. */
  function HasUser(s: StorageState): Result<bool> {
    if !s.hasWindow then Ok(false)
    else match ItemRead(s, UserKey)
      case Err(e) => Err(e)
      case Ok(v) => Ok(TruthyString(v))
  }

  /** A read gives a user exactly when a non-empty username is stored, with the stored id only when it is non-empty. */
  lemma GetExactly(s: StorageState)
    requires s.hasWindow && !s.getFails
    ensures GetUser(s).Some? <==> UserKey in s.items && s.items[UserKey] != ""
    ensures GetUser(s).Some? ==> GetUser(s).value.username == s.items[UserKey]
    ensures GetUser(s).Some? ==>
      GetUser(s).value.userId == (if UserIdKey in s.items && s.items[UserIdKey] != "" then Some(s.items[UserIdKey]) else None)
  {
  }

  /** Saving writes the username and, only when it is truthy, the id; every other key keeps its value. */
  lemma SaveWrites(s: StorageState, u: UserCache)
    requires s.hasWindow && !s.setFails
    ensures TruthyString(u.userId) ==> SavedUser(s, u).items == s.items[UserKey := u.username][UserIdKey := u.userId.value]
    ensures !TruthyString(u.userId) ==> SavedUser(s, u).items == s.items[UserKey := u.username]
  {
  }

  /** A user with a non-empty name and id reads back exactly as saved. */
  lemma SaveThenGet(s: StorageState, u: UserCache)
    requires s.hasWindow && !s.setFails && !s.getFails
    requires u.username != "" && TruthyString(u.userId)
    ensures GetUser(SavedUser(s, u)) == Some(u)
  {
  }

  /** The id a read reports: the stored one when it is non-empty. */
  function GetUserIdRead(s: StorageState): Option<string> {
    var id := Read(s, UserIdKey);
    if TruthyString(id) then id else None
  }

  /** Saving a user without an id keeps the id stored for an earlier user. */
  lemma SaveWithoutIdKeepsOldId(s: StorageState, u: UserCache)
    requires s.hasWindow && !s.setFails && !s.getFails
    requires u.username != "" && !TruthyString(u.userId)
    ensures GetUser(SavedUser(s, u)) == Some(UserCache(u.username, GetUserIdRead(s)))
  {
  }

  /** After clearing, nothing is cached: `has` is false and `get` is `null`. */
  lemma ClearThenEmpty(s: StorageState)
    requires s.hasWindow && !s.removeFails && !s.getFails
    ensures HasUser(ClearedUser(s)) == Ok(false)
    ensures GetUser(ClearedUser(s)).None?
    ensures ClearedUser(s).items == s.items - {UserKey, UserIdKey}
  {
  }

  /** `has` agrees with `get` and looks only at the username key. */
  lemma HasIffUsernameStored(s: StorageState)
    requires s.hasWindow && !s.getFails
    ensures HasUser(s) == Ok(UserKey in s.items && s.items[UserKey] != "")
    ensures HasUser(s) == Ok(GetUser(s).Some?)
  {
  }

  /** Without a window nothing is read or written. */
  lemma NoWindowNoCache(s: StorageState, u: UserCache)
    requires !s.hasWindow
    ensures GetUser(s).None? && HasUser(s) == Ok(false)
    ensures SavedUser(s, u) == s && ClearedUser(s) == s
  {
  }

  method GetUserFromCache(storage: Storage) returns (r: Option<UserCache>)
    ensures r == GetUser(storage.State())
  {
    if !storage.hasWindow {
      return None;
    }
    var username := storage.GetItem(UserKey);
    var userId := storage.GetItem(UserIdKey);
    if username.Err? || userId.Err? {
      return None;
    }
    if !TruthyString(username.value) {
      return None;
    }
    r := Some(UserCache(username.value.value, if TruthyString(userId.value) then userId.value else None));
  }

  method SaveUserToCache(storage: Storage, u: UserCache)
    modifies storage
    ensures storage.State() == SavedUser(old(storage.State()), u)
  {
    if !storage.hasWindow {
      return;
    }
    var ok := storage.SetItem(UserKey, u.username);
    if ok && TruthyString(u.userId) {
      ok := storage.SetItem(UserIdKey, u.userId.value);
    }
  }

  method ClearUserCache(storage: Storage)
    modifies storage
    ensures storage.State() == ClearedUser(old(storage.State()))
  {
    if !storage.hasWindow {
      return;
    }
    var ok := storage.RemoveItem(UserKey);
    if ok {
      ok := storage.RemoveItem(UserIdKey);
    }
  }

  method HasUserCache(storage: Storage) returns (r: Result<bool>)
    ensures r == HasUser(storage.State())
  {
    if !storage.hasWindow {
      return Ok(false);
    }
    var username := storage.GetItem(UserKey);
    r := if username.Err? then Err(username.error) else Ok(TruthyString(username.value));
  }
}
