/**
  The browser's `localStorage` as the two caches use it: a map from keys to strings.
  `hasWindow` is false during server-side rendering, where the caches do nothing;
  the three fault flags say whether `getItem`, `setItem` or `removeItem` throw
  (storage disabled, quota exceeded).
 */
module LocalStorage {
  import opened Wrappers

  datatype StorageState = StorageState(
    hasWindow: bool,
    items: map<string, string>,
    getFails: bool,
    setFails: bool,
    removeFails: bool)

  /** `localStorage.getItem(key)`: the stored string or `null`, or an exception. */
  function ItemRead(s: StorageState, key: string): (r: Result<Option<string>>)
    ensures s.getFails <==> r.Err?
    ensures r.Ok? && key in s.items ==> r.value == Some(s.items[key])
    ensures r.Ok? && key !in s.items ==> r.value.None?
  {
    if s.getFails then Err("getItem failed")
    else if key in s.items then Ok(Some(s.items[key]))
    else Ok(None)
  }

  /** `localStorage.setItem(key, value)`: the new storage, or an exception that changes nothing. */
  function ItemWritten(s: StorageState, key: string, value: string): (r: Result<StorageState>)
    ensures s.setFails <==> r.Err?
    ensures r.Ok? ==> r.value == s.(items := s.items[key := value])
  {
    if s.setFails then Err("setItem failed") else Ok(s.(items := s.items[key := value]))
  }

  /** `localStorage.removeItem(key)`. */
  function ItemRemoved(s: StorageState, key: string): (r: Result<StorageState>)
    ensures s.removeFails <==> r.Err?
    ensures r.Ok? ==> r.value == s.(items := s.items - {key})
  {
    if s.removeFails then Err("removeItem failed") else Ok(s.(items := s.items - {key}))
  }

  /** A written key reads back as written; other keys are untouched. */
  lemma WriteThenRead(s: StorageState, key: string, value: string, other: string)
    requires !s.setFails && !s.getFails
    ensures ItemRead(ItemWritten(s, key, value).value, key) == Ok(Some(value))
    ensures other != key ==> ItemRead(ItemWritten(s, key, value).value, other) == ItemRead(s, other)
  {
  }

  /** A removed key reads back as `null`; other keys are untouched. */
  lemma RemoveThenRead(s: StorageState, key: string, other: string)
    requires !s.removeFails && !s.getFails
    ensures ItemRead(ItemRemoved(s, key).value, key) == Ok(None)
    ensures other != key ==> ItemRead(ItemRemoved(s, key).value, other) == ItemRead(s, other)
  {
  }

  /** The storage object itself. */
  class Storage {
    var hasWindow: bool
    var items: map<string, string>
    var getFails: bool
    var setFails: bool
    var removeFails: bool

    ghost function State(): StorageState
      reads this
    {
      StorageState(hasWindow, items, getFails, setFails, removeFails)
    }

    constructor (initial: StorageState)
      ensures State() == initial
    {
      hasWindow, items := initial.hasWindow, initial.items;
      getFails, setFails, removeFails := initial.getFails, initial.setFails, initial.removeFails;
    }

    method GetItem(key: string) returns (r: Result<Option<string>>)
      ensures r == ItemRead(State(), key)
    {
      if getFails {
        r := Err("getItem failed");
      } else if key in items {
        r := Ok(Some(items[key]));
      } else {
        r := Ok(None);
      }
    }

    /** Returns false when `setItem` threw; the storage is then unchanged. */
    method SetItem(key: string, value: string) returns (ok: bool)
      modifies this
      ensures ok == ItemWritten(old(State()), key, value).Ok?
      ensures ok ==> State() == ItemWritten(old(State()), key, value).value
      ensures !ok ==> State() == old(State())
    {
      ok := !setFails;
      if ok {
        items := items[key := value];
      }
    }

    /** Returns false when `removeItem` threw; the storage is then unchanged. */
    method RemoveItem(key: string) returns (ok: bool)
      modifies this
      ensures ok == ItemRemoved(old(State()), key).Ok?
      ensures ok ==> State() == ItemRemoved(old(State()), key).value
      ensures !ok ==> State() == old(State())
    {
      ok := !removeFails;
      if ok {
        items := items - {key};
      }
    }
  }
}
