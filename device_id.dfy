/**
 * The device identifier (src/lib/utils/deviceId.ts): read from the browser's
 * key-value storage, created and stored on first use.
 */
module DeviceId {
  import opened Wrappers

  const DeviceIdKey: string := "past-palette-device-id"

  /** The browser's `localStorage`: string keys to string values. */
  class LocalStorage {
    var items: map<string, string>

    constructor (items: map<string, string>)
      ensures this.items == items
    {
      this.items := items;
    }

    /** `getItem(key)`: the stored value, or null. */
    function GetItem(key: string): (r: Option<string>)
      reads this
      ensures r.Some? <==> key in items
      ensures r.Some? ==> r.value == items[key]
    {
      if key in items then Some(items[key]) else None
    }

    /** `setItem(key, value)`: that key now holds that value; every other key is as it was. */
    method SetItem(key: string, value: string)
      modifies this
      ensures items == old(items)[key := value]
    {
      items := items[key := value];
    }
  }

  /** The id a call settles on: the stored one when it is a non-empty string, else the fresh one. */
  function Resolve(stored: Option<string>, freshId: string): (id: string)
    ensures stored.Some? && stored.value != "" ==> id == stored.value
    ensures !(stored.Some? && stored.value != "") ==> id == freshId
  {
    if stored.Some? && stored.value != "" then stored.value else freshId
  }

  /**
   * `getDeviceId()`, with `crypto.randomUUID()` passed in as `freshId`. A
   * stored non-empty id is returned and nothing is written; otherwise the
   * fresh id is stored under the key and returned.
   */
  method GetDeviceId(storage: LocalStorage, freshId: string) returns (id: string)
    requires freshId != ""
    modifies storage
    ensures id == Resolve(if DeviceIdKey in old(storage.items) then Some(old(storage.items)[DeviceIdKey]) else None, freshId)
    ensures DeviceIdKey in old(storage.items) && old(storage.items)[DeviceIdKey] != "" ==> storage.items == old(storage.items)
    ensures storage.items == old(storage.items)[DeviceIdKey := id]
    ensures id != ""
  {
    var stored := storage.GetItem(DeviceIdKey);
    if !(stored.Some? && stored.value != "") {
      id := freshId;
      storage.SetItem(DeviceIdKey, id);
    } else {
      id := stored.value;
    }
  }

  /** Storage after a call: the key holds a non-empty id, and a later call settles on that same id. */
  lemma ResolveIsStable(items: map<string, string>, fresh1: string, fresh2: string)
    requires fresh1 != ""
    ensures var id := Resolve(if DeviceIdKey in items then Some(items[DeviceIdKey]) else None, fresh1);
      var after := items[DeviceIdKey := id];
      && id != ""
      && Resolve(Some(after[DeviceIdKey]), fresh2) == id
  {
  }

  /** Two calls in a row return the same id, and the second one writes nothing. */
  method TwoCalls(storage: LocalStorage, fresh1: string, fresh2: string) returns (first: string, second: string)
    requires fresh1 != "" && fresh2 != ""
    modifies storage
    ensures first == second
    ensures storage.items == old(storage.items)[DeviceIdKey := first]
  {
    first := GetDeviceId(storage, fresh1);
    ghost var between := storage.items;
    second := GetDeviceId(storage, fresh2);
    assert storage.items == between;
  }
}
