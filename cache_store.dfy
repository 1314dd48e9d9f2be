/** The host framework's key/value cache: a map from string keys to values
    that expire a given number of seconds after they are set. An entry is
    readable while `now` is strictly before its expiry. */
module CacheStore {
  import opened Text

  /** Values the plugin stores: the cooldown marker `True`, the
      no-permission marker `1`, and market prices. */
  datatype Value = Flag(b: bool) | Number(n: int)

  datatype Entry = Entry(value: Value, expiresAt: int)

  type Entries = map<string, Entry>

  /** Python truthiness of a cached value. */
  predicate Truthy(v: Value) {
    match v
    case Flag(b) => b
    case Number(n) => n != 0
  }

  /** `cache.get(key)`: the value when present and not yet expired. */
  function Get(entries: Entries, key: string, now: int): (r: Option<Value>)
    ensures r.Some? <==> key in entries && now < entries[key].expiresAt
    ensures r.Some? ==> r.value == entries[key].value
  {
    if key in entries && now < entries[key].expiresAt then Some(entries[key].value) else None
  }

  /** `bool(cache.get(key))`, the test every caller applies. */
  predicate IsSet(entries: Entries, key: string, now: int) {
    var r := Get(entries, key, now);
    r.Some? && Truthy(r.value)
  }

  /** `cache.set(key, value, timeout)`. */
  function Put(entries: Entries, key: string, v: Value, timeout: int, now: int): (r: Entries)
    ensures key in r && r[key] == Entry(v, now + timeout)
    ensures forall k :: k != key ==> (k in r <==> k in entries)
    ensures forall k :: k != key && k in entries ==> r[k] == entries[k]
  {
    entries[key := Entry(v, now + timeout)]
  }

  /** The shared cache object. */
  class Cache {
    var entries: Entries

    constructor ()
      ensures entries == map[]
    {
      entries := map[];
    }

    function Lookup(key: string, now: int): (r: Option<Value>)
      reads this
      ensures r == Get(entries, key, now)
    {
      Get(entries, key, now)
    }

    method Set(key: string, v: Value, timeout: int, now: int)
      modifies this
      ensures entries == Put(old(entries), key, v, timeout, now)
    {
      entries := entries[key := Entry(v, now + timeout)];
    }
  }
}
