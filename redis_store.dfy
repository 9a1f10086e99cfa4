/**
 * The Redis key-value store shared by every service. Each key holds a
 * payload and the expiry (in seconds) it was written with. The clock is not
 * modelled: an expired key is the same as a key that is not there.
 */
module RedisStore {
  import opened Wrappers
  import opened Serialization

  datatype Entry = Entry(value: Payload, expire: int)

  /** `await redis.get(key)`: the stored bytes, or None. */
  function Lookup(entries: map<string, Entry>, key: string): Option<Payload>
  {
    if key in entries then Some(entries[key].value) else None
  }

  class Redis {
    var entries: map<string, Entry>

    constructor ()
      ensures entries == map[]
    {
      entries := map[];
    }

    method Get(key: string) returns (data: Option<Payload>)
      ensures data == Lookup(entries, key)
    {
      data := if key in entries then Some(entries[key].value) else None;
    }

    /** `await redis.set(key, value, expire=expire)`: overwrites unconditionally. */
    method Set(key: string, value: Payload, expire: int)
      modifies this
      ensures entries == old(entries)[key := Entry(value, expire)]
    {
      entries := entries[key := Entry(value, expire)];
    }
  }
}
