/** The keyed TTL cache the service consults (`pkg/cache.Cache`, a Redis
    client): one payload and its TTL per key, failure oracles for each
    operation, and a log of the calls made to it. */
module Caching {
  import opened Wrappers

  /** A stored payload and the TTL it was written with, in nanoseconds. */
  datatype Entry = Entry(payload: string, ttl: int)

  /** `Nil` is Redis' answer for an absent or expired key; `Unavailable` is
      any infrastructure failure. */
  datatype CacheError = Nil | Unavailable(message: string)

  /** One call made on the cache interface. */
  datatype CacheCall =
    | GetCall(key: string)
    | SetExCall(key: string, value: string, ttl: int)
    | DelCall(key: string)

  /** Which operations currently fail, and with what error text. */
  datatype Faults = Faults(onGet: Option<string>, onSet: Option<string>, onDel: Option<string>)

  class Cache {
    var entries: map<string, Entry>
    var faults: Faults
    /** Every call made so far, oldest first. */
    var calls: seq<CacheCall>

    constructor (entries: map<string, Entry>, faults: Faults)
      ensures this.entries == entries && this.faults == faults && calls == []
    {
      this.entries := entries;
      this.faults := faults;
      calls := [];
    }

    /** The answer `Get(key)` gives in the current state. */
    function GetResponse(key: string): (r: Result<string, CacheError>)
      reads this`entries, this`faults
      ensures r.Ok? <==> faults.onGet.None? && key in entries
      ensures r.Ok? ==> r.value == entries[key].payload
    {
      if faults.onGet.Some? then Err(Unavailable(faults.onGet.value))
      else if key in entries then Ok(entries[key].payload)
      else Err(Nil)
    }

    method Get(key: string) returns (r: Result<string, CacheError>)
      modifies this`calls
      ensures r == GetResponse(key)
      ensures calls == old(calls) + [GetCall(key)]
    {
      calls := calls + [GetCall(key)];
      if faults.onGet.Some? {
        return Err(Unavailable(faults.onGet.value));
      }
      if key in entries {
        return Ok(entries[key].payload);
      }
      return Err(Nil);
    }

    method SetEx(key: string, value: string, ttl: int) returns (err: Option<CacheError>)
      modifies this`entries, this`calls
      ensures err.Some? <==> faults.onSet.Some?
      ensures entries == if faults.onSet.Some? then old(entries) else old(entries)[key := Entry(value, ttl)]
      ensures calls == old(calls) + [SetExCall(key, value, ttl)]
    {
      calls := calls + [SetExCall(key, value, ttl)];
      if faults.onSet.Some? {
        return Some(Unavailable(faults.onSet.value));
      }
      entries := entries[key := Entry(value, ttl)];
      return None;
    }

    method Del(key: string) returns (err: Option<CacheError>)
      modifies this`entries, this`calls
      ensures err.Some? <==> faults.onDel.Some?
      ensures entries == if faults.onDel.Some? then old(entries) else old(entries) - {key}
      ensures calls == old(calls) + [DelCall(key)]
    {
      calls := calls + [DelCall(key)];
      if faults.onDel.Some? {
        return Some(Unavailable(faults.onDel.value));
      }
      entries := entries - {key};
      return None;
    }
  }
}
