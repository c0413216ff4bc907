/** The cache-aside service for `Example` records (internal/service/v1):
    the cache key schema, the cache TTL, the service value holding the store
    and cache handles, and its three operations. */
module ServiceV1 {
  import opened Wrappers
  import opened Entities
  import opened Codec
  import opened Database
  import opened Caching
  import Constants

  // ----- TTL and key schema (init.go) -----

  /** `time.Hour`; a `time.Duration` counts nanoseconds. */
  const Hour: int := 3_600_000_000_000

  /** `exampleCacheDuration`: the TTL of every entry the service writes. */
  const ExampleCacheDuration: int := Hour * 24

  lemma ExampleCacheDurationIsOneDay()
    ensures ExampleCacheDuration == 24 * 60 * 60 * 1_000_000_000
    ensures 0 < ExampleCacheDuration < 0x8000_0000_0000_0000
  {
  }

  /** The key of one record. The code says `channel`, not `example`. */
  function GenerateExampleCacheKeyWithId(id: string): (key: string)
    ensures Constants.HasPrefix(key, "go-svc-template:channel:id:")
    ensures |key| == 27 + |id|
  {
    "go-svc-template:channel:id:" + id
  }

  /** The key of the whole collection. */
  function GenerateExamplesCacheKey(): (key: string)
    ensures Constants.HasPrefix(key, "go-svc-template:") && |key| == 24
  {
    "go-svc-template:examples"
  }

  /** A singular key is the fixed 27-character stem followed by the id, so
      the id can be read back from the key. */
  lemma ExampleKeyParts(id: string)
    ensures var key := GenerateExampleCacheKeyWithId(id);
            |key| == 27 + |id| && key[..27] == "go-svc-template:channel:id:" && key[27..] == id
  {
  }

  /** Distinct ids never share a cache entry. */
  lemma ExampleKeyInjective(a: string, b: string)
    requires GenerateExampleCacheKeyWithId(a) == GenerateExampleCacheKeyWithId(b)
    ensures a == b
  {
    ExampleKeyParts(a);
    ExampleKeyParts(b);
  }

  /** Both keys live in the `go-svc-template:` namespace and part at the next
      character, so no record key is ever the collection key. */
  lemma KeysDisjoint(id: string)
    ensures Constants.HasPrefix(GenerateExampleCacheKeyWithId(id), "go-svc-template:")
    ensures Constants.HasPrefix(GenerateExamplesCacheKey(), "go-svc-template:")
    ensures GenerateExampleCacheKeyWithId(id)[16] == 'c' != GenerateExamplesCacheKey()[16] == 'e'
    ensures GenerateExampleCacheKeyWithId(id) != GenerateExamplesCacheKey()
  {
    var key := GenerateExampleCacheKeyWithId(id);
    assert key[..16] == "go-svc-template:";
    assert key[16] == 'c';
  }

  // ----- reading a cache answer -----

  /** The fast path: the cache answered and the payload decodes. */
  function CachedExample(answer: Result<string, CacheError>): (r: Option<Example>)
    ensures answer.Err? ==> r.None?
    ensures answer.Ok? ==> r == Unmarshal(answer.value)
  {
    match answer
    case Ok(payload) => Unmarshal(payload)
    case Err(_) => None
  }

  /** The same for the collection. */
  function CachedExamples(answer: Result<string, CacheError>): (r: Option<seq<Example>>)
    ensures answer.Err? ==> r.None?
    ensures answer.Ok? ==> r == UnmarshalList(answer.value)
  {
    match answer
    case Ok(payload) => UnmarshalList(payload)
    case Err(_) => None
  }

  /** A record Go cannot encode, with a timestamp outside the years 0000 to
      9999, is never a fast-path hit either: whatever the cache holds, the read
      falls through to the store. */
  lemma UnmarshalableIsNoHit(e: Example, es: seq<Example>, payload: string)
    ensures Marshal(e).None? ==> CachedExample(Ok(payload)) != Some(e)
    ensures MarshalList(es).None? ==> CachedExamples(Ok(payload)) != Some(es)
  {
  }

  /** A payload the service wrote for a record is a fast-path hit for that
      record. */
  lemma PopulatedExampleHits(e: Example)
    requires Marshal(e).Some?
    ensures CachedExample(Ok(Marshal(e).value)) == Some(e)
  {
    UnmarshalMarshal(e);
  }

  /** A payload the service wrote for a collection is a fast-path hit for the
      same sequence, in the same order. */
  lemma PopulatedExamplesHit(es: seq<Example>)
    requires MarshalList(es).Some?
    ensures CachedExamples(Ok(MarshalList(es).value)) == Some(es)
  {
    UnmarshalMarshalList(es);
  }

  /** A cache failure, a miss, or the undecodable payload of the service
      tests is never a hit. */
  lemma NonHits(message: string)
    ensures CachedExample(Err(Nil)) == None && CachedExample(Err(Unavailable(message))) == None
    ensures CachedExample(Ok("abczd{>")) == None
    ensures CachedExamples(Err(Nil)) == None && CachedExamples(Err(Unavailable(message))) == None
    ensures CachedExamples(Ok("abczd{>")) == None
  {
    GarbageIsUndecodable();
  }

  /** The `SetEx` call a successful store read leads to, if marshalling works. */
  function PopulateCalls(key: string, payload: Option<string>): seq<CacheCall> {
    if payload.Some? then [SetExCall(key, payload.value, ExampleCacheDuration)] else []
  }

  /** The cache contents after that `SetEx`, if it is made and succeeds. */
  function Populated(entries: map<string, Entry>, faults: Faults, key: string, payload: Option<string>): map<string, Entry> {
    if payload.Some? && faults.onSet.None? then entries[key := Entry(payload.value, ExampleCacheDuration)] else entries
  }

  // ----- the service (init.go, example.go) -----

  class Service {
    const store: Store
    const cache: Cache

    constructor (store: Store, cache: Cache)
      ensures this.store == store && this.cache == cache
    {
      this.store := store;
      this.cache := cache;
    }

    /** The record whose cached payload `GetExampleByID(id)` would return. */
    function ExampleHit(id: string): Option<Example>
      reads this, cache`entries, cache`faults
    {
      CachedExample(cache.GetResponse(GenerateExampleCacheKeyWithId(id)))
    }

    /** The sequence whose cached payload `GetExamples` would return. */
    function ExamplesHit(): Option<seq<Example>>
      reads this, cache`entries, cache`faults
    {
      CachedExamples(cache.GetResponse(GenerateExamplesCacheKey()))
    }

    /** Creates through the store, then invalidates the collection key. */
    method CreateExample(description: string, token: string, now: int) returns (r: Result<Example, Error>)
      requires Constants.IsUlidText(token)
      modifies store, cache`entries, cache`calls
      ensures r == old(store.CreateResponse(description, token, now))
      ensures store.calls == old(store.calls) + [CreateExampleCall(description)]
      ensures store.rows == (if r.Ok? then old(store.rows) + [r.value] else old(store.rows))
      ensures store.fault == old(store.fault)
      // a failed create leaves the cache alone
      ensures r.Err? ==> cache.entries == old(cache.entries) && cache.calls == old(cache.calls)
      // a successful one makes exactly one delete, of the collection key
      ensures r.Ok? ==> cache.calls == old(cache.calls) + [DelCall(GenerateExamplesCacheKey())]
      ensures r.Ok? ==> cache.entries == if cache.faults.onDel.None? then old(cache.entries) - {GenerateExamplesCacheKey()}
                                         else old(cache.entries)
      ensures r.Ok? && cache.faults.onDel.None? ==> ExamplesHit().None?
    {
      var example := store.CreateExample(description, token, now);
      if example.Err? {
        return example;
      }
      var ignored := cache.Del(GenerateExamplesCacheKey());
      return example;
    }

    /** Read-through of one record under its singular key. */
    method GetExampleByID(id: string) returns (r: Result<Example, Error>)
      modifies store`calls, cache`entries, cache`calls
      // a hit that decodes is returned without a store call or a cache write
      ensures old(ExampleHit(id)).Some? ==>
                && r == Ok(old(ExampleHit(id)).value)
                && store.calls == old(store.calls)
                && cache.entries == old(cache.entries)
                && cache.calls == old(cache.calls) + [GetCall(GenerateExampleCacheKeyWithId(id))]
      // otherwise the store's answer, error or record, is returned as it is
      ensures old(ExampleHit(id)).None? ==>
                && r == old(store.ByIdResponse(id))
                && store.calls == old(store.calls) + [GetExampleByIdCall(id)]
      ensures old(ExampleHit(id)).None? && r.Err? ==>
                && cache.entries == old(cache.entries)
                && cache.calls == old(cache.calls) + [GetCall(GenerateExampleCacheKeyWithId(id))]
      ensures old(ExampleHit(id)).None? && r.Ok? ==>
                var key := GenerateExampleCacheKeyWithId(id);
                && cache.calls == old(cache.calls) + [GetCall(key)] + PopulateCalls(key, Marshal(r.value))
                && cache.entries == Populated(old(cache.entries), cache.faults, key, Marshal(r.value))
      // after a populate, the next call for the same id is a hit on this record
      ensures old(ExampleHit(id)).None? && r.Ok? && Marshal(r.value).Some? && cache.faults.onSet.None? ==>
                cache.faults.onGet.None? ==> ExampleHit(id) == Some(r.value)
    {
      var key := GenerateExampleCacheKeyWithId(id);
      var cached := cache.Get(key);
      if cached.Ok? {
        var example := Unmarshal(cached.value);
        if example.Some? {
          return Ok(example.value);
        }
      }
      var example := store.GetExampleByID(id);
      if example.Err? {
        return example;
      }
      var bytes := Marshal(example.value);
      if bytes.Some? {
        var ignored := cache.SetEx(key, bytes.value, ExampleCacheDuration);
        PopulatedExampleHits(example.value);
      }
      return example;
    }

    /** Read-through of the whole collection under the collection key. */
    method GetExamples() returns (r: Result<seq<Example>, Error>)
      modifies store`calls, cache`entries, cache`calls
      ensures old(ExamplesHit()).Some? ==>
                && r == Ok(old(ExamplesHit()).value)
                && store.calls == old(store.calls)
                && cache.entries == old(cache.entries)
                && cache.calls == old(cache.calls) + [GetCall(GenerateExamplesCacheKey())]
      ensures old(ExamplesHit()).None? ==>
                && r == old(store.ListResponse())
                && store.calls == old(store.calls) + [GetExamplesCall]
      // a store read is returned in the store's order, the empty sequence included
      ensures old(ExamplesHit()).None? && r.Ok? ==> r.value == store.rows
      ensures old(ExamplesHit()).None? && r.Err? ==>
                && cache.entries == old(cache.entries)
                && cache.calls == old(cache.calls) + [GetCall(GenerateExamplesCacheKey())]
      ensures old(ExamplesHit()).None? && r.Ok? ==>
                var key := GenerateExamplesCacheKey();
                && cache.calls == old(cache.calls) + [GetCall(key)] + PopulateCalls(key, MarshalList(r.value))
                && cache.entries == Populated(old(cache.entries), cache.faults, key, MarshalList(r.value))
      ensures old(ExamplesHit()).None? && r.Ok? && MarshalList(r.value).Some? && cache.faults.onSet.None? ==>
                cache.faults.onGet.None? ==> ExamplesHit() == Some(r.value)
    {
      var key := GenerateExamplesCacheKey();
      var cached := cache.Get(key);
      if cached.Ok? {
        var examples := UnmarshalList(cached.value);
        if examples.Some? {
          return Ok(examples.value);
        }
      }
      var examples := store.GetExamples();
      if examples.Err? {
        return examples;
      }
      var bytes := MarshalList(examples.value);
      if bytes.Some? {
        var ignored := cache.SetEx(key, bytes.value, ExampleCacheDuration);
        PopulatedExamplesHit(examples.value);
      }
      return examples;
    }
  }

  /** `NewExampleStoreService`: always succeeds and keeps the two handles. */
  method NewExampleStoreService(store: Store, cache: Cache) returns (s: Service, err: Option<Error>)
    ensures fresh(s) && s.store == store && s.cache == cache
    ensures err == None
  {
    s := new Service(store, cache);
    err := None;
  }

  /** Two reads of one id in a row with a working cache: the second answers
      the same record from the cache without a store call, so the only store
      call is the first read's, made when that read missed. */
  method GetExampleByIDTwice(s: Service, id: string) returns (first: Result<Example, Error>, second: Result<Example, Error>)
    modifies s.store`calls, s.cache`entries, s.cache`calls
    ensures s.cache.faults.onGet.None? && s.cache.faults.onSet.None? && first.Ok? && Marshal(first.value).Some? ==>
              && second == first
              && s.store.calls == old(s.store.calls) + (if old(s.ExampleHit(id)).Some? then [] else [GetExampleByIdCall(id)])
  {
    first := s.GetExampleByID(id);
    second := s.GetExampleByID(id);
  }

  /** A create followed by a read of the new id with no cached entry for it:
      the read goes to the store and finds the record just created. */
  method CreateThenGetExampleByID(s: Service, description: string, token: string, now: int)
    returns (created: Result<Example, Error>, fetched: Result<Example, Error>)
    requires Constants.IsUlidText(token)
    requires Find(s.store.rows, Constants.GenerateDataPrefixWithUlid(Constants.Example, token)).None?
    requires GenerateExampleCacheKeyWithId(Constants.GenerateDataPrefixWithUlid(Constants.Example, token)) !in s.cache.entries
    modifies s.store, s.cache`entries, s.cache`calls
    ensures created.Ok? ==> && fetched == created
                            && fetched.value.description == description
                            && fetched.value.createdAt == fetched.value.updatedAt == now
                            && Constants.Example.IsValid(fetched.value.id)
    ensures created.Ok? ==> s.store.calls == old(s.store.calls) + [CreateExampleCall(description), GetExampleByIdCall(created.value.id)]
  {
    var id := Constants.GenerateDataPrefixWithUlid(Constants.Example, token);
    created := s.CreateExample(description, token, now);
    if created.Ok? {
      Constants.ExampleIdShape(token);
      KeysDisjoint(id);
      FindAppended(old(s.store.rows), created.value);
    }
    fetched := s.GetExampleByID(id);
  }
}
