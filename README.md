# go-svc-template: the cache-aside service for `Example` records

This project models the cache-aside layer of `go-svc-template`, a small
service that creates, reads and lists `Example` records. The service
(`internal/service/v1`) sits between a persistent store (`database.Database`,
which Postgres implements) and a keyed TTL cache (`pkg/cache.Cache`, backed by
Redis). It decides on every read whether to trust the cache. A failed cache
read or an undecodable cached payload falls back to the store. After a store
read it writes the answer back with a 24-hour TTL. After a create it
invalidates the collection entry. The model also covers the
type-prefixed identifier scheme (`pkg/constants/id.go`) and the cache key
schema.

Modules, one per component:

- `Wrappers` (`wrappers.dfy`) holds `Option` and `Result`, the model of Go's `(value, error)` returns.
- `Entities` (`entities.dfy`) holds the `Example` record, with timestamps as integer Unix seconds.
- `Constants` (`constants.dfy`) covers `DataPrefix`, `IsValid` with the `strings.HasPrefix` it relies on (`HasPrefix`), the `exmp_` prefix and `GenerateDataPrefixWithULID`. The ULID token is a parameter. A Go string is modelled as the sequence of Unicode scalar values its UTF-8 bytes encode, and Go's `len` as `Utf8Len`, the UTF-8 byte count.
- `Codec` (`codec.dfy`) stands in for `encoding/json`. The encoder writes one fixed JSON layout, with string escapes as Go writes them: `\"`, `\\`, `\n`, `\r` and `\t`, and `\u` followed by four hex digits for other control characters, `<`, `>`, `&`, U+2028 and U+2029. The decoder reads that layout with any JSON string escape. The round trip is proved. `Marshal` fails, as Go's `time.Time` encoding does, when a timestamp is outside the years 0000 to 9999. The marshal-failure branches of the service are therefore reachable. The decoders refuse such a timestamp, as Go's `time.Time` decoding does with a year that is not four digits. `UnmarshalList` accepts `null` as the empty list, as Go decodes it into a nil slice.
- `Database` (`database.dfy`) models the store collaborator as a class. Its state is the rows of the `examples` table, a failure oracle (`fault`, the driver error while the connection is broken) and a log of the calls made to it. This log plays the role of the gomock expectations in the tests. It returns the errors of the Postgres implementation: `NotFound` when no row matches, `InternalServerError` on any driver error.
- `Caching` (`cache.dfy`) models the cache collaborator as a class. Its state is a map from key to payload and TTL, one failure oracle per operation (`Get`, `SetEx`, `Del`) and a call log. A missing key answers `Nil`, Redis' miss.
- `ServiceV1` (`service.dfy`) holds the TTL constant, the two key functions, the `Service` class with its store and cache handles, `NewExampleStoreService` and the three operations.

Where the names and the code disagree, the model follows the code:

- The singular key is `go-svc-template:channel:id:<id>` (`init.go:17`): the entity is `Example`, but the key's type segment is `channel`.
- The list operation is `GetExamples` (`example.go:22`). `internal/service/v1/interface.go:11` declares it as `FetchExamples`.

## Model

| member | source | states |
|---|---|---|
| `Constants.DataPrefix.String` | src/pkg/constants/id.go:15-17 | the text `String()` returns converts back to the same prefix |
| `Constants.StringRoundTrip` | src/pkg/constants/id.go:15-17 | `String()` returns the prefix text unchanged, and that text gives back the same prefix |
| `Constants.DataPrefix.IsValid` | src/pkg/constants/id.go:19-21 | a valid candidate is at least as long as the prefix and has at least 26 bytes |
| `Constants.Utf8Len` | src/pkg/constants/id.go:20 | Go's `len` of a string lies between its number of characters and four times that number |
| `Constants.HasPrefixIff` | src/pkg/constants/id.go:20 | `strings.HasPrefix(s, p)` holds exactly when `s` is `p` followed by some string (both directions) |
| `Constants.Utf8LenAppend` | src/pkg/constants/id.go:20 | Go's `len` of a concatenation is the sum of the byte lengths of its parts |
| `Constants.IsValidIff` | src/pkg/constants/id.go:19-21 | `IsValid(s)` holds iff the byte length of `s` is that of the prefix plus 26 and `s` agrees with the prefix at every position of the prefix (both directions) |
| `Constants.IsValidIffGenerated` | src/pkg/constants/id.go:19-25 | a string is valid for a prefix iff it is the prefix followed by some 26-byte token, that is, iff generation could have produced it |
| `Constants.GenerateDataPrefixWithUlid` | src/pkg/constants/id.go:23-25 | the identifier starts with the prefix, and its byte length is the prefix's plus the token's |
| `Constants.UlidTextLength` | src/pkg/constants/id.go:20-24 | a ULID text, 26 Crockford base-32 characters, is 26 bytes long, the `ulid.EncodedSize` that `IsValid` expects |
| `Constants.GeneratedIsValid` | src/pkg/constants/id.go:23-25 | generating with a 26-byte token gives a valid identifier, and the token can be read back after the prefix |
| `Constants.GenerateInjective` | src/pkg/constants/id.go:23-25 | distinct tokens give distinct identifiers under one prefix |
| `Constants.ExampleIdShape` | src/pkg/constants/id.go:11-25 | every `Example` id generated from a ULID starts with `exmp_` (the constant `Constants.Example`), is 31 characters and 31 bytes long, and passes `Example.IsValid` |
| `Constants.IsValidRejectsWrongLength` | src/pkg/constants/id.go:19-21 | a candidate of any other byte length is rejected, the bare prefix included |
| `Constants.IsValidRejectsWrongPrefix` | src/pkg/constants/id.go:19-21 | a candidate that differs from the prefix at a position inside it is rejected, whatever its length |
| `Constants.IsValidCountsBytes` | src/pkg/constants/id.go:20 | length is counted in bytes: `exmp_`, a two-byte `é` and 24 letters (30 characters, 31 bytes) is valid; with 25 letters (31 characters, 32 bytes) it is not |
| `Codec.Marshal` | src/internal/service/v1/example.go:73 | marshalling a record succeeds exactly when both timestamps lie in the years 0000 to 9999, and then yields a JSON object |
| `Codec.Unmarshal` | src/internal/service/v1/example.go:59 | only a payload that starts as a JSON object decodes to a record; `null` does not; a decoded record always marshals again, because a timestamp outside the years 0000 to 9999 is refused |
| `Codec.MarshalList` | src/internal/service/v1/example.go:42 | marshalling a sequence succeeds exactly when every record in it marshals, yields a JSON array, and gives `[]` for the empty sequence |
| `Codec.UnmarshalList` | src/internal/service/v1/example.go:28 | `null` and `[]` decode to the empty sequence; any other payload that decodes is a JSON array; a decoded sequence always marshals again |
| `Codec.EscapeCharParses` | src/internal/service/v1/example.go:73 | a character that Go's encoder escapes reads back from its escape as that same character; one it writes bare is neither `"` nor `\` nor a control character |
| `Codec.UnmarshalMarshal` | src/internal/service/v1/example.go:58-78 | decoding the payload written for a record gives back exactly that record, whatever characters its strings hold |
| `Codec.UnmarshalMarshalList` | src/internal/service/v1/example.go:27-47 | decoding the payload written for a sequence of records gives back the same sequence in the same order, the empty one included |
| `Codec.GarbageIsUndecodable` | src/internal/service/v1/example_test.go:169-171 | the corrupt payload `abczd{>` planted by the tests decodes neither as a record nor as a list |
| `Database.Find` | src/internal/database/postgres/example.go:45-80 | a lookup finds a row of the table with the requested id, and finds none exactly when no row has that id |
| `Database.FindAppended` | src/internal/database/postgres/example.go:16-80 | after a row is inserted under an id no row had, a lookup of that id finds the inserted row |
| `Database.FindAppendedOther` | src/internal/database/postgres/example.go:16-80 | inserting a row leaves the lookup of every other id unchanged |
| `Database.Store.CreateExample` | src/internal/database/postgres/example.go:16-43 | on a broken connection: an `InternalServerError` and no new row; otherwise it appends and returns a row with a valid `exmp_` id, the given description and `CreatedAt == UpdatedAt == now` |
| `Database.Store.GetExampleByID` | src/internal/database/postgres/example.go:45-80 | an `InternalServerError` on a driver error, `NotFound` when no row has the id, otherwise the first row with that id |
| `Database.Store.GetExamples` | src/internal/database/postgres/example.go:82-120 | an `InternalServerError` on a driver error, otherwise all rows in table order |
| `Caching.Cache.Get` | src/internal/service/v1/example.go:56 | the stored payload when the key is present and `Get` works; `Nil` on a miss; an error while `Get` fails |
| `Caching.Cache.SetEx` | src/internal/service/v1/example.go:78 | stores the payload with its TTL under the key unless `SetEx` fails, in which case nothing changes and an error is returned |
| `Caching.Cache.Del` | src/internal/service/v1/example.go:17 | removes the key unless `Del` fails, in which case nothing changes and an error is returned |
| `ServiceV1.ExampleCacheDurationIsOneDay` | src/internal/service/v1/init.go:12-14 | the TTL, the constant `ServiceV1.ExampleCacheDuration`, is 24 hours in nanoseconds and fits a `time.Duration` |
| `ServiceV1.GenerateExampleCacheKeyWithId` | src/internal/service/v1/init.go:16-18 | the singular key starts with `go-svc-template:channel:id:` and is 27 characters longer than the id |
| `ServiceV1.GenerateExamplesCacheKey` | src/internal/service/v1/init.go:20-22 | the collection key is a 24-character key in the `go-svc-template:` namespace |
| `ServiceV1.ExampleKeyParts` | src/internal/service/v1/init.go:16-18 | the singular key is the stem `go-svc-template:channel:id:` followed by the id, which can be read back from the key |
| `ServiceV1.ExampleKeyInjective` | src/internal/service/v1/init.go:16-18 | distinct ids give distinct singular keys |
| `ServiceV1.KeysDisjoint` | src/internal/service/v1/init.go:16-22 | both keys lie in the `go-svc-template:` namespace; at the next character they are `c` and `e`; no singular key equals the constant collection key |
| `ServiceV1.CachedExample` | src/internal/service/v1/example.go:56-66 | a cache error (a miss or a failure) is never a hit; an answered payload is a hit exactly when it decodes, and the hit is the decoded record |
| `ServiceV1.CachedExamples` | src/internal/service/v1/example.go:25-35 | the same for the collection: no hit on a cache error; an answered payload is a hit exactly when it decodes as a list, and the hit is that list |
| `ServiceV1.UnmarshalableIsNoHit` | src/internal/service/v1/example.go:56-68 | no payload is a hit on a record, or a list, that Go cannot marshal; such a read falls through to the store |
| `ServiceV1.PopulatedExampleHits` | src/internal/service/v1/example.go:56-78 | the payload written after a store read is, when read back, a fast-path hit for the same record |
| `ServiceV1.PopulatedExamplesHit` | src/internal/service/v1/example.go:25-47 | the payload written after a list read is, when read back, a fast-path hit for the same sequence |
| `ServiceV1.NonHits` | src/internal/service/v1/example.go:56-66 | a cache miss, a cache failure and the corrupt test payload are never fast-path hits, for one record or for the list |
| `ServiceV1.Service.constructor` | src/internal/service/v1/init.go:24-27 | the service holds exactly the given store and cache handles |
| `ServiceV1.NewExampleStoreService` | src/internal/service/v1/init.go:29-34 | always returns a nil error and a new service holding exactly the given handles |
| `ServiceV1.Service.CreateExample` | src/internal/service/v1/example.go:11-20 | returns the store's answer unchanged. A failed create makes no cache call. A successful one makes exactly one cache call, `Del` of the collection key; only that key can change, and it is gone unless `Del` failed |
| `ServiceV1.Service.GetExampleByID` | src/internal/service/v1/example.go:53-82 | a decodable hit under the singular key is returned with no store call and no cache write. Otherwise the store's answer is returned unchanged. A store error causes no cache write. A store record is always returned; it is marshalled and `SetEx`'d with the 24-hour TTL, with a marshal or set failure ignored. After that write the next read is a hit on the same record |
| `ServiceV1.Service.GetExamples` | src/internal/service/v1/example.go:22-51 | the same algorithm on the collection key. A store read is returned in the store's row order, with no re-sorting, and the empty sequence is cached like any other |
| `ServiceV1.GetExampleByIDTwice` | src/internal/service/v1/example.go:53-82 | while the cache works and the record read marshals, two reads of one id in a row return the same record; the second read makes no store call, and the pair makes exactly one store lookup unless the record was already cached, in which case none |
| `ServiceV1.CreateThenGetExampleByID` | src/internal/service/v1/example.go:11-82 | a successful create followed by a read of the new id, with nothing cached under it, returns that record: the given description, equal timestamps and a valid `exmp_` id, after one create call and one lookup on the store |

## Left out

- Context cancellation: every Go operation takes a `context.Context`. Cancellation and deadlines are not modelled, and operations run one at a time.
- Concurrency: simultaneous misses and their racing writes are not modelled.
- Logging: the zerolog calls have no observable effect here.
- Passive TTL expiry: the cache records each entry's TTL but has no clock, so entries leave only by `Del` or by being overwritten.
- `ulid.Make()` and `time.Now()`: the store's `CreateExample` takes the token and the timestamp as parameters, and so does the service's `CreateExample`, which passes them through.
- Real JSON: `Codec` writes and reads one fixed field layout. Go's decoder also accepts whitespace, fields in any order, and unknown or missing fields, and so would turn more cached payloads into hits. Timestamps are integer seconds, not RFC 3339 strings with nanoseconds.
- Surrogate pairs: Go's decoder joins a `\uD8xx\uDCxx` pair of escapes into one character. The model's decoder rejects any escaped surrogate, so a payload that uses a pair is a miss. Go's encoder never writes one.
- `\b` and `\f`: recent Go versions write U+0008 and U+000C in these short forms. The model's encoder writes them as `\u0008` and `\u000c`, as older versions do. Its decoder accepts both forms.
- Invalid UTF-8: a string is modelled as a sequence of Unicode scalar values, so a Go string holding bytes that are not valid UTF-8 cannot be represented. For the same reason, Go's encoder replacing such bytes with U+FFFD is not modelled.
- A cached payload of `null` under a singular key: Go decodes it into a nil pointer without error, so `GetExampleByID` would return a nil record and a nil error. The model's decoder rejects it and falls back to the store.
- A row-scan failure inside the store's `GetExamples` loop is not modelled separately. Its outcome is the same `InternalServerError` a broken connection gives.
- The HTTP transport (server, handlers, health check), process start-up and configuration loading are not part of this model. `pkg/cache` and `pkg/errors` are not part of this model either; the cache and error types follow how the service uses them.
- The generated gomock store and the channel-store tests are not part of this model.
