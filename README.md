# Caching range proxy — a Dafny model

The proxy sits in front of an origin server. For each inbound HTTP request it:

1. hashes the URI into a cache key;
2. looks the key up in a two-tier cache: an LRU map of 20 entries in memory, plus a content file and a `.meta` file on disk;
3. answers from the cache, from a merge of the cached prefix with bytes fetched from the origin, or from a full origin fetch that refills the cache.

Every origin request goes through a retry loop: one attempt plus up to three retries, with a pause between attempts.

This project models that core and proves what it does:

- `Range` header parsing, the cache key, and the retry loop (`src/utils.rs`);
- the completeness check and the header logic of the total-size probe (`src/handler/response.rs`);
- the two-tier cache (`src/cache.rs`);
- the range handler (`src/handler/range.rs`);
- the request orchestrator, with its extension and full-fetch paths (`src/server.rs`).

How the outside world is modelled:

- **The origin** is a script: a sequence of attempt outcomes, each one `Answered(response)`, `TransportError`, or `TimedOut`. A client request consumes the script in order, HEAD probes included. An attempt past the end of the script times out.
- **Origin traffic** is recorded in a `Trace`: every request sent, and the number of pauses between attempts.
- **A response body** is a sequence of chunks, possibly followed by a stream error.
- **The disk** is a map from key to content, a map from key to `.meta` file state, and a set of paths whose writes fail.
- **SHA-256** is a parameter: any function from the URI's text to 32 bytes.

Code that the source runs step by step is written as methods with loops or state changes:

- the retry loop;
- the chunk-reading loops;
- `LruCache` and `ProxyCache`, as classes;
- the three request handlers.

Each such method is proved equal to a pure function: `Fetch`, `ReadAll`, `BoundedRead`, `LruGet`/`LruPut`, `CacheGet`/`CacheSet`, `RangeSpec`, `FullFetchSpec`, `ExtendSpec`, `IncompleteSpec` or `HandleSpec`. The lemmas state the source's behaviour in terms of those functions.

Modules:

| module | file | models |
|---|---|---|
| `Wrappers` | `wrappers.dfy` | `Option` and `Result` |
| `Constants` | `constants.dfy` | `src/constants.rs` |
| `Text` | `text.dfy` | `str::parse::<u64>`, integer `Display`, `split`, `trim_start_matches` |
| `Http` | `http.dfy` | requests, responses, streams, attempt outcomes, errors, `HeaderValue::to_str` |
| `Utils` | `utils.dfy` | `src/utils.rs` |
| `ResponseHandler` | `response.dfy` | `src/handler/response.rs` |
| `Lru` | `lru.dfy` | the `lru` crate's `LruCache` as used by the cache |
| `Cache` | `cache.dfy` | `src/cache.rs` |
| `RangeHandler` | `range.dfy` | `src/handler/range.rs` |
| `Server` | `server.dfy` | `src/server.rs` |

### Behaviour of the code worth knowing

Each point below is something the code does that a reader might not expect. The model follows the code in every case.

- **Computed `Range` header is discarded.** Both extension paths build a `Range` header and then overwrite every header with a copy of the inbound ones (`src/handler/range.rs:44-53`, `src/server.rs:87-96`). Take 500 of 1000 bytes cached and a client asking for `bytes=600-700`: the origin receives `bytes=600-700`, not `bytes=500-700`. An origin that honours it returns 101 bytes, so the merge holds 601 bytes, and slicing `600..=700` panics (`RangeHandler.ForwardedRangeOverrunsMerge`). In the orchestrator the extension runs only for a request without `Range`, so it asks the origin for the whole resource. A conforming origin answers 200, which falls back to a full fetch; only an origin that answers 206 to a request without `Range` reaches the merge (`Server.ExtensionAsksForWholeResource`, `Server.ExtensionFallsBack`).
- **"Fully covered" guard.** The guard is `end <= cached_len` (`src/handler/range.rs:24`). For `end == cached_len` the slice runs one byte past the buffer, and the request panics (`RangeHandler.CoveredRangeServedFromCache`).
- **Cache-write errors fail the request.** A failed write propagates with `?` and fails the request, in the range handler (`src/handler/range.rs:77-90`), in the orchestrator's extension (`src/server.rs:131`) and in the full fetch (`src/server.rs:200-212`) (`RangeHandler.ExtensionWriteFailureFails`).
- **Extension totals.**
  - The range handler records the merged length as the total (`src/handler/range.rs:87`).
  - The orchestrator's extension records `is_complete = true` and the declared total, even when fewer bytes arrived (`src/server.rs:118-131`, `Server.ExtensionStaysWithinTotal`). A merge larger than `MAX_FILE_SIZE` reaches only the disk: an older memory entry of the key stays, and the next request extends it again.
- **Full fetch forwards the client's request as is** (`src/server.rs:163`). It does not strip `Range`.
- **HEAD probe failures.** An error of the HEAD probe fails the request (`src/server.rs:67`, `Server.ProbeFailureFails`).

## Model

| member | source | states |
|---|---|---|
| `Utils.ParseRangeRoundTrip` | src/utils.rs:16-22 | for every pair of `u64`s, `bytes=a-b` parses back to `(a, b)` |
| `Utils.ParseRangeFields` | src/utils.rs:17-21 | two `-`-free fields that parse as `u64` give the pair, with no check that start <= end |
| `Utils.ParseRangePrefixOptional` | src/utils.rs:17 | a leading `bytes=` changes nothing: the prefix is optional and is stripped repeatedly |
| `Utils.ParseRangeIgnoresExtraFields` | src/utils.rs:18-21 | only the first two `-`-separated fields are read; `a-b-c` gives `(a, b)` |
| `Utils.ParseRangeBadSecondField` | src/utils.rs:20 | a second field that is not a `u64` makes the header unparseable |
| `Utils.ParseRangeBadFirstField` | src/utils.rs:19 | a first field that is not a `u64` makes the header unparseable, whatever follows it |
| `Utils.ParseRangeRejectsOpenEnded` | src/utils.rs:20 | `bytes=N-` is rejected because its second field is empty |
| `Utils.ParseRangeRejectsSuffix` | src/utils.rs:19 | `bytes=-N` is rejected because its first field is empty |
| `Utils.ParseRangeNeedsDash` | src/utils.rs:18-20 | without a `-` after the prefix there is no second field, so None |
| `Utils.ParseRangeRejectsOverflow` | src/utils.rs:19-20 | a start or end bound of 2^64 or more does not fit a `u64`, so the header is rejected |
| `Utils.HexRoundTrip` | src/utils.rs:13 | hex encoding can be decoded back to the digest |
| `Utils.GenerateCacheKey` | src/utils.rs:10-14 | the key is 64 lower-case hex characters, a function of the URI's text alone |
| `Utils.CacheKeyInjective` | src/utils.rs:10-14 | two URIs share a key only if their SHA-256 digests are equal |
| `Utils.FetchFrom` | src/utils.rs:28-64 | 1 to 4 attempts, one pause between consecutive attempts and none after the last; every attempt but the last failed; success iff the last attempt was answered (whatever its status), giving that response; on failure, all 4 attempts were made and the error is the last attempt's transport error or timeout |
| `Utils.FirstAnswerWins` | src/utils.rs:50 | the first answered attempt within the budget ends the loop with that response; answered responses are never retried |
| `Utils.FetchWithRetry` | src/utils.rs:24-65 | the loop returns what `Fetch` describes and sends one identical rebuilt request (method, URI, version, headers) per attempt |
| `ResponseHandler.DeclaredTotalFromLength` | src/handler/response.rs:29-33 | without `Content-Range`, `Content-Length: n` declares a total of n |
| `ResponseHandler.CheckResponseComplete` | src/handler/response.rs:40-58 | complete implies the length equals the declared total or none is declared, and the converse holds unless `Content-Range` is unparseable; an unparseable `Content-Range` total means incomplete |
| `ResponseHandler.CompleteIgnoresLengthUnderRange` | src/handler/response.rs:41-49 | with `Content-Range` present, `Content-Length` has no effect on the verdict |
| `ResponseHandler.CompleteWithoutHeaders` | src/handler/response.rs:50-56 | with neither header the body counts as complete, and no total is declared |
| `ResponseHandler.ContentRangeWithoutSlash` | src/handler/response.rs:21-22 | a `Content-Range` with no `/` is parsed whole as the total |
| `ResponseHandler.UnknownRangeTotalDiverges` | src/handler/response.rs:19-49 | an unparseable `Content-Range` total (such as `*`) makes the check fail, while the total falls back to `Content-Length` |
| `ResponseHandler.ProbeSendsBareHead` | src/handler/response.rs:11-16 | the probe sends only HEAD requests for the same URI with no headers, appended after the earlier traffic, and its total is read from the answered response |
| `ResponseHandler.GetTotalSize` | src/handler/response.rs:7-38 | the probe method returns what `ProbeTotalSize` describes; a fetch error fails it |
| `ResponseHandler.ContentRangeRoundTrip` | src/handler/range.rs:36-39 | the `bytes s-e/t` value the proxy writes reads back as total `t` through the `Content-Range` logic |
| `ResponseHandler.DeclaredTotalPrefersContentRange` | src/handler/response.rs:18-27 | `Content-Range: bytes s-e/t` declares the total t, whatever `Content-Length` the headers carry |
| `ResponseHandler.UnknownTotalFallsBackToLength` | src/handler/response.rs:18-33 | a `Content-Range` with `*` as its total declares nothing, so `Content-Length: n` gives the total n |
| `ResponseHandler.MatchingLengthIsComplete` | src/handler/response.rs:50-56 | a `Content-Length` equal to the body length makes the body complete |
| `Lru.LruGet` | src/cache.rs:47 | a hit returns the stored value and moves the key to the most recently used end, the other keys keeping their relative order, with no value changed; a miss changes nothing |
| `Lru.LruPut` | src/cache.rs:76 | the key holds the new value as most recently used; a stored key is moved to the end, others keeping their order; a new key in a full map drops `order[0]`, the least recently used, and is appended; otherwise it is appended; the state stays well formed; other values are unchanged |
| `Lru.CapacityBound` | src/cache.rs:38-40 | a well-formed map holds as many entries as its order lists, at most its capacity |
| `Lru.PutThenGet` | src/cache.rs:76 | a get right after a put returns the value put |
| `Lru.PutEvictsLeastRecent` | src/cache.rs:38-40 | a new key in a full map evicts exactly the least recently used key, the size stays the same, and the remaining keys keep their order |
| `Lru.LruCache.constructor` | src/cache.rs:38-40 | a new map is empty and well formed with the given capacity |
| `Lru.LruCache.Get` | src/cache.rs:47 | the object's get follows `LruGet` and keeps the map well formed |
| `Lru.LruCache.Put` | src/cache.rs:76 | the object's put follows `LruPut` and keeps the map well formed |
| `Cache.CacheGet` | src/cache.rs:45-71 | a memory hit is returned without consulting the disk and refreshes the key as `LruGet` does; otherwise the disk entry, which is put into memory as `LruPut` does when within `MAX_FILE_SIZE`, and otherwise nothing changes; the disk is never changed; the memory tier stays well formed |
| `Cache.CacheSet` | src/cache.rs:73-87 | success iff both files are writable, else the error names the first failing path; memory is updated first, and only within `MAX_FILE_SIZE`; after success the disk holds the entry; a failed content write leaves the disk as it was; other keys' disk entries are unchanged |
| `Cache.SetThenGet` | src/cache.rs:75-77 | within the size limit, a get after a set returns the entry, even when a disk write failed |
| `Cache.OversizedSetServesStaleEntry` | src/cache.rs:75-77 | an entry over the limit leaves the old in-memory entry, which the next get returns |
| `Cache.OversizedSetReadsFromDisk` | src/cache.rs:52-69 | an entry over the limit that was written is served from disk and not promoted into memory |
| `Cache.FailedMetaWritePairsNewContentWithOldMeta` | src/cache.rs:80-85 | when only the `.meta` write fails, the disk pairs the new content with the old metadata |
| `Cache.DiskHitPromotion` | src/cache.rs:62-64 | a disk hit enters memory exactly when its content is within `MAX_FILE_SIZE` |
| `Cache.MemoryBound` | src/cache.rs:38-40 | the memory tier never holds more than 20 entries |
| `Cache.OtherKeysUntouched` | src/cache.rs:45-87 | get and set leave other keys' disk entries and memory values alone; another key leaves memory only as the LRU victim of a new key |
| `Cache.ProxyCache.constructor` | src/cache.rs:32-43 | a new cache has an empty memory tier of capacity 20 over the given directory |
| `Cache.ProxyCache.Get` | src/cache.rs:45-71 | the object's get follows `CacheGet` |
| `Cache.ProxyCache.Set` | src/cache.rs:73-87 | the object's set follows `CacheSet` |
| `RangeHandler.LastIndex` | src/handler/range.rs:86 | `len - 1` as a `u64`, wrapping to 2^64-1 for an empty buffer |
| `RangeHandler.ReadToEnd` | src/handler/range.rs:60-67 | the read loop returns what `ReadAll` describes: every chunk's bytes in order when the stream does not fail, and the stream error otherwise |
| `RangeHandler.HandleRangeRequest` | src/handler/range.rs:12-114 | the handler's response, new cache state and origin traffic are those of `RangeSpec` |
| `RangeHandler.CoveredRangeServedFromCache` | src/handler/range.rs:24-41 | when end <= cached length: no origin traffic, no cache change; success iff start <= end + 1 and end < cached length; end == cached length panics |
| `RangeHandler.RangeFidelity` | src/handler/range.rs:24-41 | for a <= b < L: 206 with exactly the L-byte content's bytes `a..=b`, headers exactly the stored content type and `Content-Range: bytes a-b/L` (whose total reads back as L), no origin traffic and no cache change |
| `RangeHandler.ExtensionForwardsInboundHeaders` | src/handler/range.rs:44-56 | past the cached length, every request sent carries the inbound method, URI and headers, so a client `Range` is forwarded as is |
| `RangeHandler.ExtensionMerges` | src/handler/range.rs:59-107 | on a 206, the merged bytes keep the cached bytes as prefix; within the limit they are cached with the same content type, total = merged length, complete iff end is the last index (wrapping when empty); the answer slices the merged bytes |
| `RangeHandler.ExtensionWriteFailureFails` | src/handler/range.rs:77-90 | a failed content write fails the request, though memory already holds the merged entry |
| `RangeHandler.OversizedMergeNotCached` | src/handler/range.rs:76-108 | a merge larger than `MAX_FILE_SIZE` leaves the cache unchanged and is still answered with the slice of the merged bytes |
| `RangeHandler.NonPartialRelayed` | src/handler/range.rs:109-112 | a non-206 answer is returned unchanged and nothing is cached |
| `RangeHandler.ForwardedRangeOverrunsMerge` | src/handler/range.rs:44-94 | a client range starting past the cached prefix, answered exactly by the origin, ends in a slice panic, after the misaligned merge has been cached (within the size limit) with its own length as total |
| `Server.BoundedReadOutcome` | src/server.rs:104-116 | a bounded read drains iff everything fits and the stream does not fail; it overflows iff the body exceeds the bound, returning the chunks up to and including the first one that crosses it; a failing stream within the bound is an error |
| `Server.ReadBounded` | src/server.rs:179-189 | the accumulate loop with early exit returns what `BoundedRead` describes |
| `Server.FetchAndCacheFullResponse` | src/server.rs:157-224 | the full fetch's response, cache state and traffic are those of `FullFetchSpec` |
| `Server.StoreFullResponse` | src/server.rs:191-217 | after a body read within the bound, the probe, cache write and answer are those of `StoreFull` |
| `Server.ExtendToTotal` | src/server.rs:86-147 | the extension's response, cache state and traffic are those of `ExtendSpec` |
| `Server.ServeIncomplete` | src/server.rs:59-149 | the incomplete-entry branch follows `IncompleteSpec` |
| `Server.HandleRequest` | src/server.rs:13-154 | the handler's response, cache state and traffic are those of `HandleSpec` |
| `Server.MissFetchesFull` | src/server.rs:150-153 | a miss in both tiers is a full fetch |
| `Server.RangeHeaderDispatch` | src/server.rs:24-41 | on a hit, a parseable `Range` goes to the range handler; an unreadable or unparseable one to a full fetch, even for a complete entry |
| `Server.CompleteHitServedFromCache` | src/server.rs:43-56 | a complete hit without `Range` is a 200 with the cached bytes and content type, with no origin traffic |
| `Server.IncompleteButCoveredServed` | src/server.rs:64-84 | an incomplete entry already at its stored total (> 0) is served whole as 200 with no origin traffic |
| `Server.ProbedTotalCoveredServed` | src/server.rs:63-84 | an entry with no stored total that reaches the probed total (> 0) is served whole as 200 after the HEAD probe traffic, with no cache change |
| `Server.ZeroTotalFetchesFull` | src/server.rs:64-70 | a total of 0, stored or probed (including none), leads to a full fetch |
| `Server.ProbeFailureFails` | src/server.rs:67 | a failed HEAD probe fails the request |
| `Server.ExtensionStaysWithinTotal` | src/server.rs:104-145 | a merged extension never exceeds the total, keeps the cached prefix, is returned as 200, and is written to disk complete with that total even when shorter; a later get returns it, except that a merge over `MAX_FILE_SIZE` leaves an older memory entry of the key, which the get returns instead |
| `Server.ExtensionAsksForWholeResource` | src/server.rs:87-99 | the first request of the extension is the inbound method, URI and headers, appended after the earlier traffic, so a request without `Range` sends none to the origin |
| `Server.ExtensionFallsBack` | src/server.rs:99-116 | a non-206 answer, or more bytes than the total allows, leads to a full fetch after the extension's traffic |
| `Server.OversizedBodyNotCached` | src/server.rs:179-188 | a success body over `MAX_FILE_SIZE` is answered with its status, no headers and exactly the chunks up to and including the first one that crosses the bound, and the cache is unchanged |
| `Server.FullFetchCachesReturnedBody` | src/server.rs:167-217 | within the bound, the returned body (with origin status and headers) is what the cache then holds, with content type or `application/octet-stream`, the completeness verdict, and the probed total or else the body length |
| `Server.FullFetchPassesThroughFailures` | src/server.rs:163-222 | a non-2xx answer is relayed unchanged and uncached; a failed fetch fails the request with no cache change |
| `Server.FetchThenRangeFromCache` | src/server.rs:13-153 | from an empty cache, a 200 with matching `Content-Length` is returned and cached complete with its length as total; a later `bytes=a-b` within it is answered 206 from the cache, with no origin traffic |

## Left out

- The hyper client, TLS, the tokio runtime and the listener in `src/main.rs` are not modelled. Each origin exchange is an entry of the attempt script.
- The 30-second timeout and the 1000 ms pause are not modelled as time. A timed-out attempt is an outcome, and pauses are counted.
- SHA-256 and the URI's `to_string` are not modelled. The hash is a parameter and the URI is its text.
- serde_json is not modelled. A `.meta` file is either a parsed `CacheMeta`, text that does not parse, or unreadable.
- `ProxyCache::new` does not model directory creation or its failure. The constructor starts from a given disk state.
- `with_extension("meta")` is modelled as appending `.meta`. This is exact for the proxy's hex keys, which contain no dot. Content and `.meta` files are kept apart by key.
- A failed `fs::write` leaves the previous file as it was. Partial writes are not modelled.
- The `HeaderValue` parse-and-`unwrap` of stored content types is not modelled (`src/server.rs:52-53`, `src/handler/range.rs:34`, `src/handler/range.rs:101`). It cannot fail for content types the proxy stored itself.
- The `?` on `Response::builder` and `Request::builder` is not modelled. It cannot fail for the values built here.
- The `Mutex`/`Arc` sharing and concurrent requests are not modelled. Each request runs alone against the cache.
- Integer widths:
  - `LastIndex` follows release-build wrap-around of `len as u64 - 1` at `src/handler/range.rs:86`; a debug build would panic on `0 - 1` instead.
  - The `u64` sums at `src/server.rs:109` and `src/handler/range.rs:27` use unbounded integers: they cannot overflow for in-memory buffers.
- Http.Headers: a header name maps to one value. hyper's `HeaderMap` can hold repeated fields under one name, and the relays copy them all (`src/handler/range.rs:53`, `src/server.rs:96`, `src/server.rs:216`, `src/server.rs:221`); the model keeps one value per name.
- A stream that fails part-way is modelled as the chunks delivered before the failure, followed by the failure.
- RangeHandler.RangeFidelity: requires the cached length to be below 2^64, as every `usize` length is.
