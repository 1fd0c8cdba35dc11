/** src/server.rs: the per-request decision tree over the cache, the
    extension of an incomplete entry up to its total size, and the full
    fetch that fills the cache. */
module Server {
  import opened Wrappers
  import opened Constants
  import opened Text
  import opened Http
  import opened Utils
  import opened ResponseHandler
  import opened Cache
  import opened RangeHandler

  const DEFAULT_CONTENT_TYPE: string := "application/octet-stream"

  /** How a size-bounded read of a body ends: all of it, the bytes read up
      to and including the chunk that crossed the bound, or a stream error. */
  datatype Drain = Drained(bytes: Bytes) | Overflowed(bytes: Bytes) | StreamBroken

  /** The read loop from chunk `i` on, `acc` holding the bytes read so far;
      it stops as soon as `base` plus the bytes read exceeds `cap`. */
  function DrainFrom(body: Stream, base: nat, cap: nat, i: nat, acc: Bytes): Drain
    requires i <= |body.chunks|
    decreases |body.chunks| - i
  {
    if i == |body.chunks| then
      if body.broken then StreamBroken else Drained(acc)
    else
      var grown := acc + body.chunks[i];
      if base + |grown| > cap then Overflowed(grown) else DrainFrom(body, base, cap, i + 1, grown)
  }

  function BoundedRead(body: Stream, base: nat, cap: nat): Drain {
    DrainFrom(body, base, cap, 0, [])
  }

  /** The bytes of the first `k` chunks begin the bytes of all of them. */
  lemma {:induction false} ConcatPrefix(chunks: seq<Bytes>, k: nat)
    requires k <= |chunks|
    ensures Concat(chunks[..k]) <= Concat(chunks)
    decreases |chunks|
  {
    if k < |chunks| {
      var init := chunks[..|chunks| - 1];
      assert chunks[..k] == init[..k];
      ConcatPrefix(init, k);
    } else {
      assert chunks[..k] == chunks;
    }
  }

  /** Chunk `j` is the one that carries the bytes read past `cap`: the
      chunks before it stay within the bound, and `bytes`, the chunks up to
      and including it, exceed it. */
  predicate Crossing(chunks: seq<Bytes>, base: nat, cap: nat, j: nat, bytes: Bytes)
    requires j < |chunks|
  {
    base + |Concat(chunks[..j])| <= cap && bytes == Concat(chunks[..j + 1]) && base + |bytes| > cap
  }

  lemma {:induction false} DrainFromOutcome(body: Stream, base: nat, cap: nat, i: nat, acc: Bytes)
    requires i <= |body.chunks| && acc == Concat(body.chunks[..i]) && base + |acc| <= cap
    ensures var d := DrainFrom(body, base, cap, i, acc);
      && (d.Drained? <==> !body.broken && base + |Concat(body.chunks)| <= cap)
      && (d.StreamBroken? <==> body.broken && base + |Concat(body.chunks)| <= cap)
      && (d.Drained? ==> d.bytes == Concat(body.chunks))
      && (d.Overflowed? ==> base + |d.bytes| > cap && d.bytes <= Concat(body.chunks))
      && (d.Overflowed? ==> exists j :: i <= j < |body.chunks| && Crossing(body.chunks, base, cap, j, d.bytes))
    decreases |body.chunks| - i
  {
    if i == |body.chunks| {
      assert body.chunks[..i] == body.chunks;
    } else {
      var grown := acc + body.chunks[i];
      assert body.chunks[..i + 1][..i] == body.chunks[..i];
      assert grown == Concat(body.chunks[..i + 1]);
      ConcatPrefix(body.chunks, i + 1);
      if base + |grown| <= cap {
        DrainFromOutcome(body, base, cap, i + 1, grown);
      } else {
        assert Crossing(body.chunks, base, cap, i, grown);
      }
    }
  }

  /** A bounded read drains the body exactly when the whole body fits under
      the bound and the stream does not fail; past the bound it returns the
      chunks up to and including the first one that crosses it. */
  lemma BoundedReadOutcome(body: Stream, base: nat, cap: nat)
    requires base <= cap
    ensures var d := BoundedRead(body, base, cap);
      && (d.Drained? <==> !body.broken && base + |Concat(body.chunks)| <= cap)
      && (d.StreamBroken? <==> body.broken && base + |Concat(body.chunks)| <= cap)
      && (d.Overflowed? <==> base + |Concat(body.chunks)| > cap)
      && (d.Drained? ==> d.bytes == Concat(body.chunks))
      && (d.Overflowed? ==> base + |d.bytes| > cap && d.bytes <= Concat(body.chunks))
      && (d.Overflowed? ==> exists j :: 0 <= j < |body.chunks| && Crossing(body.chunks, base, cap, j, d.bytes))
  {
    assert body.chunks[..0] == [];
    DrainFromOutcome(body, base, cap, 0, []);
  }

  /** What a drained read returns fits under the bound. */
  lemma DrainedFits(body: Stream, base: nat, cap: nat)
    requires base <= cap
    ensures BoundedRead(body, base, cap).Drained? ==> base + |BoundedRead(body, base, cap).bytes| <= cap
  {
    BoundedReadOutcome(body, base, cap);
  }

  /** The accumulate loops of `handle_request` and
      `fetch_and_cache_full_response`, with their early exit. */
  method ReadBounded(body: Stream, base: nat, cap: nat) returns (d: Drain)
    ensures d == BoundedRead(body, base, cap)
  {
    var acc: Bytes := [];
    var i := 0;
    while i < |body.chunks|
      invariant i <= |body.chunks|
      invariant DrainFrom(body, base, cap, i, acc) == BoundedRead(body, base, cap)
    {
      acc := acc + body.chunks[i];
      if base + |acc| > cap {
        return Overflowed(acc);
      }
      i := i + 1;
    }
    if body.broken {
      return StreamBroken;
    }
    d := Drained(acc);
  }

  /** The content type a full fetch stores: the origin's, when readable. */
  function ContentTypeOf(h: Headers): string {
    HeaderStr(h, CONTENT_TYPE).GetOr(DEFAULT_CONTENT_TYPE)
  }

  /** A 200 carrying cached bytes and their stored content type. */
  function Full(contentType: string, content: Bytes): ProxyResponse {
    ProxyResponse(OK, map[CONTENT_TYPE := contentType], Buffered(content))
  }

  /** The entry a full fetch stores for a body read within the bound. */
  function FullEntry(headers: Headers, body: Bytes, declared: Option<U64>): CacheEntry
    requires |body| <= MAX_FILE_SIZE
  {
    var total := if declared.Some? then declared else Some(|body|);
    CacheEntry(body, CacheMeta(ContentTypeOf(headers), CheckResponseComplete(headers, |body|), total))
  }

  /** The part of `fetch_and_cache_full_response` after a successful body
      read: the HEAD probe, the cache write and the answer with the origin's
      status and headers. */
  function StoreFull(req: Request, key: string, resp: OriginResponse, body: Bytes,
                     st: CacheState, script: seq<Attempt>, trace: Trace): Outcome
    requires |body| <= MAX_FILE_SIZE
  {
    var (probe, t) := ProbeTotalSize(req, script, trace);
    match probe
    case Err(e) => Outcome(Err(e), st, t)
    case Ok(declared) =>
      var (written, after) := CacheSet(st, key, FullEntry(resp.headers, body, declared));
      if written.Err? then Outcome(Err(written.error), after, t)
      else Outcome(Ok(ProxyResponse(resp.status, resp.headers, Buffered(body))), after, t)
  }

  /** `fetch_and_cache_full_response`. */
  function FullFetchSpec(req: Request, key: string, st: CacheState, script: seq<Attempt>, trace: Trace): Outcome {
    var f := Fetch(script, |trace.sent|);
    var t := Record(trace, req, f);
    match f.result
    case Err(e) => Outcome(Err(FetchFailed(e)), st, t)
    case Ok(resp) =>
      if !IsSuccess(resp.status) then Outcome(Ok(Relay(resp)), st, t)
      else
        DrainedFits(resp.body, 0, MAX_FILE_SIZE);
        match BoundedRead(resp.body, 0, MAX_FILE_SIZE)
        case StreamBroken => Outcome(Err(StreamFailed), st, t)
        case Overflowed(partial) => Outcome(Ok(ProxyResponse(resp.status, map[], Buffered(partial))), st, t)
        case Drained(body) => StoreFull(req, key, resp, body, st, script, t)
  }

  /** The extension of an incomplete entry up to `total` bytes. */
  function ExtendSpec(entry: CacheEntry, total: U64, req: Request, key: string,
                      st: CacheState, script: seq<Attempt>, trace: Trace): Outcome
    requires |entry.content| < total
  {
    var cachedLen := |entry.content|;
    var f := Fetch(script, |trace.sent|);
    var t := Record(trace, ExtensionRequest(req, cachedLen, total - 1), f);
    match f.result
    case Err(e) => Outcome(Err(FetchFailed(e)), st, t)
    case Ok(resp) =>
      if resp.status != PARTIAL_CONTENT then FullFetchSpec(req, key, st, script, t)
      else match BoundedRead(resp.body, cachedLen, total)
        case Overflowed(_) => FullFetchSpec(req, key, st, script, t)
        case StreamBroken => Outcome(Err(StreamFailed), st, t)
        case Drained(rest) =>
          var merged := entry.content + rest;
          var (written, after) := CacheSet(st, key, CacheEntry(merged, CacheMeta(entry.meta.contentType, true, Some(total))));
          if written.Err? then Outcome(Err(written.error), after, t)
          else Outcome(Ok(Full(entry.meta.contentType, merged)), after, t)
  }

  /** A cache hit without `Range` on an entry not marked complete. */
  function IncompleteSpec(entry: CacheEntry, req: Request, key: string,
                          st: CacheState, script: seq<Attempt>, trace: Trace): Outcome
  {
    var (probe, t) :=
      if entry.meta.totalSize.Some? then (Ok(entry.meta.totalSize), trace)
      else ProbeTotalSize(req, script, trace);
    match probe
    case Err(e) => Outcome(Err(e), st, t)
    case Ok(declared) =>
      var total := declared.GetOr(0);
      if total == 0 then FullFetchSpec(req, key, st, script, t)
      else if |entry.content| >= total then Outcome(Ok(Full(entry.meta.contentType, entry.content)), st, t)
      else ExtendSpec(entry, total, req, key, st, script, t)
  }

  /** The parsed `Range` of a request, when it has one that reads as text
      and parses. */
  function RequestedRange(req: Request): Option<(U64, U64)> {
    match HeaderStr(req.headers, RANGE)
    case None => None
    case Some(s) => ParseRange(s)
  }

  /** `handle_request`. */
  function HandleSpec(req: Request, sha: Sha256, st: CacheState, script: seq<Attempt>, trace: Trace): Outcome {
    var key := GenerateCacheKey(req.uri, sha);
    var (found, looked) := CacheGet(st, key);
    match found
    case None => FullFetchSpec(req, key, looked, script, trace)
    case Some(entry) =>
      if RANGE in req.headers then
        match RequestedRange(req)
        case Some(range) => RangeSpec(range, entry, req, key, looked, script, trace)
        case None => FullFetchSpec(req, key, looked, script, trace)
      else if entry.meta.isComplete then Outcome(Ok(Full(entry.meta.contentType, entry.content)), looked, trace)
      else IncompleteSpec(entry, req, key, looked, script, trace)
  }

  /** The part of `fetch_and_cache_full_response` after a successful body
      read, over the cache object and the origin script. */
  method StoreFullResponse(req: Request, key: string, resp: OriginResponse, body: Bytes,
                           cache: ProxyCache, script: seq<Attempt>, trace: Trace)
    returns (result: Result<ProxyResponse, ProxyError>, after: Trace)
    requires |body| <= MAX_FILE_SIZE
    requires cache.Valid()
    modifies cache, cache.memory
    ensures cache.Valid()
    ensures Outcome(result, cache.State(), after) == StoreFull(req, key, resp, body, old(cache.State()), script, trace)
  {
    var contentType := ContentTypeOf(resp.headers);
    var isComplete := CheckResponseComplete(resp.headers, |body|);
    var probe: Result<Option<U64>, ProxyError>;
    probe, after := GetTotalSize(req, script, trace);
    if probe.Err? {
      return Err(probe.error), after;
    }
    var total := if probe.value.Some? then probe.value else Some(|body|);
    var written := cache.Set(key, CacheEntry(body, CacheMeta(contentType, isComplete, total)));
    if written.Err? {
      return Err(written.error), after;
    }
    result := Ok(ProxyResponse(resp.status, resp.headers, Buffered(body)));
  }

  /** `fetch_and_cache_full_response`, over the cache object and the origin script. */
  method FetchAndCacheFullResponse(req: Request, key: string, cache: ProxyCache, script: seq<Attempt>, trace: Trace)
    returns (result: Result<ProxyResponse, ProxyError>, after: Trace)
    requires cache.Valid()
    modifies cache, cache.memory
    ensures cache.Valid()
    ensures Outcome(result, cache.State(), after) == FullFetchSpec(req, key, old(cache.State()), script, trace)
  {
    ghost var st := cache.State();
    var fetched, sent, sleeps := FetchWithRetry(req, script, |trace.sent|);
    after := Trace(trace.sent + sent, trace.sleeps + sleeps);
    if fetched.Err? {
      return Err(FetchFailed(fetched.error)), after;
    }
    var resp := fetched.value;
    if !IsSuccess(resp.status) {
      return Ok(Relay(resp)), after;
    }
    var read := ReadBounded(resp.body, 0, MAX_FILE_SIZE);
    DrainedFits(resp.body, 0, MAX_FILE_SIZE);
    match read {
      case StreamBroken =>
        return Err(StreamFailed), after;
      case Overflowed(partial) =>
        return Ok(ProxyResponse(resp.status, map[], Buffered(partial))), after;
      case Drained(body) =>
        assert FullFetchSpec(req, key, st, script, trace) == StoreFull(req, key, resp, body, st, script, after);
        result, after := StoreFullResponse(req, key, resp, body, cache, script, after);
    }
  }

  /** The extension branch of `handle_request`: fetch the rest of an
      entry up to `total` bytes and merge it, or fall back to a full fetch. */
  method ExtendToTotal(entry: CacheEntry, total: U64, req: Request, key: string, cache: ProxyCache,
                       script: seq<Attempt>, trace: Trace)
    returns (result: Result<ProxyResponse, ProxyError>, after: Trace)
    requires |entry.content| < total
    requires cache.Valid()
    modifies cache, cache.memory
    ensures cache.Valid()
    ensures Outcome(result, cache.State(), after) == ExtendSpec(entry, total, req, key, old(cache.State()), script, trace)
  {
    ghost var st := cache.State();
    var cachedLen := |entry.content|;
    var clientReq := Request(req.verb, req.uri, Http11, map[RANGE := RangeValue(cachedLen, total - 1)]);
    clientReq := clientReq.(headers := req.headers);
    var fetched, sent, sleeps := FetchWithRetry(clientReq, script, |trace.sent|);
    after := Trace(trace.sent + sent, trace.sleeps + sleeps);
    ghost var t := after;
    assert t == Record(trace, ExtensionRequest(req, cachedLen, total - 1), Fetch(script, |trace.sent|));
    if fetched.Err? {
      return Err(FetchFailed(fetched.error)), after;
    }
    var resp := fetched.value;
    if resp.status == PARTIAL_CONTENT {
      var read := ReadBounded(resp.body, cachedLen, total);
      match read {
        case StreamBroken =>
          return Err(StreamFailed), after;
        case Overflowed(_) =>
          assert ExtendSpec(entry, total, req, key, st, script, trace) == FullFetchSpec(req, key, st, script, t);
        case Drained(remaining) =>
          var completeData := entry.content + remaining;
          var written := cache.Set(key, CacheEntry(completeData, CacheMeta(entry.meta.contentType, true, Some(total))));
          if written.Err? {
            return Err(written.error), after;
          }
          return Ok(Full(entry.meta.contentType, completeData)), after;
      }
    } else {
      assert ExtendSpec(entry, total, req, key, st, script, trace) == FullFetchSpec(req, key, st, script, t);
    }
    result, after := FetchAndCacheFullResponse(req, key, cache, script, after);
  }

  /** The branch of `handle_request` for an entry not marked complete. */
  method ServeIncomplete(entry: CacheEntry, req: Request, key: string, cache: ProxyCache,
                         script: seq<Attempt>, trace: Trace)
    returns (result: Result<ProxyResponse, ProxyError>, after: Trace)
    requires cache.Valid()
    modifies cache, cache.memory
    ensures cache.Valid()
    ensures Outcome(result, cache.State(), after) == IncompleteSpec(entry, req, key, old(cache.State()), script, trace)
  {
    var totalSize: U64;
    after := trace;
    if entry.meta.totalSize.Some? {
      totalSize := entry.meta.totalSize.value;
    } else {
      var probe: Result<Option<U64>, ProxyError>;
      probe, after := GetTotalSize(req, script, trace);
      if probe.Err? {
        return Err(probe.error), after;
      }
      totalSize := probe.value.GetOr(0);
    }
    if totalSize > 0 {
      if |entry.content| >= totalSize {
        return Ok(Full(entry.meta.contentType, entry.content)), after;
      }
      result, after := ExtendToTotal(entry, totalSize, req, key, cache, script, after);
      return;
    }
    result, after := FetchAndCacheFullResponse(req, key, cache, script, after);
  }

  /** `handle_request`, over the cache object and the origin script. */
  method HandleRequest(req: Request, sha: Sha256, cache: ProxyCache, script: seq<Attempt>, trace: Trace)
    returns (result: Result<ProxyResponse, ProxyError>, after: Trace)
    requires cache.Valid()
    modifies cache, cache.memory
    ensures cache.Valid()
    ensures Outcome(result, cache.State(), after) == HandleSpec(req, sha, old(cache.State()), script, trace)
  {
    var key := GenerateCacheKey(req.uri, sha);
    var found := cache.Get(key);
    if found.Some? {
      var entry := found.value;
      if RANGE in req.headers {
        var text := ToStr(req.headers[RANGE]);
        if text.Some? {
          var range := ParseRange(text.value);
          if range.Some? {
            result, after := HandleRangeRequest(range.value, entry, req, key, cache, script, trace);
            return;
          }
        }
      } else if entry.meta.isComplete {
        return Ok(Full(entry.meta.contentType, entry.content)), trace;
      } else {
        result, after := ServeIncomplete(entry, req, key, cache, script, trace);
        return;
      }
    }
    result, after := FetchAndCacheFullResponse(req, key, cache, script, trace);
  }

  /** A miss in both tiers always goes to the origin for the whole resource. */
  lemma MissFetchesFull(req: Request, sha: Sha256, st: CacheState, script: seq<Attempt>, trace: Trace)
    requires CacheGet(st, GenerateCacheKey(req.uri, sha)).0.None?
    ensures HandleSpec(req, sha, st, script, trace) == FullFetchSpec(req, GenerateCacheKey(req.uri, sha), st, script, trace)
  {
    var key := GenerateCacheKey(req.uri, sha);
    assert key !in st.memory.entries;
    assert DiskRead(st.disk, key).None?;
  }

  /** On a hit, a `Range` header that parses hands the request to the range
      handler; one that is not text or does not parse leads to a full fetch,
      even when the cached entry is complete. */
  lemma RangeHeaderDispatch(req: Request, sha: Sha256, st: CacheState, script: seq<Attempt>, trace: Trace)
    requires RANGE in req.headers
    requires CacheGet(st, GenerateCacheKey(req.uri, sha)).0.Some?
    ensures var key := GenerateCacheKey(req.uri, sha);
      var (found, looked) := CacheGet(st, key);
      && (RequestedRange(req).Some? ==>
            HandleSpec(req, sha, st, script, trace) == RangeSpec(RequestedRange(req).value, found.value, req, key, looked, script, trace))
      && (RequestedRange(req).None? ==>
            HandleSpec(req, sha, st, script, trace) == FullFetchSpec(req, key, looked, script, trace))
  {
  }

  /** A hit without `Range` on a complete entry is a 200 with the cached
      bytes and content type, with no origin traffic. */
  lemma CompleteHitServedFromCache(req: Request, sha: Sha256, st: CacheState, script: seq<Attempt>, trace: Trace)
    requires RANGE !in req.headers
    requires var found := CacheGet(st, GenerateCacheKey(req.uri, sha)).0;
      found.Some? && found.value.meta.isComplete
    ensures var (found, looked) := CacheGet(st, GenerateCacheKey(req.uri, sha));
      var o := HandleSpec(req, sha, st, script, trace);
      && o.result == Ok(ProxyResponse(OK, map[CONTENT_TYPE := found.value.meta.contentType], Buffered(found.value.content)))
      && o.trace == trace && o.cache == looked
  {
  }

  /** An entry not marked complete whose stored total it already reaches is
      served whole from the cache, with no origin traffic. */
  lemma IncompleteButCoveredServed(entry: CacheEntry, req: Request, key: string,
                                   st: CacheState, script: seq<Attempt>, trace: Trace)
    requires entry.meta.totalSize.Some? && 0 < entry.meta.totalSize.value <= |entry.content|
    ensures var o := IncompleteSpec(entry, req, key, st, script, trace);
      o.result == Ok(Full(entry.meta.contentType, entry.content)) && o.trace == trace && o.cache == st
  {
  }

  /** An entry with no stored total that already reaches the total the HEAD
      probe reports is served whole from the cache, after the probe's traffic
      and with no cache change. */
  lemma ProbedTotalCoveredServed(entry: CacheEntry, req: Request, key: string,
                                 st: CacheState, script: seq<Attempt>, trace: Trace)
    requires entry.meta.totalSize.None?
    requires var p := ProbeTotalSize(req, script, trace).0;
      p.Ok? && p.value.Some? && 0 < p.value.value <= |entry.content|
    ensures var o := IncompleteSpec(entry, req, key, st, script, trace);
      && o.result == Ok(Full(entry.meta.contentType, entry.content))
      && o.trace == ProbeTotalSize(req, script, trace).1 && o.cache == st
  {
  }

  /** A total of zero, stored or learnt from the HEAD probe (including no
      total at all), sends the request to a full fetch. */
  lemma ZeroTotalFetchesFull(entry: CacheEntry, req: Request, key: string,
                             st: CacheState, script: seq<Attempt>, trace: Trace)
    requires entry.meta.totalSize == Some(0) ||
      (entry.meta.totalSize.None? && ProbeTotalSize(req, script, trace).0 in {Ok(None), Ok(Some(0))})
    ensures var t := if entry.meta.totalSize.Some? then trace else ProbeTotalSize(req, script, trace).1;
      IncompleteSpec(entry, req, key, st, script, trace) == FullFetchSpec(req, key, st, script, t)
  {
  }

  /** An error of the HEAD probe fails the request; no cached bytes are
      served in its place. */
  lemma ProbeFailureFails(entry: CacheEntry, req: Request, key: string,
                          st: CacheState, script: seq<Attempt>, trace: Trace)
    requires entry.meta.totalSize.None? && ProbeTotalSize(req, script, trace).0.Err?
    ensures IncompleteSpec(entry, req, key, st, script, trace).result == Err(ProbeTotalSize(req, script, trace).0.error)
  {
  }

  /** The extension is merged only when the cached bytes plus everything
      received stay within the total: the merged entry then never exceeds
      the total, keeps the cached bytes as its prefix, is answered whole,
      and is written to disk marked complete with the total recorded, even
      when it is shorter than the total. Memory takes it only within
      `MAX_FILE_SIZE`; a larger merge leaves an older memory entry of the
      key in place, so the next get still returns that incomplete entry. */
  lemma ExtensionStaysWithinTotal(entry: CacheEntry, total: U64, req: Request, key: string,
                                  st: CacheState, script: seq<Attempt>, trace: Trace)
    requires |entry.content| < total
    requires var f := Fetch(script, |trace.sent|);
      && f.result.Ok? && f.result.value.status == PARTIAL_CONTENT && !f.result.value.body.broken
      && |entry.content| + |Concat(f.result.value.body.chunks)| <= total
    requires ContentPath(key) !in st.disk.unwritable && MetaPath(key) !in st.disk.unwritable
    ensures var merged := entry.content + Concat(Fetch(script, |trace.sent|).result.value.body.chunks);
      var stored := CacheEntry(merged, CacheMeta(entry.meta.contentType, true, Some(total)));
      var o := ExtendSpec(entry, total, req, key, st, script, trace);
      && |merged| <= total
      && merged[..|entry.content|] == entry.content
      && o.result == Ok(Full(entry.meta.contentType, merged))
      && DiskRead(o.cache.disk, key) == Some(stored)
      && (|merged| <= MAX_FILE_SIZE || key !in st.memory.entries ==> CacheGet(o.cache, key).0 == Some(stored))
      && (|merged| > MAX_FILE_SIZE && key in st.memory.entries ==>
            CacheGet(o.cache, key).0 == Some(st.memory.entries[key]))
  {
    var resp := Fetch(script, |trace.sent|).result.value;
    var merged := entry.content + Concat(resp.body.chunks);
    BoundedReadOutcome(resp.body, |entry.content|, total);
    var stored := CacheEntry(merged, CacheMeta(entry.meta.contentType, true, Some(total)));
    if |merged| <= MAX_FILE_SIZE {
      SetThenGet(st, key, stored);
    } else if key in st.memory.entries {
      OversizedSetServesStaleEntry(st, key, stored);
    } else {
      OversizedSetReadsFromDisk(st, key, stored);
    }
    assert merged[..|entry.content|] == entry.content;
  }

  /** The extension fetch sends the inbound request's method, URI and
      headers, so a request that reached it without `Range` asks the origin
      for the whole resource: only an origin that answers 206 to that leads
      to a merge. */
  lemma ExtensionAsksForWholeResource(entry: CacheEntry, total: U64, req: Request, key: string,
                                      st: CacheState, script: seq<Attempt>, trace: Trace)
    requires |entry.content| < total
    ensures var o := ExtendSpec(entry, total, req, key, st, script, trace);
      && |o.trace.sent| > |trace.sent|
      && o.trace.sent[..|trace.sent|] == trace.sent
      && o.trace.sent[|trace.sent|] == Request(req.verb, req.uri, Http11, req.headers)
      && (RANGE !in req.headers ==> RANGE !in o.trace.sent[|trace.sent|].headers)
  {
  }

  /** Receiving more than the total allows abandons the merge for a full
      fetch; so does any answer other than 206. */
  lemma ExtensionFallsBack(entry: CacheEntry, total: U64, req: Request, key: string,
                           st: CacheState, script: seq<Attempt>, trace: Trace)
    requires |entry.content| < total
    requires var f := Fetch(script, |trace.sent|);
      && f.result.Ok?
      && (f.result.value.status != PARTIAL_CONTENT || |entry.content| + |Concat(f.result.value.body.chunks)| > total)
    ensures var f := Fetch(script, |trace.sent|);
      var t := Record(trace, ExtensionRequest(req, |entry.content|, total - 1), f);
      ExtendSpec(entry, total, req, key, st, script, trace) == FullFetchSpec(req, key, st, script, t)
  {
    BoundedReadOutcome(Fetch(script, |trace.sent|).result.value.body, |entry.content|, total);
  }

  /** A successful body larger than `MAX_FILE_SIZE` is answered with its
      status, no headers and the bytes of its chunks up to and including the
      first one that crosses the bound, and nothing is cached. */
  lemma OversizedBodyNotCached(req: Request, key: string, st: CacheState, script: seq<Attempt>, trace: Trace)
    requires var f := Fetch(script, |trace.sent|);
      && f.result.Ok? && IsSuccess(f.result.value.status)
      && |Concat(f.result.value.body.chunks)| > MAX_FILE_SIZE
    ensures var resp := Fetch(script, |trace.sent|).result.value;
      var o := FullFetchSpec(req, key, st, script, trace);
      && o.cache == st
      && o.result.Ok? && o.result.value.status == resp.status && o.result.value.headers == map[]
      && o.result.value.body.Buffered?
      && |o.result.value.body.bytes| > MAX_FILE_SIZE
      && o.result.value.body.bytes <= Concat(resp.body.chunks)
      && exists j :: 0 <= j < |resp.body.chunks| && Crossing(resp.body.chunks, 0, MAX_FILE_SIZE, j, o.result.value.body.bytes)
  {
    BoundedReadOutcome(Fetch(script, |trace.sent|).result.value.body, 0, MAX_FILE_SIZE);
  }

  /** A successful body within the bound is stored and returned alike: the
      answer carries the origin's status and headers, and the cache then
      holds that body, with the origin's content type (or
      `application/octet-stream`), the completeness check's verdict, and
      the probed total or else the body's length. */
  lemma FullFetchCachesReturnedBody(req: Request, key: string, st: CacheState, script: seq<Attempt>, trace: Trace)
    requires var f := Fetch(script, |trace.sent|);
      && f.result.Ok? && IsSuccess(f.result.value.status) && !f.result.value.body.broken
      && |Concat(f.result.value.body.chunks)| <= MAX_FILE_SIZE
    requires var f := Fetch(script, |trace.sent|);
      ProbeTotalSize(req, script, Record(trace, req, f)).0.Ok?
    requires ContentPath(key) !in st.disk.unwritable && MetaPath(key) !in st.disk.unwritable
    ensures var f := Fetch(script, |trace.sent|);
      var resp := f.result.value;
      var body := Concat(resp.body.chunks);
      var declared := ProbeTotalSize(req, script, Record(trace, req, f)).0.value;
      var o := FullFetchSpec(req, key, st, script, trace);
      var found := CacheGet(o.cache, key).0;
      && o.result == Ok(ProxyResponse(resp.status, resp.headers, Buffered(body)))
      && found.Some? && found.value.content == body
      && found.value.meta.contentType ==
           (if HeaderStr(resp.headers, CONTENT_TYPE).Some? then HeaderStr(resp.headers, CONTENT_TYPE).value else DEFAULT_CONTENT_TYPE)
      && found.value.meta.isComplete == CheckResponseComplete(resp.headers, |body|)
      && found.value.meta.totalSize == (if declared.Some? then declared else Some(|body|))
  {
    var f := Fetch(script, |trace.sent|);
    var resp := f.result.value;
    var body := Concat(resp.body.chunks);
    BoundedReadOutcome(resp.body, 0, MAX_FILE_SIZE);
    var declared := ProbeTotalSize(req, script, Record(trace, req, f)).0.value;
    SetThenGet(st, key, FullEntry(resp.headers, body, declared));
  }

  /** An answer outside 200..299 is handed back as is and nothing is cached;
      a fetch that fails after its retries fails the request. */
  lemma FullFetchPassesThroughFailures(req: Request, key: string, st: CacheState, script: seq<Attempt>, trace: Trace)
    ensures var f := Fetch(script, |trace.sent|);
      var o := FullFetchSpec(req, key, st, script, trace);
      && (f.result.Ok? && !IsSuccess(f.result.value.status) ==> o.result == Ok(Relay(f.result.value)) && o.cache == st)
      && (f.result.Err? ==> o.result == Err(FetchFailed(f.result.error)) && o.cache == st)
  {
  }

  /** The `Range` value the proxy can parse is plain text. */
  lemma RangeValueIsText(a: nat, b: nat)
    ensures ToStr(RangeValue(a, b)) == Some(RangeValue(a, b))
  {
    DigitsAreVisible(Dec(a));
    DigitsAreVisible(Dec(b));
    VisibleConcat(Dec(a), "-");
    VisibleConcat(Dec(a) + "-", Dec(b));
    assert ToStr(BYTES_PREFIX) == Some(BYTES_PREFIX);
    VisibleConcat(BYTES_PREFIX, Dec(a) + "-" + Dec(b));
  }

  /** With an empty cache, a 200 whose `Content-Length` matches its body
      is returned with its headers and cached as complete, with the body's
      length as total when the HEAD probe reports it or reports nothing; a
      later `bytes=a-b` request for the same URI within the body is then
      answered 206 from the cache without contacting the origin. */
  lemma FetchThenRangeFromCache(req: Request, sha: Sha256, st: CacheState, script: seq<Attempt>, trace: Trace,
                                a: U64, b: U64, later: seq<Attempt>, laterTrace: Trace)
    requires CacheGet(st, GenerateCacheKey(req.uri, sha)).0.None?
    requires var f := Fetch(script, |trace.sent|);
      && f.result.Ok? && f.result.value.status == OK && !f.result.value.body.broken
      && |Concat(f.result.value.body.chunks)| <= MAX_FILE_SIZE
      && CONTENT_RANGE !in f.result.value.headers && CONTENT_LENGTH in f.result.value.headers
      && f.result.value.headers[CONTENT_LENGTH] == Dec(|Concat(f.result.value.body.chunks)|)
    requires var f := Fetch(script, |trace.sent|);
      var p := ProbeTotalSize(req, script, Record(trace, req, f)).0;
      p == Ok(None) || p == Ok(Some(|Concat(f.result.value.body.chunks)|))
    requires var key := GenerateCacheKey(req.uri, sha);
      ContentPath(key) !in st.disk.unwritable && MetaPath(key) !in st.disk.unwritable
    requires a <= b < |Concat(Fetch(script, |trace.sent|).result.value.body.chunks)|
    ensures var resp := Fetch(script, |trace.sent|).result.value;
      var body := Concat(resp.body.chunks);
      var key := GenerateCacheKey(req.uri, sha);
      var first := HandleSpec(req, sha, st, script, trace);
      var found := CacheGet(first.cache, key).0;
      var ranged := req.(headers := req.headers[RANGE := RangeValue(a, b)]);
      var second := HandleSpec(ranged, sha, first.cache, later, laterTrace);
      && first.result == Ok(ProxyResponse(OK, resp.headers, Buffered(body)))
      && found.Some? && found.value.content == body
      && found.value.meta.isComplete && found.value.meta.totalSize == Some(|body|)
      && second.trace == laterTrace
      && second.result == PartialResponse(body, found.value.meta.contentType, a, b)
      && second.result.Ok?
  {
    var key := GenerateCacheKey(req.uri, sha);
    var f := Fetch(script, |trace.sent|);
    var resp := f.result.value;
    var body := Concat(resp.body.chunks);
    MissFetchesFull(req, sha, st, script, trace);
    FullFetchCachesReturnedBody(req, key, st, script, trace);
    MatchingLengthIsComplete(resp.headers, body);
    var first := HandleSpec(req, sha, st, script, trace);
    var found := CacheGet(first.cache, key).0;
    var ranged := req.(headers := req.headers[RANGE := RangeValue(a, b)]);
    RangeValueIsText(a, b);
    ParseRangeRoundTrip(a, b);
    assert RequestedRange(ranged) == Some((a, b));
    RangeHeaderDispatch(ranged, sha, first.cache, later, laterTrace);
    CoveredRangeServedFromCache((a, b), found.value, ranged, key, CacheGet(first.cache, key).1, later, laterTrace);
  }
}
