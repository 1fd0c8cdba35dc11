/** src/handler/range.rs: serving `Range: bytes=start-end` against a cached
    entry, either from the cached bytes or by fetching more from the origin
    and appending it to the cached prefix. */
module RangeHandler {
  import opened Wrappers
  import opened Constants
  import opened Text
  import opened Http
  import opened Utils
  import opened ResponseHandler
  import opened Cache

  /** What one request does: the response or error, the cache afterwards,
      and the origin traffic. */
  datatype Outcome = Outcome(result: Result<ProxyResponse, ProxyError>, cache: CacheState, trace: Trace)

  /** `bytes.slice(start..stop)` and `vec[start..stop]`: the bytes between
      the two offsets, or a panic when the range is reversed or runs past
      the end. */
  function Slice(bytes: Bytes, start: nat, stop: nat): (r: Result<Bytes, ProxyError>)
    ensures r.Ok? <==> start <= stop <= |bytes|
    ensures r.Ok? ==> (|r.value| == stop - start &&
      forall i :: 0 <= i < |r.value| ==> r.value[i] == bytes[start + i])
    ensures r.Err? ==> r.error == SlicePanic(start, stop, |bytes|)
  {
    if start <= stop <= |bytes| then Ok(bytes[start..stop]) else Err(SlicePanic(start, stop, |bytes|))
  }

  /** The 206 answer for `start..=end` of `content`, whose `Content-Range`
      gives the length of `content` as the total. */
  function PartialResponse(content: Bytes, contentType: string, start: nat, end: nat)
    : (r: Result<ProxyResponse, ProxyError>)
    ensures r.Ok? <==> start <= end + 1 && end < |content|
    ensures r.Ok? ==> (
      && r.value.status == PARTIAL_CONTENT
      && r.value.headers == map[CONTENT_TYPE := contentType, CONTENT_RANGE := ContentRangeValue(start, end, |content|)]
      && r.value.body == Buffered(content[start..end + 1]))
  {
    match Slice(content, start, end + 1)
    case Err(e) => Err(e)
    case Ok(part) =>
      Ok(ProxyResponse(PARTIAL_CONTENT,
        map[CONTENT_TYPE := contentType, CONTENT_RANGE := ContentRangeValue(start, end, |content|)],
        Buffered(part)))
  }

  /** The request sent to extend a cached prefix: a `Range` of
      `first-last` is built and then every header is replaced by a copy of
      the inbound ones, so the computed range is never sent. */
  function ExtensionRequest(req: Request, first: nat, last: nat): (ext: Request)
    ensures ext == Request(req.verb, req.uri, Http11, req.headers)
  {
    var built := Request(req.verb, req.uri, Http11, map[RANGE := RangeValue(first, last)]);
    built.(headers := req.headers)
  }

  /** `len as u64 - 1` in a release build: 0 wraps around to `u64::MAX`. */
  function LastIndex(len: nat): (i: U64)
    requires len < U64_LIMIT
    ensures len > 0 ==> i + 1 == len
    ensures len == 0 ==> i == U64_LIMIT - 1
  {
    (len - 1) % U64_LIMIT
  }

  /** A non-206 origin answer, handed back as it came. */
  function Relay(resp: OriginResponse): ProxyResponse {
    ProxyResponse(resp.status, resp.headers, Relayed(resp.body))
  }

  /** Reading a body to its end: all of its bytes, or the stream's error. */
  function ReadAll(body: Stream): (r: Result<Bytes, ProxyError>)
    ensures r.Ok? <==> !body.broken
    ensures r.Ok? ==> r.value == Concat(body.chunks)
  {
    if body.broken then Err(StreamFailed) else Ok(Concat(body.chunks))
  }

  /** The `while let Some(chunk) = stream.next()` loop of the range handler. */
  method ReadToEnd(body: Stream) returns (r: Result<Bytes, ProxyError>)
    ensures r == ReadAll(body)
  {
    var acc: Bytes := [];
    var i := 0;
    while i < |body.chunks|
      invariant i <= |body.chunks|
      invariant acc == Concat(body.chunks[..i])
    {
      assert body.chunks[..i + 1][..i] == body.chunks[..i];
      acc := acc + body.chunks[i];
      i := i + 1;
    }
    assert body.chunks[..i] == body.chunks;
    if body.broken {
      return Err(StreamFailed);
    }
    r := Ok(acc);
  }

  /** The entry written back after an extension. */
  function MergedEntry(cached: CacheEntry, merged: Bytes, end: U64): CacheEntry
    requires |merged| <= MAX_FILE_SIZE
  {
    CacheEntry(merged, CacheMeta(cached.meta.contentType, end == LastIndex(|merged|), Some(|merged|)))
  }

  /** `handle_range_request`. */
  function RangeSpec(range: (U64, U64), cached: CacheEntry, req: Request, key: string,
                     st: CacheState, script: seq<Attempt>, trace: Trace): Outcome
  {
    var (start, end) := range;
    var cachedLen := |cached.content|;
    if end <= cachedLen then
      Outcome(PartialResponse(cached.content, cached.meta.contentType, start, end), st, trace)
    else
      var f := Fetch(script, |trace.sent|);
      var t := Record(trace, ExtensionRequest(req, cachedLen, end), f);
      match f.result
      case Err(e) => Outcome(Err(FetchFailed(e)), st, t)
      case Ok(resp) =>
        if resp.status != PARTIAL_CONTENT then Outcome(Ok(Relay(resp)), st, t)
        else match ReadAll(resp.body)
          case Err(e) => Outcome(Err(e), st, t)
          case Ok(fetched) =>
            var merged := cached.content + fetched;
            if |merged| <= MAX_FILE_SIZE then
              var (written, after) := CacheSet(st, key, MergedEntry(cached, merged, end));
              if written.Err? then Outcome(Err(written.error), after, t)
              else Outcome(PartialResponse(merged, cached.meta.contentType, start, end), after, t)
            else Outcome(PartialResponse(merged, cached.meta.contentType, start, end), st, t)
  }

  /** `handle_range_request`, over the cache object and the origin script. */
  method HandleRangeRequest(range: (U64, U64), cached: CacheEntry, req: Request, key: string,
                            cache: ProxyCache, script: seq<Attempt>, trace: Trace)
    returns (result: Result<ProxyResponse, ProxyError>, after: Trace)
    requires cache.Valid()
    modifies cache, cache.memory
    ensures cache.Valid()
    ensures Outcome(result, cache.State(), after) == RangeSpec(range, cached, req, key, old(cache.State()), script, trace)
  {
    var cachedLen := |cached.content|;
    var (start, end) := range;
    var contentType := cached.meta.contentType;
    if end <= cachedLen {
      result := PartialResponse(cached.content, contentType, start, end);
      after := trace;
      return;
    }
    var clientReq := Request(req.verb, req.uri, Http11, map[RANGE := RangeValue(cachedLen, end)]);
    clientReq := clientReq.(headers := req.headers);
    var fetched, sent, sleeps := FetchWithRetry(clientReq, script, |trace.sent|);
    after := Trace(trace.sent + sent, trace.sleeps + sleeps);
    if fetched.Err? {
      return Err(FetchFailed(fetched.error)), after;
    }
    var resp := fetched.value;
    if resp.status != PARTIAL_CONTENT {
      return Ok(Relay(resp)), after;
    }
    var body := ReadToEnd(resp.body);
    if body.Err? {
      return Err(body.error), after;
    }
    var newContent := cached.content + body.value;
    if |newContent| <= MAX_FILE_SIZE {
      var written := cache.Set(key, CacheEntry(newContent,
        CacheMeta(contentType, end == LastIndex(|newContent|), Some(|newContent|))));
      if written.Err? {
        return Err(written.error), after;
      }
    }
    result := PartialResponse(newContent, contentType, start, end);
  }

  /** A range ending at or before the cached length is answered from the
      cache alone: no origin traffic and no cache write. It succeeds exactly
      when `start <= end + 1` and `end < cached_len`; the guard admits
      `end == cached_len`, which then panics. */
  lemma CoveredRangeServedFromCache(range: (U64, U64), cached: CacheEntry, req: Request, key: string,
                                    st: CacheState, script: seq<Attempt>, trace: Trace)
    requires range.1 <= |cached.content|
    ensures var o := RangeSpec(range, cached, req, key, st, script, trace);
      && o.cache == st && o.trace == trace
      && (o.result.Ok? <==> range.0 <= range.1 + 1 && range.1 < |cached.content|)
      && (range.1 == |cached.content| ==> o.result == Err(SlicePanic(range.0, range.1 + 1, |cached.content|)))
  {
  }

  /** Range fidelity: for `a <= b < L` over `L` cached bytes the answer is
      206 with exactly the bytes `a..=b` and `Content-Range: bytes a-b/L`,
      whose total reads back as `L`. */
  lemma RangeFidelity(a: U64, b: U64, cached: CacheEntry, req: Request, key: string,
                      st: CacheState, script: seq<Attempt>, trace: Trace)
    requires a <= b < |cached.content|
    requires |cached.content| < U64_LIMIT  // a `usize` length
    ensures var o := RangeSpec((a, b), cached, req, key, st, script, trace);
      && o.trace == trace
      && o.result.Ok? && o.result.value.status == PARTIAL_CONTENT
      && o.result.value.body.Buffered?
      && |o.result.value.body.bytes| == b - a + 1
      && (forall i :: 0 <= i <= b - a ==> o.result.value.body.bytes[i] == cached.content[a + i])
      && o.cache == st
      && o.result.value.headers == map[CONTENT_TYPE := cached.meta.contentType,
                                       CONTENT_RANGE := ContentRangeValue(a, b, |cached.content|)]
      && ContentRangeTotal(o.result.value.headers[CONTENT_RANGE]) == Some(|cached.content|)
  {
    ContentRangeRoundTrip(a, b, |cached.content|);
  }

  /** Beyond the cached length the origin is asked, with retries, for the
      inbound request's method, URI and headers: a `Range` the client sent is
      forwarded as is, in place of `bytes=cached_len-end`. */
  lemma ExtensionForwardsInboundHeaders(range: (U64, U64), cached: CacheEntry, req: Request, key: string,
                                        st: CacheState, script: seq<Attempt>, trace: Trace)
    requires range.1 > |cached.content|
    ensures var o := RangeSpec(range, cached, req, key, st, script, trace);
      && |o.trace.sent| > |trace.sent|
      && o.trace.sent[..|trace.sent|] == trace.sent
      && (forall i :: |trace.sent| <= i < |o.trace.sent| ==>
            o.trace.sent[i] == Request(req.verb, req.uri, Http11, req.headers))
      && (RANGE in req.headers ==> o.trace.sent[|trace.sent|].headers[RANGE] == req.headers[RANGE])
  {
  }

  /** A 206 from the origin is appended to the cached bytes. Within the size
      limit the merged entry is stored, keeping the content type, with the
      merged length as total and marked complete exactly when `end` is its
      last index (for an empty merge, `len - 1` wraps to `u64::MAX`); the
      answer is the slice of the merged bytes. */
  lemma ExtensionMerges(range: (U64, U64), cached: CacheEntry, req: Request, key: string,
                        st: CacheState, script: seq<Attempt>, trace: Trace)
    requires range.1 > |cached.content|
    requires var f := Fetch(script, |trace.sent|);
      f.result.Ok? && f.result.value.status == PARTIAL_CONTENT && !f.result.value.body.broken
    requires |cached.content + Concat(Fetch(script, |trace.sent|).result.value.body.chunks)| <= MAX_FILE_SIZE
    requires ContentPath(key) !in st.disk.unwritable && MetaPath(key) !in st.disk.unwritable
    ensures var fetched := Concat(Fetch(script, |trace.sent|).result.value.body.chunks);
      var merged := cached.content + fetched;
      var o := RangeSpec(range, cached, req, key, st, script, trace);
      var (found, _) := CacheGet(o.cache, key);
      && merged[..|cached.content|] == cached.content
      && |merged| == |cached.content| + |fetched|
      && found.Some?
      && found.value.content == merged
      && found.value.meta.contentType == cached.meta.contentType
      && found.value.meta.totalSize == Some(|merged|)
      && (|merged| > 0 ==> (found.value.meta.isComplete <==> range.1 + 1 == |merged|))
      && (|merged| == 0 ==> (found.value.meta.isComplete <==> range.1 == U64_LIMIT - 1))
      && o.result == PartialResponse(merged, cached.meta.contentType, range.0, range.1)
  {
    var fetched := Concat(Fetch(script, |trace.sent|).result.value.body.chunks);
    var merged := cached.content + fetched;
    var entry := MergedEntry(cached, merged, range.1);
    var o := RangeSpec(range, cached, req, key, st, script, trace);
    assert o.cache == CacheSet(st, key, entry).1;
    SetThenGet(st, key, entry);
    assert merged[..|cached.content|] == cached.content;
  }

  /** A merge larger than `MAX_FILE_SIZE` is not written back: the cache is
      unchanged, and the answer is still the slice of the merged bytes. */
  lemma OversizedMergeNotCached(range: (U64, U64), cached: CacheEntry, req: Request, key: string,
                                st: CacheState, script: seq<Attempt>, trace: Trace)
    requires range.1 > |cached.content|
    requires var f := Fetch(script, |trace.sent|);
      f.result.Ok? && f.result.value.status == PARTIAL_CONTENT && !f.result.value.body.broken
    requires |cached.content + Concat(Fetch(script, |trace.sent|).result.value.body.chunks)| > MAX_FILE_SIZE
    ensures var merged := cached.content + Concat(Fetch(script, |trace.sent|).result.value.body.chunks);
      var o := RangeSpec(range, cached, req, key, st, script, trace);
      o.cache == st && o.result == PartialResponse(merged, cached.meta.contentType, range.0, range.1)
  {
  }

  /** A failed cache write fails the request, although the memory tier
      already holds the merged entry. */
  lemma ExtensionWriteFailureFails(range: (U64, U64), cached: CacheEntry, req: Request, key: string,
                                   st: CacheState, script: seq<Attempt>, trace: Trace)
    requires range.1 > |cached.content|
    requires var f := Fetch(script, |trace.sent|);
      f.result.Ok? && f.result.value.status == PARTIAL_CONTENT && !f.result.value.body.broken
    requires |cached.content + Concat(Fetch(script, |trace.sent|).result.value.body.chunks)| <= MAX_FILE_SIZE
    requires ContentPath(key) in st.disk.unwritable
    ensures var merged := cached.content + Concat(Fetch(script, |trace.sent|).result.value.body.chunks);
      var o := RangeSpec(range, cached, req, key, st, script, trace);
      && o.result == Err(CacheWriteFailed(ContentPath(key)))
      && CacheGet(o.cache, key).0 == Some(MergedEntry(cached, merged, range.1))
  {
    var merged := cached.content + Concat(Fetch(script, |trace.sent|).result.value.body.chunks);
    SetThenGet(st, key, MergedEntry(cached, merged, range.1));
  }

  /** Any answer other than 206 is handed back unchanged and nothing is cached. */
  lemma NonPartialRelayed(range: (U64, U64), cached: CacheEntry, req: Request, key: string,
                          st: CacheState, script: seq<Attempt>, trace: Trace)
    requires range.1 > |cached.content|
    requires var f := Fetch(script, |trace.sent|); f.result.Ok? && f.result.value.status != PARTIAL_CONTENT
    ensures var o := RangeSpec(range, cached, req, key, st, script, trace);
      o.result == Ok(Relay(Fetch(script, |trace.sent|).result.value)) && o.cache == st
  {
  }

  /** A client range starting past the cached prefix, answered by an origin
      that honours the forwarded range: the merged buffer is too short for
      `end`, so the request ends in a slice panic, after the misaligned merge
      has been cached (within the size limit) with its own length as total. With 500 bytes cached and
      `bytes=600-700` requested, the 101 fetched bytes give 601 bytes, not
      the 701 a `bytes=500-700` fetch would give. */
  lemma ForwardedRangeOverrunsMerge(range: (U64, U64), cached: CacheEntry, req: Request, key: string,
                                    st: CacheState, script: seq<Attempt>, trace: Trace)
    requires |cached.content| < range.0 <= range.1
    requires var f := Fetch(script, |trace.sent|);
      && f.result.Ok? && f.result.value.status == PARTIAL_CONTENT && !f.result.value.body.broken
      && |Concat(f.result.value.body.chunks)| == range.1 - range.0 + 1
    requires ContentPath(key) !in st.disk.unwritable && MetaPath(key) !in st.disk.unwritable
    ensures var merged := |cached.content| + (range.1 - range.0 + 1);
      RangeSpec(range, cached, req, key, st, script, trace).result == Err(SlicePanic(range.0, range.1 + 1, merged))
    ensures var merged := cached.content + Concat(Fetch(script, |trace.sent|).result.value.body.chunks);
      |merged| <= MAX_FILE_SIZE ==>
        CacheGet(RangeSpec(range, cached, req, key, st, script, trace).cache, key).0 == Some(MergedEntry(cached, merged, range.1))
  {
    var merged := cached.content + Concat(Fetch(script, |trace.sent|).result.value.body.chunks);
    if |merged| <= MAX_FILE_SIZE {
      SetThenGet(st, key, MergedEntry(cached, merged, range.1));
    }
  }
}
