/** src/handler/response.rs: reading a resource's total size from response
    headers, and deciding whether a fetched body is the whole resource. */
module ResponseHandler {
  import opened Wrappers
  import opened Text
  import opened Http
  import opened Utils

  /** The total of a `Content-Range` value: the text after its last `/`
      (`split('/').last()`, so all of it when there is no `/`) as a `u64`. */
  function ContentRangeTotal(value: string): Option<U64> {
    match ToStr(value)
    case None => None
    case Some(s) => ParseU64(Last(Split(s, '/')))
  }

  /** `Content-Length` as a `u64`, when present and readable. */
  function ContentLength(h: Headers): Option<U64> {
    match HeaderStr(h, CONTENT_LENGTH)
    case None => None
    case Some(v) => ParseU64(v)
  }

  /** The header logic of `get_total_size`: the `Content-Range` total when it
      parses, otherwise `Content-Length`, otherwise nothing. */
  function DeclaredTotal(h: Headers): (total: Option<U64>)
    ensures CONTENT_RANGE in h && ContentRangeTotal(h[CONTENT_RANGE]).Some? ==>
      total == ContentRangeTotal(h[CONTENT_RANGE])
    ensures (CONTENT_RANGE !in h || ContentRangeTotal(h[CONTENT_RANGE]).None?) ==>
      total == ContentLength(h)
  {
    if CONTENT_RANGE in h && ContentRangeTotal(h[CONTENT_RANGE]).Some? then ContentRangeTotal(h[CONTENT_RANGE])
    else ContentLength(h)
  }

  /** `Content-Length: n` alone declares a total of `n`. */
  lemma DeclaredTotalFromLength(h: Headers, n: U64)
    requires CONTENT_RANGE !in h && CONTENT_LENGTH in h && h[CONTENT_LENGTH] == Dec(n)
    ensures DeclaredTotal(h) == Some(n)
  {
    var s := Dec(n);
    assert forall i :: 0 <= i < |s| ==> IsDigit(s[i]);
    ParseDec(n);
  }

  /** `check_response_complete`. Where the two header readings agree, a body
      is complete exactly when its length is the declared total or no total is
      declared; a `Content-Range` whose total does not parse makes the body
      incomplete, whatever `Content-Length` says. */
  function CheckResponseComplete(h: Headers, len: nat): (complete: bool)
    ensures complete ==> DeclaredTotal(h).None? || DeclaredTotal(h) == Some(len)
    ensures (CONTENT_RANGE !in h || ContentRangeTotal(h[CONTENT_RANGE]).Some?) ==>
      (complete <==> DeclaredTotal(h).None? || DeclaredTotal(h) == Some(len))
    ensures CONTENT_RANGE in h && ContentRangeTotal(h[CONTENT_RANGE]).None? ==> !complete
  {
    if CONTENT_RANGE in h then
      match ContentRangeTotal(h[CONTENT_RANGE])
      case Some(total) => len == total
      case None => false
    else
      match ContentLength(h)
      case Some(expected) => len == expected
      case None => true
  }

  /** Once `Content-Range` is present, `Content-Length` plays no part in the check. */
  lemma CompleteIgnoresLengthUnderRange(h: Headers, len: nat, v: string)
    requires CONTENT_RANGE in h
    ensures CheckResponseComplete(h[CONTENT_LENGTH := v], len) == CheckResponseComplete(h, len)
  {
    assert h[CONTENT_LENGTH := v][CONTENT_RANGE] == h[CONTENT_RANGE];
  }

  /** With neither header, every body counts as complete and no total is known. */
  lemma CompleteWithoutHeaders(h: Headers, len: nat)
    requires CONTENT_RANGE !in h && CONTENT_LENGTH !in h
    ensures CheckResponseComplete(h, len) && DeclaredTotal(h) == None
  {
  }

  /** A `Content-Range` without `/` is read whole as the total. */
  lemma ContentRangeWithoutSlash(value: string)
    requires ToStr(value) == Some(value) && '/' !in value
    ensures ContentRangeTotal(value) == ParseU64(value)
  {
  }

  /** An unparseable `Content-Range` total such as `*`: the check says
      incomplete while `get_total_size` falls back to `Content-Length`. */
  lemma UnknownRangeTotalDiverges(h: Headers, len: nat)
    requires CONTENT_RANGE in h && ContentRangeTotal(h[CONTENT_RANGE]).None?
    ensures !CheckResponseComplete(h, len)
    ensures DeclaredTotal(h) == ContentLength(h)
  {
  }

  /** The `Content-Range` value the proxy writes: `bytes start-end/total`. */
  function ContentRangeValue(start: nat, end: nat, total: nat): string {
    ("bytes " + (Dec(start) + "-" + Dec(end))) + "/" + Dec(total)
  }

  lemma DigitsAreVisible(s: string)
    requires AllDigits(s)
    ensures ToStr(s) == Some(s) && '/' !in s
  {
    assert forall i :: 0 <= i < |s| ==> IsDigit(s[i]);
  }

  lemma VisibleConcat(a: string, b: string)
    requires ToStr(a) == Some(a) && ToStr(b) == Some(b)
    ensures ToStr(a + b) == Some(a + b)
  {
    assert forall i :: 0 <= i < |a + b| ==> (a + b)[i] == if i < |a| then a[i] else b[i - |a|];
  }

  /** The proxy's own `Content-Range` reads back, through the header logic
      of `get_total_size` and `check_response_complete`, as its total. */
  lemma ContentRangeRoundTrip(start: nat, end: nat, total: U64)
    ensures ContentRangeTotal(ContentRangeValue(start, end, total)) == Some(total)
  {
    var s, e, t := Dec(start), Dec(end), Dec(total);
    DigitsAreVisible(s);
    DigitsAreVisible(e);
    DigitsAreVisible(t);
    var head := "bytes " + (s + "-" + e);
    VisibleConcat(s, "-");
    VisibleConcat(s + "-", e);
    VisibleConcat("bytes ", s + "-" + e);
    assert '/' !in head;
    VisibleConcat(head, "/");
    VisibleConcat(head + "/", t);
    var value := head + "/" + t;
    assert value == ContentRangeValue(start, end, total);
    assert "/" == ['/'];
    SplitAfterField(head, '/', t);
    assert Split(t, '/') == [t];
    ParseDec(total);
  }

  /** `Content-Range: bytes s-e/t` declares `t`, whatever `Content-Length`
      the headers `h` carry, if any. */
  lemma DeclaredTotalPrefersContentRange(h: Headers, start: nat, end: nat, total: U64)
    requires CONTENT_RANGE in h && h[CONTENT_RANGE] == ContentRangeValue(start, end, total)
    ensures DeclaredTotal(h) == Some(total)
  {
    ContentRangeRoundTrip(start, end, total);
  }

  /** A `Content-Range` of `bytes s-e` with `*` as its total declares
      nothing, so `Content-Length: n` decides the total. */
  lemma UnknownTotalFallsBackToLength(h: Headers, start: nat, end: nat, n: U64)
    requires CONTENT_RANGE in h && h[CONTENT_RANGE] == ("bytes " + (Dec(start) + "-" + Dec(end))) + "/*"
    requires CONTENT_LENGTH in h && h[CONTENT_LENGTH] == Dec(n)
    ensures DeclaredTotal(h) == Some(n)
  {
    var s, e := Dec(start), Dec(end);
    DigitsAreVisible(s);
    DigitsAreVisible(e);
    var head := "bytes " + (s + "-" + e);
    assert '/' !in head;
    SplitAfterField(head, '/', "*");
    assert head + "/*" == head + ['/'] + "*";
    assert Split("*", '/') == ["*"];
    assert ParseU64("*").None?;
    DigitsAreVisible(Dec(n));
    ParseDec(n);
  }

  /** A `Content-Length` the origin sends for the body it sends marks the
      body complete. */
  lemma MatchingLengthIsComplete(h: Headers, body: Bytes)
    requires |body| < U64_LIMIT
    requires CONTENT_RANGE !in h && CONTENT_LENGTH in h && h[CONTENT_LENGTH] == Dec(|body|)
    ensures CheckResponseComplete(h, |body|)
  {
    DigitsAreVisible(Dec(|body|));
    ParseDec(|body|);
  }

  /** The request `get_total_size` sends: a HEAD for the same URI, with the
      builder's default version and no headers at all. */
  function HeadProbe(req: Request): Request {
    Request(Head, req.uri, Http11, map[])
  }

  /** `get_total_size`, as a function of the origin script: a fetch of the
      HEAD probe (its failure fails the caller), whose headers give the total
      whatever the probe's status. */
  function ProbeTotalSize(req: Request, script: seq<Attempt>, trace: Trace)
    : (Result<Option<U64>, ProxyError>, Trace)
  {
    var f := Fetch(script, |trace.sent|);
    var t := Record(trace, HeadProbe(req), f);
    match f.result
    case Err(e) => (Err(FetchFailed(e)), t)
    case Ok(resp) => (Ok(DeclaredTotal(resp.headers)), t)
  }

  /** The probe sends nothing but copies of the header-less HEAD request, and
      its total comes from the answered response. */
  lemma ProbeSendsBareHead(req: Request, script: seq<Attempt>, trace: Trace)
    ensures var (r, t) := ProbeTotalSize(req, script, trace);
      var f := Fetch(script, |trace.sent|);
      && t.sent[..|trace.sent|] == trace.sent
      && |t.sent| == |trace.sent| + f.attempts
      && (forall i :: |trace.sent| <= i < |t.sent| ==>
            t.sent[i].verb == Head && t.sent[i].uri == req.uri && t.sent[i].headers == map[])
      && (r.Ok? ==> r.value == DeclaredTotal(OutcomeAt(script, |trace.sent| + f.attempts - 1).response.headers))
  {
  }

  /** `get_total_size`: sends the HEAD probe with retries and reads the total
      from the answer's headers. */
  method GetTotalSize(req: Request, script: seq<Attempt>, trace: Trace)
    returns (r: Result<Option<U64>, ProxyError>, after: Trace)
    ensures (r, after) == ProbeTotalSize(req, script, trace)
  {
    var probe := Request(Head, req.uri, Http11, map[]);
    var fetched, sent, sleeps := FetchWithRetry(probe, script, |trace.sent|);
    after := Trace(trace.sent + sent, trace.sleeps + sleeps);
    match fetched {
      case Err(e) => r := Err(FetchFailed(e));
      case Ok(resp) => r := Ok(DeclaredTotal(resp.headers));
    }
  }
}
