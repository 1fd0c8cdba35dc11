/** src/utils.rs: the `Range` header parser, the cache key, and the bounded
    retry loop every origin request goes through. */
module Utils {
  import opened Wrappers
  import opened Constants
  import opened Text
  import opened Http

  // ---------------------------------------------------------------------
  // parse_range

  const BYTES_PREFIX: string := "bytes="

  /** `parse_range`: strip every leading `bytes=`, split at `-`, and parse the
      first two fields as `u64`. No check that start <= end, and fields after
      the second are ignored. */
  function ParseRange(range: string): Option<(U64, U64)> {
    var fields := Split(TrimStartMatches(range, BYTES_PREFIX), '-');
    match ParseU64(fields[0])
    case None => None
    case Some(start) =>
      if |fields| < 2 then None
      else
        match ParseU64(fields[1])
        case None => None
        case Some(end) => Some((start, end))
  }

  /** A field `parse::<u64>` accepts starts with `+` or a digit, never with `bytes=`. */
  lemma NumberIsNotPrefixed(f: string, rest: string)
    requires ParseU64(f).Some?
    ensures !(BYTES_PREFIX <= f + rest)
  {
    assert (f + rest)[0] == f[0];
  }

  /** The `bytes=` prefix is optional: with or without it the header means the same. */
  lemma ParseRangePrefixOptional(range: string)
    ensures ParseRange(BYTES_PREFIX + range) == ParseRange(range)
  {
    TrimStartMatchesOnce(BYTES_PREFIX, range);
  }

  /** A body that starts with a number is not touched by the prefix trimming. */
  lemma TrimKeepsNumber(f: string, rest: string)
    requires ParseU64(f).Some?
    ensures TrimStartMatches(f + rest, BYTES_PREFIX) == f + rest
  {
    NumberIsNotPrefixed(f, rest);
  }

  /** The first field of `first-tail` is `first`, and the second is the first
      field of `tail`. */
  lemma FieldsOf(first: string, tail: string)
    requires '-' !in first
    ensures var fields := Split(first + "-" + tail, '-');
      |fields| >= 2 && fields[0] == first && fields[1] == Split(tail, '-')[0]
  {
    assert first + "-" + tail == first + ['-'] + tail;
    SplitAfterField(first, '-', tail);
  }

  /** Reading the two fields of a header that has no `bytes=` prefix. */
  lemma ParseUnprefixed(body: string, a: U64, b: U64)
    requires TrimStartMatches(body, BYTES_PREFIX) == body
    requires var fields := Split(body, '-');
      |fields| >= 2 && ParseU64(fields[0]) == Some(a) && ParseU64(fields[1]) == Some(b)
    ensures ParseRange(body) == Some((a, b))
  {
  }

  /** Two fields that parse as `u64`, separated by `-`, give the pair, whatever
      their order. */
  lemma ParseRangeFields(first: string, last: string, a: U64, b: U64)
    requires ParseU64(first) == Some(a) && ParseU64(last) == Some(b)
    requires '-' !in first && '-' !in last
    ensures ParseRange(BYTES_PREFIX + (first + "-" + last)) == Some((a, b))
  {
    var body := first + "-" + last;
    assert body == first + ("-" + last);
    TrimKeepsNumber(first, "-" + last);
    FieldsOf(first, last);
    ParseUnprefixed(body, a, b);
    ParseRangePrefixOptional(body);
  }

  /** Only the first two fields are read: anything after a further `-` is ignored. */
  lemma ParseRangeIgnoresExtraFields(first: string, last: string, more: string, a: U64, b: U64)
    requires ParseU64(first) == Some(a) && ParseU64(last) == Some(b)
    requires '-' !in first && '-' !in last
    ensures ParseRange(BYTES_PREFIX + (first + "-" + (last + "-" + more))) == Some((a, b))
  {
    var tail := last + "-" + more;
    var body := first + "-" + tail;
    assert body == first + ("-" + tail);
    TrimKeepsNumber(first, "-" + tail);
    FieldsOf(first, tail);
    FieldsOf(last, more);
    ParseUnprefixed(body, a, b);
    ParseRangePrefixOptional(body);
  }

  /** The `Range` value the proxy computes for bytes `first` to `last`. */
  function RangeValue(first: nat, last: nat): string {
    BYTES_PREFIX + (Dec(first) + "-" + Dec(last))
  }

  /** Round trip: a `Range` value written by the proxy parses back to its bounds. */
  lemma ParseRangeRoundTrip(a: U64, b: U64)
    ensures ParseRange(RangeValue(a, b)) == Some((a, b))
  {
    ParseDec(a);
    ParseDec(b);
    ParseRangeFields(Dec(a), Dec(b), a, b);
  }

  /** A second field that does not parse makes the whole header unparseable. */
  lemma ParseRangeBadSecondField(first: string, last: string)
    requires ParseU64(first).Some? && ParseU64(last).None?
    requires '-' !in first && '-' !in last
    ensures ParseRange(BYTES_PREFIX + (first + "-" + last)) == None
  {
    var body := first + "-" + last;
    assert body == first + ("-" + last);
    TrimKeepsNumber(first, "-" + last);
    FieldsOf(first, last);
    assert Split(last, '-') == [last];
    assert Split(body, '-')[1] == last;
    ParseRangePrefixOptional(body);
  }

  /** Open-ended `bytes=N-` is rejected: its second field is empty. */
  lemma ParseRangeRejectsOpenEnded(first: string)
    requires ParseU64(first).Some? && '-' !in first
    ensures ParseRange(BYTES_PREFIX + (first + "-")) == None
  {
    ParseRangeBadSecondField(first, []);
    assert first + "-" + [] == first + "-";
  }

  /** A suffix range `bytes=-N` is rejected: its first field is empty. */
  lemma ParseRangeRejectsSuffix(last: string)
    ensures ParseRange(BYTES_PREFIX + ("-" + last)) == None
  {
    var body := "-" + last;
    assert body[0] == '-';
    assert body == [] + "-" + last;
    FieldsOf([], last);
    ParseRangePrefixOptional(body);
  }

  /** Without any `-` there is no second field. */
  lemma ParseRangeNeedsDash(range: string)
    requires '-' !in TrimStartMatches(range, BYTES_PREFIX)
    ensures ParseRange(range) == None
  {
  }

  /** A field without `-` that does not itself begin with `bytes=` keeps a
      header that starts with it clear of the prefix trimming. */
  lemma FieldIsNotPrefixed(first: string, rest: string)
    requires '-' !in first && !(BYTES_PREFIX <= first)
    ensures TrimStartMatches(first + "-" + rest, BYTES_PREFIX) == first + "-" + rest
  {
    var body := first + "-" + rest;
    if |first| >= |BYTES_PREFIX| {
      assert forall i :: 0 <= i < |BYTES_PREFIX| ==> body[i] == first[i];
    } else {
      assert body[|first|] == '-';
    }
  }

  /** A first field that is not a `u64` makes the whole header unparseable,
      whatever follows it. */
  lemma ParseRangeBadFirstField(first: string, last: string)
    requires ParseU64(first).None?
    requires '-' !in first && !(BYTES_PREFIX <= first)
    ensures ParseRange(BYTES_PREFIX + (first + "-" + last)) == None
  {
    var body := first + "-" + last;
    FieldIsNotPrefixed(first, last);
    FieldsOf(first, last);
    ParseRangePrefixOptional(body);
  }

  /** Decimal digits contain no `-` and do not begin with `bytes=`. */
  lemma DecIsField(n: nat)
    ensures '-' !in Dec(n) && !(BYTES_PREFIX <= Dec(n))
  {
    var s := Dec(n);
    assert IsDigit(s[0]);
    assert forall i :: 0 <= i < |s| ==> IsDigit(s[i]);
  }

  /** A bound of 2^64 or more, first or second, does not fit a `u64` and is
      rejected. */
  lemma ParseRangeRejectsOverflow(a: nat, b: nat)
    requires a >= U64_LIMIT || b >= U64_LIMIT
    ensures ParseRange(RangeValue(a, b)) == None
  {
    DecIsField(a);
    DecIsField(b);
    if a >= U64_LIMIT {
      ParseDecOverflow(a);
      ParseRangeBadFirstField(Dec(a), Dec(b));
    } else {
      ParseDec(a);
      ParseDecOverflow(b);
      ParseRangeBadSecondField(Dec(a), Dec(b));
    }
  }

  // ---------------------------------------------------------------------
  // generate_cache_key

  /** A SHA-256 digest: 32 bytes. */
  type Digest = d: seq<bv8> | |d| == 32 witness seq(32, _ => 0 as bv8)

  /** SHA-256 itself is not modelled: it is any deterministic function from
      the URI's text to 32 bytes. */
  type Sha256 = string -> Digest

  predicate IsLowerHex(c: char) {
    '0' <= c <= '9' || 'a' <= c <= 'f'
  }

  function HexChar(n: nat): (c: char)
    requires n < 16
    ensures IsLowerHex(c)
  {
    if n < 10 then ('0' as int + n) as char else ('a' as int + n - 10) as char
  }

  function HexValue(c: char): (v: nat)
    requires IsLowerHex(c)
    ensures v < 16
  {
    if c <= '9' then c as int - '0' as int else c as int - 'a' as int + 10
  }

  /** The two lower-case hex digits of one byte, high nibble first. */
  function ByteHex(b: bv8): (pair: string)
    ensures |pair| == 2 && IsLowerHex(pair[0]) && IsLowerHex(pair[1])
  {
    [HexChar(b as int / 16), HexChar(b as int % 16)]
  }

  /** The byte two hex digits stand for. */
  function PairByte(hi: char, lo: char): bv8
    requires IsLowerHex(hi) && IsLowerHex(lo)
  {
    (HexValue(hi) * 16 + HexValue(lo)) as bv8
  }

  /** `hex::encode`: two lower-case hex digits per byte, high nibble first. */
  function HexEncode(bytes: seq<bv8>): (s: string)
    ensures |s| == 2 * |bytes|
    ensures forall i :: 0 <= i < |s| ==> IsLowerHex(s[i])
  {
    if bytes == [] then []
    else ByteHex(bytes[0]) + HexEncode(bytes[1..])
  }

  function HexDecode(s: string): seq<bv8>
    requires |s| % 2 == 0
    requires forall i :: 0 <= i < |s| ==> IsLowerHex(s[i])
  {
    if s == [] then []
    else [PairByte(s[0], s[1])] + HexDecode(s[2..])
  }

  lemma HexDigitRoundTrip(n: nat)
    requires n < 16
    ensures HexValue(HexChar(n)) == n
  {
  }

  lemma NibbleRoundTrip(n: nat)
    requires n < 256
    ensures HexValue(HexChar(n / 16)) * 16 + HexValue(HexChar(n % 16)) == n
  {
    HexDigitRoundTrip(n / 16);
    HexDigitRoundTrip(n % 16);
  }

  lemma HexByteRoundTrip(b: bv8)
    ensures PairByte(ByteHex(b)[0], ByteHex(b)[1]) == b
  {
    NibbleRoundTrip(b as int);
  }

  lemma HexDecodeCons(pair: string, rest: string)
    requires |pair| == 2 && IsLowerHex(pair[0]) && IsLowerHex(pair[1])
    requires |rest| % 2 == 0 && forall i :: 0 <= i < |rest| ==> IsLowerHex(rest[i])
    ensures HexDecode(pair + rest) == [PairByte(pair[0], pair[1])] + HexDecode(rest)
  {
    assert (pair + rest)[2..] == rest;
  }

  /** Hex encoding loses nothing. */
  lemma {:induction false} HexRoundTrip(bytes: seq<bv8>)
    ensures HexDecode(HexEncode(bytes)) == bytes
  {
    if bytes != [] {
      var pair, rest := ByteHex(bytes[0]), HexEncode(bytes[1..]);
      HexDecodeCons(pair, rest);
      HexByteRoundTrip(bytes[0]);
      HexRoundTrip(bytes[1..]);
      assert [bytes[0]] + bytes[1..] == bytes;
    }
  }

  /** `generate_cache_key`: the hex encoding of the SHA-256 of the URI's text. */
  function GenerateCacheKey(uri: string, sha: Sha256): (key: string)
    ensures |key| == 64
    ensures forall i :: 0 <= i < |key| ==> IsLowerHex(key[i])
  {
    HexEncode(sha(uri))
  }

  /** Two URIs share a key only if SHA-256 maps them to the same digest. */
  lemma CacheKeyInjective(u1: string, u2: string, sha: Sha256)
    requires GenerateCacheKey(u1, sha) == GenerateCacheKey(u2, sha)
    ensures sha(u1) == sha(u2)
  {
    HexRoundTrip(sha(u1));
    HexRoundTrip(sha(u2));
  }

  // ---------------------------------------------------------------------
  // fetch_with_retry

  /** The origin, seen from one client request: the outcome of each attempt in
      the order the attempts are made. Past the end of the script the origin
      stays silent, so an attempt times out. */
  function OutcomeAt(script: seq<Attempt>, i: nat): Attempt {
    if i < |script| then script[i] else TimedOut
  }

  function FailureOf(a: Attempt): FetchError
    requires !a.Answered?
  {
    match a
    case TransportError(reason) => Transport(reason)
    case TimedOut => Timeout
  }

  datatype Fetched = Fetched(result: Result<OriginResponse, FetchError>, attempts: nat, sleeps: nat)

  /** The retry loop from the attempt numbered `retries` on, the first attempt
      being the script's entry `from`. */
  function FetchFrom(script: seq<Attempt>, from: nat, retries: nat): (f: Fetched)
    requires retries <= MAX_RETRIES
    ensures retries < f.attempts <= MAX_RETRIES + 1
    ensures f.sleeps == f.attempts - 1
    ensures forall j :: from + retries <= j < from + f.attempts - 1 ==> !OutcomeAt(script, j).Answered?
    ensures f.result.Ok? <==> OutcomeAt(script, from + f.attempts - 1).Answered?
    ensures f.result.Ok? ==> f.result.value == OutcomeAt(script, from + f.attempts - 1).response
    ensures f.result.Err? ==>
      f.attempts == MAX_RETRIES + 1 && f.result.error == FailureOf(OutcomeAt(script, from + MAX_RETRIES))
    decreases MAX_RETRIES - retries
  {
    match OutcomeAt(script, from + retries)
    case Answered(response) => Fetched(Ok(response), retries + 1, retries)
    case TransportError(reason) =>
      if retries >= MAX_RETRIES then Fetched(Err(Transport(reason)), retries + 1, retries)
      else FetchFrom(script, from, retries + 1)
    case TimedOut =>
      if retries >= MAX_RETRIES then Fetched(Err(Timeout), retries + 1, retries)
      else FetchFrom(script, from, retries + 1)
  }

  /** What `fetch_with_retry` yields when its first attempt is the script's entry `from`. */
  function Fetch(script: seq<Attempt>, from: nat): Fetched {
    FetchFrom(script, from, 0)
  }

  /** The first answered attempt within the budget is the result, whatever its status. */
  lemma {:induction false} FirstAnswerWins(script: seq<Attempt>, from: nat, k: nat)
    requires k <= MAX_RETRIES && OutcomeAt(script, from + k).Answered?
    requires forall j :: from <= j < from + k ==> !OutcomeAt(script, j).Answered?
    ensures Fetch(script, from) == Fetched(Ok(OutcomeAt(script, from + k).response), k + 1, k)
  {
  }

  /** What the proxy sent to the origin during one client request, and how
      many times it paused between attempts. */
  datatype Trace = Trace(sent: seq<Request>, sleeps: nat)

  function Repeat(req: Request, n: nat): seq<Request> {
    seq(n, _ => req)
  }

  /** The trace after a fetch of `req`: one copy of `req` per attempt. */
  function Record(t: Trace, req: Request, f: Fetched): Trace {
    Trace(t.sent + Repeat(req, f.attempts), t.sleeps + f.sleeps)
  }

  /** `fetch_with_retry`: each pass rebuilds the request from the method, URI,
      version and headers of `req` (with an empty body) and sends it; a
      response of any status ends the loop, a transport error or a timeout is
      retried after a pause until MAX_RETRIES retries have been made. */
  method FetchWithRetry(req: Request, script: seq<Attempt>, from: nat)
    returns (r: Result<OriginResponse, FetchError>, sent: seq<Request>, sleeps: nat)
    ensures r == Fetch(script, from).result
    ensures sent == Repeat(req, Fetch(script, from).attempts)
    ensures sleeps == Fetch(script, from).sleeps
  {
    var retries: nat := 0;
    sent, sleeps := [], 0;
    while true
      invariant retries <= MAX_RETRIES
      invariant sent == Repeat(req, retries) && sleeps == retries
      invariant FetchFrom(script, from, retries) == Fetch(script, from)
      decreases MAX_RETRIES - retries
    {
      var rebuilt := Request(req.verb, req.uri, req.version, req.headers);
      sent := sent + [rebuilt];
      match OutcomeAt(script, from + retries) {
        case Answered(response) =>
          r := Ok(response);
          return;
        case TransportError(reason) =>
          if retries >= MAX_RETRIES {
            r := Err(Transport(reason));
            return;
          }
        case TimedOut =>
          if retries >= MAX_RETRIES {
            r := Err(Timeout);
            return;
          }
      }
      retries := retries + 1;
      sleeps := sleeps + 1;
    }
  }
}
