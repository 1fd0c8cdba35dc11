/** The HTTP vocabulary the proxy works with, in place of hyper's types:
    requests without bodies (the proxy never forwards one), origin responses
    whose bodies arrive as a stream of chunks, attempt outcomes, and the
    responses and errors the proxy hands back. */
module Http {
  import opened Wrappers

  type Bytes = seq<bv8>

  /** Header names are lower case, as hyper normalises them; one value per name. */
  type Headers = map<string, string>

  const RANGE: string := "range"
  const CONTENT_RANGE: string := "content-range"
  const CONTENT_LENGTH: string := "content-length"
  const CONTENT_TYPE: string := "content-type"

  const OK: nat := 200
  const PARTIAL_CONTENT: nat := 206

  /** `StatusCode::is_success` */
  predicate IsSuccess(status: nat) {
    200 <= status <= 299
  }

  datatype Method = Get | Head | OtherMethod(name: string)

  datatype Version = Http09 | Http10 | Http11 | Http2 | Http3

  /** A request as it goes out to the origin: verb (method), URI, version, headers. */
  datatype Request = Request(verb: Method, uri: string, version: Version, headers: Headers)

  /** A body stream: the chunks in the order they arrive; when `broken`, the
      stream yields an error after the last of them. */
  datatype Stream = Stream(chunks: seq<Bytes>, broken: bool)

  datatype OriginResponse = OriginResponse(status: nat, headers: Headers, body: Stream)

  /** The outcome of one attempt to send a request: a response (whatever its
      status), a transport error, or no answer within the timeout. */
  datatype Attempt = Answered(response: OriginResponse) | TransportError(reason: string) | TimedOut

  datatype FetchError = Transport(reason: string) | Timeout

  /** Why a request fails as a whole. `SlicePanic` is a panic of an
      out-of-bounds slice, which aborts the request. */
  datatype ProxyError =
    | FetchFailed(cause: FetchError)
    | StreamFailed
    | CacheWriteFailed(path: string)
    | SlicePanic(start: nat, stop: nat, len: nat)

  /** A response body: either bytes the proxy holds, or an origin stream relayed as is. */
  datatype Body = Buffered(bytes: Bytes) | Relayed(stream: Stream)

  datatype ProxyResponse = ProxyResponse(status: nat, headers: Headers, body: Body)

  /** `HeaderValue::to_str`: succeeds when every character is visible ASCII or a tab. */
  function ToStr(v: string): Option<string> {
    if forall i :: 0 <= i < |v| ==> v[i] == '\t' || ' ' <= v[i] <= '~' then Some(v) else None
  }

  /** `headers.get(name).and_then(|v| v.to_str().ok())` */
  function HeaderStr(h: Headers, name: string): Option<string> {
    if name in h then ToStr(h[name]) else None
  }

  /** All the bytes of a sequence of chunks, in order. */
  function Concat(chunks: seq<Bytes>): Bytes {
    if chunks == [] then [] else Concat(chunks[..|chunks| - 1]) + chunks[|chunks| - 1]
  }
}
