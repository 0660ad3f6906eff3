/**
  The request and response values that the server core passes around.

  The parser and the encoder that produce and consume these values live in
  other crates and are not part of this model; only the fields the core
  reads or writes are kept.
 */
module Http {
  import opened Wrappers

  type byte = x: int | 0 <= x < 256

  /** One request header entry: (key, value). */
  type Header = (string, string)

  // Header names and values the core compares against or writes.
  const CONNECTION: string := "Connection"
  const CONNECTION_KEEP_ALIVE: string := "keep-alive"
  const CONNECTION_CLOSE: string := "close"
  const UPGRADE: string := "Upgrade"
  const WEBSOCKET: string := "websocket"
  const SEC_WEBSOCKET_KEY: string := "Sec-WebSocket-Key"
  const SEC_WEB_SOCKET_ACCEPT: string := "Sec-WebSocket-Accept"

  /** The protocol version a request was parsed with. */
  datatype HttpVersion = HTTP0_9 | HTTP1_0 | HTTP1_1 | HTTP2 | HTTP3 | UnknownVersion(name: string)

  predicate IsHttp11OrHigher(v: HttpVersion) {
    v.HTTP1_1? || v.HTTP2? || v.HTTP3?
  }

  /** The upgrade intent the parser attached to a request. */
  datatype UpgradeType = WebSocket | H2c | Tls(name: string) | UnknownUpgrade(name: string)

  /**
    A parsed request. `headers` is the request's header map seen as the
    sequence of its entries in iteration order, because the core scans it
    with `find_map` and `any`; a hash map never holds a key twice, which is
    `UniqueKeys` below.
   */
  datatype Request = Request(
    httpMethod: string,
    host: string,
    path: string,
    querys: map<string, string>,
    headers: seq<Header>,
    body: seq<byte>,
    version: HttpVersion,
    upgradeType: UpgradeType)

  /** A response under construction; its headers are a map from name to value. */
  datatype Response = Response(
    statusCode: nat,
    reasonPhrase: string,
    headers: map<string, string>,
    body: seq<byte>)

  /** Errors of the send family; `TransportError` is whatever the foreign write reports. */
  datatype ResponseError = NotFoundStream | NotSupportUseThisMethod | WebSocketHandShakeError | TransportError(detail: string)

  /** `Result<(), ResponseError>`. */
  datatype ResponseResult = Ok | Err(error: ResponseError)

  ghost predicate UniqueKeys(headers: seq<Header>) {
    forall i, j :: 0 <= i < j < |headers| ==> headers[i].0 != headers[j].0
  }

  /** `char::to_ascii_lowercase`: only 'A'..'Z' change. */
  function AsciiLower(c: char): char {
    if 'A' <= c <= 'Z' then (c as int + 32) as char else c
  }

  /** `str::to_ascii_lowercase`. */
  function ToAsciiLowercase(s: string): (r: string)
    ensures |r| == |s|
    ensures forall i :: 0 <= i < |s| ==> r[i] == AsciiLower(s[i])
    ensures forall i :: 0 <= i < |r| ==> !('A' <= r[i] <= 'Z')
  {
    seq(|s|, i requires 0 <= i < |s| => AsciiLower(s[i]))
  }

  /** A string with no upper-case ASCII letter is its own lowercase form. */
  lemma LowercaseFixedPoint(s: string)
    requires forall i :: 0 <= i < |s| ==> !('A' <= s[i] <= 'Z')
    ensures ToAsciiLowercase(s) == s
  {
    var r := ToAsciiLowercase(s);
    assert forall i :: 0 <= i < |s| ==> r[i] == s[i];
  }

  /**
    The header lookup (`get_header`): the value stored under exactly `key`.
    With unique keys it is the value of the one entry carrying that key.
   */
  function HeaderValue(headers: seq<Header>, key: string): (r: Option<string>)
    ensures r.None? <==> forall i :: 0 <= i < |headers| ==> headers[i].0 != key
    ensures r.Some? ==> exists i :: 0 <= i < |headers| && headers[i] == (key, r.value)
  {
    if headers == [] then None
    else if headers[0].0 == key then Some(headers[0].1)
    else
      var r := HeaderValue(headers[1..], key);
      assert r.Some? ==> exists i :: 0 <= i < |headers[1..]| && headers[1..][i] == (key, r.value);
      assert r.Some? ==> exists i :: 0 < i < |headers| && headers[i] == (key, r.value);
      r
  }

  /** With unique keys, looking an entry's key up yields that entry's value. */
  lemma {:induction false} HeaderValueOfEntry(headers: seq<Header>, i: nat)
    requires UniqueKeys(headers)
    requires i < |headers|
    ensures HeaderValue(headers, headers[i].0) == Some(headers[i].1)
  {
    if i > 0 {
      assert headers[0].0 != headers[i].0;
      assert headers[1..][i - 1] == headers[i];
      HeaderValueOfEntry(headers[1..], i - 1);
    }
  }
}
