/**
  The per-request context: the decisions read from its request (keep-alive,
  WebSocket upgrade, the opening handshake), the send family with its error
  branches, and the string-keyed, type-tagged user-data store.

  The lock around the context and the stream only serialise access; the
  model is single-threaded, so a context is a plain object.
 */
module Context {
  import opened Wrappers
  import opened Http

  // ---------------------------------------------------------------------------
  // Keep-alive (section 6.3 of RFC 7230)
  // ---------------------------------------------------------------------------

  /** The closure handed to `find_map`: what one header entry says about keep-alive, if anything. */
  function ConnectionDirective(header: Header): Option<bool> {
    if header.0 == CONNECTION then
      var lowered := ToAsciiLowercase(header.1);
      if lowered == CONNECTION_KEEP_ALIVE then Some(true)
      else if lowered == CONNECTION_CLOSE then Some(false)
      else None
    else None
  }

  /** `headers.iter().find_map(ConnectionDirective)`: the directive of the first entry that has one. */
  function FindConnectionDirective(headers: seq<Header>): (r: Option<bool>)
    ensures r.None? ==> forall i :: 0 <= i < |headers| ==> ConnectionDirective(headers[i]).None?
    ensures r.Some? ==> exists i :: 0 <= i < |headers| && ConnectionDirective(headers[i]) == r &&
                          forall j :: 0 <= j < i ==> ConnectionDirective(headers[j]).None?
  {
    if headers == [] then None
    else match ConnectionDirective(headers[0])
      case Some(b) => Some(b)
      case None =>
        var r := FindConnectionDirective(headers[1..]);
        assert forall j :: 0 < j < |headers| ==> headers[j] == headers[1..][j - 1];
        r
  }

  /** The value of the `Connection` header, lowercased, if the request has one. */
  function ConnectionLowered(request: Request): Option<string> {
    match HeaderValue(request.headers, CONNECTION)
    case None => None
    case Some(v) => Some(ToAsciiLowercase(v))
  }

  /** `judge_enable_keep_alive`: an explicit `keep-alive` or `close` wins, else the version decides. */
  function JudgeEnableKeepAlive(request: Request): (keepAlive: bool)
    ensures UniqueKeys(request.headers) ==>
      (keepAlive <==> ConnectionLowered(request) == Some(CONNECTION_KEEP_ALIVE) ||
                      (ConnectionLowered(request) != Some(CONNECTION_CLOSE) && IsHttp11OrHigher(request.version)))
  {
    UniqueConnectionDirective(request);
    match FindConnectionDirective(request.headers)
    case Some(keepAlive) => keepAlive
    case None => IsHttp11OrHigher(request.version)
  }

  /** With unique keys, the scan finds exactly what the `Connection` header's lowered value says. */
  lemma DirectiveOfConnectionHeader(request: Request)
    requires UniqueKeys(request.headers)
    ensures FindConnectionDirective(request.headers) ==
      match ConnectionLowered(request)
      case Some(v) => if v == CONNECTION_KEEP_ALIVE then Some(true) else if v == CONNECTION_CLOSE then Some(false) else None
      case None => None
  {
    var h := request.headers;
    var r := FindConnectionDirective(h);
    if r.Some? {
      var i :| 0 <= i < |h| && ConnectionDirective(h[i]) == r;
      HeaderValueOfEntry(h, i);
    } else if HeaderValue(h, CONNECTION).Some? {
      var i :| 0 <= i < |h| && h[i] == (CONNECTION, HeaderValue(h, CONNECTION).value);
      assert ConnectionDirective(h[i]).None?;
    }
  }

  /** The same, for callers that cannot branch on `UniqueKeys`. */
  lemma UniqueConnectionDirective(request: Request)
    ensures UniqueKeys(request.headers) ==>
      (FindConnectionDirective(request.headers) ==
        match ConnectionLowered(request)
        case Some(v) => if v == CONNECTION_KEEP_ALIVE then Some(true) else if v == CONNECTION_CLOSE then Some(false) else None
        case None => None)
  {
    if UniqueKeys(request.headers) {
      DirectiveOfConnectionHeader(request);
    }
  }

  /** A `Connection` header lowercasing to `keep-alive` forces keep-alive, whatever the version. */
  lemma KeepAliveHeaderForcesKeepAlive(request: Request)
    requires UniqueKeys(request.headers)
    requires ConnectionLowered(request) == Some(CONNECTION_KEEP_ALIVE)
    ensures JudgeEnableKeepAlive(request)
  {
    DirectiveOfConnectionHeader(request);
  }

  /** A `Connection` header lowercasing to `close` forbids keep-alive, whatever the version. */
  lemma CloseHeaderForcesClose(request: Request)
    requires UniqueKeys(request.headers)
    requires ConnectionLowered(request) == Some(CONNECTION_CLOSE)
    ensures !JudgeEnableKeepAlive(request)
  {
    DirectiveOfConnectionHeader(request);
  }

  /** Without a `keep-alive`/`close` header the version decides: HTTP/1.1 or higher keeps alive. */
  lemma KeepAliveDefaultsToVersion(request: Request)
    requires UniqueKeys(request.headers)
    requires ConnectionLowered(request) != Some(CONNECTION_KEEP_ALIVE)
    requires ConnectionLowered(request) != Some(CONNECTION_CLOSE)
    ensures JudgeEnableKeepAlive(request) == IsHttp11OrHigher(request.version)
  {
    DirectiveOfConnectionHeader(request);
  }

  /** `judge_unenable_keep_alive`: the connection is to be closed after this exchange. */
  function JudgeUnenableKeepAlive(request: Request): (close: bool)
    ensures UniqueKeys(request.headers) ==>
      (close <==> ConnectionLowered(request) == Some(CONNECTION_CLOSE) ||
                  (ConnectionLowered(request) != Some(CONNECTION_KEEP_ALIVE) && !IsHttp11OrHigher(request.version)))
  {
    !JudgeEnableKeepAlive(request)
  }

  // ---------------------------------------------------------------------------
  // WebSocket upgrade detection
  // ---------------------------------------------------------------------------

  /** The closure handed to `any`: the key is compared exactly, only the value is lowercased. */
  predicate IsWebSocketUpgrade(header: Header) {
    header.0 == UPGRADE && ToAsciiLowercase(header.1) == WEBSOCKET
  }

  function AnyWebSocketUpgrade(headers: seq<Header>): (r: bool)
    ensures r <==> exists i :: 0 <= i < |headers| && IsWebSocketUpgrade(headers[i])
  {
    if headers == [] then false
    else if IsWebSocketUpgrade(headers[0]) then true
    else
      var r := AnyWebSocketUpgrade(headers[1..]);
      assert forall j :: 0 < j < |headers| ==> headers[j] == headers[1..][j - 1];
      r
  }

  /** `judge_enable_websocket`: some header has key exactly `Upgrade` and a value lowercasing to `websocket`. */
  function JudgeEnableWebSocket(request: Request): (enable: bool)
    ensures enable <==> exists i :: 0 <= i < |request.headers| &&
                          request.headers[i].0 == UPGRADE && ToAsciiLowercase(request.headers[i].1) == WEBSOCKET
  {
    AnyWebSocketUpgrade(request.headers)
  }

  /** The header key is not case-folded: `upgrade: websocket` is no upgrade, `Upgrade: WebSocket` is. */
  lemma UpgradeKeyIsCaseSensitive(request: Request)
    ensures JudgeEnableWebSocket(request.(headers := [("upgrade", "websocket")])) == false
    ensures JudgeEnableWebSocket(request.(headers := [("Upgrade", "WebSocket")])) == true
  {
    var lowered := ToAsciiLowercase("WebSocket");
    assert lowered[0] == 'w' && lowered[3] == 's';
    assert lowered == WEBSOCKET;
    assert IsWebSocketUpgrade(("Upgrade", "WebSocket"));
    assert "upgrade"[0] != "Upgrade"[0];
  }

  /** `UpgradeType::is_websocket`: the upgrade tag the parser attached, which is not read from the headers here. */
  predicate IsWebSocketTagged(request: Request) {
    request.upgradeType.WebSocket?
  }

  /**
    The send family's refusal test and the loop's upgrade test are independent:
    a request can carry `Upgrade: websocket` without the WebSocket tag (the send
    family then does not refuse it), and carry the tag without the header
    (the loop then does not treat it as an upgrade).
   */
  lemma TagAndUpgradeHeaderAreIndependent(request: Request)
    ensures var headerOnly := request.(headers := [(UPGRADE, WEBSOCKET)], upgradeType := H2c);
      JudgeEnableWebSocket(headerOnly) && !IsWebSocketTagged(headerOnly)
    ensures var tagOnly := request.(headers := [], upgradeType := WebSocket);
      !JudgeEnableWebSocket(tagOnly) && IsWebSocketTagged(tagOnly)
  {
    LowercaseFixedPoint(WEBSOCKET);
    assert IsWebSocketUpgrade((UPGRADE, WEBSOCKET));
  }

  /** Changing only the headers never changes the refusal test. */
  lemma TagIgnoresHeaders(request: Request, headers: seq<Header>)
    ensures IsWebSocketTagged(request.(headers := headers)) == IsWebSocketTagged(request)
  {
  }

  // ---------------------------------------------------------------------------
  // The opening handshake (section 4.2.2 of RFC 6455)
  // ---------------------------------------------------------------------------

  /** What `handle_websocket` does for a given flag and request. */
  datatype HandshakeAction = AlreadyFinished | MissingKey | Respond(accept: string)

  function PlanHandshake(isHandshake: bool, request: Request, acceptKeyOf: string -> string): HandshakeAction {
    if isHandshake then AlreadyFinished
    else match HeaderValue(request.headers, SEC_WEBSOCKET_KEY)
      case None => MissingKey
      case Some(key) => Respond(acceptKeyOf(key))
  }

  /** The three handshake response headers, inserted in the order the source sets them. */
  function WithUpgradeHeaders(headers: map<string, string>, accept: string): (r: map<string, string>)
    ensures r.Keys == headers.Keys + {UPGRADE, CONNECTION, SEC_WEB_SOCKET_ACCEPT}
    ensures r[UPGRADE] == WEBSOCKET && r[CONNECTION] == UPGRADE && r[SEC_WEB_SOCKET_ACCEPT] == accept
    ensures forall k :: k in headers && k !in {UPGRADE, CONNECTION, SEC_WEB_SOCKET_ACCEPT} ==> r[k] == headers[k]
  {
    headers[UPGRADE := WEBSOCKET][CONNECTION := UPGRADE][SEC_WEB_SOCKET_ACCEPT := accept]
  }

  // ---------------------------------------------------------------------------
  // Transport and context
  // ---------------------------------------------------------------------------

  /** One write-side call made on the transport. */
  datatype WireEvent = ResponseSent(response: Response) | BodySent(body: seq<byte>, websocket: bool) | StreamClosed | StreamFlushed

  /** The connection's transport, shared by every context of the connection; only its write log is kept. */
  class Stream {
    ghost var log: seq<WireEvent>

    constructor ()
      ensures log == []
    {
      log := [];
    }
  }

  type TypeId = nat

  /** A value behind `Arc<dyn Any>`: the identity of its concrete type and the value itself. */
  datatype DynValue = DynValue(typeId: TypeId, payload: seq<int>)

  class Context {
    var stream: Option<Stream>
    var request: Request
    var response: Response
    var data: map<string, DynValue>

    /** A fresh context; `response` is whatever `Response::default()` yields. */
    constructor (stream: Option<Stream>, request: Request, response: Response)
      ensures this.stream == stream && this.request == request && this.response == response
      ensures data == map[]
    {
      this.stream := stream;
      this.request := request;
      this.response := response;
      data := map[];
    }

    /** The objects a send may write to: the stream, if there is one. */
    function Transport(): set<object>
      reads this
    {
      if stream.Some? then {stream.value} else {}
    }

    /** `inner_is_websocket`: the refusal test of the send family. */
    predicate IsWebSocketRequest()
      reads this
    {
      IsWebSocketTagged(request)
    }

    /** `set_response_header`: insert or overwrite one response header. */
    method SetResponseHeader(key: string, value: string)
      modifies this`response
      ensures response == old(response).(headers := old(response.headers)[key := value])
    {
      response := response.(headers := response.headers[key := value]);
    }

    /**
      `inner_send_response`: without a stream, `NotFoundStream`; on a WebSocket
      request when not sending the handshake, `NotSupportUseThisMethod`; both
      before the response is touched. Otherwise body and status are set and
      the response is written; `io` is what the transport reports.
     */
    method InnerSendResponse(statusCode: nat, body: seq<byte>, handleWebSocket: bool, io: ResponseResult) returns (r: ResponseResult)
      modifies this`response, Transport()
      ensures stream.None? ==> r == Err(NotFoundStream) && response == old(response)
      ensures stream.Some? && !handleWebSocket && IsWebSocketRequest() ==>
        r == Err(NotSupportUseThisMethod) && response == old(response) && stream.value.log == old(stream.value.log)
      ensures stream.Some? && (handleWebSocket || !IsWebSocketRequest()) ==>
        && response == old(response).(statusCode := statusCode, body := body)
        && stream.value.log == old(stream.value.log) + [ResponseSent(response)]
        && r == io
    {
      if stream.Some? {
        if !handleWebSocket && IsWebSocketRequest() {
          return Err(NotSupportUseThisMethod);
        }
        response := response.(body := body, statusCode := statusCode);
        stream.value.log := stream.value.log + [ResponseSent(response)];
        return io;
      }
      return Err(NotFoundStream);
    }

    /** `send_response`: the plain-HTTP path, which refuses WebSocket requests. */
    method SendResponse(statusCode: nat, body: seq<byte>, io: ResponseResult) returns (r: ResponseResult)
      modifies this`response, Transport()
      ensures stream.None? ==> r == Err(NotFoundStream) && response == old(response)
      ensures stream.Some? && IsWebSocketRequest() ==>
        r == Err(NotSupportUseThisMethod) && response == old(response) && stream.value.log == old(stream.value.log)
      ensures stream.Some? && !IsWebSocketRequest() ==>
        && response == old(response).(statusCode := statusCode, body := body)
        && stream.value.log == old(stream.value.log) + [ResponseSent(response)]
        && r == io
    {
      r := InnerSendResponse(statusCode, body, false, io);
    }

    /** `send`: sends the response as it stands. */
    method Send(io: ResponseResult) returns (r: ResponseResult)
      modifies this`response, Transport()
      ensures response == old(response)
      ensures stream.None? ==> r == Err(NotFoundStream)
      ensures stream.Some? && IsWebSocketRequest() ==>
        r == Err(NotSupportUseThisMethod) && stream.value.log == old(stream.value.log)
      ensures stream.Some? && !IsWebSocketRequest() ==>
        stream.value.log == old(stream.value.log) + [ResponseSent(response)] && r == io
    {
      r := SendResponse(response.statusCode, response.body, io);
    }

    /** `send_response_once`: refuses WebSocket requests unconditionally; otherwise sends, then closes. */
    method SendResponseOnce(statusCode: nat, body: seq<byte>, io: ResponseResult) returns (r: ResponseResult)
      modifies this`response, Transport()
      ensures stream.None? ==> r == Err(NotFoundStream) && response == old(response)
      ensures stream.Some? && IsWebSocketRequest() ==>
        r == Err(NotSupportUseThisMethod) && response == old(response) && stream.value.log == old(stream.value.log)
      ensures stream.Some? && !IsWebSocketRequest() ==>
        && response == old(response).(statusCode := statusCode, body := body)
        && stream.value.log == old(stream.value.log) + [ResponseSent(response), StreamClosed]
        && r == io
    {
      if stream.Some? {
        if IsWebSocketRequest() {
          return Err(NotSupportUseThisMethod);
        }
        response := response.(body := body, statusCode := statusCode);
        stream.value.log := stream.value.log + [ResponseSent(response)];
        // The close's own result is discarded.
        stream.value.log := stream.value.log + [StreamClosed];
        return io;
      }
      return Err(NotFoundStream);
    }

    /** `send_once`: sends the response as it stands, then closes. */
    method SendOnce(io: ResponseResult) returns (r: ResponseResult)
      modifies this`response, Transport()
      ensures response == old(response)
      ensures stream.None? ==> r == Err(NotFoundStream)
      ensures stream.Some? && IsWebSocketRequest() ==>
        r == Err(NotSupportUseThisMethod) && stream.value.log == old(stream.value.log)
      ensures stream.Some? && !IsWebSocketRequest() ==>
        stream.value.log == old(stream.value.log) + [ResponseSent(response), StreamClosed] && r == io
    {
      r := SendResponseOnce(response.statusCode, response.body, io);
    }

    /** `send_response_body`: sets the body and writes it alone, framed as WebSocket data on a WebSocket request. */
    method SendResponseBody(body: seq<byte>, io: ResponseResult) returns (r: ResponseResult)
      modifies this`response, Transport()
      ensures stream.None? ==> r == Err(NotFoundStream) && response == old(response)
      ensures stream.Some? ==>
        && response == old(response).(body := body)
        && stream.value.log == old(stream.value.log) + [BodySent(body, IsWebSocketRequest())]
        && r == io
    {
      if stream.Some? {
        var isWebSocket := IsWebSocketRequest();
        response := response.(body := body);
        stream.value.log := stream.value.log + [BodySent(body, isWebSocket)];
        return io;
      }
      return Err(NotFoundStream);
    }

    /** `send_body`: writes the current body alone. */
    method SendBody(io: ResponseResult) returns (r: ResponseResult)
      modifies this`response, Transport()
      ensures response == old(response)
      ensures stream.None? ==> r == Err(NotFoundStream)
      ensures stream.Some? ==>
        stream.value.log == old(stream.value.log) + [BodySent(response.body, IsWebSocketRequest())] && r == io
    {
      r := SendResponseBody(response.body, io);
    }

    /** `close`: closes the stream; calling it twice just logs two closes. */
    method Close(io: ResponseResult) returns (r: ResponseResult)
      modifies Transport()
      ensures stream.None? ==> r == Err(NotFoundStream)
      ensures stream.Some? ==> stream.value.log == old(stream.value.log) + [StreamClosed] && r == io
    {
      if stream.Some? {
        stream.value.log := stream.value.log + [StreamClosed];
        return io;
      }
      return Err(NotFoundStream);
    }

    /** `flush`. */
    method Flush(io: ResponseResult) returns (r: ResponseResult)
      modifies Transport()
      ensures stream.None? ==> r == Err(NotFoundStream)
      ensures stream.Some? ==> stream.value.log == old(stream.value.log) + [StreamFlushed] && r == io
    {
      if stream.Some? {
        stream.value.log := stream.value.log + [StreamFlushed];
        return io;
      }
      return Err(NotFoundStream);
    }

    /**
      `handle_websocket`: `isHandshake` is the `&mut bool` flag on entry and
      `finished` its value on return. Idempotent once the flag is set; without
      `Sec-WebSocket-Key` it fails and touches nothing; otherwise it sets the
      three upgrade headers, sends status 101 with an empty body, and sets the
      flag only if that send succeeded.
     */
    method HandleWebSocket(isHandshake: bool, acceptKeyOf: string -> string, io: ResponseResult)
      returns (r: ResponseResult, finished: bool)
      modifies this`response, Transport()
      ensures stream.Some? && !old(PlanHandshake(isHandshake, request, acceptKeyOf)).Respond? ==>
        stream.value.log == old(stream.value.log)
      ensures match PlanHandshake(isHandshake, request, acceptKeyOf)
        case AlreadyFinished => r == Ok && finished && response == old(response)
        case MissingKey => r == Err(WebSocketHandShakeError) && !finished && response == old(response)
        case Respond(accept) =>
          && response.headers == WithUpgradeHeaders(old(response.headers), accept)
          && (stream.None? ==>
                r == Err(NotFoundStream) && !finished &&
                response == old(response).(headers := response.headers))
          && (stream.Some? ==>
                && response == old(response).(headers := response.headers, statusCode := 101, body := [])
                && stream.value.log == old(stream.value.log) + [ResponseSent(response)]
                && r == io
                && finished == io.Ok?)
    {
      if isHandshake {
        return Ok, true;
      }
      var keyOpt := HeaderValue(request.headers, SEC_WEBSOCKET_KEY);
      if keyOpt.Some? {
        var accept := acceptKeyOf(keyOpt.value);
        SetResponseHeader(UPGRADE, WEBSOCKET);
        SetResponseHeader(CONNECTION, UPGRADE);
        SetResponseHeader(SEC_WEB_SOCKET_ACCEPT, accept);
        r := InnerSendResponse(101, [], true, io);
        finished := r.Ok?;
        return;
      }
      return Err(WebSocketHandShakeError), false;
    }

    // -------------------------------------------------------------------------
    // User data
    // -------------------------------------------------------------------------

    /** `get_data_value::<T>`: the value under `key` if its type is `T`, else nothing. */
    function GetDataValue(key: string, ty: TypeId): Option<seq<int>>
      reads this
    {
      if key in data && data[key].typeId == ty then Some(data[key].payload) else None
    }

    /** A key yields a value at one type at most: a stored value is never readable as two types. */
    lemma OneTypePerKey(key: string, t1: TypeId, t2: TypeId)
      requires GetDataValue(key, t1).Some? && GetDataValue(key, t2).Some?
      ensures t1 == t2 && GetDataValue(key, t1) == GetDataValue(key, t2)
    {
    }

    /** `set_data_value`: after it, `key` yields `value` as type `ty` and as no other type. */
    method SetDataValue(key: string, ty: TypeId, value: seq<int>)
      modifies this`data
      ensures data == old(data)[key := DynValue(ty, value)]
      ensures GetDataValue(key, ty) == Some(value)
      ensures forall t :: t != ty ==> GetDataValue(key, t) == None
      ensures forall k, t :: k != key ==> GetDataValue(k, t) == old(GetDataValue(k, t))
    {
      data := data[key := DynValue(ty, value)];
    }

    /** `remove_data_value`: `key` yields nothing afterwards; other keys keep their values. */
    method RemoveDataValue(key: string)
      modifies this`data
      ensures data == old(data) - {key}
      ensures forall t :: GetDataValue(key, t) == None
      ensures forall k, t :: k != key ==> GetDataValue(k, t) == old(GetDataValue(k, t))
    {
      data := data - {key};
    }

    /** `clear_data`: the store is empty. */
    method ClearData()
      modifies this`data
      ensures data == map[]
      ensures forall k, t :: GetDataValue(k, t) == None
    {
      data := map[];
    }
  }
}
