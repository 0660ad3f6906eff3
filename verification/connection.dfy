/**
  The per-connection loop of `listen` (src/server/impl.rs, the `handle_request`
  closure), as a pure state machine over the outcomes of the reads it makes.

  State: the mode (`None` until the first request decides it), whether the
  WebSocket handshake has finished, and the retained request. Each read
  outcome yields one step; a step either continues with a new state or
  closes the connection and ends the task. The events record what the loop
  invokes, in order.
 */
module Connection {
  import opened Wrappers
  import opened Http
  import opened Context

  /** Identity of a registered handler or middleware closure. */
  type HandlerId = nat

  /** One read from the transport: an HTTP request (or, once upgraded, a WebSocket frame), or a failure. */
  datatype ReadOutcome = Read(request: Request) | ReadFailed

  datatype Event =
    | HandshakeSent(accept: string)                // the 101 response of the opening handshake was written
    | Dispatched(request: Request)                 // a logical request enters the middleware pipeline
    | RequestMiddlewareCalled(handler: HandlerId)
    | RouteHandlerCalled(path: string, handler: HandlerId)
    | ResponseMiddlewareCalled(handler: HandlerId)
    | ConnectionClosed

  /** What the server registered: exact routes and the two middleware lists. */
  datatype Pipeline = Pipeline(
    routes: map<string, HandlerId>,
    requestMiddleware: seq<HandlerId>,
    responseMiddleware: seq<HandlerId>)

  /**
    What the loop cannot see: `Request::default()`, the accept-key function
    of section 4.2.2 of RFC 6455, and whether the transport accepted the
    handshake response.
   */
  datatype Env = Env(defaultRequest: Request, acceptKeyOf: string -> string, handshakeSent: bool)

  datatype LoopState = LoopState(websocket: Option<bool>, handshakeFinished: bool, history: Request)

  datatype StepResult = Continue(events: seq<Event>, next: LoopState) | Stop(events: seq<Event>)

  datatype ConnectionRun = ConnectionRun(trace: seq<Event>, closed: bool)

  function Initial(defaultRequest: Request): LoopState {
    LoopState(None, false, defaultRequest)
  }

  function RequestMiddlewareEvents(middleware: seq<HandlerId>): seq<Event> {
    seq(|middleware|, i requires 0 <= i < |middleware| => RequestMiddlewareCalled(middleware[i]))
  }

  function ResponseMiddlewareEvents(middleware: seq<HandlerId>): seq<Event> {
    seq(|middleware|, i requires 0 <= i < |middleware| => ResponseMiddlewareCalled(middleware[i]))
  }

  /** Running `a` then `b` calls the middleware of `a` and then those of `b`. */
  lemma RequestMiddlewareEventsAppend(a: seq<HandlerId>, b: seq<HandlerId>)
    ensures RequestMiddlewareEvents(a + b) == RequestMiddlewareEvents(a) + RequestMiddlewareEvents(b)
  {
    var lhs := RequestMiddlewareEvents(a + b);
    var rhs := RequestMiddlewareEvents(a) + RequestMiddlewareEvents(b);
    forall i | 0 <= i < |lhs|
      ensures lhs[i] == rhs[i]
    {
      if i < |a| { assert (a + b)[i] == a[i]; } else { assert (a + b)[i] == b[i - |a|]; }
    }
  }

  lemma ResponseMiddlewareEventsAppend(a: seq<HandlerId>, b: seq<HandlerId>)
    ensures ResponseMiddlewareEvents(a + b) == ResponseMiddlewareEvents(a) + ResponseMiddlewareEvents(b)
  {
    var lhs := ResponseMiddlewareEvents(a + b);
    var rhs := ResponseMiddlewareEvents(a) + ResponseMiddlewareEvents(b);
    forall i | 0 <= i < |lhs|
      ensures lhs[i] == rhs[i]
    {
      if i < |a| { assert (a + b)[i] == a[i]; } else { assert (a + b)[i] == b[i - |a|]; }
    }
  }

  /** The handler looked up by exact path, if any. */
  function HandlerEvents(p: Pipeline, path: string): seq<Event> {
    if path in p.routes then [RouteHandlerCalled(path, p.routes[path])] else []
  }

  /** One pass through the pipeline for logical request `q`. */
  function ExchangeEvents(p: Pipeline, q: Request): seq<Event> {
    [Dispatched(q)] + RequestMiddlewareEvents(p.requestMiddleware) + HandlerEvents(p, q.path)
      + ResponseMiddlewareEvents(p.responseMiddleware)
  }

  /** The request a read yields: the parsed one, or `Request::default()` after a failure. */
  function Incoming(read: ReadOutcome, defaultRequest: Request): Request {
    if read.Read? then read.request else defaultRequest
  }

  /** The logical request of a step: once the handshake is done, the retained request with only its body replaced. */
  function LogicalRequest(st: LoopState, read: ReadOutcome, defaultRequest: Request): Request {
    var incoming := Incoming(read, defaultRequest);
    if st.handshakeFinished then st.history.(body := incoming.body) else incoming
  }

  /** One iteration of the loop. */
  function Step(p: Pipeline, e: Env, st: LoopState, read: ReadOutcome): StepResult
  {
    if read.ReadFailed? && st.websocket.None? then Stop([ConnectionClosed])
    else
      var q := LogicalRequest(st, read, e.defaultRequest);
      var websocket := if st.websocket.Some? then st.websocket.value else JudgeEnableWebSocket(q);
      if websocket then
        match PlanHandshake(st.handshakeFinished, q, e.acceptKeyOf)
        case AlreadyFinished => Continue(ExchangeEvents(p, q), LoopState(Some(true), true, q))
        case MissingKey => Stop([ConnectionClosed])
        case Respond(accept) =>
          if e.handshakeSent then Continue([HandshakeSent(accept)] + ExchangeEvents(p, q), LoopState(Some(true), true, q))
          else Stop([HandshakeSent(accept), ConnectionClosed])
      else if JudgeUnenableKeepAlive(q) then Stop(ExchangeEvents(p, q) + [ConnectionClosed])
      else Continue(ExchangeEvents(p, q), LoopState(Some(false), st.handshakeFinished, q))
  }

  /**
    What every iteration guarantees: a stop always ends with the close and
    has no earlier one, a continuation never closes, once decided the mode
    never changes, and a WebSocket-mode continuation has finished the
    handshake.
   */
  lemma StepShape(p: Pipeline, e: Env, st: LoopState, read: ReadOutcome)
    ensures var r := Step(p, e, st, read);
      && (r.Stop? ==> r.events != [] && r.events[|r.events| - 1] == ConnectionClosed
                      && ConnectionClosed !in r.events[..|r.events| - 1])
      && (r.Continue? ==> ConnectionClosed !in r.events && r.next.websocket.Some?)
      && (r.Continue? && st.websocket.Some? ==> r.next.websocket == st.websocket)
      && (r.Continue? && r.next.websocket == Some(true) ==> r.next.handshakeFinished)
  {
    if !(read.ReadFailed? && st.websocket.None?) {
      var q := LogicalRequest(st, read, e.defaultRequest);
      var websocket := if st.websocket.Some? then st.websocket.value else JudgeEnableWebSocket(q);
      if websocket {
        match PlanHandshake(st.handshakeFinished, q, e.acceptKeyOf)
        case AlreadyFinished =>
          assert Step(p, e, st, read) == Continue(ExchangeEvents(p, q), LoopState(Some(true), true, q));
        case MissingKey =>
          assert Step(p, e, st, read) == Stop([ConnectionClosed]);
        case Respond(accept) =>
          var events := [HandshakeSent(accept)] + ExchangeEvents(p, q);
          assert ConnectionClosed !in ExchangeEvents(p, q);
          if e.handshakeSent {
            assert Step(p, e, st, read) == Continue(events, LoopState(Some(true), true, q));
          } else {
            assert Step(p, e, st, read) == Stop([HandshakeSent(accept), ConnectionClosed]);
          }
      } else if JudgeUnenableKeepAlive(q) {
        var events := ExchangeEvents(p, q) + [ConnectionClosed];
        assert Step(p, e, st, read) == Stop(events);
        assert events[..|events| - 1] == ExchangeEvents(p, q);
      } else {
        assert Step(p, e, st, read) == Continue(ExchangeEvents(p, q), LoopState(Some(false), st.handshakeFinished, q));
      }
    }
  }

  function Prepend(events: seq<Event>, run: ConnectionRun): ConnectionRun {
    ConnectionRun(events + run.trace, run.closed)
  }

  /** The loop run over a finite sequence of read outcomes; `closed` is false if the reads ran out first. */
  function Run(p: Pipeline, e: Env, st: LoopState, outcomes: seq<ReadOutcome>): (r: ConnectionRun)
    ensures r.closed ==> outcomes != [] && r.trace != [] && r.trace[|r.trace| - 1] == ConnectionClosed
    decreases |outcomes|
  {
    if outcomes == [] then ConnectionRun([], false)
    else
      StepShape(p, e, st, outcomes[0]);
      match Step(p, e, st, outcomes[0])
      case Stop(events) => ConnectionRun(events, true)
      case Continue(events, next) => Prepend(events, Run(p, e, next, outcomes[1..]))
  }

  // ---------------------------------------------------------------------------
  // Reference definitions of the two modes
  // ---------------------------------------------------------------------------

  /** Keep-alive HTTP: one exchange per request, ending after the first request judged not keep-alive. */
  function HttpTrace(p: Pipeline, defaultRequest: Request, outcomes: seq<ReadOutcome>): ConnectionRun
    decreases |outcomes|
  {
    if outcomes == [] then ConnectionRun([], false)
    else
      var q := Incoming(outcomes[0], defaultRequest);
      if JudgeUnenableKeepAlive(q) then ConnectionRun(ExchangeEvents(p, q) + [ConnectionClosed], true)
      else Prepend(ExchangeEvents(p, q), HttpTrace(p, defaultRequest, outcomes[1..]))
  }

  /** Upgraded WebSocket: one exchange per frame, each on `template` with the frame's body; it never closes. */
  function FrameTrace(p: Pipeline, template: Request, defaultRequest: Request, outcomes: seq<ReadOutcome>): seq<Event>
    decreases |outcomes|
  {
    if outcomes == [] then []
    else
      var q := template.(body := Incoming(outcomes[0], defaultRequest).body);
      ExchangeEvents(p, q) + FrameTrace(p, template, defaultRequest, outcomes[1..])
  }

  // ---------------------------------------------------------------------------
  // Properties
  // ---------------------------------------------------------------------------

  /** Within one exchange: every request middleware in order, then at most one handler, then every response middleware in order. */
  lemma ExchangeOrder(p: Pipeline, q: Request)
    ensures var events := ExchangeEvents(p, q);
      var n := |p.requestMiddleware|;
      var h := if q.path in p.routes then 1 else 0;
      && |events| == 1 + n + h + |p.responseMiddleware|
      && events[0] == Dispatched(q)
      && (forall i :: 0 <= i < n ==> events[1 + i] == RequestMiddlewareCalled(p.requestMiddleware[i]))
      && (q.path in p.routes ==> events[1 + n] == RouteHandlerCalled(q.path, p.routes[q.path]))
      && (forall i :: 0 <= i < |p.responseMiddleware| ==>
            events[1 + n + h + i] == ResponseMiddlewareCalled(p.responseMiddleware[i]))
  {
    var before := [Dispatched(q)] + RequestMiddlewareEvents(p.requestMiddleware);
    var handler := HandlerEvents(p, q.path);
    var after := ResponseMiddlewareEvents(p.responseMiddleware);
    assert ExchangeEvents(p, q) == before + handler + after;
    assert forall i :: 0 <= i < |p.requestMiddleware| ==> before[1 + i] == RequestMiddlewareCalled(p.requestMiddleware[i]);
  }

  /** Lookup is exact: a handler runs iff the path is registered as is; a miss still runs both middleware lists. */
  lemma HandlerIffExactPath(p: Pipeline, q: Request, path: string, handler: HandlerId)
    ensures RouteHandlerCalled(path, handler) in ExchangeEvents(p, q) <==>
              path == q.path && path in p.routes && p.routes[path] == handler
    ensures q.path !in p.routes ==>
              |ExchangeEvents(p, q)| == 1 + |p.requestMiddleware| + |p.responseMiddleware|
  {
    var before := [Dispatched(q)] + RequestMiddlewareEvents(p.requestMiddleware);
    var found := HandlerEvents(p, q.path);
    var after := ResponseMiddlewareEvents(p.responseMiddleware);
    var call := RouteHandlerCalled(path, handler);
    assert ExchangeEvents(p, q) == before + found + after;
    assert call !in before by {
      assert forall i :: 0 < i < |before| ==> before[i].RequestMiddlewareCalled?;
    }
    assert call !in after;
    assert call in ExchangeEvents(p, q) <==> call in found;
  }

  /** If the first read fails, the connection is closed and nothing else happens. */
  lemma FirstReadFailureCloses(p: Pipeline, e: Env, outcomes: seq<ReadOutcome>)
    requires outcomes != [] && outcomes[0].ReadFailed?
    ensures Run(p, e, Initial(e.defaultRequest), outcomes) == ConnectionRun([ConnectionClosed], true)
  {
  }

  /** A close is always the last event, and the run reports closed iff it ends with one. */
  lemma {:induction false} CloseIsLast(p: Pipeline, e: Env, st: LoopState, outcomes: seq<ReadOutcome>)
    ensures var run := Run(p, e, st, outcomes);
      && (run.closed <==> run.trace != [] && run.trace[|run.trace| - 1] == ConnectionClosed)
      && ConnectionClosed !in (if run.closed then run.trace[..|run.trace| - 1] else run.trace)
    decreases |outcomes|
  {
    if outcomes != [] {
      StepShape(p, e, st, outcomes[0]);
      match Step(p, e, st, outcomes[0])
      case Stop(events) =>
      case Continue(events, next) =>
        CloseIsLast(p, e, next, outcomes[1..]);
        var rest := Run(p, e, next, outcomes[1..]);
        if rest.closed {
          assert (events + rest.trace)[..|events + rest.trace| - 1] == events + rest.trace[..|rest.trace| - 1];
        }
    }
  }

  /** Once in HTTP mode the loop is the keep-alive loop: the mode never changes and no handshake is ever sent. */
  lemma {:induction false} HttpModeIsKeepAliveLoop(p: Pipeline, e: Env, history: Request, outcomes: seq<ReadOutcome>)
    ensures Run(p, e, LoopState(Some(false), false, history), outcomes) == HttpTrace(p, e.defaultRequest, outcomes)
    decreases |outcomes|
  {
    if outcomes != [] {
      var q := Incoming(outcomes[0], e.defaultRequest);
      assert LogicalRequest(LoopState(Some(false), false, history), outcomes[0], e.defaultRequest) == q;
      if !JudgeUnenableKeepAlive(q) {
        HttpModeIsKeepAliveLoop(p, e, q, outcomes[1..]);
      }
    }
  }

  /**
    Once the handshake has finished the loop never closes, and the k-th frame's
    logical request is the retained request with only its body replaced by that
    frame's body (the default request's body after a failed read).
   */
  lemma {:induction false} WebSocketModeIsFrameLoop(p: Pipeline, e: Env, history: Request, outcomes: seq<ReadOutcome>)
    ensures Run(p, e, LoopState(Some(true), true, history), outcomes) ==
              ConnectionRun(FrameTrace(p, history, e.defaultRequest, outcomes), false)
    decreases |outcomes|
  {
    if outcomes != [] {
      var q := history.(body := Incoming(outcomes[0], e.defaultRequest).body);
      assert Step(p, e, LoopState(Some(true), true, history), outcomes[0]) ==
               Continue(ExchangeEvents(p, q), LoopState(Some(true), true, q));
      WebSocketModeIsFrameLoop(p, e, q, outcomes[1..]);
      assert FrameTrace(p, q, e.defaultRequest, outcomes[1..]) == FrameTrace(p, history, e.defaultRequest, outcomes[1..]) by {
        FrameTraceIgnoresTemplateBody(p, q, history, e.defaultRequest, outcomes[1..]);
      }
    }
  }

  lemma {:induction false} FrameTraceIgnoresTemplateBody(p: Pipeline, t1: Request, t2: Request, defaultRequest: Request, outcomes: seq<ReadOutcome>)
    requires t1.(body := []) == t2.(body := [])
    ensures FrameTrace(p, t1, defaultRequest, outcomes) == FrameTrace(p, t2, defaultRequest, outcomes)
    decreases |outcomes|
  {
    if outcomes != [] {
      var b := Incoming(outcomes[0], defaultRequest).body;
      assert t1.(body := b) == t2.(body := b);
      FrameTraceIgnoresTemplateBody(p, t1, t2, defaultRequest, outcomes[1..]);
    }
  }

  /** A first request that is not an upgrade decides HTTP mode for good. */
  lemma HttpConnection(p: Pipeline, e: Env, q: Request, rest: seq<ReadOutcome>)
    requires !JudgeEnableWebSocket(q)
    ensures Run(p, e, Initial(e.defaultRequest), [Read(q)] + rest) == HttpTrace(p, e.defaultRequest, [Read(q)] + rest)
  {
    var outcomes := [Read(q)] + rest;
    assert outcomes[1..] == rest;
    if !JudgeUnenableKeepAlive(q) {
      HttpModeIsKeepAliveLoop(p, e, q, rest);
    }
  }

  /**
    An upgrade request decides WebSocket mode for good: without a key the
    connection closes before any middleware; if the 101 response cannot be
    sent it closes after it; otherwise the upgrade request runs through the
    pipeline and then every frame does, on the retained upgrade request.
   */
  lemma WebSocketConnection(p: Pipeline, e: Env, q: Request, rest: seq<ReadOutcome>)
    requires JudgeEnableWebSocket(q)
    ensures var run := Run(p, e, Initial(e.defaultRequest), [Read(q)] + rest);
      match HeaderValue(q.headers, SEC_WEBSOCKET_KEY)
      case None => run == ConnectionRun([ConnectionClosed], true)
      case Some(key) =>
        if e.handshakeSent then
          run == ConnectionRun([HandshakeSent(e.acceptKeyOf(key))] + ExchangeEvents(p, q)
                                 + FrameTrace(p, q, e.defaultRequest, rest), false)
        else run == ConnectionRun([HandshakeSent(e.acceptKeyOf(key)), ConnectionClosed], true)
  {
    var outcomes := [Read(q)] + rest;
    assert outcomes[1..] == rest;
    if HeaderValue(q.headers, SEC_WEBSOCKET_KEY).Some? && e.handshakeSent {
      WebSocketModeIsFrameLoop(p, e, q, rest);
    }
  }

  /** `Connection: close` ends an HTTP/1.1 connection after one exchange, though the version alone would keep it. */
  lemma CloseEndsHttp11Connection(p: Pipeline, e: Env, q: Request, rest: seq<ReadOutcome>)
    requires q.version == HTTP1_1 && q.headers == [(CONNECTION, "close")]
    ensures Run(p, e, Initial(e.defaultRequest), [Read(q)] + rest) == ConnectionRun(ExchangeEvents(p, q) + [ConnectionClosed], true)
  {
    LowercaseFixedPoint("close");
    assert HeaderValue(q.headers, CONNECTION) == Some("close");
    CloseHeaderForcesClose(q);
    assert !IsWebSocketUpgrade(q.headers[0]);
  }

  /** `Connection: Keep-Alive` keeps an HTTP/1.0 connection open after its first exchange. */
  lemma KeepAliveKeepsHttp10Open(p: Pipeline, e: Env, q: Request, rest: seq<ReadOutcome>)
    requires q.version == HTTP1_0 && q.headers == [(CONNECTION, "Keep-Alive")]
    ensures Run(p, e, Initial(e.defaultRequest), [Read(q)] + rest) ==
              Prepend(ExchangeEvents(p, q), HttpTrace(p, e.defaultRequest, rest))
  {
    var lowered := ToAsciiLowercase("Keep-Alive");
    assert lowered[0] == 'k' && lowered[5] == 'a';
    assert lowered == CONNECTION_KEEP_ALIVE;
    assert HeaderValue(q.headers, CONNECTION) == Some("Keep-Alive");
    KeepAliveHeaderForcesKeepAlive(q);
    assert !IsWebSocketUpgrade(q.headers[0]);
    HttpConnection(p, e, q, rest);
    assert ([Read(q)] + rest)[1..] == rest;
  }

  /**
    Registering one more request middleware adds exactly one call, right after
    the earlier request middleware and before the handler; nothing else in the
    exchange changes.
   */
  lemma RegisteredRequestMiddlewareRunsAfterEarlierOnes(p: Pipeline, h: HandlerId, q: Request)
    ensures ExchangeEvents(p.(requestMiddleware := p.requestMiddleware + [h]), q) ==
              [Dispatched(q)] + RequestMiddlewareEvents(p.requestMiddleware) + [RequestMiddlewareCalled(h)]
                + HandlerEvents(p, q.path) + ResponseMiddlewareEvents(p.responseMiddleware)
  {
    RequestMiddlewareEventsAppend(p.requestMiddleware, [h]);
  }

  /** Registering one more response middleware adds exactly one call, at the very end of the exchange. */
  lemma RegisteredResponseMiddlewareRunsLast(p: Pipeline, h: HandlerId, q: Request)
    ensures ExchangeEvents(p.(responseMiddleware := p.responseMiddleware + [h]), q) ==
              ExchangeEvents(p, q) + [ResponseMiddlewareCalled(h)]
  {
    ResponseMiddlewareEventsAppend(p.responseMiddleware, [h]);
  }

  /**
    After the handshake a failed frame read does not end the connection: each
    failure runs the whole pipeline once more, on the retained request with the
    default request's body, and the run stays open.
   */
  lemma FailedFramesKeepLooping(p: Pipeline, e: Env, history: Request)
    ensures var q := history.(body := e.defaultRequest.body);
      Run(p, e, LoopState(Some(true), true, history), [ReadFailed, ReadFailed]) ==
        ConnectionRun(ExchangeEvents(p, q) + ExchangeEvents(p, q), false)
  {
    WebSocketModeIsFrameLoop(p, e, history, [ReadFailed, ReadFailed]);
    var q := history.(body := e.defaultRequest.body);
    assert [ReadFailed, ReadFailed][1..] == [ReadFailed];
    assert [ReadFailed][1..] == [];
    assert q.(body := e.defaultRequest.body) == q;
  }

  /**
    In HTTP mode a later failed read does not end the loop by itself: the
    default request runs through the whole pipeline, and the keep-alive
    judgement on that default request decides whether the connection closes.
   */
  lemma FailedHttpReadRunsDefaultRequest(p: Pipeline, e: Env, q: Request)
    requires !JudgeEnableWebSocket(q) && !JudgeUnenableKeepAlive(q)
    ensures var d := e.defaultRequest;
      Run(p, e, Initial(d), [Read(q), ReadFailed]) ==
        if JudgeUnenableKeepAlive(d) then ConnectionRun(ExchangeEvents(p, q) + ExchangeEvents(p, d) + [ConnectionClosed], true)
        else ConnectionRun(ExchangeEvents(p, q) + ExchangeEvents(p, d), false)
  {
    HttpConnection(p, e, q, [ReadFailed]);
    assert [Read(q), ReadFailed] == [Read(q)] + [ReadFailed];
    assert [Read(q), ReadFailed][1..] == [ReadFailed];
    assert [ReadFailed][1..] == [];
  }
}
