/**
  The server: its configuration, the exact-path route table, the two
  middleware lists, and the per-connection loop of `listen`.

  Binding, accepting and spawning a task per connection are left out; the
  loop is run for one connection over the outcomes of its reads.
 */
module Server {
  import opened Wrappers
  import opened Http
  import opened Context
  import opened Connection

  // Defaults of the configuration. They are defined in crates that are not part
  // of this model; the values below stand in for them, and the model relies
  // only on DEFAULT_BUFFER_SIZE being nonzero.
  const DEFAULT_HOST: string := "0.0.0.0"
  const DEFAULT_WEB_PORT: nat := 80
  const DEFAULT_LOG_DIR: string := "./logs"
  const DEFAULT_LOG_FILE_SIZE: nat := 1_024_000_000
  const DEFAULT_LOG_INTERVAL_MILLIS: nat := 360
  const DEFAULT_INNER_PRINT: bool := true
  const DEFAULT_INNER_LOG: bool := true
  const DEFAULT_BUFFER_SIZE: nat := 512_000

  datatype ServerConfig = ServerConfig(
    host: string,
    port: nat,
    logDir: string,
    logSize: nat,
    intervalMillis: nat,
    innerPrint: bool,
    innerLog: bool,
    websocketBufferSize: nat)

  /** `ServerConfig::default()`. */
  function DefaultConfig(): (c: ServerConfig)
    ensures c.websocketBufferSize == DEFAULT_BUFFER_SIZE && c.websocketBufferSize > 0
    ensures c.host == DEFAULT_HOST && c.port == DEFAULT_WEB_PORT && c.logDir == DEFAULT_LOG_DIR
    ensures c.logSize == DEFAULT_LOG_FILE_SIZE && c.intervalMillis == DEFAULT_LOG_INTERVAL_MILLIS
    ensures c.innerPrint == DEFAULT_INNER_PRINT && c.innerLog == DEFAULT_INNER_LOG
  {
    ServerConfig(DEFAULT_HOST, DEFAULT_WEB_PORT, DEFAULT_LOG_DIR, DEFAULT_LOG_FILE_SIZE,
                 DEFAULT_LOG_INTERVAL_MILLIS, DEFAULT_INNER_PRINT, DEFAULT_INNER_LOG, DEFAULT_BUFFER_SIZE)
  }

  /** The settings of the logger held in `tmp`. */
  datatype LogSettings = LogSettings(path: string, fileSize: nat, intervalMillis: nat)

  class Server {
    var cfg: ServerConfig
    var tmp: LogSettings
    var routes: map<string, HandlerId>
    var requestMiddleware: seq<HandlerId>
    var responseMiddleware: seq<HandlerId>

    /** The WebSocket frame buffer is never empty. */
    ghost predicate Valid()
      reads this
    {
      cfg.websocketBufferSize > 0
    }

    /** `Server::default()`; `tmp` is assumed to start from the same log defaults as the configuration. */
    constructor ()
      ensures Valid()
      ensures cfg == DefaultConfig()
      ensures tmp == LogSettings(DEFAULT_LOG_DIR, DEFAULT_LOG_FILE_SIZE, DEFAULT_LOG_INTERVAL_MILLIS)
      ensures routes == map[] && requestMiddleware == [] && responseMiddleware == []
    {
      cfg := DefaultConfig();
      tmp := LogSettings(DEFAULT_LOG_DIR, DEFAULT_LOG_FILE_SIZE, DEFAULT_LOG_INTERVAL_MILLIS);
      routes := map[];
      requestMiddleware := [];
      responseMiddleware := [];
    }

    method Host(host: string)
      requires Valid()
      modifies this`cfg
      ensures Valid()
      ensures cfg == old(cfg).(host := host)
    {
      cfg := cfg.(host := host);
    }

    method Port(port: nat)
      requires Valid()
      modifies this`cfg
      ensures Valid()
      ensures cfg == old(cfg).(port := port)
    {
      cfg := cfg.(port := port);
    }

    /** `log_dir`: the configuration and the logger get the same directory. */
    method LogDir(logDir: string)
      requires Valid()
      modifies this`cfg, this`tmp
      ensures Valid()
      ensures cfg == old(cfg).(logDir := logDir)
      ensures tmp == old(tmp).(path := logDir)
    {
      cfg := cfg.(logDir := logDir);
      tmp := tmp.(path := logDir);
    }

    /** `log_size`: the configuration and the logger get the same file size. */
    method LogSize(logSize: nat)
      requires Valid()
      modifies this`cfg, this`tmp
      ensures Valid()
      ensures cfg == old(cfg).(logSize := logSize)
      ensures tmp == old(tmp).(fileSize := logSize)
    {
      cfg := cfg.(logSize := logSize);
      tmp := tmp.(fileSize := logSize);
    }

    /** `websocket_buffer_size`: zero stands for the default; any other size is kept as given. */
    method WebsocketBufferSize(bufferSize: nat)
      requires Valid()
      modifies this`cfg
      ensures Valid()
      ensures bufferSize == 0 ==> cfg.websocketBufferSize == DEFAULT_BUFFER_SIZE
      ensures bufferSize != 0 ==> cfg.websocketBufferSize == bufferSize
      ensures cfg == old(cfg).(websocketBufferSize := cfg.websocketBufferSize)
    {
      var size := if bufferSize == 0 then DEFAULT_BUFFER_SIZE else bufferSize;
      cfg := cfg.(websocketBufferSize := size);
    }

    /** `print` and `open_print` (the two have the same body). */
    method Print(enable: bool)
      requires Valid()
      modifies this`cfg
      ensures Valid()
      ensures cfg == old(cfg).(innerPrint := enable)
    {
      cfg := cfg.(innerPrint := enable);
    }

    method EnablePrint()
      requires Valid()
      modifies this`cfg
      ensures Valid()
      ensures cfg == old(cfg).(innerPrint := true)
    {
      Print(true);
    }

    method DisablePrint()
      requires Valid()
      modifies this`cfg
      ensures Valid()
      ensures cfg == old(cfg).(innerPrint := false)
    {
      Print(false);
    }

    /** `log_interval_millis`: the configuration and the logger get the same interval. */
    method LogIntervalMillis(intervalMillis: nat)
      requires Valid()
      modifies this`cfg, this`tmp
      ensures Valid()
      ensures cfg == old(cfg).(intervalMillis := intervalMillis)
      ensures tmp == old(tmp).(intervalMillis := intervalMillis)
    {
      cfg := cfg.(intervalMillis := intervalMillis);
      tmp := tmp.(intervalMillis := intervalMillis);
    }

    /** `route`: `path` now maps to `handler`, whatever it mapped to before; other paths are unchanged. */
    method Route(path: string, handler: HandlerId)
      requires Valid()
      modifies this`routes
      ensures Valid()
      ensures routes == old(routes)[path := handler]
      ensures path in routes && routes[path] == handler
      ensures forall other :: other != path ==> (other in routes <==> other in old(routes))
      ensures forall other :: other != path && other in routes ==> routes[other] == old(routes)[other]
    {
      routes := routes[path := handler];
    }

    /** `request_middleware`: appended, so registration order is the order they run in. */
    method RequestMiddleware(handler: HandlerId)
      requires Valid()
      modifies this`requestMiddleware
      ensures Valid()
      ensures requestMiddleware == old(requestMiddleware) + [handler]
    {
      requestMiddleware := requestMiddleware + [handler];
    }

    /** `response_middleware`: appended, so registration order is the order they run in. */
    method ResponseMiddleware(handler: HandlerId)
      requires Valid()
      modifies this`responseMiddleware
      ensures Valid()
      ensures responseMiddleware == old(responseMiddleware) + [handler]
    {
      responseMiddleware := responseMiddleware + [handler];
    }

    function Registered(): Pipeline
      reads this
    {
      Pipeline(routes, requestMiddleware, responseMiddleware)
    }

    /** One pass through the pipeline: request middleware in order, the exact-path handler if any, response middleware in order. */
    method CallPipeline(request: Request) returns (events: seq<Event>)
      ensures events == ExchangeEvents(Registered(), request)
    {
      events := [Dispatched(request)];
      for j := 0 to |requestMiddleware|
        invariant events == [Dispatched(request)] + RequestMiddlewareEvents(requestMiddleware[..j])
      {
        assert requestMiddleware[..j + 1] == requestMiddleware[..j] + [requestMiddleware[j]];
        events := events + [RequestMiddlewareCalled(requestMiddleware[j])];
      }
      assert requestMiddleware[..|requestMiddleware|] == requestMiddleware;
      if request.path in routes {
        events := events + [RouteHandlerCalled(request.path, routes[request.path])];
      }
      ghost var handlersDone := events;
      for j := 0 to |responseMiddleware|
        invariant events == handlersDone + ResponseMiddlewareEvents(responseMiddleware[..j])
      {
        assert responseMiddleware[..j + 1] == responseMiddleware[..j] + [responseMiddleware[j]];
        events := events + [ResponseMiddlewareCalled(responseMiddleware[j])];
      }
      assert responseMiddleware[..|responseMiddleware|] == responseMiddleware;
    }

    /**
      One iteration of the loop body, from the read to the keep-alive check.
      `stop` says the connection was closed and the task returns; otherwise
      the three loop variables carry over.
     */
    method HandleOutcome(outcome: ReadOutcome, enableWebSocketOpt: Option<bool>, websocketHandshakeFinish: bool,
                         historyRequest: Request, defaultRequest: Request, acceptKeyOf: string -> string,
                         handshakeSent: bool)
      returns (events: seq<Event>, stop: bool, enableWebSocketOpt': Option<bool>, websocketHandshakeFinish': bool,
               historyRequest': Request)
      ensures Step(Registered(), Env(defaultRequest, acceptKeyOf, handshakeSent),
                   LoopState(enableWebSocketOpt, websocketHandshakeFinish, historyRequest), outcome) ==
                if stop then Stop(events)
                else Continue(events, LoopState(enableWebSocketOpt', websocketHandshakeFinish', historyRequest'))
    {
      ghost var p := Registered();
      ghost var e := Env(defaultRequest, acceptKeyOf, handshakeSent);
      ghost var st := LoopState(enableWebSocketOpt, websocketHandshakeFinish, historyRequest);
      enableWebSocketOpt', websocketHandshakeFinish', historyRequest' := enableWebSocketOpt, websocketHandshakeFinish, historyRequest;
      if outcome.ReadFailed? && enableWebSocketOpt.None? {
        return [ConnectionClosed], true, enableWebSocketOpt', websocketHandshakeFinish', historyRequest';
      }
      var request := if outcome.Read? then outcome.request else defaultRequest;
      if websocketHandshakeFinish {
        historyRequest' := historyRequest.(body := request.body);
        request := historyRequest';
      } else {
        historyRequest' := request;
      }
      assert request == LogicalRequest(st, outcome, defaultRequest);
      if enableWebSocketOpt.None? {
        enableWebSocketOpt' := Some(JudgeEnableWebSocket(request));
      }
      var enableWebSocket := enableWebSocketOpt'.value;
      var handshake: seq<Event> := [];
      if enableWebSocket {
        var action := PlanHandshake(websocketHandshakeFinish, request, acceptKeyOf);
        if action.MissingKey? {
          assert Step(p, e, st, outcome) == Stop([ConnectionClosed]);
          return [ConnectionClosed], true, enableWebSocketOpt', websocketHandshakeFinish', historyRequest';
        }
        if action.Respond? {
          if !handshakeSent {
            assert Step(p, e, st, outcome) == Stop([HandshakeSent(action.accept), ConnectionClosed]);
            return [HandshakeSent(action.accept), ConnectionClosed], true, enableWebSocketOpt', websocketHandshakeFinish', historyRequest';
          }
          websocketHandshakeFinish' := true;
          handshake := [HandshakeSent(action.accept)];
        }
      }
      var exchange := CallPipeline(request);
      events := handshake + exchange;
      if enableWebSocket {
        assert Step(p, e, st, outcome) == Continue(events, LoopState(Some(true), true, request));
        return events, false, enableWebSocketOpt', websocketHandshakeFinish', historyRequest';
      }
      stop := JudgeUnenableKeepAlive(request);
      if stop {
        events := exchange + [ConnectionClosed];
        assert Step(p, e, st, outcome) == Stop(events);
      } else {
        events := exchange;
        assert Step(p, e, st, outcome) == Continue(events, LoopState(Some(false), websocketHandshakeFinish, request));
      }
    }

    /**
      The `handle_request` loop for one connection, over the outcomes of its
      reads. `closed` is false when the outcomes ran out with the loop still
      reading. The trace is exactly the one `Connection.Run` defines, so the
      properties proved there hold of it.
     */
    method HandleConnection(outcomes: seq<ReadOutcome>, defaultRequest: Request, acceptKeyOf: string -> string,
                            handshakeSent: bool)
      returns (trace: seq<Event>, closed: bool)
      ensures ConnectionRun(trace, closed) ==
                Run(Registered(), Env(defaultRequest, acceptKeyOf, handshakeSent), Initial(defaultRequest), outcomes)
    {
      ghost var p := Registered();
      ghost var e := Env(defaultRequest, acceptKeyOf, handshakeSent);
      var enableWebSocketOpt: Option<bool> := None;
      var websocketHandshakeFinish := false;
      var historyRequest := defaultRequest;
      trace, closed := [], false;
      var i := 0;
      assert outcomes[0..] == outcomes;
      while i < |outcomes|
        invariant 0 <= i <= |outcomes|
        invariant Run(p, e, Initial(defaultRequest), outcomes) ==
                    Prepend(trace, Run(p, e, LoopState(enableWebSocketOpt, websocketHandshakeFinish, historyRequest), outcomes[i..]))
      {
        assert outcomes[i..][0] == outcomes[i] && outcomes[i..][1..] == outcomes[i + 1..];
        var events, stop;
        events, stop, enableWebSocketOpt, websocketHandshakeFinish, historyRequest :=
          HandleOutcome(outcomes[i], enableWebSocketOpt, websocketHandshakeFinish, historyRequest,
                        defaultRequest, acceptKeyOf, handshakeSent);
        trace := trace + events;
        if stop {
          return trace, true;
        }
        i := i + 1;
      }
    }
  }
}
