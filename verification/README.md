# hyperlane core, modelled in Dafny

hyperlane is an asynchronous HTTP and WebSocket server framework. This
project models three parts of its core:

- **The per-request context** (`Context`). It decides from its request
  whether the connection stays alive and whether the request asks for a
  WebSocket upgrade. It performs the opening WebSocket handshake. It owns
  the send family (`send_response`, `send`, `send_response_once`,
  `send_once`, `send_response_body`, `send_body`, `close`, `flush`) and its
  `NotFoundStream` and `NotSupportUseThisMethod` error branches. It also
  holds a string-keyed, type-tagged user-data store.
- **The server** (`Server`). This covers its configuration setters, the
  exact-path route table and the two middleware lists. It also covers the
  `handle_request` loop that `listen` runs for every accepted connection.
  That loop reads a request or frame, decides the mode once, performs the
  handshake, runs request middleware, the route handler and response
  middleware, and closes when keep-alive is off outside WebSocket mode.
- **The error renderings** (`Errors`): `Display` for `ServerError` and
  `RouteError`.

Layout:

- `wrappers.dfy`: `Option`.
- `http.dfy` (module `Http`): the request and response values, header
  constants, ASCII lowercasing, and header lookup.
- `context.dfy` (module `Context`): the decisions, the handshake plan, and
  the `Context` class. The class has fields for the stream, the request,
  the response and the data map. A `Stream` object keeps a ghost log of
  the writes made to it.
- `connection.dfy` (module `Connection`): the connection loop as a pure
  state machine. `Step` is one iteration and `Run` is a run over a sequence
  of read outcomes. This module also holds two independent reference
  definitions, `HttpTrace` for the keep-alive loop and `FrameTrace` for the
  WebSocket frame loop, and the lemmas that connect them to `Run`.
- `server.dfy` (module `Server`): the `Server` class. Its
  `HandleConnection` method is the imperative loop, proved equal to
  `Connection.Run` on the server's registered routes and middleware.
- `errors.dfy` (module `Errors`): the message renderings, a parser that
  reads them back, and the round-trip and injectivity lemmas.

Modelling choices:

- **Request headers.** The source scans the request header map with
  `find_map` and `any`, so the model treats it as the sequence of its
  entries in iteration order. `UniqueKeys` is the hash-map guarantee that no
  key appears twice. The keep-alive characterisation assumes it.
- **Response headers.** These are a map. Of the operations that change it,
  only `set_response_header` (insert or overwrite one key) is modelled.
- **The transport.** Each send or close appends to the stream's ghost log.
  The transport's own result is the parameter `io`.
- **Handlers and middleware.** These are identities (`HandlerId`). The loop
  records which ones it calls and in what order.

Two behaviours of the code are worth stating plainly, because a reader
might expect otherwise:

- Header keys are compared exactly, not case-insensitively. `upgrade:
  websocket` is no upgrade request; see `Context.UpgradeKeyIsCaseSensitive`.
- After the mode is decided, a failed read does not close the connection by
  itself. The code substitutes `Request::default()` and runs the whole
  pipeline on it; only a failed *first* read closes the connection at once.
  In HTTP mode the keep-alive judgement on that default request then decides
  whether the connection closes; see `Connection.FailedHttpReadRunsDefaultRequest`
  and `Connection.HttpModeIsKeepAliveLoop`. In WebSocket mode only the default
  request's body replaces the retained request's body, and the keep-alive
  check is skipped, so every failed frame read runs the pipeline again and the
  connection stays open; see `Connection.FailedFramesKeepLooping`.

The loop in `listen` builds an `InnerControllerData` (stream, request,
response, log) and calls `judge_enable_websocket`, `handle_websocket`,
`close` and `judge_unenable_keep_alive` on it. Those operations are defined on
`Context` in `src/context/impl.rs`, so the model treats the loop's per-request
value as that `Context`. Its data map is the one `set_data_value` and its
siblings reach through `get_mut_data`.

## Model

| member | source | states |
|---|---|---|
| Http.ToAsciiLowercase | src/context/impl.rs:501 | The lowered value has the same length, lowers exactly the letters A-Z, and contains no upper-case ASCII letter. |
| Http.LowercaseFixedPoint | src/context/impl.rs:501-505 | A value with no upper-case letter is unchanged by lowercasing, so `close` compares equal to `CONNECTION_CLOSE` as written. |
| Http.HeaderValue | src/context/impl.rs:307-312 | The lookup is None exactly when no entry has the key. Otherwise it returns the value of an entry with that key. |
| Http.HeaderValueOfEntry | src/context/impl.rs:533 | With unique keys, looking up any entry's key yields that entry's value. |
| Context.FindConnectionDirective | src/context/impl.rs:499-509 | The `find_map` result is the directive of the first entry that has one, and None only if no entry has one. |
| Context.DirectiveOfConnectionHeader | src/context/impl.rs:496-514 | With unique keys, the scan yields true or false exactly when the `Connection` value lowercases to `keep-alive` or `close`, and nothing otherwise. |
| Context.UniqueConnectionDirective | src/context/impl.rs:496-514 | The same, stated conditionally on unique keys. |
| Context.KeepAliveHeaderForcesKeepAlive | src/context/impl.rs:499-511 | A `Connection` value lowercasing to `keep-alive` enables keep-alive whatever the version. |
| Context.CloseHeaderForcesClose | src/context/impl.rs:499-511 | A `Connection` value lowercasing to `close` disables keep-alive whatever the version. |
| Context.KeepAliveDefaultsToVersion | src/context/impl.rs:512-513 | Without either directive, keep-alive holds iff the version is HTTP/1.1 or higher. |
| Context.JudgeEnableKeepAlive | src/context/impl.rs:496-514 | With unique keys, keep-alive holds iff the `Connection` value lowercases to `keep-alive`, or it does not lowercase to `close` and the version is HTTP/1.1 or higher (both directions). |
| Context.JudgeUnenableKeepAlive | src/context/impl.rs:516-518 | With unique keys, close is decided iff the header says `close`, or it does not say `keep-alive` and the version is below HTTP/1.1 (both directions). |
| Context.AnyWebSocketUpgrade | src/context/impl.rs:525-526 | True iff some entry satisfies the `any` closure. |
| Context.JudgeEnableWebSocket | src/context/impl.rs:520-527 | An upgrade is requested iff some header has key exactly `Upgrade` and a value lowercasing to `websocket`. |
| Context.UpgradeKeyIsCaseSensitive | src/context/impl.rs:526 | `upgrade: websocket` is not an upgrade; `Upgrade: WebSocket` is. |
| Context.WithUpgradeHeaders | src/context/impl.rs:537-541 | Adds `Upgrade: websocket`, `Connection: Upgrade` and `Sec-WebSocket-Accept: <accept>`, and keeps every other header. |
| Context.Context.constructor | src/context/impl.rs:20-30 | A context holds the given stream, request and response (the fields these getters read), and an empty data store (the map `get_mut_data` reaches at line 559). |
| Context.Context.IsWebSocketRequest | src/context/impl.rs:92-94 | The send family's refusal test. The refusal clauses of the send methods state what it decides; `Context.TagAndUpgradeHeaderAreIndependent` and `Context.TagIgnoresHeaders` state what it reads. |
| Context.TagAndUpgradeHeaderAreIndependent | src/context/impl.rs:92-94 | A request with `Upgrade: websocket` but without the WebSocket tag is an upgrade for the loop yet is not refused by the send family; a tagged request without the header is refused yet is no upgrade for the loop. |
| Context.TagIgnoresHeaders | src/context/impl.rs:92-94 | Changing only the request's headers never changes the refusal test. |
| Context.Context.SetResponseHeader | src/context/impl.rs:449-459 | Inserts or overwrites one response header; nothing else in the response changes. |
| Context.Context.InnerSendResponse | src/context/impl.rs:96-117 | No stream gives `NotFoundStream`. A WebSocket request outside the handshake gives `NotSupportUseThisMethod` with nothing written or changed. Otherwise it sets body and status, logs one response write and returns the transport's result. |
| Context.Context.SendResponse | src/context/impl.rs:119-126 | The same with the handshake flag off, so every WebSocket request is refused. |
| Context.Context.Send | src/context/impl.rs:128-132 | Sends the response as it stands: the response is unchanged, with the same error branches. |
| Context.Context.SendResponseOnce | src/context/impl.rs:134-155 | Refuses WebSocket requests. Otherwise it logs the response write and then a close, returning the send's result and not the close's. |
| Context.Context.SendOnce | src/context/impl.rs:157-161 | Sends the response as it stands, then closes; same error branches. |
| Context.Context.SendResponseBody | src/context/impl.rs:163-179 | With a stream, sets the body and logs a body-only write framed as WebSocket data iff the request is a WebSocket request. There is no WebSocket refusal. |
| Context.Context.SendBody | src/context/impl.rs:181-184 | Writes the current body alone; the response is unchanged. |
| Context.Context.Close | src/context/impl.rs:186-196 | No stream gives `NotFoundStream`. Otherwise it logs exactly one close. |
| Context.Context.Flush | src/context/impl.rs:198-208 | No stream gives `NotFoundStream`. Otherwise it logs exactly one flush. |
| Context.Context.HandleWebSocket | src/context/impl.rs:529-550 | A set flag returns Ok and changes nothing. A missing `Sec-WebSocket-Key` gives `WebSocketHandShakeError` with nothing changed and the flag false. Otherwise it sets the three upgrade headers, sends 101 with an empty body, and sets the flag iff that send succeeded. |
| Context.Context.GetDataValue | src/context/impl.rs:564-571 | The typed read. Its guarantees are stated by `SetDataValue`, `RemoveDataValue`, `ClearData` and `Context.Context.OneTypePerKey`. |
| Context.Context.OneTypePerKey | src/context/impl.rs:564-571 | A key yields a value at one type at most, as `downcast_ref` succeeds only for the stored value's own type. |
| Context.Context.SetDataValue | src/context/impl.rs:556-562 | Afterwards the key yields the value at its type and nothing at any other type; other keys are unchanged. |
| Context.Context.RemoveDataValue | src/context/impl.rs:573-576 | Afterwards the key yields nothing at any type; other keys are unchanged. |
| Context.Context.ClearData | src/context/impl.rs:578-581 | Afterwards no key yields anything. |
| Connection.RequestMiddlewareEventsAppend | src/server/impl.rs:242-246 | Running the list `a + b` calls the middleware of `a` and then those of `b`. |
| Connection.ResponseMiddlewareEventsAppend | src/server/impl.rs:252-256 | Running the list `a + b` calls the middleware of `a` and then those of `b`. |
| Connection.RegisteredRequestMiddlewareRunsAfterEarlierOnes | src/server/impl.rs:134-148 | Registering one more request middleware adds exactly one call to each exchange, after the earlier request middleware and before the handler; nothing else changes. |
| Connection.RegisteredResponseMiddlewareRunsLast | src/server/impl.rs:150-164 | A response middleware registered last is called exactly once per exchange, as its final call. |
| Connection.Step | src/server/impl.rs:194-260 | One loop iteration. Its guarantees are stated by `Connection.StepShape`, and `Server.Server.HandleOutcome` is proved equal to it. |
| Connection.StepShape | src/server/impl.rs:207-260 | A stopping iteration ends with the close and has no earlier one. A continuing iteration never closes. Once decided, the mode never changes, and a WebSocket-mode continuation has finished the handshake. |
| Connection.Run | src/server/impl.rs:193-261 | The loop over a sequence of read outcomes. A closed run read at least once and ends with the close. |
| Connection.ExchangeOrder | src/server/impl.rs:242-256 | An exchange is the dispatch, then every request middleware in order, then at most one handler, then every response middleware in order. |
| Connection.HandlerIffExactPath | src/server/impl.rs:221 | A handler runs iff the request path equals a registered route exactly, in both directions. A miss still runs both middleware lists. |
| Connection.FirstReadFailureCloses | src/server/impl.rs:207-213 | A failed first read closes the connection and nothing else happens. |
| Connection.CloseIsLast | src/server/impl.rs:193-261 | In every run a close is the last event, and the run reports closed iff it ends with one. |
| Connection.HttpModeIsKeepAliveLoop | src/server/impl.rs:228-260 | Once HTTP mode is decided, the loop equals the reference keep-alive loop: no handshake, one exchange per request, ending after the first request judged not keep-alive. |
| Connection.WebSocketModeIsFrameLoop | src/server/impl.rs:214-220 | After the handshake, the loop never closes. Each frame's logical request is the retained request with only its body replaced. |
| Connection.FrameTraceIgnoresTemplateBody | src/server/impl.rs:216-217 | The retained request's old body never matters to later frames. |
| Connection.HttpConnection | src/server/impl.rs:228-231 | A first request that is not an upgrade decides HTTP mode for the whole connection. |
| Connection.WebSocketConnection | src/server/impl.rs:228-241 | An upgrade request fixes WebSocket mode. Without a key, the connection closes before any middleware. If the 101 send fails, it closes after it. Otherwise the upgrade request and then every frame run through the pipeline. |
| Connection.FailedFramesKeepLooping | src/server/impl.rs:214-217 | After the handshake, two failed frame reads give two full exchanges on the retained request with the default body, and the run stays open. |
| Connection.FailedHttpReadRunsDefaultRequest | src/server/impl.rs:207-260 | In HTTP mode, after a keep-alive first exchange, a failed read runs the full pipeline on the default request; the connection closes then exactly when that default request is judged not keep-alive. |
| Connection.CloseEndsHttp11Connection | src/server/impl.rs:257-260 | `Connection: close` ends an HTTP/1.1 connection after one exchange. |
| Connection.KeepAliveKeepsHttp10Open | src/server/impl.rs:257-260 | `Connection: Keep-Alive` keeps an HTTP/1.0 connection open after its first exchange. |
| Server.DefaultConfig | src/server/config/impl.rs:3-17 | Every field takes its `DEFAULT_*` constant, the WebSocket buffer size included, and that size is nonzero. |
| Server.Server.constructor | src/server/impl.rs:3-14 | Default configuration, no routes and no middleware. |
| Server.Server.Host | src/server/impl.rs:22-29 | Sets only the host. |
| Server.Server.Port | src/server/impl.rs:31-38 | Sets only the port. |
| Server.Server.LogDir | src/server/impl.rs:40-49 | The configuration and the logger get the same directory. |
| Server.Server.LogSize | src/server/impl.rs:51-60 | The configuration and the logger get the same file size. |
| Server.Server.WebsocketBufferSize | src/server/impl.rs:62-74 | Zero selects the default size and any other size is kept; the buffer size stays nonzero. |
| Server.Server.Print | src/server/impl.rs:76-104 | `print` and `open_print`: set only the print flag. |
| Server.Server.EnablePrint | src/server/impl.rs:85-89 | Sets the print flag to true. |
| Server.Server.DisablePrint | src/server/impl.rs:91-95 | Sets the print flag to false. |
| Server.Server.LogIntervalMillis | src/server/impl.rs:106-115 | The configuration and the logger get the same interval. |
| Server.Server.Route | src/server/impl.rs:117-132 | The path now maps to the handler, replacing any earlier one; other routes are unchanged. The nonzero buffer size is kept. |
| Server.Server.RequestMiddleware | src/server/impl.rs:134-148 | Appends, so registration order is call order. The nonzero buffer size is kept. |
| Server.Server.ResponseMiddleware | src/server/impl.rs:150-164 | Appends, so registration order is call order. The nonzero buffer size is kept. |
| Server.Server.CallPipeline | src/server/impl.rs:242-256 | The loops over the middleware and the route lookup produce exactly the reference exchange. |
| Server.Server.HandleOutcome | src/server/impl.rs:194-260 | One loop iteration computes exactly the events and the next state (or the stop) of `Connection.Step`. |
| Server.Server.HandleConnection | src/server/impl.rs:188-262 | The loop's trace and closed flag equal `Connection.Run` on the registered pipeline. The lemmas above therefore hold of it. |
| Errors.ServerErrorMessage | src/error/impl.rs:5-16 | `Tcp bind error: d`, `Http read error: d`, `Invalid http request: d`, and exactly `Unknown`. |
| Errors.RouteErrorMessage | src/error/impl.rs:20-28 | `Route pattern already exists: p`, with the pattern recoverable after the fixed prefix. |
| Errors.StripPrefix | src/error/impl.rs:8-12 | The remainder is defined iff the message starts with the prefix, and prefix plus remainder is the message. |
| Errors.ParseServerError | src/error/impl.rs:5-16 | Whatever it parses renders back to the message it read. |
| Errors.ParseRendersBack | src/error/impl.rs:5-16 | Parsing a rendered error yields that error. |
| Errors.MessageDetermines | src/error/impl.rs:7-15 | Equal messages come from equal errors, so the message determines the variant and its payload. |
| Errors.DistinctLeadingCharacters | src/error/impl.rs:7-15 | The four variants' messages start with distinct characters (T, H, I, U). |

## Left out

- TCP bind and accept, `tokio::spawn`, and the `RwLock`/`Arc` wrappers are not modelled. These are concurrency and I/O; the model is single-threaded and runs the loop for one connection.
- Request parsing and frame decoding are not modelled. A read is given as an outcome: a parsed request or a failure.
- The WebSocket accept key of section 4.2.2 of RFC 6455 is the parameter `acceptKeyOf`. The transport's result for a send or close is the parameter `io`, and in the loop the handshake send's success is `handshakeSent`.
- `Request::default()` and `Response::default()` are parameters, because their definitions are not part of this model.
- Server.Server.HandleConnection: handlers and middleware are treated as not changing the request that the keep-alive check reads after them. In the source, they can change it through the context's setters.
- Values fixed for external crates are assumptions of the model:
  - The header constants `CONNECTION`, `CONNECTION_KEEP_ALIVE`, `CONNECTION_CLOSE`, `UPGRADE`, `WEBSOCKET`, `SEC_WEBSOCKET_KEY` and `SEC_WEB_SOCKET_ACCEPT` are given their usual spellings. `Context.UpgradeKeyIsCaseSensitive`, `Connection.CloseEndsHttp11Connection` and `Connection.KeepAliveKeepsHttp10Open` hold for these values and for a parser that keeps the case of header keys.
  - `is_http1_1_or_higher` is taken to be HTTP/1.1, HTTP/2 and HTTP/3.
  - `is_websocket` is taken to be the `WebSocket` upgrade variant.
  - The external `Response::send`, `send_body`, `close` and `flush` are taken to leave the response value as it was.
  - `Tmp::default()` is taken to start the logger from the configuration's log defaults.
- The `DEFAULT_*` configuration constants are defined in crates that are not part of this model. Their values are stand-ins, and only the nonzero buffer size is relied on. `COLON_SPACE` is taken to be `": "`.
- Logging, the log setters and `log_*` calls, the panic hook, and `init`/`init_log` are not modelled.
- The peer-address getters, `format_host_port`, and the plain getters and setters of request and response fields are not modelled. They copy a field or return the value of the standard socket API.
- `get_request_body_string` and `get_response_body_string` are not modelled, because they depend on lossy UTF-8 decoding.
- The `set_request_*` and `set_response_*` setters other than `set_response_header` are not modelled.
- In `get_data_value`, `downcast_ref::<T>` is modelled as a comparison of type identities. Payloads are an abstract sequence of integers.
