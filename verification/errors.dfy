/**
  The `Display` renderings of the server's two error types. Each is a single
  match from a variant to a fixed prefix followed by the variant's payload.
 */
module Errors {
  import opened Wrappers

  /** The separator written between a message's prefix and its payload. */
  const COLON_SPACE: string := ": "

  const TCP_BIND_ERROR: string := "Tcp bind error"
  const HTTP_READ_ERROR: string := "Http read error"
  const INVALID_HTTP_REQUEST: string := "Invalid http request"
  const UNKNOWN: string := "Unknown"
  const DUPLICATE_PATTERN: string := "Route pattern already exists: "

  datatype ServerError =
    | TcpBindError(data: string)
    | HttpReadError(data: string)
    | InvalidHttpRequest(data: string)
    | Unknown

  datatype RouteError = DuplicatePattern(pattern: string)

  /** The fixed text in front of a `ServerError`'s payload. */
  function ServerErrorPrefix(e: ServerError): string {
    match e
    case TcpBindError(_) => TCP_BIND_ERROR + COLON_SPACE
    case HttpReadError(_) => HTTP_READ_ERROR + COLON_SPACE
    case InvalidHttpRequest(_) => INVALID_HTTP_REQUEST + COLON_SPACE
    case Unknown => UNKNOWN
  }

  /** `impl Display for ServerError`. */
  function ServerErrorMessage(e: ServerError): (m: string)
    ensures e.TcpBindError? ==> m == "Tcp bind error: " + e.data
    ensures e.HttpReadError? ==> m == "Http read error: " + e.data
    ensures e.InvalidHttpRequest? ==> m == "Invalid http request: " + e.data
    ensures e.Unknown? ==> m == "Unknown"
  {
    match e
    case Unknown => UNKNOWN
    case _ => ServerErrorPrefix(e) + e.data
  }

  /** `impl Display for RouteError`. */
  function RouteErrorMessage(e: RouteError): (m: string)
    ensures m == "Route pattern already exists: " + e.pattern
    ensures |m| == |DUPLICATE_PATTERN| + |e.pattern| && m[|DUPLICATE_PATTERN|..] == e.pattern
  {
    DUPLICATE_PATTERN + e.pattern
  }

  /** The rest of `m` after `prefix`, if `m` starts with it. */
  function StripPrefix(prefix: string, m: string): (r: Option<string>)
    ensures r.Some? <==> |prefix| <= |m| && m[..|prefix|] == prefix
    ensures r.Some? ==> m == prefix + r.value
  {
    if |prefix| <= |m| && m[..|prefix|] == prefix then
      assert m == m[..|prefix|] + m[|prefix|..];
      Some(m[|prefix|..])
    else None
  }

  /**
    Reads a rendered `ServerError` back: the first character picks the
    variant, and what follows the variant's prefix is the payload.
   */
  function ParseServerError(m: string): (r: Option<ServerError>)
    ensures r.Some? ==> ServerErrorMessage(r.value) == m
  {
    if |m| == 0 then None
    else if m[0] == 'T' then
      match StripPrefix(TCP_BIND_ERROR + COLON_SPACE, m)
      case Some(d) => Some(TcpBindError(d))
      case None => None
    else if m[0] == 'H' then
      match StripPrefix(HTTP_READ_ERROR + COLON_SPACE, m)
      case Some(d) => Some(HttpReadError(d))
      case None => None
    else if m[0] == 'I' then
      match StripPrefix(INVALID_HTTP_REQUEST + COLON_SPACE, m)
      case Some(d) => Some(InvalidHttpRequest(d))
      case None => None
    else if m == UNKNOWN then Some(Unknown)
    else None
  }

  /** Every rendered `ServerError` reads back as the error it came from. */
  lemma ParseRendersBack(e: ServerError)
    ensures ParseServerError(ServerErrorMessage(e)) == Some(e)
  {
    var m := ServerErrorMessage(e);
    var prefix := ServerErrorPrefix(e);
    if !e.Unknown? {
      assert m[..|prefix|] == prefix;
      assert m[|prefix|..] == e.data;
    }
  }

  /** Distinct `ServerError`s render as distinct messages: the message determines the variant and its payload. */
  lemma {:induction false} MessageDetermines(a: ServerError, b: ServerError)
    requires ServerErrorMessage(a) == ServerErrorMessage(b)
    ensures a == b
  {
    ParseRendersBack(a);
    ParseRendersBack(b);
  }

  /** The leading character of a message tells the variants apart. */
  lemma DistinctLeadingCharacters(e: ServerError)
    ensures ServerErrorMessage(e)[0] == (match e
                                         case TcpBindError(_) => 'T'
                                         case HttpReadError(_) => 'H'
                                         case InvalidHttpRequest(_) => 'I'
                                         case Unknown => 'U')
  {
  }
}
