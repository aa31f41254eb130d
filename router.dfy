/**
 * `Router`: holds the routes, the default app and the startup/shutdown
 * handlers, and provides `not_found`, the fallback app that closes a
 * WebSocket, raises a 404 inside an application, or answers a bare ASGI
 * request with a plain-text 404 response.
 */
module Routers {
  import opened Base
  import opened Text
  import opened Encoding
  import opened Dicts
  import opened Asgi
  import opened Routes
  import opened Responses
  import opened WebSockets

  /** What `inspect` reports about the `lifespan` argument. */
  datatype LifespanKind = AsyncGeneratorFunction | GeneratorFunction | OtherCallable

  datatype Lifespan = Lifespan(kind: LifespanKind, f: Callable)

  /** The context manager factory `lifespan_context` ends up holding. */
  datatype LifespanContext =
    | DefaultLifespan                    // `_DefaultLifespan(self)`, bound to this router
    | AsyncContextManager(f: Callable)   // `asynccontextmanager(lifespan)`
    | WrappedGenerator(f: Callable)      // `_wrap_gen_lifespan_context(lifespan)`
    | GivenLifespan(f: Callable)         // `lifespan` itself

  function LifespanContextOf(lifespan: Option<Lifespan>): (r: LifespanContext)
    ensures lifespan.None? <==> r == DefaultLifespan
    ensures lifespan.Some? ==> r.f == lifespan.value.f
  {
    if lifespan.None? then DefaultLifespan
    else match lifespan.value.kind
      case AsyncGeneratorFunction => AsyncContextManager(lifespan.value.f)
      case GeneratorFunction => WrappedGenerator(lifespan.value.f)
      case OtherCallable => GivenLifespan(lifespan.value.f)
  }

  /** The app a router falls back to: its own `not_found`, or the given one. */
  datatype DefaultApp = NotFoundApp | GivenApp(app: Callable)

  datatype InitError = TypeError(message: string) | AssertionError(message: string)

  /** What `list(None)` raises. */
  const NoneNotIterable := "'NoneType' object is not iterable"

  /**
   * `on_shutdown` is copied whenever `on_startup` is given, so a given
   * `on_startup` without `on_shutdown` makes the copy fail.
   */
  predicate ShutdownCopyFails(onStartup: Option<seq<Callable>>, onShutdown: Option<seq<Callable>>)
  {
    onStartup.Some? && onShutdown.None?
  }

  /**
   * The shutdown handlers a router keeps: guarded by `on_startup`, so those
   * given without startup handlers are dropped.
   */
  function ShutdownHandlers(onStartup: Option<seq<Callable>>, onShutdown: Option<seq<Callable>>): (r: seq<Callable>)
    requires !ShutdownCopyFails(onStartup, onShutdown)
    ensures onStartup.None? ==> r == []
    ensures onStartup.Some? ==> r == onShutdown.value
  {
    if onStartup.None? then [] else onShutdown.value
  }

  /** The guard reads the wrong argument: given shutdown handlers can be lost. */
  lemma ShutdownHandlersDropped(onShutdown: seq<Callable>)
    requires onShutdown != []
    ensures ShutdownHandlers(None, Some(onShutdown)) != onShutdown
    ensures ShutdownCopyFails(Some(onShutdown), None)
  {
  }

  /** How a called app ends: normally, or by raising. */
  datatype Outcome = Returned | RaisedKeyError(error: KeyError) | RaisedHTTPException(statusCode: int)

  /** The raw headers of `PlainTextResponse("Not Found", status_code=404)`. */
  const NotFoundHeaders: seq<Header> :=
    [(ContentLengthName, AsciiBytes("9")), (ContentTpyeName, AsciiBytes("text/plain; charset=utf-8"))]

  const NotFoundBody: seq<byte> := AsciiBytes("Not Found")

  /** A plain-text response without caller headers, on ASCII text and a status with a body. */
  lemma PlainTextHeaders(text: string, status: int)
    requires IsAscii(text) && !OmitsLength(status)
    ensures Render(TextContent(text)) == AsciiBytes(text)
    ensures ExpectedHeaders(None, Render(TextContent(text)), status, ClassMediaType(PlainTextResponse))
      == Ok([(ContentLengthName, DecimalBytes(|text|)), (ContentTpyeName, AsciiBytes("text/plain; charset=utf-8"))])
  {
    AsciiUtf8(text);
    PlainTextMedia();
    TextResponseHeaders(text, status, "text/plain");
  }

  /** The facts about the `text/plain` media type the plain-text headers rest on. */
  lemma PlainTextMedia()
    ensures ClassMediaType(PlainTextResponse) == Some("text/plain")
    ensures StartsWith("text/plain", "text/") && IsLatin1("text/plain")
    ensures "text/plain" + "; charset=utf-8" == "text/plain; charset=utf-8"
  {
  }

  /**
   * The plain-text 404 sends the nine bytes of "Not Found" with exactly
   * `content-length: 9` and the misspelled content-type with the charset.
   */
  lemma NotFoundResponse()
    ensures Render(TextContent("Not Found")) == NotFoundBody
    ensures ExpectedHeaders(None, Render(TextContent("Not Found")), 404, ClassMediaType(PlainTextResponse))
      == Ok(NotFoundHeaders)
  {
    assert IsAscii("Not Found");
    PlainTextHeaders("Not Found", 404);
    assert DecimalBytes(9) == AsciiBytes("9") by { assert DecimalString(9) == "9"; }
  }

  class Router {
    var routes: seq<Route>
    var redirectSlashes: bool
    var default: DefaultApp
    var onStartup: seq<Callable>
    var onShutdown: seq<Callable>
    var lifespanContext: LifespanContext

    /**
     * `Router(routes, redirect_slashes, default, on_startup, on_shutdown,
     * lifespan)` on arguments for which it does not raise.
     */
    constructor (routes: Option<seq<Route>>, redirectSlashes: Option<bool>, default: Option<Callable>,
                 onStartup: Option<seq<Callable>>, onShutdown: Option<seq<Callable>>, lifespan: Option<Lifespan>)
      requires !ShutdownCopyFails(onStartup, onShutdown)
      ensures this.routes == (if routes.Some? then routes.value else [])
      ensures this.redirectSlashes == (redirectSlashes.None? || redirectSlashes.value)
      ensures this.default == (if default.Some? then GivenApp(default.value) else NotFoundApp)
      ensures this.onStartup == (if onStartup.Some? then onStartup.value else [])
      ensures this.onShutdown == ShutdownHandlers(onStartup, onShutdown)
      ensures lifespanContext == LifespanContextOf(lifespan)
    {
      this.routes := if routes.None? then [] else routes.value;
      this.redirectSlashes := if redirectSlashes.None? then true else redirectSlashes.value;
      this.default := if default.None? then NotFoundApp else GivenApp(default.value);
      this.onStartup := if onStartup.None? then [] else onStartup.value;
      this.onShutdown := if onStartup.None? then [] else onShutdown.value;
      if lifespan.None? {
        lifespanContext := DefaultLifespan;
      } else if lifespan.value.kind == AsyncGeneratorFunction {
        lifespanContext := AsyncContextManager(lifespan.value.f);
      } else if lifespan.value.kind == GeneratorFunction {
        lifespanContext := WrappedGenerator(lifespan.value.f);
      } else {
        lifespanContext := GivenLifespan(lifespan.value.f);
      }
    }

    /** `Router(...)` including the arguments for which it raises `TypeError`. */
    static method New(routes: Option<seq<Route>>, redirectSlashes: Option<bool>, default: Option<Callable>,
                      onStartup: Option<seq<Callable>>, onShutdown: Option<seq<Callable>>, lifespan: Option<Lifespan>)
      returns (r: Result<Router, InitError>)
      ensures r.Err? <==> ShutdownCopyFails(onStartup, onShutdown)
      ensures r.Err? ==> r.error == TypeError(NoneNotIterable)
      ensures r.Ok? ==>
        && fresh(r.value)
        && r.value.routes == (if routes.Some? then routes.value else [])
        && r.value.redirectSlashes == (redirectSlashes.None? || redirectSlashes.value)
        && r.value.default == (if default.Some? then GivenApp(default.value) else NotFoundApp)
        && r.value.onStartup == (if onStartup.Some? then onStartup.value else [])
        && r.value.onShutdown == ShutdownHandlers(onStartup, onShutdown)
        && r.value.lifespanContext == LifespanContextOf(lifespan)
    {
      if ShutdownCopyFails(onStartup, onShutdown) {
        return Err(TypeError(NoneNotIterable));
      }
      var router := new Router(routes, redirectSlashes, default, onStartup, onShutdown, lifespan);
      r := Ok(router);
    }

    /**
     * `await router.not_found(scope, receive, send)`: a WebSocket is closed
     * normally; inside an application (`"app"` in the scope) a 404 is raised
     * for the exception middleware; otherwise the plain-text 404 response is
     * sent. A scope without `"type"` raises `KeyError`.
     */
    method NotFound(scope: Scope, log: SendLog) returns (outcome: Outcome)
      modifies log
      ensures "type" !in Keys(scope) ==> outcome == RaisedKeyError(KeyError("type")) && log.sent == old(log.sent)
      ensures HasType(scope, "websocket") ==>
        outcome == Returned && log.sent == old(log.sent) + [WebSocketClose(NormalClosure, "")]
      ensures "type" in Keys(scope) && !HasType(scope, "websocket") && "app" in Keys(scope) ==>
        outcome == RaisedHTTPException(404) && log.sent == old(log.sent)
      ensures "type" in Keys(scope) && !HasType(scope, "websocket") && "app" !in Keys(scope) ==>
        outcome == Returned
        && log.sent == old(log.sent) + [ResponseStart(404, NotFoundHeaders), ResponseBody(NotFoundBody)]
    {
      var t := Get(scope, "type");
      if t.None? {
        return RaisedKeyError(KeyError("type"));
      }
      if t.value == Str("websocket") {
        var close := NewClose(None, None);
        log.Send(CloseMessage(close));
        return Returned;
      }
      if "app" in Keys(scope) {
        return RaisedHTTPException(404);
      }
      var response := NewResponse(PlainTextResponse, TextContent("Not Found"), status := 404);
      NotFoundResponse();
      Emit(response.value, log);
      outcome := Returned;
    }
  }
}
