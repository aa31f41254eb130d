/**
 * `Starlette`: the application object. It owns a router (built without
 * trailing-slash redirects), a state bag, the exception handlers and the
 * user middleware, and composes them into the middleware stack every call
 * goes through: server-error handling outermost, then the user middleware in
 * order, then exception handling, then the router.
 */
module Applications {
  import opened Base
  import opened Dicts
  import opened Asgi
  import opened Routes
  import opened Routers
  import opened States

  /** A key of the exception handler mapping: a status code or an exception class. */
  datatype HandlerKey = StatusCode(code: int) | ExceptionClass(name: string)

  type Handlers = Dict<HandlerKey, Callable>

  /** `key in (500, Exception)`: the keys whose handler goes to the server-error middleware. */
  predicate IsServerErrorKey(k: HandlerKey)
  {
    k == StatusCode(500) || k == ExceptionClass("Exception")
  }

  /** Middleware classes are opaque tags, apart from the two the application adds. */
  datatype MiddlewareClass = ServerErrorMiddleware | ExceptionMiddleware | UserMiddleware(name: string)

  /** The keyword options a middleware class is instantiated with. */
  datatype Options =
    | ServerErrorOptions(handler: Option<Callable>, debug: bool)
    | ExceptionOptions(handlers: Handlers, debug: bool)
    | UserOptions(options: Dict<string, Value>)

  /** `Middleware(cls, **options)`. */
  datatype Middleware = Middleware(cls: MiddlewareClass, options: Options)

  /** An ASGI app: the router, or a middleware instance wrapping an inner app. */
  datatype App = RouterApp(router: Router) | Layer(middleware: Middleware, inner: App)

  // ---------------------------------------------------------------------
  // Partitioning the exception handlers

  /**
   * The partition loop over `exception_handlers.items()`, as a fold over
   * the entries taken in order: the error handler and the remaining map.
   */
  function Partition(hs: Handlers): (Option<Callable>, Handlers)
    decreases |hs|
  {
    if hs == [] then (None, [])
    else
      var before := Partition(hs[..|hs| - 1]);
      var k := hs[|hs| - 1].0;
      var v := hs[|hs| - 1].1;
      if IsServerErrorKey(k) then (Some(v), before.1) else (before.0, Put(before.1, k, v))
  }

  /** The entries whose key is neither 500 nor `Exception`, in their order. */
  function OrdinaryEntries(hs: Handlers): (r: Handlers)
    ensures forall i :: 0 <= i < |r| ==> !IsServerErrorKey(r[i].0)
    decreases |hs|
  {
    if hs == [] then []
    else OrdinaryEntries(hs[..|hs| - 1]) + (if IsServerErrorKey(hs[|hs| - 1].0) then [] else [hs[|hs| - 1]])
  }

  /** Lookup in the ordinary entries: as in the whole map for ordinary keys, absent otherwise. */
  lemma {:induction false} OrdinaryEntriesGet(hs: Handlers, k: HandlerKey)
    ensures Get(OrdinaryEntries(hs), k) == if IsServerErrorKey(k) then None else Get(hs, k)
    decreases |hs|
  {
    if hs != [] {
      var init, last := hs[..|hs| - 1], hs[|hs| - 1];
      assert hs == init + [last];
      OrdinaryEntriesGet(init, k);
      GetAppend(init, [last], k);
      var tail := if IsServerErrorKey(last.0) then [] else [last];
      GetAppend(OrdinaryEntries(init), tail, k);
      if tail == [] {
        assert OrdinaryEntries(hs) == OrdinaryEntries(init) + [];
      }
    }
  }

  /** With distinct keys, the handler map the loop builds is exactly the ordinary entries. */
  lemma {:induction false} PartitionHandlers(hs: Handlers)
    requires DistinctKeys(hs)
    ensures Partition(hs).1 == OrdinaryEntries(hs)
    decreases |hs|
  {
    if hs != [] {
      var init, last := hs[..|hs| - 1], hs[|hs| - 1];
      assert DistinctKeys(init);
      PartitionHandlers(init);
      if IsServerErrorKey(last.0) {
        assert OrdinaryEntries(hs) == OrdinaryEntries(init) + [];
      } else {
        assert last.0 !in Keys(init) by {
          forall i | 0 <= i < |init| ensures Keys(init)[i] != last.0 {
            assert Keys(init)[i] == hs[i].0;
          }
        }
        OrdinaryEntriesGet(init, last.0);
        PutAbsent(OrdinaryEntries(init), last.0, last.1);
      }
    }
  }

  /**
   * Every key other than 500 and `Exception` keeps its handler, and those
   * two keys are dropped from the exception middleware's map.
   */
  lemma PartitionKeepsOrdinaryHandlers(hs: Handlers, k: HandlerKey)
    requires DistinctKeys(hs)
    ensures Get(Partition(hs).1, k) == if IsServerErrorKey(k) then None else Get(hs, k)
  {
    PartitionHandlers(hs);
    OrdinaryEntriesGet(hs, k);
  }

  /** The handler of the last 500/`Exception` entry, scanning from the end. */
  function LastServerErrorHandler(hs: Handlers): Option<Callable>
    decreases |hs|
  {
    if hs == [] then None
    else if IsServerErrorKey(hs[|hs| - 1].0) then Some(hs[|hs| - 1].1)
    else LastServerErrorHandler(hs[..|hs| - 1])
  }

  /** The loop's error handler is the one found scanning back from the end. */
  lemma {:induction false} PartitionErrorHandlerIsLast(hs: Handlers)
    ensures Partition(hs).0 == LastServerErrorHandler(hs)
    decreases |hs|
  {
    if hs != [] {
      PartitionErrorHandlerIsLast(hs[..|hs| - 1]);
    }
  }

  /** Entry `i` is the last one whose key is 500 or `Exception`. */
  predicate LastServerErrorEntry(hs: Handlers, i: int)
  {
    0 <= i < |hs| && IsServerErrorKey(hs[i].0) && forall j :: i < j < |hs| ==> !IsServerErrorKey(hs[j].0)
  }

  /** No handler is found exactly when no key is 500 or `Exception`. */
  lemma {:induction false} NoServerErrorHandler(hs: Handlers)
    ensures LastServerErrorHandler(hs).None? <==> forall i :: 0 <= i < |hs| ==> !IsServerErrorKey(hs[i].0)
    decreases |hs|
  {
    if hs != [] {
      var init := hs[..|hs| - 1];
      NoServerErrorHandler(init);
      assert forall i :: 0 <= i < |init| ==> init[i] == hs[i];
    }
  }

  /** A handler found is the value of the last 500/`Exception` entry. */
  lemma {:induction false} ServerErrorHandlerIsLast(hs: Handlers)
    ensures LastServerErrorHandler(hs).Some? ==>
      exists i :: LastServerErrorEntry(hs, i) && LastServerErrorHandler(hs).value == hs[i].1
    decreases |hs|
  {
    if hs != [] {
      var init := hs[..|hs| - 1];
      var n := |hs| - 1;
      if IsServerErrorKey(hs[n].0) {
        assert LastServerErrorEntry(hs, n);
      } else if LastServerErrorHandler(init).Some? {
        ServerErrorHandlerIsLast(init);
        var i :| LastServerErrorEntry(init, i) && LastServerErrorHandler(init).value == init[i].1;
        assert init[i] == hs[i];
        assert LastServerErrorEntry(hs, i) by {
          forall j | i < j < |hs| ensures !IsServerErrorKey(hs[j].0) {
            if j < n { assert hs[j] == init[j]; }
          }
        }
      }
    }
  }

  /**
   * The error handler the loop keeps is the value of the last 500/`Exception`
   * entry in iteration order, and None when there is no such entry.
   */
  lemma PartitionErrorHandler(hs: Handlers)
    ensures Partition(hs).0.None? <==> forall i :: 0 <= i < |hs| ==> !IsServerErrorKey(hs[i].0)
    ensures Partition(hs).0.Some? ==> exists i :: LastServerErrorEntry(hs, i) && Partition(hs).0.value == hs[i].1
  {
    PartitionErrorHandlerIsLast(hs);
    NoServerErrorHandler(hs);
    ServerErrorHandlerIsLast(hs);
  }

  // ---------------------------------------------------------------------
  // The middleware stack

  /** The composition list: server errors first, the user's middleware, exceptions last. */
  function MiddlewareList(debug: bool, hs: Handlers, user: seq<Middleware>): seq<Middleware>
  {
    [Middleware(ServerErrorMiddleware, ServerErrorOptions(Partition(hs).0, debug))]
    + user
    + [Middleware(ExceptionMiddleware, ExceptionOptions(Partition(hs).1, debug))]
  }

  /** Wrapping `core` in the middleware of `ms`, the first one outermost. */
  function Wrap(ms: seq<Middleware>, core: App): App
    decreases |ms|
  {
    if ms == [] then core else Layer(ms[0], Wrap(ms[1..], core))
  }

  /** The layers of an app, read from the outside in. */
  function Layers(app: App): seq<Middleware>
  {
    match app
    case RouterApp(_) => []
    case Layer(m, inner) => [m] + Layers(inner)
  }

  /** The app at the centre of all layers. */
  function Core(app: App): App
  {
    match app
    case RouterApp(_) => app
    case Layer(_, inner) => Core(inner)
  }

  /** Reading a wrapped router outside-in gives back the list it was wrapped in. */
  lemma {:induction false} WrapLayers(ms: seq<Middleware>, router: Router)
    ensures Layers(Wrap(ms, RouterApp(router))) == ms
    ensures Core(Wrap(ms, RouterApp(router))) == RouterApp(router)
    decreases |ms|
  {
    if ms != [] {
      WrapLayers(ms[1..], router);
      assert [ms[0]] + ms[1..] == ms;
    }
  }

  /** What `build_middleware_stack` returns. */
  function Stack(debug: bool, hs: Handlers, user: seq<Middleware>, router: Router): App
  {
    Wrap(MiddlewareList(debug, hs, user), RouterApp(router))
  }

  /**
   * The stack has the user's middleware plus two layers: the server-error
   * middleware outermost with the error handler, the user middleware in
   * their order, the exception middleware with the other handlers
   * innermost, and the router at the centre.
   */
  lemma StackOrder(debug: bool, hs: Handlers, user: seq<Middleware>, router: Router)
    ensures var layers := Layers(Stack(debug, hs, user, router));
      && |layers| == |user| + 2
      && layers[0] == Middleware(ServerErrorMiddleware, ServerErrorOptions(Partition(hs).0, debug))
      && layers[1..|user| + 1] == user
      && layers[|user| + 1] == Middleware(ExceptionMiddleware, ExceptionOptions(Partition(hs).1, debug))
      && Core(Stack(debug, hs, user, router)) == RouterApp(router)
  {
    var ms := MiddlewareList(debug, hs, user);
    WrapLayers(ms, router);
    assert ms[1..|user| + 1] == user;
  }

  // ---------------------------------------------------------------------
  // The application

  const LifespanConflictMessage := "Use either 'lifespan' or 'on_startup'/'on_shutdown', not both."

  /** The assertion `Starlette.__init__` starts with. */
  predicate LifespanExclusive(lifespan: Option<Lifespan>, onStartup: Option<seq<Callable>>,
                              onShutdown: Option<seq<Callable>>)
  {
    lifespan.None? || (onStartup.None? && onShutdown.None?)
  }

  class Starlette {
    var debugFlag: bool
    var state: State
    var router: Router
    var exceptionHandlers: Handlers
    var userMiddleware: seq<Middleware>
    var middlewareStack: App

    /**
     * `Starlette(debug, routes, middleware, exception_handlers, on_startup, on_shutdown, lifespan)`
     * when it does not raise. The handlers come from a mapping, so their keys are distinct.
     */
    constructor (debug: bool, routes: Option<seq<Route>>, middleware: Option<seq<Middleware>>,
                 exceptionHandlers: Option<Handlers>, onStartup: Option<seq<Callable>>,
                 onShutdown: Option<seq<Callable>>, lifespan: Option<Lifespan>)
      requires exceptionHandlers.Some? ==> DistinctKeys(exceptionHandlers.value)
      requires LifespanExclusive(lifespan, onStartup, onShutdown)
      requires !ShutdownCopyFails(onStartup, onShutdown)
      ensures debugFlag == debug
      ensures fresh(state) && state.store == map[]
      ensures fresh(router) && router.routes == (if routes.Some? then routes.value else [])
      ensures !router.redirectSlashes && router.default == NotFoundApp
      ensures router.onStartup == (if onStartup.Some? then onStartup.value else [])
      ensures router.onShutdown == ShutdownHandlers(onStartup, onShutdown)
      ensures router.lifespanContext == LifespanContextOf(lifespan)
      ensures this.exceptionHandlers == (if exceptionHandlers.Some? then exceptionHandlers.value else [])
      ensures userMiddleware == (if middleware.Some? then middleware.value else [])
      ensures middlewareStack == Stack(debugFlag, this.exceptionHandlers, userMiddleware, router)
    {
      debugFlag := debug;
      state := new State(None);
      router := new Router(routes, Some(false), None, onStartup, onShutdown, lifespan);
      this.exceptionHandlers := if exceptionHandlers.None? then [] else exceptionHandlers.value;
      userMiddleware := if middleware.None? then [] else middleware.value;
      middlewareStack := RouterApp(router);
      new;
      middlewareStack := BuildMiddlewareStack();
    }

    /** `Starlette(...)` including the arguments for which it raises. */
    static method New(debug: bool, routes: Option<seq<Route>>, middleware: Option<seq<Middleware>>,
                      exceptionHandlers: Option<Handlers>, onStartup: Option<seq<Callable>>,
                      onShutdown: Option<seq<Callable>>, lifespan: Option<Lifespan>)
      returns (r: Result<Starlette, InitError>)
      requires exceptionHandlers.Some? ==> DistinctKeys(exceptionHandlers.value)
      ensures !LifespanExclusive(lifespan, onStartup, onShutdown) ==> r == Err(AssertionError(LifespanConflictMessage))
      ensures LifespanExclusive(lifespan, onStartup, onShutdown) && ShutdownCopyFails(onStartup, onShutdown) ==>
        r == Err(TypeError(NoneNotIterable))
      ensures r.Ok? <==> LifespanExclusive(lifespan, onStartup, onShutdown) && !ShutdownCopyFails(onStartup, onShutdown)
      ensures r.Ok? ==>
        && fresh(r.value) && fresh(r.value.router) && fresh(r.value.state)
        && r.value.debugFlag == debug && r.value.state.store == map[]
        && r.value.router.routes == (if routes.Some? then routes.value else [])
        && !r.value.router.redirectSlashes && r.value.router.default == NotFoundApp
        && r.value.router.onStartup == (if onStartup.Some? then onStartup.value else [])
        && r.value.router.onShutdown == ShutdownHandlers(onStartup, onShutdown)
        && r.value.router.lifespanContext == LifespanContextOf(lifespan)
        && r.value.exceptionHandlers == (if exceptionHandlers.Some? then exceptionHandlers.value else [])
        && r.value.userMiddleware == (if middleware.Some? then middleware.value else [])
        && r.value.middlewareStack == Stack(debug, r.value.exceptionHandlers, r.value.userMiddleware, r.value.router)
    {
      if !LifespanExclusive(lifespan, onStartup, onShutdown) {
        return Err(AssertionError(LifespanConflictMessage));
      }
      if ShutdownCopyFails(onStartup, onShutdown) {
        return Err(TypeError(NoneNotIterable));
      }
      var app := new Starlette(debug, routes, middleware, exceptionHandlers, onStartup, onShutdown, lifespan);
      r := Ok(app);
    }

    /**
     * `build_middleware_stack`: splits the handlers, lists the middleware
     * and wraps the router in them from the last to the first.
     */
    method BuildMiddlewareStack() returns (app: App)
      ensures app == Stack(debugFlag, exceptionHandlers, userMiddleware, router)
    {
      var debug := debugFlag;
      var errorHandler: Option<Callable> := None;
      var handlers: Handlers := [];
      var hs := exceptionHandlers;
      for i := 0 to |hs|
        invariant (errorHandler, handlers) == Partition(hs[..i])
      {
        assert hs[..i + 1][..i] == hs[..i];
        var key, value := hs[i].0, hs[i].1;
        if IsServerErrorKey(key) {
          errorHandler := Some(value);
        } else {
          handlers := Put(handlers, key, value);
        }
      }
      assert hs[..|hs|] == hs;
      var middleware := [Middleware(ServerErrorMiddleware, ServerErrorOptions(errorHandler, debug))]
        + userMiddleware
        + [Middleware(ExceptionMiddleware, ExceptionOptions(handlers, debug))];
      app := RouterApp(router);
      var i := |middleware|;
      while i > 0
        invariant 0 <= i <= |middleware|
        invariant app == Wrap(middleware[i..], RouterApp(router))
      {
        i := i - 1;
        assert middleware[i..][1..] == middleware[i + 1..];
        app := Layer(middleware[i], app);
      }
    }

    /** The `debug` setter: the flag changes and the stack is rebuilt from the same parts. */
    method SetDebug(value: bool)
      modifies this
      ensures debugFlag == value
      ensures state == old(state) && router == old(router)
      ensures exceptionHandlers == old(exceptionHandlers) && userMiddleware == old(userMiddleware)
      ensures middlewareStack == Stack(value, exceptionHandlers, userMiddleware, router)
    {
      debugFlag := value;
      middlewareStack := BuildMiddlewareStack();
    }

    /**
     * `await app(scope, receive, send)`: the scope is tagged with the
     * application under `"app"`, every other entry kept, and handed to the
     * middleware stack.
     */
    method Call(scope: Scope) returns (tagged: Scope, next: App)
      ensures Get(tagged, "app") == Some(Obj(this))
      ensures forall k :: k != "app" ==> Get(tagged, k) == Get(scope, k)
      ensures Keys(tagged) == if "app" in Keys(scope) then Keys(scope) else Keys(scope) + ["app"]
      ensures next == middlewareStack
    {
      tagged := Put(scope, "app", Obj(this));
      forall k | true ensures Get(tagged, k) == if k == "app" then Some(Obj(this)) else Get(scope, k) {
        PutGet(scope, "app", Obj(this), k);
      }
      next := middlewareStack;
    }
  }
}
