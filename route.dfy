/**
 * `Route`: a path template bound to an endpoint. Construction checks the
 * path, names the route, unwraps `functools.partial` layers to decide
 * whether the endpoint is wrapped as a request/response function,
 * normalises the allowed HTTP methods and compiles the path.
 */
module Routes {
  import opened Base
  import opened Text
  import opened PathCompiler

  /**
   * The kinds of callables an endpoint can be, in place of runtime
   * reflection: plain Python functions, built-in functions, bound methods,
   * classes, other callable instances and `functools.partial` objects.
   */
  datatype Endpoint =
    | Function(name: string)
    | Builtin(name: string)
    | BoundMethod(name: string)
    | Class(name: string)
    | Instance(className: string)
    | Partial(func: Endpoint)

  /** `inspect.isroutine`: functions, built-ins and methods. */
  predicate IsRoutine(e: Endpoint)
  {
    e.Function? || e.Builtin? || e.BoundMethod?
  }

  /** `inspect.isfunction(e) or inspect.ismethod(e)`: built-ins are neither. */
  predicate IsFunctionOrMethod(e: Endpoint)
  {
    e.Function? || e.BoundMethod?
  }

  /**
   * `get_name`: routines and classes give their `__name__`, anything else
   * the name of its class; a partial object's class is `partial`.
   */
  function GetName(e: Endpoint): (r: string)
    ensures IsRoutine(e) || e.Class? ==> r == e.name
    ensures e.Instance? ==> r == e.className
    ensures e.Partial? ==> r == "partial"
  {
    match e
    case Function(n) => n
    case Builtin(n) => n
    case BoundMethod(n) => n
    case Class(n) => n
    case Instance(c) => c
    case Partial(_) => "partial"
  }

  /** What `while isinstance(h, functools.partial): h = h.func` ends with. */
  function Unwrapped(e: Endpoint): (r: Endpoint)
    ensures !r.Partial?
    ensures !e.Partial? ==> r == e
  {
    if e.Partial? then Unwrapped(e.func) else e
  }

  /** The innermost callable does not depend on how many partial layers wrap it. */
  lemma UnwrappedIdempotent(e: Endpoint)
    ensures Unwrapped(Unwrapped(e)) == Unwrapped(e)
    ensures Unwrapped(Partial(e)) == Unwrapped(e)
  {
  }

  /** The ASGI app a route dispatches to. */
  datatype RouteApp =
    | RequestResponse(endpoint: Endpoint)   // `request_response(endpoint)`
    | EndpointApp(endpoint: Endpoint)       // the endpoint itself, as an ASGI app

  datatype Route = Route(
    path: string,
    endpoint: Endpoint,
    name: string,
    app: RouteApp,
    methods: Option<set<string>>,
    compiled: CompiledPath)

  datatype RouteError = PathNotAbsolute | CompileFailed(error: CompileError)

  function RouteErrorMessage(e: RouteError): string
  {
    match e
    case PathNotAbsolute => "Route path must start with '/'"
    case CompileFailed(c) => ErrorMessage(c)
  }

  /** `{m.upper() for m in methods}`, then `HEAD` whenever `GET` is present. */
  function NormalMethods(methods: seq<string>): set<string>
  {
    var upper := set m | m in methods :: Upper(m);
    if "GET" in upper then upper + {"HEAD"} else upper
  }

  /** The method set a route stores, given the endpoint and the `methods` argument. */
  function RouteMethods(endpoint: Endpoint, methods: Option<seq<string>>): Option<set<string>>
  {
    if methods.Some? then Some(NormalMethods(methods.value))
    else if IsFunctionOrMethod(Unwrapped(endpoint)) then Some(NormalMethods(["GET"]))
    else None
  }

  lemma UpperChars(s: string)
    ensures Upper(Upper(s)) == Upper(s)
  {
  }

  lemma UpperFixes(s: string)
    requires forall i :: 0 <= i < |s| ==> !('a' <= s[i] <= 'z')
    ensures Upper(s) == s
  {
  }

  /**
   * Normalised method sets hold only upper-case names, contain `HEAD`
   * whenever they contain `GET`, contain the upper-case form of every given
   * name and nothing beyond those and `HEAD`, and contain `HEAD` only when
   * it or `GET` was given.
   */
  lemma NormalMethodsSpec(methods: seq<string>)
    ensures var r := NormalMethods(methods);
      && ("GET" in r ==> "HEAD" in r)
      && (forall m :: m in methods ==> Upper(m) in r)
      && (forall x :: x in r ==> x == "HEAD" || exists m :: m in methods && Upper(m) == x)
      && (forall x :: x in r ==> Upper(x) == x)
      && ("HEAD" in r ==> "GET" in r || exists m :: m in methods && Upper(m) == "HEAD")
  {
    var r := NormalMethods(methods);
    var upper := set m | m in methods :: Upper(m);
    if "HEAD" in r && "HEAD" !in upper {
      assert "GET" in upper;
    }
    forall x | x in r ensures Upper(x) == x {
      if x != "HEAD" {
        var m :| m in methods && Upper(m) == x;
        UpperChars(m);
      } else {
        UpperFixes("HEAD");
      }
    }
  }

  /** The default for plain functions is exactly `{GET, HEAD}`. */
  lemma DefaultMethods(endpoint: Endpoint)
    requires IsFunctionOrMethod(Unwrapped(endpoint))
    ensures RouteMethods(endpoint, None) == Some({"GET", "HEAD"})
  {
    var upper := set m | m in ["GET"] :: Upper(m);
    UpperFixes("GET");
    assert "GET" in ["GET"];
    assert "GET" in upper;
    forall x | x in upper ensures x == "GET" {
      var m :| m in ["GET"] && Upper(m) == x;
      assert m == "GET";
    }
    assert upper == {"GET"};
    assert NormalMethods(["GET"]) == upper + {"HEAD"} == {"GET", "HEAD"};
  }

  /** Normalising an already normalised method list is the identity. */
  lemma NormalMethodsIdempotent(methods: seq<string>, again: seq<string>)
    requires Elements(again) == NormalMethods(methods)
    ensures NormalMethods(again) == NormalMethods(methods)
  {
    NormalMethodsSpec(methods);
    var upper := set m | m in again :: Upper(m);
    assert upper == Elements(again) by {
      forall x | x in Elements(again) ensures x in upper { assert Upper(x) == x; }
    }
    assert "GET" in upper ==> "HEAD" in upper;
  }

  /** `Route(path, endpoint, methods=..., name=...)`. */
  method NewRoute(path: string, endpoint: Endpoint, methods: Option<seq<string>>, name: Option<string>)
    returns (r: Result<Route, RouteError>)
    ensures !StartsWith(path, "/") ==> r == Err(PathNotAbsolute)
    ensures StartsWith(path, "/") && !Compiles(path) ==> r.Err? && r.error.CompileFailed?
    ensures var phs := Placeholders(path, 0);
      StartsWith(path, "/") && FirstUnknown(phs).Some? ==>
        r == Err(CompileFailed(UnknownConvertor(FirstUnknown(phs).value)))
    ensures var phs := Placeholders(path, 0);
      StartsWith(path, "/") && AllKnown(phs) && DuplicateNames(phs) != {} ==>
        && r.Err? && r.error.CompileFailed? && r.error.error.DuplicatedParams?
        && r.error.error.path == path
        && Sorted(r.error.error.names) && NoDuplicates(r.error.error.names)
        && Elements(r.error.error.names) == DuplicateNames(phs)
    ensures r.Ok? <==> Compiles(path)
    ensures r.Ok? ==>
      && r.value.path == path && r.value.endpoint == endpoint
      && r.value.name == (if name.Some? then name.value else GetName(endpoint))
      && r.value.app == (if IsFunctionOrMethod(Unwrapped(endpoint)) then RequestResponse(endpoint) else EndpointApp(endpoint))
      && r.value.methods == RouteMethods(endpoint, methods)
      && AllKnown(Placeholders(path, 0)) && r.value.compiled == Compiled(path)
  {
    if !StartsWith(path, "/") {
      return Err(PathNotAbsolute);
    }
    var routeName := if name.Some? then name.value else GetName(endpoint);
    var handler := endpoint;
    while handler.Partial?
      invariant Unwrapped(handler) == Unwrapped(endpoint)
      decreases handler
    {
      handler := handler.func;
    }
    var app: RouteApp;
    var given := methods;
    if IsFunctionOrMethod(handler) {
      app := RequestResponse(endpoint);
      if given.None? {
        given := Some(["GET"]);
      }
    } else {
      app := EndpointApp(endpoint);
    }
    var allowed: Option<set<string>> := None;
    if given.Some? {
      var ms := given.value;
      var upper: set<string> := {};
      for i := 0 to |ms|
        invariant upper == set m | m in ms[..i] :: Upper(m)
      {
        assert ms[..i + 1] == ms[..i] + [ms[i]];
        upper := upper + {Upper(ms[i])};
      }
      assert ms[..|ms|] == ms;
      if "GET" in upper {
        upper := upper + {"HEAD"};
      }
      allowed := Some(upper);
    }
    var compiled := CompilePath(path);
    if compiled.Err? {
      return Err(CompileFailed(compiled.error));
    }
    r := Ok(Route(path, endpoint, routeName, app, allowed, compiled.value));
  }
}
