# A verified model of a small Starlette re-implementation

This project models the core of a teaching re-implementation of the
Starlette ASGI framework, and proves properties of that model in Dafny. The
core covers these parts:

- **Path-parameter convertors.** A fixed registry of named codecs between URL
  text and typed values: `str`, `path`, `int`, `float` and `uuid`.
- **`compile_path`.** It turns a route template such as `/users/{id:int}`
  into an anchored matcher, a `{name}` format string and a name-to-convertor
  map.
- **`Route` construction.** It checks the path, names the route, unwraps
  `functools.partial` layers and normalises the HTTP method set.
- **`Response`.** It renders the body and derives the raw header list. It is
  sent as an `http.response.start` message followed by an
  `http.response.body` message. It comes in plain, HTML, plain-text, JSON and
  redirect variants.
- **`Router`.** Its constructor, and `not_found`, the fallback app.
- **`WebSocketClose`.** An app that sends one `websocket.close` message.
- **`Starlette`, the application.** It partitions the exception handlers and
  builds the middleware stack. Its `debug` setter rebuilds that stack. A call
  tags the scope with the application.
- **`State`.** An attribute bag backed by a dict.
- **`HTTPConnection` and `Request`.** `HTTPConnection` is a read-only mapping
  view of an ASGI scope, with cached headers. `Request` adds the receive and
  send channels and the stream flags.

## Modules and files

- `base.dfy`: `Option`, `Result`, bytes.
- `text.dfy`: decimal digits, `int()`/`str()`, ASCII case mapping, `join`, `sorted`.
- `encoding.dfy`: the Latin-1 (ISO/IEC 8859-1) and UTF-8 (RFC 3629) encodings.
- `dicts.dfy`: Python's insertion-ordered dict as an association list.
- `asgi.dfy`: scope values, the ASGI messages, and a `SendLog` object that
  stands for the `send` callable and records what it is given.
- One module per source file: `convertor.dfy`, `compile_path.dfy` and
  `route.dfy` (route.py), `response.dfy`, `router.dfy`, `websocket.dfy`,
  `application.dfy`, `datastructure.dfy`, `request.dfy`.

## How the Python maps to Dafny

**Form.** Each file follows the form of its Python source:

- Immutable values are datatypes: convertors, placeholders, compiled paths,
  routes, responses, closes and middleware stacks.
- Objects whose fields are written after construction are classes:
  `Router`, `Starlette`, `State`, `HTTPConnection`, `Request`.
- Step-by-step code is written as methods with loops and invariants:
  - the `finditer` loop of `compile_path`;
  - the partial-unwrapping and method loops of `Route`;
  - the header building of `init_headers`;
  - the partition and fold loops of `build_middleware_stack`.

  Each method is proved equal to a specification function, and the
  properties are proved about that function.

**Errors.** A failing `assert` or exception becomes an `Err` result:

- in convertors, `compile_path`, `Route` and `Response` (Latin-1 encoding
  errors);
- in `State.__delattr__`, and for the missing `"type"` key in `not_found`.

**Constructors that raise.** `Router(...)` and `Starlette(...)` can raise.
Each class therefore has a constructor whose precondition excludes exactly
the raising arguments, and a static `New` method. `New` returns the error
for those arguments and a fresh object otherwise.

**HTTPConnection asserts.** The `assert`s on the scope type in the
`HTTPConnection` and `Request` constructors are preconditions.

**Behaviour kept as written.** Where the code and the framework's documented
intent differ, the model follows the code:

- The media-type header is emitted under the misspelled name `content-tpye`
  (response.py line 90).
- `Router.on_shutdown` is guarded by `on_startup` (router.py line 79):
  - shutdown handlers given without startup handlers are dropped;
  - startup handlers given without shutdown handlers make `list(None)` raise
    `TypeError`.
- Templates not starting with `/` take the host branch, which calls the
  non-existent `re.escap` (route.py line 84), so they never compile.
- `Route` accepts `include_in_schema` but never stores it.

## Model

| member | source | states |
|---|---|---|
| Convertors.LookupConvertor | starlette/convertor.py:90-96 | a name resolves exactly when it is one of `str`, `path`, `int`, `float`, `uuid`, and `str`/`path`/`int` resolve to their own convertors |
| Convertors.StringToStringAcceptsItsRegex | starlette/convertor.py:22-36 | string `to_string` succeeds exactly on non-empty text without `/` (the language of `[^/]+`) and returns it unchanged; a `/` fails with the separator message first |
| Convertors.StringRoundTrip | starlette/convertor.py:25-36 | every segment the `str` regex captures survives `to_string(convert(s))` unchanged |
| Convertors.PathRoundTrip | starlette/convertor.py:39-46 | path `convert` and `to_string` are inverse identities, and `/` is accepted by `.*` but not by `[^/]+` |
| Convertors.IntegerConvert | starlette/convertor.py:52-53 | a digit string converts to the number it denotes |
| Convertors.IntegerToString | starlette/convertor.py:55-61 | fails exactly for negative integers, with the "Negative integers are not supported" message |
| Convertors.IntegerToStringMatchesRegex | starlette/convertor.py:50-61 | every non-negative integer renders as a string of `[0-9]+` |
| Convertors.IntegerRoundTrip | starlette/convertor.py:52-61 | `convert(to_string(n)) == n` for every `n >= 0` |
| Convertors.IntegerTextRoundTrip | starlette/convertor.py:50-61 | for a digit string `s`, `to_string(convert(s))` is `s` without leading zeros, and equals `s` exactly when `s` is canonical |
| Convertors.NegativeAcceptedOnlyOneWay | starlette/convertor.py:52-61 | for every digit string with a positive value, `convert` accepts it with a leading `-` as that negative number, and `to_string` refuses the number |
| PathCompiler.RunEnd | starlette/route.py:43 | the end of the longest `[a-zA-Z0-9_]` run: every character before it is a name character and the one at it is not |
| PathCompiler.MatchAt | starlette/route.py:43 | a placeholder match starting at `p` lies within the string and starts at `p` |
| PathCompiler.MatchAtSound | starlette/route.py:43 | every match is `{name}` with type `str` or `{name:type}`, with a well-formed name and type |
| PathCompiler.BarePlaceholderMatches | starlette/route.py:43 | the text `{name}` is matched, with its type defaulting to `str` |
| PathCompiler.TypedPlaceholderMatches | starlette/route.py:43 | the text `{name:type}` is matched, with that name and type |
| PathCompiler.FindFrom | starlette/route.py:56 | one `finditer` step: the leftmost match at or after `i`, with no match before it, or none at all |
| PathCompiler.Placeholders | starlette/route.py:56 | the matches of `finditer` are in order, do not overlap, and each is a match at its start |
| PathCompiler.FirstUnknown | starlette/route.py:56-60 | no result exactly when every placeholder type is registered; otherwise the unregistered type of the first placeholder, in template order, whose type is not registered |
| PathCompiler.ScanTemplate | starlette/route.py:56-75 | the loop stops at the first unregistered convertor; otherwise its matcher, format, convertor map and duplicate set are those of the whole template, up to the trailing literal |
| PathCompiler.CompilePath | starlette/route.py:45-90 | compiles exactly when all convertors are known, no name repeats and the path starts with `/`; errors in the order unknown convertor, duplicates (sorted, distinct, exactly the repeated names), host branch; success gives `Compiled(path)` |
| PathCompiler.SortedNames | starlette/route.py:78 | `sorted(set)`: a sorted list without repeats holding exactly the set's elements |
| PathCompiler.ConvertorMapKeys | starlette/route.py:70-73 | the keys of `param_convertors` are exactly the template's placeholder names |
| PathCompiler.ConvertorMapAt | starlette/route.py:73 | a name maps to the convertor of its last placeholder |
| PathCompiler.ConvertorMapSpec | starlette/route.py:62-73 | exactly the template's names are keys, and without repeats each maps to its registry convertor |
| PathCompiler.DuplicateNamesSound | starlette/route.py:70-71 | a reported duplicate is carried by two placeholders |
| PathCompiler.DuplicateNamesComplete | starlette/route.py:70-71 | a name carried by two placeholders is reported |
| PathCompiler.DuplicateNamesSpec | starlette/route.py:70-71 | a name is reported exactly when two placeholders carry it |
| PathCompiler.NoDuplicateNamesIff | starlette/route.py:70-80 | no duplicate error exactly when the names are pairwise distinct |
| PathCompiler.TemplateDecomposition | starlette/route.py:56-88 | the template is its literal pieces interleaved with the placeholder texts |
| PathCompiler.TextsAreBracedNames | starlette/route.py:43 | each placeholder text is `{name}` (type `str`) or `{name:type}` |
| PathCompiler.AlternateShape | starlette/route.py:64-65 | the matcher has literal piece `k` at position `2k` and the `k`-th group right after it |
| PathCompiler.ParamSegmentsAt | starlette/route.py:62-65 | the `k`-th named group carries the `k`-th placeholder's name and registry convertor |
| PathCompiler.CompiledPathSpec | starlette/route.py:45-90 | a compiled template, its format and its matcher share the same literal pieces in order: the format puts `{name}` between them, the matcher a named group per placeholder; the convertor map has one entry per name |
| PathCompiler.DuplicateMessageWording | starlette/route.py:77-80 | the duplicate message says "names" for several names and "name" for one |
| PathCompiler.UnknownConvertorRejected | starlette/route.py:56-60 | a placeholder with an unregistered type means the template does not compile, and the unknown convertor reported is that one or an earlier one |
| Routes.GetName | starlette/route.py:31-35 | routines and classes give their own name, other objects their class name, a partial `partial` |
| Routes.Unwrapped | starlette/route.py:118-119 | unwrapping ends on a non-partial, and a non-partial is kept |
| Routes.UnwrappedIdempotent | starlette/route.py:118-119 | unwrapping twice, or under one more partial layer, gives the same callable |
| Routes.NormalMethodsSpec | starlette/route.py:129-135 | the method set is upper-case, holds every given method upper-cased and nothing else but HEAD, contains HEAD with GET, and contains HEAD only when GET or HEAD was given |
| Routes.DefaultMethods | starlette/route.py:122-125 | a function or method endpoint without methods allows exactly `{GET, HEAD}` |
| Routes.NormalMethodsIdempotent | starlette/route.py:129-135 | normalising a normalised method set changes nothing |
| Routes.NewRoute | starlette/route.py:95-137 | a path not starting with `/` is refused; otherwise the route exists exactly when the path compiles, and a failed compilation passes on `compile_path`'s own error (the first unknown convertor, else the sorted repeated names); a route has the given or derived name, a request/response app for functions and methods, the normalised methods and the compiled path |
| Responses.Render | starlette/response.py:38-44 | None renders as no bytes, bytes pass through, text becomes between one and four bytes per character |
| Responses.DecimalBytes | starlette/response.py:82-83 | the `content-length` value decodes to the decimal digits of the length, which read back as the length |
| Responses.CallerHeadersSpec | starlette/response.py:65-68 | encoding the caller's headers succeeds exactly when every lower-cased name and every value is Latin-1, giving one header per entry in mapping order |
| Responses.InitHeaders | starlette/response.py:46-93 | the header-building method returns exactly `ExpectedHeaders`, error included |
| Responses.CandidateIff | starlette/response.py:69-71 | a derived header is suppressed exactly when a caller key lower-cases to its name |
| Responses.HeaderParts | starlette/response.py:65-93 | the header list is the caller's headers, then the length header, then the media-type header |
| Responses.DerivedHeaders | starlette/response.py:77-90 | the derived part has at most two headers: `content-length` exactly when populated and the status allows it, with the body length; `content-tpye` exactly when a media type is set and populated, with its value |
| Responses.HeaderLayout | starlette/response.py:65-93 | the caller's headers come first, in mapping order and lower-cased; then at most two derived headers, each `content-length` or `content-tpye`, never `content-type` |
| Responses.ContentLengthRule | starlette/response.py:70-83 | `content-length` is derived exactly when no caller key names it and the status is at least 200 and not 204 or 304; its value parses to the body length |
| Responses.ContentTypeRule | starlette/response.py:71-90 | the media-type header is derived exactly when a media type is set and no caller key is `content-type`; its value gets `; charset=utf-8` for `text/` types |
| Responses.EncodeErrorIff | starlette/response.py:65-90 | building the headers fails exactly on a caller header or media-type value outside Latin-1 |
| Responses.Build | starlette/response.py:17-30 | a response keeps the status, takes the explicit media type over the class one, and has exactly the expected headers, or fails with their encoding error |
| Responses.NewResponse | starlette/response.py:17-30 | a plain, HTML or plain-text response renders its content and derives headers for the class media type unless one is given, or fails with the header encoding error; content, status, headers and media type default to none, 200, none and the class's |
| Responses.NewJSONResponse | starlette/response.py:112-133 | a JSON response's body is the UTF-8 of the dumped text and its media type `application/json` unless one is given, or it fails with the header encoding error; the status defaults to 200 and headers to none |
| Responses.NewRedirectResponse | starlette/response.py:144-152 | a redirect has an empty body, no media type and the expected headers for the given status, or fails with the header encoding error; status defaults to 307 and headers to none, and that default redirect carries exactly `content-length: 0` |
| Responses.RedirectHeaders | starlette/response.py:148-152 | a default redirect without caller headers has exactly `content-length: 0` |
| Responses.TextResponseHeaders | starlette/response.py:51-90 | a `text/` response without caller headers gets exactly `content-length` and `content-tpye` with the charset |
| Responses.Emit | starlette/response.py:95-105 | calling a response sends the start message with status and headers, then the body message, and nothing else |
| WebSockets.NewClose | starlette/websocket.py:8-10 | the code defaults to 1000; a None or empty reason becomes "", any other reason is kept |
| WebSockets.CloseMessage | starlette/websocket.py:12-15 | the message sent is `websocket.close` with the stored code and reason |
| WebSockets.CloseMessageInjective | starlette/websocket.py:12-15 | two closes send the same message exactly when they are equal |
| WebSockets.DefaultClose | starlette/websocket.py:8-15 | the default close is code 1000 with an empty reason, the same as one given "" |
| Routers.LifespanContextOf | starlette/router.py:81-90 | no lifespan gives the default lifespan, and any given lifespan is the one kept |
| Routers.ShutdownHandlers | starlette/router.py:79 | shutdown handlers are kept only when startup handlers are given |
| Routers.ShutdownHandlersDropped | starlette/router.py:79 | shutdown handlers given alone are dropped, and startup handlers given alone make construction fail |
| Routers.PlainTextHeaders | starlette/router.py:103 | a plain-text response on ASCII text renders its bytes and gets exactly `content-length` and `content-tpye: text/plain; charset=utf-8` |
| Routers.NotFoundResponse | starlette/router.py:103-104 | the 404 response body is "Not Found" with exactly `content-length: 9` and `content-tpye: text/plain; charset=utf-8` |
| Routers.Router.constructor | starlette/router.py:65-90 | routes copied or empty, `redirect_slashes` defaulting to true, `not_found` as default, startup handlers copied or empty, shutdown handlers guarded by startup, the lifespan context |
| Routers.Router.New | starlette/router.py:65-90 | construction fails with `TypeError` exactly when startup handlers are given without shutdown handlers; otherwise the fields are as above |
| Routers.Router.NotFound | starlette/router.py:92-104 | a websocket is closed with 1000 and "" even inside an app; otherwise `"app"` in the scope raises a 404 and sends nothing; otherwise the 404 start and "Not Found" body are sent; no `"type"` raises `KeyError` |
| Applications.OrdinaryEntriesGet | mystarlette/application.py:79-84 | lookup among the ordinary entries finds an ordinary key's handler and never a 500/`Exception` key |
| Applications.PartitionHandlers | mystarlette/application.py:79-84 | the handler map the loop builds is exactly the ordinary entries, in order |
| Applications.PartitionKeepsOrdinaryHandlers | mystarlette/application.py:79-84 | every key but 500 and `Exception` keeps its handler; those two are dropped |
| Applications.PartitionErrorHandlerIsLast | mystarlette/application.py:79-81 | the loop's error handler is the last 500/`Exception` handler found scanning back |
| Applications.NoServerErrorHandler | mystarlette/application.py:79-81 | no error handler exactly when no key is 500 or `Exception` |
| Applications.ServerErrorHandlerIsLast | mystarlette/application.py:79-81 | an error handler found is the value of the last 500/`Exception` entry |
| Applications.PartitionErrorHandler | mystarlette/application.py:73-84 | the error handler is None exactly without a 500/`Exception` key, and otherwise the value of the last such entry |
| Applications.WrapLayers | mystarlette/application.py:94-100 | wrapping from the last middleware to the first puts the first outermost: read outside-in, the layers are the list, around the router |
| Applications.StackOrder | mystarlette/application.py:86-100 | the stack has the user middleware plus two layers: server errors outermost with the error handler, user middleware in order, exceptions innermost with the other handlers, the router at the centre |
| Applications.Starlette.constructor | mystarlette/application.py:17-52 | the exception handlers have distinct keys, as a mapping does; debug kept, empty state, a router without slash redirects and with the given handlers and lifespan, handlers and middleware copied or empty, the stack built from them |
| Applications.Starlette.New | mystarlette/application.py:39-52 | construction fails with the assertion message when a lifespan is combined with startup or shutdown handlers, then with the router's `TypeError`; otherwise every field is as the constructor sets it: debug, an empty state, the router's fields with slash redirects off, the handlers and middleware copied or empty, and the stack built from them |
| Applications.Starlette.BuildMiddlewareStack | mystarlette/application.py:64-100 | the partition and fold loops return exactly `Stack` of the debug flag, handlers, user middleware and router |
| Applications.Starlette.SetDebug | mystarlette/application.py:58-62 | the debug flag changes and the stack is rebuilt from the same router, handlers and middleware, which are unchanged |
| Applications.Starlette.Call | mystarlette/application.py:102-104 | the scope handed on has `"app"` set to the application and every other entry as before, and goes to the middleware stack |
| States.State.constructor | starlette/datastructure.py:8-11 | no dict gives an empty store, a given dict is the store |
| States.State.GetAttr | starlette/datastructure.py:16-21 | `__getattr__`: a stored key gives its value; an absent one gives `AttributeError` naming the class and key |
| States.State.SetAttr | starlette/datastructure.py:13-14 | afterwards the key reads as the value and every other key reads as before |
| States.State.DelAttr | starlette/datastructure.py:23-24 | an absent key fails with `KeyError` and changes nothing; a present one is removed and no other key changes |
| States.NoAttributeMessageInjective | starlette/datastructure.py:19-21 | distinct keys give distinct missing-attribute messages |
| Requests.HTTPConnection.constructor | mystarlette/request.py:13-19 | only http or websocket scopes with distinct keys (a dict) are accepted, stored unchanged, with no headers cached |
| Requests.HTTPConnection.GetItem | mystarlette/request.py:21-22 | lookup succeeds exactly for a scope key, with its value, and otherwise fails with `KeyError` |
| Requests.HTTPConnection.Iter | mystarlette/request.py:24-25 | iteration yields exactly the scope's keys in their order |
| Requests.HTTPConnection.Len | mystarlette/request.py:27-28 | the length is the number of keys iterated |
| Requests.HTTPConnection.PathParams | mystarlette/request.py:42-44 | `path_params` is the scope's entry when present, an empty mapping otherwise |
| Requests.HTTPConnection.GetHeaders | mystarlette/request.py:30-34 | the headers object is built on the first read and the same one is returned afterwards |
| Requests.MappingView | mystarlette/request.py:21-28 | lookup succeeds exactly for the keys iteration yields, and the length counts them |
| Requests.Request.Receive | mystarlette/request.py:47-63 | awaiting the request's receive channel raises exactly when it is the default one, with the default receive's runtime error; a given channel is called instead |
| Requests.Request.Send | mystarlette/request.py:47-63 | awaiting the request's send channel raises exactly when it is the default one, with the default send's runtime error for every message; a given channel is called instead |
| Requests.DefaultChannelsRaise | mystarlette/request.py:47-63 | a request with the default channels raises on every receive and every send, each with its own message |
| Requests.Request.constructor | starlette/request.py:28-34 | only http scopes; the connection holds the scope, the channels are kept and default to the empty ones, both stream flags start false, and a channel left at its default raises its runtime error when awaited |
| Text.DecimalOfParse | starlette/convertor.py:52-61 | `str(int(s))` of a digit string is `s` without leading zeros, and `s` itself exactly when it is canonical |
| Text.SortStrings | starlette/route.py:78 | the result is sorted and a permutation of the input |
| Encoding.Latin1RoundTrip | starlette/response.py:66 | Latin-1 encoding then decoding gives the text back |
| Encoding.Utf8LengthIsCharCountOnlyForAscii | starlette/response.py:44 | the UTF-8 body is as long as the text exactly when the text is ASCII |
| Dicts.PutGet | mystarlette/application.py:84 | after `d[k] = v`, `k` reads `v` and every other key reads as before |

## Left out

- Lifespan machinery (`_DefaultLifespan`, `_wrap_gen_lifespan_context`, the async and generator context managers, `inspect` checks): the lifespan context is recorded as a tag naming which wrapper the constructor picked. The deprecation warnings are not modelled.
- `Router.__call__`, route matching, dispatch and slash redirects: the router has none of them.
- Async execution, `request_response`, `run_in_threadpool` and background tasks: a route's app is a tag, and sending is appending to a log of messages.
- Float and UUID convertors: only their registry names and regexes are modelled, because they are floating-point formatting and a wrapper over the `uuid` library.
- Convertors.IntegerConvert: `int()` is modelled on an optional sign followed by ASCII digits. Whitespace, underscores and non-ASCII digits are not modelled.
- Responses.NewJSONResponse: takes the text `json.dumps` produced as a parameter, because JSON serialisation is library code.
- Responses.NewRedirectResponse: the `location` header is not modelled. It is set through `MutableHeaders` with `urllib.parse.quote`, and neither is part of this model.
- The `Response.headers` property and `Headers` parsing: `MutableHeaders` and `Headers` are not part of this model. `Headers` is an opaque object that records its scope.
- `query_params`: it refers to an undefined `QueryParams`.
- `debug_print`: it only prints.
- Text.Upper and Text.Lower: map ASCII letters only; Python's full Unicode case mapping is not modelled.
- Applications.IsServerErrorKey: `key in (500, Exception)` is modelled as equality with the status code 500 or the class `Exception`. Keys of other Python types that compare equal to 500, such as `500.0`, are not modelled.
- Middleware classes are tags. Instantiating them (`cls(app=app, **options)`) is modelled as a layer value around the inner app; their behaviour is not part of this model.
- States.State.GetAttr: names that ordinary attribute lookup finds (`_state`, dunder attributes, methods) never reach `__getattr__` or the store; this is not modelled.
- Applications.Starlette.Call: the caller's scope dict is updated in place. The model returns the updated scope and does not model that aliasing.
- States.State.constructor: the given dict is copied into the store as a value. Aliasing is not modelled: later writes through the caller's dict are not seen by the state, and state writes are not seen through the caller's dict.
- Routers.Router.constructor: routes are `Route` values only; other `BaseRoute` kinds are not part of this model.
- Requests.Request.constructor: `Request` inheriting from `HTTPConnection` is modelled as a `connection` field.
