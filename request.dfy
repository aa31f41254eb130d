/**
 * `HTTPConnection` and `Request`: a read-only mapping view of an HTTP or
 * WebSocket scope, with lazily built headers, and the request object with
 * its receive/send channels and stream flags.
 */
module Requests {
  import opened Base
  import opened Dicts
  import opened Asgi

  /** `Headers(scope=...)`, built from the scope; its parsing is not part of this model. */
  class Headers {
    const scope: Scope

    constructor (scope: Scope)
      ensures this.scope == scope
    {
      this.scope := scope;
    }
  }

  /** The only scope types a connection accepts. */
  predicate IsConnectionScope(scope: Scope)
  {
    HasType(scope, "http") || HasType(scope, "websocket")
  }

  class HTTPConnection {
    const scope: Scope
    /** The `_headers` attribute, absent until `headers` is first read. */
    var cachedHeaders: Option<Headers>

    /**
     * `HTTPConnection(scope)`: asserts that the scope is HTTP or WebSocket.
     * The scope is a Python dict, so its keys are distinct.
     */
    constructor (scope: Scope)
      requires DistinctKeys(scope) && IsConnectionScope(scope)
      ensures this.scope == scope && cachedHeaders.None?
    {
      this.scope := scope;
      cachedHeaders := None;
    }

    /** `conn[key]`: the scope's value, or `KeyError` for an absent key. */
    function GetItem(key: string): (r: Result<Value, KeyError>)
      ensures r.Ok? <==> key in Keys(scope)
      ensures r.Ok? ==> Get(scope, key) == Some(r.value)
      ensures r.Err? ==> r.error == KeyError(key)
    {
      var v := Get(scope, key);
      if v.Some? then Ok(v.value) else Err(KeyError(key))
    }

    /** `iter(conn)`: the scope's keys in their order. */
    function Iter(): (ks: seq<string>)
      ensures |ks| == |scope|
      ensures forall i :: 0 <= i < |ks| ==> ks[i] == scope[i].0
    {
      Keys(scope)
    }

    /** `len(conn)`. */
    function Len(): (n: nat)
      ensures n == |Iter()|
    {
      |scope|
    }

    /** `conn.path_params`: `scope.get("path_params", {})`. */
    function PathParams(): (r: Value)
      ensures "path_params" in Keys(scope) ==> Some(r) == Get(scope, "path_params")
      ensures "path_params" !in Keys(scope) ==> r == DictValue([])
    {
      var v := Get(scope, "path_params");
      if v.Some? then v.value else DictValue([])
    }

    /** `conn.headers`: built on the first read, the same object on every later one. */
    method GetHeaders() returns (h: Headers)
      modifies this
      ensures old(cachedHeaders).Some? ==> h == old(cachedHeaders).value && cachedHeaders == old(cachedHeaders)
      ensures old(cachedHeaders).None? ==> fresh(h) && h.scope == scope && cachedHeaders == Some(h)
    {
      if cachedHeaders.None? {
        var built := new Headers(scope);
        cachedHeaders := Some(built);
      }
      h := cachedHeaders.value;
    }
  }

  /**
   * The mapping view agrees with itself: every key it iterates is found by
   * lookup, every key lookup finds is iterated, and the length counts them.
   */
  lemma MappingView(c: HTTPConnection, key: string)
    ensures c.GetItem(key).Ok? <==> key in c.Iter()
    ensures c.Len() == |Keys(c.scope)|
  {
    assert c.Iter() == Keys(c.scope);
  }

  datatype RuntimeError = RuntimeError(message: string)

  /** A receive or send channel: the default one, or one the server gave. */
  datatype Channel = EmptyChannel | GivenChannel(f: Callable)

  /** Awaiting the default `receive`: it always raises. */
  function EmptyReceive(): Result<Message, RuntimeError>
  {
    Err(RuntimeError("Receive channel has not been made available"))
  }

  /** Awaiting the default `send(message)`: it always raises, whatever the message. */
  function EmptySend(m: Message): Result<(), RuntimeError>
  {
    Err(RuntimeError("Send channel has not been made available"))
  }

  /**
   * Awaiting a channel: the default one raises its runtime error, a given one
   * hands the call to that callable, whose behaviour is not part of this model.
   */
  datatype Awaited = Raised(error: RuntimeError) | Delegated(f: Callable)

  class Request {
    /** The `HTTPConnection` part of the request. */
    const connection: HTTPConnection
    const receive: Channel
    const send: Channel
    var streamConsumed: bool
    var isDisconnected: bool

    /**
     * `Request(scope, receive=empty_receive, send=empty_send)`: HTTP scopes
     * only. A channel left at its default raises when awaited.
     */
    constructor (scope: Scope, receive: Channel := EmptyChannel, send: Channel := EmptyChannel)
      requires DistinctKeys(scope) && HasType(scope, "http")
      ensures fresh(connection) && connection.scope == scope && connection.cachedHeaders.None?
      ensures this.receive == receive && this.send == send
      ensures !streamConsumed && !isDisconnected
      ensures receive == EmptyChannel ==>
        Receive() == Raised(RuntimeError("Receive channel has not been made available"))
      ensures send == EmptyChannel ==>
        forall m :: Send(m) == Raised(RuntimeError("Send channel has not been made available"))
    {
      connection := new HTTPConnection(scope);
      this.receive := receive;
      this.send := send;
      streamConsumed := false;
      isDisconnected := false;
    }

    /** Awaiting `self._receive()`. */
    function Receive(): (r: Awaited)
      ensures r.Raised? <==> receive == EmptyChannel
      ensures r.Raised? ==> Err(r.error) == EmptyReceive()
      ensures receive.GivenChannel? ==> r == Delegated(receive.f)
    {
      match receive
      case EmptyChannel => Raised(EmptyReceive().error)
      case GivenChannel(f) => Delegated(f)
    }

    /** Awaiting `self._send(message)`. */
    function Send(m: Message): (r: Awaited)
      ensures r.Raised? <==> send == EmptyChannel
      ensures r.Raised? ==> Err(r.error) == EmptySend(m)
      ensures send.GivenChannel? ==> r == Delegated(send.f)
    {
      match send
      case EmptyChannel => Raised(EmptySend(m).error)
      case GivenChannel(f) => Delegated(f)
    }
  }

  /**
   * A request built with the default channels raises on every receive and on
   * every send, each with its own message.
   */
  lemma DefaultChannelsRaise(req: Request)
    requires req.receive == EmptyChannel && req.send == EmptyChannel
    ensures req.Receive() == Raised(RuntimeError("Receive channel has not been made available"))
    ensures forall m :: req.Send(m) == Raised(RuntimeError("Send channel has not been made available"))
  {
  }
}
