/**
 * The ASGI vocabulary the core exchanges with the server: the connection
 * scope (an ordered dict of string keys), the outgoing messages, and the
 * `send` channel, which here appends each message to a log.
 */
module Asgi {
  import opened Base
  import opened Dicts

  /** A value stored in a scope or in application state. */
  datatype Value =
    | Str(s: string)
    | Int(i: int)
    | Bytes(b: seq<byte>)
    | DictValue(entries: seq<(string, Value)>)
    | Obj(ref: object)

  type Scope = Dict<string, Value>

  /** An opaque Python callable (handler, app, receive or send function), known by name. */
  datatype Callable = Callable(name: string)

  /** `KeyError(key)`, raised by a failed dict lookup or deletion. */
  datatype KeyError = KeyError(key: string)

  /** `scope["type"] == t`, false when the key is absent. */
  predicate HasType(scope: Scope, t: string)
  {
    Get(scope, "type") == Some(Str(t))
  }

  /** A raw header: lower-case name and value, both as bytes. */
  type Header = (seq<byte>, seq<byte>)

  datatype Message =
    | ResponseStart(status: int, headers: seq<Header>)
    | ResponseBody(body: seq<byte>)
    | WebSocketClose(code: int, reason: string)

  /** The `"type"` entry of each message dict. */
  function MessageType(m: Message): string
  {
    match m
    case ResponseStart(_, _) => "http.response.start"
    case ResponseBody(_) => "http.response.body"
    case WebSocketClose(_, _) => "websocket.close"
  }

  /** The `send` callable: every awaited send appends one message. */
  class SendLog {
    var sent: seq<Message>

    constructor ()
      ensures sent == []
    {
      sent := [];
    }

    method Send(m: Message)
      modifies this
      ensures sent == old(sent) + [m]
    {
      sent := sent + [m];
    }
  }
}
