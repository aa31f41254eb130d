/**
 * `WebSocketClose`: an ASGI app that closes a WebSocket connection by
 * sending one `websocket.close` message. Its code and reason are fixed when
 * it is built, so it is a value, and calling it is the message it sends.
 */
module WebSockets {
  import opened Base
  import opened Asgi

  /** Close code 1000, normal closure (section 7.4.1 of RFC 6455). */
  const NormalClosure := 1000

  datatype Close = Close(code: int, reason: string)

  /** `WebSocketClose(code=1000, reason=None)`: `reason or ""`. */
  function NewClose(code: Option<int>, reason: Option<string>): (c: Close)
    ensures c.code == (if code.Some? then code.value else NormalClosure)
    ensures c.reason == "" <==> reason.None? || reason.value == ""
    ensures reason.Some? ==> c.reason == reason.value
  {
    var r := if reason.Some? then reason.value else "";
    Close(if code.Some? then code.value else NormalClosure, r)
  }

  /** `await close(scope, receive, send)`: the one message it sends. */
  function CloseMessage(c: Close): (m: Message)
    ensures MessageType(m) == "websocket.close"
    ensures m.WebSocketClose? && m.code == c.code && m.reason == c.reason
  {
    WebSocketClose(c.code, c.reason)
  }

  /**
   * Sending never alters the close it comes from: the message determines
   * the code and reason, so two closes send the same message only when
   * they are equal.
   */
  lemma CloseMessageInjective(c: Close, d: Close)
    ensures CloseMessage(c) == CloseMessage(d) <==> c == d
  {
  }

  /** The default close is normal closure with an empty reason, as is one given `""`. */
  lemma DefaultClose()
    ensures NewClose(None, None) == NewClose(None, Some(""))
    ensures CloseMessage(NewClose(None, None)) == WebSocketClose(1000, "")
  {
  }
}
