/**
 * The useWsRequest hook of frontend/src/hooks/useWsRequest.ts. Its `send`
 * does nothing without a socket, transmits at once on an OPEN socket, and
 * otherwise parks the request in a one-shot "open" listener that removes
 * itself and then transmits. Its effect registers a response listener only
 * when there is both a socket and a handler, and its cleanup removes it.
 */
module WsRequest {
  import opened Wrappers
  import opened Types
  import opened Sockets
  import WsApi

  /** The socket's state after `send(request)` on a non-null socket. */
  function AfterSend(s: SocketState, request: Request): (t: SocketState) {
    if s.readyState == Open then Transmit(s, request)
    else s.(openListeners := s.openListeners + [OpenListener(s.nextId, SendOnce(request))], nextId := s.nextId + 1)
  }

  /** Several `send` calls in a row. */
  function SendAll(s: SocketState, requests: seq<Request>): SocketState
    decreases |requests|
  {
    if requests == [] then s
    else SendAll(AfterSend(s, requests[0]), requests[1..])
  }

  /**
   * On an OPEN socket every request is transmitted at once, exactly once and
   * in call order, and no listener is added.
   */
  lemma {:induction false} SendWhenOpen(s: SocketState, requests: seq<Request>)
    requires s.readyState == Open
    ensures SendAll(s, requests) == s.(sent := s.sent + requests)
    decreases |requests|
  {
    if requests != [] {
      SendWhenOpen(AfterSend(s, requests[0]), requests[1..]);
      assert s.sent + [requests[0]] + requests[1..] == s.sent + requests;
    }
  }

  /**
   * Before "open", each `send` adds its own one-shot listener and nothing is
   * transmitted; the listener list grows by one per call.
   */
  lemma {:induction false} SendBeforeOpen(s: SocketState, requests: seq<Request>)
    requires s.readyState != Open
    ensures SendAll(s, requests).sent == s.sent
    ensures SendAll(s, requests).readyState == s.readyState
    ensures SendAll(s, requests).messageListeners == s.messageListeners
    ensures SendAll(s, requests).nextId == s.nextId + |requests|
    ensures Deferred(SendAll(s, requests).openListeners) == Deferred(s.openListeners) + requests
    ensures Persistent(SendAll(s, requests).openListeners) == Persistent(s.openListeners)
    decreases |requests|
  {
    if requests != [] {
      var r := requests[0];
      var l := OpenListener(s.nextId, SendOnce(r));
      DeferredAppend(s.openListeners, l);
      PersistentAppend(s.openListeners, l);
      SendBeforeOpen(AfterSend(s, r), requests[1..]);
      assert Deferred(s.openListeners) + [r] + requests[1..] == Deferred(s.openListeners) + requests;
    }
  }

  /**
   * Requests sent while connecting are all flushed when "open" fires: each
   * exactly once, in call order, after those already deferred, and none of
   * the hook's listeners is left registered.
   */
  lemma DeferredFlushedOnOpen(s: SocketState, requests: seq<Request>)
    requires s.readyState == Connecting
    ensures SendAll(s, requests).readyState == Connecting
    ensures Opened(SendAll(s, requests)).sent == Opened(s).sent + requests
    ensures Opened(SendAll(s, requests)).openListeners == Opened(s).openListeners
  {
    SendBeforeOpen(s, requests);
  }

  /**
   * Requests sent while connecting and then a close, as when the shell tears
   * the socket down before "open": the socket is CLOSING, so "open" can no
   * longer fire, and every request sent before or after the close stays
   * parked in a listener that never runs; nothing is transmitted.
   */
  lemma DeferredThenClosed(s: SocketState, before: seq<Request>, after: seq<Request>)
    requires s.readyState == Connecting
    ensures var t := SendAll(CloseRequested(SendAll(s, before)), after);
      t.readyState == Closing && t.sent == s.sent &&
      Deferred(t.openListeners) == Deferred(s.openListeners) + before + after
  {
    SendBeforeOpen(s, before);
    var c := CloseRequested(SendAll(s, before));
    SendBeforeOpen(c, after);
  }

  /** `send`: the callback the hook returns, over a possibly null socket. */
  method Send(socket: WebSocket?, request: Request)
    requires socket != null ==> socket.Valid()
    modifies socket
    ensures socket != null ==> socket.Valid() && socket.State() == AfterSend(old(socket.State()), request)
  {
    if socket == null {
      return;
    }
    if socket.readyState == Open {
      WsApi.SendWsRequest(socket, request);
      return;
    }
    var _ := socket.AddOpenListener(SendOnce(request));
  }

  /**
   * The hook's effect: with a socket and a handler, registers one response
   * listener and returns its identity for the cleanup; otherwise registers
   * nothing.
   */
  method RegisterResponses(socket: WebSocket?, hasHandler: bool) returns (subscription: Option<nat>)
    requires socket != null ==> socket.Valid()
    modifies socket
    ensures subscription.Some? <==> socket != null && hasHandler
    ensures socket != null ==> socket.Valid()
    ensures subscription.Some? ==>
      subscription.value !in old(socket.messageListeners) &&
      socket.State() == old(socket.State()).(messageListeners := old(socket.messageListeners) + [subscription.value],
                                             nextId := subscription.value + 1)
    ensures subscription.None? && socket != null ==> socket.State() == old(socket.State())
  {
    if socket == null || !hasHandler {
      return None;
    }
    var listener := WsApi.OnWsResponses(socket);
    subscription := Some(listener);
  }

  /** The effect's cleanup: removes exactly the listener the effect registered. */
  method Cleanup(socket: WebSocket?, subscription: Option<nat>)
    requires socket != null ==> socket.Valid()
    modifies socket
    ensures socket != null ==> socket.Valid()
    ensures socket != null && subscription.Some? ==>
      socket.State() == old(socket.State()).(messageListeners := RemoveMessage(old(socket.messageListeners), subscription.value))
    ensures socket != null && subscription.None? ==> socket.State() == old(socket.State())
  {
    if socket != null && subscription.Some? {
      WsApi.Unsubscribe(socket, subscription.value);
    }
  }
}
