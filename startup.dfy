/**
 * The application shell of frontend/src/main.tsx: where the WebSocket
 * endpoint comes from, and the root component's effect, which opens one
 * socket, hands it to the App only once it is open, and on teardown
 * unsubscribes, closes it and withdraws it.
 */
module Startup {
  import opened Wrappers
  import opened Sockets
  import opened Urls

  /** The endpoint: a configured URL string verbatim, or a URL derived from the page's origin. */
  datatype Endpoint = Configured(text: string) | Derived(url: Url)

  /** The development server's port, and the backend's port it stands for. */
  const DevServerPort := "5173"
  const BackendPort := "8080"

  /**
   * resolveWebSocketUrl: a non-empty configured value wins. Otherwise the
   * origin is resolved against "/ws", its scheme mapped to the WebSocket
   * one, and the development server's port swapped for the backend's.
   */
  method ResolveWebSocketUrl(fromEnv: Option<string>, origin: Url) returns (e: Endpoint)
    ensures fromEnv.Some? && fromEnv.value != "" ==> e == Configured(fromEnv.value)
    ensures (fromEnv.None? || fromEnv.value == "") ==> e.Derived?
    ensures e.Derived? ==>
      e.url.protocol == WsScheme(origin.protocol) &&
      e.url.hostname == origin.hostname &&
      e.url.pathname == "/ws" && e.url.search == "" && e.url.hash == ""
    ensures e.Derived? ==>
      e.url.port == (if origin.hostname == "localhost" && origin.port == DevServerPort then BackendPort else origin.port)
  {
    if fromEnv.Some? && fromEnv.value != "" {
      return Configured(fromEnv.value);
    }
    var url := new UrlObject(Url(origin.protocol, origin.hostname, origin.port, "/ws", "", ""));
    url.protocol := WsScheme(url.protocol);
    if url.hostname == "localhost" && url.port == DevServerPort {
      url.port := BackendPort;
    }
    e := Derived(url.Value());
  }

  /** The root component: the socket state hook and what its effect's cleanup captured. */
  class MainComponent {
    /** The socket the App sees: null until "open". */
    var socket: WebSocket?
    /** The socket the effect created. */
    var nextSocket: WebSocket?
    /** The identity of the effect's "open" listener on it. */
    var handleOpen: nat

    ghost predicate Valid()
      reads this, nextSocket
    {
      (nextSocket != null ==> nextSocket.Valid()) &&
      (socket != null ==> socket == nextSocket)
    }

    constructor ()
      ensures Valid() && socket == null && nextSocket == null
    {
      socket, nextSocket, handleOpen := null, null, 0;
    }

    /** The effect: a new socket on the resolved endpoint, with a listener that exposes it once open. */
    method Mount(fromEnv: Option<string>, origin: Url)
      modifies this
      ensures Valid()
      ensures fresh(nextSocket) && socket == null
      ensures nextSocket.State() == SocketState(Connecting, [OpenListener(handleOpen, Expose)], [], [], handleOpen + 1)
    {
      // The endpoint is resolved here; the model of a socket does not keep its URL.
      var _ := ResolveWebSocketUrl(fromEnv, origin);
      var s := new WebSocket();
      var id := s.AddOpenListener(Expose);
      socket, nextSocket, handleOpen := null, s, id;
    }

    /** The socket's "open" event: its listeners run, and the effect's listener exposes it. */
    method SocketOpened()
      requires Valid() && nextSocket != null && nextSocket.readyState == Connecting
      modifies this, nextSocket
      ensures Valid() && nextSocket == old(nextSocket) && handleOpen == old(handleOpen)
      ensures nextSocket.State() == Opened(old(nextSocket.State()))
      ensures socket == (if OpenListener(handleOpen, Expose) in old(nextSocket.openListeners) then nextSocket else old(socket))
    {
      var fired := nextSocket.FireOpen();
      if OpenListener(handleOpen, Expose) in fired {
        socket := nextSocket;
      }
    }

    /** The cleanup: the "open" listener is removed, the socket closed, and the App's socket reset. */
    method Unmount()
      requires Valid() && nextSocket != null
      modifies this, nextSocket
      ensures Valid() && socket == null && nextSocket == old(nextSocket)
      ensures nextSocket.State() ==
        CloseRequested(old(nextSocket.State()).(openListeners := RemoveOpen(old(nextSocket.openListeners), handleOpen)))
    {
      nextSocket.RemoveOpenListener(handleOpen);
      nextSocket.Close();
      socket := null;
    }
  }

  /**
   * A socket torn down before it opened is never exposed: the cleanup leaves
   * a connecting socket CLOSING, so "open" can no longer fire, nothing it
   * held back is transmitted, and the listener that would expose it is gone
   * whatever state the socket was in.
   */
  lemma TeardownBeforeOpen(id: nat, s: SocketState)
    ensures var t := CloseRequested(s.(openListeners := RemoveOpen(s.openListeners, id)));
      OpenListener(id, Expose) !in t.openListeners && t.sent == s.sent &&
      (s.readyState == Connecting ==> t.readyState == Closing)
  {
    RemoveOpenMembers(s.openListeners, id);
  }
}
