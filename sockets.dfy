/**
 * The browser WebSocket as the client code uses it: a ready state, the
 * registered "open" and "message" listeners, and the log of frames sent.
 * A frame is the JSON text of a request; JSON is opaque here, so the log
 * records the request each frame serialises. Listener identity (the
 * JavaScript closure) is a number drawn from `nextId`.
 */
module Sockets {
  import opened Types

  datatype ReadyState = Connecting | Open | Closing | Closed

  /** What an "open" listener does when the event fires. */
  datatype OpenAction =
    | SendOnce(request: Request)  // a deferred send: removes itself, then sends
    | Expose                      // hands the socket to the UI and stays registered

  datatype OpenListener = OpenListener(id: nat, action: OpenAction)

  /** A snapshot of everything the client can observe about a socket. */
  datatype SocketState = SocketState(
    readyState: ReadyState,
    openListeners: seq<OpenListener>,
    messageListeners: seq<nat>,
    sent: seq<Request>,
    nextId: nat)

  predicate IdsIncreasing(ls: seq<OpenListener>) {
    forall i, j :: 0 <= i < j < |ls| ==> ls[i].id < ls[j].id
  }

  predicate NatsIncreasing(ids: seq<nat>) {
    forall i, j :: 0 <= i < j < |ids| ==> ids[i] < ids[j]
  }

  /** Listener identities are issued in increasing order and never reused. */
  ghost predicate WellFormed(s: SocketState) {
    && IdsIncreasing(s.openListeners)
    && NatsIncreasing(s.messageListeners)
    && (forall l :: l in s.openListeners ==> l.id < s.nextId)
    && (forall id :: id in s.messageListeners ==> id < s.nextId)
  }

  /** removeEventListener("open", l): drops the listener with that identity. */
  function RemoveOpen(ls: seq<OpenListener>, id: nat): seq<OpenListener> {
    if ls == [] then []
    else if ls[0].id == id then RemoveOpen(ls[1..], id)
    else [ls[0]] + RemoveOpen(ls[1..], id)
  }

  /** removeEventListener("message", l): drops the listener with that identity. */
  function RemoveMessage(ids: seq<nat>, id: nat): seq<nat> {
    if ids == [] then []
    else if ids[0] == id then RemoveMessage(ids[1..], id)
    else [ids[0]] + RemoveMessage(ids[1..], id)
  }

  /** The requests held back by one-shot listeners, in registration order. */
  function Deferred(ls: seq<OpenListener>): seq<Request> {
    if ls == [] then []
    else (if ls[0].action.SendOnce? then [ls[0].action.request] else []) + Deferred(ls[1..])
  }

  /** The "open" listeners still registered once the event has fired. */
  function Persistent(ls: seq<OpenListener>): seq<OpenListener> {
    if ls == [] then []
    else if ls[0].action.SendOnce? then Persistent(ls[1..])
    else [ls[0]] + Persistent(ls[1..])
  }

  /** WebSocket.send: a frame is transmitted only on an open socket. */
  function Transmit(s: SocketState, request: Request): (t: SocketState) {
    if s.readyState == Open then s.(sent := s.sent + [request]) else s
  }

  /**
   * The "open" event: the socket becomes OPEN and every listener runs once in
   * registration order; each deferred send removes itself and transmits.
   */
  function Opened(s: SocketState): (t: SocketState)
    requires s.readyState == Connecting
  {
    s.(readyState := Open,
       openListeners := Persistent(s.openListeners),
       sent := s.sent + Deferred(s.openListeners))
  }

  /** WebSocket.close: starts the closing handshake unless already closing or closed. */
  function CloseRequested(s: SocketState): (t: SocketState) {
    if s.readyState == Connecting || s.readyState == Open then s.(readyState := Closing) else s
  }

  /** The "close" event: the closing handshake completes and the socket is CLOSED. */
  function CloseCompleted(s: SocketState): (t: SocketState)
    requires s.readyState == Closing
  {
    s.(readyState := Closed)
  }

  /**
   * A socket that is closing or closed is quiet: a send transmits nothing and
   * a further close changes nothing; only the handshake's completion moves a
   * closing socket on, to CLOSED, and nothing leads back to OPEN.
   */
  lemma ClosingIsQuiet(s: SocketState)
    requires s.readyState == Closing || s.readyState == Closed
    ensures forall r :: Transmit(s, r) == s
    ensures CloseRequested(s) == s
    ensures s.readyState == Closing ==> CloseCompleted(s).readyState == Closed && CloseCompleted(s).sent == s.sent
  {
  }

  /** Removing a listener drops exactly the listener with that identity. */
  lemma {:induction false} RemoveOpenMembers(ls: seq<OpenListener>, id: nat)
    ensures forall l :: l in RemoveOpen(ls, id) <==> l in ls && l.id != id
  {
    if ls != [] {
      RemoveOpenMembers(ls[1..], id);
    }
  }

  /** Removing a message listener drops exactly that identity. */
  lemma {:induction false} RemoveMessageMembers(ids: seq<nat>, id: nat)
    ensures forall x :: x in RemoveMessage(ids, id) <==> x in ids && x != id
  {
    if ids != [] {
      RemoveMessageMembers(ids[1..], id);
    }
  }

  /** After "open", exactly the persistent listeners remain. */
  lemma {:induction false} PersistentMembers(ls: seq<OpenListener>)
    ensures forall l :: l in Persistent(ls) <==> l in ls && l.action.Expose?
  {
    if ls != [] {
      PersistentMembers(ls[1..]);
    }
  }

  /** Dropping a listener keeps the identities in issue order. */
  lemma {:induction false} RemoveOpenIncreasing(ls: seq<OpenListener>, id: nat)
    requires IdsIncreasing(ls)
    ensures IdsIncreasing(RemoveOpen(ls, id))
  {
    if ls != [] {
      RemoveOpenIncreasing(ls[1..], id);
      RemoveOpenMembers(ls[1..], id);
      PrependIncreasing(ls[0], RemoveOpen(ls[1..], id), ls[1..]);
    }
  }

  lemma {:induction false} PersistentIncreasing(ls: seq<OpenListener>)
    requires IdsIncreasing(ls)
    ensures IdsIncreasing(Persistent(ls))
  {
    if ls != [] {
      PersistentIncreasing(ls[1..]);
      PersistentMembers(ls[1..]);
      PrependIncreasing(ls[0], Persistent(ls[1..]), ls[1..]);
    }
  }

  lemma PrependIncreasing(head: OpenListener, rest: seq<OpenListener>, tail: seq<OpenListener>)
    requires IdsIncreasing([head] + tail) && IdsIncreasing(rest)
    requires forall l :: l in rest ==> l in tail
    ensures IdsIncreasing(rest) && IdsIncreasing([head] + rest)
  {
    forall j | 0 <= j < |rest| ensures head.id < rest[j].id {
      assert rest[j] in rest;
      var k :| 0 <= k < |tail| && tail[k] == rest[j];
      assert ([head] + tail)[0] == head && ([head] + tail)[k + 1] == rest[j];
    }
  }

  lemma {:induction false} RemoveMessageIncreasing(ids: seq<nat>, id: nat)
    requires NatsIncreasing(ids)
    ensures NatsIncreasing(RemoveMessage(ids, id))
  {
    if ids != [] {
      var rest := RemoveMessage(ids[1..], id);
      RemoveMessageIncreasing(ids[1..], id);
      RemoveMessageMembers(ids[1..], id);
      forall j | 0 <= j < |rest| ensures ids[0] < rest[j] {
        assert rest[j] in rest;
        var k :| 0 <= k < |ids[1..]| && ids[1..][k] == rest[j];
        assert ids[k + 1] == rest[j];
      }
    }
  }

  lemma {:induction false} DeferredAppend(ls: seq<OpenListener>, l: OpenListener)
    ensures Deferred(ls + [l]) == Deferred(ls) + (if l.action.SendOnce? then [l.action.request] else [])
  {
    if ls != [] {
      assert (ls + [l])[1..] == ls[1..] + [l];
      DeferredAppend(ls[1..], l);
    }
  }

  lemma {:induction false} PersistentAppend(ls: seq<OpenListener>, l: OpenListener)
    ensures Persistent(ls + [l]) == Persistent(ls) + (if l.action.Expose? then [l] else [])
  {
    if ls != [] {
      assert (ls + [l])[1..] == ls[1..] + [l];
      PersistentAppend(ls[1..], l);
    }
  }

  /** Removing an identity that is not registered changes nothing. */
  lemma {:induction false} RemoveOpenAbsent(ls: seq<OpenListener>, id: nat)
    requires forall l :: l in ls ==> l.id != id
    ensures RemoveOpen(ls, id) == ls
  {
    if ls != [] {
      RemoveOpenAbsent(ls[1..], id);
    }
  }

  lemma {:induction false} RemoveOpenConcat(a: seq<OpenListener>, b: seq<OpenListener>, id: nat)
    ensures RemoveOpen(a + b, id) == RemoveOpen(a, id) + RemoveOpen(b, id)
  {
    if a == [] {
      assert a + b == b;
    } else {
      assert (a + b)[0] == a[0];
      assert (a + b)[1..] == a[1..] + b;
      RemoveOpenConcat(a[1..], b, id);
      if a[0].id != id {
        calc {
          RemoveOpen(a + b, id);
          [a[0]] + RemoveOpen(a[1..] + b, id);
          [a[0]] + (RemoveOpen(a[1..], id) + RemoveOpen(b, id));
          ([a[0]] + RemoveOpen(a[1..], id)) + RemoveOpen(b, id);
        }
      }
    }
  }

  /** A listener removing itself, when it is the only one with its identity. */
  lemma RemoveSelf(a: seq<OpenListener>, l: OpenListener, b: seq<OpenListener>)
    requires forall x :: x in a ==> x.id != l.id
    requires forall x :: x in b ==> x.id != l.id
    ensures RemoveOpen(a + [l] + b, l.id) == a + b
  {
    assert [l][1..] == [];
    assert RemoveOpen([l], l.id) == [];
    RemoveOpenAbsent(a, l.id);
    RemoveOpenAbsent(b, l.id);
    calc {
      RemoveOpen(a + [l] + b, l.id);
      { RemoveOpenConcat(a + [l], b, l.id); }
      RemoveOpen(a + [l], l.id) + RemoveOpen(b, l.id);
      { RemoveOpenConcat(a, [l], l.id); }
      RemoveOpen(a, l.id) + RemoveOpen([l], l.id) + RemoveOpen(b, l.id);
      a + [] + b;
      { assert a + [] == a; }
      a + b;
    }
  }

  /** Listener identities in an increasing sequence: the one at i is in no other place. */
  lemma IdentityUnique(snapshot: seq<OpenListener>, i: nat)
    requires IdsIncreasing(snapshot) && i < |snapshot|
    ensures forall x :: x in snapshot[..i] ==> x.id != snapshot[i].id
    ensures forall x :: x in snapshot[i + 1..] ==> x.id != snapshot[i].id
  {
    forall x | x in snapshot[..i] ensures x.id != snapshot[i].id {

      var k :| 0 <= k < i && snapshot[..i][k] == x;
      assert snapshot[k] == x;
    }
    forall x | x in snapshot[i + 1..] ensures x.id != snapshot[i].id {
      var k :| 0 <= k < |snapshot| - i - 1 && snapshot[i + 1..][k] == x;
      assert snapshot[i + 1 + k] == x;
    }
  }

  /**
   * One listener of the "open" dispatch runs: `done` have run, `l` runs now,
   * `after` are still to run. A deferred send removes itself, and only itself.
   */
  lemma OpenStep(done: seq<OpenListener>, l: OpenListener, after: seq<OpenListener>)
    requires IdsIncreasing(done + [l] + after)
    ensures Deferred(done + [l]) == Deferred(done) + (if l.action.SendOnce? then [l.action.request] else [])
    ensures l.action.SendOnce? ==> RemoveOpen(Persistent(done) + ([l] + after), l.id) == Persistent(done + [l]) + after
    ensures l.action.Expose? ==> Persistent(done) + ([l] + after) == Persistent(done + [l]) + after
  {
    DeferredAppend(done, l);
    PersistentAppend(done, l);
    assert Persistent(done) + ([l] + after) == Persistent(done) + [l] + after;
    if l.action.SendOnce? {
      var all := done + [l] + after;
      var i := |done|;
      assert all[i] == l && all[..i] == done && all[i + 1..] == after;
      IdentityUnique(all, i);
      PersistentMembers(done);
      RemoveSelf(Persistent(done), l, after);
    }
  }

  /**
   * Runs a snapshot of the "open" listeners in registration order against a
   * running listener list and send log: each deferred send removes itself
   * from the list and then transmits its request.
   */
  method RunOpenListeners(snapshot: seq<OpenListener>, sent0: seq<Request>)
    returns (listeners: seq<OpenListener>, out: seq<Request>, fired: seq<OpenListener>)
    requires IdsIncreasing(snapshot)
    ensures fired == snapshot
    ensures listeners == Persistent(snapshot)
    ensures out == sent0 + Deferred(snapshot)
  {
    listeners, out, fired := snapshot, sent0, [];
    var rest := snapshot;
    while rest != []
      invariant snapshot == fired + rest
      invariant listeners == Persistent(fired) + rest
      invariant out == sent0 + Deferred(fired)
    {
      var l := rest[0];
      assert rest == [l] + rest[1..];
      assert fired + [l] + rest[1..] == snapshot;
      OpenStep(fired, l, rest[1..]);
      if l.action.SendOnce? {
        listeners := RemoveOpen(listeners, l.id);
        out := out + [l.action.request];
      }
      fired, rest := fired + [l], rest[1..];
    }
    assert fired == snapshot;
  }

  class WebSocket {
    var readyState: ReadyState
    var openListeners: seq<OpenListener>
    var messageListeners: seq<nat>
    var sent: seq<Request>
    var nextId: nat

    function State(): SocketState
      reads this
    {
      SocketState(readyState, openListeners, messageListeners, sent, nextId)
    }

    ghost predicate Valid()
      reads this
    {
      WellFormed(State())
    }

    /** `new WebSocket(url)`: connecting, nothing registered, nothing sent. */
    constructor ()
      ensures Valid()
      ensures State() == SocketState(Connecting, [], [], [], 0)
    {
      readyState, openListeners, messageListeners, sent, nextId := Connecting, [], [], [], 0;
    }

    method Send(request: Request)
      requires Valid()
      modifies this
      ensures Valid()
      ensures State() == Transmit(old(State()), request)
    {
      if readyState == Open {
        sent := sent + [request];
      }
    }

    method AddOpenListener(action: OpenAction) returns (id: nat)
      requires Valid()
      modifies this
      ensures Valid()
      ensures id == old(nextId)
      ensures State() == old(State()).(openListeners := old(openListeners) + [OpenListener(id, action)], nextId := id + 1)
    {
      id := nextId;
      openListeners := openListeners + [OpenListener(id, action)];
      nextId := nextId + 1;
    }

    method RemoveOpenListener(id: nat)
      requires Valid()
      modifies this
      ensures Valid()
      ensures State() == old(State()).(openListeners := RemoveOpen(old(openListeners), id))
    {
      RemoveOpenIncreasing(openListeners, id);
      RemoveOpenMembers(openListeners, id);
      openListeners := RemoveOpen(openListeners, id);
    }

    method AddMessageListener() returns (id: nat)
      requires Valid()
      modifies this
      ensures Valid()
      ensures id == old(nextId) && id !in old(messageListeners)
      ensures State() == old(State()).(messageListeners := old(messageListeners) + [id], nextId := id + 1)
    {
      id := nextId;
      assert forall k :: 0 <= k < |messageListeners| ==> messageListeners[k] in old(messageListeners);
      messageListeners := messageListeners + [id];
      nextId := nextId + 1;
    }

    method RemoveMessageListener(id: nat)
      requires Valid()
      modifies this
      ensures Valid()
      ensures State() == old(State()).(messageListeners := RemoveMessage(old(messageListeners), id))
    {
      RemoveMessageIncreasing(messageListeners, id);
      RemoveMessageMembers(messageListeners, id);
      messageListeners := RemoveMessage(messageListeners, id);
    }

    /**
     * The platform fires "open": every listener registered at that moment
     * runs once, in registration order, and `fired` lists them.
     */
    method FireOpen() returns (fired: seq<OpenListener>)
      requires Valid() && readyState == Connecting
      modifies this
      ensures Valid()
      ensures fired == old(openListeners)
      ensures State() == Opened(old(State()))
    {
      var listeners, out;
      listeners, out, fired := RunOpenListeners(openListeners, sent);
      PersistentIncreasing(old(openListeners));
      PersistentMembers(old(openListeners));
      readyState, openListeners, sent := Open, listeners, out;
    }

    method Close()
      requires Valid()
      modifies this
      ensures Valid()
      ensures State() == CloseRequested(old(State()))
    {
      if readyState == Connecting || readyState == Open {
        readyState := Closing;
      }
    }

    /** The platform completes the closing handshake. */
    method FinishClose()
      requires Valid() && readyState == Closing
      modifies this
      ensures Valid()
      ensures State() == CloseCompleted(old(State()))
    {
      readyState := Closed;
    }
  }
}
