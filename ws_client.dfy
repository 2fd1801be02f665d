/**
 * The request/response correlator of frontend/tests/helpers/ws.ts. A client
 * keeps two lists: responses that arrived before anyone asked for them (the
 * queue) and callers waiting for a response that satisfies their predicate
 * (the pending waiters). An inbound response goes to the oldest pending
 * waiter that accepts it, or else to the end of the queue; a new waiter takes
 * the oldest queued response it accepts, or else joins the pending list with
 * a timer. Timers are explicit here: a waiter's id names its timer, and
 * `Timeout` is the timer firing.
 */
module WsClient {
  import opened Wrappers
  import opened Types
  import opened Sockets
  import opened WsApi
  import Config

  /** One pending waitForResponse call: its predicate and its timer. */
  datatype Waiter = Waiter(id: nat, accepts: Response -> bool, timeoutMs: nat)

  /** The client's bookkeeping: unclaimed responses and pending waiters, oldest first. */
  datatype Book = Book(queue: seq<Response>, pending: seq<Waiter>)

  /** What happened to one inbound response. */
  datatype Delivery = Resolved(waiter: nat, response: Response) | Queued(response: Response)

  datatype Routed = Routed(book: Book, delivery: Delivery)

  datatype Handled = Handled(book: Book, log: seq<Delivery>)

  /** The result of waitForResponse: settled at once from the queue, or registered as a waiter. */
  datatype WaitResult = Immediate(response: Response, book: Book) | Registered(book: Book)

  datatype Expired = Expired(book: Book, wasPending: bool)

  /** `k` is the first index of `s` whose element satisfies `p`. */
  predicate FirstMatchAt<T>(s: seq<T>, p: T -> bool, k: int) {
    0 <= k < |s| && p(s[k]) && forall i :: 0 <= i < k ==> !p(s[i])
  }

  /** No element of `s` satisfies `p`. */
  predicate NoMatch<T>(s: seq<T>, p: T -> bool) {
    forall i :: 0 <= i < |s| ==> !p(s[i])
  }

  /** Array.prototype.findIndex: the first index whose element satisfies `p`, or -1. */
  function FindIndexOf<T>(s: seq<T>, p: T -> bool): (k: int)
    ensures -1 <= k < |s|
    ensures 0 <= k ==> FirstMatchAt(s, p, k)
    ensures k == -1 <==> NoMatch(s, p)
  {
    if s == [] then -1
    else if p(s[0]) then 0
    else
      var k := FindIndexOf(s[1..], p);
      if k < 0 then -1 else k + 1
  }

  /** The predicate handleMessage applies to each pending entry for a response. */
  function AcceptsResponse(r: Response): Waiter -> bool {
    (w: Waiter) => w.accepts(r)
  }

  /** The identity test of a timer callback: is this entry the one it belongs to. */
  function HasId(id: nat): Waiter -> bool {
    (w: Waiter) => w.id == id
  }

  /** Array.prototype.splice(k, 1): the sequence without its element at `k`. */
  function RemoveAt<T>(s: seq<T>, k: nat): (r: seq<T>)
    requires k < |s|
    ensures |r| == |s| - 1
    ensures forall i :: 0 <= i < k ==> r[i] == s[i]
    ensures forall i :: k <= i < |r| ==> r[i] == s[i + 1]
  {
    s[..k] + s[k + 1..]
  }

  /** No queued response is one that some pending waiter would accept. */
  ghost predicate Settled(b: Book) {
    forall i, j :: 0 <= i < |b.queue| && 0 <= j < |b.pending| ==> !b.pending[j].accepts(b.queue[i])
  }

  /** Waiters are pending in the order they were registered, and every id is below `next`. */
  predicate Registry(pending: seq<Waiter>, next: nat) {
    (forall i, j :: 0 <= i < j < |pending| ==> pending[i].id < pending[j].id) &&
    (forall i :: 0 <= i < |pending| ==> pending[i].id < next)
  }

  /** The invariant the client keeps between events. */
  ghost predicate Orderly(b: Book, next: nat) {
    Settled(b) && Registry(b.pending, next)
  }

  /**
   * handleMessage for one response: the oldest pending waiter that accepts
   * it is removed and resolved with it; with no such waiter it is queued.
   */
  function Route(b: Book, r: Response): Routed {
    var k := FindIndexOf(b.pending, AcceptsResponse(r));
    if k >= 0 then Routed(Book(b.queue, RemoveAt(b.pending, k)), Resolved(b.pending[k].id, r))
    else Routed(Book(b.queue + [r], b.pending), Queued(r))
  }

  /**
   * A routed response is resolved to the oldest pending waiter that accepts
   * it, which alone leaves the pending list while the queue is unchanged;
   * with no such waiter it goes to the tail of the queue and the pending
   * list is unchanged.
   */
  lemma RouteSpec(b: Book, r: Response)
    ensures Route(b, r).delivery.response == r
    ensures Route(b, r).delivery.Queued? <==> NoMatch(b.pending, AcceptsResponse(r))
    ensures Route(b, r).delivery.Queued? ==> Route(b, r).book == Book(b.queue + [r], b.pending)
    ensures Route(b, r).delivery.Resolved? ==>
      exists k :: FirstMatchAt(b.pending, AcceptsResponse(r), k) && ResolvedAt(b, Route(b, r), k)
  {
    var k := FindIndexOf(b.pending, AcceptsResponse(r));
    if k >= 0 {
      assert ResolvedAt(b, Route(b, r), k);
    }
  }

  /** The waiter at `k` was the one resolved and removed. */
  ghost predicate ResolvedAt(b: Book, out: Routed, k: int) {
    0 <= k < |b.pending| && out.delivery.Resolved? && out.delivery.waiter == b.pending[k].id &&
    out.book == Book(b.queue, RemoveAt(b.pending, k))
  }

  /** The responses of the log that went to the queue, in order. */
  function QueuedOf(log: seq<Delivery>): seq<Response> {
    if log == [] then []
    else QueuedOf(log[..|log| - 1]) + (if log[|log| - 1].Queued? then [log[|log| - 1].response] else [])
  }

  /** The loop of handleMessage over a frame's responses, in order. */
  function RouteAll(b: Book, rs: seq<Response>): Handled
    decreases |rs|
  {
    if rs == [] then Handled(b, [])
    else
      var prior := RouteAll(b, rs[..|rs| - 1]);
      var step := Route(prior.book, rs[|rs| - 1]);
      Handled(step.book, prior.log + [step.delivery])
  }

  /** One routing step delivers the response it is given and grows the queue by it only when queued. */
  lemma RouteStep(b: Book, r: Response)
    ensures Route(b, r).delivery.response == r
    ensures Route(b, r).book.queue == b.queue + (if Route(b, r).delivery.Queued? then [r] else [])
  {
  }

  lemma QueuedOfSnoc(log: seq<Delivery>, d: Delivery)
    ensures QueuedOf(log + [d]) == QueuedOf(log) + (if d.Queued? then [d.response] else [])
  {
    assert (log + [d])[..|log|] == log;
  }

  /** Each response of a frame is delivered exactly once, in the frame's order. */
  lemma {:induction false} RouteAllDeliversEach(b: Book, rs: seq<Response>)
    ensures |RouteAll(b, rs).log| == |rs|
    ensures forall i :: 0 <= i < |rs| ==> RouteAll(b, rs).log[i].response == rs[i]
    decreases |rs|
  {
    if rs != [] {
      var init, last := rs[..|rs| - 1], rs[|rs| - 1];
      RouteAllDeliversEach(b, init);
      var prior := RouteAll(b, init);
      RouteStep(prior.book, last);
      var log := prior.log + [Route(prior.book, last).delivery];
      forall i | 0 <= i < |rs| ensures log[i].response == rs[i] {
        if i < |init| {
          assert log[i] == prior.log[i] && rs[i] == init[i];
        }
      }
    }
  }

  /** The queue grows by exactly the responses of the frame that no waiter took, in order. */
  lemma {:induction false} RouteAllQueues(b: Book, rs: seq<Response>)
    ensures RouteAll(b, rs).book.queue == b.queue + QueuedOf(RouteAll(b, rs).log)
    decreases |rs|
  {
    if rs != [] {
      var init, last := rs[..|rs| - 1], rs[|rs| - 1];
      RouteAllQueues(b, init);
      var prior := RouteAll(b, init);
      RouteStep(prior.book, last);
      QueuedOfSnoc(prior.log, Route(prior.book, last).delivery);
    }
  }

  /**
   * waitForResponse before any timer: the oldest queued response the waiter
   * accepts is removed and returned; with none, the waiter joins the end of
   * the pending list.
   */
  function Wait(b: Book, w: Waiter): WaitResult {
    var k := FindIndexOf(b.queue, w.accepts);
    if k >= 0 then Immediate(b.queue[k], Book(RemoveAt(b.queue, k), b.pending))
    else Registered(Book(b.queue, b.pending + [w]))
  }

  /**
   * A wait takes the oldest queued response the waiter accepts, keeping the
   * other queued responses in order and registering nothing; only when none
   * matches is exactly this waiter appended to the pending list, with the
   * queue untouched.
   */
  lemma WaitSpec(b: Book, w: Waiter)
    ensures Wait(b, w).Registered? <==> NoMatch(b.queue, w.accepts)
    ensures Wait(b, w).Registered? ==> Wait(b, w).book == Book(b.queue, b.pending + [w])
    ensures Wait(b, w).Immediate? ==>
      exists k :: FirstMatchAt(b.queue, w.accepts, k) && TakenAt(b, Wait(b, w), k)
  {
    var k := FindIndexOf(b.queue, w.accepts);
    if k >= 0 {
      assert TakenAt(b, Wait(b, w), k);
    }
  }

  /** The queued response at `k` was the one returned and removed. */
  ghost predicate TakenAt(b: Book, res: WaitResult, k: int) {
    0 <= k < |b.queue| && res.Immediate? && res.response == b.queue[k] &&
    res.book == Book(RemoveAt(b.queue, k), b.pending)
  }

  /**
   * A waiter's timer firing: the waiter with that id leaves the pending list
   * if it is still there, and the caller's promise is rejected only then.
   */
  function Expire(b: Book, id: nat): Expired {
    var k := FindIndexOf(b.pending, HasId(id));
    if k >= 0 then Expired(Book(b.queue, RemoveAt(b.pending, k)), true)
    else Expired(b, false)
  }

  /**
   * A timer firing removes the first pending waiter with its id, if there is
   * one, and touches nothing else; the queue never changes.
   */
  lemma ExpireSpec(b: Book, id: nat)
    ensures Expire(b, id).book.queue == b.queue
    ensures Expire(b, id).wasPending <==> exists j :: 0 <= j < |b.pending| && b.pending[j].id == id
    ensures !Expire(b, id).wasPending ==> Expire(b, id).book == b
    ensures Expire(b, id).wasPending ==>
      exists k :: FirstMatchAt(b.pending, HasId(id), k) && Expire(b, id).book.pending == RemoveAt(b.pending, k)
  {
  }

  lemma RemoveKeepsRegistry(pending: seq<Waiter>, k: nat, next: nat)
    requires k < |pending| && Registry(pending, next)
    ensures Registry(RemoveAt(pending, k), next)
    ensures forall i :: 0 <= i < |RemoveAt(pending, k)| ==> RemoveAt(pending, k)[i].id != pending[k].id
  {
    var r := RemoveAt(pending, k);
    forall i, j | 0 <= i < j < |r| ensures r[i].id < r[j].id {
      var i' := if i < k then i else i + 1;
      var j' := if j < k then j else j + 1;
      assert r[i] == pending[i'] && r[j] == pending[j'];
    }
    forall i | 0 <= i < |r| ensures r[i].id != pending[k].id {
      if i < k {
        assert r[i] == pending[i];
      } else {
        assert r[i] == pending[i + 1];
      }
    }
  }

  /** Every waiter left after a removal was pending before. */
  lemma RemoveKeepsSettled(b: Book, k: nat)
    requires k < |b.pending| && Settled(b)
    ensures Settled(Book(b.queue, RemoveAt(b.pending, k)))
  {
    var r := RemoveAt(b.pending, k);
    forall i, j | 0 <= i < |b.queue| && 0 <= j < |r| ensures !r[j].accepts(b.queue[i]) {
      if j < k {
        assert r[j] == b.pending[j];
      } else {
        assert r[j] == b.pending[j + 1];
      }
    }
  }

  /** Routing a response keeps the client orderly. */
  lemma RouteKeepsOrderly(b: Book, next: nat, r: Response)
    requires Orderly(b, next)
    ensures Orderly(Route(b, r).book, next)
  {
    var out := Route(b, r);
    RouteSpec(b, r);
    if out.delivery.Resolved? {
      var k :| FirstMatchAt(b.pending, AcceptsResponse(r), k) && ResolvedAt(b, out, k);
      RemoveKeepsSettled(b, k);
      RemoveKeepsRegistry(b.pending, k, next);
    } else {
      var q := b.queue + [r];
      forall i, j | 0 <= i < |q| && 0 <= j < |b.pending| ensures !b.pending[j].accepts(q[i]) {
        if i < |b.queue| {
          assert q[i] == b.queue[i];
        }
      }
    }
  }

  /** Handling a whole frame keeps the client orderly. */
  lemma {:induction false} RouteAllKeepsOrderly(b: Book, next: nat, rs: seq<Response>)
    requires Orderly(b, next)
    ensures Orderly(RouteAll(b, rs).book, next)
    decreases |rs|
  {
    if rs != [] {
      RouteAllKeepsOrderly(b, next, rs[..|rs| - 1]);
      RouteKeepsOrderly(RouteAll(b, rs[..|rs| - 1]).book, next, rs[|rs| - 1]);
    }
  }

  /** Registering a waiter with a fresh id keeps the client orderly, with the id counter advanced. */
  lemma WaitKeepsOrderly(b: Book, next: nat, w: Waiter)
    requires Orderly(b, next) && w.id == next
    ensures Orderly(Wait(b, w).book, next + 1)
  {
    var res := Wait(b, w);
    WaitSpec(b, w);
    if res.Immediate? {
      var k :| FirstMatchAt(b.queue, w.accepts, k) && TakenAt(b, res, k);
      var q := RemoveAt(b.queue, k);
      forall i, j | 0 <= i < |q| && 0 <= j < |b.pending| ensures !b.pending[j].accepts(q[i]) {
        if i < k {
          assert q[i] == b.queue[i];
        } else {
          assert q[i] == b.queue[i + 1];
        }
      }
    } else {
      var p := b.pending + [w];
      forall i, j | 0 <= i < |b.queue| && 0 <= j < |p| ensures !p[j].accepts(b.queue[i]) {
        if j < |b.pending| {
          assert p[j] == b.pending[j];
        }
      }
    }
  }

  /** A timer firing keeps the client orderly and leaves no waiter with its id. */
  lemma ExpireKeepsOrderly(b: Book, next: nat, id: nat)
    requires Orderly(b, next)
    ensures Orderly(Expire(b, id).book, next)
    ensures forall j :: 0 <= j < |Expire(b, id).book.pending| ==> Expire(b, id).book.pending[j].id != id
  {
    var e := Expire(b, id);
    ExpireSpec(b, id);
    if e.wasPending {
      var k :| FirstMatchAt(b.pending, HasId(id), k) && e.book.pending == RemoveAt(b.pending, k);
      RemoveKeepsSettled(b, k);
      RemoveKeepsRegistry(b.pending, k, next);
    } else {
      assert forall j :: 0 <= j < |b.pending| ==> b.pending[j].id != id;
    }
  }

  /**
   * A response that arrives before anyone asks for it is not lost: once
   * queued, a later waiter that accepts it is settled at once, without a
   * timer. When no response queued earlier is one the waiter accepts, it
   * receives exactly this response, and the book is as it was before.
   */
  lemma EarlyResponseTaken(b: Book, r: Response, w: Waiter)
    requires Route(b, r).delivery.Queued?
    requires w.accepts(r)
    ensures Wait(Route(b, r).book, w).Immediate?
    ensures NoMatch(b.queue, w.accepts) ==> Wait(Route(b, r).book, w) == Immediate(r, b)
  {
    RouteSpec(b, r);
    var q := Route(b, r).book.queue;
    assert q == b.queue + [r];
    assert q[|q| - 1] == r;
    WaitSpec(Route(b, r).book, w);
    if NoMatch(b.queue, w.accepts) {
      var k := FindIndexOf(q, w.accepts);
      assert k == |b.queue|;
      assert RemoveAt(q, k) == b.queue;
    }
  }

  /**
   * A waiter registered before its response is resolved by it, unless an
   * older pending waiter also accepts the response.
   */
  lemma LateResponseResolves(b: Book, w: Waiter, r: Response)
    requires Wait(b, w).Registered?
    requires w.accepts(r)
    requires forall j :: 0 <= j < |b.pending| ==> !b.pending[j].accepts(r)
    ensures Route(Wait(b, w).book, r) == Routed(Book(b.queue, b.pending), Resolved(w.id, r))
  {
    WaitSpec(b, w);
    var p := b.pending + [w];
    assert p[|b.pending|] == w;
    assert forall j :: 0 <= j < |b.pending| ==> p[j] == b.pending[j];
    assert FirstMatchAt(p, AcceptsResponse(r), |b.pending|);
    assert p[..|b.pending|] == b.pending;
  }

  /**
   * Once a waiter has timed out, a response that only it would have
   * accepted is no longer delivered to anyone: it goes to the queue.
   */
  lemma ExpiredWaiterMissesResponse(b: Book, next: nat, id: nat, r: Response)
    requires Registry(b.pending, next)
    requires forall j :: 0 <= j < |b.pending| && b.pending[j].accepts(r) ==> b.pending[j].id == id
    ensures Route(Expire(b, id).book, r).delivery.Queued?
  {
    var e := Expire(b, id);
    ExpireSpec(b, id);
    var p := e.book.pending;
    if e.wasPending {
      var k :| FirstMatchAt(b.pending, HasId(id), k) && p == RemoveAt(b.pending, k);
      RemoveKeepsRegistry(b.pending, k, next);
      forall j | 0 <= j < |p| ensures !AcceptsResponse(r)(p[j]) {
        var j' := if j < k then j else j + 1;
        assert p[j] == b.pending[j'];
        assert p[j].id != id;
      }
    } else {
      forall j | 0 <= j < |p| ensures !AcceptsResponse(r)(p[j]) {
        assert !HasId(id)(b.pending[j]);
      }
    }
    assert NoMatch(p, AcceptsResponse(r));
    RouteSpec(e.book, r);
  }

  /** With waiters registered oldest first, the resolved waiter has the smallest id among those that accept. */
  lemma OldestWaiterWins(b: Book, next: nat, r: Response)
    requires Registry(b.pending, next)
    requires Route(b, r).delivery.Resolved?
    ensures forall j :: 0 <= j < |b.pending| && b.pending[j].accepts(r) ==> Route(b, r).delivery.waiter <= b.pending[j].id
  {
    var out := Route(b, r);
    RouteSpec(b, r);
    var k :| FirstMatchAt(b.pending, AcceptsResponse(r), k) && ResolvedAt(b, out, k);
    forall j | 0 <= j < |b.pending| && b.pending[j].accepts(r) ensures out.delivery.waiter <= b.pending[j].id {
      assert k <= j;
    }
  }

  /** The frame loop of handleMessage over local values, one response at a time. */
  method Deliver(b0: Book, rs: seq<Response>) returns (b: Book, log: seq<Delivery>)
    ensures Handled(b, log) == RouteAll(b0, rs)
  {
    b, log := b0, [];
    for i := 0 to |rs|
      invariant Handled(b, log) == RouteAll(b0, rs[..i])
    {
      var prefix := rs[..i + 1];
      assert prefix[..i] == rs[..i] && prefix[i] == rs[i];
      var step := Route(b, rs[i]);
      b, log := step.book, log + [step.delivery];
    }
    assert rs[..|rs|] == rs;
  }

  /** The object createWsClient returns, with the closure state as fields. */
  class Client {
    const socket: WebSocket
    /** The "message" listener registered on the socket. */
    const listener: nat
    var queue: seq<Response>
    var pending: seq<Waiter>
    var nextWaiter: nat

    function Snapshot(): Book
      reads this
    {
      Book(queue, pending)
    }

    ghost predicate Valid()
      reads this, socket
    {
      socket.Valid() && Orderly(Snapshot(), nextWaiter)
    }

    /** createWsClient: empty lists, and the message handler registered on the socket. */
    constructor (s: WebSocket)
      requires s.Valid()
      modifies s
      ensures Valid()
      ensures socket == s && Snapshot() == Book([], [])
      ensures listener !in old(s.messageListeners)
      ensures s.State() == old(s.State()).(messageListeners := old(s.messageListeners) + [listener], nextId := listener + 1)
    {
      var id := s.AddMessageListener();
      socket := s;
      listener := id;
      queue, pending, nextWaiter := [], [], 0;
    }

    /**
     * handleMessage: a frame that does not parse is ignored; otherwise each
     * of its responses is routed in order. `log` says where each one went.
     */
    method HandleMessage(data: FrameData, stringify: seq<bv8> -> string, parse: string -> Parsed)
      returns (log: seq<Delivery>)
      requires Valid()
      modifies this
      ensures Valid()
      ensures nextWaiter == old(nextWaiter)
      ensures ParseResponses(parse(Payload(data, stringify))).None? ==> log == [] && Snapshot() == old(Snapshot())
      ensures ParseResponses(parse(Payload(data, stringify))).Some? ==>
        Handled(Snapshot(), log) == RouteAll(old(Snapshot()), ParseResponses(parse(Payload(data, stringify))).value)
    {
      var responses := ParseResponses(parse(Payload(data, stringify)));
      log := [];
      if responses.None? {
        return;
      }
      var b;
      b, log := Deliver(Snapshot(), responses.value);
      RouteAllKeepsOrderly(Snapshot(), nextWaiter, responses.value);
      queue, pending := b.queue, b.pending;
    }

    /** send: the request goes out on the socket as one frame. */
    method Send(request: Request)
      requires Valid()
      modifies socket
      ensures Valid()
      ensures socket.State() == Transmit(old(socket.State()), request)
    {
      socket.Send(request);
    }

    /**
     * waitForResponse: settles at once from the queue, or registers a waiter
     * whose timer lasts `timeoutMs`, by default the configured response timeout.
     */
    method WaitForResponse(accepts: Response -> bool, timeoutMs: Option<nat>) returns (result: WaitResult)
      requires Valid()
      modifies this
      ensures Valid()
      ensures result == Wait(old(Snapshot()), Waiter(old(nextWaiter), accepts, timeoutMs.GetOr(Config.ResponseTimeout)))
      ensures Snapshot() == result.book && nextWaiter == old(nextWaiter) + 1
    {
      var b, next := Snapshot(), nextWaiter;
      var w := Waiter(next, accepts, timeoutMs.GetOr(Config.ResponseTimeout));
      result := Wait(b, w);
      WaitKeepsOrderly(b, next, w);
      var after := result.book;
      queue, pending, nextWaiter := after.queue, after.pending, next + 1;
    }

    /**
     * The timer of waiter `id` firing: the waiter is dropped and its caller
     * gets the timeout error. A timer cleared by a resolution never fires,
     * so for an id no longer pending nothing happens.
     */
    method Timeout(id: nat) returns (error: Option<string>)
      requires Valid()
      modifies this
      ensures Valid()
      ensures error.Some? <==> exists j :: 0 <= j < |old(pending)| && old(pending)[j].id == id
      ensures error.Some? ==> error.value == "Timed out waiting for response"
      ensures Snapshot() == Expire(old(Snapshot()), id).book && nextWaiter == old(nextWaiter)
      ensures forall j :: 0 <= j < |pending| ==> pending[j].id != id
    {
      var b, next := Snapshot(), nextWaiter;
      var e := Expire(b, id);
      ExpireSpec(b, id);
      ExpireKeepsOrderly(b, next, id);
      var after := e.book;
      queue, pending := after.queue, after.pending;
      error := if e.wasPending then Some("Timed out waiting for response") else None;
    }

    /** close: a socket already closed is left alone; otherwise a close is requested. */
    method Close()
      requires Valid()
      modifies socket
      ensures Valid()
      ensures old(socket.readyState) == Closed ==> socket.State() == old(socket.State())
      ensures socket.State() == CloseRequested(old(socket.State()))
    {
      if socket.readyState == Closed {
        return;
      }
      socket.Close();
    }
  }
}
