/**
 * The transport helpers of frontend/src/api/ws.ts: sending one request as a
 * frame, subscribing a response handler to a socket's "message" events, and
 * turning one inbound frame into the ordered list of responses it carries.
 * JSON.parse is opaque: a frame's payload is mapped by a caller-supplied
 * parser to what JSON.parse yields, as far as the client looks at it.
 */
module WsApi {
  import opened Wrappers
  import opened Types
  import opened Sockets

  /** The value JSON.parse gives for a payload: a throw, one object, or an array. */
  datatype Parsed = Malformed | Single(response: Response) | Batch(responses: seq<Response>)

  /** A message event's data: a string, or anything else (a Blob, an ArrayBuffer). */
  datatype FrameData = Text(text: string) | Binary(bytes: seq<bv8>)

  /** The text handed to the parser; non-string data goes through `String(data)`, here `stringify`. */
  function Payload(data: FrameData, stringify: seq<bv8> -> string): (payload: string)
    ensures data.Text? ==> payload == data.text
    ensures data.Binary? ==> payload == stringify(data.bytes)
  {
    match data
    case Text(text) => text
    case Binary(bytes) => stringify(bytes)
  }

  /**
   * parseResponses: a single object becomes a one-element list, an array is
   * kept as it is, and a payload that does not parse gives null.
   */
  function ParseResponses(parsed: Parsed): (r: Option<seq<Response>>)
    ensures r.None? <==> parsed.Malformed?
    ensures parsed.Single? ==> r == Some([parsed.response])
    ensures parsed.Batch? ==> r == Some(parsed.responses)
  {
    match parsed
    case Malformed => None
    case Single(response) => Some([response])
    case Batch(responses) => Some(responses)
  }

  /**
   * The listener that onWsResponses registers: the handler is called once
   * per response, in the frame's order; `calls` lists its arguments. A frame
   * that does not parse calls it zero times and raises nothing.
   */
  method DispatchFrame(data: FrameData, stringify: seq<bv8> -> string, parse: string -> Parsed)
    returns (calls: seq<Response>)
    ensures parse(Payload(data, stringify)).Malformed? ==> calls == []
    ensures parse(Payload(data, stringify)).Single? ==> calls == [parse(Payload(data, stringify)).response]
    ensures parse(Payload(data, stringify)).Batch? ==> calls == parse(Payload(data, stringify)).responses
  {
    var payload := Payload(data, stringify);
    var responses := ParseResponses(parse(payload));
    calls := [];
    if responses.None? {
      return;
    }
    var rs := responses.value;
    for i := 0 to |rs|
      invariant calls == rs[..i]
    {
      calls := calls + [rs[i]];
    }
    assert rs[..|rs|] == rs;
  }

  /** sendWsRequest: one frame, the serialised request. */
  method SendWsRequest(socket: WebSocket, request: Request)
    requires socket.Valid()
    modifies socket
    ensures socket.Valid()
    ensures socket.State() == Transmit(old(socket.State()), request)
  {
    socket.Send(request);
  }

  /**
   * onWsResponses: registers one "message" listener and returns its identity;
   * the returned unsubscribe is Unsubscribe with that identity.
   */
  method OnWsResponses(socket: WebSocket) returns (listener: nat)
    requires socket.Valid()
    modifies socket
    ensures socket.Valid()
    ensures listener !in old(socket.messageListeners)
    ensures socket.State() == old(socket.State()).(messageListeners := old(socket.messageListeners) + [listener], nextId := listener + 1)
  {
    listener := socket.AddMessageListener();
  }

  /** The function onWsResponses returns: removes exactly the listener it added. */
  method Unsubscribe(socket: WebSocket, listener: nat)
    requires socket.Valid()
    modifies socket
    ensures socket.Valid()
    ensures socket.State() == old(socket.State()).(messageListeners := RemoveMessage(old(socket.messageListeners), listener))
  {
    socket.RemoveMessageListener(listener);
  }

  /**
   * Subscribing and then unsubscribing restores the listener list: the
   * unsubscribe removes the listener that was added and no other.
   */
  lemma {:induction false} SubscribeUnsubscribe(ids: seq<nat>, listener: nat)
    requires listener !in ids
    ensures RemoveMessage(ids + [listener], listener) == ids
  {
    if ids == [] {
      assert [listener][1..] == [];
    } else {
      assert (ids + [listener])[1..] == ids[1..] + [listener];
      SubscribeUnsubscribe(ids[1..], listener);
    }
  }
}
