/**
 * The session state of frontend/src/App.tsx: the selected room, the room
 * list from the server, the rooms joined in this session, and the chats
 * typed per room. Each user or server event is a pure transition of that
 * state paired with the request it sends; the component class applies the
 * transitions to its fields and hands the requests to the hook's `send`.
 */
module App {
  import opened Wrappers
  import opened Types
  import opened Sockets
  import WsRequest
  import Rooms

  datatype AppState = AppState(roomId: string, rooms: seq<RoomSummary>, joinedRooms: set<string>,
                               messagesByRoom: map<string, seq<Chat>>)

  /** A transition: the next state and the request it sends, if any. */
  datatype Transition = Transition(state: AppState, request: Option<Request>)

  /** Nothing selected, no rooms, nothing joined, no chats. */
  function Initial(): (s: AppState)
    ensures s.roomId == "" && s.rooms == [] && s.joinedRooms == {} && s.messagesByRoom == map[]
  {
    AppState("", [], {}, map[])
  }

  /** handleListRooms: a list_rooms response replaces the room list; any other response is ignored. */
  function HandleListRooms(s: AppState, r: Response): (t: AppState)
    ensures r.ListRooms? ==> t == s.(rooms := r.rooms)
    ensures !r.ListRooms? ==> t == s
  {
    if r.ListRooms? then s.(rooms := r.rooms) else s
  }

  /** The handler applied to responses in arrival order. */
  function HandleAll(s: AppState, rs: seq<Response>): AppState
    decreases |rs|
  {
    if rs == [] then s else HandleAll(HandleListRooms(s, rs[0]), rs[1..])
  }

  /** The room list of the last list_rooms response among `rs`, if there is one. */
  function LastRoomList(rs: seq<Response>): (last: Option<seq<RoomSummary>>)
    ensures last.None? <==> forall i :: 0 <= i < |rs| ==> !rs[i].ListRooms?
  {
    if rs == [] then None
    else if rs[|rs| - 1].ListRooms? then Some(rs[|rs| - 1].rooms)
    else LastRoomList(rs[..|rs| - 1])
  }

  lemma {:induction false} LastRoomListCons(r: Response, rs: seq<Response>)
    ensures LastRoomList([r] + rs) == if LastRoomList(rs).Some? then LastRoomList(rs)
                                       else if r.ListRooms? then Some(r.rooms) else None
    decreases |rs|
  {
    var all := [r] + rs;
    if rs != [] {
      assert all[..|all| - 1] == [r] + rs[..|rs| - 1];
      assert all[|all| - 1] == rs[|rs| - 1];
      if !rs[|rs| - 1].ListRooms? {
        LastRoomListCons(r, rs[..|rs| - 1]);
      }
    } else {
      assert all[..|all| - 1] == [];
    }
  }

  /**
   * The room list is the one of the last list_rooms response; responses of
   * other types never touch it, and nothing else in the state changes.
   */
  lemma {:induction false} LastListWins(s: AppState, rs: seq<Response>)
    ensures HandleAll(s, rs) == s.(rooms := LastRoomList(rs).GetOr(s.rooms))
    decreases |rs|
  {
    if rs != [] {
      LastListWins(HandleListRooms(s, rs[0]), rs[1..]);
      LastRoomListCons(rs[0], rs[1..]);
      assert [rs[0]] + rs[1..] == rs;
    }
  }

  /**
   * The names an empty JavaScript object inherits from Object.prototype.
   * `messagesByRoom` is such an object: looking one of these names up finds
   * a function (for `__proto__`, the prototype object itself), which is
   * neither nullish, so `?? []` keeps it, nor an array.
   */
  const InheritedKeys: set<string> := {
    "constructor", "__proto__", "__defineGetter__", "__defineSetter__", "__lookupGetter__",
    "__lookupSetter__", "hasOwnProperty", "isPrototypeOf", "propertyIsEnumerable",
    "toLocaleString", "toString", "valueOf"}

  /** What `messagesByRoom[roomID]` finds: the room's own list, nothing, or an inherited member. */
  datatype Lookup = Own(chats: seq<Chat>) | Missing | Inherited

  function LookupRoom(m: map<string, seq<Chat>>, roomId: string): (l: Lookup)
    ensures l.Own? <==> roomId in m
    ensures l.Own? ==> l.chats == m[roomId]
    ensures l.Inherited? <==> roomId !in m && roomId in InheritedKeys
  {
    if roomId in m then Own(m[roomId])
    else if roomId in InheritedKeys then Inherited
    else Missing
  }

  /** A room's own chats, or none when the room has no entry of its own. */
  function MessagesOf(m: map<string, seq<Chat>>, roomId: string): seq<Chat> {
    if roomId in m then m[roomId] else []
  }

  /** No room id stored in the object shadows an inherited member. */
  predicate PlainKeys(m: map<string, seq<Chat>>) {
    forall k :: k in m ==> k !in InheritedKeys
  }

  /**
   * The updater of messagesByRoom: `chat` goes to the end of one room's
   * list. On an id that finds an inherited member, spreading it throws and
   * there is no new object (None).
   */
  function AppendChat(m: map<string, seq<Chat>>, roomId: string, chat: Chat): (r: Option<map<string, seq<Chat>>>)
    ensures r.None? <==> LookupRoom(m, roomId).Inherited?
    ensures r.Some? ==> MessagesOf(r.value, roomId) == MessagesOf(m, roomId) + [chat]
    ensures r.Some? ==> r.value.Keys == m.Keys + {roomId}
    ensures r.Some? ==> forall k :: k != roomId ==> MessagesOf(r.value, k) == MessagesOf(m, k)
    ensures r.Some? && PlainKeys(m) ==> PlainKeys(r.value)
  {
    if LookupRoom(m, roomId).Inherited? then None
    else Some(m[roomId := MessagesOf(m, roomId) + [chat]])
  }

  /**
   * onMessageSent: with no room selected nothing happens. Otherwise a chat
   * request is sent and the chat is appended to the selected room; when the
   * updater throws, the request has still gone out and the state update
   * never lands.
   */
  function MessageSent(s: AppState, userName: Option<string>, content: string): (t: Transition)
    ensures s.roomId == "" ==> t == Transition(s, None)
    ensures s.roomId != "" ==> t.request == Some(ChatRequest(content, s.roomId))
    ensures s.roomId != "" ==> t.state == s.(messagesByRoom := t.state.messagesByRoom)
    ensures s.roomId != "" && !LookupRoom(s.messagesByRoom, s.roomId).Inherited? ==>
      MessagesOf(t.state.messagesByRoom, s.roomId) == MessagesOf(s.messagesByRoom, s.roomId) + [Chat(content, ChatUser(userName))]
    ensures LookupRoom(s.messagesByRoom, s.roomId).Inherited? ==> t.state == s
  {
    if s.roomId == "" then Transition(s, None)
    else
      var next := AppendChat(s.messagesByRoom, s.roomId, Chat(content, ChatUser(userName)));
      Transition(s.(messagesByRoom := next.GetOr(s.messagesByRoom)), Some(ChatRequest(content, s.roomId)))
  }

  /** joinRoom: a join request for the room, which becomes selected and joined. */
  function Join(s: AppState, id: string): (t: Transition)
    ensures t.request == Some(JoinRoomRequest(id))
    ensures t.state.roomId == id && id in t.state.joinedRooms && s.joinedRooms <= t.state.joinedRooms
    ensures t.state.joinedRooms - {id} <= s.joinedRooms
    ensures t.state.rooms == s.rooms && t.state.messagesByRoom == s.messagesByRoom
  {
    Transition(s.(roomId := id, joinedRooms := s.joinedRooms + {id}), Some(JoinRoomRequest(id)))
  }

  /** A click on a room's main button, through setRoomID. */
  function ClickRoom(s: AppState, room: RoomSummary): AppState {
    s.(roomId := Rooms.ApplyClick(Rooms.MainClick(room, Some(s.roomId), s.joinedRooms), s.roomId))
  }

  /** The user and server events that drive the state; the two clicks name the row's room. */
  datatype Event = ResponseArrived(response: Response) | MessageTyped(content: string)
                 | JoinClicked(room: RoomSummary) | RoomClicked(room: RoomSummary)

  function Step(s: AppState, userName: Option<string>, e: Event): Transition {
    match e
    case ResponseArrived(r) => Transition(HandleListRooms(s, r), None)
    case MessageTyped(content) => MessageSent(s, userName, content)
    case JoinClicked(room) =>
      (match Rooms.JoinClick(room, s.joinedRooms)
       case Some(id) => Join(s, id)
       case None => Transition(s, None))
    case RoomClicked(room) => Transition(ClickRoom(s, room), None)
  }

  /**
   * A Join click joins the row's own room when its button is enabled, and
   * does nothing at all when the room is already joined.
   */
  lemma JoinButton(s: AppState, userName: Option<string>, room: RoomSummary)
    ensures !Rooms.JoinDisabled(room, s.joinedRooms) ==> Step(s, userName, JoinClicked(room)) == Join(s, room.id)
    ensures Rooms.JoinDisabled(room, s.joinedRooms) ==> Step(s, userName, JoinClicked(room)) == Transition(s, None)
  {
  }

  function Run(s: AppState, userName: Option<string>, es: seq<Event>): AppState
    decreases |es|
  {
    if es == [] then s else Run(Step(s, userName, es[0]).state, userName, es[1..])
  }

  /** Under any events the joined set only grows, and every room's chat list only grows at its end. */
  lemma {:induction false} SessionOnlyGrows(s: AppState, userName: Option<string>, es: seq<Event>)
    ensures s.joinedRooms <= Run(s, userName, es).joinedRooms
    ensures forall k :: MessagesOf(s.messagesByRoom, k) <= MessagesOf(Run(s, userName, es).messagesByRoom, k)
    decreases |es|
  {
    if es != [] {
      var next := Step(s, userName, es[0]).state;
      assert s.joinedRooms <= next.joinedRooms;
      assert forall k :: MessagesOf(s.messagesByRoom, k) <= MessagesOf(next.messagesByRoom, k);
      SessionOnlyGrows(next, userName, es[1..]);
    }
  }

  /** No event ever stores a room id that shadows an inherited member. */
  lemma {:induction false} SessionKeepsPlainKeys(s: AppState, userName: Option<string>, es: seq<Event>)
    requires PlainKeys(s.messagesByRoom)
    ensures PlainKeys(Run(s, userName, es).messagesByRoom)
    decreases |es|
  {
    if es != [] {
      var next := Step(s, userName, es[0]).state;
      assert PlainKeys(next.messagesByRoom);
      SessionKeepsPlainKeys(next, userName, es[1..]);
    }
  }

  /** Joining a room twice gives the same state and the same request as joining it once. */
  lemma JoinIdempotent(s: AppState, id: string)
    ensures Join(Join(s, id).state, id) == Join(s, id)
  {
    assert s.joinedRooms + {id} + {id} == s.joinedRooms + {id};
  }

  /**
   * The main area: the empty-chat placeholder, the chat panel with the list
   * App passes to it, or a render that throws because the lookup found an
   * inherited member instead of a list.
   */
  datatype ChatArea = EmptyChat | ChatPanelView(messages: seq<Chat>) | Broken

  function ChatAreaOf(s: AppState): (v: ChatArea)
    ensures v.EmptyChat? <==> s.roomId == ""
    ensures v.Broken? <==> s.roomId != "" && LookupRoom(s.messagesByRoom, s.roomId).Inherited?
    ensures v.ChatPanelView? ==> v.messages == MessagesOf(s.messagesByRoom, s.roomId)
  {
    if s.roomId == "" then EmptyChat
    else match LookupRoom(s.messagesByRoom, s.roomId)
      case Own(chats) => ChatPanelView(chats)
      case Missing => ChatPanelView([])
      case Inherited => Broken
  }

  /**
   * From the initial state, whatever happened before, a selected room whose
   * id names an inherited member (a room called "constructor", say) breaks
   * the main area.
   */
  lemma InheritedRoomBreaks(userName: Option<string>, es: seq<Event>)
    requires Run(Initial(), userName, es).roomId in InheritedKeys
    ensures ChatAreaOf(Run(Initial(), userName, es)).Broken?
  {
    SessionKeepsPlainKeys(Initial(), userName, es);
  }

  /**
   * Right after joining a room with a non-empty id, App passes that room's
   * chats to the panel (or breaks, on an inherited name), and the room's row
   * is badged "selected", offers no Join, and a click on it deselects it.
   */
  lemma JoinSelects(s: AppState, room: RoomSummary)
    requires room.id != ""
    ensures var t := Join(s, room.id).state;
      (if LookupRoom(s.messagesByRoom, room.id).Inherited? then ChatAreaOf(t) == Broken
       else ChatAreaOf(t) == ChatPanelView(MessagesOf(s.messagesByRoom, room.id))) &&
      Rooms.BadgeLabel(room, Some(t.roomId), t.joinedRooms) == "selected" &&
      Rooms.JoinClick(room, t.joinedRooms) == None &&
      ClickRoom(t, room).roomId == ""
  {
  }

  /**
   * A chat typed while a room is selected is passed to the panel at the end
   * of that room's list; on an inherited name the request still goes out
   * and the area stays broken.
   */
  lemma TypedChatShown(s: AppState, userName: Option<string>, content: string)
    requires s.roomId != ""
    ensures MessageSent(s, userName, content).request == Some(ChatRequest(content, s.roomId))
    ensures var t := MessageSent(s, userName, content).state;
      if LookupRoom(s.messagesByRoom, s.roomId).Inherited? then ChatAreaOf(t) == Broken
      else ChatAreaOf(t) == ChatPanelView(MessagesOf(s.messagesByRoom, s.roomId) + [Chat(content, ChatUser(userName))])
  {
  }

  /** The App component: its state hooks as fields, its socket and user name as props. */
  class AppComponent {
    const socket: WebSocket?
    const userName: Option<string>
    var roomId: string
    var rooms: seq<RoomSummary>
    var joinedRooms: set<string>
    var messagesByRoom: map<string, seq<Chat>>
    /** The response listener of the list-rooms hook, while it is registered. */
    var listSubscription: Option<nat>

    function State(): AppState
      reads this
    {
      AppState(roomId, rooms, joinedRooms, messagesByRoom)
    }

    ghost predicate Valid()
      reads this, socket
    {
      socket != null ==> socket.Valid()
    }

    constructor (socket: WebSocket?, userName: Option<string>)
      requires socket != null ==> socket.Valid()
      ensures Valid()
      ensures this.socket == socket && this.userName == userName
      ensures State() == Initial() && listSubscription == None
    {
      this.socket := socket;
      this.userName := userName;
      roomId, rooms, joinedRooms, messagesByRoom := "", [], {}, map[];
      listSubscription := None;
    }

    /**
     * The effects after the first render: the list-rooms hook subscribes
     * its handler (the other two hooks have none), then the list_rooms
     * request is sent.
     */
    method Mount()
      requires Valid()
      modifies this, socket
      ensures Valid() && State() == old(State())
      ensures listSubscription.Some? <==> socket != null
      ensures socket != null ==> socket.State() == WsRequest.AfterSend(
        old(socket.State()).(messageListeners := old(socket.messageListeners) + [listSubscription.value],
                             nextId := listSubscription.value + 1),
        ListRoomsRequest)
    {
      listSubscription := WsRequest.RegisterResponses(socket, true);
      WsRequest.Send(socket, ListRoomsRequest);
    }

    /** The list-rooms handler, called once per inbound response. */
    method OnResponse(r: Response)
      modifies this
      ensures State() == HandleListRooms(old(State()), r)
      ensures listSubscription == old(listSubscription)
    {
      if r.ListRooms? {
        rooms := r.rooms;
      }
    }

    /** onMessageSent, from the chat panel's submit. */
    method OnMessageSent(content: string)
      requires Valid()
      modifies this, socket
      ensures Valid() && listSubscription == old(listSubscription)
      ensures State() == MessageSent(old(State()), userName, content).state
      ensures socket != null && old(roomId) != "" ==>
        socket.State() == WsRequest.AfterSend(old(socket.State()), ChatRequest(content, old(roomId)))
      ensures socket != null && old(roomId) == "" ==> socket.State() == old(socket.State())
    {
      var chat := Chat(content, ChatUser(userName));
      if roomId == "" {
        return;
      }
      var next := AppendChat(messagesByRoom, roomId, chat);
      if next.Some? {
        messagesByRoom := next.value;
      }
      WsRequest.Send(socket, ChatRequest(content, roomId));
    }

    /** joinRoom, from a row's Join button. */
    method JoinRoom(id: string)
      requires Valid()
      modifies this, socket
      ensures Valid() && listSubscription == old(listSubscription)
      ensures State() == Join(old(State()), id).state
      ensures socket != null ==> socket.State() == WsRequest.AfterSend(old(socket.State()), JoinRoomRequest(id))
    {
      WsRequest.Send(socket, JoinRoomRequest(id));
      roomId := id;
      joinedRooms := joinedRooms + {id};
    }

    /** A click on a row's Join button: joinRoom with the row's id, unless the button is disabled. */
    method OnJoinClick(room: RoomSummary)
      requires Valid()
      modifies this, socket
      ensures Valid() && listSubscription == old(listSubscription)
      ensures State() == Step(old(State()), userName, JoinClicked(room)).state
      ensures socket != null && !Rooms.JoinDisabled(room, old(joinedRooms)) ==>
        socket.State() == WsRequest.AfterSend(old(socket.State()), JoinRoomRequest(room.id))
      ensures socket != null && Rooms.JoinDisabled(room, old(joinedRooms)) ==> socket.State() == old(socket.State())
    {
      var join := Rooms.JoinClick(room, joinedRooms);
      if join.Some? {
        JoinRoom(join.value);
      }
    }

    /** The list-rooms hook's effect cleanup, when the component unmounts or its socket changes. */
    method Unmount()
      requires Valid()
      modifies this, socket
      ensures Valid() && State() == old(State()) && listSubscription == None
      ensures socket != null && old(listSubscription).Some? ==>
        socket.State() == old(socket.State()).(messageListeners := RemoveMessage(old(socket.messageListeners), old(listSubscription).value))
      ensures socket != null && old(listSubscription).None? ==> socket.State() == old(socket.State())
    {
      WsRequest.Cleanup(socket, listSubscription);
      listSubscription := None;
    }

    /** A click on a row's main button. */
    method OnRoomClick(room: RoomSummary)
      modifies this
      ensures State() == ClickRoom(old(State()), room)
      ensures listSubscription == old(listSubscription)
    {
      var click := Rooms.MainClick(room, Some(roomId), joinedRooms);
      match click
      case Deselect => roomId := "";
      case Select(id) => roomId := id;
      case Ignore =>
    }
  }
}
