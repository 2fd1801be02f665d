/**
 * The wire vocabulary of the chat client (frontend/src/api/types.ts): the
 * request and response tagged unions and the records they carry. Each
 * variant's `type` discriminant is given by RequestType/ResponseType.
 */
module Types {
  import opened Wrappers

  /** An outbound request: exactly four variants. */
  datatype Request =
    | ChatRequest(message: string, roomId: string)
    | Connect(token: string, name: string)
    | ListRoomsRequest
    | JoinRoomRequest(roomId: string)

  /** The author of a chat; the name may be null. */
  datatype ChatUser = ChatUser(name: Option<string>)

  datatype Chat = Chat(content: string, user: ChatUser)

  /** A room as listed by the server: id, name and the server's view of membership. */
  datatype RoomSummary = RoomSummary(id: string, name: string, joined: bool)

  /**
   * An inbound response. The two `join_room` shapes are two variants:
   * JoinOk is status "ok" with a null reason, JoinError is status "error"
   * with a string reason.
   */
  datatype Response =
    | RoomEvent(chat: Chat)
    | ErrorResponse(message: string)
    | ListRooms(rooms: seq<RoomSummary>)
    | JoinOk
    | JoinError(reason: string)

  /** The `type` field of a request. */
  function RequestType(r: Request): (tag: string)
    ensures tag in {"chat", "connect", "list_rooms", "join_room"}
  {
    match r
    case ChatRequest(_, _) => "chat"
    case Connect(_, _) => "connect"
    case ListRoomsRequest => "list_rooms"
    case JoinRoomRequest(_) => "join_room"
  }

  /** The `type` field of a response. */
  function ResponseType(r: Response): (tag: string)
    ensures tag in {"room_event", "error", "list_rooms", "join_room"}
  {
    match r
    case RoomEvent(_) => "room_event"
    case ErrorResponse(_) => "error"
    case ListRooms(_) => "list_rooms"
    case JoinOk => "join_room"
    case JoinError(_) => "join_room"
  }

  /** The `status` field of a join_room response. */
  function JoinStatus(r: Response): (status: string)
    requires ResponseType(r) == "join_room"
    ensures status in {"ok", "error"}
  {
    if r.JoinOk? then "ok" else "error"
  }

  /** The `reason` field of a join_room response; None stands for null. */
  function JoinReason(r: Response): (reason: Option<string>)
    requires ResponseType(r) == "join_room"
    ensures reason.None? <==> JoinStatus(r) == "ok"
  {
    if r.JoinError? then Some(r.reason) else None
  }

  /** The discriminant of a request determines its variant. */
  lemma RequestTypeDeterminesVariant(a: Request, b: Request)
    requires RequestType(a) == RequestType(b)
    ensures a.ChatRequest? == b.ChatRequest? && a.Connect? == b.Connect?
    ensures a.ListRoomsRequest? == b.ListRoomsRequest? && a.JoinRoomRequest? == b.JoinRoomRequest?
  {
  }

  /**
   * The discriminant of a response determines its variant, except that the
   * two join_room variants share one, and are told apart by their status.
   */
  lemma ResponseTypeDeterminesVariant(a: Response, b: Response)
    requires ResponseType(a) == ResponseType(b)
    ensures a.RoomEvent? == b.RoomEvent? && a.ErrorResponse? == b.ErrorResponse?
    ensures a.ListRooms? == b.ListRooms?
    ensures a.JoinOk? || a.JoinError? <==> b.JoinOk? || b.JoinError?
    ensures ResponseType(a) == "join_room" && JoinStatus(a) == JoinStatus(b) ==> a.JoinOk? == b.JoinOk?
  {
  }
}
