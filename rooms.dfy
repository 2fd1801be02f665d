/**
 * The display rules of the room list in frontend/src/Rooms.tsx: which room
 * is active and which is joined, what a click on a room's main button does,
 * the badge on each row, and when the Join button is enabled. Class strings
 * are reduced to the decisions they encode.
 */
module Rooms {
  import opened Wrappers
  import opened Types

  /** A row is active when it is the selected room; `selected` is None when no id is passed. */
  predicate IsActive(room: RoomSummary, selected: Option<string>) {
    selected == Some(room.id)
  }

  /** A room counts as joined when the local overlay has it or the server says so. */
  predicate IsJoined(room: RoomSummary, joinedRooms: set<string>) {
    room.id in joinedRooms || room.joined
  }

  /** What a click on a room's main button asks of the parent. */
  datatype Click = Deselect | Select(id: string) | Ignore

  /** The main button's click rule: the active room is deselected, another joined room selected. */
  function MainClick(room: RoomSummary, selected: Option<string>, joinedRooms: set<string>): (c: Click)
    ensures c == Deselect <==> IsActive(room, selected)
    ensures c == Select(room.id) <==> !IsActive(room, selected) && IsJoined(room, joinedRooms)
    ensures c == Ignore <==> !IsActive(room, selected) && !IsJoined(room, joinedRooms)
  {
    if IsActive(room, selected) then Deselect
    else if IsJoined(room, joinedRooms) then Select(room.id)
    else Ignore
  }

  /** The new selected id after a click, as the parent's setRoomID applies it. */
  function ApplyClick(c: Click, selected: string): string {
    match c
    case Deselect => ""
    case Select(id) => id
    case Ignore => selected
  }

  /** The badge text of a row. */
  function BadgeLabel(room: RoomSummary, selected: Option<string>, joinedRooms: set<string>): (text: string)
    ensures text == "selected" <==> IsActive(room, selected)
    ensures text == "joined" <==> !IsActive(room, selected) && IsJoined(room, joinedRooms)
    ensures text == "open" <==> !IsActive(room, selected) && !IsJoined(room, joinedRooms)
  {
    if IsActive(room, selected) then "selected"
    else if IsJoined(room, joinedRooms) then "joined"
    else "open"
  }

  /** The main button shows a pointer cursor when clicking it does something. */
  predicate PointerCursor(room: RoomSummary, selected: Option<string>, joinedRooms: set<string>) {
    IsJoined(room, joinedRooms) || IsActive(room, selected)
  }

  /** The Join button is disabled for joined rooms. */
  predicate JoinDisabled(room: RoomSummary, joinedRooms: set<string>) {
    IsJoined(room, joinedRooms)
  }

  /** The Join button's click: joinRoom with the row's own id, or nothing when the button is disabled. */
  function JoinClick(room: RoomSummary, joinedRooms: set<string>): (join: Option<string>)
    ensures join.Some? <==> !JoinDisabled(room, joinedRooms)
    ensures join.Some? ==> join.value == room.id
  {
    if JoinDisabled(room, joinedRooms) then None else Some(room.id)
  }

  /** The decisions behind one rendered row; `join` is what its Join button asks of the parent. */
  datatype Row = Row(id: string, name: string, active: bool, joined: bool, badge: string, pointer: bool, join: Option<string>)

  function RowOf(room: RoomSummary, selected: Option<string>, joinedRooms: set<string>): Row {
    Row(room.id, room.name, IsActive(room, selected), IsJoined(room, joinedRooms),
        BadgeLabel(room, selected, joinedRooms), PointerCursor(room, selected, joinedRooms),
        JoinClick(room, joinedRooms))
  }

  /** The list view: the count badge and one row per room, in list order. */
  datatype RoomsView = RoomsView(count: nat, rows: seq<Row>)

  function RoomRows(rooms: seq<RoomSummary>, selected: Option<string>, joinedRooms: set<string>): (rows: seq<Row>)
    ensures |rows| == |rooms|
    ensures forall i :: 0 <= i < |rooms| ==> rows[i].id == rooms[i].id && rows[i].name == rooms[i].name
    ensures forall i :: 0 <= i < |rooms| ==> rows[i] == RowOf(rooms[i], selected, joinedRooms)
  {
    if rooms == [] then []
    else RoomRows(rooms[..|rooms| - 1], selected, joinedRooms) + [RowOf(rooms[|rooms| - 1], selected, joinedRooms)]
  }

  function View(rooms: seq<RoomSummary>, selected: Option<string>, joinedRooms: set<string>): (v: RoomsView)
    ensures v.count == |rooms| == |v.rows|
  {
    RoomsView(|rooms|, RoomRows(rooms, selected, joinedRooms))
  }

  /** At most one row is active when room ids are distinct. */
  lemma {:induction false} AtMostOneActive(rooms: seq<RoomSummary>, selected: Option<string>, joinedRooms: set<string>, i: int, j: int)
    requires forall a, b :: 0 <= a < b < |rooms| ==> rooms[a].id != rooms[b].id
    requires 0 <= i < |rooms| && 0 <= j < |rooms|
    requires RoomRows(rooms, selected, joinedRooms)[i].active && RoomRows(rooms, selected, joinedRooms)[j].active
    ensures i == j
  {
    var rows := RoomRows(rooms, selected, joinedRooms);
    assert rows[i] == RowOf(rooms[i], selected, joinedRooms);
    assert rows[j] == RowOf(rooms[j], selected, joinedRooms);
    assert rooms[i].id == rooms[j].id;
  }

  /** The badge and the click agree: "selected" rows deselect, "joined" rows select, "open" rows do nothing. */
  lemma BadgeAgreesWithClick(room: RoomSummary, selected: Option<string>, joinedRooms: set<string>)
    ensures BadgeLabel(room, selected, joinedRooms) == "selected" <==> MainClick(room, selected, joinedRooms).Deselect?
    ensures BadgeLabel(room, selected, joinedRooms) == "joined" <==> MainClick(room, selected, joinedRooms).Select?
    ensures BadgeLabel(room, selected, joinedRooms) == "open" <==> MainClick(room, selected, joinedRooms).Ignore?
  {
  }

  /** The pointer cursor is shown exactly on the rows whose main button does something. */
  lemma PointerIffClickable(room: RoomSummary, selected: Option<string>, joinedRooms: set<string>)
    ensures PointerCursor(room, selected, joinedRooms) <==> !MainClick(room, selected, joinedRooms).Ignore?
  {
  }

  /** Clicking the selected room twice returns to it when it is joined: deselect, then select. */
  lemma ClickTwice(room: RoomSummary, joinedRooms: set<string>)
    requires IsJoined(room, joinedRooms) && room.id != ""
    ensures var once := ApplyClick(MainClick(room, Some(room.id), joinedRooms), room.id);
      once == "" && ApplyClick(MainClick(room, Some(once), joinedRooms), once) == room.id
  {
  }
}
