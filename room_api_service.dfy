/**
 * The room API service: the room records it exchanges with the backend,
 * the success conditions of `createRoom`, and `findRoomByName`. The HTTP
 * transport is replaced by the responses it would deliver, and the backend
 * by a list of rooms that creation appends to.
 */
module RoomApi {
  import opened Wrappers
  import Search

  datatype RoomType = Single | Double | Suite

  datatype Room = Room(
    roomName: string,
    roomType: RoomType,
    accessible: bool,
    roomPrice: int,
    features: seq<string>,
    roomid: Option<int>,
    description: Option<string>,
    image: Option<string>)

  /** `CreateRoomData`: a room without `roomid`, `description` and `image`. */
  datatype CreateRoomData = CreateRoomData(
    roomName: string,
    roomType: RoomType,
    accessible: bool,
    roomPrice: int,
    features: seq<string>)

  /**
   * A response to the creation request: its status and the decoded body's
   * `success` flag (`None` when absent or not a boolean) and `room` field.
   */
  datatype CreateResponse = CreateResponse(status: int, success: Option<bool>, room: Option<Room>)

  /** The expectation in `createRoom` that failed. */
  datatype CreateFailure = StatusNot200(status: int) | SuccessNotTrue

  /** `createRoom`'s checks on the response: status 200, then a success flag that is true; it returns the body's room. */
  function CreateRoom(response: CreateResponse): (r: Result<Option<Room>, CreateFailure>)
    ensures r.Ok? <==> response.status == 200 && response.success == Some(true)
    ensures r.Ok? ==> r.value == response.room
    ensures response.status != 200 ==> r == Err(StatusNot200(response.status))
  {
    if response.status != 200 then Err(StatusNot200(response.status))
    else if response.success != Some(true) then Err(SuccessNotTrue)
    else Ok(response.room)
  }

  function RoomNames(rooms: seq<Room>): (names: seq<string>)
    ensures |names| == |rooms| && forall i :: 0 <= i < |rooms| ==> names[i] == rooms[i].roomName
  {
    seq(|rooms|, i requires 0 <= i < |rooms| => rooms[i].roomName)
  }

  /** The first room of the list whose name is exactly `roomName`. */
  function FindRoomByName(rooms: seq<Room>, roomName: string): (found: Option<Room>)
    ensures found.None? <==> forall i :: 0 <= i < |rooms| ==> rooms[i].roomName != roomName
    ensures found.Some? ==> found.value.roomName == roomName
    ensures found.Some? ==>
      exists i :: 0 <= i < |rooms| && rooms[i] == found.value &&
                  forall j :: 0 <= j < i ==> rooms[j].roomName != roomName
  {
    var names := RoomNames(rooms);
    match Search.FirstIndex(names, roomName)
    case None =>
      assert forall i :: 0 <= i < |rooms| ==> names[i] != roomName;
      None
    case Some(k) =>
      assert forall j :: 0 <= j < k ==> names[..k][j] == rooms[j].roomName;
      Some(rooms[k])
  }

  /** The room the backend stores for creation data, under the id it assigns. */
  function NewRoom(data: CreateRoomData, id: int): Room
  {
    Room(data.roomName, data.roomType, data.accessible, data.roomPrice, data.features, Some(id), None, None)
  }

  /** A backend that accepts the creation: it appends the room and answers 200 with success. */
  function BackendCreate(rooms: seq<Room>, data: CreateRoomData, id: int): (CreateResponse, seq<Room>)
  {
    (CreateResponse(200, Some(true), Some(NewRoom(data, id))), rooms + [NewRoom(data, id)])
  }

  /**
   * A room created under a name no stored room has is returned with its id,
   * and `findRoomByName` then finds it with the type, price, accessibility
   * and features it was created with.
   */
  lemma CreatedRoomIsFound(rooms: seq<Room>, data: CreateRoomData, id: int)
    requires forall i :: 0 <= i < |rooms| ==> rooms[i].roomName != data.roomName
    ensures var (response, after) := BackendCreate(rooms, data, id);
      CreateRoom(response) == Ok(Some(NewRoom(data, id))) &&
      NewRoom(data, id).roomid.Some? &&
      FindRoomByName(after, data.roomName) == Some(NewRoom(data, id))
  {
    var after := rooms + [NewRoom(data, id)];
    assert after[|rooms|].roomName == data.roomName;
    var found := FindRoomByName(after, data.roomName);
    var i :| 0 <= i < |after| && after[i] == found.value;
  }

  /** Creating a room does not change what a search for any other name finds. */
  lemma CreateKeepsOtherSearches(rooms: seq<Room>, data: CreateRoomData, id: int, other: string)
    requires other != data.roomName
    ensures FindRoomByName(rooms + [NewRoom(data, id)], other) == FindRoomByName(rooms, other)
  {
    var after := rooms + [NewRoom(data, id)];
    assert RoomNames(after) == RoomNames(rooms) + [data.roomName];
    var names := RoomNames(rooms);
    match Search.FirstIndex(names, other)
    case None =>
      assert other !in names + [data.roomName];
    case Some(k) =>
      var k' := Search.FirstIndex(names + [data.roomName], other).value;
      assert (names + [data.roomName])[k] == other;
      assert names[k'] == other;
  }
}
