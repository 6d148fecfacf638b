/** The Room document (backend/models/Room.js) and the room collection. */
module Rooms {
  import opened Js

  type RoomId = string
  type SocketId = string

  /** The status enum; `Waiting` is the schema default. */
  datatype Status = Waiting | Active | Completed

  /** One participant entry; `joinedAt` is a millisecond timestamp. */
  datatype Participant = Participant(socketId: SocketId, joinedAt: int)

  datatype Filters = Filters(maxDistance: real, cuisine: string, priceLevel: seq<int>)

  datatype LatLng = LatLng(lat: real, lng: real)

  datatype Room = Room(
    id: RoomId,
    roomKey: string,
    filters: Filters,
    participants: seq<Participant>,
    status: Status,
    location: LatLng,
    createdAt: int)

  const DefaultMaxDistance: real := 5000.0
  const DefaultCuisine: string := "restaurant"
  const DefaultPriceLevels: seq<int> := [1, 2, 3, 4]
  const DefaultStatus: Status := Waiting

  /** The TTL index's retention window, in milliseconds (86400 s). */
  const RetentionMillis: int := 86400 * 1000

  /** The TTL index makes a room eligible for deletion once its retention
      window has passed; the database removes it at some later sweep. */
  predicate ExpiredAt(room: Room, now: int) {
    now >= room.createdAt + RetentionMillis
  }

  function ParticipantIds(room: Room): set<SocketId> {
    set p | p in room.participants :: p.socketId
  }

  predicate HasParticipant(room: Room, sock: SocketId) {
    exists p :: p in room.participants && p.socketId == sock
  }

  lemma HasParticipantIff(room: Room, sock: SocketId)
    ensures HasParticipant(room, sock) <==> sock in ParticipantIds(room)
  {
  }

  /** The room collection, in the database's natural (insertion) order. */
  type RoomStore = seq<Room>

  function IdSet(store: RoomStore): set<RoomId> {
    set r | r in store :: r.id
  }

  function KeySet(store: RoomStore): set<string> {
    set r | r in store :: r.roomKey
  }

  /** `_id` is unique across the collection. */
  predicate IdsUnique(store: RoomStore) {
    forall i, j :: 0 <= i < j < |store| ==> store[i].id != store[j].id
  }

  /** `roomKey` is declared `unique` in the schema. */
  predicate KeysUnique(store: RoomStore) {
    forall i, j :: 0 <= i < j < |store| ==> store[i].roomKey != store[j].roomKey
  }

  /** `Room.findById(id)`: the position of the room with that id, if any. */
  function FindById(store: RoomStore, id: RoomId): (r: Option<nat>)
    ensures r.Some? ==> r.value < |store| && store[r.value].id == id
    ensures r.Some? ==> forall j :: 0 <= j < r.value ==> store[j].id != id
    ensures r.None? <==> id !in IdSet(store)
  {
    if store == [] then None
    else if store[0].id == id then Some(0)
    else match FindById(store[1..], id)
      case None => None
      case Some(k) => Some(k + 1)
  }

  /** `Room.findOne({ roomKey })`: the first room whose key equals `key` exactly. */
  function FindByKey(store: RoomStore, key: string): (r: Option<nat>)
    ensures r.Some? ==> r.value < |store| && store[r.value].roomKey == key
    ensures r.Some? ==> forall j :: 0 <= j < r.value ==> store[j].roomKey != key
    ensures r.None? <==> key !in KeySet(store)
  {
    if store == [] then None
    else if store[0].roomKey == key then Some(0)
    else match FindByKey(store[1..], key)
      case None => None
      case Some(k) => Some(k + 1)
  }

  /** No socket is listed twice in one room. */
  predicate SocketsDistinct(ps: seq<Participant>) {
    forall i, j :: 0 <= i < j < |ps| ==> ps[i].socketId != ps[j].socketId
  }

  /** The membership invariant the socket handlers maintain: at most two
      participants, `active` exactly when there are two, never `completed`. */
  predicate WellFormedRoom(room: Room) {
    && |room.participants| <= 2
    && (room.status == Active <==> |room.participants| == 2)
    && room.status != Completed
    && SocketsDistinct(room.participants)
  }
}
