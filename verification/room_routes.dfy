/** The room REST endpoints (backend/routes/roomRoutes.js): creation with a
    bounded search for an unused key, the pre-join check and the lookup. */
module RoomRoutes {
  import opened Js
  import opened RoomKey
  import opened Rooms

  /** The request's `location`. Coordinates are numbers or absent; a string
      coordinate, which the database would cast, is not represented. */
  datatype LocationInput = LocationInput(lat: Option<real>, lng: Option<real>)

  /** The body of `POST /api/rooms`. */
  datatype CreateRequest = CreateRequest(
    maxDistance: Option<real>,
    cuisine: Option<string>,
    priceLevel: Option<seq<int>>,
    location: Option<LocationInput>)

  /** The 201 response of `POST /api/rooms`. */
  datatype Created = Created(roomId: RoomId, roomKey: string, filters: Filters, status: Status)

  /** The success response of `POST /api/rooms/join`. */
  datatype JoinInfo = JoinInfo(
    roomId: RoomId,
    roomKey: string,
    filters: Filters,
    location: LatLng,
    participantCount: nat,
    status: Status)

  const MaxKeyAttempts: nat := 10

  const LocationRequired := HttpError(400, "Location (lat, lng) is required")
  const KeyGenerationExhausted := HttpError(500, "Failed to generate unique room key")
  const InvalidKeyFormat := HttpError(400, "Invalid room key format")
  const RoomNotFound := HttpError(404, "Room not found")
  const RoomFull := HttpError(400, "Room is full")

  /** The key loop from attempt `attempts` on: try `candidates[attempts]`,
      stop at the first key no room has, give up after `MaxKeyAttempts`
      collisions. `candidates` are the keys the generator would return, in order. */
  function SelectRoomKey(taken: set<string>, candidates: seq<string>, attempts: nat): (r: Option<string>)
    requires attempts < MaxKeyAttempts <= |candidates|
    decreases MaxKeyAttempts - attempts
    ensures r.Some? <==> exists i :: attempts <= i < MaxKeyAttempts && candidates[i] !in taken
    ensures r.Some? ==> r.value !in taken
    ensures r.Some? ==> exists i :: attempts <= i < MaxKeyAttempts && candidates[i] == r.value
                           && forall j :: attempts <= j < i ==> candidates[j] in taken
  {
    if candidates[attempts] !in taken then Some(candidates[attempts])
    else if attempts + 1 < MaxKeyAttempts then SelectRoomKey(taken, candidates, attempts + 1)
    else None
  }

  /** The defaults applied with `||`: a zero or absent distance, an empty or
      absent cuisine and an absent price list are replaced. */
  function FiltersFor(req: CreateRequest): (f: Filters)
    ensures f.maxDistance == (if TruthyNum(req.maxDistance) then req.maxDistance.value else DefaultMaxDistance)
    ensures f.cuisine == (if TruthyStr(req.cuisine) then req.cuisine.value else DefaultCuisine)
    ensures f.priceLevel == (if req.priceLevel.Some? then req.priceLevel.value else DefaultPriceLevels)
  {
    Filters(NumOr(req.maxDistance, DefaultMaxDistance),
            StrOr(req.cuisine, DefaultCuisine),
            req.priceLevel.GetOr(DefaultPriceLevels))
  }

  predicate HasLocation(req: CreateRequest) {
    req.location.Some? && TruthyNum(req.location.value.lat) && TruthyNum(req.location.value.lng)
  }

  /** `POST /api/rooms`. `newId` is the id the database assigns and `now`
      the creation time. On success the store gains exactly one room, at the end. */
  function CreateRoom(store: RoomStore, req: CreateRequest, candidates: seq<string>, newId: RoomId, now: int)
    : (r: Result<(RoomStore, Created), HttpError>)
    requires newId !in IdSet(store)
    requires |candidates| >= MaxKeyAttempts
    ensures !HasLocation(req) ==> r == Err(LocationRequired)
    ensures HasLocation(req) && (forall i :: 0 <= i < MaxKeyAttempts ==> candidates[i] in KeySet(store))
            ==> r == Err(KeyGenerationExhausted)
    ensures r.Err? ==> r.error in {LocationRequired, KeyGenerationExhausted}
    ensures r.Ok? <==> HasLocation(req) && exists i :: 0 <= i < MaxKeyAttempts && candidates[i] !in KeySet(store)
    ensures r.Ok? ==> var (store', created) := r.value;
      && created.roomId == newId
      && (exists i :: && 0 <= i < MaxKeyAttempts && candidates[i] == created.roomKey
                      && forall j :: 0 <= j < i ==> candidates[j] in KeySet(store))
      && |store'| == |store| + 1
      && store'[..|store|] == store
      && store'[|store|].id == newId
      && store'[|store|].createdAt == now
      && store'[|store|].roomKey == created.roomKey
      && created.roomKey !in KeySet(store)
      && created.roomKey in candidates[..MaxKeyAttempts]
      && store'[|store|].participants == []
      && store'[|store|].status == Waiting
      && store'[|store|].filters == FiltersFor(req) == created.filters
      && store'[|store|].location == LatLng(req.location.value.lat.value, req.location.value.lng.value)
      && created.status == Waiting
  {
    if !HasLocation(req) then Err(LocationRequired)
    else
      match SelectRoomKey(KeySet(store), candidates, 0)
      case None => Err(KeyGenerationExhausted)
      case Some(key) =>
        var loc := req.location.value;
        var room := Room(newId, key, FiltersFor(req), [], Waiting,
                         LatLng(loc.lat.value, loc.lng.value), now);
        Ok((store + [room], Created(newId, key, room.filters, room.status)))
  }

  /** A coordinate of exactly zero is rejected like a missing one. */
  lemma ZeroCoordinateRejected(store: RoomStore, req: CreateRequest, candidates: seq<string>, newId: RoomId, now: int)
    requires newId !in IdSet(store)
    requires |candidates| >= MaxKeyAttempts
    requires req.location == Some(LocationInput(Some(0.0), Some(2.5)))
    ensures CreateRoom(store, req, candidates, newId, now) == Err(LocationRequired)
  {
  }

  /** Creation keeps the collection's keys and ids unique and keeps every
      room's membership invariant. */
  lemma CreatePreservesStore(store: RoomStore, req: CreateRequest, candidates: seq<string>, newId: RoomId, now: int)
    requires newId !in IdSet(store)
    requires |candidates| >= MaxKeyAttempts
    requires IdsUnique(store) && KeysUnique(store)
    requires forall room :: room in store ==> WellFormedRoom(room)
    ensures var r := CreateRoom(store, req, candidates, newId, now);
      r.Ok? ==> var store' := r.value.0;
        && IdsUnique(store') && KeysUnique(store')
        && (forall room :: room in store' ==> WellFormedRoom(room))
  {
    var r := CreateRoom(store, req, candidates, newId, now);
    if r.Ok? {
      var store' := r.value.0;
      assert store' == store + [store'[|store|]];
      forall i, j | 0 <= i < j < |store'|
        ensures store'[i].id != store'[j].id && store'[i].roomKey != store'[j].roomKey
      {
        if j == |store| {
          assert store'[i] == store[i];
          assert store[i] in store;
        }
      }
    }
  }

  /** `POST /api/rooms/join`: the key format is checked first, then the raw
      key is looked up, then capacity. Nothing is modified; this only
      reports the room so that the client can join through the socket. */
  function JoinCheck(store: RoomStore, roomKey: Value): (r: Result<JoinInfo, HttpError>)
    ensures !IsValidRoomKey(roomKey) ==> r == Err(InvalidKeyFormat)
    ensures r == Err(RoomNotFound) <==> IsValidRoomKey(roomKey) && roomKey.s !in KeySet(store)
    ensures r.Err? ==> r.error in {InvalidKeyFormat, RoomNotFound, RoomFull}
    ensures r.Err? && r.error == RoomFull <==>
      && IsValidRoomKey(roomKey)
      && (exists i :: && 0 <= i < |store| && store[i].roomKey == roomKey.s
                      && |store[i].participants| >= 2
                      && (forall j :: 0 <= j < i ==> store[j].roomKey != roomKey.s))
    ensures r.Ok? <==>
      && IsValidRoomKey(roomKey)
      && (exists i :: && 0 <= i < |store| && store[i].roomKey == roomKey.s
                      && |store[i].participants| < 2
                      && (forall j :: 0 <= j < i ==> store[j].roomKey != roomKey.s))
    ensures r.Ok? ==>
      && IsValidRoomKey(roomKey)
      && (exists i :: && 0 <= i < |store|
                      && store[i].roomKey == roomKey.s
                      && |store[i].participants| < 2
                      && (forall j :: 0 <= j < i ==> store[j].roomKey != roomKey.s)
                      && r.value == JoinInfo(store[i].id, store[i].roomKey, store[i].filters,
                                             store[i].location, |store[i].participants|, store[i].status))
  {
    if !IsValidRoomKey(roomKey) then Err(InvalidKeyFormat)
    else
      match FindByKey(store, roomKey.s)
      case None => Err(RoomNotFound)
      case Some(i) =>
        var room := store[i];
        if |room.participants| >= 2 then Err(RoomFull)
        else Ok(JoinInfo(room.id, room.roomKey, room.filters, room.location,
                         |room.participants|, room.status))
  }

  /** The lookup uses the key as typed while the check upper-cases it: when
      every stored key came from the generator, a key with a lower-case
      letter passes the format check and is then not found. */
  lemma LowercaseKeyNotFound(store: RoomStore, s: string)
    requires forall room :: room in store ==> IsKeyShape(room.roomKey)
    requires IsValidRoomKey(Str(s))
    requires exists i :: 0 <= i < |s| && 'a' <= s[i] <= 'z'
    ensures JoinCheck(store, Str(s)) == Err(RoomNotFound)
  {
    var i :| 0 <= i < |s| && 'a' <= s[i] <= 'z';
    forall room | room in store
      ensures room.roomKey != s
    {
      if |room.roomKey| == |s| {
        assert IsKeyLetter(room.roomKey[i]) && !IsKeyLetter(s[i]);
      }
    }
  }

  /** `GET /api/rooms/:roomId`. */
  function GetRoom(store: RoomStore, roomId: RoomId): (r: Result<Room, HttpError>)
    ensures r.Err? <==> roomId !in IdSet(store)
    ensures r.Err? ==> r.error == RoomNotFound
    ensures r.Ok? ==> r.value in store && r.value.id == roomId
  {
    match FindById(store, roomId)
    case None => Err(RoomNotFound)
    case Some(i) => Ok(store[i])
  }
}
