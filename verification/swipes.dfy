/** The Swipe document (backend/models/Swipe.js): one participant's decision
    on one restaurant, with a snapshot of the restaurant's display data. */
module Swipes {
  import opened Js
  import opened Rooms
  import opened Places

  datatype Direction = Left | Right

  /** The `restaurantData` sub-document. The schema declares name, address,
      rating, priceLevel, photos and location only; `restaurantId` and `id`
      stand for keys the schema does not declare, which a document read back
      could carry only if it was written by some other path. */
  datatype Snapshot = Snapshot(
    name: Option<string>,
    address: Option<string>,
    rating: Option<real>,
    priceLevel: Option<int>,
    photos: seq<PhotoRef>,
    location: Coordinates,
    restaurantId: Option<string>,
    id: Option<string>)

  datatype Swipe = Swipe(
    roomId: RoomId,
    socketId: SocketId,
    restaurantId: string,
    direction: Direction,
    restaurantData: Snapshot,
    createdAt: int)

  /** A document with no restaurant data still has the array default `photos: []`. */
  const EmptySnapshot: Snapshot := Snapshot(None, None, None, None, [], Coordinates(None, None), None, None)

  /** What the schema keeps of a posted restaurant: the declared fields only;
      the candidate's `id` and `types` are dropped by strict mode. */
  function ToSnapshot(data: Option<Candidate>): (snap: Snapshot)
    ensures snap.restaurantId.None? && snap.id.None?
    ensures data.None? ==> snap == EmptySnapshot
    ensures data.Some? ==>
      && snap.name == Some(data.value.name)
      && snap.address == data.value.address
      && snap.rating == Some(data.value.rating)
      && snap.priceLevel == Some(data.value.priceLevel as int)
      && snap.photos == data.value.photos
      && snap.location == data.value.location
  {
    match data
    case None => EmptySnapshot
    case Some(c) => Snapshot(Some(c.name), c.address, Some(c.rating), Some(c.priceLevel as int),
                             c.photos, c.location, None, None)
  }

  /** Two swipes share the compound index key (roomId, socketId, restaurantId). */
  predicate SameKey(a: Swipe, b: Swipe) {
    a.roomId == b.roomId && a.socketId == b.socketId && a.restaurantId == b.restaurantId
  }

  predicate HasKey(ledger: seq<Swipe>, roomId: RoomId, socketId: SocketId, restaurantId: string) {
    exists s :: s in ledger && s.roomId == roomId && s.socketId == socketId && s.restaurantId == restaurantId
  }

  /** The compound index is not declared unique, so this is a property the
      write path has to maintain, not one the store enforces. */
  predicate KeysDistinct(ledger: seq<Swipe>) {
    forall i, j :: 0 <= i < j < |ledger| ==> !SameKey(ledger[i], ledger[j])
  }
}
