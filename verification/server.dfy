/** The socket handlers of backend/server.js as pure transitions: each takes
    the server state and returns the new state with the events it emits. */
module Server {
  import opened Js
  import opened Seqs
  import opened Rooms
  import opened Swipes

  /** Events the server emits. `ErrorMsg` is the `error` event. */
  datatype Event =
    | RoomUpdated(participantCount: nat, status: Status)
    | ErrorMsg(message: string)
    | PartnerSwiped(restaurantId: Value, direction: Value)
    | PartnerCompleted

  /** One emission: the sockets that receive it and the event. */
  datatype Emit = Emit(to: set<SocketId>, event: Event)

  /** The room collection, the socket.io broadcast groups (group name to
      member sockets) and the swipe ledger. */
  datatype State = State(rooms: RoomStore, groups: map<RoomId, set<SocketId>>, ledger: seq<Swipe>)

  datatype Outcome = Outcome(state: State, emits: seq<Emit>)

  const RoomNotFoundMsg := "Room not found"
  const RoomFullMsg := "Room is full"

  /** The members of a broadcast group; a group nobody joined is empty. */
  function GroupOf(groups: map<RoomId, set<SocketId>>, name: RoomId): set<SocketId> {
    if name in groups then groups[name] else {}
  }

  /** `socket.join(name)`. */
  function JoinGroup(groups: map<RoomId, set<SocketId>>, name: RoomId, sock: SocketId)
    : (g: map<RoomId, set<SocketId>>)
    ensures GroupOf(g, name) == GroupOf(groups, name) + {sock}
    ensures forall n :: n != name ==> GroupOf(g, n) == GroupOf(groups, n)
  {
    groups[name := GroupOf(groups, name) + {sock}]
  }

  /** Leaving every group, which socket.io does before the `disconnect`
      handler runs. */
  function LeaveAll(groups: map<RoomId, set<SocketId>>, sock: SocketId): (g: map<RoomId, set<SocketId>>)
    ensures forall n :: GroupOf(g, n) == GroupOf(groups, n) - {sock}
  {
    map n | n in groups :: groups[n] - {sock}
  }

  /** The `room-updated` broadcast for a room, to its group. */
  function Notice(groups: map<RoomId, set<SocketId>>, room: Room): Emit {
    Emit(GroupOf(groups, room.id), RoomUpdated(|room.participants|, room.status))
  }

  /** The room with id `id`, if any. */
  function Lookup(rooms: RoomStore, id: RoomId): (r: Option<Room>)
    ensures r.Some? ==> r.value in rooms && r.value.id == id
    ensures r.None? <==> id !in IdSet(rooms)
  {
    match FindById(rooms, id)
    case None => None
    case Some(i) => Some(rooms[i])
  }

  /** The `join-room` handler for socket `sock`; `now` is the `joinedAt`
      default of a new participant entry. */
  function Join(st: State, sock: SocketId, roomId: RoomId, now: int): (o: Outcome)
    ensures roomId !in IdSet(st.rooms) ==>
      o == Outcome(st, [Emit({sock}, ErrorMsg(RoomNotFoundMsg))])
    ensures o.state.ledger == st.ledger
    ensures roomId in IdSet(st.rooms) ==>
      var i := FindById(st.rooms, roomId).value;
      var room := st.rooms[i];
      && (HasParticipant(room, sock) ==>
            && o.state.rooms == st.rooms
            && o.state.groups == JoinGroup(st.groups, roomId, sock)
            && o.emits == [Notice(o.state.groups, room)])
      && (!HasParticipant(room, sock) && |room.participants| >= 2 ==>
            o == Outcome(st, [Emit({sock}, ErrorMsg(RoomFullMsg))]))
      && (!HasParticipant(room, sock) && |room.participants| < 2 ==>
            && |o.state.rooms| == |st.rooms|
            && var room' := o.state.rooms[i];
            && (forall j :: 0 <= j < |st.rooms| && j != i ==> o.state.rooms[j] == st.rooms[j])
            && room'.id == room.id && room'.roomKey == room.roomKey
            && room'.filters == room.filters && room'.location == room.location
            && room'.createdAt == room.createdAt
            && room'.participants == room.participants + [Participant(sock, now)]
            && (|room'.participants| == 2 ==> room'.status == Active)
            && (|room'.participants| < 2 ==> room'.status == room.status)
            && o.state.groups == JoinGroup(st.groups, roomId, sock)
            && o.emits == [Notice(o.state.groups, room')])
  {
    match FindById(st.rooms, roomId)
    case None => Outcome(st, [Emit({sock}, ErrorMsg(RoomNotFoundMsg))])
    case Some(i) =>
      var room := st.rooms[i];
      if HasParticipant(room, sock) then
        var groups := JoinGroup(st.groups, roomId, sock);
        Outcome(st.(groups := groups), [Notice(groups, room)])
      else if |room.participants| >= 2 then
        Outcome(st, [Emit({sock}, ErrorMsg(RoomFullMsg))])
      else
        var ps := room.participants + [Participant(sock, now)];
        var room' := room.(participants := ps, status := if |ps| == 2 then Active else room.status);
        var groups := JoinGroup(st.groups, roomId, sock);
        Outcome(State(st.rooms[i := room'], groups, st.ledger), [Notice(groups, room')])
  }

  /** Keeps the entries of sockets other than `sock`. */
  function IsOther(sock: SocketId): Participant -> bool {
    (p: Participant) => p.socketId != sock
  }

  /** What the disconnect loop does to one room: a room `sock` is not in is
      untouched; otherwise `sock`'s entries are removed, and the room is
      deleted if none remain or set back to waiting if some do. */
  function AfterLeaving(room: Room, sock: SocketId): (r: Option<Room>)
    ensures !HasParticipant(room, sock) ==> r == Some(room)
    ensures r.None? <==> HasParticipant(room, sock) && ParticipantIds(room) == {sock}
    ensures r.Some? ==>
      && r.value.id == room.id && r.value.roomKey == room.roomKey
      && !HasParticipant(r.value, sock)
      && (forall p :: p in r.value.participants <==> p in room.participants && p.socketId != sock)
      && IsSubsequence(r.value.participants, room.participants)
      && (HasParticipant(room, sock) ==> r.value.status == Waiting)
      && (HasParticipant(room, sock) ==> r.value == room.(participants := r.value.participants, status := Waiting))
  {
    FilterContents(room.participants, IsOther(sock));
    if !HasParticipant(room, sock) then
      FilterAll(room.participants, IsOther(sock));
      Some(room)
    else
      var ps := Filter(room.participants, IsOther(sock));
      if |ps| == 0 then
        assert ParticipantIds(room) == {sock} by {
          forall p | p in room.participants ensures p.socketId == sock {
            assert p !in ps;
          }
        }
        None
      else
        assert ps[0] in ps;
        assert ps[0].socketId in ParticipantIds(room);
        Some(room.(participants := ps, status := Waiting))
  }

  lemma {:induction false} FilterKeepsSocketsDistinct(ps: seq<Participant>, p: Participant -> bool)
    requires SocketsDistinct(ps)
    ensures SocketsDistinct(Filter(ps, p))
  {
    if ps != [] {
      FilterKeepsSocketsDistinct(ps[1..], p);
      FilterContents(ps[1..], p);
      var rest := Filter(ps[1..], p);
      forall q | q in rest
        ensures q.socketId != ps[0].socketId
      {
        var m :| 0 <= m < |ps[1..]| && ps[1..][m] == q;
        assert ps[m + 1] == q;
      }
    }
  }

  /** A room that survives a disconnect still satisfies the membership
      invariant: it lost a participant, so it has at most one, and waits. */
  lemma AfterLeavingWellFormed(room: Room, sock: SocketId)
    requires WellFormedRoom(room)
    requires AfterLeaving(room, sock).Some?
    ensures WellFormedRoom(AfterLeaving(room, sock).value)
  {
    if HasParticipant(room, sock) {
      var p :| p in room.participants && p.socketId == sock;
      var i :| 0 <= i < |room.participants| && room.participants[i] == p;
      FilterDropsOne(room.participants, IsOther(sock), i);
      FilterKeepsSocketsDistinct(room.participants, IsOther(sock));
    }
  }

  datatype Cleanup = Cleanup(rooms: RoomStore, emits: seq<Emit>)

  /** The `for (const room of rooms)` loop of the disconnect handler, over
      the collection in natural order: a room's update and its broadcast
      happen in the position the query returns it. */
  function DisconnectRooms(rooms: RoomStore, sock: SocketId, groups: map<RoomId, set<SocketId>>)
    : (c: Cleanup)
    ensures |c.rooms| <= |rooms|
    ensures IdSet(c.rooms) <= IdSet(rooms)
    ensures forall r :: r in c.rooms ==> !HasParticipant(r, sock)
    ensures forall e :: e in c.emits ==>
      exists r :: r in rooms && HasParticipant(r, sock) && AfterLeaving(r, sock).Some?
                && e == Notice(groups, AfterLeaving(r, sock).value)
  {
    if rooms == [] then Cleanup([], [])
    else
      var rest := DisconnectRooms(rooms[1..], sock, groups);
      var room := rooms[0];
      assert forall r :: r in rooms[1..] ==> r in rooms;
      assert IdSet(rooms) == {room.id} + IdSet(rooms[1..]) by {
        assert rooms == [room] + rooms[1..];
        assert forall r :: r in rooms <==> r == room || r in rooms[1..];
      }
      match AfterLeaving(room, sock)
      case None => rest
      case Some(room') =>
        if HasParticipant(room, sock) then
          assert IdSet([room'] + rest.rooms) == {room.id} + IdSet(rest.rooms) by {
            assert forall r :: r in [room'] + rest.rooms <==> r == room' || r in rest.rooms;
          }
          Cleanup([room'] + rest.rooms, [Notice(groups, room')] + rest.emits)
        else
          assert IdSet([room] + rest.rooms) == {room.id} + IdSet(rest.rooms) by {
            assert forall r :: r in [room] + rest.rooms <==> r == room || r in rest.rooms;
          }
          Cleanup([room] + rest.rooms, rest.emits)
  }

  /** The `disconnect` handler: leave every group, then update each room the
      socket was in. */
  function Disconnect(st: State, sock: SocketId): (o: Outcome)
    ensures o.state.ledger == st.ledger
    ensures forall n :: sock !in GroupOf(o.state.groups, n)
    ensures forall r :: r in o.state.rooms ==> !HasParticipant(r, sock)
    ensures forall e :: e in o.emits ==> sock !in e.to && e.event.RoomUpdated? && e.event.status == Waiting
  {
    var groups := LeaveAll(st.groups, sock);
    var c := DisconnectRooms(st.rooms, sock, groups);
    Outcome(State(c.rooms, groups, st.ledger), c.emits)
  }

  /** The loop keeps ids and keys unique: it only drops rooms and rewrites
      participants and status. */
  lemma {:induction false} DisconnectKeepsUnique(rooms: RoomStore, sock: SocketId, groups: map<RoomId, set<SocketId>>)
    requires IdsUnique(rooms) && KeysUnique(rooms)
    ensures var c := DisconnectRooms(rooms, sock, groups);
      IdsUnique(c.rooms) && KeysUnique(c.rooms) && KeySet(c.rooms) <= KeySet(rooms)
  {
    if rooms != [] {
      var room := rooms[0];
      var rest := rooms[1..];
      TailFacts(rooms);
      DisconnectKeepsUnique(rest, sock, groups);
      var cr := DisconnectRooms(rest, sock, groups).rooms;
      match AfterLeaving(room, sock)
      case None =>
      case Some(x) =>
        ConsUnique(x, cr);
    }
  }

  /** Facts about the tail of a store with unique ids and keys. */
  lemma TailFacts(rooms: RoomStore)
    requires rooms != [] && IdsUnique(rooms) && KeysUnique(rooms)
    ensures IdsUnique(rooms[1..]) && KeysUnique(rooms[1..])
    ensures rooms[0].id !in IdSet(rooms[1..]) && rooms[0].roomKey !in KeySet(rooms[1..])
    ensures KeySet(rooms) == {rooms[0].roomKey} + KeySet(rooms[1..])
  {
    var rest := rooms[1..];
    forall i, j | 0 <= i < j < |rest|
      ensures rest[i].id != rest[j].id && rest[i].roomKey != rest[j].roomKey
    {
      assert rest[i] == rooms[i + 1] && rest[j] == rooms[j + 1];
    }
    forall r | r in rest ensures r.id != rooms[0].id && r.roomKey != rooms[0].roomKey {
      var j :| 0 <= j < |rest| && rest[j] == r;
      assert rooms[j + 1] == r;
    }
    assert rooms == [rooms[0]] + rest;
    assert forall r :: r in rooms <==> r == rooms[0] || r in rest;
  }

  lemma ConsUnique(x: Room, cr: RoomStore)
    requires IdsUnique(cr) && KeysUnique(cr)
    requires x.id !in IdSet(cr) && x.roomKey !in KeySet(cr)
    ensures IdsUnique([x] + cr) && KeysUnique([x] + cr)
    ensures KeySet([x] + cr) == {x.roomKey} + KeySet(cr)
  {
    var c := [x] + cr;
    forall i, j | 0 <= i < j < |c|
      ensures c[i].id != c[j].id && c[i].roomKey != c[j].roomKey
    {
      assert c[j] == cr[j - 1] && cr[j - 1] in cr;
      if i > 0 {
        assert c[i] == cr[i - 1];
      }
    }
    assert forall r :: r in c <==> r == x || r in cr;
  }

  lemma LookupCons(room: Room, rest: RoomStore, id: RoomId)
    ensures Lookup([room] + rest, id) == if room.id == id then Some(room) else Lookup(rest, id)
  {
    assert ([room] + rest)[1..] == rest;
  }

  /** Room by room, the disconnect loop does what `AfterLeaving` says, and
      each room that survives with `sock` removed is announced to its group. */
  lemma {:induction false} DisconnectPerRoom(rooms: RoomStore, sock: SocketId, groups: map<RoomId, set<SocketId>>, id: RoomId)
    requires IdsUnique(rooms)
    ensures var c := DisconnectRooms(rooms, sock, groups);
      match Lookup(rooms, id)
      case None => Lookup(c.rooms, id).None?
      case Some(room) =>
        && Lookup(c.rooms, id) == AfterLeaving(room, sock)
        && (HasParticipant(room, sock) && AfterLeaving(room, sock).Some? ==>
              Notice(groups, AfterLeaving(room, sock).value) in c.emits)
  {
    if rooms != [] {
      var room := rooms[0];
      var rest := rooms[1..];
      assert rooms == [room] + rest;
      assert IdsUnique(rest) by {
        forall i, j | 0 <= i < j < |rest| ensures rest[i].id != rest[j].id {
          assert rest[i] == rooms[i + 1] && rest[j] == rooms[j + 1];
        }
      }
      DisconnectPerRoom(rest, sock, groups, id);
      var cr := DisconnectRooms(rest, sock, groups);
      LookupCons(room, rest, id);
      if room.id == id {
        assert id !in IdSet(rest) by {
          forall r | r in rest ensures r.id != id {
            var j :| 0 <= j < |rest| && rest[j] == r;
            assert rooms[j + 1] == r;
          }
        }
        assert Lookup(cr.rooms, id).None?;
        match AfterLeaving(room, sock)
        case None =>
        case Some(room') =>
          LookupCons(room', cr.rooms, id);
      } else {
        match AfterLeaving(room, sock)
        case None =>
        case Some(room') =>
          LookupCons(room', cr.rooms, id);
      }
    }
  }

  /** `socket.to(roomId).emit(...)`: the room's group except the sender. */
  function Others(groups: map<RoomId, set<SocketId>>, roomId: RoomId, sock: SocketId): (to: set<SocketId>)
    ensures sock !in to
    ensures forall x :: x in to <==> x in GroupOf(groups, roomId) && x != sock
  {
    GroupOf(groups, roomId) - {sock}
  }

  /** The `swipe` handler: relays the decision to the other members and
      writes nothing. The payload fields are passed on unchecked. */
  function SwipeRelay(st: State, sock: SocketId, roomId: RoomId, restaurantId: Value, direction: Value): (o: Outcome)
    ensures o.state == st
    ensures |o.emits| == 1 && o.emits[0].to == Others(st.groups, roomId, sock)
    ensures o.emits[0].event == PartnerSwiped(restaurantId, direction)
  {
    Outcome(st, [Emit(Others(st.groups, roomId, sock), PartnerSwiped(restaurantId, direction))])
  }

  /** The `complete-swiping` handler: tells the other members, changes nothing. */
  function CompleteRelay(st: State, sock: SocketId, roomId: RoomId): (o: Outcome)
    ensures o.state == st
    ensures o.emits == [Emit(Others(st.groups, roomId, sock), PartnerCompleted)]
  {
    Outcome(st, [Emit(Others(st.groups, roomId, sock), PartnerCompleted)])
  }
}
