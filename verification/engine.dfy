/** The whole backend as one state machine: room creation, the socket
    handlers and swipe posts, each applied as one atomic step, and the
    invariants every reachable state keeps. */
module Engine {
  import opened Js
  import opened Rooms
  import opened RoomKey
  import opened RoomRoutes
  import opened Swipes
  import SwipeRoutes
  import opened Server

  /** One request or socket event. `draws` are the letter indices the key
      generator would use on each attempt; `newId` is the id the database
      assigns; `now` is the clock reading. */
  datatype Step =
    | CreateStep(req: CreateRequest, draws: seq<seq<AlphabetIndex>>, newId: RoomId, now: int)
    | JoinStep(sock: SocketId, roomId: RoomId, now: int)
    | DisconnectStep(sock: SocketId)
    | SwipeStep(sock: SocketId, roomId: RoomId, restaurantId: Value, direction: Value)
    | CompleteStep(sock: SocketId, roomId: RoomId)
    | PostSwipeStep(swipeReq: SwipeRoutes.SwipeRequest, now: int)

  const Initial := State([], map[], [])

  /** The keys the generator yields for the given draws. */
  function Candidates(draws: seq<seq<AlphabetIndex>>): (keys: seq<string>)
    requires forall i :: 0 <= i < |draws| ==> |draws[i]| == KeyLength
    ensures |keys| == |draws|
    ensures forall i :: 0 <= i < |keys| ==> IsKeyShape(keys[i])
  {
    seq(|draws|, i requires 0 <= i < |draws| => GenerateRoomKey(draws[i]))
  }

  /** What the environment guarantees for a step: a fresh database id and
      enough generated keys for every attempt. */
  predicate Enabled(st: State, step: Step) {
    step.CreateStep? ==>
      && step.newId !in IdSet(st.rooms)
      && |step.draws| >= MaxKeyAttempts
      && (forall i :: 0 <= i < |step.draws| ==> |step.draws[i]| == KeyLength)
  }

  /** Apply one step. HTTP steps emit nothing on the sockets. */
  function Apply(st: State, step: Step): (o: Outcome)
    requires Enabled(st, step)
    ensures step.SwipeStep? || step.CompleteStep? ==> o.state == st
    ensures !step.PostSwipeStep? ==> o.state.ledger == st.ledger
    ensures step.PostSwipeStep? || step.CreateStep? ==> o.emits == []
    ensures step.PostSwipeStep? ==> o.state.rooms == st.rooms && o.state.groups == st.groups
  {
    match step
    case CreateStep(req, draws, newId, now) =>
      (match CreateRoom(st.rooms, req, Candidates(draws), newId, now)
       case Ok((rooms, _)) => Outcome(st.(rooms := rooms), [])
       case Err(_) => Outcome(st, []))
    case JoinStep(sock, roomId, now) => Join(st, sock, roomId, now)
    case DisconnectStep(sock) => Disconnect(st, sock)
    case SwipeStep(sock, roomId, rid, dir) => SwipeRelay(st, sock, roomId, rid, dir)
    case CompleteStep(sock, roomId) => CompleteRelay(st, sock, roomId)
    case PostSwipeStep(req, now) =>
      match SwipeRoutes.PostSwipe(st.ledger, req, now)
      case Ok(ledger) => Outcome(st.(ledger := ledger), [])
      case Err(_) => Outcome(st, [])
  }

  /** Every live room's broadcast group is exactly its participants, and
      the group of an id with no room is empty. */
  predicate GroupsMatch(st: State) {
    && (forall r :: r in st.rooms ==> GroupOf(st.groups, r.id) == ParticipantIds(r))
    && (forall n :: n in st.groups && n !in IdSet(st.rooms) ==> st.groups[n] == {})
  }

  /** The invariant of every reachable state. */
  predicate Inv(st: State) {
    && IdsUnique(st.rooms)
    && KeysUnique(st.rooms)
    && (forall r :: r in st.rooms ==> WellFormedRoom(r) && IsKeyShape(r.roomKey))
    && GroupsMatch(st)
    && KeysDistinct(st.ledger)
  }

  lemma InitialInv()
    ensures Inv(Initial)
  {
  }

  lemma CreateKeepsInv(st: State, step: Step)
    requires Inv(st) && step.CreateStep? && Enabled(st, step)
    ensures Inv(Apply(st, step).state)
  {
    var keys := Candidates(step.draws);
    var r := CreateRoom(st.rooms, step.req, keys, step.newId, step.now);
    if r.Ok? {
      CreatePreservesStore(st.rooms, step.req, keys, step.newId, step.now);
      var rooms := r.value.0;
      var n := |st.rooms|;
      assert rooms == st.rooms + [rooms[n]];
      assert forall x :: x in rooms <==> x in st.rooms || x == rooms[n];
      var k := rooms[n].roomKey;
      assert IsKeyShape(k) by {
        var i :| 0 <= i < MaxKeyAttempts && keys[..MaxKeyAttempts][i] == k;
        assert keys[i] == k;
      }
      assert GroupOf(st.groups, step.newId) == {};
      assert IdSet(rooms) == IdSet(st.rooms) + {step.newId};
    }
  }

  lemma JoinKeepsInv(st: State, step: Step)
    requires Inv(st) && step.JoinStep?
    ensures Inv(Apply(st, step).state)
  {
    var sock, roomId := step.sock, step.roomId;
    var o := Join(st, sock, roomId, step.now);
    if roomId in IdSet(st.rooms) {
      var i := FindById(st.rooms, roomId).value;
      var room := st.rooms[i];
      assert room in st.rooms;
      if HasParticipant(room, sock) {
        assert sock in ParticipantIds(room);
        forall n ensures GroupOf(o.state.groups, n) == GroupOf(st.groups, n) {}
      } else if |room.participants| < 2 {
        NewJoinKeepsInv(st, sock, roomId, step.now, i);
      }
    }
  }

  lemma NewJoinKeepsInv(st: State, sock: SocketId, roomId: RoomId, now: int, i: nat)
    requires Inv(st)
    requires roomId in IdSet(st.rooms) && i == FindById(st.rooms, roomId).value
    requires !HasParticipant(st.rooms[i], sock) && |st.rooms[i].participants| < 2
    ensures Inv(Join(st, sock, roomId, now).state)
  {
    var o := Join(st, sock, roomId, now);
    var room := st.rooms[i];
    var room' := o.state.rooms[i];
    assert room in st.rooms;
    assert o.state.rooms == st.rooms[i := room'];
    assert WellFormedRoom(room');
    assert ParticipantIds(room') == ParticipantIds(room) + {sock} by {
      assert forall p :: p in room'.participants <==> p in room.participants || p == Participant(sock, now);
    }
    ReplaceRoomKeepsInv(st, i, room', o.state.groups);
  }

  /** Rewriting one room's participants and status, together with its
      group, keeps the invariant when the new room is well formed and its
      group is its participants. */
  lemma ReplaceRoomKeepsInv(st: State, i: nat, room': Room, groups: map<RoomId, set<SocketId>>)
    requires Inv(st) && i < |st.rooms|
    requires room'.id == st.rooms[i].id && room'.roomKey == st.rooms[i].roomKey
    requires WellFormedRoom(room')
    requires GroupOf(groups, room'.id) == ParticipantIds(room')
    requires forall n :: n != room'.id ==> GroupOf(groups, n) == GroupOf(st.groups, n)
    ensures Inv(State(st.rooms[i := room'], groups, st.ledger))
  {
    var rooms := st.rooms[i := room'];
    ReplaceRoom(st.rooms, i, room');
    forall n | n in groups && n !in IdSet(rooms)
      ensures groups[n] == {}
    {
      assert GroupOf(groups, n) == GroupOf(st.groups, n);
    }
  }

  /** Replacing a room by one with the same id and key keeps ids and keys
      unique; every other room stays as it was. */
  lemma ReplaceRoom(rooms: RoomStore, i: nat, room': Room)
    requires IdsUnique(rooms) && KeysUnique(rooms) && i < |rooms|
    requires room'.id == rooms[i].id && room'.roomKey == rooms[i].roomKey
    ensures IdsUnique(rooms[i := room']) && KeysUnique(rooms[i := room'])
    ensures IdSet(rooms[i := room']) == IdSet(rooms)
    ensures room' in rooms[i := room']
    ensures forall x :: x in rooms[i := room'] ==> x == room' || (x in rooms && x.id != room'.id)
  {
    var rooms' := rooms[i := room'];
    forall x | x in rooms'
      ensures x == room' || (x in rooms && x.id != room'.id)
    {
      var j :| 0 <= j < |rooms'| && rooms'[j] == x;
      if j != i {
        assert rooms[j] == x;
      }
    }
    forall x | x in rooms ensures x.id in IdSet(rooms') {
      var j :| 0 <= j < |rooms| && rooms[j] == x;
      assert rooms'[j] in rooms';
    }
  }

  lemma DisconnectKeepsInv(st: State, sock: SocketId)
    requires Inv(st)
    ensures Inv(Disconnect(st, sock).state)
  {
    var groups := LeaveAll(st.groups, sock);
    var c := DisconnectRooms(st.rooms, sock, groups);
    DisconnectKeepsUnique(st.rooms, sock, groups);
    forall x | x in c.rooms
      ensures WellFormedRoom(x) && IsKeyShape(x.roomKey)
      ensures GroupOf(groups, x.id) == ParticipantIds(x)
    {
      var room := Survivor(st.rooms, sock, groups, x);
      AfterLeavingWellFormed(room, sock);
      assert ParticipantIds(x) == ParticipantIds(room) - {sock};
    }
    forall n | n in groups && n !in IdSet(c.rooms)
      ensures groups[n] == {}
    {
      DisconnectPerRoom(st.rooms, sock, groups, n);
      if n in IdSet(st.rooms) {
        var room := Lookup(st.rooms, n).value;
        assert ParticipantIds(room) <= {sock};
      }
    }
  }

  /** The room a surviving room came from. */
  lemma Survivor(rooms: RoomStore, sock: SocketId, groups: map<RoomId, set<SocketId>>, x: Room)
    returns (room: Room)
    requires IdsUnique(rooms) && KeysUnique(rooms)
    requires x in DisconnectRooms(rooms, sock, groups).rooms
    ensures room in rooms && AfterLeaving(room, sock) == Some(x)
  {
    var c := DisconnectRooms(rooms, sock, groups);
    DisconnectKeepsUnique(rooms, sock, groups);
    DisconnectPerRoom(rooms, sock, groups, x.id);
    LookupUnique(c.rooms, x);
    room := Lookup(rooms, x.id).value;
  }

  lemma LookupUnique(rooms: RoomStore, x: Room)
    requires IdsUnique(rooms) && x in rooms
    ensures Lookup(rooms, x.id) == Some(x)
  {
    var j :| 0 <= j < |rooms| && rooms[j] == x;
    var i := FindById(rooms, x.id).value;
    assert i == j;
  }

  lemma PostSwipeKeepsInv(st: State, step: Step)
    requires Inv(st) && step.PostSwipeStep?
    ensures Inv(Apply(st, step).state)
  {
    if SwipeRoutes.PostSwipe(st.ledger, step.swipeReq, step.now).Ok? {
      SwipeRoutes.PostKeepsKeysDistinct(st.ledger, step.swipeReq, step.now);
    }
  }

  /** Every step keeps the invariant. */
  lemma StepKeepsInv(st: State, step: Step)
    requires Inv(st) && Enabled(st, step)
    ensures Inv(Apply(st, step).state)
  {
    match step
    case CreateStep(_, _, _, _) => CreateKeepsInv(st, step);
    case JoinStep(_, _, _) => JoinKeepsInv(st, step);
    case DisconnectStep(sock) => DisconnectKeepsInv(st, sock);
    case SwipeStep(_, _, _, _) =>
    case CompleteStep(_, _) =>
    case PostSwipeStep(_, _) => PostSwipeKeepsInv(st, step);
  }

  /** A run: the steps applied in order, each one enabled when it comes. */
  predicate ValidRun(st: State, steps: seq<Step>)
    decreases |steps|
  {
    steps == [] || (Enabled(st, steps[0]) && ValidRun(Apply(st, steps[0]).state, steps[1..]))
  }

  function Run(st: State, steps: seq<Step>): State
    requires ValidRun(st, steps)
    decreases |steps|
  {
    if steps == [] then st else Run(Apply(st, steps[0]).state, steps[1..])
  }

  lemma {:induction false} RunKeepsInv(st: State, steps: seq<Step>)
    requires Inv(st) && ValidRun(st, steps)
    ensures Inv(Run(st, steps))
    decreases |steps|
  {
    if steps != [] {
      StepKeepsInv(st, steps[0]);
      RunKeepsInv(Apply(st, steps[0]).state, steps[1..]);
    }
  }

  /** In every reachable state each room has at most two participants, is
      active exactly when it has two, and is never completed; and no swipe
      key is recorded twice. */
  lemma ReachableRoomsWellFormed(steps: seq<Step>)
    requires ValidRun(Initial, steps)
    ensures var st := Run(Initial, steps);
      && (forall r :: r in st.rooms ==>
            && |r.participants| <= 2
            && (r.status == Active <==> |r.participants| == 2)
            && r.status != Completed)
      && KeysDistinct(st.ledger)
  {
    InitialInv();
    RunKeepsInv(Initial, steps);
  }
}
