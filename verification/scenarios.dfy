/** Worked runs of a two-person session: joining, swiping, matching and
    leaving, step by step through the handlers. */
module Scenarios {
  import opened Js
  import opened Rooms
  import opened Swipes
  import opened MatchCalculator
  import opened SwipeRoutes
  import opened Server
  import opened Seqs
  import RoomRoutes
  import RoomKey

  const Session: Room := Room("S", "ABCD", Filters(5000.0, "restaurant", [1, 2, 3, 4]), [], Waiting, LatLng(1.0, 1.0), 0)

  function Post(sock: string, rid: string, dir: string): SwipeRequest {
    SwipeRequest(Some("S"), Some(sock), Some(rid), Some(dir), None)
  }

  /** A joins, then B: the room waits with one participant, then is active
      with two, and each join is announced to the whole group. */
  lemma JoinScenario()
    ensures var o1 := Join(State([Session], map[], []), "A", "S", 1);
      && o1.state.rooms[0].status == Waiting && |o1.state.rooms[0].participants| == 1
      && o1.emits == [Emit({"A"}, RoomUpdated(1, Waiting))]
      && var o2 := Join(o1.state, "B", "S", 2);
      && o2.state.rooms[0].status == Active && |o2.state.rooms[0].participants| == 2
      && o2.emits == [Emit({"A", "B"}, RoomUpdated(2, Active))]
  {
    var st0 := State([Session], map[], []);
    assert FindById(st0.rooms, "S") == Some(0);
    assert !HasParticipant(Session, "A");
    var o1 := Join(st0, "A", "S", 1);
    assert GroupOf(o1.state.groups, "S") == {"A"} by {
      assert GroupOf(st0.groups, "S") == {};
    }
    assert FindById(o1.state.rooms, "S") == Some(0);
    assert !HasParticipant(o1.state.rooms[0], "B") by {
      assert o1.state.rooms[0].participants == [Participant("A", 1)];
    }
    var o2 := Join(o1.state, "B", "S", 2);
    assert GroupOf(o2.state.groups, "S") == {"A", "B"};
  }

  const A1: Swipe := Swipe("S", "A", "c1", Right, EmptySnapshot, 1)
  const B1: Swipe := Swipe("S", "B", "c1", Right, EmptySnapshot, 2)
  const A2: Swipe := Swipe("S", "A", "c2", Left, EmptySnapshot, 3)
  const B2: Swipe := Swipe("S", "B", "c2", Right, EmptySnapshot, 4)

  /** The four posts of the match run, each accepted and appended. */
  lemma LedgerOfRun()
    ensures PostSwipe([], Post("A", "c1", "right"), 1) == Ok([A1])
    ensures PostSwipe([A1], Post("B", "c1", "right"), 2) == Ok([A1, B1])
    ensures PostSwipe([A1, B1], Post("A", "c2", "left"), 3) == Ok([A1, B1, A2])
    ensures PostSwipe([A1, B1, A2], Post("B", "c2", "right"), 4) == Ok([A1, B1, A2, B2])
  {
    assert !IsDuplicate([A1], Post("B", "c1", "right"));
    assert NewSwipe(Post("B", "c1", "right"), 2) == B1;
    assert [A1] + [B1] == [A1, B1];
    assert !IsDuplicate([A1, B1], Post("A", "c2", "left"));
    assert NewSwipe(Post("A", "c2", "left"), 3) == A2;
    assert [A1, B1] + [A2] == [A1, B1, A2];
    assert !IsDuplicate([A1, B1, A2], Post("B", "c2", "right"));
    assert NewSwipe(Post("B", "c2", "right"), 4) == B2;
    assert [A1, B1, A2] + [B2] == [A1, B1, A2, B2];
  }

  /** The right swipes of the run's two ledgers. */
  lemma RightSwipesOfRun()
    ensures RightSwipes([A1, B1], "S") == [A1, B1]
    ensures RightSwipes([A1, B1, A2, B2], "S") == [A1, B1, B2]
  {
    RightSwipeAppended([], A1);
    assert [] + [A1] == [A1];
    RightSwipeAppended([A1], B1);
    assert [A1] + [B1] == [A1, B1];
    IrrelevantSwipeNotRight([A1, B1], A2, "S");
    assert [A1, B1] + [A2] == [A1, B1, A2];
    RightSwipeAppended([A1, B1, A2], B2);
    assert [A1, B1, A2] + [B2] == [A1, B1, A2, B2];
  }

  /** The matches of a ledger whose right swipes are on c1 and c2, with A
      and B both on c1 and at most one socket on c2: exactly one, on c1. */
  lemma MatchesOf(ledger: seq<Swipe>, roomId: RoomId, rs: seq<Swipe>)
    requires RightSwipes(ledger, roomId) == rs
    requires forall s :: s in rs ==> s.restaurantId == "c1" || s.restaurantId == "c2"
    requires Swipers(rs, "c1") == {"A", "B"} && |Swipers(rs, "c2")| <= 1
    ensures GroupKeys(MatchedGroups(ledger, roomId)) == {"c1"}
    ensures |CalculateMatches(ledger, roomId)| == 1
  {
    var ms := MatchedGroups(ledger, roomId);
    MatchIff(ledger, roomId, "c1");
    MatchIff(ledger, roomId, "c2");
    forall k | k in GroupKeys(ms) ensures k == "c1" {
      MatchIff(ledger, roomId, k);
      var s :| s in rs && s.restaurantId == k;
    }
    OneMatchPerRestaurant(ledger, roomId);
    DistinctKeyCount(ms);
  }

  /** Both right on c1 gives one match; A left and B right on c2 adds none. */
  lemma MatchScenario()
    ensures GroupKeys(MatchedGroups([A1, B1], "S")) == {"c1"}
    ensures |CalculateMatches([A1, B1], "S")| == 1
    ensures GroupKeys(MatchedGroups([A1, B1, A2, B2], "S")) == {"c1"}
    ensures |CalculateMatches([A1, B1, A2, B2], "S")| == 1
  {
    RightSwipesOfRun();
    assert Swipers([A1, B1], "c1") == {"A", "B"};
    assert Swipers([A1, B1], "c2") == {};
    MatchesOf([A1, B1], "S", [A1, B1]);
    assert Swipers([A1, B1, B2], "c1") == {"A", "B"};
    assert Swipers([A1, B1, B2], "c2") == {"B"};
    MatchesOf([A1, B1, A2, B2], "S", [A1, B1, B2]);
  }

  const PA: Participant := Participant("A", 1)
  const PB: Participant := Participant("B", 2)
  const Full: Room := Session.(participants := [PA, PB], status := Active)
  const HalfFull: Room := Session.(participants := [PB], status := Waiting)

  /** A leaves while B stays: the room waits with one participant and B is
      told. */
  lemma FirstLeave()
    ensures var o := Disconnect(State([Full], map["S" := {"A", "B"}], []), "A");
      && o.state.rooms == [HalfFull]
      && GroupOf(o.state.groups, "S") == {"B"}
      && o.emits == [Emit({"B"}, RoomUpdated(1, Waiting))]
  {
    var g1 := LeaveAll(map["S" := {"A", "B"}], "A");
    assert HasParticipant(Full, "A");
    assert [PA, PB][1..] == [PB];
    assert Filter([PA, PB], IsOther("A")) == [PB];
    assert AfterLeaving(Full, "A") == Some(HalfFull);
    assert DisconnectRooms([Full], "A", g1) == Cleanup([HalfFull], [Notice(g1, HalfFull)]) by {
      assert [Full][1..] == [];
      assert [HalfFull] + [] == [HalfFull];
    }
    assert GroupOf(g1, "S") == {"B"};
  }

  /** B, the last member, leaves: the room is deleted and nobody is told. */
  lemma LastLeave(groups: map<RoomId, set<SocketId>>)
    ensures var o := Disconnect(State([HalfFull], groups, []), "B");
      o.state.rooms == [] && o.emits == []
  {
    var g2 := LeaveAll(groups, "B");
    assert HasParticipant(HalfFull, "B");
    assert ParticipantIds(HalfFull) == {"B"};
    assert AfterLeaving(HalfFull, "B") == None;
    assert DisconnectRooms([HalfFull], "B", g2) == Cleanup([], []) by {
      assert [HalfFull][1..] == [];
    }
  }

  /** A leaves while B stays: the room waits with one participant and B is
      told; B leaves: the room is gone and its key no longer admits anyone. */
  lemma LeaveScenario()
    ensures var o1 := Disconnect(State([Full], map["S" := {"A", "B"}], []), "A");
      && o1.state.rooms == [Session.(participants := [PB], status := Waiting)]
      && o1.emits == [Emit({"B"}, RoomUpdated(1, Waiting))]
      && var o2 := Disconnect(o1.state, "B");
      && o2.state.rooms == []
      && RoomRoutes.JoinCheck(o2.state.rooms, Str("ABCD")) == Err(RoomRoutes.RoomNotFound)
  {
    FirstLeave();
    var o1 := Disconnect(State([Full], map["S" := {"A", "B"}], []), "A");
    LastLeave(o1.state.groups);
    assert RoomKey.IsAscii("ABCD");
    RoomKey.AsciiKeyValidity("ABCD");
  }

  /** Posting the same swipe twice: the second is refused and the ledger
      keeps one record for the key. */
  lemma DuplicateScenario()
    ensures var l1 := PostSwipe([], Post("A", "c1", "right"), 1).value;
      && PostSwipe(l1, Post("A", "c1", "right"), 2) == Err(DuplicateSwipe)
      && PostSwipe(l1, Post("A", "c1", "left"), 2) == Err(DuplicateSwipe)
      && |l1| == 1
  {
    var l1 := PostSwipe([], Post("A", "c1", "right"), 1).value;
    assert l1[0] in l1;
  }
}
