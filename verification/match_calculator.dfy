/** Match computation and swipe statistics (backend/utils/matchCalculator.js),
    as pure functions of the swipe ledger. */
module MatchCalculator {
  import opened Js
  import opened Seqs
  import opened Rooms
  import opened Swipes

  /** One entry of the `swipesByRestaurant` table. */
  datatype Group = Group(restaurantId: string, data: Snapshot, socketIds: set<SocketId>)

  /** One element of the result: `{ restaurantId, ...restaurantData }`. */
  datatype Match = Match(restaurantId: Option<string>, data: Snapshot)

  /** The query condition `{ roomId, direction: 'right' }`. */
  function IsRightIn(roomId: RoomId): Swipe -> bool {
    (s: Swipe) => s.roomId == roomId && s.direction == Right
  }

  /** The query `{ roomId }`. */
  function IsIn(roomId: RoomId): Swipe -> bool {
    (s: Swipe) => s.roomId == roomId
  }

  /** The room's right swipes, in ledger order. */
  function RightSwipes(ledger: seq<Swipe>, roomId: RoomId): seq<Swipe> {
    Filter(ledger, IsRightIn(roomId))
  }

  /** All of the room's swipes, in ledger order. */
  function RoomSwipes(ledger: seq<Swipe>, roomId: RoomId): seq<Swipe> {
    Filter(ledger, IsIn(roomId))
  }

  predicate Occurs(swipes: seq<Swipe>, rid: string) {
    exists s :: s in swipes && s.restaurantId == rid
  }

  /** The distinct sockets that swiped on `rid`. */
  function Swipers(swipes: seq<Swipe>, rid: string): set<SocketId> {
    set s | s in swipes && s.restaurantId == rid :: s.socketId
  }

  /** The position of the first swipe on `rid`. */
  function FirstIndex(swipes: seq<Swipe>, rid: string): (i: nat)
    requires Occurs(swipes, rid)
    ensures i < |swipes| && swipes[i].restaurantId == rid
    ensures forall j :: 0 <= j < i ==> swipes[j].restaurantId != rid
  {
    if swipes[0].restaurantId == rid then 0
    else
      assert Occurs(swipes[1..], rid) by {
        var s :| s in swipes && s.restaurantId == rid;
        var k :| 0 <= k < |swipes| && swipes[k] == s;
        assert swipes[1..][k - 1] == s;
      }
      1 + FirstIndex(swipes[1..], rid)
  }

  lemma FirstIndexAppend(pre: seq<Swipe>, s: Swipe, rid: string)
    requires Occurs(pre, rid)
    ensures Occurs(pre + [s], rid) && FirstIndex(pre + [s], rid) == FirstIndex(pre, rid)
  {
    var i := FirstIndex(pre, rid);
    assert (pre + [s])[i] == pre[i];
    assert forall j :: 0 <= j <= i ==> (pre + [s])[j] == pre[j];
  }

  lemma FirstIndexNew(pre: seq<Swipe>, s: Swipe)
    requires !Occurs(pre, s.restaurantId)
    ensures Occurs(pre + [s], s.restaurantId) && FirstIndex(pre + [s], s.restaurantId) == |pre|
  {
    var w := pre + [s];
    assert w[|pre|] == s;
    forall j | 0 <= j < |pre|
      ensures w[j].restaurantId != s.restaurantId
    {
      assert w[j] == pre[j] && pre[j] in pre;
    }
  }

  function GroupKeys(groups: seq<Group>): set<string> {
    set g | g in groups :: g.restaurantId
  }

  /** The lookup `swipesByRestaurant[rid]`: the position of the group for `rid`. */
  function GroupIndex(groups: seq<Group>, rid: string): (r: Option<nat>)
    ensures r.Some? ==> r.value < |groups| && groups[r.value].restaurantId == rid
    ensures r.None? <==> rid !in GroupKeys(groups)
  {
    if groups == [] then None
    else if groups[0].restaurantId == rid then Some(0)
    else match GroupIndex(groups[1..], rid)
      case None => None
      case Some(k) => Some(k + 1)
  }

  /** One `forEach` step: add the socket to the restaurant's group, creating
      the group with this swipe's snapshot if it is the first one. */
  function AddToGroups(groups: seq<Group>, s: Swipe): seq<Group> {
    match GroupIndex(groups, s.restaurantId)
    case Some(k) => groups[k := groups[k].(socketIds := groups[k].socketIds + {s.socketId})]
    case None => groups + [Group(s.restaurantId, s.restaurantData, {s.socketId})]
  }

  predicate DistinctGroups(groups: seq<Group>) {
    forall k, l :: 0 <= k < l < |groups| ==> groups[k].restaurantId != groups[l].restaurantId
  }

  ghost predicate GroupContents(groups: seq<Group>, swipes: seq<Swipe>) {
    forall k :: 0 <= k < |groups| ==>
      && Occurs(swipes, groups[k].restaurantId)
      && groups[k].socketIds == Swipers(swipes, groups[k].restaurantId)
      && groups[k].data == swipes[FirstIndex(swipes, groups[k].restaurantId)].restaurantData
  }

  ghost predicate GroupOrder(groups: seq<Group>, swipes: seq<Swipe>)
    requires GroupContents(groups, swipes)
  {
    forall k, l :: 0 <= k < l < |groups| ==>
      FirstIndex(swipes, groups[k].restaurantId) < FirstIndex(swipes, groups[l].restaurantId)
  }

  /** What a grouping table must be for the swipes it was built from: one
      group per restaurant that occurs, in order of first appearance, holding
      the distinct sockets and the snapshot of the first swipe. */
  ghost predicate GroupsOf(groups: seq<Group>, swipes: seq<Swipe>) {
    && GroupKeys(groups) == (set s | s in swipes :: s.restaurantId)
    && DistinctGroups(groups)
    && GroupContents(groups, swipes)
    && GroupOrder(groups, swipes)
  }

  /** The grouping loop over the swipes, in order. */
  function GroupSwipes(swipes: seq<Swipe>): (groups: seq<Group>)
    ensures GroupsOf(groups, swipes)
  {
    if swipes == [] then []
    else
      var pre := swipes[..|swipes| - 1];
      var s := swipes[|swipes| - 1];
      assert swipes == pre + [s];
      var groups := GroupSwipes(pre);
      match GroupIndex(groups, s.restaurantId)
      case Some(k) => AddExisting(groups, pre, s, k); AddToGroups(groups, s)
      case None => AddNew(groups, pre, s); AddToGroups(groups, s)
  }

  lemma AppendFacts(pre: seq<Swipe>, s: Swipe)
    ensures forall rid :: Occurs(pre, rid) ==> Occurs(pre + [s], rid) && FirstIndex(pre + [s], rid) == FirstIndex(pre, rid)
    ensures forall rid :: Swipers(pre + [s], rid) == Swipers(pre, rid) + (if s.restaurantId == rid then {s.socketId} else {})
    ensures (set x | x in pre + [s] :: x.restaurantId) == (set x | x in pre :: x.restaurantId) + {s.restaurantId}
  {
    var w := pre + [s];
    assert forall x :: x in w <==> x in pre || x == s;
    forall rid | Occurs(pre, rid)
      ensures Occurs(w, rid) && FirstIndex(w, rid) == FirstIndex(pre, rid)
    {
      FirstIndexAppend(pre, s, rid);
    }
  }

  lemma AddExisting(groups: seq<Group>, pre: seq<Swipe>, s: Swipe, k: nat)
    requires GroupsOf(groups, pre)
    requires k < |groups| && groups[k].restaurantId == s.restaurantId
    ensures GroupIndex(groups, s.restaurantId) == Some(k)
    ensures GroupsOf(groups[k := groups[k].(socketIds := groups[k].socketIds + {s.socketId})], pre + [s])
  {
    var w := pre + [s];
    var g' := groups[k := groups[k].(socketIds := groups[k].socketIds + {s.socketId})];
    AppendFacts(pre, s);
    var gi := GroupIndex(groups, s.restaurantId);
    assert s.restaurantId in GroupKeys(groups) by { assert groups[k] in groups; }
    assert gi == Some(k);
    SameKeysSameGroupKeys(groups, g');
    assert GroupContents(g', w) by {
      forall m | 0 <= m < |g'|
        ensures Occurs(w, g'[m].restaurantId)
        ensures g'[m].socketIds == Swipers(w, g'[m].restaurantId)
        ensures g'[m].data == w[FirstIndex(w, g'[m].restaurantId)].restaurantData
      {
        var rid := groups[m].restaurantId;
        assert Occurs(pre, rid);
        var i := FirstIndex(pre, rid);
        assert w[i] == pre[i];
      }
    }
    assert GroupOrder(g', w) by {
      forall m, l | 0 <= m < l < |g'|
        ensures FirstIndex(w, g'[m].restaurantId) < FirstIndex(w, g'[l].restaurantId)
      {
        assert Occurs(pre, groups[m].restaurantId) && Occurs(pre, groups[l].restaurantId);
      }
    }
  }

  lemma SameKeysSameGroupKeys(groups: seq<Group>, g': seq<Group>)
    requires |g'| == |groups|
    requires forall m :: 0 <= m < |g'| ==> g'[m].restaurantId == groups[m].restaurantId
    ensures GroupKeys(g') == GroupKeys(groups)
    ensures DistinctGroups(groups) ==> DistinctGroups(g')
  {
    forall x | x in GroupKeys(groups) ensures x in GroupKeys(g') {
      var g :| g in groups && g.restaurantId == x;
      var m :| 0 <= m < |groups| && groups[m] == g;
      assert g'[m] in g';
    }
    forall x | x in GroupKeys(g') ensures x in GroupKeys(groups) {
      var g :| g in g' && g.restaurantId == x;
      var m :| 0 <= m < |g'| && g'[m] == g;
      assert groups[m] in groups;
    }
  }

  lemma AddNew(groups: seq<Group>, pre: seq<Swipe>, s: Swipe)
    requires GroupsOf(groups, pre)
    requires GroupIndex(groups, s.restaurantId).None?
    ensures GroupsOf(groups + [Group(s.restaurantId, s.restaurantData, {s.socketId})], pre + [s])
  {
    var ng := Group(s.restaurantId, s.restaurantData, {s.socketId});
    var g' := groups + [ng];
    AppendFacts(pre, s);
    assert !Occurs(pre, s.restaurantId) by {
      forall x | x in pre
        ensures x.restaurantId != s.restaurantId
      {
        assert x.restaurantId in (set y | y in pre :: y.restaurantId);
      }
    }
    FirstIndexNew(pre, s);
    assert forall m :: 0 <= m < |groups| ==> groups[m] in groups && groups[m].restaurantId != s.restaurantId;
    assert GroupKeys(g') == GroupKeys(groups) + {s.restaurantId} by {
      assert forall g :: g in g' <==> g in groups || g == ng;
    }
    AddNewContents(groups, pre, s);
    AddNewOrder(groups, pre, s);
  }

  lemma AddNewContents(groups: seq<Group>, pre: seq<Swipe>, s: Swipe)
    requires GroupContents(groups, pre)
    requires !Occurs(pre, s.restaurantId)
    ensures GroupContents(groups + [Group(s.restaurantId, s.restaurantData, {s.socketId})], pre + [s])
  {
    var w := pre + [s];
    var g' := groups + [Group(s.restaurantId, s.restaurantData, {s.socketId})];
    FirstIndexNew(pre, s);
    forall m | 0 <= m < |g'|
      ensures Occurs(w, g'[m].restaurantId)
      ensures g'[m].socketIds == Swipers(w, g'[m].restaurantId)
      ensures g'[m].data == w[FirstIndex(w, g'[m].restaurantId)].restaurantData
    {
      var rid := g'[m].restaurantId;
      if m < |groups| {
        assert g'[m] == groups[m];
        assert Occurs(pre, rid);
        FirstIndexAppend(pre, s, rid);
        var i := FirstIndex(pre, rid);
        assert w[i] == pre[i];
        assert rid != s.restaurantId;
        assert Swipers(w, rid) == Swipers(pre, rid) by {
          assert forall x :: x in w <==> x in pre || x == s;
        }
      } else {
        assert Swipers(w, rid) == {s.socketId} by {
          assert forall x :: x in w <==> x in pre || x == s;
        }
      }
    }
  }

  lemma AddNewOrder(groups: seq<Group>, pre: seq<Swipe>, s: Swipe)
    requires GroupContents(groups, pre) && GroupOrder(groups, pre)
    requires !Occurs(pre, s.restaurantId)
    requires GroupContents(groups + [Group(s.restaurantId, s.restaurantData, {s.socketId})], pre + [s])
    ensures GroupOrder(groups + [Group(s.restaurantId, s.restaurantData, {s.socketId})], pre + [s])
  {
    var w := pre + [s];
    var g' := groups + [Group(s.restaurantId, s.restaurantData, {s.socketId})];
    FirstIndexNew(pre, s);
    forall m, l | 0 <= m < l < |g'|
      ensures FirstIndex(w, g'[m].restaurantId) < FirstIndex(w, g'[l].restaurantId)
    {
      assert g'[m] == groups[m];
      FirstIndexAppend(pre, s, groups[m].restaurantId);
      if l < |groups| {
        assert g'[l] == groups[l];
        FirstIndexAppend(pre, s, groups[l].restaurantId);
      }
    }
  }

  /** The groups kept as matches: at least two distinct sockets swiped right. */
  function MatchedGroups(ledger: seq<Swipe>, roomId: RoomId): seq<Group> {
    Filter(GroupSwipes(RightSwipes(ledger, roomId)), IsShared())
  }

  /** The match condition `item.socketIds.size >= 2`. */
  function IsShared(): Group -> bool {
    (g: Group) => |g.socketIds| >= 2
  }

  /** The match's `restaurantId`: `d.restaurantId || d.id` is written first,
      then the spread copies a present `restaurantId` key over it, whatever
      its value. So the swipe's own `restaurantId` is never used. */
  function MatchIdOf(d: Snapshot): (r: Option<string>)
    ensures d.restaurantId.Some? ==> r == d.restaurantId
    ensures d.restaurantId.None? ==> r == d.id
  {
    var computed := if TruthyStr(d.restaurantId) then d.restaurantId else d.id;
    if d.restaurantId.Some? then d.restaurantId else computed
  }

  /** The restaurants that some right swipes of `rs` name and that at least
      two distinct sockets swiped right on: the reference definition of what
      is matched. */
  function SharedRestaurants(rs: seq<Swipe>): set<string> {
    set s | s in rs && |Swipers(rs, s.restaurantId)| >= 2 :: s.restaurantId
  }

  /** `calculateMatches(roomId)`: one match per restaurant that at least two
      distinct sockets swiped right on in the room, none twice, each carrying
      the snapshot of the first right swipe on it. */
  function CalculateMatches(ledger: seq<Swipe>, roomId: RoomId): (ms: seq<Match>)
    ensures var rs := RightSwipes(ledger, roomId); var gs := MatchedGroups(ledger, roomId);
      && |ms| == |gs| == |SharedRestaurants(rs)|
      && GroupKeys(gs) == SharedRestaurants(rs)
      && DistinctGroups(gs)
      && forall k :: 0 <= k < |ms| ==>
           && Occurs(rs, gs[k].restaurantId)
           && |Swipers(rs, gs[k].restaurantId)| >= 2
           && ms[k].data == rs[FirstIndex(rs, gs[k].restaurantId)].restaurantData
           && ms[k].restaurantId == MatchIdOf(ms[k].data)
  {
    var gs := MatchedGroups(ledger, roomId);
    MatchedGroupsFacts(ledger, roomId);
    seq(|gs|, k requires 0 <= k < |gs| => Match(MatchIdOf(gs[k].data), gs[k].data))
  }

  /** The matched groups are the shared restaurants, once each, with their
      swipers and the first right swipe's snapshot. */
  lemma MatchedGroupsFacts(ledger: seq<Swipe>, roomId: RoomId)
    ensures var rs := RightSwipes(ledger, roomId); var gs := MatchedGroups(ledger, roomId);
      && GroupKeys(gs) == SharedRestaurants(rs)
      && DistinctGroups(gs)
      && |gs| == |SharedRestaurants(rs)|
      && forall k :: 0 <= k < |gs| ==>
           && Occurs(rs, gs[k].restaurantId)
           && gs[k].socketIds == Swipers(rs, gs[k].restaurantId)
           && |gs[k].socketIds| >= 2
           && gs[k].data == rs[FirstIndex(rs, gs[k].restaurantId)].restaurantData
  {
    var rs := RightSwipes(ledger, roomId);
    var gs := MatchedGroups(ledger, roomId);
    MatchedKeysShared(ledger, roomId);
    OneMatchPerRestaurant(ledger, roomId);
    DistinctKeyCount(gs);
    MatchedGroupContents(ledger, roomId);
  }

  /** The keys of the matched groups are exactly the shared restaurants. */
  lemma MatchedKeysShared(ledger: seq<Swipe>, roomId: RoomId)
    ensures GroupKeys(MatchedGroups(ledger, roomId)) == SharedRestaurants(RightSwipes(ledger, roomId))
  {
    var rs := RightSwipes(ledger, roomId);
    var gs := MatchedGroups(ledger, roomId);
    forall rid | rid in GroupKeys(gs)
      ensures rid in SharedRestaurants(rs)
    {
      MatchIff(ledger, roomId, rid);
      var sock :| sock in Swipers(rs, rid);
      var s :| s in rs && s.restaurantId == rid && s.socketId == sock;
    }
    forall rid | rid in SharedRestaurants(rs)
      ensures rid in GroupKeys(gs)
    {
      MatchIff(ledger, roomId, rid);
    }
  }

  /** Each matched group holds its restaurant's right-swipers, at least two,
      and the first right swipe's snapshot. */
  lemma MatchedGroupContents(ledger: seq<Swipe>, roomId: RoomId)
    ensures var rs := RightSwipes(ledger, roomId); var gs := MatchedGroups(ledger, roomId);
      forall k :: 0 <= k < |gs| ==>
        && Occurs(rs, gs[k].restaurantId)
        && gs[k].socketIds == Swipers(rs, gs[k].restaurantId)
        && |gs[k].socketIds| >= 2
        && gs[k].data == rs[FirstIndex(rs, gs[k].restaurantId)].restaurantData
  {
    var rs := RightSwipes(ledger, roomId);
    var groups := GroupSwipes(rs);
    var ms := MatchedGroups(ledger, roomId);
    FilterContents(groups, IsShared());
    assert GroupContents(groups, rs);
    forall k | 0 <= k < |ms|
      ensures Occurs(rs, ms[k].restaurantId) && ms[k].socketIds == Swipers(rs, ms[k].restaurantId)
      ensures |ms[k].socketIds| >= 2
      ensures ms[k].data == rs[FirstIndex(rs, ms[k].restaurantId)].restaurantData
    {
      assert ms[k] in ms;
      var m := GroupAt(groups, ms[k]);
    }
  }

  /** Groups with distinct keys have as many keys as groups. */
  lemma {:induction false} DistinctKeyCount(gs: seq<Group>)
    requires DistinctGroups(gs)
    ensures |GroupKeys(gs)| == |gs|
  {
    if gs != [] {
      var init := gs[..|gs| - 1];
      var last := gs[|gs| - 1];
      assert gs == init + [last];
      LastKeyIsNew(init, last);
      DistinctKeyCount(init);
      KeysOfAppend(init, last);
    }
  }

  /** The keys of a table with one more group. */
  lemma KeysOfAppend(init: seq<Group>, last: Group)
    ensures GroupKeys(init + [last]) == GroupKeys(init) + {last.restaurantId}
  {
    assert forall g :: g in init + [last] <==> g in init || g == last;
  }

  /** In distinct groups the last key does not occur before, and the groups
      before it are distinct. */
  lemma LastKeyIsNew(init: seq<Group>, last: Group)
    requires DistinctGroups(init + [last])
    ensures DistinctGroups(init)
    ensures last.restaurantId !in GroupKeys(init)
  {
    var gs := init + [last];
    forall k, l | 0 <= k < l < |init| ensures init[k].restaurantId != init[l].restaurantId {
      assert init[k] == gs[k] && init[l] == gs[l];
    }
    forall g | g in init ensures g.restaurantId != last.restaurantId {
      var k :| 0 <= k < |init| && init[k] == g;
      assert gs[k] == g && gs[|init|] == last;
    }
  }

  lemma GroupAt(groups: seq<Group>, g: Group) returns (m: nat)
    requires g in groups
    ensures m < |groups| && groups[m] == g
  {
    m :| 0 <= m < |groups| && groups[m] == g;
  }

  /** The group a restaurant that occurs in the swipes ends up in. */
  lemma GroupFor(swipes: seq<Swipe>, rid: string) returns (m: nat)
    requires Occurs(swipes, rid)
    ensures m < |GroupSwipes(swipes)|
    ensures GroupSwipes(swipes)[m].restaurantId == rid
    ensures GroupSwipes(swipes)[m].socketIds == Swipers(swipes, rid)
  {
    var groups := GroupSwipes(swipes);
    var x :| x in swipes && x.restaurantId == rid;
    assert rid in (set y | y in swipes :: y.restaurantId);
    assert rid in GroupKeys(groups);
    var g :| g in groups && g.restaurantId == rid;
    m := GroupAt(groups, g);
  }

  /** A restaurant is matched in a room exactly when its right swipes in
      that room come from at least two distinct sockets. */
  lemma MatchIff(ledger: seq<Swipe>, roomId: RoomId, rid: string)
    ensures rid in GroupKeys(MatchedGroups(ledger, roomId))
        <==> |Swipers(RightSwipes(ledger, roomId), rid)| >= 2
  {
    var rs := RightSwipes(ledger, roomId);
    var groups := GroupSwipes(rs);
    var ms := MatchedGroups(ledger, roomId);
    FilterContents(groups, IsShared());
    assert forall g :: g in ms <==> g in groups && |g.socketIds| >= 2;
    if rid in GroupKeys(ms) {
      var g :| g in ms && g.restaurantId == rid;
      var m := GroupAt(groups, g);
      assert GroupContents(groups, rs);
      assert groups[m].socketIds == Swipers(rs, rid);
    }
    if |Swipers(rs, rid)| >= 2 {
      var sock :| sock in Swipers(rs, rid);
      assert Occurs(rs, rid);
      var m := GroupFor(rs, rid);
      assert groups[m] in ms;
    }
  }

  lemma {:induction false} FilterKeepsDistinct(groups: seq<Group>, p: Group -> bool)
    requires DistinctGroups(groups)
    ensures DistinctGroups(Filter(groups, p))
  {
    if groups != [] {
      FilterKeepsDistinct(groups[1..], p);
      FilterContents(groups[1..], p);
      var rest := Filter(groups[1..], p);
      forall g | g in rest
        ensures g.restaurantId != groups[0].restaurantId
      {
        var m := GroupAt(groups[1..], g);
        assert groups[m + 1] == g;
      }
    }
  }

  /** Each restaurant yields at most one match. */
  lemma OneMatchPerRestaurant(ledger: seq<Swipe>, roomId: RoomId)
    ensures DistinctGroups(MatchedGroups(ledger, roomId))
  {
    FilterKeepsDistinct(GroupSwipes(RightSwipes(ledger, roomId)), IsShared());
  }

  /** Every match carries the snapshot of the first right swipe on its
      restaurant, and its sockets are that restaurant's distinct right-swipers. */
  lemma MatchFromFirstRightSwipe(ledger: seq<Swipe>, roomId: RoomId)
    ensures forall k :: 0 <= k < |MatchedGroups(ledger, roomId)| ==>
      var rs := RightSwipes(ledger, roomId);
      var g := MatchedGroups(ledger, roomId)[k];
      && Occurs(rs, g.restaurantId)
      && g.socketIds == Swipers(rs, g.restaurantId)
      && |g.socketIds| >= 2
      && CalculateMatches(ledger, roomId)[k].data == rs[FirstIndex(rs, g.restaurantId)].restaurantData
  {
    MatchedGroupsFacts(ledger, roomId);
  }

  /** Only right swipes of the room matter: adding a left swipe, or a swipe
      of another room, leaves the matches unchanged. */
  lemma IrrelevantSwipeIgnored(ledger: seq<Swipe>, s: Swipe, roomId: RoomId)
    requires s.direction == Left || s.roomId != roomId
    ensures CalculateMatches(ledger + [s], roomId) == CalculateMatches(ledger, roomId)
  {
    IrrelevantSwipeNotRight(ledger, s, roomId);
  }

  lemma IrrelevantSwipeNotRight(ledger: seq<Swipe>, s: Swipe, roomId: RoomId)
    requires s.direction == Left || s.roomId != roomId
    ensures RightSwipes(ledger + [s], roomId) == RightSwipes(ledger, roomId)
  {
    var p := IsRightIn(roomId);
    FilterAppend(ledger, [s], p);
    assert !p(s);
    assert Filter([s], p) == Filter([s][1..], p) == [];
    assert RightSwipes(ledger + [s], roomId) == RightSwipes(ledger, roomId) + [];
  }

  /** A repeated right swipe by a socket already counted for that restaurant
      changes nothing: the sockets form a set. */
  lemma RepeatedRightSwipeCountsOnce(ledger: seq<Swipe>, s: Swipe)
    requires s.direction == Right
    requires exists t :: && t in ledger && t.direction == Right && t.roomId == s.roomId
                         && t.socketId == s.socketId && t.restaurantId == s.restaurantId
    ensures CalculateMatches(ledger + [s], s.roomId) == CalculateMatches(ledger, s.roomId)
  {
    var p := IsRightIn(s.roomId);
    var rs := RightSwipes(ledger, s.roomId);
    RightSwipeAppended(ledger, s);
    var t :| t in ledger && t.direction == Right && t.roomId == s.roomId
      && t.socketId == s.socketId && t.restaurantId == s.restaurantId;
    FilterContents(ledger, p);
    assert p(t);
    RepeatKeepsGroups(rs, t, s);
  }

  lemma RightSwipeAppended(ledger: seq<Swipe>, s: Swipe)
    requires s.direction == Right
    ensures RightSwipes(ledger + [s], s.roomId) == RightSwipes(ledger, s.roomId) + [s]
  {
    var p := IsRightIn(s.roomId);
    FilterAppend(ledger, [s], p);
    assert p(s);
    assert Filter([s], p) == [s] + Filter([s][1..], p) == [s];
  }

  lemma RepeatKeepsGroups(rs: seq<Swipe>, t: Swipe, s: Swipe)
    requires t in rs && t.socketId == s.socketId && t.restaurantId == s.restaurantId
    ensures GroupSwipes(rs + [s]) == GroupSwipes(rs)
  {
    var rs' := rs + [s];
    assert rs'[..|rs'| - 1] == rs;
    var groups := GroupSwipes(rs);
    assert s.restaurantId in GroupKeys(groups) by {
      assert s.restaurantId in (set x | x in rs :: x.restaurantId);
    }
    var k := GroupIndex(groups, s.restaurantId).value;
    assert GroupContents(groups, rs);
    assert s.socketId in Swipers(rs, s.restaurantId);
    assert groups[k].socketIds + {s.socketId} == groups[k].socketIds;
    assert groups[k].(socketIds := groups[k].socketIds) == groups[k];
    assert GroupSwipes(rs') == AddToGroups(groups, s) == groups;
  }

  /** Snapshots written through the swipe endpoint carry neither
      `restaurantId` nor `id`, so every match built from them has no
      `restaurantId`. */
  lemma StoredSnapshotsGiveNoMatchId(ledger: seq<Swipe>, roomId: RoomId)
    requires forall s :: s in ledger ==> s.restaurantData.restaurantId.None? && s.restaurantData.id.None?
    ensures forall m :: m in CalculateMatches(ledger, roomId) ==> m.restaurantId.None?
  {
    var rs := RightSwipes(ledger, roomId);
    var ms := CalculateMatches(ledger, roomId);
    MatchFromFirstRightSwipe(ledger, roomId);
    forall m | m in ms
      ensures m.restaurantId.None?
    {
      var k :| 0 <= k < |ms| && ms[k] == m;
      var g := MatchedGroups(ledger, roomId)[k];
      var i := FirstIndex(rs, g.restaurantId);
      assert rs[i] in rs;
      FilterContents(ledger, IsRightIn(roomId));
      assert rs[i] in ledger;
    }
  }

  /** Per-direction counts. */
  datatype Tally = Tally(left: nat, right: nat)

  /** One `byUser` entry, in order of the user's first swipe. */
  datatype UserTally = UserTally(socketId: SocketId, tally: Tally)

  datatype Stats = Stats(totalSwipes: nat, byUser: seq<UserTally>, byDirection: Tally)

  function Bump(t: Tally, d: Direction): Tally {
    match d
    case Left => t.(left := t.left + 1)
    case Right => t.(right := t.right + 1)
  }

  /** The number of swipes in direction `d`. */
  function CountDir(swipes: seq<Swipe>, d: Direction): nat {
    if swipes == [] then 0
    else CountDir(swipes[..|swipes| - 1], d) + (if swipes[|swipes| - 1].direction == d then 1 else 0)
  }

  /** The number of swipes by `sock` in direction `d`. */
  function CountBy(swipes: seq<Swipe>, sock: SocketId, d: Direction): nat {
    if swipes == [] then 0
    else
      var s := swipes[|swipes| - 1];
      CountBy(swipes[..|swipes| - 1], sock, d) + (if s.socketId == sock && s.direction == d then 1 else 0)
  }

  function SumLeft(us: seq<UserTally>): nat {
    if us == [] then 0 else us[0].tally.left + SumLeft(us[1..])
  }

  function SumRight(us: seq<UserTally>): nat {
    if us == [] then 0 else us[0].tally.right + SumRight(us[1..])
  }

  function UserIndex(us: seq<UserTally>, sock: SocketId): (r: Option<nat>)
    ensures r.Some? ==> r.value < |us| && us[r.value].socketId == sock
    ensures r.None? ==> forall u :: u in us ==> u.socketId != sock
  {
    if us == [] then None
    else if us[0].socketId == sock then Some(0)
    else match UserIndex(us[1..], sock)
      case None => None
      case Some(k) => Some(k + 1)
  }

  predicate UsersDistinct(us: seq<UserTally>) {
    forall i, j :: 0 <= i < j < |us| ==> us[i].socketId != us[j].socketId
  }

  lemma {:induction false} SumBump(us: seq<UserTally>, k: nat, d: Direction)
    requires k < |us|
    ensures var us' := us[k := UserTally(us[k].socketId, Bump(us[k].tally, d))];
      && SumLeft(us') == SumLeft(us) + (if d == Left then 1 else 0)
      && SumRight(us') == SumRight(us) + (if d == Right then 1 else 0)
  {
    var us' := us[k := UserTally(us[k].socketId, Bump(us[k].tally, d))];
    if k > 0 {
      SumBump(us[1..], k - 1, d);
      assert us'[1..] == us[1..][k - 1 := UserTally(us[k].socketId, Bump(us[k].tally, d))];
    } else {
      assert us'[1..] == us[1..];
    }
  }

  lemma {:induction false} SumAppend(us: seq<UserTally>, u: UserTally)
    ensures SumLeft(us + [u]) == SumLeft(us) + u.tally.left
    ensures SumRight(us + [u]) == SumRight(us) + u.tally.right
  {
    if us != [] {
      assert (us + [u])[1..] == us[1..] + [u];
      SumAppend(us[1..], u);
    } else {
      assert [u][1..] == [];
    }
  }

  function UserSockets(us: seq<UserTally>): set<SocketId> {
    set u | u in us :: u.socketId
  }

  function SwipeSockets(swipes: seq<Swipe>): set<SocketId> {
    set s | s in swipes :: s.socketId
  }

  /** What the stats object must be for a list of swipes. */
  ghost predicate StatsOf(st: Stats, swipes: seq<Swipe>) {
    && st.totalSwipes == |swipes|
    && st.byDirection == Tally(CountDir(swipes, Left), CountDir(swipes, Right))
    && UsersDistinct(st.byUser)
    && UserSockets(st.byUser) == SwipeSockets(swipes)
    && (forall u :: u in st.byUser ==>
          u.tally == Tally(CountBy(swipes, u.socketId, Left), CountBy(swipes, u.socketId, Right)))
    && SumLeft(st.byUser) == st.byDirection.left
    && SumRight(st.byUser) == st.byDirection.right
  }

  /** The `byUser` entries, with a zero entry for `sock` appended when it
      has none yet. */
  function WithEntry(us: seq<UserTally>, sock: SocketId): (r: seq<UserTally>)
    ensures UserSockets(r) == UserSockets(us) + {sock}
    ensures UsersDistinct(us) ==> UsersDistinct(r)
    ensures SumLeft(r) == SumLeft(us) && SumRight(r) == SumRight(us)
    ensures |us| <= |r| <= |us| + 1 && r[..|us|] == us
  {
    if UserIndex(us, sock).Some? then us
    else
      var r := us + [UserTally(sock, Tally(0, 0))];
      SumAppend(us, UserTally(sock, Tally(0, 0)));
      assert forall u :: u in r <==> u in us || u == UserTally(sock, Tally(0, 0));
      assert forall i :: 0 <= i < |us| ==> us[i] in us;
      r
  }

  /** Where `sock`'s entry sits in `WithEntry(us, sock)`. */
  function EntryIndex(us: seq<UserTally>, sock: SocketId): (k: nat)
    ensures k < |WithEntry(us, sock)| && WithEntry(us, sock)[k].socketId == sock
    ensures k < |us| <==> UserIndex(us, sock).Some?
  {
    match UserIndex(us, sock)
    case Some(k) => k
    case None => |us|
  }

  /** One iteration of the counting loop: count the swipe in the totals and
      in its user's entry, creating that entry on the user's first swipe. */
  function StepStats(st: Stats, s: Swipe): Stats {
    var us := WithEntry(st.byUser, s.socketId);
    var k := EntryIndex(st.byUser, s.socketId);
    Stats(st.totalSwipes + 1, us[k := UserTally(s.socketId, Bump(us[k].tally, s.direction))],
          Bump(st.byDirection, s.direction))
  }

  /** The counting loop over the swipes, in order. */
  function TallySwipes(swipes: seq<Swipe>): (st: Stats)
    ensures StatsOf(st, swipes)
  {
    if swipes == [] then Stats(0, [], Tally(0, 0))
    else
      var pre := swipes[..|swipes| - 1];
      var s := swipes[|swipes| - 1];
      assert swipes == pre + [s];
      TallyStep(TallySwipes(pre), pre, s);
      StepStats(TallySwipes(pre), s)
  }

  /** Before the step, the swipe's user entry holds that user's counts so far. */
  lemma EntryTally(st: Stats, pre: seq<Swipe>, sock: SocketId)
    requires StatsOf(st, pre)
    ensures var us := WithEntry(st.byUser, sock);
      var k := EntryIndex(st.byUser, sock);
      us[k].tally == Tally(CountBy(pre, sock, Left), CountBy(pre, sock, Right))
  {
    var us := WithEntry(st.byUser, sock);
    var k := EntryIndex(st.byUser, sock);
    if k < |st.byUser| {
      assert us[k] == st.byUser[k] && st.byUser[k] in st.byUser;
    } else {
      assert sock !in UserSockets(st.byUser);
      CountByAbsent(pre, sock);
    }
  }

  lemma TallyStep(st: Stats, pre: seq<Swipe>, s: Swipe)
    requires StatsOf(st, pre)
    ensures StatsOf(StepStats(st, s), pre + [s])
  {
    var w := pre + [s];
    assert w[..|w| - 1] == pre && w[|w| - 1] == s;
    var us := WithEntry(st.byUser, s.socketId);
    var k := EntryIndex(st.byUser, s.socketId);
    SumBump(us, k, s.direction);
    StepEntries(st, pre, s);
    StepUsers(st, s);
    assert SwipeSockets(w) == SwipeSockets(pre) + {s.socketId} by {
      assert forall x :: x in w <==> x in pre || x == s;
    }
  }

  /** After the step, every entry holds its user's counts over the longer list. */
  lemma StepEntries(st: Stats, pre: seq<Swipe>, s: Swipe)
    requires StatsOf(st, pre)
    ensures forall u :: u in StepStats(st, s).byUser ==>
      u.tally == Tally(CountBy(pre + [s], u.socketId, Left), CountBy(pre + [s], u.socketId, Right))
  {
    var w := pre + [s];
    assert w[..|w| - 1] == pre && w[|w| - 1] == s;
    var us := WithEntry(st.byUser, s.socketId);
    var k := EntryIndex(st.byUser, s.socketId);
    var us' := StepStats(st, s).byUser;
    EntryTally(st, pre, s.socketId);
    forall u | u in us'
      ensures u.tally == Tally(CountBy(w, u.socketId, Left), CountBy(w, u.socketId, Right))
    {
      var i :| 0 <= i < |us'| && us'[i] == u;
      if i != k {
        assert i < |st.byUser|;
        assert us[i] == st.byUser[i] && st.byUser[i] in st.byUser;
        assert us[i].socketId != s.socketId;
      }
    }
  }

  /** The step keeps the entries distinct and adds the swipe's user to them. */
  lemma StepUsers(st: Stats, s: Swipe)
    requires UsersDistinct(st.byUser)
    ensures UsersDistinct(StepStats(st, s).byUser)
    ensures UserSockets(StepStats(st, s).byUser) == UserSockets(st.byUser) + {s.socketId}
  {
    var us := WithEntry(st.byUser, s.socketId);
    var k := EntryIndex(st.byUser, s.socketId);
    ReplaceEntry(us, k, UserTally(s.socketId, Bump(us[k].tally, s.direction)));
  }

  /** Overwriting an entry with one for the same user keeps the users. */
  lemma ReplaceEntry(us: seq<UserTally>, k: nat, u: UserTally)
    requires k < |us| && u.socketId == us[k].socketId
    ensures UserSockets(us[k := u]) == UserSockets(us)
    ensures UsersDistinct(us) ==> UsersDistinct(us[k := u])
  {
    var us' := us[k := u];
    assert forall i :: 0 <= i < |us'| ==> us'[i].socketId == us[i].socketId;
    forall x | x in UserSockets(us) ensures x in UserSockets(us') {
      var v :| v in us && v.socketId == x;
      var i :| 0 <= i < |us| && us[i] == v;
      assert us'[i] in us';
    }
    forall x | x in UserSockets(us') ensures x in UserSockets(us) {
      var v :| v in us' && v.socketId == x;
      var i :| 0 <= i < |us'| && us'[i] == v;
      assert us[i] in us;
    }
  }

  lemma {:induction false} CountByAbsent(swipes: seq<Swipe>, sock: SocketId)
    requires sock !in SwipeSockets(swipes)
    ensures CountBy(swipes, sock, Left) == 0 && CountBy(swipes, sock, Right) == 0
  {
    if swipes != [] {
      var pre := swipes[..|swipes| - 1];
      assert forall x :: x in pre ==> x in swipes;
      assert swipes[|swipes| - 1] in swipes;
      CountByAbsent(pre, sock);
    }
  }

  /** `getSwipeStats(roomId)`: counts over the room's swipes. */
  function GetSwipeStats(ledger: seq<Swipe>, roomId: RoomId): (st: Stats)
    ensures StatsOf(st, RoomSwipes(ledger, roomId))
  {
    TallySwipes(RoomSwipes(ledger, roomId))
  }

  lemma {:induction false} CountDirTotal(swipes: seq<Swipe>)
    ensures CountDir(swipes, Left) + CountDir(swipes, Right) == |swipes|
  {
    if swipes != [] {
      CountDirTotal(swipes[..|swipes| - 1]);
    }
  }

  /** The totals agree: left plus right is the number of swipes, and the
      per-user counts add up to the per-direction counts. */
  lemma StatsTotals(ledger: seq<Swipe>, roomId: RoomId)
    ensures var st := GetSwipeStats(ledger, roomId);
      && st.byDirection.left + st.byDirection.right == st.totalSwipes
      && SumLeft(st.byUser) == st.byDirection.left
      && SumRight(st.byUser) == st.byDirection.right
      && st.totalSwipes == |RoomSwipes(ledger, roomId)|
  {
    CountDirTotal(RoomSwipes(ledger, roomId));
  }
}
