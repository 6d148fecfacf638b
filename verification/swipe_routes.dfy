/** The swipe REST endpoints (backend/routes/swipeRoutes.js): recording a
    swipe in the ledger and listing a room's matches by rating. */
module SwipeRoutes {
  import opened Js
  import opened Seqs
  import opened Rooms
  import opened Places
  import opened Swipes
  import opened MatchCalculator
  import RoomRoutes

  /** The body of `POST /api/swipes`; `None` is an absent field. */
  datatype SwipeRequest = SwipeRequest(
    roomId: Option<string>,
    socketId: Option<string>,
    restaurantId: Option<string>,
    direction: Option<string>,
    restaurantData: Option<Candidate>)

  const MissingFields := HttpError(400, "roomId, socketId, restaurantId, and direction are required")
  const BadDirection := HttpError(400, "direction must be \"left\" or \"right\"")
  const DuplicateSwipe := HttpError(400, "Swipe already recorded for this restaurant")

  /** The membership test `['left', 'right'].includes(direction)`. */
  function ParseDirection(d: string): (r: Option<Direction>)
    ensures r == Some(Left) <==> d == "left"
    ensures r == Some(Right) <==> d == "right"
  {
    if d == "left" then Some(Left)
    else if d == "right" then Some(Right)
    else None
  }

  /** All four required fields are truthy. */
  predicate HasRequiredFields(req: SwipeRequest) {
    TruthyStr(req.roomId) && TruthyStr(req.socketId) && TruthyStr(req.restaurantId) && TruthyStr(req.direction)
  }

  /** A request that gets past both validation checks. */
  predicate WellFormedRequest(req: SwipeRequest) {
    HasRequiredFields(req) && ParseDirection(req.direction.value).Some?
  }

  /** The ledger already holds a swipe with the request's compound key. */
  predicate IsDuplicate(ledger: seq<Swipe>, req: SwipeRequest)
    requires HasRequiredFields(req)
  {
    HasKey(ledger, req.roomId.value, req.socketId.value, req.restaurantId.value)
  }

  /** The document `new Swipe({...})` builds for a well-formed request. */
  function NewSwipe(req: SwipeRequest, now: int): (s: Swipe)
    requires WellFormedRequest(req)
    ensures s.roomId == req.roomId.value && s.socketId == req.socketId.value
    ensures s.restaurantId == req.restaurantId.value
    ensures s.direction == Left <==> req.direction.value == "left"
    ensures s.restaurantData == ToSnapshot(req.restaurantData)
    ensures s.createdAt == now
  {
    Swipe(req.roomId.value, req.socketId.value, req.restaurantId.value,
          ParseDirection(req.direction.value).value, ToSnapshot(req.restaurantData), now)
  }

  /** `POST /api/swipes`: validate, reject a repeated key, otherwise append
      one swipe. `now` stands for `Date.now` at save time. */
  function PostSwipe(ledger: seq<Swipe>, req: SwipeRequest, now: int): (r: Result<seq<Swipe>, HttpError>)
    ensures !HasRequiredFields(req) ==> r == Err(MissingFields)
    ensures (HasRequiredFields(req) && req.direction.value != "left" && req.direction.value != "right")
      ==> r == Err(BadDirection)
    ensures WellFormedRequest(req) ==> (r == Err(DuplicateSwipe) <==> IsDuplicate(ledger, req))
    ensures r.Ok? <==> WellFormedRequest(req) && !IsDuplicate(ledger, req)
    ensures r.Ok? ==>
      && |r.value| == |ledger| + 1
      && r.value[..|ledger|] == ledger
      && r.value[|ledger|].roomId == req.roomId.value
      && r.value[|ledger|].socketId == req.socketId.value
      && r.value[|ledger|].restaurantId == req.restaurantId.value
      && r.value[|ledger|].restaurantData == ToSnapshot(req.restaurantData)
      && WellFormedRequest(req) && r.value[|ledger|] == NewSwipe(req, now)
  {
    if !HasRequiredFields(req) then Err(MissingFields)
    else if ParseDirection(req.direction.value).None? then Err(BadDirection)
    else if IsDuplicate(ledger, req) then Err(DuplicateSwipe)
    else
      var s := NewSwipe(req, now);
      assert (ledger + [s])[..|ledger|] == ledger;
      Ok(ledger + [s])
  }

  /** A successful post keeps every compound key unique. */
  lemma PostKeepsKeysDistinct(ledger: seq<Swipe>, req: SwipeRequest, now: int)
    requires KeysDistinct(ledger)
    requires PostSwipe(ledger, req, now).Ok?
    ensures KeysDistinct(PostSwipe(ledger, req, now).value)
  {
    var l' := PostSwipe(ledger, req, now).value;
    var s := l'[|ledger|];
    forall i, j | 0 <= i < j < |l'|
      ensures !SameKey(l'[i], l'[j])
    {
      if j == |ledger| {
        assert l'[i] == ledger[i] && ledger[i] in ledger;
        assert !(ledger[i].roomId == s.roomId && ledger[i].socketId == s.socketId
                 && ledger[i].restaurantId == s.restaurantId);
      } else {
        assert l'[i] == ledger[i] && l'[j] == ledger[j];
      }
    }
  }

  /** First decision wins: once a key is in the ledger, a valid post for the
      same key fails with the duplicate error, whatever its direction. */
  lemma FirstDecisionWins(ledger: seq<Swipe>, s: Swipe, req: SwipeRequest, now: int)
    requires s in ledger
    requires WellFormedRequest(req)
    requires req.roomId.value == s.roomId && req.socketId.value == s.socketId
    requires req.restaurantId.value == s.restaurantId
    ensures PostSwipe(ledger, req, now) == Err(DuplicateSwipe)
  {
    assert IsDuplicate(ledger, req);
  }

  /** The duplicate check is the only guard: the compound index is not
      unique, so saving the same request's swipe without the check would
      give a ledger with a repeated key, which the endpoint refuses to write. */
  lemma StoreAdmitsDuplicates(ledger: seq<Swipe>, req: SwipeRequest, now: int)
    requires WellFormedRequest(req) && IsDuplicate(ledger, req)
    ensures !KeysDistinct(ledger + [NewSwipe(req, now)])
    ensures PostSwipe(ledger, req, now) == Err(DuplicateSwipe)
  {
    var w := ledger + [NewSwipe(req, now)];
    var s :| s in ledger && s.roomId == req.roomId.value && s.socketId == req.socketId.value
             && s.restaurantId == req.restaurantId.value;
    var i :| 0 <= i < |ledger| && ledger[i] == s;
    assert w[i] == s && SameKey(w[i], w[|ledger|]);
  }

  /** A series of posts handled one after another; failed posts leave the
      ledger as it was. */
  function PostAll(ledger: seq<Swipe>, reqs: seq<(SwipeRequest, int)>): (l: seq<Swipe>)
    ensures |ledger| <= |l| <= |ledger| + |reqs|
    ensures l[..|ledger|] == ledger
    decreases |reqs|
  {
    if reqs == [] then ledger
    else
      var next := match PostSwipe(ledger, reqs[0].0, reqs[0].1)
        case Ok(l1) => l1
        case Err(_) => ledger;
      var l := PostAll(next, reqs[1..]);
      assert l[..|ledger|] == l[..|next|][..|ledger|];
      l
  }

  /** Over any series of posts, starting from a ledger with unique keys,
      each (roomId, socketId, restaurantId) triple appears at most once. */
  lemma {:induction false} SeriesKeepsKeysDistinct(ledger: seq<Swipe>, reqs: seq<(SwipeRequest, int)>)
    requires KeysDistinct(ledger)
    ensures KeysDistinct(PostAll(ledger, reqs))
    decreases |reqs|
  {
    if reqs != [] {
      var r := PostSwipe(ledger, reqs[0].0, reqs[0].1);
      if r.Ok? {
        PostKeepsKeysDistinct(ledger, reqs[0].0, reqs[0].1);
        SeriesKeepsKeysDistinct(r.value, reqs[1..]);
      } else {
        SeriesKeepsKeysDistinct(ledger, reqs[1..]);
      }
    }
  }

  /** Every swipe written through the endpoint has a snapshot without
      `restaurantId` or `id`. */
  predicate SnapshotsWithoutIds(ledger: seq<Swipe>) {
    forall s :: s in ledger ==> s.restaurantData.restaurantId.None? && s.restaurantData.id.None?
  }

  lemma {:induction false} SeriesWritesSnapshotsWithoutIds(ledger: seq<Swipe>, reqs: seq<(SwipeRequest, int)>)
    requires SnapshotsWithoutIds(ledger)
    ensures SnapshotsWithoutIds(PostAll(ledger, reqs))
    decreases |reqs|
  {
    if reqs != [] {
      var r := PostSwipe(ledger, reqs[0].0, reqs[0].1);
      if r.Ok? {
        var l1 := r.value;
        forall s | s in l1
          ensures s.restaurantData.restaurantId.None? && s.restaurantData.id.None?
        {
          var i :| 0 <= i < |l1| && l1[i] == s;
          if i < |ledger| {
            assert l1[..|ledger|][i] == s;
            assert s in ledger;
          }
        }
        SeriesWritesSnapshotsWithoutIds(l1, reqs[1..]);
      } else {
        SeriesWritesSnapshotsWithoutIds(ledger, reqs[1..]);
      }
    }
  }

  /** Consequence: when every swipe came through the endpoint, no match
      carries a `restaurantId`. */
  lemma EndpointMatchesHaveNoId(reqs: seq<(SwipeRequest, int)>, roomId: RoomId)
    ensures forall m :: m in CalculateMatches(PostAll([], reqs), roomId) ==> m.restaurantId.None?
  {
    SeriesWritesSnapshotsWithoutIds([], reqs);
    StoredSnapshotsGiveNoMatchId(PostAll([], reqs), roomId);
  }

  /** The sort key `a.rating || 0`. */
  function RatingOf(m: Match): real {
    NumOr(m.data.rating, 0.0)
  }

  predicate SortedByRating(ms: seq<Match>) {
    forall i, j :: 0 <= i < j < |ms| ==> RatingOf(ms[i]) >= RatingOf(ms[j])
  }

  /** Insert `m` after the entries rated strictly higher. */
  function InsertByRating(m: Match, ms: seq<Match>): (r: seq<Match>)
    requires SortedByRating(ms)
    ensures SortedByRating(r)
    ensures multiset(r) == multiset(ms) + multiset{m}
  {
    if ms == [] then [m]
    else if RatingOf(ms[0]) > RatingOf(m) then
      var rest := InsertByRating(m, ms[1..]);
      assert ms == [ms[0]] + ms[1..];
      assert forall x :: x in rest ==> RatingOf(x) <= RatingOf(ms[0]) by {
        forall x | x in rest ensures RatingOf(x) <= RatingOf(ms[0]) {
          assert x in multiset(rest);
          if x != m {
            assert x in multiset(ms[1..]);
            var i :| 0 <= i < |ms[1..]| && ms[1..][i] == x;
            assert ms[i + 1] == x;
          }
        }
      }
      SortedCons(ms[0], rest);
      [ms[0]] + rest
    else
      SortedCons(m, ms);
      [m] + ms
  }

  lemma SortedCons(m: Match, ms: seq<Match>)
    requires SortedByRating(ms)
    requires forall x :: x in ms ==> RatingOf(x) <= RatingOf(m)
    ensures SortedByRating([m] + ms)
  {
    var r := [m] + ms;
    forall i, j | 0 <= i < j < |r| ensures RatingOf(r[i]) >= RatingOf(r[j]) {
      assert r[j] == ms[j - 1] && ms[j - 1] in ms;
      if i > 0 {
        assert r[i] == ms[i - 1];
      }
    }
  }

  /** `matches.sort((a, b) => (b.rating || 0) - (a.rating || 0))`, as an
      insertion sort that keeps equally rated matches in their input order. */
  function SortByRating(ms: seq<Match>): (r: seq<Match>)
    ensures SortedByRating(r)
    ensures multiset(r) == multiset(ms)
  {
    if ms == [] then []
    else
      assert ms == [ms[0]] + ms[1..];
      InsertByRating(ms[0], SortByRating(ms[1..]))
  }

  datatype MatchesResponse = MatchesResponse(matches: seq<Match>, count: nat)

  /** `GET /api/swipes/:roomId`: 404 for an unknown room, otherwise the
      room's matches by rating, highest first, whatever the participant count. */
  function GetMatches(store: RoomStore, ledger: seq<Swipe>, roomId: RoomId): (r: Result<MatchesResponse, HttpError>)
    ensures r.Err? <==> roomId !in IdSet(store)
    ensures r.Err? ==> r.error == RoomRoutes.RoomNotFound
    ensures r.Ok? ==>
      && multiset(r.value.matches) == multiset(CalculateMatches(ledger, roomId))
      && SortedByRating(r.value.matches)
      && r.value.count == |r.value.matches|
  {
    match RoomRoutes.GetRoom(store, roomId)
    case Err(e) => Err(e)
    case Ok(_) =>
      var sorted := SortByRating(CalculateMatches(ledger, roomId));
      Ok(MatchesResponse(sorted, |sorted|))
  }
}
