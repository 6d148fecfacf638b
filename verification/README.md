# munch: room and swipe engine, in Dafny

munch lets two people pick a restaurant together. One person creates a
room and gets a four-letter key. The other joins with the key. Both swipe
left or right on the same restaurant candidates. A restaurant both of them
swiped right on is a match.

This project models the backend's room and swipe engine as pure functions
over immutable data, and proves properties of it:

- **Room keys** (`RoomKey`): generation from four letter draws, and the
  format check with its JavaScript `toUpperCase`.
- **Rooms** (`Rooms`, `RoomRoutes`):
  - the room record and the store, a sequence in natural order;
  - room creation, with bounded key retries and filter defaults;
  - the read-only REST join check;
  - the room lookup.
- **Socket handlers** (`Server`):
  - `join-room`, `disconnect`, `swipe` and `complete-swiping`;
  - each is a transition returning the new state and the emitted events;
  - an emitted event is a set of recipient sockets plus an event.
- **Swipes** (`Swipes`, `SwipeRoutes`, `MatchCalculator`):
  - the swipe ledger and the validating, de-duplicating `POST /api/swipes`;
  - `calculateMatches`, `getSwipeStats`, and the rating sort of
    `GET /api/swipes/:roomId`.
- **The whole backend** (`Engine`):
  - a state machine over create, join, disconnect, relay and swipe-post
    steps;
  - invariants that hold in every reachable state.
- **Candidate normalisation** (`Places`): the post-processing of Google
  Places results:
  - included types;
  - the price-level map and the price filter;
  - the search and details transforms;
  - `getPhotoUrl`.
- **Client helpers**:
  - the match-list filter of the matches page (`MatchesPage`);
  - the restaurant card's hashed fallback image, photo choice and price
    tag (`RestaurantCard`).
- **Worked runs** (`Scenarios`): a two-person session from joining to
  matching to leaving, step by step through the handlers.

`Js` holds the JavaScript values and truthiness the handlers test. `Seqs`
holds `Array.prototype.filter` and its facts.

Modelling choices:

- **The database** is in-memory:
  - rooms are a `seq<Room>` searched front to back, as `findOne` and `find`
    do in natural order;
  - swipes are a `seq<Swipe>` in insertion order.
- **Socket.io groups** are a map from group name to a set of sockets. A
  socket leaves all its groups before the `disconnect` handler runs, as
  socket.io does.
- **Atomic handlers.** Every handler is one atomic step.
- **Parameters for what the code cannot see:**
  - the ids the database assigns;
  - the clock;
  - the letters `Math.random` draws;
  - `encodeURIComponent`.
- **Numbers** are `real` for ratings, distances and coordinates. They are
  only compared, never computed with. The string hash of the card uses
  unbounded integers with an explicit 32-bit wrap where the JavaScript
  shift wraps.
- **Snapshot ids.** A swipe's stored `restaurantData` keeps only the fields
  the schema declares. So the snapshot never has a `restaurantId` or `id`,
  and every computed match has no `restaurantId`
  (`SwipeRoutes.EndpointMatchesHaveNoId`). This is what the code does, and
  the model reproduces it.
- **Code over description.** The project's own description of matching
  talks about both participants' right swipes. The code counts any two
  distinct sockets that swiped right in the room, and this model follows
  the code.

## Model

| member | source | states |
|---|---|---|
| RoomKey.GenerateRoomKey | backend/utils/roomKeyGenerator.js:5-12 | a generated key is four letters from A-Z, letter i being the alphabet letter of draw i |
| RoomKey.EveryKeyShapeIsGenerated | backend/utils/roomKeyGenerator.js:5-12 | every four-capital-letter string is produced by some draws, so the generator's range is exactly the key shapes |
| RoomKey.IsValidRoomKey | backend/utils/roomKeyGenerator.js:17-20 | only a non-empty string of at most four characters can pass (upper-casing never shortens) |
| RoomKey.UpperCaseNoShorter | backend/utils/roomKeyGenerator.js:19 | `toUpperCase` never makes a string shorter |
| RoomKey.AsciiUpperCase | backend/utils/roomKeyGenerator.js:19 | on ASCII text upper-casing keeps the length, and a position becomes A-Z exactly when it held a letter of either case |
| RoomKey.AsciiKeyValidity | backend/utils/roomKeyGenerator.js:17-20 | an ASCII string is valid if and only if it is exactly four letters, in either case |
| RoomKey.GeneratedKeyIsValid | backend/utils/roomKeyGenerator.js:5-20 | round trip: every generated key passes the format check |
| RoomKey.LowercaseKeyIsValid | backend/utils/roomKeyGenerator.js:19 | "abcd" passes the check although it is not a key the generator makes |
| RoomKey.ShortKeysCanBeValid | backend/utils/roomKeyGenerator.js:19 | a three-character key with a sharp s and a two-character key with a ligature pass, because upper-casing lengthens them to four letters |
| RoomKey.InvalidKeys | backend/utils/roomKeyGenerator.js:18-19 | absent, null, empty, numeric and five-letter keys are rejected |
| Rooms.HasParticipantIff | backend/models/Room.js:25-31 | a socket has a participant entry exactly when it is among the room's participant socket ids |
| Rooms.FindById | backend/routes/roomRoutes.js:122 | the lookup finds the first room with the id, and finds none exactly when no room has it |
| Rooms.FindByKey | backend/routes/roomRoutes.js:86 | the lookup finds the first room with the key, and finds none exactly when no room has it |
| RoomRoutes.SelectRoomKey | backend/routes/roomRoutes.js:22-38 | a key is chosen exactly when one of the remaining attempts (of at most ten) is not taken; the chosen key is the first free one and is not taken |
| RoomRoutes.FiltersFor | backend/routes/roomRoutes.js:43-47 | a falsy distance becomes 5000, a falsy cuisine becomes 'restaurant', and an absent price list becomes [1,2,3,4]; other values are kept |
| RoomRoutes.CreateRoom | backend/routes/roomRoutes.js:11-68 | a missing location or falsy coordinate gives the location error, and ten taken keys give the key error. The request succeeds exactly when it has a location and one of the first ten candidates is free. On success exactly one room is appended, with the fresh id (also the response's roomId), the first free candidate as key, defaulted filters, no participants, status waiting and the creation time |
| RoomRoutes.ZeroCoordinateRejected | backend/routes/roomRoutes.js:16-20 | a latitude of exactly 0 is rejected like a missing one |
| RoomRoutes.CreatePreservesStore | backend/routes/roomRoutes.js:22-55 | creation keeps room ids and room keys unique, and keeps every room well formed |
| RoomRoutes.JoinCheck | backend/routes/roomRoutes.js:74-114 | the checks run in order: format (400), then existence under the raw key (404, exactly when no room has it), then capacity (400, exactly when the first room with the key has two or more participants). It succeeds exactly when the key is valid and the first room with it has fewer than two participants, and then reports that room's count and status |
| RoomRoutes.LowercaseKeyNotFound | backend/routes/roomRoutes.js:79-92 | when every stored key is upper-case, a valid key containing a lower-case letter always gets "Room not found" |
| RoomRoutes.GetRoom | backend/routes/roomRoutes.js:120-142 | 404 exactly when no room has the id; otherwise the room with that id |
| Places.IncludedTypes | backend/services/googlePlacesService.js:25-35 | a truthy cuisine other than 'restaurant' is searched alone; otherwise restaurant, cafe and bar |
| Places.NearbyRequestFor | backend/services/googlePlacesService.js:37-48 | a falsy radius becomes 5000, so the radius is never 0; the types are those of the cuisine |
| Places.PriceLevelOf | backend/services/googlePlacesService.js:100-118 | the five enum names map to 0-4, anything else to 0; a non-zero level comes only from a known name |
| Places.PriceMapInjective | backend/services/googlePlacesService.js:100-106 | different enum names map to different levels |
| Places.FilterByPrice | backend/services/googlePlacesService.js:108-114 | an absent or empty list keeps every place; otherwise the result keeps, in order, exactly the places whose mapped level is in the list |
| Places.DefaultFilterDropsUnpriced | backend/services/googlePlacesService.js:108-114 | under [1,2,3,4] every kept place has a level that is present and not FREE, and every place whose level maps to 1-4 is kept |
| Places.GetPhotoUrl | backend/services/googlePlacesService.js:226-236 | with the placeholder key the placeholder image; otherwise the url is empty exactly when the photo name is falsy |
| Places.TransformPlace | backend/services/googlePlacesService.js:117-135 | the id and address are kept, name defaults to 'Unknown', rating to 0, and types to []; the price level is mapped; at most three photos are kept, in order; the location is the place's latitude and longitude, each absent when the place has none |
| Places.SearchResults | backend/services/googlePlacesService.js:108-136 | the candidates are the transforms of a subsequence of the searched places, in order; each has a name and at most three photos. Under a non-empty price list a candidate's level is listed, and every place with a listed level is returned. Without a list every place is returned, in order |
| Places.SearchResultsRespectPriceList | backend/services/googlePlacesService.js:108-124 | with a non-empty price list every returned candidate's level is in the list |
| Places.SearchResultsOneToOne | backend/services/googlePlacesService.js:116-136 | without a price list the transform is one-to-one and order-preserving, and every name is non-empty |
| Places.TransformDetails | backend/services/googlePlacesService.js:189-213 | id and address are copied; the name has no default; rating and total ratings default to 0; opening hours default to none. Every photo and review is kept, in order: a review keeps its rating and text, and its author is the author name or 'Anonymous' when that is empty |
| Places.SearchPhotosPrefixOfDetails | backend/services/googlePlacesService.js:125 | for the same photos, search shows the first three of what details shows (all of them when there are at most three) |
| Swipes.ToSnapshot | backend/models/Swipe.js:23-37 | the stored snapshot keeps the declared name, address, rating, price level, photos and location of the posted restaurant, and has neither restaurantId nor id |
| SwipeRoutes.StoreAdmitsDuplicates | backend/models/Swipe.js:45 | the compound index is not unique: for a request whose key is already recorded, writing its swipe without the endpoint's check gives a ledger with a repeated key, while the endpoint refuses it |
| MatchCalculator.GroupSwipes | backend/utils/matchCalculator.js:14-25 | the grouping table holds one group per restaurant that occurs, in order of first appearance. Each group's set holds the distinct sockets that swiped it, and its data is the snapshot of the first swipe on it |
| MatchCalculator.GroupFor | backend/utils/matchCalculator.js:17-25 | every restaurant that occurs has a group holding exactly its swipers |
| MatchCalculator.MatchIdOf | backend/utils/matchCalculator.js:33-34 | a match's id is the snapshot's restaurantId when present, otherwise its id |
| MatchCalculator.CalculateMatches | backend/utils/matchCalculator.js:7-40 | there is one match per restaurant that at least two distinct sockets swiped right on in the room, and no restaurant twice. Each match carries the snapshot of the first right swipe on its restaurant and the id of that snapshot |
| MatchCalculator.MatchIff | backend/utils/matchCalculator.js:27-37 | a restaurant is matched if and only if its right swipes in the room come from at least two distinct sockets |
| MatchCalculator.OneMatchPerRestaurant | backend/utils/matchCalculator.js:15-37 | no restaurant yields two matches |
| MatchCalculator.MatchFromFirstRightSwipe | backend/utils/matchCalculator.js:17-35 | every match's data is the snapshot of the first right swipe on its restaurant in the room, which has at least two distinct right-swipers |
| MatchCalculator.IrrelevantSwipeIgnored | backend/utils/matchCalculator.js:9-12 | appending a left swipe, or a swipe of another room, leaves the matches unchanged |
| MatchCalculator.RightSwipeAppended | backend/utils/matchCalculator.js:9-12 | appending a right swipe adds it at the end of the room's right swipes |
| MatchCalculator.RepeatedRightSwipeCountsOnce | backend/utils/matchCalculator.js:21-24 | a further right swipe by a socket already counted for that restaurant leaves the matches unchanged |
| MatchCalculator.StoredSnapshotsGiveNoMatchId | backend/utils/matchCalculator.js:32-35 | when no stored snapshot has restaurantId or id, no match has a restaurantId |
| MatchCalculator.TallySwipes | backend/utils/matchCalculator.js:57-66 | the counting loop's stats describe the swipes (see StatsOf below) |
| MatchCalculator.GetSwipeStats | backend/utils/matchCalculator.js:45-69 | the stats describe the room's swipes: total, per-direction counts, and one entry per distinct user holding that user's own left and right counts; the per-user sums equal the direction totals |
| MatchCalculator.CountDirTotal | backend/utils/matchCalculator.js:57-66 | left plus right counts is the number of swipes |
| MatchCalculator.StatsTotals | backend/utils/matchCalculator.js:48-66 | totalSwipes equals left plus right; the per-user left and right sums equal the direction totals |
| SwipeRoutes.ParseDirection | backend/routes/swipeRoutes.js:23-27 | only "left" and "right" are directions |
| SwipeRoutes.NewSwipe | backend/routes/swipeRoutes.js:42-49 | the new record carries the request's key fields, its direction, the stored snapshot and the save time |
| SwipeRoutes.PostSwipe | backend/routes/swipeRoutes.js:12-65 | a missing field, then a bad direction, then a repeated key are rejected, and nothing else is. Success appends exactly the request's swipe (key, parsed direction, snapshot, time) and keeps the rest |
| SwipeRoutes.PostKeepsKeysDistinct | backend/routes/swipeRoutes.js:29-51 | a successful post keeps every compound key unique |
| SwipeRoutes.FirstDecisionWins | backend/routes/swipeRoutes.js:29-40 | once a key is recorded, any later valid post for it, in either direction, is refused |
| SwipeRoutes.PostAll | backend/routes/swipeRoutes.js:12-65 | a series of posts only appends: the old ledger is a prefix, and at most one record is added per post |
| SwipeRoutes.SeriesKeepsKeysDistinct | backend/routes/swipeRoutes.js:29-51 | over any series of posts each compound key is recorded at most once |
| SwipeRoutes.SeriesWritesSnapshotsWithoutIds | backend/routes/swipeRoutes.js:42-49 | every record a series of posts writes has a snapshot without restaurantId and id |
| SwipeRoutes.EndpointMatchesHaveNoId | backend/utils/matchCalculator.js:32-35 | when every swipe came through the endpoint, no match has a restaurantId |
| SwipeRoutes.InsertByRating | backend/routes/swipeRoutes.js:89 | inserting into a list sorted by descending rating keeps it sorted and adds exactly the one element |
| SwipeRoutes.SortByRating | backend/routes/swipeRoutes.js:89 | the result is a permutation sorted by descending rating, a missing rating counting as 0 |
| SwipeRoutes.GetMatches | backend/routes/swipeRoutes.js:71-100 | 404 exactly when the room is unknown, with no participant-count condition; otherwise a permutation of the calculated matches, sorted by rating, with their count |
| Server.JoinGroup | backend/server.js:74 | joining adds the socket to that group and to no other |
| Server.LeaveAll | backend/server.js:121 | on disconnect the socket is removed from every group and nothing else changes |
| Server.Lookup | backend/server.js:45 | the room with the id, absent exactly when no room has it |
| Server.Join | backend/server.js:43-88 | unknown room: "Room not found" and no change. Present member: nothing stored changes, the socket joins the group and the group is told. Full room: "Room is full" and no change. Otherwise exactly one entry is appended, the status becomes active exactly at two and is untouched below, and the group is told |
| Server.AfterLeaving | backend/server.js:128-145 | a room the socket is not in is untouched. Otherwise the room is deleted exactly when the socket was its only member; a survivor keeps every other participant in order, goes back to waiting, and changes in nothing else |
| Server.AfterLeavingWellFormed | backend/server.js:128-145 | a room that survives a disconnect is still well formed |
| Server.DisconnectRooms | backend/server.js:124-146 | the loop only drops rooms and keeps no entry of the socket; each notice comes from a room the socket left that survived, and goes to that room's group |
| Server.Disconnect | backend/server.js:121-153 | the socket is in no group and no room afterwards; every notice says waiting and does not go to the leaving socket |
| Server.DisconnectKeepsUnique | backend/server.js:128-146 | the disconnect loop keeps room ids and keys unique |
| Server.DisconnectPerRoom | backend/server.js:128-146 | room by room, the store after a disconnect holds what AfterLeaving says, and each surviving room the socket left is announced |
| Server.Others | backend/server.js:94 | `socket.to(room)` reaches the group except the sender |
| Server.SwipeRelay | backend/server.js:91-105 | the swipe event changes no state and no ledger; it only tells the other members |
| Server.CompleteRelay | backend/server.js:108-118 | completing changes no state; it only tells the other members |
| Engine.Apply | backend/server.js:43-153 | relays change nothing, only a swipe post touches the ledger, and HTTP steps emit no socket events |
| Engine.CreateKeepsInv | backend/routes/roomRoutes.js:11-68 | creation keeps the engine invariant |
| Engine.JoinKeepsInv | backend/server.js:43-88 | a join keeps the engine invariant |
| Engine.DisconnectKeepsInv | backend/server.js:121-153 | a disconnect keeps the engine invariant |
| Engine.PostSwipeKeepsInv | backend/routes/swipeRoutes.js:12-65 | a swipe post keeps the engine invariant |
| Engine.StepKeepsInv | backend/server.js:43-153 | every step keeps the engine invariant: ids and keys unique, keys in A-Z, at most two participants, active exactly at two, never completed, groups equal to the participants, swipe keys unique |
| Engine.RunKeepsInv | backend/server.js:43-153 | every run from an invariant state keeps the invariant |
| Engine.ReachableRoomsWellFormed | backend/server.js:57-68 | in every reachable state each room has at most two participants, is active exactly at two, and is never completed; no swipe key is recorded twice |
| MatchesPage.LevelOrOne | frontend/src/pages/MatchesPage.jsx:66 | a missing or zero price level counts as 1 |
| MatchesPage.FilteredMatches | frontend/src/pages/MatchesPage.jsx:60-73 | the kept list is a subsequence of the matches, and a match is kept if and only if it passes the rating and price tests |
| MatchesPage.PriceBands | frontend/src/pages/MatchesPage.jsx:62-70 | 'all' applies only the rating test; '$' keeps level 1, '$$' level 2, '$$$+' levels 3 and up |
| MatchesPage.LowRatedExcluded | frontend/src/pages/MatchesPage.jsx:62 | a match rated below the minimum is never kept |
| MatchesPage.UnratedKept | frontend/src/pages/MatchesPage.jsx:62 | a match without a rating passes the rating test |
| MatchesPage.MissingLevelIsOne | frontend/src/pages/MatchesPage.jsx:66 | missing and zero levels filter exactly like level 1 |
| RestaurantCard.Utf16 | frontend/src/components/RestaurantCard.jsx:26-27 | `id.length` counts UTF-16 code units, one per basic-plane character |
| RestaurantCard.ToInt32 | frontend/src/components/RestaurantCard.jsx:27 | the 32-bit wrap lands in [-2^31, 2^31) and agrees with the input modulo 2^32 |
| RestaurantCard.HashBound | frontend/src/components/RestaurantCard.jsx:25-28 | the hash grows by at most 2^31 + 65535 per code unit, so below about four million units the double arithmetic stays exact |
| RestaurantCard.StringHash | frontend/src/components/RestaurantCard.jsx:25-28 | the loop computes the left fold of the hash step over the id's code units |
| RestaurantCard.ImageIndex | frontend/src/components/RestaurantCard.jsx:29 | the index is the hash's absolute value mod 10, always inside the list |
| RestaurantCard.GetRandomImage | frontend/src/components/RestaurantCard.jsx:23-31 | a falsy id gives the first image; otherwise the image the hash picks, so the same id always gives the same image |
| RestaurantCard.CardImage | frontend/src/components/RestaurantCard.jsx:33-43 | the first photo's url when there is a photo with a non-empty url, otherwise the image `getRandomImage` picks from the restaurant id's hash (the first image for a falsy id) |
| RestaurantCard.PriceTag | frontend/src/components/RestaurantCard.jsx:129 | the tag is `priceLevel \|\| 1` dollar signs; a count that is negative or at least 2^32 is an invalid array length and an error |
| RestaurantCard.CandidateTagLength | frontend/src/components/RestaurantCard.jsx:129 | a search candidate's tag shows one to four signs, and one for a free or unpriced place |
| RestaurantCard.HashExamples | frontend/src/components/RestaurantCard.jsx:23-31 | "a" hashes to 97 and picks image 7; "ab" hashes to 3105 and picks image 5 |
| Scenarios.JoinScenario | backend/server.js:43-88 | A joins (waiting, 1, announced to A), then B joins (active, 2, announced to both) |
| Scenarios.LedgerOfRun | backend/routes/swipeRoutes.js:12-65 | four distinct posts are each accepted and appended in order |
| Scenarios.MatchScenario | backend/utils/matchCalculator.js:7-40 | both right on c1 gives one match, on c1; A left and B right on c2 adds none |
| Scenarios.LeaveScenario | backend/server.js:121-153 | A leaves: the room waits with B alone and B is told. B leaves: the room is gone and its key is not found |
| Scenarios.DuplicateScenario | backend/routes/swipeRoutes.js:29-40 | a second post for the same key is refused in either direction |

## Left out

- **The database.** Mongoose and MongoDB I/O are replaced by the store and ledger sequences passed in and returned.
  - The ObjectId cast errors and every `catch` path are not modelled: "Failed to create room", "Failed to join room", "Failed to record swipe", "Failed to calculate matches" and "Failed to fetch room".
- **TTL expiry.** Deletion 24 hours after `createdAt` is done by the database on a clock. It appears only as the predicate `Rooms.ExpiredAt`; no step deletes expired rooms.
- **Concurrency.** Every handler runs as one atomic step. The real handlers read, await, then write, so two concurrent joins or two concurrent identical swipe posts can interleave. This affects `backend/server.js:53-70` and `backend/routes/swipeRoutes.js:30-51`, and the model's invariants assume sequential handling.
- **Socket.io transport** is reduced to group membership and the returned list of emissions:
  - delivery, connection and reconnection;
  - the client wrapper;
  - the `error` message of a failing `swipe` handler, which cannot fail here.
- **Randomness.** `Math.random` becomes the letter draws of each key attempt, given with the step.
- **Google Places.**
  - The HTTP calls, headers and field masks are left out.
  - The mock data generators are left out.
  - The `searchRestaurants` placeholder-key branch is left out.
  - The photo proxy route is left out.
  - `encodeURIComponent` is a function parameter.
- **Pass-through detail fields.** The website, Maps url, open-now flag, review time and profile photo are copied without logic and are not in the details record.
- **Floating point.** Ratings, distances and coordinates are `real`; no arithmetic is done on them. NaN is not modelled. The string hash is exact only while below 2^53, which `RestaurantCard.HashBound` bounds.
- **Upper-casing.** JavaScript `toUpperCase` is modelled for ASCII and for the characters whose upper case is pure A-Z (dotless i, long s, sharp s and the Latin ligatures). Other characters are kept as they are, which cannot change whether a key is valid.
- **Key order of `Object.values`.** JavaScript lists integer-like keys first. The model keeps first-appearance order, which is the real order for Google place ids. A restaurant id that looks like an array index would be listed earlier by the real code. The same holds for the `byUser` entries.
- **Prototype keys.** A restaurant or socket id such as `__proto__` or `constructor` is not modelled.
- MatchCalculator.IrrelevantSwipeIgnored: stated for a swipe appended at the end of the ledger, which is the only way the ledger grows.
- SwipeRoutes.SortByRating: stability is not proved. The model is a stable insertion sort, as the engine's `Array.prototype.sort` is. Only sortedness and permutation are stated.
- RestaurantCard.CardImage: an image load error that switches to the fallback at run time is UI state and is not modelled.
- RestaurantCard.PriceTag: `Array(n)` with a non-integer count is not modelled, since levels are integers. The engine's maximum string length, which makes `join` fail for counts far below 2^32, is engine-specific and not modelled.
- SwipeRoutes.PostSwipe: the request fields are strings or absent. A truthy non-string `socketId` or `restaurantId` such as the number 42 passes the source's required-field test and is cast to "42" by the schema, and a non-string `direction` is rejected by the `includes` test; the model has no non-string values there, so it neither accepts nor rejects such requests.
- RoomRoutes.CreateRoom: coordinates and `maxDistance` are numbers or absent. A string coordinate such as "0" or "12.5" passes the source's `!location.lat` test and is cast to a number by the database, and a string distance is kept; the model has no string values there, so it neither accepts nor rejects such requests.
- **Room status `completed`.** It is part of the enum but no handler sets it; the engine proves it is never reached.
- **Out of scope.** Rate limiting, the React pages other than the match filter, the restaurant routes and the swipe page deck are left out. They are configuration, UI or timer driven.
