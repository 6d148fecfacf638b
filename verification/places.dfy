/** The pure post-processing around the Places search and details calls
    (backend/services/googlePlacesService.js): request parameters, the
    price-level map, the price filter and the record transforms. */
module Places {
  import opened Js
  import opened Seqs

  /** A photo reference as the app stores and shows it. */
  datatype PhotoRef = PhotoRef(url: string, width: Option<real>, height: Option<real>)

  datatype Coordinates = Coordinates(lat: Option<real>, lng: Option<real>)

  /** A photo resource as the Places API returns it. */
  datatype PlacePhoto = PlacePhoto(name: Option<string>, widthPx: Option<real>, heightPx: Option<real>)

  datatype GeoPoint = GeoPoint(latitude: Option<real>, longitude: Option<real>)

  /** One search result. `displayName` is the `displayName.text` field and
      `priceLevel` the raw enum name. */
  datatype Place = Place(
    id: Option<string>,
    displayName: Option<string>,
    formattedAddress: Option<string>,
    priceLevel: Option<string>,
    rating: Option<real>,
    photos: Option<seq<PlacePhoto>>,
    types: Option<seq<string>>,
    location: Option<GeoPoint>)

  /** A restaurant as the app passes it around (the transform's output). */
  datatype Candidate = Candidate(
    id: Option<string>,
    name: string,
    address: Option<string>,
    rating: real,
    priceLevel: nat,
    photos: seq<PhotoRef>,
    location: Coordinates,
    types: seq<string>)

  /** The searchNearby request body, without the field mask. */
  datatype NearbyRequest = NearbyRequest(
    lat: real, lng: real, radius: real, includedTypes: seq<string>, maxResultCount: nat)

  const BroadTypes: seq<string> := ["restaurant", "cafe", "bar"]
  const GenericCuisine: string := "restaurant"
  const DefaultRadius: real := 5000.0
  const MaxResultCount: nat := 20
  const SearchPhotoLimit: nat := 3
  const DefaultPhotoWidth: nat := 400
  const UnknownName: string := "Unknown"

  /** The `priceMap` object. */
  const PriceMap: map<string, nat> := map[
    "PRICE_LEVEL_FREE" := 0,
    "PRICE_LEVEL_INEXPENSIVE" := 1,
    "PRICE_LEVEL_MODERATE" := 2,
    "PRICE_LEVEL_EXPENSIVE" := 3,
    "PRICE_LEVEL_VERY_EXPENSIVE" := 4]

  /** A specific cuisine narrows the search to that type; an absent, empty
      or generic `'restaurant'` cuisine searches restaurants, cafes and bars. */
  function IncludedTypes(cuisine: Option<string>): (types: seq<string>)
    ensures |types| >= 1
    ensures TruthyStr(cuisine) && cuisine.value != GenericCuisine ==> types == [cuisine.value]
    ensures !(TruthyStr(cuisine) && cuisine.value != GenericCuisine) ==> types == BroadTypes
    ensures GenericCuisine in types <==> !TruthyStr(cuisine) || cuisine.value == GenericCuisine
  {
    if TruthyStr(cuisine) && cuisine.value != GenericCuisine then [cuisine.value] else BroadTypes
  }

  /** The search request: a falsy radius becomes 5000 m; at most 20 results. */
  function NearbyRequestFor(lat: real, lng: real, radius: Option<real>, cuisine: Option<string>): (req: NearbyRequest)
    ensures req.radius == (if TruthyNum(radius) then radius.value else DefaultRadius)
    ensures req.radius != 0.0
    ensures req.includedTypes == IncludedTypes(cuisine)
    ensures req.maxResultCount == MaxResultCount
  {
    NearbyRequest(lat, lng, NumOr(radius, DefaultRadius), IncludedTypes(cuisine), MaxResultCount)
  }

  /** `priceMap[place.priceLevel] || 0`: the five known enum names map to
      0..4 and anything else, or an absent level, maps to 0. */
  function PriceLevelOf(level: Option<string>): (n: nat)
    ensures n <= 4
    ensures level.Some? && level.value in PriceMap ==> n == PriceMap[level.value]
    ensures n != 0 ==> level.Some? && level.value in PriceMap
  {
    if level.Some? && level.value in PriceMap then PriceMap[level.value] else 0
  }

  /** Each price level is reached from exactly one enum name. */
  lemma PriceMapInjective(a: string, b: string)
    requires a in PriceMap && b in PriceMap && PriceMap[a] == PriceMap[b]
    ensures a == b
  {
  }

  predicate PriceAccepted(place: Place, levels: seq<int>) {
    PriceLevelOf(place.priceLevel) in levels
  }

  function AcceptsPrice(levels: seq<int>): Place -> bool {
    (p: Place) => PriceAccepted(p, levels)
  }

  /** The price filter: with a non-empty list, keep exactly the places whose
      mapped level is listed, in order; otherwise keep everything. */
  function FilterByPrice(places: seq<Place>, levels: Option<seq<int>>): (kept: seq<Place>)
    ensures levels.None? || |levels.value| == 0 ==> kept == places
    ensures IsSubsequence(kept, places)
    ensures levels.Some? && |levels.value| > 0 ==>
      && (forall p :: p in kept <==> p in places && PriceAccepted(p, levels.value))
      && (forall p :: multiset(kept)[p] == if PriceAccepted(p, levels.value) then multiset(places)[p] else 0)
  {
    if levels.Some? && |levels.value| > 0 then
      FilterContents(places, AcceptsPrice(levels.value));
      Filter(places, AcceptsPrice(levels.value))
    else
      assert IsSubsequence(places, places) by { SubsequenceRefl(places); }
      places
  }

  lemma {:induction false} SubsequenceRefl<T>(xs: seq<T>)
    ensures IsSubsequence(xs, xs)
  {
    if xs != [] {
      SubsequenceRefl(xs[1..]);
    }
  }

  /** Under the default room filter [1, 2, 3, 4] places whose level is
      absent, unspecified or free are dropped, and every place with a level
      of 1 to 4 is kept. */
  lemma DefaultFilterDropsUnpriced(places: seq<Place>)
    ensures var kept := FilterByPrice(places, Some([1, 2, 3, 4]));
      && (forall p :: p in kept ==> p.priceLevel.Some? && p.priceLevel.value != "PRICE_LEVEL_FREE")
      && (forall p :: p in places && PriceLevelOf(p.priceLevel) >= 1 ==> p in kept)
  {
  }

  /** Decimal rendering of a natural number, as in a template literal. */
  function NatToString(n: nat): (s: string)
    ensures |s| >= 1
    ensures forall i :: 0 <= i < |s| ==> '0' <= s[i] <= '9'
  {
    var d := ['0' + (n % 10) as char];
    if n < 10 then d else NatToString(n / 10) + d
  }

  /** `getPhotoUrl`. With the placeholder API key it returns a placeholder
      image; otherwise an absent or empty photo name gives `''` and any
      other name a relative proxy URL. `encode` is `encodeURIComponent`. */
  function GetPhotoUrl(placeholderKey: bool, photoName: Option<string>, maxWidth: nat, encode: string -> string): (url: string)
    ensures placeholderKey ==>
      url == "https://placehold.co/" + NatToString(maxWidth) + "x300/FF6B6B/FFFFFF?text=Restaurant"
    ensures !placeholderKey ==> (url == "" <==> !TruthyStr(photoName))
    ensures !placeholderKey && TruthyStr(photoName) ==>
      url == "/api/restaurants/photo?name=" + encode(photoName.value) + "&maxwidth=" + NatToString(maxWidth)
  {
    if placeholderKey then
      "https://placehold.co/" + NatToString(maxWidth) + "x300/FF6B6B/FFFFFF?text=Restaurant"
    else if !TruthyStr(photoName) then ""
    else "/api/restaurants/photo?name=" + encode(photoName.value) + "&maxwidth=" + NatToString(maxWidth)
  }

  /** One photo resource mapped to a photo reference (real API key). */
  function PhotoOf(photo: PlacePhoto, encode: string -> string): PhotoRef {
    PhotoRef(GetPhotoUrl(false, photo.name, DefaultPhotoWidth, encode), photo.widthPx, photo.heightPx)
  }

  /** The search transform of one place. */
  function TransformPlace(place: Place, encode: string -> string): (c: Candidate)
    ensures c.id == place.id && c.address == place.formattedAddress
    ensures c.name != "" && (TruthyStr(place.displayName) ==> c.name == place.displayName.value)
    ensures !TruthyStr(place.displayName) ==> c.name == UnknownName
    ensures place.location.None? ==> c.location == Coordinates(None, None)
    ensures place.location.Some? ==>
      c.location == Coordinates(place.location.value.latitude, place.location.value.longitude)
    ensures c.rating == (if TruthyNum(place.rating) then place.rating.value else 0.0)
    ensures c.priceLevel == PriceLevelOf(place.priceLevel)
    ensures place.photos.None? ==> c.photos == []
    ensures place.photos.Some? ==>
      && |c.photos| == (if |place.photos.value| < SearchPhotoLimit then |place.photos.value| else SearchPhotoLimit)
      && forall k :: 0 <= k < |c.photos| ==> c.photos[k] == PhotoOf(place.photos.value[k], encode)
    ensures c.types == place.types.GetOr([])
  {
    var photos := match place.photos
      case None => []
      case Some(ps) =>
        var shown := if |ps| < SearchPhotoLimit then ps else ps[..SearchPhotoLimit];
        seq(|shown|, k requires 0 <= k < |shown| => PhotoOf(shown[k], encode));
    var loc := match place.location
      case None => Coordinates(None, None)
      case Some(g) => Coordinates(g.latitude, g.longitude);
    Candidate(place.id, StrOr(place.displayName, UnknownName), place.formattedAddress,
              NumOr(place.rating, 0.0), PriceLevelOf(place.priceLevel), photos, loc,
              place.types.GetOr([]))
  }

  /** The search post-processing: price filter, then one candidate per
      remaining place, in order. Every candidate is the transform of a
      searched place, named and with at most three photos; under a non-empty
      price list exactly the places with a listed level are returned, and
      without one every place is returned, in order. */
  function SearchResults(places: seq<Place>, levels: Option<seq<int>>, encode: string -> string)
    : (cs: seq<Candidate>)
    ensures |cs| <= |places|
    ensures forall c :: c in cs ==> c.name != "" && |c.photos| <= SearchPhotoLimit
    ensures forall c :: c in cs ==> exists p :: p in places && c == TransformPlace(p, encode)
    ensures levels.Some? && |levels.value| > 0 ==>
      && (forall c :: c in cs ==> c.priceLevel as int in levels.value)
      && (forall p :: p in places && PriceAccepted(p, levels.value) ==> TransformPlace(p, encode) in cs)
    ensures levels.None? || |levels.value| == 0 ==>
      && |cs| == |places|
      && forall k :: 0 <= k < |places| ==> cs[k] == TransformPlace(places[k], encode)
    ensures exists kept :: && IsSubsequence(kept, places) && |kept| == |cs|
                           && forall k :: 0 <= k < |cs| ==> cs[k] == TransformPlace(kept[k], encode)
  {
    var kept := FilterByPrice(places, levels);
    var cs := TransformAll(kept, encode);
    SearchFacts(places, levels, encode, kept, cs);
    cs
  }

  /** One candidate per place, in order. */
  function TransformAll(kept: seq<Place>, encode: string -> string): (cs: seq<Candidate>)
    ensures |cs| == |kept|
    ensures forall k :: 0 <= k < |kept| ==> cs[k] == TransformPlace(kept[k], encode)
  {
    seq(|kept|, k requires 0 <= k < |kept| => TransformPlace(kept[k], encode))
  }

  lemma SearchFacts(places: seq<Place>, levels: Option<seq<int>>, encode: string -> string,
                    kept: seq<Place>, cs: seq<Candidate>)
    requires kept == FilterByPrice(places, levels)
    requires |cs| == |kept| && forall k :: 0 <= k < |kept| ==> cs[k] == TransformPlace(kept[k], encode)
    ensures |cs| <= |places|
    ensures forall c :: c in cs ==> c.name != "" && |c.photos| <= SearchPhotoLimit
    ensures forall c :: c in cs ==> exists p :: p in places && c == TransformPlace(p, encode)
    ensures levels.Some? && |levels.value| > 0 ==>
      && (forall c :: c in cs ==> c.priceLevel as int in levels.value)
      && (forall p :: p in places && PriceAccepted(p, levels.value) ==> TransformPlace(p, encode) in cs)
  {
    SubsequenceLength(kept, places);
    CandidatesFromKept(places, levels, encode, kept, cs);
    if levels.Some? && |levels.value| > 0 {
      AcceptedPlacesShown(places, levels.value, encode, kept, cs);
    }
  }

  lemma CandidatesFromKept(places: seq<Place>, levels: Option<seq<int>>, encode: string -> string,
                           kept: seq<Place>, cs: seq<Candidate>)
    requires kept == FilterByPrice(places, levels)
    requires |cs| == |kept| && forall k :: 0 <= k < |kept| ==> cs[k] == TransformPlace(kept[k], encode)
    ensures forall c :: c in cs ==> c.name != "" && |c.photos| <= SearchPhotoLimit
    ensures forall c :: c in cs ==> exists p :: p in places && c == TransformPlace(p, encode)
    ensures levels.Some? && |levels.value| > 0 ==> forall c :: c in cs ==> c.priceLevel as int in levels.value
  {
    forall c | c in cs
      ensures c.name != "" && |c.photos| <= SearchPhotoLimit
      ensures exists p :: p in places && c == TransformPlace(p, encode)
      ensures levels.Some? && |levels.value| > 0 ==> c.priceLevel as int in levels.value
    {
      var k :| 0 <= k < |cs| && cs[k] == c;
      assert kept[k] in kept;
    }
  }

  lemma AcceptedPlacesShown(places: seq<Place>, levels: seq<int>, encode: string -> string,
                            kept: seq<Place>, cs: seq<Candidate>)
    requires |levels| > 0 && kept == FilterByPrice(places, Some(levels))
    requires |cs| == |kept| && forall k :: 0 <= k < |kept| ==> cs[k] == TransformPlace(kept[k], encode)
    ensures forall p :: p in places && PriceAccepted(p, levels) ==> TransformPlace(p, encode) in cs
  {
    forall p | p in places && PriceAccepted(p, levels)
      ensures TransformPlace(p, encode) in cs
    {
      var k :| 0 <= k < |kept| && kept[k] == p;
      assert cs[k] == TransformPlace(p, encode);
    }
  }

  /** Every candidate the search returns under a non-empty price list has
      one of the listed levels. */
  lemma SearchResultsRespectPriceList(places: seq<Place>, levels: seq<int>, encode: string -> string)
    requires |levels| > 0
    ensures forall c :: c in SearchResults(places, Some(levels), encode) ==> c.priceLevel as int in levels
  {
    var kept := FilterByPrice(places, Some(levels));
    var cs := SearchResults(places, Some(levels), encode);
    forall c | c in cs
      ensures c.priceLevel as int in levels
    {
      var k :| 0 <= k < |cs| && cs[k] == c;
      assert kept[k] in kept;
    }
  }

  lemma {:induction false} SubsequenceLength<T>(ys: seq<T>, xs: seq<T>)
    requires IsSubsequence(ys, xs)
    ensures |ys| <= |xs|
    decreases |xs|
  {
    if ys != [] {
      if ys[0] == xs[0] && IsSubsequence(ys[1..], xs[1..]) {
        SubsequenceLength(ys[1..], xs[1..]);
      } else {
        SubsequenceLength(ys, xs[1..]);
      }
    }
  }

  /** Without a price list the transform is one-to-one and order-preserving. */
  lemma SearchResultsOneToOne(places: seq<Place>, encode: string -> string)
    ensures var cs := SearchResults(places, None, encode);
      && |cs| == |places|
      && forall k :: 0 <= k < |places| ==> cs[k].id == places[k].id && cs[k].name != ""
  {
  }

  /** One review as the details endpoint returns it. */
  datatype PlaceReview = PlaceReview(authorName: Option<string>, rating: Option<real>, text: Option<string>)
  datatype Review = Review(author: string, rating: Option<real>, text: Option<string>)

  /** A place as the details endpoint returns it. */
  datatype PlaceDetails = PlaceDetails(
    id: Option<string>,
    displayName: Option<string>,
    formattedAddress: Option<string>,
    rating: Option<real>,
    userRatingCount: Option<real>,
    priceLevel: Option<string>,
    openingHours: Option<seq<string>>,
    photos: Option<seq<PlacePhoto>>,
    reviews: Option<seq<PlaceReview>>)

  datatype Details = Details(
    id: Option<string>,
    name: Option<string>,
    address: Option<string>,
    rating: real,
    totalRatings: real,
    priceLevel: nat,
    openingHours: seq<string>,
    photos: seq<PhotoRef>,
    reviews: seq<Review>)

  /** The details transform: every photo is kept, the name has no default,
      and an anonymous review author becomes `'Anonymous'`. */
  function TransformDetails(place: PlaceDetails, encode: string -> string): (d: Details)
    ensures d.name == place.displayName
    ensures d.rating == (if TruthyNum(place.rating) then place.rating.value else 0.0)
    ensures d.totalRatings == (if TruthyNum(place.userRatingCount) then place.userRatingCount.value else 0.0)
    ensures d.priceLevel == PriceLevelOf(place.priceLevel)
    ensures |d.photos| == |place.photos.GetOr([])|
    ensures forall k :: 0 <= k < |d.photos| ==> d.photos[k] == PhotoOf(place.photos.value[k], encode)
    ensures d.id == place.id && d.address == place.formattedAddress
    ensures d.openingHours == place.openingHours.GetOr([])
    ensures |d.reviews| == |place.reviews.GetOr([])|
    ensures forall k :: 0 <= k < |d.reviews| ==> d.reviews[k].author != ""
    ensures forall k :: 0 <= k < |d.reviews| ==>
      var rv := place.reviews.value[k];
      && (TruthyStr(rv.authorName) ==> d.reviews[k].author == rv.authorName.value)
      && (!TruthyStr(rv.authorName) ==> d.reviews[k].author == "Anonymous")
      && d.reviews[k].rating == rv.rating && d.reviews[k].text == rv.text
  {
    var photos := match place.photos
      case None => []
      case Some(ps) => seq(|ps|, k requires 0 <= k < |ps| => PhotoOf(ps[k], encode));
    var reviews := match place.reviews
      case None => []
      case Some(rs) =>
        seq(|rs|, k requires 0 <= k < |rs| => Review(StrOr(rs[k].authorName, "Anonymous"), rs[k].rating, rs[k].text));
    Details(place.id, place.displayName, place.formattedAddress, NumOr(place.rating, 0.0),
            NumOr(place.userRatingCount, 0.0), PriceLevelOf(place.priceLevel),
            place.openingHours.GetOr([]), photos, reviews)
  }

  /** The same photos, seen through search and through details: search shows
      the first three of what details shows. */
  lemma SearchPhotosPrefixOfDetails(place: Place, details: PlaceDetails, encode: string -> string)
    requires details.photos == place.photos
    ensures var shown := TransformPlace(place, encode).photos;
      var all := TransformDetails(details, encode).photos;
      |shown| <= SearchPhotoLimit && shown == all[..|shown|]
      && (|all| <= SearchPhotoLimit ==> shown == all)
  {
  }
}
