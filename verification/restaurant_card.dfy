/** The restaurant card's image choice and price tag
    (frontend/src/components/RestaurantCard.jsx). */
module RestaurantCard {
  import opened Js
  import opened Places
  import MatchesPage

  /** The ten curated fallback images. */
  const UnsplashImages: seq<string> := [
    "https://images.unsplash.com/photo-1540189549336-e6e99c3679fe?auto=format&fit=crop&w=800&q=80",
    "https://images.unsplash.com/photo-1568901346375-23c9450c58cd?auto=format&fit=crop&w=800&q=80",
    "https://images.unsplash.com/photo-1565299624946-b28f40a0ae38?auto=format&fit=crop&w=800&q=80",
    "https://images.unsplash.com/photo-1567620905732-2d1ec7ab7445?auto=format&fit=crop&w=800&q=80",
    "https://images.unsplash.com/photo-1544025162-d76690b60944?auto=format&fit=crop&w=800&q=80",
    "https://images.unsplash.com/photo-1555939594-58d7cb561ad1?auto=format&fit=crop&w=800&q=80",
    "https://images.unsplash.com/photo-1565958011703-44f9829ba187?auto=format&fit=crop&w=800&q=80",
    "https://images.unsplash.com/photo-1482049016688-2d3e1b311543?auto=format&fit=crop&w=800&q=80",
    "https://images.unsplash.com/photo-1484723091739-30a097e8f929?auto=format&fit=crop&w=800&q=80",
    "https://images.unsplash.com/photo-1512621776951-a57141f2eefd?auto=format&fit=crop&w=800&q=80"
  ]

  const TwoTo31: int := 0x8000_0000
  const TwoTo32: int := 0x1_0000_0000

  /** A UTF-16 code unit, the value `charCodeAt` returns. */
  type CodeUnit = u: int | 0 <= u < 0x1_0000

  /** The UTF-16 encoding of a string: a character outside the basic plane
      becomes a surrogate pair, so `id.length` counts code units. */
  function Utf16(s: string): (units: seq<CodeUnit>)
    ensures |units| >= |s|
    ensures (forall i :: 0 <= i < |s| ==> (s[i] as int) < 0x1_0000) ==> |units| == |s|
  {
    if s == [] then []
    else
      var c := s[0] as int;
      var head: seq<CodeUnit> :=
        if c < 0x1_0000 then [c]
        else [0xD800 + (c - 0x1_0000) / 0x400, 0xDC00 + (c - 0x1_0000) % 0x400];
      head + Utf16(s[1..])
  }

  /** ECMAScript ToInt32: the integer wrapped into [-2^31, 2^31). */
  function ToInt32(x: int): (r: int)
    ensures -TwoTo31 <= r < TwoTo31
    ensures (r - x) % TwoTo32 == 0
  {
    (x + TwoTo31) % TwoTo32 - TwoTo31
  }

  /** One loop step `hash = code + ((hash << 5) - hash)`: the shift works on
      the 32-bit value, the addition and subtraction on the full number. */
  function HashStep(hash: int, code: CodeUnit): int {
    code + (ToInt32(ToInt32(hash) * 32) - hash)
  }

  /** The hash of a prefix of code units, folded left to right. */
  function HashOf(units: seq<CodeUnit>): int {
    if units == [] then 0 else HashStep(HashOf(units[..|units| - 1]), units[|units| - 1])
  }

  /** Each step adds at most 2^31 + 65535 in size, so the hash of fewer than
      about four million code units stays below 2^53, where JavaScript's
      double arithmetic is exact and agrees with this one. */
  lemma {:induction false} HashBound(units: seq<CodeUnit>)
    ensures -(|units| * (TwoTo31 + 0xFFFF)) <= HashOf(units) <= |units| * (TwoTo31 + 0xFFFF)
  {
    if units != [] {
      HashBound(units[..|units| - 1]);
    }
  }

  /** The loop of `getRandomImage` over the id's code units. */
  method StringHash(id: string) returns (hash: int)
    ensures hash == HashOf(Utf16(id))
  {
    var units := Utf16(id);
    hash := 0;
    var i := 0;
    while i < |units|
      invariant 0 <= i <= |units|
      invariant hash == HashOf(units[..i])
    {
      assert units[..i + 1][..i] == units[..i];
      hash := HashStep(hash, units[i]);
      i := i + 1;
    }
    assert units[..|units|] == units;
  }

  /** `Math.abs(hash) % UNSPLASH_IMAGES.length`. */
  function ImageIndex(hash: int): (i: nat)
    ensures i < |UnsplashImages|
    ensures (if hash < 0 then -hash else hash) % 10 == i
  {
    (if hash < 0 then -hash else hash) % |UnsplashImages|
  }

  /** `getRandomImage(id)`: the first image for a falsy id, otherwise the one
      the id's hash picks. */
  method GetRandomImage(id: Option<string>) returns (url: string)
    ensures url in UnsplashImages
    ensures !TruthyStr(id) ==> url == UnsplashImages[0]
    ensures TruthyStr(id) ==> url == UnsplashImages[ImageIndex(HashOf(Utf16(id.value)))]
  {
    if !TruthyStr(id) {
      return UnsplashImages[0];
    }
    var hash := StringHash(id.value);
    url := UnsplashImages[ImageIndex(hash)];
  }

  /** The card's image: the first photo's url if the restaurant has one and
      it is non-empty, otherwise the hashed fallback. */
  method CardImage(photos: Option<seq<PhotoRef>>, id: Option<string>) returns (url: string)
    ensures photos.Some? && |photos.value| > 0 && photos.value[0].url != "" ==> url == photos.value[0].url
    ensures !(photos.Some? && |photos.value| > 0 && photos.value[0].url != "") ==>
      url == (if TruthyStr(id) then UnsplashImages[ImageIndex(HashOf(Utf16(id.value)))] else UnsplashImages[0])
  {
    if photos.Some? && |photos.value| > 0 && photos.value[0].url != "" {
      url := photos.value[0].url;
    } else {
      url := GetRandomImage(id);
    }
  }

  /** `Array(restaurant.priceLevel || 1).fill('$').join('')`; a negative
      count, or one of 2^32 or more, is an invalid array length and a
      RangeError, here `None`. */
  function PriceTag(level: Option<int>): (tag: Option<string>)
    ensures tag.Some? <==> 0 <= MatchesPage.LevelOrOne(level) < TwoTo32
    ensures tag.Some? ==> |tag.value| == MatchesPage.LevelOrOne(level)
    ensures tag.Some? ==> forall i :: 0 <= i < |tag.value| ==> tag.value[i] == '$'
  {
    var n := MatchesPage.LevelOrOne(level);
    if n < 0 || n >= TwoTo32 then None else Some(seq(n, _ => '$'))
  }

  /** For a transformed search result the tag always shows one to four
      signs; an unpriced or free place shows one. */
  lemma CandidateTagLength(place: Place, encode: string -> string)
    ensures var c := TransformPlace(place, encode);
      && PriceTag(Some(c.priceLevel as int)).Some?
      && 1 <= |PriceTag(Some(c.priceLevel as int)).value| <= 4
      && (c.priceLevel == 0 ==> |PriceTag(Some(c.priceLevel as int)).value| == 1)
  {
  }

  /** Two worked values of the hash: "a" is 97, so image 7; "ab" is
      98 + (97 * 32 - 97) = 3105, so image 5. */
  lemma HashExamples()
    ensures HashOf(Utf16("a")) == 97 && ImageIndex(97) == 7
    ensures HashOf(Utf16("ab")) == 3105 && ImageIndex(3105) == 5
  {
    var ab: seq<CodeUnit> := [97, 98];
    assert Utf16("ab") == ab;
    assert ab[..1][..0] == [];
  }
}
