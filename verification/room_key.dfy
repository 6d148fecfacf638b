/** Room join codes (backend/utils/roomKeyGenerator.js): the generator's
    output space and the format check used by the join endpoint. */
module RoomKey {
  import opened Js

  /** The generator's character set. */
  const Alphabet: string := "ABCDEFGHIJKLMNOPQRSTUVWXYZ"

  /** Number of characters in a generated key. */
  const KeyLength: nat := 4

  /** One draw of `Math.floor(Math.random() * chars.length)`: an index into
      the alphabet. The random source itself is not modelled; a key is
      determined by the four draws it consumed. */
  type AlphabetIndex = i: int | 0 <= i < 26

  predicate IsKeyLetter(c: char) {
    'A' <= c <= 'Z'
  }

  /** The shape of every key the generator can return: four letters A-Z. */
  predicate IsKeyShape(k: string) {
    |k| == KeyLength && forall i :: 0 <= i < |k| ==> IsKeyLetter(k[i])
  }

  lemma AlphabetLetters()
    ensures |Alphabet| == 26
    ensures forall i :: 0 <= i < 26 ==> Alphabet[i] == (65 + i) as char
  {
  }

  /** `generateRoomKey`: one alphabet character per draw, four draws. */
  function GenerateRoomKey(draws: seq<AlphabetIndex>): (key: string)
    requires |draws| == KeyLength
    ensures IsKeyShape(key)
    ensures forall i :: 0 <= i < KeyLength ==> key[i] == Alphabet[draws[i]]
  {
    AlphabetLetters();
    seq(KeyLength, i requires 0 <= i < KeyLength => Alphabet[draws[i]])
  }

  /** The draws that make the generator produce a given key. */
  function DrawsFor(k: string): (draws: seq<AlphabetIndex>)
    requires IsKeyShape(k)
    ensures |draws| == KeyLength
  {
    seq(KeyLength, i requires 0 <= i < KeyLength => (k[i] as int - 65) as AlphabetIndex)
  }

  /** Every four-letter A-Z string is a possible output of the generator,
      so `IsKeyShape` is exactly the generator's range. */
  lemma EveryKeyShapeIsGenerated(k: string)
    requires IsKeyShape(k)
    ensures GenerateRoomKey(DrawsFor(k)) == k
  {
    AlphabetLetters();
    var g := GenerateRoomKey(DrawsFor(k));
    forall i | 0 <= i < KeyLength
      ensures g[i] == k[i]
    {
      assert g[i] == Alphabet[(k[i] as int - 65)];
    }
  }

  /** `String.prototype.toUpperCase` on one character, as far as the key
      check can tell: ASCII lower case maps to A-Z, and so do the dotless i,
      the long s, the sharp s (to "SS") and the Latin ligatures ff, fi, fl,
      ffi, ffl, long-s t and st (to two or three letters). Every other
      character is kept as it is; its real upper case never lies in A-Z,
      so the check's verdict is the same. */
  function UpperChar(c: char): string {
    if 'a' <= c <= 'z' then [(c as int - 32) as char]
    else if c == '\U{0131}' then "I"
    else if c == '\U{017F}' then "S"
    else if c == '\U{00DF}' then "SS"
    else if c == '\U{FB00}' then "FF"
    else if c == '\U{FB01}' then "FI"
    else if c == '\U{FB02}' then "FL"
    else if c == '\U{FB03}' then "FFI"
    else if c == '\U{FB04}' then "FFL"
    else if c == '\U{FB05}' then "ST"
    else if c == '\U{FB06}' then "ST"
    else [c]
  }

  /** `key.toUpperCase()`, character by character. */
  function ToUpperCase(s: string): string {
    if s == [] then [] else UpperChar(s[0]) + ToUpperCase(s[1..])
  }

  lemma {:induction false} UpperCaseNoShorter(s: string)
    ensures |ToUpperCase(s)| >= |s|
  {
    if s != [] {
      UpperCaseNoShorter(s[1..]);
    }
  }

  /** `isValidRoomKey`: a non-empty string whose upper-case form is exactly
      four letters A-Z. Anything that is not a string is rejected. */
  predicate IsValidRoomKey(key: Value): (valid: bool)
    ensures valid ==> key.Str? && 0 < |key.s| <= KeyLength
  {
    match key
    case Str(s) => UpperCaseNoShorter(s); s != "" && IsKeyShape(ToUpperCase(s))
    case _ => false
  }

  predicate IsAscii(s: string) {
    forall i :: 0 <= i < |s| ==> s[i] as int < 128
  }

  predicate IsAsciiLetter(c: char) {
    'A' <= c <= 'Z' || 'a' <= c <= 'z'
  }

  lemma {:induction false} AsciiUpperCase(s: string)
    requires IsAscii(s)
    ensures |ToUpperCase(s)| == |s|
    ensures forall i :: 0 <= i < |s| ==> (IsKeyLetter(ToUpperCase(s)[i]) <==> IsAsciiLetter(s[i]))
  {
    if s != [] {
      AsciiUpperCase(s[1..]);
      var u := ToUpperCase(s);
      assert u == UpperChar(s[0]) + ToUpperCase(s[1..]);
      forall i | 0 <= i < |s|
        ensures IsKeyLetter(u[i]) <==> IsAsciiLetter(s[i])
      {
        if i > 0 {
          assert u[i] == ToUpperCase(s[1..])[i - 1];
          assert s[i] == s[1..][i - 1];
        }
      }
    }
  }

  /** For ASCII input the check accepts exactly the four-letter keys, in
      either case. */
  lemma AsciiKeyValidity(s: string)
    requires IsAscii(s)
    ensures IsValidRoomKey(Str(s)) <==> |s| == KeyLength && forall i :: 0 <= i < |s| ==> IsAsciiLetter(s[i])
  {
    AsciiUpperCase(s);
  }

  /** Round trip: every key the generator can produce passes the format check. */
  lemma GeneratedKeyIsValid(draws: seq<AlphabetIndex>)
    requires |draws| == KeyLength
    ensures IsValidRoomKey(Str(GenerateRoomKey(draws)))
  {
    var k := GenerateRoomKey(draws);
    assert IsAscii(k);
    AsciiKeyValidity(k);
  }

  /** Lower-case keys pass the check although the generator never makes them. */
  lemma LowercaseKeyIsValid()
    ensures IsValidRoomKey(Str("abcd"))
    ensures !IsKeyShape("abcd")
  {
    AsciiKeyValidity("abcd");
  }

  /** Because upper-casing can lengthen a string, keys shorter than four
      characters can pass the check: the sharp s counts as two letters. */
  lemma ShortKeysCanBeValid()
    ensures IsValidRoomKey(Str("\U{00DF}AB"))
    ensures IsValidRoomKey(Str("\U{FB03}A"))
  {
    assert ToUpperCase("\U{00DF}AB") == "SSAB";
    assert ToUpperCase("\U{FB03}A") == "FFIA";
  }

  /** Absent, null, empty, numeric and over-long keys are rejected. */
  lemma InvalidKeys()
    ensures !IsValidRoomKey(Undefined) && !IsValidRoomKey(Null)
    ensures !IsValidRoomKey(Str("")) && !IsValidRoomKey(Num(1234.0))
    ensures !IsValidRoomKey(Str("ABCDE"))
  {
  }
}
