/** The match-list filter of the matches page
    (frontend/src/pages/MatchesPage.jsx): a minimum rating and a price band. */
module MatchesPage {
  import opened Js
  import opened Seqs
  import opened Swipes
  import opened MatchCalculator

  /** `match.priceLevel || 1`: a missing or zero level counts as level 1.
      The restaurant card shows the same number of `$` signs. */
  function LevelOrOne(level: Option<int>): (l: int)
    ensures level.None? || level.value == 0 ==> l == 1
    ensures level.Some? && level.value != 0 ==> l == level.value
  {
    if level.Some? && level.value != 0 then level.value else 1
  }

  /** `match.rating < minRating`: a missing rating compares as `undefined`,
      which is never less than anything. */
  predicate BelowMinimum(m: Match, minRating: real) {
    m.data.rating.Some? && m.data.rating.value < minRating
  }

  /** The filter callback, in the order it tests. Any price filter other
      than the three bands behaves like `'all'`. */
  predicate KeepMatch(m: Match, minRating: real, priceFilter: string) {
    if BelowMinimum(m, minRating) then false
    else if priceFilter != "all" then
      var level := LevelOrOne(m.data.priceLevel);
      if priceFilter == "$" && level != 1 then false
      else if priceFilter == "$$" && level != 2 then false
      else if priceFilter == "$$$+" && level < 3 then false
      else true
    else true
  }

  /** The callback as a value, for `matches.filter`. */
  function Keeps(minRating: real, priceFilter: string): Match -> bool {
    (m: Match) => KeepMatch(m, minRating, priceFilter)
  }

  /** `filteredMatches`: the kept matches, in their original order. */
  function FilteredMatches(matches: seq<Match>, minRating: real, priceFilter: string): (kept: seq<Match>)
    ensures IsSubsequence(kept, matches)
    ensures forall m :: m in kept <==> m in matches && KeepMatch(m, minRating, priceFilter)
  {
    FilterContents(matches, Keeps(minRating, priceFilter));
    Filter(matches, Keeps(minRating, priceFilter))
  }

  /** The price bands as the page describes them: `'$'` is level 1 only,
      `'$$'` level 2 only, `'$$$+'` levels 3 and up, `'all'` any level; a
      match below the minimum rating is dropped whatever the band. */
  lemma PriceBands(m: Match, minRating: real)
    ensures var level := LevelOrOne(m.data.priceLevel);
      var ok := !BelowMinimum(m, minRating);
      && (KeepMatch(m, minRating, "all") <==> ok)
      && (KeepMatch(m, minRating, "$") <==> ok && level == 1)
      && (KeepMatch(m, minRating, "$$") <==> ok && level == 2)
      && (KeepMatch(m, minRating, "$$$+") <==> ok && level >= 3)
  {
  }

  /** A match whose rating is below the minimum never survives the filter. */
  lemma LowRatedExcluded(matches: seq<Match>, m: Match, minRating: real, priceFilter: string)
    requires m.data.rating.Some? && m.data.rating.value < minRating
    ensures m !in FilteredMatches(matches, minRating, priceFilter)
  {
  }

  /** A match with no rating passes the rating test, so with `'all'` it is kept. */
  lemma UnratedKept(matches: seq<Match>, m: Match, minRating: real)
    requires m in matches && m.data.rating.None?
    ensures m in FilteredMatches(matches, minRating, "all")
  {
  }

  /** Missing and zero price levels are filtered exactly like level 1. */
  lemma MissingLevelIsOne(m: Match, minRating: real, priceFilter: string)
    requires m.data.priceLevel.None? || m.data.priceLevel == Some(0)
    ensures KeepMatch(m, minRating, priceFilter)
        == KeepMatch(m.(data := m.data.(priceLevel := Some(1))), minRating, priceFilter)
  {
  }
}
