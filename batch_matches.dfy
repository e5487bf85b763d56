/** The older batch match endpoint (`find_matches` in backend/main.py): the
    candidates are filtered with the strict copy of the filter (a missing
    price raises), the first 30 survivors are kept and the first 15 of those
    are scored concurrently; units that raise are dropped, and the results
    are sorted by score, highest first.

    As for the streaming service, `order` is the order in which the scoring
    units complete and `outcomes[i]` what the scoring call returned for the
    i-th submitted listing (`None` when it raised); the pool never holds more
    than 15 units, so both range over 15 positions and those beyond the
    number actually submitted are not consulted. */
module BatchMatches {
  import opened Wrappers
  import opened Json
  import opened Seqs
  import opened Sorting
  import opened Text
  import ListingFilter
  import MatchService

  type Listing = Fields

  /** How many filtered candidates are kept, and how many of those are
      scored. */
  const FilterCap: nat := 30
  const ScoreCap: nat := 15

  /** One entry of the returned `matches`. */
  datatype ScoredMatch = ScoredMatch(listing: Listing, score: Json, reasoning: Json)

  /** The listings handed to the pool: `filtered[:30]`, then `[:15]`. */
  function Submitted(filtered: seq<Listing>): seq<Listing> {
    Take(Take(filtered, FilterCap), ScoreCap)
  }

  /** The 30-cap never matters: what is scored is the first 15 filtered
      listings, in filter order. */
  lemma SubmittedIsFirstFifteen(filtered: seq<Listing>)
    ensures Submitted(filtered) == Take(filtered, ScoreCap)
    ensures |Submitted(filtered)| <= ScoreCap
    ensures |filtered| >= ScoreCap ==> |Submitted(filtered)| == ScoreCap
  {
    if |filtered| > FilterCap {
      assert filtered[..FilterCap][..ScoreCap] == filtered[..ScoreCap];
    }
  }

  function Below(n: nat): nat -> bool {
    (i: nat) => i < n
  }

  /** `sub` is the completion order of the submitted units. */
  lemma CompletionOrder(order: seq<nat>, m: nat)
    requires IsIndexPermutation(order, ScoreCap) && m <= ScoreCap
    ensures IsIndexPermutation(Keep(order, Below(m)), m)
  {
    var sub := Keep(order, Below(m));
    KeepDistinct(order, Below(m));
    forall i | 0 <= i < m ensures i in sub {
      assert i in order;
      var k :| 0 <= k < |order| && order[k] == i;
      assert Below(m)(order[k]);
    }
  }

  function Unindexed(ms: seq<MatchService.Match>): (r: seq<ScoredMatch>)
    ensures |r| == |ms|
    ensures forall k :: 0 <= k < |ms| ==> r[k] == ScoredMatch(ms[k].listing, ms[k].score, ms[k].reasoning)
  {
    seq(|ms|, k requires 0 <= k < |ms| => ScoredMatch(ms[k].listing, ms[k].score, ms[k].reasoning))
  }

  lemma UnindexedSnoc(ms: seq<MatchService.Match>, m: MatchService.Match)
    ensures Unindexed(ms + [m]) == Unindexed(ms) + [ScoredMatch(m.listing, m.score, m.reasoning)]
  {
  }

  /** The results appended to `scored`, in completion order. A unit is the
      same as the service's `score_one` without the index: it raises on a
      missing "summary", on a failing scoring call and on a result without
      "overall_score". */
  function Collected(toScore: seq<Listing>, order: seq<nat>, outcomes: seq<Option<Json>>): seq<ScoredMatch>
    requires |toScore| <= ScoreCap && |outcomes| == ScoreCap
    requires IsIndexPermutation(order, ScoreCap)
  {
    var sub := Keep(order, Below(|toScore|));
    Unindexed(MatchService.Completed(toScore, outcomes[..|toScore|], sub))
  }

  /** The sort key of numeric scores: they compare as integers (`True` as
      1). */
  function RankKey(m: ScoredMatch): int {
    match ListingFilter.AsInt(m.score)
    case Some(n) => n
    case None => 0
  }

  predicate NumericScores(scored: seq<ScoredMatch>) {
    forall k :: 0 <= k < |scored| ==> ListingFilter.AsInt(scored[k].score).Some?
  }

  predicate TextScores(scored: seq<ScoredMatch>) {
    forall k :: 0 <= k < |scored| ==> scored[k].score.Str?
  }

  /** Sorting compares scores only when there are at least two results;
      numbers (booleans among them) compare with each other and strings
      with each other, and any other pair, or a list, dict or `None`,
      raises. A sort of a mixed list compares some neighbouring pair of
      different kinds, since the result would otherwise have no order. */
  predicate Comparable(scored: seq<ScoredMatch>) {
    |scored| < 2 || NumericScores(scored) || TextScores(scored)
  }

  function ScoreText(m: ScoredMatch): string {
    if m.score.Str? then m.score.s else ""
  }

  function TextBelow(s: string): ScoredMatch -> bool {
    (m: ScoredMatch) => Less(ScoreText(m), s)
  }

  /** For string scores the sort runs on the number of collected results
      whose score sorts strictly below each one's: that count orders the
      results exactly as Python orders their scores (`TextRankOrders`). */
  function TextRank(scored: seq<ScoredMatch>): ScoredMatch -> int {
    (m: ScoredMatch) => |Keep(scored, TextBelow(ScoreText(m)))|
  }

  function SortKey(scored: seq<ScoredMatch>): ScoredMatch -> int {
    if NumericScores(scored) then RankKey else TextRank(scored)
  }

  /** What `find_matches` returns as "matches", `None` when it raises. */
  function Ranking(candidates: seq<Listing>, ideal: Fields, order: seq<nat>, outcomes: seq<Option<Json>>)
    : Option<seq<ScoredMatch>>
    requires |outcomes| == ScoreCap && IsIndexPermutation(order, ScoreCap)
  {
    match ListingFilter.Filter(candidates, ideal, ListingFilter.Strict)
    case None => None
    case Some(filtered) =>
      var scored := Collected(Submitted(filtered), order, outcomes);
      if Comparable(scored) then Some(SortDesc(scored, SortKey(scored))) else None
  }

  /** `find_matches` from the candidate search on: filter, cap, score in
      the pool (appending each result as it completes), sort. */
  method FindMatches(candidates: seq<Listing>, ideal: Fields, order: seq<nat>, outcomes: seq<Option<Json>>)
    returns (matches: Option<seq<ScoredMatch>>)
    requires |outcomes| == ScoreCap && IsIndexPermutation(order, ScoreCap)
    ensures matches == Ranking(candidates, ideal, order, outcomes)
  {
    var filtered := ListingFilter.Filter(candidates, ideal, ListingFilter.Strict);
    if filtered.None? {
      return None;
    }
    var toScore := Submitted(filtered.value);
    SubmittedIsFirstFifteen(filtered.value);
    var sub := Keep(order, Below(|toScore|));
    var scored := ScoreInPool(toScore, sub, outcomes[..|toScore|]);
    assert scored == Collected(toScore, order, outcomes);
    if !Comparable(scored) {
      return None;
    }
    matches := Some(SortDesc(scored, SortKey(scored)));
  }

  /** The pool's loop: each completed unit's result, if any, is appended to
      `scored`. */
  method ScoreInPool(toScore: seq<Listing>, sub: seq<nat>, outcomes: seq<Option<Json>>)
    returns (scored: seq<ScoredMatch>)
    requires |outcomes| == |toScore|
    requires forall k :: 0 <= k < |sub| ==> sub[k] < |toScore|
    ensures scored == Unindexed(MatchService.Completed(toScore, outcomes, sub))
  {
    scored := [];
    for j := 0 to |sub|
      invariant scored == Unindexed(MatchService.Completed(toScore, outcomes, sub[..j]))
    {
      var i := sub[j];
      var result := MatchService.ScoreOne(toScore[i], i, outcomes[i]);
      MatchService.CompletedStep(toScore, outcomes, sub, j);
      if result.Some? {
        var m := result.value;
        UnindexedSnoc(MatchService.Completed(toScore, outcomes, sub[..j]), m);
        scored := scored + [ScoredMatch(m.listing, m.score, m.reasoning)];
      }
    }
    assert sub[..|sub|] == sub;
  }

  // ---------------------------------------------------------------------
  // Properties of the returned matches
  // ---------------------------------------------------------------------

  /** Where one string score sorts below another, its rank is lower. */
  lemma TextRankOrders(scored: seq<ScoredMatch>, x: ScoredMatch, y: ScoredMatch)
    requires x in scored
    ensures Less(ScoreText(x), ScoreText(y)) ==> TextRank(scored)(x) < TextRank(scored)(y)
  {
    if Less(ScoreText(x), ScoreText(y)) {
      forall z | TextBelow(ScoreText(x))(z) ensures TextBelow(ScoreText(y))(z) {
        LessTransitive(ScoreText(z), ScoreText(x), ScoreText(y));
      }
      LessIrreflexive(ScoreText(x));
      KeepCountGrows(scored, TextBelow(ScoreText(x)), TextBelow(ScoreText(y)), x);
    }
  }

  /** Two collected results share a rank exactly when their scores read the
      same. */
  lemma TextRankSeparates(scored: seq<ScoredMatch>, x: ScoredMatch, y: ScoredMatch)
    requires x in scored && y in scored
    ensures TextRank(scored)(x) == TextRank(scored)(y) <==> ScoreText(x) == ScoreText(y)
  {
    if ScoreText(x) != ScoreText(y) {
      LessTotal(ScoreText(x), ScoreText(y));
      TextRankOrders(scored, x, y);
      TextRankOrders(scored, y, x);
    }
  }

  function ScoreIs(j: Json): ScoredMatch -> bool {
    (m: ScoredMatch) => m.score == j
  }

  /** Among collected results, having the score of `x` is having the rank
      of `x`. */
  lemma SameRankIsSameScore(scored: seq<ScoredMatch>, t: seq<ScoredMatch>, x: ScoredMatch)
    requires TextScores(scored) && x in scored
    requires forall i :: 0 <= i < |t| ==> t[i] in scored
    ensures forall i :: 0 <= i < |t| ==>
              ScoreIs(x.score)(t[i]) == KeyIs(TextRank(scored), TextRank(scored)(x))(t[i])
  {
    forall i | 0 <= i < |t|
      ensures ScoreIs(x.score)(t[i]) == KeyIs(TextRank(scored), TextRank(scored)(x))(t[i])
    {
      TextRankSeparates(scored, t[i], x);
    }
  }

  lemma SortedElementsCollected(scored: seq<ScoredMatch>, key: ScoredMatch -> int)
    ensures forall i :: 0 <= i < |SortDesc(scored, key)| ==> SortDesc(scored, key)[i] in scored
  {
    var r := SortDesc(scored, key);
    SortDescPermutes(scored, key);
    forall i | 0 <= i < |r| ensures r[i] in scored {
      assert r[i] in multiset(r);
    }
  }

  /** Sorting string scores by rank keeps the results with any one score in
      their completion order. */
  lemma TextSortStableAt(scored: seq<ScoredMatch>, j: Json)
    requires TextScores(scored)
    ensures Keep(SortDesc(scored, TextRank(scored)), ScoreIs(j)) == Keep(scored, ScoreIs(j))
  {
    var key := TextRank(scored);
    var r := SortDesc(scored, key);
    SortedElementsCollected(scored, key);
    if x :| x in scored && x.score == j {
      SameRankIsSameScore(scored, scored, x);
      SameRankIsSameScore(scored, r, x);
      KeepCongruent(scored, ScoreIs(j), KeyIs(key, key(x)));
      KeepCongruent(r, ScoreIs(j), KeyIs(key, key(x)));
      SortDescStable(scored, key, key(x));
    } else {
      KeepNone(r, ScoreIs(j));
      KeepNone(scored, ScoreIs(j));
    }
  }

  /** String scores: the sort puts them in Python's descending string
      order, loses and adds nothing, and keeps equal scores in completion
      order. */
  lemma TextSortIsStable(scored: seq<ScoredMatch>)
    requires TextScores(scored)
    ensures var r := SortDesc(scored, TextRank(scored));
            multiset(r) == multiset(scored)
            && (forall i, j :: 0 <= i < j < |r| ==> !Less(ScoreText(r[i]), ScoreText(r[j])))
            && forall j :: Keep(r, ScoreIs(j)) == Keep(scored, ScoreIs(j))
  {
    var key := TextRank(scored);
    var r := SortDesc(scored, key);
    SortDescPermutes(scored, key);
    SortDescSorted(scored, key);
    forall i, j | 0 <= i < j < |r| ensures !Less(ScoreText(r[i]), ScoreText(r[j])) {
      assert r[i] in multiset(r);
      TextRankOrders(scored, r[i], r[j]);
    }
    forall j ensures Keep(r, ScoreIs(j)) == Keep(scored, ScoreIs(j)) {
      TextSortStableAt(scored, j);
    }
  }

  /** Numeric scores: highest first, nothing lost or added, equal scores in
      completion order. */
  lemma NumericSortIsStable(scored: seq<ScoredMatch>)
    ensures var r := SortDesc(scored, RankKey);
            SortedDesc(r, RankKey) && multiset(r) == multiset(scored)
            && forall k :: WithKey(r, RankKey, k) == WithKey(scored, RankKey, k)
  {
    SortDescSorted(scored, RankKey);
    SortDescPermutes(scored, RankKey);
    forall k ensures WithKey(SortDesc(scored, RankKey), RankKey, k) == WithKey(scored, RankKey, k) {
      SortDescStable(scored, RankKey, k);
    }
  }

  /** Only an empty list has scores that are both numbers and strings. */
  lemma NoScoreIsBoth(scored: seq<ScoredMatch>)
    ensures NumericScores(scored) && TextScores(scored) ==> scored == []
  {
    if scored != [] {
      assert ListingFilter.AsInt(scored[0].score).Some? ==> !scored[0].score.Str?;
    }
  }

  /** The matches are the collected results reordered by score, highest
      first, results with equal scores staying in completion order: by
      value for numbers, in code-point order for strings. They exist
      exactly when the scores can be compared. */
  lemma RankingIsStableSort(candidates: seq<Listing>, ideal: Fields, order: seq<nat>, outcomes: seq<Option<Json>>)
    requires |outcomes| == ScoreCap && IsIndexPermutation(order, ScoreCap)
    requires ListingFilter.Filter(candidates, ideal, ListingFilter.Strict).Some?
    ensures var scored := Collected(Submitted(ListingFilter.Filter(candidates, ideal, ListingFilter.Strict).value), order, outcomes);
            var ranking := Ranking(candidates, ideal, order, outcomes);
            (ranking.Some? <==> Comparable(scored))
            && (ranking.Some? ==> multiset(ranking.value) == multiset(scored))
            && (NumericScores(scored) ==>
                  SortedDesc(ranking.value, RankKey)
                  && forall k :: WithKey(ranking.value, RankKey, k) == WithKey(scored, RankKey, k))
            && (TextScores(scored) ==>
                  (forall i, j :: 0 <= i < j < |ranking.value| ==> !Less(ScoreText(ranking.value[i]), ScoreText(ranking.value[j])))
                  && forall j :: Keep(ranking.value, ScoreIs(j)) == Keep(scored, ScoreIs(j)))
  {
    var scored := Collected(Submitted(ListingFilter.Filter(candidates, ideal, ListingFilter.Strict).value), order, outcomes);
    if NumericScores(scored) {
      NumericSortIsStable(scored);
      NoScoreIsBoth(scored);
    } else if TextScores(scored) {
      TextSortIsStable(scored);
    } else {
      SortDescPermutes(scored, SortKey(scored));
    }
  }

  /** At most 15 matches; exactly one per submitted listing whose unit
      succeeds. Each carries its scoring result as "reasoning" and that
      result's "overall_score" as "score", and its listing is one of the
      first 15 filtered listings. */
  lemma CollectedAreSuccesses(toScore: seq<Listing>, order: seq<nat>, outcomes: seq<Option<Json>>)
    requires |toScore| <= ScoreCap && |outcomes| == ScoreCap
    requires IsIndexPermutation(order, ScoreCap)
    ensures |Collected(toScore, order, outcomes)| == |MatchService.Successful(toScore, outcomes[..|toScore|])|
    ensures |Collected(toScore, order, outcomes)| <= |toScore|
    ensures forall k :: 0 <= k < |Collected(toScore, order, outcomes)| ==>
              var m := Collected(toScore, order, outcomes)[k];
              m.listing in toScore && m.reasoning.Obj?
              && m.score == Get(m.reasoning.fields, "overall_score")
  {
    var outs := outcomes[..|toScore|];
    var sub := Keep(order, Below(|toScore|));
    CompletionOrder(order, |toScore|);
    MatchService.CountIsSuccesses(toScore, outs, sub);
    MatchService.CompletedAreFaithful(toScore, outs, sub);
    IndexSetBound(MatchService.Successful(toScore, outs), |toScore|);
  }
}
