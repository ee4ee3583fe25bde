/** Recall, precision, reciprocal rank and discounted cumulative gain of one ranked retrieval. */
module RetrievalMetrics {
  import opened Wrappers
  import opened Text
  import opened Sorting

  /** The four figures as fractions. */
  datatype Scores = Scores(precision: real, recall: real, reciprocalRank: real, ndcg: real)

  /** The weight of each rank, counted from 1; the source's is one over the binary logarithm of the rank plus one. */
  type Discount = nat -> real

  ghost predicate Positive(discount: Discount) { forall r :: r >= 1 ==> discount(r) > 0.0 }

  ghost predicate Decreasing(discount: Discount) { forall a, b :: 1 <= a < b ==> discount(b) < discount(a) }

  /** The names that are not blank, normalised. */
  function Names(items: seq<string>, norm: string -> string): (names: seq<string>)
    ensures |names| <= |items|
  {
    if items == [] then []
    else
      var last := items[|items| - 1];
      Names(items[..|items| - 1], norm) + if Strip(last) != [] then [norm(last)] else []
  }

  function Expected(items: seq<string>, norm: string -> string): set<string> { set n | n in Names(items, norm) }

  /** The source's slice up to `k`, which counts from the end when negative. */
  function UpTo<T>(items: seq<T>, k: int): (some: seq<T>)
    ensures k >= 0 ==> |some| <= k
  {
    if k >= |items| then items else if k >= 0 then items[..k] else if |items| + k >= 0 then items[..|items| + k] else []
  }

  function Cutoff(retrieved: seq<string>, k: Option<int>): int {
    if k.Some? && k.value != 0 then k.value else |retrieved|
  }

  function Ranked(retrieved: seq<string>, k: Option<int>, norm: string -> string): seq<string> {
    Names(UpTo(retrieved, Cutoff(retrieved, k)), norm)
  }

  function Matched(ranked: seq<string>, expected: set<string>): (matched: seq<string>)
    ensures |matched| <= |ranked|
  {
    if ranked == [] then []
    else
      var last := ranked[|ranked| - 1];
      Matched(ranked[..|ranked| - 1], expected) + if last in expected then [last] else []
  }

  function Gain(ranked: seq<string>, expected: set<string>, discount: Discount): real {
    if ranked == [] then 0.0
    else
      var n := |ranked|;
      Gain(ranked[..n - 1], expected, discount) + if ranked[n - 1] in expected then discount(n) else 0.0
  }

  /** The gain of hits at the first `n` ranks. */
  function Ideal(n: nat, discount: Discount): real { if n == 0 then 0.0 else Ideal(n - 1, discount) + discount(n) }

  /** The rank of the first hit, 0 when there is none. */
  function FirstHit(ranked: seq<string>, expected: set<string>): (rank: nat)
    ensures rank <= |ranked|
    ensures rank == 0 <==> forall i :: 0 <= i < |ranked| ==> ranked[i] !in expected
    ensures rank > 0 ==> ranked[rank - 1] in expected && forall i :: 0 <= i < rank - 1 ==> ranked[i] !in expected
  {
    if ranked == [] then 0
    else
      var n := |ranked|;
      var earlier := FirstHit(ranked[..n - 1], expected);
      if earlier > 0 then earlier else if ranked[n - 1] in expected then n else 0
  }

  /** What the reciprocal rank is, with no hit counting as zero. */
  function Reciprocal(rank: nat): real { if rank > 0 then 1.0 / rank as real else 0.0 }

  function Ratio(a: real, b: real): real { if b == 0.0 then 0.0 else a / b }

  function IdealHits(expected: set<string>, cutoff: int): nat {
    if cutoff < 0 then 0 else if |expected| < cutoff then |expected| else cutoff
  }

  /** The figures in terms of the sums; nothing expected counts as perfect. */
  function ScoresOf(retrieved: seq<string>, expectedIds: seq<string>, k: Option<int>, norm: string -> string, discount: Discount): Scores {
    var expected := Expected(expectedIds, norm);
    if expected == {} then Scores(1.0, 1.0, 1.0, 1.0)
    else
      var ranked := Ranked(retrieved, k, norm);
      var matched := Matched(ranked, expected);
      var first := FirstHit(ranked, expected);
      Scores(Ratio(|matched| as real, |ranked| as real),
             Ratio(|set x | x in matched| as real, |expected| as real),
             Reciprocal(first),
             Ratio(Gain(ranked, expected, discount), Ideal(IdealHits(expected, Cutoff(retrieved, k)), discount)))
  }

  method KnownNames(items: seq<string>, norm: string -> string) returns (names: seq<string>)
    ensures names == Names(items, norm)
  {
    names := [];
    for i := 0 to |items|
      invariant names == Names(items[..i], norm)
    {
      assert items[..i + 1][..i] == items[..i];
      if Strip(items[i]) != [] {
        names := names + [norm(items[i])];
      }
    }
    assert items[..|items|] == items;
  }

  method KeepExpected(ranked: seq<string>, expected: set<string>) returns (matched: seq<string>)
    ensures matched == Matched(ranked, expected)
  {
    matched := [];
    for i := 0 to |ranked|
      invariant matched == Matched(ranked[..i], expected)
    {
      assert ranked[..i + 1][..i] == ranked[..i];
      if ranked[i] in expected {
        matched := matched + [ranked[i]];
      }
    }
    assert ranked[..|ranked|] == ranked;
  }

  /** The loop over the ranking. */
  method Accumulate(ranked: seq<string>, expected: set<string>, discount: Discount) returns (reciprocalRank: real, gain: real)
    ensures gain == Gain(ranked, expected, discount)
    ensures reciprocalRank == var first := FirstHit(ranked, expected); Reciprocal(first)
  {
    reciprocalRank, gain := 0.0, 0.0;
    for i := 0 to |ranked|
      invariant gain == Gain(ranked[..i], expected, discount)
      invariant reciprocalRank == var first := FirstHit(ranked[..i], expected); Reciprocal(first)
    {
      assert ranked[..i + 1][..i] == ranked[..i];
      if ranked[i] in expected {
        if reciprocalRank == 0.0 {
          reciprocalRank := 1.0 / (i + 1) as real;
        }
        gain := gain + discount(i + 1);
      }
    }
    assert ranked[..|ranked|] == ranked;
  }

  method SumIdeal(hits: nat, discount: Discount) returns (ideal: real)
    ensures ideal == Ideal(hits, discount)
  {
    ideal := 0.0;
    for rank := 0 to hits
      invariant ideal == Ideal(rank, discount)
    {
      ideal := ideal + discount(rank + 1);
    }
  }

  method RankedRetrievalMetrics(retrieved: seq<string>, expectedIds: seq<string>, k: Option<int>, norm: string -> string, discount: Discount)
    returns (scores: Scores)
    ensures scores == ScoresOf(retrieved, expectedIds, k, norm, discount)
  {
    var names := KnownNames(expectedIds, norm);
    var expected := set n | n in names;
    if expected == {} {
      return Scores(1.0, 1.0, 1.0, 1.0);
    }
    var cutoff := if k.Some? && k.value != 0 then k.value else |retrieved|;
    var end := if cutoff < 0 then |retrieved| + cutoff else cutoff;
    var ranked := KnownNames(if end >= |retrieved| then retrieved else if end > 0 then retrieved[..end] else [], norm);
    var matched := KeepExpected(ranked, expected);
    var precision, recall := Ratio(|matched| as real, |ranked| as real), Ratio(|set x | x in matched| as real, |expected| as real);
    var reciprocalRank, gain := Accumulate(ranked, expected, discount);
    var idealHits := if |expected| < cutoff then |expected| else cutoff;
    var ideal := SumIdeal(if idealHits < 0 then 0 else idealHits, discount);
    scores := Scores(precision, recall, reciprocalRank, Ratio(gain, ideal));
  }

  // ---------------------------------------------------------------------------------------

  predicate Unit(x: real) { 0.0 <= x <= 1.0 }

  lemma RatioIsUnit(a: real, b: real)
    requires 0.0 <= a <= b
    ensures Unit(Ratio(a, b))
    ensures b > 0.0 ==> (Ratio(a, b) == 1.0 <==> a == b)
  {
    if b > 0.0 {
      var q := a / b;
      assert q * b == a;
      assert (1.0 - q) * b == b - a;
    }
  }

  lemma {:induction false} SetIsNoLarger<T>(xs: seq<T>)
    ensures |set x | x in xs| <= |xs|
    ensures Distinct(xs) ==> |set x | x in xs| == |xs|
  {
    if xs != [] {
      var last := |xs| - 1;
      SetIsNoLarger(xs[..last]);
      assert (set x | x in xs) == (set x | x in xs[..last]) + {xs[last]};
      assert Distinct(xs) ==> xs[last] !in xs[..last];
    } else {
      assert (set x | x in xs) == {};
    }
  }

  lemma SubsetIsNoLarger<T>(a: set<T>, b: set<T>)
    requires a <= b
    ensures |a| <= |b|
  {
    assert b == a + (b - a);
  }

  lemma ReciprocalIsUnit(rank: nat)
    ensures Unit(Reciprocal(rank)) && (Reciprocal(rank) > 0.0 <==> rank > 0)
  {
    if rank > 0 {
      RatioIsUnit(1.0, rank as real);
      var q := 1.0 / rank as real;
      assert q * rank as real == 1.0;
    }
  }

  lemma HitIsFound(ranked: seq<string>, expected: set<string>)
    ensures FirstHit(ranked, expected) > 0 <==> exists x :: x in ranked && x in expected
  {
    var first := FirstHit(ranked, expected);
    if first > 0 {
      assert ranked[first - 1] in ranked;
    }
  }

  lemma {:induction false} MatchedAre(ranked: seq<string>, expected: set<string>)
    ensures forall x :: x in Matched(ranked, expected) <==> x in ranked && x in expected
  {
    if ranked != [] {
      var last := |ranked| - 1;
      MatchedAre(ranked[..last], expected);
      assert ranked == ranked[..last] + [ranked[last]];
    }
  }

  lemma RecallIsUnit(matched: seq<string>, expected: set<string>)
    requires forall x :: x in matched ==> x in expected
    ensures Unit(Ratio(|set x | x in matched| as real, |expected| as real))
  {
    SubsetIsNoLarger((set x | x in matched), expected);
    RatioIsUnit(|set x | x in matched| as real, |expected| as real);
  }

  /** Precision, recall and reciprocal rank are fractions whatever is retrieved, and the last is positive exactly when something expected is. */
  lemma FractionsHold(retrieved: seq<string>, expectedIds: seq<string>, k: Option<int>, norm: string -> string, discount: Discount)
    ensures var scores := ScoresOf(retrieved, expectedIds, k, norm, discount);
            && Unit(scores.precision) && Unit(scores.recall) && Unit(scores.reciprocalRank)
            && (Expected(expectedIds, norm) != {} ==>
                  (scores.reciprocalRank > 0.0 <==>
                     exists x :: x in Ranked(retrieved, k, norm) && x in Expected(expectedIds, norm)))
  {
    var expected := Expected(expectedIds, norm);
    var ranked := Ranked(retrieved, k, norm);
    var matched := Matched(ranked, expected);
    RatioIsUnit(|matched| as real, |ranked| as real);
    MatchedAre(ranked, expected);
    RecallIsUnit(matched, expected);
    ReciprocalIsUnit(FirstHit(ranked, expected));
    HitIsFound(ranked, expected);
  }

  lemma {:induction false} MatchedCounts(ranked: seq<string>, expected: set<string>)
    ensures |Matched(ranked, expected)| == |set i | 0 <= i < |ranked| && ranked[i] in expected|
  {
    if ranked != [] {
      var last := |ranked| - 1;
      var front := ranked[..last];
      MatchedCounts(front, expected);
      var hits := set i | 0 <= i < |front| && front[i] in expected;
      assert (set i | 0 <= i < |ranked| && ranked[i] in expected) == hits + if ranked[last] in expected then {last} else {};
    }
  }

  lemma {:induction false} NamesAre(items: seq<string>, norm: string -> string, name: string)
    ensures name in Names(items, norm) <==> exists i :: 0 <= i < |items| && Strip(items[i]) != [] && norm(items[i]) == name
  {
    if items != [] {
      NamesAre(items[..|items| - 1], norm, name);
    }
  }

  lemma ExpectedAre(expectedIds: seq<string>, norm: string -> string)
    ensures Expected(expectedIds, norm) == set i | 0 <= i < |expectedIds| && Strip(expectedIds[i]) != [] :: norm(expectedIds[i])
  {
    forall n
      ensures n in Expected(expectedIds, norm) <==>
                exists i :: 0 <= i < |expectedIds| && Strip(expectedIds[i]) != [] && norm(expectedIds[i]) == n
    {
      NamesAre(expectedIds, norm, n);
    }
  }

  lemma RatioTimes(a: real, b: real)
    ensures b == 0.0 ==> Ratio(a, b) == 0.0
    ensures b != 0.0 ==> Ratio(a, b) * b == a
  {
  }

  /** Of what is ranked, the part that is expected. */
  lemma PrecisionMeans(ranked: seq<string>, expected: set<string>)
    ensures var precision := Ratio(|Matched(ranked, expected)| as real, |ranked| as real);
            && precision * |ranked| as real == |set i | 0 <= i < |ranked| && ranked[i] in expected| as real
            && (ranked == [] ==> precision == 0.0)
  {
    MatchedCounts(ranked, expected);
    RatioTimes(|Matched(ranked, expected)| as real, |ranked| as real);
  }

  /** Of what is expected, the part that is ranked. */
  lemma RecallMeans(ranked: seq<string>, expected: set<string>, hit: set<string>)
    requires expected != {} && hit == set x | x in expected && x in ranked
    ensures Ratio(|set x | x in Matched(ranked, expected)| as real, |expected| as real) * |expected| as real == |hit| as real
  {
    MatchedAre(ranked, expected);
    assert (set x | x in Matched(ranked, expected)) == hit;
    RatioTimes(|hit| as real, |expected| as real);
  }

  /** One over the place of the first hit. */
  lemma ReciprocalMeans(ranked: seq<string>, expected: set<string>, i: nat)
    requires i < |ranked| && ranked[i] in expected && forall j :: 0 <= j < i ==> ranked[j] !in expected
    ensures Reciprocal(FirstHit(ranked, expected)) == 1.0 / (i + 1) as real
  {
    assert FirstHit(ranked, expected) == i + 1;
  }

  /** The first `n` ranked are all expected. */
  predicate TopFilled(ranked: seq<string>, expected: set<string>, n: nat) {
    n <= |ranked| && forall i :: 0 <= i < n ==> ranked[i] in expected
  }

  lemma {:induction false} TopIsMatched(ranked: seq<string>, expected: set<string>, n: nat)
    requires TopFilled(ranked, expected, n)
    ensures |Matched(ranked, expected)| >= n
  {
    if n < |ranked| {
      TopIsMatched(ranked[..|ranked| - 1], expected, n);
    } else {
      AllMatched(ranked, expected);
    }
  }

  /** The top stays filled only if the next rank extends it, or is no hit. */
  lemma TopGrows(ranked: seq<string>, expected: set<string>)
    requires ranked != []
    ensures var last := |ranked| - 1; var earlier := ranked[..last]; var hits := |Matched(earlier, expected)|;
            if ranked[last] in expected
            then TopFilled(ranked, expected, hits + 1) <==> hits == last && TopFilled(earlier, expected, hits)
            else TopFilled(ranked, expected, hits) <==> TopFilled(earlier, expected, hits)
  {
    var last := |ranked| - 1;
    var earlier := ranked[..last];
    var hits := |Matched(earlier, expected)|;
    if TopFilled(ranked, expected, hits + 1) && hits < last {
      TopIsMatched(earlier, expected, hits + 1);
    }
  }

  lemma Falls(discount: Discount, a: nat, b: nat)
    requires Positive(discount) && Decreasing(discount) && 1 <= a <= b
    ensures 0.0 < discount(b) <= discount(a) && (discount(b) == discount(a) <==> a == b)
  {
  }

  /** The gain is at most the ideal for its hits, and equal exactly when they fill the top. */
  ghost predicate GainFits(ranked: seq<string>, expected: set<string>, discount: Discount) {
    var hits, gain := |Matched(ranked, expected)|, Gain(ranked, expected, discount);
    0.0 <= gain <= Ideal(hits, discount) && (gain == Ideal(hits, discount) <==> TopFilled(ranked, expected, hits))
  }

  lemma GainStillFits(ranked: seq<string>, expected: set<string>, discount: Discount, hits: nat)
    requires ranked != [] && GainFits(ranked[..|ranked| - 1], expected, discount)
    requires hits == |Matched(ranked[..|ranked| - 1], expected)|
    requires 0.0 < discount(|ranked|) <= discount(hits + 1) && (discount(|ranked|) == discount(hits + 1) <==> hits + 1 == |ranked|)
    ensures GainFits(ranked, expected, discount)
  {
    TopGrows(ranked, expected);
    assert Ideal(hits + 1, discount) == Ideal(hits, discount) + discount(hits + 1);
  }

  /** A ranking's gain is at most that of as many hits at the top, and reaches it exactly when they are at the top. */
  lemma {:induction false} GainIsAtMostIdeal(ranked: seq<string>, expected: set<string>, discount: Discount)
    requires Positive(discount) && Decreasing(discount)
    ensures GainFits(ranked, expected, discount)
  {
    if ranked != [] {
      var earlier := ranked[..|ranked| - 1];
      GainIsAtMostIdeal(earlier, expected, discount);
      var hits := |Matched(earlier, expected)|;
      Falls(discount, hits + 1, |ranked|);
      GainStillFits(ranked, expected, discount, hits);
    }
  }

  lemma {:induction false} AllMatched(ranked: seq<string>, expected: set<string>)
    ensures |Matched(ranked, expected)| == |ranked| <==> TopFilled(ranked, expected, |ranked|)
  {
    if ranked != [] {
      AllMatched(ranked[..|ranked| - 1], expected);
    }
  }

  lemma {:induction false} IdealGrows(a: nat, b: nat, discount: Discount)
    requires Positive(discount) && a <= b
    ensures 0.0 <= Ideal(a, discount) <= Ideal(b, discount) && (Ideal(a, discount) == Ideal(b, discount) <==> a == b)
    decreases b
  {
    if b > 0 {
      IdealGrows(if a < b then a else a - 1, b - 1, discount);
    }
  }

  lemma {:induction false} MatchedStaysDistinct(ranked: seq<string>, expected: set<string>)
    requires Distinct(ranked)
    ensures Distinct(Matched(ranked, expected))
  {
    if ranked != [] {
      var last := |ranked| - 1;
      MatchedStaysDistinct(ranked[..last], expected);
      MatchedAre(ranked[..last], expected);
      assert ranked[last] !in ranked[..last];
    }
  }

  /** Without duplicates there are no more hits than the ideal counts. */
  lemma HitsFit(retrieved: seq<string>, expected: set<string>, k: Option<int>, norm: string -> string)
    requires Cutoff(retrieved, k) >= 0 && Distinct(Ranked(retrieved, k, norm))
    ensures |Matched(Ranked(retrieved, k, norm), expected)| <= IdealHits(expected, Cutoff(retrieved, k))
  {
    var matched := Matched(Ranked(retrieved, k, norm), expected);
    MatchedStaysDistinct(Ranked(retrieved, k, norm), expected);
    MatchedAre(Ranked(retrieved, k, norm), expected);
    SetIsNoLarger(matched);
    SubsetIsNoLarger((set x | x in matched), expected);
  }

  /** There are no more hits than the ideal counts; nothing to count is fine too. */
  predicate HitsWithinIdeal(retrieved: seq<string>, expectedIds: seq<string>, k: Option<int>, norm: string -> string) {
    var expected := Expected(expectedIds, norm);
    var best := IdealHits(expected, Cutoff(retrieved, k));
    expected == {} || best == 0 || |Matched(Ranked(retrieved, k, norm), expected)| <= best
  }

  lemma DistinctHitsAreWithin(retrieved: seq<string>, expectedIds: seq<string>, k: Option<int>, norm: string -> string)
    requires Distinct(Ranked(retrieved, k, norm))
    ensures HitsWithinIdeal(retrieved, expectedIds, k, norm)
  {
    var expected := Expected(expectedIds, norm);
    if IdealHits(expected, Cutoff(retrieved, k)) > 0 {
      HitsFit(retrieved, expected, k, norm);
    }
  }

  /** With no more hits than the ideal counts nDCG is a fraction, and 1 exactly when the hits fill the top ranks. */
  lemma NdcgIsFraction(retrieved: seq<string>, expectedIds: seq<string>, k: Option<int>, norm: string -> string, discount: Discount)
    requires Positive(discount) && Decreasing(discount)
    requires HitsWithinIdeal(retrieved, expectedIds, k, norm)
    ensures var expected := Expected(expectedIds, norm); var ndcg := ScoresOf(retrieved, expectedIds, k, norm, discount).ndcg;
            var best := IdealHits(expected, Cutoff(retrieved, k));
            Unit(ndcg) && (expected != {} && best > 0 ==> (ndcg == 1.0 <==> TopFilled(Ranked(retrieved, k, norm), expected, best)))
  {
    var expected := Expected(expectedIds, norm);
    var ranked := Ranked(retrieved, k, norm);
    var hits, best := |Matched(ranked, expected)|, IdealHits(expected, Cutoff(retrieved, k));
    if expected != {} && best > 0 {
      GainIsAtMostIdeal(ranked, expected, discount);
      IdealGrows(hits, best, discount);
      IdealGrows(0, best, discount);
      RatioIsUnit(Gain(ranked, expected, discount), Ideal(best, discount));
      if TopFilled(ranked, expected, best) {
        TopIsMatched(ranked, expected, best);
      }
    }
  }

  lemma RatioExceedsOne(a: real, b: real)
    requires a > b > 0.0
    ensures Ratio(a, b) > 1.0
  {
    var q := a / b;
    assert q * b == a;
    assert (q - 1.0) * b == a - b;
  }

  // Too many hits exceed 1 for some discount: one that hardly falls.

  lemma ShareOfUnit(u: real, a: nat, b: nat)
    requires u > 0.0 && 1 <= a <= b
    ensures 0.0 < u / b as real <= u / a as real <= u && (u / b as real == u / a as real <==> a == b)
  {
    var x, y := u / a as real, u / b as real;
    assert x * a as real == u && y * b as real == u;
    assert x > 0.0 && y > 0.0;
    assert x * (b - a) as real >= 0.0;
    assert (x - y) * b as real == x * (b - a) as real;
    assert x * (a - 1) as real >= 0.0;
    assert a < b ==> x * (b - a) as real > 0.0;
  }

  /** Just above 1 at every rank. */
  function Flat(u: real): Discount { (r: nat) => if r == 0 then 2.0 + u else 1.0 + u / r as real }

  lemma FlatIsDiscount(u: real)
    requires u > 0.0
    ensures Positive(Flat(u)) && Decreasing(Flat(u))
  {
    forall r: nat | r >= 1
      ensures Flat(u)(r) > 0.0
    {
      ShareOfUnit(u, r, r);
    }
    forall a: nat, b: nat | 1 <= a < b
      ensures Flat(u)(b) < Flat(u)(a)
    {
      ShareOfUnit(u, a, b);
    }
  }

  lemma {:induction false} FlatIdealIsSmall(n: nat, u: real)
    requires u > 0.0
    ensures Ideal(n, Flat(u)) <= n as real + n as real * u
  {
    if n > 0 {
      FlatIdealIsSmall(n - 1, u);
      ShareOfUnit(u, 1, n);
      assert n as real * u == (n - 1) as real * u + u;
    }
  }

  lemma {:induction false} FlatGainIsLarge(ranked: seq<string>, expected: set<string>, u: real)
    requires u > 0.0
    ensures Gain(ranked, expected, Flat(u)) >= |Matched(ranked, expected)| as real
  {
    if ranked != [] {
      FlatGainIsLarge(ranked[..|ranked| - 1], expected, u);
      ShareOfUnit(u, |ranked|, |ranked|);
    }
  }

  lemma FlatRatioExceedsOne(ranked: seq<string>, expected: set<string>, best: nat) returns (u: real)
    requires 0 < best < |Matched(ranked, expected)|
    ensures u > 0.0 && Ratio(Gain(ranked, expected, Flat(u)), Ideal(best, Flat(u))) > 1.0
  {
    u := UnitShare(best);
    var gain, ideal := Gain(ranked, expected, Flat(u)), Ideal(best, Flat(u));
    FlatIdealIsSmall(best, u);
    FlatGainIsLarge(ranked, expected, u);
    FlatIdealIsPositive(best, u);
    RatioExceedsOne(gain, ideal);
  }

  /** One over n + 1: n of it are less than 1. */
  lemma UnitShare(n: nat) returns (u: real)
    ensures u > 0.0 && n as real * u < 1.0
  {
    u := UnitShareOf(n as real);
  }

  lemma UnitShareOf(m: real) returns (u: real)
    requires m >= 0.0
    ensures u > 0.0 && m * u < 1.0
  {
    u := 1.0 / (m + 1.0);
    assert u * (m + 1.0) == 1.0;
    assert u * (m + 1.0) == m * u + u;
  }

  lemma FlatIdealIsPositive(n: nat, u: real)
    requires u > 0.0 && n > 0
    ensures Ideal(n, Flat(u)) > 0.0
  {
    FlatIsDiscount(u);
    IdealGrows(0, n, Flat(u));
  }

  /** nDCG stays within 1 whatever the discount. */
  ghost predicate NdcgAtMostOne(retrieved: seq<string>, expectedIds: seq<string>, k: Option<int>, norm: string -> string) {
    forall discount: Discount :: Positive(discount) && Decreasing(discount) ==>
      ScoresOf(retrieved, expectedIds, k, norm, discount).ndcg <= 1.0
  }

  /** For every ranking, with duplicates or without: nDCG is at most 1 for all discounts exactly when there are no more hits than the ideal counts. */
  lemma NdcgAtMostOneExactlyWhen(retrieved: seq<string>, expectedIds: seq<string>, k: Option<int>, norm: string -> string)
    ensures NdcgAtMostOne(retrieved, expectedIds, k, norm) <==> HitsWithinIdeal(retrieved, expectedIds, k, norm)
  {
    var expected := Expected(expectedIds, norm);
    var ranked := Ranked(retrieved, k, norm);
    if HitsWithinIdeal(retrieved, expectedIds, k, norm) {
      forall discount: Discount | Positive(discount) && Decreasing(discount)
        ensures ScoresOf(retrieved, expectedIds, k, norm, discount).ndcg <= 1.0
      {
        NdcgIsFraction(retrieved, expectedIds, k, norm, discount);
      }
    } else {
      var u := FlatRatioExceedsOne(ranked, expected, IdealHits(expected, Cutoff(retrieved, k)));
      FlatIsDiscount(u);
      NdcgIs(retrieved, expectedIds, k, norm, Flat(u), ranked, expected);
    }
  }

  lemma TwiceTheSame(x: string, norm: string -> string)
    requires Strip(x) != []
    ensures Ranked([x, x], None, norm) == [norm(x), norm(x)] && Expected([x], norm) == {norm(x)}
  {
    assert [x, x][..1] == [x] && [x][..0] == [];
    assert Names([x], norm) == [norm(x)];
  }

  lemma TwiceGain(x: string, discount: Discount)
    ensures Gain([x, x], {x}, discount) == discount(1) + discount(2) && Ideal(1, discount) == discount(1)
  {
    assert [x, x][..1] == [x] && [x][..0] == [];
    assert Gain([x], {x}, discount) == discount(1);
    assert Ideal(0, discount) == 0.0;
  }

  lemma NdcgIs(retrieved: seq<string>, expectedIds: seq<string>, k: Option<int>, norm: string -> string, discount: Discount,
               ranked: seq<string>, expected: set<string>)
    requires ranked == Ranked(retrieved, k, norm) && expected == Expected(expectedIds, norm) != {}
    ensures ScoresOf(retrieved, expectedIds, k, norm, discount).ndcg
         == Ratio(Gain(ranked, expected, discount), Ideal(IdealHits(expected, Cutoff(retrieved, k)), discount))
  {
  }

  /** With duplicates it is not: retrieving the one expected name twice scores more than 1, whatever the name. */
  lemma DuplicatesExceedOne(x: string, discount: Discount, norm: string -> string)
    requires Positive(discount) && Strip(x) != []
    ensures ScoresOf([x, x], [x], None, norm, discount).ndcg > 1.0
  {
    TwiceTheSame(x, norm);
    TwiceGain(norm(x), discount);
    NdcgIs([x, x], [x], None, norm, discount, [norm(x), norm(x)], {norm(x)});
    RatioExceedsOne(discount(1) + discount(2), discount(1));
  }
}
