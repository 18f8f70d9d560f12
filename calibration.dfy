/** Calibration metrics (policyedge_top20_report/app/utils/calibration.py):
    the Brier score and the binned expected calibration error. Pairs are
    taken as `zip` takes them, up to the shorter of the two lists. */
module Calibration {
  import opened Values
  import opened Numbers

  /** A (probability, outcome) pair as `zip` yields it. */
  type Pair = (real, int)

  /** `zip(probabilities, outcomes)` */
  function Zip(ps: seq<real>, os: seq<int>): (pairs: seq<Pair>)
    ensures |pairs| == if |ps| <= |os| then |ps| else |os|
    ensures forall i :: 0 <= i < |pairs| ==> pairs[i] == (ps[i], os[i])
  {
    if ps == [] || os == [] then [] else [(ps[0], os[0])] + Zip(ps[1..], os[1..])
  }

  function Square(x: real): (r: real)
    ensures r >= 0.0
  {
    x * x
  }

  /** The sum of squared errors over the pairs. */
  function SquaredErrors(pairs: seq<Pair>): (s: real)
    ensures s >= 0.0
  {
    if pairs == [] then 0.0
    else SquaredErrors(pairs[..|pairs| - 1]) + Square(pairs[|pairs| - 1].0 - pairs[|pairs| - 1].1 as real)
  }

  /** `max(len(probabilities), 1)` */
  function Divisor(n: nat): (d: nat)
    ensures d >= 1 && d >= n
    ensures n >= 1 ==> d == n
  {
    if n >= 1 then n else 1
  }

  /** `brier_score`: the squared errors summed over the zipped pairs and
      divided by the number of probabilities (not of pairs). */
  function BrierScore(ps: seq<real>, os: seq<int>): (score: real)
    ensures score >= 0.0
    ensures ps == [] ==> score == 0.0
  {
    SquaredErrors(Zip(ps, os)) / Divisor(|ps|) as real
  }

  /** A probability and a 0/1 outcome are at most 1 apart, squared. */
  lemma SquareBelowOne(p: real, o: int)
    requires 0.0 <= p <= 1.0 && (o == 0 || o == 1)
    ensures Square(p - o as real) <= 1.0
  {
    var d := p - o as real;
    assert -1.0 <= d <= 1.0;
    if d >= 0.0 {
      assert d * d <= d * 1.0;
    } else {
      assert d * d <= (-d) * 1.0;
    }
  }

  /** Each pair contributes at most 1 to the squared-error sum. */
  lemma {:induction false} SquaredErrorsAtMostCount(pairs: seq<Pair>)
    requires forall i :: 0 <= i < |pairs| ==> 0.0 <= pairs[i].0 <= 1.0 && (pairs[i].1 == 0 || pairs[i].1 == 1)
    ensures SquaredErrors(pairs) <= |pairs| as real
  {
    if pairs != [] {
      var last := pairs[|pairs| - 1];
      SquaredErrorsAtMostCount(pairs[..|pairs| - 1]);
      SquareBelowOne(last.0, last.1);
    }
  }

  /** For probabilities in [0, 1] and 0/1 outcomes the Brier score is at
      most 1. */
  lemma BrierAtMostOne(ps: seq<real>, os: seq<int>)
    requires forall i :: 0 <= i < |ps| ==> 0.0 <= ps[i] <= 1.0
    requires forall i :: 0 <= i < |os| ==> os[i] == 0 || os[i] == 1
    ensures BrierScore(ps, os) <= 1.0
  {
    var pairs := Zip(ps, os);
    SquaredErrorsAtMostCount(pairs);
    QuotientInUnit(SquaredErrors(pairs), Divisor(|ps|) as real);
  }

  /** Forecasts that equal their outcomes score 0. */
  lemma {:induction false} PerfectForecastsScoreZero(pairs: seq<Pair>)
    requires forall i :: 0 <= i < |pairs| ==> pairs[i].0 == pairs[i].1 as real
    ensures SquaredErrors(pairs) == 0.0
  {
    if pairs != [] {
      PerfectForecastsScoreZero(pairs[..|pairs| - 1]);
    }
  }

  /** Surplus probabilities are not paired but still count in the divisor:
      two certain forecasts against a single missed outcome score 0.5. */
  lemma UnpairedProbabilitiesDilute()
    ensures BrierScore([1.0, 1.0], [0]) == 0.5
  {
    assert Zip([1.0, 1.0], [0]) == [(1.0, 0)];
    assert [(1.0, 0)][..0] == [];
  }

  // ---------------------------------------------------------------------
  // Expected calibration error

  /** `len(buckets)`: `range(bins)` is empty for a non-positive count. */
  function BucketCount(bins: int): (n: nat)
    ensures bins >= 0 ==> n == bins
    ensures bins < 0 ==> n == 0
  {
    if bins > 0 then bins else 0
  }

  /** `min(bins - 1, int(p * bins))`, before list indexing. */
  function RawIndex(bins: int, p: real): (k: int)
    ensures k <= bins - 1 && k <= Trunc(p * bins as real)
    ensures k == bins - 1 || k == Trunc(p * bins as real)
  {
    MinInt(bins - 1, Trunc(p * bins as real))
  }

  /** The bucket `buckets[idx]` refers to, with Python's negative indexing;
      `None` where it raises IndexError. */
  function BucketIndex(bins: int, p: real): (k: Option<nat>)
    ensures k.Some? ==> k.value < BucketCount(bins)
    ensures k.Some? <==> -(BucketCount(bins) as int) <= RawIndex(bins, p) < BucketCount(bins)
  {
    var idx := RawIndex(bins, p);
    var n: int := BucketCount(bins);
    if 0 <= idx < n then Some(idx)
    else if -n <= idx < 0 then Some(n + idx)
    else None
  }

  /** The buckets after the first loop has placed `pairs`, in order, or the
      IndexError it stops with. */
  function Bucketed(pairs: seq<Pair>, bins: int): (r: Result<seq<seq<Pair>>>)
    ensures r.Ok? ==> |r.value| == BucketCount(bins)
  {
    if pairs == [] then Ok(seq(BucketCount(bins), _ => []))
    else
      var last := pairs[|pairs| - 1];
      match Bucketed(pairs[..|pairs| - 1], bins)
      case Err(e) => Err(e)
      case Ok(bs) =>
        match BucketIndex(bins, last.0)
        case None => Err(IndexError)
        case Some(k) => Ok(bs[k := bs[k] + [last]])
  }

  /** The pairs that belong in bucket `j`, in input order: an independent
      description of the bucketing. */
  function InBucket(pairs: seq<Pair>, bins: int, j: nat): seq<Pair>
  {
    if pairs == [] then []
    else InBucket(pairs[..|pairs| - 1], bins, j)
         + (if BucketIndex(bins, pairs[|pairs| - 1].0) == Some(j) then [pairs[|pairs| - 1]] else [])
  }

  /** The bucketing succeeds exactly when every pair has a valid index, and
      then bucket `j` holds exactly the pairs indexed to `j`, in order. */
  lemma {:induction false} BucketedIsFilter(pairs: seq<Pair>, bins: int)
    ensures Bucketed(pairs, bins).Ok? <==> forall i :: 0 <= i < |pairs| ==> BucketIndex(bins, pairs[i].0).Some?
    ensures Bucketed(pairs, bins).Ok? ==>
      forall j :: 0 <= j < BucketCount(bins) ==> Bucketed(pairs, bins).value[j] == InBucket(pairs, bins, j)
  {
    if pairs != [] {
      var init := pairs[..|pairs| - 1];
      BucketedIsFilter(init, bins);
      assert forall i :: 0 <= i < |init| ==> init[i] == pairs[i];
    }
  }

  /** The sum of the bucket sizes. */
  function TotalSize(bs: seq<seq<Pair>>): nat
  {
    if bs == [] then 0 else TotalSize(bs[..|bs| - 1]) + |bs[|bs| - 1]|
  }

  /** Appending to one bucket adds one to the total. */
  lemma {:induction false} TotalSizeAppend(bs: seq<seq<Pair>>, k: nat, x: Pair)
    requires k < |bs|
    ensures TotalSize(bs[k := bs[k] + [x]]) == TotalSize(bs) + 1
  {
    var bs' := bs[k := bs[k] + [x]];
    if k == |bs| - 1 {
      assert bs'[..|bs'| - 1] == bs[..|bs| - 1];
    } else {
      assert bs'[..|bs'| - 1] == bs[..|bs| - 1][k := bs[k] + [x]];
      TotalSizeAppend(bs[..|bs| - 1], k, x);
    }
  }

  lemma {:induction false} TotalSizeEmpty(n: nat)
    ensures TotalSize(seq(n, _ => [])) == 0
  {
    if n > 0 {
      var e: seq<seq<Pair>> := seq(n, _ => []);
      assert e[..n - 1] == seq(n - 1, _ => []);
      TotalSizeEmpty(n - 1);
    }
  }

  /** Every zipped pair lands in exactly one bucket: the sizes add up to
      the number of pairs. */
  lemma {:induction false} BucketSizesSumToPairs(pairs: seq<Pair>, bins: int)
    requires Bucketed(pairs, bins).Ok?
    ensures TotalSize(Bucketed(pairs, bins).value) == |pairs|
  {
    if pairs == [] {
      TotalSizeEmpty(BucketCount(bins));
    } else {
      var last := pairs[|pairs| - 1];
      BucketSizesSumToPairs(pairs[..|pairs| - 1], bins);
      var bs := Bucketed(pairs[..|pairs| - 1], bins).value;
      TotalSizeAppend(bs, BucketIndex(bins, last.0).value, last);
    }
  }

  /** For bins >= 1 a probability in [0, 1] always gets a bucket in range,
      and a probability of exactly 1 lands in the last one. */
  lemma IndexInRange(bins: int, p: real)
    requires bins >= 1 && 0.0 <= p <= 1.0
    ensures BucketIndex(bins, p).Some?
    ensures 0 <= RawIndex(bins, p) < bins
    ensures p == 1.0 ==> BucketIndex(bins, p) == Some(bins - 1)
  {
    var y := p * bins as real;
    assert 0.0 <= y;
    if p == 1.0 {
      assert y == bins as real;
      FloorIs(y, bins);
    }
  }

  /** With no buckets every pair raises IndexError. */
  lemma NoBucketsNoIndex(bins: int, p: real)
    requires bins <= 0
    ensures BucketIndex(bins, p).None?
  {
  }

  function SumProbabilities(b: seq<Pair>): real
  {
    if b == [] then 0.0 else SumProbabilities(b[..|b| - 1]) + b[|b| - 1].0
  }

  function SumOutcomes(b: seq<Pair>): real
  {
    if b == [] then 0.0 else SumOutcomes(b[..|b| - 1]) + b[|b| - 1].1 as real
  }

  /** A bucket's gap weighted by its share of the input. */
  function Weighted(share: real, gap: real): real
  {
    share * gap
  }

  /** A gap of at most 1 weighs at most the share. */
  lemma WeightedAtMost(share: real, gap: real)
    requires share >= 0.0 && 0.0 <= gap <= 1.0
    ensures 0.0 <= Weighted(share, gap) <= share
  {
    var w := Weighted(share, gap);
    assert w == gap * share;
    MulMonotone(gap, 1.0, share);
    assert gap * share <= share;
    MulMonotone(0.0, gap, share);
    assert 0.0 <= gap * share;
  }

  /** A non-empty bucket's weighted gap `(len(b)/n) * abs(avg_p - avg_o)`;
      an empty bucket is skipped. */
  function Contribution(b: seq<Pair>, n: nat): (c: real)
    requires n >= 1
    ensures c >= 0.0
  {
    if b == [] then 0.0
    else
      var avgP := SumProbabilities(b) / |b| as real;
      var avgO := SumOutcomes(b) / |b| as real;
      Weighted(|b| as real / n as real, Abs(avgP - avgO))
  }

  /** The sum of the contributions of the buckets. */
  function EceSum(bs: seq<seq<Pair>>, n: nat): (e: real)
    requires n >= 1
    ensures e >= 0.0
  {
    if bs == [] then 0.0 else EceSum(bs[..|bs| - 1], n) + Contribution(bs[|bs| - 1], n)
  }

  /** `expected_calibration_error` as a value. */
  function Ece(bins: int, ps: seq<real>, os: seq<int>): (r: Result<real>)
    ensures r.Ok? ==> r.value >= 0.0
    ensures ps == [] ==> r == Ok(0.0)
  {
    if ps == [] then Ok(0.0)
    else
      match Bucketed(Zip(ps, os), bins)
      case Err(e) => Err(e)
      case Ok(bs) => Ok(EceSum(bs, |ps|))
  }

  /** Once a pair has no bucket, the whole placement fails. */
  lemma {:induction false} BucketedErrorPersists(pairs: seq<Pair>, bins: int, i: nat)
    requires i <= |pairs|
    requires Bucketed(pairs[..i], bins) == Err(IndexError)
    ensures Bucketed(pairs, bins) == Err(IndexError)
    decreases |pairs| - i
  {
    if i < |pairs| {
      assert pairs[..i + 1][..i] == pairs[..i];
      BucketedErrorPersists(pairs, bins, i + 1);
    } else {
      assert pairs[..i] == pairs;
    }
  }

  /** The first loop of `expected_calibration_error`: appends every pair
      to the bucket its index names, stopping at the first IndexError. */
  method PlacePairs(pairs: seq<Pair>, bins: int) returns (r: Result<seq<seq<Pair>>>)
    ensures r == Bucketed(pairs, bins)
  {
    var buckets: seq<seq<Pair>> := seq(BucketCount(bins), _ => []);
    for i := 0 to |pairs|
      invariant Bucketed(pairs[..i], bins) == Ok(buckets)
    {
      assert pairs[..i + 1][..i] == pairs[..i];
      var p := pairs[i].0;
      var idx := RawIndex(bins, p);
      assert |buckets| == BucketCount(bins);
      assert pairs[..i + 1][i] == pairs[i];
      var slot: int;
      if 0 <= idx < |buckets| {
        slot := idx;
      } else if -|buckets| <= idx < 0 {
        slot := |buckets| + idx;
      } else {
        BucketedErrorPersists(pairs, bins, i + 1);
        return Err(IndexError);
      }
      assert BucketIndex(bins, p) == Some(slot);
      buckets := buckets[slot := buckets[slot] + [pairs[i]]];
    }
    assert pairs[..|pairs|] == pairs;
    r := Ok(buckets);
  }

  /** The second loop: adds up the weighted gap of every non-empty bucket. */
  method SumGaps(buckets: seq<seq<Pair>>, n: nat) returns (ece: real)
    requires n >= 1
    ensures ece == EceSum(buckets, n)
  {
    ece := 0.0;
    for j := 0 to |buckets|
      invariant ece == EceSum(buckets[..j], n)
    {
      assert buckets[..j + 1][..j] == buckets[..j];
      var b := buckets[j];
      if b == [] {
        continue;
      }
      var avgP := SumProbabilities(b) / |b| as real;
      var avgO := SumOutcomes(b) / |b| as real;
      ece := ece + (|b| as real / n as real) * Abs(avgP - avgO);
    }
    assert buckets[..|buckets|] == buckets;
  }

  /** `expected_calibration_error` */
  method ExpectedCalibrationError(bins: int, probabilities: seq<real>, outcomes: seq<int>) returns (r: Result<real>)
    ensures r == Ece(bins, probabilities, outcomes)
  {
    if probabilities == [] {
      return Ok(0.0);
    }
    var placed := PlacePairs(Zip(probabilities, outcomes), bins);
    if placed.Err? {
      return Err(placed.error);
    }
    var ece := SumGaps(placed.value, |probabilities|);
    r := Ok(ece);
  }

  /** Sums over a bucket of probabilities in [0, 1] and 0/1 outcomes lie
      between 0 and the bucket's size. */
  lemma {:induction false} BucketSumsBounded(b: seq<Pair>)
    requires forall i :: 0 <= i < |b| ==> 0.0 <= b[i].0 <= 1.0 && (b[i].1 == 0 || b[i].1 == 1)
    ensures 0.0 <= SumProbabilities(b) <= |b| as real
    ensures 0.0 <= SumOutcomes(b) <= |b| as real
  {
    if b != [] {
      BucketSumsBounded(b[..|b| - 1]);
    }
  }

  /** A bucket contributes at most its share of the input. */
  lemma {:induction false} ContributionAtMostShare(b: seq<Pair>, n: nat)
    requires n >= 1
    requires forall i :: 0 <= i < |b| ==> 0.0 <= b[i].0 <= 1.0 && (b[i].1 == 0 || b[i].1 == 1)
    ensures Contribution(b, n) <= |b| as real / n as real
  {
    if b != [] {
      BucketSumsBounded(b);
      var m := |b| as real;
      QuotientInUnit(SumProbabilities(b), m);
      QuotientInUnit(SumOutcomes(b), m);
      var gap := Abs(SumProbabilities(b) / m - SumOutcomes(b) / m);
      assert gap <= 1.0;
      WeightedAtMost(m / n as real, gap);
    }
  }

  lemma DivisionAdds(a: real, b: real, d: real)
    requires d > 0.0
    ensures a / d + b / d == (a + b) / d
  {
  }

  /** Summed over the buckets, the contributions are at most the total size
      over n. */
  lemma {:induction false} EceSumAtMostShare(bs: seq<seq<Pair>>, n: nat)
    requires n >= 1
    requires forall j, i :: 0 <= j < |bs| && 0 <= i < |bs[j]| ==>
      0.0 <= bs[j][i].0 <= 1.0 && (bs[j][i].1 == 0 || bs[j][i].1 == 1)
    ensures EceSum(bs, n) <= TotalSize(bs) as real / n as real
  {
    if bs != [] {
      var init := bs[..|bs| - 1];
      EceSumAtMostShare(init, n);
      ContributionAtMostShare(bs[|bs| - 1], n);
      DivisionAdds(TotalSize(init) as real, |bs[|bs| - 1]| as real, n as real);
    }
  }

  /** Every pair of bucket `j` is one of the input pairs. */
  lemma {:induction false} InBucketFromPairs(pairs: seq<Pair>, bins: int, j: nat)
    ensures forall x :: x in InBucket(pairs, bins, j) ==> x in pairs
  {
    if pairs != [] {
      InBucketFromPairs(pairs[..|pairs| - 1], bins, j);
      assert forall x :: x in pairs[..|pairs| - 1] ==> x in pairs;
    }
  }

  /** For probabilities in [0, 1] and 0/1 outcomes the expected calibration
      error is at most 1. */
  lemma EceAtMostOne(bins: int, ps: seq<real>, os: seq<int>)
    requires forall i :: 0 <= i < |ps| ==> 0.0 <= ps[i] <= 1.0
    requires forall i :: 0 <= i < |os| ==> os[i] == 0 || os[i] == 1
    requires Ece(bins, ps, os).Ok?
    ensures Ece(bins, ps, os).value <= 1.0
  {
    if ps != [] {
      var pairs := Zip(ps, os);
      var bs: seq<seq<Pair>> := Bucketed(pairs, bins).value;
      BucketedIsFilter(pairs, bins);
      forall j, i | 0 <= j < |bs| && 0 <= i < |bs[j]|
        ensures 0.0 <= bs[j][i].0 <= 1.0 && (bs[j][i].1 == 0 || bs[j][i].1 == 1)
      {
        InBucketFromPairs(pairs, bins, j);
        assert bs[j][i] in pairs;
      }
      EceSumAtMostShare(bs, |ps|);
      BucketSizesSumToPairs(pairs, bins);
      QuotientInUnit(|pairs| as real, |ps| as real);
    }
  }
}
