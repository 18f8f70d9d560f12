/** The odds form of Bayes' rule (policyedge_top20_report/app/utils/bayes.py):
    posterior = prior_odds * PROD(LR) / (1 + prior_odds * PROD(LR)), with each
    likelihood ratio floored at 1e-6 and the prior required to lie in (0, 1). */
module Bayes {
  import opened Values

  /** The floor applied to every likelihood ratio. */
  const RatioFloor: real := 0.000001

  const InvalidPrior: string := "prior must be in (0,1)"

  /** `max(lr, 1e-6)` */
  function Floored(lr: real): (r: real)
    ensures r >= RatioFloor
    ensures lr >= RatioFloor ==> r == lr
    ensures lr < RatioFloor ==> r == RatioFloor
  {
    if RatioFloor > lr then RatioFloor else lr
  }

  /** The combined ratio the loop accumulates, left to right, starting at 1.0. */
  function CombinedRatio(lrs: seq<real>): (p: real)
    ensures p > 0.0
  {
    if lrs == [] then 1.0
    else CombinedRatio(lrs[..|lrs| - 1]) * Floored(lrs[|lrs| - 1])
  }

  function PriorOdds(prior: real): (o: real)
    requires 0.0 < prior < 1.0
    ensures o > 0.0
  {
    prior / (1.0 - prior)
  }

  /** Odds `o` turned back into a probability. */
  function FromOdds(o: real): (p: real)
    requires o > 0.0
    ensures 0.0 < p < 1.0
  {
    o / (1.0 + o)
  }

  /** The posterior for a valid prior. */
  function Posterior(prior: real, lrs: seq<real>): (post: real)
    requires 0.0 < prior < 1.0
    ensures 0.0 < post < 1.0
  {
    FromOdds(PriorOdds(prior) * CombinedRatio(lrs))
  }

  /** `posterior_from_likelihoods`: rejects a prior outside (0, 1) with
      ValueError; otherwise multiplies the floored ratios in a loop. */
  method PosteriorFromLikelihoods(prior: real, likelihoods: seq<real>) returns (r: Result<real>)
    ensures (prior <= 0.0 || prior >= 1.0) <==> r == Err(ValueError(InvalidPrior))
    ensures 0.0 < prior < 1.0 ==> r == Ok(Posterior(prior, likelihoods))
    ensures r.Ok? ==> 0.0 < r.value < 1.0
  {
    if prior <= 0.0 || prior >= 1.0 {
      return Err(ValueError(InvalidPrior));
    }
    var odds := prior / (1.0 - prior);
    var lrProd := 1.0;
    for i := 0 to |likelihoods|
      invariant lrProd == CombinedRatio(likelihoods[..i])
    {
      assert likelihoods[..i + 1][..i] == likelihoods[..i];
      lrProd := lrProd * (if RatioFloor > likelihoods[i] then RatioFloor else likelihoods[i]);
    }
    assert likelihoods[..|likelihoods|] == likelihoods;
    var postOdds := odds * lrProd;
    assert postOdds == PriorOdds(prior) * CombinedRatio(likelihoods);
    r := Ok(postOdds / (1.0 + postOdds));
    assert r.value == FromOdds(postOdds);
    assert r.value == Posterior(prior, likelihoods);
  }

  /** Turning a prior into odds and back gives the prior. */
  lemma OddsRoundTrip(prior: real)
    requires 0.0 < prior < 1.0
    ensures FromOdds(PriorOdds(prior)) == prior
  {
    var o := PriorOdds(prior);
    assert o * (1.0 - prior) == prior;
    assert 1.0 + o == 1.0 / (1.0 - prior);
  }

  /** `x / (1 + x)` is strictly increasing on positive odds. */
  lemma FromOddsStrictlyIncreasing(x: real, y: real)
    requires 0.0 < x
    requires x < y
    ensures FromOdds(x) < FromOdds(y)
  {
    assert FromOdds(x) == 1.0 - 1.0 / (1.0 + x);
    assert FromOdds(y) == 1.0 - 1.0 / (1.0 + y);
    var a, b := 1.0 / (1.0 + x), 1.0 / (1.0 + y);
    assert a * (1.0 + x) == 1.0 && b * (1.0 + y) == 1.0;
    assert b * (1.0 + x) < b * (1.0 + y);
    assert b * (1.0 + x) < a * (1.0 + x);
  }

  /** A combined ratio of exactly 1 (no evidence, or only neutral evidence)
      leaves the prior unchanged. */
  lemma PosteriorNeutral(prior: real, lrs: seq<real>)
    requires 0.0 < prior < 1.0
    requires CombinedRatio(lrs) == 1.0
    ensures Posterior(prior, lrs) == prior
  {
    OddsRoundTrip(prior);
  }

  /** A list of ratios all equal to 1 combines to 1. */
  lemma {:induction false} AllOnesCombineToOne(lrs: seq<real>)
    requires forall i :: 0 <= i < |lrs| ==> lrs[i] == 1.0
    ensures CombinedRatio(lrs) == 1.0
  {
    if lrs != [] {
      AllOnesCombineToOne(lrs[..|lrs| - 1]);
    }
  }

  /** The product of positive odds and a factor in (0, 1) is positive
      and below the odds. */
  lemma MulBelowOne(o: real, p: real, q: real)
    requires o > 0.0
    requires 0.0 < p
    requires p < 1.0
    requires q == o * p
    ensures 0.0 < q
    ensures q < o
  {
    var d := 1.0 - p;
    assert o * d > 0.0;
    assert o * d == o - o * p;
    assert o - q > 0.0;
  }

  /** The product of positive odds and a factor above 1 exceeds the odds. */
  lemma MulAboveOne(o: real, p: real, q: real)
    requires o > 0.0
    requires p > 1.0
    requires q == o * p
    ensures o < q
  {
    var d := p - 1.0;
    assert o * d > 0.0;
    assert o * d == o * p - o;
    assert q - o > 0.0;
  }

  /** Scaling positive odds by a factor above (below) 1 raises (lowers)
      the probability they stand for. */
  lemma ScaleOdds(o: real, p: real)
    requires o > 0.0 && p > 0.0
    ensures p > 1.0 ==> FromOdds(o * p) > FromOdds(o)
    ensures p < 1.0 ==> FromOdds(o * p) < FromOdds(o)
  {
    var q := o * p;
    if p > 1.0 {
      MulAboveOne(o, p, q);
      FromOddsStrictlyIncreasing(o, q);
    } else if p < 1.0 {
      MulBelowOne(o, p, q);
      FromOddsStrictlyIncreasing(q, o);
    }
  }

  /** Evidence for (combined ratio above 1) raises the posterior above the
      prior; evidence against lowers it; neutral evidence keeps it. */
  lemma {:induction false} PosteriorDirection(prior: real, lrs: seq<real>)
    requires 0.0 < prior < 1.0
    ensures CombinedRatio(lrs) > 1.0 ==> Posterior(prior, lrs) > prior
    ensures CombinedRatio(lrs) < 1.0 ==> Posterior(prior, lrs) < prior
    ensures CombinedRatio(lrs) == 1.0 ==> Posterior(prior, lrs) == prior
  {
    OddsRoundTrip(prior);
    ScaleOdds(PriorOdds(prior), CombinedRatio(lrs));
  }

  /** Appending a ratio multiplies the product by its floored value. */
  lemma {:induction false} CombinedRatioSnoc(s: seq<real>, x: real)
    ensures CombinedRatio(s + [x]) == CombinedRatio(s) * Floored(x)
  {
    assert (s + [x])[..|s|] == s;
  }

  /** Moving one ratio to the end of the list does not change the product. */
  lemma {:induction false} CombinedRatioMoveToEnd(xs: seq<real>, e: real, ys: seq<real>)
    ensures CombinedRatio(xs + [e] + ys) == CombinedRatio(xs + ys + [e])
  {
    if ys == [] {
      assert xs + [e] + ys == xs + ys + [e];
    } else {
      var init, last := ys[..|ys| - 1], ys[|ys| - 1];
      assert (xs + [e] + ys)[..|xs + [e] + ys| - 1] == xs + [e] + init;
      assert (xs + ys)[..|xs + ys| - 1] == xs + init;
      assert (xs + ys + [e])[..|xs + ys|] == xs + ys;
      assert (xs + init + [e])[..|xs + init|] == xs + init;
      CombinedRatioMoveToEnd(xs, e, init);
      calc {
        CombinedRatio(xs + [e] + ys);
        CombinedRatio(xs + [e] + init) * Floored(last);
        CombinedRatio(xs + init + [e]) * Floored(last);
        CombinedRatio(xs + init) * Floored(e) * Floored(last);
        CombinedRatio(xs + init) * Floored(last) * Floored(e);
        CombinedRatio(xs + ys) * Floored(e);
        CombinedRatio(xs + ys + [e]);
      }
    }
  }

  /** Removing one occurrence of the same element from two equal multisets
      leaves equal multisets. */
  lemma MultisetCancel(m1: multiset<real>, m2: multiset<real>, e: real)
    requires m1 + multiset{e} == m2 + multiset{e}
    ensures m1 == m2
  {
    forall x ensures m1[x] == m2[x] {
      assert (m1 + multiset{e})[x] == (m2 + multiset{e})[x];
    }
  }

  /** Moving the k-th ratio to the end of the list keeps the product. */
  lemma {:induction false} CombinedRatioRemove(b: seq<real>, k: nat)
    requires k < |b|
    ensures CombinedRatio(b) == CombinedRatio(b[..k] + b[k + 1..] + [b[k]])
  {
    var xs, ys := b[..k], b[k + 1..];
    assert b == xs + [b[k]] + ys;
    CombinedRatioMoveToEnd(xs, b[k], ys);
  }

  /** Lists with equal products keep equal products when the same ratio is
      appended to both. */
  lemma {:induction false} CombinedRatioSnocBoth(x: seq<real>, y: seq<real>, e: real)
    requires CombinedRatio(x) == CombinedRatio(y)
    ensures CombinedRatio(x + [e]) == CombinedRatio(y + [e])
  {
    CombinedRatioSnoc(x, e);
    CombinedRatioSnoc(y, e);
  }

  /** Taking the last element of `a` and an equal element of `b` out of two
      permutations of each other leaves permutations of each other. */
  lemma {:induction false} PermutationRemove(a: seq<real>, b: seq<real>, k: nat)
    requires multiset(a) == multiset(b)
    requires a != [] && k < |b| && b[k] == a[|a| - 1]
    ensures multiset(a[..|a| - 1]) == multiset(b[..k] + b[k + 1..])
  {
    var e := a[|a| - 1];
    assert a == a[..|a| - 1] + [e];
    assert b == b[..k] + [e] + b[k + 1..];
    assert multiset(a) == multiset(a[..|a| - 1]) + multiset{e};
    assert multiset(b) == multiset(b[..k] + b[k + 1..]) + multiset{e};
    MultisetCancel(multiset(a[..|a| - 1]), multiset(b[..k] + b[k + 1..]), e);
  }

  /** The posterior does not depend on the order of the likelihood list:
      any permutation of the ratios combines to the same product. */
  lemma {:induction false} CombinedRatioPermutation(a: seq<real>, b: seq<real>)
    requires multiset(a) == multiset(b)
    ensures CombinedRatio(a) == CombinedRatio(b)
  {
    if a == [] {
      assert |b| == |multiset(b)| == 0;
    } else {
      var e := a[|a| - 1];
      assert e in multiset(b) by {
        assert e in multiset(a);
      }
      var k :| 0 <= k < |b| && b[k] == e;
      var restA, restB := a[..|a| - 1], b[..k] + b[k + 1..];
      PermutationRemove(a, b, k);
      CombinedRatioPermutation(restA, restB);
      CombinedRatioRemove(b, k);
      CombinedRatioSnocBoth(restA, restB, e);
      assert a == restA + [e];
    }
  }

  /** The posterior for permuted evidence is the same. */
  lemma PosteriorOrderIndependent(prior: real, a: seq<real>, b: seq<real>)
    requires 0.0 < prior < 1.0
    requires multiset(a) == multiset(b)
    ensures Posterior(prior, a) == Posterior(prior, b)
  {
    CombinedRatioPermutation(a, b);
  }

  /** A ratio at or below the floor counts as exactly 1e-6, so a zero or
      negative ratio cannot drive the posterior to 0. */
  lemma {:induction false} FloorApplies(prior: real, lr: real)
    requires 0.0 < prior < 1.0
    requires lr <= RatioFloor
    ensures Posterior(prior, [lr]) == Posterior(prior, [RatioFloor])
    ensures Posterior(prior, [lr]) > 0.0
  {
    assert [lr][..0] == [RatioFloor][..0];
  }

  /** The two worked cases of the default prior 0.55: one neutral ratio gives
      0.55 and one ratio of 5 gives 55/64 (about 0.859). */
  lemma DefaultPriorExamples()
    ensures Posterior(0.55, [1.0]) == 0.55
    ensures Posterior(0.55, [5.0]) == 55.0 / 64.0
  {
    AllOnesCombineToOne([1.0]);
    PosteriorNeutral(0.55, [1.0]);
    assert [5.0][..0] == [];
    assert CombinedRatio([5.0]) == 5.0;
    assert PriorOdds(0.55) == 11.0 / 9.0;
  }
}
