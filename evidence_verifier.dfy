/** The evidence verifier (policyedge_top20_report/app/services/evidence_verifier.py):
    copies every row, stamps the posterior rounded to four places and the
    publish gate computed from the unrounded posterior. */
module EvidenceVerifier {
  import opened Values
  import opened Numbers
  import Bayes

  /** Publishing as Actionable needs a posterior of at least this. */
  const ActionableThreshold: real := 0.90

  const Actionable: string := "Actionable"
  const MonitoringOnly: string := "MonitoringOnly"

  /** The gate on the unrounded posterior. */
  function PublishAs(post: real): (verdict: string)
    ensures verdict == Actionable <==> post >= ActionableThreshold
    ensures verdict == Actionable || verdict == MonitoringOnly
  {
    if post >= ActionableThreshold then Actionable else MonitoringOnly
  }

  /** `out` is a copy of `src` whose posterior and publish_as are overwritten
      from `post`, every other field as in `src`. */
  ghost predicate LabeledFrom(out: Row, src: Row, post: real)
  {
    && out.Keys == src.Keys + {"posterior", "publish_as"}
    && (forall k :: k in src && k != "posterior" && k != "publish_as" ==> out[k] == src[k])
    && out["posterior"] == Float(Round4(post))
    && out["publish_as"] == Str(PublishAs(post))
  }

  /** `verify_and_label`: the posterior is recomputed per row, so an invalid
      prior fails at the first row and an empty input succeeds whatever the
      prior. */
  method VerifyAndLabel(topRows: seq<Row>, prior: real := 0.55, likelihoods: seq<real> := [1.0]) returns (r: Result<seq<Row>>)
    ensures topRows == [] ==> r == Ok([])
    ensures topRows != [] && (prior <= 0.0 || prior >= 1.0) ==> r == Err(ValueError(Bayes.InvalidPrior))
    ensures 0.0 < prior < 1.0 ==>
      && r.Ok?
      && |r.value| == |topRows|
      && forall i :: 0 <= i < |topRows| ==>
           LabeledFrom(r.value[i], topRows[i], Bayes.Posterior(prior, likelihoods))
  {
    var labeled := [];
    for i := 0 to |topRows|
      invariant |labeled| == i
      invariant i > 0 ==> 0.0 < prior < 1.0
      invariant forall j :: 0 <= j < i ==>
        LabeledFrom(labeled[j], topRows[j], Bayes.Posterior(prior, likelihoods))
    {
      var post := Bayes.PosteriorFromLikelihoods(prior, likelihoods);
      if post.Err? {
        return Err(post.error);
      }
      var publishAs := if post.value >= 0.90 then "Actionable" else "MonitoringOnly";
      var nr := topRows[i]["posterior" := Float(Round4(post.value))]["publish_as" := Str(publishAs)];
      labeled := labeled + [nr];
    }
    r := Ok(labeled);
  }

  /** The stored posterior is within half a unit of the fourth decimal of
      the true one, and still a probability. */
  lemma StoredPosteriorClose(prior: real, likelihoods: seq<real>)
    requires 0.0 < prior < 1.0
    ensures Abs(Round4(Bayes.Posterior(prior, likelihoods)) - Bayes.Posterior(prior, likelihoods)) <= 0.00005
    ensures 0.0 <= Round4(Bayes.Posterior(prior, likelihoods)) <= 1.0
  {
    Round4UnitInterval(Bayes.Posterior(prior, likelihoods));
  }

  /** With the orchestrator's arguments (prior 0.55, one neutral ratio)
      the posterior stays 0.55, is stored as 0.55 and is not publishable. */
  lemma DefaultArgumentsMonitorOnly()
    ensures Bayes.Posterior(0.55, [1.0]) == 0.55
    ensures Round4(0.55) == 0.55
    ensures PublishAs(0.55) == MonitoringOnly
  {
    Bayes.DefaultPriorExamples();
    Round4Examples();
  }

  /** The gate reads the unrounded posterior: with no evidence and a prior
      of 0.89996 the posterior is 0.89996, stored as 0.9, and still labelled
      MonitoringOnly. */
  lemma GateUsesUnroundedPosterior()
    ensures Bayes.Posterior(0.89996, []) == 0.89996
    ensures Round4(0.89996) == 0.9
    ensures PublishAs(0.89996) == MonitoringOnly
  {
    Bayes.PosteriorNeutral(0.89996, []);
    Round4Examples();
  }

  /** A ratio of 5 on the default prior gives 55/64 (about 0.859), stored as
      0.8594 and still below the gate. */
  lemma StrongEvidenceStillMonitoring()
    ensures Bayes.Posterior(0.55, [5.0]) == 55.0 / 64.0
    ensures Round4(55.0 / 64.0) == 0.8594
    ensures PublishAs(55.0 / 64.0) == MonitoringOnly
  {
    Bayes.DefaultPriorExamples();
    Round4Examples();
  }
}
