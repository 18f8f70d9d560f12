/** The short-signals reference formulas (short_signals_kit/code/utils/formulas.py):
    loss given default, the tranche subordination waterfall, the composite
    signal score and the threshold filter over signal dictionaries. */
module Formulas {
  import opened Values
  import opened Numbers

  // ---------------------------------------------------------------------
  // Loss given default

  /** Base LGD by property type; any other type gets 0.30. */
  const BaseLgdMap: map<string, real> :=
    map["SFR" := 0.25, "CONDO" := 0.35, "COOP" := 0.45, "MFR" := 0.40]

  const DefaultBaseLgd: real := 0.30

  /** State adjustments: high-value markets lower LGD, volatile ones raise it. */
  const StateAdjustmentMap: map<string, real> :=
    map["CA" := -0.05, "NY" := -0.05, "MA" := -0.05,
        "NV" := 0.10, "FL" := 0.10, "AZ" := 0.10]

  const LgdFloor: real := 0.05
  const LgdCap: real := 0.95

  function BaseLgd(propertyType: string): (b: real)
    ensures 0.25 <= b <= 0.45
  {
    if propertyType in BaseLgdMap then BaseLgdMap[propertyType] else DefaultBaseLgd
  }

  /** `max(0, (ltv - 0.8) * 0.5)` */
  function LtvAdjustment(ltv: real): (a: real)
    ensures a >= 0.0
    ensures ltv <= 0.8 ==> a == 0.0
    ensures ltv > 0.8 ==> a == (ltv - 0.8) / 2.0
  {
    Max(0.0, (ltv - 0.8) * 0.5)
  }

  /** Falling prices raise LGD, by half the fall, capped at 0.20 either way. */
  function HpiAdjustment(hpiChange: real): (a: real)
    ensures -0.20 <= a <= 0.20
    ensures -0.40 <= hpiChange <= 0.40 ==> a == -hpiChange / 2.0
  {
    Max(-0.20, Min(0.20, -hpiChange * 0.5))
  }

  function StateAdjustment(propertyState: string): (a: real)
    ensures -0.05 <= a <= 0.10
  {
    if propertyState in StateAdjustmentMap then StateAdjustmentMap[propertyState] else 0.0
  }

  /** `calculate_lgd_base` */
  function LgdBase(ltv: real, propertyType: string := "SFR", propertyState: string := "CA", hpiChange: real := 0.0): (lgd: real)
    ensures LgdFloor <= lgd <= LgdCap
  {
    var lgd := BaseLgd(propertyType) + LtvAdjustment(ltv) + HpiAdjustment(hpiChange) + StateAdjustment(propertyState);
    Max(LgdFloor, Min(LgdCap, lgd))
  }

  /** The table of base LGDs, and the state adjustments. */
  lemma LgdTables(t: string, st: string)
    ensures BaseLgd("SFR") == 0.25 && BaseLgd("CONDO") == 0.35
    ensures BaseLgd("COOP") == 0.45 && BaseLgd("MFR") == 0.40
    ensures t !in {"SFR", "CONDO", "COOP", "MFR"} ==> BaseLgd(t) == 0.30
    ensures st in {"CA", "NY", "MA"} ==> StateAdjustment(st) == -0.05
    ensures st in {"NV", "FL", "AZ"} ==> StateAdjustment(st) == 0.10
    ensures st !in {"CA", "NY", "MA", "NV", "FL", "AZ"} ==> StateAdjustment(st) == 0.0
  {
  }

  /** A higher loan-to-value never lowers LGD. */
  lemma LgdMonotoneInLtv(ltv1: real, ltv2: real, t: string, st: string, hpi: real)
    requires ltv1 <= ltv2
    ensures LgdBase(ltv1, t, st, hpi) <= LgdBase(ltv2, t, st, hpi)
  {
    assert LtvAdjustment(ltv1) <= LtvAdjustment(ltv2);
  }

  /** A larger house-price rise never raises LGD. */
  lemma LgdAntitoneInHpi(ltv: real, t: string, st: string, hpi1: real, hpi2: real)
    requires hpi1 <= hpi2
    ensures LgdBase(ltv, t, st, hpi2) <= LgdBase(ltv, t, st, hpi1)
  {
    assert HpiAdjustment(hpi2) <= HpiAdjustment(hpi1);
  }

  /** The module's own test loan: LTV 0.85, a Californian single-family
      home, prices down 20%: 0.25 + 0.025 + 0.10 - 0.05 = 0.325. With the
      defaults and LTV 0.8 the LGD is 0.20. */
  lemma LgdExamples()
    ensures LgdBase(0.85, "SFR", "CA", -0.20) == 0.325
    ensures LgdBase(0.8) == 0.20
  {
    assert BaseLgd("SFR") == 0.25 && StateAdjustment("CA") == -0.05;
  }

  // ---------------------------------------------------------------------
  // Tranche subordination

  datatype TrancheLosses = TrancheLosses(
    poolLossRate: real,
    trancheLossRate: real,
    trancheSize: real,
    trancheLoss: real,
    attachmentPoint: real,
    detachmentPoint: real)

  /** The pool's loss rate; 0 for an empty or negative pool. */
  function PoolLossRate(poolLosses: real, poolBalance: real): (l: real)
    ensures poolBalance <= 0.0 ==> l == 0.0
    ensures poolBalance > 0.0 ==> l * poolBalance == poolLosses
  {
    if poolBalance > 0.0 then poolLosses / poolBalance else 0.0
  }

  /** How much of the tranche the pool loss rate `l` eats: nothing at or
      below attachment, all of it at or above detachment, linearly in
      between. */
  function TrancheLossRate(l: real, attachment: real, detachment: real): (x: real)
    ensures 0.0 <= x <= 1.0
    ensures l <= attachment ==> x == 0.0
    ensures attachment < l && detachment <= l ==> x == 1.0
    ensures attachment < l < detachment ==> x * (detachment - attachment) == l - attachment
  {
    if l <= attachment then 0.0
    else if l >= detachment then 1.0
    else
      var width := detachment - attachment;
      QuotientInUnit(l - attachment, width);
      (l - attachment) / width
  }

  /** `calculate_tranche_subordination` */
  function TrancheSubordination(poolLosses: real, attachment: real, detachment: real, poolBalance: real): (t: TrancheLosses)
    ensures poolBalance > 0.0 ==> t.poolLossRate * poolBalance == poolLosses
    ensures 0.0 <= t.trancheLossRate <= 1.0
    ensures t.attachmentPoint == attachment && t.detachmentPoint == detachment
  {
    var l := PoolLossRate(poolLosses, poolBalance);
    var rate := TrancheLossRate(l, attachment, detachment);
    var size := (detachment - attachment) * poolBalance;
    TrancheLosses(l, rate, size, rate * size, attachment, detachment)
  }

  /** With the attachment point below the detachment point and a
      non-negative pool, the tranche never loses more than its size. */
  lemma TrancheLossWithinSize(poolLosses: real, attachment: real, detachment: real, poolBalance: real)
    requires attachment <= detachment && poolBalance >= 0.0
    ensures var t := TrancheSubordination(poolLosses, attachment, detachment, poolBalance);
      0.0 <= t.trancheSize && 0.0 <= t.trancheLoss <= t.trancheSize
  {
    var t := TrancheSubordination(poolLosses, attachment, detachment, poolBalance);
    assert t.trancheSize >= 0.0;
    ScaleWithinUnit(t.trancheLossRate, t.trancheSize);
  }

  /** A fraction in [0, 1] of a non-negative amount is at most the amount. */
  lemma ScaleWithinUnit(x: real, size: real)
    requires 0.0 <= x <= 1.0 && size >= 0.0
    ensures 0.0 <= x * size <= size
  {
    assert size - x * size == (1.0 - x) * size;
  }

  /** More pool losses never mean a smaller tranche loss rate. */
  lemma TrancheLossRateMonotone(l1: real, l2: real, attachment: real, detachment: real)
    requires l1 <= l2
    ensures TrancheLossRate(l1, attachment, detachment) <= TrancheLossRate(l2, attachment, detachment)
  {
    if attachment < l1 < detachment && attachment < l2 < detachment {
      var w := detachment - attachment;
      var x1, x2 := TrancheLossRate(l1, attachment, detachment), TrancheLossRate(l2, attachment, detachment);
      assert w > 0.0;
      assert (x2 - x1) * w == l2 - l1;
      assert x2 - x1 == (l2 - l1) / w;
    }
  }

  /** For a positive pool, more pool losses mean a pool loss rate at least
      as high. */
  lemma PoolLossRateMonotone(losses1: real, losses2: real, poolBalance: real)
    requires losses1 <= losses2 && poolBalance > 0.0
    ensures PoolLossRate(losses1, poolBalance) <= PoolLossRate(losses2, poolBalance)
  {
    var l1, l2 := PoolLossRate(losses1, poolBalance), PoolLossRate(losses2, poolBalance);
    assert (l2 - l1) * poolBalance == losses2 - losses1;
  }

  /** For a positive pool, more pool losses never mean a smaller tranche
      loss. */
  lemma TrancheLossMonotone(losses1: real, losses2: real, attachment: real, detachment: real, poolBalance: real)
    requires losses1 <= losses2 && poolBalance > 0.0 && attachment <= detachment
    ensures TrancheSubordination(losses1, attachment, detachment, poolBalance).trancheLoss
         <= TrancheSubordination(losses2, attachment, detachment, poolBalance).trancheLoss
  {
    var l1, l2 := PoolLossRate(losses1, poolBalance), PoolLossRate(losses2, poolBalance);
    PoolLossRateMonotone(losses1, losses2, poolBalance);
    TrancheLossRateMonotone(l1, l2, attachment, detachment);
    var r1, r2 := TrancheLossRate(l1, attachment, detachment), TrancheLossRate(l2, attachment, detachment);
    var size := (detachment - attachment) * poolBalance;
    MulMonotone(0.0, detachment - attachment, poolBalance);
    MulMonotone(r1, r2, size);
  }

  /** A 10% loss on a 5-10% mezzanine tranche of a 1000 pool wipes it out;
      a 7% loss takes 40% of it. */
  lemma TrancheExamples()
    ensures TrancheSubordination(100.0, 0.05, 0.10, 1000.0).trancheLossRate == 1.0
    ensures TrancheSubordination(70.0, 0.05, 0.10, 1000.0).trancheLossRate == 0.4
    ensures TrancheSubordination(70.0, 0.05, 0.10, 1000.0).trancheLoss == 20.0
  {
    assert PoolLossRate(100.0, 1000.0) == 0.1;
    assert PoolLossRate(70.0, 1000.0) == 0.07;
  }

  // ---------------------------------------------------------------------
  // Composite score

  /** `max(0.1, decay)`, where `decay` stands for `exp(-recency_hours / 24)`. */
  function RecencyFactor(decay: real): (f: real)
    ensures f >= 0.1
    ensures decay >= 0.1 ==> f == decay
  {
    Max(0.1, decay)
  }

  /** `calculate_composite_score`, the exponential decay taken as given:
      `decay` is `exp(-recency_hours / 24)`, so the source's default of 24
      hours is a decay of exp(-1), which has no exact real value here, and
      `decay` has no default (pass it by name to use the default weight). */
  function CompositeScore(signalStrength: real, confidenceScore: real, modelWeight: real := 1.0, decay: real): (score: real)
    ensures 0.0 <= score <= 1.0
  {
    var strength := Clamp(0.0, 1.0, signalStrength);
    var confidence := Clamp(0.0, 1.0, confidenceScore);
    var weight := Clamp(0.1, 2.0, modelWeight);
    Clamp(0.0, 1.0, Decayed(WeightedSum(strength, confidence, weight), RecencyFactor(decay)))
  }

  /** The weighted sum scaled by the recency factor, before the final clamp. */
  function Decayed(sum: real, factor: real): real
  {
    sum * factor
  }

  /** The undecayed weighted sum of the clamped inputs. */
  function WeightedSum(strength: real, confidence: real, weight: real): real
  {
    strength * 0.4 + confidence * 0.4 + weight * 0.2
  }

  /** Without decay (a factor of 1) and with in-range inputs the score is
      the weighted sum, capped at 1. */
  lemma CompositeWithoutDecay(s: real, c: real, w: real)
    requires 0.0 <= s <= 1.0 && 0.0 <= c <= 1.0 && 0.1 <= w <= 2.0
    ensures CompositeScore(s, c, w, 1.0) == Min(1.0, 0.4 * s + 0.4 * c + 0.2 * w)
  {
  }

  /** A stronger signal never scores lower, whatever the decay. */
  lemma CompositeMonotoneInStrength(s1: real, s2: real, c: real, w: real, decay: real)
    requires s1 <= s2
    ensures CompositeScore(s1, c, w, decay) <= CompositeScore(s2, c, w, decay)
  {
    var f := RecencyFactor(decay);
    var c', w' := Clamp(0.0, 1.0, c), Clamp(0.1, 2.0, w);
    ClampMonotone(0.0, 1.0, s1, s2);
    var a1 := WeightedSum(Clamp(0.0, 1.0, s1), c', w');
    var a2 := WeightedSum(Clamp(0.0, 1.0, s2), c', w');
    MulMonotone(a1, a2, f);
    ClampMonotone(0.0, 1.0, Decayed(a1, f), Decayed(a2, f));
  }

  /** The module's example call (strength 0.85, confidence 0.8, weight 1.2)
      scores 0.9 times the recency factor. */
  lemma CompositeExample(decay: real)
    requires 0.1 <= decay <= 1.0
    ensures CompositeScore(0.85, 0.80, 1.2, decay) == 0.9 * decay
  {
    MulMonotone(decay, 1.0, 0.9);
  }

  // ---------------------------------------------------------------------
  // Threshold filter

  const CompositeMinimumKey: string := "composite_score_minimum"
  const ConfidenceThresholdKey: string := "confidence_threshold"
  const EvidenceRequiredKey: string := "evidence_required_sources"
  const RejectionReason: string := "Below thresholds"

  /** `thresholds.get(key, default)` */
  function Threshold(thresholds: map<string, real>, key: string, default: real): real
  {
    if key in thresholds then thresholds[key] else default
  }

  function MinComposite(thresholds: map<string, real>): real
  {
    Threshold(thresholds, CompositeMinimumKey, 0.7)
  }

  function MinConfidence(thresholds: map<string, real>): real
  {
    Threshold(thresholds, ConfidenceThresholdKey, 0.8)
  }

  function MinEvidence(thresholds: map<string, real>): real
  {
    Threshold(thresholds, EvidenceRequiredKey, 2.0)
  }

  /** Whether a signal meets the thresholds, as the `and` chain evaluates
      it: `len` of the evidence first, then the comparisons left to right,
      stopping at the first that fails. A value with no length or that is
      not a number raises TypeError. */
  function Verdict(signal: Row, thresholds: map<string, real>): (v: Result<bool>)
    ensures v.Err? ==> v.error == TypeError
  {
    var composite := Get(signal, "composite_score", Int(0));
    var confidence := Get(signal, "confidence_score", Int(0));
    match Len(Get(signal, "evidence", List([])))
    case None => Err(TypeError)
    case Some(evidenceCount) =>
      match AsNumber(composite)
      case None => Err(TypeError)
      case Some(x) =>
        if !(x >= MinComposite(thresholds)) then Ok(false)
        else
          match AsNumber(confidence)
          case None => Err(TypeError)
          case Some(y) =>
            if !(y >= MinConfidence(thresholds)) then Ok(false)
            else Ok(evidenceCount as real >= MinEvidence(thresholds))
  }

  /** A signal passes exactly when all three values are numbers (or an
      evidence list with a length) meeting their thresholds. */
  lemma VerdictPasses(signal: Row, thresholds: map<string, real>)
    ensures Verdict(signal, thresholds) == Ok(true) <==>
      && AsNumber(Get(signal, "composite_score", Int(0))).Some?
      && AsNumber(Get(signal, "composite_score", Int(0))).value >= MinComposite(thresholds)
      && AsNumber(Get(signal, "confidence_score", Int(0))).Some?
      && AsNumber(Get(signal, "confidence_score", Int(0))).value >= MinConfidence(thresholds)
      && Len(Get(signal, "evidence", List([]))).Some?
      && Len(Get(signal, "evidence", List([]))).value as real >= MinEvidence(thresholds)
  {
  }

  /** The signal after it has been judged. */
  function Marked(signal: Row, passed: bool): Row
  {
    if passed then signal["threshold_breach" := Bool(true)]
    else signal["threshold_breach" := Bool(false)]["rejection_reason" := Str(RejectionReason)]
  }

  /** Marking records the verdict in `threshold_breach`, adds the rejection
      reason to a rejected signal and leaves every other field as it was. */
  lemma MarkedFields(signal: Row, passed: bool)
    ensures Marked(signal, passed).Keys == signal.Keys + {"threshold_breach"} + (if passed then {} else {"rejection_reason"})
    ensures Marked(signal, passed)["threshold_breach"] == Bool(passed)
    ensures !passed ==> Marked(signal, passed)["rejection_reason"] == Str(RejectionReason)
    ensures forall k :: k in signal && k != "threshold_breach" && (passed || k != "rejection_reason") ==>
      Marked(signal, passed)[k] == signal[k]
  {
  }

  /** The list the filter returns: the passing signals, marked, in input
      order; or the error of the first signal that cannot be judged. */
  function Validated(signals: seq<Row>, thresholds: map<string, real>): (r: Result<seq<Row>>)
  {
    if signals == [] then Ok([])
    else
      var last := signals[|signals| - 1];
      match Validated(signals[..|signals| - 1], thresholds)
      case Err(e) => Err(e)
      case Ok(acc) =>
        match Verdict(last, thresholds)
        case Err(e) => Err(e)
        case Ok(passed) => Ok(acc + if passed then [Marked(last, true)] else [])
  }

  /** The position of the first signal that cannot be judged, or the
      length when every one can. */
  function FirstError(signals: seq<Row>, thresholds: map<string, real>): (k: nat)
    ensures k <= |signals|
    ensures forall i :: 0 <= i < k ==> Verdict(signals[i], thresholds).Ok?
    ensures k < |signals| ==> Verdict(signals[k], thresholds).Err?
  {
    if signals == [] then 0
    else if Verdict(signals[0], thresholds).Err? then 0
    else 1 + FirstError(signals[1..], thresholds)
  }

  /** The first signal that cannot be judged is the one after a run of
      signals that can. */
  lemma {:induction false} FirstErrorIs(signals: seq<Row>, thresholds: map<string, real>, i: nat)
    requires i <= |signals|
    requires forall j :: 0 <= j < i ==> Verdict(signals[j], thresholds).Ok?
    requires i < |signals| ==> Verdict(signals[i], thresholds).Err?
    ensures FirstError(signals, thresholds) == i
  {
    if i > 0 {
      assert Verdict(signals[0], thresholds).Ok?;
      FirstErrorIs(signals[1..], thresholds, i - 1);
    }
  }

  /** Once a signal cannot be judged the whole call fails. */
  lemma {:induction false} ValidatedErrorPersists(signals: seq<Row>, thresholds: map<string, real>, i: nat)
    requires i <= |signals|
    requires Validated(signals[..i], thresholds) == Err(TypeError)
    ensures Validated(signals, thresholds) == Err(TypeError)
    decreases |signals| - i
  {
    if i < |signals| {
      assert signals[..i + 1][..i] == signals[..i];
      ValidatedErrorPersists(signals, thresholds, i + 1);
    } else {
      assert signals[..i] == signals;
    }
  }

  /** `validate_signal_thresholds`: marks every signal in place and returns
      the passing ones in order. A signal that cannot be judged raises
      TypeError; the signals before it stay marked and the rest untouched. */
  method ValidateSignalThresholds(signals: array<Row>, thresholds: map<string, real>) returns (r: Result<seq<Row>>)
    modifies signals
    ensures r == Validated(old(signals[..]), thresholds)
    ensures r.Err? <==> FirstError(old(signals[..]), thresholds) < signals.Length
    ensures forall i :: 0 <= i < FirstError(old(signals[..]), thresholds) ==>
      signals[i] == Marked(old(signals[i]), Verdict(old(signals[i]), thresholds).value)
    ensures forall i :: FirstError(old(signals[..]), thresholds) <= i < signals.Length ==>
      signals[i] == old(signals[i])
  {
    ghost var input := signals[..];
    var validated: seq<Row> := [];
    for i := 0 to signals.Length
      invariant Validated(input[..i], thresholds) == Ok(validated)
      invariant forall j :: 0 <= j < i ==> Verdict(input[j], thresholds).Ok?
      invariant forall j :: 0 <= j < i ==> signals[j] == Marked(input[j], Verdict(input[j], thresholds).value)
      invariant forall j :: i <= j < signals.Length ==> signals[j] == input[j]
    {
      var signal := signals[i];
      assert signal == input[i];
      ValidatedStep(input, thresholds, i, validated);
      var verdict := Verdict(signal, thresholds);
      if verdict.Err? {
        ValidatedErrorPersists(input, thresholds, i + 1);
        FirstErrorIs(input, thresholds, i);
        return Err(TypeError);
      }
      var passed := verdict.value;
      ghost var previous := validated;
      if passed {
        signals[i] := signal["threshold_breach" := Bool(true)];
        validated := validated + [signals[i]];
      } else {
        signals[i] := signal["threshold_breach" := Bool(false)]["rejection_reason" := Str(RejectionReason)];
      }
      assert signals[i] == Marked(input[i], passed);
      assert validated == previous + if passed then [Marked(input[i], true)] else [];
    }
    assert input[..signals.Length] == input;
    FirstErrorIs(input, thresholds, signals.Length);
    r := Ok(validated);
  }

  /** One more signal extends the result by that signal, marked, when it
      passes, and fails the call when it cannot be judged. */
  lemma ValidatedStep(signals: seq<Row>, thresholds: map<string, real>, i: nat, acc: seq<Row>)
    requires i < |signals|
    requires Validated(signals[..i], thresholds) == Ok(acc)
    ensures Verdict(signals[i], thresholds).Err? ==> Validated(signals[..i + 1], thresholds) == Err(TypeError)
    ensures Verdict(signals[i], thresholds).Ok? ==>
      Validated(signals[..i + 1], thresholds) == Ok(acc + if Verdict(signals[i], thresholds).value then [Marked(signals[i], true)] else [])
  {
    assert signals[..i + 1][..i] == signals[..i];
    assert signals[..i + 1][i] == signals[i];
  }

  /** Judging a list in two parts gives the two results in order. */
  lemma {:induction false} ValidatedAppend(s: seq<Row>, t: seq<Row>, thresholds: map<string, real>)
    requires Validated(s, thresholds).Ok? && Validated(t, thresholds).Ok?
    ensures Validated(s + t, thresholds) == Ok(Validated(s, thresholds).value + Validated(t, thresholds).value)
  {
    if t == [] {
      assert s + t == s;
      assert Validated(s, thresholds).value + Validated(t, thresholds).value == Validated(s, thresholds).value;
    } else {
      var init, last := t[..|t| - 1], t[|t| - 1];
      assert (s + t)[..|s + t| - 1] == s + init;
      assert (s + t)[|s + t| - 1] == last;
      assert Validated(init, thresholds).Ok? && Verdict(last, thresholds).Ok?;
      ValidatedAppend(s, init, thresholds);
      var extra := if Verdict(last, thresholds).value then [Marked(last, true)] else [];
      assert Validated(t, thresholds).value == Validated(init, thresholds).value + extra;
      assert Validated(s + t, thresholds) == Ok(Validated(s + init, thresholds).value + extra);
      assert Validated(s, thresholds).value + Validated(init, thresholds).value + extra
        == Validated(s, thresholds).value + (Validated(init, thresholds).value + extra);
    }
  }

  /** The call succeeds exactly when every signal can be judged. */
  lemma {:induction false} ValidatedOkIff(signals: seq<Row>, thresholds: map<string, real>)
    ensures Validated(signals, thresholds).Ok? <==> forall i :: 0 <= i < |signals| ==> Verdict(signals[i], thresholds).Ok?
  {
    if signals != [] {
      var init := signals[..|signals| - 1];
      ValidatedOkIff(init, thresholds);
      assert forall i :: 0 <= i < |init| ==> init[i] == signals[i];
    }
  }

  /** A successful call returns exactly the passing signals: every element
      is a passing signal marked as a breach, and every passing signal is
      there. */
  lemma {:induction false} ValidatedExactlyPassing(signals: seq<Row>, thresholds: map<string, real>)
    requires Validated(signals, thresholds).Ok?
    ensures forall x :: x in Validated(signals, thresholds).value <==>
      exists i :: 0 <= i < |signals| && Verdict(signals[i], thresholds) == Ok(true) && x == Marked(signals[i], true)
  {
    if signals != [] {
      var init, last := signals[..|signals| - 1], signals[|signals| - 1];
      ValidatedExactlyPassing(init, thresholds);
      forall x | x in Validated(signals, thresholds).value
        ensures exists i :: 0 <= i < |signals| && Verdict(signals[i], thresholds) == Ok(true) && x == Marked(signals[i], true)
      {
        if x in Validated(init, thresholds).value {
          var i :| 0 <= i < |init| && Verdict(init[i], thresholds) == Ok(true) && x == Marked(init[i], true);
          assert init[i] == signals[i];
        } else {
          assert Verdict(signals[|signals| - 1], thresholds) == Ok(true) && x == Marked(last, true);
        }
      }
      forall x | exists i :: 0 <= i < |signals| && Verdict(signals[i], thresholds) == Ok(true) && x == Marked(signals[i], true)
        ensures x in Validated(signals, thresholds).value
      {
        var i :| 0 <= i < |signals| && Verdict(signals[i], thresholds) == Ok(true) && x == Marked(signals[i], true);
        if i < |init| {
          assert init[i] == signals[i];
        }
      }
    }
  }

  /** With no configured thresholds the defaults apply: a signal exactly
      at 0.7 composite, 0.8 confidence with two evidence sources passes,
      and one with a single source does not. */
  lemma DefaultThresholds(signal: Row)
    requires signal.Keys == {"composite_score", "confidence_score", "evidence"}
    requires signal["composite_score"] == Float(0.7) && signal["confidence_score"] == Float(0.8)
    ensures signal["evidence"].List? && |signal["evidence"].items| == 2 ==> Verdict(signal, map[]) == Ok(true)
    ensures signal["evidence"] == List([Str("a")]) ==> Verdict(signal, map[]) == Ok(false)
  {
  }

  /** A signal without any of the fields is rejected, not an error. */
  lemma MissingFieldsRejected()
    ensures Verdict(map[], map[]) == Ok(false)
  {
  }
}
