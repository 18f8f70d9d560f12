/** The checks the signal-insertion edge function runs on a parsed JSON
    request before it stores a signal: field validation into errors and
    warnings, the composite score, and the per-type breach threshold. */
module InsertSignal {
  import opened Values
  import opened Numbers
  import Formulas

  datatype ValidationResult = ValidationResult(isValid: bool, errors: seq<string>, warnings: seq<string>)

  const ValidSignalTypes: seq<string> :=
    ["TRANCHE_SHORT", "REG_SHOCK", "WAREHOUSE_STRESS", "CYBER_INCIDENT", "ENFORCEMENT_ACTION"]

  const ModelIdRequired: string := "model_id is required"
  const ModelNameRequired: string := "model_name is required"
  const SignalTypeRequired: string := "signal_type is required"
  const OrgIdRequired: string := "org_id is required"
  const StrengthOutOfRange: string := "signal_strength must be a number between 0 and 1"
  const ConfidenceOutOfRange: string := "confidence_score must be a number between 0 and 1"
  /** The message for a type outside the allowed list, which names the
      five allowed types joined by ", ". */
  const TypeNotAllowed: string :=
    "signal_type must be one of: " + "TRANCHE_SHORT, REG_SHOCK, " + "WAREHOUSE_STRESS, "
    + "CYBER_INCIDENT, ENFORCEMENT_ACTION"
  const SymbolRecommended: string := "symbol is recommended for most signal types"
  const EvidenceRecommended: string := "evidence is recommended for signal validation"

  /** `typeof v === 'number'` holding a value in [0, 1]. */
  predicate UnitNumber(v: Option<Value>)
  {
    match v
    case Some(Int(i)) => 0 <= i <= 1
    case Some(Float(f)) => 0.0 <= f <= 1.0
    case _ => false
  }

  /** `validSignalTypes.includes(v)`: strict equality, so only a string matches. */
  predicate AllowedType(v: Option<Value>)
  {
    v.Some? && v.value.Str? && v.value.s in ValidSignalTypes
  }

  /** `Object.keys(v).length` of a present, truthy value: the indices of a
      string or array, the keys of an object, none for a number or boolean. */
  function KeyCount(v: Value): nat
  {
    match v
    case Str(s) => |s|
    case List(items) => |items|
    case Dict(fields) => |fields|
    case _ => 0
  }

  /** The evidence warning's condition. */
  predicate EvidenceMissing(signal: Row)
  {
    !JsTruthy(Field(signal, "evidence")) || KeyCount(signal["evidence"]) == 0
  }

  /** `acc.push(message)` when the condition holds. */
  function Push(acc: seq<string>, condition: bool, message: string): seq<string>
  {
    if condition then acc + [message] else acc
  }

  /** Pushing adds the message, when the condition holds, behind what was
      there. */
  lemma PushMembers(acc: seq<string>, condition: bool, message: string)
    ensures |Push(acc, condition, message)| == |acc| + (if condition then 1 else 0)
    ensures forall x :: x in Push(acc, condition, message) <==> x in acc || (condition && x == message)
  {
  }

  /** The errors `validateSignal` reports, in the order it checks. */
  function ErrorsOf(signal: Row): seq<string>
  {
    var required :=
      Push(Push(Push(Push([],
        !JsTruthy(Field(signal, "model_id")), ModelIdRequired),
        !JsTruthy(Field(signal, "model_name")), ModelNameRequired),
        !JsTruthy(Field(signal, "signal_type")), SignalTypeRequired),
        !JsTruthy(Field(signal, "org_id")), OrgIdRequired);
    var numeric :=
      Push(Push(required,
        !UnitNumber(Field(signal, "signal_strength")), StrengthOutOfRange),
        !UnitNumber(Field(signal, "confidence_score")), ConfidenceOutOfRange);
    Push(numeric, !AllowedType(Field(signal, "signal_type")), TypeNotAllowed)
  }

  /** The warnings `validateSignal` reports, in the order it checks. */
  function WarningsOf(signal: Row): seq<string>
  {
    Push(Push([],
      !JsTruthy(Field(signal, "symbol")), SymbolRecommended),
      EvidenceMissing(signal), EvidenceRecommended)
  }

  /** `validateSignal`: pushes one error per failed requirement and one
      warning per missing recommended field; valid exactly when nothing
      was pushed onto the errors. */
  method ValidateSignal(signal: Row) returns (r: ValidationResult)
    ensures r.errors == ErrorsOf(signal)
    ensures r.warnings == WarningsOf(signal)
    ensures r.isValid <==> r.errors == []
  {
    var errors: seq<string> := [];
    var warnings: seq<string> := [];

    if !JsTruthy(Field(signal, "model_id")) { errors := errors + [ModelIdRequired]; }
    if !JsTruthy(Field(signal, "model_name")) { errors := errors + [ModelNameRequired]; }
    if !JsTruthy(Field(signal, "signal_type")) { errors := errors + [SignalTypeRequired]; }
    if !JsTruthy(Field(signal, "org_id")) { errors := errors + [OrgIdRequired]; }

    if !UnitNumber(Field(signal, "signal_strength")) { errors := errors + [StrengthOutOfRange]; }
    if !UnitNumber(Field(signal, "confidence_score")) { errors := errors + [ConfidenceOutOfRange]; }

    if !AllowedType(Field(signal, "signal_type")) { errors := errors + [TypeNotAllowed]; }

    assert errors == ErrorsOf(signal);
    if !JsTruthy(Field(signal, "symbol")) { warnings := warnings + [SymbolRecommended]; }
    if !JsTruthy(Field(signal, "evidence")) || KeyCount(signal["evidence"]) == 0 {
      warnings := warnings + [EvidenceRecommended];
    }

    return ValidationResult(|errors| == 0, errors, warnings);
  }

  /** A request is valid exactly when every required field is truthy, both
      scores are numbers in [0, 1] and the type is one of the five. */
  lemma ValidExactly(signal: Row)
    ensures ErrorsOf(signal) == [] <==>
      && JsTruthy(Field(signal, "model_id"))
      && JsTruthy(Field(signal, "model_name"))
      && JsTruthy(Field(signal, "org_id"))
      && UnitNumber(Field(signal, "signal_strength"))
      && UnitNumber(Field(signal, "confidence_score"))
      && AllowedType(Field(signal, "signal_type"))
  {
  }

  /** The messages among the errors: one per failed check. */
  lemma {:induction false} ErrorsMembers(signal: Row)
    ensures forall x :: x in ErrorsOf(signal) <==>
      || (x == ModelIdRequired && !JsTruthy(Field(signal, "model_id")))
      || (x == ModelNameRequired && !JsTruthy(Field(signal, "model_name")))
      || (x == SignalTypeRequired && !JsTruthy(Field(signal, "signal_type")))
      || (x == OrgIdRequired && !JsTruthy(Field(signal, "org_id")))
      || (x == StrengthOutOfRange && !UnitNumber(Field(signal, "signal_strength")))
      || (x == ConfidenceOutOfRange && !UnitNumber(Field(signal, "confidence_score")))
      || (x == TypeNotAllowed && !AllowedType(Field(signal, "signal_type")))
  {
    var e1 := Push([], !JsTruthy(Field(signal, "model_id")), ModelIdRequired);
    var e2 := Push(e1, !JsTruthy(Field(signal, "model_name")), ModelNameRequired);
    var e3 := Push(e2, !JsTruthy(Field(signal, "signal_type")), SignalTypeRequired);
    var e4 := Push(e3, !JsTruthy(Field(signal, "org_id")), OrgIdRequired);
    var e5 := Push(e4, !UnitNumber(Field(signal, "signal_strength")), StrengthOutOfRange);
    var e6 := Push(e5, !UnitNumber(Field(signal, "confidence_score")), ConfidenceOutOfRange);
    PushMembers([], !JsTruthy(Field(signal, "model_id")), ModelIdRequired);
    PushMembers(e1, !JsTruthy(Field(signal, "model_name")), ModelNameRequired);
    PushMembers(e2, !JsTruthy(Field(signal, "signal_type")), SignalTypeRequired);
    PushMembers(e3, !JsTruthy(Field(signal, "org_id")), OrgIdRequired);
    PushMembers(e4, !UnitNumber(Field(signal, "signal_strength")), StrengthOutOfRange);
    PushMembers(e5, !UnitNumber(Field(signal, "confidence_score")), ConfidenceOutOfRange);
    PushMembers(e6, !AllowedType(Field(signal, "signal_type")), TypeNotAllowed);
  }

  /** Each required field that is falsy (absent, null, 0, "" or false),
      a signal type outside the allowed list and each score that is not a
      number in [0, 1] contributes its own error, and only then. */
  lemma FieldErrors(signal: Row)
    ensures ModelIdRequired in ErrorsOf(signal) <==> !JsTruthy(Field(signal, "model_id"))
    ensures ModelNameRequired in ErrorsOf(signal) <==> !JsTruthy(Field(signal, "model_name"))
    ensures OrgIdRequired in ErrorsOf(signal) <==> !JsTruthy(Field(signal, "org_id"))
    ensures SignalTypeRequired in ErrorsOf(signal) <==> !JsTruthy(Field(signal, "signal_type"))
    ensures TypeNotAllowed in ErrorsOf(signal) <==> !AllowedType(Field(signal, "signal_type"))
    ensures StrengthOutOfRange in ErrorsOf(signal) <==> !UnitNumber(Field(signal, "signal_strength"))
    ensures ConfidenceOutOfRange in ErrorsOf(signal) <==> !UnitNumber(Field(signal, "confidence_score"))
  {
    ErrorsMembers(signal);
    MessagesDistinct();
  }

  /** No two error messages are the same: their lengths differ. */
  lemma MessagesDistinct()
    ensures |ModelIdRequired| == 20 && |ModelNameRequired| == 22 && |SignalTypeRequired| == 23
    ensures |OrgIdRequired| == 18 && |StrengthOutOfRange| == 48 && |ConfidenceOutOfRange| == 49
    ensures |TypeNotAllowed| == 106
  {
  }

  /** A model id of 0 is refused, as JavaScript treats 0 as false. */
  lemma ZeroModelIdRefused(signal: Row)
    requires "model_id" in signal && signal["model_id"] == Int(0)
    ensures ModelIdRequired in ErrorsOf(signal)
  {
  }

  /** A request without a type gets two errors for it: the missing field
      and the type outside the allowed list. */
  lemma MissingTypeTwoErrors(signal: Row)
    requires "signal_type" !in signal
    ensures SignalTypeRequired in ErrorsOf(signal)
    ensures TypeNotAllowed in ErrorsOf(signal)
    ensures |ErrorsOf(signal)| >= 2
  {
  }

  /** The recommended fields never change validity: whatever the symbol or
      the evidence, the errors are the same. */
  lemma WarningsDoNotAffectValidity(signal: Row, key: string, v: Value)
    requires key == "symbol" || key == "evidence"
    ensures ErrorsOf(signal[key := v]) == ErrorsOf(signal)
  {
    assert Field(signal[key := v], "model_id") == Field(signal, "model_id");
    assert Field(signal[key := v], "model_name") == Field(signal, "model_name");
    assert Field(signal[key := v], "signal_type") == Field(signal, "signal_type");
    assert Field(signal[key := v], "org_id") == Field(signal, "org_id");
    assert Field(signal[key := v], "signal_strength") == Field(signal, "signal_strength");
    assert Field(signal[key := v], "confidence_score") == Field(signal, "confidence_score");
  }

  /** Each warning appears exactly when its recommended field is missing. */
  lemma WarningsExactly(signal: Row)
    ensures SymbolRecommended in WarningsOf(signal) <==> !JsTruthy(Field(signal, "symbol"))
    ensures EvidenceRecommended in WarningsOf(signal) <==> EvidenceMissing(signal)
    ensures |WarningsOf(signal)| <= 2
  {
    PushMembers([], !JsTruthy(Field(signal, "symbol")), SymbolRecommended);
    PushMembers(Push([], !JsTruthy(Field(signal, "symbol")), SymbolRecommended), EvidenceMissing(signal), EvidenceRecommended);
    assert |SymbolRecommended| == 43 && |EvidenceRecommended| == 45;
  }

  /** Evidence given as an empty array or object still draws the warning,
      although JavaScript counts the array or object itself as present. */
  lemma EmptyEvidenceWarned(signal: Row)
    requires "evidence" in signal && (signal["evidence"] == List([]) || signal["evidence"] == Dict(map[]))
    ensures EvidenceRecommended in WarningsOf(signal)
  {
  }

  /** `calculateCompositeScore`: the same weighting as the Python module,
      where `decay` stands for `exp(-recencyHours / 24)`; the default of
      0 hours is a decay of 1. */
  function CalculateCompositeScore(signalStrength: real, confidenceScore: real, modelWeight: real := 1.0, decay: real := 1.0): (score: real)
    ensures 0.0 <= score <= 1.0
  {
    Formulas.CompositeScore(signalStrength, confidenceScore, modelWeight, decay)
  }

  /** At the call site (weight 1, no recency) a validated request scores
      0.4 s + 0.4 c + 0.2, capped at 1. */
  lemma CallSiteScore(s: real, c: real)
    requires 0.0 <= s <= 1.0 && 0.0 <= c <= 1.0
    ensures CalculateCompositeScore(s, c) == Min(1.0, 0.4 * s + 0.4 * c + 0.2)
  {
    Formulas.CompositeWithoutDecay(s, c, 1.0);
  }

  /** The breach threshold per signal type. */
  const TypeThresholds: map<string, real> := map[
    "TRANCHE_SHORT" := 0.75,
    "REG_SHOCK" := 0.70,
    "WAREHOUSE_STRESS" := 0.80,
    "CYBER_INCIDENT" := 0.65,
    "ENFORCEMENT_ACTION" := 0.70
  ]

  const DefaultThreshold: real := 0.75

  /** `thresholds[signalType] || 0.75`: no listed threshold is 0, so the
      fallback applies exactly to unlisted types. */
  function TypeThreshold(signalType: string): (t: real)
    ensures 0.65 <= t <= 0.80
    ensures signalType !in ValidSignalTypes ==> t == DefaultThreshold
  {
    if signalType in TypeThresholds then TypeThresholds[signalType] else DefaultThreshold
  }

  /** `determineThresholdBreach` */
  function DetermineThresholdBreach(compositeScore: real, signalType: string): (breach: bool)
    ensures signalType == "TRANCHE_SHORT" ==> (breach <==> compositeScore >= 0.75)
    ensures signalType == "REG_SHOCK" ==> (breach <==> compositeScore >= 0.70)
    ensures signalType == "WAREHOUSE_STRESS" ==> (breach <==> compositeScore >= 0.80)
    ensures signalType == "CYBER_INCIDENT" ==> (breach <==> compositeScore >= 0.65)
    ensures signalType == "ENFORCEMENT_ACTION" ==> (breach <==> compositeScore >= 0.70)
    ensures signalType !in ValidSignalTypes ==> (breach <==> compositeScore >= 0.75)
  {
    compositeScore >= TypeThreshold(signalType)
  }

  /** The threshold table covers exactly the allowed types. */
  lemma ThresholdsCoverAllowedTypes()
    ensures TypeThresholds.Keys == set t | t in ValidSignalTypes
  {
  }

  /** A higher score breaches whenever a lower one does. */
  lemma BreachMonotone(s1: real, s2: real, signalType: string)
    requires s1 <= s2
    ensures DetermineThresholdBreach(s1, signalType) ==> DetermineThresholdBreach(s2, signalType)
  {
  }

  /** At the call site, strength 0.7 with confidence 0.5 scores 0.68,
      short of the regulatory-shock threshold of 0.70, while confidence 0.7
      scores 0.76 and breaches it. */
  lemma CallSiteBreachExample()
    ensures CalculateCompositeScore(0.7, 0.5) == 0.68
    ensures !DetermineThresholdBreach(CalculateCompositeScore(0.7, 0.5), "REG_SHOCK")
    ensures DetermineThresholdBreach(CalculateCompositeScore(0.7, 0.7), "REG_SHOCK")
  {
    CallSiteScore(0.7, 0.5);
    CallSiteScore(0.7, 0.7);
  }
}
