/** The impact modeler (policyedge_top20_report/app/services/impact_modeler.py):
    one impact record per policy event, in order, with the dollar-impact
    fields left unresolved. */
module ImpactModeler {
  import opened Values

  /** The keys of every impact record. */
  const ImpactKeys: set<string> :=
    {"signal", "agency", "dollar_impact_usd", "tradable_unit", "formula_text",
     "inputs_json", "lo_hi_band", "citations"}

  /** `out` is the impact record built from event `ev`: the headline becomes
      the signal, the agency is carried over (both default to ""), the
      event itself is kept under `inputs_json`, the impact fields are None
      and the citation list is empty. */
  ghost predicate ImpactFrom(out: Row, ev: Row)
  {
    && out.Keys == ImpactKeys
    && out["signal"] == Get(ev, "headline", Str(""))
    && out["agency"] == Get(ev, "agency", Str(""))
    && out["dollar_impact_usd"] == Null
    && out["tradable_unit"] == Null
    && out["formula_text"] == Null
    && out["inputs_json"] == Dict(ev)
    && out["lo_hi_band"] == Null
    && out["citations"] == List([])
  }

  /** `compute_reg_impact` */
  method ComputeRegImpact(policyEvents: seq<Row>) returns (results: seq<Row>)
    ensures |results| == |policyEvents|
    ensures forall i :: 0 <= i < |results| ==> ImpactFrom(results[i], policyEvents[i])
  {
    results := [];
    for i := 0 to |policyEvents|
      invariant |results| == i
      invariant forall j :: 0 <= j < i ==> ImpactFrom(results[j], policyEvents[j])
    {
      var ev := policyEvents[i];
      var record := map[
        "signal" := Get(ev, "headline", Str("")),
        "agency" := Get(ev, "agency", Str("")),
        "dollar_impact_usd" := Null,
        "tradable_unit" := Null,
        "formula_text" := Null,
        "inputs_json" := Dict(ev),
        "lo_hi_band" := Null,
        "citations" := List([])
      ];
      results := results + [record];
    }
  }
}
