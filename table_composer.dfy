/** The table composer (policyedge_top20_report/app/services/table_composer.py):
    no scoring yet, so the Top-5 is the first five impact records in input
    order, ranked 1..k, with the gating fields at their defaults. */
module TableComposer {
  import opened Values

  /** At most this many rows reach the table. */
  const TopN: nat := 5

  const Monitoring: string := "MonitoringOnly"

  const RankedKeys: set<string> :=
    {"rank", "signal", "agency", "dollar_impact_usd", "tradable_unit",
     "options_play", "posterior", "publish_as", "citations"}

  /** `out` is the ranked row with rank `rank` built from impact record `src`:
      signal, agency, dollar impact, tradable unit and citations are copied
      (missing signal/agency become "", missing citations []), no options
      play or posterior yet, and the row is not publishable. */
  ghost predicate RankedFrom(out: Row, rank: int, src: Row)
  {
    && out.Keys == RankedKeys
    && out["rank"] == Int(rank)
    && out["signal"] == Get(src, "signal", Str(""))
    && out["agency"] == Get(src, "agency", Str(""))
    && out["dollar_impact_usd"] == Get(src, "dollar_impact_usd", Null)
    && out["tradable_unit"] == Get(src, "tradable_unit", Null)
    && out["options_play"] == Null
    && out["posterior"] == Null
    && out["publish_as"] == Str(Monitoring)
    && out["citations"] == Get(src, "citations", List([]))
  }

  /** `score_and_top5`; the options map is accepted and not consulted. */
  method ScoreAndTop5(regImpactRows: seq<Row>, optionsMap: Row) returns (top: seq<Row>)
    ensures |top| == if |regImpactRows| < TopN then |regImpactRows| else TopN
    ensures forall i :: 0 <= i < |top| ==> RankedFrom(top[i], i + 1, regImpactRows[i])
  {
    var head := if |regImpactRows| < TopN then regImpactRows else regImpactRows[..TopN];
    top := [];
    for i := 0 to |head|
      invariant |top| == i
      invariant forall j :: 0 <= j < i ==> RankedFrom(top[j], j + 1, regImpactRows[j])
    {
      var r := head[i];
      var row := map[
        "rank" := Int(i + 1),
        "signal" := Get(r, "signal", Str("")),
        "agency" := Get(r, "agency", Str("")),
        "dollar_impact_usd" := Get(r, "dollar_impact_usd", Null),
        "tradable_unit" := Get(r, "tradable_unit", Null),
        "options_play" := Null,
        "posterior" := Null,
        "publish_as" := Str(Monitoring),
        "citations" := Get(r, "citations", List([]))
      ];
      top := top + [row];
    }
  }
}
