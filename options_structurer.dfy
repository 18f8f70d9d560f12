/** The options structurer (policyedge_top20_report/app/services/options_structurer.py):
    every row without a usable options play gets the fallback template text,
    in place; a play already set is never overwritten. */
module OptionsStructurer {
  import opened Values

  const OptionsPlay: string := "options_play"

  /** The documented fallback, so that no row renders a blank strategy. */
  const Fallback: string := "Template: see configs/options_templates_map.json"

  /** `r["options_play"] = r.get("options_play") or FALLBACK` on one row. */
  function WithOptionsPlay(r: Row): (r': Row)
    ensures r'.Keys == r.Keys + {OptionsPlay}
    ensures forall k :: k in r && k != OptionsPlay ==> r'[k] == r[k]
    ensures Truthy(r'[OptionsPlay])
    ensures OptionsPlay in r && Truthy(r[OptionsPlay]) ==> r' == r
    ensures !(OptionsPlay in r && Truthy(r[OptionsPlay])) ==> r'[OptionsPlay] == Str(Fallback)
  {
    var current := Get(r, OptionsPlay, Null);
    r[OptionsPlay := if Truthy(current) then current else Str(Fallback)]
  }

  /** The rows after the pass, element by element. */
  function Structured(rows: seq<Row>): (out: seq<Row>)
    ensures |out| == |rows|
  {
    seq(|rows|, i requires 0 <= i < |rows| => WithOptionsPlay(rows[i]))
  }

  /** `build_structures_for_rows`: updates the caller's rows in place and
      returns the same list; the IV-rank hint is accepted and not consulted. */
  method BuildStructuresForRows(rows: array<Row>, ivRankHint: Option<real> := None) returns (same: array<Row>)
    modifies rows
    ensures same == rows
    ensures rows[..] == Structured(old(rows[..]))
  {
    for i := 0 to rows.Length
      invariant forall j :: 0 <= j < i ==> rows[j] == WithOptionsPlay(old(rows[j]))
      invariant forall j :: i <= j < rows.Length ==> rows[j] == old(rows[j])
    {
      var r := rows[i];
      var current := Get(r, OptionsPlay, Null);
      rows[i] := r[OptionsPlay := if Truthy(current) then current else Str(Fallback)];
    }
    same := rows;
  }

  /** After the pass every row has a truthy options play, and every other
      field of every row is as it was. */
  lemma {:induction false} StructuredComplete(rows: seq<Row>)
    ensures forall i :: 0 <= i < |rows| ==>
      && OptionsPlay in Structured(rows)[i]
      && Truthy(Structured(rows)[i][OptionsPlay])
      && Structured(rows)[i].Keys == rows[i].Keys + {OptionsPlay}
      && forall k :: k in rows[i] && k != OptionsPlay ==> Structured(rows)[i][k] == rows[i][k]
  {
    forall i | 0 <= i < |rows|
      ensures OptionsPlay in Structured(rows)[i] && Truthy(Structured(rows)[i][OptionsPlay])
    {
      assert Structured(rows)[i] == WithOptionsPlay(rows[i]);
    }
  }

  /** First writer wins: a row that already carries a truthy play is left
      exactly as it was. */
  lemma {:induction false} StructuredKeepsExisting(rows: seq<Row>, i: nat)
    requires i < |rows|
    requires OptionsPlay in rows[i] && Truthy(rows[i][OptionsPlay])
    ensures Structured(rows)[i] == rows[i]
  {
    assert Structured(rows)[i] == WithOptionsPlay(rows[i]);
  }

  /** Running the pass twice is the same as running it once. */
  lemma {:induction false} StructuredIdempotent(rows: seq<Row>)
    ensures Structured(Structured(rows)) == Structured(rows)
  {
    var once := Structured(rows);
    forall i | 0 <= i < |rows|
      ensures Structured(once)[i] == once[i]
    {
      assert once[i] == WithOptionsPlay(rows[i]);
      assert Structured(once)[i] == WithOptionsPlay(once[i]);
    }
  }
}
