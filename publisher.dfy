/** Decimal text and line joining, as Python's `str`, `format` and
    `"\n".join` produce them for the values the publisher renders. */
module Text {
  import Numbers

  function Digit(d: nat): char
    requires d < 10
  {
    "0123456789"[d]
  }

  /** `str(n)` for a non-negative integer. */
  function NatText(n: nat): (s: string)
    ensures |s| >= 1
    ensures forall i :: 0 <= i < |s| ==> '0' <= s[i] <= '9'
  {
    if n < 10 then [Digit(n)] else NatText(n / 10) + [Digit(n % 10)]
  }

  /** `str(i)` */
  function IntText(i: int): (s: string)
    ensures |s| >= 1
    ensures (s[0] == '-') <==> i < 0
  {
    if i < 0 then "-" + NatText(-i) else NatText(i)
  }

  function Spaces(n: nat): (s: string)
    ensures |s| == n
    ensures forall i :: 0 <= i < n ==> s[i] == ' '
  {
    seq(n, _ => ' ')
  }

  /** `format(s, "<w")`: left-aligned in a field of width `w`, never cut. */
  function PadRight(s: string, w: int): (r: string)
    ensures |r| == if |s| >= w then |s| else w
    ensures r[..|s|] == s
    ensures forall i :: |s| <= i < |r| ==> r[i] == ' '
  {
    if |s| >= w then s else s + Spaces(w - |s|)
  }

  /** `format(x, ".1f")`, rounding half to even on the exact value; a
      negative value keeps its sign even when it rounds to zero. */
  function OneDecimal(x: real): (s: string)
    ensures |s| >= 3
    ensures (s[0] == '-') <==> x < 0.0
  {
    var y := if x < 0.0 then -x else x;
    var n := Numbers.RoundHalfEven(y * 10.0);
    assert n >= 0;
    (if x < 0.0 then "-" else "") + NatText(n / 10) + "." + [Digit(n % 10)]
  }

  /** `"\n".join(lines)` */
  function Join(lines: seq<string>): (s: string)
    ensures lines == [] ==> s == ""
    ensures lines != [] ==> |s| >= |lines[0]| && s[..|lines[0]|] == lines[0]
    ensures |lines| >= 2 ==> |s| > |lines[0]| && s[|lines[0]|] == '\n'
  {
    if lines == [] then ""
    else if |lines| == 1 then lines[0]
    else lines[0] + "\n" + Join(lines[1..])
  }

  /** The position of the first newline, or |s| when there is none. */
  function NewlineAt(s: string): (k: nat)
    ensures k <= |s|
    ensures k < |s| ==> s[k] == '\n'
    ensures forall i :: 0 <= i < k ==> s[i] != '\n'
  {
    if s == [] then 0
    else if s[0] == '\n' then 0
    else 1 + NewlineAt(s[1..])
  }

  /** `s.split("\n")` */
  function Split(s: string): (parts: seq<string>)
    ensures |parts| >= 1
    decreases |s|
  {
    var k := NewlineAt(s);
    if k == |s| then [s] else [s[..k]] + Split(s[k + 1..])
  }

  lemma {:induction false} NewlineAtPrefix(a: string, b: string)
    requires '\n' !in a
    ensures NewlineAt(a + "\n" + b) == |a|
  {
    if a != [] {
      assert (a + "\n" + b)[1..] == a[1..] + "\n" + b;
      assert a == [a[0]] + a[1..];
      NewlineAtPrefix(a[1..], b);
    }
  }

  lemma {:induction false} NewlineAtNone(a: string)
    requires '\n' !in a
    ensures NewlineAt(a) == |a|
  {
    if a != [] {
      assert a == [a[0]] + a[1..];
      NewlineAtNone(a[1..]);
    }
  }

  /** Joining lines that hold no newline and splitting the result again
      gives the lines back. */
  lemma {:induction false} SplitJoin(lines: seq<string>)
    requires lines != []
    requires forall j :: 0 <= j < |lines| ==> '\n' !in lines[j]
    ensures Split(Join(lines)) == lines
  {
    if |lines| == 1 {
      NewlineAtNone(lines[0]);
    } else {
      var rest := Join(lines[1..]);
      NewlineAtPrefix(lines[0], rest);
      var s := lines[0] + "\n" + rest;
      assert s[..|lines[0]|] == lines[0];
      assert s[|lines[0]| + 1..] == rest;
      SplitJoin(lines[1..]);
    }
  }
}

/** The Top-5 table renderer (policyedge_top20_report/app/services/publisher.py):
    three header lines, one line per row in input order, a footer, joined
    with newlines. Every cell is computed as the Python f-string computes
    it, including the TypeErrors that `format` raises. `show` stands for
    `str()` of the values whose text is not modelled here (floats, lists,
    dictionaries). */
module Publisher {
  import opened Values
  import opened Text
  import Numbers

  /** The frame and heading, column by column (Rank, Signal (Agency),
      Dollar Impact, Tradable Unit, Options Play). */
  const Border: string :=
    "+-------" + "+-------------------------" + "+--------------" + "+-----------------------" + "+---------------------------" + "+"
  const Header: string :=
    "| Rank  " + "| Signal (Agency)         " + "| Dollar Impact" + "| Tradable Unit         " + "| Options Play              " + "|"

  /** Signals longer than this are cut. */
  const SignalLimit: nat := 23
  /** How many characters of a long signal are kept before the ellipsis. */
  const SignalKeep: nat := 20

  /** `str(v)` */
  function Display(v: Value, show: Value -> string): string
  {
    match v
    case Null => "None"
    case Bool(b) => if b then "True" else "False"
    case Int(i) => IntText(i)
    case Str(s) => s
    case _ => show(v)
  }

  /** `format(v, "<w")`: None, lists and dicts reject a non-empty format
      spec with TypeError; a bool formats as the integer it is. */
  function FormatLeft(v: Value, w: nat, show: Value -> string): (r: Result<string>)
    ensures r.Err? <==> v.Null? || v.List? || v.Dict?
    ensures r.Ok? ==> |r.value| >= w
    ensures v.Str? ==> r == Ok(PadRight(v.s, w))
  {
    match v
    case Str(s) => Ok(PadRight(s, w))
    case Int(i) => Ok(PadRight(IntText(i), w))
    case Bool(b) => Ok(PadRight(if b then "1" else "0", w))
    case Float(_) => Ok(PadRight(show(v), w))
    case _ => Err(TypeError)
  }

  /** The signal cell: `len` of the signal (TypeError when it has none);
      a string longer than 23 characters keeps its first 20 and gains
      "..."; slicing and concatenating a long list or dict fails. */
  function SignalCell(v: Value, show: Value -> string): (r: Result<string>)
    ensures Len(v).None? ==> r == Err(TypeError)
    ensures v.Str? && |v.s| <= SignalLimit ==> r == Ok(v.s)
    ensures v.Str? && |v.s| > SignalLimit ==>
      r.Ok? && |r.value| == SignalLimit && r.value[..SignalKeep] == v.s[..SignalKeep]
      && r.value[SignalKeep..] == "..."
    ensures v.Str? ==> r.Ok? && |r.value| <= SignalLimit
  {
    match Len(v)
    case None => Err(TypeError)
    case Some(n) =>
      if n > SignalLimit then
        (if v.Str? then Ok(v.s[..SignalKeep] + "...") else Err(TypeError))
      else Ok(Display(v, show))
  }

  /** The dollar cell: "N/A" unless the impact is truthy, then billions to
      one decimal; a truthy non-number cannot be divided (TypeError). */
  function DollarCell(r: Row): (c: Result<string>)
    ensures !Truthy(Get(r, "dollar_impact_usd", Null)) ==> c == Ok("N/A")
    ensures Truthy(Get(r, "dollar_impact_usd", Null)) && AsNumber(r["dollar_impact_usd"]).Some? ==>
      c.Ok? && |c.value| >= 6 && c.value[..2] == "~$" && c.value[|c.value| - 1] == 'B'
    ensures c.Err? <==> Truthy(Get(r, "dollar_impact_usd", Null)) && AsNumber(r["dollar_impact_usd"]).None?
  {
    if !Truthy(Get(r, "dollar_impact_usd", Null)) then Ok("N/A")
    else
      match AsNumber(r["dollar_impact_usd"])
      case None => Err(TypeError)
      case Some(x) => Ok("~$" + OneDecimal(x / 1000000000.0) + "B")
  }

  /** The tradable-unit cell as written: the "N/A" default only applies
      when the key is missing, so a present None reaches `format` and
      raises TypeError. */
  function TradableCellAsWritten(r: Row, show: Value -> string): (c: Result<string>)
    ensures "tradable_unit" !in r ==> c == Ok(PadRight("N/A", 21))
    ensures c.Err? <==> "tradable_unit" in r && (r["tradable_unit"].Null? || r["tradable_unit"].List? || r["tradable_unit"].Dict?)
  {
    FormatLeft(Get(r, "tradable_unit", Str("N/A")), 21, show)
  }

  /** The tradable-unit cell as intended: a missing or None unit shows
      "N/A". */
  function TradableCell(r: Row, show: Value -> string): (c: Result<string>)
    ensures Get(r, "tradable_unit", Null) == Null ==> c == Ok(PadRight("N/A", 21))
    ensures c.Err? <==> Get(r, "tradable_unit", Null).List? || Get(r, "tradable_unit", Null).Dict?
  {
    var v := Get(r, "tradable_unit", Null);
    if v == Null then Ok(PadRight("N/A", 21)) else FormatLeft(v, 21, show)
  }

  /** One table line, given the tradable-unit cell. */
  function LineWith(r: Row, show: Value -> string, tradable: Result<string>): (line: Result<string>)
    ensures line.Ok? ==> |line.value| >= 4 && line.value[..2] == "| " && line.value[|line.value| - 2..] == " |"
    ensures line.Ok? <==>
      && DollarCell(r).Ok?
      && SignalCell(Get(r, "signal", Str("")), show).Ok?
      && FormatLeft(Get(r, "rank", Int(0)), 5, show).Ok?
      && tradable.Ok?
      && FormatLeft(Get(r, "options_play", Str("N/A")), 25, show).Ok?
  {
    var di :- DollarCell(r);
    var sig :- SignalCell(Get(r, "signal", Str("")), show);
    var rank :- FormatLeft(Get(r, "rank", Int(0)), 5, show);
    var tu :- tradable;
    var op :- FormatLeft(Get(r, "options_play", Str("N/A")), 25, show);
    var agency := Display(Get(r, "agency", Str("")), show);
    Ok("| " + rank + " | " + sig + " (" + agency + ") | " + PadRight(di, 12) + " | " + tu + " | " + op + " |")
  }

  /** A row line as the source writes it: a present None unit fails. */
  function RowLineAsWritten(r: Row, show: Value -> string): (line: Result<string>)
    ensures "tradable_unit" in r && r["tradable_unit"] == Null ==> line == Err(TypeError)
  {
    LineWith(r, show, TradableCellAsWritten(r, show))
  }

  /** A row line with the corrected tradable-unit cell. */
  function RowLine(r: Row, show: Value -> string): (line: Result<string>)
    ensures line.Ok? <==>
      && DollarCell(r).Ok?
      && SignalCell(Get(r, "signal", Str("")), show).Ok?
      && FormatLeft(Get(r, "rank", Int(0)), 5, show).Ok?
      && TradableCell(r, show).Ok?
      && FormatLeft(Get(r, "options_play", Str("N/A")), 25, show).Ok?
  {
    LineWith(r, show, TradableCell(r, show))
  }

  /** `line` for each row, in order. */
  function RowResults(rows: seq<Row>, show: Value -> string): (rs: seq<Result<string>>)
    ensures |rs| == |rows|
  {
    seq(|rows|, i requires 0 <= i < |rows| => RowLine(rows[i], show))
  }

  /** The lines in order, or the first failure. */
  function Collect(rs: seq<Result<string>>): (r: Result<seq<string>>)
    ensures r.Ok? ==> |r.value| == |rs|
  {
    if rs == [] then Ok([])
    else
      match Collect(rs[..|rs| - 1])
      case Err(e) => Err(e)
      case Ok(prev) =>
        match rs[|rs| - 1]
        case Err(e) => Err(e)
        case Ok(line) => Ok(prev + [line])
  }

  /** Collecting one more successful line appends it. */
  lemma CollectStep(rs: seq<Result<string>>, i: nat)
    requires i < |rs| && Collect(rs[..i]).Ok? && rs[i].Ok?
    ensures Collect(rs[..i + 1]) == Ok(Collect(rs[..i]).value + [rs[i].value])
  {
    assert rs[..i + 1][..i] == rs[..i];
  }

  /** Collecting succeeds exactly when every line does, keeps their order,
      and otherwise reports the first failure's error. */
  lemma {:induction false} CollectInOrder(rs: seq<Result<string>>)
    ensures Collect(rs).Ok? <==> forall i :: 0 <= i < |rs| ==> rs[i].Ok?
    ensures Collect(rs).Ok? ==> forall i :: 0 <= i < |rs| ==> Collect(rs).value[i] == rs[i].value
    ensures Collect(rs).Err? ==> exists i :: 0 <= i < |rs| && rs[i] == Err(Collect(rs).error)
  {
    if rs != [] {
      var init := rs[..|rs| - 1];
      CollectInOrder(init);
      assert forall i :: 0 <= i < |init| ==> init[i] == rs[i];
    }
  }

  /** The row lines in order, or the first row's error. */
  function RowLines(rows: seq<Row>, show: Value -> string): (r: Result<seq<string>>)
    ensures r.Ok? ==> |r.value| == |rows|
  {
    Collect(RowResults(rows, show))
  }

  /** The row lines exist exactly when every row renders, and then line
      i is row i's line. */
  lemma RowLinesInOrder(rows: seq<Row>, show: Value -> string)
    ensures RowLines(rows, show).Ok? <==> forall i :: 0 <= i < |rows| ==> RowLine(rows[i], show).Ok?
    ensures RowLines(rows, show).Ok? ==>
      forall i :: 0 <= i < |rows| ==> RowLines(rows, show).value[i] == RowLine(rows[i], show).value
  {
    var rs := RowResults(rows, show);
    assert forall i :: 0 <= i < |rows| ==> rs[i] == RowLine(rows[i], show);
    CollectInOrder(rs);
  }

  /** The table's lines: the fixed header, one line per row, the footer. */
  function TableLines(rows: seq<Row>, show: Value -> string): (r: Result<seq<string>>)
    ensures r.Ok? <==> RowLines(rows, show).Ok?
  {
    var body :- RowLines(rows, show);
    Ok([Border, Header, Border] + body + [Border])
  }

  /** `render_top5_table` */
  method RenderTop5Table(rows: seq<Row>, show: Value -> string) returns (r: Result<string>)
    ensures TableLines(rows, show).Ok? ==> r == Ok(Join(TableLines(rows, show).value))
    ensures TableLines(rows, show).Err? ==> r == Err(TypeError)
  {
    ghost var rs := RowResults(rows, show);
    var lines := [Border, Header, Border];
    for i := 0 to |rows|
      invariant Collect(rs[..i]).Ok?
      invariant lines == [Border, Header, Border] + Collect(rs[..i]).value
    {
      var line := RowLine(rows[i], show);
      if line.Err? {
        RowErrorFailsTable(rows, show, i);
        return Err(line.error);
      }
      LinesStep(rows, show, i, lines);
      lines := lines + [line.value];
    }
    assert rs[..|rows|] == rs;
    lines := lines + [Border];
    r := Ok(Join(lines));
  }

  /** One more rendered row extends the lines by its line. */
  lemma LinesStep(rows: seq<Row>, show: Value -> string, i: nat, lines: seq<string>)
    requires i < |rows| && RowLine(rows[i], show).Ok?
    requires Collect(RowResults(rows, show)[..i]).Ok?
    requires lines == [Border, Header, Border] + Collect(RowResults(rows, show)[..i]).value
    ensures Collect(RowResults(rows, show)[..i + 1]).Ok?
    ensures lines + [RowLine(rows[i], show).value] == [Border, Header, Border] + Collect(RowResults(rows, show)[..i + 1]).value
  {
    var rs := RowResults(rows, show);
    assert rs[i] == RowLine(rows[i], show);
    CollectStep(rs, i);
  }

  /** Every failure in a line is a TypeError. */
  lemma LineErrorIsTypeError(r: Row, show: Value -> string)
    requires RowLine(r, show).Err?
    ensures RowLine(r, show).error == TypeError
  {
  }

  lemma RowErrorFailsTable(rows: seq<Row>, show: Value -> string, i: nat)
    requires i < |rows| && RowLine(rows[i], show).Err?
    ensures TableLines(rows, show).Err?
    ensures RowLine(rows[i], show).error == TypeError
  {
    LineErrorIsTypeError(rows[i], show);
    RowLinesInOrder(rows, show);
  }

  /** The table has exactly |rows| + 4 lines: the fixed three-line header,
      the rows' lines in input order, and the fixed footer. */
  lemma TableShape(rows: seq<Row>, show: Value -> string)
    requires TableLines(rows, show).Ok?
    ensures var lines := TableLines(rows, show).value;
      && |lines| == |rows| + 4
      && lines[0] == Border && lines[1] == Header && lines[2] == Border
      && lines[|lines| - 1] == Border
      && forall i :: 0 <= i < |rows| ==> RowLine(rows[i], show).Ok? && lines[3 + i] == RowLine(rows[i], show).value
  {
    RowLinesInOrder(rows, show);
  }

  /** The frame lines are single lines. */
  lemma FrameHasNoNewline()
    ensures '\n' !in Border && '\n' !in Header
  {
    BorderHasNoNewline();
    HeaderHasNoNewline();
  }

  lemma BorderHasNoNewline()
    ensures '\n' !in Border
  {
    assert '\n' !in "+-------";
    assert '\n' !in "+-------------------------";
    assert '\n' !in "+--------------";
    assert '\n' !in "+-----------------------";
    assert '\n' !in "+---------------------------";
    assert '\n' !in "+";
  }

  lemma HeaderHasNoNewline()
    ensures '\n' !in Header
  {
    HeaderStartHasNoNewline();
    HeaderEndHasNoNewline();
  }

  lemma HeaderStartHasNoNewline()
    ensures '\n' !in "| Rank  " + "| Signal (Agency)         " + "| Dollar Impact"
  {
    assert '\n' !in "| Rank  ";
    assert '\n' !in "| Signal (Agency)         ";
    assert '\n' !in "| Dollar Impact";
  }

  lemma HeaderEndHasNoNewline()
    ensures '\n' !in "| Tradable Unit         " + "| Options Play              " + "|"
  {
    assert '\n' !in "| Tradable Unit         ";
    assert '\n' !in "| Options Play              ";
    assert '\n' !in "|";
  }

  /** When no line holds a newline, splitting the rendered text at
      newlines gives back exactly the |rows| + 4 lines. */
  lemma {:induction false} FramedSplits(body: seq<string>)
    requires forall i :: 0 <= i < |body| ==> '\n' !in body[i]
    ensures Split(Join([Border, Header, Border] + body + [Border])) == [Border, Header, Border] + body + [Border]
  {
    FrameHasNoNewline();
    var lines := [Border, Header, Border] + body + [Border];
    forall j | 0 <= j < |lines|
      ensures '\n' !in lines[j]
    {
      if 3 <= j < |lines| - 1 {
        assert lines[j] == body[j - 3];
      }
    }
    SplitJoin(lines);
  }

  lemma RenderedSplitsIntoLines(rows: seq<Row>, show: Value -> string)
    requires forall i :: 0 <= i < |rows| ==> RowLine(rows[i], show).Ok? && '\n' !in RowLine(rows[i], show).value
    ensures TableLines(rows, show).Ok?
    ensures Split(Join(TableLines(rows, show).value)) == TableLines(rows, show).value
    ensures |Split(Join(TableLines(rows, show).value))| == |rows| + 4
  {
    RowLinesInOrder(rows, show);
    FramedSplits(RowLines(rows, show).value);
  }

  /** A rank that is missing renders as 0 in a five-wide field; any integer
      rank takes at least five characters. */
  lemma RankCell(r: Row, show: Value -> string)
    ensures "rank" !in r ==> FormatLeft(Get(r, "rank", Int(0)), 5, show) == Ok("0    ")
    ensures "rank" in r && r["rank"].Int? ==>
      FormatLeft(r["rank"], 5, show).Ok? && |FormatLeft(r["rank"], 5, show).value| >= 5
  {
    assert IntText(0) == "0";
    assert Spaces(4) == "    ";
    assert PadRight("0", 5) == "0" + Spaces(4) == "0    ";
    assert FormatLeft(Int(0), 5, show) == Ok(PadRight("0", 5));
  }

  /** 2.5 billion renders as "~$2.5B". */
  lemma DollarCellExample(r: Row)
    requires "dollar_impact_usd" in r && r["dollar_impact_usd"] == Int(2500000000)
    ensures DollarCell(r) == Ok("~$2.5B")
  {
    var x := 2500000000 as real / 1000000000.0;
    assert x == 2.5;
    Numbers.RoundHalfEvenOfInt(25);
    assert Numbers.RoundHalfEven(2.5 * 10.0) == 25;
    assert NatText(2) == "2";
    assert OneDecimal(2.5) == "2.5";
    assert DollarCell(r) == Ok("~$" + OneDecimal(x) + "B");
    assert "~$" + "2.5" + "B" == "~$2.5B";
  }

  /** The finding: a row whose tradable_unit is present and None fails to
      render as written, while the corrected cell shows "N/A". */
  lemma NoneTradableUnitFails(r: Row, show: Value -> string)
    requires "tradable_unit" in r && r["tradable_unit"] == Null
    ensures RowLineAsWritten(r, show) == Err(TypeError)
    ensures TradableCell(r, show) == Ok(PadRight("N/A", 21))
  {
  }

  /** The rendered table as the source writes it: every row line uses the
      as-written tradable-unit cell. */
  function RenderedAsWritten(rows: seq<Row>, show: Value -> string): Result<string>
  {
    var body :- Collect(RowResultsAsWritten(rows, show));
    Ok(Join([Border, Header, Border] + body + [Border]))
  }

  function RowResultsAsWritten(rows: seq<Row>, show: Value -> string): (rs: seq<Result<string>>)
    ensures |rs| == |rows|
    ensures forall i :: 0 <= i < |rows| ==> rs[i] == RowLineAsWritten(rows[i], show)
  {
    seq(|rows|, i requires 0 <= i < |rows| => RowLineAsWritten(rows[i], show))
  }

  /** One row with a present None unit makes the whole table fail as
      written, with TypeError. */
  lemma AsWrittenTableFails(rows: seq<Row>, show: Value -> string, i: nat)
    requires i < |rows| && "tradable_unit" in rows[i] && rows[i]["tradable_unit"] == Null
    ensures RenderedAsWritten(rows, show) == Err(TypeError)
  {
    var rs := RowResultsAsWritten(rows, show);
    assert rs[i] == Err(TypeError);
    CollectInOrder(rs);
    forall j | 0 <= j < |rs| && rs[j].Err?
      ensures rs[j].error == TypeError
    {
      assert rs[j] == RowLineAsWritten(rows[j], show);
    }
  }

  /** The correction changes nothing for any other tradable unit. */
  lemma CorrectionOnlyAffectsNone(r: Row, show: Value -> string)
    requires Get(r, "tradable_unit", Null) != Null
    ensures RowLine(r, show) == RowLineAsWritten(r, show)
  {
  }
}
