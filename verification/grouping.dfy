/**
 The gofrt branch of `AnalisiParser.parse`: the loop over `readlines()` that
 gathers the parsed rows into blocks. A block opens at a non-empty line that
 is the first line or follows an empty line (`line == ""`); every line,
 empty or not, is appended to the newest block.
 */
module Grouping {
  import opened Wrappers

  /** The loop's variables: the blocks built so far (`data`) and the `br` flag. */
  datatype State<Row> = State(data: seq<seq<Row>>, br: bool)

  /** `data[-1].append(x)` */
  function AppendToLast<Row>(data: seq<seq<Row>>, x: Row): seq<seq<Row>>
    requires |data| > 0
  {
    data[..|data| - 1] + [data[|data| - 1] + [x]]
  }

  /**
   One iteration of the loop. None is the IndexError of `data[-1]` on an
   empty list, which an empty line met before any block raises.
   */
  function Step<Row>(st: State<Row>, line: string, parse: string -> Row): Option<State<Row>> {
    var data := if line != "" && st.br then st.data + [[]] else st.data;
    if |data| == 0 then None
    else Some(State(AppendToLast(data, parse(line)), line == ""))
  }

  /** The loop run over `lines`, starting from `data = []`, `br = True`. */
  function Run<Row>(lines: seq<string>, parse: string -> Row): Option<State<Row>> {
    if |lines| == 0 then Some(State([], true))
    else
      match Run(lines[..|lines| - 1], parse)
      case None => None
      case Some(st) => Step(st, lines[|lines| - 1], parse)
  }

  /** The blocks the loop leaves in `data`, or None when it raised. */
  function GroupLines<Row>(lines: seq<string>, parse: string -> Row): Option<seq<seq<Row>>> {
    match Run(lines, parse)
    case None => None
    case Some(st) => Some(st.data)
  }

  /** The rows of all blocks, in order. */
  function Flatten<Row>(blocks: seq<seq<Row>>): seq<Row> {
    if |blocks| == 0 then [] else Flatten(blocks[..|blocks| - 1]) + blocks[|blocks| - 1]
  }

  /** Every line parsed, in order. */
  function ParseAll<Row>(lines: seq<string>, parse: string -> Row): (rows: seq<Row>)
    ensures |rows| == |lines|
    ensures forall i :: 0 <= i < |lines| ==> rows[i] == parse(lines[i])
  {
    seq(|lines|, i requires 0 <= i < |lines| => parse(lines[i]))
  }

  /** Whether line i opens a block: it is non-empty and is the first line or follows an empty one. */
  predicate Opens(lines: seq<string>, i: nat)
    requires i < |lines|
  {
    lines[i] != "" && (i == 0 || lines[i - 1] == "")
  }

  /** The indices of the lines that open a block, in increasing order. */
  function Openers(lines: seq<string>): (o: seq<nat>)
    ensures forall g :: 0 <= g < |o| ==> o[g] < |lines| && Opens(lines, o[g])
    ensures forall g, h :: 0 <= g < h < |o| ==> o[g] < o[h]
    ensures forall i :: 0 <= i < |lines| && Opens(lines, i) ==> i in o
  {
    if |lines| == 0 then []
    else
      var init := lines[..|lines| - 1];
      var o := Openers(init);
      assert forall i :: 0 <= i < |init| ==> (Opens(init, i) <==> Opens(lines, i));
      if Opens(lines, |lines| - 1) then o + [|lines| - 1] else o
  }

  lemma {:induction false} FlattenSnoc<Row>(init: seq<seq<Row>>, last: seq<Row>)
    ensures Flatten(init + [last]) == Flatten(init) + last
  {
    assert (init + [last])[..|init|] == init;
  }

  lemma {:induction false} FlattenAppendToLast<Row>(data: seq<seq<Row>>, x: Row)
    requires |data| > 0
    ensures Flatten(AppendToLast(data, x)) == Flatten(data) + [x]
  {
    var init := data[..|data| - 1];
    var last := data[|data| - 1];
    assert AppendToLast(data, x) == init + [last + [x]];
    FlattenSnoc(init, last + [x]);
    assert Flatten(data) == Flatten(init) + last;
    assert Flatten(init) + (last + [x]) == (Flatten(init) + last) + [x];
  }

  /** What the loop keeps true after reading `lines`. */
  ghost predicate Invariant<Row>(lines: seq<string>, parse: string -> Row, st: State<Row>) {
    && Flatten(st.data) == ParseAll(lines, parse)
    && (st.br <==> |lines| == 0 || lines[|lines| - 1] == "")
    && (|st.data| == 0 <==> |lines| == 0)
    && |st.data| == |Openers(lines)|
    && forall g :: 0 <= g < |st.data| ==> |Flatten(st.data[..g])| == Openers(lines)[g]
  }

  lemma {:induction false} AppendToLastPrefix<Row>(data: seq<seq<Row>>, x: Row, g: nat)
    requires g < |data|
    ensures |AppendToLast(data, x)| == |data|
    ensures AppendToLast(data, x)[..g] == data[..g]
  {
    var n := |data|;
    assert AppendToLast(data, x)[..g] == data[..n - 1][..g];
  }

  /** A non-empty line after an empty one (or first) opens a new block holding just its row. */
  lemma {:induction false} StepOpening<Row>(lines: seq<string>, parse: string -> Row, st: State<Row>)
    requires |lines| > 0 && Opens(lines, |lines| - 1)
    requires Invariant(lines[..|lines| - 1], parse, st)
    ensures Step(st, lines[|lines| - 1], parse) == Some(State(st.data + [[parse(lines[|lines| - 1])]], false))
    ensures Invariant(lines, parse, State(st.data + [[parse(lines[|lines| - 1])]], false))
  {
    var init := lines[..|lines| - 1];
    var line := lines[|lines| - 1];
    var x := parse(line);
    var data := st.data + [[x]];
    assert AppendToLast(st.data + [[]], x) == data by {
      var e: seq<seq<Row>> := st.data + [[]];
      assert e[..|st.data|] == st.data;
      assert e[|st.data|] + [x] == [x];
    }
    assert Openers(lines) == Openers(init) + [|init|];
    assert data[..|st.data|] == st.data;
    assert Flatten(data) == Flatten(st.data) + [x];
    assert ParseAll(lines, parse) == ParseAll(init, parse) + [x];
    forall g | 0 <= g < |data|
      ensures |Flatten(data[..g])| == Openers(lines)[g]
    {
      if g < |st.data| {
        assert data[..g] == st.data[..g];
      }
    }
  }

  lemma {:induction false} ContinuingBoundaries<Row>(data: seq<seq<Row>>, x: Row, openers: seq<nat>)
    requires |data| > 0 && |data| == |openers|
    requires forall g :: 0 <= g < |data| ==> |Flatten(data[..g])| == openers[g]
    ensures forall g :: 0 <= g < |AppendToLast(data, x)| ==> |Flatten(AppendToLast(data, x)[..g])| == openers[g]
  {
    forall g | 0 <= g < |AppendToLast(data, x)|
      ensures |Flatten(AppendToLast(data, x)[..g])| == openers[g]
    {
      AppendToLastPrefix(data, x, g);
    }
  }

  /** Any other line joins the newest block. */
  lemma {:induction false} StepContinuing<Row>(lines: seq<string>, parse: string -> Row, st: State<Row>)
    requires |lines| > 0 && !Opens(lines, |lines| - 1)
    requires !(|lines| == 1 && lines[0] == "")
    requires Invariant(lines[..|lines| - 1], parse, st)
    ensures Step(st, lines[|lines| - 1], parse) ==
              Some(State(AppendToLast(st.data, parse(lines[|lines| - 1])), lines[|lines| - 1] == ""))
    ensures Invariant(lines, parse, Step(st, lines[|lines| - 1], parse).value)
  {
    var init := lines[..|lines| - 1];
    var line := lines[|lines| - 1];
    var x := parse(line);
    var data := AppendToLast(st.data, x);
    assert |init| > 0 && |st.data| > 0;
    assert Step(st, line, parse) == Some(State(data, line == ""));
    assert Openers(lines) == Openers(init);
    FlattenAppendToLast(st.data, x);
    ParseAllSnoc(lines, parse);
    ContinuingBoundaries(st.data, x, Openers(init));
    assert |data| == |st.data|;
  }

  lemma {:induction false} ParseAllSnoc<Row>(lines: seq<string>, parse: string -> Row)
    requires |lines| > 0
    ensures ParseAll(lines, parse) == ParseAll(lines[..|lines| - 1], parse) + [parse(lines[|lines| - 1])]
  {
  }

  lemma {:induction false} StepKeepsInvariant<Row>(lines: seq<string>, parse: string -> Row, st: State<Row>)
    requires |lines| > 0
    requires Invariant(lines[..|lines| - 1], parse, st)
    requires !(|lines| == 1 && lines[0] == "")
    ensures Step(st, lines[|lines| - 1], parse).Some?
    ensures Invariant(lines, parse, Step(st, lines[|lines| - 1], parse).value)
  {
    if Opens(lines, |lines| - 1) {
      StepOpening(lines, parse, st);
    } else {
      StepContinuing(lines, parse, st);
    }
  }

  /**
   Running the loop: it raises exactly when the first line is empty;
   otherwise no line is lost or reordered, one block opens per opening line,
   and block g starts at the g-th opening line.
   */
  lemma {:induction false} RunSpec<Row>(lines: seq<string>, parse: string -> Row)
    ensures Run(lines, parse).None? <==> |lines| > 0 && lines[0] == ""
    ensures Run(lines, parse).Some? ==> Invariant(lines, parse, Run(lines, parse).value)
  {
    if |lines| > 0 {
      var init := lines[..|lines| - 1];
      RunSpec(init, parse);
      if |init| > 0 {
        assert init[0] == lines[0];
      }
      if Run(init, parse).Some? && !(|lines| == 1 && lines[0] == "") {
        StepKeepsInvariant(lines, parse, Run(init, parse).value);
      }
    }
  }

  /** The blocks returned: every row in order, one block per opening line, block g starting at the g-th opener. */
  lemma {:induction false} GroupLinesSpec<Row>(lines: seq<string>, parse: string -> Row)
    ensures GroupLines(lines, parse).None? <==> |lines| > 0 && lines[0] == ""
    ensures GroupLines(lines, parse).Some? ==>
              var blocks := GroupLines(lines, parse).value;
              && Flatten(blocks) == ParseAll(lines, parse)
              && |blocks| == |Openers(lines)|
              && forall g :: 0 <= g < |blocks| ==> |Flatten(blocks[..g])| == Openers(lines)[g]
  {
    RunSpec(lines, parse);
  }

  /** With no empty line among them, the lines open one block at most: the first. */
  lemma {:induction false} NoEmptyLineOneOpener(lines: seq<string>)
    requires forall i :: 0 <= i < |lines| ==> lines[i] != ""
    ensures Openers(lines) == if |lines| == 0 then [] else [0]
  {
    if |lines| > 0 {
      var init := lines[..|lines| - 1];
      NoEmptyLineOneOpener(init);
    }
  }

  /**
   Lines without an empty one (which is what `readlines()` returns) never
   raise and gather into a single block holding every row.
   */
  lemma {:induction false} NoEmptyLineSingleBlock<Row>(lines: seq<string>, parse: string -> Row)
    requires forall i :: 0 <= i < |lines| ==> lines[i] != ""
    ensures GroupLines(lines, parse).Some?
    ensures |GroupLines(lines, parse).value| == if |lines| == 0 then 0 else 1
    ensures |lines| > 0 ==> GroupLines(lines, parse).value == [ParseAll(lines, parse)]
  {
    RunSpec(lines, parse);
    NoEmptyLineOneOpener(lines);
    var blocks := Run(lines, parse).value.data;
    assert GroupLines(lines, parse) == Some(blocks);
    if |lines| > 0 {
      FlattenSingle(blocks);
    }
  }

  lemma {:induction false} FlattenSingle<Row>(blocks: seq<seq<Row>>)
    requires |blocks| == 1
    ensures blocks == [Flatten(blocks)]
  {
    assert blocks[..0] == [];
    assert Flatten(blocks) == Flatten(blocks[..0]) + blocks[0];
    assert Flatten(blocks) == blocks[0];
  }
}
