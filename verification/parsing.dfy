/**
 `AnalisiParser.parse`: reads the analysis program's output file from the
 retrieved folder and emits it, with a companion `times` array, under the
 output of the requested mode.
 */
module Parsing {
  import opened Wrappers
  import opened Text
  import opened Requests
  import opened Grouping

  /** The numpy calls the parser makes: `np.loadtxt` on the whole file and `np.fromstring` on one line. */
  datatype Numpy<Row> = Numpy(loadtxt: string -> seq<Row>, fromstring: string -> Row)

  /** An array stored in the emitted `ArrayData`. */
  datatype ArrayValue<Row> = Table(rows: seq<Row>) | Blocks(blocks: seq<seq<Row>>) | Times(values: seq<real>)

  /**
   How parsing ends: one `ArrayData` emitted under an output port, an exit
   code, or an uncaught exception. Only the first carries arrays.
   */
  datatype Parsed<Row> =
    | Emitted(port: string, arrays: map<string, ArrayValue<Row>>)
    | Exit(code: ExitCode)
    | Raised(error: PyError)

  /** The output port a mode's results are emitted under. */
  function PortName(m: Mode): string {
    match m
    case Msd => "msd"
    case Gofrt(_) => "gofrt"
    case Sh(_) => "sh"
  }

  /** The name of the result array inside the emitted `ArrayData`. */
  function ArrayName(m: Mode): string {
    match m
    case Msd => "msd"
    case Gofrt(_) => "gofrt"
    case Sh(_) => "shcorr"
  }

  /** `times[:n] - times[0]`: the first n times (fewer if there are fewer), measured from the first. */
  function ZeroShiftedPrefix(times: seq<real>, n: nat): (r: seq<real>)
    requires |times| > 0
    ensures |r| == Min(n, |times|)
    ensures forall k :: 0 <= k < |r| ==> r[k] + times[0] == times[k]
  {
    seq(Min(n, |times|), k requires 0 <= k < Min(n, |times|) => times[k] - times[0])
  }

  /**
   The msd / sh branch: one table from `np.loadtxt`, times shifted to start
   at zero. Reading `traj` comes first (`AttributeError`), then its `times`
   array (`KeyError`), then `times[0]` (`IndexError`).
   */
  function ParseCorrelation<Row>(text: string, q: Inputs, np: Numpy<Row>): Parsed<Row>
    requires q.msd || q.sh.Some?
  {
    var result := np.loadtxt(text);
    var name := if q.sh.Some? then "shcorr" else "msd";
    if q.traj.None? then Raised(AttributeError)
    else if q.traj.value.times.None? then Raised(KeyError)
    else
      var times := q.traj.value.times.value;
      if |times| == 0 then Raised(IndexError)
      else
        Emitted(if q.sh.Some? then "sh" else "msd",
                map[name := Table(result), "times" := Times(ZeroShiftedPrefix(times, |result|))])
  }

  /** The gofrt branch: the lines grouped into blocks, times taken as they are. */
  function ParseGofrt<Row>(text: string, q: Inputs, np: Numpy<Row>): Parsed<Row> {
    match GroupLines(ReadLines(text), np.fromstring)
    case None => Raised(IndexError)
    case Some(blocks) =>
      if q.traj.None? then Raised(AttributeError)
      else if q.traj.value.times.None? then Raised(KeyError)
      else
        var times := q.traj.value.times.value;
        Emitted("gofrt", map["gofrt" := Blocks(blocks), "times" := Times(times[..Min(|blocks|, |times|)])])
  }

  /**
   `parse`. `retrieved` is the retrieved folder (None when it cannot be
   accessed) as a map from file name to contents; the output file is opened
   before the mode check.
   */
  function Parse<Row>(retrieved: Option<map<string, string>>, outputFilename: string, q: Inputs, np: Numpy<Row>)
    : (r: Parsed<Row>)
    ensures r == Exit(NoRetrievedFolder) <==> retrieved.None?
    ensures r == Exit(ReadingOutputFile) <==> retrieved.Some? && outputFilename !in retrieved.value
    ensures r == Exit(InvalidOutput) <==>
              retrieved.Some? && outputFilename in retrieved.value && ModeCount(q) != 1
    ensures r.Exit? ==> r.code.Status() in {300, 310, 320}
    ensures r.Emitted? ==>
              && ResolveMode(q).Some?
              && r.port == PortName(ResolveMode(q).value)
              && r.arrays.Keys == {ArrayName(ResolveMode(q).value), "times"}
  {
    if retrieved.None? then Exit(NoRetrievedFolder)
    else if outputFilename !in retrieved.value then Exit(ReadingOutputFile)
    else
      var text := retrieved.value[outputFilename];
      if ModeCount(q) != 1 then Exit(InvalidOutput)
      else if q.sh.Some? || q.msd then ParseCorrelation(text, q, np)
      else ParseGofrt(text, q, np)
  }

  /**
   msd and sh: the loaded table under its array name and `times` holding
   the first min(rows, |T|) trajectory times shifted so that the first is
   zero. Only a missing trajectory, a trajectory without times, or an
   empty time array stops it, each with its own exception.
   */
  lemma {:induction false} CorrelationOutput<Row>(files: map<string, string>, outputFilename: string, q: Inputs, np: Numpy<Row>)
    requires outputFilename in files
    requires ResolveMode(q).Some? && !ResolveMode(q).value.Gofrt?
    ensures var r := Parse(Some(files), outputFilename, q, np);
            var m := ResolveMode(q).value;
            var rows := np.loadtxt(files[outputFilename]);
            && (r == Raised(AttributeError) <==> q.traj.None?)
            && (r == Raised(KeyError) <==> q.traj.Some? && q.traj.value.times.None?)
            && (r.Emitted? <==> q.traj.Some? && q.traj.value.times.Some? && |q.traj.value.times.value| > 0)
            && (r.Emitted? ==>
                  var t := q.traj.value.times.value;
                  && r.port == (if m.Sh? then "sh" else "msd")
                  && r.arrays[ArrayName(m)] == Table(rows)
                  && r.arrays["times"].Times?
                  && var times := r.arrays["times"].values;
                  && |times| == Min(|rows|, |t|)
                  && (forall k :: 0 <= k < |times| ==> times[k] == t[k] - t[0])
                  && (|times| > 0 ==> times[0] == 0.0))
  {
  }

  /**
   gofrt: the blocks the grouping loop builds from `readlines()`, and
   `times` holding the first min(blocks, |T|) trajectory times unshifted.
   Since `readlines()` never returns an empty string, no line opens a new
   block after the first: a non-empty file gives one block of every row.
   Only a missing trajectory or a trajectory without times stops it.
   */
  lemma {:induction false} GofrtOutput<Row>(files: map<string, string>, outputFilename: string, q: Inputs, np: Numpy<Row>)
    requires outputFilename in files
    requires ResolveMode(q).Some? && ResolveMode(q).value.Gofrt?
    ensures var r := Parse(Some(files), outputFilename, q, np);
            var text := files[outputFilename];
            var lines := ReadLines(text);
            && (r == Raised(AttributeError) <==> q.traj.None?)
            && (r == Raised(KeyError) <==> q.traj.Some? && q.traj.value.times.None?)
            && (r.Emitted? <==> q.traj.Some? && q.traj.value.times.Some?)
            && (r.Emitted? ==>
                  var t := q.traj.value.times.value;
                  && r.port == "gofrt"
                  && r.arrays["gofrt"].Blocks?
                  && var blocks := r.arrays["gofrt"].blocks;
                  && Some(blocks) == GroupLines(lines, np.fromstring)
                  && Flatten(blocks) == ParseAll(lines, np.fromstring)
                  && |blocks| == (if |text| == 0 then 0 else 1)
                  && r.arrays["times"] == Times(t[..Min(|blocks|, |t|)]))
  {
    var text := files[outputFilename];
    assert Parse(Some(files), outputFilename, q, np) == ParseGofrt(text, q, np);
    GofrtBlocks(text, np.fromstring);
  }

  /** The blocks of a gofrt file: never an `IndexError`, every row kept, one block unless the file is empty. */
  lemma {:induction false} GofrtBlocks<Row>(text: string, parse: string -> Row)
    ensures var lines := ReadLines(text);
            && GroupLines(lines, parse).Some?
            && Flatten(GroupLines(lines, parse).value) == ParseAll(lines, parse)
            && |GroupLines(lines, parse).value| == (if |text| == 0 then 0 else 1)
  {
    var lines := ReadLines(text);
    NoEmptyLineSingleBlock(lines, parse);
    var blocks := GroupLines(lines, parse).value;
    if |lines| > 0 {
      FlattenSingle(blocks);
    } else {
      assert ParseAll(lines, parse) == [];
    }
  }
}
