/**
 `AnalisiCalculation.prepare_for_submission`: turns the node inputs into the
 command line of the analysis program, the retrieve list, and the binary
 trajectory file written into the job's folder.
 */
module Calculation {
  import opened Wrappers
  import opened Text
  import opened Requests
  import TypeIds

  /** What `prepare_for_submission` reads besides the node inputs. */
  datatype Job = Job(
    inputs: Inputs,
    coresPerMpiproc: Option<int>,  // resources['num_cores_per_mpiproc'], a KeyError when absent
    inputFilename: string,
    outputFilename: string,
    withMpi: bool)

  datatype CodeInfo = CodeInfo(cmdline: seq<string>, stdoutName: string, withMpi: bool)

  datatype CalcInfo = CalcInfo(
    codes: seq<CodeInfo>,
    localCopy: seq<string>,
    remoteCopy: seq<string>,
    remoteSymlink: seq<string>,
    retrieve: seq<string>)

  /** The trajectory file handed to the external writer: its name and the type-ID array it carries. */
  datatype TrajectoryFile = TrajectoryFile(name: string, typeIds: seq<int>)

  /**
   How preparation ends: a job with the file it wrote, an exit code raised
   before anything is written, or an uncaught exception.
   */
  datatype Prepared =
    | Submitted(info: CalcInfo, written: TrajectoryFile)
    | Rejected(code: ExitCode)
    | Raised(error: PyError)

  /** The arguments every command line starts with. */
  function FixedArgs(threads: int, job: Job): (args: seq<string>)
    ensures |args| == 12
  {
    ["-N", IntText(threads), "-l", "/dev/null", "-i", job.inputFilename,
     "-B", IntText(job.inputs.nBlocks), "-S", IntText(job.inputs.maxTime), "-s", IntText(job.inputs.skip)]
  }

  /**
   The mode arguments as the source appends them: one `if` per analysis
   input, then the range flag whenever gofrt or sh is present, carrying the
   `rmin`, `rmax` of whichever of those branches ran last.
   */
  function ModeArgs(q: Inputs, showReal: real -> string): seq<string> {
    var msdArgs := if q.msd then ["-Q"] else [];
    var gofrtArgs := if q.gofrt.Some? then ["-g", IntText(q.gofrt.value.nBins)] else [];
    var shArgs := if q.sh.Some? then ["-Y", IntText(q.sh.value.nBins)] else [];
    var rangeArgs :=
      if q.gofrt.Some? || q.sh.Some? then
        var r := if q.sh.Some? then q.sh.value else q.gofrt.value;
        ["-F", showReal(r.minR), showReal(r.maxR)]
      else [];
    msdArgs + gofrtArgs + shArgs + rangeArgs
  }

  /** The arguments that select a mode on the analysis program's command line. */
  function ModeFlags(m: Mode, showReal: real -> string): seq<string> {
    match m
    case Msd => ["-Q"]
    case Gofrt(r) => ["-g", IntText(r.nBins), "-F", showReal(r.minR), showReal(r.maxR)]
    case Sh(r) => ["-Y", IntText(r.nBins), "-F", showReal(r.minR), showReal(r.maxR)]
  }

  /** For a valid request the source's sequence of `if`s emits exactly the flags of the resolved mode. */
  lemma {:induction false} ModeArgsFollowMode(q: Inputs, showReal: real -> string)
    requires ResolveMode(q).Some?
    ensures ModeArgs(q, showReal) == ModeFlags(ResolveMode(q).value, showReal)
  {
  }

  /**
   What follows a passed mode check: the mode's flags are appended, the
   trajectory file is written, and the job is described. A missing `traj`
   input raises `AttributeError` when the trajectory is read.
   */
  function Submit(job: Job, showReal: real -> string): (p: Prepared)
    requires job.coresPerMpiproc.Some? && ModeCount(job.inputs) == 1
    ensures p.Raised? || p.Submitted?
    ensures p == Raised(AttributeError) <==> job.inputs.traj.None?
    ensures p.Submitted? ==>
              && job.inputs.traj.Some?
              && |p.info.codes| == 1
              && p.info.codes[0].cmdline ==
                   FixedArgs(job.coresPerMpiproc.value, job) + ModeFlags(ResolveMode(job.inputs).value, showReal)
              && p.info.codes[0].stdoutName == job.outputFilename
              && p.info.codes[0].withMpi == job.withMpi
              && p.info.retrieve == [job.outputFilename]
              && p.info.localCopy == [] && p.info.remoteCopy == [] && p.info.remoteSymlink == []
              && p.written.name == job.inputFilename
              && p.written.typeIds == TypeIds.Codes(job.inputs.traj.value.symbols)
  {
    ModeArgsFollowMode(job.inputs, showReal);
    var cmdline := FixedArgs(job.coresPerMpiproc.value, job) + ModeArgs(job.inputs, showReal);
    if job.inputs.traj.None? then Raised(AttributeError)
    else
      var written := TrajectoryFile(job.inputFilename, TypeIds.Codes(job.inputs.traj.value.symbols));
      var code := CodeInfo(cmdline, job.outputFilename, job.withMpi);
      Submitted(CalcInfo([code], [], [], [], [job.outputFilename]), written)
  }

  /**
   `prepare_for_submission` as written. `showReal` stands for Python's
   `str()` of a float, used for `min_r` and `max_r`. A mode count other
   than one reaches `raise self.exit_codes.ERROR_TOO_CALCULATIONS_SPECIFIED`;
   an `ExitCode` is not an exception, so that statement raises `TypeError`
   and the step never ends with status 401.
   */
  function Prepare(job: Job, showReal: real -> string): (p: Prepared)
    ensures !p.Rejected?
    ensures p == Raised(KeyError) <==> job.coresPerMpiproc.None?
    ensures p == Raised(TypeError) <==> job.coresPerMpiproc.Some? && ModeCount(job.inputs) != 1
    ensures p == Raised(AttributeError) <==>
              job.coresPerMpiproc.Some? && ModeCount(job.inputs) == 1 && job.inputs.traj.None?
    ensures p.Submitted? ==>
              && ResolveMode(job.inputs).Some?
              && job.inputs.traj.Some?
              && |p.info.codes| == 1
              && p.info.codes[0].cmdline ==
                   FixedArgs(job.coresPerMpiproc.value, job) + ModeFlags(ResolveMode(job.inputs).value, showReal)
              && p.info.codes[0].stdoutName == job.outputFilename
              && p.info.retrieve == [job.outputFilename]
              && p.info.localCopy == [] && p.info.remoteCopy == [] && p.info.remoteSymlink == []
              && p.written.name == job.inputFilename
              && p.written.typeIds == TypeIds.Codes(job.inputs.traj.value.symbols)
  {
    if job.coresPerMpiproc.None? then Raised(KeyError)
    else if ModeCount(job.inputs) != 1 then Raised(TypeError)
    else Submit(job, showReal)
  }

  /**
   `prepare_for_submission` as its exit-code declaration intends: a mode
   count other than one ends the step with `ERROR_TOO_CALCULATIONS_SPECIFIED`
   (status 401) before any file is written.
   */
  function PrepareIntended(job: Job, showReal: real -> string): (p: Prepared)
    ensures p == Raised(KeyError) <==> job.coresPerMpiproc.None?
    ensures p.Rejected? <==> job.coresPerMpiproc.Some? && ModeCount(job.inputs) != 1
    ensures p.Rejected? ==> p.code.Status() == 401
    ensures p == Raised(AttributeError) <==>
              job.coresPerMpiproc.Some? && ModeCount(job.inputs) == 1 && job.inputs.traj.None?
    ensures p.Submitted? ==> ResolveMode(job.inputs).Some?
  {
    if job.coresPerMpiproc.None? then Raised(KeyError)
    else if ModeCount(job.inputs) != 1 then Rejected(TooCalculationsSpecified)
    else Submit(job, showReal)
  }

  /**
   The code and its intended behaviour part only on a bad mode count: there
   the code raises `TypeError` where exit 401 was meant. Every other
   outcome, a submitted job included, is the same.
   */
  lemma {:induction false} PrepareDiffersOnlyOnModeCount(job: Job, showReal: real -> string)
    ensures Prepare(job, showReal) != PrepareIntended(job, showReal) <==>
              job.coresPerMpiproc.Some? && ModeCount(job.inputs) != 1
    ensures Prepare(job, showReal) != PrepareIntended(job, showReal) ==>
              Prepare(job, showReal) == Raised(TypeError) &&
              PrepareIntended(job, showReal) == Rejected(TooCalculationsSpecified)
  {
  }

  /** msd together with gofrt: the code raises `TypeError` where exit 401 was meant. */
  lemma {:induction false} TwoModesRaiseTypeError(showReal: real -> string)
    ensures var q := Inputs(None, 12, 0, 1, true, Some(Range(0.5, 3.0, 100)), None);
            var job := Job(q, Some(1), "aiida.bin", "aiida.out", true);
            && Prepare(job, showReal) == Raised(TypeError)
            && PrepareIntended(job, showReal).Rejected?
            && PrepareIntended(job, showReal).code.Status() == 401
  {
  }

  /**
   The shape of a submitted command line: the fixed prefix, then the one
   mode flag, then `-F rmin rmax` exactly for gofrt and sh, with that
   mode's own radii.
   */
  lemma {:induction false} CommandLineLayout(job: Job, showReal: real -> string)
    requires Prepare(job, showReal).Submitted?
    ensures var cmd := Prepare(job, showReal).info.codes[0].cmdline;
            var m := ResolveMode(job.inputs).value;
            && cmd[..12] == FixedArgs(job.coresPerMpiproc.value, job)
            && (cmd[12] == "-Q" <==> m.Msd?)
            && (cmd[12] == "-g" <==> m.Gofrt?)
            && (cmd[12] == "-Y" <==> m.Sh?)
            && (m.Msd? <==> |cmd| == 13)
            && (!m.Msd? <==> |cmd| == 17 && cmd[14] == "-F")
            && (!m.Msd? ==> cmd[15] == showReal(m.range.minR) && cmd[16] == showReal(m.range.maxR))
  {
  }

  /** Reading the numeric arguments back gives the configured numbers. */
  lemma {:induction false} CommandLineCarriesValues(job: Job, showReal: real -> string)
    requires Prepare(job, showReal).Submitted?
    ensures var cmd := Prepare(job, showReal).info.codes[0].cmdline;
            var m := ResolveMode(job.inputs).value;
            && ParseInt(cmd[1]) == job.coresPerMpiproc.value
            && ParseInt(cmd[7]) == job.inputs.nBlocks
            && ParseInt(cmd[9]) == job.inputs.maxTime
            && ParseInt(cmd[11]) == job.inputs.skip
            && (!m.Msd? ==> ParseInt(cmd[13]) == m.range.nBins)
  {
    var m := ResolveMode(job.inputs).value;
    IntTextRoundTrip(job.coresPerMpiproc.value);
    IntTextRoundTrip(job.inputs.nBlocks);
    IntTextRoundTrip(job.inputs.maxTime);
    IntTextRoundTrip(job.inputs.skip);
    if !m.Msd? {
      IntTextRoundTrip(m.range.nBins);
    }
  }
}
