/**
 The inputs an `AnalisiCalculation` node carries, the analysis mode they
 select, and the exit codes and uncaught exceptions both halves of the
 plugin can end in.
 */
module Requests {
  import opened Wrappers

  /** The `gofrt` / `sh` dictionary: `{'min_r': .., 'max_r': .., 'n_bins': ..}`. */
  datatype Range = Range(minR: real, maxR: real, nBins: int)

  /**
   The parts of the input `TrajectoryData` the plugin reads: the `symbols`
   attribute and the `times` array, which a trajectory need not carry
   (`get_array('times')` then raises `KeyError`).
   */
  datatype Trajectory = Trajectory(symbols: seq<string>, times: Option<seq<real>>)

  /** The node inputs; `traj`, `gofrt` and `sh` are optional. */
  datatype Inputs = Inputs(
    traj: Option<Trajectory>,
    nBlocks: int,
    maxTime: int,
    skip: int,
    msd: bool,
    gofrt: Option<Range>,
    sh: Option<Range>)

  /** The analysis the external program is asked for, as one tagged value. */
  datatype Mode = Msd | Gofrt(range: Range) | Sh(range: Range)

  /** `has_msd + has_gofrt + has_sh`: how many analyses the inputs ask for. */
  function ModeCount(q: Inputs): nat {
    (if q.msd then 1 else 0) + (if q.gofrt.Some? then 1 else 0) + (if q.sh.Some? then 1 else 0)
  }

  /** The single mode the inputs select, or None when they select zero or several. */
  function ResolveMode(q: Inputs): (m: Option<Mode>)
    ensures m.Some? <==> ModeCount(q) == 1
    ensures m == Some(Msd) <==> q.msd && q.gofrt.None? && q.sh.None?
    ensures m.Some? && m.value.Gofrt? <==> !q.msd && q.gofrt.Some? && q.sh.None?
    ensures m.Some? && m.value.Sh? <==> !q.msd && q.gofrt.None? && q.sh.Some?
    ensures m.Some? && m.value.Gofrt? ==> q.gofrt == Some(m.value.range)
    ensures m.Some? && m.value.Sh? ==> q.sh == Some(m.value.range)
  {
    if ModeCount(q) != 1 then None
    else if q.msd then Some(Msd)
    else if q.gofrt.Some? then Some(Gofrt(q.gofrt.value))
    else Some(Sh(q.sh.value))
  }

  /** The inputs `base` with its three analysis inputs set so that exactly mode `m` is asked for. */
  function Select(m: Mode, base: Inputs): Inputs {
    base.(msd := m.Msd?,
          gofrt := if m.Gofrt? then Some(m.range) else None,
          sh := if m.Sh? then Some(m.range) else None)
  }

  /** Every mode can be requested, and resolving the request gives it back. */
  lemma {:induction false} ResolveSelect(m: Mode, base: Inputs)
    ensures ResolveMode(Select(m, base)) == Some(m)
  {
  }

  /** A request that resolves is exactly the request for its mode: resolution loses nothing. */
  lemma {:induction false} SelectResolve(q: Inputs)
    requires ResolveMode(q).Some?
    ensures Select(ResolveMode(q).value, q) == q
  {
  }

  /** The exit codes declared by `AnalisiCalculation.define`. */
  datatype ExitCode =
    | NoData
    | TooCalculationsSpecified
    | NoRetrievedFolder
    | ReadingOutputFile
    | InvalidOutput
  {
    function Status(): int {
      match this
      case NoData => 400
      case TooCalculationsSpecified => 401
      case NoRetrievedFolder => 300
      case ReadingOutputFile => 310
      case InvalidOutput => 320
    }
  }

  /**
   Python exceptions that the source does not catch; they abort the step.
   `TypeError` is what `raise` produces when handed an `ExitCode`, which is
   a named tuple and not an exception.
   */
  datatype PyError = KeyError | AttributeError | IndexError | TypeError
}
