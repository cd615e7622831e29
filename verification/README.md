# aiida-analisi, modelled in Dafny

This project models the data-transformation core of the `aiida-analisi`
plugin, which lets AiiDA run the `analisi` trajectory-analysis program
(mean-squared displacement `msd`, time-dependent radial distribution
`gofrt`, spherical-harmonics correlation `sh`) as a batch job and read its
output back as arrays. Three pieces are modelled, each with the properties
proved about it:

- **Type-ID encoding** (`get_types_id_array`, module `TypeIds`): chemical
  symbols become dense integer codes in order of first appearance. The
  source's dictionary-and-counter loop is a method proved equal to a
  reference encoding (the rank of the symbol among the distinct symbols).
  The lemmas cover length, the first code, consistency in both directions,
  density, and the rank-counts-earlier-symbols characterisation.
- **Submission preparation** (`AnalisiCalculation.prepare_for_submission`,
  modules `Requests` and `Calculation`): the mode check, the command line
  and the retrieve list. The command line is the fixed prefix, then the
  mode flag, then `-F rmin rmax` for gofrt and sh. The source's chain of
  independent `if`s is proved equal to a per-mode reference on every valid
  request.
- **Output parsing** (`AnalisiParser.parse`, modules `Grouping` and
  `Parsing`): exit codes in the order the source raises them, output and
  array names, the zero-shifted `times` for msd/sh and the unshifted
  `times` for gofrt. It also covers the gofrt loop that groups the lines of
  `readlines()` into blocks.

Module `Text` holds the two Python primitives the plugin leans on: `str()`
of an integer and `readlines()`. Each comes with its inverse and a
round-trip lemma. Module `Wrappers` holds `Option` and `Min`.

Uncaught Python exceptions end a step as `Raised(KeyError | AttributeError
| IndexError | TypeError)`. The parser's exit codes end it as `Exit(code)`.
Only a successful step carries a job, a written file or emitted arrays.

The model follows the code as written. The points worth knowing:

- `num_cores_per_mpiproc` is read from the resources before the mode
  check. When it is absent, preparation raises `KeyError`.
- On a mode count other than one, preparation executes
  `raise self.exit_codes.ERROR_TOO_CALCULATIONS_SPECIFIED`. An AiiDA
  `ExitCode` is a named tuple, not an exception, so Python raises
  `TypeError` there and the step never ends with status 401
  (`Calculation.Prepare`). The intended behaviour, exit 401, is modelled
  separately as `Calculation.PrepareIntended` (see "## Findings").
- The mode check comes before the trajectory is written, so a request
  with a bad mode count writes no file. A missing `traj` input raises
  `AttributeError` after the mode check: exit 400 is declared but never
  raised, so there is no earlier "missing trajectory" check.
- The parser opens the output file before its mode check. A missing file
  therefore yields 310 even when the mode is also invalid, and 320 is
  returned only for a file that exists.
- The gofrt loop opens a new block only after a line equal to `""`.
  `readlines()` keeps each line's `'\n'` and never returns an empty string,
  so this test never holds. A non-empty gofrt output file always becomes a
  single block holding every row, and its `times` has at most one entry
  (`Parsing.GofrtOutput`, `Grouping.NoEmptyLineSingleBlock`). Blank lines
  (`"\n"`) do not separate blocks.
- The msd/sh `times` array subtracts `times[0]`, so an empty trajectory
  time array raises `IndexError`. The gofrt `times` array is not shifted.
- A trajectory without a `times` array makes `get_array('times')` raise
  `KeyError` in both branches of the parser.

## Model

| member | source | states |
|---|---|---|
| TypeIds.GetTypesIdArray | aiida_analisi/analisi.py:14-23 | the dictionary-and-counter loop returns exactly the reference codes; one code per symbol; the first code is 0 |
| TypeIds.Distinct | aiida_analisi/analisi.py:15-21 | the symbols that receive a code: no symbol twice, and exactly the symbols that occur in the input |
| TypeIds.Codes | aiida_analisi/analisi.py:18-22 | one code per position, each below the number of distinct symbols, and looking the code up among the distinct symbols gives back the position's symbol |
| TypeIds.CodesStartAtZero | aiida_analisi/analisi.py:16-22 | for a non-empty input the first position gets code 0 |
| TypeIds.CodesConsistent | aiida_analisi/analisi.py:18-22 | two positions get the same code if and only if they hold the same symbol |
| TypeIds.CodesDense | aiida_analisi/analisi.py:15-22 | the number of codes handed out is the number of distinct symbols k; every code is below k; every c below k is the code of the first occurrence of the c-th distinct symbol |
| TypeIds.DistinctOrder | aiida_analisi/analisi.py:18-21 | symbols are ranked in the order of their first occurrence in the input |
| TypeIds.CodeCountsEarlierSymbols | aiida_analisi/analisi.py:15-22 | a symbol's code equals the number of distinct symbols whose first occurrence comes before its own |
| Text.IntTextRoundTrip | aiida_analisi/analisi.py:72 | reading back the decimal text of an integer argument gives the integer |
| Text.IntTextInjective | aiida_analisi/analisi.py:72 | two integers get the same text if and only if they are equal |
| Text.ReadLines | aiida_analisi/analisi.py:144 | every line is non-empty, every line but the last ends in a newline, and no line has a newline before its end |
| Text.ReadLinesRoundTrip | aiida_analisi/analisi.py:144 | joining the lines gives back the whole file |
| Requests.ResolveMode | aiida_analisi/analisi.py:73-76 | a mode is resolved if and only if exactly one of msd, gofrt, sh is requested; the mode is the one requested, with that input's own range |
| Requests.ResolveSelect | aiida_analisi/analisi.py:73-76 | every mode can be requested, and resolving its request gives the mode back |
| Requests.SelectResolve | aiida_analisi/analisi.py:132-135 | a request that resolves is exactly the request for its mode |
| Calculation.Prepare | aiida_analisi/analisi.py:71-122 | KeyError exactly when the core count is missing; TypeError (raising an ExitCode) exactly when it is present and the mode count is not 1, with no file written and never exit 401; AttributeError exactly when the mode is valid and traj is missing; a submitted job has the fixed prefix plus the mode's flags, stdout and retrieve list the output file, empty copy and symlink lists, and writes the input file carrying the type-ID codes |
| Calculation.PrepareIntended | aiida_analisi/analisi.py:58-79 | the intended preparation: exit 401 exactly when the core count is present and the mode count is not 1, with no file written; KeyError and AttributeError exactly as in the code |
| Calculation.PrepareDiffersOnlyOnModeCount | aiida_analisi/analisi.py:76-79 | the code and the intended preparation give different outcomes exactly on a bad mode count, where the code raises TypeError and the intended one exits 401; submitted jobs are identical |
| Calculation.TwoModesRaiseTypeError | aiida_analisi/analisi.py:73-79 | msd together with gofrt: the code raises TypeError, the intended preparation exits with status 401 |
| Calculation.ModeArgsFollowMode | aiida_analisi/analisi.py:84-93 | on a valid request the source's sequence of ifs appends exactly the flags of the resolved mode |
| Calculation.CommandLineLayout | aiida_analisi/analisi.py:72-93 | the command line starts with the 12 fixed arguments; position 12 is -Q, -g or -Y exactly for msd, gofrt, sh; -F rmin rmax with the mode's own radii closes the line exactly for gofrt and sh |
| Calculation.CommandLineCarriesValues | aiida_analisi/analisi.py:72-91 | the thread count, n_blocks, max_time, skip and n_bins read back from their arguments equal the inputs |
| Grouping.RunSpec | aiida_analisi/analisi.py:144-155 | the loop raises IndexError exactly when the first line is empty; otherwise the concatenated blocks are every parsed line in order, one block opens per opening line, and block g starts at the g-th opening line |
| Grouping.GroupLinesSpec | aiida_analisi/analisi.py:143-156 | the blocks left in data: raised exactly on an empty first line, no line lost or reordered, one block per opening line, each starting at its opener |
| Grouping.NoEmptyLineSingleBlock | aiida_analisi/analisi.py:144-155 | lines without an empty string never raise and form zero blocks when there are no lines, else one block holding every row |
| Parsing.ZeroShiftedPrefix | aiida_analisi/analisi.py:141 | the first min(n, length) times, each plus the first time giving back the original |
| Parsing.Parse | aiida_analisi/analisi.py:125-161 | exit 300 exactly without a retrieved folder; 310 exactly when the output file is missing; 320 exactly when it is there and the mode count is not 1; emitted arrays go under the resolved mode's port and hold its array name and times |
| Parsing.CorrelationOutput | aiida_analisi/analisi.py:138-142 | msd/sh emit the loaded table under msd or shcorr, on port msd or sh, and times of length min(rows, T) with times[k] = T[k] - T[0], so times[0] = 0; AttributeError exactly without traj, KeyError exactly for a trajectory without times, and otherwise only an empty T prevents emission |
| Parsing.GofrtBlocks | aiida_analisi/analisi.py:143-155 | the lines of a gofrt file never raise IndexError in the grouping loop, keep every parsed row in order, and form one block, or none for an empty file |
| Parsing.GofrtOutput | aiida_analisi/analisi.py:143-159 | AttributeError exactly without traj, KeyError exactly for a trajectory without times, and otherwise gofrt emits the grouping loop's blocks, which hold every parsed line in order, and times equal to the unshifted first min(blocks, T) trajectory times; a non-empty file is a single block |

## Findings

| source | as written | input that shows it | evidently intended | confidence | as-written member | corrected member |
|---|---|---|---|---|---|---|
| aiida_analisi/analisi.py:79 | `raise self.exit_codes.ERROR_TOO_CALCULATIONS_SPECIFIED` raises an `ExitCode` named tuple, which Python rejects with `TypeError` | `msd=True` together with a `gofrt` dictionary and `num_cores_per_mpiproc` set | end the step with exit code 401 (`return` the exit code, as the parser does) | high, not executed | Calculation.Prepare, Calculation.TwoModesRaiseTypeError | Calculation.PrepareIntended, Calculation.PrepareDiffersOnlyOnModeCount |

## Left out

- Trajectory serialization: `pyanalisi.Trajectory` and `write_lammps_binary` (analisi.py:25-33, 96-98) belong to an external library. The model records only the file name written and the type-ID array handed to it. Positions, velocities and cells are not modelled.
- AiiDA plumbing: the `define` spec with its defaults, `code_uuid`, `self.report`, `self.out` and the exit-code registry. Exit codes are constructors with their numeric status. The `withmpi` flag is passed through from the job.
- `np.loadtxt` and `np.fromstring` are parameters (`Parsing.Numpy`). A parsed line is an opaque `Row`. `Parsing.CorrelationOutput` takes the row count as the length of what `loadtxt` returns. numpy's 1-D result for a one-row file, where `shape[0]` counts columns, is not modelled.
- The stacking of the gofrt blocks into a 3-D array (`np.array(data)`, analisi.py:156) depends on uniform block shapes. The model keeps the blocks as a sequence of row sequences.
- Python's `str()` of a float (`min_r`, `max_r`) is a parameter `showReal`. Integers are rendered in decimal, as `str()` does. This includes the thread count, which the source inserts as an integer.
- A `gofrt` or `sh` dictionary that lacks `min_r`, `max_r` or `n_bins` raises `KeyError` in the source. The model's `Range` always has all three.
- A retrieved folder is a map from file name to contents. A file that cannot be opened for any `OSError` reason is absent from the map. An `OSError` raised while `loadtxt` reads the file is not modelled.
- `readlines()` is modelled on text whose newlines are already `'\n'`. Universal-newline translation of `'\r\n'` and `'\r'` is left out.
- Parsing.ZeroShiftedPrefix: trajectory times are modelled as exact reals. The source subtracts in float64, where `(T[k] - T[0]) + T[0]` need not give back `T[k]` (for T = [0.2, 0.7000000000000001] it gives 0.7). Float64 rounding of `T[k] - T[0]` is not modelled.
- `start_step` and `stop_step` are declared but never used by the source, so they are not modelled.
- TypeIds.GetTypesIdArray: codes are unbounded integers. The source stores them as int32. They are below the number of distinct symbols, so the cast changes nothing below 2^31 distinct symbols. Wrap-around beyond that is not modelled.
