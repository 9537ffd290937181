# pixelmatch-dirs in Dafny

pixelmatch-dirs compares every PNG in a source directory with the file of the same
name in a target directory. For each pair it runs the `pixelmatch` container. The
container's exit status is the verdict: 0 means identical within the threshold, 65
means the dimensions differ, and 66 means the pixels differ. Any other status ends
the run. At the end the program prints one section listing the files whose
dimensions differ and one table of the files whose pixels differ.

This project models the program's pure logic. It treats the container, the file
system and float parsing as inputs:

- `Failures`: every way the modelled part of the run can stop (`log.Fatalf`, or
  the index panic in `newDiffPixel`), as a `Fail` value of `Result`.
- `GoStrings`: Go's `strings.Split` for a one-character separator, its inverse
  `Join`, `strings.TrimSpace` over the Unicode White_Space set, and `HasSuffix`.
- `DiffParse`: `newDiffPixel`. It takes the text between the first and the second
  `:` of output lines 1 and 2, trimmed.
- `Classify`: the exit-status switch, with the tool run as a `ToolRun` value.
- `Workspace`: the transient paths `tmp/src-<n>`, `tmp/target-<n>` and
  `tmp/diff-<n>`, the kept image `diff-<n>`, and `os.Remove` / `os.Rename` over a
  set of paths.
- `PairScan`: the loop body (`Step`), the loop as a left fold (`Scan`), and
  reference definitions of what the two report lists must hold (`DimsOf`,
  `PixelsOf`).
- `Render`: which report sections are printed and in what order, plus a reader
  that recovers the lists from the printed lines.
- `Config`: positional-argument defaulting, both as written and as intended, and
  the startup checks.
- `Program`: `main` over an environment `Env`. `Env` holds the PATH lookup, a
  float-parsing predicate, `os.Stat`, directory listings, the container run as a
  function of file name and threshold, and the files already present. `RunWith`
  is everything after the arguments are read, for a given configuration. `Run` is
  `main` as written: it feeds `RunWith` the as-written configuration.

The model follows the Go code in three places where the documented intent
differs:

- On exit 0 the program deletes `tmp/diff-<n>`. If the tool wrote no diff image,
  that `os.Remove` fails and the run stops.
- On exit 65 any diff image the tool wrote stays in `tmp`.
- A fatal stop leaves that pair's staged copies in `tmp`, because the process
  exits before removing them.

## Model

| member | source | states |
|---|---|---|
| `GoStrings.TrimSpace` | pixelmatch-dirs.go:45-46 | The result has no white space at either end. It is a contiguous slice of the input, and everything removed before and after it is white space. |
| `GoStrings.TrimSpaceOfPadded` | pixelmatch-dirs.go:45-46 | Trimming a trimmed value padded on both sides with any white space gives back exactly that value. |
| `GoStrings.TrimSpaceIdempotent` | pixelmatch-dirs.go:45-46 | Trimming twice is the same as trimming once. |
| `GoStrings.TrimSpaceKeepsAbsent` | pixelmatch-dirs.go:45-46 | Trimming introduces no character, so a value cut between two colons stays colon-free. |
| `GoStrings.Split` | pixelmatch-dirs.go:40-42 | There is one more piece than there are separators. No piece contains the separator, and joining the pieces with it gives back the input. |
| `GoStrings.SplitJoin` | pixelmatch-dirs.go:40-42 | Splitting the join of separator-free pieces gives back those pieces. |
| `GoStrings.SplitSecondPiece` | pixelmatch-dirs.go:41-42 | Index 1 of a split is the text between the first separator and the next one, or the end of the line. |
| `GoStrings.SplitHasSecondPiece` | pixelmatch-dirs.go:41-42 | The split has an index 1 exactly when the separator occurs in the line. |
| `DiffParse.FieldAfterColon` | pixelmatch-dirs.go:41-46 | Succeeds exactly when the line contains `:`. The value is then the text between the first `:` and the next `:` (or the end of the line), with white space trimmed. On failure the error names the line index. |
| `DiffParse.FieldBetweenColons` | pixelmatch-dirs.go:41-46 | A line `label:value:rest` yields exactly the trimmed `value`, whatever follows the second colon. |
| `DiffParse.NewDiffPixel` | pixelmatch-dirs.go:38-48 | Succeeds exactly when the output has at least two newlines and lines 1 and 2 each contain `:`. Otherwise the error is OutputTooShort with the line count, or NoColon for the first line without a colon. On success the record is the file name, then the value of line 1, then the value of line 2, each read as `FieldAfterColon` states. |
| `DiffParse.ParseToolReport` | pixelmatch-dirs.go:38-48 | For any header, any labels and any further lines, parsing `header\nlabel:pixels\nlabel:error...` gives exactly the trimmed pixel and error values. |
| `DiffParse.ParseExample` | pixelmatch-dirs.go:38-48 | `header\npixels: 1234\nerror: 0.042\n` gives `1234` and `0.042`. |
| `Classify.ClassifyRun` | pixelmatch-dirs.go:121-135 | No error gives Identical. Exit 65 gives DimMismatch of exactly the file name. Exit 66 gives PixelMismatch carrying exactly the parser's record when the output parses, and the parser's error otherwise. Any other code, including -1 for a tool that never started, gives Fatal(ToolFailed(code)). Fatal errors are only tool or parse errors. |
| `Classify.ClassifyToolReport` | pixelmatch-dirs.go:121-135 | A run that exits 66 with the tool's report as output is recorded with the file name and the two printed values, trimmed. |
| `Classify.OutputMattersOnlyForPixels` | pixelmatch-dirs.go:121-135 | Two runs with the same status classify alike. Their output text matters only on exit 66. |
| `Workspace.TransientInjective` | pixelmatch-dirs.go:101-108 | Two transient paths `tmp/src-`, `tmp/target-`, `tmp/diff-` are equal exactly when they have the same kind and the same file name. |
| `Workspace.ArtifactDistinct` | pixelmatch-dirs.go:107-108 | A kept image `diff-<m>` is never a transient path. Kept images of different files differ. |
| `Workspace.TouchedDisjoint` | pixelmatch-dirs.go:101-108 | Two different files create, move or delete disjoint sets of paths. |
| `PairScan.DisposeDiff` | pixelmatch-dirs.go:122-142 | On exit 0 the diff image is removed, and on exit 66 it is moved to `diff-<n>`. Either step fails exactly when the image is missing, with RemoveFailed or RenameFailed respectively. On success exit 0 removes exactly `tmp/diff-<n>`, exit 66 replaces it with `diff-<n>`, and exit 65 changes nothing. |
| `PairScan.Unstage` | pixelmatch-dirs.go:143-148 | Removing the two staged copies always succeeds and removes exactly those two paths. |
| `PairScan.Settle` | pixelmatch-dirs.go:101-148 | One comparison's file handling succeeds exactly when the diff image is present whenever the outcome needs it. Only the file's own paths change. On failure the error is RemoveFailed or RenameFailed of `tmp/diff-<n>`. Afterwards its copies are gone, its diff image has left `tmp` on exit 0 or 66, and on exit 66 it is kept. `diff-<n>` changes only on exit 66, and on exit 65 the tool's image stays in `tmp`. |
| `PairScan.Compare` | pixelmatch-dirs.go:104-148 | A fatal outcome fails with its own error. Any other outcome fails exactly when the diff image it must dispose of is missing, with RemoveFailed or RenameFailed of `tmp/diff-<n>`. On success the name or the record is appended to exactly one list, the cleanup of `Settle` holds, and `diff-<n>` changes only on exit 66. Removing the copies never fails. |
| `PairScan.Step` | pixelmatch-dirs.go:88-149 | An entry that is not compared leaves the state unchanged. For a compared file, a fatal outcome fails the step with its error. Any other outcome fails exactly when the tool wrote no diff image, none was left in `tmp` from before, and the outcome is exit 0 or 66; the error is then RemoveFailed or RenameFailed of `tmp/diff-<n>`. On success each list grows by exactly the file's own contribution to the reference lists, and only the file's own paths change. |
| `PairScan.Scan` | pixelmatch-dirs.go:88-149 | If any compared file has a fatal outcome, the whole scan fails and no report is produced. |
| `PairScan.ScanStopsAtFirstFatal` | pixelmatch-dirs.go:88-139 | When every compared file before a fatal one went through cleanly, the scan fails with exactly that fatal file's error: the loop stops at the first `log.Fatalf`. |
| `PairScan.Candidates` | pixelmatch-dirs.go:88-99 | Every compared entry is a `.png` name from the listing that is present in the target directory, and no such entry is missing. There are never more compared entries than listed ones. |
| `PairScan.PixelOf` | pixelmatch-dirs.go:126-127 | An entry adds its own record to the pixel list exactly when it is compared and exits 66 with parseable output. No entry adds to both lists. |
| `PairScan.DimsOf` | pixelmatch-dirs.go:121-125 | Every element of the reference dimension list is a compared `.png` from the listing whose tool run exited 65. |
| `PairScan.PixelsOf` | pixelmatch-dirs.go:121-127 | Every element of the reference pixel list is the parsed record of a compared `.png` from the listing whose tool run exited 66. |
| `PairScan.DimsOfComplete` | pixelmatch-dirs.go:121-125 | Every compared file that exits 65 is in the reference dimension list. |
| `PairScan.PixelsOfComplete` | pixelmatch-dirs.go:121-127 | Every compared file that exits 66 with parseable output has its parsed record in the reference pixel list. |
| `PairScan.ReportNoLongerThanCandidates` | pixelmatch-dirs.go:81-82 | Each compared file lands in at most one list. So the two lists together are no longer than the list of compared files. |
| `PairScan.ScanReport` | pixelmatch-dirs.go:81-149 | A completed fold appends exactly the reference lists, in listing order, to what the state already held. The lists are only ever appended to. |
| `PairScan.ScanReportFromEmpty` | pixelmatch-dirs.go:81-149 | A completed scan that starts from the two empty lists of lines 81-82 ends holding exactly the reference lists. |
| `PairScan.ScanReportBounds` | pixelmatch-dirs.go:88-99 | After a completed scan from an empty report, every listed name and record is a compared `.png` from the listing. The combined length is at most the number of compared files. |
| `PairScan.ScanCompletes` | pixelmatch-dirs.go:121-148 | The scan completes when no compared file is fatal and the tool writes its diff image on every exit 0 and 66. |
| `PairScan.ScanConsultsOnlyCandidates` | pixelmatch-dirs.go:88-121 | Two tool oracles that agree on the compared files give the same scan result. Entries that are skipped never reach the tool. |
| `PairScan.ScanKeepsClean` | pixelmatch-dirs.go:101-148 | Comparing other files does not undo a file's cleanup. |
| `PairScan.ScanCleansUp` | pixelmatch-dirs.go:136-148 | After a completed scan no staged copy of a compared file is left. No diff image is left in `tmp` for an exit 0 or 66 pair, and every exit-66 pair has `diff-<n>` kept. |
| `PairScan.OnlyPairedFilesCompared` | pixelmatch-dirs.go:88-99 | With source `{a.png, b.png}` and target `{a.png}`, only `a.png` is compared. |
| `Render.NameLines` | pixelmatch-dirs.go:153-155 | One printed line per file name, in order. |
| `Render.PixelRows` | pixelmatch-dirs.go:161-163 | One three-cell row (file, pixels, error) per record, in order. |
| `Render.RenderReport` | pixelmatch-dirs.go:151-165 | A section is printed only when its list is non-empty, and the dimension section comes first. The line count is the header plus one line per entry for each printed section. An empty report prints nothing. |
| `Render.ReadRenderedReport` | pixelmatch-dirs.go:151-165 | Both lists can be read back, in order, from the printed lines. |
| `Config.ConfigAsWritten` | pixelmatch-dirs.go:68-76 | The threshold is argument 0, or `0.015` when it is empty or absent. A non-empty argument 1 is both the source and the target directory. With argument 1 empty, the defaults `src` and `target` apply. No field is ever empty. |
| `Config.ConfigFromArgs` | pixelmatch-dirs.go:68-76 | Threshold, source and target each come from their own position (0, 1, 2). Each is replaced by `0.015`, `src` or `target` respectively when empty or absent. |
| `Config.AsWrittenIgnoresTargetArgument` | pixelmatch-dirs.go:74 | With arguments `0.1 a b`, the code as written targets `a`, while the intended reading targets `b`. |
| `Config.ConfigRoundTrip` | pixelmatch-dirs.go:68-76 | Feeding a configuration back as arguments reproduces it. |
| `Config.ExtraArgumentsIgnored` | pixelmatch-dirs.go:68-76 | Arguments after the third change nothing. |
| `Config.Validate` | pixelmatch-dirs.go:168-191 | Succeeds exactly when docker is on the PATH, the threshold parses, and both paths are directories. The checks run in source order: a missing docker, then a bad threshold, then a source that cannot be stat'ed or is not a directory, then the same for the target. Each error is returned exactly when every earlier check passed and its own fails. |
| `Config.ValidateFirstFailing` | pixelmatch-dirs.go:168-191 | Validation returns the error of the first failing check in the list [docker, threshold, source stat, source is a directory, target stat, target is a directory], and the configuration unchanged when all pass. |
| `Config.FirstFailing` | pixelmatch-dirs.go:168-191 | The result is success exactly when every check passes. Otherwise it is the error of a failing check with every earlier check passing. |
| `Program.RunWith` | pixelmatch-dirs.go:78-165 | Without docker the run fails with DockerNotFound. A validation error is the run's error. A completed run passed every startup check. Any compared file with a fatal outcome fails the run. |
| `Program.RunStopsAtFirstFatal` | pixelmatch-dirs.go:78-139 | After validation passes, a run whose compared files before a fatal one went through cleanly fails with exactly that fatal file's error. |
| `Program.Run` | pixelmatch-dirs.go:50-166 | Without docker the run fails with DockerNotFound. With a non-empty argument 1, the run uses that directory as both source and target, and a completed run found it to be a directory. With argument 1 empty, it uses `src` and `target`. |
| `Program.RunIgnoresLaterArguments` | pixelmatch-dirs.go:68-76 | As written, arguments after the second change nothing. |
| `Program.AsWrittenNeverReadsTarget` | pixelmatch-dirs.go:74 | With arguments `0.1 a b`, where `a` is a directory and `b` cannot be stat'ed, the intended reading fails with TargetDirError(`b`). The program as written passes validation and scans `a` against itself. |
| `Program.BadThresholdStopsBeforeScan` | pixelmatch-dirs.go:173-175 | An unparseable threshold fails the run with BadThreshold under both readings of the arguments, whatever the directories and the tool. |
| `Program.NotANumberRejected` | pixelmatch-dirs.go:173-175 | The threshold `not-a-number` is rejected before scanning. |
| `Program.RunPrintsReference` | pixelmatch-dirs.go:81-165 | For any configuration, a completed run prints the reference lists, and its output reads back as those lists. |
| `Program.RunCleansUp` | pixelmatch-dirs.go:136-148 | For any configuration, after a completed run every compared file is cleaned up as `ScanCleansUp` states. |

## Left out

- The container run (`exec.Command`, `CombinedOutput`, lines 112-121). It is the oracle `Env.pixelmatch` from file name and threshold to exit status, output and whether a diff image was written. The docker argument vector and the volume path are not modelled.
- `exec.LookPath` (line 169) is the boolean `Env.dockerOnPath`. `strconv.ParseFloat` (line 173) is the predicate `Env.parsesAsFloat`, because float parsing is outside the model.
- `ioutil.ReadDir` (lines 84-87) is the listing `Env.readDir`, taken in the order given. Go returns entries sorted by name, but no property here depends on the order. Its error path is not modelled.
- The `os.Stat` of a target file (line 97) is modelled as membership in the target directory's listing. A Stat error other than "does not exist" is not modelled.
- `copyFile` (lines 206-215) always succeeds here, because its read and write failures are plain I/O errors. Removal and rename fail only when the path is missing.
- `checkTmpDir` (lines 193-204) and `filepath.Abs` (lines 112-115) are workspace plumbing and are left out.
- The progress line `check <file>` (line 110), the usage text (lines 51-65), and the tab writer's column alignment (line 160) are printing details. `Render` keeps only which lines and cells are printed, and in what order.
- The process exit status of `log.Fatalf` and of a panic are not modelled. Both become a `Fail` value.
- Strings are sequences of code points. Go works on UTF-8 bytes, so invalid UTF-8 in the tool's output is not modelled.
- `PairScan.ScanCompletes` is a sufficient condition only: a run can also complete when a stale `tmp/diff-<n>` from an earlier run is present. `PairScan.Step` and `PairScan.Compare` state the success condition of one step exactly.
- `args` stands for what `flag.Parse` (line 66) leaves as positional arguments. Arguments that start with `-`, such as `-0.5` or `-h`, are taken as flags by `flag.Parse` and are not modelled. Usage output and the exit on `-h` are among them.

## Findings

| source | as written | input that shows it | evidently intended | confidence | as-written member | corrected member |
|---|---|---|---|---|---|---|
| pixelmatch-dirs.go:74 | `targetDir` is read from `flag.Arg(1)`, the same argument as `srcDir` | arguments `0.1 a b`: the target directory is `a`, so every PNG in `a` is compared with itself and `b` is never read | `targetDir` read from `flag.Arg(2)` | high; not executed | `Config.ConfigAsWritten` | `Config.ConfigFromArgs` |

`Config.AsWrittenIgnoresTargetArgument` exhibits the discrepancy on that input,
and `Program.AsWrittenNeverReadsTarget` carries it through the whole run: the
intended reading stops on an unreadable `b`, while the program as written passes
validation and scans `a` against itself. `Config.ConfigFromArgs` proves that the
target directory is argument 2 whenever that argument is non-empty.
`Program.Run` models `main` as written. Everything after the arguments are read
is `Program.RunWith`, which takes the configuration as a parameter. So
`RunWith(ConfigFromArgs(args), env)` is the corrected program, and the run-level
properties (`RunPrintsReference`, `RunCleansUp`) are proved for every
configuration, corrected or not.
