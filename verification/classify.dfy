/** What one run of the comparison tool means for one file.

The tool is a container run whose exit status carries the verdict: 0 for "no
difference within the threshold", 65 for "dimensions differ", 66 for "pixels
differ" (with the counts printed on standard output). Anything else, including a
tool that never started, ends the whole run.
 */
module Classify {
  import opened Failures
  import opened GoStrings
  import opened DiffParse

  const ExitDifferentDimension: int := 65
  const ExitDifferentPixels: int := 66

  /** What the subprocess oracle returns for one comparison.
      `failed` is Go's `err != nil` from `CombinedOutput`; `exitCode` is
      `ProcessState.ExitCode()`, which is -1 when the process did not start or was
      killed; `output` is the combined stdout/stderr text; `wroteDiff` says whether
      the tool left a diff image at the transient diff path. */
  datatype ToolRun = ToolRun(failed: bool, exitCode: int, output: string, wroteDiff: bool)

  datatype Outcome =
    | Identical
    | DimMismatch(file: string)
    | PixelMismatch(diff: DiffPixel)
    | Fatal(error: FatalError)

  /** The switch on the tool's exit status. */
  function ClassifyRun(fileName: string, run: ToolRun): (o: Outcome)
    ensures o.Identical? <==> !run.failed
    ensures o.DimMismatch? <==> run.failed && run.exitCode == ExitDifferentDimension
    ensures o.DimMismatch? ==> o.file == fileName
    ensures o.PixelMismatch? <==>
              run.failed && run.exitCode == ExitDifferentPixels && NewDiffPixel(fileName, run.output).Ok?
    ensures o.PixelMismatch? ==> NewDiffPixel(fileName, run.output) == Ok(o.diff)
    ensures o.PixelMismatch? ==>
              && o.diff.file == fileName
              && Trimmed(o.diff.pixels) && Trimmed(o.diff.error)
    ensures run.failed && run.exitCode != ExitDifferentDimension && run.exitCode != ExitDifferentPixels
            ==> o == Fatal(ToolFailed(run.exitCode))
    ensures o.Fatal? && run.exitCode == ExitDifferentPixels ==> o.error == NewDiffPixel(fileName, run.output).error
    ensures o.Fatal? ==> o.error.ToolFailed? || o.error.OutputTooShort? || o.error.NoColon?
  {
    if !run.failed then
      Identical
    else if run.exitCode == ExitDifferentDimension then
      DimMismatch(fileName)
    else if run.exitCode == ExitDifferentPixels then
      match NewDiffPixel(fileName, run.output)
      case Ok(dp) => PixelMismatch(dp)
      case Fail(e) => Fatal(e)
    else
      Fatal(ToolFailed(run.exitCode))
  }

  /** A "pixels differ" run whose output is the tool's report is recorded with the
      two values the tool printed, trimmed. */
  lemma ClassifyToolReport(fileName: string, run: ToolRun, header: string,
                           pixelsLabel: string, pixels: string,
                           errorLabel: string, error: string, more: seq<string>)
    requires run.failed && run.exitCode == ExitDifferentPixels
    requires run.output == ToolReport(header, pixelsLabel, pixels, errorLabel, error, more)
    requires '\n' !in header
    requires '\n' !in pixelsLabel && ':' !in pixelsLabel && '\n' !in pixels && ':' !in pixels
    requires '\n' !in errorLabel && ':' !in errorLabel && '\n' !in error && ':' !in error
    requires forall i :: 0 <= i < |more| ==> '\n' !in more[i]
    ensures ClassifyRun(fileName, run) == PixelMismatch(DiffPixel(fileName, TrimSpace(pixels), TrimSpace(error)))
  {
    ParseToolReport(fileName, header, pixelsLabel, pixels, errorLabel, error, more);
  }

  /** The outcome depends only on the tool's exit status, and on its output only for 66. */
  lemma {:induction false} OutputMattersOnlyForPixels(fileName: string, r1: ToolRun, r2: ToolRun)
    requires r1.failed == r2.failed && r1.exitCode == r2.exitCode
    requires r1.failed && r1.exitCode == ExitDifferentPixels ==> r1.output == r2.output
    ensures ClassifyRun(fileName, r1) == ClassifyRun(fileName, r2)
  {
  }
}
