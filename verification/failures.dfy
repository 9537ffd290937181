/** The ways the modelled part of a pixelmatch-dirs run can stop early, and a
Result type to carry them. Failures of copying, directory listing and workspace
set-up are outside the model and have no variant here.

The Go program ends the process with `log.Fatalf` (or, in `newDiffPixel`, with an
index-out-of-range panic) on every one of these; here each becomes a `Fail` value
that the caller propagates, and a run that fails produces no report.
 */
module Failures {

  datatype FatalError =
    // startup validation
    | DockerNotFound
    | BadThreshold(threshold: string)
    | SourceDirError(srcDir: string)
    | SourceNotDir(srcDir: string)
    | TargetDirError(targetDir: string)
    | TargetNotDir(targetDir: string)
    // newDiffPixel indexing past the end of a split
    | OutputTooShort(lineCount: nat)
    | NoColon(lineIndex: nat)
    // the comparison tool exited with a code that is neither 0, 65 nor 66, or did not start
    | ToolFailed(exitCode: int)
    // os.Remove / os.Rename of a file that is not there
    | RemoveFailed(path: string)
    | RenameFailed(path: string)

  datatype Result<+T> = Ok(value: T) | Fail(error: FatalError) {

    predicate IsFailure() {
      Fail?
    }

    function PropagateFailure<U>(): Result<U>
      requires Fail?
    {
      Fail(error)
    }

    function Extract(): T
      requires Ok?
    {
      value
    }
  }
}
