/** The whole run: defaulting, validation, the scan and the printed report, over an
environment that stands for everything outside the program — the PATH lookup,
float parsing, `os.Stat`, directory listings, the container run and the files
already in the working directory.
 */
module Program {
  import opened Failures
  import opened GoStrings
  import opened Classify
  import opened Workspace
  import opened PairScan
  import opened Render
  import opened Config

  datatype Env = Env(
    dockerOnPath: bool,
    parsesAsFloat: string -> bool,
    stat: string -> DirStat,
    readDir: string -> seq<string>,
    // the container run for a file name and the threshold passed to it
    pixelmatch: (string, string) -> ToolRun,
    files: set<string>)

  /** What a run that reaches the end leaves behind: the printed lines and the files. */
  datatype Finished = Finished(output: seq<Line>, files: set<string>)

  /** The names present in a directory, as `os.Stat` sees them. */
  function Present(env: Env, dir: string): set<string> {
    set n | n in env.readDir(dir)
  }

  /** The container run for each file, at the configured threshold. */
  function ToolFor(env: Env, threshold: string): string -> ToolRun {
    (n: string) => env.pixelmatch(n, threshold)
  }

  /** `main` after the arguments are read: validation, the scan and the printed
      report, for the configuration `cfg`. */
  function RunWith(cfg: Config, env: Env): (r: Result<Finished>)
    ensures !env.dockerOnPath ==> r == Fail(DockerNotFound)
    ensures r.Fail? && Validate(cfg, env.dockerOnPath, env.parsesAsFloat, env.stat).Fail? ==>
              r.error == Validate(cfg, env.dockerOnPath, env.parsesAsFloat, env.stat).error
    ensures r.Ok? ==>
              && env.dockerOnPath && env.parsesAsFloat(cfg.threshold)
              && env.stat(cfg.srcDir) == Directory && env.stat(cfg.targetDir) == Directory
    // a fatal comparison prints nothing: the run fails instead
    ensures var listing := env.readDir(cfg.srcDir);
            (exists i :: 0 <= i < |listing| && IsCandidate(listing[i], Present(env, cfg.targetDir)) &&
                         ClassifyRun(listing[i], env.pixelmatch(listing[i], cfg.threshold)).Fatal?)
            ==> r.Fail?
  {
    var valid :- Validate(cfg, env.dockerOnPath, env.parsesAsFloat, env.stat);
    var fin :- Scan(State(EmptyReport, env.files), env.readDir(valid.srcDir), Present(env, valid.targetDir),
                    ToolFor(env, valid.threshold));
    Ok(Finished(RenderReport(fin.report), fin.files))
  }

  /** Once validation passes, a run fails with the error of the first fatal compared
      file, provided every compared file before it went through cleanly: the
      program stops at the first `log.Fatalf` of the loop. */
  lemma RunStopsAtFirstFatal(cfg: Config, env: Env, i: nat)
    requires Validate(cfg, env.dockerOnPath, env.parsesAsFloat, env.stat).Ok?
    requires var listing := env.readDir(cfg.srcDir);
             && i < |listing| && IsCandidate(listing[i], Present(env, cfg.targetDir))
             && ClassifyRun(listing[i], env.pixelmatch(listing[i], cfg.threshold)).Fatal?
    requires var listing := env.readDir(cfg.srcDir);
             forall j :: 0 <= j < i && IsCandidate(listing[j], Present(env, cfg.targetDir)) ==>
               !ClassifyRun(listing[j], env.pixelmatch(listing[j], cfg.threshold)).Fatal? &&
               (UsesDiff(ClassifyRun(listing[j], env.pixelmatch(listing[j], cfg.threshold))) ==>
                  env.pixelmatch(listing[j], cfg.threshold).wroteDiff)
    ensures var n := env.readDir(cfg.srcDir)[i];
            RunWith(cfg, env) == Fail(ClassifyRun(n, env.pixelmatch(n, cfg.threshold)).error)
  {
    var listing := env.readDir(cfg.srcDir);
    var tool := ToolFor(env, cfg.threshold);
    forall j | 0 <= j <= i ensures tool(listing[j]) == env.pixelmatch(listing[j], cfg.threshold) {
    }
    ScanStopsAtFirstFatal(State(EmptyReport, env.files), listing, Present(env, cfg.targetDir), tool, i);
  }

  /** The body of `main` as written: the target directory is read from argument 1,
      so a completed run has listed and compared the source directory with itself. */
  function Run(args: seq<string>, env: Env): (r: Result<Finished>)
    ensures !env.dockerOnPath ==> r == Fail(DockerNotFound)
    ensures r.Ok? && Arg(args, 1) != "" ==>
              && env.parsesAsFloat(OrDefault(Arg(args, 0), DefaultThreshold))
              && env.stat(args[1]) == Directory
    ensures Arg(args, 1) != "" ==>
              r == RunWith(Config(OrDefault(Arg(args, 0), DefaultThreshold), args[1], args[1]), env)
    ensures Arg(args, 1) == "" ==>
              r == RunWith(Config(OrDefault(Arg(args, 0), DefaultThreshold), DefaultSrcDir, DefaultTargetDir), env)
  {
    RunWith(ConfigAsWritten(args), env)
  }

  /** Only the first two arguments matter to the program as written. */
  lemma {:induction false} RunIgnoresLaterArguments(args: seq<string>, extra: seq<string>, env: Env)
    requires |args| >= 2
    ensures Run(args + extra, env) == Run(args, env)
  {
    assert Arg(args + extra, 0) == Arg(args, 0);
    assert Arg(args + extra, 1) == Arg(args, 1);
  }

  /** With arguments `0.1 a b`, where `a` is a directory and `b` cannot be
      stat'ed, the intended reading stops on `b`; the program as written never
      looks at `b` and scans `a` against itself. */
  lemma AsWrittenNeverReadsTarget(env: Env)
    requires env.dockerOnPath && env.parsesAsFloat("0.1")
    requires env.stat("a") == Directory && env.stat("b") == StatError
    ensures RunWith(ConfigFromArgs(["0.1", "a", "b"]), env) == Fail(TargetDirError("b"))
    ensures Run(["0.1", "a", "b"], env) == RunWith(Config("0.1", "a", "a"), env)
    ensures Validate(Config("0.1", "a", "a"), env.dockerOnPath, env.parsesAsFloat, env.stat).Ok?
  {
    assert ConfigFromArgs(["0.1", "a", "b"]) == Config("0.1", "a", "b");
    assert ConfigAsWritten(["0.1", "a", "b"]) == Config("0.1", "a", "a");
  }

  /** An unparseable threshold stops the run before any directory is read or any
      comparison is made: the result is the same whatever the directories and the tool.
      Both readings of the arguments agree on the threshold. */
  lemma BadThresholdStopsBeforeScan(args: seq<string>, env: Env)
    requires env.dockerOnPath && !env.parsesAsFloat(OrDefault(Arg(args, 0), DefaultThreshold))
    ensures Run(args, env) == Fail(BadThreshold(OrDefault(Arg(args, 0), DefaultThreshold)))
    ensures RunWith(ConfigFromArgs(args), env) == Fail(BadThreshold(OrDefault(Arg(args, 0), DefaultThreshold)))
  {
  }

  /** Example: the threshold "not-a-number" passed as the first
      argument is rejected before scanning when it does not parse. */
  lemma NotANumberRejected(env: Env)
    requires env.dockerOnPath && !env.parsesAsFloat("not-a-number")
    ensures Run(["not-a-number"], env) == Fail(BadThreshold("not-a-number"))
  {
    assert Arg(["not-a-number"], 0) == "not-a-number";
    BadThresholdStopsBeforeScan(["not-a-number"], env);
  }

  /** A scanned name ends in ".png", so it can never be mistaken for a section header. */
  lemma PngNameIsNotHeader(n: string)
    requires HasSuffix(n, PngSuffix)
    ensures n != PixelHeader
  {
    assert n[|n| - 1] == PngSuffix[|PngSuffix| - 1] == 'g';
    assert PixelHeader[|PixelHeader| - 1] == '-';
  }

  /** A completed run prints exactly the reference lists — the compared files whose
      dimensions differ, then the records of those whose pixels differ, each in
      listing order — and the printed report reads back as those lists. */
  lemma RunPrintsReference(cfg: Config, env: Env)
    requires RunWith(cfg, env).Ok?
    ensures var listing := env.readDir(cfg.srcDir);
            var targets := Present(env, cfg.targetDir);
            var tool := ToolFor(env, cfg.threshold);
            var rep := Report(DimsOf(listing, targets, tool), PixelsOf(listing, targets, tool));
            && RunWith(cfg, env).value.output == RenderReport(rep)
            && ReadReport(RunWith(cfg, env).value.output) == rep
  {
    var listing := env.readDir(cfg.srcDir);
    var targets := Present(env, cfg.targetDir);
    var tool := ToolFor(env, cfg.threshold);
    var st := State(EmptyReport, env.files);
    assert Scan(st, listing, targets, tool).Ok?;
    ScanReportFromEmpty(listing, targets, tool, env.files);
    var rep := Report(DimsOf(listing, targets, tool), PixelsOf(listing, targets, tool));
    forall i | 0 <= i < |rep.dims| ensures rep.dims[i] != PixelHeader {
      PngNameIsNotHeader(rep.dims[i]);
    }
    ReadRenderedReport(rep);
  }

  /** After a completed run no staged copy of a compared file is left in `tmp`, and
      every file reported with different pixels has its diff image kept as
      `diff-<name>` in the working directory. */
  lemma RunCleansUp(cfg: Config, env: Env, i: int)
    requires RunWith(cfg, env).Ok?
    requires 0 <= i < |env.readDir(cfg.srcDir)| && IsCandidate(env.readDir(cfg.srcDir)[i], Present(env, cfg.targetDir))
    ensures var n := env.readDir(cfg.srcDir)[i];
            Clean(RunWith(cfg, env).value.files, n, ClassifyRun(n, env.pixelmatch(n, cfg.threshold)))
  {
    var listing := env.readDir(cfg.srcDir);
    var tool := ToolFor(env, cfg.threshold);
    ScanCleansUp(State(EmptyReport, env.files), listing, Present(env, cfg.targetDir), tool, i);
    assert tool(listing[i]) == env.pixelmatch(listing[i], cfg.threshold);
  }
}
