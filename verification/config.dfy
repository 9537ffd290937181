/** Command-line defaulting and startup validation.

The program takes three optional positional arguments — threshold, source
directory, target directory — each replaced by its default when empty or absent.
As written, the target directory is read from the same position as the source
directory (`flag.Arg(1)`), so a third argument is never used; `ConfigAsWritten`
models that line, `ConfigFromArgs` the evidently intended reading from position 2.
The rest of the run is parameterised by the configuration, so it applies to both.
 */
module Config {
  import opened Failures

  const DefaultThreshold: string := "0.015"
  const DefaultSrcDir: string := "src"
  const DefaultTargetDir: string := "target"

  datatype Config = Config(threshold: string, srcDir: string, targetDir: string)

  /** Go's `flag.Arg(i)`: the i-th positional argument, or "" when there are fewer. */
  function Arg(args: seq<string>, i: nat): string {
    if i < |args| then args[i] else ""
  }

  function OrDefault(v: string, default: string): string {
    if v == "" then default else v
  }

  /** The three assignments exactly as written: source and target both read argument 1. */
  function ConfigAsWritten(args: seq<string>): (c: Config)
    ensures c.threshold != "" && c.srcDir != "" && c.targetDir != ""
    ensures Arg(args, 0) != "" ==> c.threshold == args[0]
    ensures Arg(args, 0) == "" ==> c.threshold == DefaultThreshold
    ensures Arg(args, 1) != "" ==> c.srcDir == args[1] && c.targetDir == args[1]
    ensures Arg(args, 1) == "" ==> c.srcDir == DefaultSrcDir && c.targetDir == DefaultTargetDir
  {
    Config(OrDefault(Arg(args, 0), DefaultThreshold),
           OrDefault(Arg(args, 1), DefaultSrcDir),
           OrDefault(Arg(args, 1), DefaultTargetDir))
  }

  /** The three positional arguments, each defaulted on its own. */
  function ConfigFromArgs(args: seq<string>): (c: Config)
    ensures c.threshold != "" && c.srcDir != "" && c.targetDir != ""
    ensures Arg(args, 0) != "" ==> c.threshold == args[0]
    ensures Arg(args, 1) != "" ==> c.srcDir == args[1]
    ensures Arg(args, 2) != "" ==> c.targetDir == args[2]
    ensures Arg(args, 0) == "" ==> c.threshold == DefaultThreshold
    ensures Arg(args, 1) == "" ==> c.srcDir == DefaultSrcDir
    ensures Arg(args, 2) == "" ==> c.targetDir == DefaultTargetDir
  {
    Config(OrDefault(Arg(args, 0), DefaultThreshold),
           OrDefault(Arg(args, 1), DefaultSrcDir),
           OrDefault(Arg(args, 2), DefaultTargetDir))
  }

  /** With `src a b`-style arguments the as-written code compares `a` with itself:
      the third argument is dropped and the target directory is the source. */
  lemma AsWrittenIgnoresTargetArgument()
    ensures ConfigAsWritten(["0.1", "a", "b"]).targetDir == "a"
    ensures ConfigFromArgs(["0.1", "a", "b"]).targetDir == "b"
  {
  }

  /** A configuration fed back as arguments is reproduced: defaulting is idempotent,
      and each field comes from its own position. */
  lemma {:induction false} ConfigRoundTrip(c: Config)
    requires c.threshold != "" && c.srcDir != "" && c.targetDir != ""
    ensures ConfigFromArgs([c.threshold, c.srcDir, c.targetDir]) == c
  {
    var args := [c.threshold, c.srcDir, c.targetDir];
    assert Arg(args, 0) == c.threshold && Arg(args, 1) == c.srcDir && Arg(args, 2) == c.targetDir;
  }

  /** Arguments past the third are ignored. */
  lemma {:induction false} ExtraArgumentsIgnored(args: seq<string>, extra: seq<string>)
    requires |args| >= 3
    ensures ConfigFromArgs(args + extra) == ConfigFromArgs(args)
  {
    assert Arg(args + extra, 0) == Arg(args, 0);
    assert Arg(args + extra, 1) == Arg(args, 1);
    assert Arg(args + extra, 2) == Arg(args, 2);
  }

  /** What `os.Stat` reports for a path. */
  datatype DirStat = StatError | Directory | NotDirectory

  /** The startup checks, in order: docker on the PATH, a parseable threshold, a
      source directory, a target directory. Whether a string parses as a 32-bit
      float is left to the `parsesAsFloat` predicate. */
  function Validate(cfg: Config, dockerOnPath: bool, parsesAsFloat: string -> bool,
                    stat: string -> DirStat): (r: Result<Config>)
    ensures r.Ok? <==>
              dockerOnPath && parsesAsFloat(cfg.threshold) &&
              stat(cfg.srcDir) == Directory && stat(cfg.targetDir) == Directory
    ensures r.Ok? ==> r.value == cfg
    ensures !dockerOnPath ==> r == Fail(DockerNotFound)
    ensures dockerOnPath && !parsesAsFloat(cfg.threshold) ==> r == Fail(BadThreshold(cfg.threshold))
    ensures r == Fail(SourceDirError(cfg.srcDir)) <==>
              dockerOnPath && parsesAsFloat(cfg.threshold) && stat(cfg.srcDir) == StatError
    ensures r == Fail(SourceNotDir(cfg.srcDir)) <==>
              dockerOnPath && parsesAsFloat(cfg.threshold) && stat(cfg.srcDir) == NotDirectory
    ensures r == Fail(TargetDirError(cfg.targetDir)) <==>
              dockerOnPath && parsesAsFloat(cfg.threshold) && stat(cfg.srcDir) == Directory &&
              stat(cfg.targetDir) == StatError
    ensures r == Fail(TargetNotDir(cfg.targetDir)) <==>
              dockerOnPath && parsesAsFloat(cfg.threshold) && stat(cfg.srcDir) == Directory &&
              stat(cfg.targetDir) == NotDirectory
  {
    if !dockerOnPath then Fail(DockerNotFound)
    else if !parsesAsFloat(cfg.threshold) then Fail(BadThreshold(cfg.threshold))
    else if stat(cfg.srcDir).StatError? then Fail(SourceDirError(cfg.srcDir))
    else if stat(cfg.srcDir).NotDirectory? then Fail(SourceNotDir(cfg.srcDir))
    else if stat(cfg.targetDir).StatError? then Fail(TargetDirError(cfg.targetDir))
    else if stat(cfg.targetDir).NotDirectory? then Fail(TargetNotDir(cfg.targetDir))
    else Ok(cfg)
  }

  /** One startup check: whether it passes, and the error that stops the run if not. */
  datatype Check = Check(passes: bool, error: FatalError)

  /** The startup checks as a list, in the order the program makes them. */
  function StartupChecks(cfg: Config, dockerOnPath: bool, parsesAsFloat: string -> bool,
                         stat: string -> DirStat): seq<Check>
  {
    [ Check(dockerOnPath, DockerNotFound),
      Check(parsesAsFloat(cfg.threshold), BadThreshold(cfg.threshold)),
      Check(!stat(cfg.srcDir).StatError?, SourceDirError(cfg.srcDir)),
      Check(!stat(cfg.srcDir).NotDirectory?, SourceNotDir(cfg.srcDir)),
      Check(!stat(cfg.targetDir).StatError?, TargetDirError(cfg.targetDir)),
      Check(!stat(cfg.targetDir).NotDirectory?, TargetNotDir(cfg.targetDir)) ]
  }

  /** The error of the first check that does not pass, if any. */
  function FirstFailing(checks: seq<Check>): (r: Result<()>)
    ensures r.Ok? <==> forall i :: 0 <= i < |checks| ==> checks[i].passes
    ensures r.Fail? ==> exists i :: && 0 <= i < |checks| && !checks[i].passes && checks[i].error == r.error
                                    && forall j :: 0 <= j < i ==> checks[j].passes
  {
    if |checks| == 0 then Ok(())
    else if !checks[0].passes then Fail(checks[0].error)
    else
      var r := FirstFailing(checks[1..]);
      if r.Fail? then
        var i :| && 0 <= i < |checks[1..]| && !checks[1..][i].passes && checks[1..][i].error == r.error
                 && forall j :: 0 <= j < i ==> checks[1..][j].passes;
        assert forall j :: 0 <= j < i + 1 ==> checks[j].passes by {
          forall j | 0 <= j < i + 1 ensures checks[j].passes {
            if j > 0 {
              assert checks[j] == checks[1..][j - 1];
            }
          }
        }
        assert checks[i + 1] == checks[1..][i];
        r
      else
        assert forall i :: 0 < i < |checks| ==> checks[i] == checks[1..][i - 1];
        r
  }

  /** Validation stops at the first startup check that does not pass, and returns
      the configuration unchanged when all pass. */
  lemma ValidateFirstFailing(cfg: Config, dockerOnPath: bool, parsesAsFloat: string -> bool,
                             stat: string -> DirStat)
    ensures var v := FirstFailing(StartupChecks(cfg, dockerOnPath, parsesAsFloat, stat));
            Validate(cfg, dockerOnPath, parsesAsFloat, stat) == (if v.Ok? then Ok(cfg) else Fail(v.error))
  {
    var cs := StartupChecks(cfg, dockerOnPath, parsesAsFloat, stat);
    var r := Validate(cfg, dockerOnPath, parsesAsFloat, stat);
    assert cs[0..] == cs;
    FirstFailingStep(cs, 0);
    if !dockerOnPath {
      assert FirstFailing(cs) == Fail(DockerNotFound) && r == Fail(DockerNotFound);
    } else {
      FirstFailingStep(cs, 1);
      if !parsesAsFloat(cfg.threshold) {
        assert FirstFailing(cs) == Fail(BadThreshold(cfg.threshold));
      } else {
        FirstFailingStep(cs, 2);
        FirstFailingStep(cs, 3);
        if stat(cfg.srcDir) != Directory {
          assert FirstFailing(cs).Fail? && FirstFailing(cs).error == r.error;
        } else {
          FirstFailingStep(cs, 4);
          FirstFailingStep(cs, 5);
          assert cs[6..] == [];
          assert FirstFailing(cs).Fail? ==> FirstFailing(cs).error == r.error;
        }
      }
    }
  }

  /** The checks from position `k` on: check `k` decides, or the rest do. */
  lemma FirstFailingStep(checks: seq<Check>, k: nat)
    requires k < |checks|
    ensures FirstFailing(checks[k..]) ==
            (if checks[k].passes then FirstFailing(checks[k + 1..]) else Fail(checks[k].error))
  {
    assert checks[k..][1..] == checks[k + 1..];
  }
}
