/** The scan of the source directory: for each entry, in listing order, decide
whether it is a pair to compare, compare it, file the outcome, and clean up.

`Step` is one pass of the loop body, `Scan` the loop as a left fold. The
directory listing is a `seq<string>`, the names present in the target directory
a `set<string>`, and the container run an oracle from file name to `ToolRun`.
 */
module PairScan {
  import opened Failures
  import opened GoStrings
  import opened DiffParse
  import opened Classify
  import opened Workspace

  const PngSuffix: string := ".png"

  /** The two lists the report is built from, both in scan order. */
  datatype Report = Report(dims: seq<string>, pixels: seq<DiffPixel>)

  datatype State = State(report: Report, files: set<string>)

  const EmptyReport := Report([], [])

  /** An entry is compared when it is a PNG and the target directory has a file of the same name. */
  predicate IsCandidate(name: string, targets: set<string>) {
    HasSuffix(name, PngSuffix) && name in targets
  }

  /** The outcomes after which the tool's diff image is expected at the transient diff path. */
  predicate UsesDiff(o: Outcome) {
    o.Identical? || o.PixelMismatch?
  }

  /** Copy the pair in, let the tool run (it may leave a diff image), dispose of
      that image as the outcome `o` requires, then remove the two copies.
      Only the diff image can be missing: the copies were made by this very step. */
  function Settle(files: set<string>, name: string, o: Outcome, wroteDiff: bool): (r: Result<set<string>>)
    requires !o.Fatal?
    ensures r.Ok? <==> (UsesDiff(o) ==> wroteDiff || Transient(Diff, name) in files)
    ensures r.Fail? ==>
              r.error == (if o.Identical? then RemoveFailed(Transient(Diff, name)) else RenameFailed(Transient(Diff, name)))
    ensures r.Ok? ==> forall p :: p !in Touched(name) ==> (p in r.value <==> p in files)
    ensures r.Ok? ==> Clean(r.value, name, o)
    // the kept diff image changes only on a pixel mismatch; on 65 the tool's image stays
    ensures r.Ok? && !o.PixelMismatch? ==> (Artifact(name) in r.value <==> Artifact(name) in files)
    ensures r.Ok? && o.DimMismatch? ==>
              (Transient(Diff, name) in r.value <==> wroteDiff || Transient(Diff, name) in files)
  {
    StagedPathsDistinct(name);
    var staged := files + {Transient(Src, name), Transient(Target, name)};
    var ran := if wroteDiff then staged + {Transient(Diff, name)} else staged;
    var settled :- DisposeDiff(ran, name, o);
    Unstage(settled, name)
  }

  /** Delete the diff image on 0, move it to the working directory on 66, leave it on 65. */
  function DisposeDiff(files: set<string>, name: string, o: Outcome): (r: Result<set<string>>)
    requires !o.Fatal?
    ensures r.Ok? <==> (UsesDiff(o) ==> Transient(Diff, name) in files)
    ensures r.Fail? ==>
              r.error == (if o.Identical? then RemoveFailed(Transient(Diff, name)) else RenameFailed(Transient(Diff, name)))
    ensures r.Ok? ==> forall p :: p != Transient(Diff, name) && p != Artifact(name) ==> (p in r.value <==> p in files)
    ensures r.Ok? && UsesDiff(o) ==> Transient(Diff, name) !in r.value
    ensures r.Ok? && o.PixelMismatch? ==> Artifact(name) in r.value
    ensures o.DimMismatch? ==> r == Ok(files)
    ensures r.Ok? && o.Identical? ==> r.value == files - {Transient(Diff, name)}
    ensures r.Ok? && o.PixelMismatch? ==> r.value == files - {Transient(Diff, name)} + {Artifact(name)}
  {
    ArtifactDistinct(Diff, name, name);
    match o
    case Identical => Remove(files, Transient(Diff, name))
    case PixelMismatch(_) => Rename(files, Transient(Diff, name), Artifact(name))
    case DimMismatch(_) => Ok(files)
  }

  /** Remove the two staged copies; both exist, so neither removal fails. */
  function Unstage(files: set<string>, name: string): (r: Result<set<string>>)
    requires Transient(Src, name) in files && Transient(Target, name) in files
    ensures r == Ok(files - {Transient(Src, name), Transient(Target, name)})
  {
    StagedPathsDistinct(name);
    assert files - {Transient(Src, name)} - {Transient(Target, name)}
        == files - {Transient(Src, name), Transient(Target, name)};
    match Remove(files, Transient(Src, name))
    case Fail(e) => Fail(e)
    case Ok(noSrc) => Remove(noSrc, Transient(Target, name))
  }

  /** The report after one non-fatal outcome. */
  function Record(rep: Report, o: Outcome): Report
    requires !o.Fatal?
  {
    match o
    case Identical => rep
    case DimMismatch(f) => Report(rep.dims + [f], rep.pixels)
    case PixelMismatch(dp) => Report(rep.dims, rep.pixels + [dp])
  }

  /** One pass of the loop body over the entry `name`. */
  function Step(st: State, name: string, targets: set<string>, tool: string -> ToolRun): (r: Result<State>)
    ensures !IsCandidate(name, targets) ==> r == Ok(st)
    ensures IsCandidate(name, targets) && ClassifyRun(name, tool(name)).Fatal? ==>
              r == Fail(ClassifyRun(name, tool(name)).error)
    // a compared, non-fatal file fails exactly when the diff image it must dispose of is missing
    ensures IsCandidate(name, targets) && !ClassifyRun(name, tool(name)).Fatal? ==>
              (r.Ok? <==> (UsesDiff(ClassifyRun(name, tool(name))) ==>
                             tool(name).wroteDiff || Transient(Diff, name) in st.files))
    ensures IsCandidate(name, targets) && !ClassifyRun(name, tool(name)).Fatal? && r.Fail? ==>
              r.error == (if ClassifyRun(name, tool(name)).Identical? then RemoveFailed(Transient(Diff, name))
                          else RenameFailed(Transient(Diff, name)))
    // removing the staged copies never fails: nothing before it can delete them
    ensures r.Fail? ==> r.error != RemoveFailed(Transient(Src, name)) && r.error != RemoveFailed(Transient(Target, name))
    // the lists grow exactly by this file's contribution to the reference lists
    ensures r.Ok? ==>
              r.value.report == Report(st.report.dims + DimOf(name, targets, tool),
                                       st.report.pixels + PixelOf(name, targets, tool))
    // only this file's paths change, and its transient files are gone afterwards
    ensures r.Ok? ==> forall p :: p !in Touched(name) ==> (p in r.value.files <==> p in st.files)
    ensures r.Ok? && IsCandidate(name, targets) ==> Clean(r.value.files, name, ClassifyRun(name, tool(name)))
  {
    if !IsCandidate(name, targets) then
      assert st.report.dims + [] == st.report.dims && st.report.pixels + [] == st.report.pixels;
      Ok(st)
    else
      var o := ClassifyRun(name, tool(name));
      Compare(st, name, o, tool(name).wroteDiff)
  }

  /** The loop body for a compared file whose tool run was classified as `o`. */
  function Compare(st: State, name: string, o: Outcome, wroteDiff: bool): (r: Result<State>)
    requires o.Fatal? ==> o.error.ToolFailed? || o.error.OutputTooShort? || o.error.NoColon?
    ensures o.Fatal? ==> r == Fail(o.error)
    ensures !o.Fatal? ==> (r.Ok? <==> (UsesDiff(o) ==> wroteDiff || Transient(Diff, name) in st.files))
    ensures !o.Fatal? && r.Fail? ==>
              r.error == (if o.Identical? then RemoveFailed(Transient(Diff, name)) else RenameFailed(Transient(Diff, name)))
    ensures r.Fail? ==> r.error != RemoveFailed(Transient(Src, name)) && r.error != RemoveFailed(Transient(Target, name))
    ensures r.Ok? ==>
              && r.value.report.dims == st.report.dims + (if o.DimMismatch? then [o.file] else [])
              && r.value.report.pixels == st.report.pixels + (if o.PixelMismatch? then [o.diff] else [])
    ensures r.Ok? ==> forall p :: p !in Touched(name) ==> (p in r.value.files <==> p in st.files)
    ensures r.Ok? ==> Clean(r.value.files, name, o)
    ensures r.Ok? && !o.PixelMismatch? ==> (Artifact(name) in r.value.files <==> Artifact(name) in st.files)
  {
    if o.Fatal? then
      Fail(o.error)
    else
      StagedPathsDistinct(name);
      var files :- Settle(st.files, name, o, wroteDiff);
      assert st.report.dims + [] == st.report.dims && st.report.pixels + [] == st.report.pixels;
      Ok(State(Record(st.report, o), files))
  }

  /** After comparing `name` with outcome `o`: its copies are gone, and its diff
      image is gone from the workspace and, on a pixel mismatch, kept beside it. */
  predicate Clean(files: set<string>, name: string, o: Outcome) {
    && Transient(Src, name) !in files
    && Transient(Target, name) !in files
    && (UsesDiff(o) ==> Transient(Diff, name) !in files)
    && (o.PixelMismatch? ==> Artifact(name) in files)
  }

  lemma StagedPathsDistinct(name: string)
    ensures Transient(Src, name) != Transient(Target, name)
    ensures Transient(Src, name) != Transient(Diff, name)
    ensures Transient(Target, name) != Transient(Diff, name)
    ensures Artifact(name) != Transient(Src, name) && Artifact(name) != Transient(Target, name)
  {
    TransientInjective(Src, name, Target, name);
    TransientInjective(Src, name, Diff, name);
    TransientInjective(Target, name, Diff, name);
    ArtifactDistinct(Src, name, name);
    ArtifactDistinct(Target, name, name);
  }

  /** The loop: the listing folded through `Step`; the first fatal step ends the run
      and discards the report built so far. */
  function Scan(st: State, listing: seq<string>, targets: set<string>, tool: string -> ToolRun): (r: Result<State>)
    ensures (exists i :: 0 <= i < |listing| && IsCandidate(listing[i], targets) &&
                         ClassifyRun(listing[i], tool(listing[i])).Fatal?) ==> r.Fail?
    decreases |listing|
  {
    if |listing| == 0 then
      Ok(st)
    else
      var next :- Step(st, listing[0], targets, tool);
      FatalInTail(listing, targets, tool);
      Scan(next, listing[1..], targets, tool)
  }

  /** A fatal compared file after the first entry is a fatal compared file of the rest. */
  lemma FatalInTail(listing: seq<string>, targets: set<string>, tool: string -> ToolRun)
    requires |listing| > 0
    requires !(IsCandidate(listing[0], targets) && ClassifyRun(listing[0], tool(listing[0])).Fatal?)
    ensures (exists i :: 0 <= i < |listing| && IsCandidate(listing[i], targets) &&
                         ClassifyRun(listing[i], tool(listing[i])).Fatal?)
            ==> (exists j :: 0 <= j < |listing[1..]| && IsCandidate(listing[1..][j], targets) &&
                             ClassifyRun(listing[1..][j], tool(listing[1..][j])).Fatal?)
  {
    if exists i :: 0 <= i < |listing| && IsCandidate(listing[i], targets) && ClassifyRun(listing[i], tool(listing[i])).Fatal? {
      var i :| 0 <= i < |listing| && IsCandidate(listing[i], targets) && ClassifyRun(listing[i], tool(listing[i])).Fatal?;
      assert listing[1..][i - 1] == listing[i];
    }
  }

  /** A completed scan of a non-empty listing is a completed first step followed
      by a completed scan of the rest. */
  lemma ScanUnfold(st: State, listing: seq<string>, targets: set<string>, tool: string -> ToolRun)
    requires |listing| > 0 && Scan(st, listing, targets, tool).Ok?
    ensures Step(st, listing[0], targets, tool).Ok?
    ensures Scan(st, listing, targets, tool) == Scan(Step(st, listing[0], targets, tool).value, listing[1..], targets, tool)
  {
  }

  // ---------------------------------------------------------------------------
  // Reference definitions: what the report should hold, computed file by file
  // from the classification alone, without the workspace or the fold.

  /** The entries that are compared, in listing order. */
  function Candidates(listing: seq<string>, targets: set<string>): (cs: seq<string>)
    ensures |cs| <= |listing|
    ensures forall i :: 0 <= i < |cs| ==> IsCandidate(cs[i], targets) && cs[i] in listing
    ensures forall i :: 0 <= i < |listing| && IsCandidate(listing[i], targets) ==> listing[i] in cs
  {
    if |listing| == 0 then []
    else
      var rest := Candidates(listing[1..], targets);
      if IsCandidate(listing[0], targets) then [listing[0]] + rest else rest
  }

  /** What one entry adds to the dimension list: its name when it is compared and
      the tool exits 65, nothing otherwise. */
  function DimOf(n: string, targets: set<string>, tool: string -> ToolRun): (d: seq<string>)
    ensures |d| <= 1
    ensures |d| == 1 <==> IsCandidate(n, targets) && ClassifyRun(n, tool(n)).DimMismatch?
    ensures |d| == 1 ==> d[0] == n
  {
    if IsCandidate(n, targets) && ClassifyRun(n, tool(n)).DimMismatch? then [n] else []
  }

  /** What one entry adds to the pixel list: its parsed record when it is compared
      and the tool exits 66 with well-formed output, nothing otherwise. */
  function PixelOf(n: string, targets: set<string>, tool: string -> ToolRun): (p: seq<DiffPixel>)
    ensures |p| <= 1
    ensures |p| == 1 <==> IsCandidate(n, targets) && ClassifyRun(n, tool(n)).PixelMismatch?
    ensures |p| == 1 ==> p[0].file == n && ClassifyRun(n, tool(n)) == PixelMismatch(p[0])
    ensures |p| == 1 ==> IsPixelRecord(p[0], targets, tool)
    ensures |p| + |DimOf(n, targets, tool)| <= 1
  {
    var o := ClassifyRun(n, tool(n));
    if IsCandidate(n, targets) && o.PixelMismatch? then [o.diff] else []
  }

  /** The compared entries whose dimensions differ, in listing order. */
  function DimsOf(listing: seq<string>, targets: set<string>, tool: string -> ToolRun): (ds: seq<string>)
    ensures forall i :: 0 <= i < |ds| ==>
              IsCandidate(ds[i], targets) && ds[i] in listing && ClassifyRun(ds[i], tool(ds[i])).DimMismatch?
  {
    if |listing| == 0 then [] else DimOf(listing[0], targets, tool) + DimsOf(listing[1..], targets, tool)
  }

  /** `d` is the record the program appends for its file: the file is compared and
      the tool's run on it classifies as a pixel mismatch carrying `d`. */
  predicate IsPixelRecord(d: DiffPixel, targets: set<string>, tool: string -> ToolRun) {
    IsCandidate(d.file, targets) && ClassifyRun(d.file, tool(d.file)) == PixelMismatch(d)
  }

  /** The records of the compared entries whose pixels differ, in listing order. */
  function PixelsOf(listing: seq<string>, targets: set<string>, tool: string -> ToolRun): (ps: seq<DiffPixel>)
    ensures forall d :: d in ps ==> d.file in listing && IsPixelRecord(d, targets, tool)
  {
    if |listing| == 0 then []
    else
      var head, rest := PixelOf(listing[0], targets, tool), PixelsOf(listing[1..], targets, tool);
      assert forall d :: d in rest ==> d.file in listing by {
        forall d | d in rest ensures d.file in listing {
          InSlice(listing, d.file);
        }
      }
      head + rest
  }

  lemma InSlice<T>(s: seq<T>, x: T)
    requires |s| > 0 && x in s[1..]
    ensures x in s
  {
    var k :| 0 <= k < |s[1..]| && s[1..][k] == x;
    assert s[k + 1] == x;
  }

  /** No compared entry whose dimensions differ is missing from the dimension list. */
  lemma {:induction false} DimsOfComplete(listing: seq<string>, targets: set<string>, tool: string -> ToolRun, n: string)
    requires n in listing && IsCandidate(n, targets) && ClassifyRun(n, tool(n)).DimMismatch?
    ensures n in DimsOf(listing, targets, tool)
    decreases |listing|
  {
    if listing[0] != n {
      InTail(listing, n);
      DimsOfComplete(listing[1..], targets, tool, n);
    }
  }

  /** No compared entry whose pixels differ is missing from the pixel list. */
  lemma {:induction false} PixelsOfComplete(listing: seq<string>, targets: set<string>, tool: string -> ToolRun, n: string)
    requires n in listing && IsCandidate(n, targets) && ClassifyRun(n, tool(n)).PixelMismatch?
    ensures ClassifyRun(n, tool(n)).diff in PixelsOf(listing, targets, tool)
    decreases |listing|
  {
    var head := PixelOf(listing[0], targets, tool);
    var rest := PixelsOf(listing[1..], targets, tool);
    if listing[0] != n {
      InTail(listing, n);
      PixelsOfComplete(listing[1..], targets, tool, n);
      assert PixelsOf(listing, targets, tool) == head + rest;
    } else {
      var d := PixelOfHit(n, targets, tool);
      assert PixelsOf(listing, targets, tool) == [d] + rest;
    }
  }

  lemma InTail<T>(s: seq<T>, x: T)
    requires x in s && s[0] != x
    ensures x in s[1..]
  {
    var k :| 0 <= k < |s| && s[k] == x;
    assert s[1..][k - 1] == x;
  }

  /** A compared entry whose pixels differ contributes exactly its parsed record. */
  lemma PixelOfHit(n: string, targets: set<string>, tool: string -> ToolRun) returns (d: DiffPixel)
    requires IsCandidate(n, targets) && ClassifyRun(n, tool(n)).PixelMismatch?
    ensures d == ClassifyRun(n, tool(n)).diff && PixelOf(n, targets, tool) == [d]
  {
    d := ClassifyRun(n, tool(n)).diff;
  }

  /** A compared file lands in at most one list, so together they are no longer
      than the list of compared files. */
  lemma {:induction false} ReportNoLongerThanCandidates(listing: seq<string>, targets: set<string>, tool: string -> ToolRun)
    ensures |DimsOf(listing, targets, tool)| + |PixelsOf(listing, targets, tool)| <= |Candidates(listing, targets)|
    decreases |listing|
  {
    if |listing| > 0 {
      ReportNoLongerThanCandidates(listing[1..], targets, tool);
    }
  }

  // ---------------------------------------------------------------------------
  // Properties of the fold.

  /** The fold builds exactly the reference lists, appended after what was there. */
  lemma {:induction false} ScanReport(st: State, listing: seq<string>, targets: set<string>, tool: string -> ToolRun)
    requires Scan(st, listing, targets, tool).Ok?
    ensures Scan(st, listing, targets, tool).value.report ==
            Report(st.report.dims + DimsOf(listing, targets, tool), st.report.pixels + PixelsOf(listing, targets, tool))
    decreases |listing|
  {
    if |listing| > 0 {
      ScanUnfold(st, listing, targets, tool);
      var next := Step(st, listing[0], targets, tool).value;
      ScanReport(next, listing[1..], targets, tool);
      AppendHead(st.report.dims, DimOf(listing[0], targets, tool), DimsOf(listing[1..], targets, tool));
      AppendHead(st.report.pixels, PixelOf(listing[0], targets, tool), PixelsOf(listing[1..], targets, tool));
    } else {
      EmptySuffix(st.report.dims);
      EmptySuffix(st.report.pixels);
    }
  }

  lemma AppendHead<T>(acc: seq<T>, head: seq<T>, rest: seq<T>)
    ensures acc + head + rest == acc + (head + rest)
  {
  }

  lemma EmptySuffix<T>(s: seq<T>)
    ensures s + [] == s
  {
  }

  /** A scan that starts from an empty report ends with exactly the reference lists. */
  lemma ScanReportFromEmpty(listing: seq<string>, targets: set<string>, tool: string -> ToolRun, files: set<string>)
    requires Scan(State(EmptyReport, files), listing, targets, tool).Ok?
    ensures Scan(State(EmptyReport, files), listing, targets, tool).value.report ==
            Report(DimsOf(listing, targets, tool), PixelsOf(listing, targets, tool))
  {
    ScanReport(State(EmptyReport, files), listing, targets, tool);
    EmptyPrefix(DimsOf(listing, targets, tool));
    EmptyPrefix(PixelsOf(listing, targets, tool));
  }

  lemma EmptyPrefix<T>(s: seq<T>)
    ensures [] + s == s
  {
  }

  /** Files that are not compared appear in neither list, and the lists together
      are never longer than the number of compared files. */
  lemma ScanReportBounds(listing: seq<string>, targets: set<string>, tool: string -> ToolRun, files: set<string>)
    requires Scan(State(EmptyReport, files), listing, targets, tool).Ok?
    ensures var rep := Scan(State(EmptyReport, files), listing, targets, tool).value.report;
            && (forall n :: n in rep.dims ==> IsCandidate(n, targets) && n in listing)
            && (forall d :: d in rep.pixels ==> IsCandidate(d.file, targets) && d.file in listing)
            && |rep.dims| + |rep.pixels| <= |Candidates(listing, targets)|
  {
    ScanReportFromEmpty(listing, targets, tool, files);
    ReportNoLongerThanCandidates(listing, targets, tool);
  }

  /** When no compared file is fatal and the tool leaves its diff image whenever
      the outcome needs one, the scan completes. */
  lemma {:induction false} ScanCompletes(st: State, listing: seq<string>, targets: set<string>, tool: string -> ToolRun)
    requires forall i :: 0 <= i < |listing| && IsCandidate(listing[i], targets) ==>
               !ClassifyRun(listing[i], tool(listing[i])).Fatal? &&
               (UsesDiff(ClassifyRun(listing[i], tool(listing[i]))) ==> tool(listing[i]).wroteDiff)
    ensures Scan(st, listing, targets, tool).Ok?
    decreases |listing|
  {
    if |listing| > 0 {
      var next := Step(st, listing[0], targets, tool);
      assert next.Ok?;
      forall i | 0 <= i < |listing[1..]| && IsCandidate(listing[1..][i], targets)
        ensures !ClassifyRun(listing[1..][i], tool(listing[1..][i])).Fatal? &&
                (UsesDiff(ClassifyRun(listing[1..][i], tool(listing[1..][i]))) ==> tool(listing[1..][i]).wroteDiff)
      {
        assert listing[1..][i] == listing[i + 1];
      }
      ScanCompletes(next.value, listing[1..], targets, tool);
    }
  }

  /** The scan stops at the first fatal compared file and fails with that file's
      error, provided every compared file before it went through cleanly. */
  lemma {:induction false} ScanStopsAtFirstFatal(st: State, listing: seq<string>, targets: set<string>,
                                                 tool: string -> ToolRun, i: nat)
    requires i < |listing| && IsCandidate(listing[i], targets)
    requires ClassifyRun(listing[i], tool(listing[i])).Fatal?
    requires forall j :: 0 <= j < i && IsCandidate(listing[j], targets) ==>
               !ClassifyRun(listing[j], tool(listing[j])).Fatal? &&
               (UsesDiff(ClassifyRun(listing[j], tool(listing[j]))) ==> tool(listing[j]).wroteDiff)
    ensures Scan(st, listing, targets, tool) == Fail(ClassifyRun(listing[i], tool(listing[i])).error)
    decreases i
  {
    if i > 0 {
      var next := Step(st, listing[0], targets, tool);
      assert next.Ok?;
      forall j | 0 <= j < i - 1 && IsCandidate(listing[1..][j], targets)
        ensures !ClassifyRun(listing[1..][j], tool(listing[1..][j])).Fatal? &&
                (UsesDiff(ClassifyRun(listing[1..][j], tool(listing[1..][j]))) ==> tool(listing[1..][j]).wroteDiff)
      {
        assert listing[1..][j] == listing[j + 1];
      }
      assert listing[1..][i - 1] == listing[i];
      ScanStopsAtFirstFatal(next.value, listing[1..], targets, tool, i - 1);
    }
  }

  /** The tool is consulted only for compared files: two oracles that agree on
      them give the same run, whatever they say about every other entry. */
  lemma {:induction false} ScanConsultsOnlyCandidates(st: State, listing: seq<string>, targets: set<string>,
                                                      tool1: string -> ToolRun, tool2: string -> ToolRun)
    requires forall i :: 0 <= i < |listing| && IsCandidate(listing[i], targets) ==> tool1(listing[i]) == tool2(listing[i])
    ensures Scan(st, listing, targets, tool1) == Scan(st, listing, targets, tool2)
    decreases |listing|
  {
    if |listing| > 0 {
      var n := listing[0];
      if IsCandidate(n, targets) {
        assert tool1(n) == tool2(n);
      }
      assert Step(st, n, targets, tool1) == Step(st, n, targets, tool2);
      match Step(st, n, targets, tool1)
      case Fail(_) =>
      case Ok(next) =>
        forall i | 0 <= i < |listing[1..]| && IsCandidate(listing[1..][i], targets)
          ensures tool1(listing[1..][i]) == tool2(listing[1..][i])
        {
          assert listing[1..][i] == listing[i + 1];
        }
        ScanConsultsOnlyCandidates(next, listing[1..], targets, tool1, tool2);
    }
  }

  /** Comparing other files keeps a file's cleanup in place. */
  lemma {:induction false} ScanKeepsClean(st: State, listing: seq<string>, targets: set<string>,
                                          tool: string -> ToolRun, name: string)
    requires Clean(st.files, name, ClassifyRun(name, tool(name)))
    requires Scan(st, listing, targets, tool).Ok?
    ensures Clean(Scan(st, listing, targets, tool).value.files, name, ClassifyRun(name, tool(name)))
    decreases |listing|
  {
    if |listing| > 0 {
      var m := listing[0];
      var next := Step(st, m, targets, tool).value;
      if m != name {
        TouchedDisjoint(name, m);
        assert Transient(Src, name) in Touched(name) && Transient(Target, name) in Touched(name);
        assert Transient(Diff, name) in Touched(name) && Artifact(name) in Touched(name);
      }
      ScanKeepsClean(next, listing[1..], targets, tool, name);
    }
  }

  /** After a completed scan no staged copy of any compared file is left, no diff
      image is left in the workspace for an identical or pixel-mismatch pair, and
      every pixel-mismatch pair has its diff image kept in the working directory. */
  lemma {:induction false} ScanCleansUp(st: State, listing: seq<string>, targets: set<string>,
                                        tool: string -> ToolRun, i: int)
    requires 0 <= i < |listing| && IsCandidate(listing[i], targets)
    requires Scan(st, listing, targets, tool).Ok?
    ensures Clean(Scan(st, listing, targets, tool).value.files, listing[i], ClassifyRun(listing[i], tool(listing[i])))
    decreases |listing|
  {
    var next := Step(st, listing[0], targets, tool).value;
    if i == 0 {
      ScanKeepsClean(next, listing[1..], targets, tool, listing[0]);
    } else {
      assert listing[1..][i - 1] == listing[i];
      ScanCleansUp(next, listing[1..], targets, tool, i - 1);
    }
  }

  /** Source {a.png, b.png} against target {a.png}: only a.png is compared. */
  lemma OnlyPairedFilesCompared()
    ensures Candidates(["a.png", "b.png"], {"a.png"}) == ["a.png"]
  {
    assert HasSuffix("a.png", PngSuffix);
    assert "b.png" !in {"a.png"};
    assert ["a.png", "b.png"][1..] == ["b.png"];
  }
}
