/** The transient workspace: the `tmp` directory where each pair is staged for the
container, and the diff images the run leaves in the working directory.

The file system is modelled as the set of working-directory-relative paths that
exist among those the run writes. `filepath.Join(tmpDir, p)` is plain
concatenation with `/` here because directory entry names hold no separator.
 */
module Workspace {
  import opened Failures

  const TmpDir: string := "tmp"

  datatype Kind = Src | Target | Diff

  function Prefix(k: Kind): string {
    match k
    case Src => "src-"
    case Target => "target-"
    case Diff => "diff-"
  }

  /** `tmp/src-<name>`, `tmp/target-<name>` or `tmp/diff-<name>`. */
  function Transient(k: Kind, name: string): string {
    TmpDir + "/" + Prefix(k) + name
  }

  /** `diff-<name>` in the working directory: where a pixel-mismatch diff image is kept. */
  function Artifact(name: string): string {
    Prefix(Diff) + name
  }

  /** The paths one comparison of `name` may create, move or delete. */
  function Touched(name: string): set<string> {
    {Transient(Src, name), Transient(Target, name), Transient(Diff, name), Artifact(name)}
  }

  /** The three prefixes start with different letters. */
  lemma PrefixesDiffer(k1: Kind, k2: Kind)
    ensures k1 != k2 ==> Prefix(k1)[0] != Prefix(k2)[0]
  {
  }

  /** Transient names never collide: different kinds or different files give different paths. */
  lemma TransientInjective(k1: Kind, n1: string, k2: Kind, n2: string)
    ensures Transient(k1, n1) == Transient(k2, n2) <==> k1 == k2 && n1 == n2
  {
    var p1, p2 := Transient(k1, n1), Transient(k2, n2);
    if p1 == p2 {
      assert p1[4] == Prefix(k1)[0] && p2[4] == Prefix(k2)[0];
      PrefixesDiffer(k1, k2);
      var m := |TmpDir + "/" + Prefix(k1)|;
      assert n1 == p1[m..] && n2 == p2[m..];
    }
  }

  /** The kept diff image of one file is never a transient path, nor another file's image. */
  lemma ArtifactDistinct(k: Kind, n: string, m: string)
    ensures Artifact(m) != Transient(k, n)
    ensures Artifact(m) == Artifact(n) <==> m == n
  {
    assert Artifact(m)[0] == 'd' && Transient(k, n)[0] == 't';
    if Artifact(m) == Artifact(n) {
      assert m == Artifact(m)[5..] && n == Artifact(n)[5..];
    }
  }

  /** Two files touch disjoint sets of paths. */
  lemma TouchedDisjoint(n: string, m: string)
    requires n != m
    ensures Touched(n) !! Touched(m)
  {
    TransientInjective(Src, n, Src, m);
    TransientInjective(Src, n, Target, m);
    TransientInjective(Src, n, Diff, m);
    TransientInjective(Target, n, Src, m);
    TransientInjective(Target, n, Target, m);
    TransientInjective(Target, n, Diff, m);
    TransientInjective(Diff, n, Src, m);
    TransientInjective(Diff, n, Target, m);
    TransientInjective(Diff, n, Diff, m);
    ArtifactDistinct(Src, n, m);
    ArtifactDistinct(Target, n, m);
    ArtifactDistinct(Diff, n, m);
    ArtifactDistinct(Src, m, n);
    ArtifactDistinct(Target, m, n);
    ArtifactDistinct(Diff, m, n);
  }

  /** Go's `os.Remove`: fails when the path does not exist. */
  function Remove(files: set<string>, path: string): Result<set<string>> {
    if path in files then Ok(files - {path}) else Fail(RemoveFailed(path))
  }

  /** Go's `os.Rename`: fails when the source does not exist; replaces the destination. */
  function Rename(files: set<string>, from: string, to: string): Result<set<string>> {
    if from in files then Ok(files - {from} + {to}) else Fail(RenameFailed(from))
  }
}
