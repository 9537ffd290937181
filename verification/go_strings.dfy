/** The few functions of Go's `strings` package the program relies on, over code points:
`strings.Split` with a one-character separator, `strings.TrimSpace` and
`strings.HasSuffix`, together with `Join`, the inverse of `Split`.
 */
module GoStrings {

  /** Go's `unicode.IsSpace`: the characters with the Unicode White_Space property. */
  predicate IsSpace(c: char) {
    var n := c as int;
    || (9 <= n <= 13)
    || n == 0x20
    || n == 0x85
    || n == 0xA0
    || n == 0x1680
    || (0x2000 <= n <= 0x200A)
    || n == 0x2028
    || n == 0x2029
    || n == 0x202F
    || n == 0x205F
    || n == 0x3000
  }

  predicate AllSpace(s: string) {
    forall i :: 0 <= i < |s| ==> IsSpace(s[i])
  }

  /** Neither end of `s` is white space. */
  predicate Trimmed(s: string) {
    |s| == 0 || (!IsSpace(s[0]) && !IsSpace(s[|s| - 1]))
  }

  predicate HasSuffix(s: string, suffix: string) {
    |suffix| <= |s| && s[|s| - |suffix|..] == suffix
  }

  /** Drops the leading white space of `s`. */
  function TrimLeft(s: string): (r: string)
    ensures |r| <= |s| && r == s[|s| - |r|..]
    ensures AllSpace(s[..|s| - |r|])
    ensures |r| == 0 || !IsSpace(r[0])
  {
    if |s| > 0 && IsSpace(s[0]) then
      var r := TrimLeft(s[1..]);
      assert s[..|s| - |r|] == [s[0]] + s[1..][..|s| - 1 - |r|];
      r
    else
      s
  }

  /** Drops the trailing white space of `s`. */
  function TrimRight(s: string): (r: string)
    ensures |r| <= |s| && r == s[..|r|]
    ensures AllSpace(s[|r|..])
    ensures |r| == 0 || !IsSpace(r[|r| - 1])
  {
    if |s| > 0 && IsSpace(s[|s| - 1]) then
      var r := TrimRight(s[..|s| - 1]);
      assert s[|r|..] == s[..|s| - 1][|r|..] + [s[|s| - 1]];
      r
    else
      s
  }

  /** Go's `strings.TrimSpace`: `s` with its white-space prefix and suffix removed. */
  function TrimSpace(s: string): (r: string)
    ensures Trimmed(r)
    ensures exists i, j :: 0 <= i <= j <= |s| && r == s[i..j] && AllSpace(s[..i]) && AllSpace(s[j..])
  {
    var l := TrimLeft(s);
    var r := TrimRight(l);
    TrimBothIsSlice(s, l, r);
    r
  }

  /** The two trimming passes together cut a white-space prefix and suffix from `s`. */
  lemma TrimBothIsSlice(s: string, l: string, r: string)
    requires |l| <= |s| && l == s[|s| - |l|..] && AllSpace(s[..|s| - |l|])
    requires |r| <= |l| && r == l[..|r|] && AllSpace(l[|r|..])
    ensures var i := |s| - |l|;
            && i + |r| <= |s| && r == s[i..i + |r|]
            && AllSpace(s[..i]) && AllSpace(s[i + |r|..])
  {
    var i := |s| - |l|;
    assert s[i + |r|..] == l[|r|..];
  }

  /** Removing white space already gone changes nothing. */
  lemma {:induction false} TrimLeftOfSpacePrefix(a: string, t: string)
    requires AllSpace(a)
    ensures TrimLeft(a + t) == TrimLeft(t)
    decreases |a|
  {
    if |a| > 0 {
      assert (a + t)[1..] == a[1..] + t;
      TrimLeftOfSpacePrefix(a[1..], t);
    } else {
      assert a + t == t;
    }
  }

  lemma {:induction false} TrimRightOfSpaceSuffix(t: string, b: string)
    requires AllSpace(b)
    ensures TrimRight(t + b) == TrimRight(t)
    decreases |b|
  {
    if |b| > 0 {
      assert (t + b)[..|t + b| - 1] == t + b[..|b| - 1];
      TrimRightOfSpaceSuffix(t, b[..|b| - 1]);
    } else {
      assert t + b == t;
    }
  }

  /** TrimSpace recovers a trimmed string from any white-space padding around it;
      so the trimmed text of a field does not depend on how it was padded. */
  lemma TrimSpaceOfPadded(a: string, m: string, b: string)
    requires AllSpace(a) && AllSpace(b) && Trimmed(m)
    ensures TrimSpace(a + m + b) == m
  {
    assert a + m + b == a + (m + b);
    TrimLeftOfSpacePrefix(a, m + b);
    if |m| == 0 {
      assert m + b == b + [];
      TrimLeftOfSpacePrefix(b, []);
    } else {
      assert (m + b)[0] == m[0];
      TrimRightOfSpaceSuffix(m, b);
    }
  }

  lemma TrimSpaceOfLeftPadded(pad: string, m: string)
    requires AllSpace(pad) && Trimmed(m)
    ensures TrimSpace(pad + m) == m
  {
    assert pad + m == pad + m + "";
    TrimSpaceOfPadded(pad, m, "");
  }

  /** Trimming only removes characters, so it adds no character that was absent. */
  lemma TrimSpaceKeepsAbsent(s: string, c: char)
    requires c !in s
    ensures c !in TrimSpace(s)
  {
    var l := TrimLeft(s);
    var r := TrimRight(l);
    assert TrimSpace(s) == r;
    SliceKeepsAbsent(s, |s| - |l|, |s|, c);
    SliceKeepsAbsent(l, 0, |r|, c);
  }

  lemma SliceKeepsAbsent<T>(s: seq<T>, i: nat, j: nat, x: T)
    requires i <= j <= |s| && x !in s
    ensures x !in s[i..j]
  {
    assert forall k :: 0 <= k < j - i ==> s[i..j][k] == s[i + k];
  }

  /** Trimming twice is trimming once. */
  lemma TrimSpaceIdempotent(s: string)
    ensures TrimSpace(TrimSpace(s)) == TrimSpace(s)
  {
    var m := TrimSpace(s);
    assert [] + m + [] == m;
    TrimSpaceOfPadded([], m, []);
  }

  /** The position of the first `c` in `s`, or -1 (Go's `strings.IndexByte`). */
  function IndexOf(s: string, c: char): (k: int)
    ensures -1 <= k < |s|
    ensures k >= 0 ==> s[k] == c && c !in s[..k]
    ensures k < 0 ==> c !in s
  {
    if |s| == 0 then -1
    else if s[0] == c then 0
    else
      var k := IndexOf(s[1..], c);
      if k < 0 then -1
      else
        assert s[..k + 1] == [s[0]] + s[1..][..k];
        k + 1
  }

  /** The text of `s` before its first `c`, or all of `s` when there is none. */
  function Before(s: string, c: char): (r: string)
    ensures |r| <= |s| && r == s[..|r|]
    ensures c !in r
    ensures |r| < |s| ==> s[|r|] == c
  {
    var k := IndexOf(s, c);
    if k < 0 then s else s[..k]
  }

  /** The text of `s` after its first `c`. */
  function After(s: string, c: char): (r: string)
    requires c in s
    ensures s == Before(s, c) + [c] + r
  {
    var k := IndexOf(s, c);
    assert s == s[..k] + [c] + s[k + 1..];
    s[k + 1..]
  }

  /** Before and After are determined by where the first `c` is: any split of `s`
      into a `c`-free head, `c` and a tail is that one. */
  lemma BeforeAfterUnique(s: string, c: char, p: string, t: string)
    requires c !in p && s == p + [c] + t
    ensures c in s && Before(s, c) == p && After(s, c) == t
  {
    IndexOfAfterFreePrefix(p, c, t);
    assert s[|p|] == c;
    assert s[..|p|] == p && s[|p| + 1..] == t;
  }

  /** The pieces put back together with `sep` between neighbours (Go's `strings.Join`). */
  function Join(parts: seq<string>, sep: char): string
    requires |parts| >= 1
  {
    if |parts| == 1 then parts[0] else parts[0] + [sep] + Join(parts[1..], sep)
  }

  /** Go's `strings.Split(s, sep)` for a one-character separator: the maximal
      `sep`-free pieces of `s`, one more than there are separators. */
  function Split(s: string, sep: char): (parts: seq<string>)
    ensures |parts| == multiset(s)[sep] + 1
    ensures Join(parts, sep) == s
    ensures forall i :: 0 <= i < |parts| ==> sep !in parts[i]
    decreases |s|
  {
    var k := IndexOf(s, sep);
    if k < 0 then
      assert multiset(s)[sep] == 0;
      [s]
    else
      var rest := Split(s[k + 1..], sep);
      SplitStep(s, sep, k, rest);
      [s[..k]] + rest
  }

  /** One step of Split: the piece before the first separator, then the pieces after it. */
  lemma SplitStep(s: string, sep: char, k: int, rest: seq<string>)
    requires 0 <= k < |s| && s[k] == sep && sep !in s[..k]
    requires |rest| == multiset(s[k + 1..])[sep] + 1
    requires Join(rest, sep) == s[k + 1..]
    requires forall i :: 0 <= i < |rest| ==> sep !in rest[i]
    ensures |[s[..k]] + rest| == multiset(s)[sep] + 1
    ensures Join([s[..k]] + rest, sep) == s
    ensures forall i :: 0 <= i < |[s[..k]] + rest| ==> sep !in ([s[..k]] + rest)[i]
  {
    var parts := [s[..k]] + rest;
    assert s == s[..k] + [sep] + s[k + 1..];
    assert multiset(s) == multiset(s[..k]) + multiset([sep]) + multiset(s[k + 1..]);
    assert parts[1..] == rest;
  }

  lemma IndexOfAfterFreePrefix(p: string, c: char, t: string)
    requires c !in p
    ensures IndexOf(p + [c] + t, c) == |p|
  {
    var s := p + [c] + t;
    var k := IndexOf(s, c);
    assert s[|p|] == c;
    assert forall j :: 0 <= j < |p| ==> s[j] == p[j];
    assert forall j :: 0 <= j < |p| ==> s[j] != c;
  }

  /** Split yields a second piece exactly when the separator occurs. */
  lemma SplitHasSecondPiece(s: string, sep: char)
    ensures |Split(s, sep)| >= 2 <==> sep in s
  {
    assert sep in s <==> multiset(s)[sep] > 0;
  }

  /** Splitting at a first separator: the free prefix, then the pieces of the rest. */
  lemma SplitAfterFirst(p: string, sep: char, t: string)
    requires sep !in p
    ensures Split(p + [sep] + t, sep) == [p] + Split(t, sep)
  {
    var s := p + [sep] + t;
    IndexOfAfterFreePrefix(p, sep, t);
    assert s[..|p|] == p;
    assert s[|p| + 1..] == t;
  }

  /** The first piece of a split is the text before the first separator. */
  lemma SplitFirstPiece(s: string, sep: char)
    ensures Split(s, sep)[0] == Before(s, sep)
  {
  }

  /** The second piece of a split is the text between the first separator and the next. */
  lemma SplitSecondPiece(s: string, sep: char)
    requires sep in s
    ensures |Split(s, sep)| >= 2 && Split(s, sep)[1] == Before(After(s, sep), sep)
  {
    var p := Before(s, sep);
    var t := After(s, sep);
    SplitAfterFirst(p, sep, t);
    SplitFirstPiece(t, sep);
  }

  lemma HeadAndTail<T>(s: seq<T>)
    requires |s| > 0
    ensures [s[0]] + s[1..] == s
  {
  }

  /** A separator-free string is its own single piece. */
  lemma SplitOfFree(p: string, sep: char)
    requires sep !in p
    ensures Split(p, sep) == [p]
  {
    assert IndexOf(p, sep) < 0;
  }

  /** Split undoes Join when no piece contains the separator. */
  lemma {:induction false} SplitJoin(parts: seq<string>, sep: char)
    requires |parts| >= 1
    requires forall i :: 0 <= i < |parts| ==> sep !in parts[i]
    ensures Split(Join(parts, sep), sep) == parts
    decreases |parts|
  {
    if |parts| == 1 {
      SplitOfFree(parts[0], sep);
    } else {
      var tail := Join(parts[1..], sep);
      assert Join(parts, sep) == parts[0] + [sep] + tail;
      SplitAfterFirst(parts[0], sep, tail);
      SplitJoin(parts[1..], sep);
      HeadAndTail(parts);
    }
  }
}
