/** The handful of Go `strings` and `path/filepath` operations the core uses,
    over `string` as `seq<char>`. */
module Text {

  /** `strings.HasPrefix(s, p)`. */
  predicate HasPrefix(s: string, p: string) {
    |p| <= |s| && s[..|p|] == p
  }

  /** `strings.HasSuffix(s, p)`. */
  predicate HasSuffix(s: string, p: string) {
    |p| <= |s| && s[|s| - |p|..] == p
  }

  /** `sub` occurs in `s` starting at index `i`. */
  predicate OccursAt(s: string, sub: string, i: int) {
    0 <= i && i + |sub| <= |s| && s[i..i + |sub|] == sub
  }

  /** `strings.Contains(s, sub)`. */
  predicate Contains(s: string, sub: string) {
    exists i :: 0 <= i <= |s| - |sub| && OccursAt(s, sub, i)
  }

  /** Occurrences in `s[1..]` are the occurrences in `s` shifted by one. */
  lemma OccursShift(s: string, sub: string)
    requires |s| > 0
    ensures forall i :: 1 <= i ==> (OccursAt(s, sub, i) <==> OccursAt(s[1..], sub, i - 1))
  {
    forall i | 1 <= i
      ensures OccursAt(s, sub, i) <==> OccursAt(s[1..], sub, i - 1)
    {
      if i + |sub| <= |s| {
        assert s[1..][i - 1..i - 1 + |sub|] == s[i..i + |sub|];
      }
    }
  }

  /** `strings.Split(s, sep)[0]` for a non-empty separator: the longest prefix
      of `s` in which no occurrence of `sep` starts, so that it is followed
      either by `sep` or by the end of `s`. */
  function BeforeFirst(s: string, sep: string): (r: string)
    requires sep != ""
    ensures HasPrefix(s, r)
    ensures forall i :: 0 <= i < |r| ==> !OccursAt(s, sep, i)
    ensures r == s || OccursAt(s, sep, |r|)
    decreases |s|
  {
    if HasPrefix(s, sep) then ""
    else if s == "" then ""
    else
      OccursShift(s, sep);
      assert !OccursAt(s, sep, 0) by {
        if |sep| <= |s| { assert s[0..|sep|] == s[..|sep|]; }
      }
      [s[0]] + BeforeFirst(s[1..], sep)
  }

  /** `strings.Join(parts, sep)`. */
  function Join(parts: seq<string>, sep: string): string
    decreases |parts|
  {
    if |parts| == 0 then ""
    else if |parts| == 1 then parts[0]
    else parts[0] + sep + Join(parts[1..], sep)
  }

  /** `strings.Split(s, [sep])` for a one-character separator: the pieces
      between separators, so never empty. */
  function Split(s: string, sep: char): (r: seq<string>)
    ensures |r| > 0
    ensures forall i :: 0 <= i < |r| ==> sep !in r[i]
    decreases |s|
  {
    if s == "" then [""]
    else if s[0] == sep then [""] + Split(s[1..], sep)
    else
      var rest := Split(s[1..], sep);
      [[s[0]] + rest[0]] + rest[1..]
  }

  /** Each line followed by a newline, as a buffered writer emits
      `line + "\n"` for every line. */
  function Terminated(lines: seq<string>): (s: string)
    ensures |lines| > 0 ==> HasSuffix(s, "\n")
    decreases |lines|
  {
    if |lines| == 0 then "" else lines[0] + "\n" + Terminated(lines[1..])
  }

  /** `filepath.Join(dir, name)` for a name that is a single clean element. */
  function PathJoin(dir: string, name: string): (p: string)
    ensures HasPrefix(p, dir + "/")
    ensures p[|dir| + 1..] == name
  {
    dir + "/" + name
  }

  /** The directory a path is created in: everything before its last '/',
      which is `filepath.Dir` for the absolute, clean paths the core builds
      (a top-level entry's parent, the root, comes out as ""). */
  function Parent(p: string): (d: string)
    ensures p != "" ==> |d| < |p|
    decreases |p|
  {
    if p == "" then ""
    else if p[|p| - 1] == '/' then p[..|p| - 1]
    else Parent(p[..|p| - 1])
  }

  /** Joining a name free of '/' onto a directory gives a path in that
      directory. */
  lemma {:induction false} ParentOfJoin(dir: string, name: string)
    requires '/' !in name
    ensures Parent(PathJoin(dir, name)) == dir
    decreases |name|
  {
    var p := PathJoin(dir, name);
    if name == "" {
      assert p[..|p| - 1] == dir;
    } else {
      var q := PathJoin(dir, name[..|name| - 1]);
      assert p[|p| - 1] == name[|name| - 1];
      assert p[..|p| - 1] == q;
      ParentOfJoin(dir, name[..|name| - 1]);
    }
  }

  /** `strings.Join` of two parts. */
  lemma JoinPair(a: string, b: string, sep: string)
    ensures Join([a, b], sep) == a + sep + b
  {
    assert [a, b][1..] == [b];
  }

  /** A join ends with the separator followed by the last part. */
  lemma JoinSuffix(parts: seq<string>, sep: string)
    requires |parts| >= 2
    ensures HasSuffix(Join(parts, sep), sep + parts[|parts| - 1])
    decreases |parts|
  {
    if |parts| > 2 {
      JoinSuffix(parts[1..], sep);
    } else {
      JoinPair(parts[0], parts[1], sep);
      assert parts == [parts[0], parts[1]];
    }
  }

  /** Joining onto one directory is injective in the name. */
  lemma PathJoinInjective(dir: string, a: string, b: string)
    ensures PathJoin(dir, a) == PathJoin(dir, b) <==> a == b
  {
    if PathJoin(dir, a) == PathJoin(dir, b) {
      assert a == PathJoin(dir, a)[|dir| + 1..];
    }
  }

  /** Joining one name onto two directories is injective in the directory. */
  lemma PathJoinDirInjective(a: string, b: string, name: string)
    ensures PathJoin(a, name) == PathJoin(b, name) <==> a == b
  {
    var pa, pb := PathJoin(a, name), PathJoin(b, name);
    if pa == pb {
      assert |a| == |b|;
      assert a == pa[..|a|];
      assert b == pb[..|b|];
    }
  }

  /** Splitting a piece free of the separator in front of the rest extends
      the first piece of the rest. */
  lemma {:induction false} SplitPrefix(a: string, rest: string, sep: char)
    requires sep !in a
    ensures Split(a + rest, sep) == [a + Split(rest, sep)[0]] + Split(rest, sep)[1..]
    decreases |a|
  {
    if a != "" {
      assert (a + rest)[1..] == a[1..] + rest;
      SplitPrefix(a[1..], rest, sep);
      assert [a[0]] + (a[1..] + Split(rest, sep)[0]) == a + Split(rest, sep)[0];
    } else {
      assert a + rest == rest;
      var t := Split(rest, sep);
      assert a + t[0] == t[0];
      assert [t[0]] + t[1..] == t;
    }
  }

  /** Splitting a joined sequence of separator-free lines gives the lines back. */
  lemma {:induction false} SplitJoin(lines: seq<string>, sep: char)
    requires |lines| > 0
    requires forall i :: 0 <= i < |lines| ==> sep !in lines[i]
    ensures Split(Join(lines, [sep]), sep) == lines
    decreases |lines|
  {
    if |lines| == 1 {
      SplitPrefix(lines[0], "", sep);
      assert lines[0] + "" == lines[0];
    } else {
      var tail := Join(lines[1..], [sep]);
      SplitJoin(lines[1..], sep);
      assert Join(lines, [sep]) == lines[0] + ([sep] + tail);
      SplitPrefix(lines[0], [sep] + tail, sep);
      assert ([sep] + tail)[1..] == tail;
      assert Split([sep] + tail, sep) == [""] + lines[1..];
      assert lines[0] + "" == lines[0];
      assert [lines[0]] + lines[1..] == lines;
    }
  }

  /** A '.'-led separator with no other '.' cannot start inside `p` and
      run into a copy of itself placed right after `p`. */
  lemma NoStraddle(p: string, sep: string, i: int)
    requires |sep| > 0 && sep[0] == '.' && '.' !in sep[1..]
    requires 0 <= i < |p| < i + |sep|
    ensures !OccursAt(p + sep, sep, i)
  {
    var k := |p| - i;
    var w := (p + sep)[i..i + |sep|];
    assert w[k] == '.';
    assert sep[k] != '.' by { assert sep[k] == sep[1..][k - 1]; }
  }

  /** No separator starts inside a separator-free `p` when `s` begins with
      `p` followed by the separator. */
  lemma NoEarlyOccurrence(s: string, p: string, sep: string, j: int)
    requires |sep| > 0 && sep[0] == '.' && '.' !in sep[1..]
    requires HasPrefix(s, p + sep) && !Contains(p, sep)
    requires 0 <= j < |p|
    ensures !OccursAt(s, sep, j)
  {
    var q := p + sep;
    assert s[..|q|] == q;
    assert s[..|q|][j..j + |sep|] == s[j..j + |sep|];
    assert s[j..j + |sep|] == q[j..j + |sep|];
    if j + |sep| <= |p| {
      assert (p + sep)[j..j + |sep|] == p[j..j + |sep|];
      assert !OccursAt(p, sep, j);
    } else {
      NoStraddle(p, sep, j);
    }
  }

  /** The part of `s` before the first `sep` is `p` when `s` begins with `p`
      followed by `sep`, `p` holds no `sep` and `sep` is a '.'-led suffix such
      as ".pem". */
  lemma BeforeFirstOfPrefixed(s: string, p: string, sep: string)
    requires |sep| > 0 && sep[0] == '.' && '.' !in sep[1..]
    requires HasPrefix(s, p + sep) && !Contains(p, sep)
    ensures BeforeFirst(s, sep) == p
  {
    var r := BeforeFirst(s, sep);
    assert OccursAt(s, sep, |p|) by {
      assert s[..|p + sep|] == p + sep;
      assert s[|p|..|p| + |sep|] == (p + sep)[|p|..];
    }
    forall j | 0 <= j < |p|
      ensures !OccursAt(s, sep, j)
    {
      NoEarlyOccurrence(s, p, sep, j);
    }
    assert |r| == |p|;
    assert s[..|p + sep|][..|p|] == p;
  }

  /** `BeforeFirst(s, sep) == p` exactly when `s` is `p` followed by `sep` and
      anything, with `p` free of `sep`, or `s` is `p` itself and free of `sep`. */
  lemma BeforeFirstIff(s: string, p: string, sep: string)
    requires |sep| > 0 && sep[0] == '.' && '.' !in sep[1..]
    ensures BeforeFirst(s, sep) == p <==>
      (HasPrefix(s, p + sep) && !Contains(p, sep)) || (s == p && !Contains(s, sep))
  {
    var r := BeforeFirst(s, sep);
    if HasPrefix(s, p + sep) && !Contains(p, sep) {
      BeforeFirstOfPrefixed(s, p, sep);
    } else if s == p && !Contains(s, sep) {
      assert !OccursAt(s, sep, |r|);
    }
    if r == p {
      BeforeFirstFree(s, sep);
      if r != s {
        assert OccursAt(s, sep, |r|);
        assert s[..|r| + |sep|] == r + sep by {
          assert s[..|r|] == r;
          assert s[|r|..|r| + |sep|] == sep;
        }
      }
    }
  }

  /** The part before the first `sep` holds no `sep`. */
  lemma BeforeFirstFree(s: string, sep: string)
    requires sep != ""
    ensures !Contains(BeforeFirst(s, sep), sep)
  {
    var r := BeforeFirst(s, sep);
    assert s[..|r|] == r;
    assert forall j :: 0 <= j < |r| ==> s[j] == r[j] by {
      forall j | 0 <= j < |r| ensures s[j] == r[j] {
        assert s[..|r|][j] == s[j];
      }
    }
    forall i | 0 <= i <= |r| - |sep|
      ensures !OccursAt(r, sep, i)
    {
      assert !OccursAt(s, sep, i);
      var a, b := s[i..i + |sep|], r[i..i + |sep|];
      forall k | 0 <= k < |a| ensures a[k] == b[k] {
        assert s[i + k] == r[i + k];
      }
      assert a == b;
    }
  }

  /** `s` cannot contain `sub` when a character of `sub` is missing from `s`. */
  lemma MissingChar(s: string, sub: string, c: char)
    requires c in sub && c !in s
    ensures !Contains(s, sub)
  {
    var k :| 0 <= k < |sub| && sub[k] == c;
    forall i | 0 <= i <= |s| - |sub|
      ensures !OccursAt(s, sub, i)
    {
      assert s[i..i + |sub|][k] == s[i + k];
      assert s[i + k] in s;
    }
  }

  /** A leading separator splits off an empty first piece. */
  lemma SplitLeadingSep(rest: string, sep: char)
    ensures Split([sep] + rest, sep) == [""] + Split(rest, sep)
  {
    assert ([sep] + rest)[1..] == rest;
  }

  /** A separator-free piece followed by a separator splits off as it is. */
  lemma SplitAfterPiece(a: string, b: string, sep: char)
    requires sep !in a
    ensures Split(a + [sep] + b, sep) == [a] + Split(b, sep)
  {
    assert a + [sep] + b == a + ([sep] + b);
    SplitPrefix(a, [sep] + b, sep);
    SplitLeadingSep(b, sep);
    var pieces := Split([sep] + b, sep);
    assert a + pieces[0] == a;
    assert pieces[1..] == Split(b, sep);
  }

  /** Newline-terminated lines split back correctly once their tail does. */
  lemma SplitTerminatedStep(lines: seq<string>)
    requires |lines| > 0 && '\n' !in lines[0]
    requires Split(Terminated(lines[1..]), '\n') == lines[1..] + [""]
    ensures Split(Terminated(lines), '\n') == lines + [""]
  {
    var tail := Split(Terminated(lines[1..]), '\n');
    SplitAfterPiece(lines[0], Terminated(lines[1..]), '\n');
    ConsAppend(lines, "");
    assert Split(Terminated(lines), '\n') == [lines[0]] + tail;
  }

  /** A non-empty sequence with one more element at the end is its head
      followed by its tail with that element. */
  lemma ConsAppend<T>(xs: seq<T>, y: T)
    requires |xs| > 0
    ensures [xs[0]] + (xs[1..] + [y]) == xs + [y]
  {
  }

  /** Splitting newline-terminated lines gives the lines back, followed by
      the empty piece after the final newline. */
  lemma {:induction false} SplitTerminated(lines: seq<string>)
    requires forall i :: 0 <= i < |lines| ==> '\n' !in lines[i]
    ensures Split(Terminated(lines), '\n') == lines + [""]
    decreases |lines|
  {
    if |lines| > 0 {
      var tail := lines[1..];
      assert forall i :: 0 <= i < |tail| ==> '\n' !in tail[i] by {
        forall i | 0 <= i < |tail| ensures '\n' !in tail[i] { assert tail[i] == lines[i + 1]; }
      }
      SplitTerminated(tail);
      SplitTerminatedStep(lines);
    }
  }
}
