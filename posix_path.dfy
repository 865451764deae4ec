/**
 * The parts of Node's POSIX `path` module that `modulePath` uses:
 * `dirname`, `basename` with an extension, and `relative`, which resolves
 * both of its arguments against the working directory first. Paths are
 * cut at '/' into pieces; resolution walks the pieces, skipping empty ones
 * and ".", and letting ".." go up one directory (never above the root).
 */
module PosixPath {
  import opened Text

  /** `s` cut at every '/': consecutive slashes, or slashes at either end, give empty pieces. */
  function Split(s: string): (r: seq<string>)
    ensures |r| > 0
    ensures forall i :: 0 <= i < |r| ==> '/' !in r[i]
    decreases |s|
  {
    if |s| == 0 then [""]
    else
      var rest := Split(s[1..]);
      if s[0] == '/' then [""] + rest
      else [[s[0]] + rest[0]] + rest[1..]
  }

  lemma {:induction false} SplitPrefix(a: string, s: string)
    requires '/' !in a
    ensures Split(a + s) == [a + Split(s)[0]] + Split(s)[1..]
    decreases |a|
  {
    if |a| > 0 {
      assert (a + s)[1..] == a[1..] + s;
      SplitPrefix(a[1..], s);
      assert [a[0]] + (a[1..] + Split(s)[0]) == a + Split(s)[0];
    } else {
      assert a + s == s;
      assert a + Split(s)[0] == Split(s)[0];
      assert [Split(s)[0]] + Split(s)[1..] == Split(s);
    }
  }

  /** Cutting a joined path gives back its pieces. */
  lemma {:induction false} SplitJoin(xs: seq<string>)
    requires |xs| > 0 && forall i :: 0 <= i < |xs| ==> '/' !in xs[i]
    ensures Split(Join(xs, "/")) == xs
    decreases |xs|
  {
    if |xs| == 1 {
      SplitPrefix(xs[0], "");
      assert xs[0] + "" == xs[0];
    } else {
      var rest := Join(xs[1..], "/");
      SplitJoin(xs[1..]);
      assert ("/" + rest)[1..] == rest;
      assert Split("/" + rest) == [""] + xs[1..];
      assert xs[0] + "/" + rest == xs[0] + ("/" + rest);
      SplitPrefix(xs[0], "/" + rest);
      assert xs[0] + "" == xs[0];
    }
  }

  /** Joining the pieces of a path gives back the path. */
  lemma {:induction false} JoinSplit(s: string)
    ensures Join(Split(s), "/") == s
    decreases |s|
  {
    if |s| > 0 {
      var rest := Split(s[1..]);
      JoinSplit(s[1..]);
      if s[0] == '/' {
        assert ([""] + rest)[1..] == rest;
        assert s == "" + "/" + s[1..];
      } else {
        var r := [[s[0]] + rest[0]] + rest[1..];
        if |rest| == 1 {
          assert s == [s[0]] + s[1..];
        } else {
          assert r[1..] == rest[1..];
          assert Join(rest, "/") == rest[0] + "/" + Join(rest[1..], "/");
          assert s == [s[0]] + s[1..];
        }
      }
    }
  }

  /** A piece a resolved path can hold: nonempty, not "." or "..", and without '/'. */
  predicate IsName(x: string) {
    x != "" && x != "." && x != ".." && '/' !in x
  }

  predicate AllNames(xs: seq<string>) {
    forall i :: 0 <= i < |xs| ==> IsName(xs[i])
  }

  predicate NoSlash(xs: seq<string>) {
    forall i :: 0 <= i < |xs| ==> '/' !in xs[i]
  }

  /** The directory `dir` (a list of names below the root) after walking the pieces `xs`. */
  function Walk(dir: seq<string>, xs: seq<string>): (r: seq<string>)
    ensures AllNames(dir) && NoSlash(xs) ==> AllNames(r)
    decreases |xs|
  {
    if |xs| == 0 then dir
    else
      var x := xs[0];
      var next := if x == "" || x == "." then dir
        else if x == ".." then (if |dir| == 0 then dir else dir[..|dir| - 1])
        else dir + [x];
      assert NoSlash(xs) ==> NoSlash(xs[1..]);
      Walk(next, xs[1..])
  }

  /** `path.resolve(p)` with working directory `cwd`, as the names below the root. */
  function Resolve(cwd: string, p: string): (r: seq<string>)
    ensures AllNames(r)
  {
    if |p| > 0 && p[0] == '/' then Walk([], Split(p)) else Walk(Walk([], Split(cwd)), Split(p))
  }

  /** How many leading names `a` and `b` share. */
  function CommonPrefix(a: seq<string>, b: seq<string>): (n: nat)
    ensures n <= |a| && n <= |b| && a[..n] == b[..n]
    ensures n < |a| && n < |b| ==> a[n] != b[n]
    ensures a == b ==> n == |a|
    decreases |a|
  {
    if |a| == 0 || |b| == 0 || a[0] != b[0] then 0
    else
      var n := CommonPrefix(a[1..], b[1..]);
      assert a[..n + 1] == [a[0]] + a[1..][..n];
      assert b[..n + 1] == [b[0]] + b[1..][..n];
      n + 1
  }

  function Ups(k: nat): (r: seq<string>)
    ensures |r| == k && forall i :: 0 <= i < k ==> r[i] == ".."
  {
    seq(k, i => "..")
  }

  /** The pieces of `path.relative(from, to)`: up to the common directory, then down to `to`. */
  function RelativeSteps(cwd: string, from: string, to: string): seq<string> {
    var f, t := Resolve(cwd, from), Resolve(cwd, to);
    var n := CommonPrefix(f, t);
    Ups(|f| - n) + t[n..]
  }

  /** `path.relative(from, to)`. */
  function Relative(cwd: string, from: string, to: string): string {
    Join(RelativeSteps(cwd, from, to), "/")
  }

  lemma StepsArePieces(cwd: string, from: string, to: string)
    ensures var steps := RelativeSteps(cwd, from, to);
      forall i :: 0 <= i < |steps| ==> steps[i] != "" && '/' !in steps[i]
  {
    var f, t := Resolve(cwd, from), Resolve(cwd, to);
    var n := CommonPrefix(f, t);
    var steps := Ups(|f| - n) + t[n..];
    forall i | 0 <= i < |steps| ensures steps[i] != "" && '/' !in steps[i] {
      if i >= |f| - n {
        assert steps[i] == t[n + (i - (|f| - n))];
      }
    }
  }

  /** The joined pieces start with the first piece and end with the last one. */
  lemma {:induction false} JoinEnds(xs: seq<string>)
    requires |xs| > 0 && forall i :: 0 <= i < |xs| ==> xs[i] != "" && '/' !in xs[i]
    ensures |Join(xs, "/")| > 0
    ensures Join(xs, "/")[0] == xs[0][0]
    ensures Join(xs, "/")[|Join(xs, "/")| - 1] == xs[|xs| - 1][|xs[|xs| - 1]| - 1]
    decreases |xs|
  {
    if |xs| > 1 {
      JoinEnds(xs[1..]);
      assert xs[1..][|xs[1..]| - 1] == xs[|xs| - 1];
    }
  }

  /** There are no steps exactly when both paths resolve to the same place. */
  lemma StepsEmpty(cwd: string, from: string, to: string)
    ensures RelativeSteps(cwd, from, to) == [] <==> Resolve(cwd, from) == Resolve(cwd, to)
  {
    var f, t := Resolve(cwd, from), Resolve(cwd, to);
    var n := CommonPrefix(f, t);
    if |f| == n && |t| == n {
      assert f == f[..n] && t == t[..n];
    }
  }

  /** `relative` is empty exactly when both paths resolve to the same place. */
  lemma RelativeEmpty(cwd: string, from: string, to: string)
    ensures Relative(cwd, from, to) == "" <==> Resolve(cwd, from) == Resolve(cwd, to)
  {
    var steps := RelativeSteps(cwd, from, to);
    StepsEmpty(cwd, from, to);
    if |steps| > 0 {
      StepsArePieces(cwd, from, to);
      JoinEnds(steps);
    }
  }

  /** `relative` neither starts nor ends with '/'. */
  lemma RelativeHasNoEdgeSlash(cwd: string, from: string, to: string)
    ensures var r := Relative(cwd, from, to);
      r == "" || (r[0] != '/' && r[|r| - 1] != '/')
  {
    var steps := RelativeSteps(cwd, from, to);
    if |steps| > 0 {
      StepsArePieces(cwd, from, to);
      JoinEnds(steps);
      assert '/' !in steps[0] && '/' !in steps[|steps| - 1];
      assert steps[0][0] in steps[0];
      var last := steps[|steps| - 1];
      assert last[|last| - 1] in last;
    }
  }

  /** A ".." piece leaves the last directory. */
  lemma WalkUp(dir: seq<string>, xs: seq<string>)
    requires |dir| > 0 && |xs| > 0 && xs[0] == ".."
    ensures Walk(dir, xs) == Walk(dir[..|dir| - 1], xs[1..])
  {
  }

  lemma UpsCons(k: nat, rest: seq<string>)
    requires k > 0
    ensures var xs := Ups(k) + rest; |xs| > 0 && xs[0] == ".." && xs[1..] == Ups(k - 1) + rest
  {
    assert Ups(k) == [".."] + Ups(k - 1);
  }

  lemma {:induction false} WalkUps(dir: seq<string>, k: nat, rest: seq<string>)
    requires k <= |dir|
    ensures Walk(dir, Ups(k) + rest) == Walk(dir[..|dir| - k], rest)
    decreases k
  {
    if k > 0 {
      var up := dir[..|dir| - 1];
      UpsCons(k, rest);
      WalkUp(dir, Ups(k) + rest);
      WalkUps(up, k - 1, rest);
      assert up[..|up| - (k - 1)] == dir[..|dir| - k];
    } else {
      assert Ups(0) + rest == rest;
      assert dir[..|dir|] == dir;
    }
  }

  lemma {:induction false} WalkNames(dir: seq<string>, names: seq<string>)
    requires AllNames(names)
    ensures Walk(dir, names) == dir + names
    decreases |names|
  {
    if |names| > 0 {
      WalkNames(dir + [names[0]], names[1..]);
      assert dir + [names[0]] + names[1..] == dir + names;
    }
  }

  /** From `f`, going up to the names it shares with `t` and then down the rest of `t` arrives at `t`. */
  lemma UpThenDown(f: seq<string>, t: seq<string>, n: nat)
    requires n <= |f| && n <= |t| && f[..n] == t[..n] && AllNames(t)
    ensures Walk(f, Ups(|f| - n) + t[n..]) == t
  {
    var k: nat := |f| - n;
    var rest := t[n..];
    WalkUps(f, k, rest);
    assert f[..|f| - k] == t[..n];
    assert AllNames(rest) by {
      forall i | 0 <= i < |rest| ensures IsName(rest[i]) {
        assert rest[i] == t[n + i];
      }
    }
    WalkNames(t[..n], rest);
    assert t[..n] + rest == t;
  }

  /** Resolving `relative(from, to)` from `from` arrives at `to`. */
  lemma RelativeArrives(cwd: string, from: string, to: string)
    ensures Walk(Resolve(cwd, from), Split(Relative(cwd, from, to))) == Resolve(cwd, to)
  {
    var f, t := Resolve(cwd, from), Resolve(cwd, to);
    var steps := RelativeSteps(cwd, from, to);
    if |steps| == 0 {
      StepsEmpty(cwd, from, to);
      assert Split("") == [""];
      assert Walk(f, [""]) == Walk(f, []);
    } else {
      StepsArePieces(cwd, from, to);
      SplitJoin(steps);
      UpThenDown(f, t, CommonPrefix(f, t));
    }
  }

  /**
   * The end of `dirname`'s result: scanning `p[1..i]` backwards, past the
   * trailing slashes (while `matchedSlash`), then past the last piece, to
   * the slash before it; -1 when there is none.
   */
  function DirEnd(p: string, i: nat, matchedSlash: bool): (e: int)
    requires i < |p|
    ensures e == -1 || 1 <= e <= i
    decreases i
  {
    if i < 1 then -1
    else if p[i] == '/' then (if !matchedSlash then i else DirEnd(p, i - 1, true))
    else DirEnd(p, i - 1, false)
  }

  /** `path.dirname(p)`. */
  function Dirname(p: string): (d: string)
    ensures |d| > 0
    ensures d == "." || d == "/" || d == "//" || (|d| < |p| && StartsWith(p, d))
  {
    if |p| == 0 then "."
    else
      var end := DirEnd(p, |p| - 1, true);
      if end == -1 then (if p[0] == '/' then "/" else ".")
      else if p[0] == '/' && end == 1 then "//"
      else p[..end]
  }

  lemma {:induction false} DirEndInName(d: string, name: string, i: nat, matchedSlash: bool)
    requires |d| > 0 && '/' !in name && |d| <= i < |d| + 1 + |name|
    requires i > |d| ==> !matchedSlash || i == |d| + |name|
    requires i == |d| ==> !matchedSlash
    ensures DirEnd(d + "/" + name, i, matchedSlash) == |d|
    decreases i
  {
    var p := d + "/" + name;
    if i > |d| {
      assert p[i] == name[i - |d| - 1];
      assert p[i] in name;
      DirEndInName(d, name, i - 1, false);
    }
  }

  /** The directory of `d/name` is `d`. */
  lemma DirnameOfChild(d: string, name: string)
    requires |d| > 0 && d[|d| - 1] != '/' && name != "" && '/' !in name
    ensures Dirname(d + "/" + name) == d
  {
    var p := d + "/" + name;
    DirEndInName(d, name, |p| - 1, true);
    assert p[..|d|] == d;
    if |d| == 1 {
      assert d[0] != '/';
    }
  }

  /** The last nonempty piece of `p`, or "" when there is none. */
  function LastName(p: string): (r: string)
    ensures '/' !in r
  {
    var pieces := Split(p);
    LastNonEmpty(pieces, |pieces|)
  }

  function LastNonEmpty(xs: seq<string>, n: nat): (r: string)
    requires n <= |xs| && NoSlash(xs)
    ensures '/' !in r
    ensures r == "" || exists i :: 0 <= i < n && xs[i] == r
    decreases n
  {
    if n == 0 then "" else if xs[n - 1] != "" then xs[n - 1] else LastNonEmpty(xs, n - 1)
  }

  /**
   * `path.basename(p, ext)`: the last piece of `p`, without `ext` when it
   * ends with `ext` and is more than `ext`; a path that is exactly `ext`
   * gives "".
   */
  function Basename(p: string, ext: string): (r: string)
    ensures '/' !in r
    ensures p != ext && EndsWith(LastName(p), ext) && LastName(p) != ext ==> r + ext == LastName(p)
    ensures p != ext && !(EndsWith(LastName(p), ext) && LastName(p) != ext) ==> r == LastName(p)
  {
    var base := LastName(p);
    if p == ext then ""
    else if EndsWith(base, ext) && base != ext then
      assert base == base[..|base| - |ext|] + ext;
      assert forall c :: c in base[..|base| - |ext|] ==> c in base;
      base[..|base| - |ext|]
    else base
  }

  /** Cutting `a/b` gives the pieces of `a` followed by those of `b`. */
  lemma {:induction false} SplitSlash(a: string, b: string)
    ensures Split(a + "/" + b) == Split(a) + Split(b)
    decreases |a|
  {
    if |a| == 0 {
      assert a + "/" + b == "/" + b;
      assert ("/" + b)[1..] == b;
    } else {
      assert (a + "/" + b)[1..] == a[1..] + "/" + b;
      SplitSlash(a[1..], b);
    }
  }

  /** The last piece of `d/name` is `name`. */
  lemma LastNameOfChild(d: string, name: string)
    requires name != "" && '/' !in name
    ensures LastName(d + "/" + name) == name
  {
    SplitSlash(d, name);
    SplitPrefix(name, "");
    assert name + "" == name;
  }

  lemma {:induction false} WalkAppend(dir: seq<string>, xs: seq<string>, x: string)
    requires IsName(x)
    ensures Walk(dir, xs + [x]) == Walk(dir, xs) + [x]
    decreases |xs|
  {
    if |xs| == 0 {
      assert [] + [x] == [x];
    } else {
      assert (xs + [x])[1..] == xs[1..] + [x];
      var y := xs[0];
      assert (xs + [x])[0] == y;
      var next := if y == "" || y == "." then dir
        else if y == ".." then (if |dir| == 0 then dir else dir[..|dir| - 1])
        else dir + [y];
      assert Walk(dir, xs + [x]) == Walk(next, xs[1..] + [x]);
      assert Walk(dir, xs) == Walk(next, xs[1..]);
      WalkAppend(next, xs[1..], x);
    }
  }

  /** `d/x` resolves to the directory `d` resolves to, and then `x`. */
  lemma ResolveChild(cwd: string, d: string, x: string)
    requires |d| > 0 && IsName(x)
    ensures Resolve(cwd, d + "/" + x) == Resolve(cwd, d) + [x]
  {
    SplitSlash(d, x);
    assert Split(x) == [x] by {
      SplitPrefix(x, "");
      assert x + "" == x;
    }
    assert Split(d + "/" + x) == Split(d) + [x];
    assert (d + "/" + x)[0] == d[0];
    if d[0] == '/' {
      WalkAppend([], Split(d), x);
    } else {
      WalkAppend(Walk([], Split(cwd)), Split(d), x);
    }
  }

  lemma {:induction false} CommonPrefixOfExtension(f: seq<string>, x: string)
    ensures CommonPrefix(f, f + [x]) == |f|
    decreases |f|
  {
    if |f| > 0 {
      assert (f + [x])[1..] == f[1..] + [x];
      CommonPrefixOfExtension(f[1..], x);
    }
  }

  /** From `d` to its child directory `d/x` the relative path is `x`. */
  lemma RelativeToChild(cwd: string, d: string, x: string)
    requires |d| > 0 && IsName(x)
    ensures Relative(cwd, d, d + "/" + x) == x
  {
    ResolveChild(cwd, d, x);
    var f := Resolve(cwd, d);
    CommonPrefixOfExtension(f, x);
    assert (f + [x])[|f|..] == [x];
    assert Ups(0) + [x] == [x];
  }
}
