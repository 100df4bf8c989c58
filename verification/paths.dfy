/** Paths as sequences of segments, with the two operations of Node's `path`
    module the file layer uses: `path.join`, which resolves `..` segments,
    and `path.relative`, which climbs out of the common ancestor with `..`.
    A path written "a/b/c" is the sequence ["a", "b", "c"]; "." is []. */
module Paths {

  type Path = seq<string>

  /** A path made of ordinary names only: no empty, `.` or `..` segment.
      Every path the directory walker yields from a plain root is plain. */
  predicate Plain(p: Path) {
    forall i | 0 <= i < |p| :: p[i] != "" && p[i] != "." && p[i] != ".."
  }

  /** `path.dirname` */
  function Dirname(p: Path): (d: Path)
    ensures p != [] ==> p == d + [p[|p| - 1]]
  {
    if p == [] then [] else p[..|p| - 1]
  }

  /** `path.join(base, rel)`: the segments of `rel` are appended one by one,
      `.` and empty segments are dropped and `..` removes the last ordinary
      segment (or is kept when there is none to remove). */
  function Join(base: Path, rel: Path): Path
    decreases |rel|
  {
    if rel == [] then base
    else if rel[0] == "" || rel[0] == "." then Join(base, rel[1..])
    else if rel[0] == ".." && base != [] && base[|base| - 1] != ".." then Join(base[..|base| - 1], rel[1..])
    else Join(base + [rel[0]], rel[1..])
  }

  /** `k` segments "..". */
  function Ups(k: nat): (r: Path)
    ensures |r| == k && forall i | 0 <= i < k :: r[i] == ".."
  {
    if k == 0 then [] else Ups(k - 1) + [".."]
  }

  /** The length of the longest common prefix of two paths. */
  function CommonPrefixLength(a: Path, b: Path): (n: nat)
    ensures n <= |a| && n <= |b|
    ensures a[..n] == b[..n]
    ensures n < |a| && n < |b| ==> a[n] != b[n]
  {
    if a == [] || b == [] || a[0] != b[0] then 0
    else
      var n := 1 + CommonPrefixLength(a[1..], b[1..]);
      assert a[1..][..n - 1] == b[1..][..n - 1];
      assert a[..n] == [a[0]] + a[1..][..n - 1] && b[..n] == [b[0]] + b[1..][..n - 1];
      n
  }

  /** `path.relative(from, to)` for two paths resolved against the same
      directory: climb out of `from` to the common ancestor, then descend. */
  function Relative(from: Path, to: Path): Path {
    var c := CommonPrefixLength(from, to);
    Ups(|from| - c) + to[c..]
  }

  /** `parts.join(sep)` */
  function JoinStrings(parts: seq<string>, sep: string): string {
    if parts == [] then ""
    else if |parts| == 1 then parts[0]
    else JoinStrings(parts[..|parts| - 1], sep) + sep + parts[|parts| - 1]
  }

  /** The path as a string with POSIX separators. */
  function PathString(p: Path): string {
    JoinStrings(p, "/")
  }

  /** Joining a plain path appends its segments. */
  lemma {:induction false} JoinPlain(base: Path, p: Path)
    requires Plain(p)
    ensures Join(base, p) == base + p
    decreases |p|
  {
    if p != [] {
      assert Plain(p[1..]) by {
        forall i | 0 <= i < |p[1..]| ensures p[1..][i] != "" && p[1..][i] != "." && p[1..][i] != ".." {
          assert p[1..][i] == p[i + 1];
        }
      }
      JoinPlain(base + [p[0]], p[1..]);
      assert base + [p[0]] + p[1..] == base + p;
    }
  }

  /** Each leading `..` removes one segment of a plain base. */
  lemma {:induction false} JoinUps(base: Path, k: nat, p: Path)
    requires Plain(base) && k <= |base|
    ensures Join(base, Ups(k) + p) == Join(base[..|base| - k], p)
    decreases k
  {
    if k > 0 {
      var rel := Ups(k) + p;
      assert rel[0] == "..";
      assert rel[1..] == Ups(k - 1) + p;
      assert base[|base| - 1] != "..";
      var shorter := base[..|base| - 1];
      assert Plain(shorter) by {
        forall i | 0 <= i < |shorter| ensures shorter[i] != "" && shorter[i] != "." && shorter[i] != ".." {
          assert shorter[i] == base[i];
        }
      }
      JoinUps(shorter, k - 1, p);
      assert shorter[..|shorter| - (k - 1)] == base[..|base| - k];
    } else {
      assert Ups(0) + p == p;
      assert base[..|base|] == base;
    }
  }

  /** `path.join(from, path.relative(from, to))` is `to` for plain paths. */
  lemma RelativeJoin(from: Path, to: Path)
    requires Plain(from) && Plain(to)
    ensures Join(from, Relative(from, to)) == to
  {
    var c := CommonPrefixLength(from, to);
    var rest := to[c..];
    assert Relative(from, to) == Ups(|from| - c) + rest;
    JoinUps(from, |from| - c, rest);
    assert from[..|from| - (|from| - c)] == from[..c];
    assert Plain(rest) by {
      forall i | 0 <= i < |rest| ensures rest[i] != "" && rest[i] != "." && rest[i] != ".." {
        assert rest[i] == to[c + i];
      }
    }
    JoinPlain(from[..c], rest);
    assert from[..c] + rest == to;
  }

  /** Relative to an ancestor, a path is its remaining segments. */
  lemma RelativeToAncestor(from: Path, to: Path)
    requires from <= to
    ensures Relative(from, to) == to[|from|..]
  {
  }
}
