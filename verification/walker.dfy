/** The directory walker of the file layer: depth-first traversals of a
    directory tree that yield the paths of files, or of directories.

    The file system is abstracted as a tree: a directory's listing is the
    sequence of its entries, in the order the listing gives them. The
    generators of the source become functions that return the whole
    sequence they would yield. */
module Walker {
  import opened Wrappers
  import opened Paths

  /** A directory entry: a subdirectory with its own listing, a regular
      file, or anything else (a link, a socket, ...), which both walkers skip. */
  datatype Node = Dir(name: string, children: seq<Node>) | File(name: string) | Other(name: string)

  /** The optional name filter; an absent filter accepts every name. */
  type Filter = Option<string -> bool>

  predicate Accepts(filter: Filter, name: string) {
    filter.None? || filter.value(name)
  }

  function Last(p: Path): string
    requires p != []
  {
    p[|p| - 1]
  }

  // ---------------------------------------------------------------------
  // getFilesRecursively

  /** The files that `getFilesRecursively(dir, filter)` yields, where
      `entries` is the listing of `dir`. */
  function GetFilesRecursively(dir: Path, entries: seq<Node>, filter: Filter): seq<Path>
    decreases entries
  {
    if entries == [] then []
    else EntryFiles(dir, entries[0], filter) + GetFilesRecursively(dir, entries[1..], filter)
  }

  /** What one entry of `dir` contributes: a subdirectory its whole walk, a
      regular file its own path when the filter accepts its name. */
  function EntryFiles(dir: Path, e: Node, filter: Filter): seq<Path>
    decreases e
  {
    match e
    case Dir(n, kids) => GetFilesRecursively(dir + [n], kids, filter)
    case File(n) => if Accepts(filter, n) then [dir + [n]] else []
    case Other(_) => []
  }

  // ---------------------------------------------------------------------
  // getChildDirectories and getDirectoriesRecursively

  /** The directories below `dir` that `getChildDirectories(dir, filter)`
      yields: each accepted subdirectory before its own subdirectories. */
  function GetChildDirectories(dir: Path, entries: seq<Node>, filter: Filter): seq<Path>
    decreases entries
  {
    if entries == [] then []
    else EntryDirectories(dir, entries[0], filter) + GetChildDirectories(dir, entries[1..], filter)
  }

  /** A subdirectory contributes itself when the filter accepts its name, and
      in every case the directories below it. */
  function EntryDirectories(dir: Path, e: Node, filter: Filter): seq<Path>
    decreases e
  {
    match e
    case Dir(n, kids) =>
      (if Accepts(filter, n) then [dir + [n]] else []) + GetChildDirectories(dir + [n], kids, filter)
    case File(_) => []
    case Other(_) => []
  }

  /** `getDirectoriesRecursively(dir, filter)`: the root first, whatever the
      filter says, then its child directories. */
  function GetDirectoriesRecursively(dir: Path, entries: seq<Node>, filter: Filter): (r: seq<Path>)
    ensures |r| >= 1 && r[0] == dir
  {
    [dir] + GetChildDirectories(dir, entries, filter)
  }

  // ---------------------------------------------------------------------
  // Reference definitions: which relative paths of a tree are files and
  // directories, independently of any traversal order.

  /** `rel` names a regular file below a directory whose listing is `entries`. */
  ghost predicate IsFileAt(entries: seq<Node>, rel: Path)
    decreases |rel|
  {
    |rel| >= 1 &&
    exists i | 0 <= i < |entries| ::
      (|rel| == 1 && entries[i] == File(rel[0])) ||
      (|rel| > 1 && entries[i].Dir? && entries[i].name == rel[0] && IsFileAt(entries[i].children, rel[1..]))
  }

  /** `rel` names a directory below a directory whose listing is `entries`. */
  ghost predicate IsDirAt(entries: seq<Node>, rel: Path)
    decreases |rel|
  {
    |rel| >= 1 &&
    exists i | 0 <= i < |entries| ::
      entries[i].Dir? && entries[i].name == rel[0] &&
      (|rel| == 1 || IsDirAt(entries[i].children, rel[1..]))
  }

  /** A path is below a listing iff it is below its first entry or below the rest. */
  lemma IsFileAtSplit(entries: seq<Node>, rel: Path)
    requires entries != []
    ensures IsFileAt(entries, rel) <==>
      (|rel| >= 1 &&
       ((|rel| == 1 && entries[0] == File(rel[0])) ||
        (|rel| > 1 && entries[0].Dir? && entries[0].name == rel[0] && IsFileAt(entries[0].children, rel[1..]))))
      || IsFileAt(entries[1..], rel)
  {
    if IsFileAt(entries, rel) {
      var i :| 0 <= i < |entries| &&
        ((|rel| == 1 && entries[i] == File(rel[0])) ||
         (|rel| > 1 && entries[i].Dir? && entries[i].name == rel[0] && IsFileAt(entries[i].children, rel[1..])));
      if i > 0 {
        assert entries[1..][i - 1] == entries[i];
      }
    }
    if IsFileAt(entries[1..], rel) {
      var i :| 0 <= i < |entries[1..]| &&
        ((|rel| == 1 && entries[1..][i] == File(rel[0])) ||
         (|rel| > 1 && entries[1..][i].Dir? && entries[1..][i].name == rel[0] && IsFileAt(entries[1..][i].children, rel[1..])));
      assert entries[i + 1] == entries[1..][i];
    }
  }

  lemma IsDirAtSplit(entries: seq<Node>, rel: Path)
    requires entries != []
    ensures IsDirAt(entries, rel) <==>
      (|rel| >= 1 && entries[0].Dir? && entries[0].name == rel[0] &&
       (|rel| == 1 || IsDirAt(entries[0].children, rel[1..])))
      || IsDirAt(entries[1..], rel)
  {
    if IsDirAt(entries, rel) {
      var i :| 0 <= i < |entries| &&
        entries[i].Dir? && entries[i].name == rel[0] &&
        (|rel| == 1 || IsDirAt(entries[i].children, rel[1..]));
      if i > 0 {
        assert entries[1..][i - 1] == entries[i];
      }
    }
    if IsDirAt(entries[1..], rel) {
      var i :| 0 <= i < |entries[1..]| &&
        entries[1..][i].Dir? && entries[1..][i].name == rel[0] &&
        (|rel| == 1 || IsDirAt(entries[1..][i].children, rel[1..]));
      assert entries[i + 1] == entries[1..][i];
    }
  }

  // ---------------------------------------------------------------------
  // Properties of the walkers

  /** The file walker yields exactly the regular files of the tree whose
      own name (not their full path) the filter accepts: never a directory,
      never anything else. */
  lemma {:induction false} FilesMembership(dir: Path, entries: seq<Node>, filter: Filter, p: Path)
    ensures p in GetFilesRecursively(dir, entries, filter) <==>
      |p| > |dir| && p[..|dir|] == dir && IsFileAt(entries, p[|dir|..]) && Accepts(filter, Last(p))
    decreases entries
  {
    if entries != [] {
      FilesMembership(dir, entries[1..], filter, p);
      if entries[0].Dir? {
        FilesMembership(dir + [entries[0].name], entries[0].children, filter, p);
      }
      if |p| > |dir| {
        var rel := p[|dir|..];
        IsFileAtSplit(entries, rel);
        match entries[0]
        case Dir(n, kids) =>
        if |p| > |dir| + 1 && p[..|dir|] == dir && p[|dir|] == n {
          assert p[..|dir + [n]|] == dir + [n];
          assert rel[1..] == p[|dir + [n]|..];
        }
        if |p| > |dir + [n]| && p[..|dir + [n]|] == dir + [n] {
          assert p[..|dir|] == dir && rel[0] == n;
          assert rel[1..] == p[|dir + [n]|..];
        }
        case File(n) =>
          if p == dir + [n] {
            assert rel == [n];
          }
          if |rel| == 1 && p[..|dir|] == dir && rel[0] == n {
            assert p == dir + [n];
          }
        case Other(_) =>
      }
    }
  }

  /** The directory walker yields the root and exactly the directories of
      the tree whose own name the filter accepts; a rejected directory is
      not yielded, but the directories below it still are. */
  lemma {:induction false} ChildDirectoriesMembership(dir: Path, entries: seq<Node>, filter: Filter, p: Path)
    ensures p in GetChildDirectories(dir, entries, filter) <==>
      |p| > |dir| && p[..|dir|] == dir && IsDirAt(entries, p[|dir|..]) && Accepts(filter, Last(p))
    decreases entries
  {
    if entries != [] {
      ChildDirectoriesMembership(dir, entries[1..], filter, p);
      if entries[0].Dir? {
        ChildDirectoriesMembership(dir + [entries[0].name], entries[0].children, filter, p);
      }
      if |p| > |dir| {
        var rel := p[|dir|..];
        IsDirAtSplit(entries, rel);
        match entries[0]
        case Dir(n, kids) =>
        if |p| > |dir| + 1 && p[..|dir|] == dir && p[|dir|] == n {
          assert p[..|dir + [n]|] == dir + [n];
          assert rel[1..] == p[|dir + [n]|..];
        }
        if |p| > |dir + [n]| && p[..|dir + [n]|] == dir + [n] {
          assert p[..|dir|] == dir && rel[0] == n;
          assert rel[1..] == p[|dir + [n]|..];
        }
        if p == dir + [n] {
          assert rel == [n];
        }
        if |rel| == 1 && p[..|dir|] == dir && rel[0] == n {
          assert p == dir + [n];
        }
        case File(_) =>
        case Other(_) =>
      }
    }
  }

  lemma DirectoriesMembership(dir: Path, entries: seq<Node>, filter: Filter, p: Path)
    ensures p in GetDirectoriesRecursively(dir, entries, filter) <==>
      p == dir ||
      (|p| > |dir| && p[..|dir|] == dir && IsDirAt(entries, p[|dir|..]) && Accepts(filter, Last(p)))
  {
    ChildDirectoriesMembership(dir, entries, filter, p);
  }

  /** The walk of a listing is the walk of its first part followed by the
      walk of the rest: a subdirectory's files come at its own position,
      after those of earlier siblings and before those of later ones. */
  lemma {:induction false} FilesConcat(dir: Path, a: seq<Node>, b: seq<Node>, filter: Filter)
    ensures GetFilesRecursively(dir, a + b, filter) ==
            GetFilesRecursively(dir, a, filter) + GetFilesRecursively(dir, b, filter)
    decreases |a|
  {
    if a == [] {
      assert a + b == b;
    } else {
      assert (a + b)[0] == a[0];
      assert (a + b)[1..] == a[1..] + b;
      FilesConcat(dir, a[1..], b, filter);
      assert GetFilesRecursively(dir, a + b, filter) ==
             EntryFiles(dir, a[0], filter) + GetFilesRecursively(dir, a[1..] + b, filter);
    }
  }

  lemma FilesAtPosition(dir: Path, entries: seq<Node>, i: nat, filter: Filter)
    requires i < |entries|
    ensures GetFilesRecursively(dir, entries, filter) ==
            GetFilesRecursively(dir, entries[..i], filter)
            + EntryFiles(dir, entries[i], filter)
            + GetFilesRecursively(dir, entries[i + 1..], filter)
  {
    assert entries == entries[..i] + entries[i..];
    FilesConcat(dir, entries[..i], entries[i..], filter);
  }

  lemma {:induction false} ChildDirectoriesConcat(dir: Path, a: seq<Node>, b: seq<Node>, filter: Filter)
    ensures GetChildDirectories(dir, a + b, filter) ==
            GetChildDirectories(dir, a, filter) + GetChildDirectories(dir, b, filter)
    decreases |a|
  {
    if a == [] {
      assert a + b == b;
    } else {
      assert (a + b)[0] == a[0];
      assert (a + b)[1..] == a[1..] + b;
      ChildDirectoriesConcat(dir, a[1..], b, filter);
      assert GetChildDirectories(dir, a + b, filter) ==
             EntryDirectories(dir, a[0], filter) + GetChildDirectories(dir, a[1..] + b, filter);
    }
  }

  /** Every path either walker yields extends the root by plain names, so a
      plain root gives plain paths and every yielded path is below the root. */
  lemma {:induction false} FilesBelowRoot(dir: Path, entries: seq<Node>, filter: Filter, k: nat)
    requires k < |GetFilesRecursively(dir, entries, filter)|
    ensures |GetFilesRecursively(dir, entries, filter)[k]| > |dir|
    ensures GetFilesRecursively(dir, entries, filter)[k][..|dir|] == dir
  {
    var p := GetFilesRecursively(dir, entries, filter)[k];
    FilesMembership(dir, entries, filter, p);
  }

  // ---------------------------------------------------------------------
  // The tree of the repository's own tests: test/{a/a1.json, b/b1.json, test.json}

  function EndsWithJson(name: string): bool {
    |name| >= 5 && name[|name| - 5..] == ".json"
  }

  function TestTree(): seq<Node> {
    [Dir("a", [File("a1.json")]), Dir("b", [File("b1.json")]), File("test.json")]
  }

  lemma TestTreeWalks()
    ensures GetFilesRecursively(["test"], TestTree(), Some(EndsWithJson)) ==
            [["test", "a", "a1.json"], ["test", "b", "b1.json"], ["test", "test.json"]]
    ensures GetDirectoriesRecursively(["test"], TestTree(), None) ==
            [["test"], ["test", "a"], ["test", "b"]]
  {
    var f: Filter := Some(EndsWithJson);
    var t := TestTree();
    var a, b := ["test", "a"], ["test", "b"];
    assert ["test"] + ["a"] == a && ["test"] + ["b"] == b;
    assert a + ["a1.json"] == ["test", "a", "a1.json"];
    assert b + ["b1.json"] == ["test", "b", "b1.json"];
    assert ["test"] + ["test.json"] == ["test", "test.json"];
    assert Accepts(f, "a1.json") && Accepts(f, "b1.json") && Accepts(f, "test.json");
    assert [File("a1.json")][1..] == [] && [File("b1.json")][1..] == [];
    assert t[1..][1..][1..] == [];
    assert EntryFiles(a, File("a1.json"), f) == [["test", "a", "a1.json"]];
    assert GetFilesRecursively(a, [File("a1.json")], f) == [["test", "a", "a1.json"]];
    assert EntryFiles(b, File("b1.json"), f) == [["test", "b", "b1.json"]];
    assert GetFilesRecursively(b, [File("b1.json")], f) == [["test", "b", "b1.json"]];
    assert EntryFiles(["test"], t[2], f) == [["test", "test.json"]];
    assert GetFilesRecursively(["test"], t[1..][1..], f) == [["test", "test.json"]];
    assert EntryFiles(["test"], t[1], f) == [["test", "b", "b1.json"]];
    assert GetFilesRecursively(["test"], t[1..], f) == [["test", "b", "b1.json"], ["test", "test.json"]];
    assert EntryFiles(["test"], t[0], f) == [["test", "a", "a1.json"]];
    assert GetChildDirectories(a, [File("a1.json")], None) == [];
    assert GetChildDirectories(b, [File("b1.json")], None) == [];
    assert GetChildDirectories(["test"], t[1..][1..], None) == [];
    assert EntryDirectories(["test"], t[1], None) == [b];
    assert GetChildDirectories(["test"], t[1..], None) == [b];
    assert EntryDirectories(["test"], t[0], None) == [a];
  }

  /** A directory the filter rejects is not yielded, yet is still walked. */
  lemma RejectedDirectoryIsWalked()
    ensures GetDirectoriesRecursively(["r"], [Dir("skip", [Dir("keep", [])])], Some((n: string) => n != "skip")) ==
            [["r"], ["r", "skip", "keep"]]
  {
    var f: Filter := Some((n: string) => n != "skip");
    var skip := ["r", "skip"];
    assert ["r"] + ["skip"] == skip && skip + ["keep"] == ["r", "skip", "keep"];
    assert !Accepts(f, "skip") && Accepts(f, "keep");
    assert [Dir("keep", [])][1..] == [] && [Dir("skip", [Dir("keep", [])])][1..] == [];
    assert EntryDirectories(skip, Dir("keep", []), f) == [["r", "skip", "keep"]];
    assert GetChildDirectories(skip, [Dir("keep", [])], f) == [["r", "skip", "keep"]];
    assert EntryDirectories(["r"], Dir("skip", [Dir("keep", [])]), f) == [["r", "skip", "keep"]];
  }
}
