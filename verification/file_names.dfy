/** The two name functions of the file layer: `changeExtension`, a regular
    expression replacement of a trailing extension, and
    `inputToOutputFileName`, which maps an input path to the matching path
    under the output directory. */
module FileNames {
  import opened Wrappers
  import opened Paths

  // ---------------------------------------------------------------------
  // changeExtension(newExt)(s) = s.replace(/\.[^/.]+$/, newExt)

  /** A non-empty extension without `/` or `.`: what `[^/.]+` matches. */
  predicate ValidExt(x: string) {
    |x| > 0 && forall i | 0 <= i < |x| :: x[i] != '/' && x[i] != '.'
  }

  /** The regular expression matches `s` at index `k`: a dot followed by a
      valid extension that runs to the end of `s`. */
  predicate MatchesAt(s: string, k: nat) {
    k < |s| && s[k] == '.' && ValidExt(s[k + 1..])
  }

  /** The length of the longest suffix of `s` without `/` or `.`. */
  function TailLength(s: string): (n: nat)
    ensures n <= |s|
    ensures forall i | |s| - n <= i < |s| :: s[i] != '/' && s[i] != '.'
    ensures n < |s| ==> s[|s| - n - 1] == '/' || s[|s| - n - 1] == '.'
  {
    if s == [] || s[|s| - 1] == '/' || s[|s| - 1] == '.' then 0
    else 1 + TailLength(s[..|s| - 1])
  }

  /** Where the replacement starts, if the regular expression matches. */
  function ExtensionDot(s: string): Option<nat> {
    var n := TailLength(s);
    if 0 < n < |s| && s[|s| - n - 1] == '.' then Some(|s| - n - 1) else None
  }

  function ChangeExtension(newExt: string, s: string): string {
    match ExtensionDot(s)
    case Some(k) => s[..k] + newExt
    case None => s
  }

  /** ExtensionDot finds the one place where the expression matches, and
      nothing when it matches nowhere. */
  lemma ExtensionDotIsMatch(s: string, k: nat)
    ensures ExtensionDot(s) == Some(k) <==> MatchesAt(s, k)
  {
    var n := TailLength(s);
    if MatchesAt(s, k) {
      var t := s[k + 1..];
      forall j | k < j < |s| ensures s[j] != '/' && s[j] != '.' {
        assert s[j] == t[j - k - 1];
      }
    }
    if ExtensionDot(s) == Some(k) {
      var t := s[k + 1..];
      forall i | 0 <= i < |t| ensures t[i] != '/' && t[i] != '.' {
        assert t[i] == s[k + 1 + i];
      }
    }
  }

  /** A name that ends in a valid extension has exactly that extension
      replaced. */
  lemma ChangeExtensionReplaces(newExt: string, stem: string, ext: string)
    requires ValidExt(ext)
    ensures ChangeExtension(newExt, stem + "." + ext) == stem + newExt
  {
    var s := stem + "." + ext;
    assert s[|stem| + 1..] == ext;
    ExtensionDotIsMatch(s, |stem|);
    assert s[..|stem|] == stem;
  }

  /** A name where the expression matches nowhere is returned unchanged. */
  lemma ChangeExtensionKeeps(newExt: string, s: string)
    requires forall k: nat :: !MatchesAt(s, k)
    ensures ChangeExtension(newExt, s) == s
  {
    if ExtensionDot(s).Some? {
      ExtensionDotIsMatch(s, ExtensionDot(s).value);
    }
  }

  /** With a well-formed new extension, changing it twice is changing it once. */
  lemma ChangeExtensionIdempotent(ext: string, s: string)
    requires ValidExt(ext)
    ensures ChangeExtension("." + ext, ChangeExtension("." + ext, s)) == ChangeExtension("." + ext, s)
  {
    match ExtensionDot(s)
    case Some(k) =>
      assert ChangeExtension("." + ext, s) == s[..k] + "." + ext;
      ChangeExtensionReplaces("." + ext, s[..k], ext);
    case None =>
  }

  /** Examples: a dot inside a directory name, a trailing dot and a missing
      dot leave the name unchanged. */
  lemma ChangeExtensionExamples()
    ensures ChangeExtension(".txt", "a/b.json") == "a/b.txt"
    ensures ChangeExtension(".txt", "a.b/c") == "a.b/c"
    ensures ChangeExtension(".txt", "file.") == "file."
    ensures ChangeExtension(".txt", "noext") == "noext"
  {
    ChangeExtensionReplaces(".txt", "a/b", "json");
    assert "a/b" + "." + "json" == "a/b.json";
    forall k: nat ensures !MatchesAt("a.b/c", k) {
      if k == 1 {
        assert "a.b/c"[2..][1] == '/';
      }
    }
    ChangeExtensionKeeps(".txt", "a.b/c");
    forall k: nat ensures !MatchesAt("file.", k) {
      if k == 4 {
        assert "file."[5..] == "";
      }
    }
    ChangeExtensionKeeps(".txt", "file.");
    forall k: nat ensures !MatchesAt("noext", k) {
    }
    ChangeExtensionKeeps(".txt", "noext");
  }

  /** `changeExtension` applied to a path given as segments: the last
      segment's extension is replaced. */
  function ChangePathExtension(newExt: string, p: Path): Path {
    if p == [] then [] else p[..|p| - 1] + [ChangeExtension(newExt, p[|p| - 1])]
  }

  /** A trailing run without `/` or `.` never reaches past a `/`. */
  lemma {:induction false} TailLengthAfterSlash(a: string, b: string)
    ensures TailLength(a + "/" + b) == TailLength(b)
    decreases |b|
  {
    var s := a + "/" + b;
    if b != [] {
      assert s[..|s| - 1] == a + "/" + b[..|b| - 1];
      TailLengthAfterSlash(a, b[..|b| - 1]);
    }
  }

  /** The replacement in `a/b` happens inside `b`. */
  lemma ChangeExtensionAfterSlash(newExt: string, a: string, b: string)
    ensures ChangeExtension(newExt, a + "/" + b) == a + "/" + ChangeExtension(newExt, b)
  {
    var s := a + "/" + b;
    TailLengthAfterSlash(a, b);
    var n := TailLength(b);
    assert TailLength(s) == n;
    if n < |b| {
      assert s[|s| - n - 1] == b[|b| - n - 1];
      match ExtensionDot(b) {
        case Some(k) =>
          assert ExtensionDot(s) == Some(|a| + 1 + k);
          assert s[..|a| + 1 + k] == a + "/" + b[..k];
        case None =>
          assert ExtensionDot(s).None?;
      }
    } else {
      assert s[|s| - n - 1] == '/';
      assert ExtensionDot(s).None? && ExtensionDot(b).None?;
    }
  }

  /** Renaming the last segment of a path is the same as replacing on the
      whole path string: the regular expression cannot cross a `/`. */
  lemma ChangePathExtensionAgrees(newExt: string, p: Path)
    ensures PathString(ChangePathExtension(newExt, p)) == ChangeExtension(newExt, PathString(p))
  {
    if |p| > 1 {
      var q := ChangePathExtension(newExt, p);
      assert q[..|q| - 1] == p[..|p| - 1];
      ChangeExtensionAfterSlash(newExt, JoinStrings(p[..|p| - 1], "/"), p[|p| - 1]);
    }
  }

  // ---------------------------------------------------------------------
  // inputToOutputFileName(inputDir, outputDir, config)(file)

  /** `newFileNameFn` of the configuration, the identity when absent. */
  function NewFileName(newFileNameFn: Option<Path -> Path>, file: Path): Path {
    match newFileNameFn
    case Some(f) => f(file)
    case None => file
  }

  function InputToOutputFileName(inputDir: Path, outputDir: Path, newFileNameFn: Option<Path -> Path>, file: Path): Path {
    Join(outputDir, Relative(inputDir, NewFileName(newFileNameFn, file)))
  }

  /** A (renamed) file below the input directory maps to the same relative
      path below the output directory. */
  lemma OutputMirrorsInput(inputDir: Path, outputDir: Path, newFileNameFn: Option<Path -> Path>, file: Path)
    requires inputDir <= NewFileName(newFileNameFn, file)
    requires Plain(NewFileName(newFileNameFn, file))
    ensures InputToOutputFileName(inputDir, outputDir, newFileNameFn, file) ==
            outputDir + NewFileName(newFileNameFn, file)[|inputDir|..]
  {
    var renamed := NewFileName(newFileNameFn, file);
    RelativeToAncestor(inputDir, renamed);
    var rest := renamed[|inputDir|..];
    assert Plain(rest) by {
      forall i | 0 <= i < |rest| ensures rest[i] != "" && rest[i] != "." && rest[i] != ".." {
        assert rest[i] == renamed[|inputDir| + i];
      }
    }
    JoinPlain(outputDir, rest);
  }

  /** Without a renaming function an input file keeps its path relative to
      the input directory. */
  lemma DefaultIsIdentity(inputDir: Path, outputDir: Path, file: Path)
    requires inputDir <= file && Plain(file)
    ensures InputToOutputFileName(inputDir, outputDir, None, file) == outputDir + file[|inputDir|..]
  {
    OutputMirrorsInput(inputDir, outputDir, None, file);
  }
}
