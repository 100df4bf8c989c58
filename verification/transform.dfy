/** The transform engine of the file layer: `transformFiles` walks the input
    directory and, one file at a time, reads the file, optionally reads its
    previous output, calls the transform and writes a truthy result under the
    output directory, counting reads and writes and collecting the files that
    failed. `transformIfShaChanged` wraps a transform so that it is skipped
    when the digest of the input equals the one recorded in the old output.

    The file system is a class whose two fields (the file contents and the
    set of directories) the engine's reads, `mkdir` calls and writes observe
    and update; the listing of the input directory is a tree (see Walker). */
module Transform {
  import opened Wrappers
  import opened Paths
  import opened Walker
  import opened FileNames

  // ---------------------------------------------------------------------
  // The file system

  /** A snapshot of the file system: file contents by path, and directories. */
  datatype Disk = Disk(files: map<Path, string>, dirs: set<Path>)

  /** No path is both a file and a directory. */
  predicate Consistent(d: Disk) {
    forall p | p in d.files :: p !in d.dirs
  }

  /** `fs.readFile(p, 'utf-8')`: fails when there is no file at `p`. */
  function DiskRead(d: Disk, p: Path): (r: Outcome<string>)
    ensures r.Returns? <==> p in d.files
    ensures r.Returns? ==> r.value == d.files[p]
  {
    if p in d.files then Returns(d.files[p]) else Throws("ENOENT: no such file or directory")
  }

  /** The directories `mkdir -p dir` needs: every non-empty prefix of `dir`. */
  function Ancestry(dir: Path): set<Path> {
    set k | 1 <= k <= |dir| :: dir[..k]
  }

  /** `fs.mkdir(dir, { recursive: true })`: creates every missing prefix of
      `dir`; fails, changing nothing, when one of them is a file. */
  function DiskMkdir(d: Disk, dir: Path): (r: Outcome<Disk>)
    ensures r.Returns? <==> forall q | q in Ancestry(dir) :: q !in d.files
    ensures r.Returns? ==> r.value == Disk(d.files, d.dirs + Ancestry(dir))
  {
    if exists q | q in Ancestry(dir) :: q in d.files then Throws("ENOTDIR: not a directory")
    else Returns(Disk(d.files, d.dirs + Ancestry(dir)))
  }

  /** `fs.writeFile(p, content)`: fails on a directory (the current
      directory `[]` among them), otherwise creates or replaces the file. */
  function DiskWrite(d: Disk, p: Path, content: string): (r: Outcome<Disk>)
    ensures r.Returns? <==> p != [] && p !in d.dirs
    ensures r.Returns? ==> r.value == Disk(d.files[p := content], d.dirs)
  {
    if p == [] || p in d.dirs then Throws("EISDIR: illegal operation on a directory")
    else Returns(Disk(d.files[p := content], d.dirs))
  }

  /** Reading back a written path gives the new content; every other path
      reads as before, and a consistent disk stays consistent. */
  lemma ReadAfterWrite(d: Disk, p: Path, content: string, q: Path)
    requires DiskWrite(d, p, content).Returns?
    ensures DiskRead(DiskWrite(d, p, content).value, p) == Returns(content)
    ensures q != p ==> DiskRead(DiskWrite(d, p, content).value, q) == DiskRead(d, q)
    ensures Consistent(d) ==> Consistent(DiskWrite(d, p, content).value)
  {
  }

  /** After a successful `mkdir -p dir` every prefix of `dir` is a
      directory, no read changes, a consistent disk stays consistent, and
      doing it again changes nothing. */
  lemma MkdirMeaning(d: Disk, dir: Path, q: Path)
    requires DiskMkdir(d, dir).Returns?
    ensures forall k | 1 <= k <= |dir| :: dir[..k] in DiskMkdir(d, dir).value.dirs
    ensures DiskRead(DiskMkdir(d, dir).value, q) == DiskRead(d, q)
    ensures Consistent(d) ==> Consistent(DiskMkdir(d, dir).value)
    ensures DiskMkdir(DiskMkdir(d, dir).value, dir) == DiskMkdir(d, dir)
  {
    var d2 := DiskMkdir(d, dir).value;
    assert d2.dirs + Ancestry(dir) == d2.dirs;
  }

  class FileSystem {
    var files: map<Path, string>
    var dirs: set<Path>

    function State(): Disk
      reads this
    {
      Disk(files, dirs)
    }

    ghost predicate Valid()
      reads this
    {
      Consistent(State())
    }

    constructor (d: Disk)
      requires Consistent(d)
      ensures Valid() && State() == d
    {
      files, dirs := d.files, d.dirs;
    }

    method ReadFile(p: Path) returns (r: Outcome<string>)
      ensures r == DiskRead(State(), p)
    {
      if p in files {
        r := Returns(files[p]);
      } else {
        r := Throws("ENOENT: no such file or directory");
      }
    }

    method Mkdir(dir: Path) returns (r: Outcome<()>)
      requires Valid()
      modifies this
      ensures Valid()
      ensures DiskMkdir(old(State()), dir).Returns? ==> r.Returns? && State() == DiskMkdir(old(State()), dir).value
      ensures DiskMkdir(old(State()), dir).Throws? ==> r.Throws? && State() == old(State())
    {
      if exists q | q in Ancestry(dir) :: q in files {
        r := Throws("ENOTDIR: not a directory");
      } else {
        dirs := dirs + Ancestry(dir);
        r := Returns(());
      }
    }

    method WriteFile(p: Path, content: string) returns (r: Outcome<()>)
      requires Valid()
      modifies this
      ensures Valid()
      ensures DiskWrite(old(State()), p, content).Returns? ==> r.Returns? && State() == DiskWrite(old(State()), p, content).value
      ensures DiskWrite(old(State()), p, content).Throws? ==> r.Throws? && State() == old(State())
    {
      if p == [] || p in dirs {
        r := Throws("EISDIR: illegal operation on a directory");
      } else {
        files := files[p := content];
        r := Returns(());
      }
    }
  }

  // ---------------------------------------------------------------------
  // Configuration, metrics and the per-file step

  /** The transform: from the input's content and, when asked for, the old
      output's content, a new content; `undefined` and '' write nothing. */
  type TransformFn = (string, Option<string>) -> Outcome<Option<string>>

  predicate IsTruthy(r: Option<string>) {
    r.Some? && r.value != ""
  }

  /** `TransformFilesConfig`; `debug` only logs and is left out. */
  datatype TransformFilesConfig = TransformFilesConfig(
    filter: Filter,
    includeOutput: bool,
    newFileNameFn: Option<Path -> Path>,
    dryRun: bool)

  /** One call `transformFiles(fn, config)(inputDir, outputDir)`. */
  datatype Job = Job(fn: TransformFn, config: TransformFilesConfig, inputDir: Path, outputDir: Path)

  /** `TranformFilesMetric` */
  datatype Metrics = Metrics(readCount: nat, writeCount: nat, failed: seq<Path>)

  datatype FileOutcome = Written | ReadOnly | Failed

  datatype Step = Step(disk: Disk, outcome: FileOutcome)

  function OutputPath(job: Job, file: Path): Path {
    InputToOutputFileName(job.inputDir, job.outputDir, job.config.newFileNameFn, file)
  }

  /** What the transform is given as the old output: the output file's
      content when asked for and present, `undefined` otherwise. */
  function OldOutput(job: Job, d: Disk, file: Path): (o: Option<string>)
    ensures o.Some? <==> job.config.includeOutput && OutputPath(job, file) in d.files
  {
    if job.config.includeOutput && OutputPath(job, file) in d.files then Some(d.files[OutputPath(job, file)]) else None
  }

  /** The body of the loop of `transformFiles` for one file, the `try`
      block and its `catch`: read, transform, and write a truthy result
      unless it is a dry run. */
  function ProcessFile(job: Job, d: Disk, file: Path): (r: Step)
    ensures r.outcome == ReadOnly ==> r.disk == d
    ensures job.config.dryRun ==> r.disk == d && r.outcome != Written
    ensures r.outcome == Written ==>
      file in d.files && job.fn(d.files[file], OldOutput(job, d, file)).Returns? &&
      var result := job.fn(d.files[file], OldOutput(job, d, file)).value;
      IsTruthy(result) &&
      r.disk == Disk(d.files[OutputPath(job, file) := result.value], d.dirs + Ancestry(Dirname(OutputPath(job, file))))
    ensures file !in d.files ==> r == Step(d, Failed)
  {
    match DiskRead(d, file)
    case Throws(_) => Step(d, Failed)
    case Returns(content) =>
      var out := OutputPath(job, file);
      match job.fn(content, OldOutput(job, d, file))
      case Throws(_) => Step(d, Failed)
      case Returns(newContent) =>
        if IsTruthy(newContent) && !job.config.dryRun then
          match DiskMkdir(d, Dirname(out))
          case Throws(_) => Step(d, Failed)
          case Returns(d1) =>
            match DiskWrite(d1, out, newContent.value)
            case Throws(_) => Step(d1, Failed)
            case Returns(d2) => Step(d2, Written)
        else Step(d, ReadOnly)
  }

  /** The `try` block gets as far as the write: the input reads, the
      transform returns a truthy result and it is not a dry run. */
  predicate ReachesWrite(job: Job, d: Disk, file: Path) {
    file in d.files && !job.config.dryRun &&
    var res := job.fn(d.files[file], OldOutput(job, d, file));
    res.Returns? && IsTruthy(res.value)
  }

  /** The content the transform returned, when the write is reached. */
  function NewContent(job: Job, d: Disk, file: Path): string
    requires ReachesWrite(job, d, file)
  {
    job.fn(d.files[file], OldOutput(job, d, file)).value.value
  }

  /** A file fails exactly when a step of the `try` block throws: the read,
      the transform, or, once the write is reached, the mkdir or the write.
      The disk is then as the last successful step left it. */
  lemma ProcessFileFailure(job: Job, d: Disk, file: Path)
    ensures file in d.files && job.fn(d.files[file], OldOutput(job, d, file)).Throws? ==>
      ProcessFile(job, d, file) == Step(d, Failed)
    ensures ReachesWrite(job, d, file) && DiskMkdir(d, Dirname(OutputPath(job, file))).Throws? ==>
      ProcessFile(job, d, file) == Step(d, Failed)
    ensures (ReachesWrite(job, d, file) && DiskMkdir(d, Dirname(OutputPath(job, file))).Returns? &&
             DiskWrite(DiskMkdir(d, Dirname(OutputPath(job, file))).value, OutputPath(job, file), NewContent(job, d, file)).Throws?) ==>
      ProcessFile(job, d, file) == Step(DiskMkdir(d, Dirname(OutputPath(job, file))).value, Failed)
    ensures ProcessFile(job, d, file).outcome == Failed <==>
      file !in d.files ||
      job.fn(d.files[file], OldOutput(job, d, file)).Throws? ||
      (ReachesWrite(job, d, file) &&
       (DiskMkdir(d, Dirname(OutputPath(job, file))).Throws? ||
        DiskWrite(DiskMkdir(d, Dirname(OutputPath(job, file))).value, OutputPath(job, file), NewContent(job, d, file)).Throws?))
  {
  }

  /** The metrics after one more file. */
  function Record(m: Metrics, file: Path, outcome: FileOutcome): Metrics {
    match outcome
    case Written => Metrics(m.readCount + 1, m.writeCount + 1, m.failed)
    case ReadOnly => Metrics(m.readCount + 1, m.writeCount, m.failed)
    case Failed => Metrics(m.readCount, m.writeCount, m.failed + [file])
  }

  datatype Run = Run(disk: Disk, metrics: Metrics)

  /** The state and metrics after processing `files` in order from `d`. */
  function RunFiles(job: Job, d: Disk, files: seq<Path>): Run
    decreases |files|
  {
    if files == [] then Run(d, Metrics(0, 0, []))
    else
      var prev := RunFiles(job, d, files[..|files| - 1]);
      var file := files[|files| - 1];
      var step := ProcessFile(job, prev.disk, file);
      Run(step.disk, Record(prev.metrics, file, step.outcome))
  }

  // ---------------------------------------------------------------------
  // transformFiles

  /** The `try` block of `transformFiles` for one file, and its `catch`. */
  method TransformOne(fs: FileSystem, job: Job, file: Path) returns (outcome: FileOutcome)
    requires fs.Valid()
    modifies fs
    ensures fs.Valid()
    ensures Step(fs.State(), outcome) == ProcessFile(job, old(fs.State()), file)
  {
    var content := fs.ReadFile(file);
    if content.Throws? {
      return Failed;
    }
    var outputFilePath := OutputPath(job, file);
    var oldOutput: Option<string> := None;
    if job.config.includeOutput {
      var previous := fs.ReadFile(outputFilePath);
      if previous.Returns? {
        oldOutput := Some(previous.value);
      }
    }
    var newContent := job.fn(content.value, oldOutput);
    if newContent.Throws? {
      return Failed;
    }
    if IsTruthy(newContent.value) && !job.config.dryRun {
      var made := fs.Mkdir(Dirname(outputFilePath));
      if made.Throws? {
        return Failed;
      }
      var written := fs.WriteFile(outputFilePath, newContent.value.value);
      if written.Throws? {
        return Failed;
      }
      return Written;
    }
    return ReadOnly;
  }

  /** One pass of the loop of `transformFiles`: the `try`/`catch` step for
      `file`, then `readCount++`, `writeCount++` or `failed.push(file)`.
      The run over `done` extends to the run over `done + [file]`. */
  method TransformAndCount(fs: FileSystem, job: Job, ghost start: Disk, ghost done: seq<Path>, file: Path,
                           readCount0: nat, writeCount0: nat, failed0: seq<Path>)
    returns (readCount: nat, writeCount: nat, failed: seq<Path>)
    requires fs.Valid()
    requires Run(fs.State(), Metrics(readCount0, writeCount0, failed0)) == RunFiles(job, start, done)
    modifies fs
    ensures fs.Valid()
    ensures Run(fs.State(), Metrics(readCount, writeCount, failed)) == RunFiles(job, start, done + [file])
  {
    readCount, writeCount, failed := readCount0, writeCount0, failed0;
    var outcome := TransformOne(fs, job, file);
    if outcome == Failed {
      failed := failed + [file];
    } else {
      readCount := readCount + 1;
      if outcome == Written {
        writeCount := writeCount + 1;
      }
    }
    assert Metrics(readCount, writeCount, failed) == Record(Metrics(readCount0, writeCount0, failed0), file, outcome);
    RunFilesStepped(job, start, done, file, fs.State(), outcome);
  }

  method TransformFiles(fs: FileSystem, job: Job, tree: seq<Node>) returns (m: Metrics)
    requires fs.Valid()
    modifies fs
    ensures fs.Valid()
    ensures Run(fs.State(), m) == RunFiles(job, old(fs.State()), GetFilesRecursively(job.inputDir, tree, job.config.filter))
  {
    var files := GetFilesRecursively(job.inputDir, tree, job.config.filter);
    ghost var start := fs.State();
    var readCount, writeCount := 0, 0;
    var failed: seq<Path> := [];
    var i := 0;
    while i < |files|
      invariant 0 <= i <= |files|
      invariant fs.Valid()
      invariant Run(fs.State(), Metrics(readCount, writeCount, failed)) == RunFiles(job, start, files[..i])
    {
      var file := files[i];
      readCount, writeCount, failed := TransformAndCount(fs, job, start, files[..i], file, readCount, writeCount, failed);
      assert files[..i + 1] == files[..i] + [file];
      i := i + 1;
    }
    assert files[..i] == files;
    m := Metrics(readCount, writeCount, failed);
  }

  /** A step taken from the state the run reached extends the run. */
  lemma RunFilesStepped(job: Job, d: Disk, files: seq<Path>, file: Path, disk: Disk, outcome: FileOutcome)
    requires Step(disk, outcome) == ProcessFile(job, RunFiles(job, d, files).disk, file)
    ensures RunFiles(job, d, files + [file]) == Run(disk, Record(RunFiles(job, d, files).metrics, file, outcome))
  {
    RunFilesSnoc(job, d, files, file);
  }

  /** One more file is one more step of the run. */
  lemma RunFilesSnoc(job: Job, d: Disk, files: seq<Path>, file: Path)
    ensures var prev := RunFiles(job, d, files);
      var step := ProcessFile(job, prev.disk, file);
      RunFiles(job, d, files + [file]) == Run(step.disk, Record(prev.metrics, file, step.outcome))
  {
    assert (files + [file])[..|files|] == files;
  }

  // ---------------------------------------------------------------------
  // Properties of a run

  /** `a` is `b` with some elements left out, in the same order. */
  ghost predicate SubsequenceOf<T>(a: seq<T>, b: seq<T>)
    decreases |b|
  {
    a == [] ||
    (b != [] &&
     ((a[|a| - 1] == b[|b| - 1] && SubsequenceOf(a[..|a| - 1], b[..|b| - 1])) ||
      SubsequenceOf(a, b[..|b| - 1])))
  }

  /** Every file is either read or failed, never both: the reads and the
      failures add up to the files walked; at most one write per read; the
      failures are some of the files, in walking order; a dry run writes
      nothing and leaves the file system as it was. */
  lemma {:induction false} RunAccounting(job: Job, d: Disk, files: seq<Path>)
    ensures var r := RunFiles(job, d, files);
      r.metrics.readCount + |r.metrics.failed| == |files| &&
      r.metrics.writeCount <= r.metrics.readCount &&
      SubsequenceOf(r.metrics.failed, files) &&
      (job.config.dryRun ==> r.metrics.writeCount == 0 && r.disk == d)
    decreases |files|
  {
    if files != [] {
      var init := files[..|files| - 1];
      RunAccounting(job, d, init);
      var prev := RunFiles(job, d, init);
      var file := files[|files| - 1];
      var step := ProcessFile(job, prev.disk, file);
      assert files[..|files| - 1] == init;
      if step.outcome == Failed {
        var failed := prev.metrics.failed + [file];
        assert failed[..|failed| - 1] == prev.metrics.failed;
      } else {
        assert SubsequenceOf(prev.metrics.failed, files) by {
          if prev.metrics.failed != [] {
            assert SubsequenceOf(prev.metrics.failed, files[..|files| - 1]);
          }
        }
      }
    }
  }

  /** A consistent file system stays consistent through a run. */
  lemma {:induction false} RunKeepsConsistent(job: Job, d: Disk, files: seq<Path>)
    requires Consistent(d)
    ensures Consistent(RunFiles(job, d, files).disk)
    decreases |files|
  {
    if files != [] {
      RunKeepsConsistent(job, d, files[..|files| - 1]);
    }
  }

  /** A falsy result (undefined or '') writes nothing, changes nothing and
      still counts as a read. */
  lemma FalsyResultIsReadOnly(job: Job, d: Disk, file: Path)
    requires file in d.files
    requires job.fn(d.files[file], OldOutput(job, d, file)).Returns?
    requires !IsTruthy(job.fn(d.files[file], OldOutput(job, d, file)).value)
    ensures ProcessFile(job, d, file) == Step(d, ReadOnly)
  {
  }

  /** A missing old output reaches the transform as `undefined`; it is not
      a failure. */
  lemma MissingOldOutputIsUndefined(job: Job, d: Disk, file: Path)
    requires job.config.includeOutput && file in d.files
    requires OutputPath(job, file) !in d.files
    requires job.fn(d.files[file], None).Returns?
    ensures OldOutput(job, d, file) == None
    ensures ProcessFile(job, d, file).outcome != Failed || IsTruthy(job.fn(d.files[file], None).value)
  {
  }

  /** A truthy result outside a dry run is written to the output path, after
      its directory has been created, whenever the output path is free. */
  lemma TruthyResultIsWritten(job: Job, d: Disk, file: Path)
    requires Consistent(d) && !job.config.dryRun && file in d.files
    requires job.fn(d.files[file], OldOutput(job, d, file)).Returns?
    requires IsTruthy(job.fn(d.files[file], OldOutput(job, d, file)).value)
    requires OutputPath(job, file) != []
    requires forall q | q in Ancestry(Dirname(OutputPath(job, file))) :: q !in d.files
    requires OutputPath(job, file) !in d.dirs
    ensures ProcessFile(job, d, file).outcome == Written
    ensures ProcessFile(job, d, file).disk.files[OutputPath(job, file)] ==
            job.fn(d.files[file], OldOutput(job, d, file)).value.value
  {
    var out := OutputPath(job, file);
    var dir := Dirname(out);
    assert |dir| < |out|;
    assert forall q | q in Ancestry(dir) :: |q| <= |dir|;
  }

  // ---------------------------------------------------------------------
  // transformIfShaChanged and transformFilesIfShaChanged

  /** The wrapped transform: it also receives the sha found in the old output. */
  type ShaTransformFn = (string, string, Option<string>) -> Outcome<Option<string>>

  /** `TransformShaConfig`: the digest, and how to find the sha in an old
      output (which may fail, like the promise it returns). */
  datatype ShaConfig = ShaConfig(digest: string -> string, getShaFromOutput: Option<string> -> Outcome<string>)

  /** `digest(s) === (oldOutput && sha)`: the old output is falsy (absent or
      '') or it is truthy and the comparison is with the extracted sha. */
  predicate DigestMatches(config: ShaConfig, s: string, oldOutput: Option<string>, sha: string) {
    match oldOutput
    case None => false
    case Some(o) => if o == "" then config.digest(s) == "" else config.digest(s) == sha
  }

  /** `transformIfShaChanged(fn, config)` applied to `(s, oldOutput)`. */
  function ShaGated(fn: ShaTransformFn, config: ShaConfig, s: string, oldOutput: Option<string>): Outcome<Option<string>> {
    var sha :- config.getShaFromOutput(oldOutput);
    if DigestMatches(config, s, oldOutput, sha) then Returns(None) else fn(s, sha, oldOutput)
  }

  function TransformIfShaChanged(fn: ShaTransformFn, config: ShaConfig): TransformFn {
    (s: string, oldOutput: Option<string>) => ShaGated(fn, config, s, oldOutput)
  }

  /** The gate skips the transform, returning undefined whatever `fn` is,
      exactly when the old output is truthy and its sha is the digest of the
      input (for a digest that never returns ''), and otherwise calls it
      with the sha taken from the old output, not with the new digest. */
  lemma ShaGateDecision(fn: ShaTransformFn, config: ShaConfig, s: string, oldOutput: Option<string>)
    requires config.getShaFromOutput(oldOutput).Returns?
    requires config.digest(s) != ""
    ensures var sha := config.getShaFromOutput(oldOutput).value;
      (oldOutput.Some? && oldOutput.value != "" && config.digest(s) == sha ==>
         forall g: ShaTransformFn :: ShaGated(g, config, s, oldOutput) == Returns(None)) &&
      (!(oldOutput.Some? && oldOutput.value != "" && config.digest(s) == sha) ==>
         ShaGated(fn, config, s, oldOutput) == fn(s, sha, oldOutput))
  {
  }

  /** Without an old output the wrapped transform is always called. */
  lemma ShaGateNoOldOutput(fn: ShaTransformFn, config: ShaConfig, s: string)
    requires config.getShaFromOutput(None).Returns?
    ensures ShaGated(fn, config, s, None) == fn(s, config.getShaFromOutput(None).value, None)
  {
  }

  /** A failure to find the sha is a failure of the wrapped transform. */
  lemma ShaGateShaFailure(fn: ShaTransformFn, config: ShaConfig, s: string, oldOutput: Option<string>)
    requires config.getShaFromOutput(oldOutput).Throws?
    ensures ShaGated(fn, config, s, oldOutput).Throws?
  {
  }

  /** `transformFilesIfShaChanged(fn, config)`: `transformFiles` with the
      gated transform, always reading the old output. */
  function ShaJob(fn: ShaTransformFn, sha: ShaConfig, config: TransformFilesConfig, inputDir: Path, outputDir: Path): (job: Job)
    ensures job.config.includeOutput
    ensures job.config.filter == config.filter && job.config.dryRun == config.dryRun
  {
    Job(TransformIfShaChanged(fn, sha), config.(includeOutput := true), inputDir, outputDir)
  }

  method TransformFilesIfShaChanged(fs: FileSystem, fn: ShaTransformFn, sha: ShaConfig, config: TransformFilesConfig,
                                    inputDir: Path, outputDir: Path, tree: seq<Node>) returns (m: Metrics)
    requires fs.Valid()
    modifies fs
    ensures fs.Valid()
    ensures Run(fs.State(), m) ==
            RunFiles(ShaJob(fn, sha, config, inputDir, outputDir), old(fs.State()), GetFilesRecursively(inputDir, tree, config.filter))
  {
    m := TransformFiles(fs, ShaJob(fn, sha, config, inputDir, outputDir), tree);
  }

  /** A file is up to date when its old output exists, is not empty, and
      records the digest of the input's current content. */
  predicate UpToDate(fn: ShaTransformFn, sha: ShaConfig, config: TransformFilesConfig,
                     inputDir: Path, outputDir: Path, d: Disk, file: Path)
  {
    var job := ShaJob(fn, sha, config, inputDir, outputDir);
    file in d.files && OutputPath(job, file) in d.files &&
    d.files[OutputPath(job, file)] != "" &&
    sha.getShaFromOutput(Some(d.files[OutputPath(job, file)])) == Returns(sha.digest(d.files[file]))
  }

  /** The incremental-build property: when every walked file is up to date,
      a gated run reads every file, writes nothing, fails nothing and leaves
      the file system unchanged. */
  lemma {:induction false} UpToDateRunWritesNothing(fn: ShaTransformFn, sha: ShaConfig, config: TransformFilesConfig,
                                                    inputDir: Path, outputDir: Path, d: Disk, files: seq<Path>)
    requires forall f | f in files :: UpToDate(fn, sha, config, inputDir, outputDir, d, f)
    ensures RunFiles(ShaJob(fn, sha, config, inputDir, outputDir), d, files) == Run(d, Metrics(|files|, 0, []))
    decreases |files|
  {
    if files != [] {
      var init := files[..|files| - 1];
      forall f | f in init ensures UpToDate(fn, sha, config, inputDir, outputDir, d, f) {
        assert f in files;
      }
      UpToDateRunWritesNothing(fn, sha, config, inputDir, outputDir, d, init);
      var file := files[|files| - 1];
      assert UpToDate(fn, sha, config, inputDir, outputDir, d, file);
      var job := ShaJob(fn, sha, config, inputDir, outputDir);
      var old_ := d.files[OutputPath(job, file)];
      assert OldOutput(job, d, file) == Some(old_);
      assert job.fn(d.files[file], Some(old_)) == ShaGated(fn, sha, d.files[file], Some(old_));
      assert DigestMatches(sha, d.files[file], Some(old_), sha.digest(d.files[file]));
    }
  }
}
