/** Running shell commands: how the outcome of a child process is classified
    as a shell result, `execute` (one command, with a dry-run switch, giving
    either the output or the errors), and the two drivers that run a command
    in every directory below a start directory, counting the runs and
    collecting failures.

    The child process is not modelled: a shell is a function from the
    working directory and the command to a result, or to a rejection. */
module Shell {
  import opened Wrappers
  import opened Paths
  import opened Walker

  /** The `code` of the error `child_process.exec` reports: the exit status,
      a system error name (such as "ENOENT"), or nothing (a process killed by
      a signal). */
  datatype ExitCode = NoCode | Status(n: int) | Named(name: string)

  /** `error?.code || 0`: a falsy code (absent, 0 or '') becomes 0. */
  function CodeOrZero(error: Option<ExitCode>): (c: ExitCode)
    ensures c == Status(0) <==> error.None? || error.value in {NoCode, Status(0), Named("")}
  {
    match error
    case None => Status(0)
    case Some(NoCode) => Status(0)
    case Some(Status(n)) => Status(n)
    case Some(Named(name)) => if name == "" then Status(0) else Named(name)
  }

  /** `SuccessfulShellResult | FailedShellResult` */
  datatype ShellResult =
    | Succeeded(message: string)
    | FailedRun(message: string, error: string, code: ExitCode)

  /** The error text of a result; a successful result has none. */
  function ErrorText(r: ShellResult): string {
    if r.FailedRun? then r.error else ""
  }

  /** `isSuccessfulShellResult`: the code is 0, whichever form the result has. */
  predicate IsSuccessfulShellResult(r: ShellResult) {
    r.Succeeded? || r.code == Status(0)
  }

  /** The callback of `executeScriptInShell`: the process succeeded when
      nothing was written to stderr and there was no error, or its code is 0. */
  function ClassifyExec(error: Option<ExitCode>, stdout: string, stderr: string): ShellResult {
    if stderr == "" && (error.None? || error.value == Status(0)) then Succeeded(stdout)
    else FailedRun(stdout, stderr, CodeOrZero(error))
  }

  /** The message is always what the process wrote to stdout; a result
      counts as successful exactly when the code is falsy, whatever was
      written to stderr; and an error is reported exactly when something
      was written to stderr or the code is not 0. */
  lemma ClassifyExecMeaning(error: Option<ExitCode>, stdout: string, stderr: string)
    ensures ClassifyExec(error, stdout, stderr).message == stdout
    ensures IsSuccessfulShellResult(ClassifyExec(error, stdout, stderr)) <==>
            error.None? || error.value in {NoCode, Status(0), Named("")}
    ensures ClassifyExec(error, stdout, stderr).FailedRun? <==>
            stderr != "" || (error.Some? && error.value != Status(0))
  {
  }

  /** A shell: `ExecuteInShellFn` applied to a working directory and a
      command; the promise it returns may reject. */
  type ExecuteInShellFn = (Path, string) -> Outcome<ShellResult>

  /** `executeScriptInShell` over the process that `exec` describes: it
      never rejects. */
  function ScriptShell(exec: (Path, string) -> (Option<ExitCode>, string, string)): ExecuteInShellFn {
    (cwd: Path, cmd: string) => Returns(ClassifyExec(exec(cwd, cmd).0, exec(cwd, cmd).1, exec(cwd, cmd).2))
  }

  /** `execute(cwd, cmd, config)`: no errors and no run for a dry run, the
      output of a successful run, and the one error of a failed run. */
  function Execute(shell: ExecuteInShellFn, cwd: Path, cmd: string, dryRun: bool): Outcome<ErrorsAnd<string>> {
    if dryRun then Returns(Errors([]))
    else
      var res :- shell(cwd, cmd);
      if IsSuccessfulShellResult(res) then Returns(Value(res.message)) else Returns(Errors([res.error]))
  }

  /** `hasErrors(result) && result.length > 0`: the test the drivers use. */
  predicate ReportsErrors(r: ErrorsAnd<string>) {
    r.Errors? && |r.errors| > 0
  }

  /** A dry run never runs the shell; otherwise a rejection propagates, and
      the result reports errors exactly when the shell's result is not
      successful, in which case the single error is the shell's stderr;
      a successful result gives the shell's stdout. */
  lemma ExecuteMeaning(shell: ExecuteInShellFn, cwd: Path, cmd: string, dryRun: bool)
    ensures dryRun ==> forall other: ExecuteInShellFn :: Execute(other, cwd, cmd, dryRun) == Returns(Errors([]))
    ensures !dryRun ==> (Execute(shell, cwd, cmd, dryRun).Throws? <==> shell(cwd, cmd).Throws?)
    ensures Execute(shell, cwd, cmd, dryRun).Returns? ==>
      (ReportsErrors(Execute(shell, cwd, cmd, dryRun).value) <==> !dryRun && !IsSuccessfulShellResult(shell(cwd, cmd).value))
    ensures !dryRun && shell(cwd, cmd).Returns? && !IsSuccessfulShellResult(shell(cwd, cmd).value) ==>
      Execute(shell, cwd, cmd, dryRun) == Returns(Errors([shell(cwd, cmd).value.error]))
    ensures !dryRun && shell(cwd, cmd).Returns? && IsSuccessfulShellResult(shell(cwd, cmd).value) ==>
      Execute(shell, cwd, cmd, dryRun) == Returns(Value(shell(cwd, cmd).value.message))
  {
  }

  /** With the script shell, `execute` gives the process's stdout exactly
      when its error code is falsy, even if it wrote to stderr. */
  lemma ExecuteScript(exec: (Path, string) -> (Option<ExitCode>, string, string), cwd: Path, cmd: string)
    ensures var e := exec(cwd, cmd).0;
      Execute(ScriptShell(exec), cwd, cmd, false) == Returns(Value(exec(cwd, cmd).1)) <==>
      e.None? || e.value in {NoCode, Status(0), Named("")}
  {
    ClassifyExecMeaning(exec(cwd, cmd).0, exec(cwd, cmd).1, exec(cwd, cmd).2);
  }

  // ---------------------------------------------------------------------
  // executeRecursivelyCmdChanges

  /** `{ executed, failed }` */
  datatype Tally = Tally(executed: nat, failed: seq<string>)

  /** What one directory adds to the tally: a command or shell that throws
      adds the directory name; a run that reports errors adds the directory
      name followed by the errors joined with ';' and still counts as
      executed. */
  function CmdChangesStep(shell: ExecuteInShellFn, cwd: Path, cmdFn: Path -> Outcome<string>, dryRun: bool, t: Tally, dir: Path): Tally {
    match cmdFn(dir)
    case Throws(_) => Tally(t.executed, t.failed + [PathString(dir)])
    case Returns(cmd) =>
      match Execute(shell, cwd, cmd, dryRun)
      case Throws(_) => Tally(t.executed, t.failed + [PathString(dir)])
      case Returns(result) =>
        if ReportsErrors(result) then Tally(t.executed + 1, t.failed + [PathString(dir) + " " + JoinStrings(result.errors, ";")])
        else Tally(t.executed + 1, t.failed)
  }

  function CmdChangesRun(shell: ExecuteInShellFn, cwd: Path, cmdFn: Path -> Outcome<string>, dryRun: bool, dirs: seq<Path>): Tally
    decreases |dirs|
  {
    if dirs == [] then Tally(0, [])
    else CmdChangesStep(shell, cwd, cmdFn, dryRun, CmdChangesRun(shell, cwd, cmdFn, dryRun, dirs[..|dirs| - 1]), dirs[|dirs| - 1])
  }

  /** `executeRecursivelyCmdChanges(cwd, startDir, cmdFn, config)` over the
      tree below `startDir`: every command runs in `cwd`. */
  method ExecuteRecursivelyCmdChanges(shell: ExecuteInShellFn, cwd: Path, startDir: Path, tree: seq<Node>,
                                      cmdFn: Path -> Outcome<string>, dryRun: bool) returns (executed: nat, failed: seq<string>)
    ensures Tally(executed, failed) == CmdChangesRun(shell, cwd, cmdFn, dryRun, GetDirectoriesRecursively(startDir, tree, None))
  {
    var dirs := GetDirectoriesRecursively(startDir, tree, None);
    executed, failed := 0, [];
    for i := 0 to |dirs|
      invariant Tally(executed, failed) == CmdChangesRun(shell, cwd, cmdFn, dryRun, dirs[..i])
    {
      var dir := dirs[i];
      assert dirs[..i + 1][..i] == dirs[..i];
      var cmd := cmdFn(dir);
      if cmd.Throws? {
        failed := failed + [PathString(dir)];
      } else {
        var result := Execute(shell, cwd, cmd.value, dryRun);
        if result.Throws? {
          failed := failed + [PathString(dir)];
        } else {
          if ReportsErrors(result.value) {
            failed := failed + [PathString(dir) + " " + JoinStrings(result.value.errors, ";")];
          }
          executed := executed + 1;
        }
      }
    }
    assert dirs[..|dirs|] == dirs;
  }

  /** Every directory is either executed or recorded as failed, possibly
      both (a run that reports errors), and nothing else is recorded. */
  lemma {:induction false} CmdChangesAccounting(shell: ExecuteInShellFn, cwd: Path, cmdFn: Path -> Outcome<string>, dryRun: bool, dirs: seq<Path>)
    ensures var t := CmdChangesRun(shell, cwd, cmdFn, dryRun, dirs);
      t.executed <= |dirs| && |t.failed| <= |dirs| && t.executed + |t.failed| >= |dirs|
    decreases |dirs|
  {
    if dirs != [] {
      CmdChangesAccounting(shell, cwd, cmdFn, dryRun, dirs[..|dirs| - 1]);
    }
  }

  /** The command for `dir` could be built and `execute` returned, with or
      without errors: the directories `executed` counts. */
  predicate Ran(shell: ExecuteInShellFn, cwd: Path, cmdFn: Path -> Outcome<string>, dryRun: bool, dir: Path) {
    cmdFn(dir).Returns? && Execute(shell, cwd, cmdFn(dir).value, dryRun).Returns?
  }

  /** The entry `failed` gets for `dir`: its name when the command or the
      shell threw, its name and the errors when the run reported errors,
      nothing when it succeeded. */
  function FailureLine(shell: ExecuteInShellFn, cwd: Path, cmdFn: Path -> Outcome<string>, dryRun: bool, dir: Path): Option<string> {
    if !Ran(shell, cwd, cmdFn, dryRun, dir) then Some(PathString(dir))
    else
      var result := Execute(shell, cwd, cmdFn(dir).value, dryRun).value;
      if ReportsErrors(result) then Some(PathString(dir) + " " + JoinStrings(result.errors, ";")) else None
  }

  /** How many of `dirs` ran. */
  function RanCount(shell: ExecuteInShellFn, cwd: Path, cmdFn: Path -> Outcome<string>, dryRun: bool, dirs: seq<Path>): nat
    decreases |dirs|
  {
    if dirs == [] then 0
    else (if Ran(shell, cwd, cmdFn, dryRun, dirs[0]) then 1 else 0) + RanCount(shell, cwd, cmdFn, dryRun, dirs[1..])
  }

  /** The failure entries of `dirs`, in order. */
  function FailureLines(shell: ExecuteInShellFn, cwd: Path, cmdFn: Path -> Outcome<string>, dryRun: bool, dirs: seq<Path>): seq<string>
    decreases |dirs|
  {
    if dirs == [] then []
    else
      (match FailureLine(shell, cwd, cmdFn, dryRun, dirs[0]) case Some(line) => [line] case None => []) +
      FailureLines(shell, cwd, cmdFn, dryRun, dirs[1..])
  }

  lemma {:induction false} RanCountSnoc(shell: ExecuteInShellFn, cwd: Path, cmdFn: Path -> Outcome<string>, dryRun: bool, dirs: seq<Path>, dir: Path)
    ensures RanCount(shell, cwd, cmdFn, dryRun, dirs + [dir]) ==
      RanCount(shell, cwd, cmdFn, dryRun, dirs) + (if Ran(shell, cwd, cmdFn, dryRun, dir) then 1 else 0)
    decreases |dirs|
  {
    if dirs == [] {
      assert [dir][1..] == [];
    } else {
      assert (dirs + [dir])[1..] == dirs[1..] + [dir];
      RanCountSnoc(shell, cwd, cmdFn, dryRun, dirs[1..], dir);
    }
  }

  lemma {:induction false} FailureLinesSnoc(shell: ExecuteInShellFn, cwd: Path, cmdFn: Path -> Outcome<string>, dryRun: bool, dirs: seq<Path>, dir: Path)
    ensures FailureLines(shell, cwd, cmdFn, dryRun, dirs + [dir]) ==
      FailureLines(shell, cwd, cmdFn, dryRun, dirs) +
      (match FailureLine(shell, cwd, cmdFn, dryRun, dir) case Some(line) => [line] case None => [])
    decreases |dirs|
  {
    if dirs == [] {
      assert [dir][1..] == [];
    } else {
      assert (dirs + [dir])[1..] == dirs[1..] + [dir];
      FailureLinesSnoc(shell, cwd, cmdFn, dryRun, dirs[1..], dir);
    }
  }

  /** The tally exactly: `executed` counts the directories that ran, error
      result or not, and `failed` holds each directory's failure entry in
      walking order. */
  lemma {:induction false} CmdChangesExact(shell: ExecuteInShellFn, cwd: Path, cmdFn: Path -> Outcome<string>, dryRun: bool, dirs: seq<Path>)
    ensures CmdChangesRun(shell, cwd, cmdFn, dryRun, dirs) ==
      Tally(RanCount(shell, cwd, cmdFn, dryRun, dirs), FailureLines(shell, cwd, cmdFn, dryRun, dirs))
    decreases |dirs|
  {
    if dirs != [] {
      var init, last := dirs[..|dirs| - 1], dirs[|dirs| - 1];
      assert init + [last] == dirs;
      CmdChangesExact(shell, cwd, cmdFn, dryRun, init);
      RanCountSnoc(shell, cwd, cmdFn, dryRun, init, last);
      FailureLinesSnoc(shell, cwd, cmdFn, dryRun, init, last);
    }
  }

  /** When every command can be built and every run succeeds (a dry run
      always does), every directory is executed and nothing fails. */
  lemma {:induction false} CmdChangesAllSucceed(shell: ExecuteInShellFn, cwd: Path, cmdFn: Path -> Outcome<string>, dryRun: bool, dirs: seq<Path>)
    requires forall d | d in dirs :: cmdFn(d).Returns?
    requires forall d | d in dirs :: dryRun || (shell(cwd, cmdFn(d).value).Returns? && IsSuccessfulShellResult(shell(cwd, cmdFn(d).value).value))
    ensures CmdChangesRun(shell, cwd, cmdFn, dryRun, dirs) == Tally(|dirs|, [])
    decreases |dirs|
  {
    if dirs != [] {
      var init := dirs[..|dirs| - 1];
      forall d | d in init ensures d in dirs {
      }
      CmdChangesAllSucceed(shell, cwd, cmdFn, dryRun, init);
      assert dirs[|dirs| - 1] in dirs;
    }
  }

  /** When every run fails with an error, every directory is executed and
      recorded, in walking order, with its errors after it. */
  lemma {:induction false} CmdChangesAllFail(shell: ExecuteInShellFn, cwd: Path, cmdFn: Path -> Outcome<string>, dirs: seq<Path>)
    requires forall d | d in dirs :: cmdFn(d).Returns?
    requires forall d | d in dirs :: shell(cwd, cmdFn(d).value).Returns? && !IsSuccessfulShellResult(shell(cwd, cmdFn(d).value).value)
    ensures var t := CmdChangesRun(shell, cwd, cmdFn, false, dirs);
      t.executed == |dirs| && |t.failed| == |dirs| &&
      forall i | 0 <= i < |dirs| :: t.failed[i] == PathString(dirs[i]) + " " + ErrorText(shell(cwd, cmdFn(dirs[i]).value).value)
    decreases |dirs|
  {
    if dirs != [] {
      var init := dirs[..|dirs| - 1];
      forall d | d in init ensures d in dirs {
      }
      CmdChangesAllFail(shell, cwd, cmdFn, init);
      var last := dirs[|dirs| - 1];
      assert last in dirs;
      var err := shell(cwd, cmdFn(last).value).value.error;
      assert JoinStrings([err], ";") == err;
    }
  }

  /** The three directories of the test tree each run the command once. */
  lemma CmdChangesOnTestTree(shell: ExecuteInShellFn, cwd: Path, cmdFn: Path -> Outcome<string>)
    requires forall d: Path :: cmdFn(d).Returns?
    requires forall d: Path :: shell(cwd, cmdFn(d).value).Returns? && !IsSuccessfulShellResult(shell(cwd, cmdFn(d).value).value)
    ensures var t := CmdChangesRun(shell, cwd, cmdFn, false, GetDirectoriesRecursively(["test"], TestTree(), None));
      t.executed == 3 && |t.failed| == 3 &&
      t.failed[1] == "test/a " + ErrorText(shell(cwd, cmdFn(["test", "a"]).value).value)
  {
    TestTreeWalks();
    var dirs := GetDirectoriesRecursively(["test"], TestTree(), None);
    CmdChangesAllFail(shell, cwd, cmdFn, dirs);
    assert dirs[1] == ["test", "a"];
    assert PathString(["test", "a"]) == "test/a" by {
      assert ["test", "a"][..1] == ["test"];
    }
  }

  // ---------------------------------------------------------------------
  // executeRecursivelyInChildDirectories

  /** The body of the loop: run `cmds` in the directory itself; only a
      rejection counts as a failure, the result is not looked at. */
  function InChildStep(shell: ExecuteInShellFn, cmds: string, dryRun: bool, t: Tally, dir: Path): Tally {
    if Execute(shell, dir, cmds, dryRun).Throws? then Tally(t.executed, t.failed + [PathString(dir)])
    else Tally(t.executed + 1, t.failed)
  }

  function InChildRun(shell: ExecuteInShellFn, cmds: string, dryRun: bool, dirs: seq<Path>): Tally
    decreases |dirs|
  {
    if dirs == [] then Tally(0, [])
    else InChildStep(shell, cmds, dryRun, InChildRun(shell, cmds, dryRun, dirs[..|dirs| - 1]), dirs[|dirs| - 1])
  }

  /** `executeRecursivelyInChildDirectories` as written: the `return` is
      inside the loop, so only the first directory, `cwd` itself, is run
      (and an empty walk would give undefined). */
  method ExecuteRecursivelyInChildDirectoriesAsWritten(shell: ExecuteInShellFn, cwd: Path, tree: seq<Node>, cmds: string, dryRun: bool)
    returns (r: Option<Tally>)
    ensures r == Some(InChildRun(shell, cmds, dryRun, [cwd]))
  {
    var dirs := GetDirectoriesRecursively(cwd, tree, None);
    var executed := 0;
    var failed: seq<string> := [];
    for i := 0 to |dirs|
      invariant i == 0
    {
      var dir := dirs[i];
      if Execute(shell, dir, cmds, dryRun).Throws? {
        failed := failed + [PathString(dir)];
      } else {
        executed := executed + 1;
      }
      return Some(Tally(executed, failed));
    }
    return None;
  }

  /** The intended driver: every directory below `cwd`, and `cwd` itself,
      runs the commands. */
  method ExecuteRecursivelyInChildDirectories(shell: ExecuteInShellFn, cwd: Path, tree: seq<Node>, cmds: string, dryRun: bool)
    returns (executed: nat, failed: seq<string>)
    ensures Tally(executed, failed) == InChildRun(shell, cmds, dryRun, GetDirectoriesRecursively(cwd, tree, None))
  {
    var dirs := GetDirectoriesRecursively(cwd, tree, None);
    executed, failed := 0, [];
    for i := 0 to |dirs|
      invariant Tally(executed, failed) == InChildRun(shell, cmds, dryRun, dirs[..i])
    {
      var dir := dirs[i];
      assert dirs[..i + 1][..i] == dirs[..i];
      if Execute(shell, dir, cmds, dryRun).Throws? {
        failed := failed + [PathString(dir)];
      } else {
        executed := executed + 1;
      }
    }
    assert dirs[..|dirs|] == dirs;
  }

  /** Each directory is either executed or failed, exactly once. */
  lemma {:induction false} InChildAccounting(shell: ExecuteInShellFn, cmds: string, dryRun: bool, dirs: seq<Path>)
    ensures InChildRun(shell, cmds, dryRun, dirs).executed + |InChildRun(shell, cmds, dryRun, dirs).failed| == |dirs|
    decreases |dirs|
  {
    if dirs != [] {
      InChildAccounting(shell, cmds, dryRun, dirs[..|dirs| - 1]);
    }
  }

  /** The discrepancy: on the test tree the driver as written accounts for
      one directory while the walk yields three. */
  lemma InChildDirectoriesStopsEarly(shell: ExecuteInShellFn, cmds: string, dryRun: bool)
    ensures var asWritten := InChildRun(shell, cmds, dryRun, [["test"]]);
      asWritten.executed + |asWritten.failed| == 1
    ensures var intended := InChildRun(shell, cmds, dryRun, GetDirectoriesRecursively(["test"], TestTree(), None));
      intended.executed + |intended.failed| == 3
  {
    InChildAccounting(shell, cmds, dryRun, [["test"]]);
    TestTreeWalks();
    InChildAccounting(shell, cmds, dryRun, GetDirectoriesRecursively(["test"], TestTree(), None));
  }
}
