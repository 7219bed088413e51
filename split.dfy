/**
  `git split` (git-split.go): the flag loop, the rules that reconcile the
  flags, the checks on the working tree, and the ordered steps that amend the
  previous commit and restore the working directory. The steps are git
  commands whose answers the model is given; the workspace records which
  commands ran, in order, and whether the diff file `git-split.diff` exists.
*/
module Split {
  import opened Results
  import opened GitOutput

  datatype Flags = Flags(backup: bool, force: bool, noAdd: bool, commit: bool, message: string)

  /** `Help` stands for printing the usage and exiting with status 0. */
  datatype FlagsOutcome = Parsed(flags: Flags) | Help | FlagError(msg: string)

  const NoFlags: Flags := Flags(false, false, false, false, "")

  const MessageNeedsValue: string := "--message requires a value"

  /** The switches that take no value. */
  predicate IsSwitch(arg: string) {
    arg in {"-b", "--backup", "-f", "--force", "--no-add", "-c", "--commit"}
  }

  /** The flag loop (git-split.go:18-46) from position `i`. */
  function ScanFlags(args: seq<string>, i: nat, f: Flags): FlagsOutcome
    requires i <= |args|
    decreases |args| - i
  {
    if i == |args| then Parsed(f)
    else
      var arg := args[i];
      if arg == "-b" || arg == "--backup" then ScanFlags(args, i + 1, f.(backup := true))
      else if arg == "-f" || arg == "--force" then ScanFlags(args, i + 1, f.(force := true))
      else if arg == "--no-add" then ScanFlags(args, i + 1, f.(noAdd := true))
      else if arg == "-c" || arg == "--commit" then ScanFlags(args, i + 1, f.(commit := true))
      else if arg == "-m" || arg == "--message" then
        if i + 1 < |args| then ScanFlags(args, i + 2, f.(message := args[i + 1], commit := true))
        else FlagError(MessageNeedsValue)
      else if arg == "--help" || arg == "-h" then Help
      else FlagError("Unknown argument '" + arg + "'")
  }

  const NoAddWithCommit: string := "--no-add is incompatible with --commit and --message"
  const ForceWithCommit: string := "--force is incompatible with --commit and --message"

  /** The incompatibility checks, then `--force` switching on `--no-add`
      (git-split.go:48-65). */
  function Reconcile(f: Flags): FlagsOutcome {
    if f.noAdd && f.commit then FlagError(NoAddWithCommit)
    else if f.force && f.commit then FlagError(ForceWithCommit)
    else Parsed(f.(noAdd := f.noAdd || f.force))
  }

  /** A message always comes with the commit switch. */
  lemma {:induction false} ScanMessageCommits(args: seq<string>, i: nat, f: Flags)
    requires i <= |args| && (f.message != "" ==> f.commit)
    ensures ScanFlags(args, i, f).Parsed? ==> (ScanFlags(args, i, f).flags.message != "" ==> ScanFlags(args, i, f).flags.commit)
    decreases |args| - i
  {
    if i < |args| {
      var arg := args[i];
      if arg == "-b" || arg == "--backup" {
        ScanMessageCommits(args, i + 1, f.(backup := true));
      } else if arg == "-f" || arg == "--force" {
        ScanMessageCommits(args, i + 1, f.(force := true));
      } else if arg == "--no-add" {
        ScanMessageCommits(args, i + 1, f.(noAdd := true));
      } else if arg == "-c" || arg == "--commit" {
        ScanMessageCommits(args, i + 1, f.(commit := true));
      } else if (arg == "-m" || arg == "--message") && i + 1 < |args| {
        ScanMessageCommits(args, i + 2, f.(message := args[i + 1], commit := true));
      }
    }
  }

  /** What the command line decides. Accepted flags never combine a commit with
      skipping the staging, `--force` always skips the staging, and a message
      always makes a commit. */
  function ParseFlags(args: seq<string>): (r: FlagsOutcome)
    ensures r.Parsed? ==> !(r.flags.commit && r.flags.noAdd)
    ensures r.Parsed? ==> (r.flags.force ==> r.flags.noAdd)
    ensures r.Parsed? ==> (r.flags.message != "" ==> r.flags.commit)
  {
    ScanMessageCommits(args, 0, NoFlags);
    var scanned := ScanFlags(args, 0, NoFlags);
    if scanned.Parsed? then Reconcile(scanned.flags) else scanned
  }

  /** The flag loop and the checks after it, with the source's variables. */
  method ParseSplitArgs(args: seq<string>) returns (r: FlagsOutcome)
    ensures r == ParseFlags(args)
  {
    var shouldBackup, shouldForce, shouldCommit, shouldNoAdd := false, false, false, false;
    var commitMessage := "";
    var i := 0;
    while i < |args|
      invariant 0 <= i <= |args|
      invariant ScanFlags(args, i, Flags(shouldBackup, shouldForce, shouldNoAdd, shouldCommit, commitMessage))
        == ScanFlags(args, 0, NoFlags)
    {
      var arg := args[i];
      if arg == "-b" || arg == "--backup" {
        shouldBackup := true;
      } else if arg == "-f" || arg == "--force" {
        shouldForce := true;
      } else if arg == "--no-add" {
        shouldNoAdd := true;
      } else if arg == "-c" || arg == "--commit" {
        shouldCommit := true;
      } else if arg == "-m" || arg == "--message" {
        if i + 1 < |args| {
          i := i + 1;
          commitMessage := args[i];
          shouldCommit := true;
        } else {
          return FlagError(MessageNeedsValue);
        }
      } else if arg == "--help" || arg == "-h" {
        return Help;
      } else {
        return FlagError("Unknown argument '" + arg + "'");
      }
      i := i + 1;
    }
    if shouldNoAdd && shouldCommit {
      return FlagError(NoAddWithCommit);
    }
    if shouldForce && shouldCommit {
      return FlagError(ForceWithCommit);
    }
    if shouldForce && !shouldNoAdd {
      shouldNoAdd := true;
    }
    return Parsed(Flags(shouldBackup, shouldForce, shouldNoAdd, shouldCommit, commitMessage));
  }

  /** `-m <msg>` alone sets the message and turns the commit on. */
  lemma MessageEnablesCommit(msg: string)
    ensures ParseFlags(["-m", msg]) == Parsed(Flags(false, false, false, true, msg))
  {
    assert ScanFlags(["-m", msg], 0, NoFlags) == ScanFlags(["-m", msg], 2, NoFlags.(message := msg, commit := true));
  }

  /** Switches followed by a `-m` with nothing after it are refused. */
  lemma {:induction false} DanglingMessage(args: seq<string>, i: nat, f: Flags)
    requires i <= |args| && forall k :: i <= k < |args| ==> IsSwitch(args[k])
    ensures ScanFlags(args + ["-m"], i, f) == FlagError(MessageNeedsValue)
    decreases |args| - i
  {
    var all := args + ["-m"];
    assert all[i] == if i < |args| then args[i] else "-m";
    if i < |args| {
      var arg := args[i];
      if arg == "-b" || arg == "--backup" {
        DanglingMessage(args, i + 1, f.(backup := true));
      } else if arg == "-f" || arg == "--force" {
        DanglingMessage(args, i + 1, f.(force := true));
      } else if arg == "--no-add" {
        DanglingMessage(args, i + 1, f.(noAdd := true));
      } else {
        DanglingMessage(args, i + 1, f.(commit := true));
      }
    }
  }

  /** A `-m` at the end of the line has no value, whatever switches precede it. */
  lemma MessageWithoutValueRejected(args: seq<string>)
    requires forall k :: 0 <= k < |args| ==> IsSwitch(args[k])
    ensures ParseFlags(args + ["-m"]) == FlagError(MessageNeedsValue)
  {
    DanglingMessage(args, 0, NoFlags);
  }

  /** Any other word is refused. */
  lemma UnknownArgumentRejected(arg: string)
    requires !IsSwitch(arg) && arg !in {"-m", "--message", "--help", "-h"}
    ensures ParseFlags([arg]) == FlagError("Unknown argument '" + arg + "'")
  {
  }

  /** `--no-add` and `--force` each refuse a commit, in either order. */
  lemma IncompatibleSwitches()
    ensures ParseFlags(["--no-add", "--commit"]) == FlagError(NoAddWithCommit)
    ensures ParseFlags(["--commit", "--no-add"]) == FlagError(NoAddWithCommit)
    ensures ParseFlags(["--force", "-m", "x"]) == FlagError(ForceWithCommit)
    ensures ParseFlags(["-m", "x", "-f"]) == FlagError(ForceWithCommit)
  {
  }

  /** The commands of a split, in the order `main` may run them. `LocateGitDir` is
      the query for the git directory that holds the diff file. */
  datatype Step = Backup | LocateGitDir | WriteDiff | Amend | ReverseApply | StageAll | Commit(message: string)

  /** The steps the accepted flags call for. */
  function Plan(f: Flags): seq<Step> {
    (if f.backup then [Backup] else [])
    + [LocateGitDir, WriteDiff, Amend, ReverseApply]
    + (if f.noAdd then [] else [StageAll])
    + (if f.commit then [Commit(f.message)] else [])
  }

  /** The answers of git: the two `git status --porcelain` runs, and each step. */
  datatype SplitEnv = SplitEnv(unstagedStatus: Result<string>, stagedStatus: Result<string>, run: Step -> Status)

  /** The commands that changed something, in order, and whether the diff file
      exists. */
  datatype Workspace = Workspace(log: seq<Step>, diffFile: bool)

  /** Exit 0 with the usage text, exit 1 with a message, exit 0 with nothing
      staged, or the end of a successful split. */
  datatype SplitOutcome = ShowUsage | Failed(msg: string) | NothingToSplit | Completed

  /** The message `main` prints when a step fails. */
  function FailureText(step: Step, err: string): string {
    match step
    case Backup => "Failed to create backup: " + err
    case LocateGitDir => "Could not determine git directory: " + err
    case WriteDiff => "Failed to create diff file: " + err
    case Amend => "Failed to amend commit: " + err
    case ReverseApply => "Failed to apply reverse diff: " + err
    case StageAll => "Failed to stage changes: " + err
    case Commit(_) => "Failed to create commit: " + err
  }

  /** One step on the workspace: it is recorded, and writing the diff creates
      the file. */
  function Perform(w: Workspace, step: Step, env: SplitEnv): (Workspace, Status) {
    var st := env.run(step);
    var w' := w.(log := w.log + [step]);
    if st.Done? && step == WriteDiff then (w'.(diffFile := true), st) else (w', st)
  }

  /** The steps from the first, stopping at the first that fails with the
      message for it. */
  function RunPlan(w: Workspace, steps: seq<Step>, env: SplitEnv): (Workspace, Option<string>)
    decreases |steps|
  {
    if steps == [] then (w, None)
    else
      var (w', st) := Perform(w, steps[0], env);
      if st.Fail? then (w', Some(FailureText(steps[0], st.err)))
      else RunPlan(w', steps[1..], env)
  }

  /** The position of the first step that fails, or the length when none does. */
  function FirstFailure(steps: seq<Step>, env: SplitEnv): (n: nat)
    ensures n <= |steps|
    ensures forall j :: 0 <= j < n ==> env.run(steps[j]).Done?
    ensures n < |steps| ==> env.run(steps[n]).Fail?
    decreases |steps|
  {
    if steps == [] || env.run(steps[0]).Fail? then 0 else 1 + FirstFailure(steps[1..], env)
  }

  /** The steps run in order up to and including the first that fails, and none
      after it; the run reports a failure exactly when some step fails. */
  lemma RunPlanStopsAtFirstFailure(w: Workspace, steps: seq<Step>, env: SplitEnv)
    ensures var n := FirstFailure(steps, env);
      RunPlan(w, steps, env).0.log == w.log + (if n < |steps| then steps[..n + 1] else steps)
    ensures RunPlan(w, steps, env).1.None? <==> FirstFailure(steps, env) == |steps|
    ensures FirstFailure(steps, env) < |steps| ==>
      RunPlan(w, steps, env).1 == Some(FailureText(steps[FirstFailure(steps, env)], env.run(steps[FirstFailure(steps, env)]).err))
  {
    RunPlanLog(w, steps, env);
    RunPlanError(w, steps, env);
  }

  /** How many steps a run starts: those up to and including the first failure. */
  function Attempted(steps: seq<Step>, env: SplitEnv): (k: nat)
    ensures k <= |steps|
    decreases |steps|
  {
    if steps == [] then 0 else if env.run(steps[0]).Fail? then 1 else 1 + Attempted(steps[1..], env)
  }

  lemma {:induction false} AttemptedFirstFailure(steps: seq<Step>, env: SplitEnv)
    ensures var n := FirstFailure(steps, env);
      Attempted(steps, env) == if n < |steps| then n + 1 else n
    decreases |steps|
  {
    if steps != [] && env.run(steps[0]).Done? {
      AttemptedFirstFailure(steps[1..], env);
    }
  }

  /** The steps recorded are those up to and including the first failure. */
  lemma RunPlanLog(w: Workspace, steps: seq<Step>, env: SplitEnv)
    ensures var n := FirstFailure(steps, env);
      RunPlan(w, steps, env).0.log == w.log + steps[..if n < |steps| then n + 1 else n]
  {
    RunPlanAttempted(w, steps, env);
    AttemptedFirstFailure(steps, env);
  }

  lemma {:induction false} RunPlanAttempted(w: Workspace, steps: seq<Step>, env: SplitEnv)
    ensures RunPlan(w, steps, env).0.log == w.log + steps[..Attempted(steps, env)]
    decreases |steps|
  {
    if steps != [] && env.run(steps[0]).Done? {
      var w' := Perform(w, steps[0], env).0;
      RunPlanAttempted(w', steps[1..], env);
      var k := Attempted(steps[1..], env);
      assert steps[..k + 1] == [steps[0]] + steps[1..][..k];
    } else if steps != [] {
      assert steps[..1] == [steps[0]];
    }
  }

  /** The run fails with the message of the first step that fails, if any. */
  lemma {:induction false} RunPlanError(w: Workspace, steps: seq<Step>, env: SplitEnv)
    ensures var n := FirstFailure(steps, env);
      RunPlan(w, steps, env).1 == if n < |steps| then Some(FailureText(steps[n], env.run(steps[n]).err)) else None
    decreases |steps|
  {
    if steps != [] && env.run(steps[0]).Done? {
      var w' := Perform(w, steps[0], env).0;
      RunPlanError(w', steps[1..], env);
      var n := FirstFailure(steps[1..], env);
      if n < |steps[1..]| {
        assert steps[1..][n] == steps[n + 1];
      }
    }
  }

  /** Running one list of steps after another. */
  lemma {:induction false} RunPlanAppend(w: Workspace, a: seq<Step>, b: seq<Step>, env: SplitEnv)
    ensures RunPlan(w, a + b, env) ==
      (var (w', err) := RunPlan(w, a, env); if err.Some? then (w', err) else RunPlan(w', b, env))
    decreases |a|
  {
    if a != [] {
      assert (a + b)[1..] == a[1..] + b;
      var (w', _) := Perform(w, a[0], env);
      RunPlanAppend(w', a[1..], b, env);
    } else {
      assert a + b == b;
    }
  }

  /** The diff file is created only by a successful `WriteDiff`. */
  lemma {:induction false} RunPlanDiffFile(w: Workspace, steps: seq<Step>, env: SplitEnv)
    requires WriteDiff in steps[..FirstFailure(steps, env)]
    ensures RunPlan(w, steps, env).0.diffFile
    decreases |steps|
  {
    var (w', st) := Perform(w, steps[0], env);
    if steps[0] == WriteDiff {
      RunPlanKeepsDiffFile(w', steps[1..], env);
    } else {
      assert steps[..FirstFailure(steps, env)] == [steps[0]] + steps[1..][..FirstFailure(steps[1..], env)];
      RunPlanDiffFile(w', steps[1..], env);
    }
  }

  /** Once there, the diff file stays for the rest of the steps. */
  lemma {:induction false} RunPlanKeepsDiffFile(w: Workspace, steps: seq<Step>, env: SplitEnv)
    requires w.diffFile
    ensures RunPlan(w, steps, env).0.diffFile
    decreases |steps|
  {
    if steps != [] {
      var (w', st) := Perform(w, steps[0], env);
      RunPlanKeepsDiffFile(w', steps[1..], env);
    }
  }

  const UnstagedChanges: string := "There are unstaged changes. Use --force to proceed anyway or stage your changes first."

  /** `main` after the repository check: the workspace afterwards and how the run
      ends. On success the deferred removal deletes the diff file; the error
      paths leave through `os.Exit`, which skips it. */
  function SplitSpec(w: Workspace, args: seq<string>, env: SplitEnv): (Workspace, SplitOutcome) {
    var parsed := ParseFlags(args);
    if parsed.Help? then (w, ShowUsage)
    else if parsed.FlagError? then (w, Failed(parsed.msg))
    else
      var f := parsed.flags;
      if !f.force && env.unstagedStatus.Err? then (w, Failed("Could not check for unstaged changes: " + env.unstagedStatus.msg))
      else if !f.force && AnyUnstaged(env.unstagedStatus.value) then (w, Failed(UnstagedChanges))
      else if env.stagedStatus.Err? then (w, Failed("Could not check for staged changes: " + env.stagedStatus.msg))
      else if !AnyStaged(env.stagedStatus.value) then (w, NothingToSplit)
      else
        var (w', err) := RunPlan(w, Plan(f), env);
        if err.Some? then (w', Failed(err.value)) else (w'.(diffFile := false), Completed)
  }

  /** Staging runs exactly without `--no-add` (after `--force` has implied it),
      and a commit exactly with the commit switch, with the message given. */
  lemma PlanSteps(f: Flags, m: string)
    ensures StageAll in Plan(f) <==> !f.noAdd
    ensures Commit(m) in Plan(f) <==> f.commit && m == f.message
    ensures Backup in Plan(f) <==> f.backup
    ensures Plan(f)[0] == if f.backup then Backup else LocateGitDir
  {
    var pre: seq<Step> := if f.backup then [Backup] else [];
    var core: seq<Step> := [LocateGitDir, WriteDiff, Amend, ReverseApply];
    var stage: seq<Step> := if f.noAdd then [] else [StageAll];
    var commit: seq<Step> := if f.commit then [Commit(f.message)] else [];
    assert Plan(f) == pre + core + stage + commit;
    assert forall s :: s in Plan(f) <==> s in pre || s in core || s in stage || s in commit;
  }

  /** The steps run from the backup on, each only after all before it
      succeeded, and the last that ran is the one that failed. */
  lemma SplitRunsPlanInOrder(w: Workspace, args: seq<string>, env: SplitEnv)
    requires ParseFlags(args).Parsed?
    requires SplitSpec(w, args, env).0 != w
    ensures var steps := Plan(ParseFlags(args).flags);
      var n := FirstFailure(steps, env);
      SplitSpec(w, args, env).0.log == w.log + (if n < |steps| then steps[..n + 1] else steps)
      && (SplitSpec(w, args, env).1 == Completed <==> n == |steps|)
  {
    RunPlanStopsAtFirstFailure(w, Plan(ParseFlags(args).flags), env);
  }

  /** Without staged changes nothing runs and the exit is 0. */
  lemma NothingStagedChangesNothing(w: Workspace, args: seq<string>, env: SplitEnv)
    requires ParseFlags(args).Parsed?
    requires ParseFlags(args).flags.force || (env.unstagedStatus.Ok? && !AnyUnstaged(env.unstagedStatus.value))
    requires env.stagedStatus.Ok? && !AnyStaged(env.stagedStatus.value)
    ensures SplitSpec(w, args, env) == (w, NothingToSplit)
  {
  }

  /** With `--force` the unstaged changes are never looked at. */
  lemma ForceSkipsUnstagedCheck(w: Workspace, args: seq<string>, env: SplitEnv, other: Result<string>)
    requires ParseFlags(args).Parsed? && ParseFlags(args).flags.force
    ensures SplitSpec(w, args, env) == SplitSpec(w, args, env.(unstagedStatus := other))
  {
    RunPlanReadsOnlyRun(w, Plan(ParseFlags(args).flags), env, env.(unstagedStatus := other));
  }

  /** The steps depend on the answers to the steps only. */
  lemma {:induction false} RunPlanReadsOnlyRun(w: Workspace, steps: seq<Step>, env: SplitEnv, env': SplitEnv)
    requires env.run == env'.run
    ensures RunPlan(w, steps, env) == RunPlan(w, steps, env')
    decreases |steps|
  {
    if steps != [] {
      var (w', _) := Perform(w, steps[0], env);
      RunPlanReadsOnlyRun(w', steps[1..], env, env');
    }
  }

  /** A failure after the diff file was written leaves it in the git directory;
      a finished split removes it. */
  lemma DiffFileAfterSplit(w: Workspace, args: seq<string>, env: SplitEnv)
    requires ParseFlags(args).Parsed?
    ensures SplitSpec(w, args, env).1 == Completed ==> !SplitSpec(w, args, env).0.diffFile
    ensures var steps := Plan(ParseFlags(args).flags);
      SplitSpec(w, args, env).1.Failed? && SplitSpec(w, args, env).0 != w && WriteDiff in steps[..FirstFailure(steps, env)]
      ==> SplitSpec(w, args, env).0.diffFile
  {
    var steps := Plan(ParseFlags(args).flags);
    if WriteDiff in steps[..FirstFailure(steps, env)] {
      RunPlanDiffFile(w, steps, env);
    }
  }

  /** The workspace as the source changes it: one git command at a time. */
  class Repository {
    var log: seq<Step>
    var diffFile: bool

    function State(): Workspace
      reads this
    {
      Workspace(log, diffFile)
    }

    constructor(w: Workspace)
      ensures State() == w
    {
      log := w.log;
      diffFile := w.diffFile;
    }

    /** One of `RunGitBackup`, `GetGitDirectory`, `CreateStagedDiff`,
        `AmendCommit`, `ApplyReverseDiff`, `StageAllChanges`, `CreateCommit`. */
    method Do(step: Step, env: SplitEnv) returns (st: Status)
      modifies this
      ensures (State(), st) == Perform(old(State()), step, env)
    {
      st := env.run(step);
      log := log + [step];
      if st.Done? && step == WriteDiff {
        diffFile := true;
      }
    }

    /** The four steps every split runs: locate the git directory, write the
        staged diff, amend, apply the diff in reverse. */
    method RunCore(env: SplitEnv) returns (err: Option<string>)
      modifies this
      ensures (State(), err) == RunPlan(old(State()), [LocateGitDir, WriteDiff, Amend, ReverseApply], env)
    {
      var core: seq<Step> := [LocateGitDir, WriteDiff, Amend, ReverseApply];
      ghost var w0 := State();
      var st := Do(LocateGitDir, env);
      if st.Fail? {
        return Some(FailureText(LocateGitDir, st.err));
      }
      assert RunPlan(w0, core, env) == RunPlan(State(), core[1..], env);
      st := Do(WriteDiff, env);
      if st.Fail? {
        return Some(FailureText(WriteDiff, st.err));
      }
      assert core[1..][1..] == core[2..];
      assert RunPlan(w0, core, env) == RunPlan(State(), core[2..], env);
      st := Do(Amend, env);
      if st.Fail? {
        return Some(FailureText(Amend, st.err));
      }
      assert core[2..][1..] == core[3..];
      assert RunPlan(w0, core, env) == RunPlan(State(), core[3..], env);
      st := Do(ReverseApply, env);
      if st.Fail? {
        return Some(FailureText(ReverseApply, st.err));
      }
      assert core[3..][1..] == [];
      return None;
    }

    /** A step that runs only when `wanted` holds. */
    method RunIf(wanted: bool, step: Step, env: SplitEnv) returns (err: Option<string>)
      modifies this
      ensures (State(), err) == RunPlan(old(State()), if wanted then [step] else [], env)
    {
      if !wanted {
        return None;
      }
      var st := Do(step, env);
      if st.Fail? {
        return Some(FailureText(step, st.err));
      }
      assert [step][1..] == [];
      return None;
    }

    /** The steps of `main` from the backup to the commit. */
    method RunSteps(f: Flags, env: SplitEnv) returns (err: Option<string>)
      modifies this
      ensures (State(), err) == RunPlan(old(State()), Plan(f), env)
    {
      var pre: seq<Step> := if f.backup then [Backup] else [];
      var core: seq<Step> := [LocateGitDir, WriteDiff, Amend, ReverseApply];
      var stage: seq<Step> := if f.noAdd then [] else [StageAll];
      var commit: seq<Step> := if f.commit then [Commit(f.message)] else [];
      assert Plan(f) == pre + (core + (stage + commit));
      ghost var w0 := State();
      RunPlanAppend(w0, pre, core + (stage + commit), env);
      err := RunIf(f.backup, Backup, env);
      if err.Some? {
        return;
      }
      ghost var w1 := State();
      RunPlanAppend(w1, core, stage + commit, env);
      err := RunCore(env);
      if err.Some? {
        return;
      }
      ghost var w2 := State();
      RunPlanAppend(w2, stage, commit, env);
      err := RunIf(!f.noAdd, StageAll, env);
      if err.Some? {
        return;
      }
      err := RunIf(f.commit, Commit(f.message), env);
    }

    /** `main` */
    method Run(args: seq<string>, env: SplitEnv) returns (out: SplitOutcome)
      modifies this
      ensures (State(), out) == SplitSpec(old(State()), args, env)
    {
      var parsed := ParseSplitArgs(args);
      if parsed.Help? {
        return ShowUsage;
      }
      if parsed.FlagError? {
        return Failed(parsed.msg);
      }
      var f := parsed.flags;
      if !f.force {
        var hasUnstaged := HasUnstagedChanges(env.unstagedStatus);
        if hasUnstaged.Err? {
          return Failed("Could not check for unstaged changes: " + hasUnstaged.msg);
        }
        if hasUnstaged.value {
          return Failed(UnstagedChanges);
        }
      }
      var hasStaged := HasStagedChanges(env.stagedStatus);
      if hasStaged.Err? {
        return Failed("Could not check for staged changes: " + hasStaged.msg);
      }
      if !hasStaged.value {
        return NothingToSplit;
      }
      var err := RunSteps(f, env);
      if err.Some? {
        return Failed(err.value);
      }
      diffFile := false;
      return Completed;
    }
  }
}
