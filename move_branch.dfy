/**
  `git move-branch` (git-move-branch.go): the argument loop, the checks on
  the branch and the target, and the checkout, move and checkout that point a
  branch at another commit, also when it is the branch checked out.
*/
module MoveBranch {
  import opened Results
  import opened GitOutput
  import Reparent

  datatype MoveArgs = MoveArgs(branch: string, target: string, backup: bool, checkout: bool)

  /** `Help` stands for printing the usage and exiting with status 0. */
  datatype ArgsOutcome = Parsed(args: MoveArgs) | Help | ArgError(msg: string)

  const NoArgs: MoveArgs := MoveArgs("", "", false, false)

  /** The argument loop (git-move-branch.go:20-48) from position `i`. */
  function ScanArgs(args: seq<string>, i: nat, a: MoveArgs): ArgsOutcome
    requires i <= |args|
    decreases |args| - i
  {
    if i == |args| then Parsed(a)
    else
      var arg := args[i];
      if arg == "--backup" then ScanArgs(args, i + 1, a.(backup := true))
      else if arg == "--checkout" then ScanArgs(args, i + 1, a.(checkout := true))
      else if arg == "--help" || arg == "-h" then Help
      else if arg == "-b" || arg == "--branch" then
        if i + 1 >= |args| then ArgError(arg + " requires a branch name")
        else ScanArgs(args, i + 2, a.(branch := args[i + 1]))
      else if arg == "-t" || arg == "--to" then
        if i + 1 >= |args| then ArgError(arg + " requires a reference")
        else ScanArgs(args, i + 2, a.(target := args[i + 1]))
      else ArgError("Unknown argument '" + arg + "'")
  }

  const BranchRequired: string := "Branch name is required. Use -b or --branch to specify the branch to move."

  /** The loop and the check after it: accepted arguments always name a branch. */
  function ParseMoveArgs(args: seq<string>): (r: ArgsOutcome)
    ensures r.Parsed? ==> r.args.branch != ""
  {
    var scanned := ScanArgs(args, 0, NoArgs);
    if scanned.Parsed? && scanned.args.branch == "" then ArgError(BranchRequired) else scanned
  }

  /** The loop with the source's variables. */
  method ParseArgs(args: seq<string>) returns (r: ArgsOutcome)
    ensures r == ParseMoveArgs(args)
  {
    var branchToMove, newReference := "", "";
    var shouldBackup, shouldCheckout := false, false;
    var i := 0;
    while i < |args|
      invariant 0 <= i <= |args|
      invariant ScanArgs(args, i, MoveArgs(branchToMove, newReference, shouldBackup, shouldCheckout))
        == ScanArgs(args, 0, NoArgs)
    {
      var arg := args[i];
      if arg == "--backup" {
        shouldBackup := true;
      } else if arg == "--checkout" {
        shouldCheckout := true;
      } else if arg == "--help" || arg == "-h" {
        return Help;
      } else if arg == "-b" || arg == "--branch" {
        if i + 1 >= |args| {
          return ArgError(arg + " requires a branch name");
        }
        i := i + 1;
        branchToMove := args[i];
      } else if arg == "-t" || arg == "--to" {
        if i + 1 >= |args| {
          return ArgError(arg + " requires a reference");
        }
        i := i + 1;
        newReference := args[i];
      } else {
        return ArgError("Unknown argument '" + arg + "'");
      }
      i := i + 1;
    }
    if branchToMove == "" {
      return ArgError(BranchRequired);
    }
    return Parsed(MoveArgs(branchToMove, newReference, shouldBackup, shouldCheckout));
  }

  /** The branch the loop ends with is the one it started with unless a `-b`
      was read. */
  lemma {:induction false} ScanKeepsBranch(args: seq<string>, i: nat, a: MoveArgs)
    requires i <= |args|
    requires forall k :: i <= k < |args| ==> args[k] != "-b" && args[k] != "--branch"
    ensures ScanArgs(args, i, a).Parsed? ==> ScanArgs(args, i, a).args.branch == a.branch
    decreases |args| - i
  {
    if i < |args| {
      var arg := args[i];
      if arg == "--backup" {
        ScanKeepsBranch(args, i + 1, a.(backup := true));
      } else if arg == "--checkout" {
        ScanKeepsBranch(args, i + 1, a.(checkout := true));
      } else if (arg == "-t" || arg == "--to") && i + 1 < |args| {
        ScanKeepsBranch(args, i + 2, a.(target := args[i + 1]));
      }
    }
  }

  /** Without `-b` or `--branch` nothing is accepted. */
  lemma BranchFlagRequired(args: seq<string>)
    requires "-b" !in args && "--branch" !in args
    ensures !ParseMoveArgs(args).Parsed?
  {
    ScanKeepsBranch(args, 0, NoArgs);
  }

  /** `-b` and `-t` need a value. */
  lemma ValueFlagsNeedValue(b: string)
    ensures ParseMoveArgs(["-b"]) == ArgError("-b" + " requires a branch name")
    ensures ParseMoveArgs(["-b", b, "--to"]) == ArgError("--to" + " requires a reference")
  {
    var args := ["-b", b, "--to"];
    assert ScanArgs(args, 0, NoArgs) == ScanArgs(args, 2, NoArgs.(branch := b));
    assert ScanArgs(args, 2, NoArgs.(branch := b)) == ArgError("--to" + " requires a reference");
  }

  /** The last `-b` wins. */
  lemma LastBranchWins(b: string, c: string)
    requires c != ""
    ensures ParseMoveArgs(["-b", b, "-b", c]) == Parsed(NoArgs.(branch := c))
  {
    var args := ["-b", b, "-b", c];
    assert ScanArgs(args, 0, NoArgs) == ScanArgs(args, 2, NoArgs.(branch := b));
    assert ScanArgs(args, 2, NoArgs.(branch := b)) == ScanArgs(args, 4, NoArgs.(branch := c));
  }

  /** Any other word is refused. */
  lemma UnknownArgumentRejected(arg: string)
    requires arg !in {"--backup", "--checkout", "--help", "-h", "-b", "--branch", "-t", "--to"}
    ensures ParseMoveArgs([arg]) == ArgError("Unknown argument '" + arg + "'")
  {
  }

  /** `min` */
  function Min(a: int, b: int): (m: int)
    ensures m <= a && m <= b
    ensures m == a || m == b
  {
    if a < b then a else b
  }

  /** `commit[:min(8, len(commit))]`: at most the first eight characters, and
      never beyond the end. */
  function Short(commit: string): (r: string)
    ensures |r| == Min(8, |commit|)
    ensures r == commit[..|r|]
  {
    commit[..Min(8, |commit|)]
  }

  /** Where HEAD is, the local branches, and the references backed up by
      `git-backup`, oldest first. */
  datatype MoveRepo = MoveRepo(head: Reparent.Head, branches: map<string, string>, backups: seq<string>)

  /** The answers of git the model does not interpret: `git rev-parse --verify`,
      `git rev-parse`, `git-backup <ref>`, the detached checkout, `git branch -f`
      and the checkout of the branch. `landing(h, ref)` is the commit
      `git branch -f <branch> <ref>` sets the branch to: git resolves `ref`
      again, against HEAD as it is at `h`, so a reference relative to HEAD
      such as `HEAD~1` may name another commit than `revParse` gave before
      the detached checkout. */
  datatype MoveEnv = MoveEnv(
    refExists: string -> bool,
    revParse: string -> Result<string>,
    backup: string -> Status,
    checkoutCommit: Status,
    move: Status,
    checkoutBranch: Status,
    landing: (Reparent.Head, string) -> string)

  /** The lines of the move summary. */
  datatype Summary = Summary(branch: string, fromCommit: string, toCommit: string, reference: string, backedUp: bool, checkedOut: bool)

  /** The usage with exit 0, an error with exit 1, or the branch moved, with the
      warning printed when the checkout after the move failed. */
  datatype MoveOutcome = ShowUsage | Failed(msg: string) | Moved(summary: Summary, warning: Option<string>)

  /** The checks before anything changes: the branch and the target exist, and
      the target defaults to `HEAD` (git-move-branch.go:57-74). */
  function Reference(a: MoveArgs, env: MoveEnv): Result<string> {
    if !env.refExists(a.branch) then Err("Branch '" + a.branch + "' does not exist.")
    else if a.target != "" && !env.refExists(a.target) then Err("Git reference '" + a.target + "' does not exist.")
    else if a.target != "" then Ok(a.target)
    else Ok("HEAD")
  }

  /** `git-backup <branch>` when asked for. */
  function BackupStep(s: MoveRepo, a: MoveArgs, env: MoveEnv): (MoveRepo, Status) {
    if !a.backup then (s, Done)
    else
      var st := env.backup(a.branch);
      if st.Fail? then (s, Fail("Failed to create backup: " + st.err))
      else (s.(backups := s.backups + [a.branch]), Done)
  }

  /** Whether `git branch --show-current` names the branch. */
  predicate IsCurrent(s: MoveRepo, branch: string) {
    CurrentBranch(Ok(Reparent.ShowCurrent(s.head))) == Ok(branch)
  }

  /** Where HEAD is when `git branch -f` runs: detached at the target commit
      when the branch was the current one, unchanged otherwise. */
  function HeadAtMove(s: MoveRepo, branch: string, newCommit: string): Reparent.Head {
    if IsCurrent(s, branch) then Reparent.Detached(newCommit) else s.head
  }

  /** From the detached checkout on (git-move-branch.go:104-131): the branch
      checked out is first left for the target commit, the branch is moved, and
      it is checked out when asked for or when it was current. */
  function MoveSteps(s: MoveRepo, a: MoveArgs, reference: string, oldCommit: string, newCommit: string, env: MoveEnv): (MoveRepo, MoveOutcome) {
    var current := IsCurrent(s, a.branch);
    if current && env.checkoutCommit.Fail? then (s, Failed("Failed to checkout target commit: " + env.checkoutCommit.err))
    else
      var s1 := if current then s.(head := Reparent.Detached(newCommit)) else s;
      if env.move.Fail? then (s1, Failed("Failed to move branch: " + env.move.err))
      else
        var s2 := s1.(branches := s1.branches[a.branch := env.landing(s1.head, reference)]);
        var wanted := a.checkout || current;
        var summary := Summary(a.branch, Short(oldCommit), Short(newCommit), reference, a.backup, wanted);
        if !wanted then (s2, Moved(summary, None))
        else if env.checkoutBranch.Fail? then (s2, Moved(summary, Some("Failed to checkout branch after move: " + env.checkoutBranch.err)))
        else (s2.(head := Reparent.OnBranch(a.branch)), Moved(summary, None))
  }

  /** `main` after the repository check. */
  function MoveSpec(s: MoveRepo, args: seq<string>, env: MoveEnv): (MoveRepo, MoveOutcome) {
    var parsed := ParseMoveArgs(args);
    if parsed.Help? then (s, ShowUsage)
    else if parsed.ArgError? then (s, Failed(parsed.msg))
    else
      var a := parsed.args;
      var reference := Reference(a, env);
      if reference.Err? then (s, Failed(reference.msg))
      else
        var (s1, backedUp) := BackupStep(s, a, env);
        if backedUp.Fail? then (s1, Failed(backedUp.err))
        else
          var newCommit := env.revParse(reference.value);
          if newCommit.Err? then (s1, Failed("Could not get commit hash of new reference: " + newCommit.msg))
          else MoveSteps(s1, a, reference.value, OldCommit(a, env), newCommit.value, env)
  }

  /** The commit of the branch before the move, or `unknown` (git-move-branch.go:90-95). */
  function OldCommit(a: MoveArgs, env: MoveEnv): string {
    if env.revParse(a.branch).Ok? then env.revParse(a.branch).value else "unknown"
  }

  /** A move that happened passed every check, and the rest is `MoveSteps` on
      the state after the backup. */
  lemma MovedUnfold(s: MoveRepo, args: seq<string>, env: MoveEnv)
    requires MoveSpec(s, args, env).1.Moved?
    ensures ParseMoveArgs(args).Parsed?
    ensures var a := ParseMoveArgs(args).args;
      && Reference(a, env).Ok?
      && BackupStep(s, a, env).1.Done?
      && env.revParse(Reference(a, env).value).Ok?
      && MoveSpec(s, args, env)
         == MoveSteps(BackupStep(s, a, env).0, a, Reference(a, env).value, OldCommit(a, env), env.revParse(Reference(a, env).value).value, env)
  {
  }

  /** A backup that succeeded records the branch and changes nothing else. */
  lemma BackupStepDone(s: MoveRepo, a: MoveArgs, env: MoveEnv)
    requires BackupStep(s, a, env).1.Done?
    ensures BackupStep(s, a, env).0 == s.(backups := s.backups + (if a.backup then [a.branch] else []))
  {
  }

  /** Everything the steps after the checks do when they end in a move. */
  lemma MoveStepsMoves(s: MoveRepo, a: MoveArgs, reference: string, oldCommit: string, newCommit: string, env: MoveEnv)
    requires MoveSteps(s, a, reference, oldCommit, newCommit, env).1.Moved?
    ensures var r := MoveSteps(s, a, reference, oldCommit, newCommit, env).0;
      r.branches == s.branches[a.branch := env.landing(HeadAtMove(s, a.branch, newCommit), reference)] && r.backups == s.backups
    ensures var out := MoveSteps(s, a, reference, oldCommit, newCommit, env).1;
      && out.summary == Summary(a.branch, Short(oldCommit), Short(newCommit), reference, a.backup, a.checkout || IsCurrent(s, a.branch))
      && (out.warning.Some? <==> out.summary.checkedOut && env.checkoutBranch.Fail?)
    ensures var r := MoveSteps(s, a, reference, oldCommit, newCommit, env).0;
      var checkedOut := a.checkout || IsCurrent(s, a.branch);
      r.head == if checkedOut && env.checkoutBranch.Done? then Reparent.OnBranch(a.branch)
                else if IsCurrent(s, a.branch) then Reparent.Detached(newCommit)
                else s.head
  {
  }

  /** The facts about a move, stated on the original state. */
  lemma MovedFacts(s: MoveRepo, args: seq<string>, env: MoveEnv)
    requires MoveSpec(s, args, env).1.Moved?
    ensures ParseMoveArgs(args).Parsed?
    ensures var a := ParseMoveArgs(args).args;
      var reference := Reference(a, env).value;
      var newCommit := env.revParse(reference).value;
      var (r, out) := MoveSpec(s, args, env);
      && Reference(a, env).Ok? && env.revParse(reference).Ok?
      && r.branches == s.branches[a.branch := env.landing(HeadAtMove(s, a.branch, newCommit), reference)]
      && r.backups == s.backups + (if a.backup then [a.branch] else [])
      && out.summary == Summary(a.branch, Short(OldCommit(a, env)), Short(newCommit), reference, a.backup, a.checkout || IsCurrent(s, a.branch))
      && (out.warning.Some? <==> out.summary.checkedOut && env.checkoutBranch.Fail?)
      && r.head == if out.summary.checkedOut && env.checkoutBranch.Done? then Reparent.OnBranch(a.branch)
                   else if IsCurrent(s, a.branch) then Reparent.Detached(newCommit)
                   else s.head
  {
    MovedUnfold(s, args, env);
    var a := ParseMoveArgs(args).args;
    var reference := Reference(a, env).value;
    BackupStepDone(s, a, env);
    var s1 := BackupStep(s, a, env).0;
    assert IsCurrent(s1, a.branch) == IsCurrent(s, a.branch);
    assert HeadAtMove(s1, a.branch, env.revParse(reference).value) == HeadAtMove(s, a.branch, env.revParse(reference).value);
    MoveStepsMoves(s1, a, reference, OldCommit(a, env), env.revParse(reference).value, env);
  }

  /** A failed backup stops the run before any branch or HEAD changes. */
  lemma BackupFailureStopsBeforeMove(s: MoveRepo, args: seq<string>, env: MoveEnv)
    requires ParseMoveArgs(args).Parsed? && ParseMoveArgs(args).args.backup
    requires env.backup(ParseMoveArgs(args).args.branch).Fail?
    ensures MoveSpec(s, args, env).0 == s
    ensures MoveSpec(s, args, env).1.Failed?
  {
  }

  /** Only a branch and a target that exist are moved; with no `-t` the target
      is `HEAD`. */
  lemma MovedOnlyExisting(s: MoveRepo, args: seq<string>, env: MoveEnv)
    requires MoveSpec(s, args, env).1.Moved?
    ensures ParseMoveArgs(args).Parsed?
    ensures env.refExists(ParseMoveArgs(args).args.branch)
    ensures var a := ParseMoveArgs(args).args;
      MoveSpec(s, args, env).1.summary.reference == (if a.target == "" then "HEAD" else a.target)
    ensures var a := ParseMoveArgs(args).args;
      a.target != "" ==> env.refExists(a.target)
  {
    MovedFacts(s, args, env);
  }

  /** A moved branch points at the commit `git branch -f` resolves the
      reference to, with HEAD where the move finds it, and no other branch
      changes; it is the target commit of the summary whenever that resolution
      agrees with the one made before the detached checkout. One backup was
      taken exactly when asked for. */
  lemma MovedBranchPointsAtTarget(s: MoveRepo, args: seq<string>, env: MoveEnv)
    requires MoveSpec(s, args, env).1.Moved?
    ensures var a := ParseMoveArgs(args).args;
      var reference := MoveSpec(s, args, env).1.summary.reference;
      env.revParse(reference).Ok?
      && MoveSpec(s, args, env).0.branches
         == s.branches[a.branch := env.landing(HeadAtMove(s, a.branch, env.revParse(reference).value), reference)]
    ensures var a := ParseMoveArgs(args).args;
      var reference := MoveSpec(s, args, env).1.summary.reference;
      var newCommit := env.revParse(reference).value;
      env.landing(HeadAtMove(s, a.branch, newCommit), reference) == newCommit
      ==> MoveSpec(s, args, env).0.branches == s.branches[a.branch := newCommit]
    ensures var a := ParseMoveArgs(args).args;
      MoveSpec(s, args, env).0.backups == s.backups + (if a.backup then [a.branch] else [])
  {
    MovedFacts(s, args, env);
  }

  /** The arguments `-b topic -t HEAD~1`. */
  lemma ParseTopicParent()
    ensures ParseMoveArgs(["-b", "topic", "-t", "HEAD~1"]) == Parsed(MoveArgs("topic", "HEAD~1", false, false))
  {
    var args := ["-b", "topic", "-t", "HEAD~1"];
    assert ScanArgs(args, 0, NoArgs) == ScanArgs(args, 2, NoArgs.(branch := "topic"));
    assert ScanArgs(args, 2, NoArgs.(branch := "topic")) == ScanArgs(args, 4, MoveArgs("topic", "HEAD~1", false, false));
  }

  /** Moving the branch checked out to `HEAD~1`: `rev-parse` names the parent
      `p` of the current commit, HEAD is detached at `p`, and `git branch -f`
      then resolves `HEAD~1` to the parent `g` of `p`. The summary shows `p`
      while the branch lands on `g`. */
  lemma RelativeTargetResolvedTwice(s: MoveRepo, env: MoveEnv, p: string, g: string)
    requires s.head == Reparent.OnBranch("topic")
    requires |p| == 8 && p != g
    requires env.refExists("topic") && env.refExists("HEAD~1")
    requires env.revParse("HEAD~1") == Ok(p)
    requires env.checkoutCommit.Done? && env.move.Done? && env.checkoutBranch.Done?
    requires env.landing(Reparent.Detached(p), "HEAD~1") == g
    ensures MoveSpec(s, ["-b", "topic", "-t", "HEAD~1"], env).1.Moved?
    ensures MoveSpec(s, ["-b", "topic", "-t", "HEAD~1"], env).1.summary.toCommit == p
    ensures MoveSpec(s, ["-b", "topic", "-t", "HEAD~1"], env).0.branches == s.branches["topic" := g]
    ensures MoveSpec(s, ["-b", "topic", "-t", "HEAD~1"], env).0.head == Reparent.OnBranch("topic")
  {
    var a := MoveArgs("topic", "HEAD~1", false, false);
    TopicParentChecks(s, env, p);
    TopicIsCurrent(s);
    assert HeadAtMove(s, "topic", p) == Reparent.Detached(p);
    MoveStepsMoves(s, a, "HEAD~1", OldCommit(a, env), p, env);
    assert Short(p) == p;
  }

  /** `topic` is the current branch when HEAD is on it. */
  lemma TopicIsCurrent(s: MoveRepo)
    requires s.head == Reparent.OnBranch("topic")
    ensures IsCurrent(s, "topic")
  {
    assert Reparent.CurrentBranchOf(s.head) == Ok("topic");
  }

  /** With both references known and no backup asked for, the run of
      `-b topic -t HEAD~1` comes down to the steps from the detached checkout. */
  lemma TopicParentChecks(s: MoveRepo, env: MoveEnv, p: string)
    requires env.refExists("topic") && env.refExists("HEAD~1")
    requires env.revParse("HEAD~1") == Ok(p)
    ensures var a := MoveArgs("topic", "HEAD~1", false, false);
      MoveSpec(s, ["-b", "topic", "-t", "HEAD~1"], env) == MoveSteps(s, a, "HEAD~1", OldCommit(a, env), p, env)
  {
    var a := MoveArgs("topic", "HEAD~1", false, false);
    ParseTopicParent();
    assert Reference(a, env) == Ok("HEAD~1");
    assert BackupStep(s, a, env) == (s, Done);
  }

  /** Moving the branch checked out first detaches HEAD at the target: when
      that checkout fails, no branch moves. */
  lemma CurrentBranchDetachesFirst(s: MoveRepo, args: seq<string>, env: MoveEnv)
    requires ParseMoveArgs(args).Parsed?
    requires IsCurrent(s, ParseMoveArgs(args).args.branch)
    requires env.checkoutCommit.Fail?
    ensures MoveSpec(s, args, env).0.branches == s.branches
    ensures MoveSpec(s, args, env).0.head == s.head
    ensures MoveSpec(s, args, env).1.Failed?
  {
    var a := ParseMoveArgs(args).args;
    if Reference(a, env).Ok? && BackupStep(s, a, env).1.Done? {
      BackupStepDone(s, a, env);
      var s1 := BackupStep(s, a, env).0;
      assert IsCurrent(s1, a.branch);
    }
  }

  /** After a move the branch is checked out when asked for or when it was
      current, unless that checkout failed, which is only a warning and leaves
      HEAD where the move left it. Otherwise HEAD does not move. */
  lemma CheckoutAfterMove(s: MoveRepo, args: seq<string>, env: MoveEnv)
    requires MoveSpec(s, args, env).1.Moved?
    ensures var a := ParseMoveArgs(args).args;
      var out := MoveSpec(s, args, env).1;
      out.summary.checkedOut == (a.checkout || IsCurrent(s, a.branch))
    ensures var a := ParseMoveArgs(args).args;
      var out := MoveSpec(s, args, env).1;
      out.summary.checkedOut && env.checkoutBranch.Done? ==> MoveSpec(s, args, env).0.head == Reparent.OnBranch(a.branch)
    ensures var out := MoveSpec(s, args, env).1;
      out.warning.Some? <==> out.summary.checkedOut && env.checkoutBranch.Fail?
    ensures var a := ParseMoveArgs(args).args;
      !a.checkout && !IsCurrent(s, a.branch) ==> MoveSpec(s, args, env).0.head == s.head
  {
    MovedFacts(s, args, env);
  }

  /** The branch checked out, moved, with the final checkout failing: HEAD is
      left detached at the target. */
  lemma CurrentLeftDetached(s: MoveRepo, args: seq<string>, env: MoveEnv)
    requires MoveSpec(s, args, env).1.Moved?
    requires IsCurrent(s, ParseMoveArgs(args).args.branch) && env.checkoutBranch.Fail?
    ensures var reference := MoveSpec(s, args, env).1.summary.reference;
      MoveSpec(s, args, env).0.head == Reparent.Detached(env.revParse(reference).value)
  {
    MovedFacts(s, args, env);
  }

  /** The summary shows at most eight characters of each commit, taken from its
      start; a commit that could not be read shows as `unknown`. */
  lemma SummaryCommits(s: MoveRepo, args: seq<string>, env: MoveEnv)
    requires MoveSpec(s, args, env).1.Moved?
    ensures var out := MoveSpec(s, args, env).1;
      |out.summary.fromCommit| <= 8 && |out.summary.toCommit| <= 8
    ensures var a := ParseMoveArgs(args).args;
      var out := MoveSpec(s, args, env).1;
      env.revParse(a.branch).Err? ==> out.summary.fromCommit == "unknown"
  {
    MovedFacts(s, args, env);
    var a := ParseMoveArgs(args).args;
    if env.revParse(a.branch).Err? {
      assert Short("unknown") == "unknown";
    }
  }

  /** The repository as the source changes it, one git command at a time. */
  class Repository {
    var head: Reparent.Head
    var branches: map<string, string>
    var backups: seq<string>

    function State(): MoveRepo
      reads this
    {
      MoveRepo(head, branches, backups)
    }

    constructor(s: MoveRepo)
      ensures State() == s
    {
      head := s.head;
      branches := s.branches;
      backups := s.backups;
    }

    /** `RunGitBackupWithRef` */
    method RunGitBackup(ref: string, env: MoveEnv) returns (st: Status)
      modifies this
      ensures st == env.backup(ref)
      ensures State() == if st.Done? then old(State()).(backups := old(backups) + [ref]) else old(State())
    {
      st := env.backup(ref);
      if st.Done? {
        backups := backups + [ref];
      }
    }

    /** `GetCurrentBranch`, compared with the branch to move. */
    method IsCurrentBranch(branch: string) returns (b: bool)
      ensures b == IsCurrent(State(), branch)
    {
      var currentBranch := CurrentBranch(Ok(Reparent.ShowCurrent(head)));
      b := currentBranch.Ok? && currentBranch.value == branch;
    }

    /** `CheckoutCommit` */
    method CheckoutCommit(commit: string, env: MoveEnv) returns (st: Status)
      modifies this
      ensures st == env.checkoutCommit
      ensures State() == if st.Done? then old(State()).(head := Reparent.Detached(commit)) else old(State())
    {
      st := env.checkoutCommit;
      if st.Done? {
        head := Reparent.Detached(commit);
      }
    }

    /** `MoveBranch`: `git branch -f <branch> <reference>`, which resolves the
        reference against the current HEAD. */
    method Move(branch: string, reference: string, env: MoveEnv) returns (st: Status)
      modifies this
      ensures st == env.move
      ensures State() == if st.Done? then old(State()).(branches := old(branches)[branch := env.landing(old(head), reference)]) else old(State())
    {
      st := env.move;
      if st.Done? {
        branches := branches[branch := env.landing(head, reference)];
      }
    }

    /** `CheckoutBranch` */
    method CheckoutBranch(branch: string, env: MoveEnv) returns (st: Status)
      modifies this
      ensures st == env.checkoutBranch
      ensures State() == if st.Done? then old(State()).(head := Reparent.OnBranch(branch)) else old(State())
    {
      st := env.checkoutBranch;
      if st.Done? {
        head := Reparent.OnBranch(branch);
      }
    }

    /** The detached checkout, the move and the final checkout. */
    method MoveAndCheckout(a: MoveArgs, reference: string, oldCommit: string, newCommit: string, env: MoveEnv) returns (out: MoveOutcome)
      modifies this
      ensures (State(), out) == MoveSteps(old(State()), a, reference, oldCommit, newCommit, env)
    {
      var isCurrentBranch := IsCurrentBranch(a.branch);
      if isCurrentBranch {
        var st := CheckoutCommit(newCommit, env);
        if st.Fail? {
          return Failed("Failed to checkout target commit: " + st.err);
        }
      }
      var st := Move(a.branch, reference, env);
      if st.Fail? {
        return Failed("Failed to move branch: " + st.err);
      }
      var warning: Option<string> := None;
      var wanted := a.checkout || isCurrentBranch;
      if wanted {
        st := CheckoutBranch(a.branch, env);
        if st.Fail? {
          warning := Some("Failed to checkout branch after move: " + st.err);
        }
      }
      return Moved(Summary(a.branch, Short(oldCommit), Short(newCommit), reference, a.backup, wanted), warning);
    }

    /** `main` */
    method Run(args: seq<string>, env: MoveEnv) returns (out: MoveOutcome)
      modifies this
      ensures (State(), out) == MoveSpec(old(State()), args, env)
    {
      var parsed := ParseArgs(args);
      if parsed.Help? {
        return ShowUsage;
      }
      if parsed.ArgError? {
        return Failed(parsed.msg);
      }
      var a := parsed.args;
      if !env.refExists(a.branch) {
        return Failed("Branch '" + a.branch + "' does not exist.");
      }
      var newReference := a.target;
      if newReference != "" {
        if !env.refExists(newReference) {
          return Failed("Git reference '" + newReference + "' does not exist.");
        }
      } else {
        newReference := "HEAD";
      }
      if a.backup {
        var st := RunGitBackup(a.branch, env);
        if st.Fail? {
          return Failed("Failed to create backup: " + st.err);
        }
      }
      var oldCommit := "unknown";
      var oldHash := env.revParse(a.branch);
      if oldHash.Ok? {
        oldCommit := oldHash.value;
      }
      var newCommit := env.revParse(newReference);
      if newCommit.Err? {
        return Failed("Could not get commit hash of new reference: " + newCommit.msg);
      }
      out := MoveAndCheckout(a, newReference, oldCommit, newCommit.value, env);
    }
  }
}
