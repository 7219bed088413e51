/**
  The resumable reparent state machine of `git reparent` (git-reparent.go:108-458),
  as functions from a repository snapshot and the answers of git to the new
  snapshot and the way the process ends. The class in `ReparentRepository` runs
  the same steps on mutable fields and is proved equal to these functions.
*/
module Reparent {
  import opened Results
  import opened Strings
  import opened GitOutput
  import opened ReparentArgs
  import opened ReparentStore

  datatype Head = Detached(commit: string) | OnBranch(name: string)

  /**
    What the tool reads and changes: where HEAD is, the local branches, whether a
    cherry-pick is stopped on a conflict (`CHERRY_PICK_HEAD`), the content of the
    state file `git-reparent-state` and of the marker file `REPARENT_HEAD`, and the
    number of backups taken.
  */
  datatype Repo = Repo(
    head: Head,
    branches: map<string, string>,
    cherryPicking: bool,
    stateFile: Option<string>,
    marker: Option<string>,
    backups: nat)

  /** A cherry-pick that succeeded (with the new commit), stopped on conflicts, or
      failed otherwise. */
  datatype PickResult = Picked(newCommit: string) | Conflicted | PickFailed(err: string)

  /**
    The answers of the commands a run makes, which the model does not interpret:
    `git status --porcelain`, `git rev-parse --verify`, `git-backup`,
    `git rev-parse <ref>`, `git rev-list --reverse <range>`, the confirmation typed
    at the prompt, the detached checkout, each cherry-pick, `git branch -f`, the
    branch checkout, `git cherry-pick --continue` (the commit it makes) and
    `git cherry-pick --abort`.
  */
  datatype Env = Env(
    status: Result<string>,
    refExists: string -> bool,
    backup: Status,
    revParse: string -> Result<string>,
    revList: string -> Result<string>,
    response: string,
    checkoutCommit: Status,
    pick: string -> PickResult,
    move: Status,
    checkoutBranch: Status,
    continuePick: Result<string>,
    abortPick: Status)

  /** How a handler returns: nil, nil after "cancelled", an error, a runtime panic,
      or the usage text with exit status 0. */
  datatype Outcome = Completed | Cancelled | Failed(msg: string) | Panicked | HelpShown

  /** The reason given when HEAD names no commit (a branch without commits). */
  const NoHead: string := "HEAD does not name a commit"

  /** `git rev-parse HEAD` */
  function HeadCommit(s: Repo): Option<string> {
    match s.head
    case Detached(c) => Some(c)
    case OnBranch(n) => if n in s.branches then Some(s.branches[n]) else None
  }

  /** A new commit moves a detached HEAD, or the branch HEAD is on. */
  function AdvanceHead(s: Repo, commit: string): (r: Repo)
    ensures HeadCommit(r) == Some(commit)
    ensures r.stateFile == s.stateFile && r.marker == s.marker && r.cherryPicking == s.cherryPicking && r.backups == s.backups
  {
    match s.head
    case Detached(_) => s.(head := Detached(commit))
    case OnBranch(n) => s.(branches := s.branches[n := commit])
  }

  /** What `git branch --show-current` prints. */
  function ShowCurrent(h: Head): string {
    match h
    case Detached(_) => ""
    case OnBranch(n) => n + "\n"
  }

  /** `createReparentHead`: the marker holds the HEAD commit. */
  function CreateMarker(s: Repo): (Repo, Status) {
    match HeadCommit(s)
    case None => (s, Fail(NoHead))
    case Some(h) => (s.(marker := Some(h + "\n")), Done)
  }

  /** `saveReparentState`: the file, then the marker. */
  function SaveSpec(s: Repo, commits: seq<string>, b: string, nb: bool): (Repo, Status) {
    CreateMarker(s.(stateFile := Some(StateText(commits, b, nb))))
  }

  const NoState: string := "no reparent in progress"

  /** `loadReparentState`: a missing file is the only error. */
  function LoadSpec(s: Repo): Result<ReparentState> {
    if s.stateFile.None? then Err(NoState) else Ok(ParseState(s.stateFile.value))
  }

  /** `updateReparentState`: rewrite with new commits and the header read back. */
  function UpdateSpec(s: Repo, remaining: seq<string>): (Repo, Status) {
    match LoadSpec(s)
    case Err(m) => (s, Fail(m))
    case Ok(st) => SaveSpec(s, remaining, st.originalBranch, st.noBranch)
  }

  /** `cleanupReparentState`: missing files are not errors. */
  function CleanupSpec(s: Repo): Repo {
    s.(stateFile := None, marker := None)
  }

  /** A commit the replay gets past: long enough for `commit[:8]`, and picked. */
  predicate Good(c: string, pick: string -> PickResult) {
    Utf8Len(c) >= 8 && pick(c).Picked?
  }

  /** `applyCherryPicks` from position `i`. */
  function ApplyFrom(s: Repo, commits: seq<string>, i: nat, pick: string -> PickResult): (Repo, Outcome)
    requires i <= |commits|
    decreases |commits| - i
  {
    if i == |commits| then (s, Completed)
    else
      var c := commits[i];
      if Utf8Len(c) < 8 then (s, Panicked)
      else
        match pick(c)
        case Picked(n) => ApplyFrom(AdvanceHead(s, n), commits, i + 1, pick)
        case PickFailed(e) => (s, Failed("cherry-pick failed: " + e))
        case Conflicted => StopOnConflict(s, commits[i + 1..])
  }

  /** A conflict: the cherry-pick stays in progress and the commits after the
      conflicting one are persisted. */
  function StopOnConflict(s: Repo, rest: seq<string>): (Repo, Outcome) {
    var (s1, st) := UpdateSpec(s.(cherryPicking := true), rest);
    if st.Fail? then (s1, Failed("failed to update reparent state: " + st.err))
    else (s1, Failed("cherry-pick conflicts require manual resolution"))
  }

  /** `finishReparent`: read HEAD, delete the state, then move and check out the
      branch unless `noBranch`. */
  function FinishSpec(s: Repo, b: string, nb: bool, env: Env): (Repo, Outcome) {
    match HeadCommit(s)
    case None => (s, Failed("failed to get new HEAD: " + NoHead))
    case Some(newHead) =>
      var s1 := CleanupSpec(s);
      if nb then (s1, Completed)
      else
        match env.move
        case Fail(e) => (s1, Failed("failed to move branch: " + e))
        case Done =>
          var s2 := s1.(branches := s1.branches[b := newHead]);
          match env.checkoutBranch
          case Fail(e) => (s2, Failed("failed to checkout branch: " + e))
          case Done => (s2.(head := OnBranch(b)), Completed)
  }

  /** `getCommitsToReparent`: the revision range handed to `git rev-list`. */
  function RevRange(o: Options): string {
    if o.fromRef != "" then o.fromRef + "..HEAD" else "HEAD~" + IntToString(o.numberOfCommits) + "..HEAD"
  }

  function CommitsToReparent(o: Options, env: Env): Result<seq<string>> {
    if o.fromRef != "" && !env.refExists(o.fromRef) then Err("from reference '" + o.fromRef + "' does not exist")
    else CommitRange(env.revList(RevRange(o)))
  }

  /** `strings.ToLower(r)` is `y` or `yes`; only ASCII letters lower to these. */
  predicate IsYes(response: string) {
    AsciiLower(response) == "y" || AsciiLower(response) == "yes"
  }

  /** Some text of the confirmation summary is cut with `[:8]` but is shorter. */
  predicate SummaryPanics(parentCommit: string, commits: seq<string>) {
    Utf8Len(parentCommit) < 8 || exists i :: 0 <= i < |commits| && Utf8Len(commits[i]) < 8
  }

  /** The branch `git branch --show-current` reports: the name HEAD is on, trimmed. */
  function CurrentBranchOf(h: Head): (r: Result<string>)
    ensures h.Detached? ==> r == Err(DetachedHead)
    ensures h.OnBranch? && h.name != [] && !IsSpace(h.name[0]) && !IsSpace(h.name[|h.name| - 1]) ==> r == Ok(h.name)
  {
    var out := ShowCurrent(h);
    if h.OnBranch? && h.name != [] && !IsSpace(h.name[0]) && !IsSpace(h.name[|h.name| - 1]) then
      TrimSpaceSurrounded("", h.name, "\n");
      assert "" + h.name + "\n" == out;
      CurrentBranch(Ok(out))
    else
      assert h.Detached? ==> AllSpace(out);
      CurrentBranch(Ok(out))
  }

  /** The snapshot after the backup step. */
  function AfterBackup(s: Repo, o: Options): Repo {
    if o.shouldBackup then s.(backups := s.backups + 1) else s
  }

  /** The checks of `runReparent` before anything is checked out: either a stop, or
      the parent commit, the branch to record and the commits to replay. */
  datatype Plan = Stop(s: Repo, outcome: Outcome) | Proceed(s: Repo, parentCommit: string, branch: string, commits: seq<string>)

  /** Clean tree, existing parent, then the backup. */
  function StartChecks(s: Repo, o: Options, env: Env): Plan {
    if HasUncommittedChanges(env.status) then Stop(s, Failed("there are uncommitted changes. Please commit or stash them first"))
    else if !env.refExists(o.parentRef) then Stop(s, Failed("parent reference '" + o.parentRef + "' does not exist"))
    else if o.shouldBackup && env.backup.Fail? then Stop(s, Failed("failed to create backup: " + env.backup.err))
    else ResolveStart(AfterBackup(s, o), o, env)
  }

  /** The parent commit, the current branch, then the commits. */
  function ResolveStart(s: Repo, o: Options, env: Env): Plan {
    var parent := env.revParse(o.parentRef);
    if parent.Err? then Stop(s, Failed("failed to get parent commit hash: " + parent.msg))
    else
      var branch := CurrentBranchOf(s.head);
      if branch.Err? then Stop(s, Failed("failed to get current branch: " + branch.msg))
      else
        match CommitsToReparent(o, env)
        case Err(m) => Stop(s, Failed("failed to get commits to reparent: " + m))
        case Ok(commits) =>
          if commits == [] then Stop(s, Failed("no commits to reparent"))
          else Confirm(s, o, env, TrimSpace(parent.value), branch.value, commits)
  }

  /** The optional confirmation. */
  function Confirm(s: Repo, o: Options, env: Env, parentCommit: string, branch: string, commits: seq<string>): Plan {
    if o.shouldConfirm && SummaryPanics(parentCommit, commits) then Stop(s, Panicked)
    else if o.shouldConfirm && !IsYes(env.response) then Stop(s, Cancelled)
    else Proceed(s, parentCommit, branch, commits)
  }

  /** What `runReparent` does once the checks have passed. */
  function Launch(p: Plan, noBranch: bool, env: Env): (Repo, Outcome) {
    match p
    case Stop(s1, out) => (s1, out)
    case Proceed(s1, parentCommit, branch, commits) =>
      if env.checkoutCommit.Fail? then (s1, Failed("failed to checkout parent commit: " + env.checkoutCommit.err))
      else
        var (s2, st) := SaveSpec(s1.(head := Detached(parentCommit)), commits, branch, noBranch);
        if st.Fail? then (s2, Failed("failed to save reparent state: " + st.err))
        else
          var (s3, out) := ApplyFrom(s2, commits, 0, env.pick);
          if out != Completed then (s3, out) else FinishSpec(s3, branch, noBranch, env)
  }

  /** `runReparent` */
  function StartSpec(s: Repo, o: Options, env: Env): (Repo, Outcome) {
    Launch(StartChecks(s, o, env), o.noBranch, env)
  }

  /** `handleContinue` */
  function ContinueSpec(s: Repo, env: Env): (Repo, Outcome) {
    if s.marker.None? then (s, Failed("No reparent in progress"))
    else
      match LoadSpec(s)
      case Err(m) => (s, Failed(m))
      case Ok(st) =>
        if s.cherryPicking && env.continuePick.Err? then (s, Failed("Failed to continue cherry-pick: " + env.continuePick.msg))
        else
          var s1 := if s.cherryPicking then AdvanceHead(s, env.continuePick.value).(cherryPicking := false) else s;
          var (s2, out) := ApplyFrom(s1, st.remainingCommits, 0, env.pick);
          if out != Completed then (s2, out) else FinishSpec(s2, st.originalBranch, st.noBranch, env)
  }

  /** `handleAbort`: a failed `cherry-pick --abort` is only a warning. */
  function AbortSpec(s: Repo, env: Env): (Repo, Outcome) {
    if s.marker.None? then (s, Failed("No reparent in progress"))
    else
      match LoadSpec(s)
      case Err(m) => (s, Failed(m))
      case Ok(st) =>
        var s1 := if s.cherryPicking && env.abortPick.Done? then s.(cherryPicking := false) else s;
        match env.checkoutBranch
        case Fail(e) => (s1, Failed("Failed to checkout original branch: " + e))
        case Done => (CleanupSpec(s1.(head := OnBranch(st.originalBranch))), Completed)
  }

  /** `main`: `--continue` and `--abort` count only as the first argument. */
  datatype Invocation = ContinueRun | AbortRun | StartRun(parse: ParseOutcome)

  function Dispatch(args: seq<string>): Invocation {
    if |args| > 0 && args[0] == "--continue" then ContinueRun
    else if |args| > 0 && args[0] == "--abort" then AbortRun
    else StartRun(Parse(args))
  }

  function RunSpec(s: Repo, args: seq<string>, env: Env): (Repo, Outcome) {
    match Dispatch(args)
    case ContinueRun => ContinueSpec(s, env)
    case AbortRun => AbortSpec(s, env)
    case StartRun(Help) => (s, HelpShown)
    case StartRun(ParseError(m)) => (s, Failed(m))
    case StartRun(Parsed(o)) => StartSpec(s, o, env)
  }

  // ---------------------------------------------------------------------------
  // The replay loop

  /** The first position from `i` on that the replay does not get past. */
  function FirstStop(commits: seq<string>, i: nat, pick: string -> PickResult): (k: nat)
    requires i <= |commits|
    ensures i <= k <= |commits|
    ensures forall j :: i <= j < k ==> Good(commits[j], pick)
    ensures k < |commits| ==> !Good(commits[k], pick)
    decreases |commits| - i
  {
    if i == |commits| || !Good(commits[i], pick) then i else FirstStop(commits, i + 1, pick)
  }

  /** The snapshot after picking `commits[i..k]`: only HEAD and the branches change. */
  function Advanced(s: Repo, commits: seq<string>, i: nat, k: nat, pick: string -> PickResult): (r: Repo)
    requires i <= k <= |commits|
    requires forall j :: i <= j < k ==> Good(commits[j], pick)
    ensures r.stateFile == s.stateFile && r.marker == s.marker && r.cherryPicking == s.cherryPicking && r.backups == s.backups
    ensures i < k ==> pick(commits[k - 1]).Picked? && HeadCommit(r) == Some(pick(commits[k - 1]).newCommit)
    decreases k - i
  {
    if i == k then s
    else
      assert Good(commits[i], pick);
      Advanced(AdvanceHead(s, pick(commits[i]).newCommit), commits, i + 1, k, pick)
  }

  lemma {:induction false} ApplyAdvance(s: Repo, commits: seq<string>, i: nat, k: nat, pick: string -> PickResult)
    requires i <= k <= |commits|
    requires forall j :: i <= j < k ==> Good(commits[j], pick)
    ensures ApplyFrom(s, commits, i, pick) == ApplyFrom(Advanced(s, commits, i, k, pick), commits, k, pick)
    decreases k - i
  {
    if i < k {
      assert Good(commits[i], pick);
      ApplyAdvance(AdvanceHead(s, pick(commits[i]).newCommit), commits, i + 1, k, pick);
    }
  }

  /** Every commit picked: nil, and only HEAD and the branches moved. */
  lemma ApplyAllPicked(s: Repo, commits: seq<string>, pick: string -> PickResult)
    requires forall j :: 0 <= j < |commits| ==> Good(commits[j], pick)
    ensures ApplyFrom(s, commits, 0, pick) == (Advanced(s, commits, 0, |commits|, pick), Completed)
  {
    ApplyAdvance(s, commits, 0, |commits|, pick);
  }

  /** The commits before `k` picked, `commits[k]` shorter than 8 bytes: a panic
      before its pick, nothing persisted. */
  lemma ApplyPanicsOnShortCommit(s: Repo, commits: seq<string>, k: nat, pick: string -> PickResult)
    requires k < |commits| && forall j :: 0 <= j < k ==> Good(commits[j], pick)
    requires Utf8Len(commits[k]) < 8
    ensures ApplyFrom(s, commits, 0, pick) == (Advanced(s, commits, 0, k, pick), Panicked)
  {
    ApplyAdvance(s, commits, 0, k, pick);
  }

  /** A pick failing without conflicts: an error, and the state file and marker
      are untouched. */
  lemma ApplyFailureKeepsState(s: Repo, commits: seq<string>, k: nat, pick: string -> PickResult)
    requires k < |commits| && forall j :: 0 <= j < k ==> Good(commits[j], pick)
    requires Utf8Len(commits[k]) >= 8 && pick(commits[k]).PickFailed?
    ensures ApplyFrom(s, commits, 0, pick) == (Advanced(s, commits, 0, k, pick), Failed("cherry-pick failed: " + pick(commits[k]).err))
  {
    ApplyAdvance(s, commits, 0, k, pick);
  }

  /** A conflict on `commits[k]` persists exactly `commits[k+1..]`, under the header
      read back from the file, marks the cherry-pick as stopped, and returns an error. */
  lemma ApplyConflictPersistsRest(s: Repo, commits: seq<string>, k: nat, pick: string -> PickResult)
    requires k < |commits| && forall j :: 0 <= j < k ==> Good(commits[j], pick)
    requires Utf8Len(commits[k]) >= 8 && pick(commits[k]).Conflicted?
    requires s.stateFile.Some?
    ensures var p := Advanced(s, commits, 0, k, pick);
      var st := ParseState(s.stateFile.value);
      var (r, out) := ApplyFrom(s, commits, 0, pick);
      && r.stateFile == Some(StateText(commits[k + 1..], st.originalBranch, st.noBranch))
      && r.cherryPicking && out.Failed?
      && (HeadCommit(p).Some? ==>
            && out == Failed("cherry-pick conflicts require manual resolution")
            && r.marker == Some(HeadCommit(p).value + "\n"))
  {
    ApplyAdvance(s, commits, 0, k, pick);
    var p := Advanced(s, commits, 0, k, pick);
    var st := ParseState(s.stateFile.value);
    var q := p.(cherryPicking := true);
    assert LoadSpec(q) == Ok(st);
    var written := q.(stateFile := Some(StateText(commits[k + 1..], st.originalBranch, st.noBranch)));
    assert UpdateSpec(q, commits[k + 1..]) == CreateMarker(written);
    assert HeadCommit(written) == HeadCommit(p);
    var (s1, status) := CreateMarker(written);
    assert ApplyFrom(p, commits, k, pick) ==
      (s1, if status.Fail? then Failed("failed to update reparent state: " + status.err) else Failed("cherry-pick conflicts require manual resolution"));
  }

  /** A conflict with no state file: the update fails and nothing is written. */
  lemma ApplyConflictWithoutFile(s: Repo, commits: seq<string>, k: nat, pick: string -> PickResult)
    requires k < |commits| && forall j :: 0 <= j < k ==> Good(commits[j], pick)
    requires Utf8Len(commits[k]) >= 8 && pick(commits[k]).Conflicted?
    requires s.stateFile.None?
    ensures ApplyFrom(s, commits, 0, pick) ==
      (Advanced(s, commits, 0, k, pick).(cherryPicking := true), Failed("failed to update reparent state: " + NoState))
  {
    ApplyAdvance(s, commits, 0, k, pick);
  }

  /** The replay of clean commits keeps the state file a suffix of the list it
      replays, under the same header. */
  lemma ApplyKeepsSuffix(s: Repo, commits: seq<string>, b: string, nb: bool, pick: string -> PickResult)
    requires s.stateFile == Some(StateText(commits, b, nb))
    requires AllClean(commits) && '\n' !in b
    ensures var r := ApplyFrom(s, commits, 0, pick).0;
      exists j :: 0 <= j <= |commits| && r.stateFile == Some(StateText(commits[j..], b, nb))
  {
    LoadSave(commits, b, nb);
    var k := FirstStop(commits, 0, pick);
    var r := ApplyFrom(s, commits, 0, pick).0;
    assert commits[0..] == commits;
    if k == |commits| {
      ApplyAllPicked(s, commits, pick);
      assert r.stateFile == Some(StateText(commits[0..], b, nb));
    } else if Utf8Len(commits[k]) < 8 {
      ApplyPanicsOnShortCommit(s, commits, k, pick);
      assert r.stateFile == Some(StateText(commits[0..], b, nb));
    } else if pick(commits[k]).PickFailed? {
      ApplyFailureKeepsState(s, commits, k, pick);
      assert r.stateFile == Some(StateText(commits[0..], b, nb));
    } else {
      ApplyConflictPersistsRest(s, commits, k, pick);
      assert r.stateFile == Some(StateText(commits[k + 1..], b, nb));
    }
  }

  // ---------------------------------------------------------------------------
  // Start

  /** A dirty tree is the first thing checked: nothing changes. */
  lemma StartRejectsDirtyTree(s: Repo, o: Options, env: Env)
    requires HasUncommittedChanges(env.status)
    ensures StartSpec(s, o, env) == (s, Failed("there are uncommitted changes. Please commit or stash them first"))
  {
  }

  /** A missing parent is checked next: nothing changes. */
  lemma StartRejectsMissingParent(s: Repo, o: Options, env: Env)
    requires !HasUncommittedChanges(env.status) && !env.refExists(o.parentRef)
    ensures StartSpec(s, o, env) == (s, Failed("parent reference '" + o.parentRef + "' does not exist"))
  {
  }

  /** A detached HEAD is found after the backup: only the backup remains. */
  lemma StartRejectsDetachedHead(s: Repo, o: Options, env: Env)
    requires !HasUncommittedChanges(env.status) && env.refExists(o.parentRef)
    requires o.shouldBackup ==> env.backup.Done?
    requires env.revParse(o.parentRef).Ok? && s.head.Detached?
    ensures StartSpec(s, o, env) == (AfterBackup(s, o), Failed("failed to get current branch: " + DetachedHead))
  {
    assert CurrentBranchOf(AfterBackup(s, o).head) == Err(DetachedHead);
    assert StartChecks(s, o, env) == ResolveStart(AfterBackup(s, o), o, env);
  }

  /** An empty range is an error, found before anything is checked out. */
  lemma StartRejectsEmptyRange(s: Repo, o: Options, env: Env)
    requires !HasUncommittedChanges(env.status) && env.refExists(o.parentRef)
    requires o.shouldBackup ==> env.backup.Done?
    requires env.revParse(o.parentRef).Ok? && CurrentBranchOf(s.head).Ok?
    requires CommitsToReparent(o, env) == Ok([])
    ensures StartSpec(s, o, env) == (AfterBackup(s, o), Failed("no commits to reparent"))
  {
    assert StartChecks(s, o, env) == ResolveStart(AfterBackup(s, o), o, env);
  }

  /** Past the first three checks, the plan is resolved on the snapshot after the backup. */
  lemma ChecksPassed(s: Repo, o: Options, env: Env)
    requires !HasUncommittedChanges(env.status) && env.refExists(o.parentRef)
    requires o.shouldBackup ==> env.backup.Done?
    ensures StartChecks(s, o, env) == ResolveStart(AfterBackup(s, o), o, env)
  {
  }

  /** The checks change nothing but the backup count. */
  lemma {:induction false} ChecksChangeOnlyBackups(s: Repo, o: Options, env: Env)
    ensures StartChecks(s, o, env).s == s || StartChecks(s, o, env).s == AfterBackup(s, o)
  {
    ResolveKeeps(AfterBackup(s, o), o, env);
  }

  /** Resolving the plan changes nothing. */
  lemma ResolveKeeps(s: Repo, o: Options, env: Env)
    ensures ResolveStart(s, o, env).s == s
  {
    var parent := env.revParse(o.parentRef);
    var branch := CurrentBranchOf(s.head);
    if parent.Ok? && branch.Ok? && CommitsToReparent(o, env).Ok? && CommitsToReparent(o, env).value != [] {
      var commits := CommitsToReparent(o, env).value;
      assert ResolveStart(s, o, env) == Confirm(s, o, env, TrimSpace(parent.value), branch.value, commits);
    }
  }

  /** What a resolved plan that proceeds holds. */
  lemma ResolveProceeds(s: Repo, o: Options, env: Env)
    requires ResolveStart(s, o, env).Proceed?
    ensures var p := ResolveStart(s, o, env);
      && p.s == s
      && CurrentBranchOf(s.head) == Ok(p.branch)
      && CommitsToReparent(o, env) == Ok(p.commits) && p.commits != []
      && env.revParse(o.parentRef).Ok? && p.parentCommit == TrimSpace(env.revParse(o.parentRef).value)
  {
    var parent := env.revParse(o.parentRef);
    var branch := CurrentBranchOf(s.head);
    assert parent.Ok? && branch.Ok? && CommitsToReparent(o, env).Ok?;
    var commits := CommitsToReparent(o, env).value;
    assert ResolveStart(s, o, env) == Confirm(s, o, env, TrimSpace(parent.value), branch.value, commits);
  }

  /** HEAD, the branches, the cherry-pick, the state file and the marker change only
      once the checks have passed and the parent is checked out. */
  lemma StartTouchesNothingBeforeCheckout(s: Repo, o: Options, env: Env)
    ensures var r := StartSpec(s, o, env).0;
      (r.head != s.head || r.branches != s.branches || r.stateFile != s.stateFile || r.marker != s.marker
        || r.cherryPicking != s.cherryPicking)
      ==> StartChecks(s, o, env).Proceed? && env.checkoutCommit.Done?
  {
    ChecksChangeOnlyBackups(s, o, env);
  }

  /** A plan that proceeds records the branch HEAD is on and replays what
      `git rev-list` listed, which is never empty. */
  lemma StartProceedsWith(s: Repo, o: Options, env: Env)
    requires StartChecks(s, o, env).Proceed?
    ensures var p := StartChecks(s, o, env);
      && p.s == AfterBackup(s, o)
      && CurrentBranchOf(s.head) == Ok(p.branch)
      && CommitsToReparent(o, env) == Ok(p.commits) && p.commits != []
      && env.revParse(o.parentRef).Ok? && p.parentCommit == TrimSpace(env.revParse(o.parentRef).value)
  {
    assert StartChecks(s, o, env) == ResolveStart(AfterBackup(s, o), o, env);
    ResolveProceeds(AfterBackup(s, o), o, env);
    assert AfterBackup(s, o).head == s.head;
  }

  /** After the detached checkout of the parent, the full plan is saved and the
      marker holds the parent commit before the first pick: a conflict on the first
      commit leaves the rest of the plan in the file. */
  lemma LaunchSavesPlanBeforeReplay(p: Plan, nb: bool, env: Env)
    requires p.Proceed? && env.checkoutCommit.Done? && p.commits != []
    requires AllClean(p.commits) && '\n' !in p.branch
    requires Utf8Len(p.commits[0]) >= 8 && env.pick(p.commits[0]).Conflicted?
    ensures var (r, out) := Launch(p, nb, env);
      && r.head == Detached(p.parentCommit)
      && r.stateFile == Some(StateText(p.commits[1..], p.branch, nb))
      && r.marker == Some(p.parentCommit + "\n")
      && r.cherryPicking
      && out == Failed("cherry-pick conflicts require manual resolution")
  {
    LoadSave(p.commits, p.branch, nb);
  }

  /** After start, the state file is gone (finished) or holds a suffix of the plan
      with the recorded branch and switch. */
  lemma LaunchLeavesSuffix(p: Plan, nb: bool, env: Env)
    requires p.Proceed? && env.checkoutCommit.Done?
    requires AllClean(p.commits) && '\n' !in p.branch
    ensures var r := Launch(p, nb, env).0;
      r.stateFile.None? || exists j :: 0 <= j <= |p.commits| && r.stateFile == Some(StateText(p.commits[j..], p.branch, nb))
  {
    var s2 := SaveSpec(p.s.(head := Detached(p.parentCommit)), p.commits, p.branch, nb).0;
    ApplyKeepsSuffix(s2, p.commits, p.branch, nb, env.pick);
  }

  // ---------------------------------------------------------------------------
  // Finish

  /** The state file and the marker are deleted first, whatever the move does. */
  lemma FinishClearsStateFirst(s: Repo, b: string, nb: bool, env: Env)
    requires HeadCommit(s).Some?
    ensures FinishSpec(s, b, nb, env).0.stateFile == None && FinishSpec(s, b, nb, env).0.marker == None
  {
  }

  /** Without `noBranch` the branch is moved to the HEAD read on entry and checked out. */
  lemma FinishMovesBranch(s: Repo, b: string, env: Env)
    requires HeadCommit(s).Some? && env.move.Done?
    ensures var (r, out) := FinishSpec(s, b, false, env);
      && r.branches == s.branches[b := HeadCommit(s).value]
      && (env.checkoutBranch.Done? ==> r.head == OnBranch(b) && out == Completed)
      && (env.checkoutBranch.Fail? ==> r.head == s.head && out == Failed("failed to checkout branch: " + env.checkoutBranch.err))
  {
  }

  /** With `noBranch` HEAD stays detached where the replay left it. */
  lemma FinishLeavesDetached(s: Repo, b: string, env: Env)
    requires HeadCommit(s).Some?
    ensures FinishSpec(s, b, true, env) == (CleanupSpec(s), Completed)
  {
  }

  /** A failed move after the state was deleted cannot be resumed or aborted. */
  lemma FailedMoveCannotResume(s: Repo, b: string, env: Env, later: Env)
    requires HeadCommit(s).Some? && env.move.Fail?
    ensures var (r, out) := FinishSpec(s, b, false, env);
      && out == Failed("failed to move branch: " + env.move.err)
      && ContinueSpec(r, later) == (r, Failed("No reparent in progress"))
      && AbortSpec(r, later) == (r, Failed("No reparent in progress"))
  {
  }

  // ---------------------------------------------------------------------------
  // Continue and abort

  lemma ContinueNeedsMarker(s: Repo, env: Env)
    requires s.marker.None?
    ensures ContinueSpec(s, env) == (s, Failed("No reparent in progress"))
  {
  }

  /** A pending cherry-pick is finished first; if that fails nothing is replayed. */
  lemma ContinueFinishesPendingPickFirst(s: Repo, env: Env)
    requires s.marker.Some? && s.stateFile.Some? && s.cherryPicking
    ensures env.continuePick.Err? ==> ContinueSpec(s, env) == (s, Failed("Failed to continue cherry-pick: " + env.continuePick.msg))
    ensures env.continuePick.Ok? ==>
      var st := ParseState(s.stateFile.value);
      var s1 := AdvanceHead(s, env.continuePick.value).(cherryPicking := false);
      var (s2, out) := ApplyFrom(s1, st.remainingCommits, 0, env.pick);
      ContinueSpec(s, env) == if out != Completed then (s2, out) else FinishSpec(s2, st.originalBranch, st.noBranch, env)
  {
  }

  /** Nothing left to replay: straight to finish. */
  lemma ContinueEmptyGoesToFinish(s: Repo, env: Env)
    requires s.marker.Some? && s.stateFile.Some? && !s.cherryPicking
    requires ParseState(s.stateFile.value).remainingCommits == []
    ensures var st := ParseState(s.stateFile.value);
      ContinueSpec(s, env) == FinishSpec(s, st.originalBranch, st.noBranch, env)
  {
  }

  /** The state file holds `plan[k..]` with branch `b` and switch `nb`. */
  predicate SuspendedAt(s: Repo, plan: seq<string>, k: nat, b: string, nb: bool) {
    k <= |plan| && s.stateFile == Some(StateText(plan[k..], b, nb))
  }

  /** Finishing deletes the state file or, when HEAD cannot be read, keeps it. */
  lemma FinishKeepsOrDeletes(s: Repo, b: string, nb: bool, env: Env)
    ensures var r := FinishSpec(s, b, nb, env).0;
      r.stateFile.None? || r.stateFile == s.stateFile
  {
  }

  /** A continue keeps the file a suffix of the same plan with the same header, or
      deletes it. */
  lemma ContinueKeepsSuffix(s: Repo, plan: seq<string>, k: nat, b: string, nb: bool, env: Env)
    requires SuspendedAt(s, plan, k, b, nb) && AllClean(plan) && '\n' !in b
    ensures var r := ContinueSpec(s, env).0;
      r.stateFile.None? || exists k' :: k <= k' <= |plan| && SuspendedAt(r, plan, k', b, nb)
  {
    var rest := plan[k..];
    assert AllClean(rest) by {
      forall i | 0 <= i < |rest| ensures CleanCommit(rest[i]) { assert rest[i] == plan[k + i]; }
    }
    LoadSave(rest, b, nb);
    if s.marker.Some? && !(s.cherryPicking && env.continuePick.Err?) {
      assert LoadSpec(s) == Ok(ReparentState(rest, b, nb));
      var s1 := if s.cherryPicking then AdvanceHead(s, env.continuePick.value).(cherryPicking := false) else s;
      assert s1.stateFile == s.stateFile;
      ApplyKeepsSuffix(s1, rest, b, nb, env.pick);
      var (r2, out) := ApplyFrom(s1, rest, 0, env.pick);
      assert ContinueSpec(s, env).0 == if out != Completed then r2 else FinishSpec(r2, b, nb, env).0;
      FinishKeepsOrDeletes(r2, b, nb, env);
      var j :| 0 <= j <= |rest| && r2.stateFile == Some(StateText(rest[j..], b, nb));
      assert rest[j..] == plan[k + j..];
      var r := ContinueSpec(s, env).0;
      if r.stateFile.Some? {
        assert r.stateFile == r2.stateFile;
        assert SuspendedAt(r, plan, k + j, b, nb);
      }
    } else {
      assert ContinueSpec(s, env).0 == s;
      assert SuspendedAt(s, plan, k, b, nb);
    }
  }

  /** Continue never creates a state file. */
  lemma ContinueWithoutFile(s: Repo, env: Env)
    requires s.stateFile.None?
    ensures ContinueSpec(s, env).0.stateFile.None?
  {
  }

  /** The snapshot after a series of `--continue` runs. */
  function Continues(s: Repo, envs: seq<Env>): Repo
    decreases |envs|
  {
    if envs == [] then s else Continues(ContinueSpec(s, envs[0]).0, envs[1..])
  }

  /** Across any number of suspends and continues, the persisted list is a suffix of
      the original plan, under the original branch and switch. */
  lemma {:induction false} ContinuesKeepSuffix(s: Repo, plan: seq<string>, k: nat, b: string, nb: bool, envs: seq<Env>)
    requires SuspendedAt(s, plan, k, b, nb) && AllClean(plan) && '\n' !in b
    ensures var r := Continues(s, envs);
      r.stateFile.None? || exists k' :: k <= k' <= |plan| && SuspendedAt(r, plan, k', b, nb)
    decreases |envs|
  {
    if envs != [] {
      var s1 := ContinueSpec(s, envs[0]).0;
      ContinueKeepsSuffix(s, plan, k, b, nb, envs[0]);
      if s1.stateFile.None? {
        NoFileStaysNone(s1, envs[1..]);
      } else {
        var k' :| k <= k' <= |plan| && SuspendedAt(s1, plan, k', b, nb);
        ContinuesKeepSuffix(s1, plan, k', b, nb, envs[1..]);
      }
    }
  }

  lemma {:induction false} NoFileStaysNone(s: Repo, envs: seq<Env>)
    requires s.stateFile.None?
    ensures Continues(s, envs).stateFile.None?
    decreases |envs|
  {
    if envs != [] {
      ContinueWithoutFile(s, envs[0]);
      NoFileStaysNone(ContinueSpec(s, envs[0]).0, envs[1..]);
    }
  }

  lemma AbortNeedsMarker(s: Repo, env: Env)
    requires s.marker.None?
    ensures AbortSpec(s, env) == (s, Failed("No reparent in progress"))
  {
  }

  /** A failed `cherry-pick --abort` does not stop the abort. */
  lemma AbortPickFailureOnlyWarns(s: Repo, env: Env)
    requires s.marker.Some? && s.stateFile.Some? && s.cherryPicking
    requires env.abortPick.Fail? && env.checkoutBranch.Done?
    ensures var (r, out) := AbortSpec(s, env);
      && out == Completed && r.stateFile.None? && r.marker.None?
      && r.head == OnBranch(ParseState(s.stateFile.value).originalBranch)
  {
  }

  /** The state is deleted only after the original branch is checked out. */
  lemma AbortKeepsStateOnCheckoutFailure(s: Repo, env: Env)
    requires s.marker.Some? && s.stateFile.Some? && env.checkoutBranch.Fail?
    ensures var (r, out) := AbortSpec(s, env);
      && out == Failed("Failed to checkout original branch: " + env.checkoutBranch.err)
      && r.stateFile == s.stateFile && r.marker == s.marker && r.head == s.head
  {
  }

  /** Cleaning up twice is cleaning up once. */
  lemma CleanupIdempotent(s: Repo)
    ensures CleanupSpec(CleanupSpec(s)) == CleanupSpec(s)
  {
  }

  /** `--continue` anywhere but first is an unknown option. */
  lemma ContinueOnlyFirst(parent: string)
    ensures Dispatch(["-p", parent, "--continue"]) == StartRun(ParseError("unknown option: --continue"))
  {
    var args := ["-p", parent, "--continue"];
    assert Scan(args, 0, Defaults) == Scan(args, 2, Defaults.(parentRef := parent));
  }
}
