/**
  The reparent handlers as the source writes them: methods that update the
  repository's fields step by step, each proved to end in the snapshot and outcome
  its function in `Reparent` gives.
*/
module ReparentRepository {
  import opened Results
  import opened Strings
  import opened GitOutput
  import opened ReparentArgs
  import opened ReparentStore
  import opened Reparent

  /** `runReparent`'s summary loop: the parent commit, then every commit, is cut
      with `[:8]`; the first one shorter than 8 bytes panics. */
  method SummaryCheck(parentCommit: string, commits: seq<string>) returns (panics: bool)
    ensures panics == SummaryPanics(parentCommit, commits)
  {
    if Utf8Len(parentCommit) < 8 {
      return true;
    }
    var i := 0;
    while i < |commits|
      invariant 0 <= i <= |commits|
      invariant forall j :: 0 <= j < i ==> Utf8Len(commits[j]) >= 8
    {
      if Utf8Len(commits[i]) < 8 {
        return true;
      }
      i := i + 1;
    }
    return false;
  }

  class Repository {
    var head: Head
    var branches: map<string, string>
    var cherryPicking: bool
    var stateFile: Option<string>
    var marker: Option<string>
    var backups: nat

    function State(): Repo
      reads this
    {
      Repo(head, branches, cherryPicking, stateFile, marker, backups)
    }

    constructor(r: Repo)
      ensures State() == r
    {
      head := r.head;
      branches := r.branches;
      cherryPicking := r.cherryPicking;
      stateFile := r.stateFile;
      marker := r.marker;
      backups := r.backups;
    }

    /** `isReparentInProgress`: the marker file exists. */
    method IsReparentInProgress() returns (b: bool)
      ensures b <==> State().marker.Some?
    {
      b := marker.Some?;
    }

    /** `GetCommitHash("HEAD")` */
    method HeadCommitHash() returns (h: Option<string>)
      ensures h == HeadCommit(State())
    {
      if head.Detached? {
        h := Some(head.commit);
      } else if head.name in branches {
        h := Some(branches[head.name]);
      } else {
        h := None;
      }
    }

    /** A new commit on top of HEAD. */
    method Advance(commit: string)
      modifies this
      ensures State() == AdvanceHead(old(State()), commit)
    {
      if head.Detached? {
        head := Detached(commit);
      } else {
        branches := branches[head.name := commit];
      }
    }

    /** `createReparentHead` */
    method CreateReparentHead() returns (st: Status)
      modifies this
      ensures (State(), st) == CreateMarker(old(State()))
    {
      var h := HeadCommitHash();
      if h.None? {
        return Fail(NoHead);
      }
      marker := Some(h.value + "\n");
      return Done;
    }

    /** `removeReparentHead`: a missing marker is not an error. */
    method RemoveReparentHead()
      modifies this
      ensures State() == old(State()).(marker := None)
    {
      marker := None;
    }

    /** `saveReparentState`: builds the content line by line, writes it, then the marker. */
    method SaveReparentState(commits: seq<string>, originalBranch: string, noBranch: bool) returns (st: Status)
      modifies this
      ensures (State(), st) == SaveSpec(old(State()), commits, originalBranch, noBranch)
    {
      var content := BranchKey + originalBranch + "\n";
      content := content + NoBranchKey + BoolText(noBranch) + "\n";
      content := content + CommitsLine + "\n";
      var i := 0;
      while i < |commits|
        invariant 0 <= i <= |commits|
        invariant content + CommitLines(commits[i..]) == StateText(commits, originalBranch, noBranch)
      {
        assert commits[i..][1..] == commits[i + 1..];
        content := content + commits[i] + "\n";
        i := i + 1;
      }
      assert commits[i..] == [];
      assert content == StateText(commits, originalBranch, noBranch);
      stateFile := Some(content);
      st := CreateReparentHead();
    }

    /** `loadReparentState`: the loop over the lines with the `inCommits` flag. */
    method LoadReparentState() returns (r: Result<ReparentState>)
      ensures r == LoadSpec(State())
    {
      if stateFile.None? {
        return Err(NoState);
      }
      var lines := Split(stateFile.value, '\n');
      var remaining: seq<string> := [];
      var originalBranch := "";
      var noBranch := false;
      var inCommits := false;
      var i := 0;
      while i < |lines|
        invariant 0 <= i <= |lines|
        invariant Sound(Reading(ReparentState(remaining, originalBranch, noBranch), inCommits))
        invariant ReadFrom(Reading(ReparentState(remaining, originalBranch, noBranch), inCommits), lines[i..])
          == ReadFrom(Start, lines)
      {
        var line := lines[i];
        ghost var before := Reading(ReparentState(remaining, originalBranch, noBranch), inCommits);
        StepSound(before, line);
        if HasPrefix(line, BranchKey) {
          originalBranch := TrimPrefix(line, BranchKey);
        } else if HasPrefix(line, NoBranchKey) {
          noBranch := TrimPrefix(line, NoBranchKey) == "true";
        } else if line == CommitsLine {
          inCommits := true;
        } else if inCommits && line != "" {
          remaining := remaining + [line];
        }
        assert Reading(ReparentState(remaining, originalBranch, noBranch), inCommits) == Step(before, line);
        assert lines[i..][1..] == lines[i + 1..];
        i := i + 1;
      }
      return Ok(ReparentState(remaining, originalBranch, noBranch));
    }

    /** `updateReparentState` */
    method UpdateReparentState(remaining: seq<string>) returns (st: Status)
      modifies this
      ensures (State(), st) == UpdateSpec(old(State()), remaining)
    {
      var state := LoadReparentState();
      if state.Err? {
        return Fail(state.msg);
      }
      st := SaveReparentState(remaining, state.value.originalBranch, state.value.noBranch);
    }

    /** `cleanupReparentState` */
    method CleanupReparentState()
      modifies this
      ensures State() == CleanupSpec(old(State()))
    {
      if stateFile.Some? {
        stateFile := None;
      }
      RemoveReparentHead();
    }

    /** `applyCherryPicks` */
    method ApplyCherryPicks(commits: seq<string>, pick: string -> PickResult) returns (out: Outcome)
      modifies this
      ensures (State(), out) == ApplyFrom(old(State()), commits, 0, pick)
    {
      var i := 0;
      while i < |commits|
        invariant 0 <= i <= |commits|
        invariant ApplyFrom(State(), commits, i, pick) == ApplyFrom(old(State()), commits, 0, pick)
      {
        var commit := commits[i];
        if Utf8Len(commit) < 8 {
          return Panicked;
        }
        var result := pick(commit);
        if result.Conflicted? {
          cherryPicking := true;
          var st := UpdateReparentState(commits[i + 1..]);
          if st.Fail? {
            return Failed("failed to update reparent state: " + st.err);
          }
          return Failed("cherry-pick conflicts require manual resolution");
        }
        if result.PickFailed? {
          return Failed("cherry-pick failed: " + result.err);
        }
        Advance(result.newCommit);
        i := i + 1;
      }
      return Completed;
    }

    /** `finishReparent` */
    method FinishReparent(originalBranch: string, noBranch: bool, env: Env) returns (out: Outcome)
      modifies this
      ensures (State(), out) == FinishSpec(old(State()), originalBranch, noBranch, env)
    {
      var newHead := HeadCommitHash();
      if newHead.None? {
        return Failed("failed to get new HEAD: " + NoHead);
      }
      CleanupReparentState();
      if !noBranch {
        if env.move.Fail? {
          return Failed("failed to move branch: " + env.move.err);
        }
        branches := branches[originalBranch := newHead.value];
        if env.checkoutBranch.Fail? {
          return Failed("failed to checkout branch: " + env.checkoutBranch.err);
        }
        head := OnBranch(originalBranch);
      }
      return Completed;
    }

    /** `runReparent` */
    method RunReparent(opts: Options, env: Env) returns (out: Outcome)
      modifies this
      ensures (State(), out) == StartSpec(old(State()), opts, env)
    {
      ghost var s0 := State();
      if HasUncommittedChanges(env.status) {
        return Failed("there are uncommitted changes. Please commit or stash them first");
      }
      if !env.refExists(opts.parentRef) {
        return Failed("parent reference '" + opts.parentRef + "' does not exist");
      }
      if opts.shouldBackup {
        if env.backup.Fail? {
          return Failed("failed to create backup: " + env.backup.err);
        }
        backups := backups + 1;
      }
      assert State() == AfterBackup(s0, opts);
      ChecksPassed(s0, opts, env);
      var plan := ResolvePlan(opts, env);
      if plan.Stop? {
        ResolveKeeps(State(), opts, env);
        return plan.outcome;
      }
      ResolveProceeds(State(), opts, env);
      out := LaunchReplay(plan.parentCommit, plan.branch, plan.commits, opts.noBranch, env);
    }

    /** The checks of `runReparent` after the backup: the parent commit, the
        current branch, the commits and the confirmation. Nothing changes. */
    method ResolvePlan(opts: Options, env: Env) returns (plan: Plan)
      ensures plan == ResolveStart(State(), opts, env)
    {
      var parent := env.revParse(opts.parentRef);
      if parent.Err? {
        return Stop(State(), Failed("failed to get parent commit hash: " + parent.msg));
      }
      var parentCommit := TrimSpace(parent.value);
      var currentBranch := CurrentBranchOf(head);
      if currentBranch.Err? {
        return Stop(State(), Failed("failed to get current branch: " + currentBranch.msg));
      }
      var commits := CommitsToReparent(opts, env);
      if commits.Err? {
        return Stop(State(), Failed("failed to get commits to reparent: " + commits.msg));
      }
      if commits.value == [] {
        return Stop(State(), Failed("no commits to reparent"));
      }
      assert ResolveStart(State(), opts, env) == Confirm(State(), opts, env, parentCommit, currentBranch.value, commits.value);
      if opts.shouldConfirm {
        var panics := SummaryCheck(parentCommit, commits.value);
        if panics {
          return Stop(State(), Panicked);
        }
        if !IsYes(env.response) {
          return Stop(State(), Cancelled);
        }
      }
      return Proceed(State(), parentCommit, currentBranch.value, commits.value);
    }

    /** The second half of `runReparent`: check out the parent, save the plan,
        replay it and finish. */
    method LaunchReplay(parentCommit: string, branch: string, commits: seq<string>, noBranch: bool, env: Env)
      returns (out: Outcome)
      modifies this
      ensures (State(), out) == Launch(Proceed(old(State()), parentCommit, branch, commits), noBranch, env)
    {
      if env.checkoutCommit.Fail? {
        return Failed("failed to checkout parent commit: " + env.checkoutCommit.err);
      }
      head := Detached(parentCommit);
      var st := SaveReparentState(commits, branch, noBranch);
      // Writing is not modelled to fail, and the marker write cannot fail once
      // HEAD is a detached commit, so the source's error branch here is dead.
      assert st == Done;
      out := ApplyCherryPicks(commits, env.pick);
      if out != Completed {
        return;
      }
      out := FinishReparent(branch, noBranch, env);
    }

    /** `handleContinue` */
    method HandleContinue(env: Env) returns (out: Outcome)
      modifies this
      ensures (State(), out) == ContinueSpec(old(State()), env)
    {
      var inProgress := IsReparentInProgress();
      if !inProgress {
        return Failed("No reparent in progress");
      }
      var state := LoadReparentState();
      if state.Err? {
        return Failed(state.msg);
      }
      if cherryPicking {
        if env.continuePick.Err? {
          return Failed("Failed to continue cherry-pick: " + env.continuePick.msg);
        }
        Advance(env.continuePick.value);
        cherryPicking := false;
      }
      out := ApplyCherryPicks(state.value.remainingCommits, env.pick);
      if out != Completed {
        return;
      }
      out := FinishReparent(state.value.originalBranch, state.value.noBranch, env);
    }

    /** `handleAbort` */
    method HandleAbort(env: Env) returns (out: Outcome)
      modifies this
      ensures (State(), out) == AbortSpec(old(State()), env)
    {
      var inProgress := IsReparentInProgress();
      if !inProgress {
        return Failed("No reparent in progress");
      }
      var state := LoadReparentState();
      if state.Err? {
        return Failed(state.msg);
      }
      if cherryPicking && env.abortPick.Done? {
        cherryPicking := false;
      }
      if env.checkoutBranch.Fail? {
        return Failed("Failed to checkout original branch: " + env.checkoutBranch.err);
      }
      head := OnBranch(state.value.originalBranch);
      CleanupReparentState();
      return Completed;
    }

    /** `main` */
    method Run(args: seq<string>, env: Env) returns (out: Outcome)
      modifies this
      ensures (State(), out) == RunSpec(old(State()), args, env)
    {
      if |args| > 0 && args[0] == "--continue" {
        out := HandleContinue(env);
        return;
      }
      if |args| > 0 && args[0] == "--abort" {
        out := HandleAbort(env);
        return;
      }
      var parsed := ParseArgs(args);
      if parsed.Help? {
        return HelpShown;
      }
      if parsed.ParseError? {
        return Failed(parsed.msg);
      }
      out := RunReparent(parsed.opts, env);
    }
  }
}
