/**
  The text of the reparent state file (git-reparent.go:324-390): a header with the
  original branch and the no-branch switch, then one commit per line after
  `COMMITS=`. This module holds the format as values; the class in `Reparent`
  builds and reads it with the source's loops.
*/
module ReparentStore {
  import opened Strings

  datatype ReparentState = ReparentState(remainingCommits: seq<string>, originalBranch: string, noBranch: bool)

  /** `%t` */
  function BoolText(b: bool): string {
    if b then "true" else "false"
  }

  const BranchKey: string := "ORIGINAL_BRANCH="
  const NoBranchKey: string := "NO_BRANCH="
  const CommitsLine: string := "COMMITS="

  /** One line per commit, each ended by a newline. */
  function CommitLines(commits: seq<string>): string {
    if commits == [] then "" else commits[0] + "\n" + CommitLines(commits[1..])
  }

  /** The content `saveReparentState` writes: three header lines, then the commits. */
  function StateText(commits: seq<string>, originalBranch: string, noBranch: bool): string {
    BranchKey + originalBranch + "\n" + (NoBranchKey + BoolText(noBranch) + "\n" + (CommitsLine + "\n" + CommitLines(commits)))
  }

  /** The loader's progress: the state read so far and whether `COMMITS=` was seen. */
  datatype Reading = Reading(state: ReparentState, inCommits: bool)

  const Start: Reading := Reading(ReparentState([], "", false), false)

  /** One line of the loader's loop. A header line is recognised anywhere, also
      after `COMMITS=`; blank lines in the commit list are skipped. */
  function Step(rd: Reading, line: string): Reading {
    if HasPrefix(line, BranchKey) then rd.(state := rd.state.(originalBranch := TrimPrefix(line, BranchKey)))
    else if HasPrefix(line, NoBranchKey) then rd.(state := rd.state.(noBranch := TrimPrefix(line, NoBranchKey) == "true"))
    else if line == CommitsLine then rd.(inCommits := true)
    else if rd.inCommits && line != "" then rd.(state := rd.state.(remainingCommits := rd.state.remainingCommits + [line]))
    else rd
  }

  /** A commit line the loader gives back unchanged. */
  predicate CleanCommit(c: string) {
    c != "" && '\n' !in c && !HasPrefix(c, BranchKey) && !HasPrefix(c, NoBranchKey) && c != CommitsLine
  }

  predicate AllClean(commits: seq<string>) {
    forall i :: 0 <= i < |commits| ==> CleanCommit(commits[i])
  }

  /** What a reading of newline-free lines can hold. */
  predicate Sound(rd: Reading) {
    '\n' !in rd.state.originalBranch && AllClean(rd.state.remainingCommits)
  }

  /** One newline-free line keeps a reading sound. */
  lemma StepSound(rd: Reading, line: string)
    requires Sound(rd) && '\n' !in line
    ensures Sound(Step(rd, line))
  {
    if HasPrefix(line, BranchKey) {
      assert forall k :: 0 <= k < |line| - |BranchKey| ==> TrimPrefix(line, BranchKey)[k] == line[k + |BranchKey|];
    }
  }

  /** The loop over the lines that follow. */
  function ReadFrom(rd: Reading, lines: seq<string>): (r: Reading)
    requires Sound(rd)
    requires forall i :: 0 <= i < |lines| ==> '\n' !in lines[i]
    ensures Sound(r)
    decreases |lines|
  {
    if lines == [] then rd
    else
      var line := lines[0];
      StepSound(rd, line);
      ReadFrom(Step(rd, line), lines[1..])
  }

  /** `loadReparentState` on the content of an existing file: the state it reads.
      The branch it reads has no newline and every commit it reads is clean. */
  function ParseState(text: string): (r: ReparentState)
    ensures '\n' !in r.originalBranch && AllClean(r.remainingCommits)
  {
    ReadFrom(Start, Split(text, '\n')).state
  }

  /** The lines of the commit list. */
  lemma {:induction false} SplitCommitLines(commits: seq<string>)
    requires forall i :: 0 <= i < |commits| ==> '\n' !in commits[i]
    ensures Split(CommitLines(commits), '\n') == commits + [""]
  {
    if commits != [] {
      SplitCommitLines(commits[1..]);
      SplitAppend(commits[0], CommitLines(commits[1..]), '\n');
      SplitNoSep(commits[0], '\n');
      assert commits == [commits[0]] + commits[1..];
    }
  }

  /** A newline-free first line is the first piece. */
  lemma SplitLine(line: string, rest: string)
    requires '\n' !in line
    ensures Split(line + "\n" + rest, '\n') == [line] + Split(rest, '\n')
  {
    SplitAppend(line, rest, '\n');
    SplitNoSep(line, '\n');
  }

  /** The lines of the whole file. */
  lemma SplitStateText(commits: seq<string>, b: string, nb: bool)
    requires '\n' !in b
    requires forall i :: 0 <= i < |commits| ==> '\n' !in commits[i]
    ensures Split(StateText(commits, b, nb), '\n') ==
      [BranchKey + b, NoBranchKey + BoolText(nb), CommitsLine] + commits + [""]
  {
    var l1 := BranchKey + b;
    var l2 := NoBranchKey + BoolText(nb);
    var rest := CommitLines(commits);
    assert '\n' !in BranchKey;
    var t3 := CommitsLine + "\n" + rest;
    var t2 := l2 + "\n" + t3;
    assert StateText(commits, b, nb) == l1 + "\n" + t2;
    SplitLine(l1, t2);
    SplitLine(l2, t3);
    SplitLine(CommitsLine, rest);
    SplitCommitLines(commits);
    ConsThree(l1, l2, CommitsLine, commits);
  }

  lemma ConsThree(x: string, y: string, z: string, commits: seq<string>)
    ensures [x] + ([y] + ([z] + (commits + [""]))) == [x, y, z] + commits + [""]
  {
  }

  /** Clean commit lines after `COMMITS=` are appended one by one. */
  lemma {:induction false} ReadCommits(acc: seq<string>, b: string, nb: bool, commits: seq<string>)
    requires '\n' !in b && AllClean(acc) && AllClean(commits)
    ensures ReadFrom(Reading(ReparentState(acc, b, nb), true), commits + [""])
      == Reading(ReparentState(acc + commits, b, nb), true)
    decreases |commits|
  {
    var rd := Reading(ReparentState(acc, b, nb), true);
    if commits == [] {
      assert [] + [""] == [""];
      assert acc + commits == acc;
    } else {
      var c := commits[0];
      assert (commits + [""])[1..] == commits[1..] + [""];
      assert Step(rd, c) == Reading(ReparentState(acc + [c], b, nb), true);
      ReadCommits(acc + [c], b, nb, commits[1..]);
      assert acc + [c] + commits[1..] == acc + commits;
    }
  }

  /** Loading what was saved gives back the commits, the branch and the switch,
      provided the branch has no newline and every commit is clean. */
  lemma LoadSave(commits: seq<string>, b: string, nb: bool)
    requires '\n' !in b && AllClean(commits)
    ensures ParseState(StateText(commits, b, nb)) == ReparentState(commits, b, nb)
  {
    SplitStateText(commits, b, nb);
    var lines := Split(StateText(commits, b, nb), '\n');
    var l1 := BranchKey + b;
    assert TrimPrefix(l1, BranchKey) == b;
    var rd1 := Step(Start, l1);
    assert rd1 == Reading(ReparentState([], b, false), false);
    var l2 := NoBranchKey + BoolText(nb);
    assert !HasPrefix(l2, BranchKey) by { assert l2[0] != BranchKey[0]; }
    assert TrimPrefix(l2, NoBranchKey) == BoolText(nb);
    var rd2 := Step(rd1, l2);
    assert rd2 == Reading(ReparentState([], b, nb), false);
    assert !HasPrefix(CommitsLine, BranchKey) && !HasPrefix(CommitsLine, NoBranchKey);
    var rd3 := Step(rd2, CommitsLine);
    assert rd3 == Reading(ReparentState([], b, nb), true);
    assert ReadFrom(Start, lines) == ReadFrom(rd1, lines[1..]);
    assert ReadFrom(rd1, lines[1..]) == ReadFrom(rd2, lines[2..]) by { assert lines[1..][1..] == lines[2..]; }
    assert ReadFrom(rd2, lines[2..]) == ReadFrom(rd3, lines[3..]) by { assert lines[2..][1..] == lines[3..]; }
    assert lines[3..] == commits + [""];
    ReadCommits([], b, nb, commits);
    assert [] + commits == commits;
  }

  /** Only the exact text `true` after `NO_BRANCH=` turns the switch on. */
  lemma {:induction false} NoBranchNeedsTrue(rd: Reading, lines: seq<string>)
    requires Sound(rd)
    requires forall i :: 0 <= i < |lines| ==> '\n' !in lines[i]
    requires ReadFrom(rd, lines).state.noBranch
    ensures rd.state.noBranch || NoBranchKey + "true" in lines
    decreases |lines|
  {
    if lines != [] {
      var next := Step(rd, lines[0]);
      NoBranchNeedsTrue(next, lines[1..]);
      if next.state.noBranch && !rd.state.noBranch {
        assert lines[0] == NoBranchKey + TrimPrefix(lines[0], NoBranchKey);
      }
      if NoBranchKey + "true" in lines[1..] {
        var k :| 0 <= k < |lines[1..]| && lines[1..][k] == NoBranchKey + "true";
        assert lines[k + 1] == NoBranchKey + "true";
      }
    }
  }

  /** A file with no `NO_BRANCH=true` line reads as "move the branch". */
  lemma NoBranchOnlyFromTrue(text: string)
    requires ParseState(text).noBranch
    ensures NoBranchKey + "true" in Split(text, '\n')
  {
    NoBranchNeedsTrue(Start, Split(text, '\n'));
  }

  /** `updateReparentState` keeps the header it read: loading after the rewrite gives
      the new commits with the old branch and switch. */
  lemma UpdateKeepsHeader(text: string, remaining: seq<string>)
    requires AllClean(remaining)
    ensures ParseState(StateText(remaining, ParseState(text).originalBranch, ParseState(text).noBranch))
      == ParseState(text).(remainingCommits := remaining)
  {
    var s := ParseState(text);
    LoadSave(remaining, s.originalBranch, s.noBranch);
  }
}
