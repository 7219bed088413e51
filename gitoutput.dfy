/**
  The output parsers of the shared git helpers. Each git command is abstract: its
  result is a `Result<string>`, `Ok` with what the command printed on standard
  output, or `Err` with the error `exec` reported.
*/
module GitOutput {
  import opened Results
  import opened Strings

  /** Lines of `git status --porcelain` as the staged/unstaged checks see them:
      the WHOLE output is trimmed before it is cut into lines. */
  function TrimmedLines(output: string): (lines: seq<string>)
    ensures |lines| >= 1
  {
    Split(TrimSpace(output), '\n')
  }

  /** The working-tree column (the second byte) shows a modification, deletion or
      type change, or the line is an untracked `??` entry. Go indexes bytes: the
      first character must be one byte for the second byte to start a character. */
  predicate UnstagedLine(line: string) {
    && |line| >= 2
    && IsAscii(line[0])
    && (line[1] == 'M' || line[1] == 'D' || line[1] == 'T' || (line[0] == '?' && line[1] == '?'))
  }

  /** The index column (the first byte) shows a staged change. */
  predicate StagedLine(line: string) {
    && |line| >= 2
    && (line[0] == 'M' || line[0] == 'A' || line[0] == 'D' || line[0] == 'R' || line[0] == 'C' || line[0] == 'T')
  }

  /** The eight unmerged XY codes of the porcelain v1 short format. */
  const ConflictCodes: seq<string> := ["UU", "AA", "DD", "AU", "UD", "UA", "DU", "AD"]

  /** The line starts with an unmerged code followed by a space. */
  predicate ConflictLine(line: string) {
    |line| >= 3 && line[..2] in ConflictCodes && line[2] == ' '
  }

  predicate AnyUnstaged(output: string) {
    exists i :: 0 <= i < |TrimmedLines(output)| && UnstagedLine(TrimmedLines(output)[i])
  }

  predicate AnyStaged(output: string) {
    exists i :: 0 <= i < |TrimmedLines(output)| && StagedLine(TrimmedLines(output)[i])
  }

  /** Conflicts are looked for in the untrimmed lines. */
  predicate AnyConflict(output: string) {
    exists i :: 0 <= i < |Split(output, '\n')| && ConflictLine(Split(output, '\n')[i])
  }

  /** `HasUncommittedChanges`: the status command succeeded and printed something
      other than white space. */
  function HasUncommittedChanges(status: Result<string>): (r: bool)
    ensures r <==> status.Ok? && !AllSpace(status.value)
  {
    status.Ok? && TrimSpace(status.value) != ""
  }

  /** `HasUnstagedChanges`: stops at the first line that shows an unstaged change. */
  method HasUnstagedChanges(status: Result<string>) returns (r: Result<bool>)
    ensures status.Err? ==> r == Err(status.msg)
    ensures status.Ok? ==> r == Ok(AnyUnstaged(status.value))
  {
    if status.Err? {
      return Err(status.msg);
    }
    var lines := Split(TrimSpace(status.value), '\n');
    assert lines == TrimmedLines(status.value);
    var i := 0;
    while i < |lines|
      invariant 0 <= i <= |lines|
      invariant forall k :: 0 <= k < i ==> !UnstagedLine(lines[k])
    {
      var line := lines[i];
      if |line| >= 2 && IsAscii(line[0]) {
        var workingTree := line[1];
        if workingTree == 'M' || workingTree == 'D' || workingTree == 'T' {
          assert UnstagedLine(lines[i]);
          return Ok(true);
        }
        if line[0] == '?' && line[1] == '?' {
          assert UnstagedLine(lines[i]);
          return Ok(true);
        }
      }
      i := i + 1;
    }
    return Ok(false);
  }

  /** `HasStagedChanges`: stops at the first line that shows a staged change. */
  method HasStagedChanges(status: Result<string>) returns (r: Result<bool>)
    ensures status.Err? ==> r == Err(status.msg)
    ensures status.Ok? ==> r == Ok(AnyStaged(status.value))
  {
    if status.Err? {
      return Err(status.msg);
    }
    var lines := Split(TrimSpace(status.value), '\n');
    assert lines == TrimmedLines(status.value);
    var i := 0;
    while i < |lines|
      invariant 0 <= i <= |lines|
      invariant forall k :: 0 <= k < i ==> !StagedLine(lines[k])
    {
      var line := lines[i];
      if |line| >= 2 {
        var index := line[0];
        if index == 'M' || index == 'A' || index == 'D' || index == 'R' || index == 'C' || index == 'T' {
          assert StagedLine(lines[i]);
          return Ok(true);
        }
      }
      i := i + 1;
    }
    return Ok(false);
  }

  /** `HasConflicts`: a failed status command reads as "no conflicts". */
  method HasConflicts(status: Result<string>) returns (r: bool)
    ensures r <==> status.Ok? && AnyConflict(status.value)
  {
    if status.Err? {
      return false;
    }
    var lines := Split(status.value, '\n');
    var i := 0;
    while i < |lines|
      invariant 0 <= i <= |lines|
      invariant forall k :: 0 <= k < i ==> !ConflictLine(lines[k])
    {
      var line := lines[i];
      ConflictLinePrefixes(line);
      if HasPrefix(line, "UU ") || HasPrefix(line, "AA ") || HasPrefix(line, "DD ") || HasPrefix(line, "AU ")
        || HasPrefix(line, "UD ") || HasPrefix(line, "UA ") || HasPrefix(line, "DU ") || HasPrefix(line, "AD ")
      {
        return true;
      }
      i := i + 1;
    }
    return false;
  }

  /** A two-character code followed by a space, as a prefix test. */
  lemma CodePrefix(line: string, code: string)
    requires |code| == 2
    ensures HasPrefix(line, code + " ") <==> |line| >= 3 && line[..2] == code && line[2] == ' '
  {
    if |line| >= 3 {
      assert line[..3] == line[..2] + [line[2]];
      assert (code + " ")[..2] == code;
    }
  }

  /** `ConflictLine` is the eight prefix tests the source makes. */
  lemma ConflictLinePrefixes(line: string)
    ensures ConflictLine(line) <==>
      || HasPrefix(line, "UU ") || HasPrefix(line, "AA ") || HasPrefix(line, "DD ") || HasPrefix(line, "AU ")
      || HasPrefix(line, "UD ") || HasPrefix(line, "UA ") || HasPrefix(line, "DU ") || HasPrefix(line, "AD ")
  {
    CodePrefix(line, "UU"); CodePrefix(line, "AA"); CodePrefix(line, "DD"); CodePrefix(line, "AU");
    CodePrefix(line, "UD"); CodePrefix(line, "UA"); CodePrefix(line, "DU"); CodePrefix(line, "AD");
  }

  /**
    A first status line ` M <file>` (modified in the working tree only) loses its
    leading space when the whole output is trimmed, so it reads as `M <file>`:
    a staged change and no unstaged one.
  */
  lemma LeadingUnstagedReadsAsStaged(file: string)
    requires file != [] && '\n' !in file && !IsSpace(file[|file| - 1])
    ensures AnyStaged(" M " + file)
    ensures !AnyUnstaged(" M " + file)
  {
    var out := " M " + file;
    assert LeadingSpace(out) == 1 by {
      assert out[1..][0] == 'M';
    }
    var t := out[1..];
    assert t == "M " + file;
    assert !IsSpace(t[|t| - 1]);
    TrimSpaceOfTrimmed(t);
    assert TrimSpace(out) == t;
    assert '\n' !in t by {
      assert forall k :: 2 <= k < |t| ==> t[k] == file[k - 2];
    }
    SplitNoSep(t, '\n');
    assert TrimmedLines(out) == [t];
    assert StagedLine(TrimmedLines(out)[0]);
    assert t[1] == ' ' && t[0] == 'M';
  }

  /** On any later line the status columns are intact: ` M <file>` after another
      line is an unstaged change. */
  lemma LaterUnstagedLineCounts(first: string, file: string)
    requires first != [] && !IsSpace(first[0]) && '\n' !in first
    requires file != [] && '\n' !in file && !IsSpace(file[|file| - 1])
    ensures AnyUnstaged(first + "\n M " + file)
  {
    var out := first + "\n M " + file;
    var second := " M " + file;
    assert out == first + ['\n'] + second;
    assert !IsSpace(out[|out| - 1]);
    TrimSpaceOfTrimmed(out);
    assert '\n' !in second by {
      assert forall k :: 3 <= k < |second| ==> second[k] == file[k - 3];
    }
    SplitAppend(first, second, '\n');
    SplitNoSep(first, '\n');
    SplitNoSep(second, '\n');
    assert TrimmedLines(out) == [first, second];
    assert UnstagedLine(TrimmedLines(out)[1]);
  }

  /** A staged or unstaged change is an uncommitted change. */
  lemma ChangesAreUncommitted(output: string)
    requires AnyStaged(output) || AnyUnstaged(output)
    ensures HasUncommittedChanges(Ok(output))
  {
    var lines := TrimmedLines(output);
    if AnyStaged(output) {
      var i :| 0 <= i < |lines| && StagedLine(lines[i]);
      assert |lines[i]| >= 2;
    } else {
      var i :| 0 <= i < |lines| && UnstagedLine(lines[i]);
      assert |lines[i]| >= 2;
    }
  }

  /** A character of one piece of a split text is a character of the text. */
  lemma {:induction false} CharOfPiece(s: string, sep: char, i: int, k: int)
    requires 0 <= i < |Split(s, sep)| && 0 <= k < |Split(s, sep)[i]|
    ensures Split(s, sep)[i][k] in s
  {
    var rest := Split(s[1..], sep);
    if s[0] == sep {
      CharOfPiece(s[1..], sep, i - 1, k);
    } else if i == 0 && k == 0 {
    } else if i == 0 {
      CharOfPiece(s[1..], sep, 0, k - 1);
    } else {
      CharOfPiece(s[1..], sep, i, k);
    }
  }

  /** An unmerged entry is an uncommitted change. */
  lemma ConflictsAreUncommitted(output: string)
    requires AnyConflict(output)
    ensures HasUncommittedChanges(Ok(output))
  {
    var i :| 0 <= i < |Split(output, '\n')| && ConflictLine(Split(output, '\n')[i]);
    var line := Split(output, '\n')[i];
    assert !IsSpace(line[0]) by {
      assert line[0] == line[..2][0];
    }
    CharOfPiece(output, '\n', i, 0);
  }

  /** One line of `git branch -a` with the surrounding space and the current-branch
      marker removed. */
  function BranchEntry(line: string): (r: string)
    ensures r != [] ==> r[0] != '*' && r[0] != ' ' && !IsSpace(r[|r| - 1])
  {
    var t := TrimSpace(line);
    var r := TrimLeft(t, BranchMarks);
    assert r != [] ==> r[|r| - 1] == t[|t| - 1];
    r
  }

  /** The non-empty entries of the given lines, in their order. */
  function Branches(lines: seq<string>): (bs: seq<string>)
    ensures |bs| <= |lines|
    ensures forall i :: 0 <= i < |bs| ==> bs[i] != [] && bs[i][0] != '*' && bs[i][0] != ' '
  {
    if lines == [] then []
    else
      var e := BranchEntry(lines[|lines| - 1]);
      Branches(lines[..|lines| - 1]) + (if e != "" then [e] else [])
  }

  /** The entries of two runs of lines are the entries of the first, then of the second. */
  lemma {:induction false} BranchesConcat(a: seq<string>, b: seq<string>)
    ensures Branches(a + b) == Branches(a) + Branches(b)
  {
    if b != [] {
      var b' := b[..|b| - 1];
      assert (a + b)[..|a + b| - 1] == a + b';
      BranchesConcat(a, b');
    } else {
      assert a + b == a;
    }
  }

  /** The cutset `* ` as the source spells it. */
  const BranchMarks: set<char> := {'*', ' '}

  /** Both kinds of `git branch` line give back the bare branch name: the current
      branch (`* name`) and any other (`  name`). */
  lemma BranchEntryOfName(name: string)
    requires name != [] && !IsSpace(name[0]) && name[0] != '*' && !IsSpace(name[|name| - 1])
    ensures BranchEntry("* " + name) == name
    ensures BranchEntry("  " + name) == name
  {
    CurrentEntry(name);
    OtherEntry(name);
  }

  lemma CurrentEntry(name: string)
    requires name != [] && !IsSpace(name[0]) && name[0] != '*' && !IsSpace(name[|name| - 1])
    ensures BranchEntry("* " + name) == name
  {
    var cur := "* " + name;
    assert TrimSpace(cur) == cur by {
      assert cur[0] == '*' && cur[|cur| - 1] == name[|name| - 1];
      TrimSpaceOfTrimmed(cur);
    }
    assert cur == ['*'] + ([' '] + name);
    MarksDropped(name);
  }

  /** The marks in front of a name that does not start with one are dropped. */
  lemma MarksDropped(name: string)
    requires name != [] && !IsSpace(name[0]) && name[0] != '*'
    ensures TrimLeft(['*'] + ([' '] + name), BranchMarks) == name
  {
    assert TrimLeft(name, BranchMarks) == name by {
      assert name[0] !in BranchMarks;
    }
    TrimLeftCons('*', [' '] + name, BranchMarks);
    TrimLeftCons(' ', name, BranchMarks);
  }

  lemma OtherEntry(name: string)
    requires name != [] && !IsSpace(name[0]) && name[0] != '*' && !IsSpace(name[|name| - 1])
    ensures BranchEntry("  " + name) == name
  {
    assert TrimLeft(name, BranchMarks) == name;
    TrimSpaceSurrounded("  ", name, "");
    assert "  " + name + "" == "  " + name;
  }

  /** One more line adds its entry, if it has one, at the end. */
  lemma BranchesSnoc(lines: seq<string>, i: int)
    requires 0 <= i < |lines|
    ensures Branches(lines[..i + 1]) ==
      Branches(lines[..i]) + (if BranchEntry(lines[i]) != "" then [BranchEntry(lines[i])] else [])
  {
    assert lines[..i + 1][..i] == lines[..i];
  }

  /** `GetAllBranches`: appends every non-empty entry of the output, in order. */
  method GetAllBranches(output: Result<string>) returns (r: Result<seq<string>>)
    ensures output.Err? ==> r == Err(output.msg)
    ensures output.Ok? ==> r == Ok(Branches(Split(output.value, '\n')))
  {
    if output.Err? {
      return Err(output.msg);
    }
    var lines := Split(output.value, '\n');
    var branches: seq<string> := [];
    var i := 0;
    while i < |lines|
      invariant 0 <= i <= |lines|
      invariant branches == Branches(lines[..i])
    {
      var line := TrimSpace(lines[i]);
      line := TrimLeft(line, BranchMarks);
      BranchesSnoc(lines, i);
      if line != "" {
        branches := branches + [line];
      }
      i := i + 1;
    }
    assert lines[..i] == lines;
    return Ok(branches);
  }

  /** `GetCommitRange`: the trimmed output, one commit per line; nothing but white
      space is the empty list. */
  function CommitRange(output: Result<string>): (r: Result<seq<string>>)
    ensures output.Err? ==> r == Err(output.msg)
    ensures output.Ok? ==> r.Ok? && (r.value == [] <==> AllSpace(output.value))
    ensures output.Ok? && r.value != [] ==> Join(r.value, '\n') == TrimSpace(output.value)
    ensures r.Ok? ==> forall i :: 0 <= i < |r.value| ==> '\n' !in r.value[i]
  {
    if output.Err? then Err(output.msg)
    else
      var t := TrimSpace(output.value);
      var commits := Split(t, '\n');
      JoinSplit(t, '\n');
      if |commits| == 1 && commits[0] == "" then Ok([]) else Ok(commits)
  }

  /** Listing the commits again gives back the same list, whatever white space
      surrounds the output. */
  lemma CommitRangeOfJoin(commits: seq<string>, before: string, after: string)
    requires commits != []
    requires forall i :: 0 <= i < |commits| ==> '\n' !in commits[i]
    requires commits[0] != [] && !IsSpace(commits[0][0])
    requires commits[|commits| - 1] != [] && !IsSpace(commits[|commits| - 1][|commits[|commits| - 1]| - 1])
    requires AllSpace(before) && AllSpace(after)
    ensures CommitRange(Ok(before + Join(commits, '\n') + after)) == Ok(commits)
  {
    var j := Join(commits, '\n');
    JoinLast(commits, '\n');
    assert j[0] == commits[0][0];
    TrimSpaceSurrounded(before, j, after);
    SplitJoin(commits, '\n');
  }

  /** The joined text ends with the last piece's last character. */
  lemma {:induction false} JoinLast(parts: seq<string>, sep: char)
    requires parts != [] && parts[|parts| - 1] != []
    ensures Join(parts, sep) != []
    ensures Join(parts, sep)[|Join(parts, sep)| - 1] == parts[|parts| - 1][|parts[|parts| - 1]| - 1]
  {
    if |parts| > 1 {
      assert parts[1..][|parts[1..]| - 1] == parts[|parts| - 1];
      JoinLast(parts[1..], sep);
    }
  }

  /** Trimming removes exactly the white space around a text that has none at its ends. */
  lemma TrimSpaceSurrounded(before: string, s: string, after: string)
    requires AllSpace(before) && AllSpace(after)
    requires s != [] && !IsSpace(s[0]) && !IsSpace(s[|s| - 1])
    ensures TrimSpace(before + s + after) == s
  {
    var x := before + s + after;
    LeadingOfSpaces(before, s + after);
    assert x == before + (s + after);
    assert x[|before|..] == s + after;
    TrailingOfSpaces(s, after);
  }

  lemma {:induction false} LeadingOfSpaces(before: string, s: string)
    requires AllSpace(before) && s != [] && !IsSpace(s[0])
    ensures LeadingSpace(before + s) == |before|
  {
    if before != [] {
      assert (before + s)[1..] == before[1..] + s;
      LeadingOfSpaces(before[1..], s);
    }
  }

  lemma {:induction false} TrailingOfSpaces(s: string, after: string)
    requires AllSpace(after) && s != [] && !IsSpace(s[|s| - 1])
    ensures TrailingSpace(s + after) == |s|
  {
    if after != [] {
      var last := |after| - 1;
      assert (s + after)[..|s + after| - 1] == s + after[..last];
      TrailingOfSpaces(s, after[..last]);
    } else {
      assert s + after == s;
    }
  }

  const DetachedHead: string := "not on a branch (detached HEAD)"

  /** `GetCurrentBranch`: the trimmed output of `git branch --show-current`;
      nothing printed means a detached HEAD. */
  function CurrentBranch(output: Result<string>): (r: Result<string>)
    ensures output.Err? ==> r == Err(output.msg)
    ensures output.Ok? && AllSpace(output.value) ==> r == Err(DetachedHead)
    ensures output.Ok? && !AllSpace(output.value) ==> r == Ok(TrimSpace(output.value))
    ensures r.Ok? ==> r.value != [] && !IsSpace(r.value[0]) && !IsSpace(r.value[|r.value| - 1])
  {
    if output.Err? then Err(output.msg)
    else
      var branch := TrimSpace(output.value);
      if branch == "" then Err(DetachedHead) else Ok(branch)
  }

  /** `GetRemoteMainBranch`: `ok` says whether `git rev-parse --abbrev-ref
      <remote>/HEAD` succeeded and `output` is what it printed on either stream.
      The answer drops the first `/`-separated component. */
  function RemoteMainBranch(ok: bool, output: string): (r: Result<string>)
    ensures !ok ==> r == Err("git command failed: " + TrimSpace(output))
    ensures ok ==> r.Ok?
    ensures ok && '/' !in TrimSpace(output) ==> r == Ok("")
  {
    if !ok then Err("git command failed: " + TrimSpace(output))
    else
      var result := TrimSpace(output);
      var parts := Split(result, '/');
      if '/' !in result then SplitNoSep(result, '/'); Ok(Join(parts[1..], '/'))
      else Ok(Join(parts[1..], '/'))
  }

  /** `origin/main` gives `main` and `origin/a/b` gives `a/b`. */
  lemma RemoteMainBranchDropsRemote(output: string, remote: string, name: string)
    requires TrimSpace(output) == remote + "/" + name && '/' !in remote
    ensures RemoteMainBranch(true, output) == Ok(name)
  {
    SplitAppend(remote, name, '/');
    SplitNoSep(remote, '/');
    var parts := Split(TrimSpace(output), '/');
    assert parts[1..] == Split(name, '/');
    JoinSplit(name, '/');
  }
}
