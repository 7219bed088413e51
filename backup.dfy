/**
  `git backup` (git-backup.go): the mode flags, the choice of a fresh
  date-stamped backup name `backups/<branch>/<date>[-N]`, and the purge and
  list modes over the backups of the current branch. The regular expressions
  of the source are stated as the string predicates they decide.
*/
module Backup {
  import opened Results
  import opened Strings
  import opened Lex
  import opened GitOutput

  // ---------------------------------------------------------------------------
  // The argument loop (git-backup.go:24-49)
  // ---------------------------------------------------------------------------

  datatype Mode = Mode(gitRef: string, purge: bool, force: bool, list: bool)

  /** `Help` stands for printing the usage and exiting with status 0. */
  datatype ArgsOutcome = Args(mode: Mode) | Help | ArgError(msg: string)

  const NoFlags: Mode := Mode("", false, false, false)

  const RefWithMode: string := "--purge and --list do not accept a git reference argument"

  predicate IsFlag(arg: string) {
    arg in {"-h", "--help", "--purge", "--force", "-l", "--list"}
  }

  /** The loop from position `i` with the flags seen so far. A positional fills the
      reference only while it is empty and neither mode is set yet. */
  function ScanArgs(args: seq<string>, i: nat, m: Mode): ArgsOutcome
    requires i <= |args|
    decreases |args| - i
  {
    if i == |args| then Args(m)
    else
      var arg := args[i];
      if arg == "-h" || arg == "--help" then Help
      else if arg == "--purge" then ScanArgs(args, i + 1, m.(purge := true))
      else if arg == "--force" then ScanArgs(args, i + 1, m.(force := true))
      else if arg == "-l" || arg == "--list" then ScanArgs(args, i + 1, m.(list := true))
      else if m.gitRef == "" && !m.purge && !m.list then ScanArgs(args, i + 1, m.(gitRef := arg))
      else if m.gitRef == "" then ArgError(RefWithMode)
      else ArgError("Unknown argument '" + arg + "'")
  }

  function ParseBackupArgs(args: seq<string>): ArgsOutcome {
    ScanArgs(args, 0, NoFlags)
  }

  /** The `for ... range os.Args[1:]` loop setting the mode flags. */
  method ParseArgs(args: seq<string>) returns (r: ArgsOutcome)
    ensures r == ParseBackupArgs(args)
  {
    var m := NoFlags;
    var i := 0;
    while i < |args|
      invariant 0 <= i <= |args|
      invariant ScanArgs(args, i, m) == ParseBackupArgs(args)
    {
      var arg := args[i];
      if arg == "-h" || arg == "--help" {
        return Help;
      } else if arg == "--purge" {
        m := m.(purge := true);
      } else if arg == "--force" {
        m := m.(force := true);
      } else if arg == "-l" || arg == "--list" {
        m := m.(list := true);
      } else if m.gitRef == "" && !m.purge && !m.list {
        m := m.(gitRef := arg);
      } else if m.gitRef == "" {
        return ArgError(RefWithMode);
      } else {
        return ArgError("Unknown argument '" + arg + "'");
      }
      i := i + 1;
    }
    return Args(m);
  }

  /** A positional that is not a flag and not empty. */
  predicate IsRef(arg: string) {
    arg != "" && !IsFlag(arg)
  }

  /** Once a reference is set, any further positional is rejected. */
  lemma {:induction false} ScanRejectsAfterRef(args: seq<string>, i: nat, m: Mode, k: nat)
    requires i <= k < |args| && m.gitRef != "" && IsRef(args[k])
    ensures !ScanArgs(args, i, m).Args?
    decreases |args| - i
  {
    if i < k {
      var arg := args[i];
      if arg == "--purge" {
        ScanRejectsAfterRef(args, i + 1, m.(purge := true), k);
      } else if arg == "--force" {
        ScanRejectsAfterRef(args, i + 1, m.(force := true), k);
      } else if arg == "-l" || arg == "--list" {
        ScanRejectsAfterRef(args, i + 1, m.(list := true), k);
      }
    }
  }

  lemma {:induction false} ScanRejectsTwoRefs(args: seq<string>, i: nat, m: Mode, j: nat, k: nat)
    requires i <= j < k < |args| && IsRef(args[j]) && IsRef(args[k])
    ensures !ScanArgs(args, i, m).Args?
    decreases |args| - i
  {
    var arg := args[i];
    if m.gitRef != "" {
      ScanRejectsAfterRef(args, i, m, k);
    } else if i == j {
      if !m.purge && !m.list {
        ScanRejectsAfterRef(args, i + 1, m.(gitRef := arg), k);
      }
    } else if arg == "--purge" {
      ScanRejectsTwoRefs(args, i + 1, m.(purge := true), j, k);
    } else if arg == "--force" {
      ScanRejectsTwoRefs(args, i + 1, m.(force := true), j, k);
    } else if arg == "-l" || arg == "--list" {
      ScanRejectsTwoRefs(args, i + 1, m.(list := true), j, k);
    } else if !m.purge && !m.list {
      ScanRejectsTwoRefs(args, i + 1, m.(gitRef := arg), j, k);
    }
  }

  /** At most one reference is accepted: two non-empty positionals are an error. */
  lemma OneReferenceOnly(args: seq<string>, j: nat, k: nat)
    requires j < k < |args| && IsRef(args[j]) && IsRef(args[k])
    ensures !ParseBackupArgs(args).Args?
  {
    ScanRejectsTwoRefs(args, 0, NoFlags, j, k);
  }

  /** A reference after `--purge` or `--list` is refused with its own message. */
  lemma RefAfterModeRejected(flag: string, ref: string)
    requires flag in {"--purge", "-l", "--list"} && IsRef(ref)
    ensures ParseBackupArgs([flag, ref]) == ArgError(RefWithMode)
  {
    var args := [flag, ref];
    if flag == "--purge" {
      assert ScanArgs(args, 0, NoFlags) == ScanArgs(args, 1, NoFlags.(purge := true));
    } else {
      assert ScanArgs(args, 0, NoFlags) == ScanArgs(args, 1, NoFlags.(list := true));
    }
  }

  /** A reference before `--purge` is accepted, and the purge then ignores it. */
  lemma RefBeforeModeAccepted(ref: string)
    requires IsRef(ref)
    ensures ParseBackupArgs([ref, "--purge"]) == Args(Mode(ref, true, false, false))
  {
    var args := [ref, "--purge"];
    assert ScanArgs(args, 0, NoFlags) == ScanArgs(args, 1, NoFlags.(gitRef := ref));
    assert ScanArgs(args, 1, NoFlags.(gitRef := ref)) == ScanArgs(args, 2, Mode(ref, true, false, false));
  }

  // ---------------------------------------------------------------------------
  // Existing backups and the next number (git-backup.go:98-188)
  // ---------------------------------------------------------------------------

  /** `\s` of Go's regular expressions: `[\t\n\f\r ]`. */
  predicate ReSpace(c: char) {
    c == '\t' || c == '\n' || c == '\U{0C}' || c == '\r' || c == ' '
  }

  predicate AllReSpace(s: string) {
    forall i :: 0 <= i < |s| ==> ReSpace(s[i])
  }

  /** `backups/<branch>/<date>` */
  function BackupBase(branch: string, date: string): (base: string)
    ensures |base| > 0 && base[0] == 'b'
    ensures HasPrefix(base, "backups/")
  {
    "backups/" + branch + "/" + date
  }

  /** `base` itself, or `base-` followed by one or more digits. */
  predicate ExactOrNumbered(t: string, base: string) {
    t == base || (|t| > |base| + 1 && t[..|base| + 1] == base + "-" && AllDigits(t[|base| + 1..]))
  }

  /** `^\s*base(-\d+)?$` */
  predicate IsBackupOf(branch: string, base: string) {
    exists k :: 0 <= k <= |branch| && AllReSpace(branch[..k]) && ExactOrNumbered(branch[k..], base)
  }

  /** The branches that match, in their order. */
  function MatchingBackups(branches: seq<string>, base: string): (r: seq<string>)
    ensures |r| <= |branches|
  {
    if branches == [] then []
    else
      var last := branches[|branches| - 1];
      MatchingBackups(branches[..|branches| - 1], base) + (if IsBackupOf(last, base) then [last] else [])
  }

  /** `getExistingBackups`: an error listing the branches gives no backups. */
  function ExistingBackups(branches: Result<seq<string>>, base: string): seq<string> {
    if branches.Err? then [] else MatchingBackups(branches.value, base)
  }

  /** The filter keeps exactly the matching branches. */
  lemma {:induction false} MatchingBackupsExact(branches: seq<string>, base: string, x: string)
    ensures x in MatchingBackups(branches, base) <==> x in branches && IsBackupOf(x, base)
  {
    if branches != [] {
      var init := branches[..|branches| - 1];
      MatchingBackupsExact(init, base, x);
      assert branches == init + [branches[|branches| - 1]];
    }
  }

  lemma MatchingBackupsSnoc(all: seq<string>, i: int, base: string)
    requires 0 <= i < |all|
    ensures MatchingBackups(all[..i + 1], base) == MatchingBackups(all[..i], base) + (if IsBackupOf(all[i], base) then [all[i]] else [])
  {
    assert all[..i + 1][..i] == all[..i];
  }

  /** Every branch kept is named as a backup of the base. */
  lemma MatchingBackupsAreBackups(branches: seq<string>, base: string)
    ensures forall i :: 0 <= i < |MatchingBackups(branches, base)| ==> IsBackupOf(MatchingBackups(branches, base)[i], base)
  {
    var r := MatchingBackups(branches, base);
    forall i | 0 <= i < |r| ensures IsBackupOf(r[i], base) {
      MatchingBackupsExact(branches, base, r[i]);
    }
  }

  /** `getExistingBackups`: the loop appending each matching branch. */
  method GetExistingBackups(branchesOutput: Result<string>, base: string) returns (backups: seq<string>)
    ensures backups == ExistingBackups(AllBranches(branchesOutput), base)
  {
    var branches := GetAllBranches(branchesOutput);
    if branches.Err? {
      return [];
    }
    backups := KeepBackups(branches.value, base);
  }

  /** The loop of `getExistingBackups`: appends the matching branches, in order. */
  method KeepBackups(all: seq<string>, base: string) returns (backups: seq<string>)
    ensures backups == MatchingBackups(all, base)
  {
    backups := [];
    var i := 0;
    while i < |all|
      invariant 0 <= i <= |all|
      invariant backups == MatchingBackups(all[..i], base)
    {
      var branch := all[i];
      MatchingBackupsSnoc(all, i, base);
      if IsBackupOf(branch, base) {
        backups := backups + [branch];
      }
      i := i + 1;
    }
    assert all[..i] == all;
  }

  /** The longest run of digits at the front. */
  function DigitRun(s: string): (d: string)
    ensures |d| <= |s| && d == s[..|d|] && AllDigits(d)
    ensures |d| < |s| ==> !IsDigit(s[|d|])
  {
    if s == [] || !IsDigit(s[0]) then ""
    else
      var rest := DigitRun(s[1..]);
      assert [s[0]] + rest == s[..|rest| + 1];
      [s[0]] + rest
  }

  /** The digits of the leftmost match of `base-(\d+)` at or after position `p`. */
  function FindNumbered(b: string, base: string, p: nat): Option<string>
    decreases |b| - p
  {
    if p + |base| + 2 > |b| then None
    else if b[p..p + |base| + 1] == base + "-" && IsDigit(b[p + |base| + 1]) then Some(DigitRun(b[p + |base| + 1..]))
    else FindNumbered(b, base, p + 1)
  }

  /** What one existing backup contributes to `numbers`: the number after `base-` if
      it fits `int`, 0 for exactly `base`, nothing otherwise. A match whose digits
      overflow is skipped without trying the exact pattern. */
  function NumberOf(b: string, base: string): Option<int> {
    match FindNumbered(b, base, 0)
    case Some(d) => Atoi(d)
    case None => if b == base then Some(0) else None
  }

  function NumbersOf(backups: seq<string>, base: string): (ns: seq<int>)
    ensures |ns| <= |backups|
  {
    if backups == [] then []
    else
      var last := backups[|backups| - 1];
      var n := NumberOf(last, base);
      NumbersOf(backups[..|backups| - 1], base) + (if n.Some? then [n.value] else [])
  }

  /** The last element of `numbers` after `sort.Ints`. */
  function MaxOf(ns: seq<int>): (m: int)
    requires |ns| > 0
    ensures m in ns && forall i :: 0 <= i < |ns| ==> ns[i] <= m
  {
    if |ns| == 1 then ns[0]
    else
      var m := MaxOf(ns[..|ns| - 1]);
      assert ns == ns[..|ns| - 1] + [ns[|ns| - 1]];
      if ns[|ns| - 1] > m then ns[|ns| - 1] else m
  }

  /** `n + 1` on a 64-bit `int`: the largest value wraps to the smallest. */
  function Succ64(n: int): (r: int)
    requires InInt64(n)
    ensures InInt64(r)
    ensures n < MaxInt64 ==> r == n + 1
    ensures n == MaxInt64 ==> r == MinInt64
  {
    if n == MaxInt64 then MinInt64 else n + 1
  }

  function NextNumber(backups: seq<string>, base: string): int {
    if backups == [] then 1
    else
      var ns := NumbersOf(backups, base);
      if ns == [] then 1
      else
        NumbersInInt64(backups, base);
        Succ64(MaxOf(ns))
  }

  lemma {:induction false} NumberOfInInt64(b: string, base: string)
    ensures NumberOf(b, base).Some? ==> 0 <= NumberOf(b, base).value <= MaxInt64
  {
    match FindNumbered(b, base, 0)
    case Some(d) => FindNumberedDigits(b, base, 0);
    case None =>
  }

  lemma {:induction false} FindNumberedDigits(b: string, base: string, p: nat)
    ensures FindNumbered(b, base, p).Some? ==> |FindNumbered(b, base, p).value| > 0 && AllDigits(FindNumbered(b, base, p).value)
    decreases |b| - p
  {
    if p + |base| + 2 <= |b| && !(b[p..p + |base| + 1] == base + "-" && IsDigit(b[p + |base| + 1])) {
      FindNumberedDigits(b, base, p + 1);
    }
  }

  lemma {:induction false} NumbersInInt64(backups: seq<string>, base: string)
    ensures forall i :: 0 <= i < |NumbersOf(backups, base)| ==> 0 <= NumbersOf(backups, base)[i] <= MaxInt64
  {
    if backups != [] {
      NumbersInInt64(backups[..|backups| - 1], base);
      NumberOfInInt64(backups[|backups| - 1], base);
    }
  }

  /** A number contributed by any existing backup is in `numbers`. */
  lemma {:induction false} NumberOfIsCollected(backups: seq<string>, base: string, i: nat)
    requires i < |backups| && NumberOf(backups[i], base).Some?
    ensures NumberOf(backups[i], base).value in NumbersOf(backups, base)
  {
    if i < |backups| - 1 {
      NumberOfIsCollected(backups[..|backups| - 1], base, i);
    }
  }

  /** `getNextBackupNumber`: the loop collecting `numbers`, then the largest plus one. */
  method GetNextBackupNumber(existing: seq<string>, base: string) returns (n: int)
    ensures n == NextNumber(existing, base)
  {
    if |existing| == 0 {
      return 1;
    }
    var numbers: seq<int> := [];
    var i := 0;
    while i < |existing|
      invariant 0 <= i <= |existing|
      invariant numbers == NumbersOf(existing[..i], base)
    {
      assert existing[..i + 1][..i] == existing[..i];
      var num := NumberOf(existing[i], base);
      if num.Some? {
        numbers := numbers + [num.value];
      }
      i := i + 1;
    }
    assert existing[..i] == existing;
    if |numbers| == 0 {
      return 1;
    }
    NumbersInInt64(existing, base);
    n := Succ64(MaxOf(numbers));
  }

  /** The next number is above every number taken, unless the largest is the
      largest `int`, where it wraps to the smallest. */
  lemma NextNumberExceeds(backups: seq<string>, base: string, i: nat)
    requires i < |backups| && NumberOf(backups[i], base).Some?
    ensures NextNumber(backups, base) == MinInt64 || NumberOf(backups[i], base).value < NextNumber(backups, base)
  {
    NumberOfIsCollected(backups, base, i);
    NumbersInInt64(backups, base);
  }

  /** The next number is 1 or more, except after the wrap. */
  lemma NextNumberPositive(backups: seq<string>, base: string)
    ensures NextNumber(backups, base) >= 1 || NextNumber(backups, base) == MinInt64
  {
    NumbersInInt64(backups, base);
    var ns := NumbersOf(backups, base);
    if backups != [] && ns != [] {
      assert 0 <= ns[0] <= MaxOf(ns);
    }
  }

  /** `hasExactMatch`: some existing backup is exactly the base name. */
  function HasExactMatch(existing: seq<string>, base: string): (r: bool)
    ensures r <==> base in existing
  {
    if existing == [] then false
    else existing[0] == base || HasExactMatch(existing[1..], base)
  }

  /** The name `main` settles on. */
  function BackupName(base: string, existing: seq<string>): string {
    var n := NextNumber(existing, base);
    if n == 1 && !HasExactMatch(existing, base) then base else base + "-" + IntToString(n)
  }

  /** A numbered name reads back as its own number. */
  lemma NumberOfNumbered(base: string, digits: string)
    requires |digits| > 0 && AllDigits(digits)
    ensures NumberOf(base + "-" + digits, base) == Atoi(digits)
  {
    var b := base + "-" + digits;
    assert b[..|base| + 1] == base + "-";
    assert b[|base| + 1..] == digits;
    assert DigitRun(digits) == digits;
  }

  /** After the wrap the name has `--` after the base, which no backup has. */
  lemma WrappedNameIsNoBackup(base: string, n: int)
    requires |base| > 0 && !ReSpace(base[0]) && n < 0
    ensures !IsBackupOf(base + "-" + IntToString(n), base)
  {
    var name := base + "-" + IntToString(n);
    assert name[|base| + 1..] == IntToString(n);
    forall k | 0 <= k <= |name| ensures !(AllReSpace(name[..k]) && ExactOrNumbered(name[k..], base)) {
      if k > 0 {
        assert name[..k][0] == base[0];
      } else {
        assert name[k..] == name;
        assert name[|base| + 1..][0] == '-';
      }
    }
  }

  /** `base-n` with the next number `n` is no existing backup. */
  lemma NumberedNameIsFresh(base: string, existing: seq<string>, n: int)
    requires NextNumber(existing, base) == n >= 1
    ensures base + "-" + IntToString(n) !in existing
  {
    var digits := NatToString(n);
    var name := base + "-" + digits;
    if name in existing {
      var i :| 0 <= i < |existing| && existing[i] == name;
      NumberOfNumbered(base, digits);
      AtoiOfIntToString(n);
      NextNumberExceeds(existing, base, i);
    }
  }

  /** The chosen name is never one of the existing backups. */
  lemma BackupNameFresh(branch: string, date: string, existing: seq<string>)
    requires forall i :: 0 <= i < |existing| ==> IsBackupOf(existing[i], BackupBase(branch, date))
    ensures BackupName(BackupBase(branch, date), existing) !in existing
  {
    var base := BackupBase(branch, date);
    var n := NextNumber(existing, base);
    NextNumberPositive(existing, base);
    if !(n == 1 && !HasExactMatch(existing, base)) {
      if n == MinInt64 {
        WrappedNameIsNoBackup(base, n);
      } else {
        NumberedNameIsFresh(base, existing, n);
      }
    }
  }

  /** The chosen name matches the backup pattern unless the number wrapped. */
  lemma BackupNameMatches(base: string, existing: seq<string>)
    requires NextNumber(existing, base) != MinInt64
    ensures IsBackupOf(BackupName(base, existing), base)
  {
    var n := NextNumber(existing, base);
    var name := BackupName(base, existing);
    NextNumberPositive(existing, base);
    assert name[..0] == "";
    if name != base {
      assert name == base + "-" + NatToString(n);
      assert name[..|base| + 1] == base + "-";
      assert name[|base| + 1..] == NatToString(n);
    }
    assert name[0..] == name;
  }

  /** With the backups `getExistingBackups` finds, the chosen name is a new branch;
      only after the number wraps can it collide with a branch outside the pattern. */
  lemma BackupNameNew(branch: string, date: string, branches: seq<string>)
    ensures var base := BackupBase(branch, date);
      BackupName(base, MatchingBackups(branches, base)) in branches ==> NextNumber(MatchingBackups(branches, base), base) == MinInt64
  {
    var base := BackupBase(branch, date);
    var existing := MatchingBackups(branches, base);
    var name := BackupName(base, existing);
    MatchingBackupsAreBackups(branches, base);
    BackupNameFresh(branch, date, existing);
    if NextNumber(existing, base) != MinInt64 {
      BackupNameMatches(base, existing);
      MatchingBackupsExact(branches, base, name);
    }
  }

  // ---------------------------------------------------------------------------
  // Purge and list (git-backup.go:190-291)
  // ---------------------------------------------------------------------------

  /** `backups/<current>/` */
  function BackupPrefix(current: string): string {
    "backups/" + current + "/"
  }

  function WithPrefix(branches: seq<string>, prefix: string): (r: seq<string>)
    ensures |r| <= |branches|
  {
    if branches == [] then []
    else
      var last := branches[|branches| - 1];
      WithPrefix(branches[..|branches| - 1], prefix) + (if HasPrefix(last, prefix) then [last] else [])
  }

  /** The prefix filter keeps exactly the branches with the prefix... */
  lemma {:induction false} WithPrefixExact(branches: seq<string>, prefix: string, x: string)
    ensures x in WithPrefix(branches, prefix) <==> x in branches && HasPrefix(x, prefix)
  {
    if branches != [] {
      var init := branches[..|branches| - 1];
      WithPrefixExact(init, prefix, x);
      assert branches == init + [branches[|branches| - 1]];
    }
  }

  /** ... and keeps their order. */
  lemma {:induction false} WithPrefixConcat(a: seq<string>, b: seq<string>, prefix: string)
    ensures WithPrefix(a + b, prefix) == WithPrefix(a, prefix) + WithPrefix(b, prefix)
    decreases |b|
  {
    if b == [] {
      assert a + b == a;
    } else {
      var init := b[..|b| - 1];
      WithPrefixConcat(a, init, prefix);
      assert (a + b)[..|a + b| - 1] == a + init;
    }
  }

  /** Every branch kept starts with the prefix. */
  lemma WithPrefixHasPrefix(branches: seq<string>, prefix: string)
    ensures forall i :: 0 <= i < |WithPrefix(branches, prefix)| ==> HasPrefix(WithPrefix(branches, prefix)[i], prefix)
  {
    var r := WithPrefix(branches, prefix);
    forall i | 0 <= i < |r| ensures HasPrefix(r[i], prefix) {
      WithPrefixExact(branches, prefix, r[i]);
    }
  }

  lemma WithPrefixSnoc(all: seq<string>, i: int, prefix: string)
    requires 0 <= i < |all|
    ensures WithPrefix(all[..i + 1], prefix) == WithPrefix(all[..i], prefix) + (if HasPrefix(all[i], prefix) then [all[i]] else [])
  {
    assert all[..i + 1][..i] == all[..i];
  }

  /** `getAllBackupBranches`: an error listing the branches gives none. */
  method GetAllBackupBranches(branchesOutput: Result<string>, prefix: string) returns (backups: seq<string>)
    ensures AllBranches(branchesOutput).Err? ==> backups == []
    ensures AllBranches(branchesOutput).Ok? ==> backups == WithPrefix(AllBranches(branchesOutput).value, prefix)
  {
    var branches := GetAllBranches(branchesOutput);
    if branches.Err? {
      return [];
    }
    backups := KeepWithPrefix(branches.value, prefix);
  }

  /** The loop of `getAllBackupBranches`: appends the branches with the prefix, in order. */
  method KeepWithPrefix(all: seq<string>, prefix: string) returns (backups: seq<string>)
    ensures backups == WithPrefix(all, prefix)
  {
    backups := [];
    var i := 0;
    while i < |all|
      invariant 0 <= i <= |all|
      invariant backups == WithPrefix(all[..i], prefix)
    {
      var branch := all[i];
      WithPrefixSnoc(all, i, prefix);
      if HasPrefix(branch, prefix) {
        backups := backups + [branch];
      }
      i := i + 1;
    }
    assert all[..i] == all;
  }

  /** The purge answers that go ahead. */
  predicate Confirmed(response: string) {
    response == "y" || response == "Y" || response == "yes" || response == "YES"
  }

  /** How many deletions succeed. */
  function Deleted(branches: seq<string>, delete: string -> Status): (n: nat)
    ensures n <= |branches|
  {
    if branches == [] then 0
    else Deleted(branches[..|branches| - 1], delete) + (if delete(branches[|branches| - 1]).Done? then 1 else 0)
  }

  /** Every backup is deleted exactly when the count reaches the total. */
  lemma {:induction false} DeletedAll(branches: seq<string>, delete: string -> Status)
    ensures Deleted(branches, delete) == |branches| <==> forall i :: 0 <= i < |branches| ==> delete(branches[i]).Done?
  {
    if branches != [] {
      var init := branches[..|branches| - 1];
      DeletedAll(init, delete);
      assert forall i :: 0 <= i < |init| ==> init[i] == branches[i];
    }
  }

  /** The deletion loop of `handlePurgeMode`: a failed deletion is reported and skipped. */
  method DeleteBackups(branches: seq<string>, delete: string -> Status) returns (deletedCount: nat)
    ensures deletedCount == Deleted(branches, delete)
  {
    deletedCount := 0;
    var i := 0;
    while i < |branches|
      invariant 0 <= i <= |branches|
      invariant deletedCount == Deleted(branches[..i], delete)
    {
      assert branches[..i + 1][..i] == branches[..i];
      if delete(branches[i]).Done? {
        deletedCount := deletedCount + 1;
      }
      i := i + 1;
    }
    assert branches[..i] == branches;
  }

  // ---------------------------------------------------------------------------
  // The whole command (git-backup.go:14-125, 190-274)
  // ---------------------------------------------------------------------------

  /** What git answers: the output of `git branch -a` and of `git branch
      --show-current`, whether a reference exists, the branch a reference names
      (empty when none), today's date, the purge answer, and the effect of creating
      and deleting a branch. */
  datatype BackupEnv = BackupEnv(
    branchesOutput: Result<string>,
    currentOutput: Result<string>,
    refExists: string -> bool,
    branchName: string -> string,
    date: string,
    response: string,
    create: (string, string) -> Status,
    delete: string -> Status)

  datatype BackupOutcome =
    | ShowHelp
    | Failed(msg: string)
    | Created(name: string, source: string)
    | NoBackups(branch: string)
    | PurgeCancelled
    | Purged(deleted: nat, total: nat)
    | Listed(backups: seq<string>)

  /** The branches `GetAllBranches` reads from the output of `git branch -a`. */
  function AllBranches(output: Result<string>): Result<seq<string>> {
    if output.Err? then Err(output.msg) else Ok(Branches(Split(output.value, '\n')))
  }

  function BackupsOfCurrent(current: string, env: BackupEnv): seq<string> {
    var all := AllBranches(env.branchesOutput);
    if all.Err? then [] else WithPrefix(all.value, BackupPrefix(current))
  }

  const NoCurrent: string := "Could not determine current branch name: "

  /** `handlePurgeMode`: a purge reports no more deletions than backups, and runs
      only when forced or answered with `y`, `Y`, `yes` or `YES`. */
  function PurgeSpec(force: bool, env: BackupEnv): (r: BackupOutcome)
    ensures r.Purged? ==> 0 < r.total && r.deleted <= r.total
    ensures r.Purged? ==> force || Confirmed(env.response)
    ensures r.PurgeCancelled? <==> (CurrentBranch(env.currentOutput).Ok?
      && BackupsOfCurrent(CurrentBranch(env.currentOutput).value, env) != [] && !force && !Confirmed(env.response))
  {
    var current := CurrentBranch(env.currentOutput);
    if current.Err? then Failed(NoCurrent + current.msg)
    else
      var backups := BackupsOfCurrent(current.value, env);
      if backups == [] then NoBackups(current.value)
      else if !force && !Confirmed(env.response) then PurgeCancelled
      else Purged(Deleted(backups, env.delete), |backups|)
  }

  /** `handleListMode`: the backups of the current branch, sorted. */
  function ListSpec(env: BackupEnv): (r: BackupOutcome)
    ensures r.Listed? ==> (CurrentBranch(env.currentOutput).Ok? && Sorted(r.backups)
      && multiset(r.backups) == multiset(BackupsOfCurrent(CurrentBranch(env.currentOutput).value, env))
      && forall i :: 0 <= i < |r.backups| ==> HasPrefix(r.backups[i], BackupPrefix(CurrentBranch(env.currentOutput).value)))
  {
    var current := CurrentBranch(env.currentOutput);
    if current.Err? then Failed(NoCurrent + current.msg)
    else
      var backups := BackupsOfCurrent(current.value, env);
      if backups == [] then NoBackups(current.value)
      else
        var sorted := Sort(backups);
        WithPrefixHasPrefix(AllBranches(env.branchesOutput).value, BackupPrefix(current.value));
        assert forall i :: 0 <= i < |sorted| ==> sorted[i] in multiset(backups);
        Listed(sorted)
  }

  /** The branch to name the backup after and the reference to copy: the branch a
      given reference names (or the reference itself), else the current branch. */
  function TargetOf(gitRef: string, env: BackupEnv): Result<(string, string)> {
    if gitRef != "" then
      if !env.refExists(gitRef) then Err("Git reference '" + gitRef + "' does not exist.")
      else
        var name := env.branchName(gitRef);
        Ok((if name != "" then name else gitRef, gitRef))
    else
      var current := CurrentBranch(env.currentOutput);
      if current.Err? then Err(NoCurrent + current.msg) else Ok((current.value, current.value))
  }

  /** Creating the backup of `gitRef`, or of the current branch when it is empty. */
  function CreateSpec(gitRef: string, env: BackupEnv): BackupOutcome {
    var target := TargetOf(gitRef, env);
    if target.Err? then Failed(target.msg)
    else
      var base := BackupBase(target.value.0, env.date);
      var name := BackupName(base, ExistingBackups(AllBranches(env.branchesOutput), base));
      var st := env.create(name, target.value.1);
      if st.Fail? then Failed("Failed to create backup branch: " + st.err)
      else Created(name, target.value.1)
  }

  /** `main`: purge wins over list, list over creating a backup. */
  function BackupSpec(args: seq<string>, env: BackupEnv): BackupOutcome {
    match ParseBackupArgs(args)
    case Help => ShowHelp
    case ArgError(m) => Failed(m)
    case Args(mode) =>
      if mode.purge then PurgeSpec(mode.force, env)
      else if mode.list then ListSpec(env)
      else CreateSpec(mode.gitRef, env)
  }

  /** A backup is made from the target reference under
      `backups/<branch>/<date>[-N]`, and when the branches could be listed it is a
      new branch, unless the number wrapped to the smallest `int`. */
  lemma CreatedIsNew(gitRef: string, env: BackupEnv)
    requires CreateSpec(gitRef, env).Created?
    ensures TargetOf(gitRef, env).Ok?
    ensures var base := BackupBase(TargetOf(gitRef, env).value.0, env.date);
      var name := CreateSpec(gitRef, env).name;
      && CreateSpec(gitRef, env).source == TargetOf(gitRef, env).value.1
      && (name == base || HasPrefix(name, base + "-"))
      && (AllBranches(env.branchesOutput).Ok? && name in AllBranches(env.branchesOutput).value ==>
            name == base + "-" + IntToString(MinInt64))
  {
    var base := BackupBase(TargetOf(gitRef, env).value.0, env.date);
    var name := CreateSpec(gitRef, env).name;
    var existing := ExistingBackups(AllBranches(env.branchesOutput), base);
    var n := NextNumber(existing, base);
    if name != base {
      assert name == base + "-" + IntToString(n);
      assert name[..|base + "-"|] == base + "-";
    }
    if AllBranches(env.branchesOutput).Ok? {
      BackupNameNew(TargetOf(gitRef, env).value.0, env.date, AllBranches(env.branchesOutput).value);
    }
  }

  /** `main`, with the helpers' loops. */
  method Run(args: seq<string>, env: BackupEnv) returns (out: BackupOutcome)
    ensures out == BackupSpec(args, env)
  {
    var parsed := ParseArgs(args);
    if parsed.Help? {
      return ShowHelp;
    }
    if parsed.ArgError? {
      return Failed(parsed.msg);
    }
    var mode := parsed.mode;
    if mode.purge || mode.list {
      var current := CurrentBranch(env.currentOutput);
      if current.Err? {
        return Failed(NoCurrent + current.msg);
      }
      var backups := GetAllBackupBranches(env.branchesOutput, BackupPrefix(current.value));
      if backups == [] {
        return NoBackups(current.value);
      }
      if mode.purge {
        if !mode.force && !Confirmed(env.response) {
          return PurgeCancelled;
        }
        var deletedCount := DeleteBackups(backups, env.delete);
        return Purged(deletedCount, |backups|);
      }
      return Listed(Sort(backups));
    }
    var targetBranch: string;
    var targetRef: string;
    if mode.gitRef != "" {
      if !env.refExists(mode.gitRef) {
        return Failed("Git reference '" + mode.gitRef + "' does not exist.");
      }
      var branchName := env.branchName(mode.gitRef);
      if branchName != "" {
        targetBranch := branchName;
      } else {
        targetBranch := mode.gitRef;
      }
      targetRef := mode.gitRef;
    } else {
      var current := CurrentBranch(env.currentOutput);
      if current.Err? {
        return Failed(NoCurrent + current.msg);
      }
      targetBranch := current.value;
      targetRef := targetBranch;
    }
    var base := BackupBase(targetBranch, env.date);
    var existing := GetExistingBackups(env.branchesOutput, base);
    var number := GetNextBackupNumber(existing, base);
    var name: string;
    if number == 1 && !HasExactMatch(existing, base) {
      name := base;
    } else {
      name := base + "-" + IntToString(number);
    }
    var st := env.create(name, targetRef);
    if st.Fail? {
      return Failed("Failed to create backup branch: " + st.err);
    }
    return Created(name, targetRef);
  }
}
