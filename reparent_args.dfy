/**
  The command line of `git reparent`: the options, the flag loop of `parseArgs`
  and the checks made after it (git-reparent.go:51-106).
*/
module ReparentArgs {
  import opened Strings

  datatype Options = Options(
    parentRef: string,
    numberOfCommits: int,
    fromRef: string,
    shouldBackup: bool,
    shouldConfirm: bool,
    noBranch: bool)

  /** `Help` stands for printing the usage and exiting with status 0. */
  datatype ParseOutcome = Parsed(opts: Options) | Help | ParseError(msg: string)

  /** Only the last commit, nothing else set. */
  const Defaults: Options := Options("", 1, "", false, false, false)

  /** The checks after the loop: a parent is required, and `--from` clashes with
      a commit count other than 1. */
  function Validate(o: Options): ParseOutcome {
    if o.parentRef == "" then ParseError("--parent is required")
    else if o.fromRef != "" && o.numberOfCommits != 1 then ParseError("cannot specify both --number and --from")
    else Parsed(o)
  }

  /** The flag loop from position `i`, with the options read so far. */
  function Scan(args: seq<string>, i: nat, o: Options): ParseOutcome
    requires i <= |args|
    decreases |args| - i
  {
    if i == |args| then Validate(o)
    else
      var arg := args[i];
      if arg == "--parent" || arg == "-p" then
        if i + 1 >= |args| then ParseError("--parent requires a value")
        else Scan(args, i + 2, o.(parentRef := args[i + 1]))
      else if arg == "--number" || arg == "-n" then
        if i + 1 >= |args| then ParseError("--number requires a value")
        else
          var num := Atoi(args[i + 1]);
          if num.None? || num.value < 1 then ParseError("--number must be a positive integer")
          else Scan(args, i + 2, o.(numberOfCommits := num.value))
      else if arg == "--from" then
        if i + 1 >= |args| then ParseError("--from requires a value")
        else Scan(args, i + 2, o.(fromRef := args[i + 1]))
      else if arg == "--backup" then Scan(args, i + 1, o.(shouldBackup := true))
      else if arg == "--confirm" then Scan(args, i + 1, o.(shouldConfirm := true))
      else if arg == "--no-branch" then Scan(args, i + 1, o.(noBranch := true))
      else if arg == "--help" || arg == "-h" then Help
      else ParseError("unknown option: " + arg)
  }

  /** What `parseArgs` decides for the arguments after the program name. */
  function Parse(args: seq<string>): ParseOutcome {
    Scan(args, 0, Defaults)
  }

  /** `parseArgs`: the index loop updating the options in place. */
  method ParseArgs(args: seq<string>) returns (r: ParseOutcome)
    ensures r == Parse(args)
  {
    var opts := Defaults;
    var i := 0;
    while i < |args|
      invariant 0 <= i <= |args|
      invariant Scan(args, i, opts) == Parse(args)
      decreases |args| - i
    {
      var arg := args[i];
      if arg == "--parent" || arg == "-p" {
        if i + 1 >= |args| {
          return ParseError("--parent requires a value");
        }
        opts := opts.(parentRef := args[i + 1]);
        i := i + 1;
      } else if arg == "--number" || arg == "-n" {
        if i + 1 >= |args| {
          return ParseError("--number requires a value");
        }
        var num := Atoi(args[i + 1]);
        if num.None? || num.value < 1 {
          return ParseError("--number must be a positive integer");
        }
        opts := opts.(numberOfCommits := num.value);
        i := i + 1;
      } else if arg == "--from" {
        if i + 1 >= |args| {
          return ParseError("--from requires a value");
        }
        opts := opts.(fromRef := args[i + 1]);
        i := i + 1;
      } else if arg == "--backup" {
        opts := opts.(shouldBackup := true);
      } else if arg == "--confirm" {
        opts := opts.(shouldConfirm := true);
      } else if arg == "--no-branch" {
        opts := opts.(noBranch := true);
      } else if arg == "--help" || arg == "-h" {
        return Help;
      } else {
        return ParseError("unknown option: " + arg);
      }
      i := i + 1;
    }
    if opts.parentRef == "" {
      return ParseError("--parent is required");
    }
    if opts.fromRef != "" && opts.numberOfCommits != 1 {
      return ParseError("cannot specify both --number and --from");
    }
    return Parsed(opts);
  }

  /** Accepted options always name a parent, count at least one commit, and use
      `--from` only with the count 1. */
  predicate WellFormed(o: Options) {
    o.parentRef != "" && o.numberOfCommits >= 1 && (o.fromRef != "" ==> o.numberOfCommits == 1)
  }

  lemma {:induction false} ScanWellFormed(args: seq<string>, i: nat, o: Options)
    requires i <= |args| && o.numberOfCommits >= 1
    ensures Scan(args, i, o).Parsed? ==> WellFormed(Scan(args, i, o).opts)
    decreases |args| - i
  {
    if i < |args| {
      var arg := args[i];
      if arg == "--parent" || arg == "-p" {
        if i + 1 < |args| { ScanWellFormed(args, i + 2, o.(parentRef := args[i + 1])); }
      } else if arg == "--number" || arg == "-n" {
        if i + 1 < |args| {
          var num := Atoi(args[i + 1]);
          if num.Some? && num.value >= 1 { ScanWellFormed(args, i + 2, o.(numberOfCommits := num.value)); }
        }
      } else if arg == "--from" {
        if i + 1 < |args| { ScanWellFormed(args, i + 2, o.(fromRef := args[i + 1])); }
      } else if arg == "--backup" {
        ScanWellFormed(args, i + 1, o.(shouldBackup := true));
      } else if arg == "--confirm" {
        ScanWellFormed(args, i + 1, o.(shouldConfirm := true));
      } else if arg == "--no-branch" {
        ScanWellFormed(args, i + 1, o.(noBranch := true));
      }
    }
  }

  /** Whatever the arguments, accepted options are well formed. */
  lemma ParsedWellFormed(args: seq<string>)
    ensures Parse(args).Parsed? ==> WellFormed(Parse(args).opts)
  {
    ScanWellFormed(args, 0, Defaults);
  }

  /** The switches that take no value. */
  predicate IsSwitch(arg: string) {
    arg == "--backup" || arg == "--confirm" || arg == "--no-branch"
  }

  predicate IsKnown(arg: string) {
    || IsSwitch(arg) || arg == "--parent" || arg == "-p" || arg == "--number" || arg == "-n"
    || arg == "--from" || arg == "--help" || arg == "-h"
  }

  /** Past a run of switches, the scan continues with those switches set. */
  lemma {:induction false} ScanSwitches(args: seq<string>, i: nat, j: nat, o: Options)
    requires i <= j <= |args|
    requires forall k :: i <= k < j ==> IsSwitch(args[k])
    ensures exists o' :: Scan(args, i, o) == Scan(args, j, o') && o'.parentRef == o.parentRef
    decreases j - i
  {
    if i < j {
      var arg := args[i];
      var o1 := if arg == "--backup" then o.(shouldBackup := true)
        else if arg == "--confirm" then o.(shouldConfirm := true)
        else o.(noBranch := true);
      assert Scan(args, i, o) == Scan(args, i + 1, o1);
      ScanSwitches(args, i + 1, j, o1);
    } else {
      assert Scan(args, i, o) == Scan(args, j, o);
    }
  }

  /** A flag that needs a value but comes last is rejected. */
  lemma MissingValueRejected(switches: seq<string>, flag: string)
    requires forall k :: 0 <= k < |switches| ==> IsSwitch(switches[k])
    requires flag in ["--parent", "-p", "--number", "-n", "--from"]
    ensures Parse(switches + [flag]).ParseError?
  {
    var args := switches + [flag];
    ScanSwitches(args, 0, |switches|, Defaults);
  }

  /** An argument that is no option at all is rejected by name. */
  lemma UnknownOptionRejected(switches: seq<string>, arg: string, rest: seq<string>)
    requires forall k :: 0 <= k < |switches| ==> IsSwitch(switches[k])
    requires !IsKnown(arg)
    ensures Parse(switches + [arg] + rest) == ParseError("unknown option: " + arg)
  {
    var args := switches + [arg] + rest;
    ScanSwitches(args, 0, |switches|, Defaults);
  }

  /** `--help` ends the parse whatever follows it. */
  lemma HelpStopsParsing(switches: seq<string>, rest: seq<string>)
    requires forall k :: 0 <= k < |switches| ==> IsSwitch(switches[k])
    ensures Parse(switches + ["--help"] + rest) == Help
  {
    var args := switches + ["--help"] + rest;
    ScanSwitches(args, 0, |switches|, Defaults);
  }

  /** The parent alone selects the last commit. */
  lemma NumberDefaultsToOne(parent: string)
    requires parent != ""
    ensures Parse(["--parent", parent]) == Parsed(Options(parent, 1, "", false, false, false))
  {
    var args := ["--parent", parent];
    assert Scan(args, 0, Defaults) == Scan(args, 2, Defaults.(parentRef := parent));
  }

  /** Without a parent nothing is accepted. */
  lemma {:induction false} ScanNeedsParent(args: seq<string>, i: nat, o: Options)
    requires i <= |args| && o.parentRef == ""
    requires forall k :: i <= k < |args| ==> args[k] != "--parent" && args[k] != "-p"
    ensures !Scan(args, i, o).Parsed?
    decreases |args| - i
  {
    if i < |args| {
      var arg := args[i];
      if arg == "--number" || arg == "-n" {
        if i + 1 < |args| {
          var num := Atoi(args[i + 1]);
          if num.Some? && num.value >= 1 { ScanNeedsParent(args, i + 2, o.(numberOfCommits := num.value)); }
        }
      } else if arg == "--from" {
        if i + 1 < |args| { ScanNeedsParent(args, i + 2, o.(fromRef := args[i + 1])); }
      } else if arg == "--backup" {
        ScanNeedsParent(args, i + 1, o.(shouldBackup := true));
      } else if arg == "--confirm" {
        ScanNeedsParent(args, i + 1, o.(shouldConfirm := true));
      } else if arg == "--no-branch" {
        ScanNeedsParent(args, i + 1, o.(noBranch := true));
      }
    }
  }

  /** `--parent` is required. */
  lemma ParentRequired(args: seq<string>)
    requires forall k :: 0 <= k < |args| ==> args[k] != "--parent" && args[k] != "-p"
    ensures !Parse(args).Parsed?
  {
    ScanNeedsParent(args, 0, Defaults);
  }

  /** The count is accepted exactly when it reads as an integer of at least 1. */
  lemma NumberMustBePositive(parent: string, count: string)
    requires parent != ""
    ensures Parse(["-p", parent, "-n", count]).Parsed? <==> Atoi(count).Some? && Atoi(count).value >= 1
    ensures Parse(["-p", parent, "-n", count]).Parsed? ==> Parse(["-p", parent, "-n", count]).opts.numberOfCommits == Atoi(count).value
  {
    var args := ["-p", parent, "-n", count];
    assert Scan(args, 0, Defaults) == Scan(args, 2, Defaults.(parentRef := parent));
  }

  /** `--from` together with `--number` is rejected only when the count is not 1:
      `--number 1 --from <ref>` is accepted. */
  lemma FromClashesOnlyWithCountOtherThanOne(parent: string, from: string, count: string)
    requires parent != "" && from != ""
    requires Atoi(count).Some? && Atoi(count).value >= 1
    ensures Parse(["-p", parent, "--from", from, "-n", count]).Parsed? <==> Atoi(count).value == 1
  {
    var args := ["-p", parent, "--from", from, "-n", count];
    var o1 := Defaults.(parentRef := parent);
    assert Scan(args, 0, Defaults) == Scan(args, 2, o1);
    var o2 := o1.(fromRef := from);
    assert Scan(args, 2, o1) == Scan(args, 4, o2);
    var o3 := o2.(numberOfCommits := Atoi(count).value);
    assert Scan(args, 4, o2) == Scan(args, 6, o3);
  }
}
