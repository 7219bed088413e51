/**
  The command line of `git bookmark` (git-bookmark.go:82-155): an action word,
  then `--name`, `--absolute` and the positionals the action takes.
*/
module BookmarkArgs {

  datatype Options = Options(action: string, name: string, reference: string, absolute: bool)

  /** `Help` stands for printing the usage and exiting with status 0. */
  datatype ParseOutcome = Parsed(opts: Options) | Help | ParseError(msg: string)

  /** The actions that name one bookmark. */
  predicate NamesBookmark(action: string) {
    action in {"create", "delete", "show", "checkout", "sync"}
  }

  /** The check after the loop. */
  function Validate(o: Options): ParseOutcome {
    if NamesBookmark(o.action) then
      if o.name == "" then ParseError(o.action + " action requires a bookmark name") else Parsed(o)
    else if o.action == "list" then Parsed(o)
    else ParseError("unknown action: " + o.action)
  }

  /** The loop over the arguments after the action, from position `i`. */
  function Scan(rest: seq<string>, i: nat, o: Options): ParseOutcome
    requires i <= |rest|
    decreases |rest| - i
  {
    if i == |rest| then Validate(o)
    else
      var arg := rest[i];
      if arg == "--name" || arg == "-n" then
        if i + 1 >= |rest| then ParseError(arg + " requires a value")
        else Scan(rest, i + 2, o.(name := rest[i + 1]))
      else if arg == "--absolute" || arg == "-a" then Scan(rest, i + 1, o.(absolute := true))
      else if arg == "--help" || arg == "-h" then Help
      else if o.action == "create" then
        if o.name == "" then Scan(rest, i + 1, o.(name := arg))
        else if o.reference == "" then Scan(rest, i + 1, o.(reference := arg))
        else ParseError("too many arguments for create action")
      else if o.action in {"delete", "show", "checkout", "sync"} then
        if o.name == "" then Scan(rest, i + 1, o.(name := arg))
        else ParseError("too many arguments for " + o.action + " action")
      else ParseError("unknown argument: " + arg)
  }

  const Blank: Options := Options("", "", "", false)

  /** What `parseArgs` decides for the arguments after the program name. `-` and
      `interactive` are recognised only as the first argument and end the parse. */
  function Parse(args: seq<string>): ParseOutcome {
    if args == [] then ParseError("action is required")
    else if args[0] == "--help" || args[0] == "-h" then Help
    else if args[0] == "-" then Parsed(Blank.(action := "checkout-previous"))
    else if args[0] == "interactive" then Parsed(Blank.(action := "interactive"))
    else Scan(args[1..], 0, Blank.(action := args[0]))
  }

  /** `parseArgs` */
  method ParseArgs(args: seq<string>) returns (r: ParseOutcome)
    ensures r == Parse(args)
  {
    if |args| == 0 {
      return ParseError("action is required");
    }
    if args[0] == "--help" || args[0] == "-h" {
      return Help;
    }
    var opts := Blank;
    if args[0] == "-" {
      opts := opts.(action := "checkout-previous");
      return Parsed(opts);
    }
    if args[0] == "interactive" {
      opts := opts.(action := "interactive");
      return Parsed(opts);
    }
    opts := opts.(action := args[0]);
    var rest := args[1..];
    var i := 0;
    while i < |rest|
      invariant 0 <= i <= |rest|
      invariant Scan(rest, i, opts) == Parse(args)
    {
      var arg := rest[i];
      if arg == "--name" || arg == "-n" {
        if i + 1 >= |rest| {
          return ParseError(arg + " requires a value");
        }
        opts := opts.(name := rest[i + 1]);
        i := i + 1;
      } else if arg == "--absolute" || arg == "-a" {
        opts := opts.(absolute := true);
      } else if arg == "--help" || arg == "-h" {
        return Help;
      } else if opts.action == "create" {
        if opts.name == "" {
          opts := opts.(name := arg);
        } else if opts.reference == "" {
          opts := opts.(reference := arg);
        } else {
          return ParseError("too many arguments for create action");
        }
      } else if opts.action == "delete" || opts.action == "show" || opts.action == "checkout" || opts.action == "sync" {
        if opts.name == "" {
          opts := opts.(name := arg);
        } else {
          return ParseError("too many arguments for " + opts.action + " action");
        }
      } else {
        return ParseError("unknown argument: " + arg);
      }
      i := i + 1;
    }
    if opts.action == "create" || opts.action == "delete" || opts.action == "show" || opts.action == "checkout" || opts.action == "sync" {
      if opts.name == "" {
        return ParseError(opts.action + " action requires a bookmark name");
      }
    } else if opts.action != "list" {
      return ParseError("unknown action: " + opts.action);
    }
    return Parsed(opts);
  }

  /** The actions `main` can be handed. */
  predicate KnownAction(action: string) {
    NamesBookmark(action) || action in {"list", "checkout-previous", "interactive"}
  }

  /** What the loop keeps: the action, and a name whenever the action names a
      bookmark. */
  lemma {:induction false} ScanKeepsAction(rest: seq<string>, i: nat, o: Options)
    requires i <= |rest|
    ensures Scan(rest, i, o).Parsed? ==> Scan(rest, i, o).opts.action == o.action
    ensures Scan(rest, i, o).Parsed? ==> (NamesBookmark(o.action) && Scan(rest, i, o).opts.name != "") || o.action == "list"
    decreases |rest| - i
  {
    if i < |rest| {
      var arg := rest[i];
      if arg == "--name" || arg == "-n" {
        if i + 1 < |rest| { ScanKeepsAction(rest, i + 2, o.(name := rest[i + 1])); }
      } else if arg == "--absolute" || arg == "-a" {
        ScanKeepsAction(rest, i + 1, o.(absolute := true));
      } else if arg == "--help" || arg == "-h" {
      } else if o.action == "create" {
        if o.name == "" {
          ScanKeepsAction(rest, i + 1, o.(name := arg));
        } else if o.reference == "" {
          ScanKeepsAction(rest, i + 1, o.(reference := arg));
        }
      } else if o.action in {"delete", "show", "checkout", "sync"} && o.name == "" {
        ScanKeepsAction(rest, i + 1, o.(name := arg));
      }
    }
  }

  /** Every accepted action is one of the eight `main` dispatches on, and the
      actions that name a bookmark always have a name. */
  lemma ParsedKnown(args: seq<string>)
    ensures Parse(args).Parsed? ==> KnownAction(Parse(args).opts.action)
    ensures Parse(args).Parsed? && NamesBookmark(Parse(args).opts.action) ==> Parse(args).opts.name != ""
  {
    if args != [] && args[0] != "--help" && args[0] != "-h" && args[0] != "-" && args[0] != "interactive" {
      ScanKeepsAction(args[1..], 0, Blank.(action := args[0]));
    }
  }

  /** `-` and `interactive` ignore whatever follows them. */
  lemma ShortcutsIgnoreRest(first: string, rest: seq<string>)
    requires first == "-" || first == "interactive"
    ensures Parse([first] + rest).Parsed?
    ensures Parse([first] + rest).opts.action == (if first == "-" then "checkout-previous" else "interactive")
  {
  }

  /** The action word `checkout-previous` itself is refused: only `-` selects it. */
  lemma CheckoutPreviousWordRejected(rest: seq<string>)
    requires forall k :: 0 <= k < |rest| ==> rest[k] !in {"-h", "--help", "-n", "--name"}
    ensures Parse(["checkout-previous"] + rest).ParseError?
  {
    var args := ["checkout-previous"] + rest;
    assert args[1..] == rest;
    AbsoluteFlagsThenError(rest, 0, Blank.(action := "checkout-previous"));
  }

  /** Past `--absolute` flags an action that takes no positional still fails on
      the first other argument, or at the end. */
  lemma {:induction false} AbsoluteFlagsThenError(rest: seq<string>, i: nat, o: Options)
    requires i <= |rest| && !NamesBookmark(o.action) && o.action != "list"
    requires forall k :: i <= k < |rest| ==> rest[k] !in {"-h", "--help", "-n", "--name"}
    ensures Scan(rest, i, o).ParseError?
    decreases |rest| - i
  {
    if i < |rest| && (rest[i] == "--absolute" || rest[i] == "-a") {
      AbsoluteFlagsThenError(rest, i + 1, o.(absolute := true));
    }
  }

  /** `create <name> <reference>` reads both, and a third positional is refused. */
  lemma CreatePositionals(name: string, reference: string, extra: string)
    requires name !in {"-n", "--name", "-a", "--absolute", "-h", "--help"}
    requires reference !in {"-n", "--name", "-a", "--absolute", "-h", "--help"}
    requires extra !in {"-n", "--name", "-a", "--absolute", "-h", "--help"}
    requires name != "" && reference != ""
    ensures Parse(["create", name, reference]) == Parsed(Options("create", name, reference, false))
    ensures Parse(["create", name, reference, extra]) == ParseError("too many arguments for create action")
  {
    var o := Blank.(action := "create");
    var a3 := ["create", name, reference];
    assert a3[1..] == [name, reference];
    assert Scan([name, reference], 0, o) == Scan([name, reference], 1, o.(name := name));
    var a4 := ["create", name, reference, extra];
    assert a4[1..] == [name, reference, extra];
    assert Scan([name, reference, extra], 0, o) == Scan([name, reference, extra], 1, o.(name := name));
  }

  /** delete, show, checkout and sync take one positional, the name. */
  lemma OnePositional(action: string, name: string, extra: string)
    requires action in {"delete", "show", "checkout", "sync"}
    requires name !in {"-n", "--name", "-a", "--absolute", "-h", "--help"} && name != ""
    requires extra !in {"-n", "--name", "-a", "--absolute", "-h", "--help"}
    ensures Parse([action, name]) == Parsed(Options(action, name, "", false))
    ensures Parse([action, name, extra]) == ParseError("too many arguments for " + action + " action")
  {
    var o := Blank.(action := action);
    assert [action, name][1..] == [name];
    assert [action, name, extra][1..] == [name, extra];
    var o1 := o.(name := name);
    assert Scan([name], 0, o) == Scan([name], 1, o1);
    assert Scan([name, extra], 0, o) == Scan([name, extra], 1, o1);
    assert o1.action != "create" && o1.action in {"delete", "show", "checkout", "sync"};
    assert Scan([name, extra], 1, o1) == ParseError("too many arguments for " + action + " action");
  }

  /** `list` takes no positional. */
  lemma ListTakesNoPositional(arg: string)
    requires arg !in {"-n", "--name", "-a", "--absolute", "-h", "--help"}
    ensures Parse(["list"]) == Parsed(Blank.(action := "list"))
    ensures Parse(["list", arg]) == ParseError("unknown argument: " + arg)
  {
    assert ["list", arg][1..] == [arg];
  }
}
