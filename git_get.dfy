/**
  `git get` (git-get.go): one subcommand, `main-branch`, that prints the main
  branch of a remote, optionally with the remote in front.
*/
module GitGet {
  import opened Results
  import opened Strings
  import opened GitOutput

  datatype GetOptions = GetOptions(subcommand: string, remote: string, includeRemote: bool)

  /** `Usage` exits with status 1 and `Help` with status 0, both after the usage. */
  datatype ParseOutcome = Parsed(opts: GetOptions) | Usage | Help | ParseError(msg: string)

  const MainBranch: string := "main-branch"

  /** The subcommand with the remote `origin`, without the remote in the output. */
  const Defaults: GetOptions := GetOptions(MainBranch, "origin", false)

  /** The loop over the arguments after the subcommand (git-get.go:68-83). */
  function Scan(args: seq<string>, i: nat, opts: GetOptions): (r: ParseOutcome)
    requires i <= |args|
    ensures r.Parsed? ==> r.opts.subcommand == opts.subcommand
    decreases |args| - i
  {
    if i == |args| then Parsed(opts)
    else
      var arg := args[i];
      if arg == "--remote" || arg == "-r" then
        if i + 1 >= |args| then ParseError("missing argument for " + arg)
        else Scan(args, i + 2, opts.(remote := args[i + 1]))
      else if arg == "--include-remote" || arg == "-i" then Scan(args, i + 1, opts.(includeRemote := true))
      else ParseError("unknown argument: " + arg)
  }

  /** `parseArgs`. What it accepts is always the `main-branch` subcommand. */
  function Parse(args: seq<string>): (r: ParseOutcome)
    ensures r.Parsed? ==> r.opts.subcommand == MainBranch
  {
    if args == [] then Usage
    else if args[0] == "--help" || args[0] == "-h" then Help
    else if args[0] != MainBranch then ParseError("unknown subcommand: " + args[0])
    else Scan(args[1..], 0, Defaults)
  }

  /** `parseArgs` with the source's variables. */
  method ParseArgs(args: seq<string>) returns (r: ParseOutcome)
    ensures r == Parse(args)
  {
    var opts := GetOptions("", "origin", false);
    if |args| == 0 {
      return Usage;
    }
    if args[0] == "--help" || args[0] == "-h" {
      return Help;
    }
    if args[0] != MainBranch {
      return ParseError("unknown subcommand: " + args[0]);
    }
    opts := opts.(subcommand := args[0]);
    var rest := args[1..];
    var i := 0;
    while i < |rest|
      invariant 0 <= i <= |rest|
      invariant Scan(rest, i, opts) == Parse(args)
    {
      var arg := rest[i];
      if arg == "--remote" || arg == "-r" {
        if i + 1 >= |rest| {
          return ParseError("missing argument for " + arg);
        }
        opts := opts.(remote := rest[i + 1]);
        i := i + 1;
      } else if arg == "--include-remote" || arg == "-i" {
        opts := opts.(includeRemote := true);
      } else {
        return ParseError("unknown argument: " + arg);
      }
      i := i + 1;
    }
    return Parsed(opts);
  }

  /** The subcommand alone asks `origin`, and `--help` is honoured only first. */
  lemma DefaultsAndHelp(rest: seq<string>)
    ensures Parse([MainBranch]) == Parsed(GetOptions(MainBranch, "origin", false))
    ensures Parse(["--help"] + rest) == Help && Parse(["-h"] + rest) == Help
    ensures Parse([MainBranch, "--help"]) == ParseError("unknown argument: " + "--help")
  {
    assert [MainBranch][1..] == [];
    assert [MainBranch, "--help"][1..] == ["--help"];
  }

  /** `--remote` needs a value, and the last one wins. */
  lemma RemoteFlag(r1: string, r2: string)
    ensures Parse([MainBranch, "--remote"]) == ParseError("missing argument for " + "--remote")
    ensures Parse([MainBranch, "-r", r1, "-r", r2, "-i"]) == Parsed(GetOptions(MainBranch, r2, true))
  {
    assert [MainBranch, "--remote"][1..] == ["--remote"];
    var rest := ["-r", r1, "-r", r2, "-i"];
    assert [MainBranch, "-r", r1, "-r", r2, "-i"][1..] == rest;
    assert Scan(rest, 0, Defaults) == Scan(rest, 2, Defaults.(remote := r1));
    assert Scan(rest, 2, Defaults.(remote := r1)) == Scan(rest, 4, Defaults.(remote := r2));
  }

  /** Any other subcommand is refused. */
  lemma OtherSubcommandRejected(cmd: string, rest: seq<string>)
    requires cmd !in {MainBranch, "--help", "-h"}
    ensures Parse([cmd] + rest) == ParseError("unknown subcommand: " + cmd)
  {
  }

  /** What `git rev-parse --abbrev-ref <remote>/HEAD` answers: whether it
      succeeded, and what it printed. */
  datatype GetEnv = GetEnv(mainQuery: string -> (bool, string))

  datatype GetOutcome = ShowUsage | ShowHelp | Failed(msg: string) | Printed(text: string)

  /** The line `main` prints. */
  function OutputLine(opts: GetOptions, name: string): (text: string)
    ensures |text| == (if opts.includeRemote then |opts.remote| + 1 else 0) + |name| + 1
    ensures opts.includeRemote ==> text[..|opts.remote| + 1] == opts.remote + "/"
    ensures text[|text| - |name| - 1..] == name + "\n"
  {
    (if opts.includeRemote then opts.remote + "/" else "") + (name + "\n")
  }

  /** `main` after the repository check. */
  function GetSpec(args: seq<string>, env: GetEnv): GetOutcome {
    var parsed := Parse(args);
    if parsed.Usage? then ShowUsage
    else if parsed.Help? then ShowHelp
    else if parsed.ParseError? then Failed(parsed.msg)
    else
      var o := parsed.opts;
      var (ok, output) := env.mainQuery(o.remote);
      var name := RemoteMainBranch(ok, output);
      if name.Err? then Failed(name.msg) else Printed(OutputLine(o, name.value))
  }

  /** `main` */
  method Run(args: seq<string>, env: GetEnv) returns (out: GetOutcome)
    ensures out == GetSpec(args, env)
  {
    var opts := ParseArgs(args);
    if opts.Usage? {
      return ShowUsage;
    }
    if opts.Help? {
      return ShowHelp;
    }
    if opts.ParseError? {
      return Failed(opts.msg);
    }
    // The parser accepts no subcommand but `main-branch`, so the source's
    // test of the subcommand always holds here.
    var o := opts.opts;
    var (ok, output) := env.mainQuery(o.remote);
    var name := RemoteMainBranch(ok, output);
    if name.Err? {
      return Failed(name.msg);
    }
    var text := "";
    if o.includeRemote {
      text := o.remote + "/";
    }
    text := text + (name.value + "\n");
    return Printed(text);
  }

  /** When the remote's HEAD names `<remote>/<name>`, the branch printed is
      `<name>`, and with `--include-remote` it is the whole `<remote>/<name>`. */
  lemma PrintsMainBranch(args: seq<string>, env: GetEnv, name: string)
    requires Parse(args).Parsed?
    requires var o := Parse(args).opts;
      env.mainQuery(o.remote).0 && '/' !in o.remote
      && TrimSpace(env.mainQuery(o.remote).1) == o.remote + "/" + name
    ensures var o := Parse(args).opts;
      GetSpec(args, env) == Printed((if o.includeRemote then o.remote + "/" + name else name) + "\n")
  {
    var o := Parse(args).opts;
    RemoteMainBranchDropsRemote(env.mainQuery(o.remote).1, o.remote, name);
  }

  /** A failed query is reported with what git printed. */
  lemma QueryFailureReported(args: seq<string>, env: GetEnv)
    requires Parse(args).Parsed? && !env.mainQuery(Parse(args).opts.remote).0
    ensures GetSpec(args, env) == Failed("git command failed: " + TrimSpace(env.mainQuery(Parse(args).opts.remote).1))
  {
  }
}
