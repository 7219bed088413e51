/**
  `git new-branch` (git-new-branch.go): a branch named on the command line,
  created from the freshly fetched main branch of a remote and checked out
  unless `--no-checkout` is given.
*/
module NewBranch {
  import opened Results
  import opened GitOutput
  import Reparent

  datatype NewBranchOptions = NewBranchOptions(name: string, checkout: bool, remote: string)

  /** `Usage` stands for printing the usage and exiting with status 1. */
  datatype ParseOutcome = Parsed(opts: NewBranchOptions) | Usage | ParseError(msg: string)

  /** The remote `origin`, and checking out. */
  const Defaults: NewBranchOptions := NewBranchOptions("", true, "origin")

  const MissingName: string := "missing branch name"

  /** The loop of `parseArgs` (git-new-branch.go:73-95) from position `i`, with
      the name read so far. */
  function Scan(args: seq<string>, i: nat, name: string, opts: NewBranchOptions): ParseOutcome
    requires i <= |args|
    decreases |args| - i
  {
    if i == |args| then
      if name == "" then ParseError(MissingName) else Parsed(opts.(name := name))
    else
      var arg := args[i];
      if arg == "--remote" || arg == "-r" then
        if i + 1 >= |args| then ParseError("missing argument for " + arg)
        else Scan(args, i + 2, name, opts.(remote := args[i + 1]))
      else if arg == "--no-checkout" || arg == "-n" then Scan(args, i + 1, name, opts.(checkout := false))
      else if name != "" then ParseError("unknown argument: " + arg)
      else Scan(args, i + 1, arg, opts)
  }

  /** `parseArgs`. An accepted command line always names the branch. */
  function Parse(args: seq<string>): (r: ParseOutcome)
    ensures r.Parsed? ==> r.opts.name != ""
  {
    if args == [] then Usage else ScanNames(args, 0, "", Defaults); Scan(args, 0, "", Defaults)
  }

  /** Whatever the loop accepts has a name. */
  lemma {:induction false} ScanNames(args: seq<string>, i: nat, name: string, opts: NewBranchOptions)
    requires i <= |args|
    ensures Scan(args, i, name, opts).Parsed? ==> Scan(args, i, name, opts).opts.name != ""
    decreases |args| - i
  {
    if i < |args| {
      var arg := args[i];
      if arg == "--remote" || arg == "-r" {
        if i + 1 < |args| { ScanNames(args, i + 2, name, opts.(remote := args[i + 1])); }
      } else if arg == "--no-checkout" || arg == "-n" {
        ScanNames(args, i + 1, name, opts.(checkout := false));
      } else if name == "" {
        ScanNames(args, i + 1, arg, opts);
      }
    }
  }

  /** `parseArgs` with the source's variables. */
  method ParseArgs(args: seq<string>) returns (r: ParseOutcome)
    ensures r == Parse(args)
  {
    var opts := Defaults;
    if |args| == 0 {
      return Usage;
    }
    var name := "";
    var i := 0;
    while i < |args|
      invariant 0 <= i <= |args|
      invariant Scan(args, i, name, opts) == Parse(args)
    {
      var arg := args[i];
      if arg == "--remote" || arg == "-r" {
        if i + 1 >= |args| {
          return ParseError("missing argument for " + arg);
        }
        opts := opts.(remote := args[i + 1]);
        i := i + 1;
      } else if arg == "--no-checkout" || arg == "-n" {
        opts := opts.(checkout := false);
      } else {
        if name != "" {
          return ParseError("unknown argument: " + arg);
        }
        name := arg;
      }
      i := i + 1;
    }
    if name == "" {
      return ParseError(MissingName);
    }
    opts := opts.(name := name);
    return Parsed(opts);
  }

  /** The words the loop knows. */
  predicate IsFlag(arg: string) {
    arg in {"--remote", "-r", "--no-checkout", "-n"}
  }

  /** One name alone: from `origin`, checked out. */
  lemma DefaultOptions(name: string)
    requires name != "" && !IsFlag(name)
    ensures Parse([name]) == Parsed(NewBranchOptions(name, true, "origin"))
  {
    assert Scan([name], 0, "", Defaults) == Scan([name], 1, name, Defaults);
  }

  /** `--help` is not recognised: it becomes the name of the branch. */
  lemma HelpBecomesBranchName()
    ensures Parse(["--help"]) == Parsed(Defaults.(name := "--help"))
    ensures Parse(["-h"]) == Parsed(Defaults.(name := "-h"))
  {
    DefaultOptions("--help");
    DefaultOptions("-h");
  }

  /** A second positional is refused. */
  lemma SecondNameRejected(name: string, other: string)
    requires name != "" && !IsFlag(name) && !IsFlag(other)
    ensures Parse([name, other]) == ParseError("unknown argument: " + other)
  {
    assert Scan([name, other], 0, "", Defaults) == Scan([name, other], 1, name, Defaults);
  }

  /** Only `--no-checkout` switches: no name. */
  lemma {:induction false} OnlySwitchesNoName(args: seq<string>, i: nat, opts: NewBranchOptions)
    requires i <= |args|
    requires forall k :: i <= k < |args| ==> args[k] == "--no-checkout" || args[k] == "-n"
    ensures Scan(args, i, "", opts) == ParseError(MissingName)
    decreases |args| - i
  {
    if i < |args| {
      OnlySwitchesNoName(args, i + 1, opts.(checkout := false));
    }
  }

  /** `--remote` and `--no-checkout` set what they name, around the name. */
  lemma RemoteAndNoCheckout(remote: string, name: string)
    requires name != "" && !IsFlag(name)
    ensures Parse(["-r", remote, name, "-n"]) == Parsed(NewBranchOptions(name, false, remote))
    ensures Parse([name, "--remote"]) == ParseError("missing argument for " + "--remote")
  {
    var a := ["-r", remote, name, "-n"];
    var o := Defaults.(remote := remote);
    assert Scan(a, 0, "", Defaults) == Scan(a, 2, "", o);
    assert Scan(a, 2, "", o) == Scan(a, 3, name, o);
    assert Scan(a, 3, name, o) == Scan(a, 4, name, o.(checkout := false));
    assert Scan([name, "--remote"], 0, "", Defaults) == Scan([name, "--remote"], 1, name, Defaults);
  }

  /** Where HEAD is, the local branches, and the remote-tracking branches. */
  datatype NewBranchRepo = NewBranchRepo(head: Reparent.Head, branches: map<string, string>, remoteRefs: map<string, string>)

  /** The answers of git: `git rev-parse --abbrev-ref <remote>/HEAD` (whether it
      succeeded, and what it printed), the fetch of a remote branch (the commit
      fetched), `git branch <name> <start>` and the checkout. */
  datatype NewBranchEnv = NewBranchEnv(
    mainQuery: string -> (bool, string),
    fetch: (string, string) -> Result<string>,
    create: Status,
    checkout: Status)

  /** Usage with exit 1, an error with exit 1, or the branch created from the
      remote branch named. */
  datatype NewBranchOutcome = ShowUsage | Failed(msg: string) | Created(name: string, from: string)

  /** `main` after the repository check. */
  function NewBranchSpec(s: NewBranchRepo, args: seq<string>, env: NewBranchEnv): (NewBranchRepo, NewBranchOutcome) {
    var parsed := Parse(args);
    if parsed.Usage? then (s, ShowUsage)
    else if parsed.ParseError? then (s, Failed(parsed.msg))
    else
      var o := parsed.opts;
      var (ok, output) := env.mainQuery(o.remote);
      var name := RemoteMainBranch(ok, output);
      if name.Err? then (s, Failed(name.msg))
      else
        var mainBranch := o.remote + "/" + name.value;
        var fetched := env.fetch(o.remote, name.value);
        if fetched.Err? then (s, Failed("Error fetching origin branch: " + fetched.msg))
        else
          var s1 := s.(remoteRefs := s.remoteRefs[mainBranch := fetched.value]);
          if env.create.Fail? then (s1, Failed("Error creating branch: " + env.create.err))
          else
            var s2 := s1.(branches := s1.branches[o.name := fetched.value]);
            if !o.checkout then (s2, Created(o.name, mainBranch))
            else if env.checkout.Fail? then (s2, Failed("Error checking out branch: " + env.checkout.err))
            else (s2.(head := Reparent.OnBranch(o.name)), Created(o.name, mainBranch))
  }

  /** The new branch starts at the commit just fetched for `<remote>/<main>`,
      where `<main>` is what the remote's HEAD names; no other local branch
      changes. */
  lemma CreatedFromRemoteMain(s: NewBranchRepo, args: seq<string>, env: NewBranchEnv)
    requires NewBranchSpec(s, args, env).1.Created?
    ensures var o := Parse(args).opts;
      var out := NewBranchSpec(s, args, env).1;
      var s' := NewBranchSpec(s, args, env).0;
      var query := env.mainQuery(o.remote);
      RemoteMainBranch(query.0, query.1).Ok?
      && out.from == o.remote + "/" + RemoteMainBranch(query.0, query.1).value
      && out.from in s'.remoteRefs && o.name in s'.branches
      && s'.branches[o.name] == s'.remoteRefs[out.from]
      && s'.branches == s.branches[o.name := s'.branches[o.name]]
  {
  }

  /** The branch is checked out exactly when `--no-checkout` was not given. */
  lemma CheckedOutUnlessNoCheckout(s: NewBranchRepo, args: seq<string>, env: NewBranchEnv)
    requires NewBranchSpec(s, args, env).1.Created?
    ensures var o := Parse(args).opts;
      NewBranchSpec(s, args, env).0.head == (if o.checkout then Reparent.OnBranch(o.name) else s.head)
  {
  }

  /** No arguments print the usage and change nothing. */
  lemma NoArgumentsShowUsage(s: NewBranchRepo, env: NewBranchEnv)
    ensures NewBranchSpec(s, [], env) == (s, ShowUsage)
  {
  }

  /** What `git branch` answers for a start point that does not exist. */
  const UnknownStart: string := "not a valid object name"

  /** The repository as the source changes it, one git command at a time. */
  class Repository {
    var head: Reparent.Head
    var branches: map<string, string>
    var remoteRefs: map<string, string>

    function State(): NewBranchRepo
      reads this
    {
      NewBranchRepo(head, branches, remoteRefs)
    }

    constructor(s: NewBranchRepo)
      ensures State() == s
    {
      head := s.head;
      branches := s.branches;
      remoteRefs := s.remoteRefs;
    }

    /** `FetchBranch`: the remote-tracking branch moves to the commit fetched. */
    method FetchBranch(remote: string, name: string, env: NewBranchEnv) returns (r: Result<string>)
      modifies this
      ensures r == env.fetch(remote, name)
      ensures State() == if r.Ok? then old(State()).(remoteRefs := old(remoteRefs)[remote + "/" + name := r.value]) else old(State())
    {
      r := env.fetch(remote, name);
      if r.Ok? {
        remoteRefs := remoteRefs[remote + "/" + name := r.value];
      }
    }

    /** `CreateBranch`: the branch starts where `fromRef` is; git refuses a
        start point it does not know. */
    method CreateBranch(branchName: string, fromRef: string, env: NewBranchEnv) returns (st: Status)
      modifies this
      ensures st == if fromRef in old(remoteRefs) then env.create else Fail(UnknownStart)
      ensures State() == if st.Done? then old(State()).(branches := old(branches)[branchName := old(remoteRefs)[fromRef]]) else old(State())
    {
      if fromRef !in remoteRefs {
        return Fail(UnknownStart);
      }
      st := env.create;
      if st.Done? {
        branches := branches[branchName := remoteRefs[fromRef]];
      }
    }

    /** `Checkout` */
    method Checkout(branchName: string, env: NewBranchEnv) returns (st: Status)
      modifies this
      ensures st == env.checkout
      ensures State() == if st.Done? then old(State()).(head := Reparent.OnBranch(branchName)) else old(State())
    {
      st := env.checkout;
      if st.Done? {
        head := Reparent.OnBranch(branchName);
      }
    }

    /** `main` */
    method Run(args: seq<string>, env: NewBranchEnv) returns (out: NewBranchOutcome)
      modifies this
      ensures (State(), out) == NewBranchSpec(old(State()), args, env)
    {
      var opts := ParseArgs(args);
      if opts.Usage? {
        return ShowUsage;
      }
      if opts.ParseError? {
        return Failed(opts.msg);
      }
      var o := opts.opts;
      var (ok, output) := env.mainQuery(o.remote);
      var name := RemoteMainBranch(ok, output);
      if name.Err? {
        return Failed(name.msg);
      }
      var mainBranch := o.remote + "/" + name.value;
      var fetched := FetchBranch(o.remote, name.value, env);
      if fetched.Err? {
        return Failed("Error fetching origin branch: " + fetched.msg);
      }
      var st := CreateBranch(o.name, mainBranch, env);
      if st.Fail? {
        return Failed("Error creating branch: " + st.err);
      }
      if o.checkout {
        st := Checkout(o.name, env);
        if st.Fail? {
          return Failed("Error checking out branch: " + st.err);
        }
      }
      return Created(o.name, mainBranch);
    }
  }
}
