/**
  What the actions of `git bookmark` do (git-bookmark.go:165-466), as functions
  from a snapshot of the bookmark store and the answers of git to the new
  snapshot and the outcome. The class in `BookmarkRepository` performs the same
  steps on mutable fields and is proved equal to these functions.
*/
module Bookmark {
  import opened Results
  import opened Strings
  import opened Lex
  import opened GitOutput
  import opened BookmarkArgs

  /** An entry of the bookmarks directory: a bookmark file and its content, or a
      sub-directory. */
  datatype Entry = File(content: string) | Dir

  /**
    `dir`: the bookmarks directory under the git directory, `None` while it
    does not exist; `previous`: the content of `PREVIOUS_BOOKMARK`, if the file
    exists; `head`: the reference last checked out; `refs`: the refs under
    `refs/heads` as `sync` writes them, name to commit.
  */
  datatype Store = Store(
    dir: Option<map<string, Entry>>,
    previous: Option<string>,
    head: string,
    refs: map<string, string>)

  /**
    What git answers: the output of `git branch --show-current`, whether a
    reference resolves, the commit a reference resolves to, the effect of
    `git checkout`, of writing a ref file, and the number typed at the
    interactive prompt (`None` when it does not read as a number).
  */
  datatype BookmarkEnv = BookmarkEnv(
    currentOutput: Result<string>,
    refExists: string -> bool,
    commitHash: string -> Result<string>,
    checkout: string -> Status,
    writeRef: (string, string) -> Status,
    choice: Option<int>)

  /** One line of the listing or of the menu. */
  datatype Line = Unreadable(name: string, err: string) | Unresolved(name: string, ref: string) | Resolved(name: string, ref: string, hash: string)

  datatype Outcome =
    | Success
    | Shown(text: string)
    | Synced(existed: bool)
    | Listing(lines: seq<Line>)
    | NoBookmarks
    | Failed(msg: string)
    | Panicked
    | ShowHelp

  /** The operating system's reason for refusing to read or write a directory as a file. */
  const IsDirectory: string := "is a directory"

  function Entries(s: Store): map<string, Entry> {
    if s.dir.None? then map[] else s.dir.value
  }

  // ---------------------------------------------------------------------------
  // Reading and tracking (git-bookmark.go:408-466)
  // ---------------------------------------------------------------------------

  /** `getBookmarkReference`: the trimmed content of the bookmark file. */
  function ReferenceOf(s: Store, name: string): Result<string> {
    if name !in Entries(s) then Err("bookmark '" + name + "' does not exist")
    else match Entries(s)[name]
      case Dir => Err("failed to read bookmark: " + IsDirectory)
      case File(c) => Ok(TrimSpace(c))
  }

  /** `getPreviousBookmark`: empty when the file does not exist. */
  function PreviousOf(s: Store): string {
    if s.previous.None? then "" else TrimSpace(s.previous.value)
  }

  /** `updatePreviousBookmark`: the file is written only when its trimmed content differs. */
  function UpdatePrevious(s: Store, name: string): Store {
    if PreviousOf(s) != name then s.(previous := Some(name + "\n")) else s
  }

  // ---------------------------------------------------------------------------
  // The actions (git-bookmark.go:165-406)
  // ---------------------------------------------------------------------------

  /** `createBookmark`: the reference defaults to the current branch; it must exist. */
  function CreateSpec(s: Store, name: string, reference: string, env: BookmarkEnv): (Store, Outcome) {
    var current := CurrentBranch(env.currentOutput);
    if reference == "" && current.Err? then (s, Failed("current commit is not a branch"))
    else
      var r := if reference == "" then current.value else reference;
      if !env.refExists(r) then (s, Failed("reference '" + r + "' does not exist"))
      else WriteBookmark(s, name, r)
  }

  /** The bookmarks directory is made if missing, then the file is written with
      the reference and a newline, then the bookmark is tracked as the previous one. */
  function WriteBookmark(s: Store, name: string, r: string): (Store, Outcome) {
    var entries := Entries(s);
    if name in entries && entries[name].Dir? then (s.(dir := Some(entries)), Failed("failed to create bookmark: " + IsDirectory))
    else (UpdatePrevious(s.(dir := Some(entries[name := File(r + "\n")])), name), Success)
  }

  /** `deleteBookmark` */
  function DeleteSpec(s: Store, name: string): (Store, Outcome) {
    if name !in Entries(s) then (s, Failed("bookmark '" + name + "' does not exist"))
    else (s.(dir := Some(Entries(s) - {name})), Success)
  }

  /** `showBookmark`: the reference, or with `--absolute` the commit it resolves to. */
  function ShowSpec(s: Store, name: string, absolute: bool, env: BookmarkEnv): Outcome {
    match ReferenceOf(s, name)
    case Err(e) => Failed(e)
    case Ok(ref) =>
      if !absolute then Shown(ref)
      else
        match env.commitHash(ref)
        case Err(e) => Failed("failed to resolve bookmark reference: " + e)
        case Ok(h) => Shown(h)
  }

  /** The names of the bookmark files, directories left out. */
  function FileNames(s: Store): set<string> {
    set n | n in Entries(s) && Entries(s)[n].File?
  }

  predicate Distinct(names: seq<string>) {
    forall i, j :: 0 <= i < j < |names| ==> names[i] != names[j]
  }

  /** `m` is in `names` and sorts before or with every name there. */
  predicate IsLeast(m: string, names: set<string>) {
    m in names && forall n :: n in names ==> LessEq(m, n)
  }

  /** Adding a name to a set keeps a least element: the new name or the old least. */
  lemma LeastOfInsert(x: string, m: string, rest: set<string>)
    requires IsLeast(m, rest)
    ensures IsLeast(if LessEq(x, m) then x else m, rest + {x})
  {
    LessEqTotal(x, x);
    LessEqTotal(x, m);
    var names := rest + {x};
    if LessEq(x, m) {
      forall n | n in names ensures LessEq(x, n) {
        if n != x {
          LessEqTrans(x, m, n);
        }
      }
    } else {
      assert LessEq(m, x);
    }
  }

  lemma {:induction false} MinExists(names: set<string>)
    requires names != {}
    ensures exists m :: IsLeast(m, names)
    decreases |names|
  {
    var x :| x in names;
    var rest := names - {x};
    LessEqTotal(x, x);
    if rest == {} {
      assert names == {x};
      assert IsLeast(x, names);
    } else {
      MinExists(rest);
      var m :| IsLeast(m, rest);
      LeastOfInsert(x, m, rest);
      assert rest + {x} == names;
    }
  }

  ghost function MinName(names: set<string>): (m: string)
    requires names != {}
    ensures m in names && forall n :: n in names ==> LessEq(m, n)
  {
    MinExists(names);
    var m :| IsLeast(m, names);
    m
  }

  /** The names in ascending order, each once: what `os.ReadDir` and `sort.Strings`
      give together. */
  ghost function SortedNames(names: set<string>): (r: seq<string>)
    ensures Sorted(r) && Distinct(r)
    ensures forall n :: n in r <==> n in names
    decreases |names|
  {
    if names == {} then []
    else
      var m := MinName(names);
      var rest := SortedNames(names - {m});
      assert forall i :: 0 <= i < |rest| ==> rest[i] in names - {m};
      [m] + rest
  }

  /** Sorting distinct names has one result. */
  lemma {:induction false} SortedUnique(a: seq<string>, b: seq<string>)
    requires Sorted(a) && Sorted(b) && Distinct(a) && Distinct(b)
    requires forall n :: n in a <==> n in b
    ensures a == b
    decreases |a|
  {
    assert a != [] ==> a[0] in b;
    assert b != [] ==> b[0] in a;
    if a != [] && b != [] {
      var i :| 0 <= i < |b| && b[i] == a[0];
      var j :| 0 <= j < |a| && a[j] == b[0];
      assert LessEq(b[0], a[0]) by { if i > 0 { assert LessEq(b[0], b[i]); } else { LessEqTotal(b[0], b[0]); } }
      assert LessEq(a[0], b[0]) by { if j > 0 { assert LessEq(a[0], a[j]); } else { LessEqTotal(a[0], a[0]); } }
      LessEqAntisymmetric(a[0], b[0]);
      SameTails(a, b);
      TailSortedDistinct(a);
      TailSortedDistinct(b);
      SortedUnique(a[1..], b[1..]);
      assert a == [a[0]] + a[1..] && b == [b[0]] + b[1..];
    }
  }

  lemma TailSortedDistinct(a: seq<string>)
    requires Sorted(a) && Distinct(a) && a != []
    ensures Sorted(a[1..]) && Distinct(a[1..])
  {
    forall i, j | 0 <= i < j < |a[1..]| ensures LessEq(a[1..][i], a[1..][j]) && a[1..][i] != a[1..][j] {
      assert a[1..][i] == a[i + 1] && a[1..][j] == a[j + 1];
    }
  }

  /** Two distinct sequences with the same head and the same elements have
      tails with the same elements. */
  lemma SameTails(a: seq<string>, b: seq<string>)
    requires Distinct(a) && Distinct(b) && a != [] && b != [] && a[0] == b[0]
    requires forall n :: n in a <==> n in b
    ensures forall n :: n in a[1..] <==> n in b[1..]
  {
    forall n ensures n in a[1..] ==> n in b[1..] {
      if n in a[1..] {
        var k :| 0 <= k < |a[1..]| && a[1..][k] == n;
        assert a[k + 1] == n && n != a[0];
        assert n in b;
        var l :| 0 <= l < |b| && b[l] == n;
        assert b[1..][l - 1] == n;
      }
    }
    forall n ensures n in b[1..] ==> n in a[1..] {
      if n in b[1..] {
        var k :| 0 <= k < |b[1..]| && b[1..][k] == n;
        assert b[k + 1] == n && n != b[0];
        assert n in a;
        var l :| 0 <= l < |a| && a[l] == n;
        assert a[1..][l - 1] == n;
      }
    }
  }

  /** The line printed for one bookmark. */
  function LineOf(s: Store, name: string, env: BookmarkEnv): Line {
    match ReferenceOf(s, name)
    case Err(e) => Unreadable(name, e)
    case Ok(ref) =>
      match env.commitHash(ref)
      case Err(_) => Unresolved(name, ref)
      case Ok(h) => Resolved(name, ref, h)
  }

  function LinesOf(s: Store, names: seq<string>, env: BookmarkEnv): (lines: seq<Line>)
    ensures |lines| == |names|
    ensures forall i :: 0 <= i < |names| ==> lines[i] == LineOf(s, names[i], env)
  {
    if names == [] then [] else LinesOf(s, names[..|names| - 1], env) + [LineOf(s, names[|names| - 1], env)]
  }

  /** A resolved line prints `commitHash[:8]`, which panics on a hash of fewer than 8 bytes. */
  predicate LinePanics(l: Line) {
    l.Resolved? && Utf8Len(l.hash) < 8
  }

  predicate AnyPanics(s: Store, names: seq<string>, env: BookmarkEnv) {
    exists i :: 0 <= i < |names| && LinePanics(LineOf(s, names[i], env))
  }

  /** `listBookmarks` */
  ghost function ListSpec(s: Store, env: BookmarkEnv): Outcome {
    if s.dir.None? || |Entries(s)| == 0 then NoBookmarks
    else
      var names := SortedNames(FileNames(s));
      if AnyPanics(s, names, env) then Panicked else Listing(LinesOf(s, names, env))
  }

  /** `checkoutBookmark`: the previous-bookmark file is updated before the checkout,
      and the summary line slices `reference[:8]` after it. */
  function CheckoutSpec(s: Store, name: string, env: BookmarkEnv): (Store, Outcome) {
    match ReferenceOf(s, name)
    case Err(e) => (s, Failed(e))
    case Ok(ref) =>
      var s1 := UpdatePrevious(s, name);
      var st := env.checkout(ref);
      if st.Fail? then (s1, Failed("failed to checkout bookmark: " + st.err))
      else
        var s2 := s1.(head := ref);
        if Utf8Len(ref) < 8 then (s2, Panicked) else (s2, Success)
  }

  const NoPrevious: string := "no previous bookmark to checkout"

  /** `checkoutPreviousBookmark` */
  function CheckoutPreviousSpec(s: Store, env: BookmarkEnv): (Store, Outcome) {
    var p := PreviousOf(s);
    if p == "" then (s, Failed(NoPrevious)) else CheckoutSpec(s, p, env)
  }

  const NoneFound: string := "no bookmarks found"

  /** `interactiveCheckout`: the menu, then the choice, which must lie in 1..n. */
  ghost function InteractiveSpec(s: Store, env: BookmarkEnv): (Store, Outcome) {
    if s.dir.None? then (s, Failed(NoneFound))
    else
      var names := SortedNames(FileNames(s));
      if names == [] then (s, Failed(NoneFound))
      else if AnyPanics(s, names, env) then (s, Panicked)
      else match env.choice
        case None => (s, Failed("invalid input"))
        case Some(c) =>
          if c < 1 || c > |names| then (s, Failed("invalid choice: " + IntToString(c)))
          else CheckoutSpec(s, names[c - 1], env)
  }

  /** `syncBranchFromBookmark`: the branch ref is written, then looked up; the
      summary slices `commitHash[:8]`. */
  function SyncSpec(s: Store, name: string, env: BookmarkEnv): (Store, Outcome) {
    match ReferenceOf(s, name)
    case Err(e) => (s, Failed(e))
    case Ok(ref) =>
      match env.commitHash(ref)
      case Err(e) => (s, Failed("failed to resolve bookmark reference: " + e))
      case Ok(h) =>
        var st := env.writeRef(name, h);
        if st.Fail? then (s, Failed("failed to sync branch: " + st.err))
        else
          var s1 := s.(refs := s.refs[name := h]);
          if Utf8Len(h) < 8 then (s1, Panicked) else (s1, Synced(name in s1.refs))
  }

  /** `main` */
  ghost function RunSpec(s: Store, args: seq<string>, env: BookmarkEnv): (Store, Outcome) {
    match Parse(args)
    case Help => (s, ShowHelp)
    case ParseError(m) => (s, Failed(m))
    case Parsed(o) =>
      if o.action == "create" then CreateSpec(s, o.name, o.reference, env)
      else if o.action == "delete" then DeleteSpec(s, o.name)
      else if o.action == "show" then (s, ShowSpec(s, o.name, o.absolute, env))
      else if o.action == "list" then (s, ListSpec(s, env))
      else if o.action == "checkout" then CheckoutSpec(s, o.name, env)
      else if o.action == "checkout-previous" then CheckoutPreviousSpec(s, env)
      else if o.action == "interactive" then InteractiveSpec(s, env)
      else if o.action == "sync" then SyncSpec(s, o.name, env)
      else (s, Failed("Unknown action '" + o.action + "'"))
  }

  // ---------------------------------------------------------------------------
  // Properties
  // ---------------------------------------------------------------------------

  /** A name without surrounding white space reads back from the tracking file. */
  lemma PreviousAfterUpdate(s: Store, name: string)
    requires TrimSpace(name) == name
    ensures PreviousOf(UpdatePrevious(s, name)) == name
  {
    if PreviousOf(s) != name {
      TrimSpaceAppendSpace(name, '\n');
    }
  }

  /** Updating twice with the same name is updating once. */
  lemma UpdatePreviousIdempotent(s: Store, name: string)
    ensures UpdatePrevious(UpdatePrevious(s, name), name) == UpdatePrevious(s, name)
  {
  }

  /** After a create, the bookmark reads as the trimmed reference, every other
      bookmark is unchanged, and it becomes the previous bookmark. */
  lemma CreateThenRead(s: Store, name: string, reference: string, env: BookmarkEnv)
    requires reference != "" && CreateSpec(s, name, reference, env).1 == Success
    ensures ReferenceOf(CreateSpec(s, name, reference, env).0, name) == Ok(TrimSpace(reference))
    ensures forall n :: n != name ==> ReferenceOf(CreateSpec(s, name, reference, env).0, n) == ReferenceOf(s, n)
    ensures TrimSpace(name) == name ==> PreviousOf(CreateSpec(s, name, reference, env).0) == name
  {
    assert CreateSpec(s, name, reference, env) == WriteBookmark(s, name, reference);
    var s1 := s.(dir := Some(Entries(s)[name := File(reference + "\n")]));
    assert WriteBookmark(s, name, reference).0 == UpdatePrevious(s1, name);
    assert Entries(UpdatePrevious(s1, name)) == Entries(s)[name := File(reference + "\n")];
    TrimSpaceAppendSpace(reference, '\n');
    if TrimSpace(name) == name {
      PreviousAfterUpdate(s1, name);
    }
  }
  /** `show` without `--absolute` prints exactly what the bookmark reads as;
      with it, the commit that reference resolves to. Every failure is the
      read's or the resolution's. */
  lemma ShowReadsReference(s: Store, name: string, absolute: bool, env: BookmarkEnv)
    ensures !absolute ==> (ShowSpec(s, name, absolute, env).Shown? <==> ReferenceOf(s, name).Ok?)
    ensures !absolute && ReferenceOf(s, name).Ok? ==> ShowSpec(s, name, absolute, env) == Shown(ReferenceOf(s, name).value)
    ensures ReferenceOf(s, name).Err? ==> ShowSpec(s, name, absolute, env) == Failed(ReferenceOf(s, name).msg)
    ensures absolute && ShowSpec(s, name, absolute, env).Shown? ==>
      ReferenceOf(s, name).Ok? && env.commitHash(ReferenceOf(s, name).value) == Ok(ShowSpec(s, name, absolute, env).text)
  {
  }

  /** After a creation, `show` prints the reference that was stored, trimmed,
      and `show --absolute` the commit it resolves to. */
  lemma ShowAfterCreate(s: Store, name: string, reference: string, env: BookmarkEnv)
    requires reference != "" && CreateSpec(s, name, reference, env).1 == Success
    ensures ShowSpec(CreateSpec(s, name, reference, env).0, name, false, env) == Shown(TrimSpace(reference))
    ensures env.commitHash(TrimSpace(reference)).Ok? ==>
      ShowSpec(CreateSpec(s, name, reference, env).0, name, true, env) == Shown(env.commitHash(TrimSpace(reference)).value)
  {
    CreateThenRead(s, name, reference, env);
  }


  /** A create with a missing reference, or with none while HEAD is detached,
      changes nothing. */
  lemma CreateValidatesFirst(s: Store, name: string, reference: string, env: BookmarkEnv)
    requires (reference != "" && !env.refExists(reference)) || (reference == "" && CurrentBranch(env.currentOutput).Err?)
    ensures CreateSpec(s, name, reference, env).0 == s
    ensures CreateSpec(s, name, reference, env).1.Failed?
  {
  }

  /** A delete removes that bookmark only, and fails on a missing one. */
  lemma DeleteRemovesOnlyName(s: Store, name: string)
    ensures name !in Entries(s) ==> DeleteSpec(s, name) == (s, Failed("bookmark '" + name + "' does not exist"))
    ensures ReferenceOf(DeleteSpec(s, name).0, name).Err?
    ensures forall n :: n != name ==> ReferenceOf(DeleteSpec(s, name).0, n) == ReferenceOf(s, n)
  {
  }

  /** The names the lines are printed for. */
  function NamesOf(lines: seq<Line>): (names: seq<string>)
    ensures |names| == |lines| && forall i :: 0 <= i < |lines| ==> names[i] == lines[i].name
  {
    if lines == [] then [] else [lines[0].name] + NamesOf(lines[1..])
  }

  /** The listing holds exactly the bookmark files, in ascending order, each once. */
  lemma ListSortedNames(s: Store, env: BookmarkEnv)
    requires ListSpec(s, env).Listing?
    ensures var names := NamesOf(ListSpec(s, env).lines);
      Sorted(names) && Distinct(names) && forall n :: n in names <==> n in Entries(s) && Entries(s)[n].File?
  {
    var names := SortedNames(FileNames(s));
    assert ListSpec(s, env).lines == LinesOf(s, names, env);
    NamesOfLines(s, names, env);
    forall n ensures n in names <==> n in Entries(s) && Entries(s)[n].File? {
      assert n in names <==> n in FileNames(s);
    }
  }

  /** The lines are printed for the names given, in their order. */
  lemma NamesOfLines(s: Store, names: seq<string>, env: BookmarkEnv)
    ensures NamesOf(LinesOf(s, names, env)) == names
  {
    var lines := LinesOf(s, names, env);
    assert forall i :: 0 <= i < |names| ==> NamesOf(lines)[i] == lines[i].name == names[i];
  }

  /** The listed bookmarks are all readable: a directory never shows up as an error line. */
  lemma ListedAreReadable(s: Store, env: BookmarkEnv)
    requires ListSpec(s, env).Listing?
    ensures forall i :: 0 <= i < |ListSpec(s, env).lines| ==> !ListSpec(s, env).lines[i].Unreadable?
  {
    var names := SortedNames(FileNames(s));
    assert forall i :: 0 <= i < |names| ==> names[i] in FileNames(s);
  }

  /** The interactive choice `c` checks out the `c`-th name in ascending order;
      a choice out of 1..n fails and changes nothing. */
  lemma InteractiveChoice(s: Store, env: BookmarkEnv, c: int)
    requires s.dir.Some? && env.choice == Some(c)
    requires !AnyPanics(s, SortedNames(FileNames(s)), env) && FileNames(s) != {}
    ensures var names := SortedNames(FileNames(s));
      && (1 <= c <= |names| ==> InteractiveSpec(s, env) == CheckoutSpec(s, names[c - 1], env))
      && (c < 1 || c > |names| ==> InteractiveSpec(s, env) == (s, Failed("invalid choice: " + IntToString(c))))
  {
    var names := SortedNames(FileNames(s));
    var m :| m in FileNames(s);
    assert m in names;
    assert names != [];
    assert InteractiveSpec(s, env) == (match env.choice
        case None => (s, Failed("invalid input"))
        case Some(c) =>
          if c < 1 || c > |names| then (s, Failed("invalid choice: " + IntToString(c)))
          else CheckoutSpec(s, names[c - 1], env));
  }

  /** A successful checkout moves HEAD to the reference and records the
      bookmark as the previous one; it only succeeds on a reference of at least 8
      bytes, since a shorter one panics after the checkout. */
  lemma CheckoutEffects(s: Store, name: string, env: BookmarkEnv)
    requires ReferenceOf(s, name).Ok? && env.checkout(ReferenceOf(s, name).value).Done?
    ensures var (s1, out) := CheckoutSpec(s, name, env);
      && s1.head == ReferenceOf(s, name).value
      && (TrimSpace(name) == name ==> PreviousOf(s1) == name)
      && (out == Success <==> Utf8Len(ReferenceOf(s, name).value) >= 8)
      && (out == Panicked <==> Utf8Len(ReferenceOf(s, name).value) < 8)
  {
    if TrimSpace(name) == name {
      PreviousAfterUpdate(s, name);
    }
  }

  /** A bookmark on `main` panics after the checkout has happened. */
  lemma CheckoutOfMainPanics(s: Store, name: string, env: BookmarkEnv)
    requires name in Entries(s) && Entries(s)[name] == File("main\n") && env.checkout("main").Done?
    ensures TrimSpace("main\n") == "main"
    ensures CheckoutSpec(s, name, env) == (UpdatePrevious(s, name).(head := "main"), Panicked)
  {
    TrimSpaceAppendSpace("main", '\n');
    TrimSpaceOfTrimmed("main");
  }

  /** `-` after a checkout of `name` checks out `name` again: the tracking file
      always holds the latest bookmark, not the one before it. */
  lemma PreviousIsLatest(s: Store, name: string, env: BookmarkEnv, later: BookmarkEnv)
    requires name != "" && TrimSpace(name) == name && ReferenceOf(s, name).Ok?
    ensures var s1 := CheckoutSpec(s, name, env).0;
      CheckoutPreviousSpec(s1, later) == CheckoutSpec(s1, name, later)
  {
    var s1 := CheckoutSpec(s, name, env).0;
    PreviousAfterUpdate(s, name);
    assert s1 == UpdatePrevious(s, name) || s1 == UpdatePrevious(s, name).(head := s1.head);
    assert PreviousOf(s1) == name;
  }

  /** Without a tracked bookmark `-` fails and changes nothing. */
  lemma CheckoutPreviousNeedsTracking(s: Store, env: BookmarkEnv)
    requires s.previous.None?
    ensures CheckoutPreviousSpec(s, env) == (s, Failed(NoPrevious))
  {
  }

  /** The branch is looked up after its ref was written, so `sync` always reports
      an existing branch and never prints "created". */
  lemma SyncNeverReportsCreated(s: Store, name: string, env: BookmarkEnv)
    ensures SyncSpec(s, name, env).1.Synced? ==> SyncSpec(s, name, env).1.existed
    ensures SyncSpec(s, name, env).1.Synced? ==> name in SyncSpec(s, name, env).0.refs
  {
  }
}
