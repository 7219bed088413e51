/**
  The bookmark actions as the source writes them: methods that read and
  update the bookmark directory, the tracking file and the refs in place, each
  proved to end in the snapshot and outcome its function in `Bookmark` gives.
*/
module BookmarkRepository {
  import opened Results
  import opened Strings
  import opened Lex
  import opened GitOutput
  import opened BookmarkArgs
  import opened Bookmark

  /** Distinct names occur once each. */
  lemma {:induction false} DistinctOnce(a: seq<string>, x: string)
    requires Distinct(a)
    ensures multiset(a)[x] <= 1
  {
    if a != [] {
      DistinctOnce(a[1..], x);
      assert a == [a[0]] + a[1..];
      assert forall k :: 0 <= k < |a[1..]| ==> a[1..][k] == a[k + 1];
      assert a[0] !in a[1..];
    }
  }

  /** A permutation of distinct names is distinct. */
  lemma PermutationDistinct(a: seq<string>, b: seq<string>)
    requires Distinct(a) && multiset(a) == multiset(b)
    ensures Distinct(b)
  {
    forall i, j | 0 <= i < j < |b| ensures b[i] != b[j] {
      if b[i] == b[j] {
        assert b == b[..j] + b[j..];
        assert b[i] in b[..j] && b[j] in b[j..];
        assert multiset(b)[b[i]] == multiset(b[..j])[b[i]] + multiset(b[j..])[b[i]];
        DistinctOnce(a, b[i]);
      }
    }
  }

  class Repository {
    var dir: Option<map<string, Entry>>
    var previous: Option<string>
    var head: string
    var refs: map<string, string>

    function State(): Store
      reads this
    {
      Store(dir, previous, head, refs)
    }

    constructor(s: Store)
      ensures State() == s
    {
      dir := s.dir;
      previous := s.previous;
      head := s.head;
      refs := s.refs;
    }

    /** `getBookmarkReference` */
    method GetBookmarkReference(name: string) returns (r: Result<string>)
      ensures r == ReferenceOf(State(), name)
    {
      if dir.None? || name !in dir.value {
        return Err("bookmark '" + name + "' does not exist");
      }
      var entry := dir.value[name];
      if entry.Dir? {
        return Err("failed to read bookmark: " + IsDirectory);
      }
      return Ok(TrimSpace(entry.content));
    }

    /** `getPreviousBookmark` */
    method GetPreviousBookmark() returns (p: string)
      ensures p == PreviousOf(State())
    {
      if previous.None? {
        return "";
      }
      return TrimSpace(previous.value);
    }

    /** `updatePreviousBookmark` */
    method UpdatePreviousBookmark(currentBookmark: string)
      modifies this
      ensures State() == UpdatePrevious(old(State()), currentBookmark)
    {
      var previousBookmark := "";
      if previous.Some? {
        previousBookmark := TrimSpace(previous.value);
      }
      if previousBookmark != currentBookmark {
        previous := Some(currentBookmark + "\n");
      }
    }

    /** `createBookmark` */
    method CreateBookmark(name: string, reference: string, env: BookmarkEnv) returns (out: Outcome)
      modifies this
      ensures (State(), out) == CreateSpec(old(State()), name, reference, env)
    {
      var ref := reference;
      if ref == "" {
        var current := CurrentBranch(env.currentOutput);
        if current.Err? {
          return Failed("current commit is not a branch");
        }
        ref := current.value;
      }
      if !env.refExists(ref) {
        return Failed("reference '" + ref + "' does not exist");
      }
      if dir.None? {
        dir := Some(map[]);
      }
      if name in dir.value && dir.value[name].Dir? {
        return Failed("failed to create bookmark: " + IsDirectory);
      }
      dir := Some(dir.value[name := File(ref + "\n")]);
      UpdatePreviousBookmark(name);
      return Success;
    }

    /** `deleteBookmark` */
    method DeleteBookmark(name: string) returns (out: Outcome)
      modifies this
      ensures (State(), out) == DeleteSpec(old(State()), name)
    {
      if dir.None? || name !in dir.value {
        return Failed("bookmark '" + name + "' does not exist");
      }
      dir := Some(dir.value - {name});
      return Success;
    }

    /** `showBookmark` */
    method ShowBookmark(name: string, absolute: bool, env: BookmarkEnv) returns (out: Outcome)
      ensures out == ShowSpec(State(), name, absolute, env)
    {
      var reference := GetBookmarkReference(name);
      if reference.Err? {
        return Failed(reference.msg);
      }
      if absolute {
        var commitHash := env.commitHash(reference.value);
        if commitHash.Err? {
          return Failed("failed to resolve bookmark reference: " + commitHash.msg);
        }
        return Shown(commitHash.value);
      }
      return Shown(reference.value);
    }

    /** `os.ReadDir`, the loop keeping the entries that are no directory, then
        `sort.Strings`. The directory is read in any order. */
    method ReadBookmarkNames() returns (names: seq<string>)
      requires dir.Some?
      ensures names == SortedNames(FileNames(State()))
    {
      var entries := dir.value;
      var remaining := entries.Keys;
      var found: seq<string> := [];
      while remaining != {}
        invariant remaining <= entries.Keys
        invariant Distinct(found)
        invariant forall n :: n in found <==> n in FileNames(State()) && n !in remaining
        decreases |remaining|
      {
        var n :| n in remaining;
        if entries[n].File? {
          found := found + [n];
        }
        remaining := remaining - {n};
      }
      names := Sort(found);
      PermutationDistinct(found, names);
      forall n ensures n in names <==> n in found {
        assert n in names <==> n in multiset(names);
        assert n in found <==> n in multiset(found);
      }
      SortedUnique(names, SortedNames(FileNames(State())));
    }

    /** The loop printing one line per bookmark, for the listing and the menu;
        it stops at the first hash shorter than 8 bytes. */
    method PrintLines(names: seq<string>, env: BookmarkEnv) returns (lines: seq<Line>, panicked: bool)
      ensures panicked == AnyPanics(State(), names, env)
      ensures !panicked ==> lines == LinesOf(State(), names, env)
    {
      lines := [];
      var i := 0;
      while i < |names|
        invariant 0 <= i <= |names|
        invariant lines == LinesOf(State(), names[..i], env)
        invariant forall j :: 0 <= j < i ==> !LinePanics(LineOf(State(), names[j], env))
      {
        var name := names[i];
        var reference := GetBookmarkReference(name);
        var line: Line;
        if reference.Err? {
          line := Unreadable(name, reference.msg);
        } else {
          var commitHash := env.commitHash(reference.value);
          if commitHash.Err? {
            line := Unresolved(name, reference.value);
          } else {
            if Utf8Len(commitHash.value) < 8 {
              assert LinePanics(LineOf(State(), names[i], env));
              return lines, true;
            }
            line := Resolved(name, reference.value, commitHash.value);
          }
        }
        assert names[..i + 1][..i] == names[..i];
        lines := lines + [line];
        i := i + 1;
      }
      assert names[..i] == names;
      return lines, false;
    }

    /** `listBookmarks` */
    method ListBookmarks(env: BookmarkEnv) returns (out: Outcome)
      ensures out == ListSpec(State(), env)
    {
      if dir.None? || |dir.value| == 0 {
        return NoBookmarks;
      }
      var names := ReadBookmarkNames();
      var lines, panicked := PrintLines(names, env);
      if panicked {
        return Panicked;
      }
      return Listing(lines);
    }

    /** `checkoutBookmark` */
    method CheckoutBookmark(name: string, env: BookmarkEnv) returns (out: Outcome)
      modifies this
      ensures (State(), out) == CheckoutSpec(old(State()), name, env)
    {
      var reference := GetBookmarkReference(name);
      if reference.Err? {
        return Failed(reference.msg);
      }
      UpdatePreviousBookmark(name);
      var st := env.checkout(reference.value);
      if st.Fail? {
        return Failed("failed to checkout bookmark: " + st.err);
      }
      head := reference.value;
      if Utf8Len(reference.value) < 8 {
        return Panicked;
      }
      return Success;
    }

    /** `checkoutPreviousBookmark` */
    method CheckoutPreviousBookmark(env: BookmarkEnv) returns (out: Outcome)
      modifies this
      ensures (State(), out) == CheckoutPreviousSpec(old(State()), env)
    {
      var previousName := GetPreviousBookmark();
      if previousName == "" {
        return Failed(NoPrevious);
      }
      out := CheckoutBookmark(previousName, env);
    }

    /** `interactiveCheckout` */
    method InteractiveCheckout(env: BookmarkEnv) returns (out: Outcome)
      modifies this
      ensures (State(), out) == InteractiveSpec(old(State()), env)
    {
      if dir.None? {
        return Failed(NoneFound);
      }
      var bookmarks := ReadBookmarkNames();
      if |bookmarks| == 0 {
        return Failed(NoneFound);
      }
      var _, panicked := PrintLines(bookmarks, env);
      if panicked {
        return Panicked;
      }
      if env.choice.None? {
        return Failed("invalid input");
      }
      var choice := env.choice.value;
      if choice < 1 || choice > |bookmarks| {
        return Failed("invalid choice: " + IntToString(choice));
      }
      out := CheckoutBookmark(bookmarks[choice - 1], env);
    }

    /** `syncBranchFromBookmark` */
    method SyncBranchFromBookmark(name: string, env: BookmarkEnv) returns (out: Outcome)
      modifies this
      ensures (State(), out) == SyncSpec(old(State()), name, env)
    {
      var reference := GetBookmarkReference(name);
      if reference.Err? {
        return Failed(reference.msg);
      }
      var commitHash := env.commitHash(reference.value);
      if commitHash.Err? {
        return Failed("failed to resolve bookmark reference: " + commitHash.msg);
      }
      var st := env.writeRef(name, commitHash.value);
      if st.Fail? {
        return Failed("failed to sync branch: " + st.err);
      }
      refs := refs[name := commitHash.value];
      var branchExisted := name in refs;
      if Utf8Len(commitHash.value) < 8 {
        return Panicked;
      }
      return Synced(branchExisted);
    }

    /** `main` */
    method Run(args: seq<string>, env: BookmarkEnv) returns (out: Outcome)
      modifies this
      ensures (State(), out) == RunSpec(old(State()), args, env)
    {
      var opts := ParseArgs(args);
      if opts.Help? {
        return ShowHelp;
      }
      if opts.ParseError? {
        return Failed(opts.msg);
      }
      var o := opts.opts;
      if o.action == "create" {
        out := CreateBookmark(o.name, o.reference, env);
      } else if o.action == "delete" {
        out := DeleteBookmark(o.name);
      } else if o.action == "show" {
        out := ShowBookmark(o.name, o.absolute, env);
      } else if o.action == "list" {
        out := ListBookmarks(env);
      } else if o.action == "checkout" {
        out := CheckoutBookmark(o.name, env);
      } else if o.action == "checkout-previous" {
        out := CheckoutPreviousBookmark(env);
      } else if o.action == "interactive" {
        out := InteractiveCheckout(env);
      } else if o.action == "sync" {
        out := SyncBranchFromBookmark(o.name, env);
      } else {
        out := Failed("Unknown action '" + o.action + "'");
      }
    }
  }
}
