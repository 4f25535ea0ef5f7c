/** Migration discovery (src/commands/up.ts:27-71): the walk of the migration
    root becomes a list of migrations, each a file path and a version. */
module Discovery {
  import opened Types
  import opened Text
  import opened Paths

  /** One item the directory walk emits: its full path, which starts with the
      root, and whether it is a regular file. */
  datatype Entry = Entry(path: string, isFile: bool)

  /** `item.path.substring(dir.length + 1)` (up.ts:36): the path below the root. */
  function Relative(root: string, e: Entry): string
  {
    Substring(e.path, |root| + 1)
  }

  /** An item below the root yields the path under the root it was built from. */
  lemma RelativeBelowRoot(root: string, rel: string, isFile: bool)
    ensures Relative(root, Entry(root + "/" + rel, isFile)) == rel
  {
    assert (root + "/" + rel)[|root| + 1..] == rel;
  }

  /** An error event of the walk, with the error's `code` property if it has one. */
  datatype WalkError = WalkError(code: Option<string>)

  /** The walk of the root as klaw reports it: the items in the order it emits
      them, then either its end or its first error. */
  datatype Walk = Walk(entries: seq<Entry>, error: Option<WalkError>)

  /** `relativePath.match(filter)`: the match array (whole match, then one entry
      per capture group), or nothing when the path does not match. */
  type Matcher = string -> Option<seq<string>>

  /** A migration file: its root-relative path and its version. */
  datatype Migration = Migration(path: string, version: string)

  /** `dir` as runMigrations uses it: resolved against the working directory
      unless already absolute (up.ts:27-29). */
  function RootDir(cwd: string, dir: string): (root: string)
    requires IsAbsolute(cwd)
    ensures IsAbsolute(root)
    ensures IsAbsolute(dir) ==> root == dir
  {
    if IsAbsolute(dir) then dir else Resolve(cwd, dir)
  }

  /** The rejection an error event causes (up.ts:61-67): ENOENT names the root
      as missing, any other error is passed on. */
  function WalkFailure(root: string, e: WalkError): (f: Failure)
    ensures f.MissingDirectory? <==> e.code == Some("ENOENT")
    ensures f.MissingDirectory? ==> f.dir == root
    ensures f.WalkFailed? ==> f.code == e.code
    ensures f.MissingDirectory? || f.WalkFailed?
  {
    if e.code == Some("ENOENT") then MissingDirectory(root) else WalkFailed(e.code)
  }

  /** A file whose match array is not exactly the whole match and one capture. */
  predicate Rejects(root: string, e: Entry, filter: Option<Matcher>)
  {
    e.isFile && filter.Some? && filter.value(Relative(root, e)).Some? && |filter.value(Relative(root, e)).value| != 2
  }

  /** Whether some file of the walk is rejected: the error flag of up.ts:45-47
      once the entries have all been seen. */
  function AnyRejected(root: string, entries: seq<Entry>, filter: Option<Matcher>): (b: bool)
    ensures b <==> exists i :: 0 <= i < |entries| && Rejects(root, entries[i], filter)
    decreases |entries|
  {
    if entries == [] then false
    else
      var shorter := entries[..|entries| - 1];
      assert forall i :: 0 <= i < |shorter| ==> shorter[i] == entries[i];
      AnyRejected(root, shorter, filter) || Rejects(root, entries[|entries| - 1], filter)
  }

  /** What one entry adds to the list (up.ts:37-58). */
  function Contribution(root: string, e: Entry, filter: Option<Matcher>): seq<Migration>
  {
    var rel := Relative(root, e);
    if !e.isFile then []
    else if filter.None? then [Migration(rel, Stem(rel))]
    else
      match filter.value(rel)
      case None => []
      case Some(m) => if |m| == 2 then [Migration(rel, m[1])] else []
  }

  /** The migrations the walk's entries yield, in walk order. */
  function Found(root: string, entries: seq<Entry>, filter: Option<Matcher>): seq<Migration>
    decreases |entries|
  {
    if entries == [] then []
    else Found(root, entries[..|entries| - 1], filter) + Contribution(root, entries[|entries| - 1], filter)
  }

  /** The outcome of discovery: the walk's first error, else the capture-group
      error if any matching file was rejected, else the migrations found. */
  function Discovered(root: string, walk: Walk, filter: Option<Matcher>): Result<seq<Migration>, Failure>
  {
    if walk.error.Some? then Err(WalkFailure(root, walk.error.value))
    else if AnyRejected(root, walk.entries, filter) then Err(CaptureGroups)
    else Ok(Found(root, walk.entries, filter))
  }

  /** Discovery fails with the walk's error if there is one; otherwise it fails
      with the capture-group error exactly when some file of the walk is
      rejected, and else yields what the walk found. */
  lemma DiscoveredShape(root: string, walk: Walk, filter: Option<Matcher>)
    ensures var r := Discovered(root, walk, filter);
            && (walk.error.Some? ==> r == Err(WalkFailure(root, walk.error.value)))
            && (walk.error.None? ==>
                  (r.Err? <==> exists i :: 0 <= i < |walk.entries| && Rejects(root, walk.entries[i], filter)))
            && (walk.error.None? && r.Err? ==> r.error == CaptureGroups)
            && (r.Ok? ==> r.value == Found(root, walk.entries, filter))
  {
  }

  /** The walk callback of up.ts:35-60 for one item: a file is pushed with its
      version, and a match with the wrong number of captures only records the
      error. */
  method OnItem(root: string, item: Entry, filter: Option<Matcher>, migrations: seq<Migration>, error: string)
    returns (migrations': seq<Migration>, error': string)
    ensures migrations' == migrations + Contribution(root, item, filter)
    ensures error' == if Rejects(root, item, filter) then CaptureGroupsMessage else error
  {
    migrations', error' := migrations, error;
    var relativePath := Substring(item.path, |root| + 1);
    if item.isFile {
      if filter.Some? {
        var matched := filter.value(relativePath);
        if matched.Some? {
          if |matched.value| != 2 {
            error' := CaptureGroupsMessage;
          } else {
            migrations' := migrations' + [Migration(relativePath, matched.value[1])];
          }
        }
      } else {
        var version := relativePath[..|relativePath| - |Extname(relativePath)|];
        migrations' := migrations' + [Migration(relativePath, version)];
      }
    }
  }

  /** The walk of up.ts:33-60 with its end and error handlers (up.ts:61-70):
      items are handled as they arrive, and the recorded error is raised when
      the walk ends. */
  method Discover(root: string, walk: Walk, filter: Option<Matcher>) returns (r: Result<seq<Migration>, Failure>)
    ensures r == Discovered(root, walk, filter)
  {
    if walk.error.Some? {
      return Err(WalkFailure(root, walk.error.value));
    }
    var migrations: seq<Migration> := [];
    var error := "";
    var i := 0;
    while i < |walk.entries|
      invariant 0 <= i <= |walk.entries|
      invariant migrations == Found(root, walk.entries[..i], filter)
      invariant error == "" <==> !AnyRejected(root, walk.entries[..i], filter)
    {
      WalkStep(root, walk.entries, i, filter);
      migrations, error := OnItem(root, walk.entries[i], filter, migrations, error);
      i := i + 1;
    }
    assert walk.entries[..i] == walk.entries;
    if error != "" {
      r := Err(CaptureGroups);
    } else {
      r := Ok(migrations);
    }
  }

  /** One more entry of the walk adds its contribution and may set the error flag. */
  lemma WalkStep(root: string, entries: seq<Entry>, i: nat, filter: Option<Matcher>)
    requires i < |entries|
    ensures Found(root, entries[..i + 1], filter) == Found(root, entries[..i], filter) + Contribution(root, entries[i], filter)
    ensures AnyRejected(root, entries[..i + 1], filter) == (AnyRejected(root, entries[..i], filter) || Rejects(root, entries[i], filter))
  {
    assert entries[..i + 1][..i] == entries[..i];
  }

  /** Discovery of a walk in two parts: the migrations of the first part, then
      those of the second, and a file is rejected in the whole walk exactly
      when it is rejected in one of the parts. */
  lemma {:induction false} WalkAppend(root: string, a: seq<Entry>, b: seq<Entry>, filter: Option<Matcher>)
    ensures Found(root, a + b, filter) == Found(root, a, filter) + Found(root, b, filter)
    ensures AnyRejected(root, a + b, filter) == (AnyRejected(root, a, filter) || AnyRejected(root, b, filter))
    decreases |b|
  {
    if b == [] {
      assert a + b == a;
    } else {
      var b' := b[..|b| - 1];
      assert (a + b)[..|a + b| - 1] == a + b';
      WalkAppend(root, a, b', filter);
      SeqAssociates(Found(root, a, filter), Found(root, b', filter), Contribution(root, b[|b| - 1], filter));
    }
  }

  /** Found of a prefix of the walk is a prefix of Found: migrations keep walk order. */
  lemma {:induction false} FoundKeepsOrder(root: string, entries: seq<Entry>, k: nat, filter: Option<Matcher>)
    requires k <= |entries|
    ensures |Found(root, entries[..k], filter)| <= |Found(root, entries, filter)|
    ensures Found(root, entries[..k], filter) == Found(root, entries, filter)[..|Found(root, entries[..k], filter)|]
    decreases |entries|
  {
    if k < |entries| {
      var shorter := entries[..|entries| - 1];
      assert shorter[..k] == entries[..k];
      FoundKeepsOrder(root, shorter, k, filter);
    } else {
      assert entries[..k] == entries;
    }
  }

  /** The regular files among the walk's items, in walk order. */
  function Files(entries: seq<Entry>): (files: seq<Entry>)
    ensures forall e :: e in files <==> e in entries && e.isFile
    decreases |entries|
  {
    if entries == [] then []
    else
      var init := entries[..|entries| - 1];
      var last := entries[|entries| - 1];
      assert entries == init + [last];
      Files(init) + (if last.isFile then [last] else [])
  }

  /** The migration a regular file yields without a filter: its path below the
      root, and as version that path without its extension. */
  function Unfiltered(root: string, e: Entry): Migration
  {
    Migration(Relative(root, e), Stem(Relative(root, e)))
  }

  /** Without a filter the k-th migration found comes from the k-th regular
      file: one migration per file, in walk order, and directories (the root
      among them) yield none. */
  lemma {:induction false} UnfilteredFound(root: string, entries: seq<Entry>)
    ensures |Found(root, entries, None)| == |Files(entries)|
    ensures forall k :: 0 <= k < |Files(entries)| ==> Found(root, entries, None)[k] == Unfiltered(root, Files(entries)[k])
    decreases |entries|
  {
    if entries != [] {
      var init := entries[..|entries| - 1];
      var last := entries[|entries| - 1];
      UnfilteredFound(root, init);
      assert Contribution(root, last, None) == if last.isFile then [Unfiltered(root, last)] else [];
    }
  }

  /** With a filter, a migration is found exactly for each file whose path
      matches with exactly one capture, and its version is that capture;
      files that do not match are skipped. */
  lemma {:induction false} FilteredFound(root: string, entries: seq<Entry>, f: Matcher)
    ensures forall m :: m in Found(root, entries, Some(f)) <==>
              exists i :: 0 <= i < |entries| && Captures(root, entries[i], f) && m == Migration(Relative(root, entries[i]), f(Relative(root, entries[i])).value[1])
    decreases |entries|
  {
    if entries != [] {
      var shorter := entries[..|entries| - 1];
      FilteredFound(root, shorter, f);
      forall m ensures m in Found(root, entries, Some(f)) <==>
          exists i :: 0 <= i < |entries| && Captures(root, entries[i], f) && m == Migration(Relative(root, entries[i]), f(Relative(root, entries[i])).value[1])
      {
        if m in Found(root, shorter, Some(f)) {
          var i :| 0 <= i < |shorter| && Captures(root, shorter[i], f) && m == Migration(Relative(root, shorter[i]), f(Relative(root, shorter[i])).value[1]);
          assert entries[i] == shorter[i];
        }
        if exists i :: 0 <= i < |entries| && Captures(root, entries[i], f) && m == Migration(Relative(root, entries[i]), f(Relative(root, entries[i])).value[1]) {
          var i :| 0 <= i < |entries| && Captures(root, entries[i], f) && m == Migration(Relative(root, entries[i]), f(Relative(root, entries[i])).value[1]);
          if i < |shorter| {
            assert shorter[i] == entries[i];
          }
        }
      }
    }
  }

  /** A file whose path matches with exactly one capture group. */
  predicate Captures(root: string, e: Entry, f: Matcher)
  {
    e.isFile && f(Relative(root, e)).Some? && |f(Relative(root, e)).value| == 2
  }
}
