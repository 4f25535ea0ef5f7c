/** Concrete runs shaped like the scenarios of src/commands/up.test.ts: the
    flat and the nested migration trees, the filters with the wrong number of
    capture groups, a missing root, and what a clean run issues and logs. */
module Fixtures {
  import opened Types
  import opened Text
  import opened Paths
  import opened LogBuilder
  import opened Discovery
  import opened Ledger
  import opened Up
  import opened UpProperties

  /** A flat tree as the walk reports it: the root itself, then `<a>.sql` and `<b>.sql`. */
  function FlatWalk(root: string, a: string, b: string): Walk
  {
    Walk([Entry(root, false), Entry(root + "/" + (a + ".sql"), true), Entry(root + "/" + (b + ".sql"), true)], None)
  }

  /** A nested tree: one directory per version, each holding `sql/up.sql`. */
  function NestedWalk(root: string, a: string, b: string): Walk
  {
    Walk([Entry(root, false),
          Entry(root + "/" + a, false),
          Entry(root + "/" + (a + "/sql"), false),
          Entry(root + "/" + (a + "/sql/up.sql"), true),
          Entry(root + "/" + b, false),
          Entry(root + "/" + (b + "/sql"), false),
          Entry(root + "/" + (b + "/sql/up.sql"), true)], None)
  }

  /** A name the version of a migration can be: not empty, with no separator and no dot. */
  predicate Plainname(name: string)
  {
    name != [] && '/' !in name && '.' !in name
  }

  /** Five decimal digits, as in the fixtures' zero-padded versions. */
  predicate FiveDigits(d: string)
  {
    |d| == 5 && forall i :: 0 <= i < 5 ==> '0' <= d[i] <= '9'
  }

  /** The version of a flat migration file is its name without `.sql`. */
  lemma SqlStem(name: string)
    requires Plainname(name)
    ensures Extname(name + ".sql") == ".sql" && Stem(name + ".sql") == name
  {
    var p := name + ".sql";
    var n := |name|;
    assert '/' !in p by {
      forall i | 0 <= i < |p| ensures p[i] != '/' {
        if i < n {
          assert p[i] == name[i];
        }
      }
    }
    assert StripTrailingSlashes(p) == p;
    AfterLastShape(p, '/');
    assert FinalSegment(p) == p;
    var ext := ".sql";
    assert ext[0] == '.' && ext[1] == 's' && ext[2] == 'q' && ext[3] == 'l';
    assert forall i :: n <= i < |p| ==> p[i] == ext[i - n];
    var dot := AfterLast(p, '.');
    assert dot == n + 1 by {
      AfterLastShape(p, '.');
      assert p[n] == '.';
      assert forall i :: n < i < |p| ==> p[i] != '.';
    }
    assert ExtStart(p) == n;
  }

  /** One more entry adds its contribution to what the walk found so far. */
  lemma FoundSnoc(root: string, es: seq<Entry>, e: Entry, filter: Option<Matcher>)
    ensures Found(root, es + [e], filter) == Found(root, es, filter) + Contribution(root, e, filter)
  {
    assert (es + [e])[..|es|] == es;
  }

  /** Without a filter, the file `<name>.sql` below the root is the migration `<name>`. */
  lemma SqlFileContribution(root: string, name: string)
    requires Plainname(name)
    ensures Contribution(root, Entry(root + "/" + (name + ".sql"), true), None) == [Migration(name + ".sql", name)]
  {
    RelativeBelowRoot(root, name + ".sql", true);
    SqlStem(name);
  }

  /** Without a filter, a flat tree yields its two files, each with its name
      without `.sql` as version, and the root directory yields nothing. */
  lemma FlatDiscovery(root: string, a: string, b: string)
    requires Plainname(a) && Plainname(b)
    ensures Discovered(root, FlatWalk(root, a, b), None) == Ok([Migration(a + ".sql", a), Migration(b + ".sql", b)])
  {
    var dirs := [Entry(root, false)];
    var fileA := Entry(root + "/" + (a + ".sql"), true);
    var fileB := Entry(root + "/" + (b + ".sql"), true);
    assert FlatWalk(root, a, b) == Walk(dirs + [fileA] + [] + [fileB], None);
    DirectoriesFindNothing(root, dirs, None);
    DirectoriesFindNothing(root, [], None);
    SqlFileContribution(root, a);
    SqlFileContribution(root, b);
    DirectoriesThenTwoFiles(root, dirs, fileA, [], fileB, None, Migration(a + ".sql", a), Migration(b + ".sql", b));
  }

  /** Directories, a file, more directories and another file, where each file
      yields one migration and is not rejected: the two migrations in that order. */
  lemma DirectoriesThenTwoFiles(root: string, before: seq<Entry>, x: Entry, between: seq<Entry>, y: Entry,
                                filter: Option<Matcher>, mx: Migration, my: Migration)
    requires Found(root, before, filter) == [] && !AnyRejected(root, before, filter)
    requires Found(root, between, filter) == [] && !AnyRejected(root, between, filter)
    requires Contribution(root, x, filter) == [mx] && Contribution(root, y, filter) == [my]
    requires !Rejects(root, x, filter) && !Rejects(root, y, filter)
    ensures Discovered(root, Walk(before + [x] + between + [y], None), filter) == Ok([mx, my])
  {
    SingleEntry(root, x, filter);
    SingleEntry(root, y, filter);
    FourParts(root, before, [x], between, [y], filter);
    assert [] + [mx] + [] + [my] == [mx, my];
  }

  /** Discovery over a walk in four parts. */
  lemma FourParts(root: string, a: seq<Entry>, b: seq<Entry>, c: seq<Entry>, d: seq<Entry>, filter: Option<Matcher>)
    ensures Found(root, a + b + c + d, filter)
            == Found(root, a, filter) + Found(root, b, filter) + Found(root, c, filter) + Found(root, d, filter)
    ensures AnyRejected(root, a + b + c + d, filter)
            == (AnyRejected(root, a, filter) || AnyRejected(root, b, filter) || AnyRejected(root, c, filter) || AnyRejected(root, d, filter))
  {
    WalkAppend(root, a, b, filter);
    WalkAppend(root, a + b, c, filter);
    WalkAppend(root, a + b + c, d, filter);
  }

  /** A walk of one entry finds what that entry contributes, and rejects it only if that entry is rejected. */
  lemma SingleEntry(root: string, e: Entry, filter: Option<Matcher>)
    ensures Found(root, [e], filter) == Contribution(root, e, filter)
    ensures AnyRejected(root, [e], filter) == Rejects(root, e, filter)
  {
    FoundSnoc(root, [], e, filter);
    assert [] + [e] == [e];
  }

  /** `new RegExp("^([0-9]{5})/sql/up\\.sql")`: five digits, then `/sql/up.sql`,
      at the start of the path; the capture is the five digits. */
  function UpSql(p: string): Option<seq<string>>
  {
    if |p| >= 16 && FiveDigits(p[..5]) && p[5..16] == "/sql/up.sql"
    then Some([p[..16], p[..5]])
    else None
  }

  /** The nested filter matches an `up.sql` below a five-digit directory and
      captures the directory's name. */
  lemma UpSqlMatches(d: string)
    requires FiveDigits(d)
    ensures UpSql(d + "/sql/up.sql") == Some([d + "/sql/up.sql", d])
  {
    var p := d + "/sql/up.sql";
    assert p[..5] == d && p[5..16] == "/sql/up.sql" && p[..16] == p;
  }

  /** Under the nested filter, `<d>/sql/up.sql` below the root is the migration `<d>`. */
  lemma UpSqlContribution(root: string, d: string)
    requires FiveDigits(d)
    ensures var e := Entry(root + "/" + (d + "/sql/up.sql"), true);
            && !Rejects(root, e, Some(UpSql))
            && Contribution(root, e, Some(UpSql)) == [Migration(d + "/sql/up.sql", d)]
  {
    RelativeBelowRoot(root, d + "/sql/up.sql", true);
    UpSqlMatches(d);
  }

  /** Directories contribute nothing, under any filter. */
  lemma {:induction false} DirectoriesFindNothing(root: string, es: seq<Entry>, filter: Option<Matcher>)
    requires forall i :: 0 <= i < |es| ==> !es[i].isFile
    ensures Found(root, es, filter) == [] && !AnyRejected(root, es, filter)
    decreases |es|
  {
    if es != [] {
      DirectoriesFindNothing(root, es[..|es| - 1], filter);
    }
  }

  /** With the nested filter, each `up.sql` yields one migration whose version is
      its directory's name, and the directories yield nothing. */
  lemma NestedDiscovery(root: string, a: string, b: string)
    requires FiveDigits(a) && FiveDigits(b)
    ensures Discovered(root, NestedWalk(root, a, b), Some(UpSql))
            == Ok([Migration(a + "/sql/up.sql", a), Migration(b + "/sql/up.sql", b)])
  {
    var f := Some(UpSql);
    var dirsA := [Entry(root, false), Entry(root + "/" + a, false), Entry(root + "/" + (a + "/sql"), false)];
    var fileA := Entry(root + "/" + (a + "/sql/up.sql"), true);
    var dirsB := [Entry(root + "/" + b, false), Entry(root + "/" + (b + "/sql"), false)];
    var fileB := Entry(root + "/" + (b + "/sql/up.sql"), true);
    assert NestedWalk(root, a, b) == Walk(dirsA + [fileA] + dirsB + [fileB], None);
    DirectoriesFindNothing(root, dirsA, f);
    DirectoriesFindNothing(root, dirsB, f);
    UpSqlContribution(root, a);
    UpSqlContribution(root, b);
    DirectoriesThenTwoFiles(root, dirsA, fileA, dirsB, fileB, f, Migration(a + "/sql/up.sql", a), Migration(b + "/sql/up.sql", b));
  }

  /** `/.*\/`: matches every path, with no capture group. */
  function MatchAll(p: string): Option<seq<string>>
  {
    Some([p])
  }

  /** `/(.)(.*)/`: matches every non-empty path, with two capture groups. */
  function TwoGroups(p: string): Option<seq<string>>
  {
    if p == [] then None else Some([p, p[..1], p[1..]])
  }

  /** A filter without a capture group rejects any tree that holds a file. */
  lemma NoCaptureGroupRejects(root: string, walk: Walk, i: nat)
    requires walk.error.None? && i < |walk.entries| && walk.entries[i].isFile
    ensures Discovered(root, walk, Some(MatchAll)) == Err(CaptureGroups)
    ensures CaptureGroups.Message() == Some(CaptureGroupsMessage)
  {
    assert Rejects(root, walk.entries[i], Some(MatchAll));
  }

  /** A filter with two capture groups rejects any tree that holds a file below the root. */
  lemma TwoCaptureGroupsRejects(root: string, walk: Walk, i: nat)
    requires walk.error.None? && i < |walk.entries| && walk.entries[i].isFile
    requires Relative(root, walk.entries[i]) != []
    ensures Discovered(root, walk, Some(TwoGroups)) == Err(CaptureGroups)
  {
    assert Rejects(root, walk.entries[i], Some(TwoGroups));
  }

  /** A relative root that does not exist: it is resolved against the working
      directory, and the run rejects naming that absolute root before any
      statement is issued or anything is logged. */
  lemma MissingRootRejects(cwdSegs: seq<string>, dirSegs: seq<string>, files: map<string, string>,
                           s: DbState, server: Server)
    requires cwdSegs != [] && dirSegs != []
    requires forall i :: 0 <= i < |cwdSegs| ==> Plain(cwdSegs[i]) && '/' !in cwdSegs[i]
    requires forall i :: 0 <= i < |dirSegs| ==> Plain(dirSegs[i]) && '/' !in dirSegs[i]
    ensures var cwd := "/" + Join(cwdSegs, '/');
            var root := RootDir(cwd, Join(dirSegs, '/'));
            var r := Run(root, Walk([], Some(WalkError(Some("ENOENT")))), None, files, s, server);
            && root == cwd + "/" + Join(dirSegs, '/')
            && r.db == s && r.logs == []
            && r.outcome == Threw(MissingDirectory(root))
  {
    ResolvePlain(cwdSegs, dirSegs);
    JoinedIsRelative(dirSegs);
  }

  /** Segments joined with `/` whose first one is a plain name make a relative path. */
  lemma JoinedIsRelative(segs: seq<string>)
    requires segs != [] && Plain(segs[0]) && '/' !in segs[0]
    ensures !IsAbsolute(Join(segs, '/'))
  {
    JoinCons(segs[0], segs[1..], '/');
    assert segs == [segs[0]] + segs[1..];
    if |segs| == 1 {
      assert Join(segs, '/') == segs[0];
    } else {
      assert Join(segs, '/') == segs[0] + ['/'] + Join(segs[1..], '/');
    }
    assert segs[0][0] != '/';
    assert Join(segs, '/')[0] == segs[0][0];
  }

  /** JavaScript order on zero-padded versions agrees with their numbers, but
      on unpadded ones it does not: `"9"` sorts above `"10"`. */
  lemma VersionOrder()
    ensures Below("00002", "00010")
    ensures Below("10", "9") && !Below("9", "10")
  {
    assert "00002"[1..] == "0002" && "00010"[1..] == "0010";
    assert "0002"[1..] == "002" && "0010"[1..] == "010";
    assert "002"[1..] == "02" && "010"[1..] == "10";
  }

  /** A run whose discovery finds two migrations with different versions and
      readable files, from a fresh connection on an empty ledger that the
      server accepts throughout, as in the flat and nested scenarios
      (up.test.ts:36-65), ends as BothApplied says, at the time of BEGIN. */
  lemma TwoMigrationRun(root: string, walk: Walk, filter: Option<Matcher>, m1: Migration, m2: Migration,
                        files: map<string, string>, s: DbState, server: Server)
    requires Discovered(root, walk, filter) == Ok([m1, m2])
    requires m1.version != m2.version && m1.path in files && m2.path in files
    requires s.ledger == map[] && s.snapshot.None? && s.queries == [] && server.faults == {}
    ensures Run(root, walk, filter, files, s, server)
            == BothApplied(m1.version, files[m1.path], m2.version, files[m2.path], server.clock(1))
  {
    var x, y := Loaded(m1, files[m1.path]), Loaded(m2, files[m2.path]);
    FlatBatch(s, m1, m2, files, server);
    var t := server.clock(1);
    CommittedTwo(s, x, y, t);
    CleanRunOf(root, walk, filter, files, s, server, [m1, m2], [x, y], t,
               BothApplied(m1.version, files[m1.path], m2.version, files[m2.path], t));
  }

  /** A run from a fresh connection on an empty ledger that applied version
      `v1` with SQL `sql1`, then `v2` with `sql2`, and committed at `t`: BEGIN,
      the schema statement and the watermark query, then each version's INSERT,
      SQL and UPDATE in turn, then COMMIT; one success log per version, first
      `v1` then `v2`; both rows started and ended at `t`, and the table exists. */
  function BothApplied(v1: string, sql1: string, v2: string, sql2: string, t: int): Finished
  {
    Finished(DbState(true, map[v1 := Row(t, Some(t)), v2 := Row(t, Some(t))], None, t,
                     [Begin, CreateSchema, SelectLast,
                      InsertStart(v1), RunSql(sql1), SetEnded(v1),
                      InsertStart(v2), RunSql(sql2), SetEnded(v2),
                      Commit]),
             [RanLog(v1), RanLog(v2)],
             Resolved)
  }

  /** CleanRun, for a run whose discovered migrations and pending batch are
      known: when every run committing that batch at the time of BEGIN is
      `expected`, the run is `expected`. */
  lemma CleanRunOf(root: string, walk: Walk, filter: Option<Matcher>, files: map<string, string>, s: DbState, server: Server,
                   migrations: seq<Migration>, batch: seq<Loaded>, t: int, expected: Finished)
    requires Discovered(root, walk, filter) == Ok(migrations)
    requires s.snapshot.None? && BatchFor(s, migrations, files, server) == Ok(batch) && Fresh(batch, s.ledger)
    requires Clear(server, |s.queries|, 4 + 3 * |batch|)
    requires t == server.clock(|s.queries| + 1)
    requires forall r :: CommittedAs(r, s, batch, t) ==> r == expected
    ensures Run(root, walk, filter, files, s, server) == expected
  {
    CleanRun(root, walk, filter, files, s, server);
  }

  /** Any run from a fresh connection on an empty ledger that committed two
      migrations at `t` ends as BothApplied says. */
  lemma CommittedTwo(s: DbState, x: Loaded, y: Loaded, t: int)
    requires s.queries == [] && s.ledger == map[]
    ensures forall r :: CommittedAs(r, s, [x, y], t) ==> r == BothApplied(x.info.version, x.sql, y.info.version, y.sql, t)
  {
    var v1, v2 := x.info.version, y.info.version;
    TwoMigrations(x, y, s.ledger, t);
    assert s.queries + CleanTrace([x, y]) == [Begin, CreateSchema, SelectLast,
                                              InsertStart(v1), RunSql(x.sql), SetEnded(v1),
                                              InsertStart(v2), RunSql(y.sql), SetEnded(v2),
                                              Commit];
    assert Recorded(s.ledger, [x, y], t) == map[v1 := Row(t, Some(t)), v2 := Row(t, Some(t))];
  }

  /** On an empty ledger both flat migrations are pending, and both files are read. */
  lemma FlatBatch(s: DbState, m1: Migration, m2: Migration, files: map<string, string>, server: Server)
    requires s.ledger == map[] && m1.path in files && m2.path in files && m1.version != m2.version
    ensures BatchFor(s, [m1, m2], files, server) == Ok([Loaded(m1, files[m1.path]), Loaded(m2, files[m2.path])])
    ensures Fresh([Loaded(m1, files[m1.path]), Loaded(m2, files[m2.path])], s.ledger)
  {
    assert WatermarkRows(server.collation, map[]) == [];
    var read := ReadAll([m1, m2], files);
    assert read.Ok?;
    assert |read.value| == 2 && read.value[0] == Loaded(m1, files[m1.path]) && read.value[1] == Loaded(m2, files[m2.path]);
    assert read.value == [Loaded(m1, files[m1.path]), Loaded(m2, files[m2.path])];
  }

  /** What a committed batch of two migrations issues, logs and records. */
  lemma TwoMigrations(x: Loaded, y: Loaded, ledger: map<string, Row>, t: int)
    ensures StatementsOf([x, y]) == [InsertStart(x.info.version), RunSql(x.sql), SetEnded(x.info.version),
                                     InsertStart(y.info.version), RunSql(y.sql), SetEnded(y.info.version)]
    ensures RanLogs([x, y]) == [RanLog(x.info.version), RanLog(y.info.version)]
    ensures Recorded(ledger, [x, y], t) == ledger[x.info.version := Row(t, Some(t))][y.info.version := Row(t, Some(t))]
    ensures CleanTrace([x, y]) == [Begin, CreateSchema, SelectLast,
                                   InsertStart(x.info.version), RunSql(x.sql), SetEnded(x.info.version),
                                   InsertStart(y.info.version), RunSql(y.sql), SetEnded(y.info.version),
                                   Commit]
  {
    assert [x, y][..1] == [x] && [x][..0] == [];
    assert StatementsOf([x]) == [InsertStart(x.info.version), RunSql(x.sql), SetEnded(x.info.version)];
    assert RanLogs([x]) == [RanLog(x.info.version)];
    assert Recorded(ledger, [x], t) == ledger[x.info.version := Row(t, Some(t))];
  }

  /** A collation key that folds case, as a linguistic collation such as
      en_US does: it puts "a" before "B", where JavaScript puts "B" first. */
  const CaseFolded: Collation := v => ToLower(v)

  /** Versions "B" and "a", discovered in that order, on an empty ledger whose
      column folds case: both are pending, read and recorded at `t`; the
      watermark query then returns "B", above "a" for the column but below it
      for JavaScript, so "a" is pending again although it is recorded (and its
      INSERT on the next run fails as a duplicate). */
  lemma CaseFoldedRerun(mB: Migration, ma: Migration, files: map<string, string>, t: int)
    requires mB.version == "B" && ma.version == "a" && mB.path in files && ma.path in files
    ensures !AgreesWithCode(CaseFolded, {"B", "a"})
    ensures var first := ReadAll(Pending([mB, ma], WatermarkRows(CaseFolded, map[])), files);
            && first == Ok([Loaded(mB, files[mB.path]), Loaded(ma, files[ma.path])])
            && var after := Recorded(map[], first.value, t);
               && WatermarkRows(CaseFolded, after) == ["B"]
               && Pending([mB, ma], WatermarkRows(CaseFolded, after)) == [ma]
               && ma.version in after
  {
    var c := CaseFolded;
    assert c("B") == "b" by { assert ToLower("B")[0] == LowerChar('B') == 'b'; }
    assert c("a") == "a" by { assert ToLower("a")[0] == LowerChar('a') == 'a'; }
    assert Below("B", "a") && !Collates(c, "B", "a");
    assert WatermarkRows(c, map[]) == [];
    var x, y := Loaded(mB, files[mB.path]), Loaded(ma, files[ma.path]);
    var read := ReadAll([mB, ma], files);
    assert |read.value| == 2 && read.value[0] == x && read.value[1] == y;
    assert read.value == [x, y];
    TwoMigrations(x, y, map[], t);
    var after := Recorded(map[], [x, y], t);
    assert after == map["B" := Row(t, Some(t)), "a" := Row(t, Some(t))];
    assert IsWatermark(c, after, "B") by {
      assert !Collates(c, "B", "B") && Below("a", "b");
    }
    WatermarkUnique(c, after, Watermark(c, after).value, "B");
    assert [mB, ma][..1] == [mB] && [mB][..0] == [];
    assert Newer([mB, ma], "B") == [ma] by {
      BelowIrreflexive("B");
    }
  }
}
