/** `runMigrations` (src/commands/up.ts:21-131): discover the migrations, then
    in one transaction create the ledger table, find the watermark, read every
    pending file, apply each migration and record it, and commit; on any error
    roll back and log it. */
module Up {
  import opened Types
  import opened Text
  import opened Paths
  import opened LogBuilder
  import opened Discovery
  import opened Ledger

  /** The migrations whose version is above `top`, in discovery order. */
  function Newer(all: seq<Migration>, top: string): (pending: seq<Migration>)
    ensures |pending| <= |all|
    ensures forall m :: m in pending <==> m in all && Below(top, m.version)
    decreases |all|
  {
    if all == [] then []
    else
      var m := all[|all| - 1];
      assert all == all[..|all| - 1] + [m];
      Newer(all[..|all| - 1], top) + (if Below(top, m.version) then [m] else [])
  }

  /** The selection of up.ts:93-95: with a watermark row, only the migrations
      above its version; with none, all of them. */
  function Pending(all: seq<Migration>, lastMigration: seq<string>): (pending: seq<Migration>)
    ensures lastMigration == [] ==> pending == all
    ensures lastMigration != [] ==> forall m :: m in pending <==> m in all && Below(lastMigration[0], m.version)
  {
    if lastMigration == [] then all else Newer(all, lastMigration[0])
  }

  /** A pending migration with its SQL text (up.ts:96-99). */
  datatype Loaded = Loaded(info: Migration, sql: string)

  /** Reading the SQL of every pending migration (up.ts:92-100); `files` maps
      each readable root-relative path to its text.  All files are read before
      anything is applied; a failure names the first unreadable file. */
  function ReadAll(pending: seq<Migration>, files: map<string, string>): (r: Result<seq<Loaded>, Failure>)
    ensures r.Ok? <==> forall i :: 0 <= i < |pending| ==> pending[i].path in files
    ensures r.Ok? ==> |r.value| == |pending|
    ensures r.Ok? ==> forall i :: 0 <= i < |pending| ==> r.value[i] == Loaded(pending[i], files[pending[i].path])
    ensures r.Err? ==> exists i :: 0 <= i < |pending| && pending[i].path !in files && r.error == ReadFailed(pending[i].path)
    decreases |pending|
  {
    if pending == [] then Ok([])
    else
      var m := pending[|pending| - 1];
      match ReadAll(pending[..|pending| - 1], files)
      case Err(e) => Err(e)
      case Ok(batch) => if m.path in files then Ok(batch + [Loaded(m, files[m.path])]) else Err(ReadFailed(m.path))
  }

  /** The text of the success log before the version (up.ts:114). */
  const RanPrefix := "Ran migration "

  /** The success log of one migration (up.ts:113-115). */
  function RanLog(version: string): LogCall
  {
    LogCall(Text(RanPrefix + version), RanOptions)
  }

  const RanOptions := LogOptions(None, false, Some(Success))

  /** A JavaScript string as JSON.stringify writes it. */
  function JsonString(s: string): string
  {
    "\"" + JsonChars(s) + "\""
  }

  function JsonChars(s: string): string
    decreases |s|
  {
    if s == [] then "" else JsonChars(s[..|s| - 1]) + JsonChar(s[|s| - 1])
  }

  /** The escapes of JSON.stringify: quote, backslash and the control characters. */
  function JsonChar(c: char): string
  {
    var n := c as int;
    if c == '"' then "\\\""
    else if c == '\\' then "\\\\"
    else if n == 8 then "\\b"
    else if n == 9 then "\\t"
    else if n == 10 then "\\n"
    else if n == 12 then "\\f"
    else if n == 13 then "\\r"
    else if n < 0x20 then "\\u00" + [HexDigit(n / 16), HexDigit(n % 16)]
    else [c]
  }

  function HexDigit(d: nat): char
    requires d < 16
  {
    "0123456789abcdef"[d]
  }

  /** `JSON.stringify(currentMigrationVersion)`: `null`, or the migration object. */
  function Json(current: Option<Migration>): string
  {
    match current
    case None => "null"
    case Some(m) => "{\"path\":" + JsonString(m.path) + ",\"version\":" + JsonString(m.version) + "}"
  }

  /** The text of the roll-back notice before the in-flight migration (up.ts:123-124). */
  const RolledBackPrefix := "Rolled back... An error occurred while running migration "

  /** The two logs of the catch block (up.ts:120-128): the raw error, then the
      roll-back notice that names the in-flight migration and carries the
      QueryError exit code. */
  function RollbackLogs(error: Failure, current: Option<Migration>): seq<LogCall>
  {
    [ LogCall(Thrown(error), LogOptions(None, true, Some(Error))),
      LogCall(Text(RolledBackPrefix + Json(current)),
              LogOptions(Some(QueryError), false, Some(Error))) ]
  }

  /** How a run ends: the promise resolves, or rejects with an error. */
  datatype Outcome = Resolved | Threw(error: Failure)

  /** The effect of a run: the database afterwards, the logger calls made, and the outcome. */
  datatype Finished = Finished(db: DbState, logs: seq<LogCall>, outcome: Outcome)

  /** Progress through the apply loop: the database, the success logs so far,
      the error that ended the loop (if any) and `currentMigrationVersion`. */
  datatype Applied = Applied(db: DbState, logs: seq<LogCall>, failure: Option<Failure>, current: Option<Migration>)

  /** Where one migration's three statements leave the database, and the
      first error among them. */
  datatype Attempt = Attempt(db: DbState, failure: Option<Failure>)

  /** INSERT, the migration's SQL and UPDATE in turn (up.ts:104-112), stopping at the first error. */
  ghost function Attempted(s: DbState, m: Loaded, server: Server): Attempt
  {
    var inserted := Step(s, InsertStart(m.info.version), server);
    if inserted.reply.Failed? then Attempt(inserted.db, Some(inserted.reply.error))
    else
      var ran := Step(inserted.db, RunSql(m.sql), server);
      if ran.reply.Failed? then Attempt(ran.db, Some(ran.reply.error))
      else
        var ended := Step(ran.db, SetEnded(m.info.version), server);
        if ended.reply.Failed? then Attempt(ended.db, Some(ended.reply.error))
        else Attempt(ended.db, None)
  }

  /** One pass of the loop body (up.ts:103-115): the migration becomes the
      current one, its statements run, and it is logged when they all succeed. */
  ghost function ApplyOne(a: Applied, m: Loaded, server: Server): (next: Applied)
    requires a.failure.None?
  {
    var t := Attempted(a.db, m, server);
    Applied(t.db, if t.failure.None? then a.logs + [RanLog(m.info.version)] else a.logs, t.failure, Some(m.info))
  }

  /** The loop over the batch (up.ts:102-116), stopping at the first error. */
  ghost function ApplyAll(start: Applied, batch: seq<Loaded>, server: Server): (a: Applied)
    requires start.failure.None?
    ensures |start.logs| <= |a.logs| && a.logs[..|start.logs|] == start.logs
    ensures forall k :: |start.logs| <= k < |a.logs| ==> a.logs[k].options == RanOptions
    decreases |batch|
  {
    if batch == [] then start
    else
      var before := ApplyAll(start, batch[..|batch| - 1], server);
      if before.failure.Some? then before else ApplyOne(before, batch[|batch| - 1], server)
  }

  /** The catch block (up.ts:118-129): ROLLBACK; if the rollback itself fails
      the run rejects with that error and logs nothing, otherwise the two
      roll-back logs are made and the run resolves. */
  ghost function Aborted(s: DbState, error: Failure, current: Option<Migration>, server: Server): Finished
  {
    var rolledBack := Step(s, Rollback, server);
    if rolledBack.reply.Failed? then Finished(rolledBack.db, [], Threw(rolledBack.reply.error))
    else Finished(rolledBack.db, RollbackLogs(error, current), Resolved)
  }

  /** Where the statements before the loop leave the database, and the batch
      to apply or the error that ends the try block. */
  datatype Setup = Setup(db: DbState, batch: Result<seq<Loaded>, Failure>)

  /** BEGIN, the schema statement and the watermark query, then the reads of
      the pending files (up.ts:78-100), stopping at the first error. */
  ghost function Prepared(s: DbState, migrations: seq<Migration>, files: map<string, string>, server: Server): Setup
  {
    var begun := Step(s, Begin, server);
    if begun.reply.Failed? then Setup(begun.db, Err(begun.reply.error))
    else
      var created := Step(begun.db, CreateSchema, server);
      if created.reply.Failed? then Setup(created.db, Err(created.reply.error))
      else
        var selected := Step(created.db, SelectLast, server);
        if selected.reply.Failed? then Setup(selected.db, Err(selected.reply.error))
        else Setup(selected.db, ReadAll(Pending(migrations, selected.reply.versions), files))
  }

  /** The end of the try block once the loop has stopped (up.ts:117-129):
      COMMIT after a loop without error, then the catch block if the loop or
      the COMMIT failed. */
  ghost function Concluded(s: DbState, failure: Option<Failure>, current: Option<Migration>, server: Server): Finished
  {
    if failure.Some? then Aborted(s, failure.value, current, server)
    else
      var committed := Step(s, Commit, server);
      if committed.reply.Failed? then Aborted(committed.db, committed.reply.error, current, server)
      else Finished(committed.db, [], Resolved)
  }

  /** The try block (up.ts:76-117) and its catch, for the discovered migrations. */
  ghost function Transaction(s: DbState, migrations: seq<Migration>, files: map<string, string>, server: Server): Finished
  {
    var setup := Prepared(s, migrations, files, server);
    if setup.batch.Err? then Aborted(setup.db, setup.batch.error, None, server)
    else
      var applied := ApplyAll(Applied(setup.db, [], None, None), setup.batch.value, server);
      var r := Concluded(applied.db, applied.failure, applied.current, server);
      Finished(r.db, applied.logs + r.logs, r.outcome)
  }

  /** A whole run: a discovery error rejects before any statement is issued. */
  ghost function Run(root: string, walk: Walk, filter: Option<Matcher>, files: map<string, string>, s: DbState, server: Server): Finished
  {
    match Discovered(root, walk, filter)
    case Err(e) => Finished(s, [], Threw(e))
    case Ok(migrations) => Transaction(s, migrations, files, server)
  }

  /** The exit code the logger leaves after a run's calls: the last call decides,
      since no earlier call of a run carries a code. */
  function ExitOf(levels: seq<string>, exitOnCompletion: bool, calls: seq<LogCall>): Option<int>
  {
    if calls == [] then None else Decide(levels, exitOnCompletion, calls[|calls| - 1]).exit
  }

  /** `runMigrations(dir, db, log, filter)`, with the working directory, the
      walk of the root and the readable files as inputs: the database and the
      logger end as Run says. */
  method RunMigrations(cwd: string, dir: string, walk: Walk, filter: Option<Matcher>,
                       files: map<string, string>, db: Database, log: Logger) returns (outcome: Outcome)
    requires IsAbsolute(cwd)
    requires log.Valid() && log.exit.None?
    modifies db, log
    ensures log.Valid()
    ensures var r := Run(RootDir(cwd, dir), walk, filter, files, old(db.State()), db.server);
            && db.State() == r.db && outcome == r.outcome
            && log.calls == old(log.calls) + r.logs
            && log.output == old(log.output) + Printout(log.levels, r.logs)
            && log.exit == ExitOf(log.levels, log.exitOnCompletion, r.logs)
  {
    var root := RootDir(cwd, dir);
    var allMigrations := Discover(root, walk, filter);
    if allMigrations.Err? {
      return Threw(allMigrations.error);
    }
    ghost var calls0 := log.calls;
    outcome := Transact(allMigrations.value, files, db, log);
    PrintoutAppend(log.levels, calls0, log.calls[|calls0|..]);
    assert log.calls == calls0 + log.calls[|calls0|..];
  }

  /** The try block and its catch (up.ts:73-130). */
  method Transact(allMigrations: seq<Migration>, files: map<string, string>, db: Database, log: Logger) returns (outcome: Outcome)
    requires log.Valid() && log.exit.None?
    modifies db, log
    ensures log.Valid()
    ensures var r := Transaction(old(db.State()), allMigrations, files, db.server);
            && db.State() == r.db && outcome == r.outcome
            && log.calls == old(log.calls) + r.logs
            && log.exit == ExitOf(log.levels, log.exitOnCompletion, r.logs)
  {
    var migrationsToRun := Prepare(allMigrations, files, db);
    if migrationsToRun.Err? {
      outcome := Abort(migrationsToRun.error, None, db, log);
      return;
    }
    ghost var s3 := db.State();
    ghost var calls3 := log.calls;
    var failure, current := ApplyBatch(migrationsToRun.value, db, log);
    ghost var applied := ApplyAll(Applied(s3, [], None, None), migrationsToRun.value, db.server);
    ghost var r := Concluded(db.State(), failure, current, db.server);
    outcome := Conclude(failure, current, db, log);
    SeqAssociates(calls3, applied.logs, r.logs);
    if r.logs == [] {
      assert applied.logs + r.logs == applied.logs;
    }
  }

  /** COMMIT, or the catch block after an error in the loop (up.ts:117-129). */
  method Conclude(failure: Option<Failure>, current: Option<Migration>, db: Database, log: Logger) returns (outcome: Outcome)
    requires log.Valid() && log.exit.None?
    modifies db, log
    ensures log.Valid()
    ensures var r := Concluded(old(db.State()), failure, current, db.server);
            && db.State() == r.db && outcome == r.outcome
            && log.calls == old(log.calls) + r.logs
            && log.exit == ExitOf(log.levels, log.exitOnCompletion, r.logs)
  {
    if failure.Some? {
      outcome := Abort(failure.value, current, db, log);
      return;
    }
    var reply := db.Query(Commit);
    if reply.Failed? {
      outcome := Abort(reply.error, current, db, log);
      return;
    }
    outcome := Resolved;
  }

  /** The statements before the loop and the reads (up.ts:78-100). */
  method Prepare(allMigrations: seq<Migration>, files: map<string, string>, db: Database) returns (batch: Result<seq<Loaded>, Failure>)
    modifies db
    ensures Setup(db.State(), batch) == Prepared(old(db.State()), allMigrations, files, db.server)
  {
    var reply := db.Query(Begin);
    if reply.Failed? {
      return Err(reply.error);
    }
    reply := db.Query(CreateSchema);
    if reply.Failed? {
      return Err(reply.error);
    }
    var lastMigration := db.Query(SelectLast);
    if lastMigration.Failed? {
      return Err(lastMigration.error);
    }
    batch := ReadAll(Pending(allMigrations, lastMigration.versions), files);
  }

  /** The apply loop (up.ts:102-116): each migration in turn, stopping at the
      first error, which is returned with the migration it happened in. */
  method ApplyBatch(batch: seq<Loaded>, db: Database, log: Logger) returns (failure: Option<Failure>, current: Option<Migration>)
    requires log.Valid() && log.exit.None?
    modifies db, log
    ensures log.Valid()
    ensures var a := ApplyAll(Applied(old(db.State()), [], None, None), batch, db.server);
            && db.State() == a.db && failure == a.failure && current == a.current
            && log.calls == old(log.calls) + a.logs
            && log.exit.None?
  {
    ghost var start := Applied(db.State(), [], None, None);
    ghost var calls0 := log.calls;
    current := None;
    failure := None;
    var i := 0;
    while i < |batch| && failure.None?
      invariant 0 <= i <= |batch|
      invariant db.State() == ApplyAll(start, batch[..i], db.server).db
      invariant failure == ApplyAll(start, batch[..i], db.server).failure
      invariant current == ApplyAll(start, batch[..i], db.server).current
      invariant log.calls == calls0 + ApplyAll(start, batch[..i], db.server).logs
      invariant log.Valid() && log.exit.None?
    {
      ghost var before := ApplyAll(start, batch[..i], db.server);
      var migration := batch[i];
      current := Some(migration.info);
      failure := ApplyMigration(migration, db);
      ApplyStep(start, batch, i, db.server, Attempt(db.State(), failure));
      if failure.None? {
        log.Log(Text(RanPrefix + migration.info.version), RanOptions);
        assert log.calls == calls0 + (before.logs + [RanLog(migration.info.version)]);
      }
      i := i + 1;
    }
    if failure.Some? {
      FailureStops(start, batch, i, db.server);
    } else {
      assert batch[..i] == batch;
    }
  }

  /** One more pass of the loop, given where the migration's statements left
      the database. */
  lemma ApplyStep(start: Applied, batch: seq<Loaded>, i: nat, server: Server, t: Attempt)
    requires start.failure.None? && i < |batch|
    requires ApplyAll(start, batch[..i], server).failure.None?
    requires t == Attempted(ApplyAll(start, batch[..i], server).db, batch[i], server)
    ensures var before := ApplyAll(start, batch[..i], server);
            ApplyAll(start, batch[..i + 1], server)
            == Applied(t.db, if t.failure.None? then before.logs + [RanLog(batch[i].info.version)] else before.logs,
                       t.failure, Some(batch[i].info))
  {
    assert batch[..i + 1][..i] == batch[..i];
  }

  /** The three statements of one migration (up.ts:104-112). */
  method ApplyMigration(migration: Loaded, db: Database) returns (failure: Option<Failure>)
    modifies db
    ensures Attempt(db.State(), failure) == Attempted(old(db.State()), migration, db.server)
  {
    var reply := db.Query(InsertStart(migration.info.version));
    if reply.Failed? {
      return Some(reply.error);
    }
    reply := db.Query(RunSql(migration.sql));
    if reply.Failed? {
      return Some(reply.error);
    }
    reply := db.Query(SetEnded(migration.info.version));
    if reply.Failed? {
      return Some(reply.error);
    }
    failure := None;
  }

  /** Once the loop has stopped on an error, the rest of the batch is not run. */
  lemma {:induction false} FailureStops(start: Applied, batch: seq<Loaded>, i: nat, server: Server)
    requires start.failure.None?
    requires i <= |batch|
    requires ApplyAll(start, batch[..i], server).failure.Some?
    ensures ApplyAll(start, batch, server) == ApplyAll(start, batch[..i], server)
    decreases |batch|
  {
    if i < |batch| {
      var shorter := batch[..|batch| - 1];
      assert shorter[..i] == batch[..i];
      FailureStops(start, shorter, i, server);
    } else {
      assert batch[..i] == batch;
    }
  }

  /** The catch block, as a method on the connection and the logger. */
  method Abort(error: Failure, current: Option<Migration>, db: Database, log: Logger) returns (outcome: Outcome)
    requires log.Valid() && log.exit.None?
    modifies db, log
    ensures log.Valid()
    ensures var r := Aborted(old(db.State()), error, current, db.server);
            && db.State() == r.db && outcome == r.outcome
            && log.calls == old(log.calls) + r.logs
            && log.exit == ExitOf(log.levels, log.exitOnCompletion, r.logs)
  {
    var reply := db.Query(Rollback);
    if reply.Failed? {
      return Threw(reply.error);
    }
    var logs := RollbackLogs(error, current);
    log.Log(logs[0].message, logs[0].options);
    log.Log(logs[1].message, logs[1].options);
    assert [logs[0]] + [logs[1]] == logs;
    outcome := Resolved;
  }
}
