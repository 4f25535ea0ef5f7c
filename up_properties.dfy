/** What a run of the migration engine guarantees: the statements a clean run
    issues and the ledger rows it leaves, the roll-back of a failed run, the
    pending selection, and that a second run has nothing left to do. */
module UpProperties {
  import opened Types
  import opened Text
  import opened LogBuilder
  import opened Discovery
  import opened Ledger
  import opened Up

  /** The statements the loop issues for a batch when nothing fails: INSERT,
      the migration's own SQL and UPDATE, migration after migration. */
  function StatementsOf(batch: seq<Loaded>): (qs: seq<Query>)
    ensures |qs| == 3 * |batch|
    decreases |batch|
  {
    if batch == [] then []
    else
      var m := batch[|batch| - 1];
      StatementsOf(batch[..|batch| - 1]) + [InsertStart(m.info.version), RunSql(m.sql), SetEnded(m.info.version)]
  }

  /** The statements of a run that commits. */
  function CleanTrace(batch: seq<Loaded>): (qs: seq<Query>)
    ensures |qs| == 4 + 3 * |batch|
    ensures qs[0] == Begin && qs[|qs| - 1] == Commit
  {
    [Begin, CreateSchema, SelectLast] + StatementsOf(batch) + [Commit]
  }

  /** One success log per migration, in order. */
  function RanLogs(batch: seq<Loaded>): (logs: seq<LogCall>)
    ensures |logs| == |batch|
    ensures forall i :: 0 <= i < |batch| ==> logs[i] == RanLog(batch[i].info.version)
    decreases |batch|
  {
    if batch == [] then []
    else RanLogs(batch[..|batch| - 1]) + [RanLog(batch[|batch| - 1].info.version)]
  }

  /** The ledger after a batch is recorded at time `t`: each migration's row
      started and ended at `t`, every other row as it was. */
  function Recorded(ledger: map<string, Row>, batch: seq<Loaded>, t: int): map<string, Row>
    decreases |batch|
  {
    if batch == [] then ledger
    else Recorded(ledger, batch[..|batch| - 1], t)[batch[|batch| - 1].info.version := Row(t, Some(t))]
  }

  /** The rows after a commit: every version of the batch has a row started and
      ended at the transaction time, and every other row is kept. */
  lemma {:induction false} RecordedShape(ledger: map<string, Row>, batch: seq<Loaded>, t: int)
    ensures var after := Recorded(ledger, batch, t);
            && (forall v :: v in after <==> v in ledger || exists i :: 0 <= i < |batch| && batch[i].info.version == v)
            && (forall i :: 0 <= i < |batch| ==> after[batch[i].info.version] == Row(t, Some(t)))
            && (forall v :: v in ledger && (forall i :: 0 <= i < |batch| ==> batch[i].info.version != v) ==> after[v] == ledger[v])
    decreases |batch|
  {
    if batch != [] {
      var init := batch[..|batch| - 1];
      RecordedShape(ledger, init, t);
      assert forall i :: 0 <= i < |init| ==> init[i] == batch[i];
    }
  }

  /** Versions that can all be inserted: pairwise different and not yet in the ledger. */
  predicate Fresh(batch: seq<Loaded>, ledger: map<string, Row>)
  {
    && (forall i, j :: 0 <= i < j < |batch| ==> batch[i].info.version != batch[j].info.version)
    && (forall i :: 0 <= i < |batch| ==> batch[i].info.version !in ledger)
  }

  /** The server rejects none of the statements at positions from+1 .. from+count. */
  predicate Clear(server: Server, from: nat, count: nat)
  {
    forall p :: from < p <= from + count ==> p !in server.faults
  }

  /** A statement the loop body issues. */
  predicate InLoop(q: Query)
  {
    q.InsertStart? || q.RunSql? || q.SetEnded?
  }

  /** The batch a run reads once the statements before the loop have succeeded. */
  ghost function BatchFor(s: DbState, migrations: seq<Migration>, files: map<string, string>, server: Server): Result<seq<Loaded>, Failure>
  {
    ReadAll(Pending(migrations, WatermarkRows(server.collation, s.ledger)), files)
  }

  /** `r` is the effect of a run from `s` that committed `batch` at time `t`. */
  ghost predicate CommittedAs(r: Finished, s: DbState, batch: seq<Loaded>, t: int)
  {
    && r.outcome == Resolved
    && r.db == DbState(true, Recorded(s.ledger, batch, t), None, t, s.queries + CleanTrace(batch))
    && r.logs == RanLogs(batch)
  }

  /** One migration's statements leave the transaction as they found it and
      issue only loop statements. */
  lemma AttemptedFrame(d: DbState, m: Loaded, server: Server)
    ensures var t := Attempted(d, m, server);
            && d.queries <= t.db.queries
            && (forall k :: |d.queries| <= k < |t.db.queries| ==> InLoop(t.db.queries[k]))
            && t.db.snapshot == d.snapshot && t.db.txTime == d.txTime && t.db.tableExists == d.tableExists
  {
    var v := m.info.version;
    var inserted := Step(d, InsertStart(v), server);
    var ran := Step(inserted.db, RunSql(m.sql), server);
    var ended := Step(ran.db, SetEnded(v), server);
    assert ran.db.queries == d.queries + [InsertStart(v), RunSql(m.sql)];
    assert ended.db.queries == d.queries + [InsertStart(v), RunSql(m.sql), SetEnded(v)];
  }

  /** The loop leaves the transaction as it found it and issues only loop statements. */
  lemma {:induction false} ApplyAllFrame(start: Applied, batch: seq<Loaded>, server: Server)
    requires start.failure.None?
    ensures var a := ApplyAll(start, batch, server);
            && start.db.queries <= a.db.queries
            && (forall k :: |start.db.queries| <= k < |a.db.queries| ==> InLoop(a.db.queries[k]))
            && a.db.snapshot == start.db.snapshot && a.db.txTime == start.db.txTime
            && a.db.tableExists == start.db.tableExists
    decreases |batch|
  {
    if batch != [] {
      var before := ApplyAll(start, batch[..|batch| - 1], server);
      ApplyAllFrame(start, batch[..|batch| - 1], server);
      if before.failure.None? {
        var m := batch[|batch| - 1];
        AttemptedFrame(before.db, m, server);
        var a := ApplyAll(start, batch, server);
        assert a.db == Attempted(before.db, m, server).db;
        PrefixTransitive(start.db.queries, before.db.queries, a.db.queries);
        forall k | |start.db.queries| <= k < |a.db.queries| ensures InLoop(a.db.queries[k]) {
          if k < |before.db.queries| {
            assert a.db.queries[k] == before.db.queries[k];
          }
        }
      }
    }
  }

  /** One migration whose statements all succeed inside a transaction: its
      three statements are issued and its row is started and ended at the
      transaction's time. */
  lemma AttemptedShape(d: DbState, m: Loaded, server: Server)
    requires d.tableExists && d.snapshot.Some?
    requires Attempted(d, m, server).failure.None?
    ensures Attempted(d, m, server).db
            == d.(queries := d.queries + [InsertStart(m.info.version), RunSql(m.sql), SetEnded(m.info.version)],
                  ledger := d.ledger[m.info.version := Row(d.txTime, Some(d.txTime))])
  {
    var v := m.info.version;
    var inserted := Step(d, InsertStart(v), server);
    var ran := Step(inserted.db, RunSql(m.sql), server);
    var ended := Step(ran.db, SetEnded(v), server);
    assert inserted.db.ledger == d.ledger[v := Row(d.txTime, None)];
    assert ended.db.ledger == d.ledger[v := Row(d.txTime, Some(d.txTime))];
    assert ended.db.queries == d.queries + [InsertStart(v), RunSql(m.sql), SetEnded(v)];
  }

  /** A loop that ends without error inserted and finished every migration of
      the batch at the transaction's time, issued exactly the batch's
      statements and logged each migration once, in order. */
  lemma {:induction false} AppliedShape(start: Applied, batch: seq<Loaded>, server: Server)
    requires start.failure.None? && start.db.tableExists && start.db.snapshot.Some?
    ensures var a := ApplyAll(start, batch, server);
            a.failure.None? ==>
            && a.db == start.db.(queries := start.db.queries + StatementsOf(batch),
                                 ledger := Recorded(start.db.ledger, batch, start.db.txTime))
            && a.logs == start.logs + RanLogs(batch)
    decreases |batch|
  {
    if batch != [] {
      var prefix := batch[..|batch| - 1];
      var m := batch[|batch| - 1];
      var before := ApplyAll(start, prefix, server);
      if ApplyAll(start, batch, server).failure.None? {
        AppliedShape(start, prefix, server);
        AttemptedShape(before.db, m, server);
        var three := [InsertStart(m.info.version), RunSql(m.sql), SetEnded(m.info.version)];
        SeqAssociates(start.db.queries, StatementsOf(prefix), three);
        SeqAssociates(start.logs, RanLogs(prefix), [RanLog(m.info.version)]);
      }
    }
  }

  /** One migration with a fresh version whose statements the server accepts
      runs without error inside a transaction. */
  lemma AttemptedClean(d: DbState, m: Loaded, server: Server)
    requires d.tableExists && d.snapshot.Some? && m.info.version !in d.ledger
    requires Clear(server, |d.queries|, 3)
    ensures Attempted(d, m, server).failure.None?
  {
    assert |d.queries| + 1 !in server.faults;
    assert |d.queries| + 2 !in server.faults;
    assert |d.queries| + 3 !in server.faults;
    var inserted := Step(d, InsertStart(m.info.version), server);
    var ran := Step(inserted.db, RunSql(m.sql), server);
    assert ran.db.ledger == inserted.db.ledger;
  }

  /** A loop over fresh versions that the server does not reject ends without error. */
  lemma {:induction false} ApplyAllClean(start: Applied, batch: seq<Loaded>, server: Server)
    requires start.failure.None? && start.db.tableExists && start.db.snapshot.Some?
    requires Fresh(batch, start.db.ledger)
    requires Clear(server, |start.db.queries|, 3 * |batch|)
    ensures ApplyAll(start, batch, server).failure.None?
    decreases |batch|
  {
    if batch != [] {
      var prefix := batch[..|batch| - 1];
      var m := batch[|batch| - 1];
      var v := m.info.version;
      assert Fresh(prefix, start.db.ledger);
      ApplyAllClean(start, prefix, server);
      AppliedShape(start, prefix, server);
      var d := ApplyAll(start, prefix, server).db;
      RecordedShape(start.db.ledger, prefix, start.db.txTime);
      assert |d.queries| == |start.db.queries| + 3 * |prefix|;
      assert v !in d.ledger by {
        forall i | 0 <= i < |prefix| ensures prefix[i].info.version != v {
          assert prefix[i] == batch[i];
        }
      }
      AttemptedClean(d, m, server);
    }
  }

  /** COMMIT after a loop without error, when the server accepts it, ends the
      transaction and the run resolves with no further log. */
  lemma ConcludedCommits(d: DbState, current: Option<Migration>, server: Server)
    requires Clear(server, |d.queries|, 1)
    ensures Concluded(d, None, current, server) == Finished(d.(queries := d.queries + [Commit], snapshot := None), [], Resolved)
  {
    assert |d.queries| + 1 !in server.faults;
  }

  /** The statements before the loop, when the server accepts them on a
      connection without an open transaction: the transaction begins at the
      first statement's time, the table exists, and the batch is the pending
      migrations above the ledger's watermark. */
  lemma PreparedShape(s: DbState, migrations: seq<Migration>, files: map<string, string>, server: Server)
    requires s.snapshot.None? && Clear(server, |s.queries|, 3)
    ensures Prepared(s, migrations, files, server)
            == Setup(DbState(true, s.ledger, Some(Saved(s.tableExists, s.ledger)), server.clock(|s.queries| + 1),
                             s.queries + [Begin, CreateSchema, SelectLast]),
                     BatchFor(s, migrations, files, server))
  {
    assert |s.queries| + 1 !in server.faults;
    assert |s.queries| + 2 !in server.faults;
    assert |s.queries| + 3 !in server.faults;
  }

  /** The statements before the loop succeed only when the server accepts all three. */
  lemma PreparedOkIsClear(s: DbState, migrations: seq<Migration>, files: map<string, string>, server: Server)
    requires Prepared(s, migrations, files, server).batch.Ok?
    ensures Clear(server, |s.queries|, 3)
  {
  }

  /** A clean run: when discovery succeeds, no transaction is open, every
      pending file can be read, the pending versions are fresh and the server
      rejects nothing, the run issues BEGIN, the schema statement, the
      watermark query, three statements per pending migration and COMMIT, and
      records every pending migration as started and ended at the time of BEGIN. */
  lemma CleanRun(root: string, walk: Walk, filter: Option<Matcher>, files: map<string, string>, s: DbState, server: Server)
    requires Discovered(root, walk, filter).Ok?
    requires s.snapshot.None?
    requires BatchFor(s, Discovered(root, walk, filter).value, files, server).Ok?
    requires Fresh(BatchFor(s, Discovered(root, walk, filter).value, files, server).value, s.ledger)
    requires Clear(server, |s.queries|, 4 + 3 * |BatchFor(s, Discovered(root, walk, filter).value, files, server).value|)
    ensures CommittedAs(Run(root, walk, filter, files, s, server), s,
                        BatchFor(s, Discovered(root, walk, filter).value, files, server).value,
                        server.clock(|s.queries| + 1))
  {
    var migrations := Discovered(root, walk, filter).value;
    var batch := BatchFor(s, migrations, files, server).value;
    PreparedShape(s, migrations, files, server);
    var setup := Prepared(s, migrations, files, server);
    var start := Applied(setup.db, [], None, None);
    ApplyAllClean(start, batch, server);
    AppliedShape(start, batch, server);
    var applied := ApplyAll(start, batch, server);
    ConcludedCommits(applied.db, applied.current, server);
    CleanTraceSplits(s.queries, batch);
  }

  /** The statements before the loop, the loop's and COMMIT make up the clean trace. */
  lemma CleanTraceSplits(queries: seq<Query>, batch: seq<Loaded>)
    ensures (queries + [Begin, CreateSchema, SelectLast] + StatementsOf(batch)) + [Commit] == queries + CleanTrace(batch)
  {
    var head := [Begin, CreateSchema, SelectLast];
    SeqAssociates(queries, head, StatementsOf(batch));
    SeqAssociates(queries, head + StatementsOf(batch), [Commit]);
  }

  /** The end of the try block finishes with COMMIT only when the loop ended
      without error and the server accepted the COMMIT. */
  lemma ConcludedLast(d: DbState, failure: Option<Failure>, current: Option<Migration>, server: Server)
    ensures var c := Concluded(d, failure, current, server);
            |c.db.queries| > 0 && (c.db.queries[|c.db.queries| - 1] == Commit ==>
              failure.None? && Clear(server, |d.queries|, 1)
              && c == Finished(d.(queries := d.queries + [Commit], snapshot := None), [], Resolved))
  {
  }

  /** Conversely, a run whose last statement is COMMIT is a clean run: every
      pending file was read and every pending migration applied and recorded. */
  lemma CommitMeansClean(root: string, walk: Walk, filter: Option<Matcher>, files: map<string, string>, s: DbState, server: Server)
    requires Discovered(root, walk, filter).Ok?
    requires s.snapshot.None?
    requires var trace := Run(root, walk, filter, files, s, server).db.queries;
             |trace| > 0 && trace[|trace| - 1] == Commit
    ensures BatchFor(s, Discovered(root, walk, filter).value, files, server).Ok?
    ensures CommittedAs(Run(root, walk, filter, files, s, server), s,
                        BatchFor(s, Discovered(root, walk, filter).value, files, server).value,
                        server.clock(|s.queries| + 1))
  {
    var migrations := Discovered(root, walk, filter).value;
    assert Run(root, walk, filter, files, s, server) == Transaction(s, migrations, files, server);
    CommittedTransaction(s, migrations, files, server);
  }

  /** A transaction whose last statement is COMMIT read every pending file and
      recorded the whole batch. */
  lemma CommittedTransaction(s: DbState, migrations: seq<Migration>, files: map<string, string>, server: Server)
    requires s.snapshot.None?
    requires var trace := Transaction(s, migrations, files, server).db.queries;
             |trace| > 0 && trace[|trace| - 1] == Commit
    ensures BatchFor(s, migrations, files, server).Ok?
    ensures CommittedAs(Transaction(s, migrations, files, server), s, BatchFor(s, migrations, files, server).value,
                        server.clock(|s.queries| + 1))
  {
    var setup := Prepared(s, migrations, files, server);
    if setup.batch.Err? {
      SetupFailureRollsBack(s, migrations, files, server);
      assert false;
    }
    PreparedOkIsClear(s, migrations, files, server);
    PreparedShape(s, migrations, files, server);
    var batch := setup.batch.value;
    var start := Applied(setup.db, [], None, None);
    var applied := ApplyAll(start, batch, server);
    var c := Concluded(applied.db, applied.failure, applied.current, server);
    assert Transaction(s, migrations, files, server) == Finished(c.db, applied.logs + c.logs, c.outcome);
    AppliedShape(start, batch, server);
    CommittedLoop(s, batch, server.clock(|s.queries| + 1), applied, server);
  }

  /** A loop that, had it ended without error, would have recorded the batch,
      followed by an end of the try block whose last statement is COMMIT:
      the loop did end without error and the batch was recorded. */
  lemma CommittedLoop(s: DbState, batch: seq<Loaded>, t: int, applied: Applied, server: Server)
    requires applied.failure.None? ==>
               && applied.db == DbState(true, Recorded(s.ledger, batch, t), Some(Saved(s.tableExists, s.ledger)), t,
                                        s.queries + [Begin, CreateSchema, SelectLast] + StatementsOf(batch))
               && applied.logs == [] + RanLogs(batch)
    requires var c := Concluded(applied.db, applied.failure, applied.current, server);
             |c.db.queries| > 0 && c.db.queries[|c.db.queries| - 1] == Commit
    ensures var c := Concluded(applied.db, applied.failure, applied.current, server);
            CommittedAs(Finished(c.db, applied.logs + c.logs, c.outcome), s, batch, t)
  {
    var c := Concluded(applied.db, applied.failure, applied.current, server);
    ConcludedLast(applied.db, applied.failure, applied.current, server);
    assert c.db.queries[|c.db.queries| - 1] == Commit;
    assert applied.failure.None?;
    assert c == Finished(applied.db.(queries := applied.db.queries + [Commit], snapshot := None), [], Resolved);
    assert [] + RanLogs(batch) == RanLogs(batch);
    CommitEndsTrace(s.queries, batch, applied.db, c);
  }

  /** COMMIT after the statements before the loop and the loop's leaves the
      clean trace and closes the transaction. */
  lemma CommitEndsTrace(queries: seq<Query>, batch: seq<Loaded>, d: DbState, c: Finished)
    requires d.queries == queries + [Begin, CreateSchema, SelectLast] + StatementsOf(batch)
    requires c == Finished(d.(queries := d.queries + [Commit], snapshot := None), [], Resolved)
    ensures c.db == d.(queries := queries + CleanTrace(batch), snapshot := None)
  {
    CleanTraceSplits(queries, batch);
  }

  /** `d` is a state from which ROLLBACK returns the ledger and the table to
      what they were in `s`. */
  ghost predicate Undoable(d: DbState, s: DbState)
  {
    || d.snapshot == Some(Saved(s.tableExists, s.ledger))
    || (d.snapshot.None? && d.ledger == s.ledger && d.tableExists == s.tableExists)
  }

  /** After the statements before the loop, whatever their outcome, the
      transaction can still be undone, and only those statements were issued,
      BEGIN first. */
  lemma PreparedUndoable(s: DbState, migrations: seq<Migration>, files: map<string, string>, server: Server)
    requires s.snapshot.None?
    ensures var p := Prepared(s, migrations, files, server);
            && Undoable(p.db, s)
            && s.queries + [Begin] <= p.db.queries
            && |p.db.queries| <= |s.queries| + 3
            && forall k :: |s.queries| <= k < |p.db.queries| ==> p.db.queries[k] != Commit
  {
    var begun := Step(s, Begin, server);
    var created := Step(begun.db, CreateSchema, server);
    var selected := Step(created.db, SelectLast, server);
    assert created.db.queries == s.queries + [Begin, CreateSchema];
    assert selected.db.queries == s.queries + [Begin, CreateSchema, SelectLast];
  }

  /** The end of the try block adds ROLLBACK, COMMIT, or a rejected COMMIT
      and ROLLBACK. */
  lemma ConcludedQueries(d: DbState, failure: Option<Failure>, current: Option<Migration>, server: Server)
    ensures var c := Concluded(d, failure, current, server);
            || c.db.queries == d.queries + [Rollback]
            || c.db.queries == d.queries + [Commit]
            || c.db.queries == d.queries + [Commit, Rollback]
  {
    if failure.None? {
      var committed := Step(d, Commit, server);
      if committed.reply.Failed? {
        assert Aborted(committed.db, committed.reply.error, current, server).db.queries
               == d.queries + [Commit] + [Rollback];
      }
    }
  }

  /** The statements a run issues begin with BEGIN, after those issued before it. */
  lemma RunBegins(root: string, walk: Walk, filter: Option<Matcher>, files: map<string, string>, s: DbState, server: Server)
    requires Discovered(root, walk, filter).Ok?
    requires s.snapshot.None?
    ensures s.queries + [Begin] <= Run(root, walk, filter, files, s, server).db.queries
  {
    var migrations := Discovered(root, walk, filter).value;
    var setup := Prepared(s, migrations, files, server);
    PreparedUndoable(s, migrations, files, server);
    var r := Run(root, walk, filter, files, s, server);
    if setup.batch.Err? {
      RollbackRestores(setup.db, s, setup.batch.error, None, server);
      PrefixTransitive(s.queries + [Begin], setup.db.queries, r.db.queries);
    } else {
      var start := Applied(setup.db, [], None, None);
      var applied := ApplyAll(start, setup.batch.value, server);
      ApplyAllFrame(start, setup.batch.value, server);
      ConcludedQueries(applied.db, applied.failure, applied.current, server);
      PrefixTransitive(s.queries + [Begin], setup.db.queries, applied.db.queries);
      PrefixTransitive(s.queries + [Begin], applied.db.queries, r.db.queries);
    }
  }

  /** `r` ends with a ROLLBACK, with no COMMIT since `s` but possibly a
      rejected one just before it, after the success logs `ran` and an `error`
      raised while `current` was the current migration.  When the ROLLBACK
      succeeds the ledger and the table are back as they were in `s`, no
      transaction is open and the logs are `ran` followed by the error and the
      roll-back notice for `current`; when the ROLLBACK is rejected the run
      rejects with that error and the logs are `ran` alone. */
  ghost predicate RolledBack(r: Finished, s: DbState, ran: seq<LogCall>, error: Failure, current: Option<Migration>)
  {
    var trace := r.db.queries;
    && |trace| > 0 && trace[|trace| - 1] == Rollback
    && (forall k :: |s.queries| <= k < |trace| - 2 ==> trace[k] != Commit)
    && (r.outcome == Resolved ==>
          && r.db.ledger == s.ledger && r.db.tableExists == s.tableExists && r.db.snapshot.None?
          && r.logs == ran + RollbackLogs(error, current))
    && (r.outcome.Threw? ==> r.outcome.error == Rejected(|trace|) && r.logs == ran)
  }

  /** The catch block, entered from an undoable state with no COMMIT since `s`
      (except perhaps the last statement) and with `logs` already written,
      rolls back as RolledBack says. */
  lemma AbortedRolledBack(d: DbState, s: DbState, logs: seq<LogCall>, error: Failure, current: Option<Migration>, server: Server)
    requires Undoable(d, s)
    requires forall k :: |s.queries| <= k < |d.queries| - 1 ==> d.queries[k] != Commit
    ensures var a := Aborted(d, error, current, server);
            RolledBack(Finished(a.db, logs + a.logs, a.outcome), s, logs, error, current)
  {
    var a := Aborted(d, error, current, server);
    RollbackRestores(d, s, error, current, server);
    assert forall k :: 0 <= k < |d.queries| ==> a.db.queries[k] == d.queries[k];
    if a.outcome.Threw? {
      assert logs + a.logs == logs;
    }
  }

  /** A run whose statements before the loop fail rolls back with their
      error, before any migration became the current one or was logged. */
  lemma SetupFailureRollsBack(s: DbState, migrations: seq<Migration>, files: map<string, string>, server: Server)
    requires s.snapshot.None?
    requires Prepared(s, migrations, files, server).batch.Err?
    ensures RolledBack(Transaction(s, migrations, files, server), s, [], Prepared(s, migrations, files, server).batch.error, None)
  {
    var setup := Prepared(s, migrations, files, server);
    PreparedUndoable(s, migrations, files, server);
    AbortedRolledBack(setup.db, s, [], setup.batch.error, None, server);
    assert [] + Aborted(setup.db, setup.batch.error, None, server).logs
           == Aborted(setup.db, setup.batch.error, None, server).logs;
  }

  /** The loop, from the state the statements before it leave, issues no
      COMMIT and leaves the transaction undoable. */
  lemma LoopUndoable(s: DbState, migrations: seq<Migration>, files: map<string, string>, server: Server)
    requires s.snapshot.None?
    requires Prepared(s, migrations, files, server).batch.Ok?
    ensures var setup := Prepared(s, migrations, files, server);
            var a := ApplyAll(Applied(setup.db, [], None, None), setup.batch.value, server);
            && Undoable(a.db, s)
            && forall k :: |s.queries| <= k < |a.db.queries| ==> a.db.queries[k] != Commit
  {
    var setup := Prepared(s, migrations, files, server);
    PreparedUndoable(s, migrations, files, server);
    var start := Applied(setup.db, [], None, None);
    var applied := ApplyAll(start, setup.batch.value, server);
    ApplyAllFrame(start, setup.batch.value, server);
    forall k | |s.queries| <= k < |applied.db.queries| ensures applied.db.queries[k] != Commit {
      if k < |setup.db.queries| {
        assert applied.db.queries[k] == setup.db.queries[k];
      } else {
        assert InLoop(applied.db.queries[k]);
      }
    }
  }

  /** The loop starts inside the transaction, with the table in place. */
  lemma PreparedOpen(s: DbState, migrations: seq<Migration>, files: map<string, string>, server: Server)
    requires s.snapshot.None?
    requires Prepared(s, migrations, files, server).batch.Ok?
    ensures var setup := Prepared(s, migrations, files, server);
            && setup.db.tableExists && setup.db.snapshot.Some?
            && |setup.db.queries| == |s.queries| + 3
  {
    PreparedOkIsClear(s, migrations, files, server);
    PreparedShape(s, migrations, files, server);
  }

  /** When the loop stops with an error, some migration's statements raised
      it, every migration before that one having run without error. */
  lemma FirstFailure(start: Applied, batch: seq<Loaded>, server: Server)
    requires start.failure.None?
    requires ApplyAll(start, batch, server).failure.Some?
    ensures exists k :: 0 <= k < |batch| && ApplyAll(start, batch[..k], server).failure.None?
                        && Attempted(ApplyAll(start, batch[..k], server).db, batch[k], server).failure.Some?
  {
    assert batch[..0] == [] && batch[..|batch|] == batch;
    FailingPrefixFrom(start, batch, 0, server);
    var k :| 0 <= k < |batch| && ApplyAll(start, batch[..k], server).failure.None?
             && ApplyAll(start, batch[..k + 1], server).failure.Some?;
    ApplyStep(start, batch, k, server, Attempted(ApplyAll(start, batch[..k], server).db, batch[k], server));
  }

  /** Searching forward from a prefix `batch[..i]` that ran without error
      finds the first prefix that failed. */
  lemma {:induction false} FailingPrefixFrom(start: Applied, batch: seq<Loaded>, i: nat, server: Server)
    requires start.failure.None?
    requires i <= |batch| && ApplyAll(start, batch[..i], server).failure.None?
    requires ApplyAll(start, batch[..|batch|], server).failure.Some?
    ensures exists k :: i <= k < |batch| && ApplyAll(start, batch[..k], server).failure.None?
                        && ApplyAll(start, batch[..k + 1], server).failure.Some?
    decreases |batch| - i
  {
    if ApplyAll(start, batch[..i + 1], server).failure.None? {
      FailingPrefixFrom(start, batch, i + 1, server);
    }
  }

  /** A run whose loop stops at the migration at index `k` of the batch rolls
      back with the error that migration's statements raised, that migration
      being the current one, after logging the `k` migrations before it. */
  lemma LoopFailureRollsBack(s: DbState, migrations: seq<Migration>, files: map<string, string>, server: Server, k: nat)
    requires s.snapshot.None?
    requires Prepared(s, migrations, files, server).batch.Ok?
    requires k < |Prepared(s, migrations, files, server).batch.value|
    requires var setup := Prepared(s, migrations, files, server);
             var before := ApplyAll(Applied(setup.db, [], None, None), setup.batch.value[..k], server);
             before.failure.None? && Attempted(before.db, setup.batch.value[k], server).failure.Some?
    ensures var setup := Prepared(s, migrations, files, server);
            var batch := setup.batch.value;
            var before := ApplyAll(Applied(setup.db, [], None, None), batch[..k], server);
            RolledBack(Transaction(s, migrations, files, server), s, RanLogs(batch[..k]),
                       Attempted(before.db, batch[k], server).failure.value, Some(batch[k].info))
  {
    var setup := Prepared(s, migrations, files, server);
    var batch := setup.batch.value;
    var before := ApplyAll(Applied(setup.db, [], None, None), batch[..k], server);
    var t := Attempted(before.db, batch[k], server);
    var applied := ApplyAll(Applied(setup.db, [], None, None), batch, server);
    LoopFailureConcludes(s, migrations, files, server, k);
    AbortedRolledBack(applied.db, s, RanLogs(batch[..k]), t.failure.value, Some(batch[k].info), server);
  }

  /** A loop that stops at index `k` leaves the database undoable, with the
      logs of the migrations before `k`; the run then rolls back with the
      error of migration `k`. */
  lemma LoopFailureConcludes(s: DbState, migrations: seq<Migration>, files: map<string, string>, server: Server, k: nat)
    requires s.snapshot.None?
    requires Prepared(s, migrations, files, server).batch.Ok?
    requires k < |Prepared(s, migrations, files, server).batch.value|
    requires var setup := Prepared(s, migrations, files, server);
             var before := ApplyAll(Applied(setup.db, [], None, None), setup.batch.value[..k], server);
             before.failure.None? && Attempted(before.db, setup.batch.value[k], server).failure.Some?
    ensures var setup := Prepared(s, migrations, files, server);
            var batch := setup.batch.value;
            var before := ApplyAll(Applied(setup.db, [], None, None), batch[..k], server);
            var error := Attempted(before.db, batch[k], server).failure.value;
            var applied := ApplyAll(Applied(setup.db, [], None, None), batch, server);
            && Undoable(applied.db, s)
            && (forall j :: |s.queries| <= j < |applied.db.queries| - 1 ==> applied.db.queries[j] != Commit)
            && var a := Aborted(applied.db, error, Some(batch[k].info), server);
               Transaction(s, migrations, files, server) == Finished(a.db, RanLogs(batch[..k]) + a.logs, a.outcome)
  {
    var setup := Prepared(s, migrations, files, server);
    var batch := setup.batch.value;
    var start := Applied(setup.db, [], None, None);
    var before := ApplyAll(start, batch[..k], server);
    var t := Attempted(before.db, batch[k], server);
    var applied := ApplyAll(start, batch, server);
    LoopUndoable(s, migrations, files, server);
    assert applied.logs == RanLogs(batch[..k]) && applied.failure == t.failure && applied.current == Some(batch[k].info) by {
      PreparedOpen(s, migrations, files, server);
      AppliedShape(start, batch[..k], server);
      ApplyStep(start, batch, k, server, t);
      FailureStops(start, batch, k + 1, server);
    }
  }

  /** The current migration once the whole batch has run without error: the
      last one, or none for an empty batch. */
  function LastOf(batch: seq<Loaded>): (current: Option<Migration>)
    ensures current.None? <==> batch == []
    ensures current.Some? ==> current.value == batch[|batch| - 1].info
  {
    if batch == [] then None else Some(batch[|batch| - 1].info)
  }

  /** The position COMMIT takes in the server's query log after a run started
      at `s` has sent BEGIN, the schema statement, the watermark query and
      three statements for each migration of `batch`. */
  function CommitPosition(s: DbState, batch: seq<Loaded>): (p: nat)
    ensures p > |s.queries| + 3 * |batch|
  {
    |s.queries| + 4 + 3 * |batch|
  }

  /** A run whose loop runs the whole batch without error but whose COMMIT,
      at the position after BEGIN, the schema statement, the watermark query
      and three statements per migration, is rejected rolls back with the
      COMMIT's error, the last migration being the current one, after logging
      every migration of the batch. */
  lemma CommitFailureRollsBack(s: DbState, migrations: seq<Migration>, files: map<string, string>, server: Server)
    requires s.snapshot.None?
    requires Prepared(s, migrations, files, server).batch.Ok?
    requires var setup := Prepared(s, migrations, files, server);
             ApplyAll(Applied(setup.db, [], None, None), setup.batch.value, server).failure.None?
    requires CommitPosition(s, Prepared(s, migrations, files, server).batch.value) in server.faults
    ensures var batch := Prepared(s, migrations, files, server).batch.value;
            RolledBack(Transaction(s, migrations, files, server), s, RanLogs(batch),
                       Rejected(CommitPosition(s, batch)), LastOf(batch))
  {
    var setup := Prepared(s, migrations, files, server);
    var batch := setup.batch.value;
    var applied := ApplyAll(Applied(setup.db, [], None, None), batch, server);
    CleanLoopConcludes(s, migrations, files, server);
    var p := CommitPosition(s, batch);
    assert p == |applied.db.queries| + 1;
    var c := Concluded(applied.db, None, LastOf(batch), server);
    var r := Finished(c.db, RanLogs(batch) + c.logs, c.outcome);
    CommitRejectedRolledBack(applied.db, s, RanLogs(batch), LastOf(batch), server, r, p);
  }

  /** After a loop without error that logged `ran`, a COMMIT the server
      rejects at position `p` is rolled back as RolledBack says. */
  lemma CommitRejectedRolledBack(d: DbState, s: DbState, ran: seq<LogCall>, current: Option<Migration>, server: Server,
                                 r: Finished, p: nat)
    requires Undoable(d, s)
    requires forall k :: |s.queries| <= k < |d.queries| ==> d.queries[k] != Commit
    requires var c := Concluded(d, None, current, server);
             r == Finished(c.db, ran + c.logs, c.outcome)
    requires p == |d.queries| + 1 && p in server.faults
    ensures RolledBack(r, s, ran, Rejected(p), current)
  {
    var committed := Step(d, Commit, server);
    assert committed.reply.error == Rejected(p);
    assert committed.db.queries[..|d.queries|] == d.queries;
    AbortedRolledBack(committed.db, s, ran, Rejected(p), current, server);
  }

  /** A COMMIT the server accepts ends the trace. */
  lemma CommitAcceptedEnds(d: DbState, ran: seq<LogCall>, current: Option<Migration>, server: Server, r: Finished, p: nat)
    requires var c := Concluded(d, None, current, server);
             r == Finished(c.db, ran + c.logs, c.outcome)
    requires p == |d.queries| + 1 && p !in server.faults
    ensures r.db.queries == d.queries + [Commit]
  {
  }

  /** A loop without error leaves the transaction undoable after three
      statements per migration, every migration logged and the last one
      current; the transaction then ends as Concluded says from there. */
  lemma CleanLoopConcludes(s: DbState, migrations: seq<Migration>, files: map<string, string>, server: Server)
    requires s.snapshot.None?
    requires Prepared(s, migrations, files, server).batch.Ok?
    requires var setup := Prepared(s, migrations, files, server);
             ApplyAll(Applied(setup.db, [], None, None), setup.batch.value, server).failure.None?
    ensures var setup := Prepared(s, migrations, files, server);
            var batch := setup.batch.value;
            var applied := ApplyAll(Applied(setup.db, [], None, None), batch, server);
            && Undoable(applied.db, s)
            && (forall k :: |s.queries| <= k < |applied.db.queries| ==> applied.db.queries[k] != Commit)
            && |applied.db.queries| + 1 == CommitPosition(s, batch)
            && var c := Concluded(applied.db, None, LastOf(batch), server);
               Transaction(s, migrations, files, server) == Finished(c.db, RanLogs(batch) + c.logs, c.outcome)
  {
    var setup := Prepared(s, migrations, files, server);
    var batch := setup.batch.value;
    var start := Applied(setup.db, [], None, None);
    var applied := ApplyAll(start, batch, server);
    PreparedOpen(s, migrations, files, server);
    LoopUndoable(s, migrations, files, server);
    AppliedShape(start, batch, server);
    assert applied.current == LastOf(batch);
    assert applied.logs == RanLogs(batch) by {
      assert [] + RanLogs(batch) == RanLogs(batch);
    }
  }

  /** How a transaction that did not commit rolled back: with the error of
      the statements before the loop, before any migration; or, after a loop
      without error, with the rejected COMMIT's error and every migration
      logged; or with the error of the first migration whose statements
      failed, after logging the ones before it. */
  ghost predicate RolledBackAsCaused(r: Finished, s: DbState, migrations: seq<Migration>, files: map<string, string>, server: Server)
  {
    var setup := Prepared(s, migrations, files, server);
    if setup.batch.Err? then RolledBack(r, s, [], setup.batch.error, None)
    else
      var batch := setup.batch.value;
      var start := Applied(setup.db, [], None, None);
      if ApplyAll(start, batch, server).failure.None? then
        RolledBack(r, s, RanLogs(batch), Rejected(CommitPosition(s, batch)), LastOf(batch))
      else
        exists k :: 0 <= k < |batch| && ApplyAll(start, batch[..k], server).failure.None?
                    && Attempted(ApplyAll(start, batch[..k], server).db, batch[k], server).failure.Some?
                    && RolledBack(r, s, RanLogs(batch[..k]),
                                  Attempted(ApplyAll(start, batch[..k], server).db, batch[k], server).failure.value,
                                  Some(batch[k].info))
  }

  /** A transaction that does not end with COMMIT rolls back as RolledBackAsCaused says. */
  lemma TransactionRollsBack(s: DbState, migrations: seq<Migration>, files: map<string, string>, server: Server)
    requires s.snapshot.None?
    ensures var r := Transaction(s, migrations, files, server);
            r.db.queries[|r.db.queries| - 1] != Commit ==> RolledBackAsCaused(r, s, migrations, files, server)
  {
    var setup := Prepared(s, migrations, files, server);
    if setup.batch.Err? {
      SetupFailureRollsBack(s, migrations, files, server);
    } else if ApplyAll(Applied(setup.db, [], None, None), setup.batch.value, server).failure.None? {
      CleanLoopRollsBack(s, migrations, files, server);
    } else {
      LoopFailureCaused(s, migrations, files, server);
    }
  }

  /** After a loop without error, a transaction that does not end with
      COMMIT had its COMMIT rejected, and rolled back as RolledBackAsCaused says. */
  lemma CleanLoopRollsBack(s: DbState, migrations: seq<Migration>, files: map<string, string>, server: Server)
    requires s.snapshot.None?
    requires Prepared(s, migrations, files, server).batch.Ok?
    requires var setup := Prepared(s, migrations, files, server);
             ApplyAll(Applied(setup.db, [], None, None), setup.batch.value, server).failure.None?
    ensures var r := Transaction(s, migrations, files, server);
            r.db.queries[|r.db.queries| - 1] != Commit ==> RolledBackAsCaused(r, s, migrations, files, server)
  {
    var setup := Prepared(s, migrations, files, server);
    var batch := setup.batch.value;
    if CommitPosition(s, batch) in server.faults {
      CommitFailureRollsBack(s, migrations, files, server);
      CausedByCommit(Transaction(s, migrations, files, server), s, migrations, files, server);
    } else {
      var applied := ApplyAll(Applied(setup.db, [], None, None), batch, server);
      CleanLoopConcludes(s, migrations, files, server);
      CommitAcceptedEnds(applied.db, RanLogs(batch), LastOf(batch), server, Transaction(s, migrations, files, server),
                         CommitPosition(s, batch));
    }
  }

  /** After a loop without error, the roll-back of a rejected COMMIT is the
      one RolledBackAsCaused expects. */
  lemma CausedByCommit(r: Finished, s: DbState, migrations: seq<Migration>, files: map<string, string>, server: Server)
    requires Prepared(s, migrations, files, server).batch.Ok?
    requires var setup := Prepared(s, migrations, files, server);
             ApplyAll(Applied(setup.db, [], None, None), setup.batch.value, server).failure.None?
    ensures var batch := Prepared(s, migrations, files, server).batch.value;
            RolledBack(r, s, RanLogs(batch), Rejected(CommitPosition(s, batch)), LastOf(batch))
            ==> RolledBackAsCaused(r, s, migrations, files, server)
  {
  }

  /** After a loop that stopped at index `k`, the roll-back with that
      migration's error is the one RolledBackAsCaused expects. */
  lemma CausedByMigration(r: Finished, s: DbState, migrations: seq<Migration>, files: map<string, string>, server: Server, k: nat)
    requires Prepared(s, migrations, files, server).batch.Ok?
    requires k < |Prepared(s, migrations, files, server).batch.value|
    requires var setup := Prepared(s, migrations, files, server);
             var before := ApplyAll(Applied(setup.db, [], None, None), setup.batch.value[..k], server);
             before.failure.None? && Attempted(before.db, setup.batch.value[k], server).failure.Some?
    ensures var setup := Prepared(s, migrations, files, server);
            var batch := setup.batch.value;
            var before := ApplyAll(Applied(setup.db, [], None, None), batch[..k], server);
            RolledBack(r, s, RanLogs(batch[..k]), Attempted(before.db, batch[k], server).failure.value, Some(batch[k].info))
            ==> RolledBackAsCaused(r, s, migrations, files, server)
  {
    var setup := Prepared(s, migrations, files, server);
    var start := Applied(setup.db, [], None, None);
    ApplyStep(start, setup.batch.value, k, server, Attempted(ApplyAll(start, setup.batch.value[..k], server).db, setup.batch.value[k], server));
    FailureStops(start, setup.batch.value, k + 1, server);
  }

  /** A transaction whose loop stops with an error rolls back as
      RolledBackAsCaused says, at the first migration whose statements failed. */
  lemma LoopFailureCaused(s: DbState, migrations: seq<Migration>, files: map<string, string>, server: Server)
    requires s.snapshot.None?
    requires Prepared(s, migrations, files, server).batch.Ok?
    requires var setup := Prepared(s, migrations, files, server);
             ApplyAll(Applied(setup.db, [], None, None), setup.batch.value, server).failure.Some?
    ensures RolledBackAsCaused(Transaction(s, migrations, files, server), s, migrations, files, server)
  {
    var setup := Prepared(s, migrations, files, server);
    var batch := setup.batch.value;
    var start := Applied(setup.db, [], None, None);
    FirstFailure(start, batch, server);
    var k :| 0 <= k < |batch| && ApplyAll(start, batch[..k], server).failure.None?
             && Attempted(ApplyAll(start, batch[..k], server).db, batch[k], server).failure.Some?;
    LoopFailureRollsBack(s, migrations, files, server, k);
    CausedByMigration(Transaction(s, migrations, files, server), s, migrations, files, server, k);
  }

  /** A run that does not end with COMMIT rolls back as RolledBackAsCaused says. */
  lemma FailedRunRollsBack(root: string, walk: Walk, filter: Option<Matcher>, files: map<string, string>, s: DbState, server: Server)
    requires Discovered(root, walk, filter).Ok?
    requires s.snapshot.None?
    ensures var r := Run(root, walk, filter, files, s, server);
            r.db.queries[|r.db.queries| - 1] != Commit ==> RolledBackAsCaused(r, s, Discovered(root, walk, filter).value, files, server)
  {
    var migrations := Discovered(root, walk, filter).value;
    assert Run(root, walk, filter, files, s, server) == Transaction(s, migrations, files, server);
    TransactionRollsBack(s, migrations, files, server);
  }

  /** Rolling back from an undoable state restores the ledger and the table. */
  lemma RollbackRestores(d: DbState, s: DbState, error: Failure, current: Option<Migration>, server: Server)
    requires Undoable(d, s)
    ensures var r := Aborted(d, error, current, server);
            && r.db.queries == d.queries + [Rollback]
            && (r.outcome == Resolved ==>
                  r.db.ledger == s.ledger && r.db.tableExists == s.tableExists && r.db.snapshot.None?
                  && r.logs == RollbackLogs(error, current))
            && (r.outcome.Threw? ==> r.outcome.error == Rejected(|d.queries| + 1) && r.logs == [])
  {
  }

  /** A failed read stops the run before any INSERT: when the statements
      before the loop succeed and a pending file cannot be read, the run issues
      BEGIN, the schema statement, the watermark query and ROLLBACK, nothing
      else, and logs the read error. */
  lemma ReadFailureInsertsNothing(root: string, walk: Walk, filter: Option<Matcher>, files: map<string, string>, s: DbState, server: Server)
    requires Discovered(root, walk, filter).Ok?
    requires s.snapshot.None? && Clear(server, |s.queries|, 3)
    requires BatchFor(s, Discovered(root, walk, filter).value, files, server).Err?
    ensures var r := Run(root, walk, filter, files, s, server);
            && r.db.queries == s.queries + [Begin, CreateSchema, SelectLast, Rollback]
            && BatchFor(s, Discovered(root, walk, filter).value, files, server).error.ReadFailed?
            && (r.outcome == Resolved ==>
                  r.logs == RollbackLogs(BatchFor(s, Discovered(root, walk, filter).value, files, server).error, None))
  {
    PreparedShape(s, Discovered(root, walk, filter).value, files, server);
  }

  /** A discovery error rejects the run before any statement and any log. */
  lemma DiscoveryFailureTouchesNothing(root: string, walk: Walk, filter: Option<Matcher>, files: map<string, string>, s: DbState, server: Server)
    requires Discovered(root, walk, filter).Err?
    ensures Run(root, walk, filter, files, s, server) == Finished(s, [], Threw(Discovered(root, walk, filter).error))
  {
  }

  /** Newer keeps discovery order: the selection from a prefix of the
      migrations is a prefix of the selection from all of them. */
  lemma {:induction false} NewerKeepsOrder(all: seq<Migration>, k: nat, top: string)
    requires k <= |all|
    ensures |Newer(all[..k], top)| <= |Newer(all, top)|
    ensures Newer(all[..k], top) == Newer(all, top)[..|Newer(all[..k], top)|]
    decreases |all|
  {
    if k < |all| {
      var shorter := all[..|all| - 1];
      assert shorter[..k] == all[..k];
      NewerKeepsOrder(shorter, k, top);
    } else {
      assert all[..k] == all;
    }
  }

  /** The watermark's own version is never pending. */
  lemma WatermarkNeverPending(all: seq<Migration>, lastMigration: seq<string>)
    requires lastMigration != []
    ensures forall m :: m in Pending(all, lastMigration) ==> m.version != lastMigration[0]
  {
    BelowIrreflexive(lastMigration[0]);
  }

  /** Nothing is pending above `top` exactly when no migration is above it. */
  lemma NothingNewer(all: seq<Migration>, top: string)
    ensures Newer(all, top) == [] <==> forall m :: m in all ==> !Below(top, m.version)
  {
    if Newer(all, top) != [] {
      assert Newer(all, top)[0] in Newer(all, top);
    }
  }

  /** In a ledger where every row has ended, the watermark row has the
      latest end time, and among the rows that ended then, it is the one the
      collation puts last. */
  lemma WatermarkIsLatest(c: Collation, ledger: map<string, Row>, w: string, v: string)
    requires IsWatermark(c, ledger, w) && v in ledger
    requires forall u :: u in ledger ==> ledger[u].endedAt.Some?
    ensures ledger[v].endedAt.value <= ledger[w].endedAt.value
    ensures ledger[v].endedAt == ledger[w].endedAt ==> v == w || Collates(c, v, w)
  {
    if v != w {
      CollatesTotal(c, v, w);
    }
  }

  /** Recording a batch at `t` keeps every row ended no later than `t`. */
  lemma RecordedEnded(ledger: map<string, Row>, batch: seq<Loaded>, t: int)
    requires forall v :: v in ledger ==> ledger[v].endedAt.Some? && ledger[v].endedAt.value <= t
    ensures var after := Recorded(ledger, batch, t);
            forall v :: v in after ==> after[v].endedAt.Some? && after[v].endedAt.value <= t
  {
    var after := Recorded(ledger, batch, t);
    RecordedShape(ledger, batch, t);
    forall v | v in after ensures after[v].endedAt.Some? && after[v].endedAt.value <= t {
      if i :| 0 <= i < |batch| && batch[i].info.version == v {
        assert after[v] == Row(t, Some(t));
      }
    }
  }

  /** The versions of some migrations. */
  function Versions(migrations: seq<Migration>): set<string>
  {
    set m | m in migrations :: m.version
  }

  /** Once the batch read for `pending` is recorded at `t`, with every other
      row ended no later, no pending migration is above the new watermark,
      provided the collation orders the versions involved as JavaScript does. */
  lemma PendingAtOrBelow(c: Collation, pending: seq<Migration>, files: map<string, string>, ledger: map<string, Row>, t: int, w: string)
    requires ReadAll(pending, files).Ok?
    requires forall v :: v in ledger ==> ledger[v].endedAt.Some? && ledger[v].endedAt.value <= t
    requires AgreesWithCode(c, ledger.Keys + Versions(pending))
    requires IsWatermark(c, Recorded(ledger, ReadAll(pending, files).value, t), w)
    ensures forall m :: m in pending ==> !Below(w, m.version)
  {
    var batch := ReadAll(pending, files).value;
    var after := Recorded(ledger, batch, t);
    RecordedShape(ledger, batch, t);
    RecordedEnded(ledger, batch, t);
    assert w in ledger.Keys + Versions(pending) by {
      if w !in ledger {
        var i :| 0 <= i < |batch| && batch[i].info.version == w;
        assert pending[i] in pending;
      }
    }
    forall m | m in pending ensures !Below(w, m.version) {
      var i :| 0 <= i < |pending| && pending[i] == m;
      assert batch[i].info == m;
      assert after[m.version] == Row(t, Some(t));
      WatermarkIsLatest(c, after, w, m.version);
      if m.version != w {
        assert m.version in Versions(pending);
        BelowAsymmetric(m.version, w);
      } else {
        BelowIrreflexive(w);
      }
    }
  }

  /** If `a` is below `b`, `b` is not below `c` and `d` is not above `a`,
      then `d` is not above `c`. */
  lemma OrderChain(a: string, b: string, c: string, d: string)
    requires Below(a, b) && !Below(c, b) && !Below(a, d)
    ensures !Below(c, d)
  {
    BelowTotal(b, c);
    if b != c {
      BelowTransitive(a, b, c);
    }
    BelowTotal(d, a);
    if d != a {
      BelowTransitive(d, a, c);
    }
    BelowAsymmetric(d, c);
  }

  /** After a committed batch, every discovered migration is at or below the
      new watermark, so nothing is pending any more; this needs every earlier
      row to have ended no later than the batch. */
  lemma NothingPendingAfterCommit(c: Collation, migrations: seq<Migration>, ledger: map<string, Row>, files: map<string, string>, t: int)
    requires forall v :: v in ledger ==> ledger[v].endedAt.Some? && ledger[v].endedAt.value <= t
    requires AgreesWithCode(c, ledger.Keys + Versions(migrations))
    requires ReadAll(Pending(migrations, WatermarkRows(c, ledger)), files).Ok?
    ensures var batch := ReadAll(Pending(migrations, WatermarkRows(c, ledger)), files).value;
            Pending(migrations, WatermarkRows(c, Recorded(ledger, batch, t))) == []
  {
    var pending := Pending(migrations, WatermarkRows(c, ledger));
    var batch := ReadAll(pending, files).value;
    var after := Recorded(ledger, batch, t);
    RecordedShape(ledger, batch, t);
    if pending == [] {
      // nothing was pending, so nothing was recorded
      assert after == ledger;
    } else {
      assert batch[0].info.version in after;
      var w := Watermark(c, after).value;
      assert ledger.Keys + Versions(pending) <= ledger.Keys + Versions(migrations);
      PendingAtOrBelow(c, pending, files, ledger, t, w);
      if ledger != map[] {
        // the others are at or below the old watermark, which is below the
        // first pending migration, which is at or below w
        var w0 := Watermark(c, ledger).value;
        var p := pending[0];
        assert p in pending;
        forall m | m in migrations && m !in pending ensures !Below(w, m.version) {
          OrderChain(w0, p.version, w, m.version);
        }
      }
      NothingNewer(migrations, w);
    }
  }

  /** A run with nothing pending, when the server accepts its statements,
      opens and commits an empty transaction. */
  lemma EmptyRun(root: string, walk: Walk, filter: Option<Matcher>, files: map<string, string>, d: DbState, server: Server)
    requires Discovered(root, walk, filter).Ok?
    requires d.snapshot.None?
    requires Pending(Discovered(root, walk, filter).value, WatermarkRows(server.collation, d.ledger)) == []
    requires Clear(server, |d.queries|, 4)
    ensures var r := Run(root, walk, filter, files, d, server);
            && r.db.queries == d.queries + [Begin, CreateSchema, SelectLast, Commit]
            && r.db.ledger == d.ledger
            && r.logs == [] && r.outcome == Resolved
  {
    var migrations := Discovered(root, walk, filter).value;
    assert BatchFor(d, migrations, files, server) == Ok([]);
    CleanRun(root, walk, filter, files, d, server);
    assert CleanTrace([]) == [Begin, CreateSchema, SelectLast, Commit];
  }

  /** Running again after a clean run that ended every row no earlier than
      before does nothing but open and commit an empty transaction, provided
      the column's collation orders the recorded and discovered versions as
      JavaScript does. */
  lemma RerunIsEmpty(root: string, walk: Walk, filter: Option<Matcher>, files: map<string, string>, s: DbState, server: Server)
    requires Discovered(root, walk, filter).Ok?
    requires s.snapshot.None?
    requires forall v :: v in s.ledger ==> s.ledger[v].endedAt.Some? && s.ledger[v].endedAt.value <= server.clock(|s.queries| + 1)
    requires AgreesWithCode(server.collation, s.ledger.Keys + Versions(Discovered(root, walk, filter).value))
    requires BatchFor(s, Discovered(root, walk, filter).value, files, server).Ok?
    requires Fresh(BatchFor(s, Discovered(root, walk, filter).value, files, server).value, s.ledger)
    requires Clear(server, |s.queries|, 8 + 3 * |BatchFor(s, Discovered(root, walk, filter).value, files, server).value|)
    ensures var first := Run(root, walk, filter, files, s, server);
            var second := Run(root, walk, filter, files, first.db, server);
            && second.db.queries == first.db.queries + [Begin, CreateSchema, SelectLast, Commit]
            && second.db.ledger == first.db.ledger
            && second.logs == [] && second.outcome == Resolved
  {
    var migrations := Discovered(root, walk, filter).value;
    var batch := BatchFor(s, migrations, files, server).value;
    var t := server.clock(|s.queries| + 1);
    CleanRun(root, walk, filter, files, s, server);
    var first := Run(root, walk, filter, files, s, server);
    NothingPendingAfterCommit(server.collation, migrations, s.ledger, files, t);
    assert |first.db.queries| == |s.queries| + 4 + 3 * |batch|;
    EmptyRun(root, walk, filter, files, first.db, server);
  }

  /** On a `version` column with the "C" collation, where the server orders
      versions as JavaScript does, running again after a clean run always does
      nothing but open and commit an empty transaction. */
  lemma RerunIsEmptyUnderC(root: string, walk: Walk, filter: Option<Matcher>, files: map<string, string>, s: DbState, server: Server)
    requires Discovered(root, walk, filter).Ok?
    requires s.snapshot.None?
    requires IsCodeUnitOrder(server.collation)
    requires forall v :: v in s.ledger ==> s.ledger[v].endedAt.Some? && s.ledger[v].endedAt.value <= server.clock(|s.queries| + 1)
    requires BatchFor(s, Discovered(root, walk, filter).value, files, server).Ok?
    requires Fresh(BatchFor(s, Discovered(root, walk, filter).value, files, server).value, s.ledger)
    requires Clear(server, |s.queries|, 8 + 3 * |BatchFor(s, Discovered(root, walk, filter).value, files, server).value|)
    ensures var first := Run(root, walk, filter, files, s, server);
            var second := Run(root, walk, filter, files, first.db, server);
            && second.db.queries == first.db.queries + [Begin, CreateSchema, SelectLast, Commit]
            && second.db.ledger == first.db.ledger
            && second.logs == [] && second.outcome == Resolved
  {
    CodeUnitOrderAgrees(server.collation, s.ledger.Keys + Versions(Discovered(root, walk, filter).value));
    RerunIsEmpty(root, walk, filter, files, s, server);
  }
}
