/** The migrations table and the database connection the engine talks to
    (src/commands/up.ts:73-130): the ledger of applied versions, the statements
    issued on the connection, and PostgreSQL's transaction behaviour. */
module Ledger {
  import opened Types
  import opened Text

  /** A row of the migrations table (up.ts:81-86), keyed by its version:
      timestamps are integers, and ended_at may be NULL. */
  datatype Row = Row(startedAt: int, endedAt: Option<int>)

  /** The collation of the `version` column, as a sort key in the manner of
      `strxfrm`: the server compares two versions by comparing their keys code
      unit by code unit.  The "C" collation is the identity; a linguistic one
      such as en_US puts "a" before "B". */
  type Collation = string -> string

  /** The "C" collation: every key is the version itself, so versions compare
      as their code units do. */
  ghost predicate IsCodeUnitOrder(c: Collation)
  {
    forall v :: c(v) == v
  }

  /** True when version `a` sorts below version `b` in the column.  A
      deterministic PostgreSQL collation breaks a tie between equal keys by
      comparing the strings themselves, so this is a total order whatever the key. */
  predicate Collates(c: Collation, a: string, b: string)
  {
    Below(c(a), c(b)) || (c(a) == c(b) && Below(a, b))
  }

  lemma CollatesIrreflexive(c: Collation, a: string)
    ensures !Collates(c, a, a)
  {
    BelowIrreflexive(c(a));
    BelowIrreflexive(a);
  }

  lemma CollatesTransitive(c: Collation, a: string, b: string, d: string)
    requires Collates(c, a, b) && Collates(c, b, d)
    ensures Collates(c, a, d)
  {
    if Below(c(a), c(b)) && Below(c(b), c(d)) {
      BelowTransitive(c(a), c(b), c(d));
    } else if c(a) == c(b) && c(b) == c(d) {
      BelowTransitive(a, b, d);
    }
  }

  /** Two different versions are always ordered one way or the other. */
  lemma CollatesTotal(c: Collation, a: string, b: string)
    requires a != b
    ensures Collates(c, a, b) || Collates(c, b, a)
  {
    BelowTotal(c(a), c(b));
    BelowTotal(a, b);
  }

  /** The collation orders these versions as JavaScript's `<` does. */
  ghost predicate AgreesWithCode(c: Collation, versions: set<string>)
  {
    forall a, b :: a in versions && b in versions ==> (Collates(c, a, b) <==> Below(a, b))
  }

  /** Under the "C" collation the column sorts every set of versions as JavaScript does. */
  lemma CodeUnitOrderAgrees(c: Collation, versions: set<string>)
    requires IsCodeUnitOrder(c)
    ensures AgreesWithCode(c, versions)
  {
    forall a, b | a in versions && b in versions
      ensures Collates(c, a, b) <==> Below(a, b)
    {
      assert c(a) == a && c(b) == b;
    }
  }

  /** True when row `v` comes before row `w` under
      `ORDER BY ended_at DESC, version DESC` (up.ts:89), versions compared by
      the column's collation `c`.  PostgreSQL puts NULLs first in a descending
      order, so an unfinished row precedes every finished one. */
  predicate SortsBefore(c: Collation, v: string, r: Row, w: string, s: Row)
  {
    match (r.endedAt, s.endedAt)
    case (None, Some(_)) => true
    case (Some(_), None) => false
    case (Some(a), Some(b)) => a > b || (a == b && Collates(c, w, v))
    case (None, None) => Collates(c, w, v)
  }

  lemma SortsBeforeIrreflexive(c: Collation, v: string, r: Row)
    ensures !SortsBefore(c, v, r, v, r)
  {
    CollatesIrreflexive(c, v);
  }

  lemma SortsBeforeTransitive(c: Collation, u: string, q: Row, v: string, r: Row, w: string, s: Row)
    requires SortsBefore(c, u, q, v, r) && SortsBefore(c, v, r, w, s)
    ensures SortsBefore(c, u, q, w, s)
  {
    if Collates(c, v, u) && Collates(c, w, v) {
      CollatesTransitive(c, w, v, u);
    }
  }

  /** Rows with different versions are always ordered one way or the other. */
  lemma SortsBeforeTotal(c: Collation, v: string, r: Row, w: string, s: Row)
    requires v != w
    ensures SortsBefore(c, v, r, w, s) || SortsBefore(c, w, s, v, r)
  {
    CollatesTotal(c, v, w);
  }

  /** `v` is the first row of the watermark query: no row sorts before it. */
  ghost predicate IsWatermark(c: Collation, ledger: map<string, Row>, v: string)
  {
    v in ledger && forall w :: w in ledger ==> !SortsBefore(c, w, ledger[w], v, ledger[v])
  }

  /** A non-empty ledger has a first row. */
  lemma {:induction false} WatermarkExists(c: Collation, ledger: map<string, Row>)
    requires ledger != map[]
    ensures exists v :: IsWatermark(c, ledger, v)
    decreases |ledger|
  {
    var k :| k in ledger;
    var rest := ledger - {k};
    if rest == map[] {
      assert ledger.Keys == {k} by {
        assert rest.Keys == ledger.Keys - {k};
        assert rest.Keys == {};
        assert ledger.Keys - {k} == {};
      }
      SortsBeforeIrreflexive(c, k, ledger[k]);
      assert IsWatermark(c, ledger, k);
    } else {
      assert rest.Keys == ledger.Keys - {k};
      assert |rest.Keys| < |ledger.Keys|;
      WatermarkExists(c, rest);
      var w :| IsWatermark(c, rest, w);
      if SortsBefore(c, k, ledger[k], w, ledger[w]) {
        forall v | v in ledger ensures !SortsBefore(c, v, ledger[v], k, ledger[k]) {
          if v == k {
            SortsBeforeIrreflexive(c, k, ledger[k]);
          } else {
            assert v in rest;
            if SortsBefore(c, v, ledger[v], k, ledger[k]) {
              SortsBeforeTransitive(c, v, ledger[v], k, ledger[k], w, ledger[w]);
            }
          }
        }
        assert IsWatermark(c, ledger, k);
      } else {
        forall v | v in ledger ensures !SortsBefore(c, v, ledger[v], w, ledger[w]) {
          if v != k {
            assert v in rest;
          }
        }
        assert IsWatermark(c, ledger, w);
      }
    }
  }

  /** There is only one first row, because versions are the table's key. */
  lemma WatermarkUnique(c: Collation, ledger: map<string, Row>, a: string, b: string)
    requires IsWatermark(c, ledger, a) && IsWatermark(c, ledger, b)
    ensures a == b
  {
    if a != b {
      SortsBeforeTotal(c, a, ledger[a], b, ledger[b]);
    }
  }

  /** The version the watermark query returns, if the ledger has rows. */
  ghost function Watermark(c: Collation, ledger: map<string, Row>): (w: Option<string>)
    ensures w.None? <==> ledger == map[]
    ensures w.Some? ==> IsWatermark(c, ledger, w.value)
  {
    if ledger == map[] then None
    else
      WatermarkExists(c, ledger);
      var v :| IsWatermark(c, ledger, v);
      Some(v)
  }

  /** The rows the watermark query returns: none, or the first row's version. */
  ghost function WatermarkRows(c: Collation, ledger: map<string, Row>): seq<string>
  {
    match Watermark(c, ledger)
    case None => []
    case Some(v) => [v]
  }

  /** The server's evaluation of the watermark query: one pass over the rows,
      keeping the one that sorts first. */
  method FindWatermark(c: Collation, ledger: map<string, Row>) returns (w: Option<string>)
    ensures w.None? <==> ledger == map[]
    ensures w.Some? ==> IsWatermark(c, ledger, w.value)
    ensures w == Watermark(c, ledger)
  {
    var unseen := ledger.Keys;
    w := None;
    while unseen != {}
      invariant unseen <= ledger.Keys
      invariant w.None? <==> unseen == ledger.Keys
      invariant w.Some? ==> w.value in ledger && w.value !in unseen
      invariant w.Some? ==> forall v :: v in ledger && v !in unseen ==> !SortsBefore(c, v, ledger[v], w.value, ledger[w.value])
      decreases unseen
    {
      var k :| k in unseen;
      if w.None? || SortsBefore(c, k, ledger[k], w.value, ledger[w.value]) {
        if w.Some? {
          forall v | v in ledger && v !in unseen ensures !SortsBefore(c, v, ledger[v], k, ledger[k]) {
            if SortsBefore(c, v, ledger[v], k, ledger[k]) {
              SortsBeforeTransitive(c, v, ledger[v], k, ledger[k], w.value, ledger[w.value]);
            }
          }
        }
        SortsBeforeIrreflexive(c, k, ledger[k]);
        w := Some(k);
      }
      unseen := unseen - {k};
    }
    if w.Some? {
      WatermarkUnique(c, ledger, w.value, Watermark(c, ledger).value);
    }
  }

  /** The statements runMigrations issues, in the words of up.ts:78-119. */
  datatype Query =
    | Begin
    | CreateSchema                // CREATE TABLE / UNIQUE INDEX IF NOT EXISTS
    | SelectLast                  // the watermark query
    | InsertStart(version: string)
    | RunSql(sql: string)         // a migration file's text, verbatim
    | SetEnded(version: string)
    | Commit
    | Rollback

  /** The server's answer: the versions selected (empty for other statements), or an error. */
  datatype Reply = Rows(versions: seq<string>) | Failed(error: Failure)

  /** The part of the database a transaction can undo. */
  datatype Saved = Saved(tableExists: bool, ledger: map<string, Row>)

  /** The database as the engine sees it: whether the migrations table exists,
      its rows, the state saved when the open transaction began (if one is
      open), the time that transaction began, and every statement issued. */
  datatype DbState = DbState(
    tableExists: bool,
    ledger: map<string, Row>,
    snapshot: Option<Saved>,
    txTime: int,
    queries: seq<Query>)

  /** What the engine cannot see: the server's clock when the n-th statement
      arrives, the positions of the statements the server rejects (a bad
      statement in a migration file, a lost connection, ...), and the
      collation of the `version` column. */
  datatype Server = Server(clock: nat -> int, faults: set<nat>, collation: Collation)

  datatype Stepped = Stepped(db: DbState, reply: Reply)

  /** One statement on the connection.  Every statement is recorded; a rejected
      one changes nothing else.  NOW() is the time the open transaction began. */
  ghost function Step(s: DbState, q: Query, server: Server): (t: Stepped)
    ensures t.db.queries == s.queries + [q]
    ensures t.reply.Failed? ==> t.db == s.(queries := s.queries + [q])
    ensures !q.Rollback? && !q.Commit? && !q.Begin? ==> t.db.snapshot == s.snapshot
    ensures !q.Rollback? && !q.CreateSchema? ==> t.db.tableExists == s.tableExists
    ensures !q.Begin? ==> t.db.txTime == s.txTime
  {
    var position := |s.queries| + 1;
    var s' := s.(queries := s.queries + [q]);
    var now := if s.snapshot.Some? then s.txTime else server.clock(position);
    if position in server.faults then Stepped(s', Failed(Rejected(position)))
    else
      match q
      case Begin =>
        // BEGIN inside a transaction only draws a warning
        if s.snapshot.Some? then Stepped(s', Rows([]))
        else Stepped(s'.(snapshot := Some(Saved(s.tableExists, s.ledger)), txTime := now), Rows([]))
      case CreateSchema => Stepped(s'.(tableExists := true), Rows([]))
      case SelectLast =>
        if !s.tableExists then Stepped(s', Failed(MissingTable))
        else Stepped(s', Rows(WatermarkRows(server.collation, s.ledger)))
      case InsertStart(v) =>
        if !s.tableExists then Stepped(s', Failed(MissingTable))
        else if v in s.ledger then Stepped(s', Failed(DuplicateVersion(v)))
        else Stepped(s'.(ledger := s.ledger[v := Row(now, None)]), Rows([]))
      case RunSql(_) => Stepped(s', Rows([]))
      case SetEnded(v) =>
        if !s.tableExists then Stepped(s', Failed(MissingTable))
        else if v in s.ledger then Stepped(s'.(ledger := s.ledger[v := s.ledger[v].(endedAt := Some(now))]), Rows([]))
        else Stepped(s', Rows([]))
      case Commit => Stepped(s'.(snapshot := None), Rows([]))
      case Rollback =>
        match s.snapshot
        case None => Stepped(s', Rows([]))
        case Some(saved) =>
          Stepped(s'.(snapshot := None, tableExists := saved.tableExists, ledger := saved.ledger), Rows([]))
  }

  /** The database connection (`db` of up.ts) together with the server behind it. */
  class Database {
    var tableExists: bool
    var ledger: map<string, Row>
    var snapshot: Option<Saved>
    var txTime: int
    var queries: seq<Query>
    const server: Server

    ghost function State(): DbState
      reads this
    {
      DbState(tableExists, ledger, snapshot, txTime, queries)
    }

    /** A fresh connection: no transaction open, no statement issued yet. */
    constructor (tableExists: bool, ledger: map<string, Row>, server: Server)
      ensures State() == DbState(tableExists, ledger, None, 0, [])
      ensures this.server == server
    {
      this.tableExists := tableExists;
      this.ledger := ledger;
      this.server := server;
      snapshot := None;
      txTime := 0;
      queries := [];
    }

    /** `db.query(q)`: the statement runs as Step says. */
    method Query(q: Query) returns (reply: Reply)
      modifies this
      ensures Stepped(State(), reply) == Step(old(State()), q, server)
    {
      var position := |queries| + 1;
      var now := if snapshot.Some? then txTime else server.clock(position);
      queries := queries + [q];
      if position in server.faults {
        return Failed(Rejected(position));
      }
      reply := Rows([]);
      match q {
        case Begin =>
          if snapshot.None? {
            snapshot := Some(Saved(tableExists, ledger));
            txTime := now;
          }
        case CreateSchema =>
          tableExists := true;
        case SelectLast =>
          if !tableExists {
            reply := Failed(MissingTable);
          } else {
            var top := FindWatermark(server.collation, ledger);
            reply := Rows(if top.Some? then [top.value] else []);
          }
        case InsertStart(v) =>
          if !tableExists {
            reply := Failed(MissingTable);
          } else if v in ledger {
            reply := Failed(DuplicateVersion(v));
          } else {
            ledger := ledger[v := Row(now, None)];
          }
        case RunSql(_) =>
        case SetEnded(v) =>
          if !tableExists {
            reply := Failed(MissingTable);
          } else if v in ledger {
            ledger := ledger[v := ledger[v].(endedAt := Some(now))];
          }
        case Commit =>
          snapshot := None;
        case Rollback =>
          if snapshot.Some? {
            tableExists, ledger := snapshot.value.tableExists, snapshot.value.ledger;
            snapshot := None;
          }
      }
    }
  }
}
