/**
 * The database behind each mocked project and the migration replay of
 * `MockProject.applyMigrations` (test/mocks.ts). SQL itself is not modelled:
 * executing a statement is an opaque oracle that sees the database state and
 * the statement text.
 */
module Executor {
  import opened Ledger

  /** A result row: column name to rendered value. */
  type Row = map<string, string>

  /**
   * A project's database, abstracted to the statements that have succeeded on
   * it since it was created (by `new PGlite()` in the constructor or in
   * `resetDb`). Anything SQL would let one observe is a function of this
   * history.
   */
  type Database = seq<string>

  /**
   * What `await db.exec(query)` can do: yield a first result with rows, yield
   * no result at all (the handlers test `!results`), or throw an error with
   * a message.
   */
  datatype ExecOutcome = Rows(rows: seq<Row>) | NoResults | Raised(message: string)

  /** The SQL engine, as an oracle. */
  type Executor = (Database, string) -> ExecOutcome

  /** The database after running `query` with the given outcome: only a statement that succeeded leaves a trace. */
  function After(db: Database, query: string, outcome: ExecOutcome): Database {
    if outcome.Rows? then db + [query] else db
  }

  /** The query texts of a ledger: one per migration, in ledger order. */
  function Queries(ledger: seq<Migration>): (qs: seq<string>)
    ensures |qs| == |ledger|
    ensures forall i :: 0 <= i < |ledger| ==> qs[i] == ledger[i].query
  {
    if ledger == [] then [] else [ledger[0].query] + Queries(ledger[1..])
  }

  /** The queries of two runs of migrations are those of the first followed by those of the second. */
  lemma {:induction false} QueriesConcat(a: seq<Migration>, b: seq<Migration>)
    ensures Queries(a + b) == Queries(a) + Queries(b)
  {
    if a != [] {
      assert (a + b)[1..] == a[1..] + b;
      QueriesConcat(a[1..], b);
    } else {
      assert a + b == b;
    }
  }

  /**
   * How a replay ended: every migration ran, or migration number `at` failed
   * with `message` (and those after it were not run). Either way `db` is the
   * database as the replay left it.
   */
  datatype ReplayResult = Completed(db: Database) | Failed(db: Database, at: nat, message: string)

  /**
   * The replay of `ledger[i..]` against `db`, one statement after another,
   * stopping at the first one that does not yield a result. The message is
   * the one `applyMigrations` throws with.
   */
  function ReplayFrom(exec: Executor, db: Database, ledger: seq<Migration>, i: nat): (r: ReplayResult)
    requires i <= |ledger|
    ensures r.Failed? ==> i <= r.at < |ledger|
    ensures |db| <= |r.db| <= |db| + |ledger| - i && r.db[..|db|] == db
    decreases |ledger| - i
  {
    if i == |ledger| then Completed(db)
    else
      match exec(db, ledger[i].query)
      case Rows(_) =>
        var r := ReplayFrom(exec, db + [ledger[i].query], ledger, i + 1);
        assert r.db[..|db|] == r.db[..|db| + 1][..|db|];
        r
      case NoResults => Failed(db, i, "Failed to execute migration " + ledger[i].name)
      case Raised(message) => Failed(db, i, message)
  }

  /** Migration `j` of `ledger` succeeds when replayed after the ones from `i` up to it. */
  predicate StepSucceeds(exec: Executor, db: Database, ledger: seq<Migration>, i: nat, j: nat)
    requires i <= j < |ledger|
  {
    exec(db + Queries(ledger[i..j]), ledger[j].query).Rows?
  }

  /** Replaying from `i` starts with migration `i`'s query on top of the initial database. */
  lemma QueriesShift(db: Database, ledger: seq<Migration>, i: nat, j: nat)
    requires i < j <= |ledger|
    ensures db + Queries(ledger[i..j]) == (db + [ledger[i].query]) + Queries(ledger[i + 1..j])
  {
    assert Queries(ledger[i..j]) == [ledger[i].query] + Queries(ledger[i + 1..j]);
  }

  /** Every step `j` from `i + 1` on sees the same database whether counted from `i` or from `i + 1`. */
  lemma StepShift(exec: Executor, db: Database, ledger: seq<Migration>, i: nat)
    requires i < |ledger|
    ensures forall j :: i + 1 <= j < |ledger| ==>
      StepSucceeds(exec, db, ledger, i, j) == StepSucceeds(exec, db + [ledger[i].query], ledger, i + 1, j)
  {
    forall j | i + 1 <= j < |ledger|
      ensures StepSucceeds(exec, db, ledger, i, j) == StepSucceeds(exec, db + [ledger[i].query], ledger, i + 1, j)
    {
      QueriesShift(db, ledger, i, j);
    }
  }

  /**
   * A replay that completes ran every statement successfully on the database
   * its predecessors built, and leaves the initial statements followed by
   * exactly the ledger's queries.
   */
  lemma {:induction false} ReplayCompleted(exec: Executor, db: Database, ledger: seq<Migration>, i: nat)
    requires i <= |ledger|
    requires ReplayFrom(exec, db, ledger, i).Completed?
    ensures ReplayFrom(exec, db, ledger, i).db == db + Queries(ledger[i..])
    ensures forall j :: i <= j < |ledger| ==> StepSucceeds(exec, db, ledger, i, j)
    decreases |ledger| - i
  {
    if i < |ledger| {
      var db' := db + [ledger[i].query];
      assert exec(db, ledger[i].query).Rows?;
      ReplayCompleted(exec, db', ledger, i + 1);
      QueriesShift(db, ledger, i, |ledger|);
      assert ledger[i..] == ledger[i..|ledger|] && ledger[i + 1..] == ledger[i + 1..|ledger|];
      StepShift(exec, db, ledger, i);
      assert db + Queries(ledger[i..i]) == db;
      assert StepSucceeds(exec, db, ledger, i, i);
    }
  }

  /**
   * A replay that fails stopped at statement `at`, the first that did not
   * succeed: the ones before it all succeeded, and the database holds exactly
   * them after the initial statements.
   */
  lemma {:induction false} ReplayFailed(exec: Executor, db: Database, ledger: seq<Migration>, i: nat)
    requires i <= |ledger|
    requires ReplayFrom(exec, db, ledger, i).Failed?
    ensures var r := ReplayFrom(exec, db, ledger, i);
      && i <= r.at < |ledger|
      && r.db == db + Queries(ledger[i..r.at])
      && (forall j :: i <= j < r.at ==> StepSucceeds(exec, db, ledger, i, j))
      && !exec(r.db, ledger[r.at].query).Rows?
    decreases |ledger| - i
  {
    assert db + Queries(ledger[i..i]) == db;
    if exec(db, ledger[i].query).Rows? {
      var db' := db + [ledger[i].query];
      ReplayFailed(exec, db', ledger, i + 1);
      var at := ReplayFrom(exec, db', ledger, i + 1).at;
      QueriesShift(db, ledger, i, at);
      StepShift(exec, db, ledger, i);
      assert StepSucceeds(exec, db, ledger, i, i);
    }
  }

  /** A replay completes exactly when every statement succeeds on the database its predecessors built. */
  lemma ReplayCompletesIff(exec: Executor, db: Database, ledger: seq<Migration>, i: nat)
    requires i <= |ledger|
    ensures ReplayFrom(exec, db, ledger, i).Completed?
        <==> forall j :: i <= j < |ledger| ==> StepSucceeds(exec, db, ledger, i, j)
  {
    if ReplayFrom(exec, db, ledger, i).Completed? {
      ReplayCompleted(exec, db, ledger, i);
    } else {
      ReplayFailed(exec, db, ledger, i);
      var at := ReplayFrom(exec, db, ledger, i).at;
      assert !StepSucceeds(exec, db, ledger, i, at);
    }
  }

  /**
   * A successful replay onto a fresh database leaves it holding exactly the
   * ledger's queries: whatever ran before the reset is gone.
   */
  lemma FreshReplayMatchesLedger(exec: Executor, ledger: seq<Migration>)
    ensures ReplayFrom(exec, [], ledger, 0).Completed? ==> ReplayFrom(exec, [], ledger, 0).db == Queries(ledger)
  {
    if ReplayFrom(exec, [], ledger, 0).Completed? {
      ReplayCompleted(exec, [], ledger, 0);
      assert ledger[0..] == ledger;
    }
  }

  /**
   * `for (const migration of this.migrations)` in `applyMigrations`: run each
   * migration's query in order and stop at the first that yields no result
   * or throws.
   */
  method Replay(exec: Executor, start: Database, ledger: seq<Migration>) returns (r: ReplayResult)
    ensures r == ReplayFrom(exec, start, ledger, 0)
  {
    var db := start;
    for i := 0 to |ledger|
      invariant ReplayFrom(exec, db, ledger, i) == ReplayFrom(exec, start, ledger, 0)
    {
      var migration := ledger[i];
      var outcome := exec(db, migration.query);
      match outcome {
        case Rows(_) =>
          db := db + [migration.query];
        case NoResults =>
          return Failed(db, i, "Failed to execute migration " + migration.name);
        case Raised(message) =>
          return Failed(db, i, message);
      }
    }
    return Completed(db);
  }

}
