/**
 Batches of statements (crates/baresync-core/src/db_worker.rs, lines 330-385) and the per-statement fallback of a
 pull (crates/baresync-core/src/pull.rs, lines 89-113). A statement is a partial function on the database.
 */
module DbWorker {
  import opened Wrappers

  type Execution<!D, !S> = (D, S) -> Option<D>

  /** Every statement in turn; None as soon as one fails. */
  function RunAll<D, S>(exec: Execution<D, S>, db: D, statements: seq<S>): Option<D> {
    if statements == [] then Some(db)
    else match exec(db, statements[0])
      case None => None
      case Some(next) => RunAll(exec, next, statements[1..])
  }

  /** Every statement in turn, leaving out those that fail. */
  function RunSkipping<D, S>(exec: Execution<D, S>, db: D, statements: seq<S>): D {
    if statements == [] then db
    else match exec(db, statements[0])
      case None => RunSkipping(exec, db, statements[1..])
      case Some(next) => RunSkipping(exec, next, statements[1..])
  }

  /** Skipping changes nothing when there is nothing to skip. */
  lemma {:induction false} NothingToSkip<D, S>(exec: Execution<D, S>, db: D, statements: seq<S>)
    ensures RunAll(exec, db, statements).Some? ==>
      RunSkipping(exec, db, statements) == RunAll(exec, db, statements).value
  {
    if statements != [] && exec(db, statements[0]).Some? {
      NothingToSkip(exec, exec(db, statements[0]).value, statements[1..]);
    }
  }

  /** A connection: the database as it stands, and what to return to for each open transaction or savepoint. */
  class Connection<!D(==), !S> {
    const exec: Execution<D, S>
    var db: D
    var open: seq<D>

    constructor (exec: Execution<D, S>, db: D)
      ensures this.exec == exec && this.db == db && open == []
    {
      this.exec, this.db, open := exec, db, [];
    }

    /** BEGIN, or SAVEPOINT inside a transaction. */
    method OpenTransaction()
      modifies this
      ensures db == old(db) && open == old(open) + [db]
    {
      open := open + [db];
    }

    /** COMMIT or RELEASE: the changes stay. */
    method Commit()
      requires open != []
      modifies this
      ensures db == old(db) && open == old(open)[..|old(open)| - 1]
    {
      open := open[..|open| - 1];
    }

    /** What dropping an uncommitted transaction or savepoint does. */
    method Rollback()
      requires open != []
      modifies this
      ensures db == old(open)[|old(open)| - 1] && open == old(open)[..|old(open)| - 1]
    {
      db := open[|open| - 1];
      open := open[..|open| - 1];
    }

    method Execute(statement: S) returns (ok: bool)
      modifies this
      ensures open == old(open) && ok == exec(old(db), statement).Some?
      ensures db == if ok then exec(old(db), statement).value else old(db)
    {
      match exec(db, statement)
      case None => ok := false;
      case Some(next) => db, ok := next, true;
    }

    /** All of the statements or none; `commits` says whether the final COMMIT or RELEASE goes through. */
    method Batch(statements: seq<S>, commits: bool) returns (ok: bool)
      modifies this
      ensures open == old(open)
      ensures ok <==> commits && RunAll(exec, old(db), statements).Some?
      ensures db == if ok then RunAll(exec, old(db), statements).value else old(db)
    {
      OpenTransaction();
      ghost var outer := old(open);
      for i := 0 to |statements|
        invariant open == outer + [old(db)]
        invariant RunAll(exec, old(db), statements) == RunAll(exec, db, statements[i..])
      {
        assert statements[i..][1..] == statements[i + 1..];
        var executed := Execute(statements[i]);
        if !executed {
          Rollback();
          return false;
        }
      }
      if commits {
        Commit();
      } else {
        Rollback();
      }
      return commits;
    }

    /** One statement after the other, skipping the ones that fail. */
    method ExecuteEach(statements: seq<S>)
      modifies this
      ensures open == old(open) && db == RunSkipping(exec, old(db), statements)
    {
      for i := 0 to |statements|
        invariant open == old(open)
        invariant RunSkipping(exec, old(db), statements) == RunSkipping(exec, db, statements[i..])
      {
        assert statements[i..][1..] == statements[i + 1..];
        var executed := Execute(statements[i]);
      }
    }

    /**
     The batch, or each statement by itself where the batch fails: both come to running the statements and skipping
     those that fail, inside a transaction or outside one, and whether or not the batch can commit.
     */
    method ApplyStatements(statements: seq<S>, commits: bool)
      modifies this
      ensures open == old(open) && db == RunSkipping(exec, old(db), statements)
    {
      if statements != [] {
        NothingToSkip(exec, db, statements);
        var ok := Batch(statements, commits);
        if !ok {
          ExecuteEach(statements);
        }
      }
    }
  }
}
