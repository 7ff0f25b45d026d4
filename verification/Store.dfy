/**
 The local database as a pull sees it: rows by table and id, foreign keys, and the two statements of a pull
 (crates/baresync-core/src/push.rs, lines 28-111).
 */
module Store {
  import opened Wrappers
  import opened Schema
  import opened DbWorker

  datatype Key = Key(table: string, id: string)

  datatype LocalRow = LocalRow(content: Columns, updatedAt: int, deletedAt: Option<int>, isSynced: bool)

  type Database = map<Key, LocalRow>

  datatype ForeignKey = ForeignKey(column: string, target: string)

  type References = map<string, seq<ForeignKey>>

  /** A row of a pull response; it holds the columns it carries, not necessarily all of its table's. */
  datatype IncomingRow = IncomingRow(id: string, content: Columns, updatedAt: int, deletedAt: Option<int>)

  datatype Statement = Upsert(table: string, row: IncomingRow) | SoftDelete(table: string, id: string, at: int)

  function KeyOf(s: Statement): Key {
    match s
    case Upsert(table, row) => Key(table, row.id)
    case SoftDelete(table, id, _) => Key(table, id)
  }

  function Lookup(db: Database, k: Key): Option<LocalRow> {
    if k in db then Some(db[k]) else None
  }

  /** An unsynced local row newer than the incoming one: the conflict clause leaves it alone. */
  predicate Protected(was: Option<LocalRow>, s: Statement) {
    s.Upsert? && was.Some? && !was.value.isSynced && was.value.updatedAt > s.row.updatedAt
  }

  /** The row a statement addresses, after it. */
  function Effect(was: Option<LocalRow>, s: Statement): Option<LocalRow> {
    match s
    case Upsert(_, row) =>
      if Protected(was, s) then was
      else
        var content := if was.Some? then was.value.content + row.content else row.content;
        Some(LocalRow(content, row.updatedAt, row.deletedAt, true))
    case SoftDelete(_, _, at) =>
      if was.None? then None
      else Some(was.value.(deletedAt := Some(at), updatedAt := at, isSynced := true))
  }

  function RefsOf(refs: References, table: string): seq<ForeignKey> {
    if table in refs then refs[table] else []
  }

  /** The row that a foreign key of `content` points to, if it points to one. */
  function Parent(fk: ForeignKey, content: Columns): Option<Key> {
    if fk.column in content && content[fk.column].Text? then Some(Key(fk.target, content[fk.column].text)) else None
  }

  predicate ParentsIn(refs: References, keys: set<Key>, table: string, content: Columns) {
    forall fk :: fk in RefsOf(refs, table) && Parent(fk, content).Some? ==> Parent(fk, content).value in keys
  }

  predicate Integrity(refs: References, db: Database) {
    forall k :: k in db ==> ParentsIn(refs, db.Keys, k.table, db[k].content)
  }

  /** Executes a statement; a row written without all of its parents violates a foreign key. */
  function Exec(refs: References, db: Database, s: Statement): Option<Database> {
    var k := KeyOf(s);
    var after := Effect(Lookup(db, k), s);
    if after.None? then Some(db)
    else
      var next := db[k := after.value];
      if s.Upsert? && !Protected(Lookup(db, k), s) && !ParentsIn(refs, next.Keys, k.table, after.value.content)
      then None
      else Some(next)
  }

  function ExecOn(refs: References): (exec: Execution<Database, Statement>)
    ensures forall db, s :: exec(db, s) == Exec(refs, db, s)
  {
    (db, s) => Exec(refs, db, s)
  }

  function Run(refs: References, db: Database, statements: seq<Statement>): Option<Database> {
    RunAll(ExecOn(refs), db, statements)
  }

  ghost predicate DistinctKeys(statements: seq<Statement>) {
    forall i, j :: 0 <= i < j < |statements| ==> KeyOf(statements[i]) != KeyOf(statements[j])
  }

  lemma RunStep(refs: References, db: Database, statements: seq<Statement>)
    requires statements != []
    ensures Run(refs, db, statements) ==
      match Exec(refs, db, statements[0]) {
        case None => None
        case Some(next) => Run(refs, next, statements[1..])
      }
  {
  }

  // ---------------------------------------------------------------------------------------------
  // What a successful run does to each row
  // ---------------------------------------------------------------------------------------------

  /** The statement that addresses a row, if any. */
  function StatementFor(statements: seq<Statement>, k: Key): (s: Option<Statement>)
    ensures s.Some? ==> s.value in statements && KeyOf(s.value) == k
    ensures s.None? <==> forall x :: x in statements ==> KeyOf(x) != k
  {
    if statements == [] then None
    else if KeyOf(statements[0]) == k then Some(statements[0])
    else StatementFor(statements[1..], k)
  }

  function Outcome(db: Database, statements: seq<Statement>, k: Key): Option<LocalRow> {
    match StatementFor(statements, k)
    case None => Lookup(db, k)
    case Some(s) => Effect(Lookup(db, k), s)
  }

  lemma TailDistinct(statements: seq<Statement>)
    requires DistinctKeys(statements) && statements != []
    ensures DistinctKeys(statements[1..])
    ensures StatementFor(statements[1..], KeyOf(statements[0])) == None
  {
  }

  /** Statements that address different rows act on each row by itself. */
  lemma {:induction false} RunOutcome(refs: References, db: Database, statements: seq<Statement>, k: Key)
    requires DistinctKeys(statements) && Run(refs, db, statements).Some?
    ensures Lookup(Run(refs, db, statements).value, k) == Outcome(db, statements, k)
    decreases |statements|
  {
    if statements != [] {
      RunStep(refs, db, statements);
      TailDistinct(statements);
      RunOutcome(refs, Exec(refs, db, statements[0]).value, statements[1..], k);
    }
  }

  lemma KeysGrow(refs: References, db: Database, s: Statement)
    requires Exec(refs, db, s).Some?
    ensures Exec(refs, db, s).value.Keys == db.Keys + if s.Upsert? then {KeyOf(s)} else {}
  {
  }

  lemma {:induction false} RunKeysGrow(refs: References, db: Database, statements: seq<Statement>)
    requires Run(refs, db, statements).Some?
    ensures db.Keys <= Run(refs, db, statements).value.Keys
    decreases |statements|
  {
    if statements != [] {
      RunStep(refs, db, statements);
      KeysGrow(refs, db, statements[0]);
      RunKeysGrow(refs, Exec(refs, db, statements[0]).value, statements[1..]);
    }
  }

  // ---------------------------------------------------------------------------------------------
  // Applying twice
  // ---------------------------------------------------------------------------------------------

  lemma EffectTwice(was: Option<LocalRow>, s: Statement)
    ensures Effect(Effect(was, s), s) == Effect(was, s)
  {
    if s.Upsert? && !Protected(was, s) {
      var content := if was.Some? then was.value.content + s.row.content else s.row.content;
      assert content + s.row.content == content;
    }
  }

  /** Once the run is over, executing any of its statements again changes nothing. */
  lemma {:induction false} Settled(refs: References, db: Database, statements: seq<Statement>, s: Statement)
    requires DistinctKeys(statements) && Run(refs, db, statements).Some? && s in statements
    ensures Exec(refs, Run(refs, db, statements).value, s) == Run(refs, db, statements)
    decreases |statements|
  {
    RunStep(refs, db, statements);
    TailDistinct(statements);
    var head := statements[0];
    var next := Exec(refs, db, head).value;
    var last := Run(refs, db, statements).value;
    if s == head {
      RunOutcome(refs, next, statements[1..], KeyOf(s));
      EffectTwice(Lookup(db, KeyOf(s)), s);
      RunKeysGrow(refs, next, statements[1..]);
      assert Lookup(last, KeyOf(s)) == Effect(Lookup(db, KeyOf(s)), s);
      SameWrite(refs, next, last, db, s);
    } else {
      Settled(refs, next, statements[1..], s);
    }
  }

  lemma SameWrite(refs: References, next: Database, last: Database, db: Database, s: Statement)
    requires Exec(refs, db, s) == Some(next) && next.Keys <= last.Keys
    requires Lookup(last, KeyOf(s)) == Effect(Lookup(db, KeyOf(s)), s)
    requires Effect(Lookup(last, KeyOf(s)), s) == Lookup(last, KeyOf(s))
    ensures Exec(refs, last, s) == Some(last)
  {
    var k := KeyOf(s);
    if k in last {
      assert last[k := last[k]] == last;
      if s.Upsert? && !Protected(Lookup(last, k), s) {
        assert last[k].content == Effect(Lookup(db, k), s).value.content;
      }
    }
  }

  lemma {:induction false} AllSettled(refs: References, db: Database, statements: seq<Statement>)
    requires forall s :: s in statements ==> Exec(refs, db, s) == Some(db)
    ensures Run(refs, db, statements) == Some(db)
  {
    if statements != [] {
      AllSettled(refs, db, statements[1..]);
    }
  }

  /** Running statements on different rows a second time succeeds and changes nothing. */
  lemma RunTwice(refs: References, db: Database, statements: seq<Statement>)
    requires DistinctKeys(statements) && Run(refs, db, statements).Some?
    ensures Run(refs, Run(refs, db, statements).value, statements) == Run(refs, db, statements)
  {
    forall s | s in statements
      ensures Exec(refs, Run(refs, db, statements).value, s) == Run(refs, db, statements)
    {
      Settled(refs, db, statements, s);
    }
    AllSettled(refs, Run(refs, db, statements).value, statements);
  }

  // ---------------------------------------------------------------------------------------------
  // Foreign keys
  // ---------------------------------------------------------------------------------------------

  /** The rows that statements put into the database. */
  ghost function UpsertedKeys(statements: seq<Statement>): set<Key> {
    set s | s in statements && s.Upsert? :: KeyOf(s)
  }

  /** Every parent of the row that statement `i` writes is there already or is written by then. */
  ghost predicate HasParentsAt(refs: References, db: Database, statements: seq<Statement>, i: nat)
    requires i < |statements|
  {
    var s := statements[i];
    s.Upsert? && !Protected(Lookup(db, KeyOf(s)), s) ==>
      ParentsIn(refs, db.Keys + UpsertedKeys(statements[..i + 1]), s.table, s.row.content)
  }

  ghost predicate AllHaveParents(refs: References, db: Database, statements: seq<Statement>) {
    forall i :: 0 <= i < |statements| ==> HasParentsAt(refs, db, statements, i)
  }

  /** One statement violates no foreign key exactly if the row it writes has its parents; integrity is kept. */
  lemma ExecIntegrity(refs: References, db: Database, s: Statement)
    requires Integrity(refs, db)
    ensures Exec(refs, db, s).Some? <==>
      (s.Upsert? && !Protected(Lookup(db, KeyOf(s)), s) ==>
        ParentsIn(refs, db.Keys + {KeyOf(s)}, s.table, s.row.content))
    ensures Exec(refs, db, s).Some? ==> Integrity(refs, Exec(refs, db, s).value)
  {
    var k := KeyOf(s);
    var after := Effect(Lookup(db, k), s);
    if after.Some? {
      var next := db[k := after.value];
      assert next.Keys == db.Keys + {k};
      if s.Upsert? && !Protected(Lookup(db, k), s) {
        var content := after.value.content;
        forall fk | fk in RefsOf(refs, k.table)
          ensures (Parent(fk, content).Some? ==> Parent(fk, content).value in next.Keys)
            <==> (Parent(fk, s.row.content).Some? ==> Parent(fk, s.row.content).value in next.Keys)
        {
          if fk.column !in s.row.content && k in db {
            assert ParentsIn(refs, db.Keys, k.table, db[k].content);
            assert Parent(fk, content) == Parent(fk, db[k].content);
          }
        }
      }
      if Exec(refs, db, s).Some? {
        forall x | x in next ensures ParentsIn(refs, next.Keys, x.table, next[x].content) {
          if x != k || !s.Upsert? || Protected(Lookup(db, k), s) {
            assert ParentsIn(refs, db.Keys, x.table, db[x].content);
          }
        }
      }
    }
  }

  lemma TailParents(refs: References, db: Database, next: Database, statements: seq<Statement>, i: nat)
    requires DistinctKeys(statements) && statements != [] && Exec(refs, db, statements[0]) == Some(next)
    requires i < |statements| - 1
    ensures HasParentsAt(refs, next, statements[1..], i) <==> HasParentsAt(refs, db, statements, i + 1)
  {
    var head, rest := statements[0], statements[1..];
    var s := rest[i];
    assert s == statements[i + 1] && KeyOf(s) != KeyOf(head);
    assert Lookup(next, KeyOf(s)) == Lookup(db, KeyOf(s));
    KeysGrow(refs, db, head);
    var done, later := statements[..i + 2], rest[..i + 1];
    assert done == [head] + later;
    assert UpsertedKeys(done) == (if head.Upsert? then {KeyOf(head)} else {}) + UpsertedKeys(later) by {
      assert forall x :: x in done <==> x == head || x in later;
    }
    assert next.Keys + UpsertedKeys(later) == db.Keys + UpsertedKeys(done);
  }

  /** On a sound database a run succeeds exactly if every row written has its parents by then, and it stays sound. */
  lemma {:induction false} RunIntegrity(refs: References, db: Database, statements: seq<Statement>)
    requires DistinctKeys(statements) && Integrity(refs, db)
    ensures Run(refs, db, statements).Some? <==> AllHaveParents(refs, db, statements)
    ensures Run(refs, db, statements).Some? ==> Integrity(refs, Run(refs, db, statements).value)
    decreases |statements|
  {
    if statements != [] {
      var head, rest := statements[0], statements[1..];
      RunStep(refs, db, statements);
      TailDistinct(statements);
      ExecIntegrity(refs, db, head);
      assert UpsertedKeys(statements[..1]) == if head.Upsert? then {KeyOf(head)} else {} by {
        assert statements[..1] == [head];
      }
      assert Exec(refs, db, head).Some? <==> HasParentsAt(refs, db, statements, 0);
      if Exec(refs, db, head).Some? {
        var next := Exec(refs, db, head).value;
        RunIntegrity(refs, next, rest);
        forall i | 0 <= i < |rest|
          ensures HasParentsAt(refs, next, rest, i) <==> HasParentsAt(refs, db, statements, i + 1)
        {
          TailParents(refs, db, next, statements, i);
        }
        if AllHaveParents(refs, next, rest) {
          forall i | 0 <= i < |statements| ensures HasParentsAt(refs, db, statements, i) {
            assert i > 0 ==> HasParentsAt(refs, next, rest, i - 1);
          }
        }
        if AllHaveParents(refs, db, statements) {
          forall i | 0 <= i < |rest| ensures HasParentsAt(refs, next, rest, i) {
            assert HasParentsAt(refs, db, statements, i + 1);
          }
        }
      }
    }
  }
}
