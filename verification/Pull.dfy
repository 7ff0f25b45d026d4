/**
 Applying a pull response (crates/baresync-core/src/pull.rs, lines 25-117): upserts table by table in upsert order,
 then soft deletes table by table in delete order, as one batch with a per-statement fallback.
 */
module Pull {
  import opened Wrappers
  import opened Sequences
  import Schema
  import opened DbWorker
  import opened Store
  import FkOrder

  datatype TableEntry = TableEntry(table: string, changedRows: seq<IncomingRow>, deletedIds: seq<string>)

  /** The first entry of a table; later ones are not looked at. */
  function Find(tables: seq<TableEntry>, name: string): Option<TableEntry> {
    if tables == [] then None
    else if tables[0].table == name then Some(tables[0])
    else Find(tables[1..], name)
  }

  function RowsFor(tables: seq<TableEntry>, name: string): seq<IncomingRow> {
    match Find(tables, name)
    case None => []
    case Some(entry) => entry.changedRows
  }

  function IdsFor(tables: seq<TableEntry>, name: string): seq<string> {
    match Find(tables, name)
    case None => []
    case Some(entry) => entry.deletedIds
  }

  function RowUpserts(table: string, rows: seq<IncomingRow>): seq<Statement> {
    seq(|rows|, i requires 0 <= i < |rows| => Upsert(table, rows[i]))
  }

  function IdDeletes(table: string, ids: seq<string>, at: int): seq<Statement> {
    seq(|ids|, i requires 0 <= i < |ids| => SoftDelete(table, ids[i], at))
  }

  function Upserts(order: seq<string>, tables: seq<TableEntry>): seq<Statement> {
    if order == [] then []
    else
      var last := order[|order| - 1];
      Upserts(order[..|order| - 1], tables) + RowUpserts(last, RowsFor(tables, last))
  }

  function Deletes(order: seq<string>, tables: seq<TableEntry>, at: int): seq<Statement> {
    if order == [] then []
    else
      var last := order[|order| - 1];
      Deletes(order[..|order| - 1], tables, at) + IdDeletes(last, IdsFor(tables, last), at)
  }

  function Statements(upsertOrder: seq<string>, deleteOrder: seq<string>, tables: seq<TableEntry>,
                      at: int): seq<Statement>
  {
    Upserts(upsertOrder, tables) + Deletes(deleteOrder, tables, at)
  }

  method FindTable(tables: seq<TableEntry>, name: string) returns (entry: Option<TableEntry>)
    ensures entry == Find(tables, name)
  {
    for i := 0 to |tables|
      invariant Find(tables, name) == Find(tables[i..], name)
    {
      assert tables[i..][1..] == tables[i + 1..];
      if tables[i].table == name {
        return Some(tables[i]);
      }
    }
    return None;
  }

  method BuildUpserts(order: seq<string>, tables: seq<TableEntry>) returns (statements: seq<Statement>)
    ensures statements == Upserts(order, tables)
  {
    statements := [];
    for i := 0 to |order|
      invariant statements == Upserts(order[..i], tables)
    {
      assert order[..i + 1][..i] == order[..i];
      var entry := FindTable(tables, order[i]);
      if entry.Some? {
        var rows := entry.value.changedRows;
        ghost var before := statements;
        for j := 0 to |rows|
          invariant statements == before + RowUpserts(order[i], rows)[..j]
        {
          statements := statements + [Upsert(order[i], rows[j])];
        }
      }
    }
    assert order[..|order|] == order;
  }

  method BuildDeletes(order: seq<string>, tables: seq<TableEntry>, at: int) returns (statements: seq<Statement>)
    ensures statements == Deletes(order, tables, at)
  {
    statements := [];
    for i := 0 to |order|
      invariant statements == Deletes(order[..i], tables, at)
    {
      assert order[..i + 1][..i] == order[..i];
      var entry := FindTable(tables, order[i]);
      if entry.Some? {
        var ids := entry.value.deletedIds;
        ghost var before := statements;
        for j := 0 to |ids|
          invariant statements == before + IdDeletes(order[i], ids, at)[..j]
        {
          statements := statements + [SoftDelete(order[i], ids[j], at)];
        }
      }
    }
    assert order[..|order|] == order;
  }

  /** Runs every statement of the response, skipping those that fail, and reports how many there are. */
  method ApplyPullBatchTables(connection: Connection<Database, Statement>, upsertOrder: seq<string>,
                              deleteOrder: seq<string>, tables: seq<TableEntry>, serverTime: int, commits: bool)
    returns (applied: nat)
    modifies connection
    ensures connection.open == old(connection.open)
    ensures connection.db ==
      RunSkipping(connection.exec, old(connection.db), Statements(upsertOrder, deleteOrder, tables, serverTime))
    ensures applied == |Statements(upsertOrder, deleteOrder, tables, serverTime)|
  {
    var upserts := BuildUpserts(upsertOrder, tables);
    var deletes := BuildDeletes(deleteOrder, tables, serverTime);
    connection.ApplyStatements(upserts + deletes, commits);
    return |upserts + deletes|;
  }

  // ---------------------------------------------------------------------------------------------
  // Which statements a response turns into
  // ---------------------------------------------------------------------------------------------

  lemma {:induction false} InUpserts(order: seq<string>, tables: seq<TableEntry>, s: Statement)
    ensures s in Upserts(order, tables) <==> s.Upsert? && s.table in order && s.row in RowsFor(tables, s.table)
  {
    if order != [] {
      var rest, last := order[..|order| - 1], order[|order| - 1];
      InUpserts(rest, tables, s);
      assert order == rest + [last];
      var rows := RowsFor(tables, last);
      if s.Upsert? && s.table == last && s.row in rows {
        var j :| 0 <= j < |rows| && rows[j] == s.row;
        assert RowUpserts(last, rows)[j] == s;
      }
    }
  }

  lemma {:induction false} InDeletes(order: seq<string>, tables: seq<TableEntry>, at: int, s: Statement)
    ensures s in Deletes(order, tables, at) <==>
      s.SoftDelete? && s.at == at && s.table in order && s.id in IdsFor(tables, s.table)
  {
    if order != [] {
      var rest, last := order[..|order| - 1], order[|order| - 1];
      InDeletes(rest, tables, at, s);
      assert order == rest + [last];
      var ids := IdsFor(tables, last);
      if s.SoftDelete? && s.table == last && s.id in ids && s.at == at {
        var j :| 0 <= j < |ids| && ids[j] == s.id;
        assert IdDeletes(last, ids, at)[j] == s;
      }
    }
  }

  ghost predicate DistinctRows(rows: seq<IncomingRow>) {
    forall i, j :: 0 <= i < j < |rows| ==> rows[i].id != rows[j].id
  }

  /** Each id occurs once per table, over changed rows and deleted ids together. */
  ghost predicate EachIdOnce(tables: seq<TableEntry>) {
    forall t ::
      && DistinctRows(RowsFor(tables, t))
      && NoDuplicates(IdsFor(tables, t))
      && forall r :: r in RowsFor(tables, t) ==> r.id !in IdsFor(tables, t)
  }

  lemma DistinctConcat(a: seq<Statement>, b: seq<Statement>)
    requires DistinctKeys(a) && DistinctKeys(b)
    requires forall x, y :: x in a && y in b ==> KeyOf(x) != KeyOf(y)
    ensures DistinctKeys(a + b)
  {
  }

  lemma {:induction false} UpsertsDistinct(order: seq<string>, tables: seq<TableEntry>)
    requires NoDuplicates(order) && EachIdOnce(tables)
    ensures DistinctKeys(Upserts(order, tables))
  {
    if order != [] {
      var rest, last := order[..|order| - 1], order[|order| - 1];
      UpsertsDistinct(rest, tables);
      assert DistinctRows(RowsFor(tables, last));
      forall x | x in Upserts(rest, tables) ensures x.Upsert? && x.table != last {
        InUpserts(rest, tables, x);
      }
      DistinctConcat(Upserts(rest, tables), RowUpserts(last, RowsFor(tables, last)));
    }
  }

  lemma {:induction false} DeletesDistinct(order: seq<string>, tables: seq<TableEntry>, at: int)
    requires NoDuplicates(order) && EachIdOnce(tables)
    ensures DistinctKeys(Deletes(order, tables, at))
  {
    if order != [] {
      var rest, last := order[..|order| - 1], order[|order| - 1];
      DeletesDistinct(rest, tables, at);
      assert NoDuplicates(IdsFor(tables, last));
      forall x | x in Deletes(rest, tables, at) ensures x.SoftDelete? && x.table != last {
        InDeletes(rest, tables, at, x);
      }
      DistinctConcat(Deletes(rest, tables, at), IdDeletes(last, IdsFor(tables, last), at));
    }
  }

  lemma StatementsDistinct(upsertOrder: seq<string>, deleteOrder: seq<string>, tables: seq<TableEntry>, at: int)
    requires NoDuplicates(upsertOrder) && NoDuplicates(deleteOrder) && EachIdOnce(tables)
    ensures DistinctKeys(Statements(upsertOrder, deleteOrder, tables, at))
  {
    UpsertsDistinct(upsertOrder, tables);
    DeletesDistinct(deleteOrder, tables, at);
    forall x, y | x in Upserts(upsertOrder, tables) && y in Deletes(deleteOrder, tables, at)
      ensures KeyOf(x) != KeyOf(y)
    {
      InUpserts(upsertOrder, tables, x);
      InDeletes(deleteOrder, tables, at, y);
    }
    DistinctConcat(Upserts(upsertOrder, tables), Deletes(deleteOrder, tables, at));
  }

  // ---------------------------------------------------------------------------------------------
  // Idempotence, and protection of newer local edits
  // ---------------------------------------------------------------------------------------------

  /** If no statement of a response fails, applying it again changes nothing. */
  lemma PullTwiceIsOnce(refs: References, db: Database, upsertOrder: seq<string>, deleteOrder: seq<string>,
                        tables: seq<TableEntry>, at: int)
    requires NoDuplicates(upsertOrder) && NoDuplicates(deleteOrder) && EachIdOnce(tables)
    requires Run(refs, db, Statements(upsertOrder, deleteOrder, tables, at)).Some?
    ensures var statements := Statements(upsertOrder, deleteOrder, tables, at);
      var once := RunSkipping(ExecOn(refs), db, statements);
      once == Run(refs, db, statements).value && RunSkipping(ExecOn(refs), once, statements) == once
  {
    var statements := Statements(upsertOrder, deleteOrder, tables, at);
    StatementsDistinct(upsertOrder, deleteOrder, tables, at);
    RunTwice(refs, db, statements);
    NothingToSkip(ExecOn(refs), db, statements);
    NothingToSkip(ExecOn(refs), Run(refs, db, statements).value, statements);
  }

  ghost predicate IsChanged(order: seq<string>, tables: seq<TableEntry>, k: Key, r: IncomingRow) {
    k.table in order && r in RowsFor(tables, k.table) && r.id == k.id
  }

  ghost predicate IsDeleted(order: seq<string>, tables: seq<TableEntry>, k: Key) {
    k.table in order && k.id in IdsFor(tables, k.table)
  }

  /**
   What a response whose statements all succeed does to each row. A row it changes takes the columns it carries and
   keeps its others, unless the local row is unsynced and strictly newer; a row it deletes becomes a tombstone,
   newer or not; all other rows are as before.
   */
  lemma RowAfterPull(refs: References, db: Database, upsertOrder: seq<string>, deleteOrder: seq<string>,
                     tables: seq<TableEntry>, at: int, k: Key)
    requires NoDuplicates(upsertOrder) && NoDuplicates(deleteOrder) && EachIdOnce(tables)
    requires Run(refs, db, Statements(upsertOrder, deleteOrder, tables, at)).Some?
    ensures var after := Lookup(RunSkipping(ExecOn(refs), db, Statements(upsertOrder, deleteOrder, tables, at)), k);
      && (forall r :: IsChanged(upsertOrder, tables, k, r) ==>
            if k in db && !db[k].isSynced && db[k].updatedAt > r.updatedAt then after == Some(db[k])
            else
              var content := (if k in db then db[k].content else map[]) + r.content;
              after == Some(LocalRow(content, r.updatedAt, r.deletedAt, true)))
      && (IsDeleted(deleteOrder, tables, k) ==>
            after == if k in db then Some(LocalRow(db[k].content, at, Some(at), true)) else None)
      && ((forall r :: !IsChanged(upsertOrder, tables, k, r)) && !IsDeleted(deleteOrder, tables, k) ==>
            after == Lookup(db, k))
  {
    var statements := Statements(upsertOrder, deleteOrder, tables, at);
    StatementsDistinct(upsertOrder, deleteOrder, tables, at);
    RunOutcome(refs, db, statements, k);
    NothingToSkip(ExecOn(refs), db, statements);
    StatementForRow(upsertOrder, deleteOrder, tables, at, k);
    assert forall r: IncomingRow :: map[] + r.content == r.content;
  }

  /** The one statement that a response has for a row. */
  lemma StatementForRow(upsertOrder: seq<string>, deleteOrder: seq<string>, tables: seq<TableEntry>, at: int, k: Key)
    requires NoDuplicates(upsertOrder) && NoDuplicates(deleteOrder) && EachIdOnce(tables)
    ensures var s := StatementFor(Statements(upsertOrder, deleteOrder, tables, at), k);
      && (forall r :: IsChanged(upsertOrder, tables, k, r) ==> s == Some(Upsert(k.table, r)))
      && (IsDeleted(deleteOrder, tables, k) ==> s == Some(SoftDelete(k.table, k.id, at)))
      && (s.Some? && s.value.SoftDelete? ==> IsDeleted(deleteOrder, tables, k))
      && (s.Some? && s.value.Upsert? ==> IsChanged(upsertOrder, tables, k, s.value.row))
  {
    var upserts, deletes := Upserts(upsertOrder, tables), Deletes(deleteOrder, tables, at);
    var statements := upserts + deletes;
    StatementsDistinct(upsertOrder, deleteOrder, tables, at);
    var s := StatementFor(statements, k);
    forall r | IsChanged(upsertOrder, tables, k, r) ensures s == Some(Upsert(k.table, r)) {
      InUpserts(upsertOrder, tables, Upsert(k.table, r));
      assert Upsert(k.table, r) in statements;
      OnlyStatement(statements, Upsert(k.table, r), s.value);
    }
    if IsDeleted(deleteOrder, tables, k) {
      InDeletes(deleteOrder, tables, at, SoftDelete(k.table, k.id, at));
      assert SoftDelete(k.table, k.id, at) in statements;
      OnlyStatement(statements, SoftDelete(k.table, k.id, at), s.value);
    }
    if s.Some? {
      InUpserts(upsertOrder, tables, s.value);
      InDeletes(deleteOrder, tables, at, s.value);
    }
  }

  lemma OnlyStatement(statements: seq<Statement>, a: Statement, b: Statement)
    requires DistinctKeys(statements) && a in statements && b in statements && KeyOf(a) == KeyOf(b)
    ensures a == b
  {
  }

  // ---------------------------------------------------------------------------------------------
  // Foreign keys
  // ---------------------------------------------------------------------------------------------

  /** Every table a listed table refers to, if listed too, is listed earlier. */
  ghost predicate ParentsFirst(refs: References, order: seq<string>) {
    forall i, fk :: 0 <= i < |order| && fk in RefsOf(refs, order[i]) && fk.target in order && fk.target != order[i] ==>
      fk.target in order[..i]
  }

  /** An order computed from the foreign keys is parents first. */
  lemma SortedOrderIsParentsFirst(refs: References, g: FkOrder.Graph, order: seq<string>)
    requires FkOrder.IsUpsertOrder(g, order)
    requires forall t, fk :: t in order && fk in RefsOf(refs, t) && fk.target in order && fk.target != t ==>
      FkOrder.Edge(g, t, fk.target)
    ensures ParentsFirst(refs, order)
  {
  }

  /**
   Every parent of row `j` of a table is a local row, a changed row of another listed table, or, for a reference
   from the table to itself, this row or one before it.
   */
  ghost predicate Resolved(refs: References, db: Database, order: seq<string>, tables: seq<TableEntry>, table: string,
                           j: nat)
    requires j < |RowsFor(tables, table)|
  {
    forall fk :: fk in RefsOf(refs, table) && Parent(fk, RowsFor(tables, table)[j].content).Some? ==>
      ParentArrives(db, order, tables, table, j, Parent(fk, RowsFor(tables, table)[j].content).value)
  }

  ghost predicate ParentArrives(db: Database, order: seq<string>, tables: seq<TableEntry>, table: string, j: nat,
                                p: Key)
    requires j < |RowsFor(tables, table)|
  {
    || p in db
    || (p.table != table && p.table in order && exists r :: r in RowsFor(tables, p.table) && r.id == p.id)
    || (p.table == table && exists i :: 0 <= i <= j && RowsFor(tables, table)[i].id == p.id)
  }

  /** Row `j` of a table is left alone by the conflict rule, or has all its parents. */
  ghost predicate RowFits(refs: References, db: Database, order: seq<string>, tables: seq<TableEntry>, table: string,
                          j: nat)
    requires j < |RowsFor(tables, table)|
  {
    var s := Upsert(table, RowsFor(tables, table)[j]);
    Protected(Lookup(db, KeyOf(s)), s) || Resolved(refs, db, order, tables, table, j)
  }

  ghost predicate TableFits(refs: References, db: Database, order: seq<string>, tables: seq<TableEntry>,
                            table: string)
  {
    forall j :: 0 <= j < |RowsFor(tables, table)| ==> RowFits(refs, db, order, tables, table, j)
  }

  ghost predicate RowsFit(refs: References, db: Database, order: seq<string>, tables: seq<TableEntry>, n: nat)
    requires n <= |order|
  {
    forall a :: 0 <= a < n ==> TableFits(refs, db, order, tables, order[a])
  }

  lemma PrefixParents(refs: References, db: Database, a: seq<Statement>, b: seq<Statement>, i: nat)
    requires i < |a| + |b|
    ensures i < |a| ==> (HasParentsAt(refs, db, a + b, i) <==> HasParentsAt(refs, db, a, i))
    ensures i >= |a| ==> (a + b)[..i + 1] == a + b[..i - |a| + 1]
  {
    if i < |a| {
      assert (a + b)[..i + 1] == a[..i + 1];
    }
  }

  /** Statement `j` of `b`, run behind `a`, has its parents by its turn. */
  ghost predicate FollowsParents(refs: References, db: Database, a: seq<Statement>, b: seq<Statement>, j: nat)
    requires j < |b|
  {
    HasParentsAt(refs, db, a + b, |a| + j)
  }

  ghost predicate AllFollow(refs: References, db: Database, a: seq<Statement>, b: seq<Statement>) {
    forall j :: 0 <= j < |b| ==> FollowsParents(refs, db, a, b, j)
  }

  /** Row `j` of the last table has its parents by its turn exactly if the row fits. */
  lemma RowHasParents(refs: References, db: Database, order: seq<string>, tables: seq<TableEntry>, n: nat, j: nat)
    requires NoDuplicates(order) && ParentsFirst(refs, order) && n < |order|
    requires j < |RowsFor(tables, order[n])|
    ensures var before, rows := Upserts(order[..n], tables), RowUpserts(order[n], RowsFor(tables, order[n]));
      FollowsParents(refs, db, before, rows, j) <==> RowFits(refs, db, order, tables, order[n], j)
  {
    var table := order[n];
    var incoming := RowsFor(tables, table);
    var before, rows := Upserts(order[..n], tables), RowUpserts(table, incoming);
    var i := |before| + j;
    PrefixParents(refs, db, before, rows, i);
    var arrived := UpsertedKeys((before + rows)[..i + 1]);
    forall fk, p | fk in RefsOf(refs, table) && Parent(fk, incoming[j].content) == Some(p)
      ensures p in db.Keys + arrived <==> ParentArrives(db, order, tables, table, j, p)
    {
      ArrivedByThen(refs, db, order, tables, n, j, fk, p);
    }
  }

  /** What has been upserted by the turn of row `j` of table `n`, that row included. */
  ghost function Before(order: seq<string>, tables: seq<TableEntry>, n: nat, j: nat): seq<Statement>
    requires n < |order| && j < |RowsFor(tables, order[n])|
  {
    Upserts(order[..n], tables) + RowUpserts(order[n], RowsFor(tables, order[n]))[..j + 1]
  }

  lemma UpsertedBefore(order: seq<string>, tables: seq<TableEntry>, n: nat, j: nat, p: Key, r: IncomingRow)
    requires n < |order| && j < |RowsFor(tables, order[n])|
    ensures Upsert(p.table, r) in Before(order, tables, n, j) <==>
      || (p.table in order[..n] && r in RowsFor(tables, p.table))
      || (p.table == order[n] && r in RowsFor(tables, p.table)[..j + 1])
  {
    var rows := RowsFor(tables, order[n]);
    InUpserts(order[..n], tables, Upsert(p.table, r));
    assert forall i :: 0 <= i <= j ==> RowUpserts(order[n], rows)[..j + 1][i] == Upsert(order[n], rows[i]);
    if p.table == order[n] && r in rows[..j + 1] {
      var i :| 0 <= i <= j && rows[i] == r;
      assert RowUpserts(order[n], rows)[..j + 1][i] == Upsert(p.table, r);
    }
  }

  lemma ArrivedSoFar(refs: References, order: seq<string>, tables: seq<TableEntry>, n: nat, j: nat, p: Key)
    requires n < |order| && j < |RowsFor(tables, order[n])|
    ensures p in UpsertedKeys(Before(order, tables, n, j)) <==>
      exists r :: Upsert(p.table, r) in Before(order, tables, n, j) && r.id == p.id
  {
  }

  lemma ArrivedByThen(refs: References, db: Database, order: seq<string>, tables: seq<TableEntry>, n: nat, j: nat,
                      fk: ForeignKey, p: Key)
    requires NoDuplicates(order) && ParentsFirst(refs, order) && n < |order|
    requires j < |RowsFor(tables, order[n])| && fk in RefsOf(refs, order[n]) && p.table == fk.target
    ensures p in UpsertedKeys(Before(order, tables, n, j)) || p in db <==>
      ParentArrives(db, order, tables, order[n], j, p)
  {
    var rows := RowsFor(tables, order[n]);
    ArrivedSoFar(refs, order, tables, n, j, p);
    forall r ensures Upsert(p.table, r) in Before(order, tables, n, j) <==>
      || (p.table in order[..n] && r in RowsFor(tables, p.table))
      || (p.table == order[n] && r in RowsFor(tables, p.table)[..j + 1])
    {
      UpsertedBefore(order, tables, n, j, p, r);
    }
    assert p.table != order[n] && p.table in order ==> p.table in order[..n];
    assert p.table in order[..n] ==> p.table != order[n];
    if p.table == order[n] {
      assert (exists r :: r in rows[..j + 1] && r.id == p.id) <==> exists i :: 0 <= i <= j && rows[i].id == p.id;
    }
  }

  lemma AllHaveParentsConcat(refs: References, db: Database, a: seq<Statement>, b: seq<Statement>)
    ensures AllHaveParents(refs, db, a + b) <==>
      AllHaveParents(refs, db, a) && AllFollow(refs, db, a, b)
  {
    forall i | 0 <= i < |a| ensures HasParentsAt(refs, db, a + b, i) <==> HasParentsAt(refs, db, a, i) {
      PrefixParents(refs, db, a, b, i);
    }
    if AllHaveParents(refs, db, a) && AllFollow(refs, db, a, b) {
      forall i | 0 <= i < |a + b| ensures HasParentsAt(refs, db, a + b, i) {
        if i >= |a| {
          assert FollowsParents(refs, db, a, b, i - |a|);
        }
      }
    }
    if AllHaveParents(refs, db, a + b) {
      forall i | 0 <= i < |a| ensures HasParentsAt(refs, db, a, i) {
        assert HasParentsAt(refs, db, a + b, i);
      }
    }
  }

  /** The rows of the next table have their parents exactly if they fit. */
  lemma NextTableFits(refs: References, db: Database, order: seq<string>, tables: seq<TableEntry>, n: nat)
    requires NoDuplicates(order) && ParentsFirst(refs, order) && n < |order|
    ensures AllFollow(refs, db, Upserts(order[..n], tables), RowUpserts(order[n], RowsFor(tables, order[n]))) <==>
      TableFits(refs, db, order, tables, order[n])
  {
    var before, rows := Upserts(order[..n], tables), RowUpserts(order[n], RowsFor(tables, order[n]));
    forall j | 0 <= j < |rows|
      ensures FollowsParents(refs, db, before, rows, j) <==> RowFits(refs, db, order, tables, order[n], j)
    {
      RowHasParents(refs, db, order, tables, n, j);
    }
  }

  lemma UpsertsNext(order: seq<string>, tables: seq<TableEntry>, n: nat)
    requires n < |order|
    ensures Upserts(order[..n + 1], tables) ==
      Upserts(order[..n], tables) + RowUpserts(order[n], RowsFor(tables, order[n]))
  {
    assert order[..n + 1][..n] == order[..n];
  }

  lemma {:induction false} UpsertsFit(refs: References, db: Database, order: seq<string>, tables: seq<TableEntry>,
                                      n: nat)
    requires NoDuplicates(order) && ParentsFirst(refs, order) && n <= |order|
    ensures AllHaveParents(refs, db, Upserts(order[..n], tables)) <==> RowsFit(refs, db, order, tables, n)
  {
    if n > 0 {
      var m := n - 1;
      UpsertsFit(refs, db, order, tables, m);
      UpsertsNext(order, tables, m);
      AllHaveParentsConcat(refs, db, Upserts(order[..m], tables), RowUpserts(order[m], RowsFor(tables, order[m])));
      NextTableFits(refs, db, order, tables, m);
    }
  }

  /**
   On a local database without dangling references, the batch of a response goes through exactly if every changed
   row that the conflict rule does not ignore has its parents among the local rows and the changed rows; then no row
   is skipped and no reference dangles afterwards.
   */
  lemma OrderMakesPullSafe(refs: References, db: Database, upsertOrder: seq<string>, deleteOrder: seq<string>,
                           tables: seq<TableEntry>, at: int)
    requires NoDuplicates(upsertOrder) && NoDuplicates(deleteOrder) && EachIdOnce(tables)
    requires ParentsFirst(refs, upsertOrder) && Integrity(refs, db)
    ensures Run(refs, db, Statements(upsertOrder, deleteOrder, tables, at)).Some?
      <==> RowsFit(refs, db, upsertOrder, tables, |upsertOrder|)
    ensures Run(refs, db, Statements(upsertOrder, deleteOrder, tables, at)).Some? ==>
      Integrity(refs, RunSkipping(ExecOn(refs), db, Statements(upsertOrder, deleteOrder, tables, at)))
  {
    var upserts, deletes := Upserts(upsertOrder, tables), Deletes(deleteOrder, tables, at);
    var all := upserts + deletes;
    StatementsDistinct(upsertOrder, deleteOrder, tables, at);
    RunIntegrity(refs, db, all);
    NothingToSkip(ExecOn(refs), db, all);
    assert upsertOrder[..|upsertOrder|] == upsertOrder;
    UpsertsFit(refs, db, upsertOrder, tables, |upsertOrder|);
    forall i | 0 <= i < |all|
      ensures i < |upserts| ==> (HasParentsAt(refs, db, all, i) <==> HasParentsAt(refs, db, upserts, i))
      ensures i >= |upserts| ==> HasParentsAt(refs, db, all, i)
    {
      PrefixParents(refs, db, upserts, deletes, i);
      if i >= |upserts| {
        assert all[i] in deletes;
        InDeletes(deleteOrder, tables, at, all[i]);
      }
    }
  }

  /** A child listed before the parent it names in its own table is skipped, although the parent arrives with it. */
  lemma SelfReferenceOutOfOrder()
    ensures var refs := map["nodes" := [ForeignKey("parent_id", "nodes")]];
      var child := IncomingRow("c", map["parent_id" := Schema.Text("p")], 1, None);
      var parent := IncomingRow("p", map[], 1, None);
      var tables := [TableEntry("nodes", [child, parent], [])];
      EachIdOnce(tables) && Run(refs, map[], Statements(["nodes"], ["nodes"], tables, 2)).None?
  {
    var refs := map["nodes" := [ForeignKey("parent_id", "nodes")]];
    var child := IncomingRow("c", map["parent_id" := Schema.Text("p")], 1, None);
    var parent := IncomingRow("p", map[], 1, None);
    var tables := [TableEntry("nodes", [child, parent], [])];
    var statements := Statements(["nodes"], ["nodes"], tables, 2);
    assert tables[1..] == [];
    forall t ensures t != "nodes" ==> RowsFor(tables, t) == [] && IdsFor(tables, t) == [] {
      assert t != "nodes" ==> Find(tables, t) == Find(tables[1..], t);
    }
    assert RowsFor(tables, "nodes") == [child, parent];
    assert ["nodes"][..0] == [];
    assert Upserts(["nodes"], tables) == [] + RowUpserts("nodes", [child, parent]);
    assert statements[0] == Upsert("nodes", child);
    assert ForeignKey("parent_id", "nodes") in RefsOf(refs, "nodes");
    assert Exec(refs, map[], statements[0]) == None;
  }
}
