/**
 Pulls under enforced foreign keys (crates/baresync-core/src/pull.rs, lines 89-113 and 183-194): a row that violates one
 is skipped, and the cursor moves past it all the same.
 */
module SkippedRows {
  import opened Wrappers
  import opened Sequences
  import opened DbWorker
  import opened Store
  import opened SyncSpec
  import opened SyncInvariant
  import Pulling = Pull
  import opened Repository

  // ---------------------------------------------------------------------------------------------
  // What a run that skips does to each row
  // ---------------------------------------------------------------------------------------------

  function Skipping(refs: References, db: Database, statements: seq<Statement>): Database {
    RunSkipping(ExecOn(refs), db, statements)
  }

  /** The database after a statement, or as it was if the statement fails. */
  function Tried(refs: References, db: Database, s: Statement): Database {
    var next := Exec(refs, db, s);
    if next.Some? then next.value else db
  }

  lemma SkippingStep(refs: References, db: Database, statements: seq<Statement>)
    requires statements != []
    ensures Skipping(refs, db, statements) == Skipping(refs, Tried(refs, db, statements[0]), statements[1..])
  {
  }

  /** The statement that addresses the row does not fail when its turn comes. */
  predicate Fits(refs: References, db: Database, statements: seq<Statement>, k: Key)
    decreases |statements|
  {
    statements != [] &&
      if KeyOf(statements[0]) == k then Exec(refs, db, statements[0]).Some?
      else Fits(refs, Tried(refs, db, statements[0]), statements[1..], k)
  }

  lemma {:induction false} Untouched(refs: References, db: Database, statements: seq<Statement>, k: Key)
    requires forall s :: s in statements ==> KeyOf(s) != k
    ensures Lookup(Skipping(refs, db, statements), k) == Lookup(db, k)
    decreases |statements|
  {
    if statements != [] {
      SkippingStep(refs, db, statements);
      Untouched(refs, Tried(refs, db, statements[0]), statements[1..], k);
    }
  }

  /** A row takes the effect of its statement exactly if that fits; if not, it stays as it was. */
  lemma {:induction false} SkippingOutcome(refs: References, db: Database, statements: seq<Statement>, k: Key)
    requires DistinctKeys(statements)
    ensures Lookup(Skipping(refs, db, statements), k) ==
      if Fits(refs, db, statements, k) then Outcome(db, statements, k) else Lookup(db, k)
    decreases |statements|
  {
    if statements != [] {
      SkippingStep(refs, db, statements);
      TailDistinct(statements);
      var head, rest := statements[0], statements[1..];
      if KeyOf(head) == k {
        Untouched(refs, Tried(refs, db, head), rest, k);
      } else {
        SkippingOutcome(refs, Tried(refs, db, head), rest, k);
      }
    }
  }

  lemma {:induction false} SkippingKeepsIntegrity(refs: References, db: Database, statements: seq<Statement>)
    requires Integrity(refs, db)
    ensures Integrity(refs, Skipping(refs, db, statements))
    decreases |statements|
  {
    if statements != [] {
      SkippingStep(refs, db, statements);
      ExecIntegrity(refs, db, statements[0]);
      SkippingKeepsIntegrity(refs, Tried(refs, db, statements[0]), statements[1..]);
    }
  }

  /**
   On a database without dangling references, a statement fits exactly if it is a soft delete, or the conflict rule
   leaves its row alone, or the row has its parents among the rows that are there by its turn.
   */
  lemma {:induction false} FitsIff(refs: References, db: Database, statements: seq<Statement>, i: nat)
    requires DistinctKeys(statements) && Integrity(refs, db) && i < |statements|
    ensures var s := statements[i];
      Fits(refs, db, statements, KeyOf(s)) <==>
        (s.Upsert? && !Protected(Lookup(db, KeyOf(s)), s) ==>
          ParentsIn(refs, Skipping(refs, db, statements[..i]).Keys + {KeyOf(s)}, s.table, s.row.content))
    decreases i
  {
    var head := statements[0];
    ExecIntegrity(refs, db, head);
    if i > 0 {
      var next := Tried(refs, db, head);
      TailDistinct(statements);
      assert KeyOf(statements[i]) != KeyOf(head);
      assert statements[1..][i - 1] == statements[i];
      FitsIff(refs, next, statements[1..], i - 1);
      assert statements[..i][1..] == statements[1..][..i - 1];
      SkippingStep(refs, db, statements[..i]);
    }
  }

  // ---------------------------------------------------------------------------------------------
  // Pulls and what happens in between, as far as one row is concerned
  // ---------------------------------------------------------------------------------------------

  /** The local schema: foreign keys, and the tables of the contract in both orders. */
  datatype Setup = Setup(contract: Contract, refs: References, upsertOrder: seq<string>, deleteOrder: seq<string>)

  ghost predicate SetupOk(setup: Setup) {
    && NoDuplicates(setup.upsertOrder) && NoDuplicates(setup.deleteOrder)
    && forall t :: t in setup.contract.tables ==> t in setup.upsertOrder && t in setup.deleteOrder
  }

  datatype Situation = Situation(client: Client, server: Server)

  /** A pull with the response it gets, or anything else that leaves the row and the cursor alone on the client. */
  datatype Action = PullAgain(start: StartCursor, response: seq<TableEntry>) | Meanwhile

  function StatementsOf(setup: Setup, w: Situation, response: seq<TableEntry>): seq<Statement> {
    Pulling.Statements(setup.upsertOrder, setup.deleteOrder, response, w.server.clock)
  }

  ghost predicate Acts(setup: Setup, k: Key, action: Action, w: Situation, w': Situation) {
    match action
    case PullAgain(start, response) =>
      && w'.server == w.server
      && IsResponse(w.server.rows, setup.contract.tables, StartOf(w.client, start), response)
      && w'.client.rows == Skipping(setup.refs, w.client.rows, StatementsOf(setup, w, response))
      && (if start.Stored? || w.client.cursor.None? then
            w'.client.cursor.Some? && IsLatest(w.server, w'.client.cursor.value)
          else w'.client.cursor == w.client.cursor)
    case Meanwhile =>
      && Advances(setup.contract, w.server, w'.server)
      && Lookup(w'.client.rows, k) == Lookup(w.client.rows, k) && w'.client.cursor == w.client.cursor
  }

  ghost predicate History(setup: Setup, k: Key, worlds: seq<Situation>, actions: seq<Action>) {
    && SetupOk(setup) && |worlds| == |actions| + 1 && ServerOk(setup.contract, worlds[0].server)
    && forall i :: 0 <= i < |actions| ==> Acts(setup, k, actions[i], worlds[i], worlds[i + 1])
  }

  /** The pull brings the row, live. */
  predicate Brings(setup: Setup, k: Key, action: Action, w: Situation) {
    && action.PullAgain? && k.table in setup.contract.tables
    && InDelta(w.server.rows, k, StartOf(w.client, action.start)) && w.server.rows[k].deletedAt.None?
  }

  /** It is not skipped there. */
  predicate Lands(setup: Setup, k: Key, action: Action, w: Situation) {
    Brings(setup, k, action, w) && Fits(setup.refs, w.client.rows, StatementsOf(setup, w, action.response), k)
  }

  lemma DistinctStatements(setup: Setup, w: Situation, ts: nat, response: seq<TableEntry>)
    requires SetupOk(setup) && IsResponse(w.server.rows, setup.contract.tables, ts, response)
    ensures DistinctKeys(StatementsOf(setup, w, response))
  {
    ResponseNamesRowsOnce(w.server.rows, setup.contract.tables, ts, response);
    Pulling.StatementsDistinct(setup.upsertOrder, setup.deleteOrder, response, w.server.clock);
  }

  /** A pull brings a missing row into being exactly if it lands; a row that is there stays there. */
  lemma LandsIff(setup: Setup, k: Key, action: Action, w: Situation, w': Situation)
    requires SetupOk(setup) && Acts(setup, k, action, w, w')
    ensures k in w'.client.rows <==> k in w.client.rows || Lands(setup, k, action, w)
  {
    if action.PullAgain? {
      var ts, statements := StartOf(w.client, action.start), StatementsOf(setup, w, action.response);
      DistinctStatements(setup, w, ts, action.response);
      SkippingOutcome(setup.refs, w.client.rows, statements, k);
      ResponseStatement(w.server, setup.contract.tables, ts, action.response, setup.upsertOrder, setup.deleteOrder, k);
    }
  }

  lemma {:induction false} HistoryOk(setup: Setup, k: Key, worlds: seq<Situation>, actions: seq<Action>, i: nat)
    requires History(setup, k, worlds, actions) && i < |worlds|
    ensures ServerOk(setup.contract, worlds[i].server) && worlds[0].server.clock <= worlds[i].server.clock
    ensures StampsGrow(worlds[0].server, worlds[i].server)
  {
    if i > 0 {
      HistoryOk(setup, k, worlds, actions, i - 1);
      assert Acts(setup, k, actions[i - 1], worlds[i - 1], worlds[i - 1 + 1]);
    }
  }

  ghost predicate LandsAt(setup: Setup, k: Key, worlds: seq<Situation>, actions: seq<Action>, i: nat)
    requires i < |actions| <= |worlds|
  {
    Lands(setup, k, actions[i], worlds[i])
  }

  ghost predicate LandedBy(setup: Setup, k: Key, worlds: seq<Situation>, actions: seq<Action>, n: nat)
    requires n <= |actions| <= |worlds|
  {
    exists i :: 0 <= i < n && LandsAt(setup, k, worlds, actions, i)
  }

  lemma LandedNext(setup: Setup, k: Key, worlds: seq<Situation>, actions: seq<Action>, n: nat)
    requires n < |actions| <= |worlds|
    ensures LandedBy(setup, k, worlds, actions, n + 1) <==>
      LandedBy(setup, k, worlds, actions, n) || LandsAt(setup, k, worlds, actions, n)
  {
  }

  lemma ThereNext(setup: Setup, k: Key, worlds: seq<Situation>, actions: seq<Action>, n: nat)
    requires History(setup, k, worlds, actions) && n < |actions|
    ensures k in worlds[n + 1].client.rows <==> k in worlds[n].client.rows || LandsAt(setup, k, worlds, actions, n)
  {
    LandsIff(setup, k, actions[n], worlds[n], worlds[n + 1]);
  }

  /**
   Over any history of pulls, local work and other writers: a row that is missing at first is there at the end exactly
   if it landed in one of the pulls that brought it.
   */
  lemma {:induction false} ThereIffLanded(setup: Setup, k: Key, worlds: seq<Situation>, actions: seq<Action>, n: nat)
    requires History(setup, k, worlds, actions) && n < |worlds| && k !in worlds[0].client.rows
    ensures k in worlds[n].client.rows <==> LandedBy(setup, k, worlds, actions, n)
  {
    if n > 0 {
      ThereIffLanded(setup, k, worlds, actions, n - 1);
      ThereNext(setup, k, worlds, actions, n - 1);
      LandedNext(setup, k, worlds, actions, n - 1);
    }
  }

  // ---------------------------------------------------------------------------------------------
  // Behind the cursor
  // ---------------------------------------------------------------------------------------------

  /** The cursor is past the row as the server has it. */
  ghost predicate Behind(k: Key, w: Situation) {
    w.client.cursor.Some? && (k in w.server.rows ==> w.server.rows[k].stamp <= w.client.cursor.value)
  }

  ghost predicate MovesCursor(action: Action, w: Situation) {
    action.PullAgain? && (action.start.Stored? || w.client.cursor.None?)
  }

  /** The pulls after the first start from the stored cursor, as those of `sync_now` do. */
  ghost predicate FromStored(actions: seq<Action>) {
    forall i :: 1 <= i < |actions| && actions[i].PullAgain? ==> actions[i].start.Stored?
  }

  /** The server has the row as it had it at first. */
  ghost predicate NotWrittenAgain(k: Key, worlds: seq<Situation>, n: nat)
    requires n < |worlds|
  {
    forall i :: 0 <= i <= n ==> Find(worlds[i].server.rows, k) == Find(worlds[0].server.rows, k)
  }

  lemma {:induction false} StaysBehind(setup: Setup, k: Key, worlds: seq<Situation>, actions: seq<Action>, n: nat)
    requires History(setup, k, worlds, actions) && 1 <= n < |worlds| && MovesCursor(actions[0], worlds[0])
    requires NotWrittenAgain(k, worlds, n)
    ensures Behind(k, worlds[n])
    decreases n
  {
    if n > 1 {
      StaysBehind(setup, k, worlds, actions, n - 1);
    }
    assert Acts(setup, k, actions[n - 1], worlds[n - 1], worlds[n - 1 + 1]);
    assert Find(worlds[n].server.rows, k) == Find(worlds[n - 1].server.rows, k);
  }

  /**
   A row that a pull brings and that is missing is missing for good exactly if it did not fit: as long as the server
   does not write it again, no later pull from the stored cursor brings it, whatever parents arrive meanwhile.
   */
  lemma MissingIffItDidNotFit(setup: Setup, k: Key, worlds: seq<Situation>, actions: seq<Action>, n: nat)
    requires History(setup, k, worlds, actions) && 1 <= n < |worlds| && k !in worlds[0].client.rows
    requires MovesCursor(actions[0], worlds[0]) && Brings(setup, k, actions[0], worlds[0])
    requires FromStored(actions) && NotWrittenAgain(k, worlds, n)
    ensures k !in worlds[n].client.rows <==>
      !Fits(setup.refs, worlds[0].client.rows, StatementsOf(setup, worlds[0], actions[0].response), k)
  {
    ThereIffLanded(setup, k, worlds, actions, n);
    assert Lands(setup, k, actions[0], worlds[0]) <==> LandsAt(setup, k, worlds, actions, 0);
    forall i | 1 <= i < n ensures !LandsAt(setup, k, worlds, actions, i) {
      StaysBehind(setup, k, worlds, actions, i);
      HistoryOk(setup, k, worlds, actions, i);
    }
  }

  /**
   After a pull that moves the cursor, and anything but further pulls, the next pull from the stored cursor brings the
   row again exactly if the server has written it since and left it live.
   */
  lemma BroughtAgainIff(setup: Setup, k: Key, worlds: seq<Situation>, actions: seq<Action>, n: nat)
    requires History(setup, k, worlds, actions) && 1 <= n < |actions| && MovesCursor(actions[0], worlds[0])
    requires (forall i :: 1 <= i < n ==> actions[i].Meanwhile?) && actions[n].PullAgain? && actions[n].start.Stored?
    ensures Brings(setup, k, actions[n], worlds[n]) <==>
      && Find(worlds[n].server.rows, k) != Find(worlds[0].server.rows, k)
      && k in worlds[n].server.rows && worlds[n].server.rows[k].deletedAt.None?
  {
    HistoryOk(setup, k, worlds, actions, n);
    SameCursor(setup, k, worlds, actions, n);
    assert Acts(setup, k, actions[0], worlds[0], worlds[0 + 1]);
    if k in worlds[n].server.rows && worlds[n].server.rows[k].deletedAt.None? {
      var stamp, cursor := worlds[n].server.rows[k].stamp, worlds[n].client.cursor.value;
      assert InDelta(worlds[n].server.rows, k, StartOf(worlds[n].client, Stored)) <==> stamp > cursor;
    }
  }

  lemma {:induction false} SameCursor(setup: Setup, k: Key, worlds: seq<Situation>, actions: seq<Action>, n: nat)
    requires History(setup, k, worlds, actions) && 1 <= n <= |actions| && forall i :: 1 <= i < n ==>
      actions[i].Meanwhile?
    ensures worlds[n].client.cursor == worlds[1].client.cursor
    decreases n
  {
    if n > 1 {
      SameCursor(setup, k, worlds, actions, n - 1);
      assert Acts(setup, k, actions[n - 1], worlds[n - 1], worlds[n - 1 + 1]);
    }
  }

  // ---------------------------------------------------------------------------------------------
  // The order of a response
  // ---------------------------------------------------------------------------------------------

  lemma {:induction false} SkippingKeys(refs: References, db: Database, statements: seq<Statement>)
    ensures Skipping(refs, db, statements).Keys <= db.Keys + UpsertedKeys(statements)
    decreases |statements|
  {
    if statements != [] {
      var head, rest := statements[0], statements[1..];
      SkippingStep(refs, db, statements);
      SkippingKeys(refs, Tried(refs, db, head), rest);
      if Exec(refs, db, head).Some? {
        KeysGrow(refs, db, head);
      }
    }
  }

  /** The upserts of a table follow each other. */
  lemma {:induction false} TableSegment(order: seq<string>, tables: seq<TableEntry>, table: string) returns (start: nat)
    requires table in order
    ensures var rows := Pulling.RowsFor(tables, table);
      && start + |rows| <= |Pulling.Upserts(order, tables)|
      && forall j :: 0 <= j < |rows| ==> Pulling.Upserts(order, tables)[start + j] == Upsert(table, rows[j])
  {
    var rest, last := order[..|order| - 1], order[|order| - 1];
    if last == table {
      start := |Pulling.Upserts(rest, tables)|;
    } else {
      assert order == rest + [last];
      start := TableSegment(rest, tables, table);
    }
  }

  /** A statement whose row needs a missing parent that only a later statement brings does not fit. */
  lemma LaterParent(refs: References, db: Database, statements: seq<Statement>, i: nat, j: nat, fk: ForeignKey)
    requires DistinctKeys(statements) && Integrity(refs, db) && i < j < |statements|
    requires var s, p := statements[i], KeyOf(statements[j]);
      && s.Upsert? && !Protected(Lookup(db, KeyOf(s)), s) && p !in db
      && fk in RefsOf(refs, s.table) && Parent(fk, s.row.content) == Some(p)
    ensures !Fits(refs, db, statements, KeyOf(statements[i]))
  {
    FitsIff(refs, db, statements, i);
    SkippingKeys(refs, db, statements[..i]);
    assert KeyOf(statements[j]) !in UpsertedKeys(statements[..i]);
    assert KeyOf(statements[i]) != KeyOf(statements[j]);
  }

  lemma PlaceOf(rows: ServerRows, k: Key, ts: nat, changed: seq<IncomingRow>, deletedIds: seq<string>) returns (i: nat)
    requires IsBucket(rows, k.table, ts, Bucket(changed, deletedIds)) && InDelta(rows, k, ts) && rows[k].deletedAt.None?
    ensures i < |changed| && changed[i] == Public(k.id, rows[k])
  {
    assert k == Key(k.table, k.id) && IsLive(rows, k, ts, Public(k.id, rows[k]));
    i :| 0 <= i < |changed| && changed[i] == Public(k.id, rows[k]);
  }

  lemma StampedLater(rows: ServerRows, table: string, changed: seq<IncomingRow>, a: nat, b: nat)
    requires LatestFirst(rows, table, changed) && a < |changed| && b < |changed|
    requires StampOf(rows, Key(table, changed[b].id)) < StampOf(rows, Key(table, changed[a].id))
    ensures a < b
  {
  }

  /** Of two rows of a table, the one stamped later has the earlier place. */
  lemma PlacesInOrder(rows: ServerRows, ts: nat, changed: seq<IncomingRow>, deletedIds: seq<string>, k: Key, p: Key)
    returns (a: nat, b: nat)
    requires IsBucket(rows, k.table, ts, Bucket(changed, deletedIds)) && LatestFirst(rows, k.table, changed)
    requires InDelta(rows, k, ts) && rows[k].deletedAt.None? && InDelta(rows, p, ts) && rows[p].deletedAt.None?
    requires p.table == k.table && rows[p].stamp < rows[k].stamp
    ensures a < b < |changed| && changed[a] == Public(k.id, rows[k]) && changed[b] == Public(p.id, rows[p])
  {
    a := PlaceOf(rows, k, ts, changed, deletedIds);
    b := PlaceOf(rows, p, ts, changed, deletedIds);
    assert k == Key(k.table, k.id) && p == Key(p.table, p.id);
    StampedLater(rows, k.table, changed, a, b);
  }

  lemma BucketOf(rows: ServerRows, tables: set<string>, ts: nat, response: seq<TableEntry>, table: string)
    requires IsResponse(rows, tables, ts, response) && table in tables
    ensures IsBucket(rows, table, ts, Bucket(Pulling.RowsFor(response, table), Pulling.IdsFor(response, table)))
  {
  }

  lemma TwoUpserts(order: seq<string>, response: seq<TableEntry>, table: string, a: nat, b: nat)
    returns (i: nat, j: nat)
    requires table in order && a < b < |Pulling.RowsFor(response, table)|
    ensures var upserts, rows := Pulling.Upserts(order, response), Pulling.RowsFor(response, table);
      i < j < |upserts| && upserts[i] == Upsert(table, rows[a]) && upserts[j] == Upsert(table, rows[b])
  {
    var start := TableSegment(order, response, table);
    i, j := start + a, start + b;
  }

  lemma UpsertsInOrder(order: seq<string>, rows: ServerRows, ts: nat, response: seq<TableEntry>, k: Key, p: Key)
    returns (i: nat, j: nat)
    requires var changed, deletedIds := Pulling.RowsFor(response, k.table), Pulling.IdsFor(response, k.table);
      IsBucket(rows, k.table, ts, Bucket(changed, deletedIds)) && LatestFirst(rows, k.table, changed)
    requires InDelta(rows, k, ts) && rows[k].deletedAt.None? && InDelta(rows, p, ts) && rows[p].deletedAt.None?
    requires p.table == k.table && rows[p].stamp < rows[k].stamp && k.table in order
    ensures var upserts := Pulling.Upserts(order, response);
      && i < j < |upserts|
      && upserts[i] == Upsert(k.table, Public(k.id, rows[k])) && upserts[j] == Upsert(p.table, Public(p.id, rows[p]))
  {
    var changed, deletedIds := Pulling.RowsFor(response, k.table), Pulling.IdsFor(response, k.table);
    var a, b := PlacesInOrder(rows, ts, changed, deletedIds, k, p);
    i, j := TwoUpserts(order, response, k.table, a, b);
  }

  /**
   A response lists the latest rows first. So a row that refers to an older row of its own table does not fit if both
   are news and the older one is missing: it comes ahead of its parent, whatever the table order.
   */
  lemma YoungerChildIsSkipped(setup: Setup, k: Key, p: Key, fk: ForeignKey, action: Action, w: Situation)
    requires SetupOk(setup) && Integrity(setup.refs, w.client.rows)
    requires Brings(setup, k, action, w) && Brings(setup, p, action, w)
    requires IsResponse(w.server.rows, setup.contract.tables, StartOf(w.client, action.start), action.response)
    requires LatestFirst(w.server.rows, k.table, Pulling.RowsFor(action.response, k.table))
    requires p.table == k.table && w.server.rows[p].stamp < w.server.rows[k].stamp && p !in w.client.rows
    requires fk in RefsOf(setup.refs, k.table) && Parent(fk, w.server.rows[k].content) == Some(p)
    requires !Protected(Lookup(w.client.rows, k), StatementOf(k, w.server.rows[k], w.server.clock))
    ensures !Fits(setup.refs, w.client.rows, StatementsOf(setup, w, action.response), k)
  {
    var rows, ts := w.server.rows, StartOf(w.client, action.start);
    var statements := StatementsOf(setup, w, action.response);
    DistinctStatements(setup, w, ts, action.response);
    BucketOf(rows, setup.contract.tables, ts, action.response, k.table);
    var i, j := UpsertsInOrder(setup.upsertOrder, rows, ts, action.response, k, p);
    assert statements[i] == Pulling.Upserts(setup.upsertOrder, action.response)[i];
    assert statements[j] == Pulling.Upserts(setup.upsertOrder, action.response)[j];
    LaterParent(setup.refs, w.client.rows, statements, i, j, fk);
  }

  /** And so it stays missing, at every later point, as long as the server does not write it again. */
  lemma YoungerChildStaysMissing(setup: Setup, k: Key, p: Key, fk: ForeignKey, worlds: seq<Situation>,
                                 actions: seq<Action>, n: nat)
    requires History(setup, k, worlds, actions) && 1 <= n < |worlds| && Integrity(setup.refs, worlds[0].client.rows)
    requires MovesCursor(actions[0], worlds[0]) && FromStored(actions) && NotWrittenAgain(k, worlds, n)
    requires Brings(setup, k, actions[0], worlds[0]) && Brings(setup, p, actions[0], worlds[0])
    requires LatestFirst(worlds[0].server.rows, k.table, Pulling.RowsFor(actions[0].response, k.table))
    requires var (client, server) := (worlds[0].client, worlds[0].server);
      && p.table == k.table && server.rows[p].stamp < server.rows[k].stamp
      && p !in client.rows && k !in client.rows
      && fk in RefsOf(setup.refs, k.table) && Parent(fk, server.rows[k].content) == Some(p)
    ensures k !in worlds[n].client.rows
  {
    assert Acts(setup, k, actions[0], worlds[0], worlds[0 + 1]);
    YoungerChildIsSkipped(setup, k, p, fk, actions[0], worlds[0]);
    MissingIffItDidNotFit(setup, k, worlds, actions, n);
  }
}
