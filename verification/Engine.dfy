/**
 The sync engine (crates/baresync-core/src/engine.rs, with pull.rs, push.rs and gc.rs underneath): a client's database,
 outbox and cursor against a server's repository and push handler. Every operation does what SyncSpec says it does.
 */
module Engine {
  import opened Wrappers
  import opened Sequences
  import opened DbWorker
  import opened Store
  import opened SyncSpec
  import Pulling = Pull
  import opened Repository
  import opened PushHandler
  import opened Planning
  import opened Requests
  import Answers
  import Outbox
  import SyncInvariant

  /** The tables of a contract in some order, each once. */
  ghost predicate Lists(order: seq<string>, tables: set<string>) {
    NoDuplicates(order) && forall t :: t in order <==> t in tables
  }

  // ---------------------------------------------------------------------------------------------
  // A response applied to the local rows
  // ---------------------------------------------------------------------------------------------

  const NO_REFERENCES: References := map[]

  lemma {:induction false} NothingFails(db: Database, statements: seq<Statement>)
    ensures Run(NO_REFERENCES, db, statements).Some?
    decreases |statements|
  {
    if statements != [] {
      RunStep(NO_REFERENCES, db, statements);
      NothingFails(Exec(NO_REFERENCES, db, statements[0]).value, statements[1..]);
    }
  }

  lemma AppliedIsPulled(db: Database, s: Server, tables: set<string>, ts: nat, response: seq<TableEntry>,
                        upsertOrder: seq<string>, deleteOrder: seq<string>, k: Key)
    requires NoDuplicates(upsertOrder) && NoDuplicates(deleteOrder)
    requires forall t :: t in tables ==> t in upsertOrder && t in deleteOrder
    requires IsResponse(s.rows, tables, ts, response)
    ensures
      var statements := Pulling.Statements(upsertOrder, deleteOrder, response, s.clock);
      Lookup(RunSkipping(ExecOn(NO_REFERENCES), db, statements), k) == Pulled(Lookup(db, k), k, s, ts, tables)
  {
    var statements := Pulling.Statements(upsertOrder, deleteOrder, response, s.clock);
    NothingFails(db, statements);
    NothingToSkip(ExecOn(NO_REFERENCES), db, statements);
    ResponseNamesRowsOnce(s.rows, tables, ts, response);
    Pulling.StatementsDistinct(upsertOrder, deleteOrder, response, s.clock);
    RunOutcome(NO_REFERENCES, db, statements, k);
    ResponseStatement(s, tables, ts, response, upsertOrder, deleteOrder, k);
  }

  /** Applying a response, moving the cursor if it may, and recording what came is a pull. */
  lemma AppliedIsPullStep(contract: Contract, c: Client, s: Server, start: StartCursor, tables: set<string>,
                          response: seq<TableEntry>, upsertOrder: seq<string>, deleteOrder: seq<string>, latest: nat,
                          next: Client)
    requires Lists(upsertOrder, contract.tables) && Lists(deleteOrder, contract.tables) && tables <= contract.tables
    requires IsResponse(s.rows, tables, StartOf(c, start), response) && IsLatest(s, latest)
    requires forall k :: k in c.rows ==> k.table in contract.tables
    requires next == Client(
      RunSkipping(ExecOn(NO_REFERENCES), c.rows, Pulling.Statements(upsertOrder, deleteOrder, response, s.clock)),
      c.pending, if start.Stored? || c.cursor.None? then Some(latest) else c.cursor,
      c.delivered + Deliveries(s, StartOf(c, start), tables), c.nextId)
    ensures PullStep(c, s, start, tables, next)
    ensures forall k :: k in next.rows ==> k.table in contract.tables
  {
    var ts := StartOf(c, start);
    forall k
      ensures Lookup(next.rows, k) == Pulled(Lookup(c.rows, k), k, s, ts, tables)
      ensures k in next.rows ==> k.table in contract.tables
    {
      AppliedIsPulled(c.rows, s, tables, ts, response, upsertOrder, deleteOrder, k);
    }
  }

  // ---------------------------------------------------------------------------------------------
  // Reading the outbox
  // ---------------------------------------------------------------------------------------------

  predicate Sendable(c: Client, k: Key) {
    k in c.pending && !Orphan(c, k)
  }

  /** What is still pending is pending as before. */
  ghost predicate Kept(pending: map<Key, Pending>, before: map<Key, Pending>) {
    forall k :: k in pending ==> k in before && pending[k] == before[k]
  }

  /** Entries of the tables read so far are gone or listed; those of the next table are as they were. */
  lemma NextTable(c: Client, now: Client, outgoing: seq<Key>, sendable: seq<Key>, order: seq<string>, i: nat)
    requires NoDuplicates(order) && i < |order| && now.rows == c.rows
    requires NoDuplicates(outgoing) && NoDuplicates(sendable)
    requires forall k :: k in outgoing <==> Sendable(c, k) && k.table in order[..i]
    requires forall k :: k in now.pending <==> k in c.pending && !(Orphan(c, k) && k.table in order[..i])
    requires Kept(now.pending, c.pending)
    requires forall k :: k in sendable <==> Sendable(now, k) && k.table == order[i]
    ensures NoDuplicates(outgoing + sendable)
    ensures forall k :: k in outgoing + sendable <==> Sendable(c, k) && k.table in order[..i + 1]
    ensures forall k :: k in c.pending && k.table == order[i] ==>
      k in now.pending && (Orphan(now, k) <==> Orphan(c, k))
  {
  }

  // ---------------------------------------------------------------------------------------------
  // Marking
  // ---------------------------------------------------------------------------------------------

  /** Keys of `sent` in those of the first `n` tables that hold an accepted key. */
  ghost function MarkedUpTo(order: seq<string>, n: nat, sent: set<Key>, accepted: set<Key>): set<Key>
    requires n <= |order|
  {
    set k | k in sent && k.table in order[..n] && HoldsAccepted(accepted, k.table)
  }

  ghost predicate HoldsAccepted(accepted: set<Key>, table: string) {
    exists a :: a in accepted && a.table == table
  }

  ghost predicate RowsMarked(rows: Database, before: Database, keys: set<Key>) {
    forall k :: Lookup(rows, k) == Marked(Lookup(before, k), k in keys)
  }

  ghost predicate MarksUpTo(order: seq<string>, n: nat, sent: set<Key>, accepted: set<Key>, c: Client, now: Client)
    requires n <= |order|
  {
    && now.pending == c.pending - MarkedUpTo(order, n, sent, accepted)
    && RowsMarked(now.rows, c.rows, set k | k in accepted && k.table in order[..n])
  }

  lemma MarkedUpToNext(order: seq<string>, i: nat, sent: set<Key>, accepted: set<Key>, c: Client, now: Client,
                       next: Client)
    requires i < |order| && accepted <= sent && MarksUpTo(order, i, sent, accepted, c, now)
    requires next.pending == now.pending - set k | k in sent && k.table == order[i] && HoldsAccepted(accepted, order[i])
    requires RowsMarked(next.rows, now.rows, set k | k in accepted && k.table == order[i] && k !in next.pending)
    ensures MarksUpTo(order, i + 1, sent, accepted, c, next)
  {
  }

  /** The synced tombstones of the given tables are gone, the other rows are as they were. */
  ghost predicate CollectedIn(rows: Database, before: Database, tables: seq<string>) {
    forall k :: Lookup(rows, k) == if k.table in tables then Collected(Lookup(before, k)) else Lookup(before, k)
  }

  lemma CollectedAlso(first: Database, mid: Database, last: Database, tables: seq<string>, table: string)
    requires CollectedIn(mid, first, tables) && CollectedIn(last, mid, [table])
    ensures CollectedIn(last, first, tables + [table])
  {
  }

  lemma NothingSent(contract: Contract, c: Client, s: Server, refused: set<Key>)
    ensures HandledUpTo(contract, c, s, Dispatch([], refused), 0, s, {})
    ensures Outgoing(contract, c) == {} ==> Divides([], Outgoing(contract, c))
  {
  }

  /** A row that was accepted has nothing pending any more. */
  lemma AllMarked(contract: Contract, c: Client, order: seq<string>, accepted: set<Key>, next: Client)
    requires Lists(order, contract.tables) && accepted <= Outgoing(contract, c)
    requires next.cursor == c.cursor && next.delivered == c.delivered && next.nextId == c.nextId
    requires next.pending ==
      c.pending - Quarantined(contract, c) - MarkedUpTo(order, |order|, Outgoing(contract, c), accepted)
    requires RowsMarked(next.rows, c.rows, set k | k in accepted && k.table in order)
    ensures ClientMarks(contract, c, accepted, next)
  {
  }

  /** The rows of a contract's tables are all the rows there are. */
  lemma CollectedAll(contract: Contract, c: Client, next: Client, order: seq<string>)
    requires CollectedIn(next.rows, c.rows, order) && next == c.(rows := next.rows)
    requires forall k :: k in c.rows ==> k.table in order
    ensures GcStep(c, next)
    ensures forall k :: k in next.rows ==> k.table in order
  {
  }

  /** What the server accepted is among what was sent. */
  lemma SentIsOutgoing(contract: Contract, c: Client, s: Server, d: Dispatch, outgoing: seq<Key>, accepted: set<Key>)
    requires Divides(d.requests, Outgoing(contract, c)) && forall k :: k in outgoing <==> k in Outgoing(contract, c)
    requires accepted ==
      Written(c, s, d.requests[..|d.requests|], d.refused) + Replayed(c, s, d.requests[..|d.requests|])
    ensures Elements(outgoing) == Outgoing(contract, c) && accepted <= Outgoing(contract, c)
    ensures accepted == Accepted(c, s, d)
  {
  }

  /** A push whose requests were all handled and whose tables are all marked. */
  lemma PushDone(contract: Contract, c: Client, s: Server, d: Dispatch, order: seq<string>, accepted: set<Key>,
                 s': Server,
                 next: Client)
    requires Lists(order, contract.tables) && Answers.IdsOk(c, s)
    requires Divides(d.requests, Outgoing(contract, c)) && HandledUpTo(contract, c, s, d, |d.requests|, s', accepted)
    requires accepted == Accepted(c, s, d) && accepted <= Outgoing(contract, c)
    requires next.cursor == c.cursor && next.delivered == c.delivered && next.nextId == c.nextId
    requires next.pending ==
      c.pending - Quarantined(contract, c) - MarkedUpTo(order, |order|, Outgoing(contract, c), accepted)
    requires RowsMarked(next.rows, c.rows, set k | k in accepted && k.table in order)
    ensures PushStep(contract, c, s, d, next, s') && Answers.IdsOk(next, s')
    ensures forall k :: k in next.rows ==> k in c.rows
  {
    AllMarked(contract, c, order, accepted, next);
    forall k | k in next.rows ensures k in c.rows {
      assert Lookup(next.rows, k) == Marked(Lookup(c.rows, k), k in accepted && k.table in order);
    }
    assert d.requests[..|d.requests|] == d.requests;
    PushKeepsIds(contract, c, s, d, |d.requests|, s', next);
  }

  lemma NamesRejected(contract: Contract, c: Client, s: Server, d: Dispatch, order: seq<string>, names: seq<string>)
    requires Lists(order, contract.tables)
    requires forall t :: t in names <==>
      t in order && exists k :: k in Outgoing(contract, c) - Accepted(c, s, d) && k.table == t
    ensures forall t :: t in names <==> t in RejectedTables(contract, c, s, d)
  {
  }

  lemma PushKeepsIds(contract: Contract, c: Client, s: Server, d: Dispatch, handled: nat, s': Server, next: Client)
    requires Answers.IdsOk(c, s) && handled <= |d.requests| &&
      Handles(contract, c, s, d.requests[..handled], d.refused, s')
    requires next.nextId == c.nextId && forall k :: k in next.pending ==>
      k in c.pending && next.pending[k] == c.pending[k]
    ensures Answers.IdsOk(next, s')
  {
  }

  // ---------------------------------------------------------------------------------------------
  // Which tables a pull asks for
  // ---------------------------------------------------------------------------------------------

  lemma AskedAll(names: seq<string>, order: seq<string>, tables: set<string>)
    requires (forall t :: t in names <==> t in tables) && Lists(order, tables)
    ensures AskedOf(names, order) == tables
  {
  }

  /** The tables that a status names are the changed ones. */
  lemma AskedChanged(contract: Contract, s: Server, ts: nat, names: seq<string>, changed: seq<string>)
    requires forall t :: t in names <==> t in contract.tables
    requires forall t :: t in changed <==> t in names && HasDelta(s.rows, t, ts)
    ensures changed != [] <==> ChangedTables(contract, s, ts) != {}
    ensures changed != [] ==> AskedOf(names, changed) == ChangedTables(contract, s, ts)
  {
    assert forall t :: t in changed <==> t in ChangedTables(contract, s, ts);
    if changed != [] {
      assert changed[0] in changed;
    }
  }

  lemma AskedRejected(contract: Contract, c: Client, s: Server, d: Dispatch, names: seq<string>, rejected: seq<string>)
    requires forall t :: t in names <==> t in contract.tables
    requires forall t :: t in rejected <==> t in RejectedTables(contract, c, s, d)
    ensures rejected != [] <==> RejectedTables(contract, c, s, d) != {}
    ensures rejected != [] ==> AskedOf(names, rejected) == RejectedTables(contract, c, s, d)
  {
    if rejected != [] {
      assert rejected[0] in rejected;
    }
  }

  lemma IsPushAndSettle(contract: Contract, c: Client, s: Server, d: Dispatch, names: seq<string>,
                        rejected: seq<string>,
                        pushed: Client, s': Server, settled: Client, next: Client)
    requires PushStep(contract, c, s, d, pushed, s')
    requires forall t :: t in names <==> t in contract.tables
    requires forall t :: t in rejected <==> t in RejectedTables(contract, c, s, d)
    requires if rejected == [] then settled == pushed
             else PullStep(pushed, s', Baseline, AskedOf(names, rejected), settled)
    requires GcStep(settled, next)
    ensures PushAndSettle(contract, c, s, d, next, s')
  {
    AskedRejected(contract, c, s, d, names, rejected);
  }

  /** What a mode does to the tables it is told about. */
  ghost predicate Does(contract: Contract, c: Client, s: Server, d: Dispatch, mode: Mode, tables: set<string>,
                       next: Client, s': Server)
  {
    match mode
    case NoOp => next == c && s' == s && d.requests == []
    case PushOnly => PushAndSettle(contract, c, s, d, next, s')
    case PullOnly => PullOnlyStep(c, s, tables, next) && s' == s && d.requests == []
    case FullSync => FullSyncStep(contract, c, s, s, tables, d, next, s')
    case FullResync => FullResyncStep(contract, c, s, s, d, next, s')
  }

  /** How a mode stops at a 409. */
  ghost predicate StopsOn(contract: Contract, c: Client, s: Server, d: Dispatch, handled: nat, mode: Mode,
                          tables: set<string>, next: Client, s': Server)
  {
    match mode
    case NoOp => false
    case PullOnly => false
    case PushOnly => PushStopsStep(contract, c, s, d, handled, next, s')
    case FullSync => PullThenStops(contract, c, s, Stored, tables, d, handled, next, s')
    case FullResync => PullThenStops(contract, c, s, Baseline, contract.tables, d, handled, next, s')
  }

  ghost predicate PullThenStops(contract: Contract, c: Client, s: Server, start: StartCursor, tables: set<string>,
                                d: Dispatch, handled: nat, next: Client, s': Server)
  {
    exists pulled ::
      PullStep(c, s, start, tables, pulled) && PushStopsStep(contract, pulled, s, d, handled, next, s')
  }

  lemma IsSyncNow(contract: Contract, c: Client, s: Server, d: Dispatch, mode: Mode, tables: set<string>,
                  next: Client, s': Server)
    requires mode == ModeOf(contract, c, s) && Does(contract, c, s, d, mode, tables, next, s')
    requires mode == PullOnly || mode == FullSync ==> tables == ChangedTables(contract, s, c.cursor.value)
    ensures SyncNowStep(contract, c, s, s, d, next, s')
  {
  }

  lemma IsStoppedSyncNow(contract: Contract, c: Client, s: Server, d: Dispatch, handled: nat, mode: Mode,
                         tables: set<string>, next: Client, s': Server)
    requires mode == ModeOf(contract, c, s) && StopsOn(contract, c, s, d, handled, mode, tables, next, s')
    requires mode == FullSync ==> tables == ChangedTables(contract, s, c.cursor.value)
    ensures SyncNowStops(contract, c, s, s, d, handled, next, s')
  {
    if mode == PushOnly {
      assert PullsFirst(contract, c, s, c);
    }
  }

  // ---------------------------------------------------------------------------------------------
  // The engine
  // ---------------------------------------------------------------------------------------------

  class SyncEngine {
    const contract: Contract
    const upsertOrder: seq<string>
    const deleteOrder: seq<string>
    const plan: Plan
    const endpoint: PushEndpoint
    const connection: Connection<Database, Statement>
    var pending: map<Key, Pending>
    var nextId: nat
    var cursor: Option<nat>
    ghost var delivered: set<(Key, nat)>

    ghost predicate Valid()
      reads this, endpoint, endpoint.repository, connection
    {
      && connection.exec == ExecOn(NO_REFERENCES)
      && endpoint.Valid() && endpoint.repository.Tables() == contract.tables
      && Lists(upsertOrder, contract.tables) && Lists(deleteOrder, contract.tables)
      && IsPlan(plan)
      && (forall k :: k in connection.db ==> k.table in contract.tables)
      && Answers.IdsOk(Me(), endpoint.State())
    }

    /** The client as SyncSpec looks at it. */
    ghost function Me(): Client
      reads this, connection
    {
      Client(connection.db, pending, cursor, delivered, nextId)
    }

    ghost function Refused(): set<Key>
      reads this
    {
      set k | k in pending && endpoint.refuse(k)
    }

    constructor (contract: Contract, upsertOrder: seq<string>, deleteOrder: seq<string>, plan: Plan,
                 endpoint: PushEndpoint)
      requires endpoint.Valid() && endpoint.repository.Tables() == contract.tables && IsPlan(plan)
      requires endpoint.answers == map[]
      requires Lists(upsertOrder, contract.tables) && Lists(deleteOrder, contract.tables)
      ensures Valid() && fresh(connection) && this.contract == contract && this.endpoint == endpoint
      ensures Me() == Client(map[], map[], None, {}, 0)
    {
      this.contract, this.upsertOrder, this.deleteOrder := contract, upsertOrder, deleteOrder;
      this.plan, this.endpoint := plan, endpoint;
      connection := new Connection(ExecOn(NO_REFERENCES), map[]);
      pending, nextId, cursor, delivered := map[], 0, None, {};
    }

    /** `writeLocalChange`: the application's own write, which may remove the row, then its outbox entry. */
    method WriteLocalChange(k: Key, row: Option<LocalRow>, operation: Operation)
      requires Valid() && k.table in contract.tables && !operation.Delete?
      requires row.Some? ==> SyncInvariant.HasColumns(contract, k, row.value)
      modifies this, connection
      ensures Valid()
      ensures var recorded :=
          if k in old(pending) then Outbox.InPlace(old(pending)[k].operation, operation) else operation;
        SyncInvariant.LocalWrite(contract, old(Me()), k, row, recorded, Me())
    {
      connection.db := SyncInvariant.WithRow(connection.db, k, row);
      if k in pending {
        pending := pending[k := Pending(pending[k].id, Outbox.InPlace(pending[k].operation, operation))];
      } else {
        pending := pending[k := Pending(nextId, operation)];
        nextId := nextId + 1;
      }
      ghost var recorded :=
        if k in old(pending) then Outbox.InPlace(old(pending)[k].operation, operation) else operation;
      Answers.LocalWriteKeepsIds(contract, old(Me()), endpoint.State(), k, row, recorded, Me());
    }

    /** `pull`: asks for the news of the given tables, or of all, applies it, and moves the cursor if it may. */
    method Pull(start: StartCursor, filter: Option<seq<string>>)
      requires Valid()
      modifies this, connection
      ensures Valid() && connection.open == old(connection.open)
      ensures PullStep(old(Me()), endpoint.State(), start,
                       endpoint.repository.Asked(if filter.Some? then filter.value else upsertOrder), Me())
    {
      var repository := endpoint.repository;
      var ts := if start.Stored? && cursor.Some? then cursor.value else 0;
      var requested := if filter.Some? then filter.value else upsertOrder;
      var response, latest := repository.LoadPullChanges(requested, ts);
      var applied :=
        Pulling.ApplyPullBatchTables(connection, upsertOrder, deleteOrder, response, repository.clock, true);
      if start.Stored? {
        cursor := Some(latest);
      } else if cursor.None? {
        cursor := Some(latest);
      }
      ghost var s, tables := endpoint.State(), repository.Asked(requested);
      delivered := delivered + Deliveries(s, ts, tables);
      AppliedIsPullStep(contract, old(Me()), s, start, tables, response, upsertOrder, deleteOrder, latest, Me());
    }

    /** The pending rows of a table that can be sent; entries without their row are marked as synced. */
    method ReadUnsynced(table: string) returns (sendable: seq<Key>)
      modifies `pending
      ensures NoDuplicates(sendable)
      ensures forall k :: k in sendable <==> Sendable(old(Me()), k) && k.table == table
      ensures forall k :: k in pending <==> k in old(pending) && !(Orphan(old(Me()), k) && k.table == table)
      ensures Kept(pending, old(pending))
    {
      sendable := [];
      var left := pending.Keys;
      while left != {}
        invariant left <= pending.Keys && Kept(pending, old(pending))
        invariant NoDuplicates(sendable) && forall k :: k in sendable ==> k !in left
        invariant forall k :: k in sendable <==> Sendable(old(Me()), k) && k !in left && k.table == table
        invariant forall k :: k in pending <==>
          k in old(pending) && (k in left || !(Orphan(old(Me()), k) && k.table == table))
        decreases |left|
      {
        var k :| k in left;
        left := left - {k};
        if k.table == table {
          if k !in connection.db && !pending[k].operation.Delete? {
            pending := pending - {k};
          } else {
            sendable := sendable + [k];
          }
        }
      }
    }

    /** All rows that can be sent, table by table in upsert order. */
    method ReadOutbox() returns (outgoing: seq<Key>)
      requires Lists(upsertOrder, contract.tables)
      modifies `pending
      ensures NoDuplicates(outgoing) && forall k :: k in outgoing <==> k in Outgoing(contract, old(Me()))
      ensures pending == old(pending) - Quarantined(contract, old(Me()))
    {
      outgoing := [];
      ghost var c := Me();
      for i := 0 to |upsertOrder|
        invariant NoDuplicates(outgoing)
        invariant forall k :: k in outgoing <==> Sendable(c, k) && k.table in upsertOrder[..i]
        invariant forall k :: k in pending <==> k in c.pending && !(Orphan(c, k) && k.table in upsertOrder[..i])
        invariant Kept(pending, c.pending)
      {
        var table := upsertOrder[i];
        ghost var before := Me();
        var sendable := ReadUnsynced(table);
        NextTable(c, before, outgoing, sendable, upsertOrder, i);
        outgoing := outgoing + sendable;
      }
      assert upsertOrder[..|upsertOrder|] == upsertOrder;
    }

    /** The envelope of a request: its rows as they are, under the ids of their entries. */
    method BuildEnvelope(request: Request) returns (ids: set<nat>, body: Body)
      ensures ids == IdsOf(pending, request) && body == BodyOf(contract, connection.db, request)
    {
      ids, body := {}, [];
      for i := 0 to |request|
        invariant ids == IdsOf(pending, request[..i]) && body == BodyOf(contract, connection.db, request[..i])
      {
        var k := request[i];
        assert request[..i + 1] == request[..i] + [k];
        if k in pending {
          ids := ids + {pending[k].id};
        }
        body := body + [Item(k, PayloadOf(contract, if k in connection.db then Some(connection.db[k]) else None))];
      }
      assert request[..|request|] == request;
    }

    /** The next request of a push, which started from `c` and `s`; there is no reply if it meets a 409. */
    method SendNext(ghost c: Client, ghost s: Server, ghost d: Dispatch, requests: seq<Request>, i: nat,
                    ghost accepted: set<Key>)
      returns (reply: Option<set<Key>>)
      requires endpoint.Valid() && endpoint.repository.Tables() == contract.tables
      requires d == Dispatch(requests, set k | k in c.pending && endpoint.refuse(k)) && i < |requests|
      requires Answers.IdsOk(c, s) && c.rows == connection.db && pending == c.pending - Quarantined(contract, c)
      requires Divides(requests, Outgoing(contract, c)) && NoDuplicates(requests[i])
      requires HandledUpTo(contract, c, s, d, i, endpoint.State(), accepted)
      modifies endpoint, endpoint.repository
      ensures endpoint.Valid()
      ensures reply.None? ==> endpoint.State() == old(endpoint.State()) && Conflicts(contract, c, s, requests[i])
      ensures reply.Some? ==>
        HandledUpTo(contract, c, s, d, i + 1, endpoint.State(), accepted + set k | k in requests[i] && k in reply.value)
    {
      var r := requests[i];
      ghost var mid := endpoint.State();
      var ids, body := BuildEnvelope(r);
      RequestIsOutgoing(contract, c, requests, i);
      BodyItems(contract, connection.db, r);
      AnsweredFromTheStart(contract, c, s, d, i, mid, accepted);
      ghost var taken;
      reply, taken := endpoint.Handle(ids, body);
      if reply.Some? {
        HandledNext(contract, c, s, d, i, mid, accepted, taken, reply.value, endpoint.State());
      }
    }

    /** The requests of a push, one after the other, until one meets a 409. `c` is the client before the push. */
    method SendAll(ghost c: Client, ghost d: Dispatch, requests: seq<Request>)
      returns (ok: bool, accepted: set<Key>, ghost handled: nat)
      requires endpoint.Valid() && endpoint.repository.Tables() == contract.tables
      requires d == Dispatch(requests, set k | k in c.pending && endpoint.refuse(k))
      requires Answers.IdsOk(c, endpoint.State()) && c.rows == connection.db
      requires pending == c.pending - Quarantined(contract, c)
      requires Divides(requests, Outgoing(contract, c)) && forall r :: r in requests ==> NoDuplicates(r)
      modifies endpoint, endpoint.repository
      ensures endpoint.Valid()
      ensures handled <= |requests| &&
        HandledUpTo(contract, c, old(endpoint.State()), d, handled, endpoint.State(), accepted)
      ensures if ok then handled == |requests|
              else handled < |requests| && Conflicts(contract, c, old(endpoint.State()), requests[handled])
    {
      accepted := {};
      ghost var s := endpoint.State();
      for i := 0 to |requests|
        invariant endpoint.Valid() && HandledUpTo(contract, c, s, d, i, endpoint.State(), accepted)
      {
        var reply := SendNext(c, s, d, requests, i, accepted);
        if reply.None? {
          return false, accepted, i;
        }
        accepted := accepted + (set k | k in requests[i] && k in reply.value);
      }
      return true, accepted, |requests|;
    }

    /** Marks what was sent for a table, if any of its rows was accepted, and then the accepted rows. */
    method MarkTable(table: string, sent: set<Key>, accepted: set<Key>)
      modifies `pending, connection
      ensures pending == old(pending) - set k | k in sent && k.table == table && HoldsAccepted(accepted, table)
      ensures RowsMarked(connection.db, old(connection.db), set k | k in accepted && k.table == table && k !in pending)
    {
      if exists a :: a in accepted && a.table == table {
        pending := pending - set k | k in sent && k.table == table;
        connection.db := map k | k in connection.db ::
          if k in accepted && k.table == table && k !in pending then connection.db[k].(isSynced := true)
          else connection.db[k];
      }
    }

    /** Marks table after table. */
    method Mark(sent: set<Key>, accepted: set<Key>)
      requires accepted <= sent
      modifies `pending, connection
      ensures pending == old(pending) - MarkedUpTo(upsertOrder, |upsertOrder|, sent, accepted)
      ensures RowsMarked(connection.db, old(connection.db), set k | k in accepted && k.table in upsertOrder)
    {
      for i := 0 to |upsertOrder|
        invariant MarksUpTo(upsertOrder, i, sent, accepted, old(Me()), Me())
      {
        ghost var before := Me();
        MarkTable(upsertOrder[i], sent, accepted);
        MarkedUpToNext(upsertOrder, i, sent, accepted, old(Me()), before, Me());
      }
      assert upsertOrder[..|upsertOrder|] == upsertOrder;
    }

    method TableNames(keys: set<Key>) returns (names: seq<string>)
      ensures forall t :: t in names <==> t in upsertOrder && exists k :: k in keys && k.table == t
    {
      names := [];
      for i := 0 to |upsertOrder|
        invariant forall t :: t in names <==> t in upsertOrder[..i] && exists k :: k in keys && k.table == t
      {
        if exists k :: k in keys && k.table == upsertOrder[i] {
          names := names + [upsertOrder[i]];
        }
      }
      assert upsertOrder[..|upsertOrder|] == upsertOrder;
    }

    /** The part of a push before anything is marked; `d` says how it was dispatched, `handled` how far it got. */
    method SendOutbox()
      returns (ok: bool, outgoing: seq<Key>, accepted: set<Key>, ghost d: Dispatch, ghost handled: nat)
      requires Valid()
      modifies `pending, endpoint, endpoint.repository
      ensures endpoint.Valid() && d.refused == old(Refused())
      ensures pending == old(pending) - Quarantined(contract, old(Me()))
      ensures forall k :: k in outgoing <==> k in Outgoing(contract, old(Me()))
      ensures Divides(d.requests, Outgoing(contract, old(Me()))) && handled <= |d.requests|
      ensures HandledUpTo(contract, old(Me()), old(endpoint.State()), d, handled, endpoint.State(), accepted)
      ensures if ok then handled == |d.requests|
              else handled < |d.requests| && Conflicts(contract, old(Me()), old(endpoint.State()), d.requests[handled])
    {
      ghost var c, s, refused := Me(), endpoint.State(), Refused();
      outgoing := ReadOutbox();
      if |outgoing| == 0 {
        NothingSent(contract, c, s, refused);
        return true, [], {}, Dispatch([], refused), 0;
      }
      var requests := plan(outgoing);
      d := Dispatch(requests, refused);
      PlanDivides(requests, outgoing, Outgoing(contract, c));
      ok, accepted, handled := SendAll(c, d, requests);
    }

    /**
     `push`: sends what the outbox holds and marks it, unless a request meets an answer for another body; then nothing
     is marked but what cannot be sent.
     */
    method Push() returns (ok: bool, rejectedTables: seq<string>, ghost d: Dispatch, ghost handled: nat)
      requires Valid()
      modifies this, connection, endpoint, endpoint.repository
      ensures Valid() && d.refused == old(Refused())
      ensures ok ==> PushStep(contract, old(Me()), old(endpoint.State()), d, Me(), endpoint.State())
      ensures ok ==> forall t :: t in rejectedTables <==>
        t in RejectedTables(contract, old(Me()), old(endpoint.State()), d)
      ensures !ok ==> PushStopsStep(contract, old(Me()), old(endpoint.State()), d, handled, Me(), endpoint.State())
    {
      ghost var c, s := Me(), endpoint.State();
      var outgoing, accepted;
      ok, outgoing, accepted, d, handled := SendOutbox();
      if !ok {
        PushKeepsIds(contract, c, s, d, handled, endpoint.State(), Me());
        return false, [], d, handled;
      }
      SentIsOutgoing(contract, c, s, d, outgoing, accepted);
      Mark(Elements(outgoing), accepted);
      PushDone(contract, c, s, d, upsertOrder, accepted, endpoint.State(), Me());
      rejectedTables := TableNames(Elements(outgoing) - accepted);
      NamesRejected(contract, c, s, d, upsertOrder, rejectedTables);
    }

    /** DELETE FROM table WHERE deleted_at IS NOT NULL AND is_synced = 1. */
    method DeleteTombstones(table: string) returns (deleted: nat)
      modifies connection
      ensures CollectedIn(connection.db, old(connection.db), [table])
      ensures deleted == |old(connection.db)| - |connection.db|
    {
      var garbage := set k | k in connection.db && k.table == table && Collected(Some(connection.db[k])).None?;
      connection.db := connection.db - garbage;
      assert connection.db.Keys == old(connection.db).Keys - garbage;
      return |garbage|;
    }

    /** Deletes the synced tombstones of every table. */
    method RunGarbageCollection() returns (purged: nat)
      requires Valid()
      modifies connection
      ensures Valid() && GcStep(old(Me()), Me())
      ensures purged == |old(connection.db)| - |connection.db|
    {
      purged := 0;
      for i := 0 to |upsertOrder|
        invariant purged == |old(connection.db)| - |connection.db|
        invariant CollectedIn(connection.db, old(connection.db), upsertOrder[..i])
      {
        assert upsertOrder[..i + 1] == upsertOrder[..i] + [upsertOrder[i]];
        ghost var before := connection.db;
        var deleted := DeleteTombstones(upsertOrder[i]);
        CollectedAlso(old(connection.db), before, connection.db, upsertOrder[..i], upsertOrder[i]);
        purged := purged + deleted;
      }
      assert upsertOrder[..|upsertOrder|] == upsertOrder;
      CollectedAll(contract, old(Me()), Me(), upsertOrder);
    }

    /** The tables a status response names; all of them if it names none. */
    function ResolveChangedTables(changedTables: seq<string>): seq<string> {
      if changedTables == [] then upsertOrder else changedTables
    }

    /** Behind a push: a baseline pull of the tables with refused rows, if there are any, and garbage collection. */
    method Settle(rejectedTables: seq<string>) returns (purged: nat, ghost settled: Client)
      requires Valid()
      modifies this, connection
      ensures Valid() && GcStep(settled, Me())
      ensures if rejectedTables == [] then settled == old(Me())
              else PullStep(old(Me()), endpoint.State(), Baseline, endpoint.repository.Asked(rejectedTables), settled)
    {
      if |rejectedTables| > 0 {
        Pull(Baseline, Some(rejectedTables));
      }
      settled := Me();
      purged := RunGarbageCollection();
    }

    /** What `run_push_only` does, and `run_full_sync` after its pull. */
    method PushThenSettle() returns (ok: bool, purged: nat, ghost d: Dispatch, ghost handled: nat)
      requires Valid()
      modifies this, connection, endpoint, endpoint.repository
      ensures Valid() && d.refused == old(Refused())
      ensures ok ==> PushAndSettle(contract, old(Me()), old(endpoint.State()), d, Me(), endpoint.State())
      ensures !ok ==> PushStopsStep(contract, old(Me()), old(endpoint.State()), d, handled, Me(), endpoint.State())
    {
      ghost var c, s := Me(), endpoint.State();
      var rejectedTables;
      ok, rejectedTables, d, handled := Push();
      if !ok {
        return false, 0, d, handled;
      }
      ghost var pushed, s' := Me(), endpoint.State();
      ghost var settled;
      purged, settled := Settle(rejectedTables);
      IsPushAndSettle(contract, c, s, d, endpoint.repository.tableNames, rejectedTables, pushed, s', settled, Me());
    }

    method RunPullOnly(filter: seq<string>) returns (purged: nat)
      requires Valid()
      modifies this, connection
      ensures Valid() && PullOnlyStep(old(Me()), endpoint.State(), endpoint.repository.Asked(filter), Me())
    {
      Pull(Stored, Some(filter));
      ghost var pulled := Me();
      purged := RunGarbageCollection();
      assert GcStep(pulled, Me());
    }

    method RunFullSync(filter: seq<string>) returns (ok: bool, purged: nat, ghost d: Dispatch, ghost handled: nat)
      requires Valid()
      modifies this, connection, endpoint, endpoint.repository
      ensures Valid() && d.refused == old(Refused())
      ensures var s := old(endpoint.State());
        ok ==> FullSyncStep(contract, old(Me()), s, s, endpoint.repository.Asked(filter), d, Me(), endpoint.State())
      ensures !ok ==> PullThenStops(contract, old(Me()), old(endpoint.State()), Stored,
                                          endpoint.repository.Asked(filter), d, handled, Me(), endpoint.State())
    {
      ghost var s := endpoint.State();
      Pull(Stored, Some(filter));
      ghost var pulled := Me();
      ok, purged, d, handled := PushThenSettle();
      assert ok ==> PushAndSettle(contract, pulled, s, d, Me(), endpoint.State());
      assert !ok ==> PushStopsStep(contract, pulled, s, d, handled, Me(), endpoint.State());
    }

    method RunFullResync() returns (ok: bool, purged: nat, ghost d: Dispatch, ghost handled: nat)
      requires Valid()
      modifies this, connection, endpoint, endpoint.repository
      ensures Valid() && d.refused == old(Refused())
      ensures var s := old(endpoint.State());
        ok ==> FullResyncStep(contract, old(Me()), s, s, d, Me(), endpoint.State())
      ensures !ok ==> PullThenStops(contract, old(Me()), old(endpoint.State()), Baseline, contract.tables, d, handled,
                                          Me(), endpoint.State())
    {
      ghost var c, s := Me(), endpoint.State();
      Pull(Baseline, None);
      AskedAll(endpoint.repository.tableNames, upsertOrder, contract.tables);
      ghost var pulled := Me();
      assert PullStep(c, s, Baseline, contract.tables, pulled);
      var rejectedTables;
      ok, rejectedTables, d, handled := Push();
      if !ok {
        return false, 0, d, handled;
      }
      ghost var pushed := Me();
      purged := RunGarbageCollection();
      assert PushStep(contract, pulled, s, d, pushed, endpoint.State());
      assert GcStep(pushed, Me());
    }

    /** `status`: whether there is news, and the tables to ask for. */
    method CheckStatus() returns (hasChanges: bool, changed: seq<string>)
      requires Valid()
      ensures var news := ChangedTables(contract, endpoint.State(), StartOf(Me(), Stored));
        (hasChanges <==> news != {}) && (hasChanges ==> endpoint.repository.Asked(changed) == news)
    {
      var ts := if cursor.Some? then cursor.value else 0;
      var changedTables, found, latest := endpoint.repository.LoadSyncStatus(ts);
      AskedChanged(contract, endpoint.State(), ts, endpoint.repository.tableNames, changedTables);
      return found, ResolveChangedTables(changedTables);
    }

    /** `sync_now`: a status request decides what there is to do. */
    method SyncNow() returns (ok: bool, mode: Mode, purged: nat, ghost d: Dispatch, ghost handled: nat)
      requires Valid()
      modifies this, connection, endpoint, endpoint.repository
      ensures Valid() && d.refused == old(Refused())
      ensures mode == ModeOf(contract, old(Me()), old(endpoint.State()))
      ensures var s := old(endpoint.State());
        ok ==> SyncNowStep(contract, old(Me()), s, s, d, Me(), endpoint.State())
      ensures var s := old(endpoint.State());
        !ok ==> SyncNowStops(contract, old(Me()), s, s, d, handled, Me(), endpoint.State())
    {
      ghost var c, s := Me(), endpoint.State();
      var hasChanges, changed := CheckStatus();
      var dirty := |pending| > 0;
      ok, purged, d, handled := true, 0, Dispatch([], Refused()), 0;
      if cursor.None? {
        mode := FullResync;
        ok, purged, d, handled := RunFullResync();
      } else if !dirty && !hasChanges {
        mode := NoOp;
      } else if dirty && !hasChanges {
        mode := PushOnly;
        ok, purged, d, handled := PushThenSettle();
      } else if !dirty && hasChanges {
        mode := PullOnly;
        purged := RunPullOnly(changed);
      } else {
        mode := FullSync;
        ok, purged, d, handled := RunFullSync(changed);
      }
      if ok {
        IsSyncNow(contract, c, s, d, mode, endpoint.repository.Asked(changed), Me(), endpoint.State());
      } else {
        IsStoppedSyncNow(contract, c, s, d, handled, mode, endpoint.repository.Asked(changed), Me(), endpoint.State());
      }
    }
  }
}
