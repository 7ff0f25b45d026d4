/**
 What every step of the sync protocol keeps, whatever the server accepts or refuses: in particular that every server
 row stamped at or below the client's cursor has been delivered in its current version.
 */
module SyncInvariant {
  import opened Wrappers
  import opened Store
  import opened SyncSpec

  function ColumnsOf(contract: Contract, table: string): set<string> {
    if table in contract.columns then contract.columns[table] else {}
  }

  /** Tables of the contract only, rows with exactly their table's synced columns, and stamps within the clock. */
  ghost predicate ServerOk(contract: Contract, s: Server) {
    forall k :: k in s.rows ==>
      && k.table in contract.tables
      && s.rows[k].content.Keys == ColumnsOf(contract, k.table)
      && ColumnsOf(contract, k.table) !! contract.localOnly
      && 0 < s.rows[k].stamp <= s.clock
  }

  ghost predicate ClientOk(contract: Contract, c: Client) {
    && (forall k :: k in c.pending ==> k.table in contract.tables)
    && (forall k :: k in c.rows ==>
          && k.table in contract.tables
          && c.rows[k].content.Keys - contract.localOnly == ColumnsOf(contract, k.table))
    && (forall t :: t in contract.tables ==> ColumnsOf(contract, t) !! contract.localOnly)
  }

  /** Every row stamped at or below the cursor has been delivered in its current version. */
  ghost predicate CursorSound(c: Client, s: Server) {
    c.cursor.Some? ==>
      && c.cursor.value <= s.clock
      && forall k :: k in s.rows && s.rows[k].stamp <= c.cursor.value ==> (k, s.rows[k].stamp) in c.delivered
  }

  /** The cursor has not run ahead of the rows: some row carries its stamp or a later one, unless there are none. */
  ghost predicate CursorReached(c: Client, s: Server) {
    c.cursor.Some? ==> s.rows == map[] || SomeStampFrom(s.rows, c.cursor.value)
  }

  ghost predicate SomeStampFrom(rows: ServerRows, ts: nat) {
    exists k :: k in rows && rows[k].stamp >= ts
  }

  ghost predicate Sound(contract: Contract, c: Client, s: Server) {
    ServerOk(contract, s) && ClientOk(contract, c) && CursorSound(c, s) && CursorReached(c, s)
  }

  /** Stamps only grow: each row is as it was, or is there with a stamp later than the clock was. */
  ghost predicate StampsGrow(s: Server, s': Server) {
    forall k :: Find(s'.rows, k) == Find(s.rows, k) || (k in s'.rows && s.clock < s'.rows[k].stamp)
  }

  /** Rows written meanwhile, by whomever. */
  ghost predicate Advances(contract: Contract, s: Server, s': Server) {
    && ServerOk(contract, s')
    && s.clock <= s'.clock
    && StampsGrow(s, s')
  }

  /** What happens without this client: others write, and answers to its requests are cleaned up. */
  ghost predicate Remote(contract: Contract, s: Server, s': Server) {
    && Advances(contract, s, s')
    && forall ids :: ids in s'.answers ==> ids in s.answers && s'.answers[ids] == s.answers[ids]
  }

  /** The outbox after a local change: a pending entry keeps its id, a new one gets a new id. */
  function Enqueued(c: Client, k: Key, operation: Operation): Pending {
    Pending(if k in c.pending then c.pending[k].id else c.nextId, operation)
  }

  function WithRow(rows: Database, k: Key, row: Option<LocalRow>): Database {
    if row.Some? then rows[k := row.value] else rows - {k}
  }

  ghost predicate HasColumns(contract: Contract, k: Key, row: LocalRow) {
    row.content.Keys - contract.localOnly == ColumnsOf(contract, k.table)
  }

  /** A local write, with its outbox entry. What it makes of the row is up to the application; it may remove it. */
  ghost predicate LocalWrite(contract: Contract, c: Client, k: Key, row: Option<LocalRow>, operation: Operation,
                             next: Client)
  {
    && k.table in contract.tables && !operation.Delete?
    && (row.Some? ==> HasColumns(contract, k, row.value))
    && next == c.(rows := WithRow(c.rows, k, row), pending := c.pending[k := Enqueued(c, k, operation)],
                  nextId := if k in c.pending then c.nextId else c.nextId + 1)
  }

  /** The application deletes a row without telling the outbox. */
  ghost predicate LocalDelete(c: Client, k: Key, next: Client) {
    next == c.(rows := c.rows - {k})
  }

  /** A pull that may move the cursor reads every table with news. */
  ghost predicate Covers(contract: Contract, c: Client, s: Server, start: StartCursor, tables: set<string>) {
    match start
    case Stored => ChangedTables(contract, s, StartOf(c, Stored)) <= tables
    case Baseline => c.cursor.Some? || contract.tables <= tables
  }

  lemma StillReached(c: Client, s: Server, s': Server)
    requires CursorSound(c, s) && CursorReached(c, s) && StampsGrow(s, s')
    ensures CursorReached(c, s')
  {
    if c.cursor.Some? && s'.rows != map[] {
      if s.rows == map[] {
        var k :| k in s'.rows;
        assert Find(s.rows, k) == None;
      } else {
        var k :| k in s.rows && s.rows[k].stamp >= c.cursor.value;
        assert k in s'.rows && s'.rows[k].stamp >= c.cursor.value;
      }
    }
  }

  lemma RemoteSound(contract: Contract, c: Client, s: Server, s': Server)
    requires Sound(contract, c, s) && Advances(contract, s, s')
    ensures Sound(contract, c, s')
  {
    StillReached(c, s, s');
    if c.cursor.Some? {
      forall k | k in s'.rows && s'.rows[k].stamp <= c.cursor.value
        ensures (k, s'.rows[k].stamp) in c.delivered
      {
        assert Find(s'.rows, k) == Find(s.rows, k);
      }
    }
  }

  lemma LocalWriteSound(contract: Contract, c: Client, s: Server, k: Key, row: Option<LocalRow>, operation: Operation,
                        next: Client)
    requires Sound(contract, c, s) && LocalWrite(contract, c, k, row, operation, next)
    ensures Sound(contract, next, s)
  {
  }

  lemma LocalDeleteSound(contract: Contract, c: Client, s: Server, k: Key, next: Client)
    requires Sound(contract, c, s) && LocalDelete(c, k, next)
    ensures Sound(contract, next, s)
  {
  }

  /** A cursor is never blanked and never moves back. */
  predicate CursorGrows(c: Client, next: Client) {
    c.cursor.Some? ==> next.cursor.Some? && c.cursor.value <= next.cursor.value
  }

  lemma PulledCursor(contract: Contract, c: Client, s: Server, start: StartCursor, tables: set<string>, next: Client)
    requires Sound(contract, c, s) && PullStep(c, s, start, tables, next)
    ensures CursorGrows(c, next) && CursorReached(next, s) && next.cursor.Some? && next.cursor.value <= s.clock
  {
  }

  /** A row of the delta, of a table read, is delivered. */
  lemma PullSound(contract: Contract, c: Client, s: Server, start: StartCursor, tables: set<string>, next: Client)
    requires Sound(contract, c, s) && PullStep(c, s, start, tables, next) && Covers(contract, c, s, start, tables)
    ensures Sound(contract, next, s) && CursorGrows(c, next)
  {
    PulledCursor(contract, c, s, start, tables, next);
    forall k | k in next.rows
      ensures k.table in contract.tables
      ensures next.rows[k].content.Keys - contract.localOnly == ColumnsOf(contract, k.table)
    {
      assert Lookup(next.rows, k) == Pulled(Lookup(c.rows, k), k, s, StartOf(c, start), tables);
    }
    if next.cursor.Some? && next.cursor != c.cursor {
      forall k | k in s.rows ensures (k, s.rows[k].stamp) in next.delivered {
        DeliveredByNow(contract, c, s, start, tables, k);
      }
    }
  }

  lemma DeliveredByNow(contract: Contract, c: Client, s: Server, start: StartCursor, tables: set<string>, k: Key)
    requires Sound(contract, c, s) && Covers(contract, c, s, start, tables) && k in s.rows
    requires start.Stored? || c.cursor.None?
    ensures (k, s.rows[k].stamp) in c.delivered + Deliveries(s, StartOf(c, start), tables)
  {
  }

  /**
   A pull that asks for some tables keeps the cursor sound exactly if every row it leaves out was delivered before: the
   cursor it brings covers all tables. This is why status and pull must see one state of the server.
   */
  lemma FilteredPullSoundIff(contract: Contract, c: Client, s: Server, tables: set<string>, next: Client)
    requires Sound(contract, c, s) && PullStep(c, s, Stored, tables, next)
    ensures CursorSound(next, s) <==>
      forall k: Key :: k.table !in tables && InDelta(s.rows, k, StartOf(c, Stored)) ==>
        (k, s.rows[k].stamp) in c.delivered
  {
  }

  /** A push writes rows of the contract, each with a later stamp. */
  lemma PushOnServer(contract: Contract, c: Client, s: Server, written: set<Key>, s': Server)
    requires ServerOk(contract, s) && ClientOk(contract, c) && ServerAccepts(contract, c, s, written, s')
    requires written <= Outgoing(contract, c)
    ensures Advances(contract, s, s')
  {
    forall k
      ensures Find(s'.rows, k) == Find(s.rows, k) || (k in s'.rows && s.clock < s'.rows[k].stamp)
      ensures k in s'.rows ==>
        && k.table in contract.tables && s'.rows[k].content.Keys == ColumnsOf(contract, k.table)
        && ColumnsOf(contract, k.table) !! contract.localOnly && 0 < s'.rows[k].stamp <= s'.clock
    {
      PushedRow(contract, c, s, written, s', k);
    }
  }

  lemma PushedRow(contract: Contract, c: Client, s: Server, written: set<Key>, s': Server, k: Key)
    requires ServerOk(contract, s) && ClientOk(contract, c) && ServerAccepts(contract, c, s, written, s')
    requires written <= Outgoing(contract, c)
    ensures Find(s'.rows, k) == Find(s.rows, k) || (k in s'.rows && s.clock < s'.rows[k].stamp)
    ensures k in s'.rows ==>
      && k.table in contract.tables && s'.rows[k].content.Keys == ColumnsOf(contract, k.table)
      && ColumnsOf(contract, k.table) !! contract.localOnly && 0 < s'.rows[k].stamp <= s'.clock
  {
  }

  lemma MarksKeepRows(contract: Contract, c: Client, accepted: set<Key>, next: Client)
    requires ClientOk(contract, c) && ClientMarks(contract, c, accepted, next)
    ensures ClientOk(contract, next)
  {
  }

  lemma DispatchedIsOutgoing(contract: Contract, c: Client, s: Server, requests: seq<Request>, refused: set<Key>,
                             n: nat)
    requires Divides(requests, Outgoing(contract, c)) && n <= |requests|
    ensures Written(c, s, requests[..n], refused) <= Outgoing(contract, c)
    ensures Replayed(c, s, requests[..n]) <= Outgoing(contract, c)
  {
  }

  lemma PushSound(contract: Contract, c: Client, s: Server, d: Dispatch, next: Client, s': Server)
    requires Sound(contract, c, s) && PushStep(contract, c, s, d, next, s')
    ensures Sound(contract, next, s') && Advances(contract, s, s')
  {
    assert d.requests[..|d.requests|] == d.requests;
    DispatchedIsOutgoing(contract, c, s, d.requests, d.refused, |d.requests|);
    PushOnServer(contract, c, s, Written(c, s, d.requests, d.refused), s');
    RemoteSound(contract, c, s, s');
    MarksKeepRows(contract, c, Accepted(c, s, d), next);
  }

  lemma TornIsOutgoing(contract: Contract, c: Client, s: Server, d: Dispatch, handled: nat, torn: set<Key>)
    requires Divides(d.requests, Outgoing(contract, c)) && Torn(c, s, d, handled, torn)
    ensures torn <= Outgoing(contract, c)
  {
    forall k | k in torn ensures k in Outgoing(contract, c) {
      assert InSome(d.requests, k);
    }
  }

  lemma PushInterruptedSound(contract: Contract, c: Client, s: Server, d: Dispatch, handled: nat, torn: set<Key>,
                             next: Client, s': Server)
    requires Sound(contract, c, s) && PushInterruptedStep(contract, c, s, d, handled, torn, next, s')
    ensures Sound(contract, next, s') && next.cursor == c.cursor && Advances(contract, s, s')
  {
    DispatchedIsOutgoing(contract, c, s, d.requests, d.refused, handled);
    TornIsOutgoing(contract, c, s, d, handled, torn);
    PushOnServer(contract, c, s, Written(c, s, d.requests[..handled], d.refused) + torn, s');
    RemoteSound(contract, c, s, s');
  }

  lemma GcSound(contract: Contract, c: Client, s: Server, next: Client)
    requires Sound(contract, c, s) && GcStep(c, next)
    ensures Sound(contract, next, s)
  {
    forall k | k in next.rows ensures k in c.rows && next.rows[k] == c.rows[k] {
      assert Lookup(next.rows, k) == Collected(Lookup(c.rows, k));
    }
  }

  lemma PushAndSettleSound(contract: Contract, c: Client, s: Server, d: Dispatch, next: Client, s': Server)
    requires Sound(contract, c, s) && c.cursor.Some? && PushAndSettle(contract, c, s, d, next, s')
    ensures Sound(contract, next, s') && next.cursor == c.cursor
  {
    var pushed, settled :|
      && PushStep(contract, c, s, d, pushed, s')
      && (if RejectedTables(contract, c, s, d) == {} then settled == pushed
          else PullStep(pushed, s', Baseline, RejectedTables(contract, c, s, d), settled))
      && GcStep(settled, next);
    PushSound(contract, c, s, d, pushed, s');
    if RejectedTables(contract, c, s, d) != {} {
      PullSound(contract, pushed, s', Baseline, RejectedTables(contract, c, s, d), settled);
    }
    GcSound(contract, settled, s', next);
  }

  /**
   A `sync_now`, in any mode and whatever is d, keeps the cursor sound and leaves a cursor behind. One that was
   there never moves back, and moves only if the pull from it brought news: a push, and a baseline pull of rejected
   tables, leave it alone.
   */
  lemma SyncNowSound(contract: Contract, c: Client, s: Server, s1: Server, d: Dispatch, next: Client, s': Server)
    requires Sound(contract, c, s) && Remote(contract, s, s1)
    requires SyncNowStep(contract, c, s, s1, d, next, s')
    ensures Sound(contract, next, s')
    ensures next.cursor.Some? && CursorGrows(c, next)
    ensures c.cursor.Some? && next.cursor != c.cursor ==> ChangedTables(contract, s, c.cursor.value) != {}
  {
    RemoteSound(contract, c, s, s1);
    match ModeOf(contract, c, s)
    case NoOp =>
    case PushOnly =>
      PushAndSettleSound(contract, c, s1, d, next, s');
    case PullOnly =>
      var tables := ChangedTables(contract, s, c.cursor.value);
      var pulled :| PullStep(c, s, Stored, tables, pulled) && GcStep(pulled, next);
      PullSound(contract, c, s, Stored, tables, pulled);
      GcSound(contract, pulled, s, next);
      RemoteSound(contract, next, s, s1);
    case FullSync =>
      var tables := ChangedTables(contract, s, c.cursor.value);
      var pulled :| PullStep(c, s, Stored, tables, pulled) && PushAndSettle(contract, pulled, s1, d, next, s');
      PullSound(contract, c, s, Stored, tables, pulled);
      RemoteSound(contract, pulled, s, s1);
      PushAndSettleSound(contract, pulled, s1, d, next, s');
    case FullResync =>
      FullResyncSound(contract, c, s, s1, d, next, s');
  }

  lemma FullResyncSound(contract: Contract, c: Client, s: Server, s1: Server, d: Dispatch, next: Client, s': Server)
    requires Sound(contract, c, s) && Remote(contract, s, s1)
    requires FullResyncStep(contract, c, s, s1, d, next, s')
    ensures Sound(contract, next, s') && next.cursor.Some? && (c.cursor.Some? ==> next.cursor == c.cursor)
  {
    var pulled, pushed :|
      && PullStep(c, s, Baseline, contract.tables, pulled)
      && PushStep(contract, pulled, s1, d, pushed, s')
      && GcStep(pushed, next);
    PullSound(contract, c, s, Baseline, contract.tables, pulled);
    RemoteSound(contract, pulled, s, s1);
    PushSound(contract, pulled, s1, d, pushed, s');
    GcSound(contract, pushed, s', next);
  }
}
