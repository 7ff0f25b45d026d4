/**
 What the sync engine does, step by step, to a client and a server (crates/baresync-core/src/engine.rs, pull.rs,
 push.rs, gc.rs; packages/baresync/src/server/drizzle.ts and the push handler of handlers.ts with its idempotency
 guard). Rows are looked at one by one; statements do not fail, and a row has at most one pending outbox entry.
 */
module SyncSpec {
  import opened Wrappers
  import Schema
  import opened Store

  type Columns = Schema.Columns
  type Operation = Schema.Operation

  /** The contract both sides share. `columns` are the synced columns of each table. */
  datatype Contract = Contract(tables: set<string>, columns: map<string, set<string>>, localOnly: set<string>)

  /** `stamp` is syncUpdatedAt; deleted rows stay as tombstones. */
  datatype ServerRow = ServerRow(content: Columns, updatedAt: int, deletedAt: Option<int>, stamp: nat)

  type ServerRows = map<Key, ServerRow>

  /** A row as a request carries it: whole, or, if the client has none, by its id. */
  datatype Payload = Whole(content: Columns, updatedAt: int, deletedAt: Option<int>) | Gone

  datatype Item = Item(k: Key, payload: Payload)

  /** What a request says, in the order of its envelope; the request hash is a digest of it. */
  type Body = seq<Item>

  /** A completed idempotency record: the body it was reserved for, and the rows its response accepts. */
  datatype Answer = Answer(body: Body, accepted: set<Key>)

  /**
   `clock` is the time of the latest write; every write takes a later one. `answers` are this client's idempotency
   records by key, and a key is a digest of a set of outbox ids.
   */
  datatype Server = Server(rows: ServerRows, clock: nat, answers: map<set<nat>, Answer>)

  /** A pending outbox entry. */
  datatype Pending = Pending(id: nat, operation: Operation)

  /**
   `nextId` is an outbox id not used yet. `delivered` is history: which version of which row the server has sent.
   */
  datatype Client = Client(
    rows: Database, pending: map<Key, Pending>, cursor: Option<nat>, delivered: set<(Key, nat)>, nextId: nat)

  datatype StartCursor = Baseline | Stored

  // ---------------------------------------------------------------------------------------------
  // Reading the server
  // ---------------------------------------------------------------------------------------------

  /** The rows read for a cursor: those stamped later, or all of them for the timestamp 0. */
  predicate Newer(row: ServerRow, ts: nat) {
    ts == 0 || row.stamp > ts
  }

  predicate InDelta(rows: ServerRows, k: Key, ts: nat) {
    k in rows && Newer(rows[k], ts)
  }

  ghost predicate HasDelta(rows: ServerRows, table: string, ts: nat) {
    exists k :: InDelta(rows, k, ts) && k.table == table
  }

  /** The tables that a status request reports as changed. */
  ghost function ChangedTables(contract: Contract, s: Server, ts: nat): set<string> {
    set t | t in contract.tables && HasDelta(s.rows, t, ts)
  }

  /** The cursor a response carries: the latest stamp over all tables, or the time if there are no rows. */
  ghost predicate IsLatest(s: Server, cursor: nat) {
    if s.rows == map[] then cursor == s.clock
    else
      && (exists k :: k in s.rows && s.rows[k].stamp == cursor)
      && (forall k :: k in s.rows ==> s.rows[k].stamp <= cursor)
  }

  function Public(id: string, row: ServerRow): IncomingRow {
    IncomingRow(id, row.content, row.updatedAt, row.deletedAt)
  }

  /** The statement a row of a response turns into. */
  function StatementOf(k: Key, row: ServerRow, now: nat): Statement {
    if row.deletedAt.None? then Upsert(k.table, Public(k.id, row)) else SoftDelete(k.table, k.id, now)
  }

  // ---------------------------------------------------------------------------------------------
  // Pull
  // ---------------------------------------------------------------------------------------------

  function StartOf(c: Client, start: StartCursor): nat {
    match start
    case Baseline => 0
    case Stored => if c.cursor.Some? then c.cursor.value else 0
  }

  /** A local row after a pull of `tables` from timestamp `ts`. */
  function Pulled(was: Option<LocalRow>, k: Key, s: Server, ts: nat, tables: set<string>): Option<LocalRow> {
    if k.table in tables && InDelta(s.rows, k, ts) then Effect(was, StatementOf(k, s.rows[k], s.clock)) else was
  }

  function Deliveries(s: Server, ts: nat, tables: set<string>): set<(Key, nat)> {
    set k | k in s.rows && k.table in tables && InDelta(s.rows, k, ts) :: (k, s.rows[k].stamp)
  }

  /** A pull moves the cursor if it started from the stored one, or if there is none yet. */
  ghost predicate PullStep(c: Client, s: Server, start: StartCursor, tables: set<string>, next: Client) {
    && (forall k :: Lookup(next.rows, k) == Pulled(Lookup(c.rows, k), k, s, StartOf(c, start), tables))
    && next.pending == c.pending && next.nextId == c.nextId
    && (if start.Stored? || c.cursor.None? then next.cursor.Some? && IsLatest(s, next.cursor.value)
        else next.cursor == c.cursor)
    && next.delivered == c.delivered + Deliveries(s, StartOf(c, start), tables)
  }

  // ---------------------------------------------------------------------------------------------
  // Push
  // ---------------------------------------------------------------------------------------------

  /** A pending insert or update whose row is gone: it is marked as synced and never sent. */
  predicate Orphan(c: Client, k: Key) {
    k in c.pending && k !in c.rows && !c.pending[k].operation.Delete?
  }

  function Quarantined(contract: Contract, c: Client): set<Key> {
    set k | k in c.pending && k.table in contract.tables && Orphan(c, k)
  }

  function Outgoing(contract: Contract, c: Client): set<Key> {
    set k | k in c.pending && k.table in contract.tables && !Orphan(c, k)
  }

  function WithoutLocal(contract: Contract, content: Columns): Columns {
    content - contract.localOnly
  }

  /** A server row written by a push: the row as the client has it, or a deletion if the client has none. */
  ghost predicate WrittenBy(contract: Contract, mine: Option<LocalRow>, was: Option<ServerRow>, now: Option<ServerRow>,
                            after: nat, until: nat)
  {
    match mine
    case Some(row) =>
      && now.Some? && after < now.value.stamp <= until
      && now.value == ServerRow(WithoutLocal(contract, row.content), now.value.stamp, row.deletedAt, now.value.stamp)
    case None =>
      if was.None? then now.None?
      else
        && now.Some? && after < now.value.stamp <= until
        && var stamp := now.value.stamp;
           now.value == was.value.(deletedAt := Some(stamp), updatedAt := stamp, stamp := stamp)
  }

  function Find(rows: ServerRows, k: Key): Option<ServerRow> {
    if k in rows then Some(rows[k]) else None
  }

  /** The requests of a push write the accepted rows, each with a stamp later than anything before. */
  ghost predicate ServerAccepts(contract: Contract, c: Client, s: Server, accepted: set<Key>, next: Server) {
    && s.clock <= next.clock
    && forall k ::
        if k in accepted then
          WrittenBy(contract, Lookup(c.rows, k), Find(s.rows, k), Find(next.rows, k), s.clock, next.clock)
        else Find(next.rows, k) == Find(s.rows, k)
  }

  /** Outbox entries that a push marks: quarantined ones, and all entries sent for a table with any accepted row. */
  function Cleared(contract: Contract, c: Client, accepted: set<Key>): set<Key> {
    Quarantined(contract, c)
    + set k | k in Outgoing(contract, c) && k.table in (set a | a in accepted :: a.table)
  }

  ghost predicate ClientMarks(contract: Contract, c: Client, accepted: set<Key>, next: Client) {
    && next.pending == c.pending - Cleared(contract, c, accepted)
    && (forall k :: Lookup(next.rows, k) == Marked(Lookup(c.rows, k), k in accepted && k !in next.pending))
    && next.cursor == c.cursor && next.delivered == c.delivered && next.nextId == c.nextId
  }

  function Marked(row: Option<LocalRow>, mark: bool): Option<LocalRow> {
    if row.Some? && mark then Some(row.value.(isSynced := true)) else row
  }

  /** One request of a push: the rows of its envelope, in order. */
  type Request = seq<Key>

  /** The requests a push makes, and the rows that the server would refuse. */
  datatype Dispatch = Dispatch(requests: seq<Request>, refused: set<Key>)

  ghost predicate InSome(requests: seq<Request>, k: Key) {
    exists r :: r in requests && k in r
  }

  /** Each of the rows is in one request, and no request is empty. */
  ghost predicate Divides(requests: seq<Request>, keys: set<Key>) {
    && (forall r :: r in requests ==> r != [])
    && (forall k :: k in keys <==> InSome(requests, k))
    && (forall i, j, k :: 0 <= i < j < |requests| && k in requests[i] ==> k !in requests[j])
  }

  function PayloadOf(contract: Contract, row: Option<LocalRow>): Payload {
    match row
    case None => Gone
    case Some(r) => Whole(WithoutLocal(contract, r.content), r.updatedAt, r.deletedAt)
  }

  function BodyOf(contract: Contract, rows: Database, r: Request): Body {
    seq(|r|, i requires 0 <= i < |r| => Item(r[i], PayloadOf(contract, Lookup(rows, r[i]))))
  }

  /** The outbox ids that make up a request's idempotency key. */
  function IdsOf(pending: map<Key, Pending>, r: Request): set<nat> {
    set k | k in r && k in pending :: pending[k].id
  }

  /** The guard has an answer for the request's key: it will not be run. */
  predicate Answered(c: Client, s: Server, r: Request) {
    IdsOf(c.pending, r) in s.answers
  }

  /** The answer is for another body: the guard replies 409, and the push ends in an error. */
  predicate Conflicts(contract: Contract, c: Client, s: Server, r: Request) {
    Answered(c, s, r) && s.answers[IdsOf(c.pending, r)].body != BodyOf(contract, c.rows, r)
  }

  /** The rows that requests make the server write: those of requests without an answer, unless refused. */
  ghost function Written(c: Client, s: Server, requests: seq<Request>, refused: set<Key>): set<Key> {
    set r, k | r in requests && k in r && !Answered(c, s, r) && k !in refused :: k
  }

  /** The rows that replayed answers accept. */
  ghost function Replayed(c: Client, s: Server, requests: seq<Request>): set<Key> {
    set r, k | r in requests && k in r && Answered(c, s, r) && k in s.answers[IdsOf(c.pending, r)].accepted :: k
  }

  ghost function Accepted(c: Client, s: Server, d: Dispatch): set<Key> {
    Written(c, s, d.requests, d.refused) + Replayed(c, s, d.requests)
  }

  function AnswerTo(contract: Contract, c: Client, r: Request, refused: set<Key>): Answer {
    Answer(BodyOf(contract, c.rows, r), set k | k in r && k !in refused)
  }

  /** The guard keeps the answers it has, and adds one for each request that it ran. */
  ghost predicate ServerAnswers(contract: Contract, c: Client, s: Server, requests: seq<Request>, refused: set<Key>,
                                next: Server)
  {
    && (forall ids :: ids in s.answers ==> ids in next.answers && next.answers[ids] == s.answers[ids])
    && (forall r :: r in requests && !Answered(c, s, r) ==>
          Answered(c, next, r) && next.answers[IdsOf(c.pending, r)] == AnswerTo(contract, c, r, refused))
    && (forall ids :: ids in next.answers ==>
      ids in s.answers || exists r :: r in requests && IdsOf(c.pending, r) == ids)
  }

  /** Requests that the guard runs or replays, one after the other; none meets an answer for another body. */
  ghost predicate Handles(contract: Contract, c: Client, s: Server, requests: seq<Request>, refused: set<Key>,
                          next: Server)
  {
    && (forall r :: r in requests ==> !Conflicts(contract, c, s, r))
    && ServerAccepts(contract, c, s, Written(c, s, requests, refused), next)
    && ServerAnswers(contract, c, s, requests, refused, next)
  }

  ghost predicate PushStep(contract: Contract, c: Client, s: Server, d: Dispatch, next: Client, s': Server) {
    && Divides(d.requests, Outgoing(contract, c))
    && Handles(contract, c, s, d.requests, d.refused, s')
    && ClientMarks(contract, c, Accepted(c, s, d), next)
  }

  /** What a request wrote whose callback failed half-way: some of its rows, and the guard keeps no answer. */
  ghost predicate Torn(c: Client, s: Server, d: Dispatch, handled: nat, torn: set<Key>) {
    torn != {} ==>
      && handled < |d.requests| && !Answered(c, s, d.requests[handled])
      && forall k :: k in torn ==> k in d.requests[handled] && k !in d.refused
  }

  /**
   A push that stops behind some of its requests, by a 409, a lost reply, or a callback that fails half-way through the
   next one: only what cannot be sent is marked.
   */
  ghost predicate PushInterruptedStep(contract: Contract, c: Client, s: Server, d: Dispatch, handled: nat,
                                      torn: set<Key>,
                                      next: Client, s': Server)
  {
    && Divides(d.requests, Outgoing(contract, c))
    && handled <= |d.requests| && Torn(c, s, d, handled, torn)
    && (forall r :: r in d.requests[..handled] ==> !Conflicts(contract, c, s, r))
    && ServerAccepts(contract, c, s, Written(c, s, d.requests[..handled], d.refused) + torn, s')
    && ServerAnswers(contract, c, s, d.requests[..handled], d.refused, s')
    && next == c.(pending := c.pending - Quarantined(contract, c))
  }

  /** A push that stops at a 409. */
  ghost predicate PushStopsStep(contract: Contract, c: Client, s: Server, d: Dispatch, handled: nat, next: Client,
                                s': Server)
  {
    && PushInterruptedStep(contract, c, s, d, handled, {}, next, s')
    && handled < |d.requests| && Conflicts(contract, c, s, d.requests[handled])
  }

  ghost function RejectedTables(contract: Contract, c: Client, s: Server, d: Dispatch): set<string> {
    set k | k in Outgoing(contract, c) && k !in Accepted(c, s, d) :: k.table
  }

  // ---------------------------------------------------------------------------------------------
  // Garbage collection
  // ---------------------------------------------------------------------------------------------

  function Collected(row: Option<LocalRow>): Option<LocalRow> {
    if row.Some? && row.value.deletedAt.Some? && row.value.isSynced then None else row
  }

  ghost predicate GcStep(c: Client, next: Client) {
    && (forall k :: Lookup(next.rows, k) == Collected(Lookup(c.rows, k)))
    && next.pending == c.pending && next.cursor == c.cursor && next.delivered == c.delivered && next.nextId == c.nextId
  }

  // ---------------------------------------------------------------------------------------------
  // The five modes
  // ---------------------------------------------------------------------------------------------

  datatype Mode = NoOp | PushOnly | PullOnly | FullSync | FullResync

  /** Push, then a baseline pull of the tables with rejected rows, then garbage collection. */
  ghost predicate PushAndSettle(contract: Contract, c: Client, s: Server, d: Dispatch, next: Client, s': Server) {
    exists pushed, settled ::
      && PushStep(contract, c, s, d, pushed, s')
      && (if RejectedTables(contract, c, s, d) == {} then settled == pushed
          else PullStep(pushed, s', Baseline, RejectedTables(contract, c, s, d), settled))
      && GcStep(settled, next)
  }

  ghost predicate PullOnlyStep(c: Client, s: Server, tables: set<string>, next: Client) {
    exists pulled :: PullStep(c, s, Stored, tables, pulled) && GcStep(pulled, next)
  }

  ghost predicate FullSyncStep(contract: Contract, c: Client, s: Server, s1: Server, tables: set<string>,
                               d: Dispatch, next: Client, s': Server)
  {
    exists pulled ::
      PullStep(c, s, Stored, tables, pulled) && PushAndSettle(contract, pulled, s1, d, next, s')
  }

  ghost predicate FullResyncStep(contract: Contract, c: Client, s: Server, s1: Server,
                                 d: Dispatch, next: Client, s': Server)
  {
    exists pulled, pushed ::
      && PullStep(c, s, Baseline, contract.tables, pulled)
      && PushStep(contract, pulled, s1, d, pushed, s')
      && GcStep(pushed, next)
  }

  ghost function ModeOf(contract: Contract, c: Client, s: Server): Mode {
    if c.cursor.None? then FullResync
    else
      var dirty := c.pending != map[];
      var changed := ChangedTables(contract, s, c.cursor.value) != {};
      if !dirty && !changed then NoOp
      else if !changed then PushOnly
      else if !dirty then PullOnly
      else FullSync
  }

  /**
   One `sync_now`: status and pull see the server `s`; by the time of the push, if there is one, it is `s1`, and the
   push is dispatched as `d` says.
   */
  ghost predicate SyncNowStep(contract: Contract, c: Client, s: Server, s1: Server, d: Dispatch,
                              next: Client, s': Server)
  {
    match ModeOf(contract, c, s)
    case NoOp => next == c && s' == s1 && d.requests == []
    case PushOnly => PushAndSettle(contract, c, s1, d, next, s')
    case PullOnly =>
      PullOnlyStep(c, s, ChangedTables(contract, s, c.cursor.value), next) && s' == s1 && d.requests == []
    case FullSync =>
      FullSyncStep(contract, c, s, s1, ChangedTables(contract, s, c.cursor.value), d, next, s')
    case FullResync => FullResyncStep(contract, c, s, s1, d, next, s')
  }

  /** What a `sync_now` does ahead of its push, if it has one. */
  ghost predicate PullsFirst(contract: Contract, c: Client, s: Server, pulled: Client) {
    match ModeOf(contract, c, s)
    case NoOp => false
    case PullOnly => false
    case PushOnly => pulled == c
    case FullSync => PullStep(c, s, Stored, ChangedTables(contract, s, c.cursor.value), pulled)
    case FullResync => PullStep(c, s, Baseline, contract.tables, pulled)
  }

  /** A `sync_now` that ends in an error of its push, behind some of the requests. */
  ghost predicate SyncNowFails(contract: Contract, c: Client, s: Server, s1: Server, d: Dispatch, handled: nat,
                               torn: set<Key>, next: Client, s': Server)
  {
    exists pulled ::
      PullsFirst(contract, c, s, pulled) && PushInterruptedStep(contract, pulled, s1, d, handled, torn, next, s')
  }

  /** A `sync_now` whose push stops at a 409. */
  ghost predicate SyncNowStops(contract: Contract, c: Client, s: Server, s1: Server, d: Dispatch, handled: nat,
                               next: Client, s': Server)
  {
    exists pulled ::
      PullsFirst(contract, c, s, pulled) && PushStopsStep(contract, pulled, s1, d, handled, next, s')
  }

  // ---------------------------------------------------------------------------------------------
  // What a user sees
  // ---------------------------------------------------------------------------------------------

  datatype View = Absent | Visible(content: Columns, updatedAt: int)

  /** The synced columns of a row that is there and not deleted. */
  function LocalView(contract: Contract, row: Option<LocalRow>): View {
    if row.None? || row.value.deletedAt.Some? then Absent
    else Visible(WithoutLocal(contract, row.value.content), row.value.updatedAt)
  }

  function ServerView(row: Option<ServerRow>): View {
    if row.None? || row.value.deletedAt.Some? then Absent
    else Visible(row.value.content, row.value.updatedAt)
  }

  ghost predicate Agree(contract: Contract, c: Client, s: Server, k: Key) {
    LocalView(contract, Lookup(c.rows, k)) == ServerView(Find(s.rows, k))
  }

  /** Client and server show the same rows. */
  ghost predicate Converged(contract: Contract, c: Client, s: Server) {
    forall k :: Agree(contract, c, s, k)
  }
}
