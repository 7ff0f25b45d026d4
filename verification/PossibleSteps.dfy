/**
 Every step of the protocol can be taken: for each there is a client and a server that it leads to. The one thing that
 keeps a push from going through is a request that meets an answer for another body.
 */
module PossibleSteps {
  import opened Wrappers
  import opened Store
  import opened SyncSpec
  import opened Answers

  /** A latest stamp among the rows of a set of keys. */
  lemma {:induction false} LatestAmong(rows: ServerRows, keys: set<Key>) returns (latest: Key)
    requires keys != {} && keys <= rows.Keys
    ensures latest in keys && forall k :: k in keys ==> rows[k].stamp <= rows[latest].stamp
    decreases |keys|
  {
    latest :| latest in keys;
    if keys != {latest} {
      assert keys - {latest} != {};
      var other := LatestAmong(rows, keys - {latest});
      if rows[other].stamp > rows[latest].stamp {
        latest := other;
      }
    }
  }

  lemma LatestExists(s: Server) returns (cursor: nat)
    ensures IsLatest(s, cursor)
  {
    if s.rows == map[] {
      cursor := s.clock;
    } else {
      assert s.rows.Keys != {};
      var k := LatestAmong(s.rows, s.rows.Keys);
      cursor := s.rows[k].stamp;
    }
  }

  lemma GcPossible(c: Client) returns (next: Client)
    ensures GcStep(c, next)
  {
    next := c.(rows := map k | k in c.rows && Collected(Some(c.rows[k])).Some? :: c.rows[k]);
  }

  function PulledRows(c: Client, s: Server, ts: nat, tables: set<string>): Database {
    map k | k in c.rows.Keys + s.rows.Keys && Pulled(Lookup(c.rows, k), k, s, ts, tables).Some? ::
      Pulled(Lookup(c.rows, k), k, s, ts, tables).value
  }

  lemma PullPossible(c: Client, s: Server, start: StartCursor, tables: set<string>) returns (next: Client)
    ensures PullStep(c, s, start, tables, next)
  {
    var ts := StartOf(c, start);
    var latest := LatestExists(s);
    next := Client(PulledRows(c, s, ts, tables), c.pending,
                   if start.Stored? || c.cursor.None? then Some(latest) else c.cursor,
                   c.delivered + Deliveries(s, ts, tables), c.nextId);
  }

  // ---------------------------------------------------------------------------------------------
  // Push
  // ---------------------------------------------------------------------------------------------

  /** A row as a push writes it at the time `now`. */
  function RowWritten(contract: Contract, mine: Option<LocalRow>, was: Option<ServerRow>, now: nat): Option<ServerRow> {
    match mine
    case Some(row) => Some(ServerRow(WithoutLocal(contract, row.content), now, row.deletedAt, now))
    case None => if was.None? then None else Some(was.value.(deletedAt := Some(now), updatedAt := now, stamp := now))
  }

  function RowAt(contract: Contract, c: Client, s: Server, written: set<Key>, k: Key): Option<ServerRow> {
    if k in written then RowWritten(contract, Lookup(c.rows, k), Find(s.rows, k), s.clock + 1) else Find(s.rows, k)
  }

  function RowsWritten(contract: Contract, c: Client, s: Server, written: set<Key>): ServerRows {
    map k | k in s.rows.Keys + written && RowAt(contract, c, s, written, k).Some? ::
      RowAt(contract, c, s, written, k).value
  }

  lemma WritePossible(contract: Contract, c: Client, s: Server, written: set<Key>, answers: map<set<nat>, Answer>)
    ensures ServerAccepts(contract, c, s, written, Server(RowsWritten(contract, c, s, written), s.clock + 1, answers))
  {
    var rows := RowsWritten(contract, c, s, written);
    forall k ensures Find(rows, k) == RowAt(contract, c, s, written, k) {
    }
  }

  /** Requests of one push have keys of their own, so each can be given its answer. */
  lemma {:induction false} AnswersPossible(contract: Contract, c: Client, s: Server, requests: seq<Request>,
                                           refused: set<Key>,
                                           n: nat)
    returns (answers: map<set<nat>, Answer>)
    requires IdsOk(c, s) && Divides(requests, Outgoing(contract, c)) && n <= |requests|
    ensures ServerAnswers(contract, c, s, requests[..n], refused, s.(answers := answers))
  {
    if n == 0 {
      return s.answers;
    }
    var before := AnswersPossible(contract, c, s, requests, refused, n - 1);
    var r := requests[n - 1];
    answers := if Answered(c, s, r) then before else before[IdsOf(c.pending, r) := AnswerTo(contract, c, r, refused)];
    forall q | q in requests[..n - 1] ensures IdsOf(c.pending, q) != IdsOf(c.pending, r) {
      OwnKey(contract, c, s, requests, n - 1, q);
    }
    assert forall q :: q in requests[..n] <==> q in requests[..n - 1] || q == r;
  }

  lemma OwnKey(contract: Contract, c: Client, s: Server, requests: seq<Request>, n: nat, q: Request)
    requires IdsOk(c, s) && Divides(requests, Outgoing(contract, c)) && n < |requests| && q in requests[..n]
    ensures IdsOf(c.pending, q) != IdsOf(c.pending, requests[n])
  {
    var r := requests[n];
    var j :| 0 <= j < n && requests[j] == q;
    assert r in requests && r[0] in r && InSome(requests, r[0]);
    assert r[0] !in q;
    RequestsDiffer(c, s, r, q);
  }

  /** The server can take the first requests of a push, as far as none conflicts. */
  lemma RequestsPossible(contract: Contract, c: Client, s: Server, d: Dispatch, n: nat) returns (s': Server)
    requires IdsOk(c, s) && Divides(d.requests, Outgoing(contract, c)) && n <= |d.requests|
    requires forall r :: r in d.requests[..n] ==> !Conflicts(contract, c, s, r)
    ensures Handles(contract, c, s, d.requests[..n], d.refused, s')
  {
    var answers := AnswersPossible(contract, c, s, d.requests, d.refused, n);
    var written := Written(c, s, d.requests[..n], d.refused);
    WritePossible(contract, c, s, written, answers);
    s' := Server(RowsWritten(contract, c, s, written), s.clock + 1, answers);
  }

  lemma MarksPossible(contract: Contract, c: Client, accepted: set<Key>) returns (next: Client)
    ensures ClientMarks(contract, c, accepted, next)
  {
    var pending := c.pending - Cleared(contract, c, accepted);
    next := c.(pending := pending, rows := map k | k in c.rows ::
      Marked(Some(c.rows[k]), k in accepted && k !in pending).value);
  }

  lemma PushPossible(contract: Contract, c: Client, s: Server, d: Dispatch) returns (next: Client, s': Server)
    requires IdsOk(c, s) && Divides(d.requests, Outgoing(contract, c))
    requires forall r :: r in d.requests ==> !Conflicts(contract, c, s, r)
    ensures PushStep(contract, c, s, d, next, s')
  {
    assert d.requests[..|d.requests|] == d.requests;
    s' := RequestsPossible(contract, c, s, d, |d.requests|);
    next := MarksPossible(contract, c, Accepted(c, s, d));
  }

  lemma SettlePossible(contract: Contract, c: Client, s: Server, d: Dispatch) returns (next: Client, s': Server)
    requires IdsOk(c, s) && Divides(d.requests, Outgoing(contract, c))
    requires forall r :: r in d.requests ==> !Conflicts(contract, c, s, r)
    ensures PushAndSettle(contract, c, s, d, next, s')
  {
    var pushed;
    pushed, s' := PushPossible(contract, c, s, d);
    var settled := pushed;
    if RejectedTables(contract, c, s, d) != {} {
      settled := PullPossible(pushed, s', Baseline, RejectedTables(contract, c, s, d));
    }
    next := GcPossible(settled);
  }

  /** A push whose first requests do not conflict can stop behind them. */
  lemma StopPossible(contract: Contract, c: Client, s: Server, d: Dispatch, n: nat) returns (next: Client, s': Server)
    requires IdsOk(c, s) && Divides(d.requests, Outgoing(contract, c)) && n <= |d.requests|
    requires forall r :: r in d.requests[..n] ==> !Conflicts(contract, c, s, r)
    ensures PushInterruptedStep(contract, c, s, d, n, {}, next, s')
  {
    s' := RequestsPossible(contract, c, s, d, n);
    next := c.(pending := c.pending - Quarantined(contract, c));
    assert Written(c, s, d.requests[..n], d.refused) + {} == Written(c, s, d.requests[..n], d.refused);
  }

  /** What a `sync_now` that pushes does ahead of its push can always be done. */
  lemma PullsFirstPossible(contract: Contract, c: Client, s: Server) returns (pulled: Client)
    requires !ModeOf(contract, c, s).NoOp? && !ModeOf(contract, c, s).PullOnly?
    ensures PullsFirst(contract, c, s, pulled)
  {
    match ModeOf(contract, c, s)
    case PushOnly => pulled := c;
    case FullSync => pulled := PullPossible(c, s, Stored, ChangedTables(contract, s, c.cursor.value));
    case FullResync => pulled := PullPossible(c, s, Baseline, contract.tables);
  }
}
