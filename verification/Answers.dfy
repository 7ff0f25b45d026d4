/**
 The outbox ids of a client and the answers that the idempotency guard keeps for them
 (packages/baresync/src/server/idempotency.ts, lines 176-282; crates/baresync-core/src/push.rs, lines 127-138).
 */
module Answers {
  import opened Wrappers
  import opened Store
  import opened SyncSpec
  import opened SyncInvariant

  /** Pending entries have ids of their own, and no id of an entry or an answer is still to be given out. */
  ghost predicate IdsOk(c: Client, s: Server) {
    && (forall k :: k in c.pending ==> c.pending[k].id < c.nextId)
    && (forall j, k :: j in c.pending && k in c.pending && c.pending[j].id == c.pending[k].id ==> j == k)
    && (forall ids, id :: ids in s.answers && id in ids ==> id < c.nextId)
  }

  /** Every answer accepts all the rows of its body. */
  ghost predicate AllGranted(s: Server) {
    forall ids, item :: ids in s.answers && item in s.answers[ids].body ==> item.k in s.answers[ids].accepted
  }

  /** No pending entry is part of a request that was answered already. */
  ghost predicate NoneOutstanding(c: Client, s: Server) {
    forall ids, k :: ids in s.answers && k in c.pending ==> c.pending[k].id !in ids
  }

  /** None of the requests was answered before. */
  ghost predicate FirstTime(c: Client, s: Server, requests: seq<Request>) {
    forall r :: r in requests ==> !Answered(c, s, r)
  }

  lemma NoneOutstandingIsFirstTime(contract: Contract, c: Client, s: Server, requests: seq<Request>)
    requires NoneOutstanding(c, s) && Divides(requests, Outgoing(contract, c))
    ensures FirstTime(c, s, requests)
  {
    forall r | r in requests ensures !Answered(c, s, r) {
      assert r[0] in r && InSome(requests, r[0]);
      assert c.pending[r[0]].id in IdsOf(c.pending, r);
    }
  }

  /** Which requests the guard runs and which it replays depends on the outbox only. */
  lemma SamePending(c: Client, other: Client, s: Server, requests: seq<Request>, refused: set<Key>)
    requires other.pending == c.pending
    ensures Written(other, s, requests, refused) == Written(c, s, requests, refused)
    ensures Replayed(other, s, requests) == Replayed(c, s, requests)
  {
  }

  /** Requests that share no row have different keys. */
  lemma RequestsDiffer(c: Client, s: Server, a: Request, b: Request)
    requires IdsOk(c, s) && a != [] && a[0] in c.pending && a[0] !in b
    ensures IdsOf(c.pending, a) != IdsOf(c.pending, b)
  {
    var id := c.pending[a[0]].id;
    assert a[0] in a && id in IdsOf(c.pending, a);
    assert id !in IdsOf(c.pending, b);
  }

  // ---------------------------------------------------------------------------------------------
  // Every step keeps ids apart and, with a server that refuses nothing, answers full
  // ---------------------------------------------------------------------------------------------

  /** A client that keeps its ids or drops some, and a server that keeps its answers, drops some, or adds given ones. */
  lemma KeepsIds(contract: Contract, c: Client, s: Server, requests: seq<Request>, refused: set<Key>, next: Client,
                 s': Server)
    requires IdsOk(c, s) && ServerAnswers(contract, c, s, requests, refused, s')
    requires next.nextId == c.nextId && forall k :: k in next.pending ==>
      k in c.pending && next.pending[k] == c.pending[k]
    ensures IdsOk(next, s')
  {
  }

  lemma LocalWriteKeepsIds(contract: Contract, c: Client, s: Server, k: Key, row: Option<LocalRow>,
                           operation: Operation,
                           next: Client)
    requires IdsOk(c, s) && LocalWrite(contract, c, k, row, operation, next)
    ensures IdsOk(next, s) && (NoneOutstanding(c, s) ==> NoneOutstanding(next, s))
  {
  }

  lemma GrantsAll(contract: Contract, c: Client, s: Server, requests: seq<Request>, s': Server)
    requires AllGranted(s) && ServerAnswers(contract, c, s, requests, {}, s')
    ensures AllGranted(s')
  {
  }

  /** With answers that accept everything and no refusals, a push is accepted in full. */
  lemma AcceptedInFull(contract: Contract, c: Client, s: Server, d: Dispatch)
    requires AllGranted(s) && d.refused == {} && Divides(d.requests, Outgoing(contract, c))
    requires forall r :: r in d.requests ==> !Conflicts(contract, c, s, r)
    ensures Accepted(c, s, d) == Outgoing(contract, c)
    ensures RejectedTables(contract, c, s, d) == {}
  {
    assert d.requests[..|d.requests|] == d.requests;
    DispatchedIsOutgoing(contract, c, s, d.requests, d.refused, |d.requests|);
    forall k | k in Outgoing(contract, c) ensures k in Accepted(c, s, d) {
      assert InSome(d.requests, k);
      var r :| r in d.requests && k in r;
      if Answered(c, s, r) {
        var i :| 0 <= i < |r| && r[i] == k;
        assert BodyOf(contract, c.rows, r)[i].k == k;
        assert BodyOf(contract, c.rows, r)[i] in s.answers[IdsOf(c.pending, r)].body;
      }
    }
  }

  /** A push that is accepted in full empties the outbox. */
  lemma PushEmptiesOutbox(contract: Contract, c: Client, s: Server, d: Dispatch, next: Client, s': Server)
    requires ClientOk(contract, c) && AllGranted(s) && d.refused == {} && PushStep(contract, c, s, d, next, s')
    ensures next.pending == map[]
  {
    AcceptedInFull(contract, c, s, d);
    forall k | k in c.pending ensures k in Cleared(contract, c, Accepted(c, s, d)) {
      if !Orphan(c, k) {
        assert k in Outgoing(contract, c);
      }
    }
  }

  // ---------------------------------------------------------------------------------------------
  // A push that has to be made again
  // ---------------------------------------------------------------------------------------------

  /** The reply to a request was lost: the server has just written its rows and keeps the answer. */
  ghost predicate ReplyLost(contract: Contract, c: Client, s: Server, r: Request) {
    && Answered(c, s, r) && s.answers[IdsOf(c.pending, r)].body == BodyOf(contract, c.rows, r)
    && forall k :: k in r ==> k.table in contract.tables && JustWritten(contract, c, s, k)
  }

  ghost predicate JustWritten(contract: Contract, c: Client, s: Server, k: Key) {
    match Lookup(c.rows, k)
    case Some(row) =>
      && !row.isSynced && Ahead(c, s, k)
      && s.rows[k] == ServerRow(WithoutLocal(contract, row.content), s.rows[k].stamp, row.deletedAt, s.rows[k].stamp)
    case None => k in s.rows ==> s.rows[k].deletedAt.Some?
  }

  /** The server's row is news to the client. */
  predicate Ahead(c: Client, s: Server, k: Key) {
    k in s.rows && (c.cursor.None? || s.rows[k].stamp > c.cursor.value)
  }

  /**
   The pull leaves what the request said of the row as it was. A live row has to be dated no earlier than the server's
   write. The soft delete of a pull follows no conflict rule, so a tombstone has to carry the time of the pull already.
   */
  predicate Unmoved(c: Client, s: Server, k: Key) {
    k in c.rows && k in s.rows ==>
      if s.rows[k].deletedAt.None? then c.rows[k].updatedAt >= s.rows[k].updatedAt
      else c.rows[k].updatedAt == s.clock && c.rows[k].deletedAt == Some(s.clock)
  }

  lemma PulledPayload(contract: Contract, c: Client, s: Server, pulled: Client, k: Key)
    requires Sound(contract, c, s) && PullStep(c, s, Stored, contract.tables, pulled)
    requires k.table in contract.tables && JustWritten(contract, c, s, k)
    ensures PayloadOf(contract, Lookup(pulled.rows, k)) == PayloadOf(contract, Lookup(c.rows, k)) <==> Unmoved(c, s, k)
  {
    assert Lookup(pulled.rows, k) == Pulled(Lookup(c.rows, k), k, s, StartOf(c, Stored), contract.tables);
    if k in c.rows {
      var row, theirs := c.rows[k], s.rows[k];
      assert InDelta(s.rows, k, StartOf(c, Stored));
      if theirs.deletedAt.None? && row.updatedAt <= theirs.updatedAt {
        assert WithoutLocal(contract, row.content + theirs.content) == theirs.content;
      }
    }
  }

  /**
   After a lost reply, with nobody writing since, a retry that first pulls is replayed exactly if the pull leaves every
   row of the request as the request says it: a live row that is dated no earlier than the server's write, and a
   tombstone that carries the time of the pull already. Otherwise the request has another body and meets a 409.
   */
  lemma RetryConflictsIff(contract: Contract, c: Client, s: Server, r: Request, pulled: Client)
    requires Sound(contract, c, s) && ReplyLost(contract, c, s, r) && PullStep(c, s, Stored, contract.tables, pulled)
    ensures Answered(pulled, s, r)
    ensures !Conflicts(contract, pulled, s, r) <==> forall k :: k in r ==> Unmoved(c, s, k)
  {
    var was, now := BodyOf(contract, c.rows, r), BodyOf(contract, pulled.rows, r);
    forall i | 0 <= i < |r| ensures was[i] == now[i] <==> Unmoved(c, s, r[i]) {
      PulledPayload(contract, c, s, pulled, r[i]);
    }
    if was == now {
      forall k | k in r ensures Unmoved(c, s, k) {
        var i :| 0 <= i < |r| && r[i] == k;
        assert was[i] == now[i];
      }
    } else {
      var i :| 0 <= i < |r| && was[i] != now[i];
      assert r[i] in r;
    }
  }

  /**
   A tombstone takes the time of the pull, whatever its own date: a request with a deleted row that the server had
   meets a 409 once the client has pulled, unless the tombstone carries that very time.
   */
  lemma DeletedRowConflicts(contract: Contract, c: Client, s: Server, r: Request, k: Key, pulled: Client)
    requires Sound(contract, c, s) && ReplyLost(contract, c, s, r) && PullStep(c, s, Stored, contract.tables, pulled)
    requires k in r && k in c.rows && c.rows[k].deletedAt.Some?
    ensures !(c.rows[k].updatedAt == s.clock && c.rows[k].deletedAt == Some(s.clock)) ==>
      Conflicts(contract, pulled, s, r)
  {
    RetryConflictsIff(contract, c, s, r, pulled);
    assert JustWritten(contract, c, s, k);
  }

  /**
   A 409 comes again: a `sync_now` that pulled and then failed on a request fails on it the next time as well, with
   nobody else writing, as long as the answer is kept and the request is made of the same rows.
   */
  lemma ConflictRepeats(contract: Contract, c: Client, s: Server, pulled: Client, d: Dispatch, handled: nat,
                        torn: set<Key>,
                        c1: Client, s1: Server, again: Client, i: nat)
    requires Sound(contract, c, s) && PullStep(c, s, Stored, contract.tables, pulled)
    requires PushInterruptedStep(contract, pulled, s, d, handled, torn, c1, s1)
    requires PullStep(c1, s1, Stored, contract.tables, again)
    requires handled <= i < |d.requests| && Conflicts(contract, pulled, s, d.requests[i])
    ensures Conflicts(contract, again, s1, d.requests[i])
  {
    var r := d.requests[i];
    PulledCursor(contract, c, s, Stored, contract.tables, pulled);
    forall k | k in r
      ensures k in pulled.pending && k in again.pending && again.pending[k] == pulled.pending[k]
      ensures Lookup(again.rows, k) == Lookup(pulled.rows, k)
    {
      assert InSome(d.requests, k);
      StillConflicting(contract, c, s, pulled, d, handled, torn, c1, s1, again, i, k);
    }
    assert IdsOf(again.pending, r) == IdsOf(pulled.pending, r);
    assert BodyOf(contract, again.rows, r) == BodyOf(contract, pulled.rows, r);
  }

  /** An interrupted push writes nothing of a request that has an answer. */
  lemma NotWritten(contract: Contract, c: Client, s: Server, d: Dispatch, handled: nat, torn: set<Key>, i: nat, k: Key)
    requires Divides(d.requests, Outgoing(contract, c)) && Torn(c, s, d, handled, torn)
    requires handled <= i < |d.requests| && k in d.requests[i] && Answered(c, s, d.requests[i])
    ensures k !in Written(c, s, d.requests[..handled], d.refused) + torn
  {
  }

  lemma StillConflicting(contract: Contract, c: Client, s: Server, pulled: Client, d: Dispatch, handled: nat,
                         torn: set<Key>, c1: Client, s1: Server, again: Client, i: nat, k: Key)
    requires ServerOk(contract, s) && PullStep(c, s, Stored, contract.tables, pulled)
    requires PushInterruptedStep(contract, pulled, s, d, handled, torn, c1, s1)
    requires PullStep(c1, s1, Stored, contract.tables, again)
    requires handled <= i < |d.requests| && k in d.requests[i] && Answered(pulled, s, d.requests[i])
    ensures Lookup(again.rows, k) == Lookup(pulled.rows, k)
  {
    NotWritten(contract, pulled, s, d, handled, torn, i, k);
    assert Find(s1.rows, k) == Find(s.rows, k);
    assert Lookup(again.rows, k) == Pulled(Lookup(c1.rows, k), k, s1, StartOf(c1, Stored), contract.tables);
  }
}
