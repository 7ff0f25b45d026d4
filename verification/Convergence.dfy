/**
 Convergence: what two `sync_now` calls in a row make of client and server when nobody else writes meanwhile. A row ends
 up the same on both sides exactly if it already is, or the pull replaces the client's, or the push has the server write
 it; the last fails for a request that the idempotency guard has answered before.
 */
module Convergence {
  import opened Store
  import opened SyncSpec
  import opened SyncInvariant
  import opened Answers

  // ---------------------------------------------------------------------------------------------
  // The condition
  // ---------------------------------------------------------------------------------------------

  /** The pull brings the server's row, and the conflict rule does not protect the client's. */
  predicate Replaced(c: Client, s: Server, k: Key) {
    InDelta(s.rows, k, StartOf(c, Stored)) && !Protected(Lookup(c.rows, k), StatementOf(k, s.rows[k], s.clock))
  }

  /** A row that differs, that the pull does not replace, and that no request carries which the guard will run. */
  ghost predicate LeftApart(contract: Contract, c: Client, s: Server, requests: seq<Request>, k: Key) {
    !Agree(contract, c, s, k) && !Replaced(c, s, k) && k !in Written(c, s, requests, {})
  }

  // ---------------------------------------------------------------------------------------------
  // What each step does to a row
  // ---------------------------------------------------------------------------------------------

  /** A pulled row that the conflict rule does not protect agrees with the server's. */
  lemma PulledAgrees(contract: Contract, c: Client, s: Server, k: Key, next: Client)
    requires Sound(contract, c, s) && k in s.rows
    requires Lookup(next.rows, k) == Effect(Lookup(c.rows, k), StatementOf(k, s.rows[k], s.clock))
    requires !Protected(Lookup(c.rows, k), StatementOf(k, s.rows[k], s.clock))
    ensures Agree(contract, next, s, k)
    ensures k in next.rows ==> next.rows[k].isSynced
  {
  }

  /** A pull that moves the cursor, from the stored one or because there is none. */
  lemma PullStage(contract: Contract, c: Client, s: Server, start: StartCursor, tables: set<string>, next: Client,
                  k: Key)
    requires Sound(contract, c, s) && PullStep(c, s, start, tables, next)
    requires start.Stored? || c.cursor.None?
    requires ChangedTables(contract, s, StartOf(c, Stored)) <= tables
    ensures Agree(contract, next, s, k) <==> Agree(contract, c, s, k) || Replaced(c, s, k)
    ensures next.cursor.Some? && !Ahead(next, s, k)
  {
    var ts := StartOf(c, Stored);
    assert Lookup(next.rows, k) == Pulled(Lookup(c.rows, k), k, s, ts, tables);
    if InDelta(s.rows, k, ts) {
      assert HasDelta(s.rows, k.table, ts) && k.table in ChangedTables(contract, s, ts);
      if Replaced(c, s, k) {
        PulledAgrees(contract, c, s, k, next);
      }
    }
  }

  /** A written row is news to the client, which will take it: its own row is marked as synced. */
  predicate Returns(c: Client, s: Server, k: Key) {
    if k in s.rows then Ahead(c, s, k) && (k in c.rows ==> c.rows[k].isSynced) else k !in c.rows
  }

  /** A push without refusals: a row that is written comes back, the others stay as far apart as they were. */
  lemma PushStage(contract: Contract, c: Client, s: Server, d: Dispatch, next: Client, s': Server, k: Key)
    requires Sound(contract, c, s) && c.cursor.Some? && AllGranted(s) && d.refused == {}
    requires PushStep(contract, c, s, d, next, s')
    ensures k in Written(c, s, d.requests, {}) ==> Returns(next, s', k)
    ensures k !in Written(c, s, d.requests, {}) ==>
      Find(s'.rows, k) == Find(s.rows, k) && (Agree(contract, next, s', k) <==> Agree(contract, c, s, k))
  {
    PushEmptiesOutbox(contract, c, s, d, next, s');
    assert Lookup(next.rows, k) == Marked(Lookup(c.rows, k), k in Accepted(c, s, d) && k !in next.pending);
    if k in Written(c, s, d.requests, {}) {
      assert WrittenBy(contract, Lookup(c.rows, k), Find(s.rows, k), Find(s'.rows, k), s.clock, s'.clock);
    } else {
      assert Find(s'.rows, k) == Find(s.rows, k);
    }
  }

  lemma GcStage(contract: Contract, c: Client, s: Server, next: Client, k: Key)
    requires GcStep(c, next)
    ensures Agree(contract, next, s, k) <==> Agree(contract, c, s, k)
    ensures Returns(c, s, k) ==> Returns(next, s, k)
    ensures Ahead(next, s, k) <==> Ahead(c, s, k)
  {
    assert Lookup(next.rows, k) == Collected(Lookup(c.rows, k));
  }

  // ---------------------------------------------------------------------------------------------
  // What a sync does to a row
  // ---------------------------------------------------------------------------------------------

  /** Row `k` of `c1` and `s1`, after a sync that started from `c` and `s`. */
  ghost predicate AfterSync(contract: Contract, c: Client, s: Server, requests: seq<Request>, c1: Client, s1: Server,
                            k: Key)
  {
    if k in Written(c, s, requests, {}) then Returns(c1, s1, k)
    else !Ahead(c1, s1, k) && (Agree(contract, c1, s1, k) <==> Agree(contract, c, s, k) || Replaced(c, s, k))
  }

  /** Push and garbage collection behind a pull, or where there was nothing to pull. */
  lemma PushedAfterSync(contract: Contract, c: Client, s: Server, d: Dispatch, pulled: Client, pushed: Client,
                        s1: Server,
                        c1: Client, k: Key)
    requires Sound(contract, pulled, s) && pulled.cursor.Some? && AllGranted(s) && d.refused == {}
    requires pulled.pending == c.pending && !Ahead(pulled, s, k)
    requires Agree(contract, pulled, s, k) <==> Agree(contract, c, s, k) || Replaced(c, s, k)
    requires PushStep(contract, pulled, s, d, pushed, s1) && GcStep(pushed, c1)
    ensures AfterSync(contract, c, s, d.requests, c1, s1, k)
  {
    SamePending(c, pulled, s, d.requests, {});
    PushStage(contract, pulled, s, d, pushed, s1, k);
    GcStage(contract, pushed, s1, c1, k);
  }

  /** With no changed tables no row is news, so none is replaced. */
  lemma NothingReplaced(contract: Contract, c: Client, s: Server, k: Key)
    requires Sound(contract, c, s) && c.cursor.Some? && ChangedTables(contract, s, c.cursor.value) == {}
    ensures !Ahead(c, s, k) && !Replaced(c, s, k)
  {
    var ts := c.cursor.value;
    assert InDelta(s.rows, k, ts) ==> HasDelta(s.rows, k.table, ts) && k.table in ChangedTables(contract, s, ts);
  }

  lemma SettleIsPushAndGc(contract: Contract, c: Client, s: Server, d: Dispatch, next: Client, s': Server)
    returns (pushed: Client)
    requires AllGranted(s) && d.refused == {} && PushAndSettle(contract, c, s, d, next, s')
    ensures PushStep(contract, c, s, d, pushed, s') && GcStep(pushed, next)
  {
    pushed :| PushStep(contract, c, s, d, pushed, s') &&
      exists settled ::
        && (if RejectedTables(contract, c, s, d) == {} then settled == pushed
            else PullStep(pushed, s', Baseline, RejectedTables(contract, c, s, d), settled))
        && GcStep(settled, next);
    AcceptedInFull(contract, c, s, d);
  }

  lemma SyncNowRow(contract: Contract, c: Client, s: Server, d: Dispatch, c1: Client, s1: Server, k: Key)
    requires Sound(contract, c, s) && AllGranted(s) && d.refused == {}
    requires SyncNowStep(contract, c, s, s, d, c1, s1)
    ensures AfterSync(contract, c, s, d.requests, c1, s1, k)
  {
    match ModeOf(contract, c, s)
    case NoOp =>
      NothingReplaced(contract, c, s, k);
    case PushOnly =>
      NothingReplaced(contract, c, s, k);
      var pushed := SettleIsPushAndGc(contract, c, s, d, c1, s1);
      PushedAfterSync(contract, c, s, d, c, pushed, s1, c1, k);
    case PullOnly =>
      var tables := ChangedTables(contract, s, c.cursor.value);
      var pulled :| PullStep(c, s, Stored, tables, pulled) && GcStep(pulled, c1);
      PullStage(contract, c, s, Stored, tables, pulled, k);
      GcStage(contract, pulled, s, c1, k);
    case FullSync =>
      FullSyncRow(contract, c, s, d, c1, s1, k);
    case FullResync =>
      FullResyncRow(contract, c, s, d, c1, s1, k);
  }

  lemma FullSyncRow(contract: Contract, c: Client, s: Server, d: Dispatch, c1: Client, s1: Server, k: Key)
    requires Sound(contract, c, s) && AllGranted(s) && d.refused == {} && c.cursor.Some?
    requires FullSyncStep(contract, c, s, s, ChangedTables(contract, s, c.cursor.value), d, c1, s1)
    ensures AfterSync(contract, c, s, d.requests, c1, s1, k)
  {
    var tables := ChangedTables(contract, s, c.cursor.value);
    var pulled :| PullStep(c, s, Stored, tables, pulled) && PushAndSettle(contract, pulled, s, d, c1, s1);
    PullStage(contract, c, s, Stored, tables, pulled, k);
    PullSound(contract, c, s, Stored, tables, pulled);
    var pushed := SettleIsPushAndGc(contract, pulled, s, d, c1, s1);
    PushedAfterSync(contract, c, s, d, pulled, pushed, s1, c1, k);
  }

  lemma FullResyncRow(contract: Contract, c: Client, s: Server, d: Dispatch, c1: Client, s1: Server, k: Key)
    requires Sound(contract, c, s) && AllGranted(s) && d.refused == {} && c.cursor.None?
    requires FullResyncStep(contract, c, s, s, d, c1, s1)
    ensures AfterSync(contract, c, s, d.requests, c1, s1, k)
  {
    var pulled, pushed :|
      && PullStep(c, s, Baseline, contract.tables, pulled)
      && PushStep(contract, pulled, s, d, pushed, s1)
      && GcStep(pushed, c1);
    PullStage(contract, c, s, Baseline, contract.tables, pulled, k);
    PullSound(contract, c, s, Baseline, contract.tables, pulled);
    PushedAfterSync(contract, c, s, d, pulled, pushed, s1, c1, k);
  }

  lemma SettleEmptiesOutbox(contract: Contract, c: Client, s: Server, d: Dispatch, next: Client, s': Server)
    requires ClientOk(contract, c) && AllGranted(s) && d.refused == {} && PushAndSettle(contract, c, s, d, next, s')
    ensures next.pending == map[]
  {
    var pushed := SettleIsPushAndGc(contract, c, s, d, next, s');
    PushEmptiesOutbox(contract, c, s, d, pushed, s');
  }

  lemma FullResyncEmptiesOutbox(contract: Contract, c: Client, s: Server, s1: Server, d: Dispatch, next: Client,
                                s': Server)
    requires Sound(contract, c, s) && AllGranted(s1) && d.refused == {}
    requires FullResyncStep(contract, c, s, s1, d, next, s')
    ensures next.pending == map[]
  {
    var pulled, pushed :|
      && PullStep(c, s, Baseline, contract.tables, pulled)
      && PushStep(contract, pulled, s1, d, pushed, s')
      && GcStep(pushed, next);
    PullSound(contract, c, s, Baseline, contract.tables, pulled);
    PushEmptiesOutbox(contract, pulled, s1, d, pushed, s');
  }

  /** After a sync that nothing is refused to, nothing is pending. */
  lemma SyncNowEmptiesOutbox(contract: Contract, c: Client, s: Server, s1: Server, d: Dispatch, next: Client,
                             s': Server)
    requires Sound(contract, c, s) && AllGranted(s1) && d.refused == {}
    requires SyncNowStep(contract, c, s, s1, d, next, s')
    ensures next.pending == map[]
  {
    match ModeOf(contract, c, s)
    case NoOp =>
    case PullOnly =>
    case PushOnly =>
      SettleEmptiesOutbox(contract, c, s1, d, next, s');
    case FullSync =>
      var tables := ChangedTables(contract, s, c.cursor.value);
      var pulled :| PullStep(c, s, Stored, tables, pulled) && PushAndSettle(contract, pulled, s1, d, next, s');
      PullSound(contract, c, s, Stored, tables, pulled);
      SettleEmptiesOutbox(contract, pulled, s1, d, next, s');
    case FullResync =>
      FullResyncEmptiesOutbox(contract, c, s, s1, d, next, s');
  }

  // ---------------------------------------------------------------------------------------------
  // Two syncs
  // ---------------------------------------------------------------------------------------------

  /** With nothing pending, a `sync_now` makes a row agree exactly if it does already or the pull replaces it. */
  lemma QuietSyncRow(contract: Contract, c: Client, s: Server, d: Dispatch, next: Client, s': Server, k: Key)
    requires Sound(contract, c, s) && c.pending == map[] && c.cursor.Some? &&
      SyncNowStep(contract, c, s, s, d, next, s')
    ensures Agree(contract, next, s', k) <==> Agree(contract, c, s, k) || Replaced(c, s, k)
  {
    var tables := ChangedTables(contract, s, c.cursor.value);
    if tables == {} {
      NothingReplaced(contract, c, s, k);
    } else {
      var pulled :| PullStep(c, s, Stored, tables, pulled) && GcStep(pulled, next);
      PullStage(contract, c, s, Stored, tables, pulled, k);
      GcStage(contract, pulled, s, next, k);
    }
  }

  /** What comes back is replaced; what is no news is not. */
  lemma ReturnsIsReplaced(contract: Contract, c: Client, s: Server, k: Key)
    requires Sound(contract, c, s) && c.cursor.Some?
    ensures Returns(c, s, k) ==> Agree(contract, c, s, k) || Replaced(c, s, k)
    ensures !Ahead(c, s, k) ==> !Replaced(c, s, k)
  {
  }

  lemma TwoSyncsRow(contract: Contract, c: Client, s: Server, d: Dispatch, c1: Client, s1: Server, d1: Dispatch,
                    c2: Client, s2: Server, k: Key)
    requires Sound(contract, c, s) && AllGranted(s) && d.refused == {} && SyncNowStep(contract, c, s, s, d, c1, s1)
    requires Sound(contract, c1, s1) && c1.cursor.Some? && c1.pending == map[]
    requires SyncNowStep(contract, c1, s1, s1, d1, c2, s2)
    ensures Agree(contract, c2, s2, k) <==> !LeftApart(contract, c, s, d.requests, k)
  {
    SyncNowRow(contract, c, s, d, c1, s1, k);
    QuietSyncRow(contract, c1, s1, d1, c2, s2, k);
    ReturnsIsReplaced(contract, c1, s1, k);
  }

  /**
   Two `sync_now` calls that go through, with nothing refused and nobody else writing, leave client and server with the
   same visible rows exactly if at the start every row that differs is one that the pull replaces or that is carried by
   a request the guard has no answer for. Nothing is pending afterwards.
   */
  lemma ConvergesIff(contract: Contract, c: Client, s: Server, d: Dispatch, c1: Client, s1: Server, d1: Dispatch,
                     c2: Client, s2: Server)
    requires Sound(contract, c, s) && AllGranted(s) && d.refused == {}
    requires SyncNowStep(contract, c, s, s, d, c1, s1) && SyncNowStep(contract, c1, s1, s1, d1, c2, s2)
    ensures Converged(contract, c2, s2) <==> forall k :: !LeftApart(contract, c, s, d.requests, k)
    ensures c2.pending == map[]
  {
    SyncNowSound(contract, c, s, s, d, c1, s1);
    SyncNowEmptiesOutbox(contract, c, s, s, d, c1, s1);
    forall k ensures Agree(contract, c2, s2, k) <==> !LeftApart(contract, c, s, d.requests, k) {
      TwoSyncsRow(contract, c, s, d, c1, s1, d1, c2, s2, k);
    }
  }
}
