/**
 The states in which nothing is lost between client and server: every unsynced row is pending, and every row that
 differs waits to be pushed or is news to the client. Every step keeps them, as long as the server refuses nothing and
 no request has been answered before.
 */
module SteadyStates {
  import opened Wrappers
  import opened Store
  import opened SyncSpec
  import opened SyncInvariant
  import opened Answers
  import opened Convergence

  /** Every unsynced row has a pending entry. */
  ghost predicate UnsyncedIsPending(c: Client) {
    forall k :: k in c.rows && !c.rows[k].isSynced ==> k in c.pending
  }

  /** The row waits to be pushed: it is pending, it can be sent, and no pull has overwritten it since. */
  predicate Due(c: Client, k: Key) {
    k in c.pending && !Orphan(c, k) && !(k in c.rows && c.rows[k].isSynced)
  }

  ghost predicate ReconciledAt(contract: Contract, c: Client, s: Server, k: Key) {
    Due(c, k) || Agree(contract, c, s, k) || Ahead(c, s, k)
  }

  ghost predicate Reconciled(contract: Contract, c: Client, s: Server) {
    forall k :: ReconciledAt(contract, c, s, k)
  }

  ghost predicate Steady(contract: Contract, c: Client, s: Server) {
    Sound(contract, c, s) && UnsyncedIsPending(c) && Reconciled(contract, c, s)
  }

  // ---------------------------------------------------------------------------------------------
  // Each step keeps rows reconciled
  // ---------------------------------------------------------------------------------------------

  /** A pull does so if it reads every table with news, or leaves the cursor where it was. */
  lemma PullReconciles(contract: Contract, c: Client, s: Server, start: StartCursor, tables: set<string>,
                       pulled: Client,
                       next: Client, k: Key)
    requires Sound(contract, c, s) && UnsyncedIsPending(c) && ReconciledAt(contract, c, s, k)
    requires PullStep(c, s, start, tables, pulled)
    requires next == pulled.(cursor := c.cursor) || (next == pulled && Covers(contract, c, s, start, tables))
    ensures ReconciledAt(contract, next, s, k)
  {
    var ts := StartOf(c, start);
    assert Lookup(next.rows, k) == Pulled(Lookup(c.rows, k), k, s, ts, tables);
    if k.table in tables && InDelta(s.rows, k, ts) {
      if Protected(Lookup(c.rows, k), StatementOf(k, s.rows[k], s.clock)) {
        assert Due(next, k);
      } else {
        PulledAgrees(contract, c, s, k, next);
      }
    } else if Ahead(c, s, k) && InDelta(s.rows, k, ts) {
      assert HasDelta(s.rows, k.table, ts);
    }
  }

  lemma PullKeepsPending(c: Client, s: Server, start: StartCursor, tables: set<string>, next: Client)
    requires UnsyncedIsPending(c) && PullStep(c, s, start, tables, next)
    ensures UnsyncedIsPending(next)
  {
    forall k | k in next.rows && !next.rows[k].isSynced ensures k in next.pending {
      assert Lookup(next.rows, k) == Pulled(Lookup(c.rows, k), k, s, StartOf(c, start), tables);
    }
  }

  lemma PullSteady(contract: Contract, c: Client, s: Server, start: StartCursor, tables: set<string>, next: Client)
    requires Steady(contract, c, s)
    requires PullStep(c, s, start, tables, next) && Covers(contract, c, s, start, tables)
    ensures Steady(contract, next, s)
  {
    PullSound(contract, c, s, start, tables, next);
    PullKeepsPending(c, s, start, tables, next);
    forall k ensures ReconciledAt(contract, next, s, k) {
      PullReconciles(contract, c, s, start, tables, next, next, k);
    }
  }

  /** A push in full leaves no row unsynced, whether its requests are run or replayed. */
  lemma PushKeepsPending(contract: Contract, c: Client, s: Server, d: Dispatch, next: Client, s': Server)
    requires ClientOk(contract, c) && UnsyncedIsPending(c) && AllGranted(s) && d.refused == {}
    requires PushStep(contract, c, s, d, next, s')
    ensures UnsyncedIsPending(next) && next.pending == map[]
  {
    PushEmptiesOutbox(contract, c, s, d, next, s');
    AcceptedInFull(contract, c, s, d);
    forall k | k in next.rows ensures next.rows[k].isSynced {
      assert Lookup(next.rows, k) == Marked(Lookup(c.rows, k), k in Accepted(c, s, d) && k !in next.pending);
    }
  }

  /** Of the rows sent, those that are written are reconciled afterwards; a replayed one is if it agrees or is news. */
  lemma PushReconciles(contract: Contract, c: Client, s: Server, d: Dispatch, next: Client, s': Server, k: Key)
    requires Sound(contract, c, s) && AllGranted(s) && d.refused == {} && PushStep(contract, c, s, d, next, s')
    ensures ReconciledAt(contract, next, s', k) <==>
      k in Written(c, s, d.requests, {}) || Agree(contract, c, s, k) || Ahead(c, s, k)
  {
    PushEmptiesOutbox(contract, c, s, d, next, s');
    assert Lookup(next.rows, k) == Marked(Lookup(c.rows, k), k in Accepted(c, s, d) && k !in next.pending);
    if k in Written(c, s, d.requests, {}) {
      assert WrittenBy(contract, Lookup(c.rows, k), Find(s.rows, k), Find(s'.rows, k), s.clock, s'.clock);
    } else {
      assert Find(s'.rows, k) == Find(s.rows, k);
    }
  }

  lemma DueIsWritten(contract: Contract, c: Client, s: Server, d: Dispatch, k: Key)
    requires ClientOk(contract, c) && Divides(d.requests, Outgoing(contract, c)) && FirstTime(c, s, d.requests) &&
      Due(c, k)
    ensures k in Written(c, s, d.requests, {})
  {
    assert k in Outgoing(contract, c) && InSome(d.requests, k);
  }

  lemma PushSteady(contract: Contract, c: Client, s: Server, d: Dispatch, next: Client, s': Server)
    requires Steady(contract, c, s) && AllGranted(s) && d.refused == {} && FirstTime(c, s, d.requests)
    requires PushStep(contract, c, s, d, next, s')
    ensures Steady(contract, next, s') && next.pending == map[]
  {
    PushSound(contract, c, s, d, next, s');
    PushKeepsPending(contract, c, s, d, next, s');
    forall k ensures ReconciledAt(contract, next, s', k) {
      PushReconciles(contract, c, s, d, next, s', k);
      assert ReconciledAt(contract, c, s, k);
      if Due(c, k) {
        DueIsWritten(contract, c, s, d, k);
      }
    }
  }

  lemma GcSteady(contract: Contract, c: Client, s: Server, next: Client)
    requires Steady(contract, c, s) && GcStep(c, next)
    ensures Steady(contract, next, s)
  {
    GcSound(contract, c, s, next);
    forall k
      ensures ReconciledAt(contract, next, s, k)
      ensures k in next.rows && !next.rows[k].isSynced ==> k in next.pending
    {
      assert Lookup(next.rows, k) == Collected(Lookup(c.rows, k));
      assert ReconciledAt(contract, c, s, k);
    }
  }

  lemma RemoteSteady(contract: Contract, c: Client, s: Server, s': Server)
    requires Steady(contract, c, s) && Advances(contract, s, s')
    ensures Steady(contract, c, s')
  {
    RemoteSound(contract, c, s, s');
    forall k ensures ReconciledAt(contract, c, s', k) {
      assert ReconciledAt(contract, c, s, k);
      assert Find(s'.rows, k) == Find(s.rows, k) || (k in s'.rows && s.clock < s'.rows[k].stamp);
    }
  }

  /** A local write does so if it leaves the row there, unsynced. */
  lemma LocalWriteSteady(contract: Contract, c: Client, s: Server, k: Key, row: Option<LocalRow>, operation: Operation,
                         next: Client)
    requires Steady(contract, c, s) && LocalWrite(contract, c, k, row, operation, next)
    requires row.Some? && !row.value.isSynced
    ensures Steady(contract, next, s)
  {
    LocalWriteSound(contract, c, s, k, row, operation, next);
    forall x ensures ReconciledAt(contract, next, s, x) {
      assert ReconciledAt(contract, c, s, x);
    }
  }

  /** A push that stops half-way, after requests that were run: what was written is news to the client. */
  lemma PushInterruptedSteady(contract: Contract, c: Client, s: Server, d: Dispatch, handled: nat, torn: set<Key>,
                              next: Client, s': Server)
    requires Steady(contract, c, s) && PushInterruptedStep(contract, c, s, d, handled, torn, next, s')
    ensures Steady(contract, next, s')
  {
    PushInterruptedSound(contract, c, s, d, handled, torn, next, s');
    RemoteSteady(contract, c, s, s');
    forall k ensures ReconciledAt(contract, next, s', k) {
      assert ReconciledAt(contract, c, s', k);
    }
  }

  // ---------------------------------------------------------------------------------------------
  // Whole syncs
  // ---------------------------------------------------------------------------------------------

  lemma SettleSteady(contract: Contract, c: Client, s: Server, d: Dispatch, next: Client, s': Server)
    requires Steady(contract, c, s) && AllGranted(s) && d.refused == {} && FirstTime(c, s, d.requests)
    requires PushAndSettle(contract, c, s, d, next, s')
    ensures Steady(contract, next, s')
  {
    var pushed := SettleIsPushAndGc(contract, c, s, d, next, s');
    PushSteady(contract, c, s, d, pushed, s');
    GcSteady(contract, pushed, s', next);
  }

  /** A `sync_now` that nothing is refused to, and whose requests were not answered before. */
  lemma SyncNowSteady(contract: Contract, c: Client, s: Server, s1: Server, d: Dispatch, next: Client, s': Server)
    requires Steady(contract, c, s) && Remote(contract, s, s1)
    requires AllGranted(s1) && d.refused == {} && FirstTime(c, s1, d.requests)
    requires SyncNowStep(contract, c, s, s1, d, next, s')
    ensures Steady(contract, next, s')
  {
    RemoteSteady(contract, c, s, s1);
    match ModeOf(contract, c, s)
    case NoOp =>
    case PushOnly =>
      SettleSteady(contract, c, s1, d, next, s');
    case PullOnly =>
      var tables := ChangedTables(contract, s, c.cursor.value);
      var pulled :| PullStep(c, s, Stored, tables, pulled) && GcStep(pulled, next);
      PullSteady(contract, c, s, Stored, tables, pulled);
      GcSteady(contract, pulled, s, next);
      RemoteSteady(contract, next, s, s1);
    case FullSync =>
      var tables := ChangedTables(contract, s, c.cursor.value);
      var pulled :| PullStep(c, s, Stored, tables, pulled) && PushAndSettle(contract, pulled, s1, d, next, s');
      PullSteady(contract, c, s, Stored, tables, pulled);
      RemoteSteady(contract, pulled, s, s1);
      SettleSteady(contract, pulled, s1, d, next, s');
    case FullResync =>
      FullResyncSteady(contract, c, s, s1, d, next, s');
  }

  lemma FullResyncSteady(contract: Contract, c: Client, s: Server, s1: Server, d: Dispatch, next: Client, s': Server)
    requires Steady(contract, c, s) && Remote(contract, s, s1)
    requires AllGranted(s1) && d.refused == {} && FirstTime(c, s1, d.requests)
    requires FullResyncStep(contract, c, s, s1, d, next, s')
    ensures Steady(contract, next, s')
  {
    var pulled, pushed :|
      && PullStep(c, s, Baseline, contract.tables, pulled)
      && PushStep(contract, pulled, s1, d, pushed, s')
      && GcStep(pushed, next);
    PullSteady(contract, c, s, Baseline, contract.tables, pulled);
    RemoteSteady(contract, pulled, s, s1);
    PushSteady(contract, pulled, s1, d, pushed, s');
    GcSteady(contract, pushed, s', next);
  }

  // ---------------------------------------------------------------------------------------------
  // Who is left apart
  // ---------------------------------------------------------------------------------------------

  lemma PulledOutgoing(contract: Contract, c: Client, s: Server, start: StartCursor, tables: set<string>,
                       pulled: Client, k: Key)
    requires Sound(contract, c, s) && PullStep(c, s, start, tables, pulled) && (start.Stored? || c.cursor.None?)
    ensures k in c.pending && !Orphan(c, k) ==> k in Outgoing(contract, pulled)
    ensures Orphan(c, k) && !Replaced(c, s, k) ==> k !in Outgoing(contract, pulled)
    ensures k !in c.pending ==> k !in Outgoing(contract, pulled)
  {
    assert Lookup(pulled.rows, k) == Pulled(Lookup(c.rows, k), k, s, StartOf(c, start), tables);
  }

  lemma SettleCovers(contract: Contract, c: Client, s: Server, d: Dispatch, next: Client, s': Server, k: Key)
    requires PushAndSettle(contract, c, s, d, next, s')
    ensures k in Outgoing(contract, c) <==> InSome(d.requests, k)
  {
  }

  /**
   The requests of a `sync_now` carry what is pending with its row, and not what is pending without it or not at all.
   */
  lemma DispatchCovers(contract: Contract, c: Client, s: Server, d: Dispatch, next: Client, s': Server, k: Key)
    requires Sound(contract, c, s) && SyncNowStep(contract, c, s, s, d, next, s')
    ensures k in c.pending && !Orphan(c, k) ==> InSome(d.requests, k)
    ensures Orphan(c, k) && !Replaced(c, s, k) ==> !InSome(d.requests, k)
    ensures k !in c.pending ==> !InSome(d.requests, k)
  {
    match ModeOf(contract, c, s)
    case NoOp =>
    case PullOnly =>
    case PushOnly =>
      SettleCovers(contract, c, s, d, next, s', k);
    case FullSync =>
      var tables := ChangedTables(contract, s, c.cursor.value);
      var pulled :| PullStep(c, s, Stored, tables, pulled) && PushAndSettle(contract, pulled, s, d, next, s');
      PulledOutgoing(contract, c, s, Stored, tables, pulled, k);
      SettleCovers(contract, pulled, s, d, next, s', k);
    case FullResync =>
      var pulled, pushed :|
        PullStep(c, s, Baseline, contract.tables, pulled) && PushStep(contract, pulled, s, d, pushed, s');
      PulledOutgoing(contract, c, s, Baseline, contract.tables, pulled, k);
  }

  /** From a steady state, only a request that was answered before leaves a row apart. */
  lemma SteadyLeftApart(contract: Contract, c: Client, s: Server, d: Dispatch, next: Client, s': Server, k: Key)
    requires Steady(contract, c, s) && SyncNowStep(contract, c, s, s, d, next, s')
    requires LeftApart(contract, c, s, d.requests, k)
    ensures exists r :: r in d.requests && k in r && Answered(c, s, r)
  {
    assert ReconciledAt(contract, c, s, k);
    DispatchCovers(contract, c, s, d, next, s', k);
    assert InSome(d.requests, k);
    var r :| r in d.requests && k in r;
  }

  /** From a steady state, two `sync_now` calls whose requests were not answered before converge. */
  lemma TwoSyncsConverge(contract: Contract, c: Client, s: Server, d: Dispatch, c1: Client, s1: Server, d1: Dispatch,
                         c2: Client, s2: Server)
    requires Steady(contract, c, s) && AllGranted(s) && d.refused == {} && FirstTime(c, s, d.requests)
    requires SyncNowStep(contract, c, s, s, d, c1, s1) && SyncNowStep(contract, c1, s1, s1, d1, c2, s2)
    ensures Converged(contract, c2, s2) && c2.pending == map[]
  {
    ConvergesIff(contract, c, s, d, c1, s1, d1, c2, s2);
    forall k ensures !LeftApart(contract, c, s, d.requests, k) {
      if LeftApart(contract, c, s, d.requests, k) {
        SteadyLeftApart(contract, c, s, d, c1, s1, k);
        assert false;
      }
    }
  }

  /** A pending insert or update without its row, of a row the server shows and will not send again. */
  ghost predicate HiddenOrphan(contract: Contract, c: Client, s: Server, k: Key) {
    Orphan(c, k) && ServerView(Find(s.rows, k)) != Absent && !Ahead(c, s, k)
  }

  /** A row that differs is pending or news to the client. */
  ghost predicate PendingOrNews(contract: Contract, c: Client, s: Server) {
    forall k :: k in c.pending || Agree(contract, c, s, k) || Ahead(c, s, k)
  }

  lemma LeftApartIsHiddenOrphan(contract: Contract, c: Client, s: Server, d: Dispatch, next: Client, s': Server, k: Key)
    requires Sound(contract, c, s) && UnsyncedIsPending(c) && PendingOrNews(contract, c, s)
    requires FirstTime(c, s, d.requests) && SyncNowStep(contract, c, s, s, d, next, s')
    ensures LeftApart(contract, c, s, d.requests, k) <==> HiddenOrphan(contract, c, s, k)
  {
    DispatchCovers(contract, c, s, d, next, s', k);
    assert k in c.pending || Agree(contract, c, s, k) || Ahead(c, s, k);
    assert k in Written(c, s, d.requests, {}) <==> InSome(d.requests, k);
  }

  /**
   From any state in which every unsynced row is pending and every other difference is pending or news, two `sync_now`
   calls whose requests were not answered before converge exactly if there is no hidden orphan.
   */
  lemma ConvergesIffNoHiddenOrphan(contract: Contract, c: Client, s: Server, d: Dispatch, c1: Client, s1: Server,
                                   d1: Dispatch, c2: Client, s2: Server)
    requires Sound(contract, c, s) && UnsyncedIsPending(c) && PendingOrNews(contract, c, s)
    requires AllGranted(s) && d.refused == {} && FirstTime(c, s, d.requests)
    requires SyncNowStep(contract, c, s, s, d, c1, s1) && SyncNowStep(contract, c1, s1, s1, d1, c2, s2)
    ensures Converged(contract, c2, s2) <==> forall k :: !HiddenOrphan(contract, c, s, k)
  {
    ConvergesIff(contract, c, s, d, c1, s1, d1, c2, s2);
    forall k ensures LeftApart(contract, c, s, d.requests, k) <==> HiddenOrphan(contract, c, s, k) {
      LeftApartIsHiddenOrphan(contract, c, s, d, c1, s1, k);
    }
  }
}
