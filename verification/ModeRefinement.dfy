/**
 The choice of mode is invisible: with a cursor stored and a server that does not change meanwhile, every mode of
 `sync_now` does what pulling all tables and then pushing does.
 */
module ModeRefinement {
  import opened Wrappers
  import opened Store
  import opened SyncSpec
  import opened SyncInvariant
  import opened Answers
  import opened PossibleSteps

  /** The same rows to look at, the same outbox, and the same news from the server's point of view. */
  ghost predicate Alike(contract: Contract, a: Client, b: Client, s: Server) {
    && a.pending == b.pending
    && a.cursor.Some? && b.cursor.Some?
    && forall k ::
        && LocalView(contract, Lookup(a.rows, k)) == LocalView(contract, Lookup(b.rows, k))
        && (InDelta(s.rows, k, a.cursor.value) <==> InDelta(s.rows, k, b.cursor.value))
  }

  // ---------------------------------------------------------------------------------------------
  // Steps without effect
  // ---------------------------------------------------------------------------------------------

  /** Collecting garbage hides nothing that was visible. */
  lemma GcKeepsViews(contract: Contract, c: Client, next: Client, k: Key)
    requires GcStep(c, next)
    ensures LocalView(contract, Lookup(next.rows, k)) == LocalView(contract, Lookup(c.rows, k))
  {
  }

  /** A push with nothing pending sends nothing. */
  lemma EmptyPush(contract: Contract, c: Client, s: Server, d: Dispatch)
    requires c.pending == map[] && d.requests == []
    ensures PushStep(contract, c, s, d, c, s) && RejectedTables(contract, c, s, d) == {}
  {
  }

  lemma EmptySettle(contract: Contract, c: Client, s: Server, d: Dispatch, next: Client)
    requires c.pending == map[] && d.requests == [] && GcStep(c, next)
    ensures PushAndSettle(contract, c, s, d, next, s)
  {
    EmptyPush(contract, c, s, d);
  }

  // ---------------------------------------------------------------------------------------------
  // Asking for the changed tables only
  // ---------------------------------------------------------------------------------------------

  /** Asking for the changed tables brings the same rows as asking for all. */
  lemma FilterIsHarmless(contract: Contract, c: Client, s: Server, next: Client)
    requires ServerOk(contract, s)
    ensures PullStep(c, s, Stored, ChangedTables(contract, s, StartOf(c, Stored)), next)
      <==> PullStep(c, s, Stored, contract.tables, next)
  {
    var ts := StartOf(c, Stored);
    var changed := ChangedTables(contract, s, ts);
    forall k | InDelta(s.rows, k, ts) ensures k.table in changed && k.table in contract.tables {
      assert HasDelta(s.rows, k.table, ts);
    }
    assert Deliveries(s, ts, changed) == Deliveries(s, ts, contract.tables);
    assert forall was, k :: Pulled(was, k, s, ts, changed) == Pulled(was, k, s, ts, contract.tables);
  }

  lemma NoNews(contract: Contract, s: Server, ts: nat, k: Key)
    requires ServerOk(contract, s) && ChangedTables(contract, s, ts) == {}
    ensures !InDelta(s.rows, k, ts)
  {
    assert InDelta(s.rows, k, ts) ==> HasDelta(s.rows, k.table, ts) && k.table in ChangedTables(contract, s, ts);
  }

  /** With no changed tables, pulling all of them changes the cursor at most. */
  lemma NoNewsPull(contract: Contract, c: Client, s: Server) returns (next: Client)
    requires Sound(contract, c, s) && c.cursor.Some? && ChangedTables(contract, s, c.cursor.value) == {}
    ensures PullStep(c, s, Stored, contract.tables, next)
    ensures next == c.(cursor := next.cursor) && next.cursor.Some?
    ensures s.rows != map[] ==> next.cursor.value <= c.cursor.value
    ensures s.rows == map[] ==> next.cursor.value == s.clock
  {
    var latest := LatestExists(s);
    next := c.(cursor := Some(latest));
    var ts := c.cursor.value;
    forall k ensures !InDelta(s.rows, k, ts) {
      NoNews(contract, s, ts, k);
    }
    assert Deliveries(s, ts, contract.tables) == {};
  }

  /** A push, a baseline pull with a cursor stored, and garbage collection do not look at the cursor. */
  lemma PushIgnoresCursor(contract: Contract, c: Client, s: Server, d: Dispatch, next: Client, s': Server, cursor: nat)
    requires PushStep(contract, c, s, d, next, s')
    ensures PushStep(contract, c.(cursor := Some(cursor)), s, d, next.(cursor := Some(cursor)), s')
    ensures RejectedTables(contract, c.(cursor := Some(cursor)), s, d) == RejectedTables(contract, c, s, d)
  {
    var moved := c.(cursor := Some(cursor));
    assert Outgoing(contract, moved) == Outgoing(contract, c) &&
      Quarantined(contract, moved) == Quarantined(contract, c);
    SamePending(c, moved, s, d.requests, d.refused);
  }

  lemma BaselineIgnoresCursor(c: Client, s: Server, tables: set<string>, next: Client, cursor: nat)
    requires PullStep(c, s, Baseline, tables, next) && c.cursor.Some?
    ensures PullStep(c.(cursor := Some(cursor)), s, Baseline, tables, next.(cursor := Some(cursor)))
  {
  }

  lemma SettleIgnoresCursor(contract: Contract, c: Client, s: Server, d: Dispatch, next: Client, s': Server,
                            cursor: nat)
    requires PushAndSettle(contract, c, s, d, next, s') && c.cursor.Some?
    ensures next.cursor == c.cursor
    ensures PushAndSettle(contract, c.(cursor := Some(cursor)), s, d, next.(cursor := Some(cursor)), s')
  {
    var moved, rejected := c.(cursor := Some(cursor)), RejectedTables(contract, c, s, d);
    var pushed, settled :|
      && PushStep(contract, c, s, d, pushed, s')
      && (if rejected == {} then settled == pushed else PullStep(pushed, s', Baseline, rejected, settled))
      && GcStep(settled, next);
    PushIgnoresCursor(contract, c, s, d, pushed, s', cursor);
    if rejected != {} {
      BaselineIgnoresCursor(pushed, s', rejected, settled, cursor);
    }
    assert GcStep(settled.(cursor := Some(cursor)), next.(cursor := Some(cursor)));
  }

  // ---------------------------------------------------------------------------------------------
  // Two cursors with the same news
  // ---------------------------------------------------------------------------------------------

  /** Between the latest stamp and the time of the last write there is no news for any later state of the server. */
  lemma SameNews(contract: Contract, s: Server, s': Server, a: nat, b: nat, k: Key)
    requires ServerOk(contract, s) && StampsGrow(s, s') && ServerOk(contract, s')
    requires a <= s.clock && b <= s.clock
    requires s.rows != map[] ==> forall x :: x in s.rows ==> s.rows[x].stamp <= a && s.rows[x].stamp <= b
    ensures InDelta(s'.rows, k, a) <==> InDelta(s'.rows, k, b)
  {
  }

  /** After a sync with no news from the server, moving the cursor to the latest stamp makes no difference. */
  lemma MovedCursorAlike(contract: Contract, c: Client, s: Server, pulled: Client, next: Client, reference: Client,
                         s': Server)
    requires Sound(contract, c, s) && c.cursor.Some? && ChangedTables(contract, s, c.cursor.value) == {}
    requires PullStep(c, s, Stored, contract.tables, pulled)
    requires StampsGrow(s, s') && ServerOk(contract, s')
    requires next.cursor == c.cursor && reference.cursor == pulled.cursor && next.pending == reference.pending
    requires forall k :: LocalView(contract, Lookup(next.rows, k)) == LocalView(contract, Lookup(reference.rows, k))
    ensures Alike(contract, next, reference, s')
  {
    PulledCursor(contract, c, s, Stored, contract.tables, pulled);
    forall k | k in s.rows ensures s.rows[k].stamp <= c.cursor.value {
      NoNews(contract, s, c.cursor.value, k);
    }
    forall k ensures InDelta(s'.rows, k, next.cursor.value) <==> InDelta(s'.rows, k, reference.cursor.value) {
      SameNews(contract, s, s', next.cursor.value, reference.cursor.value, k);
    }
  }

  // ---------------------------------------------------------------------------------------------
  // The four modes
  // ---------------------------------------------------------------------------------------------

  lemma NoOpRefines(contract: Contract, c: Client, s: Server, d: Dispatch) returns (reference: Client)
    requires Sound(contract, c, s) && c.cursor.Some? && ModeOf(contract, c, s) == NoOp && d.requests == []
    ensures FullSyncStep(contract, c, s, s, contract.tables, d, reference, s)
    ensures Alike(contract, c, reference, s)
  {
    var pulled := NoNewsPull(contract, c, s);
    reference := GcPossible(pulled);
    EmptySettle(contract, pulled, s, d, reference);
    forall k ensures LocalView(contract, Lookup(c.rows, k)) == LocalView(contract, Lookup(reference.rows, k)) {
      GcKeepsViews(contract, pulled, reference, k);
    }
    MovedCursorAlike(contract, c, s, pulled, c, reference, s);
  }

  lemma PushOnlyRefines(contract: Contract, c: Client, s: Server, d: Dispatch, next: Client, s': Server)
    returns (reference: Client)
    requires Sound(contract, c, s) && c.cursor.Some? && ModeOf(contract, c, s) == PushOnly
    requires SyncNowStep(contract, c, s, s, d, next, s')
    ensures FullSyncStep(contract, c, s, s, contract.tables, d, reference, s')
    ensures Alike(contract, next, reference, s')
  {
    var pulled := NoNewsPull(contract, c, s);
    reference := next.(cursor := pulled.cursor);
    SettleIgnoresCursor(contract, c, s, d, next, s', pulled.cursor.value);
    var pushed :| PushStep(contract, c, s, d, pushed, s');
    PushSound(contract, c, s, d, pushed, s');
    MovedCursorAlike(contract, c, s, pulled, next, reference, s');
  }

  lemma PullOnlyRefines(contract: Contract, c: Client, s: Server, d: Dispatch, next: Client, s': Server)
    requires Sound(contract, c, s) && c.cursor.Some? && ModeOf(contract, c, s) == PullOnly
    requires SyncNowStep(contract, c, s, s, d, next, s')
    ensures FullSyncStep(contract, c, s, s, contract.tables, d, next, s')
    ensures next.cursor.Some?
  {
    var changed := ChangedTables(contract, s, c.cursor.value);
    var pulled :| PullStep(c, s, Stored, changed, pulled) && GcStep(pulled, next);
    FilterIsHarmless(contract, c, s, pulled);
    EmptySettle(contract, pulled, s, d, next);
  }

  lemma FullSyncRefines(contract: Contract, c: Client, s: Server, d: Dispatch, next: Client, s': Server)
    requires Sound(contract, c, s) && c.cursor.Some? && ModeOf(contract, c, s) == FullSync
    requires SyncNowStep(contract, c, s, s, d, next, s')
    ensures FullSyncStep(contract, c, s, s, contract.tables, d, next, s')
  {
    var changed := ChangedTables(contract, s, c.cursor.value);
    var pulled :| PullStep(c, s, Stored, changed, pulled) && PushAndSettle(contract, pulled, s, d, next, s');
    FilterIsHarmless(contract, c, s, pulled);
  }

  /** Whatever mode `sync_now` picks, pulling all tables and then pushing could have led to a state just like it. */
  lemma ModesRefineFullSync(contract: Contract, c: Client, s: Server, d: Dispatch, next: Client, s': Server)
    requires Sound(contract, c, s) && c.cursor.Some?
    requires SyncNowStep(contract, c, s, s, d, next, s')
    ensures exists reference ::
      FullSyncStep(contract, c, s, s, contract.tables, d, reference, s') && Alike(contract, next, reference, s')
  {
    SyncNowSound(contract, c, s, s, d, next, s');
    match ModeOf(contract, c, s)
    case NoOp =>
      var reference := NoOpRefines(contract, c, s, d);
    case PushOnly =>
      var reference := PushOnlyRefines(contract, c, s, d, next, s');
    case PullOnly =>
      PullOnlyRefines(contract, c, s, d, next, s');
    case FullSync =>
      FullSyncRefines(contract, c, s, d, next, s');
  }
}
