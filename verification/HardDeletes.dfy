/**
 Local rows that are deleted behind the outbox's back: the application runs its own SQL, and a pending entry whose row
 is gone is marked as synced without being sent (crates/baresync-core/src/schema.rs, lines 106-135).
 */
module HardDeletes {
  import opened Wrappers
  import Schema
  import opened Store
  import opened SyncSpec
  import opened SyncInvariant
  import opened Answers
  import opened Convergence
  import opened SteadyStates
  import opened SyncRuns
  import opened LostReplies

  /** The server shows the row and has no news of it, and no pending delete is on its way. */
  ghost predicate Forgotten(c: Client, s: Server, k: Key) {
    && ServerView(Find(s.rows, k)) != Absent && !Ahead(c, s, k)
    && !(k in c.pending && c.pending[k].operation.Delete?)
  }

  /**
   From a steady state, a hard delete leaves a row apart, in two `sync_now` calls whose requests were not answered
   before, exactly if it is the deleted row, the server shows it and has no news of it, and the outbox holds no delete
   of it. It makes no difference whether an insert or update of the row was pending.
   */
  lemma HardDeleteLeftApartIff(contract: Contract, c: Client, s: Server, k: Key, next: Client, d: Dispatch, c1: Client,
                               s1: Server, x: Key)
    requires Steady(contract, c, s) && LocalDelete(c, k, next)
    requires FirstTime(next, s, d.requests) && SyncNowStep(contract, next, s, s, d, c1, s1)
    ensures LeftApart(contract, next, s, d.requests, x) <==> x == k && Forgotten(c, s, k)
  {
    LocalDeleteSound(contract, c, s, k, next);
    DispatchCovers(contract, next, s, d, c1, s1, x);
    CarriedIsWritten(next, s, d, x);
    assert ReconciledAt(contract, c, s, x);
    if x == k {
      DeletedRow(contract, c, s, k, next);
    } else {
      OtherRow(contract, c, s, k, next, x);
    }
  }

  lemma CarriedIsWritten(c: Client, s: Server, d: Dispatch, x: Key)
    requires FirstTime(c, s, d.requests)
    ensures InSome(d.requests, x) <==> x in Written(c, s, d.requests, {})
  {
  }

  lemma DeletedRow(contract: Contract, c: Client, s: Server, k: Key, next: Client)
    requires Sound(contract, c, s) && LocalDelete(c, k, next)
    ensures Agree(contract, next, s, k) <==> ServerView(Find(s.rows, k)) == Absent
    ensures Replaced(next, s, k) <==> Ahead(c, s, k)
    ensures k in next.pending ==> (Orphan(next, k) <==> !c.pending[k].operation.Delete?)
  {
  }

  lemma OtherRow(contract: Contract, c: Client, s: Server, k: Key, next: Client, x: Key)
    requires Sound(contract, c, s) && LocalDelete(c, k, next) && x != k && ReconciledAt(contract, c, s, x)
    requires UnsyncedIsPending(c)
    ensures Agree(contract, next, s, x) || Replaced(next, s, x) || (x in next.pending && !Orphan(next, x))
  {
  }

  /** So two such calls converge exactly if the deleted row is not forgotten. */
  lemma HardDeleteConvergesIff(contract: Contract, c: Client, s: Server, k: Key, next: Client, d: Dispatch, c1: Client,
                               s1: Server, d1: Dispatch, c2: Client, s2: Server)
    requires Steady(contract, c, s) && AllGranted(s) && LocalDelete(c, k, next)
    requires FirstTime(next, s, d.requests) && d.refused == {}
    requires SyncNowStep(contract, next, s, s, d, c1, s1) && SyncNowStep(contract, c1, s1, s1, d1, c2, s2)
    ensures Converged(contract, c2, s2) <==> !Forgotten(c, s, k)
  {
    LocalDeleteSound(contract, c, s, k, next);
    ConvergesIff(contract, next, s, d, c1, s1, d1, c2, s2);
    forall x ensures LeftApart(contract, next, s, d.requests, x) <==> x == k && Forgotten(c, s, k) {
      HardDeleteLeftApartIff(contract, c, s, k, next, d, c1, s1, x);
    }
    if Forgotten(c, s, k) {
      assert LeftApart(contract, next, s, d.requests, k);
    }
  }

  // ---------------------------------------------------------------------------------------------
  // On an input
  // ---------------------------------------------------------------------------------------------

  const NOTHING := Dispatch([], {})

  function Filled(): World {
    World(Client(map[], map[], None, {}, 0), Server(map[ITEM := ServerRow(THEIRS, 10, None, 10)], 10, map[]))
  }

  function ItemPulled(): World {
    World(Client(map[ITEM := LocalRow(THEIRS, 10, None, true)], map[], Some(10), {(ITEM, 10)}, 0), Filled().server)
  }

  function UpdateItem(): Event {
    Edit(ITEM, Some(LocalRow(MINE, 100, None, false)), Schema.Update)
  }

  function Updated(): World {
    World(Client(map[ITEM := LocalRow(MINE, 100, None, false)], map[ITEM := Pending(0, Schema.Update)], Some(10),
                 {(ITEM, 10)}, 1),
          Filled().server)
  }

  function Dropped(): World {
    World(Updated().client.(rows := map[]), Filled().server)
  }

  function Synced(): Client {
    Dropped().client.(pending := map[])
  }

  lemma ItemPullHappens()
    ensures Step(CONTRACT, Pull(Stored), Filled(), ItemPulled())
  {
    var s := Filled().server;
    assert InDelta(s.rows, ITEM, 0);
    assert Deliveries(s, 0, {"items"}) == {(ITEM, 10)};
  }

  lemma UpdateHappens()
    ensures Step(CONTRACT, UpdateItem(), ItemPulled(), Updated())
    ensures Step(CONTRACT, HardDelete(ITEM), Updated(), Dropped())
  {
    assert MINE.Keys - {} == {"name"};
  }

  lemma NoItemNews()
    ensures ChangedTables(CONTRACT, Filled().server, 10) == {}
  {
    assert forall t :: !HasDelta(Filled().server.rows, t, 10);
  }

  lemma OrphanSyncHappens()
    ensures var s := Filled().server; SyncNowStep(CONTRACT, Dropped().client, s, s, NOTHING, Synced(), s)
  {
    var (c, s) := (Dropped().client, Filled().server);
    NoItemNews();
    assert ITEM in c.pending && ModeOf(CONTRACT, c, s) == PushOnly;
    assert Quarantined(CONTRACT, c) == {ITEM} && Outgoing(CONTRACT, c) == {};
    assert Cleared(CONTRACT, c, {}) == {ITEM} && c.pending - {ITEM} == map[];
    assert Written(c, s, [], {}) == {} && Replayed(c, s, []) == {};
    assert PushStep(CONTRACT, c, s, NOTHING, Synced(), s);
    assert RejectedTables(CONTRACT, c, s, NOTHING) == {};
    assert GcStep(Synced(), Synced());
    assert PushAndSettle(CONTRACT, c, s, NOTHING, Synced(), s);
  }

  /**
   A run with a hard delete after which syncing twice, or ever, does not bring the row back: the update that was pending
   is marked without being sent, the server still shows the row, and has no news of it.
   */
  lemma HiddenOrphanStays()
    ensures IsRun(CONTRACT, [Filled(), ItemPulled(), Updated(), Dropped()],
      [Pull(Stored), UpdateItem(), HardDelete(ITEM)])
    ensures HiddenOrphan(CONTRACT, Dropped().client, Filled().server, ITEM)
    ensures var s := Filled().server;
      && SyncNowStep(CONTRACT, Dropped().client, s, s, NOTHING, Synced(), s)
      && SyncNowStep(CONTRACT, Synced(), s, s, NOTHING, Synced(), s)
      && !Converged(CONTRACT, Synced(), s)
  {
    var worlds := [Filled(), ItemPulled(), Updated(), Dropped()];
    var events := [Pull(Stored), UpdateItem(), HardDelete(ITEM)];
    ItemPullHappens();
    UpdateHappens();
    forall i | 0 <= i < |events| ensures Step(CONTRACT, events[i], worlds[i], worlds[i + 1]) {
      assert i == 0 || i == 1 || i == 2;
    }
    OrphanSyncHappens();
    NoItemNews();
    assert !Agree(CONTRACT, Synced(), Filled().server, ITEM);
  }
}
