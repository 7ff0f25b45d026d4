/**
 Whole runs of one client against a server that other clients write to as well: local edits, syncs, pulls and pushes
 in any order, some of them interrupted.
 */
module SyncRuns {
  import opened Wrappers
  import opened Store
  import opened SyncSpec
  import opened SyncInvariant
  import opened Answers
  import opened Convergence
  import opened SteadyStates
  import ModeRefinement

  datatype World = World(client: Client, server: Server)

  /**
   `Edit` is a local write with its outbox entry, `HardDelete` one behind the outbox's back. Other clients write, and
   answers are cleaned up, in one event. An interrupted push got through `handled` requests, and the server through the
   rows `torn` of the next.
   */
  datatype Event =
    | Edit(k: Key, row: Option<LocalRow>, operation: Operation)
    | HardDelete(k: Key)
    | OtherClients
    | SyncNow(d: Dispatch)
    | SyncFullResync(d: Dispatch)
    | Pull(start: StartCursor)
    | Push(d: Dispatch)
    | PullInterrupted(start: StartCursor, tables: set<string>)
    | PushInterrupted(d: Dispatch, handled: nat, torn: set<Key>)
    | CollectGarbage

  /** The rows of a pull are applied, but the cursor is not stored. */
  ghost predicate PullInterruptedStep(c: Client, s: Server, start: StartCursor, tables: set<string>, next: Client) {
    exists pulled :: PullStep(c, s, start, tables, pulled) && next == pulled.(cursor := c.cursor)
  }

  ghost predicate Step(contract: Contract, event: Event, w: World, w': World) {
    match event
    case Edit(k, row, operation) =>
      LocalWrite(contract, w.client, k, row, operation, w'.client) && w'.server == w.server
    case HardDelete(k) => LocalDelete(w.client, k, w'.client) && w'.server == w.server
    case OtherClients => Remote(contract, w.server, w'.server) && w'.client == w.client
    case SyncNow(d) =>
      exists s1 ::
        && Remote(contract, w.server, s1)
        && SyncNowStep(contract, w.client, w.server, s1, d, w'.client, w'.server)
    case SyncFullResync(d) =>
      exists s1 ::
        && Remote(contract, w.server, s1)
        && FullResyncStep(contract, w.client, w.server, s1, d, w'.client, w'.server)
    case Pull(start) => PullStep(w.client, w.server, start, contract.tables, w'.client) && w'.server == w.server
    case Push(d) => PushStep(contract, w.client, w.server, d, w'.client, w'.server)
    case PullInterrupted(start, tables) =>
      PullInterruptedStep(w.client, w.server, start, tables, w'.client) && w'.server == w.server
    case PushInterrupted(d, handled, torn) =>
      PushInterruptedStep(contract, w.client, w.server, d, handled, torn, w'.client, w'.server)
    case CollectGarbage => GcStep(w.client, w'.client) && w'.server == w.server
  }

  /** A new installation: nothing local yet, no cursor, and no answers. */
  ghost predicate Start(contract: Contract, w: World) {
    && w.client == Client(map[], map[], None, {}, 0)
    && ServerOk(contract, w.server) && w.server.answers == map[]
    && forall t :: t in contract.tables ==> ColumnsOf(contract, t) !! contract.localOnly
  }

  ghost predicate IsRun(contract: Contract, worlds: seq<World>, events: seq<Event>) {
    && |worlds| == |events| + 1
    && Start(contract, worlds[0])
    && forall i :: 0 <= i < |events| ==> Step(contract, events[i], worlds[i], worlds[i + 1])
  }

  /**
   A `sync_now` that fails on its push is a pull, if its mode pulls, whatever happens to the server before the push, and
   an interrupted push.
   */
  lemma FailedSyncIsEvents(contract: Contract, w: World, s1: Server, d: Dispatch, handled: nat, torn: set<Key>,
                           w': World)
    returns (pulled: World, mid: World)
    requires Sound(contract, w.client, w.server) && Remote(contract, w.server, s1)
    requires SyncNowFails(contract, w.client, w.server, s1, d, handled, torn, w'.client, w'.server)
    ensures pulled == w || exists start :: Step(contract, Pull(start), w, pulled)
    ensures Step(contract, OtherClients, pulled, mid) && mid.server == s1
    ensures Step(contract, PushInterrupted(d, handled, torn), mid, w')
  {
    var (c, s) := (w.client, w.server);
    var client :|
      PullsFirst(contract, c, s, client) &&
        PushInterruptedStep(contract, client, s1, d, handled, torn, w'.client, w'.server);
    pulled, mid := World(client, s), World(client, s1);
    if ModeOf(contract, c, s).FullSync? {
      ModeRefinement.FilterIsHarmless(contract, c, s, client);
      assert Step(contract, Pull(Stored), w, pulled);
    } else if ModeOf(contract, c, s).FullResync? {
      assert Step(contract, Pull(Baseline), w, pulled);
    }
  }

  // ---------------------------------------------------------------------------------------------
  // Soundness, whatever is refused or interrupted
  // ---------------------------------------------------------------------------------------------

  lemma PullInterruptedSound(contract: Contract, c: Client, s: Server, start: StartCursor, tables: set<string>,
                             next: Client)
    requires Sound(contract, c, s) && PullInterruptedStep(c, s, start, tables, next)
    ensures Sound(contract, next, s) && next.cursor == c.cursor
  {
    var pulled :| PullStep(c, s, start, tables, pulled) && next == pulled.(cursor := c.cursor);
    forall k | k in next.rows
      ensures k.table in contract.tables
      ensures next.rows[k].content.Keys - contract.localOnly == ColumnsOf(contract, k.table)
    {
      assert Lookup(next.rows, k) == Pulled(Lookup(c.rows, k), k, s, StartOf(c, start), tables);
    }
  }

  lemma StepSound(contract: Contract, event: Event, w: World, w': World)
    requires Sound(contract, w.client, w.server) && Step(contract, event, w, w')
    ensures Sound(contract, w'.client, w'.server) && CursorGrows(w.client, w'.client)
  {
    var (c, s, next, s') := (w.client, w.server, w'.client, w'.server);
    match event
    case Edit(k, row, operation) =>
      LocalWriteSound(contract, c, s, k, row, operation, next);
    case HardDelete(k) =>
      LocalDeleteSound(contract, c, s, k, next);
    case OtherClients =>
      RemoteSound(contract, c, s, s');
    case SyncNow(d) =>
      var s1 :| Remote(contract, s, s1) && SyncNowStep(contract, c, s, s1, d, next, s');
      SyncNowSound(contract, c, s, s1, d, next, s');
    case SyncFullResync(d) =>
      var s1 :| Remote(contract, s, s1) && FullResyncStep(contract, c, s, s1, d, next, s');
      FullResyncSound(contract, c, s, s1, d, next, s');
    case Pull(start) =>
      PullSound(contract, c, s, start, contract.tables, next);
    case Push(d) =>
      PushSound(contract, c, s, d, next, s');
    case PullInterrupted(start, tables) =>
      PullInterruptedSound(contract, c, s, start, tables, next);
    case PushInterrupted(d, handled, torn) =>
      PushInterruptedSound(contract, c, s, d, handled, torn, next, s');
    case CollectGarbage =>
      GcSound(contract, c, s, next);
  }

  /**
   In every run, at every point: each server row stamped at or below the client's cursor has been delivered to it in
   its current version.
   */
  lemma {:induction false} RunsAreSound(contract: Contract, worlds: seq<World>, events: seq<Event>, i: nat)
    requires IsRun(contract, worlds, events) && i < |worlds|
    ensures Sound(contract, worlds[i].client, worlds[i].server)
  {
    if i > 0 {
      RunsAreSound(contract, worlds, events, i - 1);
      StepSound(contract, events[i - 1], worlds[i - 1], worlds[i]);
    }
  }

  lemma GrowsAt(contract: Contract, worlds: seq<World>, events: seq<Event>, i: nat)
    requires IsRun(contract, worlds, events) && i < |events|
    ensures CursorGrows(worlds[i].client, worlds[i + 1].client)
  {
    RunsAreSound(contract, worlds, events, i);
    StepSound(contract, events[i], worlds[i], worlds[i + 1]);
  }

  lemma {:induction false} GrowsAlong(worlds: seq<World>, i: nat, j: nat)
    requires forall k :: 0 <= k < |worlds| - 1 ==> CursorGrows(worlds[k].client, worlds[k + 1].client)
    requires i <= j < |worlds|
    ensures CursorGrows(worlds[i].client, worlds[j].client)
    decreases j
  {
    if i < j {
      GrowsAlong(worlds, i, j - 1);
      assert CursorGrows(worlds[j - 1].client, worlds[j - 1 + 1].client);
    }
  }

  /** A cursor once stored is never blanked and never moves back. */
  lemma CursorOnlyGrows(contract: Contract, worlds: seq<World>, events: seq<Event>, i: nat, j: nat)
    requires IsRun(contract, worlds, events) && i <= j < |worlds|
    ensures CursorGrows(worlds[i].client, worlds[j].client)
  {
    forall k | 0 <= k < |worlds| - 1 ensures CursorGrows(worlds[k].client, worlds[k + 1].client) {
      GrowsAt(contract, worlds, events, k);
    }
    GrowsAlong(worlds, i, j);
  }

  // ---------------------------------------------------------------------------------------------
  // Convergence, with a server that refuses nothing
  // ---------------------------------------------------------------------------------------------

  function DispatchOf(event: Event): Dispatch {
    match event
    case SyncNow(d) => d
    case SyncFullResync(d) => d
    case Push(d) => d
    case PushInterrupted(d, _, _) => d
    case _ => Dispatch([], {})
  }

  predicate Accepting(event: Event) {
    DispatchOf(event).refused == {}
  }

  /** What every run without refusals keeps, replayed requests or not. */
  ghost predicate Kept(contract: Contract, w: World) {
    Sound(contract, w.client, w.server) && IdsOk(w.client, w.server) && AllGranted(w.server)
  }

  lemma AnsweredKept(contract: Contract, c: Client, s: Server, requests: seq<Request>, next: Client, s': Server)
    requires IdsOk(c, s) && AllGranted(s) && ServerAnswers(contract, c, s, requests, {}, s')
    requires next.nextId == c.nextId && forall k :: k in next.pending ==>
      k in c.pending && next.pending[k] == c.pending[k]
    ensures IdsOk(next, s') && AllGranted(s')
  {
    KeepsIds(contract, c, s, requests, {}, next, s');
    GrantsAll(contract, c, s, requests, s');
  }

  lemma SettleKept(contract: Contract, c: Client, s: Server, d: Dispatch, next: Client, s': Server)
    requires IdsOk(c, s) && AllGranted(s) && d.refused == {} && PushAndSettle(contract, c, s, d, next, s')
    ensures IdsOk(next, s') && AllGranted(s')
  {
    var pushed := SettleIsPushAndGc(contract, c, s, d, next, s');
    AnsweredKept(contract, c, s, d.requests, next, s');
  }

  lemma ResyncKept(contract: Contract, c: Client, s: Server, s1: Server, d: Dispatch, next: Client, s': Server)
    requires IdsOk(c, s1) && AllGranted(s1) && d.refused == {} && FullResyncStep(contract, c, s, s1, d, next, s')
    ensures IdsOk(next, s') && AllGranted(s')
  {
    var pulled, pushed :|
      && PullStep(c, s, Baseline, contract.tables, pulled)
      && PushStep(contract, pulled, s1, d, pushed, s')
      && GcStep(pushed, next);
    AnsweredKept(contract, pulled, s1, d.requests, next, s');
  }

  lemma SyncNowKept(contract: Contract, c: Client, s: Server, s1: Server, d: Dispatch, next: Client, s': Server)
    requires IdsOk(c, s1) && AllGranted(s1) && d.refused == {} && SyncNowStep(contract, c, s, s1, d, next, s')
    ensures IdsOk(next, s') && AllGranted(s')
  {
    match ModeOf(contract, c, s)
    case NoOp =>
    case PushOnly =>
      SettleKept(contract, c, s1, d, next, s');
    case PullOnly =>
    case FullSync =>
      var tables := ChangedTables(contract, s, c.cursor.value);
      var pulled :| PullStep(c, s, Stored, tables, pulled) && PushAndSettle(contract, pulled, s1, d, next, s');
      SettleKept(contract, pulled, s1, d, next, s');
    case FullResync =>
      ResyncKept(contract, c, s, s1, d, next, s');
  }

  lemma StepKept(contract: Contract, event: Event, w: World, w': World)
    requires Kept(contract, w) && Step(contract, event, w, w') && Accepting(event)
    ensures Kept(contract, w')
  {
    StepSound(contract, event, w, w');
    var (c, s, next, s') := (w.client, w.server, w'.client, w'.server);
    match event
    case Edit(k, row, operation) => LocalWriteKeepsIds(contract, c, s, k, row, operation, next);
    case HardDelete(_) =>
    case OtherClients =>
    case SyncNow(d) =>
      var s1 :| Remote(contract, s, s1) && SyncNowStep(contract, c, s, s1, d, next, s');
      SyncNowKept(contract, c, s, s1, d, next, s');
    case SyncFullResync(d) =>
      var s1 :| Remote(contract, s, s1) && FullResyncStep(contract, c, s, s1, d, next, s');
      ResyncKept(contract, c, s, s1, d, next, s');
    case Pull(_) =>
    case Push(d) => AnsweredKept(contract, c, s, d.requests, next, s');
    case PullInterrupted(_, _) =>
    case PushInterrupted(d, handled, _) => AnsweredKept(contract, c, s, d.requests[..handled], next, s');
    case CollectGarbage =>
  }

  lemma {:induction false} AcceptingRunsAreKept(contract: Contract, worlds: seq<World>, events: seq<Event>, i: nat)
    requires IsRun(contract, worlds, events) && i < |worlds|
    requires forall e :: e in events ==> Accepting(e)
    ensures Kept(contract, worlds[i])
  {
    if i > 0 {
      AcceptingRunsAreKept(contract, worlds, events, i - 1);
      assert events[i - 1] in events;
      StepKept(contract, events[i - 1], worlds[i - 1], worlds[i]);
    }
  }

  /**
   After any run in which the server refused nothing, lost replies, conflicts, callbacks that failed half-way, hard
   deletes and other writers included, two `sync_now` calls that go through with nobody else writing leave client and
   server with the same visible rows exactly if at that point no row is left apart: each one that differs is replaced
   by the pull, or carried by a request that the guard has not answered before.
   */
  lemma RunsConvergeIff(contract: Contract, worlds: seq<World>, events: seq<Event>, d: Dispatch, c1: Client, s1: Server,
                        d1: Dispatch, c2: Client, s2: Server)
    requires IsRun(contract, worlds, events) && (forall e :: e in events ==> Accepting(e)) && d.refused == {}
    requires var last := worlds[|events|]; SyncNowStep(contract, last.client, last.server, last.server, d, c1, s1)
    requires SyncNowStep(contract, c1, s1, s1, d1, c2, s2)
    ensures var last := worlds[|events|];
      Converged(contract, c2, s2) <==> forall k :: !LeftApart(contract, last.client, last.server, d.requests, k)
    ensures c2.pending == map[]
  {
    AcceptingRunsAreKept(contract, worlds, events, |events|);
    ConvergesIff(contract, worlds[|events|].client, worlds[|events|].server, d, c1, s1, d1, c2, s2);
  }

  // ---------------------------------------------------------------------------------------------
  // Runs in which no request is answered twice
  // ---------------------------------------------------------------------------------------------

  /** A local write leaves its row there, unsynced, and none is deleted behind the outbox's back. */
  predicate Tidy(event: Event) {
    match event
    case Edit(_, row, _) => row.Some? && !row.value.isSynced
    case HardDelete(_) => false
    case _ => true
  }

  /** A push that goes through is run by the guard, not replayed. */
  ghost predicate Unrepeated(event: Event, w: World) {
    event.SyncNow? || event.SyncFullResync? || event.Push? ==> FirstTime(w.client, w.server, event.d.requests)
  }

  lemma PullInterruptedSteady(contract: Contract, c: Client, s: Server, start: StartCursor, tables: set<string>,
                              next: Client)
    requires Steady(contract, c, s) && PullInterruptedStep(c, s, start, tables, next)
    ensures Steady(contract, next, s)
  {
    var pulled :| PullStep(c, s, start, tables, pulled) && next == pulled.(cursor := c.cursor);
    PullInterruptedSound(contract, c, s, start, tables, next);
    PullKeepsPending(c, s, start, tables, pulled);
    forall k ensures ReconciledAt(contract, next, s, k) {
      PullReconciles(contract, c, s, start, tables, pulled, next, k);
    }
  }

  lemma StepSteady(contract: Contract, event: Event, w: World, w': World)
    requires Steady(contract, w.client, w.server) && AllGranted(w.server)
    requires Step(contract, event, w, w') && Accepting(event) && Tidy(event) && Unrepeated(event, w)
    ensures Steady(contract, w'.client, w'.server)
  {
    var (c, s, next, s') := (w.client, w.server, w'.client, w'.server);
    match event
    case Edit(k, row, operation) =>
      LocalWriteSteady(contract, c, s, k, row, operation, next);
    case HardDelete(_) =>
      assert false;
    case OtherClients =>
      RemoteSteady(contract, c, s, s');
    case SyncNow(d) =>
      var s1 :| Remote(contract, s, s1) && SyncNowStep(contract, c, s, s1, d, next, s');
      SyncNowSteady(contract, c, s, s1, d, next, s');
    case SyncFullResync(d) =>
      var s1 :| Remote(contract, s, s1) && FullResyncStep(contract, c, s, s1, d, next, s');
      FullResyncSteady(contract, c, s, s1, d, next, s');
    case Pull(start) =>
      PullSteady(contract, c, s, start, contract.tables, next);
    case Push(d) =>
      PushSteady(contract, c, s, d, next, s');
    case PullInterrupted(start, tables) =>
      PullInterruptedSteady(contract, c, s, start, tables, next);
    case PushInterrupted(d, handled, torn) =>
      PushInterruptedSteady(contract, c, s, d, handled, torn, next, s');
    case CollectGarbage =>
      GcSteady(contract, c, s, next);
  }

  lemma StartSteady(contract: Contract, w: World)
    requires Start(contract, w)
    ensures Steady(contract, w.client, w.server) && NoneOutstanding(w.client, w.server)
  {
  }

  lemma {:induction false} UnrepeatedRunsAreSteady(contract: Contract, worlds: seq<World>, events: seq<Event>, i: nat)
    requires IsRun(contract, worlds, events) && i < |worlds|
    requires forall e :: e in events ==> Accepting(e) && Tidy(e)
    requires forall j :: 0 <= j < |events| ==> Unrepeated(events[j], worlds[j])
    ensures Steady(contract, worlds[i].client, worlds[i].server)
  {
    if i > 0 {
      UnrepeatedRunsAreSteady(contract, worlds, events, i - 1);
      AcceptingRunsAreKept(contract, worlds, events, i - 1);
      assert events[i - 1] in events;
      StepSteady(contract, events[i - 1], worlds[i - 1], worlds[i]);
    } else {
      StartSteady(contract, worlds[0]);
    }
  }

  /**
   After any run of tidy local writes and without refusals, in which no push that went through was answered from a
   record, and a first sync that is not either, two `sync_now` calls converge. The run may hold pushes whose replies
   were lost, as long as their rows are sent again in other requests or their answers are cleaned up, and pushes that
   failed half-way through a request.
   */
  lemma RunsConverge(contract: Contract, worlds: seq<World>, events: seq<Event>, d: Dispatch, c1: Client, s1: Server,
                     d1: Dispatch, c2: Client, s2: Server)
    requires IsRun(contract, worlds, events) && (forall e :: e in events ==> Accepting(e) && Tidy(e)) && d.refused == {}
    requires forall j :: 0 <= j < |events| ==> Unrepeated(events[j], worlds[j])
    requires var last := worlds[|events|];
      && SyncNowStep(contract, last.client, last.server, last.server, d, c1, s1)
      && FirstTime(last.client, last.server, d.requests)
    requires SyncNowStep(contract, c1, s1, s1, d1, c2, s2)
    ensures Converged(contract, c2, s2) && c2.pending == map[]
  {
    UnrepeatedRunsAreSteady(contract, worlds, events, |events|);
    AcceptingRunsAreKept(contract, worlds, events, |events|);
    TwoSyncsConverge(contract, worlds[|events|].client, worlds[|events|].server, d, c1, s1, d1, c2, s2);
  }
}
