/**
 When a `sync_now` goes through and when its push ends in a 409, told from the state before it: the idempotency guard
 (packages/baresync/src/server/idempotency.ts, lines 218-251) compares what a request says, after the pull, with what
 it said when it was answered.
 */
module FailingSyncs {
  import opened Wrappers
  import Schema
  import opened Store
  import opened SyncSpec
  import opened SyncInvariant
  import opened Answers
  import opened PossibleSteps
  import opened Convergence
  import opened SyncRuns
  import opened LostReplies

  // ---------------------------------------------------------------------------------------------
  // The condition
  // ---------------------------------------------------------------------------------------------

  /**
   What a request says of a row after the pull: the server's row if the pull brings it and it gets in, else the own
   one.
   */
  function PayloadAfterPull(contract: Contract, c: Client, s: Server, k: Key): Payload {
    if !Replaced(c, s, k) then PayloadOf(contract, Lookup(c.rows, k))
    else if s.rows[k].deletedAt.None? then Whole(s.rows[k].content, s.rows[k].updatedAt, None)
    else if k in c.rows then Whole(WithoutLocal(contract, c.rows[k].content), s.clock, Some(s.clock))
    else Gone
  }

  function BodyAfterPull(contract: Contract, c: Client, s: Server, r: Request): Body {
    seq(|r|, i requires 0 <= i < |r| => Item(r[i], PayloadAfterPull(contract, c, s, r[i])))
  }

  /** The request was answered, and says something else by now: status and pull see `s`, the push `s1`. */
  predicate Stale(contract: Contract, c: Client, s: Server, s1: Server, r: Request) {
    Answered(c, s1, r) && s1.answers[IdsOf(c.pending, r)].body != BodyAfterPull(contract, c, s, r)
  }

  ghost predicate NoneStale(contract: Contract, c: Client, s: Server, s1: Server, requests: seq<Request>) {
    forall r :: r in requests ==> !Stale(contract, c, s, s1, r)
  }

  ghost predicate CanGoThrough(contract: Contract, c: Client, s: Server, s1: Server, d: Dispatch) {
    exists next, s' :: SyncNowStep(contract, c, s, s1, d, next, s')
  }

  /**
   What the push of a `sync_now` has to send: a pending entry without its row is left out, unless the pull brings one.
   */
  function OutgoingAfterPull(contract: Contract, c: Client, s: Server): set<Key> {
    set k | k in c.pending && k.table in contract.tables &&
      (!Orphan(c, k) || (Replaced(c, s, k) && s.rows[k].deletedAt.None?))
  }

  ghost predicate Pushes(contract: Contract, c: Client, s: Server) {
    !ModeOf(contract, c, s).NoOp? && !ModeOf(contract, c, s).PullOnly?
  }

  // ---------------------------------------------------------------------------------------------
  // The pull ahead of the push
  // ---------------------------------------------------------------------------------------------

  /** No row of the server is news to a client that has pulled, or had nothing to pull. */
  lemma NoNewsAfter(contract: Contract, c: Client, s: Server, pulled: Client, k: Key)
    requires Sound(contract, c, s) && PullsFirst(contract, c, s, pulled)
    ensures pulled.cursor.Some? && !InDelta(s.rows, k, StartOf(pulled, Stored))
  {
    if ModeOf(contract, c, s).PushOnly? {
      NothingReplaced(contract, c, s, k);
    }
  }

  /** The synced columns of a row that takes the server's. */
  lemma TakesColumns(contract: Contract, mine: Columns, theirs: Columns)
    requires theirs.Keys !! contract.localOnly && mine.Keys - contract.localOnly <= theirs.Keys
    ensures WithoutLocal(contract, mine + theirs) == theirs && WithoutLocal(contract, theirs) == theirs
  {
  }

  lemma PulledRow(contract: Contract, c: Client, s: Server, pulled: Client, k: Key)
    requires Sound(contract, c, s) && PullsFirst(contract, c, s, pulled)
    ensures PayloadOf(contract, Lookup(pulled.rows, k)) == PayloadAfterPull(contract, c, s, k)
    ensures k in pulled.rows <==> k in c.rows || (Replaced(c, s, k) && s.rows[k].deletedAt.None?)
  {
    if ModeOf(contract, c, s).PushOnly? {
      NothingReplaced(contract, c, s, k);
    } else {
      PulledBy(contract, c, s, pulled, k);
      EffectPayload(contract, c, s, k);
    }
  }

  lemma PulledBy(contract: Contract, c: Client, s: Server, pulled: Client, k: Key)
    requires Sound(contract, c, s) && PullsFirst(contract, c, s, pulled) && !ModeOf(contract, c, s).PushOnly?
    ensures Lookup(pulled.rows, k) ==
      if InDelta(s.rows, k, StartOf(c, Stored)) then Effect(Lookup(c.rows, k), StatementOf(k, s.rows[k], s.clock))
      else Lookup(c.rows, k)
  {
    var ts := StartOf(c, Stored);
    var tables := if c.cursor.None? then contract.tables else ChangedTables(contract, s, ts);
    assert Lookup(pulled.rows, k) == Pulled(Lookup(c.rows, k), k, s, ts, tables);
    assert InDelta(s.rows, k, ts) ==> HasDelta(s.rows, k.table, ts) && k.table in tables;
  }

  lemma EffectPayload(contract: Contract, c: Client, s: Server, k: Key)
    requires Sound(contract, c, s)
    ensures var after :=
        if InDelta(s.rows, k, StartOf(c, Stored)) then Effect(Lookup(c.rows, k), StatementOf(k, s.rows[k], s.clock))
        else Lookup(c.rows, k);
      && PayloadOf(contract, after) == PayloadAfterPull(contract, c, s, k)
      && (after.Some? <==> k in c.rows || (Replaced(c, s, k) && s.rows[k].deletedAt.None?))
  {
    if k in s.rows {
      TakesColumns(contract, if k in c.rows then c.rows[k].content else map[], s.rows[k].content);
    }
  }

  lemma PulledFirst(contract: Contract, c: Client, s: Server, pulled: Client)
    requires Sound(contract, c, s) && PullsFirst(contract, c, s, pulled)
    ensures pulled.pending == c.pending && pulled.nextId == c.nextId
    ensures Outgoing(contract, pulled) == OutgoingAfterPull(contract, c, s)
    ensures forall r :: BodyOf(contract, pulled.rows, r) == BodyAfterPull(contract, c, s, r)
  {
    forall k ensures k in Outgoing(contract, pulled) <==> k in OutgoingAfterPull(contract, c, s) {
      PulledRow(contract, c, s, pulled, k);
    }
    forall r ensures BodyOf(contract, pulled.rows, r) == BodyAfterPull(contract, c, s, r) {
      forall i | 0 <= i < |r| ensures BodyOf(contract, pulled.rows, r)[i] == BodyAfterPull(contract, c, s, r)[i] {
        PulledRow(contract, c, s, pulled, r[i]);
      }
    }
  }

  /** After the pull, a request conflicts exactly if it was stale before. */
  lemma ConflictIsStale(contract: Contract, c: Client, s: Server, s1: Server, pulled: Client, r: Request)
    requires Sound(contract, c, s) && PullsFirst(contract, c, s, pulled)
    ensures Conflicts(contract, pulled, s1, r) <==> Stale(contract, c, s, s1, r)
  {
    PulledFirst(contract, c, s, pulled);
    assert BodyOf(contract, pulled.rows, r) == BodyAfterPull(contract, c, s, r);
  }

  // ---------------------------------------------------------------------------------------------
  // Going through, and stopping
  // ---------------------------------------------------------------------------------------------

  lemma FinishedPush(contract: Contract, c: Client, s: Server, s1: Server, d: Dispatch, next: Client, s': Server)
    returns (pulled: Client)
    requires Pushes(contract, c, s) && SyncNowStep(contract, c, s, s1, d, next, s')
    ensures PullsFirst(contract, c, s, pulled)
    ensures forall r :: r in d.requests ==> !Conflicts(contract, pulled, s1, r)
  {
    match ModeOf(contract, c, s)
    case PushOnly =>
      pulled := c;
      SettleUnconflicted(contract, c, s1, d, next, s');
    case FullSync =>
      var tables := ChangedTables(contract, s, c.cursor.value);
      pulled :| PullStep(c, s, Stored, tables, pulled) && PushAndSettle(contract, pulled, s1, d, next, s');
      SettleUnconflicted(contract, pulled, s1, d, next, s');
    case FullResync =>
      var pushed;
      pulled, pushed :|
        PullStep(c, s, Baseline, contract.tables, pulled) && PushStep(contract, pulled, s1, d, pushed, s');
  }

  lemma SettleUnconflicted(contract: Contract, c: Client, s: Server, d: Dispatch, next: Client, s': Server)
    requires PushAndSettle(contract, c, s, d, next, s')
    ensures forall r :: r in d.requests ==> !Conflicts(contract, c, s, r)
  {
  }

  lemma SyncPossible(contract: Contract, c: Client, s: Server, s1: Server, d: Dispatch)
    returns (next: Client, s': Server)
    requires Sound(contract, c, s) && Remote(contract, s, s1) && IdsOk(c, s) && Pushes(contract, c, s)
    requires Divides(d.requests, OutgoingAfterPull(contract, c, s))
    requires NoneStale(contract, c, s, s1, d.requests)
    ensures SyncNowStep(contract, c, s, s1, d, next, s')
  {
    var pulled := PullsFirstPossible(contract, c, s);
    PulledFirst(contract, c, s, pulled);
    forall r | r in d.requests ensures !Conflicts(contract, pulled, s1, r) {
      ConflictIsStale(contract, c, s, s1, pulled, r);
    }
    if ModeOf(contract, c, s).FullResync? {
      var pushed;
      pushed, s' := PushPossible(contract, pulled, s1, d);
      next := GcPossible(pushed);
    } else {
      next, s' := SettlePossible(contract, pulled, s1, d);
    }
  }

  /**
   From any sound state, whatever others write between the pull and the push: a `sync_now` that has something to push
   can go through exactly if no request of its dispatch was answered and has an item that, after the pull, differs from
   the answered one.
   */
  lemma SyncGoesThroughIff(contract: Contract, c: Client, s: Server, s1: Server, d: Dispatch)
    requires Sound(contract, c, s) && Remote(contract, s, s1) && IdsOk(c, s) && Pushes(contract, c, s)
    requires Divides(d.requests, OutgoingAfterPull(contract, c, s))
    ensures CanGoThrough(contract, c, s, s1, d) <==> NoneStale(contract, c, s, s1, d.requests)
  {
    if next, s' :| SyncNowStep(contract, c, s, s1, d, next, s') {
      var pulled := FinishedPush(contract, c, s, s1, d, next, s');
      forall r | r in d.requests ensures !Stale(contract, c, s, s1, r) {
        ConflictIsStale(contract, c, s, s1, pulled, r);
      }
    }
    if NoneStale(contract, c, s, s1, d.requests) {
      var next, s' := SyncPossible(contract, c, s, s1, d);
    }
  }

  /** The first request that is stale. */
  ghost predicate FirstStale(contract: Contract, c: Client, s: Server, s1: Server, requests: seq<Request>, n: nat) {
    && n < |requests| && Stale(contract, c, s, s1, requests[n])
    && forall i :: 0 <= i < n ==> !Stale(contract, c, s, s1, requests[i])
  }

  /** It stops at a 409 at a request exactly if that is the first one with such an item. */
  lemma SyncStopsIff(contract: Contract, c: Client, s: Server, s1: Server, d: Dispatch, n: nat)
    requires Sound(contract, c, s) && Remote(contract, s, s1) && IdsOk(c, s) && Pushes(contract, c, s)
    requires Divides(d.requests, OutgoingAfterPull(contract, c, s))
    ensures (exists next, s' :: SyncNowStops(contract, c, s, s1, d, n, next, s')) <==>
      FirstStale(contract, c, s, s1, d.requests, n)
  {
    if next, s' :| SyncNowStops(contract, c, s, s1, d, n, next, s') {
      var pulled :| PullsFirst(contract, c, s, pulled) && PushStopsStep(contract, pulled, s1, d, n, next, s');
      ConflictIsStale(contract, c, s, s1, pulled, d.requests[n]);
      forall i | 0 <= i < n ensures !Stale(contract, c, s, s1, d.requests[i]) {
        assert d.requests[i] in d.requests[..n];
        ConflictIsStale(contract, c, s, s1, pulled, d.requests[i]);
      }
    }
    if FirstStale(contract, c, s, s1, d.requests, n) {
      var pulled := PullsFirstPossible(contract, c, s);
      PulledFirst(contract, c, s, pulled);
      forall r | r in d.requests[..n] ensures !Conflicts(contract, pulled, s1, r) {
        ConflictIsStale(contract, c, s, s1, pulled, r);
      }
      ConflictIsStale(contract, c, s, s1, pulled, d.requests[n]);
      var next, s' := StopPossible(contract, pulled, s1, d, n);
      assert SyncNowStops(contract, c, s, s1, d, n, next, s');
    }
  }

  /** So it is after every run without refusals: lost replies, conflicts and other writers included. */
  lemma RunsGoThroughIff(contract: Contract, worlds: seq<World>, events: seq<Event>, d: Dispatch)
    requires IsRun(contract, worlds, events) && forall e :: e in events ==> Accepting(e)
    requires var last := worlds[|events|];
      Pushes(contract, last.client, last.server) &&
        Divides(d.requests, OutgoingAfterPull(contract, last.client, last.server))
    ensures var (c, s) := (worlds[|events|].client, worlds[|events|].server);
      CanGoThrough(contract, c, s, s, d) <==> NoneStale(contract, c, s, s, d.requests)
  {
    AcceptingRunsAreKept(contract, worlds, events, |events|);
    SyncGoesThroughIff(contract, worlds[|events|].client, worlds[|events|].server, worlds[|events|].server, d);
  }

  // ---------------------------------------------------------------------------------------------
  // A stale request stays stale
  // ---------------------------------------------------------------------------------------------

  /** What a failed sync does to a row of a request that conflicted: as the pull left it, and not written. */
  lemma RowOfStale(contract: Contract, c: Client, s: Server, pulled: Client, d: Dispatch, handled: nat, torn: set<Key>,
                   next: Client, s': Server, i: nat, k: Key)
    requires Sound(contract, c, s) && PullsFirst(contract, c, s, pulled) && pulled.pending == c.pending
    requires PushInterruptedStep(contract, pulled, s, d, handled, torn, next, s')
    requires handled <= i < |d.requests| && Answered(pulled, s, d.requests[i]) && k in d.requests[i]
    ensures k in next.pending && next.pending[k] == c.pending[k]
    ensures PayloadAfterPull(contract, next, s', k) == PayloadAfterPull(contract, c, s, k)
  {
    assert InSome(d.requests, k);
    NotWritten(contract, pulled, s, d, handled, torn, i, k);
    NoNewsAfter(contract, c, s, pulled, k);
    PulledRow(contract, c, s, pulled, k);
    assert Find(s'.rows, k) == Find(s.rows, k);
  }

  lemma StaleAgain(contract: Contract, c: Client, s: Server, d: Dispatch, handled: nat, torn: set<Key>, next: Client,
                   s': Server, r: Request)
    requires Sound(contract, c, s) && SyncNowFails(contract, c, s, s, d, handled, torn, next, s')
    requires r in d.requests && Stale(contract, c, s, s, r)
    ensures Stale(contract, next, s', s', r)
  {
    var pulled :|
      PullsFirst(contract, c, s, pulled) && PushInterruptedStep(contract, pulled, s, d, handled, torn, next, s');
    ConflictIsStale(contract, c, s, s, pulled, r);
    PulledFirst(contract, c, s, pulled);
    var i :| 0 <= i < |d.requests| && d.requests[i] == r;
    assert handled <= i;
    forall k | k in r
      ensures k in next.pending && next.pending[k] == c.pending[k]
      ensures PayloadAfterPull(contract, next, s', k) == PayloadAfterPull(contract, c, s, k)
    {
      RowOfStale(contract, c, s, pulled, d, handled, torn, next, s', i, k);
    }
    assert IdsOf(next.pending, r) == IdsOf(c.pending, r);
    assert BodyAfterPull(contract, next, s', r) == BodyAfterPull(contract, c, s, r);
  }

  /** Failing syncs one after the other, with nobody else writing, in which the request is dispatched each time. */
  ghost predicate FailsWith(contract: Contract, w: World, d: Dispatch, r: Request, w': World) {
    r in d.requests &&
      exists handled, torn ::
        SyncNowFails(contract, w.client, w.server, w.server, d, handled, torn, w'.client, w'.server)
  }

  /**
   A stale request stays stale through any number of failing syncs, so that no `sync_now` which dispatches it goes
   through, as long as its answer is kept.
   */
  lemma {:induction false} StaleStays(contract: Contract, worlds: seq<World>, dispatches: seq<Dispatch>, r: Request,
                                      i: nat)
    requires |worlds| == |dispatches| + 1 && i < |worlds|
    requires Sound(contract, worlds[0].client, worlds[0].server)
    requires Stale(contract, worlds[0].client, worlds[0].server, worlds[0].server, r)
    requires forall j :: 0 <= j < |dispatches| ==> FailsWith(contract, worlds[j], dispatches[j], r, worlds[j + 1])
    ensures Sound(contract, worlds[i].client, worlds[i].server)
    ensures Stale(contract, worlds[i].client, worlds[i].server, worlds[i].server, r)
    ensures forall d: Dispatch, next, s' :: r in d.requests ==>
      !SyncNowStep(contract, worlds[i].client, worlds[i].server, worlds[i].server, d, next, s')
  {
    var w := worlds[i];
    if i > 0 {
      StaleStays(contract, worlds, dispatches, r, i - 1);
      var before, d := worlds[i - 1], dispatches[i - 1];
      assert FailsWith(contract, before, d, r, worlds[i - 1 + 1]);
      var handled, torn :|
        SyncNowFails(contract, before.client, before.server, before.server, d, handled, torn, w.client, w.server);
      StaleAgain(contract, before.client, before.server, d, handled, torn, w.client, w.server, r);
      FailedSound(contract, before, d, handled, torn, w);
    }
    forall d: Dispatch, next, s' | r in d.requests
      ensures !SyncNowStep(contract, w.client, w.server, w.server, d, next, s')
    {
      if SyncNowStep(contract, w.client, w.server, w.server, d, next, s') {
        var pulled := FinishedPush(contract, w.client, w.server, w.server, d, next, s');
        ConflictIsStale(contract, w.client, w.server, w.server, pulled, r);
        assert false;
      }
    }
  }

  lemma FailedSound(contract: Contract, w: World, d: Dispatch, handled: nat, torn: set<Key>, w': World)
    requires Sound(contract, w.client, w.server)
    requires SyncNowFails(contract, w.client, w.server, w.server, d, handled, torn, w'.client, w'.server)
    ensures Sound(contract, w'.client, w'.server)
  {
    var pulled, mid := FailedSyncIsEvents(contract, w, w.server, d, handled, torn, w');
    if pulled != w {
      var start :| Step(contract, Pull(start), w, pulled);
      StepSound(contract, Pull(start), w, pulled);
    }
    StepSound(contract, OtherClients, pulled, mid);
    StepSound(contract, PushInterrupted(d, handled, torn), mid, w');
  }

  // ---------------------------------------------------------------------------------------------
  // What makes a request stale
  // ---------------------------------------------------------------------------------------------

  /**
   Writing a row again that went out in a request whose reply was lost keeps its outbox id, and so the request's key.
   The request is then stale exactly if the pull leaves some row of it other than it went out; so it is if the new edit
   says something else and the pull does not replace it.
   */
  lemma EditAfterLostReplyIff(contract: Contract, c: Client, s: Server, r: Request, k: Key, row: Option<LocalRow>,
                              operation: Operation, next: Client)
    requires ReplyLost(contract, c, s, r) && k in r && k in c.pending
    requires LocalWrite(contract, c, k, row, operation, next)
    ensures Stale(contract, next, s, s, r) <==>
      exists q :: q in r && PayloadAfterPull(contract, next, s, q) != PayloadOf(contract, Lookup(c.rows, q))
    ensures !Replaced(next, s, k) && PayloadOf(contract, row) != PayloadOf(contract, Lookup(c.rows, k)) ==>
      Stale(contract, next, s, s, r)
  {
    assert IdsOf(next.pending, r) == IdsOf(c.pending, r);
    var was, now := BodyOf(contract, c.rows, r), BodyAfterPull(contract, next, s, r);
    forall i | 0 <= i < |r|
      ensures was[i] == now[i] <==>
        PayloadAfterPull(contract, next, s, r[i]) == PayloadOf(contract, Lookup(c.rows, r[i]))
    {
    }
    if was == now {
      forall q | q in r ensures PayloadAfterPull(contract, next, s, q) == PayloadOf(contract, Lookup(c.rows, q)) {
        var i :| 0 <= i < |r| && r[i] == q;
        assert was[i] == now[i];
      }
    } else {
      var i :| 0 <= i < |r| && was[i] != now[i];
      assert r[i] in r;
    }
    assert !Replaced(next, s, k) ==> PayloadAfterPull(contract, next, s, k) == PayloadOf(contract, row);
  }

  // ---------------------------------------------------------------------------------------------
  // A deleted row, on an input
  // ---------------------------------------------------------------------------------------------

  /** A row deleted at 100, which the server takes at 50; the reply is lost. */
  const TOMBSTONE := LocalRow(MINE, 100, Some(100), false)

  function DeleteItem(): Event {
    Edit(ITEM, Some(TOMBSTONE), Schema.Insert)
  }

  function Deleted(): World {
    World(Client(map[ITEM := TOMBSTONE], map[ITEM := Pending(0, Schema.Insert)], Some(10), {}, 1), Installed().server)
  }

  function DeletedAt50(): World {
    World(Deleted().client,
          Server(map[ITEM := ServerRow(MINE, 50, Some(100), 50)], 50,
                 map[{0} := Answer([Item(ITEM, Whole(MINE, 100, Some(100)))], {ITEM})]))
  }

  lemma DeleteHappens()
    ensures Step(CONTRACT, DeleteItem(), FirstPulled(), Deleted())
  {
    assert MINE.Keys - {} == {"name"};
  }

  lemma DeletePushHappens()
    ensures Step(CONTRACT, PushInterrupted(ONE_REQUEST, 1, {}), Deleted(), DeletedAt50())
  {
    var (c, s) := (Deleted().client, Deleted().server);
    OneOutgoing(c);
    Unfiltered(MINE);
    assert ONE_REQUEST.requests[..1] == [[ITEM]];
    assert [ITEM] in [[ITEM]] && !Answered(c, s, [ITEM]);
    assert Written(c, s, [[ITEM]], {}) + {} == {ITEM};
    assert BodyOf(CONTRACT, c.rows, [ITEM]) == [Item(ITEM, Whole(MINE, 100, Some(100)))];
    assert AnswerTo(CONTRACT, c, [ITEM], {}) == Answer([Item(ITEM, Whole(MINE, 100, Some(100)))], {ITEM});
  }

  lemma DeletedRunHappens()
    ensures IsRun(CONTRACT, [Installed(), FirstPulled(), Deleted(), DeletedAt50()],
                  [Pull(Stored), DeleteItem(), PushInterrupted(ONE_REQUEST, 1, {})])
  {
    var worlds := [Installed(), FirstPulled(), Deleted(), DeletedAt50()];
    var events := [Pull(Stored), DeleteItem(), PushInterrupted(ONE_REQUEST, 1, {})];
    FirstPullHappens();
    DeleteHappens();
    DeletePushHappens();
    forall i | 0 <= i < |events| ensures Step(CONTRACT, events[i], worlds[i], worlds[i + 1]) {
      assert i == 0 || i == 1 || i == 2;
    }
  }

  /** What its push would say after the pull: the tombstone with the time of the pull. */
  lemma TombstoneIsStale()
    ensures var (c, s) := (DeletedAt50().client, DeletedAt50().server);
      && Pushes(CONTRACT, c, s) && OutgoingAfterPull(CONTRACT, c, s) == {ITEM}
      && Stale(CONTRACT, c, s, s, [ITEM])
  {
    var (c, s) := (DeletedAt50().client, DeletedAt50().server);
    OneOutgoing(c);
    Unfiltered(MINE);
    assert ITEM in c.pending && InDelta(s.rows, ITEM, 10) && HasDelta(s.rows, "items", 10);
    assert "items" in ChangedTables(CONTRACT, s, 10);
    assert BodyAfterPull(CONTRACT, c, s, [ITEM])[0] == Item(ITEM, Whole(MINE, 50, Some(50)));
  }

  /**
   A run after which the row cannot be synced although its edit is dated later than the server's write and nobody else
   writes: the pull gives the tombstone its own time, so the request says something else and is turned away.
   */
  lemma TombstoneConflicts()
    ensures IsRun(CONTRACT, [Installed(), FirstPulled(), Deleted(), DeletedAt50()],
                  [Pull(Stored), DeleteItem(), PushInterrupted(ONE_REQUEST, 1, {})])
    ensures DeletedAt50().client.rows[ITEM].updatedAt > DeletedAt50().server.rows[ITEM].updatedAt
    ensures var (c, s) := (DeletedAt50().client, DeletedAt50().server);
      && !CanGoThrough(CONTRACT, c, s, s, ONE_REQUEST)
      && (exists next, s' :: SyncNowStops(CONTRACT, c, s, s, ONE_REQUEST, 0, next, s'))
  {
    DeletedRunHappens();
    var worlds := [Installed(), FirstPulled(), Deleted(), DeletedAt50()];
    var events := [Pull(Stored), DeleteItem(), PushInterrupted(ONE_REQUEST, 1, {})];
    AcceptingRunsAreKept(CONTRACT, worlds, events, 3);
    var (c, s) := (DeletedAt50().client, DeletedAt50().server);
    OneOutgoing(c);
    TombstoneIsStale();
    assert [ITEM] in ONE_REQUEST.requests;
    SyncGoesThroughIff(CONTRACT, c, s, s, ONE_REQUEST);
    SyncStopsIff(CONTRACT, c, s, s, ONE_REQUEST, 0);
  }
}
