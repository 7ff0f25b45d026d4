/**
 Pushes whose reply is lost. The server has written the rows and keeps the answer; the client will push the rows again,
 and the idempotency guard (packages/baresync/src/server/idempotency.ts, lines 218-251) decides what comes of it.
 */
module LostReplies {
  import opened Wrappers
  import Schema
  import opened Store
  import opened SyncSpec
  import opened SyncInvariant
  import opened Answers
  import opened Convergence
  import opened SyncRuns

  // ---------------------------------------------------------------------------------------------
  // Without lost replies
  // ---------------------------------------------------------------------------------------------

  /** No request of an interrupted push was answered. */
  predicate Undisturbed(event: Event) {
    event.PushInterrupted? ==> event.handled == 0
  }

  lemma StepLeavesNoneOutstanding(contract: Contract, event: Event, w: World, w': World)
    requires Kept(contract, w) && NoneOutstanding(w.client, w.server)
    requires Step(contract, event, w, w') && Accepting(event) && Undisturbed(event)
    ensures NoneOutstanding(w'.client, w'.server)
  {
    var (c, s, next, s') := (w.client, w.server, w'.client, w'.server);
    match event
    case Edit(k, row, operation) => LocalWriteKeepsIds(contract, c, s, k, row, operation, next);
    case SyncNow(d) =>
      var s1 :| Remote(contract, s, s1) && SyncNowStep(contract, c, s, s1, d, next, s');
      SyncNowEmptiesOutbox(contract, c, s, s1, d, next, s');
    case SyncFullResync(d) =>
      var s1 :| Remote(contract, s, s1) && FullResyncStep(contract, c, s, s1, d, next, s');
      FullResyncEmptiesOutbox(contract, c, s, s1, d, next, s');
    case Push(d) => PushEmptiesOutbox(contract, c, s, d, next, s');
    case PushInterrupted(d, handled, _) =>
      assert d.requests[..0] == [];
      assert s'.answers.Keys == s.answers.Keys;
    case _ =>
  }

  lemma {:induction false} UndisturbedRunsLeaveNone(contract: Contract, worlds: seq<World>, events: seq<Event>, i: nat)
    requires IsRun(contract, worlds, events) && i < |worlds|
    requires forall e :: e in events ==> Accepting(e) && Undisturbed(e)
    ensures NoneOutstanding(worlds[i].client, worlds[i].server)
  {
    if i > 0 {
      UndisturbedRunsLeaveNone(contract, worlds, events, i - 1);
      AcceptingRunsAreKept(contract, worlds, events, i - 1);
      assert events[i - 1] in events;
      StepLeavesNoneOutstanding(contract, events[i - 1], worlds[i - 1], worlds[i]);
    }
  }

  /** With no answer outstanding, the requests of any event are run, not replayed. */
  lemma EventIsUnrepeated(contract: Contract, event: Event, w: World, w': World)
    requires NoneOutstanding(w.client, w.server) && Step(contract, event, w, w')
    ensures Unrepeated(event, w)
  {
    var (c, s, next, s') := (w.client, w.server, w'.client, w'.server);
    match event
    case SyncNow(d) =>
      var s1 :| Remote(contract, s, s1) && SyncNowStep(contract, c, s, s1, d, next, s');
      SyncNowIsFirstTime(contract, c, s, s1, d, next, s');
    case SyncFullResync(d) =>
      var s1 :| Remote(contract, s, s1) && FullResyncStep(contract, c, s, s1, d, next, s');
      var pulled, pushed :|
        PullStep(c, s, Baseline, contract.tables, pulled) && PushStep(contract, pulled, s1, d, pushed, s');
      PulledIsFirstTime(contract, c, s, pulled, d);
    case Push(d) => NoneOutstandingIsFirstTime(contract, c, s, d.requests);
    case _ =>
  }

  lemma PulledIsFirstTime(contract: Contract, c: Client, s: Server, pulled: Client, d: Dispatch)
    requires NoneOutstanding(c, s) && pulled.pending == c.pending && Divides(d.requests, Outgoing(contract, pulled))
    ensures FirstTime(c, s, d.requests)
  {
    NoneOutstandingIsFirstTime(contract, pulled, s, d.requests);
    forall r | r in d.requests ensures !Answered(c, s, r) {
      assert !Answered(pulled, s, r);
    }
  }

  lemma SettleDivides(contract: Contract, c: Client, s: Server, d: Dispatch, next: Client, s': Server)
    requires PushAndSettle(contract, c, s, d, next, s')
    ensures Divides(d.requests, Outgoing(contract, c))
  {
  }

  lemma SyncNowIsFirstTime(contract: Contract, c: Client, s: Server, s1: Server, d: Dispatch, next: Client, s': Server)
    requires NoneOutstanding(c, s) && SyncNowStep(contract, c, s, s1, d, next, s')
    ensures FirstTime(c, s, d.requests)
  {
    match ModeOf(contract, c, s)
    case NoOp =>
    case PullOnly =>
    case PushOnly =>
      SettleDivides(contract, c, s1, d, next, s');
      PulledIsFirstTime(contract, c, s, c, d);
    case FullSync =>
      var tables := ChangedTables(contract, s, c.cursor.value);
      var pulled :| PullStep(c, s, Stored, tables, pulled) && PushAndSettle(contract, pulled, s1, d, next, s');
      SettleDivides(contract, pulled, s1, d, next, s');
      PulledIsFirstTime(contract, c, s, pulled, d);
    case FullResync =>
      var pulled, pushed :|
        PullStep(c, s, Baseline, contract.tables, pulled) && PushStep(contract, pulled, s1, d, pushed, s');
      PulledIsFirstTime(contract, c, s, pulled, d);
  }

  /** After any run of tidy local writes, without refusals and lost replies, two `sync_now` calls converge. */
  lemma UndisturbedRunsConverge(contract: Contract, worlds: seq<World>, events: seq<Event>, d: Dispatch, c1: Client,
                                s1: Server, d1: Dispatch, c2: Client, s2: Server)
    requires IsRun(contract, worlds, events) && (forall e :: e in events ==> Accepting(e) && Tidy(e) && Undisturbed(e))
    requires var last := worlds[|events|]; SyncNowStep(contract, last.client, last.server, last.server, d, c1, s1)
    requires SyncNowStep(contract, c1, s1, s1, d1, c2, s2) && d.refused == {}
    ensures Converged(contract, c2, s2) && c2.pending == map[]
  {
    forall j | 0 <= j < |events| ensures Unrepeated(events[j], worlds[j]) {
      UndisturbedRunsLeaveNone(contract, worlds, events, j);
      EventIsUnrepeated(contract, events[j], worlds[j], worlds[j + 1]);
    }
    var last := worlds[|events|];
    UndisturbedRunsLeaveNone(contract, worlds, events, |events|);
    SyncNowIsFirstTime(contract, last.client, last.server, last.server, d, c1, s1);
    RunsConverge(contract, worlds, events, d, c1, s1, d1, c2, s2);
  }

  // ---------------------------------------------------------------------------------------------
  // With a lost reply
  // ---------------------------------------------------------------------------------------------

  /**
   Right after a lost reply, with nobody writing since, the rows of the request are left apart exactly where the edit is
   dated later than the server's write: the pull leaves such a row alone, and the replay marks it without writing it.
   */
  lemma LostReplyLeftApartIff(contract: Contract, c: Client, s: Server, requests: seq<Request>, r: Request, k: Key)
    requires Sound(contract, c, s) && ReplyLost(contract, c, s, r) && r in requests && k in r
    requires forall q :: q in requests && k in q ==> q == r
    ensures LeftApart(contract, c, s, requests, k) <==>
      k in c.rows && k in s.rows && s.rows[k].deletedAt.None? && c.rows[k].updatedAt > s.rows[k].updatedAt
  {
  }

  const CONTRACT := Contract({"items"}, map["items" := {"name"}], {})

  const ITEM := Key("items", "1")

  const MINE := map["name" := Schema.Text("A")]

  const THEIRS := map["name" := Schema.Text("B")]

  const ONE_REQUEST := Dispatch([[ITEM]], {})

  /** A first pull of an empty server, an edit dated 100, and its push at 50, which the server takes. */
  function Installed(): World {
    World(Client(map[], map[], None, {}, 0), Server(map[], 10, map[]))
  }

  function FirstPulled(): World {
    World(Installed().client.(cursor := Some(10)), Installed().server)
  }

  function Edited(): World {
    World(Client(map[ITEM := LocalRow(MINE, 100, None, false)], map[ITEM := Pending(0, Schema.Insert)], Some(10),
                 {}, 1),
          Installed().server)
  }

  function ReplyLostAt50(): World {
    World(Edited().client,
          Server(map[ITEM := ServerRow(MINE, 50, None, 50)], 50,
                 map[{0} := Answer([Item(ITEM, Whole(MINE, 100, None))], {ITEM})]))
  }

  /** Another client writes the row at 60. */
  function OverwrittenAt60(): World {
    var before := ReplyLostAt50();
    World(before.client, before.server.(rows := map[ITEM := ServerRow(THEIRS, 60, None, 60)], clock := 60))
  }

  /** The next sync pulls the row without taking it, replays the answer, and marks row and entry. */
  function PulledPast(): Client {
    OverwrittenAt60().client.(cursor := Some(60), delivered := {(ITEM, 60)})
  }

  function SyncedApart(): Client {
    PulledPast().(rows := map[ITEM := LocalRow(MINE, 100, None, true)], pending := map[])
  }

  function InsertItem(): Event {
    Edit(ITEM, Some(LocalRow(MINE, 100, None, false)), Schema.Insert)
  }

  lemma FirstPullHappens()
    ensures Step(CONTRACT, Pull(Stored), Installed(), FirstPulled())
  {
  }

  lemma EditHappens()
    ensures Step(CONTRACT, InsertItem(), FirstPulled(), Edited())
  {
    assert MINE.Keys - {} == {"name"};
  }

  lemma Unfiltered(content: Columns)
    ensures WithoutLocal(CONTRACT, content) == content
  {
  }

  lemma OneOutgoing(c: Client)
    requires c.pending == map[ITEM := Pending(0, Schema.Insert)] && ITEM in c.rows
    ensures Outgoing(CONTRACT, c) == {ITEM} && Quarantined(CONTRACT, c) == {}
    ensures Divides(ONE_REQUEST.requests, Outgoing(CONTRACT, c))
    ensures IdsOf(c.pending, [ITEM]) == {0}
  {
    assert [[ITEM]][0] == [ITEM];
    assert forall k :: InSome([[ITEM]], k) <==> k == ITEM by {
      assert [ITEM] in [[ITEM]];
    }
  }

  lemma PushHappens()
    ensures Step(CONTRACT, PushInterrupted(ONE_REQUEST, 1, {}), Edited(), ReplyLostAt50())
  {
    var (c, s, s') := (Edited().client, Edited().server, ReplyLostAt50().server);
    OneOutgoing(c);
    Unfiltered(MINE);
    assert ONE_REQUEST.requests[..1] == [[ITEM]];
    assert [ITEM] in [[ITEM]] && !Answered(c, s, [ITEM]);
    assert Written(c, s, [[ITEM]], {}) == {ITEM};
    assert BodyOf(CONTRACT, c.rows, [ITEM]) == [Item(ITEM, Whole(MINE, 100, None))];
    assert AnswerTo(CONTRACT, c, [ITEM], {}) == Answer([Item(ITEM, Whole(MINE, 100, None))], {ITEM});
  }

  lemma OverwriteHappens()
    ensures Step(CONTRACT, OtherClients, ReplyLostAt50(), OverwrittenAt60())
  {
    assert THEIRS.Keys == {"name"};
  }

  lemma PullHappens()
    ensures PullStep(OverwrittenAt60().client, OverwrittenAt60().server, Stored, {"items"}, PulledPast())
    ensures ChangedTables(CONTRACT, OverwrittenAt60().server, 10) == {"items"}
  {
    var s := OverwrittenAt60().server;
    assert InDelta(s.rows, ITEM, 10) && HasDelta(s.rows, "items", 10);
    assert Deliveries(s, 10, {"items"}) == {(ITEM, 60)};
  }

  lemma ReplayHappens()
    ensures PushStep(CONTRACT, PulledPast(), OverwrittenAt60().server, ONE_REQUEST, SyncedApart(),
      OverwrittenAt60().server)
    ensures RejectedTables(CONTRACT, PulledPast(), OverwrittenAt60().server, ONE_REQUEST) == {}
  {
    var (c, s) := (PulledPast(), OverwrittenAt60().server);
    OneOutgoing(c);
    Unfiltered(MINE);
    assert [ITEM] in [[ITEM]] && Answered(c, s, [ITEM]);
    assert BodyOf(CONTRACT, c.rows, [ITEM]) == [Item(ITEM, Whole(MINE, 100, None))];
    assert Written(c, s, [[ITEM]], {}) == {} && Replayed(c, s, [[ITEM]]) == {ITEM};
    assert Accepted(c, s, ONE_REQUEST) == {ITEM};
    assert ITEM.table in (set a | a in {ITEM} :: a.table);
    assert Cleared(CONTRACT, c, {ITEM}) == {ITEM};
    assert c.pending - {ITEM} == map[];
  }

  lemma NothingNew()
    ensures var s := OverwrittenAt60().server;
      SyncNowStep(CONTRACT, SyncedApart(), s, s, Dispatch([], {}), SyncedApart(), s)
  {
    assert forall t :: !HasDelta(OverwrittenAt60().server.rows, t, 60);
    assert ChangedTables(CONTRACT, OverwrittenAt60().server, 60) == {};
  }

  lemma SyncHappens()
    ensures var s := OverwrittenAt60().server;
      SyncNowStep(CONTRACT, OverwrittenAt60().client, s, s, ONE_REQUEST, SyncedApart(), s)
  {
    var s := OverwrittenAt60().server;
    PullHappens();
    ReplayHappens();
    assert GcStep(SyncedApart(), SyncedApart());
    assert PushAndSettle(CONTRACT, PulledPast(), s, ONE_REQUEST, SyncedApart(), s);
    assert ITEM in OverwrittenAt60().client.pending;
    assert ModeOf(CONTRACT, OverwrittenAt60().client, s) == FullSync;
  }

  lemma RunHappens()
    ensures IsRun(CONTRACT, [Installed(), FirstPulled(), Edited(), ReplyLostAt50(), OverwrittenAt60()],
                  [Pull(Stored), InsertItem(), PushInterrupted(ONE_REQUEST, 1, {}), OtherClients])
  {
    var worlds := [Installed(), FirstPulled(), Edited(), ReplyLostAt50(), OverwrittenAt60()];
    var events := [Pull(Stored), InsertItem(), PushInterrupted(ONE_REQUEST, 1, {}), OtherClients];
    FirstPullHappens();
    EditHappens();
    PushHappens();
    OverwriteHappens();
    forall i | 0 <= i < |events| ensures Step(CONTRACT, events[i], worlds[i], worlds[i + 1]) {
      assert i == 0 || i == 1 || i == 2 || i == 3;
    }
  }

  /**
   A run with one lost reply after which syncing twice, or ever, leaves client and server with different rows: the edit
   is dated later than the other client's write, the pull moves the cursor past that write, and the replay marks the
   edit as synced although the server no longer has it.
   */
  lemma LostReplyKeepsApart()
    ensures IsRun(CONTRACT, [Installed(), FirstPulled(), Edited(), ReplyLostAt50(), OverwrittenAt60()],
                  [Pull(Stored), InsertItem(), PushInterrupted(ONE_REQUEST, 1, {}), OtherClients])
    ensures var s := OverwrittenAt60().server;
      && SyncNowStep(CONTRACT, OverwrittenAt60().client, s, s, ONE_REQUEST, SyncedApart(), s)
      && SyncNowStep(CONTRACT, SyncedApart(), s, s, Dispatch([], {}), SyncedApart(), s)
      && !Converged(CONTRACT, SyncedApart(), s)
  {
    RunHappens();
    SyncHappens();
    NothingNew();
    assert !Agree(CONTRACT, SyncedApart(), OverwrittenAt60().server, ITEM);
  }
}
