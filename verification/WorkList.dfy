/**
 The push work list (crates/baresync-core/src/push.rs, lines 344-499): chunks are taken from the front of a deque,
 halved while they are too large for the client's own limit or for the server (413, section 15.5.14 of RFC 9110),
 and sent one at a time.
 */
module WorkList {
  import opened Wrappers
  import opened Sequences
  import opened Envelope
  import opened Chunking
  import opened WorkSpec

  datatype PushError = SingleRowTooLarge(table: string, id: string) | Transport(message: string)

  datatype Pushed = Pushed(
    accepted: map<string, set<string>>, rejected: map<string, set<string>>,
    outboxIdsByTable: map<string, seq<string>>, serverTime: string)

  /** What the client may put on the wire: a nonempty chunk within its row limit and its hard byte limit. */
  ghost predicate Sendable(c: Config, chunk: seq<PushUnit>) {
    && 1 <= |chunk|
    && (|chunk| == 1 || |chunk| <= c.maxPushRows)
    && ChunkLen(c.scopeId, c.clientId, chunk) <= c.maxPushBytes
  }

  ghost predicate AllSendable(c: Config, sent: seq<seq<PushUnit>>) {
    forall i :: 0 <= i < |sent| ==> Sendable(c, sent[i])
  }

  /** The chunks that were acknowledged, in the order they were sent. */
  ghost function Answered(sent: seq<seq<PushUnit>>, server: Server): seq<seq<PushUnit>> {
    if sent == [] then []
    else
      var n, before := |sent| - 1, Answered(sent[..|sent| - 1], server);
      if server(n, sent[n]).Ack? then before + [sent[n]] else before
  }

  ghost predicate AcceptedIn(sent: seq<seq<PushUnit>>, server: Server, table: string, id: string) {
    exists i :: 0 <= i < |sent| && AckedIn(server(i, sent[i]), table, id)
  }

  predicate AckedIn(reply: Reply, table: string, id: string) {
    reply.Ack? && table in reply.accepted && id in reply.accepted[table]
  }

  predicate Has(m: map<string, set<string>>, table: string, id: string) {
    table in m && id in m[table]
  }

  /** The outbox ids of the units of `table` among `units`. */
  ghost predicate IdOf(units: seq<PushUnit>, table: string, id: string) {
    exists u :: u in units && u.table == table && id in u.outboxIds
  }

  lemma IdOfConcat(a: seq<PushUnit>, b: seq<PushUnit>, table: string, id: string)
    ensures IdOf(a + b, table, id) <==> IdOf(a, table, id) || IdOf(b, table, id)
    ensures |b| == 1 ==> (IdOf(b, table, id) <==> b[0].table == table && id in b[0].outboxIds)
  {
  }

  function MergeIds(into: map<string, set<string>>, from: map<string, set<string>>): map<string, set<string>> {
    map t | t in into.Keys + from.Keys ::
      (if t in into then into[t] else {}) + (if t in from then from[t] else {})
  }

  /** `all` holds the ids of a chunk besides those that were there. */
  ghost predicate Adds(ids: map<string, seq<string>>, chunk: seq<PushUnit>, all: map<string, seq<string>>) {
    forall t, id :: t in all && id in all[t] <==> (t in ids && id in ids[t]) || IdOf(chunk, t, id)
  }

  method AddOutboxIds(ids: map<string, seq<string>>, chunk: seq<PushUnit>) returns (all: map<string, seq<string>>)
    ensures Adds(ids, chunk, all)
  {
    all := ids;
    for i := 0 to |chunk|
      invariant Adds(ids, chunk[..i], all)
    {
      var u := chunk[i];
      assert chunk[..i + 1] == chunk[..i] + [u];
      forall t, id {
        IdOfConcat(chunk[..i], [u], t, id);
      }
      all := all[u.table := (if u.table in all then all[u.table] else []) + u.outboxIds];
    }
    assert chunk[..|chunk|] == chunk;
  }

  ghost predicate AnyId(units: seq<PushUnit>, id: string) {
    exists u :: u in units && id in u.outboxIds
  }

  /** The ids whose digest is the idempotency key: sorted and without repeats (push.rs, lines 293-301). */
  method CollectOutboxIds(units: seq<PushUnit>) returns (ids: seq<string>)
    ensures Alphabetical(ids) && forall id :: id in ids <==> AnyId(units, id)
  {
    var all: set<string> := {};
    for i := 0 to |units|
      invariant forall id :: id in all <==> AnyId(units[..i], id)
    {
      var u := units[i];
      assert units[..i + 1] == units[..i] + [u];
      all := all + set id | id in u.outboxIds;
    }
    assert units[..|units|] == units;
    ids := SortNames(all);
  }

  /** A chunk sent again, with its units in any order, is digested to the same idempotency key. */
  lemma SameUnitsSameKey(a: seq<PushUnit>, b: seq<PushUnit>, idsA: seq<string>, idsB: seq<string>)
    requires multiset(a) == multiset(b)
    requires Alphabetical(idsA) && forall id :: id in idsA <==> AnyId(a, id)
    requires Alphabetical(idsB) && forall id :: id in idsB <==> AnyId(b, id)
    ensures idsA == idsB
  {
    forall u ensures u in a <==> u in b {
      assert u in a <==> u in multiset(a);
      assert u in b <==> u in multiset(b);
    }
    AlphabeticalUnique(idsA, idsB);
  }

  /** Why a run stops early. */
  ghost predicate Stops(c: Config, server: Server, units: seq<PushUnit>, sent: seq<seq<PushUnit>>, error: PushError) {
    match error
    case SingleRowTooLarge(table, id) =>
      exists u :: u in units && u.table == table && RowId(u) == id
        && (ChunkLen(c.scopeId, c.clientId, [u]) > c.maxPushBytes
            || (sent != [] && sent[|sent| - 1] == [u] && server(|sent| - 1, [u]).TooLarge?))
    case Transport(m) => sent != [] && server(|sent| - 1, sent[|sent| - 1]) == Failed(m)
  }

  /** Nothing lost and nothing sent twice: what is answered and what is left make up the units. */
  ghost predicate Conserved(units: seq<PushUnit>, answered: seq<seq<PushUnit>>, stack: seq<seq<PushUnit>>) {
    multiset(Concat(answered)) + multiset(Concat(stack)) == multiset(units)
  }

  lemma SplitStep(stack: seq<seq<PushUnit>>, rest: seq<seq<PushUnit>>, chunk: seq<PushUnit>)
    requires stack == [chunk] + rest && |chunk| > 1
    ensures var (first, second) := SplitPushChunkForRetry(chunk);
      && Weight([second, first] + rest) == Weight(stack) - 1
      && multiset(Concat([second, first] + rest)) == multiset(Concat(stack))
  {
    var (first, second) := SplitPushChunkForRetry(chunk);
    One(chunk);
    One(first);
    One(second);
    WeightConcat([chunk], rest);
    WeightConcat([second] + [first], rest);
    WeightConcat([second], [first]);
    assert [second, first] == [second] + [first];
    assert chunk == first + second;
  }

  lemma PopStep(stack: seq<seq<PushUnit>>, rest: seq<seq<PushUnit>>, chunk: seq<PushUnit>)
    requires stack == [chunk] + rest
    ensures Weight(stack) == Weight(rest) + 2 * |chunk| - 1
    ensures Concat(stack) == chunk + Concat(rest)
  {
  }

  lemma AnsweredSnoc(sent: seq<seq<PushUnit>>, chunk: seq<PushUnit>, server: Server)
    ensures Answered(sent + [chunk], server) ==
      if server(|sent|, chunk).Ack? then Answered(sent, server) + [chunk] else Answered(sent, server)
    ensures forall t, id :: AcceptedIn(sent + [chunk], server, t, id) <==>
      AcceptedIn(sent, server, t, id) || AckedIn(server(|sent|, chunk), t, id)
  {
  }

  /** The local variables of the loop: chunks to do, chunks sent, and what the replies add up to. */
  datatype State = State(
    stack: seq<seq<PushUnit>>, sent: seq<seq<PushUnit>>,
    accepted: map<string, set<string>>, rejected: map<string, set<string>>,
    outboxIds: map<string, seq<string>>, serverTime: string)

  ghost predicate Stacked(c: Config, stack: seq<seq<PushUnit>>) {
    forall i :: 0 <= i < |stack| ==> 1 <= |stack[i]| && (|stack[i]| == 1 || |stack[i]| <= c.maxPushRows)
  }

  /** A reply that ends the run: a failure, or 413 for a single unit. */
  predicate Fatal(reply: Reply, chunk: seq<PushUnit>) {
    reply.Failed? || (reply.TooLarge? && |chunk| == 1)
  }

  ghost predicate Logged(units: seq<PushUnit>, c: Config, server: Server, sent: seq<seq<PushUnit>>) {
    forall i :: 0 <= i < |sent| ==>
      Sendable(c, sent[i]) && !Fatal(server(i, sent[i]), sent[i]) && AllIn(sent[i], units)
  }

  ghost predicate AllIn(chunk: seq<PushUnit>, units: seq<PushUnit>) {
    forall u :: u in chunk ==> u in units
  }

  /** What the replies so far add up to. */
  ghost predicate Collected(sent: seq<seq<PushUnit>>, server: Server,
                            accepted: map<string, set<string>>, outboxIds: map<string, seq<string>>)
  {
    && (forall t, id :: Has(accepted, t, id) <==> AcceptedIn(sent, server, t, id))
    && (forall t, id :: (t in outboxIds && id in outboxIds[t]) <==> IdOf(Concat(sent), t, id))
  }

  ghost predicate Invariant(units: seq<PushUnit>, bound: int, c: Config, server: Server, s: State) {
    && Stacked(c, s.stack)
    && Logged(units, c, server, s.sent)
    && |s.sent| + Weight(s.stack) <= bound
    && Conserved(units, Answered(s.sent, server), s.stack)
    && Collected(s.sent, server, s.accepted, s.outboxIds)
  }

  lemma StackedSplit(c: Config, chunk: seq<PushUnit>, rest: seq<seq<PushUnit>>)
    requires Stacked(c, [chunk] + rest)
    ensures Stacked(c, rest) && 1 <= |chunk| && (|chunk| == 1 || |chunk| <= c.maxPushRows)
    ensures var (first, second) := SplitPushChunkForRetry(chunk);
      |chunk| > 1 ==> Stacked(c, [second, first] + rest)
  {
    assert ([chunk] + rest)[0] == chunk;
    assert forall i :: 0 <= i < |rest| ==> rest[i] == ([chunk] + rest)[i + 1];
    var (first, second) := SplitPushChunkForRetry(chunk);
    var stack := [second, first] + rest;
    assert forall i :: 2 <= i < |stack| ==> stack[i] == rest[i - 2];
  }

  lemma SplitKeeps(units: seq<PushUnit>, bound: int, c: Config, server: Server, s: State,
                   chunk: seq<PushUnit>, rest: seq<seq<PushUnit>>)
    requires Invariant(units, bound, c, server, s) && s.stack == [chunk] + rest && |chunk| > 1
    ensures var (first, second) := SplitPushChunkForRetry(chunk);
      && Invariant(units, bound - 1, c, server, s.(stack := [second, first] + rest))
      && Weight([second, first] + rest) < Weight(s.stack)
  {
    SplitStep(s.stack, rest, chunk);
    StackedSplit(c, chunk, rest);
  }

  lemma CollectedStep(sent: seq<seq<PushUnit>>, server: Server, chunk: seq<PushUnit>,
                      accepted: map<string, set<string>>, ids: map<string, seq<string>>,
                      moreIds: map<string, seq<string>>)
    requires Collected(sent, server, accepted, ids)
    requires Adds(ids, chunk, moreIds)
    ensures var reply := server(|sent|, chunk);
      Collected(sent + [chunk], server, if reply.Ack? then MergeIds(accepted, reply.accepted) else accepted, moreIds)
  {
    AnsweredSnoc(sent, chunk, server);
    ConcatSnoc(sent, chunk);
    forall t, id {
      IdOfConcat(Concat(sent), chunk, t, id);
    }
  }

  lemma TooLargeKeeps(units: seq<PushUnit>, bound: int, c: Config, server: Server, s: State,
                      chunk: seq<PushUnit>, ids: map<string, seq<string>>)
    requires Invariant(units, bound, c, server, s)
    requires Sendable(c, chunk) && server(|s.sent|, chunk).TooLarge? && |chunk| > 1 && AllIn(chunk, units)
    requires Adds(s.outboxIds, chunk, ids)
    ensures Invariant(units, bound + 1, c, server, s.(sent := s.sent + [chunk], outboxIds := ids))
  {
    AnsweredSnoc(s.sent, chunk, server);
    LoggedSnoc(units, c, server, s.sent, chunk);
    CollectedStep(s.sent, server, chunk, s.accepted, s.outboxIds, ids);
  }

  lemma FrontIsIn(units: seq<PushUnit>, server: Server, s: State, chunk: seq<PushUnit>, rest: seq<seq<PushUnit>>)
    requires Conserved(units, Answered(s.sent, server), s.stack) && s.stack == [chunk] + rest
    ensures AllIn(chunk, units)
  {
    PopStep(s.stack, rest, chunk);
    forall u | u in chunk ensures u in units {
      assert u in chunk + Concat(rest);
      assert u in multiset(chunk + Concat(rest));
      assert u in multiset(units);
    }
  }

  lemma TooLargeTurns(units: seq<PushUnit>, bound: int, c: Config, server: Server, s: State,
                      chunk: seq<PushUnit>, rest: seq<seq<PushUnit>>, ids: map<string, seq<string>>)
    requires Invariant(units, bound, c, server, s) && s.stack == [chunk] + rest
    requires Sendable(c, chunk) && server(|s.sent|, chunk).TooLarge? && |chunk| > 1
    requires Adds(s.outboxIds, chunk, ids)
    ensures Invariant(units, bound, c, server, s.(stack := Halved(s.stack), sent := s.sent + [chunk], outboxIds := ids))
    ensures Weight(Halved(s.stack)) < Weight(s.stack)
  {
    SplitKeeps(units, bound, c, server, s, chunk, rest);
    FrontIsIn(units, server, s, chunk, rest);
    TooLargeKeeps(units, bound - 1, c, server, s.(stack := Halved(s.stack)), chunk, ids);
  }

  lemma MoveAcross<T>(a: seq<T>, b: seq<T>, c: seq<T>)
    ensures multiset(a) + multiset(b + c) == multiset(a + b) + multiset(c)
  {
  }

  lemma AckConserves(units: seq<PushUnit>, server: Server, sent: seq<seq<PushUnit>>,
                     chunk: seq<PushUnit>, rest: seq<seq<PushUnit>>)
    requires Conserved(units, Answered(sent, server), [chunk] + rest) && server(|sent|, chunk).Ack?
    ensures Conserved(units, Answered(sent + [chunk], server), rest)
  {
    AnsweredSnoc(sent, chunk, server);
    PopStep([chunk] + rest, rest, chunk);
    ConcatSnoc(Answered(sent, server), chunk);
    MoveAcross(Concat(Answered(sent, server)), chunk, Concat(rest));
  }

  lemma LoggedSnoc(units: seq<PushUnit>, c: Config, server: Server, sent: seq<seq<PushUnit>>, chunk: seq<PushUnit>)
    requires Logged(units, c, server, sent)
    requires Sendable(c, chunk) && !Fatal(server(|sent|, chunk), chunk) && AllIn(chunk, units)
    ensures Logged(units, c, server, sent + [chunk])
  {
  }

  lemma AckKeeps(units: seq<PushUnit>, bound: int, c: Config, server: Server, s: State,
                 chunk: seq<PushUnit>, rest: seq<seq<PushUnit>>, next: State)
    requires Invariant(units, bound, c, server, s) && s.stack == [chunk] + rest
    requires Sendable(c, chunk) && server(|s.sent|, chunk).Ack?
    requires next.stack == rest && next.sent == s.sent + [chunk]
    requires next.accepted == MergeIds(s.accepted, server(|s.sent|, chunk).accepted)
    requires Adds(s.outboxIds, chunk, next.outboxIds)
    ensures Invariant(units, bound, c, server, next) && Weight(rest) < Weight(s.stack)
  {
    CollectedStep(s.sent, server, chunk, s.accepted, s.outboxIds, next.outboxIds);
    StackedSplit(c, chunk, rest);
    PopStep(s.stack, rest, chunk);
    AckConserves(units, server, s.sent, chunk, rest);
    FrontIsIn(units, server, s, chunk, rest);
    LoggedSnoc(units, c, server, s.sent, chunk);
  }

  lemma OnlyUnit(units: seq<PushUnit>, bound: int, c: Config, server: Server, s: State,
                 chunk: seq<PushUnit>, rest: seq<seq<PushUnit>>)
    requires Invariant(units, bound, c, server, s) && s.stack == [chunk] + rest && |chunk| == 1
    ensures chunk == [chunk[0]] && chunk[0] in units
    ensures |s.sent| + 1 <= bound
  {
    FrontIsIn(units, server, s, chunk, rest);
    PopStep(s.stack, rest, chunk);
    StackedSplit(c, chunk, rest);
    WeightNonNegative(rest);
  }

  method EncodedBytes(c: Config, chunk: seq<PushUnit>) returns (byteLen: nat)
    ensures byteLen == ChunkLen(c.scopeId, c.clientId, chunk)
  {
    var merged := MergePendingUnits(chunk);
    byteLen := EncodedLen(c.scopeId, c.clientId, merged);
  }

  /** Sends one chunk and acts on the reply. */
  method Send(ghost units: seq<PushUnit>, ghost bound: int, c: Config, server: Server, s: State,
              chunk: seq<PushUnit>, rest: seq<seq<PushUnit>>)
    returns (next: State, stop: Option<PushError>)
    requires Invariant(units, bound, c, server, s) && s.stack == [chunk] + rest && Sendable(c, chunk)
    ensures next.sent == s.sent + [chunk]
    ensures stop.None? ==> Invariant(units, bound, c, server, next) && Weight(next.stack) < Weight(s.stack)
    ensures stop.None? ==> next.stack == if server(|s.sent|, chunk).Ack? then rest else Halved(s.stack)
    ensures stop.Some? <==> Fatal(server(|s.sent|, chunk), chunk)
    ensures stop.Some? ==> Stops(c, server, units, next.sent, stop.value)
  {
    var ids := AddOutboxIds(s.outboxIds, chunk);
    var reply := server(|s.sent|, chunk);
    var sent := s.sent + [chunk];
    match reply {
      case TooLarge =>
        if |chunk| == 1 {
          OnlyUnit(units, bound, c, server, s, chunk, rest);
          return s.(sent := sent), Some(SingleRowTooLarge(chunk[0].table, RowId(chunk[0])));
        }
        TooLargeTurns(units, bound, c, server, s, chunk, rest, ids);
        return s.(stack := Halved(s.stack), sent := sent, outboxIds := ids), None;
      case Failed(message) =>
        return s.(sent := sent), Some(Transport(message));
      case Ack(serverTime, accepted, rejected) =>
        next := State(rest, sent, MergeIds(s.accepted, accepted), MergeIds(s.rejected, rejected), ids,
                      if serverTime != "" then serverTime else s.serverTime);
        AckKeeps(units, bound, c, server, s, chunk, rest, next);
        return next, None;
    }
  }

  /** The front chunk has an allowed number of units, and there is room for one more request. */
  lemma FrontIsAllowed(units: seq<PushUnit>, bound: int, c: Config, server: Server, s: State)
    requires Invariant(units, bound, c, server, s) && s.stack != []
    ensures s.stack == [s.stack[0]] + s.stack[1..] && Chunked(s.stack)
    ensures 1 <= |s.stack[0]| && (|s.stack[0]| == 1 || |s.stack[0]| <= c.maxPushRows)
    ensures |s.sent| + 1 <= bound && AllSendable(c, s.sent)
  {
    assert s.stack == [s.stack[0]] + s.stack[1..];
    StackedSplit(c, s.stack[0], s.stack[1..]);
    StackedIsChunked(c, s.stack);
    WeightNonNegative(s.stack);
  }

  /** What is acknowledged and what is left to do come to the same, before and after. */
  ghost predicate Follows(c: Config, server: Server, s: State, next: State) {
    && Chunked(s.stack) && Chunked(next.stack)
    && Answered(next.sent, server) + Served(next.stack, |next.sent|, c, server)
       == Answered(s.sent, server) + Served(s.stack, |s.sent|, c, server)
    && (GoesThrough(next.stack, |next.sent|, c, server) <==> GoesThrough(s.stack, |s.sent|, c, server))
  }

  lemma StackedIsChunked(c: Config, stack: seq<seq<PushUnit>>)
    requires Stacked(c, stack)
    ensures Chunked(stack)
  {
  }

  lemma HalvingFollows(c: Config, server: Server, s: State)
    requires Chunked(s.stack) && s.stack != [] && |s.stack[0]| > 1 && Chunked(Halved(s.stack)) &&
      Oversize(c, s.stack[0])
    ensures Follows(c, server, s, s.(stack := Halved(s.stack)))
  {
  }

  lemma SendingFollows(c: Config, server: Server, s: State, next: State)
    requires Chunked(s.stack) && s.stack != [] && !Oversize(c, s.stack[0]) && Chunked(next.stack)
    requires next.sent == s.sent + [s.stack[0]] && !Fatal(server(|s.sent|, s.stack[0]), s.stack[0])
    requires next.stack == if server(|s.sent|, s.stack[0]).Ack? then s.stack[1..] else Halved(s.stack)
    ensures Follows(c, server, s, next)
  {
  }

  lemma FatalStops(c: Config, server: Server, s: State)
    requires Chunked(s.stack) && s.stack != []
    requires if Oversize(c, s.stack[0]) then |s.stack[0]| == 1 else Fatal(server(|s.sent|, s.stack[0]), s.stack[0])
    ensures !GoesThrough(s.stack, |s.sent|, c, server)
  {
  }

  /** The front chunk is too large to send, and is halved. */
  lemma HalvingTurns(units: seq<PushUnit>, bound: int, c: Config, server: Server, s: State)
    requires Invariant(units, bound, c, server, s) && s.stack != [] && |s.stack[0]| > 1 && Oversize(c, s.stack[0])
    ensures var next := s.(stack := Halved(s.stack));
      Invariant(units, bound, c, server, next) && Weight(next.stack) < Weight(s.stack) && Follows(c, server, s, next)
  {
    var next := s.(stack := Halved(s.stack));
    assert s.stack == [s.stack[0]] + s.stack[1..];
    SplitKeeps(units, bound, c, server, s, s.stack[0], s.stack[1..]);
    StackedIsChunked(c, s.stack);
    StackedIsChunked(c, next.stack);
    HalvingFollows(c, server, s);
  }

  /** The front chunk is a single unit that is too large. */
  lemma SingleStops(units: seq<PushUnit>, bound: int, c: Config, server: Server, s: State)
    requires Invariant(units, bound, c, server, s) && s.stack != [] && |s.stack[0]| == 1 && Oversize(c, s.stack[0])
    ensures Chunked(s.stack) && !GoesThrough(s.stack, |s.sent|, c, server)
    ensures |s.sent| <= bound
    ensures Stops(c, server, units, s.sent, SingleRowTooLarge(s.stack[0][0].table, RowId(s.stack[0][0])))
  {
    assert s.stack == [s.stack[0]] + s.stack[1..];
    StackedIsChunked(c, s.stack);
    OnlyUnit(units, bound, c, server, s, s.stack[0], s.stack[1..]);
    FatalStops(c, server, s);
  }

  /** One turn of the loop, on the chunk at the front of the deque. */
  method Turn(ghost units: seq<PushUnit>, ghost bound: int, c: Config, server: Server, s: State)
    returns (next: State, stop: Option<PushError>)
    requires Invariant(units, bound, c, server, s) && s.stack != []
    ensures stop.None? ==> Invariant(units, bound, c, server, next) && Weight(next.stack) < Weight(s.stack)
    ensures stop.None? ==> Follows(c, server, s, next)
    ensures stop.Some? ==> Chunked(s.stack) && !GoesThrough(s.stack, |s.sent|, c, server)
    ensures stop.Some? ==> |next.sent| <= bound && Stops(c, server, units, next.sent, stop.value)
    ensures AllSendable(c, next.sent)
  {
    var chunk, rest := s.stack[0], s.stack[1..];
    FrontIsAllowed(units, bound, c, server, s);
    var byteLen := EncodedBytes(c, chunk);
    if byteLen > c.maxPushBytes && |chunk| > 1 {
      HalvingTurns(units, bound, c, server, s);
      return s.(stack := Halved(s.stack)), None;
    }
    if |chunk| == 1 && byteLen > c.maxPushBytes {
      SingleStops(units, bound, c, server, s);
      return s, Some(SingleRowTooLarge(chunk[0].table, RowId(chunk[0])));
    }
    next, stop := Send(units, bound, c, server, s, chunk, rest);
    if stop.Some? {
      FatalStops(c, server, s);
    } else {
      SendingFollows(c, server, s, next);
    }
  }

  /** Every unit is small enough to travel alone, and no reply was fatal. */
  ghost predicate Smooth(units: seq<PushUnit>, c: Config, server: Server, sent: seq<seq<PushUnit>>) {
    && (forall u :: u in units ==> ChunkLen(c.scopeId, c.clientId, [u]) <= c.maxPushBytes)
    && (forall i :: 0 <= i < |sent| ==> !Fatal(server(i, sent[i]), sent[i]))
  }

  lemma StoppedIsNotSmooth(units: seq<PushUnit>, c: Config, server: Server, sent: seq<seq<PushUnit>>, error: PushError)
    requires Stops(c, server, units, sent, error)
    ensures !Smooth(units, c, server, sent)
  {
  }

  function StartState(chunks: seq<seq<PushUnit>>): State {
    State(chunks, [], map[], map[], map[], "")
  }

  lemma StartsOff(units: seq<PushUnit>, chunks: seq<seq<PushUnit>>, c: Config, server: Server)
    requires Splits(FitsIn(c), chunks, units)
    ensures Invariant(units, 2 * |units| - |chunks|, c, server, StartState(chunks)) && Chunked(chunks)
  {
    assert forall i :: 0 <= i < |chunks| ==> Allowed(FitsIn(c), chunks[i]);
    WeightNonNegative(chunks);
  }

  /** The loop: until the deque is empty, or a turn stops it. */
  method Loop(ghost units: seq<PushUnit>, chunks: seq<seq<PushUnit>>, c: Config, server: Server)
    returns (s: State, stop: Option<PushError>)
    requires Invariant(units, 2 * |units| - |chunks|, c, server, StartState(chunks)) && Chunked(chunks)
    ensures |s.sent| <= 2 * |units| - |chunks|
    ensures AllSendable(c, s.sent)
    ensures stop.None? ==> s.stack == [] && Invariant(units, 2 * |units| - |chunks|, c, server, s)
    ensures stop.None? ==> Follows(c, server, StartState(chunks), s)
    ensures stop.Some? ==> Stops(c, server, units, s.sent, stop.value) && !GoesThrough(chunks, 0, c, server)
  {
    s := StartState(chunks);
    ghost var bound := 2 * |units| - |chunks|;
    WeightNonNegative(chunks);
    while s.stack != []
      invariant Invariant(units, bound, c, server, s) && Follows(c, server, StartState(chunks), s)
      decreases Weight(s.stack)
    {
      WeightNonNegative(s.stack);
      var next;
      next, stop := Turn(units, bound, c, server, s);
      if stop.Some? {
        return next, stop;
      }
      WeightNonNegative(next.stack);
      s := next;
    }
    return s, None;
  }

  /**
   Sends every unit to the server so that it is acknowledged exactly once, in at most 2n - k requests for n units in k
   chunks; it does so exactly when every unit is small enough and no reply is fatal. The chunks acknowledged are those
   that `Served` names; distinct units arrive in order exactly if no chunk had to be split.
   */
  method Drain(units: seq<PushUnit>, chunks: seq<seq<PushUnit>>, c: Config, server: Server)
    returns (result: Result<Pushed, PushError>, sent: seq<seq<PushUnit>>)
    requires Splits(FitsIn(c), chunks, units)
    ensures |sent| <= 2 * |units| - |chunks|
    ensures AllSendable(c, sent)
    ensures result.Success? <==> Smooth(units, c, server, sent)
    ensures Chunked(chunks) && (result.Success? <==> GoesThrough(chunks, 0, c, server))
    ensures result.Success? ==> multiset(Concat(Answered(sent, server))) == multiset(units)
    ensures result.Success? ==> Answered(sent, server) == Served(chunks, 0, c, server)
    ensures result.Success? && NoDuplicates(units) ==>
      (Concat(Answered(sent, server)) == units <==> Unsplit(chunks, 0, c, server))
    ensures result.Success? ==> forall t, id :: Has(result.value.accepted, t, id) <==> AcceptedIn(sent, server, t, id)
    ensures result.Success? ==> forall t, id ::
      (t in result.value.outboxIdsByTable && id in result.value.outboxIdsByTable[t]) <==> IdOf(units, t, id)
    ensures result.Failure? ==> Stops(c, server, units, sent, result.error)
  {
    StartsOff(units, chunks, c, server);
    var s, stop := Loop(units, chunks, c, server);
    if stop.Some? {
      StoppedIsNotSmooth(units, c, server, s.sent, stop.value);
      return Failure(stop.value), s.sent;
    }
    Drained(units, chunks, c, server, s);
    return Success(Pushed(s.accepted, s.rejected, s.outboxIds, s.serverTime)), s.sent;
  }

  // ---------------------------------------------------------------------------------------------
  // What a finished run means
  // ---------------------------------------------------------------------------------------------

  lemma {:induction false} InSomeChunk(chunks: seq<seq<PushUnit>>, u: PushUnit) returns (i: nat)
    requires u in Concat(chunks)
    ensures i < |chunks| && u in chunks[i]
  {
    if u in chunks[|chunks| - 1] {
      return |chunks| - 1;
    }
    i := InSomeChunk(chunks[..|chunks| - 1], u);
  }

  lemma {:induction false} ChunkInConcat(chunks: seq<seq<PushUnit>>, i: nat, u: PushUnit)
    requires i < |chunks| && u in chunks[i]
    ensures u in Concat(chunks)
  {
    if i < |chunks| - 1 {
      ChunkInConcat(chunks[..|chunks| - 1], i, u);
    }
  }

  lemma {:induction false} AnsweredIsSent(sent: seq<seq<PushUnit>>, server: Server, k: nat) returns (i: nat)
    requires k < |Answered(sent, server)|
    ensures i < |sent| && sent[i] == Answered(sent, server)[k]
  {
    var n := |sent| - 1;
    if k < |Answered(sent[..n], server)| {
      i := AnsweredIsSent(sent[..n], server, k);
    } else {
      i := n;
    }
  }

  /** Every unit is in some chunk that was sent. */
  lemma UnitWasSent(units: seq<PushUnit>, server: Server, sent: seq<seq<PushUnit>>, u: PushUnit) returns (i: nat)
    requires multiset(Concat(Answered(sent, server))) == multiset(units) && u in units
    ensures i < |sent| && u in sent[i]
  {
    assert u in multiset(units);
    assert u in Concat(Answered(sent, server));
    var k := InSomeChunk(Answered(sent, server), u);
    i := AnsweredIsSent(sent, server, k);
  }

  lemma AloneIsShorter(c: Config, chunk: seq<PushUnit>, u: PushUnit)
    requires u in chunk
    ensures ChunkLen(c.scopeId, c.clientId, [u]) <= ChunkLen(c.scopeId, c.clientId, chunk)
  {
    var k :| 0 <= k < |chunk| && chunk[k] == u;
    assert chunk == chunk[..k] + [u] + chunk[k + 1..];
    ChunkLenMonotone(c.scopeId, c.clientId, chunk[..k], [u], chunk[k + 1..]);
  }

  lemma Finished(units: seq<PushUnit>, bound: int, c: Config, server: Server, s: State)
    requires Invariant(units, bound, c, server, s) && s.stack == []
    ensures Smooth(units, c, server, s.sent)
    ensures multiset(Concat(Answered(s.sent, server))) == multiset(units)
    ensures forall t, id :: IdOf(Concat(s.sent), t, id) <==> IdOf(units, t, id)
  {
    forall u | u in units
      ensures ChunkLen(c.scopeId, c.clientId, [u]) <= c.maxPushBytes
      ensures u in Concat(s.sent)
    {
      var i := UnitWasSent(units, server, s.sent, u);
      AloneIsShorter(c, s.sent[i], u);
      ChunkInConcat(s.sent, i, u);
    }
    forall u | u in Concat(s.sent) ensures u in units {
      var i := InSomeChunk(s.sent, u);
      assert AllIn(s.sent[i], units);
    }
  }

  lemma NothingLeft(chunks: seq<seq<PushUnit>>, c: Config, server: Server, s: State)
    requires s.stack == [] && Follows(c, server, StartState(chunks), s)
    ensures Answered(s.sent, server) == Served(chunks, 0, c, server) && GoesThrough(chunks, 0, c, server)
  {
    var all, served := Answered(s.sent, server), Served(chunks, 0, c, server);
    assert Served([], |s.sent|, c, server) == [] && Answered([], server) == [];
    assert all + [] == all && [] + served == served;
  }

  /** A finished loop, in terms of the chunks it began with. */
  lemma Drained(units: seq<PushUnit>, chunks: seq<seq<PushUnit>>, c: Config, server: Server, s: State)
    requires Splits(FitsIn(c), chunks, units) && Chunked(chunks)
    requires Invariant(units, 2 * |units| - |chunks|, c, server, s) && s.stack == []
    requires Follows(c, server, StartState(chunks), s)
    ensures Smooth(units, c, server, s.sent) && GoesThrough(chunks, 0, c, server)
    ensures multiset(Concat(Answered(s.sent, server))) == multiset(units)
    ensures Answered(s.sent, server) == Served(chunks, 0, c, server)
    ensures NoDuplicates(units) ==> (Concat(Answered(s.sent, server)) == units <==> Unsplit(chunks, 0, c, server))
    ensures forall t, id :: IdOf(Concat(s.sent), t, id) <==> IdOf(units, t, id)
  {
    Finished(units, 2 * |units| - |chunks|, c, server, s);
    NothingLeft(chunks, c, server, s);
    if NoDuplicates(units) {
      OrderKeptIff(chunks, 0, c, server);
    }
  }

  /** An envelope the client may send passes the check of a server whose limits are no lower than the client's. */
  lemma SendableIsAccepted(c: Config, limits: Limits, chunk: seq<PushUnit>)
    requires Sendable(c, chunk)
    requires c.maxPushBytes <= limits.maxBytes && 1 <= c.maxPushRows <= limits.maxRows
    ensures ChunkLen(c.scopeId, c.clientId, chunk) <= limits.maxBytes
    ensures TotalRows(Merge(chunk)) <= limits.maxRows
  {
    MergedRowCount(chunk);
  }

  /** The whole of `push` between reading the outbox and marking it: cut into chunks, then drain them. */
  method PushUnits(units: seq<PushUnit>, c: Config, limits: Limits, server: Server)
    returns (result: Result<Pushed, PushError>, sent: seq<seq<PushUnit>>)
    ensures units == [] ==> result.Success? && sent == []
    ensures result.Success? <==> Smooth(units, c, server, sent)
    ensures result.Success? ==> multiset(Concat(Answered(sent, server))) == multiset(units)
    ensures units != [] ==> |sent| < 2 * |units|
    ensures c.maxPushBytes <= limits.maxBytes && 1 <= c.maxPushRows <= limits.maxRows ==>
      forall i :: 0 <= i < |sent| ==>
        ChunkLen(c.scopeId, c.clientId, sent[i]) <= limits.maxBytes && TotalRows(Merge(sent[i])) <= limits.maxRows
  {
    if units == [] {
      return Success(Pushed(map[], map[], map[], "")), [];
    }
    var chunks := ChunkPendingPushTables(units, c);
    result, sent := Drain(units, chunks, c, server);
    if c.maxPushBytes <= limits.maxBytes && 1 <= c.maxPushRows <= limits.maxRows {
      forall i | 0 <= i < |sent|
        ensures ChunkLen(c.scopeId, c.clientId, sent[i]) <= limits.maxBytes
        ensures TotalRows(Merge(sent[i])) <= limits.maxRows
      {
        SendableIsAccepted(c, limits, sent[i]);
      }
    }
  }
}
