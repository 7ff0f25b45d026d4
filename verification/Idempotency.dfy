/**
 The idempotency guard (packages/baresync/src/server/idempotency.ts): any number of requests, each a sequence of
 separately committed operations on one table with a unique key, interleaved in any order with each other, with
 clean-ups of completed and of stale pending records, and with the passing of time.
 */
module Idempotency {
  import opened Wrappers

  /** The unique index of sync_batch_requests: client id and idempotency key. */
  datatype RequestKey = RequestKey(clientId: string, idempotencyKey: string)

  datatype Status = Pending | Completed(response: string)

  /** A record; its row id is assigned by the table and never used again, so it names one lifetime of the record. */
  datatype Record = Record(rowId: nat, requestHash: string, status: Status, createdAt: int)

  datatype Table = Table(records: map<RequestKey, Record>, nextRowId: nat)

  /** How a request ends; the row id tells in which lifetime of the record the response was produced. */
  datatype Outcome =
    | Fresh(rowId: nat, response: string)
    | Replay(rowId: nat, response: string)
    | Conflict
    | CallbackFailed
    | ReserveFailed
    | Crashed

  /** Where a request stands between two of its awaits. */
  datatype Phase =
    | Arrived
    | Reclaiming
    | Reserving
    | Recovering
    | Running(rowId: nat)
    | Finalizing(rowId: nat, response: string)
    | Deleting(rowId: nat)
    | Done(outcome: Outcome)

  datatype Request = Request(key: RequestKey, hash: string, phase: Phase)

  /** A callback that returned: under which lifetime of which record, for which request hash, and with what. */
  datatype CallbackSuccess = CallbackSuccess(rowId: nat, key: RequestKey, hash: string, response: string)

  datatype System = System(table: Table, requests: map<nat, Request>, now: int, successes: seq<CallbackSuccess>)

  // ---------------------------------------------------------------------------------------------
  // The table operations
  // ---------------------------------------------------------------------------------------------

  function Load(t: Table, k: RequestKey): Option<Record> {
    if k in t.records then Some(t.records[k]) else None
  }

  function Insert(t: Table, k: RequestKey, hash: string, now: int): Table {
    Table(t.records[k := Record(t.nextRowId, hash, Pending, now)], t.nextRowId + 1)
  }

  function Finalize(t: Table, k: RequestKey, response: string): Table {
    if k in t.records then t.(records := t.records[k := t.records[k].(status := Completed(response))]) else t
  }

  function Reclaim(t: Table, k: RequestKey, now: int): Table {
    if k in t.records then t.(records := t.records[k := t.records[k].(status := Pending, createdAt := now)]) else t
  }

  function Delete(t: Table, k: RequestKey): Table {
    t.(records := t.records - {k})
  }

  // ---------------------------------------------------------------------------------------------
  // Steps
  // ---------------------------------------------------------------------------------------------

  datatype Step =
    | Arrive(id: nat, key: RequestKey, hash: string)
    | LoadStep(id: nat)
    | ReclaimStep(id: nat)
    | ReserveStep(id: nat)
    | RecoverStep(id: nat)
    | CallbackReturns(id: nat, response: string)
    | CallbackThrows(id: nat)
    | FinalizeStep(id: nat)
    | DeleteStep(id: nat)
    | CrashStep(id: nat)
    | CleanUp(key: RequestKey)
    | CleanUpStale(key: RequestKey, olderThan: nat)
    | Tick(elapsed: nat)

  /** What `resolveExistingRow` makes of the record it was given. */
  function Resolve(existing: Option<Record>, hash: string, now: int, timeout: nat): Phase {
    match existing
    case None => Reserving
    case Some(Record(rowId, h, Completed(response), _)) => Done(if h == hash then Replay(rowId, response) else Conflict)
    case Some(Record(_, _, Pending, createdAt)) => if now - createdAt < timeout then Done(Conflict) else Reclaiming
  }

  /** What the recovery after a failed insert makes of the record it reloads. */
  function Recover(reloaded: Option<Record>, hash: string): Phase {
    match reloaded
    case None => Done(ReserveFailed)
    case Some(Record(rowId, h, Completed(response), _)) => Done(if h == hash then Replay(rowId, response) else Conflict)
    case Some(_) => Done(Conflict)
  }

  predicate At(s: System, id: nat, phase: Phase) {
    id in s.requests && s.requests[id].phase == phase
  }

  predicate Enabled(s: System, step: Step) {
    match step
    case Arrive(id, _, _) => id !in s.requests
    case LoadStep(id) => At(s, id, Arrived)
    case ReclaimStep(id) => At(s, id, Reclaiming)
    case ReserveStep(id) => At(s, id, Reserving)
    case RecoverStep(id) => At(s, id, Recovering)
    case CallbackReturns(id, _) => id in s.requests && s.requests[id].phase.Running?
    case CallbackThrows(id) => id in s.requests && s.requests[id].phase.Running?
    case FinalizeStep(id) => id in s.requests && s.requests[id].phase.Finalizing?
    case DeleteStep(id) => id in s.requests && s.requests[id].phase.Deleting?
    case CrashStep(id) => id in s.requests && !s.requests[id].phase.Done?
    case CleanUp(k) => k in s.table.records && s.table.records[k].status.Completed?
    case CleanUpStale(k, olderThan) =>
      k in s.table.records && s.table.records[k].status.Pending? && s.table.records[k].createdAt < s.now - olderThan
    case Tick(_) => true
  }

  function Move(s: System, id: nat, phase: Phase): System
    requires id in s.requests
  {
    s.(requests := s.requests[id := s.requests[id].(phase := phase)])
  }

  function Next(s: System, timeout: nat, step: Step): System
    requires Enabled(s, step)
  {
    match step
    case Arrive(id, key, hash) => s.(requests := s.requests[id := Request(key, hash, Arrived)])
    case LoadStep(id) =>
      var r := s.requests[id];
      Move(s, id, Resolve(Load(s.table, r.key), r.hash, s.now, timeout))
    case ReclaimStep(id) =>
      var r := s.requests[id];
      var rowId := if r.key in s.table.records then s.table.records[r.key].rowId else s.table.nextRowId;
      Move(s, id, Running(rowId)).(table := Reclaim(s.table, r.key, s.now))
    case ReserveStep(id) =>
      var r := s.requests[id];
      if r.key in s.table.records then Move(s, id, Recovering)
      else Move(s, id, Running(s.table.nextRowId)).(table := Insert(s.table, r.key, r.hash, s.now))
    case RecoverStep(id) =>
      var r := s.requests[id];
      Move(s, id, Recover(Load(s.table, r.key), r.hash))
    case CallbackReturns(id, response) =>
      var r := s.requests[id];
      Move(s, id, Finalizing(r.phase.rowId, response))
        .(successes := s.successes + [CallbackSuccess(r.phase.rowId, r.key, r.hash, response)])
    case CallbackThrows(id) => Move(s, id, Deleting(s.requests[id].phase.rowId))
    case FinalizeStep(id) =>
      var r := s.requests[id];
      Move(s, id, Done(Fresh(r.phase.rowId, r.phase.response))).(table := Finalize(s.table, r.key, r.phase.response))
    case DeleteStep(id) =>
      var r := s.requests[id];
      Move(s, id, Done(CallbackFailed)).(table := Delete(s.table, r.key))
    case CrashStep(id) => Move(s, id, Done(Crashed))
    case CleanUp(k) => s.(table := Delete(s.table, k))
    case CleanUpStale(k, _) => s.(table := Delete(s.table, k))
    case Tick(elapsed) => s.(now := s.now + elapsed)
  }

  const INITIAL := System(Table(map[], 0), map[], 0, [])

  /** The states of a run, if each of its steps is enabled in turn. */
  function Run(timeout: nat, steps: seq<Step>): Option<System> {
    if steps == [] then Some(INITIAL)
    else match Run(timeout, steps[..|steps| - 1])
      case None => None
      case Some(s) =>
        var step := steps[|steps| - 1];
        if Enabled(s, step) then Some(Next(s, timeout, step)) else None
  }

  // ---------------------------------------------------------------------------------------------
  // The invariant
  // ---------------------------------------------------------------------------------------------

  /** Between reserving the record and finalizing or deleting it. */
  predicate InFlight(p: Phase) {
    p.Running? || p.Finalizing? || p.Deleting?
  }

  predicate Active(s: System, id: nat) {
    id in s.requests && InFlight(s.requests[id].phase)
  }

  predicate LogHas(s: System, rowId: nat) {
    exists e :: e in s.successes && e.rowId == rowId
  }

  ghost predicate TableOk(s: System) {
    && (forall k :: k in s.table.records ==> s.table.records[k].rowId < s.table.nextRowId)
    && forall k, q :: k in s.table.records && q in s.table.records && k != q ==>
        s.table.records[k].rowId != s.table.records[q].rowId
  }

  /** A completed record holds the response of the one callback that succeeded in its lifetime. */
  ghost predicate CompletedOk(s: System) {
    forall k :: k in s.table.records && s.table.records[k].status.Completed? ==>
      var r := s.table.records[k];
      CallbackSuccess(r.rowId, k, r.requestHash, r.status.response) in s.successes
  }

  /** A request in flight owns the pending record of its key; it has succeeded exactly if it is finalizing. */
  ghost predicate OwnerOk(s: System, id: nat)
    requires id in s.requests
  {
    var r := s.requests[id];
    match r.phase
    case Running(rowId) => Owns(s, r, rowId) && !LogHas(s, rowId)
    case Deleting(rowId) => Owns(s, r, rowId) && !LogHas(s, rowId)
    case Finalizing(rowId, response) =>
      Owns(s, r, rowId) && CallbackSuccess(rowId, r.key, r.hash, response) in s.successes
    case Done(Replay(rowId, response)) => CallbackSuccess(rowId, r.key, r.hash, response) in s.successes
    case Done(Fresh(rowId, response)) => CallbackSuccess(rowId, r.key, r.hash, response) in s.successes
    case _ => true
  }

  ghost predicate Owns(s: System, r: Request, rowId: nat) {
    && r.key in s.table.records
    && s.table.records[r.key].rowId == rowId
    && s.table.records[r.key].requestHash == r.hash
    && s.table.records[r.key].status.Pending?
  }

  /** At most one request per key is in flight. */
  ghost predicate OneOwner(s: System) {
    forall a, b :: Active(s, a) && Active(s, b) && s.requests[a].key == s.requests[b].key ==> a == b
  }

  /** No two successes share a lifetime, and none belongs to a lifetime yet to come. */
  ghost predicate LogOk(s: System) {
    && (forall i, j :: 0 <= i < j < |s.successes| ==> s.successes[i].rowId != s.successes[j].rowId)
    && (forall e :: e in s.successes ==> e.rowId < s.table.nextRowId)
  }

  ghost predicate Inv(s: System) {
    && TableOk(s)
    && CompletedOk(s)
    && OneOwner(s)
    && LogOk(s)
    && forall id :: id in s.requests ==> OwnerOk(s, id)
  }

  // ---------------------------------------------------------------------------------------------
  // Every step keeps the invariant
  // ---------------------------------------------------------------------------------------------

  /** A request that only looks, waits or leaves: the table and the log stay as they are. */
  lemma MoveKeeps(s: System, id: nat, phase: Phase)
    requires Inv(s) && id in s.requests && !InFlight(phase)
    requires OwnerOk(Move(s, id, phase), id)
    ensures Inv(Move(s, id, phase))
  {
  }

  lemma LoadKeeps(s: System, timeout: nat, id: nat)
    requires Inv(s) && Enabled(s, LoadStep(id))
    ensures Inv(Next(s, timeout, LoadStep(id)))
  {
    var r := s.requests[id];
    var phase := Resolve(Load(s.table, r.key), r.hash, s.now, timeout);
    assert phase.Done? && phase.outcome.Replay? ==> s.table.records[r.key].status.Completed?;
    MoveKeeps(s, id, phase);
  }

  lemma RecoverKeeps(s: System, timeout: nat, id: nat)
    requires Inv(s) && Enabled(s, RecoverStep(id))
    ensures Inv(Next(s, timeout, RecoverStep(id)))
  {
    var r := s.requests[id];
    var phase := Recover(Load(s.table, r.key), r.hash);
    assert phase.Done? && phase.outcome.Replay? ==> s.table.records[r.key].status.Completed?;
    MoveKeeps(s, id, phase);
  }

  lemma ReserveKeeps(s: System, timeout: nat, id: nat)
    requires Inv(s) && Enabled(s, ReserveStep(id))
    ensures Inv(Next(s, timeout, ReserveStep(id)))
  {
    var r, next := s.requests[id], Next(s, timeout, ReserveStep(id));
    if r.key in s.table.records {
      MoveKeeps(s, id, Recovering);
    } else {
      assert !LogHas(next, s.table.nextRowId);
      forall x | x in next.requests ensures OwnerOk(next, x) {
        assert OwnerOk(s, x);
      }
      forall a, b | Active(next, a) && Active(next, b) && next.requests[a].key == next.requests[b].key ensures a == b {
        if a != id { assert OwnerOk(s, a); }
        if b != id { assert OwnerOk(s, b); }
      }
    }
  }

  lemma ReturnKeeps(s: System, timeout: nat, id: nat, response: string)
    requires Inv(s) && Enabled(s, CallbackReturns(id, response))
    ensures Inv(Next(s, timeout, CallbackReturns(id, response)))
  {
    var r, next := s.requests[id], Next(s, timeout, CallbackReturns(id, response));
    assert OwnerOk(s, id);
    var e := CallbackSuccess(r.phase.rowId, r.key, r.hash, response);
    assert next.successes == s.successes + [e];
    forall x | x in next.requests ensures OwnerOk(next, x) {
      assert OwnerOk(s, x);
      if x != id && Active(s, x) {
        SameRowSameRequest(s, id, x);
      }
    }
    assert forall x :: Active(next, x) ==> Active(s, x);
    forall i, j | 0 <= i < j < |next.successes| ensures next.successes[i].rowId != next.successes[j].rowId {
      if j == |s.successes| { assert s.successes[i] in s.successes; }
    }
  }

  lemma SameRowSameRequest(s: System, a: nat, b: nat)
    requires Inv(s) && Active(s, a) && Active(s, b) && a != b
    ensures s.requests[a].key != s.requests[b].key
    ensures RowOf(s.requests[a].phase) != RowOf(s.requests[b].phase)
  {
  }

  function RowOf(p: Phase): nat
    requires InFlight(p)
  {
    match p
    case Running(rowId) => rowId
    case Finalizing(rowId, _) => rowId
    case Deleting(rowId) => rowId
  }

  lemma ThrowKeeps(s: System, timeout: nat, id: nat)
    requires Inv(s) && Enabled(s, CallbackThrows(id))
    ensures Inv(Next(s, timeout, CallbackThrows(id)))
  {
    var next := Next(s, timeout, CallbackThrows(id));
    assert OwnerOk(s, id);
    forall x | x in next.requests ensures OwnerOk(next, x) {
      assert OwnerOk(s, x);
    }
    assert forall x :: Active(next, x) ==> Active(s, x);
  }

  lemma FinalizeKeeps(s: System, timeout: nat, id: nat)
    requires Inv(s) && Enabled(s, FinalizeStep(id))
    ensures Inv(Next(s, timeout, FinalizeStep(id)))
  {
    var r, next := s.requests[id], Next(s, timeout, FinalizeStep(id));
    assert OwnerOk(s, id);
    forall x | x in next.requests ensures OwnerOk(next, x) {
      assert OwnerOk(s, x);
      if x != id && Active(s, x) {
        SameRowSameRequest(s, id, x);
      }
    }
    assert forall x :: Active(next, x) ==> Active(s, x);
  }

  lemma DeleteKeeps(s: System, timeout: nat, id: nat)
    requires Inv(s) && Enabled(s, DeleteStep(id))
    ensures Inv(Next(s, timeout, DeleteStep(id)))
  {
    var next := Next(s, timeout, DeleteStep(id));
    assert OwnerOk(s, id);
    forall x | x in next.requests ensures OwnerOk(next, x) {
      assert OwnerOk(s, x);
      if x != id && Active(s, x) {
        SameRowSameRequest(s, id, x);
      }
    }
    assert forall x :: Active(next, x) ==> Active(s, x);
  }

  lemma CleanUpKeeps(s: System, timeout: nat, k: RequestKey)
    requires Inv(s) && Enabled(s, CleanUp(k))
    ensures Inv(Next(s, timeout, CleanUp(k)))
  {
    var next := Next(s, timeout, CleanUp(k));
    forall x | x in next.requests ensures OwnerOk(next, x) {
      assert OwnerOk(s, x);
    }
    assert forall x :: Active(next, x) ==> Active(s, x);
  }

  lemma ArriveKeeps(s: System, timeout: nat, step: Step)
    requires Inv(s) && Enabled(s, step) && (step.Arrive? || step.Tick?)
    ensures Inv(Next(s, timeout, step))
  {
    var next := Next(s, timeout, step);
    forall x | x in next.requests ensures OwnerOk(next, x) {
      if x in s.requests { assert OwnerOk(s, x); }
    }
    assert forall x :: Active(next, x) ==> Active(s, x);
  }

  /**
   A reclaim that takes over a pending record of its own hash, which nobody works on and no callback succeeded for.
   */
  ghost predicate SafeReclaim(s: System, id: nat)
    requires id in s.requests
  {
    var r := s.requests[id];
    && r.key in s.table.records
    && s.table.records[r.key].status.Pending?
    && s.table.records[r.key].requestHash == r.hash
    && !LogHas(s, s.table.records[r.key].rowId)
    && NobodyElse(s, id)
  }

  /** No other request of the key is in flight. */
  ghost predicate NobodyElse(s: System, id: nat)
    requires id in s.requests
  {
    forall x :: Active(s, x) && s.requests[x].key == s.requests[id].key ==> x == id
  }

  /** A reclaim keeps the invariant exactly if it is safe. */
  lemma ReclaimKeepsIff(s: System, timeout: nat, id: nat)
    requires Inv(s) && Enabled(s, ReclaimStep(id))
    ensures Inv(Next(s, timeout, ReclaimStep(id))) <==> SafeReclaim(s, id)
  {
    var r, next := s.requests[id], Next(s, timeout, ReclaimStep(id));
    if SafeReclaim(s, id) {
      SafeReclaimKeeps(s, timeout, id);
    } else if Inv(next) {
      assert OwnerOk(next, id);
      if !NobodyElse(s, id) {
        var x :| Active(s, x) && s.requests[x].key == r.key && x != id;
        assert Active(next, x) && Active(next, id);
      }
    }
  }

  lemma SafeReclaimKeeps(s: System, timeout: nat, id: nat)
    requires Inv(s) && Enabled(s, ReclaimStep(id)) && SafeReclaim(s, id)
    ensures Inv(Next(s, timeout, ReclaimStep(id)))
  {
    var r, next := s.requests[id], Next(s, timeout, ReclaimStep(id));
    forall x | x in next.requests ensures OwnerOk(next, x) {
      assert OwnerOk(s, x);
    }
    assert forall x :: Active(next, x) ==> x == id || Active(s, x);
  }

  /** No request of the key is in flight. */
  ghost predicate Idle(s: System, k: RequestKey) {
    forall x :: Active(s, x) ==> s.requests[x].key != k
  }

  /** Cleaning up a pending record keeps the invariant exactly if nobody works on it. */
  lemma CleanUpStaleKeepsIff(s: System, timeout: nat, k: RequestKey, olderThan: nat)
    requires Inv(s) && Enabled(s, CleanUpStale(k, olderThan))
    ensures Inv(Next(s, timeout, CleanUpStale(k, olderThan))) <==> Idle(s, k)
  {
    var next := Next(s, timeout, CleanUpStale(k, olderThan));
    assert forall x :: Active(next, x) <==> Active(s, x);
    if Idle(s, k) {
      forall x | x in next.requests ensures OwnerOk(next, x) {
        assert OwnerOk(s, x);
      }
    } else {
      var x :| Active(s, x) && s.requests[x].key == k;
      assert !OwnerOk(next, x);
    }
  }

  /** The two steps that may go wrong: a reclaim has to be safe, and a pending record that is cleaned up, abandoned. */
  ghost predicate SafeStep(s: System, step: Step)
    requires Enabled(s, step)
  {
    match step
    case ReclaimStep(id) => SafeReclaim(s, id)
    case CleanUpStale(k, _) => Idle(s, k)
    case _ => true
  }

  /** A step keeps the invariant exactly if it is safe. */
  lemma StepKeepsIff(s: System, timeout: nat, step: Step)
    requires Inv(s) && Enabled(s, step)
    ensures Inv(Next(s, timeout, step)) <==> SafeStep(s, step)
  {
    match step
    case Arrive(_, _, _) => ArriveKeeps(s, timeout, step);
    case Tick(_) => ArriveKeeps(s, timeout, step);
    case LoadStep(id) => LoadKeeps(s, timeout, id);
    case ReclaimStep(id) => ReclaimKeepsIff(s, timeout, id);
    case ReserveStep(id) => ReserveKeeps(s, timeout, id);
    case RecoverStep(id) => RecoverKeeps(s, timeout, id);
    case CallbackReturns(id, response) => ReturnKeeps(s, timeout, id, response);
    case CallbackThrows(id) => ThrowKeeps(s, timeout, id);
    case FinalizeStep(id) => FinalizeKeeps(s, timeout, id);
    case DeleteStep(id) => DeleteKeeps(s, timeout, id);
    case CrashStep(id) => MoveKeeps(s, id, Done(Crashed));
    case CleanUp(k) => CleanUpKeeps(s, timeout, k);
    case CleanUpStale(k, olderThan) => CleanUpStaleKeepsIff(s, timeout, k, olderThan);
  }

  // ---------------------------------------------------------------------------------------------
  // Runs
  // ---------------------------------------------------------------------------------------------

  /** Every reclaim of the run is safe, and so is every clean-up of a pending record. */
  ghost predicate SafeRun(timeout: nat, steps: seq<Step>)
    requires Run(timeout, steps).Some?
  {
    steps == [] ||
    (var rest, step := steps[..|steps| - 1], steps[|steps| - 1];
     SafeRun(timeout, rest) && SafeStep(Run(timeout, rest).value, step))
  }

  /** The invariant holds all the way. */
  ghost predicate InvThroughout(timeout: nat, steps: seq<Step>)
    requires Run(timeout, steps).Some?
  {
    Inv(Run(timeout, steps).value) && (steps == [] || InvThroughout(timeout, steps[..|steps| - 1]))
  }

  /**
   Under every interleaving: requests in flight own the pending record of their key and of their hash, alone, and no
   lifetime has two successes, throughout exactly if every reclaim is safe and no pending record is cleaned up while
   somebody works on it.
   */
  lemma {:induction false} SafeThroughoutIff(timeout: nat, steps: seq<Step>)
    requires Run(timeout, steps).Some?
    ensures InvThroughout(timeout, steps) <==> SafeRun(timeout, steps)
  {
    if steps != [] {
      var rest := steps[..|steps| - 1];
      SafeThroughoutIff(timeout, rest);
      if InvThroughout(timeout, rest) {
        StepKeepsIff(Run(timeout, rest).value, timeout, steps[|steps| - 1]);
      }
    }
  }

  /** The step does not take a pending record for stale, neither to reclaim it nor to clean it up. */
  predicate Timely(s: System, timeout: nat, step: Step)
    requires Enabled(s, step)
  {
    match step
    case LoadStep(id) =>
      var r := s.requests[id];
      Resolve(Load(s.table, r.key), r.hash, s.now, timeout) != Reclaiming
    case CleanUpStale(_, _) => false
    case _ => true
  }

  ghost predicate TimelyRun(timeout: nat, steps: seq<Step>)
    requires Run(timeout, steps).Some?
  {
    steps == [] ||
    (TimelyRun(timeout, steps[..|steps| - 1])
     && Timely(Run(timeout, steps[..|steps| - 1]).value, timeout, steps[|steps| - 1]))
  }

  lemma TimelyStep(s: System, timeout: nat, step: Step)
    requires Enabled(s, step) && Timely(s, timeout, step) && forall id :: !At(s, id, Reclaiming)
    ensures SafeStep(s, step) && forall id :: !At(Next(s, timeout, step), id, Reclaiming)
  {
    forall id ensures !At(Next(s, timeout, step), id, Reclaiming) {
      assert !At(s, id, Reclaiming);
    }
  }

  /** A run in which no pending record is ever taken for stale has no reclaims at all. */
  lemma {:induction false} TimelyIsSafe(timeout: nat, steps: seq<Step>)
    requires Run(timeout, steps).Some? && TimelyRun(timeout, steps)
    ensures SafeRun(timeout, steps)
    ensures forall id :: !At(Run(timeout, steps).value, id, Reclaiming)
  {
    if steps != [] {
      TimelyIsSafe(timeout, steps[..|steps| - 1]);
      TimelyStep(Run(timeout, steps[..|steps| - 1]).value, timeout, steps[|steps| - 1]);
    }
  }

  /** A request is answered with the response of the one success of that lifetime, which had its key and its hash. */
  ghost predicate AnswerOk(s: System, id: nat)
    requires id in s.requests
  {
    var r := s.requests[id];
    r.phase.Done? && (r.phase.outcome.Replay? || r.phase.outcome.Fresh?) ==>
      var answer := CallbackSuccess(r.phase.outcome.rowId, r.key, r.hash, r.phase.outcome.response);
      answer in s.successes && forall e :: e in s.successes && e.rowId == answer.rowId ==> e == answer
  }

  lemma AnswersOk(s: System, id: nat)
    requires Inv(s) && id in s.requests
    ensures AnswerOk(s, id)
  {
  }

  /**
   Under every interleaving in which reclaims and clean-ups are safe, in particular if no pending record is ever taken
   for stale: each key has at most one callback in flight; each lifetime of a record sees at most one callback
   succeed; and a request is answered, first or by replay, with exactly the response of the success of that lifetime,
   which had the request's own hash.
   */
  lemma GuardIsSafe(timeout: nat, steps: seq<Step>)
    requires Run(timeout, steps).Some? && (SafeRun(timeout, steps) || TimelyRun(timeout, steps))
    ensures var s := Run(timeout, steps).value;
      && OneOwner(s)
      && (forall i, j :: 0 <= i < j < |s.successes| ==> s.successes[i].rowId != s.successes[j].rowId)
      && (forall id :: id in s.requests ==> AnswerOk(s, id))
  {
    if TimelyRun(timeout, steps) {
      TimelyIsSafe(timeout, steps);
    }
    SafeThroughoutIff(timeout, steps);
    var s := Run(timeout, steps).value;
    forall id | id in s.requests ensures AnswerOk(s, id) {
      AnswersOk(s, id);
    }
  }

  // ---------------------------------------------------------------------------------------------
  // One callback at a time
  // ---------------------------------------------------------------------------------------------

  /** Requests in flight have the pending record of their key, and a key has at most one of them. */
  ghost predicate Owned(s: System) {
    && OneOwner(s)
    && forall id :: Active(s, id) ==>
        s.requests[id].key in s.table.records && s.table.records[s.requests[id].key].status.Pending?
  }

  /** A reclaim that finds its record, and no other request of the key in flight. */
  ghost predicate OrderlyReclaim(s: System, id: nat)
    requires id in s.requests
  {
    s.requests[id].key in s.table.records && NobodyElse(s, id)
  }

  ghost predicate OrderlyStep(s: System, step: Step)
    requires Enabled(s, step)
  {
    match step
    case ReclaimStep(id) => OrderlyReclaim(s, id)
    case CleanUpStale(k, _) => Idle(s, k)
    case _ => true
  }

  lemma CleanUpStaleOwnedIff(s: System, timeout: nat, k: RequestKey, olderThan: nat)
    requires Owned(s) && Enabled(s, CleanUpStale(k, olderThan))
    ensures Owned(Next(s, timeout, CleanUpStale(k, olderThan))) <==> Idle(s, k)
  {
    var next := Next(s, timeout, CleanUpStale(k, olderThan));
    assert forall x :: Active(next, x) <==> Active(s, x);
  }

  lemma StepOwnedIff(s: System, timeout: nat, step: Step)
    requires Owned(s) && Enabled(s, step)
    ensures Owned(Next(s, timeout, step)) <==> OrderlyStep(s, step)
  {
    var next := Next(s, timeout, step);
    if step.ReclaimStep? {
      assert Active(next, step.id);
      if !NobodyElse(s, step.id) {
        var x :| Active(s, x) && s.requests[x].key == s.requests[step.id].key && x != step.id;
        assert Active(next, x);
      }
      assert forall x :: Active(next, x) ==> x == step.id || Active(s, x);
    } else if step.CleanUpStale? {
      CleanUpStaleOwnedIff(s, timeout, step.key, step.olderThan);
    } else {
      OtherStepOwned(s, timeout, step);
    }
  }

  lemma OtherStepOwned(s: System, timeout: nat, step: Step)
    requires Owned(s) && Enabled(s, step) && !step.ReclaimStep? && !step.CleanUpStale?
    ensures Owned(Next(s, timeout, step))
  {
    var next := Next(s, timeout, step);
    forall x | Active(next, x)
      ensures Active(s, x) || (step == ReserveStep(x) && s.requests[x].key !in s.table.records)
      ensures next.requests[x].key in next.table.records && next.table.records[next.requests[x].key].status.Pending?
    {
    }
  }

  ghost predicate OrderlyRun(timeout: nat, steps: seq<Step>)
    requires Run(timeout, steps).Some?
  {
    steps == [] ||
    (var rest, step := steps[..|steps| - 1], steps[|steps| - 1];
     OrderlyRun(timeout, rest) && OrderlyStep(Run(timeout, rest).value, step))
  }

  ghost predicate OwnedThroughout(timeout: nat, steps: seq<Step>)
    requires Run(timeout, steps).Some?
  {
    Owned(Run(timeout, steps).value) && (steps == [] || OwnedThroughout(timeout, steps[..|steps| - 1]))
  }

  /**
   Under every interleaving: each key has at most one callback in flight, under a pending record, throughout exactly if
   every reclaim finds its record and no other request of its key in flight, and no pending record is cleaned up while a
   request of its key is in flight.
   */
  lemma {:induction false} OneCallbackIff(timeout: nat, steps: seq<Step>)
    requires Run(timeout, steps).Some?
    ensures OwnedThroughout(timeout, steps) <==> OrderlyRun(timeout, steps)
  {
    if steps != [] {
      var rest := steps[..|steps| - 1];
      OneCallbackIff(timeout, rest);
      if OwnedThroughout(timeout, rest) {
        StepOwnedIff(Run(timeout, rest).value, timeout, steps[|steps| - 1]);
      }
    }
  }

  /** Besides, each request in flight has the hash of its record, under which its response will be stored. */
  ghost predicate OwnHash(s: System) {
    Owned(s) && forall id :: Active(s, id) ==> s.table.records[s.requests[id].key].requestHash == s.requests[id].hash
  }

  ghost predicate OwnHashReclaim(s: System, id: nat)
    requires id in s.requests
  {
    OrderlyReclaim(s, id) && s.table.records[s.requests[id].key].requestHash == s.requests[id].hash
  }

  ghost predicate OwnHashStep(s: System, step: Step)
    requires Enabled(s, step)
  {
    OrderlyStep(s, step) && (step.ReclaimStep? ==> OwnHashReclaim(s, step.id))
  }

  lemma StepOwnHashIff(s: System, timeout: nat, step: Step)
    requires OwnHash(s) && Enabled(s, step)
    ensures OwnHash(Next(s, timeout, step)) <==> OwnHashStep(s, step)
  {
    var next := Next(s, timeout, step);
    StepOwnedIff(s, timeout, step);
    if step.ReclaimStep? {
      assert Active(next, step.id);
    }
    if Owned(next) {
      forall x | Active(next, x) && x in s.requests && (step.ReclaimStep? ==> x != step.id)
        ensures next.table.records[next.requests[x].key].requestHash == next.requests[x].hash
      {
        assert Active(s, x) || step == ReserveStep(x);
      }
    }
  }

  ghost predicate OwnHashRun(timeout: nat, steps: seq<Step>)
    requires Run(timeout, steps).Some?
  {
    steps == [] ||
    (var rest, step := steps[..|steps| - 1], steps[|steps| - 1];
     OwnHashRun(timeout, rest) && OwnHashStep(Run(timeout, rest).value, step))
  }

  ghost predicate OwnHashThroughout(timeout: nat, steps: seq<Step>)
    requires Run(timeout, steps).Some?
  {
    OwnHash(Run(timeout, steps).value) && (steps == [] || OwnHashThroughout(timeout, steps[..|steps| - 1]))
  }

  /**
   Each callback in flight runs under a record of its own hash, throughout exactly if every reclaim finds such a one and
   no pending record is cleaned up while a request of its key is in flight.
   */
  lemma {:induction false} OwnHashIff(timeout: nat, steps: seq<Step>)
    requires Run(timeout, steps).Some?
    ensures OwnHashThroughout(timeout, steps) <==> OwnHashRun(timeout, steps)
  {
    if steps != [] {
      var rest := steps[..|steps| - 1];
      OwnHashIff(timeout, rest);
      if OwnHashThroughout(timeout, rest) {
        StepOwnHashIff(Run(timeout, rest).value, timeout, steps[|steps| - 1]);
      }
    }
  }

  // ---------------------------------------------------------------------------------------------
  // Reclaims and clean-ups that are not safe
  // ---------------------------------------------------------------------------------------------

  /** The run `steps` leads to `s`. */
  predicate Leads(timeout: nat, steps: seq<Step>, s: System) {
    Run(timeout, steps) == Some(s)
  }

  lemma Extend(timeout: nat, steps: seq<Step>, s: System, step: Step)
    requires Leads(timeout, steps, s) && Enabled(s, step)
    ensures Leads(timeout, steps + [step], Next(s, timeout, step))
  {
  }

  /** A request that arrives and looks up its key. */
  lemma ArriveAndLoad(timeout: nat, steps: seq<Step>, s: System, id: nat, k: RequestKey, hash: string)
    returns (next: System)
    requires Leads(timeout, steps, s) && id !in s.requests
    ensures Leads(timeout, steps + [Arrive(id, k, hash), LoadStep(id)], next)
    ensures next == s.(requests := s.requests[id := Request(k, hash, Resolve(Load(s.table, k), hash, s.now, timeout))])
  {
    Extend(timeout, steps, s, Arrive(id, k, hash));
    var s1 := Next(s, timeout, Arrive(id, k, hash));
    Extend(timeout, steps + [Arrive(id, k, hash)], s1, LoadStep(id));
    next := Next(s1, timeout, LoadStep(id));
    assert steps + [Arrive(id, k, hash)] + [LoadStep(id)] == steps + [Arrive(id, k, hash), LoadStep(id)];
  }

  /** A first request that reserves its key, and then nothing for a while. */
  function Stalled(elapsed: nat, k: RequestKey, hash: string, crashed: bool): seq<Step> {
    [Arrive(0, k, hash), LoadStep(0), ReserveStep(0)] + (if crashed then [CrashStep(0)] else []) + [Tick(elapsed)]
  }

  lemma Stalls(timeout: nat, elapsed: nat, k: RequestKey, hash: string, crashed: bool) returns (s: System)
    ensures Leads(timeout, Stalled(elapsed, k, hash, crashed), s)
    ensures s == System(Table(map[k := Record(0, hash, Pending, 0)], 1),
                        map[0 := Request(k, hash, if crashed then Done(Crashed) else Running(0))], elapsed, [])
  {
    var t0: seq<Step> := [];
    var s1 := ArriveAndLoad(timeout, t0, INITIAL, 0, k, hash);
    var t1 := t0 + [Arrive(0, k, hash), LoadStep(0)];
    Extend(timeout, t1, s1, ReserveStep(0));
    var s2, t2 := Next(s1, timeout, ReserveStep(0)), t1 + [ReserveStep(0)];
    if crashed {
      Extend(timeout, t2, s2, CrashStep(0));
      s2, t2 := Next(s2, timeout, CrashStep(0)), t2 + [CrashStep(0)];
    }
    Extend(timeout, t2, s2, Tick(elapsed));
    s := Next(s2, timeout, Tick(elapsed));
    assert t2 + [Tick(elapsed)] == Stalled(elapsed, k, hash, crashed);
  }

  /**
   Whatever the timeout, a record taken for stale while its callback still runs gives its key two callbacks at once.
   */
  lemma StaleReclaimRunsTwice(timeout: nat, k: RequestKey, hash: string) returns (s: System)
    ensures Leads(timeout, Stalled(timeout, k, hash, false) + [Arrive(1, k, hash), LoadStep(1)] + [ReclaimStep(1)], s)
    ensures Active(s, 0) && Active(s, 1)
  {
    var t0 := Stalled(timeout, k, hash, false);
    var s0 := Stalls(timeout, timeout, k, hash, false);
    var s1 := ArriveAndLoad(timeout, t0, s0, 1, k, hash);
    Extend(timeout, t0 + [Arrive(1, k, hash), LoadStep(1)], s1, ReclaimStep(1));
    s := Next(s1, timeout, ReclaimStep(1));
  }

  /**
   Whatever the timeout, and however old a pending record has to be to be cleaned up: cleaning one up while its callback
   still runs frees the key, and the next request reserves it and runs a second callback.
   */
  lemma StaleCleanUpRunsTwice(timeout: nat, olderThan: nat, k: RequestKey, hash: string) returns (s: System)
    ensures Leads(timeout, Stalled(olderThan + 1, k, hash, false) + [CleanUpStale(k, olderThan)]
                           + [Arrive(1, k, hash), LoadStep(1)] + [ReserveStep(1)], s)
    ensures Active(s, 0) && Active(s, 1)
  {
    var t := Stalled(olderThan + 1, k, hash, false);
    s := Stalls(timeout, olderThan + 1, k, hash, false);
    Extend(timeout, t, s, CleanUpStale(k, olderThan));
    s, t := Next(s, timeout, CleanUpStale(k, olderThan)), t + [CleanUpStale(k, olderThan)];
    s := ArriveAndLoad(timeout, t, s, 1, k, hash);
    t := t + [Arrive(1, k, hash), LoadStep(1)];
    Extend(timeout, t, s, ReserveStep(1));
    s := Next(s, timeout, ReserveStep(1));
  }

  /** Two requests that both find the record of a crashed one stale. */
  function BothStale(timeout: nat, k: RequestKey, hash: string): seq<Step> {
    Stalled(timeout, k, hash, true) + [Arrive(1, k, hash), LoadStep(1)] + [Arrive(2, k, hash), LoadStep(2)]
  }

  lemma BothAreStale(timeout: nat, k: RequestKey, hash: string) returns (s: System)
    ensures Leads(timeout, BothStale(timeout, k, hash), s)
    ensures s == System(Table(map[k := Record(0, hash, Pending, 0)], 1),
                        map[0 := Request(k, hash, Done(Crashed)), 1 := Request(k, hash, Reclaiming),
                            2 := Request(k, hash, Reclaiming)], timeout, [])
  {
    var t := Stalled(timeout, k, hash, true);
    s := Stalls(timeout, timeout, k, hash, true);
    s := ArriveAndLoad(timeout, t, s, 1, k, hash);
    s := ArriveAndLoad(timeout, t + [Arrive(1, k, hash), LoadStep(1)], s, 2, k, hash);
  }

  /** The first of them reclaims the record, fails and deletes it. */
  function DeletedUnderneath(timeout: nat, k: RequestKey, hash: string): seq<Step> {
    BothStale(timeout, k, hash) + [ReclaimStep(1)] + [CallbackThrows(1)] + [DeleteStep(1)]
  }

  lemma DeletesUnderneath(timeout: nat, k: RequestKey, hash: string) returns (s: System)
    ensures Leads(timeout, DeletedUnderneath(timeout, k, hash), s)
    ensures s == System(Table(map[], 1),
                        map[0 := Request(k, hash, Done(Crashed)), 1 := Request(k, hash, Done(CallbackFailed)),
                            2 := Request(k, hash, Reclaiming)], timeout, [])
  {
    var t := BothStale(timeout, k, hash);
    s := BothAreStale(timeout, k, hash);
    Extend(timeout, t, s, ReclaimStep(1));
    s, t := Next(s, timeout, ReclaimStep(1)), t + [ReclaimStep(1)];
    Extend(timeout, t, s, CallbackThrows(1));
    s, t := Next(s, timeout, CallbackThrows(1)), t + [CallbackThrows(1)];
    Extend(timeout, t, s, DeleteStep(1));
    s := Next(s, timeout, DeleteStep(1));
  }

  /**
   Two callbacks can be in flight although no reclaim was taken while another request of the key was: the second of the
   two reclaims a record that is gone and runs without one, so the next request can reserve the key.
   */
  lemma MissingRecordRunsTwice(timeout: nat, k: RequestKey, hash: string) returns (before: System, s: System)
    ensures Leads(timeout, DeletedUnderneath(timeout, k, hash), before) && forall x :: !Active(before, x)
    ensures Leads(timeout, DeletedUnderneath(timeout, k, hash) + [ReclaimStep(2)] + [Arrive(3, k, hash), LoadStep(3)]
                           + [ReserveStep(3)], s)
    ensures Active(s, 2) && Active(s, 3)
  {
    var t := DeletedUnderneath(timeout, k, hash);
    before := DeletesUnderneath(timeout, k, hash);
    Extend(timeout, t, before, ReclaimStep(2));
    s, t := Next(before, timeout, ReclaimStep(2)), t + [ReclaimStep(2)];
    s := ArriveAndLoad(timeout, t, s, 3, k, hash);
    t := t + [Arrive(3, k, hash), LoadStep(3)];
    Extend(timeout, t, s, ReserveStep(3));
    s := Next(s, timeout, ReserveStep(3));
  }

  /**
   A reclaim keeps the hash the record was reserved under. So the response to the new body goes, as a replay, to a
   request with the old one, and a retry with the new body meets a conflict.
   */
  lemma OldHashGetsTheResponse(timeout: nat, k: RequestKey, hash: string, newHash: string, response: string)
    returns (s: System)
    requires hash != newHash
    ensures Leads(timeout, Stalled(timeout, k, hash, true) + [Arrive(1, k, newHash), LoadStep(1)] + [ReclaimStep(1)]
                           + [CallbackReturns(1, response)] + [FinalizeStep(1)]
                           + [Arrive(2, k, hash), LoadStep(2)] + [Arrive(3, k, newHash), LoadStep(3)], s)
    ensures s.successes == [CallbackSuccess(0, k, newHash, response)]
    ensures At(s, 2, Done(Replay(0, response))) && At(s, 3, Done(Conflict))
  {
    var t := Stalled(timeout, k, hash, true);
    s := Stalls(timeout, timeout, k, hash, true);
    s := ArriveAndLoad(timeout, t, s, 1, k, newHash);
    t := t + [Arrive(1, k, newHash), LoadStep(1)];
    Extend(timeout, t, s, ReclaimStep(1));
    s, t := Next(s, timeout, ReclaimStep(1)), t + [ReclaimStep(1)];
    Extend(timeout, t, s, CallbackReturns(1, response));
    s, t := Next(s, timeout, CallbackReturns(1, response)), t + [CallbackReturns(1, response)];
    Extend(timeout, t, s, FinalizeStep(1));
    s, t := Next(s, timeout, FinalizeStep(1)), t + [FinalizeStep(1)];
    s := ArriveAndLoad(timeout, t, s, 2, k, hash);
    t := t + [Arrive(2, k, hash), LoadStep(2)];
    s := ArriveAndLoad(timeout, t, s, 3, k, newHash);
  }

  // ---------------------------------------------------------------------------------------------
  // One request by itself, and cleaning up
  // ---------------------------------------------------------------------------------------------

  /** Whenever the request comes again, it gets the same response as a replay. */
  ghost predicate Replays(t: Table, k: RequestKey, hash: string, timeout: nat, outcome: Outcome) {
    outcome.Fresh? && forall later ::
      Resolve(Load(t, k), hash, later, timeout) == Done(Replay(outcome.rowId, outcome.response))
  }

  class BatchRequests {
    var table: Table

    constructor ()
      ensures table == Table(map[], 0)
    {
      table := Table(map[], 0);
    }

    /** The insert fails on a key that is taken. */
    method Reserve(k: RequestKey, hash: string, now: int) returns (ok: bool)
      modifies this
      ensures ok <==> k !in old(table.records)
      ensures table == if ok then Insert(old(table), k, hash, now) else old(table)
    {
      ok := k !in table.records;
      if ok {
        table := Insert(table, k, hash, now);
      }
    }

    /**
     A request that nothing interleaves with; `callback` is the response, or None if the callback throws.
     A later request of the same hash replays the response exactly if the record was new or had this hash before:
     reclaiming a stale record keeps the hash it was reserved under.
     */
    method RunGuard(k: RequestKey, hash: string, now: int, timeout: nat, callback: Option<string>)
      returns (outcome: Outcome)
      modifies this
      ensures Resolve(Load(old(table), k), hash, now, timeout).Done? ==>
        outcome == Resolve(Load(old(table), k), hash, now, timeout).outcome && table == old(table)
      ensures !Resolve(Load(old(table), k), hash, now, timeout).Done? && callback.None? ==>
        outcome == CallbackFailed && table.records == old(table.records) - {k}
      ensures !Resolve(Load(old(table), k), hash, now, timeout).Done? && callback.Some? ==>
        && outcome.Fresh? && outcome.response == callback.value
        && k in table.records && table.records[k].status == Completed(callback.value)
        && table.records - {k} == old(table.records) - {k}
      ensures outcome.Fresh? ==>
        (Replays(table, k, hash, timeout, outcome) <==>
          (k in old(table.records) ==> old(table.records)[k].requestHash == hash))
    {
      var existing := Load(table, k);
      var resolved := Resolve(existing, hash, now, timeout);
      if resolved.Done? {
        return resolved.outcome;
      }
      if resolved == Reclaiming {
        table := Reclaim(table, k, now);
      }
      if existing.None? {
        var reserved := Reserve(k, hash, now);
        if !reserved {
          return ReserveFailed;
        }
      }
      match callback
      case None =>
        table := Delete(table, k);
        return CallbackFailed;
      case Some(response) =>
        table := Finalize(table, k, response);
        ghost var r := table.records[k];
        assert Resolve(Load(table, k), hash, now, timeout)
            == Done(if r.requestHash == hash then Replay(r.rowId, response) else Conflict);
        return Fresh(table.records[k].rowId, response);
    }

    /**
     Deletes completed records older than the cutoff, and pending ones older than the stale cutoff if there is one:
     all of them, or as many as the limit allows.
     */
    method CleanupSyncBatchRequests(cutoff: int, staleCutoff: Option<int>, limit: Option<nat>, dryRun: bool)
      returns (deletedCount: nat)
      modifies this
      ensures forall k :: k in table.records ==> k in old(table.records) && table.records[k] == old(table.records)[k]
      ensures forall k :: k in old(table.records) && k !in table.records ==>
        Expired(old(table.records)[k], cutoff, staleCutoff)
      ensures dryRun ==> table == old(table)
      ensures !dryRun ==> |table.records| + deletedCount == |old(table.records)|
      ensures !dryRun && (limit.None? || deletedCount < limit.value) ==>
        forall k :: k in table.records ==> !Expired(table.records[k], cutoff, staleCutoff)
      ensures !dryRun && limit.Some? ==> deletedCount <= limit.value
    {
      var expired := set k | k in table.records && Expired(table.records[k], cutoff, staleCutoff);
      if dryRun {
        return |expired|;
      }
      deletedCount := 0;
      while expired != {} && (limit.None? || deletedCount < limit.value)
        invariant expired == set k | k in table.records && Expired(table.records[k], cutoff, staleCutoff)
        invariant forall k :: k in table.records ==>
          k in old(table.records) && table.records[k] == old(table.records)[k]
        invariant forall k :: k in old(table.records) && k !in table.records ==>
          Expired(old(table.records)[k], cutoff, staleCutoff)
        invariant |table.records| + deletedCount == |old(table.records)|
        invariant limit.Some? ==> deletedCount <= limit.value
        decreases |expired|
      {
        var k :| k in expired;
        assert |table.records - {k}| == |table.records| - 1 by {
          assert (table.records - {k}).Keys == table.records.Keys - {k};
        }
        table := Delete(table, k);
        expired := expired - {k};
        deletedCount := deletedCount + 1;
      }
    }
  }

  predicate Expired(r: Record, cutoff: int, staleCutoff: Option<int>) {
    match r.status
    case Completed(_) => r.createdAt < cutoff
    case Pending => staleCutoff.Some? && r.createdAt < staleCutoff.value
  }
}
