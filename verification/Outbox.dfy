/**
 The outbox table (packages/baresync/src/tauri/client.ts, packages/baresync/src/schema/local-schema.ts and
 crates/baresync-core/src/outbox.rs). A local change is recorded in place: while a row has a pending entry,
 further changes rewrite that entry instead of adding one.
 */
module Outbox {
  import opened Wrappers
  import opened Schema

  datatype OutboxEntry = OutboxEntry(
    id: string, table: string, rowId: string, operation: Operation, scopeId: string,
    changedAt: int, syncedAt: Option<int>)

  /** One INSERT ... ON CONFLICT DO UPDATE of `enqueueChange`. */
  datatype Change = Change(id: string, table: string, rowId: string, operation: Operation, scopeId: string, now: int)

  predicate IsPending(e: OutboxEntry, table: string, rowId: string) {
    e.table == table && e.rowId == rowId && e.syncedAt.None?
  }

  /** The operation the conflict clause writes over a pending one (client.ts, line 166). */
  function InPlace(pending: Operation, next: Operation): Operation {
    if pending.Insert? then Insert else next
  }

  /** The in-place rule is the coalescing rule, except where an insert follows a pending delete. */
  lemma InPlaceIsCoalescing(pending: Operation, next: Operation)
    requires next.Insert? || next.Update?
    ensures CoalesceOperation(Some(pending), next) == Success(Some(InPlace(pending, next)))
      <==> !(pending.Delete? && next.Insert?)
  {
  }

  function NewEntry(c: Change): OutboxEntry {
    OutboxEntry(c.id, c.table, c.rowId, c.operation, c.scopeId, c.now, None)
  }

  function Rewrite(e: OutboxEntry, c: Change): OutboxEntry {
    if IsPending(e, c.table, c.rowId) then e.(operation := InPlace(e.operation, c.operation), changedAt := c.now) else e
  }

  function Stamp(e: OutboxEntry, at: int, ids: seq<string>): OutboxEntry {
    if e.syncedAt.None? && e.id in ids then e.(syncedAt := Some(at)) else e
  }

  ghost predicate UniqueIds(s: seq<OutboxEntry>) {
    forall i, j :: 0 <= i < j < |s| ==> s[i].id != s[j].id
  }

  /** The partial unique index sync_outbox_pending_row_unique. */
  ghost predicate AtMostOnePending(s: seq<OutboxEntry>) {
    forall i, j :: 0 <= i < j < |s| && IsPending(s[i], s[j].table, s[j].rowId) ==> s[j].syncedAt.Some?
  }

  ghost predicate HasPending(s: seq<OutboxEntry>, table: string, rowId: string) {
    exists i :: 0 <= i < |s| && IsPending(s[i], table, rowId)
  }

  class SyncOutbox {
    var entries: seq<OutboxEntry>

    ghost predicate Valid()
      reads this
    {
      UniqueIds(entries) && AtMostOnePending(entries)
    }

    constructor ()
      ensures Valid() && entries == []
    {
      entries := [];
    }

    /** Fails, changing nothing, exactly when the new id is taken (the primary key). */
    method EnqueueChange(c: Change) returns (ok: bool)
      requires Valid()
      modifies this
      ensures Valid()
      ensures ok <==> forall e :: e in old(entries) ==> e.id != c.id
      ensures !ok ==> entries == old(entries)
      ensures ok && !old(HasPending(entries, c.table, c.rowId)) ==> entries == old(entries) + [NewEntry(c)]
      ensures ok && old(HasPending(entries, c.table, c.rowId)) ==>
        |entries| == |old(entries)| && forall i :: 0 <= i < |entries| ==> entries[i] == Rewrite(old(entries)[i], c)
    {
      if exists e :: e in entries && e.id == c.id {
        return false;
      }
      for i := 0 to |entries|
        invariant entries == old(entries)
        invariant forall k :: 0 <= k < i ==> !IsPending(entries[k], c.table, c.rowId)
      {
        if IsPending(entries[i], c.table, c.rowId) {
          var e := entries[i];
          assert forall k :: i < k < |entries| ==> !IsPending(entries[k], c.table, c.rowId);
          entries := entries[i := e.(operation := InPlace(e.operation, c.operation), changedAt := c.now)];
          return true;
        }
      }
      entries := entries + [NewEntry(c)];
      return true;
    }

    method MarkSyncedByOutboxIds(syncedAt: int, ids: seq<string>) returns (marked: nat)
      requires Valid()
      modifies this
      ensures Valid()
      ensures |entries| == |old(entries)|
      ensures forall i :: 0 <= i < |entries| ==> entries[i] == Stamp(old(entries)[i], syncedAt, ids)
      ensures marked == 0 <==> entries == old(entries)
    {
      marked := 0;
      for i := 0 to |entries|
        invariant |entries| == |old(entries)|
        invariant forall k :: 0 <= k < i ==> entries[k] == Stamp(old(entries)[k], syncedAt, ids)
        invariant forall k :: i <= k < |entries| ==> entries[k] == old(entries)[k]
        invariant marked == 0 <==> entries == old(entries)
      {
        if entries[i].syncedAt.None? && entries[i].id in ids {
          marked := marked + 1;
          entries := entries[i := entries[i].(syncedAt := Some(syncedAt))];
          assert entries[i] != old(entries)[i];
        }
      }
    }
  }

  // ---------------------------------------------------------------------------------------------
  // Runs: the in-place outbox against the log it stands for
  // ---------------------------------------------------------------------------------------------

  datatype Event = Enqueue(change: Change) | Mark(at: int, ids: seq<string>)

  /** The two methods above as functions of the entries, which Perform performs. */
  ghost function Next(s: seq<OutboxEntry>, event: Event): seq<OutboxEntry> {
    match event
    case Enqueue(c) =>
      if exists e :: e in s && e.id == c.id then s
      else if HasPending(s, c.table, c.rowId) then seq(|s|, i requires 0 <= i < |s| => Rewrite(s[i], c))
      else s + [NewEntry(c)]
    case Mark(at, ids) => seq(|s|, i requires 0 <= i < |s| => Stamp(s[i], at, ids))
  }

  ghost function Entries(events: seq<Event>): seq<OutboxEntry> {
    if events == [] then [] else Next(Entries(events[..|events| - 1]), events[|events| - 1])
  }

  method Perform(outbox: SyncOutbox, event: Event)
    requires outbox.Valid()
    modifies outbox
    ensures outbox.Valid() && outbox.entries == Next(old(outbox.entries), event)
  {
    match event
    case Enqueue(c) =>
      var ok := outbox.EnqueueChange(c);
    case Mark(at, ids) =>
      var marked := outbox.MarkSyncedByOutboxIds(at, ids);
  }

  /** Only inserts and updates are enqueued (client.ts, line 31). */
  ghost predicate ClientOperations(events: seq<Event>) {
    forall e :: e in events && e.Enqueue? ==> e.change.operation.Insert? || e.change.operation.Update?
  }

  /** The operations enqueued for a row since its pending entry was last marked as synced. */
  ghost function Since(events: seq<Event>, table: string, rowId: string): seq<Operation> {
    if events == [] then []
    else
      var before, log := Entries(events[..|events| - 1]), Since(events[..|events| - 1], table, rowId);
      match events[|events| - 1]
      case Enqueue(c) =>
        if c.table == table && c.rowId == rowId && !(exists e :: e in before && e.id == c.id)
        then log + [c.operation] else log
      case Mark(_, ids) =>
        if exists e :: e in before && IsPending(e, table, rowId) && e.id in ids then [] else log
  }

  /** The fold of `coalesce_operation` over a log of operations. */
  function FoldOperations(log: seq<Operation>): Option<Operation> {
    if log == [] then None
    else match CoalesceOperation(FoldOperations(log[..|log| - 1]), log[|log| - 1])
      case Success(o) => o
      case Failure(_) => None
  }

  ghost predicate PendingIs(s: seq<OutboxEntry>, table: string, rowId: string, operation: Option<Operation>) {
    match operation
    case None => !HasPending(s, table, rowId)
    case Some(o) =>
      && !o.Delete?
      && HasPending(s, table, rowId)
      && forall i :: 0 <= i < |s| && IsPending(s[i], table, rowId) ==> s[i].operation == o
  }

  lemma EnqueueKeeps(s: seq<OutboxEntry>, c: Change)
    requires UniqueIds(s) && AtMostOnePending(s)
    ensures UniqueIds(Next(s, Enqueue(c))) && AtMostOnePending(Next(s, Enqueue(c)))
  {
  }

  lemma MarkKeeps(s: seq<OutboxEntry>, at: int, ids: seq<string>)
    requires UniqueIds(s) && AtMostOnePending(s)
    ensures UniqueIds(Next(s, Mark(at, ids))) && AtMostOnePending(Next(s, Mark(at, ids)))
  {
  }

  lemma EnqueuePending(s: seq<OutboxEntry>, c: Change, table: string, rowId: string, o: Option<Operation>)
    requires PendingIs(s, table, rowId, o) && (c.operation.Insert? || c.operation.Update?)
    requires !exists e :: e in s && e.id == c.id
    ensures c.table == table && c.rowId == rowId ==>
      PendingIs(Next(s, Enqueue(c)), table, rowId, CoalesceOperation(o, c.operation).value)
    ensures !(c.table == table && c.rowId == rowId) ==> PendingIs(Next(s, Enqueue(c)), table, rowId, o)
  {
    var t := Next(s, Enqueue(c));
    assert forall i :: 0 <= i < |s| ==> IsPending(t[i], table, rowId) == IsPending(s[i], table, rowId);
    if !HasPending(s, c.table, c.rowId) {
      assert t[|s|] == NewEntry(c);
    }
  }

  lemma MarkPending(s: seq<OutboxEntry>, at: int, ids: seq<string>, table: string, rowId: string, o: Option<Operation>)
    requires PendingIs(s, table, rowId, o) && AtMostOnePending(s)
    ensures (exists e :: e in s && IsPending(e, table, rowId) && e.id in ids) ==>
      PendingIs(Next(s, Mark(at, ids)), table, rowId, None)
    ensures !(exists e :: e in s && IsPending(e, table, rowId) && e.id in ids) ==>
      PendingIs(Next(s, Mark(at, ids)), table, rowId, o)
  {
  }

  /** What the run so far says about one row, whose operations fold to `o`. */
  ghost predicate LogMatches(s: seq<OutboxEntry>, o: Option<Operation>, table: string, rowId: string) {
    UniqueIds(s) && AtMostOnePending(s) && PendingIs(s, table, rowId, o)
  }

  lemma FoldStep(log: seq<Operation>, operation: Operation)
    requires operation.Insert? || operation.Update?
    requires FoldOperations(log) != Some(Delete)
    ensures CoalesceOperation(FoldOperations(log), operation) == Success(FoldOperations(log + [operation]))
    ensures FoldOperations(log + [operation]).Some?
  {
  }

  lemma EnqueueMatches(s: seq<OutboxEntry>, o: Option<Operation>, c: Change, table: string, rowId: string)
    requires LogMatches(s, o, table, rowId) && (c.operation.Insert? || c.operation.Update?)
    requires !exists e :: e in s && e.id == c.id
    ensures c.table == table && c.rowId == rowId ==>
      LogMatches(Next(s, Enqueue(c)), CoalesceOperation(o, c.operation).value, table, rowId)
    ensures !(c.table == table && c.rowId == rowId) ==> LogMatches(Next(s, Enqueue(c)), o, table, rowId)
  {
    EnqueueKeeps(s, c);
    EnqueuePending(s, c, table, rowId, o);
  }

  lemma MarkMatches(s: seq<OutboxEntry>, o: Option<Operation>, at: int, ids: seq<string>, table: string, rowId: string)
    requires LogMatches(s, o, table, rowId)
    ensures LogMatches(Next(s, Mark(at, ids)),
                       if exists e :: e in s && IsPending(e, table, rowId) && e.id in ids then None else o,
                       table, rowId)
  {
    MarkKeeps(s, at, ids);
    MarkPending(s, at, ids, table, rowId, o);
  }

  lemma {:induction false} RunMatches(events: seq<Event>, table: string, rowId: string)
    requires ClientOperations(events)
    ensures LogMatches(Entries(events), FoldOperations(Since(events, table, rowId)), table, rowId)
    ensures FoldOperations(Since(events, table, rowId)).None? <==> Since(events, table, rowId) == []
  {
    if events != [] {
      var rest, event := events[..|events| - 1], events[|events| - 1];
      assert event in events;
      RunMatches(rest, table, rowId);
      var s, log := Entries(rest), Since(rest, table, rowId);
      match event
      case Enqueue(c) =>
        if !exists e :: e in s && e.id == c.id {
          EnqueueMatches(s, FoldOperations(log), c, table, rowId);
          FoldStep(log, c.operation);
        }
      case Mark(at, ids) =>
        MarkMatches(s, FoldOperations(log), at, ids, table, rowId);
    }
  }

  /**
   Over any run of enqueued changes and marks, a row has at most one pending entry, and that entry's operation
   is what folding the operations enqueued since the last mark gives.
   */
  lemma InPlaceOutboxIsTheLog(events: seq<Event>, table: string, rowId: string)
    requires ClientOperations(events)
    ensures AtMostOnePending(Entries(events))
    ensures PendingIs(Entries(events), table, rowId, FoldOperations(Since(events, table, rowId)))
    ensures HasPending(Entries(events), table, rowId) <==> Since(events, table, rowId) != []
  {
    RunMatches(events, table, rowId);
  }
}
