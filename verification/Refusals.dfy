/**
 What becomes of an edit that the server refuses. All outbox entries sent for a table are marked as synced if any of
 its rows was accepted (crates/baresync-core/src/push.rs, lines 501-524), so a refused edit can leave the outbox without
 having been taken.
 */
module Refusals {
  import opened Store
  import opened SyncSpec
  import opened SyncInvariant
  import opened SteadyStates

  /** Edited, but with nothing in the outbox to say so: no push will send the row. */
  predicate Stranded(c: Client, k: Key) {
    k in c.rows && !c.rows[k].isSynced && k !in c.pending
  }

  /** Sent, and not accepted: refused now, or in the answer that is replayed. */
  ghost predicate TurnedDown(contract: Contract, c: Client, s: Server, d: Dispatch, k: Key) {
    k in Outgoing(contract, c) && k !in Accepted(c, s, d)
  }

  ghost predicate TableAccepted(c: Client, s: Server, d: Dispatch, table: string) {
    exists a :: a in Accepted(c, s, d) && a.table == table
  }

  /** The server's row neither replaces nor deletes the client's: it is missing, or there and older. */
  predicate Outlived(s: Server, k: Key, row: LocalRow) {
    k in s.rows ==> s.rows[k].deletedAt.None? && s.rows[k].updatedAt < row.updatedAt
  }

  /** The entry of a row that is not accepted leaves the outbox exactly if another row of its table was accepted. */
  lemma RefusedEntryMarkedIff(contract: Contract, c: Client, s: Server, d: Dispatch, next: Client, s': Server, k: Key)
    requires PushStep(contract, c, s, d, next, s') && TurnedDown(contract, c, s, d, k)
    ensures k !in next.pending <==> TableAccepted(c, s, d, k.table)
    ensures Lookup(next.rows, k) == Lookup(c.rows, k) && Find(s'.rows, k) == Find(s.rows, k)
  {
  }

  /** Accepted and unsent rows are never left unsynced without an entry. */
  lemma OthersNotStranded(contract: Contract, c: Client, s: Server, d: Dispatch, next: Client, s': Server, k: Key)
    requires ClientOk(contract, c) && UnsyncedIsPending(c) && PushStep(contract, c, s, d, next, s')
    requires !TurnedDown(contract, c, s, d, k)
    ensures !Stranded(next, k)
  {
  }

  /** A push by itself strands an edit exactly if it was not accepted while another row of its table was. */
  lemma PushStrandsIff(contract: Contract, c: Client, s: Server, d: Dispatch, next: Client, s': Server, k: Key)
    requires ClientOk(contract, c) && UnsyncedIsPending(c) && PushStep(contract, c, s, d, next, s')
    ensures Stranded(next, k) <==>
      && TurnedDown(contract, c, s, d, k) && TableAccepted(c, s, d, k.table)
      && k in c.rows && !c.rows[k].isSynced
  {
    if TurnedDown(contract, c, s, d, k) {
      RefusedEntryMarkedIff(contract, c, s, d, next, s', k);
    } else {
      OthersNotStranded(contract, c, s, d, next, s', k);
    }
  }

  /** A baseline pull leaves an unsynced row unsynced exactly if the server's row neither replaces nor deletes it. */
  lemma BaselineRescues(contract: Contract, c: Client, s: Server, tables: set<string>, next: Client, k: Key)
    requires PullStep(c, s, Baseline, tables, next) && (k.table in tables || !(k in c.rows && !c.rows[k].isSynced))
    ensures k in next.rows && !next.rows[k].isSynced <==>
      k in c.rows && !c.rows[k].isSynced && Outlived(s, k, c.rows[k])
  {
    assert Lookup(next.rows, k) == Pulled(Lookup(c.rows, k), k, s, 0, tables);
  }

  lemma PullStrandsNothing(contract: Contract, c: Client, s: Server, tables: set<string>, next: Client, k: Key)
    requires PullStep(c, s, Baseline, tables, next) && !Stranded(c, k)
    ensures !Stranded(next, k)
  {
    assert Lookup(next.rows, k) == Pulled(Lookup(c.rows, k), k, s, 0, tables);
  }

  lemma GcKeepsStranded(c: Client, next: Client, k: Key)
    requires GcStep(c, next)
    ensures Stranded(next, k) <==> Stranded(c, k)
  {
    assert Lookup(next.rows, k) == Collected(Lookup(c.rows, k));
  }

  /** An edit that was not accepted, after the push and the baseline pull that follows it. */
  lemma RefusedStrandedIff(contract: Contract, c: Client, s: Server, d: Dispatch, pushed: Client, s': Server,
                           settled: Client, k: Key)
    requires PushStep(contract, c, s, d, pushed, s') && TurnedDown(contract, c, s, d, k)
    requires PullStep(pushed, s', Baseline, RejectedTables(contract, c, s, d), settled)
    ensures Stranded(settled, k) <==>
      && TableAccepted(c, s, d, k.table)
      && k in c.rows && !c.rows[k].isSynced && Outlived(s, k, c.rows[k])
  {
    RefusedEntryMarkedIff(contract, c, s, d, pushed, s', k);
    assert k.table in RejectedTables(contract, c, s, d);
    BaselineRescues(contract, pushed, s', RejectedTables(contract, c, s, d), settled, k);
  }

  /**
   After a push, with the baseline pull of the refused tables and garbage collection, an edit is stranded exactly if it
   was refused while another row of its table was accepted and the server's row does not outdate it.
   */
  lemma StrandedIff(contract: Contract, c: Client, s: Server, d: Dispatch, next: Client, s': Server, k: Key)
    requires Sound(contract, c, s) && UnsyncedIsPending(c) && PushAndSettle(contract, c, s, d, next, s')
    ensures Stranded(next, k) <==>
      && TurnedDown(contract, c, s, d, k) && TableAccepted(c, s, d, k.table)
      && k in c.rows && !c.rows[k].isSynced && Outlived(s, k, c.rows[k])
  {
    var rejected := RejectedTables(contract, c, s, d);
    var pushed, settled :|
      && PushStep(contract, c, s, d, pushed, s')
      && (if rejected == {} then settled == pushed else PullStep(pushed, s', Baseline, rejected, settled))
      && GcStep(settled, next);
    GcKeepsStranded(settled, next, k);
    if TurnedDown(contract, c, s, d, k) {
      assert k.table in rejected;
      RefusedStrandedIff(contract, c, s, d, pushed, s', settled, k);
    } else {
      OthersNotStranded(contract, c, s, d, pushed, s', k);
      if rejected != {} {
        PullStrandsNothing(contract, pushed, s', rejected, settled, k);
      }
    }
  }

  /**
   After a full resync, which pulls everything before the push and nothing behind it, an edit is stranded exactly if
   the server's row did not outdate it and it was then refused while another row of its table was accepted. The push
   starts from the state `pulled`.
   */
  lemma ResyncStrandedIff(contract: Contract, c: Client, s: Server, s1: Server, d: Dispatch, next: Client, s': Server,
                          k: Key)
    returns (pulled: Client)
    requires Sound(contract, c, s) && UnsyncedIsPending(c) && Remote(contract, s, s1)
    requires FullResyncStep(contract, c, s, s1, d, next, s')
    ensures PullStep(c, s, Baseline, contract.tables, pulled)
    ensures Stranded(next, k) <==>
      && TurnedDown(contract, pulled, s1, d, k) && TableAccepted(pulled, s1, d, k.table)
      && k in c.rows && !c.rows[k].isSynced && Outlived(s, k, c.rows[k])
  {
    var pushed;
    pulled, pushed :|
      && PullStep(c, s, Baseline, contract.tables, pulled)
      && PushStep(contract, pulled, s1, d, pushed, s')
      && GcStep(pushed, next);
    PullSound(contract, c, s, Baseline, contract.tables, pulled);
    PullKeepsPending(c, s, Baseline, contract.tables, pulled);
    BaselineRescues(contract, c, s, contract.tables, pulled, k);
    PushStrandsIff(contract, pulled, s1, d, pushed, s', k);
    GcKeepsStranded(pushed, next, k);
  }
}
