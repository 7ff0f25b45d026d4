/**
 The requests of a push, one after the other through the server's handler, add up to what SyncSpec says of all of them
 at once: a request is answered from a record exactly if it was before the push began.
 */
module Requests {
  import opened Sequences
  import opened Store
  import opened SyncSpec
  import Answers
  import opened Repository
  import opened PushHandler

  // ---------------------------------------------------------------------------------------------
  // Requests of a push
  // ---------------------------------------------------------------------------------------------

  lemma BodyItems(contract: Contract, rows: Database, r: Request)
    requires NoDuplicates(r)
    ensures DistinctItems(BodyOf(contract, rows, r))
    ensures forall item :: item in BodyOf(contract, rows, r) <==>
      item.k in r && item.payload == PayloadOf(contract, Lookup(rows, item.k))
  {
    forall k | k in r ensures Item(k, PayloadOf(contract, Lookup(rows, k))) in BodyOf(contract, rows, r) {
      var i :| 0 <= i < |r| && r[i] == k;
      assert BodyOf(contract, rows, r)[i].k == k;
    }
  }

  /** The items of a request that the server takes: those of rows it does not refuse. */
  ghost predicate Takes(contract: Contract, rows: Database, r: Request, refused: set<Key>, taken: Body) {
    && DistinctItems(taken)
    && forall item :: item in taken <==>
        item.k in r && item.k !in refused && item.payload == PayloadOf(contract, Lookup(rows, item.k))
  }

  lemma TakenKeys(contract: Contract, rows: Database, r: Request, refused: set<Key>, taken: Body)
    requires Takes(contract, rows, r, refused, taken)
    ensures KeysOf(taken) == set k | k in r && k !in refused
  {
    forall k | k in r && k !in refused ensures k in KeysOf(taken) {
      assert Item(k, PayloadOf(contract, Lookup(rows, k))) in taken;
    }
  }

  /** One more request: its rows are written with a stamp of their own, the others stay. */
  lemma OneMoreRequest(contract: Contract, c: Client, s: Server, done: set<Key>, mid: Server, ids: set<nat>, r: Request,
                       refused: set<Key>, body: Body, taken: Body)
    requires ServerAccepts(contract, c, s, done, mid)
    requires Takes(contract, c.rows, r, refused, taken) && forall k :: k in r ==> k !in done
    ensures ServerAccepts(contract, c, s, done + KeysOf(taken), AfterRun(mid, ids, body, taken))
  {
    var next := AfterRun(mid, ids, body, taken);
    forall k
      ensures if k in done + KeysOf(taken)
              then WrittenBy(contract, Lookup(c.rows, k), Find(s.rows, k), Find(next.rows, k), s.clock, next.clock)
              else Find(next.rows, k) == Find(s.rows, k)
    {
      RowOfRequest(contract, c, s, done, mid, ids, r, refused, body, taken, k);
    }
  }

  lemma RowOfRequest(contract: Contract, c: Client, s: Server, done: set<Key>, mid: Server, ids: set<nat>, r: Request,
                     refused: set<Key>, body: Body, taken: Body, k: Key)
    requires ServerAccepts(contract, c, s, done, mid)
    requires Takes(contract, c.rows, r, refused, taken) && forall k :: k in r ==> k !in done
    ensures var next := AfterRun(mid, ids, body, taken);
      && (k in done + KeysOf(taken) ==>
            WrittenBy(contract, Lookup(c.rows, k), Find(s.rows, k), Find(next.rows, k), s.clock, next.clock))
      && (k !in done + KeysOf(taken) ==> Find(next.rows, k) == Find(s.rows, k))
  {
    var writes := ItemWrites(taken);
    if k in KeysOf(taken) {
      var i :| 0 <= i < |taken| && taken[i].k == k;
      assert writes[i] == WriteOf(taken[i]) && writes[i] in writes && taken[i] in taken;
      WriteOutcome(mid.rows, writes, mid.clock + 1, writes[i]);
      assert Find(mid.rows, k) == Find(s.rows, k);
    } else {
      forall w | w in writes ensures w.k != k {
        var i :| 0 <= i < |writes| && writes[i] == w;
        assert taken[i] in taken;
      }
      UnwrittenStays(mid.rows, writes, mid.clock + 1, k);
      assert k in done ==>
        WrittenBy(contract, Lookup(c.rows, k), Find(s.rows, k), Find(mid.rows, k), s.clock, mid.clock);
    }
  }

  // ---------------------------------------------------------------------------------------------
  // One request after the other
  // ---------------------------------------------------------------------------------------------

  /** The requests handled so far: what the server made of them, and the rows accepted. */
  ghost predicate HandledUpTo(contract: Contract, c: Client, s: Server, d: Dispatch, n: nat, now: Server,
                              accepted: set<Key>)
    requires n <= |d.requests|
  {
    && Handles(contract, c, s, d.requests[..n], d.refused, now)
    && accepted == Written(c, s, d.requests[..n], d.refused) + Replayed(c, s, d.requests[..n])
  }

  /** The next request meets an answer exactly if it did before the push began. */
  lemma AnsweredFromTheStart(contract: Contract, c: Client, s: Server, d: Dispatch, n: nat, now: Server,
                             accepted: set<Key>)
    requires Answers.IdsOk(c, s) && Divides(d.requests, Outgoing(contract, c)) && n < |d.requests|
    requires HandledUpTo(contract, c, s, d, n, now, accepted)
    ensures Answered(c, now, d.requests[n]) <==> Answered(c, s, d.requests[n])
    ensures Answered(c, s, d.requests[n]) ==>
      now.answers[IdsOf(c.pending, d.requests[n])] == s.answers[IdsOf(c.pending, d.requests[n])]
  {
    var r := d.requests[n];
    forall q | q in d.requests[..n] ensures IdsOf(c.pending, q) != IdsOf(c.pending, r) {
      var j :| 0 <= j < n && d.requests[j] == q;
      assert r in d.requests;
      assert r[0] in r && InSome(d.requests, r[0]);
      assert r[0] !in q;
      Answers.RequestsDiffer(c, s, r, q);
    }
  }

  lemma NotYetHandled(contract: Contract, c: Client, s: Server, d: Dispatch, n: nat)
    requires Divides(d.requests, Outgoing(contract, c)) && n < |d.requests|
    ensures forall k :: k in d.requests[n] ==> k !in Written(c, s, d.requests[..n], d.refused)
  {
  }

  lemma OneMoreWritten(c: Client, s: Server, d: Dispatch, n: nat)
    requires n < |d.requests|
    ensures var r := d.requests[n];
      && Written(c, s, d.requests[..n + 1], d.refused) ==
         Written(c, s, d.requests[..n], d.refused) +
           (if Answered(c, s, r) then {} else set k | k in r && k !in d.refused)
      && Replayed(c, s, d.requests[..n + 1]) ==
         Replayed(c, s, d.requests[..n])
         + (if Answered(c, s, r) then set k | k in r && k in s.answers[IdsOf(c.pending, r)].accepted else {})
  {
  }

  lemma OneMore(requests: seq<Request>, n: nat)
    requires n < |requests|
    ensures forall q :: q in requests[..n + 1] <==> q in requests[..n] || q == requests[n]
  {
  }

  lemma ReplayKeepsAnswers(contract: Contract, c: Client, s: Server, requests: seq<Request>, refused: set<Key>,
                           n: nat, now: Server)
    requires n < |requests| && ServerAnswers(contract, c, s, requests[..n], refused, now) && Answered(c, s, requests[n])
    ensures ServerAnswers(contract, c, s, requests[..n + 1], refused, now)
  {
  }

  lemma MoreUnconflicted(contract: Contract, c: Client, s: Server, requests: seq<Request>, n: nat)
    requires n < |requests| && !Conflicts(contract, c, s, requests[n])
    requires forall r :: r in requests[..n] ==> !Conflicts(contract, c, s, r)
    ensures forall r :: r in requests[..n + 1] ==> !Conflicts(contract, c, s, r)
  {
  }

  lemma ReplayHandled(contract: Contract, c: Client, s: Server, d: Dispatch, n: nat, now: Server, accepted: set<Key>)
    requires n < |d.requests| && HandledUpTo(contract, c, s, d, n, now, accepted)
    requires Answered(c, s, d.requests[n]) && !Conflicts(contract, c, s, d.requests[n])
    ensures var r := d.requests[n];
      HandledUpTo(contract, c, s, d, n + 1, now,
                  accepted + set k | k in r && k in s.answers[IdsOf(c.pending, r)].accepted)
  {
    OneMoreWritten(c, s, d, n);
    ReplayKeepsAnswers(contract, c, s, d.requests, d.refused, n, now);
    MoreUnconflicted(contract, c, s, d.requests, n);
    assert Handles(contract, c, s, d.requests[..n + 1], d.refused, now);
  }

  /** Running a request adds its answer, under a key that no other request has. */
  lemma RunAddsAnswer(contract: Contract, c: Client, s: Server, requests: seq<Request>, refused: set<Key>, n: nat,
                      now: Server,
                      taken: Body)
    requires n < |requests| && ServerAnswers(contract, c, s, requests[..n], refused, now)
    requires !Answered(c, s, requests[n]) && !Answered(c, now, requests[n])
    requires KeysOf(taken) == set k | k in requests[n] && k !in refused
    ensures var r := requests[n];
      ServerAnswers(contract, c, s, requests[..n + 1], refused,
                    AfterRun(now, IdsOf(c.pending, r), BodyOf(contract, c.rows, r), taken))
  {
    OneMore(requests, n);
    var r := requests[n];
    var ids := IdsOf(c.pending, r);
    var next := AfterRun(now, ids, BodyOf(contract, c.rows, r), taken);
    forall q | q in requests[..n + 1] && !Answered(c, s, q)
      ensures Answered(c, next, q) && next.answers[IdsOf(c.pending, q)] == AnswerTo(contract, c, q, refused)
    {
      assert q != r ==> Answered(c, now, q) && IdsOf(c.pending, q) != ids;
    }
  }

  lemma RunHandled(contract: Contract, c: Client, s: Server, d: Dispatch, n: nat, now: Server, accepted: set<Key>,
                   taken: Body)
    requires Answers.IdsOk(c, s) && Divides(d.requests, Outgoing(contract, c)) && n < |d.requests|
    requires HandledUpTo(contract, c, s, d, n, now, accepted) && !Answered(c, s, d.requests[n])
    requires Takes(contract, c.rows, d.requests[n], d.refused, taken)
    ensures var r := d.requests[n];
      HandledUpTo(contract, c, s, d, n + 1,
                  AfterRun(now, IdsOf(c.pending, r), BodyOf(contract, c.rows, r), taken), accepted + KeysOf(taken))
  {
    var r := d.requests[n];
    var ids, body := IdsOf(c.pending, r), BodyOf(contract, c.rows, r);
    OneMoreWritten(c, s, d, n);
    TakenKeys(contract, c.rows, r, d.refused, taken);
    NotYetHandled(contract, c, s, d, n);
    OneMoreRequest(contract, c, s, Written(c, s, d.requests[..n], d.refused), now, ids, r, d.refused, body, taken);
    AnsweredFromTheStart(contract, c, s, d, n, now, accepted);
    RunAddsAnswer(contract, c, s, d.requests, d.refused, n, now, taken);
    OneMore(d.requests, n);
  }

  /** One request, as the handler answers it. */
  lemma HandledNext(contract: Contract, c: Client, s: Server, d: Dispatch, n: nat, mid: Server, accepted: set<Key>,
                    taken: Body, reply: set<Key>, next: Server)
    requires Answers.IdsOk(c, s) && Divides(d.requests, Outgoing(contract, c)) && n < |d.requests|
    requires HandledUpTo(contract, c, s, d, n, mid, accepted)
    requires var r := d.requests[n];
      if Answered(c, s, r) then
        !Conflicts(contract, c, s, r) && next == mid && reply == s.answers[IdsOf(c.pending, r)].accepted
      else
        && Takes(contract, c.rows, r, d.refused, taken) && reply == KeysOf(taken)
        && next == AfterRun(mid, IdsOf(c.pending, r), BodyOf(contract, c.rows, r), taken)
    ensures HandledUpTo(contract, c, s, d, n + 1, next, accepted + set k | k in d.requests[n] && k in reply)
  {
    var r := d.requests[n];
    if Answered(c, s, r) {
      ReplayHandled(contract, c, s, d, n, mid, accepted);
    } else {
      RunHandled(contract, c, s, d, n, mid, accepted, taken);
      TakenKeys(contract, c.rows, r, d.refused, taken);
      assert (set k | k in r && k in reply) == KeysOf(taken);
    }
  }

  /** The rows of a request are pending, with the ids they had before the others were marked. */
  lemma RequestIsOutgoing(contract: Contract, c: Client, requests: seq<Request>, i: nat)
    requires Divides(requests, Outgoing(contract, c)) && i < |requests|
    ensures forall k :: k in requests[i] ==> k in Outgoing(contract, c)
    ensures IdsOf(c.pending - Quarantined(contract, c), requests[i]) == IdsOf(c.pending, requests[i])
  {
  }
}
