/**
 From the chunks of a push to its requests: draining the chunks of the outbox's units (WorkList) divides the rows to
 send into requests, each row in one of them.
 */
module Planning {
  import opened Sequences
  import opened Store
  import opened SyncSpec
  import Chunking
  import Envelope
  import WorkList
  import WorkSpec

  /** The requests a push makes of the rows to send; draining the chunks of a push sends each row once. */
  type Plan = seq<Key> -> seq<Request>

  ghost predicate IsPlan(plan: Plan) {
    forall keys :: PlansFor(plan(keys), keys)
  }

  /** No request is empty, and together they hold the rows, each as often. */
  ghost predicate PlansFor(requests: seq<Request>, keys: seq<Key>) {
    (forall r :: r in requests ==> r != []) && multiset(Chunking.Concat(requests)) == multiset(keys)
  }

  // ---------------------------------------------------------------------------------------------
  // The chunks of a push as requests of rows
  // ---------------------------------------------------------------------------------------------

  function UnitKeys(units: seq<Envelope.PushUnit>): seq<Key> {
    seq(|units|, i requires 0 <= i < |units| => Key(units[i].table, Envelope.RowId(units[i])))
  }

  function ChunkKeys(chunks: seq<seq<Envelope.PushUnit>>): seq<seq<Key>> {
    seq(|chunks|, i requires 0 <= i < |chunks| => UnitKeys(chunks[i]))
  }

  lemma UnitKeysConcat(a: seq<Envelope.PushUnit>, b: seq<Envelope.PushUnit>)
    ensures UnitKeys(a + b) == UnitKeys(a) + UnitKeys(b)
  {
  }

  lemma {:induction false} ConcatOfKeys(chunks: seq<seq<Envelope.PushUnit>>)
    ensures Chunking.Concat(ChunkKeys(chunks)) == UnitKeys(Chunking.Concat(chunks))
  {
    if chunks != [] {
      var rest, last := chunks[..|chunks| - 1], chunks[|chunks| - 1];
      ConcatOfKeys(rest);
      assert ChunkKeys(chunks) == ChunkKeys(rest) + [UnitKeys(last)];
      Chunking.ConcatSnoc(ChunkKeys(rest), UnitKeys(last));
      UnitKeysConcat(Chunking.Concat(rest), last);
    }
  }

  function Without<T>(s: seq<T>, i: nat): seq<T>
    requires i < |s|
  {
    s[..i] + s[i + 1..]
  }

  lemma OneLess<T>(s: seq<T>, i: nat)
    requires i < |s|
    ensures multiset(s) == multiset(Without(s, i)) + multiset{s[i]}
    ensures multiset(Without(s, i)) == multiset(s) - multiset{s[i]}
  {
    assert s == s[..i] + [s[i]] + s[i + 1..];
  }

  lemma UnitKeysWithout(units: seq<Envelope.PushUnit>, i: nat)
    requires i < |units|
    ensures multiset(UnitKeys(units)) == multiset(UnitKeys(Without(units, i))) + multiset{UnitKeys(units)[i]}
  {
    OneLess(UnitKeys(units), i);
    assert Without(UnitKeys(units), i) == UnitKeys(Without(units, i));
  }

  lemma {:induction false} UnitKeysPermutation(a: seq<Envelope.PushUnit>, b: seq<Envelope.PushUnit>)
    requires multiset(a) == multiset(b)
    ensures multiset(UnitKeys(a)) == multiset(UnitKeys(b))
    decreases |a|
  {
    if a == [] {
      assert |multiset(b)| == 0;
    } else {
      assert a[0] in multiset(b);
      var i :| 0 <= i < |b| && b[i] == a[0];
      OneLess(a, 0);
      OneLess(b, i);
      UnitKeysPermutation(Without(a, 0), Without(b, i));
      UnitKeysWithout(a, 0);
      UnitKeysWithout(b, i);
    }
  }

  /** The answered requests of a push that goes through send the rows of the outbox as a plan does: each once. */
  lemma AnsweredIsPlanned(units: seq<Envelope.PushUnit>, sent: seq<seq<Envelope.PushUnit>>, server: WorkSpec.Server)
    requires multiset(Chunking.Concat(WorkList.Answered(sent, server))) == multiset(units)
    requires forall i :: 0 <= i < |sent| ==> sent[i] != []
    ensures PlansFor(ChunkKeys(WorkList.Answered(sent, server)), UnitKeys(units))
  {
    AnsweredNotEmpty(sent, server);
    ChunksPlan(WorkList.Answered(sent, server), units);
  }

  lemma AnsweredNotEmpty(sent: seq<seq<Envelope.PushUnit>>, server: WorkSpec.Server)
    requires forall i :: 0 <= i < |sent| ==> sent[i] != []
    ensures forall i :: 0 <= i < |WorkList.Answered(sent, server)| ==> WorkList.Answered(sent, server)[i] != []
  {
  }

  lemma ChunksPlan(chunks: seq<seq<Envelope.PushUnit>>, units: seq<Envelope.PushUnit>)
    requires multiset(Chunking.Concat(chunks)) == multiset(units)
    requires forall i :: 0 <= i < |chunks| ==> chunks[i] != []
    ensures PlansFor(ChunkKeys(chunks), UnitKeys(units))
  {
    ConcatOfKeys(chunks);
    UnitKeysPermutation(Chunking.Concat(chunks), units);
  }

  // ---------------------------------------------------------------------------------------------
  // Requests that share no row
  // ---------------------------------------------------------------------------------------------

  lemma {:induction false} OnceInMultiset(s: seq<Key>, k: Key)
    requires NoDuplicates(s)
    ensures multiset(s)[k] <= 1
  {
    if s != [] {
      var rest := s[..|s| - 1];
      OnceInMultiset(rest, k);
      assert s == rest + [s[|s| - 1]];
      assert s[|s| - 1] !in rest;
    }
  }

  lemma SameMultisetDistinct(a: seq<Key>, b: seq<Key>)
    requires multiset(a) == multiset(b) && NoDuplicates(b)
    ensures NoDuplicates(a) && forall k :: k in a <==> k in b
  {
    forall i, j | 0 <= i < j < |a| ensures a[i] != a[j] {
      OnceInMultiset(b, a[i]);
      assert a == a[..i] + [a[i]] + a[i + 1..j] + [a[j]] + a[j + 1..];
    }
    forall k ensures k in a <==> k in b {
      assert k in a <==> k in multiset(a);
      assert k in b <==> k in multiset(b);
    }
  }

  lemma DistinctParts(a: seq<Key>, b: seq<Key>, whole: seq<Key>)
    requires a + b <= whole && NoDuplicates(whole)
    ensures NoDuplicates(b) && forall k :: k in b ==> k !in a
  {
    assert forall i :: 0 <= i < |a| ==> whole[i] == a[i];
    assert forall j :: 0 <= j < |b| ==> whole[|a| + j] == b[j];
  }

  lemma NextRequest(requests: seq<seq<Key>>, i: nat)
    requires i < |requests|
    ensures Chunking.Concat(requests[..i + 1]) == Chunking.Concat(requests[..i]) + requests[i]
  {
    assert requests[..i + 1] == requests[..i] + [requests[i]];
    Chunking.ConcatSnoc(requests[..i], requests[i]);
  }

  /** Request `i` shares no row with the ones before it, and repeats none. */
  lemma RequestsDisjoint(requests: seq<seq<Key>>, i: nat, before: seq<Key>, whole: seq<Key>)
    requires i < |requests| && before == Chunking.Concat(requests[..i])
    requires whole == Chunking.Concat(requests) && NoDuplicates(whole)
    ensures NoDuplicates(requests[i])
    ensures forall k :: k in requests[i] ==> k !in before
  {
    NextRequest(requests, i);
    Chunking.ConcatPrefix(requests, i + 1);
    DistinctParts(before, requests[i], whole);
  }

  lemma {:induction false} InConcat(requests: seq<Request>, k: Key)
    ensures k in Chunking.Concat(requests) <==> InSome(requests, k)
  {
    if requests != [] {
      var rest, last := requests[..|requests| - 1], requests[|requests| - 1];
      InConcat(rest, k);
      assert requests == rest + [last];
      assert InSome(requests, k) <==> InSome(rest, k) || k in last;
    }
  }

  /** A plan of distinct rows divides them into requests. */
  lemma PlanDivides(requests: seq<Request>, keys: seq<Key>, outgoing: set<Key>)
    requires PlansFor(requests, keys) && NoDuplicates(keys) && forall k :: k in keys <==> k in outgoing
    ensures Divides(requests, outgoing)
    ensures forall r :: r in requests ==> NoDuplicates(r)
  {
    var whole := Chunking.Concat(requests);
    SameMultisetDistinct(whole, keys);
    forall k ensures k in outgoing <==> InSome(requests, k) {
      InConcat(requests, k);
    }
    forall j | 0 <= j < |requests| ensures NoDuplicates(requests[j]) {
      RequestsDisjoint(requests, j, Chunking.Concat(requests[..j]), whole);
    }
    forall i, j, k | 0 <= i < j < |requests| && k in requests[i] ensures k !in requests[j] {
      RequestsDisjoint(requests, j, Chunking.Concat(requests[..j]), whole);
      InConcat(requests[..j], k);
      assert requests[..j][i] == requests[i];
    }
  }
}
