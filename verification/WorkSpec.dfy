/**
 What the push work list does with its chunks (crates/baresync-core/src/push.rs, lines 344-499), as a function of the
 replies. The server is any function of the number of requests so far and the chunk.
 */
module WorkSpec {
  import opened Sequences
  import opened Envelope
  import opened Chunking

  datatype Reply =
    | Ack(serverTime: string, accepted: map<string, set<string>>, rejected: map<string, set<string>>)
    | TooLarge
    | Failed(message: string)

  type Server = (nat, seq<PushUnit>) -> Reply

  function SplitPushChunkForRetry(chunk: seq<PushUnit>): (halves: (seq<PushUnit>, seq<PushUnit>))
    ensures halves.0 + halves.1 == chunk
    ensures |chunk| > 1 ==> 0 < |halves.0| <= |halves.1| <= |halves.0| + 1
  {
    (chunk[..|chunk| / 2], chunk[|chunk| / 2..])
  }

  /** Twice the units less one for each chunk: what is left to do, and a bound on the requests it takes. */
  function Weight(stack: seq<seq<PushUnit>>): int {
    if stack == [] then 0 else Weight(stack[..|stack| - 1]) + 2 * |stack[|stack| - 1]| - 1
  }

  lemma {:induction false} WeightConcat(a: seq<seq<PushUnit>>, b: seq<seq<PushUnit>>)
    ensures Weight(a + b) == Weight(a) + Weight(b)
    ensures Concat(a + b) == Concat(a) + Concat(b)
  {
    if b == [] {
      assert a + b == a;
    } else {
      var rest, last := b[..|b| - 1], b[|b| - 1];
      WeightConcat(a, rest);
      assert (a + b)[..|a + b| - 1] == a + rest && (a + b)[|a + b| - 1] == last;
      assert Concat(a) + Concat(rest) + last == Concat(a) + (Concat(rest) + last);
    }
  }

  lemma One(chunk: seq<PushUnit>)
    ensures Weight([chunk]) == 2 * |chunk| - 1 && Concat([chunk]) == chunk
  {
  }

  lemma {:induction false} WeightNonNegative(stack: seq<seq<PushUnit>>)
    requires forall i :: 0 <= i < |stack| ==> |stack[i]| >= 1
    ensures Weight(stack) >= |stack| && Weight(stack) == 2 * |Concat(stack)| - |stack|
  {
    if stack != [] {
      WeightNonNegative(stack[..|stack| - 1]);
    }
  }

  /**
   The chunks that the work list gets acknowledged from `stack` on, `n` requests into the push, as long as no reply is
   fatal: a chunk that is too large, for the client or for the server, gives way to its halves, the second one first.
   */
  ghost function Served(stack: seq<seq<PushUnit>>, n: nat, c: Config, server: Server): seq<seq<PushUnit>>
    requires Chunked(stack)
    decreases Weight(stack)
  {
    if stack == [] then []
    else
      var chunk, rest := stack[0], stack[1..];
      Shrinks(stack);
      if Oversize(c, chunk) then (if |chunk| == 1 then [] else Served(Halved(stack), n, c, server))
      else match server(n, chunk)
        case Ack(_, _, _) => [chunk] + Served(rest, n + 1, c, server)
        case TooLarge => if |chunk| == 1 then [] else Served(Halved(stack), n + 1, c, server)
        case Failed(_) => []
  }

  /** No unit alone is too large, and no reply is fatal. */
  ghost predicate GoesThrough(stack: seq<seq<PushUnit>>, n: nat, c: Config, server: Server)
    requires Chunked(stack)
    decreases Weight(stack)
  {
    stack == [] ||
    (var chunk, rest := stack[0], stack[1..];
     Shrinks(stack);
     if Oversize(c, chunk) then |chunk| > 1 && GoesThrough(Halved(stack), n, c, server)
     else match server(n, chunk)
       case Ack(_, _, _) => GoesThrough(rest, n + 1, c, server)
       case TooLarge => |chunk| > 1 && GoesThrough(Halved(stack), n + 1, c, server)
       case Failed(_) => false)
  }

  ghost predicate Chunked(stack: seq<seq<PushUnit>>) {
    forall i :: 0 <= i < |stack| ==> stack[i] != []
  }

  predicate Oversize(c: Config, chunk: seq<PushUnit>) {
    ChunkLen(c.scopeId, c.clientId, chunk) > c.maxPushBytes
  }

  /** The stack with its front chunk split: the second half is pushed to the front last. */
  function Halved(stack: seq<seq<PushUnit>>): seq<seq<PushUnit>>
    requires stack != []
  {
    var (first, second) := SplitPushChunkForRetry(stack[0]);
    [second, first] + stack[1..]
  }

  lemma FrontSplits(chunk: seq<PushUnit>, rest: seq<seq<PushUnit>>)
    requires |chunk| > 1 && Chunked(rest)
    ensures var (first, second) := SplitPushChunkForRetry(chunk);
      && Chunked([second, first] + rest)
      && Weight([second, first] + rest) == Weight(rest) + 2 * |chunk| - 2
      && Concat([second, first] + rest) == second + first + Concat(rest)
  {
    var (first, second) := SplitPushChunkForRetry(chunk);
    One(first);
    One(second);
    assert [second, first] == [second] + [first];
    WeightConcat([second], [first]);
    WeightConcat([second, first], rest);
  }

  lemma FrontPops(stack: seq<seq<PushUnit>>)
    requires stack != []
    ensures Weight(stack) == Weight(stack[1..]) + 2 * |stack[0]| - 1
    ensures Concat(stack) == stack[0] + Concat(stack[1..])
  {
    assert stack == [stack[0]] + stack[1..];
    One(stack[0]);
    WeightConcat([stack[0]], stack[1..]);
  }

  lemma Shrinks(stack: seq<seq<PushUnit>>)
    requires Chunked(stack) && stack != []
    ensures Chunked(stack[1..]) && 0 <= Weight(stack[1..]) < Weight(stack)
    ensures |stack[0]| > 1 ==> Chunked(Halved(stack)) && 0 <= Weight(Halved(stack)) < Weight(stack)
  {
    FrontPops(stack);
    WeightNonNegative(stack[1..]);
    if |stack[0]| > 1 {
      FrontSplits(stack[0], stack[1..]);
    }
  }

  ghost predicate FitsAt(stack: seq<seq<PushUnit>>, n: nat, c: Config, server: Server, i: nat)
    requires i < |stack|
  {
    !Oversize(c, stack[i]) && !server(n + i, stack[i]).TooLarge?
  }

  /** No chunk is too large for the client, and none of them, sent in turn, for the server. */
  ghost predicate Unsplit(stack: seq<seq<PushUnit>>, n: nat, c: Config, server: Server) {
    forall i :: 0 <= i < |stack| ==> FitsAt(stack, n, c, server, i)
  }

  lemma ServedAck(stack: seq<seq<PushUnit>>, n: nat, c: Config, server: Server)
    requires Chunked(stack) && stack != [] && Chunked(stack[1..])
    requires !Oversize(c, stack[0]) && server(n, stack[0]).Ack?
    ensures Served(stack, n, c, server) == [stack[0]] + Served(stack[1..], n + 1, c, server)
    ensures GoesThrough(stack, n, c, server) <==> GoesThrough(stack[1..], n + 1, c, server)
  {
  }

  lemma ServedTooLarge(stack: seq<seq<PushUnit>>, n: nat, c: Config, server: Server)
    requires Chunked(stack) && stack != [] && |stack[0]| > 1 && Chunked(Halved(stack))
    requires !Oversize(c, stack[0]) && server(n, stack[0]).TooLarge?
    ensures Served(stack, n, c, server) == Served(Halved(stack), n + 1, c, server)
    ensures GoesThrough(stack, n, c, server) <==> GoesThrough(Halved(stack), n + 1, c, server)
  {
  }

  lemma ServedOversize(stack: seq<seq<PushUnit>>, n: nat, c: Config, server: Server)
    requires Chunked(stack) && stack != [] && |stack[0]| > 1 && Chunked(Halved(stack)) && Oversize(c, stack[0])
    ensures Served(stack, n, c, server) == Served(Halved(stack), n, c, server)
    ensures GoesThrough(stack, n, c, server) <==> GoesThrough(Halved(stack), n, c, server)
  {
  }

  /** The first unit acknowledged is one of the front chunk. */
  lemma {:induction false} FrontIsServedFirst(stack: seq<seq<PushUnit>>, n: nat, c: Config, server: Server)
    requires Chunked(stack) && stack != [] && GoesThrough(stack, n, c, server)
    ensures Concat(Served(stack, n, c, server)) != [] && Concat(Served(stack, n, c, server))[0] in stack[0]
    decreases Weight(stack)
  {
    Shrinks(stack);
    var chunk, rest := stack[0], stack[1..];
    if Oversize(c, chunk) {
      FrontIsServedFirst(Halved(stack), n, c, server);
    } else if server(n, chunk).TooLarge? {
      FrontIsServedFirst(Halved(stack), n + 1, c, server);
    } else {
      WeightConcat([chunk], Served(rest, n + 1, c, server));
      One(chunk);
    }
  }

  lemma UnsplitTail(stack: seq<seq<PushUnit>>, n: nat, c: Config, server: Server)
    requires stack != []
    ensures Unsplit(stack, n, c, server) <==>
      !Oversize(c, stack[0]) && !server(n, stack[0]).TooLarge? && Unsplit(stack[1..], n + 1, c, server)
  {
    var rest, m := stack[1..], n + 1;
    forall i | 0 <= i < |rest| ensures FitsAt(rest, m, c, server, i) <==> FitsAt(stack, n, c, server, i + 1) {
      assert rest[i] == stack[i + 1] && n + (i + 1) == m + i;
    }
    if Unsplit(rest, m, c, server) && FitsAt(stack, n, c, server, 0) {
      forall i | 0 <= i < |stack| ensures FitsAt(stack, n, c, server, i) {
        assert i > 0 ==> FitsAt(rest, m, c, server, i - 1);
      }
    }
    if Unsplit(stack, n, c, server) {
      forall i | 0 <= i < |rest| ensures FitsAt(rest, m, c, server, i) {
        assert FitsAt(stack, n, c, server, i + 1);
      }
      assert FitsAt(stack, n, c, server, 0);
    }
  }

  lemma FirstIsNotSecond(first: seq<PushUnit>, second: seq<PushUnit>, rest: seq<PushUnit>, u: PushUnit)
    requires first != [] && NoDuplicates(first + second + rest) && u in second
    ensures (first + second + rest)[0] != u
  {
    var i :| 0 <= i < |second| && second[i] == u;
    assert (first + second + rest)[|first| + i] == u;
  }

  /** Splitting a chunk of distinct units puts a unit of its second half ahead of its first unit. */
  lemma SplitReorders(stack: seq<seq<PushUnit>>, n: nat, c: Config, server: Server)
    requires Chunked(stack) && stack != [] && |stack[0]| > 1 && Chunked(Halved(stack))
    requires NoDuplicates(Concat(stack)) && GoesThrough(Halved(stack), n, c, server)
    ensures Concat(Served(Halved(stack), n, c, server)) != Concat(stack)
  {
    FrontIsServedFirst(Halved(stack), n, c, server);
    FrontPops(stack);
    var (first, second) := SplitPushChunkForRetry(stack[0]);
    FirstIsNotSecond(first, second, Concat(stack[1..]), Concat(Served(Halved(stack), n, c, server))[0]);
  }

  lemma AckKeepsOrder(stack: seq<seq<PushUnit>>, n: nat, c: Config, server: Server)
    requires Chunked(stack) && stack != [] && Chunked(stack[1..])
    requires !Oversize(c, stack[0]) && server(n, stack[0]).Ack?
    requires Concat(Served(stack[1..], n + 1, c, server)) == Concat(stack[1..]) <==>
      Unsplit(stack[1..], n + 1, c, server)
    ensures Concat(Served(stack, n, c, server)) == Concat(stack) <==> Unsplit(stack, n, c, server)
  {
    var chunk, served := stack[0], Served(stack[1..], n + 1, c, server);
    ServedAck(stack, n, c, server);
    UnsplitTail(stack, n, c, server);
    FrontPops(stack);
    WeightConcat([chunk], served);
    One(chunk);
    SameTail(chunk, Concat(served), Concat(stack[1..]));
  }

  /** Of distinct units, the order is kept exactly if no chunk is split. */
  lemma {:induction false} OrderKeptIff(stack: seq<seq<PushUnit>>, n: nat, c: Config, server: Server)
    requires Chunked(stack) && NoDuplicates(Concat(stack)) && GoesThrough(stack, n, c, server)
    ensures Concat(Served(stack, n, c, server)) == Concat(stack) <==> Unsplit(stack, n, c, server)
    decreases Weight(stack)
  {
    if stack != [] {
      Shrinks(stack);
      if Oversize(c, stack[0]) {
        ServedOversize(stack, n, c, server);
        SplitReorders(stack, n, c, server);
        UnsplitTail(stack, n, c, server);
      } else if server(n, stack[0]).TooLarge? {
        ServedTooLarge(stack, n, c, server);
        SplitReorders(stack, n + 1, c, server);
        UnsplitTail(stack, n, c, server);
      } else {
        FrontPops(stack);
        TailDistinct(stack[0], Concat(stack[1..]));
        ServedAck(stack, n, c, server);
        OrderKeptIff(stack[1..], n + 1, c, server);
        AckKeepsOrder(stack, n, c, server);
      }
    }
  }

  lemma TailDistinct(a: seq<PushUnit>, b: seq<PushUnit>)
    requires NoDuplicates(a + b)
    ensures NoDuplicates(b)
  {
    assert forall i :: 0 <= i < |b| ==> (a + b)[|a| + i] == b[i];
  }

  lemma SameTail<T>(a: seq<T>, b: seq<T>, c: seq<T>)
    ensures a + b == a + c <==> b == c
  {
    assert (a + b)[|a|..] == b && (a + c)[|a|..] == c;
  }

  /** A server that finds the first request too large and acknowledges the others. */
  function FirstTooLarge(): Server {
    (n, chunk) => if n == 0 then TooLarge else Ack("", map[], map[])
  }

  lemma ServedInTurn(c: Config, a: PushUnit, b: PushUnit)
    requires !Oversize(c, [a]) && !Oversize(c, [b])
    ensures Chunked([[b], [a]])
    ensures GoesThrough([[b], [a]], 1, c, FirstTooLarge()) && Served([[b], [a]], 1, c, FirstTooLarge()) == [[b], [a]]
  {
    assert [[b], [a]][1..] == [[a]];
    assert [[a]][1..] == [];
    ServedAck([[b], [a]], 1, c, FirstTooLarge());
    ServedAck([[a]], 2, c, FirstTooLarge());
  }

  /** Two rows whose first request meets a 413 reach the server in reverse: a child ahead of its parent, say. */
  lemma SplitReverses(c: Config, a: PushUnit, b: PushUnit)
    requires !Oversize(c, [a, b]) && !Oversize(c, [a]) && !Oversize(c, [b])
    ensures GoesThrough([[a, b]], 0, c, FirstTooLarge()) && Served([[a, b]], 0, c, FirstTooLarge()) == [[b], [a]]
  {
    assert [a, b][..1] == [a] && [a, b][1..] == [b];
    assert Halved([[a, b]]) == [[b], [a]];
    ServedTooLarge([[a, b]], 0, c, FirstTooLarge());
    ServedInTurn(c, a, b);
  }
}
