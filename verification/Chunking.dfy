/**
 Greedy chunking of push units by rows and bytes (crates/baresync-core/src/push.rs, lines 303-342), and its
 optimality: no other way of cutting the units, in order, into allowed chunks uses fewer chunks.
 */
module Chunking {
  import opened Envelope

  datatype Config = Config(
    scopeId: string, clientId: string, targetPushBytes: nat, maxPushBytes: nat, maxPushRows: nat)

  predicate Fits(c: Config, units: seq<PushUnit>) {
    |units| <= c.maxPushRows && ChunkLen(c.scopeId, c.clientId, units) <= c.targetPushBytes
  }

  function FitsIn(c: Config): (fits: seq<PushUnit> -> bool)
    ensures forall units :: fits(units) == Fits(c, units)
  {
    units => Fits(c, units)
  }

  function Concat<T>(chunks: seq<seq<T>>): seq<T> {
    if chunks == [] then [] else Concat(chunks[..|chunks| - 1]) + chunks[|chunks| - 1]
  }

  predicate Allowed<T>(fits: seq<T> -> bool, chunk: seq<T>) {
    |chunk| == 1 || (|chunk| > 1 && fits(chunk))
  }

  ghost predicate Splits<T>(fits: seq<T> -> bool, chunks: seq<seq<T>>, units: seq<T>) {
    Concat(chunks) == units && forall i :: 0 <= i < |chunks| ==> Allowed(fits, chunks[i])
  }

  /** No chunk could take the first unit of the chunk after it. */
  ghost predicate Full<T>(fits: seq<T> -> bool, chunks: seq<seq<T>>) {
    forall i :: 0 <= i < |chunks| - 1 && |chunks[i + 1]| > 0 ==> !fits(chunks[i] + [chunks[i + 1][0]])
  }

  /** Whatever fits, its runs of consecutive units fit. */
  ghost predicate Monotone<T(!new)>(fits: seq<T> -> bool) {
    forall a, b, c :: fits(a + b + c) ==> fits(b)
  }

  lemma FitsMonotone(c: Config)
    ensures Monotone(FitsIn(c))
  {
    forall x, y, z | Fits(c, x + y + z) ensures Fits(c, y) {
      ChunkLenMonotone(c.scopeId, c.clientId, x, y, z);
    }
  }

  lemma ConcatSnoc<T>(chunks: seq<seq<T>>, last: seq<T>)
    ensures Concat(chunks + [last]) == Concat(chunks) + last
  {
  }

  /** The chunks made so far and the one being filled split what has been read. */
  ghost predicate Filling<T>(fits: seq<T> -> bool, chunks: seq<seq<T>>, current: seq<T>, read: seq<T>) {
    && Splits(fits, chunks + [current], read)
    && Full(fits, chunks + [current])
  }

  lemma StartChunk<T>(fits: seq<T> -> bool, unit: T)
    ensures Filling(fits, [], [unit], [unit])
  {
  }

  lemma CloseChunk<T>(fits: seq<T> -> bool, chunks: seq<seq<T>>, current: seq<T>, read: seq<T>, unit: T)
    requires Filling(fits, chunks, current, read) && !fits(current + [unit])
    ensures Filling(fits, chunks + [current], [unit], read + [unit])
  {
  }

  lemma GrowChunk<T>(fits: seq<T> -> bool, chunks: seq<seq<T>>, current: seq<T>, read: seq<T>, unit: T)
    requires Filling(fits, chunks, current, read) && fits(current + [unit])
    ensures Filling(fits, chunks, current + [unit], read + [unit])
  {
  }

  method ChunkPendingPushTables(units: seq<PushUnit>, c: Config) returns (chunks: seq<seq<PushUnit>>)
    ensures Splits(FitsIn(c), chunks, units)
    ensures Full(FitsIn(c), chunks)
  {
    chunks := [];
    if units == [] {
      return;
    }
    var current: seq<PushUnit> := [];
    for i := 0 to |units|
      invariant i == 0 ==> current == [] && chunks == []
      invariant i > 0 ==> current != [] && Filling(FitsIn(c), chunks, current, units[..i])
    {
      var unit := units[i];
      assert units[..i + 1] == units[..i] + [unit];
      var candidate := current + [unit];
      var merged := MergePendingUnits(candidate);
      var byteLen := EncodedLen(c.scopeId, c.clientId, merged);
      assert FitsIn(c)(candidate) == Fits(c, candidate);
      if |candidate| > c.maxPushRows || byteLen > c.targetPushBytes {
        if current != [] {
          CloseChunk(FitsIn(c), chunks, current, units[..i], unit);
          chunks := chunks + [current];
        } else {
          StartChunk(FitsIn(c), unit);
        }
        current := [unit];
      } else {
        if current != [] {
          GrowChunk(FitsIn(c), chunks, current, units[..i], unit);
        } else {
          StartChunk(FitsIn(c), unit);
        }
        current := candidate;
      }
    }
    assert units[..|units|] == units;
    if current != [] {
      chunks := chunks + [current];
    }
  }

  // ---------------------------------------------------------------------------------------------
  // Optimality
  // ---------------------------------------------------------------------------------------------

  /** Where the first `k` chunks end. */
  function End<T>(chunks: seq<seq<T>>, k: nat): nat
    requires k <= |chunks|
  {
    |Concat(chunks[..k])|
  }

  lemma {:induction false} ConcatPrefix<T>(chunks: seq<seq<T>>, k: nat)
    requires k <= |chunks|
    ensures Concat(chunks[..k]) <= Concat(chunks)
    decreases |chunks| - k
  {
    if k == |chunks| {
      assert chunks[..k] == chunks;
    } else {
      ConcatPrefix(chunks, k + 1);
      assert chunks[..k + 1] == chunks[..k] + [chunks[k]];
      ConcatSnoc(chunks[..k], chunks[k]);
    }
  }

  lemma ChunkIsSlice<T>(chunks: seq<seq<T>>, k: nat)
    requires k < |chunks|
    ensures End(chunks, k + 1) == End(chunks, k) + |chunks[k]| <= |Concat(chunks)|
    ensures chunks[k] == Concat(chunks)[End(chunks, k)..End(chunks, k + 1)]
  {
    assert chunks[..k + 1] == chunks[..k] + [chunks[k]];
    ConcatSnoc(chunks[..k], chunks[k]);
    ConcatPrefix(chunks, k + 1);
    var all, upTo := Concat(chunks), Concat(chunks[..k + 1]);
    assert upTo == all[..|upTo|];
    assert chunks[k] == upTo[|Concat(chunks[..k])|..];
  }

  lemma FitsInside<T(!new)>(fits: seq<T> -> bool, units: seq<T>, a: nat, b: nat, c: nat, d: nat)
    requires Monotone(fits) && a <= b <= c <= d <= |units| && fits(units[a..d])
    ensures fits(units[b..c])
  {
    assert units[a..d] == units[a..b] + units[b..c] + units[c..d];
  }

  /** After any number of chunks, the greedy split is at least as far as any other. */
  lemma {:induction false} GreedyStaysAhead<T(!new)>(fits: seq<T> -> bool, greedy: seq<seq<T>>, other: seq<seq<T>>,
                                              units: seq<T>, k: nat)
    requires Monotone(fits)
    requires Splits(fits, greedy, units) && Full(fits, greedy) && Splits(fits, other, units)
    requires k <= |greedy| && k <= |other|
    ensures End(other, k) <= End(greedy, k)
  {
    if k > 0 {
      GreedyStaysAhead(fits, greedy, other, units, k - 1);
      ChunkIsSlice(greedy, k - 1);
      ChunkIsSlice(other, k - 1);
      var g0, g1, o0, o1 := End(greedy, k - 1), End(greedy, k), End(other, k - 1), End(other, k);
      assert greedy[..|greedy|] == greedy;
      if g1 < o1 {
        ChunkIsSlice(greedy, k);
        assert !fits(greedy[k - 1] + [greedy[k - 1 + 1][0]]);
        assert Allowed(fits, greedy[k]) && Allowed(fits, greedy[k - 1]) && Allowed(fits, other[k - 1]);
        var taken := greedy[k - 1] + [greedy[k][0]];
        assert taken == units[g0..g1 + 1];
        FitsInside(fits, units, o0, g0, g1 + 1, o1);
      }
    }
  }

  /** The greedy split uses the fewest chunks. */
  lemma GreedyIsOptimal<T(!new)>(fits: seq<T> -> bool, greedy: seq<seq<T>>, other: seq<seq<T>>, units: seq<T>)
    requires Monotone(fits)
    requires Splits(fits, greedy, units) && Full(fits, greedy) && Splits(fits, other, units)
    ensures |greedy| <= |other|
  {
    if |other| < |greedy| {
      var k := |other|;
      GreedyStaysAhead(fits, greedy, other, units, k);
      assert other[..k] == other;
      ChunkIsSlice(greedy, k);
    }
  }

  /** What the client sends in is cut into the fewest chunks that the row and byte limits allow. */
  lemma ChunkingIsOptimal(c: Config, units: seq<PushUnit>, chunks: seq<seq<PushUnit>>, other: seq<seq<PushUnit>>)
    requires Splits(FitsIn(c), chunks, units) && Full(FitsIn(c), chunks)
    requires Splits(FitsIn(c), other, units)
    ensures |chunks| <= |other|
  {
    FitsMonotone(c);
    GreedyIsOptimal(FitsIn(c), chunks, other, units);
  }
}
