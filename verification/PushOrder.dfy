/**
 Server-side order of a push (packages/baresync/src/server/service.ts, lines 131-163): table changes are put in the
 contract's order, and changes of tables the contract does not know follow in the order they came.
 */
module PushOrder {
  import opened Sequences
  import opened Envelope

  /** Where a table stands in the order (its last position, as later Map entries overwrite); the end if unknown. */
  function Rank(order: seq<string>, table: string): (r: nat)
    ensures r <= |order|
    ensures r < |order| ==> order[r] == table
    ensures r == |order| <==> table !in order
  {
    if order == [] then 0
    else if order[|order| - 1] == table then |order| - 1
    else
      var r := Rank(order[..|order| - 1], table);
      if r == |order| - 1 then |order| else r
  }

  function RankIn(order: seq<string>): TableChange -> nat {
    (c: TableChange) => Rank(order, c.table)
  }

  ghost predicate Sorted<T>(rank: T -> nat, s: seq<T>) {
    forall i, j :: 0 <= i < j < |s| ==> rank(s[i]) <= rank(s[j])
  }

  /** The elements of one rank, in order. */
  function OfRank<T>(rank: T -> nat, s: seq<T>, r: nat): seq<T> {
    if s == [] then []
    else if rank(s[|s| - 1]) == r then OfRank(rank, s[..|s| - 1], r) + [s[|s| - 1]]
    else OfRank(rank, s[..|s| - 1], r)
  }

  /** `result` is `s` sorted by rank, with elements of equal rank in the order they had. */
  ghost predicate StableSort<T>(rank: T -> nat, s: seq<T>, result: seq<T>) {
    Sorted(rank, result) && forall r: nat :: OfRank(rank, result, r) == OfRank(rank, s, r)
  }

  lemma {:induction false} OfRankConcat<T>(rank: T -> nat, a: seq<T>, b: seq<T>, r: nat)
    ensures OfRank(rank, a + b, r) == OfRank(rank, a, r) + OfRank(rank, b, r)
  {
    if b == [] {
      assert a + b == a;
    } else {
      OfRankConcat(rank, a, b[..|b| - 1], r);
      assert (a + b)[..|a + b| - 1] == a + b[..|b| - 1];
    }
  }

  lemma {:induction false} OfRankAll<T>(rank: T -> nat, s: seq<T>, r: nat)
    ensures (forall x :: x in s ==> rank(x) == r) ==> OfRank(rank, s, r) == s
    ensures (forall x :: x in s ==> rank(x) != r) ==> OfRank(rank, s, r) == []
    ensures forall x :: x in OfRank(rank, s, r) <==> x in s && rank(x) == r
  {
    if s != [] {
      OfRankAll(rank, s[..|s| - 1], r);
      assert s == s[..|s| - 1] + [s[|s| - 1]];
    }
  }

  lemma {:induction false} OfRankCount<T>(rank: T -> nat, s: seq<T>, x: T)
    ensures multiset(s)[x] == multiset(OfRank(rank, s, rank(x)))[x]
  {
    if s != [] {
      OfRankCount(rank, s[..|s| - 1], x);
      assert s == s[..|s| - 1] + [s[|s| - 1]];
    }
  }

  /** A stable sort neither loses nor repeats anything. */
  lemma StableSortPermutes<T>(rank: T -> nat, s: seq<T>, result: seq<T>)
    requires StableSort(rank, s, result)
    ensures multiset(result) == multiset(s)
  {
    forall x ensures multiset(result)[x] == multiset(s)[x] {
      OfRankCount(rank, s, x);
      OfRankCount(rank, result, x);
    }
  }

  /** There is only one stable sort. */
  lemma {:induction false} StableSortUnique<T>(rank: T -> nat, s: seq<T>, a: seq<T>, b: seq<T>)
    requires StableSort(rank, s, a) && StableSort(rank, s, b)
    ensures a == b
    decreases |a|
  {
    StableSortPermutes(rank, s, a);
    StableSortPermutes(rank, s, b);
    assert |a| == |multiset(a)| == |b|;
    if a != [] {
      var x, y := a[|a| - 1], b[|b| - 1];
      LastIsHighest(rank, a, b);
      LastIsHighest(rank, b, a);
      var r := rank(x);
      assert OfRank(rank, a, r)[|OfRank(rank, a, r)| - 1] == x;
      assert OfRank(rank, b, r)[|OfRank(rank, b, r)| - 1] == y;
      var ra, rb := a[..|a| - 1], b[..|b| - 1];
      forall q: nat ensures OfRank(rank, ra, q) == OfRank(rank, rb, q) {
        assert OfRank(rank, a, q) == OfRank(rank, b, q);
        if q == r {
          assert OfRank(rank, ra, q) == OfRank(rank, a, q)[..|OfRank(rank, a, q)| - 1];
          assert OfRank(rank, rb, q) == OfRank(rank, b, q)[..|OfRank(rank, b, q)| - 1];
        }
      }
      StableSortUnique(rank, ra, ra, rb);
    }
  }

  lemma LastIsHighest<T>(rank: T -> nat, a: seq<T>, b: seq<T>)
    requires Sorted(rank, a) && multiset(a) == multiset(b) && a != [] && b != []
    ensures rank(b[|b| - 1]) <= rank(a[|a| - 1])
  {
    var y := b[|b| - 1];
    assert y in multiset(b);
    var i :| 0 <= i < |a| && a[i] == y;
  }

  // ---------------------------------------------------------------------------------------------
  // The operation
  // ---------------------------------------------------------------------------------------------

  /** Puts `x` behind the elements of at most its rank. */
  function InsertBy<T>(rank: T -> nat, sorted: seq<T>, x: T): (result: seq<T>)
    ensures multiset(result) == multiset(sorted) + multiset{x}
  {
    if sorted == [] || rank(sorted[|sorted| - 1]) <= rank(x) then sorted + [x]
    else
      assert sorted == sorted[..|sorted| - 1] + [sorted[|sorted| - 1]];
      InsertBy(rank, sorted[..|sorted| - 1], x) + [sorted[|sorted| - 1]]
  }

  /** The language's stable sort. */
  function SortBy<T>(rank: T -> nat, s: seq<T>): seq<T> {
    if s == [] then [] else InsertBy(rank, SortBy(rank, s[..|s| - 1]), s[|s| - 1])
  }

  lemma {:induction false} InsertBySorts<T>(rank: T -> nat, sorted: seq<T>, x: T)
    requires Sorted(rank, sorted)
    ensures Sorted(rank, InsertBy(rank, sorted, x))
  {
    if sorted != [] && rank(sorted[|sorted| - 1]) > rank(x) {
      var rest, last := sorted[..|sorted| - 1], sorted[|sorted| - 1];
      InsertBySorts(rank, rest, x);
      assert sorted == rest + [last];
      forall y | y in rest ensures rank(y) <= rank(last) {
        var i :| 0 <= i < |rest| && rest[i] == y;
        assert rank(sorted[i]) <= rank(sorted[|sorted| - 1]);
      }
      forall y | y in InsertBy(rank, rest, x) ensures rank(y) <= rank(last) {
        assert y in multiset(InsertBy(rank, rest, x));
        assert y in multiset(rest) || y == x;
      }
      SortedConcat(rank, InsertBy(rank, rest, x), [last], rank(last));
    } else if sorted != [] {
      SortedConcat(rank, sorted, [x], rank(x));
    }
  }

  lemma {:induction false} InsertByKeepsRanks<T>(rank: T -> nat, sorted: seq<T>, x: T, r: nat)
    ensures OfRank(rank, InsertBy(rank, sorted, x), r) == OfRank(rank, sorted + [x], r)
  {
    if sorted != [] && rank(sorted[|sorted| - 1]) > rank(x) {
      var rest, last := sorted[..|sorted| - 1], sorted[|sorted| - 1];
      InsertByKeepsRanks(rank, rest, x, r);
      OfRankConcat(rank, InsertBy(rank, rest, x), [last], r);
      OfRankConcat(rank, rest + [x], [last], r);
      MoveBehind(rank, rest, x, [last], r);
      assert rest + [last] == sorted;
    }
  }

  lemma {:induction false} SortByIsStable<T>(rank: T -> nat, s: seq<T>)
    ensures StableSort(rank, s, SortBy(rank, s))
  {
    if s != [] {
      var rest, last := s[..|s| - 1], s[|s| - 1];
      SortByIsStable(rank, rest);
      InsertBySorts(rank, SortBy(rank, rest), last);
      assert rest + [last] == s;
      forall r: nat ensures OfRank(rank, SortBy(rank, s), r) == OfRank(rank, s, r) {
        InsertByKeepsRanks(rank, SortBy(rank, rest), last, r);
        OfRankConcat(rank, SortBy(rank, rest), [last], r);
        OfRankConcat(rank, rest, [last], r);
      }
    }
  }

  lemma SortedConcat<T>(rank: T -> nat, a: seq<T>, b: seq<T>, m: nat)
    requires Sorted(rank, a) && Sorted(rank, b)
    requires (forall x :: x in a ==> rank(x) <= m) && (forall x :: x in b ==> m <= rank(x))
    ensures Sorted(rank, a + b)
  {
  }

  /** An element moves behind others of different rank without any rank noticing. */
  lemma MoveBehind<T>(rank: T -> nat, low: seq<T>, x: T, high: seq<T>, r: nat)
    requires forall y :: y in high ==> rank(x) != rank(y)
    ensures OfRank(rank, low + [x] + high, r) == OfRank(rank, low + high + [x], r)
  {
    OfRankConcat(rank, low + [x], high, r);
    OfRankConcat(rank, low, [x], r);
    OfRankConcat(rank, low + high, [x], r);
    OfRankConcat(rank, low, high, r);
    OfRankAll(rank, high, r);
    OfRankAll(rank, [x], r);
    var a, b, c := OfRank(rank, low, r), OfRank(rank, [x], r), OfRank(rank, high, r);
    assert b == [] || c == [];
    assert a + b + c == a + c + b;
  }

  /** Known changes in front of unknown ones: a further change goes behind its kind. */
  lemma Parted<T>(rank: T -> nat, top: nat, known: seq<T>, unknown: seq<T>, read: seq<T>, x: T)
    requires (forall c :: c in known ==> rank(c) < top) && (forall c :: c in unknown ==> rank(c) == top)
    requires forall r: nat :: OfRank(rank, known + unknown, r) == OfRank(rank, read, r)
    ensures rank(x) == top ==> forall r: nat :: OfRank(rank, known + (unknown + [x]), r) == OfRank(rank, read + [x], r)
    ensures rank(x) < top ==> forall r: nat :: OfRank(rank, known + [x] + unknown, r) == OfRank(rank, read + [x], r)
  {
    assert known + (unknown + [x]) == known + unknown + [x];
    forall r: nat
      ensures OfRank(rank, known + unknown + [x], r) == OfRank(rank, read + [x], r)
      ensures rank(x) < top ==> OfRank(rank, known + [x] + unknown, r) == OfRank(rank, known + unknown + [x], r)
    {
      OfRankConcat(rank, read, [x], r);
      OfRankConcat(rank, known + unknown, [x], r);
      if rank(x) < top {
        MoveBehind(rank, known, x, unknown, r);
      }
    }
  }

  method OrderPushChanges(changes: seq<TableChange>, order: seq<string>) returns (result: seq<TableChange>)
    ensures StableSort(RankIn(order), changes, result)
  {
    var rank := RankIn(order);
    var known: seq<TableChange> := [];
    var unknown: seq<TableChange> := [];
    for i := 0 to |changes|
      invariant forall c :: c in known ==> rank(c) < |order|
      invariant forall c :: c in unknown ==> rank(c) == |order|
      invariant forall r: nat :: OfRank(rank, known + unknown, r) == OfRank(rank, changes[..i], r)
    {
      var change := changes[i];
      assert changes[..i + 1] == changes[..i] + [change];
      Parted(rank, |order|, known, unknown, changes[..i], change);
      if rank(change) == |order| {
        unknown := unknown + [change];
      } else {
        known := known + [change];
      }
    }
    assert changes[..|changes|] == changes;
    var sorted := SortBy(rank, known);
    SortByIsStable(rank, known);
    StableSortPermutes(rank, known, sorted);
    forall c | c in sorted ensures rank(c) < |order| {
      assert c in multiset(known);
    }
    forall r: nat ensures OfRank(rank, sorted + unknown, r) == OfRank(rank, changes, r) {
      OfRankConcat(rank, sorted, unknown, r);
      OfRankConcat(rank, known, unknown, r);
    }
    result := sorted + unknown;
  }

  // ---------------------------------------------------------------------------------------------
  // The order of an envelope's tables
  // ---------------------------------------------------------------------------------------------

  /** The entry of a table, as a sequence of at most one. */
  function Entries(changes: seq<TableChange>, table: string): seq<TableChange> {
    if changes == [] then []
    else if changes[|changes| - 1].table == table then [changes[|changes| - 1]]
    else Entries(changes[..|changes| - 1], table)
  }

  /** The entries of the tables of `order`, in that order. */
  function Present(order: seq<string>, changes: seq<TableChange>): seq<TableChange> {
    if order == [] then []
    else Present(order[..|order| - 1], changes) + Entries(changes, order[|order| - 1])
  }

  /** The entries of tables that `order` does not list. */
  function Strangers(order: seq<string>, changes: seq<TableChange>): seq<TableChange> {
    OfRank(RankIn(order), changes, |order|)
  }

  ghost predicate DistinctTables(changes: seq<TableChange>) {
    forall i, j :: 0 <= i < j < |changes| ==> changes[i].table != changes[j].table
  }

  lemma {:induction false} EntriesAre(changes: seq<TableChange>, table: string)
    ensures |Entries(changes, table)| <= 1
    ensures forall c :: c in Entries(changes, table) ==> c.table == table && c in changes
    ensures Entries(changes, table) == [] <==> forall c :: c in changes ==> c.table != table
  {
    if changes != [] {
      EntriesAre(changes[..|changes| - 1], table);
      assert changes == changes[..|changes| - 1] + [changes[|changes| - 1]];
    }
  }

  lemma {:induction false} EntriesOfRank(order: seq<string>, changes: seq<TableChange>, r: nat)
    requires DistinctTables(changes) && NoDuplicates(order) && r < |order|
    ensures OfRank(RankIn(order), changes, r) == Entries(changes, order[r])
  {
    if changes != [] {
      var rest, last := changes[..|changes| - 1], changes[|changes| - 1];
      EntriesOfRank(order, rest, r);
      EntriesAre(rest, order[r]);
      assert Rank(order, last.table) == r <==> last.table == order[r];
    }
  }

  lemma {:induction false} PresentSorted(order: seq<string>, changes: seq<TableChange>, n: nat)
    requires NoDuplicates(order) && n <= |order|
    ensures Sorted(RankIn(order), Present(order[..n], changes))
    ensures forall c :: c in Present(order[..n], changes) ==> Rank(order, c.table) < n
  {
    if n > 0 {
      PresentSorted(order, changes, n - 1);
      assert order[..n][..n - 1] == order[..n - 1];
      EntriesAre(changes, order[n - 1]);
      assert Rank(order, order[n - 1]) == n - 1;
      SortedConcat(RankIn(order), Present(order[..n - 1], changes), Entries(changes, order[n - 1]), n - 1);
    }
  }

  /** One more table in the list adds its entry, of its own rank. */
  lemma PresentStep(order: seq<string>, changes: seq<TableChange>, n: nat, r: nat)
    requires NoDuplicates(order) && n < |order|
    ensures OfRank(RankIn(order), Present(order[..n + 1], changes), r)
         == OfRank(RankIn(order), Present(order[..n], changes), r) + if r == n then Entries(changes, order[n]) else []
  {
    var rank, entries := RankIn(order), Entries(changes, order[n]);
    assert order[..n + 1][..n] == order[..n];
    OfRankConcat(rank, Present(order[..n], changes), entries, r);
    EntriesAre(changes, order[n]);
    assert Rank(order, order[n]) == n;
    OfRankAll(rank, entries, r);
  }

  lemma {:induction false} PresentOfRank(order: seq<string>, changes: seq<TableChange>, n: nat, r: nat)
    requires DistinctTables(changes) && NoDuplicates(order) && n <= |order|
    ensures OfRank(RankIn(order), Present(order[..n], changes), r) == if r < n then Entries(changes, order[r]) else []
  {
    if n > 0 {
      PresentOfRank(order, changes, n - 1, r);
      PresentStep(order, changes, n - 1, r);
    }
  }

  lemma RankedAreNoStrangers(order: seq<string>, changes: seq<TableChange>, r: nat)
    ensures OfRank(RankIn(order), Strangers(order, changes), r) ==
      if r == |order| then Strangers(order, changes) else []
    ensures r > |order| ==> OfRank(RankIn(order), changes, r) == []
  {
    OfRankAll(RankIn(order), changes, |order|);
    OfRankAll(RankIn(order), Strangers(order, changes), r);
    OfRankAll(RankIn(order), changes, r);
  }

  lemma OrderedOfRank(order: seq<string>, changes: seq<TableChange>, r: nat)
    requires NoDuplicates(order) && DistinctTables(changes)
    ensures OfRank(RankIn(order), Present(order, changes) + Strangers(order, changes), r)
         == OfRank(RankIn(order), changes, r)
  {
    assert order[..|order|] == order;
    PresentOfRank(order, changes, |order|, r);
    OfRankConcat(RankIn(order), Present(order, changes), Strangers(order, changes), r);
    RankedAreNoStrangers(order, changes, r);
    if r < |order| {
      EntriesOfRank(order, changes, r);
    }
  }

  /** Ordering changes of distinct tables yields the listed tables in the order of the list, then the others. */
  lemma OrderedTables(order: seq<string>, changes: seq<TableChange>, result: seq<TableChange>)
    requires NoDuplicates(order) && DistinctTables(changes) && StableSort(RankIn(order), changes, result)
    ensures result == Present(order, changes) + Strangers(order, changes)
  {
    var rank := RankIn(order);
    var present, strangers := Present(order, changes), Strangers(order, changes);
    assert order[..|order|] == order;
    OfRankAll(rank, changes, |order|);
    forall r: nat ensures OfRank(rank, present + strangers, r) == OfRank(rank, changes, r) {
      OrderedOfRank(order, changes, r);
    }
    PresentSorted(order, changes, |order|);
    assert Sorted(rank, strangers);
    SortedConcat(rank, present, strangers, |order|);
    StableSortUnique(rank, changes, result, present + strangers);
  }

  /**
   Ordering the alphabetical tables of an envelope yields exactly the tables of the order that are present, in that
   order, and then the tables the order does not list, still alphabetical.
   */
  lemma EnvelopeOrder(units: seq<PushUnit>, order: seq<string>, result: seq<TableChange>)
    requires NoDuplicates(order) && StableSort(RankIn(order), Merge(units), result)
    ensures result == Present(order, Merge(units)) + Strangers(order, Merge(units))
  {
    TableNamesAre(units);
    assert forall i :: 0 <= i < |Merge(units)| ==> Merge(units)[i].table == TableNames(units)[i];
    OrderedTables(order, Merge(units), result);
  }
}
