/**
 Sync cursors: their text form and the choice of the latest row (packages/baresync/src/server/service.ts, lines
 165-253), and the client's cursor table (crates/baresync-core/src/cursor.rs).
 */
module Cursor {
  import opened Wrappers

  datatype SyncCursor = SyncCursor(syncUpdatedAt: nat, tableName: string, rowId: string)

  const WATERMARK_TABLE := "__watermark__"
  const WATERMARK_ROW := "__scope__"

  // ---------------------------------------------------------------------------------------------
  // Decimal numbers
  // ---------------------------------------------------------------------------------------------

  predicate IsDigit(c: char) { '0' <= c <= '9' }

  function Digit(d: nat): (c: char)
    requires d < 10
    ensures IsDigit(c) && c as int - '0' as int == d
  {
    (d + '0' as int) as char
  }

  function Decimal(n: nat): string {
    if n < 10 then [Digit(n)] else Decimal(n / 10) + [Digit(n % 10)]
  }

  predicate AllDigits(s: string) {
    forall c :: c in s ==> IsDigit(c)
  }

  function ValueOf(s: string): nat
    requires AllDigits(s)
  {
    if s == [] then 0
    else
      assert IsDigit(s[|s| - 1]);
      10 * ValueOf(s[..|s| - 1]) + (s[|s| - 1] as int - '0' as int)
  }

  lemma {:induction false} DecimalValue(n: nat)
    ensures Decimal(n) != [] && AllDigits(Decimal(n)) && ValueOf(Decimal(n)) == n
  {
    if n >= 10 {
      DecimalValue(n / 10);
      assert Decimal(n)[..|Decimal(n)| - 1] == Decimal(n / 10);
    } else {
      assert Decimal(n)[..0] == [];
    }
  }

  // ---------------------------------------------------------------------------------------------
  // Text form
  // ---------------------------------------------------------------------------------------------

  /** The parts between colons. */
  function Split(s: string): (parts: seq<string>)
    ensures parts != []
  {
    if s == [] then [[]]
    else
      var rest := Split(s[1..]);
      if s[0] == ':' then [[]] + rest else [[s[0]] + rest[0]] + rest[1..]
  }

  function FormatSyncCursor(c: SyncCursor): string {
    "sync" + [':'] + (Decimal(c.syncUpdatedAt) + [':'] + (c.tableName + [':'] + c.rowId))
  }

  function FormatSyncWatermarkCursor(observedAt: nat): string {
    FormatSyncCursor(SyncCursor(observedAt, WATERMARK_TABLE, WATERMARK_ROW))
  }

  /** No cursor for the empty text; a failure for a text that is not four parts, or has no number in the second. */
  function ParseSyncCursor(cursor: string): Result<Option<SyncCursor>, string> {
    if cursor == [] then Success(None)
    else
      var parts := Split(cursor);
      if parts[0] != "sync" || |parts| != 4 then Failure("Invalid sync cursor format")
      else if !AllDigits(parts[1]) then Failure("Invalid sync cursor timestamp")
      else Success(Some(SyncCursor(ValueOf(parts[1]), parts[2], parts[3])))
  }

  /** The parts after one more character in front. */
  function Prepend(c: char, parts: seq<string>): seq<string>
    requires parts != []
  {
    if c == ':' then [[]] + parts else [[c] + parts[0]] + parts[1..]
  }

  lemma SplitCons(c: char, s: string)
    ensures Split([c] + s) == Prepend(c, Split(s))
  {
  }

  lemma PrependConcat(c: char, a: seq<string>, b: seq<string>)
    requires a != []
    ensures Prepend(c, a + b) == Prepend(c, a) + b
  {
  }

  lemma {:induction false} SplitJoin(a: string, b: string)
    ensures Split(a + [':'] + b) == Split(a) + Split(b)
  {
    if a == [] {
      SplitCons(':', b);
      assert a + [':'] + b == [':'] + b;
    } else {
      var rest := a[1..];
      assert a == [a[0]] + rest && a + [':'] + b == [a[0]] + (rest + [':'] + b);
      SplitCons(a[0], rest);
      SplitCons(a[0], rest + [':'] + b);
      SplitJoin(rest, b);
      PrependConcat(a[0], Split(rest), Split(b));
    }
  }

  lemma {:induction false} SplitOne(s: string)
    ensures |Split(s)| == 1 <==> ':' !in s
    ensures ':' !in s ==> Split(s) == [s]
  {
    if s != [] {
      SplitOne(s[1..]);
      assert s == [s[0]] + s[1..];
    }
  }

  /** A cursor comes back from its text exactly if neither its table name nor its row id contains a colon. */
  lemma CursorRoundTrip(c: SyncCursor)
    ensures ParseSyncCursor(FormatSyncCursor(c)) == Success(Some(c)) <==> ':' !in c.tableName && ':' !in c.rowId
    ensures ':' in c.tableName || ':' in c.rowId ==> ParseSyncCursor(FormatSyncCursor(c)).Failure?
  {
    var number := Decimal(c.syncUpdatedAt);
    DecimalValue(c.syncUpdatedAt);
    SplitJoin("sync", number + [':'] + (c.tableName + [':'] + c.rowId));
    SplitJoin(number, c.tableName + [':'] + c.rowId);
    SplitJoin(c.tableName, c.rowId);
    SplitOne("sync");
    SplitOne(number);
    SplitOne(c.tableName);
    SplitOne(c.rowId);
  }

  /** A watermark always comes back. */
  lemma WatermarkRoundTrip(observedAt: nat)
    ensures ParseSyncCursor(FormatSyncWatermarkCursor(observedAt))
         == Success(Some(SyncCursor(observedAt, WATERMARK_TABLE, WATERMARK_ROW)))
  {
    CursorRoundTrip(SyncCursor(observedAt, WATERMARK_TABLE, WATERMARK_ROW));
  }

  // ---------------------------------------------------------------------------------------------
  // The latest row
  // ---------------------------------------------------------------------------------------------

  datatype CursorRow = CursorRow(id: string, syncUpdatedAt: nat, tableName: string, updatedAt: string)

  type Collation = (string, string) -> int

  /** A comparison of texts, as `localeCompare` is one. */
  ghost predicate IsCollation(compare: Collation) {
    && (forall a, b :: compare(a, b) <= 0 || compare(b, a) <= 0)
    && (forall a, b, c :: compare(a, b) <= 0 && compare(b, c) <= 0 ==> compare(a, c) <= 0)
    && (forall a, b :: compare(a, b) > 0 <==> compare(b, a) < 0)
    && (forall a, b :: compare(a, b) == 0 <==> a == b)
  }

  function CompareRows(compare: Collation, left: CursorRow, right: CursorRow): int {
    if left.syncUpdatedAt != right.syncUpdatedAt then left.syncUpdatedAt - right.syncUpdatedAt
    else if left.updatedAt != right.updatedAt then compare(left.updatedAt, right.updatedAt)
    else compare(left.id, right.id)
  }

  /** A row that none exceeds; it carries the greatest stamp of all. */
  method PickLatestSyncCursorRow(compare: Collation, rows: seq<CursorRow>) returns (latest: Option<CursorRow>)
    requires IsCollation(compare)
    ensures latest.None? <==> rows == []
    ensures latest.Some? ==> latest.value in rows
    ensures latest.Some? ==> forall r :: r in rows ==> CompareRows(compare, r, latest.value) <= 0
    ensures latest.Some? ==> forall r :: r in rows ==> r.syncUpdatedAt <= latest.value.syncUpdatedAt
  {
    if rows == [] {
      return None;
    }
    var best := rows[0];
    for i := 1 to |rows|
      invariant best in rows[..i]
      invariant forall k :: 0 <= k < i ==> CompareRows(compare, rows[k], best) <= 0
    {
      if CompareRows(compare, rows[i], best) > 0 {
        best := rows[i];
      }
    }
    return Some(best);
  }

  // ---------------------------------------------------------------------------------------------
  // The client's cursor table
  // ---------------------------------------------------------------------------------------------

  datatype StoredCursor = StoredCursor(scopeId: string, lastCursor: string, updatedAt: int)

  ghost predicate MostRecent(rows: seq<StoredCursor>, scopeId: string, r: StoredCursor) {
    && r in rows && r.scopeId == scopeId
    && forall q :: q in rows && q.scopeId == scopeId ==> q.updatedAt <= r.updatedAt
  }

  /** What a read of a scope's cursor may return: that of one of its most recent rows, or nothing. */
  ghost predicate Reads(rows: seq<StoredCursor>, scopeId: string, cursor: string) {
    if forall r :: r in rows ==> r.scopeId != scopeId then cursor == ""
    else exists r: StoredCursor :: r.lastCursor == cursor && MostRecent(rows, scopeId, r)
  }

  function Overwrite(r: StoredCursor, scopeId: string, cursor: string, now: int): StoredCursor {
    if r.scopeId == scopeId then StoredCursor(scopeId, cursor, now) else r
  }

  class CursorTable {
    var rows: seq<StoredCursor>

    constructor ()
      ensures rows == []
    {
      rows := [];
    }

    method GetLastCursor(scopeId: string) returns (cursor: string)
      ensures Reads(rows, scopeId, cursor)
    {
      var best: Option<StoredCursor> := None;
      for i := 0 to |rows|
        invariant best.None? ==> forall r :: r in rows[..i] ==> r.scopeId != scopeId
        invariant best.Some? ==> best.value in rows && best.value.scopeId == scopeId
        invariant best.Some? ==> forall k :: 0 <= k < i && rows[k].scopeId == scopeId ==>
          rows[k].updatedAt <= best.value.updatedAt
      {
        if rows[i].scopeId == scopeId && (best.None? || rows[i].updatedAt > best.value.updatedAt) {
          best := Some(rows[i]);
        }
      }
      assert rows[..|rows|] == rows;
      return if best.Some? then best.value.lastCursor else "";
    }

    /** Every later read of the scope returns `cursor`; other scopes read as before. */
    method SetLastCursor(scopeId: string, cursor: string, now: int)
      modifies this
      ensures forall c :: Reads(rows, scopeId, c) <==> c == cursor
      ensures forall s, c :: s != scopeId ==> (Reads(rows, s, c) <==> old(Reads(rows, s, c)))
    {
      var found := false;
      var updated: seq<StoredCursor> := [];
      for i := 0 to |rows|
        invariant rows == old(rows)
        invariant found <==> exists r :: r in rows[..i] && r.scopeId == scopeId
        invariant |updated| == i
        invariant forall k :: 0 <= k < i ==> updated[k] == Overwrite(rows[k], scopeId, cursor, now)
      {
        if rows[i].scopeId == scopeId {
          found := true;
          updated := updated + [StoredCursor(scopeId, cursor, now)];
        } else {
          updated := updated + [rows[i]];
        }
      }
      assert rows[..|rows|] == rows;
      if !found {
        updated := updated + [StoredCursor(scopeId, cursor, now)];
      }
      OtherScopes(old(rows), updated, scopeId);
      rows := updated;
      assert StoredCursor(scopeId, cursor, now) in rows by {
        if found {
          var k :| 0 <= k < |old(rows)| && old(rows)[k].scopeId == scopeId;
          assert rows[k] == StoredCursor(scopeId, cursor, now);
        }
      }
      assert forall r :: r in rows && r.scopeId == scopeId ==> r == StoredCursor(scopeId, cursor, now);
    }
  }

  lemma OtherScopes(a: seq<StoredCursor>, b: seq<StoredCursor>, scopeId: string)
    requires |a| <= |b|
    requires forall k :: 0 <= k < |a| ==> (a[k].scopeId == scopeId && b[k].scopeId == scopeId) || a[k] == b[k]
    requires forall k :: |a| <= k < |b| ==> b[k].scopeId == scopeId
    ensures forall s, c :: s != scopeId ==> (Reads(a, s, c) <==> Reads(b, s, c))
  {
  }
}
