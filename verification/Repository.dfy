/**
 The server's repository (packages/baresync/src/server/drizzle.ts and service.ts) over a concrete store of rows
 (examples/inventory-json-polling/apps/server/src/db/v1/drizzle-helper/sync-repository.ts).
 */
module Repository {
  import opened Wrappers
  import opened Sequences
  import opened Store
  import opened SyncSpec
  import Cursor
  import Pull

  type TableEntry = Pull.TableEntry

  datatype ReadRow = ReadRow(id: string, row: ServerRow)

  datatype Bucket = Bucket(changedRows: seq<IncomingRow>, deletedIds: seq<string>)

  datatype PushRow = PushRow(id: string, content: Columns, deletedAt: Option<int>)

  datatype PushChange = PushChange(table: string, changedRows: seq<PushRow>, deletedIds: seq<string>)

  // ---------------------------------------------------------------------------------------------
  // Buckets
  // ---------------------------------------------------------------------------------------------

  ghost predicate DistinctIds(found: seq<ReadRow>) {
    forall i, j :: 0 <= i < j < |found| ==> found[i].id != found[j].id
  }

  /** Each row of the table that is news for the timestamp, once. */
  ghost predicate Reads(rows: ServerRows, table: string, ts: nat, found: seq<ReadRow>) {
    && DistinctIds(found)
    && forall r :: r in found <==> InDelta(rows, Key(table, r.id), ts) && rows[Key(table, r.id)] == r.row
  }

  /** ORDER BY syncUpdatedAt DESC. */
  ghost predicate NewestFirst(found: seq<ReadRow>) {
    forall i, j :: 0 <= i < j < |found| ==> found[i].row.stamp >= found[j].row.stamp
  }

  function Placed(found: seq<ReadRow>, r: ReadRow): seq<ReadRow> {
    if found == [] || found[0].row.stamp < r.row.stamp then [r] + found else [found[0]] + Placed(found[1..], r)
  }

  lemma {:induction false} PlacedKeepsOrder(found: seq<ReadRow>, r: ReadRow)
    requires NewestFirst(found) && DistinctIds(found) && forall x :: x in found ==> x.id != r.id
    ensures NewestFirst(Placed(found, r)) && DistinctIds(Placed(found, r))
    ensures forall x :: x in Placed(found, r) <==> x in found || x == r
  {
    if found != [] && found[0].row.stamp >= r.row.stamp {
      var rest := found[1..];
      PlacedKeepsOrder(rest, r);
      var placed := Placed(rest, r);
      forall j | 0 <= j < |placed| ensures found[0].row.stamp >= placed[j].row.stamp && found[0].id != placed[j].id {
        assert placed[j] in placed;
      }
    }
  }

  function ChangedOf(found: seq<ReadRow>): seq<IncomingRow> {
    if found == [] then []
    else
      var last := found[|found| - 1];
      ChangedOf(found[..|found| - 1]) + if last.row.deletedAt.None? then [Public(last.id, last.row)] else []
  }

  function DeletedOf(found: seq<ReadRow>): seq<string> {
    if found == [] then []
    else
      var last := found[|found| - 1];
      DeletedOf(found[..|found| - 1]) + if last.row.deletedAt.None? then [] else [last.id]
  }

  method SplitSyncRows(found: seq<ReadRow>) returns (bucket: Bucket)
    ensures bucket == Bucket(ChangedOf(found), DeletedOf(found))
  {
    var changedRows: seq<IncomingRow> := [];
    var deletedIds: seq<string> := [];
    for i := 0 to |found|
      invariant changedRows == ChangedOf(found[..i]) && deletedIds == DeletedOf(found[..i])
    {
      assert found[..i + 1][..i] == found[..i];
      if found[i].row.deletedAt.None? {
        changedRows := changedRows + [Public(found[i].id, found[i].row)];
      } else {
        deletedIds := deletedIds + [found[i].id];
      }
    }
    assert found[..|found|] == found;
    return Bucket(changedRows, deletedIds);
  }

  /** The rows of a table that are news for the timestamp: the live ones whole, the deleted ones by id. */
  ghost predicate IsBucket(rows: ServerRows, table: string, ts: nat, bucket: Bucket) {
    && Pull.DistinctRows(bucket.changedRows)
    && NoDuplicates(bucket.deletedIds)
    && (forall r :: r in bucket.changedRows <==> IsLive(rows, Key(table, r.id), ts, r))
    && (forall id :: id in bucket.deletedIds <==> IsGone(rows, Key(table, id), ts))
  }

  ghost predicate IsLive(rows: ServerRows, k: Key, ts: nat, r: IncomingRow) {
    InDelta(rows, k, ts) && rows[k].deletedAt.None? && r == Public(k.id, rows[k])
  }

  ghost predicate IsGone(rows: ServerRows, k: Key, ts: nat) {
    InDelta(rows, k, ts) && rows[k].deletedAt.Some?
  }

  lemma {:induction false} SplitMembers(found: seq<ReadRow>, r: IncomingRow, id: string)
    ensures r in ChangedOf(found) <==> exists x :: x in found && x.row.deletedAt.None? && r == Public(x.id, x.row)
    ensures id in DeletedOf(found) <==> exists x :: x in found && x.row.deletedAt.Some? && x.id == id
  {
    if found != [] {
      var rest, last := found[..|found| - 1], found[|found| - 1];
      SplitMembers(rest, r, id);
      assert found == rest + [last];
    }
  }

  lemma {:induction false} SplitDistinct(found: seq<ReadRow>)
    requires DistinctIds(found)
    ensures Pull.DistinctRows(ChangedOf(found)) && NoDuplicates(DeletedOf(found))
  {
    if found != [] {
      var rest, last := found[..|found| - 1], found[|found| - 1];
      SplitDistinct(rest);
      forall r | r in ChangedOf(rest) ensures r.id != last.id {
        SplitMembers(rest, r, "");
      }
      var ids := DeletedOf(rest);
      forall i | 0 <= i < |ids| ensures ids[i] != last.id {
        SplitMembers(rest, IncomingRow("", map[], 0, None), ids[i]);
      }
    }
  }

  function StampOf(rows: ServerRows, k: Key): nat {
    if k in rows then rows[k].stamp else 0
  }

  /** The changed rows of a table, latest stamp first. */
  ghost predicate LatestFirst(rows: ServerRows, table: string, changed: seq<IncomingRow>) {
    forall i, j :: 0 <= i < j < |changed| ==>
      StampOf(rows, Key(table, changed[i].id)) >= StampOf(rows, Key(table, changed[j].id))
  }

  lemma {:induction false} SplitKeepsOrder(rows: ServerRows, table: string, found: seq<ReadRow>)
    requires NewestFirst(found) && forall r :: r in found ==> Find(rows, Key(table, r.id)) == Some(r.row)
    ensures LatestFirst(rows, table, ChangedOf(found))
  {
    if found != [] {
      var rest, last := found[..|found| - 1], found[|found| - 1];
      SplitKeepsOrder(rows, table, rest);
      forall r | r in ChangedOf(rest)
        ensures StampOf(rows, Key(table, r.id)) >= StampOf(rows, Key(table, last.id))
      {
        SplitMembers(rest, r, "");
        var x :| x in rest && x.row.deletedAt.None? && r == Public(x.id, x.row);
        assert x in found && last in found;
      }
    }
  }

  /** Splitting what was read loses no row and invents none. */
  lemma SplitIsBucket(rows: ServerRows, table: string, ts: nat, found: seq<ReadRow>)
    requires Reads(rows, table, ts, found)
    ensures IsBucket(rows, table, ts, Bucket(ChangedOf(found), DeletedOf(found)))
  {
    SplitDistinct(found);
    forall r ensures r in ChangedOf(found) <==> IsLive(rows, Key(table, r.id), ts, r) {
      SplitMembers(found, r, r.id);
      if IsLive(rows, Key(table, r.id), ts, r) {
        assert ReadRow(r.id, rows[Key(table, r.id)]) in found;
      }
    }
    forall id ensures id in DeletedOf(found) <==> IsGone(rows, Key(table, id), ts) {
      SplitMembers(found, IncomingRow(id, map[], 0, None), id);
      if IsGone(rows, Key(table, id), ts) {
        assert ReadRow(id, rows[Key(table, id)]) in found;
      }
    }
  }

  /** A bucket is empty exactly if the table has no news. */
  lemma EmptyBucket(rows: ServerRows, table: string, ts: nat, bucket: Bucket)
    requires IsBucket(rows, table, ts, bucket)
    ensures bucket.changedRows != [] || bucket.deletedIds != [] <==> HasDelta(rows, table, ts)
  {
    if HasDelta(rows, table, ts) {
      var k :| InDelta(rows, k, ts) && k.table == table;
      assert k == Key(table, k.id);
      if rows[k].deletedAt.None? {
        assert IsLive(rows, k, ts, Public(k.id, rows[k]));
        assert Public(k.id, rows[k]) in bucket.changedRows;
      } else {
        assert k.id in bucket.deletedIds;
      }
    }
    if bucket.changedRows != [] {
      assert bucket.changedRows[0] in bucket.changedRows;
    } else if bucket.deletedIds != [] {
      assert bucket.deletedIds[0] in bucket.deletedIds;
    }
  }

  // ---------------------------------------------------------------------------------------------
  // Responses
  // ---------------------------------------------------------------------------------------------

  type Changes = map<string, Bucket>

  function EntryOf(changes: Changes, table: string): TableEntry
    requires table in changes
  {
    Pull.TableEntry(table, changes[table].changedRows, changes[table].deletedIds)
  }

  /** One entry for each requested table that is known; all tables if none is requested. */
  method BuildPullTables(allTables: seq<string>, changes: Changes, requested: seq<string>)
    returns (tables: seq<TableEntry>)
    requires forall t :: t in allTables ==> t in changes
    ensures var asked := if requested == [] then allTables else requested;
      forall t :: Pull.Find(tables, t) == if t in asked && t in allTables then Some(EntryOf(changes, t)) else None
  {
    var asked := if requested == [] then allTables else requested;
    tables := [];
    for i := 0 to |asked|
      invariant forall t ::
        Pull.Find(tables, t) == if t in asked[..i] && t in allTables then Some(EntryOf(changes, t)) else None
    {
      if asked[i] in allTables {
        forall t { FindAppended(tables, EntryOf(changes, asked[i]), t); }
        tables := tables + [EntryOf(changes, asked[i])];
      }
    }
    assert asked[..|asked|] == asked;
  }

  /** A response that takes its entries from the tables' buckets. */
  lemma BuiltIsResponse(rows: ServerRows, names: seq<string>, changes: Changes, requested: seq<string>, ts: nat,
                        response: seq<TableEntry>)
    requires forall t :: t in names ==> t in changes && IsBucket(rows, t, ts, changes[t])
    requires forall t :: t in names ==> LatestFirst(rows, t, changes[t].changedRows)
    requires var asked := if requested == [] then names else requested;
      forall t :: Pull.Find(response, t) == if t in asked && t in names then Some(EntryOf(changes, t)) else None
    ensures IsResponse(rows, AskedOf(names, requested), ts, response)
    ensures forall t :: LatestFirst(rows, t, Pull.RowsFor(response, t))
  {
    forall t
      ensures LatestFirst(rows, t, Pull.RowsFor(response, t))
      ensures
        if t in AskedOf(names, requested) then
          IsBucket(rows, t, ts, Bucket(Pull.RowsFor(response, t), Pull.IdsFor(response, t)))
        else Pull.RowsFor(response, t) == [] && Pull.IdsFor(response, t) == []
    {
      assert Pull.Find(response, t) == if t in AskedOf(names, requested) then Some(EntryOf(changes, t)) else None;
      if t in AskedOf(names, requested) {
        assert changes[t] == Bucket(Pull.RowsFor(response, t), Pull.IdsFor(response, t));
      }
    }
  }

  lemma {:induction false} FindAppended(tables: seq<TableEntry>, entry: TableEntry, t: string)
    ensures Pull.Find(tables + [entry], t) ==
      if Pull.Find(tables, t).Some? then Pull.Find(tables, t) else if entry.table == t then Some(entry) else None
  {
    if tables == [] {
      assert [entry][1..] == [];
    } else {
      FindAppended(tables[1..], entry, t);
      assert (tables + [entry])[1..] == tables[1..] + [entry];
    }
  }

  method ChangedTableNames(allTables: seq<string>, changes: Changes) returns (names: seq<string>)
    requires forall t :: t in allTables ==> t in changes
    ensures forall t :: t in names <==> t in allTables && (changes[t].changedRows != [] || changes[t].deletedIds != [])
  {
    names := [];
    for i := 0 to |allTables|
      invariant forall t :: t in names <==>
        t in allTables[..i] && (changes[t].changedRows != [] || changes[t].deletedIds != [])
    {
      var bucket := changes[allTables[i]];
      if |bucket.changedRows| > 0 || |bucket.deletedIds| > 0 {
        names := names + [allTables[i]];
      }
    }
    assert allTables[..|allTables|] == allTables;
  }

  /** The known tables among those requested; all of them if none is requested. */
  function AskedOf(names: seq<string>, requested: seq<string>): set<string> {
    set t | t in names && (requested == [] || t in requested)
  }

  /** What the response to a pull from a timestamp says about the rows: each as its bucket has it, and nothing else. */
  ghost predicate IsResponse(rows: ServerRows, tables: set<string>, ts: nat, response: seq<TableEntry>) {
    forall t ::
      if t in tables then IsBucket(rows, t, ts, Bucket(Pull.RowsFor(response, t), Pull.IdsFor(response, t)))
      else Pull.RowsFor(response, t) == [] && Pull.IdsFor(response, t) == []
  }

  /** A response names each row once, as a changed row or by its id. */
  lemma ResponseNamesRowsOnce(rows: ServerRows, tables: set<string>, ts: nat, response: seq<TableEntry>)
    requires IsResponse(rows, tables, ts, response)
    ensures Pull.EachIdOnce(response)
  {
  }

  /** The statement that a response holds for a row is the one for the server's row, if that is news. */
  lemma ResponseStatement(s: Server, tables: set<string>, ts: nat, response: seq<TableEntry>, upsertOrder: seq<string>,
                          deleteOrder: seq<string>, k: Key)
    requires NoDuplicates(upsertOrder) && NoDuplicates(deleteOrder)
    requires forall t :: t in tables ==> t in upsertOrder && t in deleteOrder
    requires IsResponse(s.rows, tables, ts, response)
    ensures StatementFor(Pull.Statements(upsertOrder, deleteOrder, response, s.clock), k)
      == if k.table in tables && InDelta(s.rows, k, ts) then Some(StatementOf(k, s.rows[k], s.clock)) else None
  {
    ResponseNamesRowsOnce(s.rows, tables, ts, response);
    Pull.StatementForRow(upsertOrder, deleteOrder, response, s.clock, k);
    if k.table in tables {
      assert IsBucket(s.rows, k.table, ts, Bucket(Pull.RowsFor(response, k.table), Pull.IdsFor(response, k.table)));
      assert k == Key(k.table, k.id);
      if InDelta(s.rows, k, ts) {
        if s.rows[k].deletedAt.None? {
          assert IsLive(s.rows, k, ts, Public(k.id, s.rows[k]));
          assert Pull.IsChanged(upsertOrder, response, k, Public(k.id, s.rows[k]));
        } else {
          assert IsGone(s.rows, k, ts);
          assert Pull.IsDeleted(deleteOrder, response, k);
        }
      }
    }
  }

  // ---------------------------------------------------------------------------------------------
  // Writes
  // ---------------------------------------------------------------------------------------------

  datatype Write = Put(k: Key, content: Columns, deletedAt: Option<int>) | Remove(k: Key)

  function RowAfter(was: Option<ServerRow>, write: Write, now: nat): Option<ServerRow> {
    match write
    case Put(_, content, deletedAt) => Some(ServerRow(content, now, deletedAt, now))
    case Remove(_) =>
      if was.None? then None else Some(was.value.(deletedAt := Some(now), updatedAt := now, stamp := now))
  }

  function ApplyWrite(rows: ServerRows, write: Write, now: nat): ServerRows {
    var row := RowAfter(Find(rows, write.k), write, now);
    if row.None? then rows else rows[write.k := row.value]
  }

  function ApplyWrites(rows: ServerRows, writes: seq<Write>, now: nat): ServerRows {
    if writes == [] then rows
    else ApplyWrite(ApplyWrites(rows, writes[..|writes| - 1], now), writes[|writes| - 1], now)
  }

  function Puts(table: string, rows: seq<PushRow>): seq<Write> {
    seq(|rows|, i requires 0 <= i < |rows| => Put(Key(table, rows[i].id), rows[i].content, rows[i].deletedAt))
  }

  function Removes(table: string, ids: seq<string>): seq<Write> {
    seq(|ids|, i requires 0 <= i < |ids| => Remove(Key(table, ids[i])))
  }

  function WritesOf(changes: seq<PushChange>): seq<Write> {
    if changes == [] then []
    else
      var last := changes[|changes| - 1];
      WritesOf(changes[..|changes| - 1]) + (Puts(last.table, last.changedRows) + Removes(last.table, last.deletedIds))
  }

  ghost predicate DistinctWrites(writes: seq<Write>) {
    forall i, j :: 0 <= i < j < |writes| ==> writes[i].k != writes[j].k
  }

  lemma {:induction false} WritesConcat(rows: ServerRows, a: seq<Write>, b: seq<Write>, now: nat)
    ensures ApplyWrites(rows, a + b, now) == ApplyWrites(ApplyWrites(rows, a, now), b, now)
  {
    if b == [] {
      assert a + b == a;
    } else {
      WritesConcat(rows, a, b[..|b| - 1], now);
      assert (a + b)[..|a + b| - 1] == a + b[..|b| - 1];
    }
  }

  lemma WritesUpTo(rows: ServerRows, writes: seq<Write>, n: nat, now: nat)
    requires n < |writes|
    ensures ApplyWrites(rows, writes[..n + 1], now) == ApplyWrite(ApplyWrites(rows, writes[..n], now), writes[n], now)
  {
    assert writes[..n + 1][..n] == writes[..n];
  }

  /** A row that is written once ends up as that write makes it. */
  lemma {:induction false} WriteOutcome(rows: ServerRows, writes: seq<Write>, now: nat, w: Write)
    requires DistinctWrites(writes) && w in writes
    ensures Find(ApplyWrites(rows, writes, now), w.k) == RowAfter(Find(rows, w.k), w, now)
  {
    var rest, last := writes[..|writes| - 1], writes[|writes| - 1];
    assert writes == rest + [last];
    if w in rest {
      WriteOutcome(rows, rest, now, w);
    } else {
      UnwrittenStays(rows, rest, now, w.k);
    }
  }

  lemma {:induction false} UnwrittenStays(rows: ServerRows, writes: seq<Write>, now: nat, k: Key)
    requires forall w :: w in writes ==> w.k != k
    ensures Find(ApplyWrites(rows, writes, now), k) == Find(rows, k)
  {
    if writes != [] {
      UnwrittenStays(rows, writes[..|writes| - 1], now, k);
    }
  }

  /** Changes up to the first one of an unknown table. */
  function KnownPrefix(changes: seq<PushChange>, names: seq<string>): seq<PushChange> {
    if changes == [] || changes[0].table !in names then []
    else [changes[0]] + KnownPrefix(changes[1..], names)
  }

  lemma {:induction false} KnownUpTo(changes: seq<PushChange>, names: seq<string>, n: nat)
    requires n <= |changes| && forall i :: 0 <= i < n ==> changes[i].table in names
    requires n < |changes| ==> changes[n].table !in names
    ensures KnownPrefix(changes, names) == changes[..n]
  {
    if n > 0 {
      KnownUpTo(changes[1..], names, n - 1);
      assert changes[..n] == [changes[0]] + changes[1..][..n - 1];
    }
  }

  // ---------------------------------------------------------------------------------------------
  // The repository
  // ---------------------------------------------------------------------------------------------

  /** The latest row of a table, if it has any. */
  ghost predicate LatestOf(rows: ServerRows, table: string, latest: Option<ReadRow>) {
    match latest
    case None => forall k :: k in rows ==> k.table != table
    case Some(r) =>
      && Key(table, r.id) in rows && rows[Key(table, r.id)] == r.row
      && forall k :: k in rows && k.table == table ==> rows[k].stamp <= r.row.stamp
  }

  /** Candidates for the cursor: rows that are there, one at least as late as each row of the tables. */
  ghost predicate Candidates(rows: ServerRows, tables: seq<string>, candidates: seq<Cursor.CursorRow>) {
    && (forall r :: r in candidates ==> StampedIn(rows, r.syncUpdatedAt))
    && (forall k :: k in rows && k.table in tables ==> Outdone(candidates, rows[k].stamp))
  }

  ghost predicate StampedIn(rows: ServerRows, stamp: nat) {
    exists k :: k in rows && rows[k].stamp == stamp
  }

  ghost predicate Outdone(candidates: seq<Cursor.CursorRow>, stamp: nat) {
    exists r :: r in candidates && stamp <= r.syncUpdatedAt
  }

  class SyncRepository {
    const tableNames: seq<string>
    const compare: Cursor.Collation
    /** The text of a time, as toISOString gives it. */
    const iso: int -> string
    var rows: ServerRows
    var clock: nat

    ghost predicate Valid()
      reads this
    {
      && NoDuplicates(tableNames)
      && Cursor.IsCollation(compare)
      && forall k :: k in rows ==> k.table in tableNames && 0 < rows[k].stamp <= clock
    }

    function State(): Server
      reads this
    {
      Server(rows, clock, map[])
    }

    function Tables(): set<string> {
      set t | t in tableNames
    }

    function Asked(requested: seq<string>): set<string> {
      AskedOf(tableNames, requested)
    }

    constructor (tableNames: seq<string>, compare: Cursor.Collation, iso: int -> string)
      requires NoDuplicates(tableNames) && Cursor.IsCollation(compare)
      ensures Valid() && this.tableNames == tableNames && State() == Server(map[], 0, map[])
    {
      this.tableNames, this.compare, this.iso, rows, clock := tableNames, compare, iso, map[], 0;
    }

    /** SELECT ... WHERE syncUpdatedAt > ts, or without the condition for 0, ORDER BY syncUpdatedAt DESC. */
    method ReadRows(table: string, ts: nat) returns (found: seq<ReadRow>)
      ensures Reads(rows, table, ts, found) && NewestFirst(found)
    {
      found := [];
      var left := rows.Keys;
      while left != {}
        invariant left <= rows.Keys && DistinctIds(found) && NewestFirst(found)
        invariant forall r :: r in found <==>
          Key(table, r.id) !in left && InDelta(rows, Key(table, r.id), ts) && rows[Key(table, r.id)] == r.row
        decreases |left|
      {
        var k :| k in left;
        left := left - {k};
        if k.table == table && Newer(rows[k], ts) {
          assert k == Key(table, k.id);
          PlacedKeepsOrder(found, ReadRow(k.id, rows[k]));
          found := Placed(found, ReadRow(k.id, rows[k]));
        }
      }
    }

    /** SELECT ... ORDER BY syncUpdatedAt DESC LIMIT 1. */
    method ReadLatestRow(table: string) returns (latest: Option<ReadRow>)
      ensures LatestOf(rows, table, latest)
    {
      latest := None;
      var left := rows.Keys;
      while left != {}
        invariant left <= rows.Keys
        invariant latest.None? ==> forall k :: k in rows && k !in left ==> k.table != table
        invariant latest.Some? ==>
          && Key(table, latest.value.id) in rows && rows[Key(table, latest.value.id)] == latest.value.row
          && forall k :: k in rows && k !in left && k.table == table ==> rows[k].stamp <= latest.value.row.stamp
        decreases |left|
      {
        var k :| k in left;
        left := left - {k};
        if k.table == table && (latest.None? || rows[k].stamp > latest.value.row.stamp) {
          assert k == Key(table, k.id);
          latest := Some(ReadRow(k.id, rows[k]));
        }
      }
    }

    method ReadTableSnapshot(table: string, ts: nat) returns (bucket: Bucket, latest: Option<ReadRow>)
      ensures IsBucket(rows, table, ts, bucket) && LatestFirst(rows, table, bucket.changedRows)
      ensures LatestOf(rows, table, latest)
    {
      latest := ReadLatestRow(table);
      var found := ReadRows(table, ts);
      bucket := SplitSyncRows(found);
      SplitIsBucket(rows, table, ts, found);
      SplitKeepsOrder(rows, table, found);
    }

    method ReadTableSnapshots(ts: nat) returns (changes: Changes, candidates: seq<Cursor.CursorRow>)
      ensures changes.Keys == Tables() && forall t :: t in changes ==> IsBucket(rows, t, ts, changes[t])
      ensures forall t :: t in changes ==> LatestFirst(rows, t, changes[t].changedRows)
      ensures Candidates(rows, tableNames, candidates)
    {
      changes, candidates := map[], [];
      for i := 0 to |tableNames|
        invariant forall t :: t in changes <==> t in tableNames[..i]
        invariant forall t :: t in changes ==> IsBucket(rows, t, ts, changes[t])
        invariant forall t :: t in changes ==> LatestFirst(rows, t, changes[t].changedRows)
        invariant Candidates(rows, tableNames[..i], candidates)
      {
        var table := tableNames[i];
        assert tableNames[..i + 1] == tableNames[..i] + [table];
        var bucket, latest := ReadTableSnapshot(table, ts);
        changes := changes[table := bucket];
        if latest.Some? {
          var r := latest.value;
          var candidate := Cursor.CursorRow(r.id, r.row.stamp, table, iso(r.row.updatedAt));
          MoreCandidates(rows, tableNames[..i], table, r, candidates, candidate);
          candidates := candidates + [candidate];
        }
      }
      assert tableNames[..|tableNames|] == tableNames;
    }

    /** The stamp that goes into a response's cursor: that of the latest row, or the time if there are no rows. */
    method LatestStamp(candidates: seq<Cursor.CursorRow>) returns (cursor: nat)
      requires Valid() && Candidates(rows, tableNames, candidates)
      ensures IsLatest(State(), cursor)
    {
      var latest := Cursor.PickLatestSyncCursorRow(compare, candidates);
      if latest.Some? {
        assert StampedIn(rows, latest.value.syncUpdatedAt);
        forall k | k in rows ensures rows[k].stamp <= latest.value.syncUpdatedAt {
          assert Outdone(candidates, rows[k].stamp);
        }
        return latest.value.syncUpdatedAt;
      }
      NoCandidates(rows, tableNames);
      return clock;
    }

    /** Answers a pull: the news in the requested tables, latest first, and a cursor that covers all tables. */
    method LoadPullChanges(requested: seq<string>, ts: nat) returns (response: seq<TableEntry>, cursor: nat)
      requires Valid()
      ensures IsResponse(rows, Asked(requested), ts, response)
      ensures forall t :: LatestFirst(rows, t, Pull.RowsFor(response, t))
      ensures IsLatest(State(), cursor)
    {
      var changes, candidates := ReadTableSnapshots(ts);
      cursor := LatestStamp(candidates);
      response := BuildPullTables(tableNames, changes, requested);
      BuiltIsResponse(rows, tableNames, changes, requested, ts, response);
    }

    /** Answers a status request: exactly the tables with news. */
    method LoadSyncStatus(ts: nat) returns (changedTables: seq<string>, hasChanges: bool, cursor: nat)
      requires Valid()
      ensures forall t :: t in changedTables <==> t in tableNames && HasDelta(rows, t, ts)
      ensures hasChanges <==> changedTables != []
      ensures IsLatest(State(), cursor)
    {
      var changes, candidates := ReadTableSnapshots(ts);
      changedTables := ChangedTableNames(tableNames, changes);
      forall t | t in tableNames
        ensures changes[t].changedRows != [] || changes[t].deletedIds != [] <==> HasDelta(rows, t, ts)
      {
        EmptyBucket(rows, t, ts, changes[t]);
      }
      hasChanges := |changedTables| > 0;
      cursor := LatestStamp(candidates);
    }

    method UpsertRow(table: string, row: PushRow, now: nat)
      modifies `rows
      ensures rows == ApplyWrite(old(rows), Put(Key(table, row.id), row.content, row.deletedAt), now)
    {
      rows := rows[Key(table, row.id) := ServerRow(row.content, now, row.deletedAt, now)];
    }

    method SoftDeleteRow(table: string, id: string, now: nat)
      modifies `rows
      ensures rows == ApplyWrite(old(rows), Remove(Key(table, id)), now)
    {
      if Key(table, id) in rows {
        rows := rows[Key(table, id) := rows[Key(table, id)].(deletedAt := Some(now), updatedAt := now, stamp := now)];
      }
    }

    /** Writes the changes in order, all with one stamp; an unknown table stops it, with what came before written. */
    method ApplyPushChanges(changes: seq<PushChange>, now: nat) returns (ok: bool)
      requires Valid() && clock < now
      modifies this
      ensures Valid() && clock == now
      ensures rows == ApplyWrites(old(rows), WritesOf(KnownPrefix(changes, tableNames)), now)
      ensures ok <==> forall c :: c in changes ==> c.table in tableNames
    {
      clock := now;
      for i := 0 to |changes|
        invariant Valid() && clock == now
        invariant forall j :: 0 <= j < i ==> changes[j].table in tableNames
        invariant rows == ApplyWrites(old(rows), WritesOf(changes[..i]), now)
      {
        var change := changes[i];
        if change.table !in tableNames {
          KnownUpTo(changes, tableNames, i);
          return false;
        }
        ApplyChange(change, now);
        assert changes[..i + 1][..i] == changes[..i];
        WritesConcat(old(rows), WritesOf(changes[..i]),
                     Puts(change.table, change.changedRows) + Removes(change.table, change.deletedIds), now);
      }
      KnownUpTo(changes, tableNames, |changes|);
      assert changes[..|changes|] == changes;
      return true;
    }

    /** One table's rows, then its deletions. */
    method ApplyChange(change: PushChange, now: nat)
      requires Valid() && clock == now && now > 0 && change.table in tableNames
      modifies `rows
      ensures Valid()
      ensures rows ==
        ApplyWrites(old(rows), Puts(change.table, change.changedRows) + Removes(change.table, change.deletedIds), now)
    {
      var puts, removes := Puts(change.table, change.changedRows), Removes(change.table, change.deletedIds);
      for j := 0 to |change.changedRows|
        invariant Valid()
        invariant rows == ApplyWrites(old(rows), puts[..j], now)
      {
        WritesUpTo(old(rows), puts, j, now);
        UpsertRow(change.table, change.changedRows[j], now);
      }
      assert puts[..|puts|] == puts;
      for j := 0 to |change.deletedIds|
        invariant Valid()
        invariant rows == ApplyWrites(ApplyWrites(old(rows), puts, now), removes[..j], now)
      {
        WritesUpTo(ApplyWrites(old(rows), puts, now), removes, j, now);
        SoftDeleteRow(change.table, change.deletedIds[j], now);
      }
      assert removes[..|removes|] == removes;
      WritesConcat(old(rows), puts, removes, now);
    }
  }

  lemma NoCandidates(rows: ServerRows, tables: seq<string>)
    requires Candidates(rows, tables, []) && forall k :: k in rows ==> k.table in tables
    ensures rows == map[]
  {
  }

  lemma MoreCandidates(rows: ServerRows, tables: seq<string>, table: string, latest: ReadRow,
                       candidates: seq<Cursor.CursorRow>, candidate: Cursor.CursorRow)
    requires Candidates(rows, tables, candidates) && LatestOf(rows, table, Some(latest))
    requires candidate.syncUpdatedAt == latest.row.stamp
    ensures Candidates(rows, tables + [table], candidates + [candidate])
  {
  }
}
