/**
 Push envelopes (crates/baresync-core/src/push.rs, lines 216-301): units of work, their grouping by table, and the
 number of bytes the JSON of an envelope takes. Also the server's check of an incoming envelope
 (packages/baresync/src/server/service.ts, lines 99-129).
 */
module Envelope {
  import opened Sequences

  /** A row to send, as the JSON text it serializes to. */
  datatype Payload = Payload(id: string, json: string)

  /** One changed row or one deleted id, with the outbox entries it stands for. */
  datatype PushUnit =
    | Changed(table: string, row: Payload, outboxIds: seq<string>)
    | Deleted(table: string, id: string, outboxIds: seq<string>)

  datatype TableChange = TableChange(table: string, changedRows: seq<Payload>, deletedIds: seq<string>)

  /** What one table has pending, with the outbox ids of each row. */
  datatype TableOutboxChanges = TableOutboxChanges(
    changedRows: seq<Payload>, deletedIds: seq<string>, outboxIdsByRowId: map<string, seq<string>>)

  function RowId(u: PushUnit): string {
    match u
    case Changed(_, row, _) => row.id
    case Deleted(_, id, _) => id
  }

  // ---------------------------------------------------------------------------------------------
  // Names in alphabetical order
  // ---------------------------------------------------------------------------------------------

  predicate Less(a: string, b: string) {
    if a == [] then b != []
    else b != [] && (a[0] < b[0] || (a[0] == b[0] && Less(a[1..], b[1..])))
  }

  lemma {:induction false} LessTotal(a: string, b: string)
    ensures Less(a, b) || a == b || Less(b, a)
    ensures Less(a, b) ==> a != b && !Less(b, a)
  {
    if a != [] && b != [] {
      LessTotal(a[1..], b[1..]);
      assert a == [a[0]] + a[1..] && b == [b[0]] + b[1..];
    }
  }

  lemma {:induction false} LessTransitive(a: string, b: string, c: string)
    requires Less(a, b) && Less(b, c)
    ensures Less(a, c)
  {
    if a != [] && a[0] == b[0] == c[0] {
      LessTransitive(a[1..], b[1..], c[1..]);
    }
  }

  ghost predicate Alphabetical(names: seq<string>) {
    forall i, j :: 0 <= i < j < |names| ==> Less(names[i], names[j])
  }

  function Insert(names: seq<string>, name: string): seq<string> {
    if names == [] then [name]
    else if names[0] == name then names
    else if Less(name, names[0]) then [name] + names
    else [names[0]] + Insert(names[1..], name)
  }

  lemma {:induction false} InsertSorted(names: seq<string>, name: string)
    requires Alphabetical(names)
    ensures Alphabetical(Insert(names, name))
    ensures forall n :: n in Insert(names, name) <==> n == name || n in names
  {
    if names != [] {
      LessTotal(name, names[0]);
      if Less(name, names[0]) {
        forall j | 0 <= j < |names| ensures Less(name, names[j]) {
          if j > 0 { LessTransitive(name, names[0], names[j]); }
        }
      } else if name != names[0] {
        InsertSorted(names[1..], name);
        var rest := Insert(names[1..], name);
        forall j | 0 <= j < |rest| ensures Less(names[0], rest[j]) {
          assert rest[j] == name || rest[j] in names[1..];
        }
      }
    }
  }

  lemma AlphabeticalIsDistinct(names: seq<string>)
    requires Alphabetical(names)
    ensures NoDuplicates(names)
  {
    forall i, j | 0 <= i < j < |names| ensures names[i] != names[j] {
      LessTotal(names[i], names[j]);
    }
  }

  lemma HasElement(s: seq<string>)
    requires s != []
    ensures exists n :: n in s
  {
    assert s[0] in s;
  }

  /** The names in a set have one alphabetical order. */
  lemma {:induction false} AlphabeticalUnique(a: seq<string>, b: seq<string>)
    requires Alphabetical(a) && Alphabetical(b) && forall n :: n in a <==> n in b
    ensures a == b
    decreases |a|
  {
    AlphabeticalIsDistinct(a);
    AlphabeticalIsDistinct(b);
    if a == [] {
      if b != [] { HasElement(b); }
    } else {
      assert a[0] in b;
      assert b[0] in a;
      var i :| 0 <= i < |b| && b[i] == a[0];
      var j :| 0 <= j < |a| && a[j] == b[0];
      LessTotal(a[0], b[0]);
      assert a[0] == b[0];
      var ra, rb := a[1..], b[1..];
      assert a == [a[0]] + ra && b == [b[0]] + rb;
      forall n ensures n in ra <==> n in rb {
        assert n in ra <==> n in a && n != a[0];
        assert n in rb <==> n in b && n != b[0];
      }
      AlphabeticalUnique(ra, rb);
    }
  }

  // ---------------------------------------------------------------------------------------------
  // Flattening and merging
  // ---------------------------------------------------------------------------------------------

  function IdsFor(m: map<string, seq<string>>, id: string): seq<string> {
    if id in m then m[id] else []
  }

  function RowUnits(table: string, rows: seq<Payload>, ids: map<string, seq<string>>): seq<PushUnit> {
    seq(|rows|, i requires 0 <= i < |rows| => Changed(table, rows[i], IdsFor(ids, rows[i].id)))
  }

  function IdUnits(table: string, deleted: seq<string>, ids: map<string, seq<string>>): seq<PushUnit> {
    seq(|deleted|, i requires 0 <= i < |deleted| => Deleted(table, deleted[i], IdsFor(ids, deleted[i])))
  }

  function FlattenSpec(table: string, c: TableOutboxChanges): seq<PushUnit> {
    RowUnits(table, c.changedRows, c.outboxIdsByRowId) + IdUnits(table, c.deletedIds, c.outboxIdsByRowId)
  }

  method FlattenPendingTables(table: string, changes: TableOutboxChanges) returns (units: seq<PushUnit>)
    ensures units == FlattenSpec(table, changes)
  {
    units := [];
    ghost var rows := RowUnits(table, changes.changedRows, changes.outboxIdsByRowId);
    ghost var ids := IdUnits(table, changes.deletedIds, changes.outboxIdsByRowId);
    for i := 0 to |changes.changedRows|
      invariant units == rows[..i]
    {
      var row := changes.changedRows[i];
      units := units + [Changed(table, row, IdsFor(changes.outboxIdsByRowId, row.id))];
    }
    for i := 0 to |changes.deletedIds|
      invariant units == rows + ids[..i]
    {
      var id := changes.deletedIds[i];
      units := units + [Deleted(table, id, IdsFor(changes.outboxIdsByRowId, id))];
    }
  }

  function TableNames(units: seq<PushUnit>): seq<string> {
    if units == [] then [] else Insert(TableNames(units[..|units| - 1]), units[|units| - 1].table)
  }

  function RowsIn(units: seq<PushUnit>, table: string): seq<Payload> {
    if units == [] then []
    else
      var u := units[|units| - 1];
      RowsIn(units[..|units| - 1], table) + (if u.Changed? && u.table == table then [u.row] else [])
  }

  function DeletedIn(units: seq<PushUnit>, table: string): seq<string> {
    if units == [] then []
    else
      var u := units[|units| - 1];
      DeletedIn(units[..|units| - 1], table) + (if u.Deleted? && u.table == table then [u.id] else [])
  }

  function TableOf(units: seq<PushUnit>, table: string): TableChange {
    TableChange(table, RowsIn(units, table), DeletedIn(units, table))
  }

  /** One entry for each table the units touch, in alphabetical order, each with its units in their own order. */
  function Merge(units: seq<PushUnit>): seq<TableChange> {
    var names := TableNames(units);
    seq(|names|, i requires 0 <= i < |names| => TableOf(units, names[i]))
  }

  lemma {:induction false} TableNamesAre(units: seq<PushUnit>)
    ensures Alphabetical(TableNames(units)) && NoDuplicates(TableNames(units))
    ensures forall n :: n in TableNames(units) <==> exists u :: u in units && u.table == n
  {
    if units != [] {
      var rest, u := units[..|units| - 1], units[|units| - 1];
      TableNamesAre(rest);
      InsertSorted(TableNames(rest), u.table);
      assert units == rest + [u];
    }
    AlphabeticalIsDistinct(TableNames(units));
  }

  function AddUnit(entry: TableChange, unit: PushUnit): TableChange {
    match unit
    case Changed(_, row, _) => entry.(changedRows := entry.changedRows + [row])
    case Deleted(_, id, _) => entry.(deletedIds := entry.deletedIds + [id])
  }

  lemma TableOfStep(units: seq<PushUnit>, unit: PushUnit, table: string)
    ensures TableOf(units + [unit], table) ==
      if unit.table == table then AddUnit(TableOf(units, table), unit) else TableOf(units, table)
  {
  }

  /** The sort by name of push.rs, line 277. */
  method SortNames(keys: set<string>) returns (names: seq<string>)
    ensures Alphabetical(names) && forall n :: n in names <==> n in keys
  {
    names := [];
    var left := keys;
    while left != {}
      invariant left <= keys && Alphabetical(names)
      invariant forall n :: n in names <==> n in keys && n !in left
      decreases |left|
    {
      var n :| n in left;
      InsertSorted(names, n);
      names := Insert(names, n);
      left := left - {n};
    }
  }

  lemma {:induction false} NoUnitsIn(units: seq<PushUnit>, table: string)
    requires forall u :: u in units ==> u.table != table
    ensures TableOf(units, table) == TableChange(table, [], [])
  {
    if units != [] {
      NoUnitsIn(units[..|units| - 1], table);
    }
  }

  ghost predicate Groups(byTable: map<string, TableChange>, units: seq<PushUnit>) {
    && (forall n :: n in byTable <==> n in TableNames(units))
    && (forall n :: n in byTable ==> byTable[n] == TableOf(units, n))
  }

  lemma GroupsStep(byTable: map<string, TableChange>, units: seq<PushUnit>, unit: PushUnit)
    requires Groups(byTable, units)
    ensures var entry := if unit.table in byTable then byTable[unit.table] else TableChange(unit.table, [], []);
      Groups(byTable[unit.table := AddUnit(entry, unit)], units + [unit])
  {
    TableNamesAre(units);
    InsertSorted(TableNames(units), unit.table);
    assert (units + [unit])[..|units|] == units;
    if unit.table !in byTable {
      NoUnitsIn(units, unit.table);
    }
    forall n {
      TableOfStep(units, unit, n);
    }
  }

  method GroupByTable(units: seq<PushUnit>) returns (byTable: map<string, TableChange>)
    ensures Groups(byTable, units)
  {
    byTable := map[];
    for i := 0 to |units|
      invariant Groups(byTable, units[..i])
    {
      var unit := units[i];
      GroupsStep(byTable, units[..i], unit);
      assert units[..i + 1] == units[..i] + [unit];
      var entry := if unit.table in byTable then byTable[unit.table] else TableChange(unit.table, [], []);
      byTable := byTable[unit.table := AddUnit(entry, unit)];
    }
    assert units[..|units|] == units;
  }

  method MergePendingUnits(units: seq<PushUnit>) returns (result: seq<TableChange>)
    ensures result == Merge(units)
  {
    var byTable := GroupByTable(units);
    var names := SortNames(byTable.Keys);
    TableNamesAre(units);
    AlphabeticalUnique(names, TableNames(units));
    result := [];
    for i := 0 to |names|
      invariant result == Merge(units)[..i]
    {
      assert names[i] in names;
      result := result + [byTable[names[i]]];
    }
  }

  // ---------------------------------------------------------------------------------------------
  // Encoded length
  // ---------------------------------------------------------------------------------------------

  /** The UTF-8 bytes of a character, escaped inside a JSON string. */
  function EscapedLen(c: char): nat {
    var n := c as int;
    if c == '"' || c == '\\' || n == 8 || n == 9 || n == 10 || n == 12 || n == 13 then 2
    else if n < 0x20 then 6
    else Utf8Len(c)
  }

  function Utf8Len(c: char): nat {
    var n := c as int;
    if n < 0x80 then 1 else if n < 0x800 then 2 else if n < 0x10000 then 3 else 4
  }

  function EscapedTotal(s: string): nat {
    if s == [] then 0 else EscapedLen(s[0]) + EscapedTotal(s[1..])
  }

  function QuotedLen(s: string): nat { 2 + EscapedTotal(s) }

  function TextLen(s: string): nat {
    if s == [] then 0 else Utf8Len(s[0]) + TextLen(s[1..])
  }

  function Sum(lens: seq<nat>): nat {
    if lens == [] then 0 else Sum(lens[..|lens| - 1]) + lens[|lens| - 1]
  }

  /** The elements of a JSON array and the commas between them. */
  function ListLen(lens: seq<nat>): nat {
    Sum(lens) + if lens == [] then 0 else |lens| - 1
  }

  function RowLens(rows: seq<Payload>): seq<nat> {
    seq(|rows|, i requires 0 <= i < |rows| => TextLen(rows[i].json))
  }

  function IdLens(ids: seq<string>): seq<nat> {
    seq(|ids|, i requires 0 <= i < |ids| => QuotedLen(ids[i]))
  }

  /** {"changedRows":[...],"deletedIds":[...],"table":"..."} */
  const TABLE_OVERHEAD := 43

  function TableLen(t: TableChange): nat {
    TABLE_OVERHEAD + QuotedLen(t.table)
    + ListLen(RowLens(t.changedRows)) + ListLen(IdLens(t.deletedIds))
  }

  /** {"clientId":"...","idempotencyKey":"...","scopeId":"...","tables":[...]} */
  const ENVELOPE_OVERHEAD := 54
  /** The key is a SHA-256 digest in hexadecimal. */
  const KEY_LENGTH := 64

  function EncodedLen(scopeId: string, clientId: string, tables: seq<TableChange>): nat {
    ENVELOPE_OVERHEAD + QuotedLen(scopeId) + QuotedLen(clientId) + 2 + KEY_LENGTH
    + ListLen(TableLens(tables))
  }

  function TableLens(tables: seq<TableChange>): seq<nat> {
    seq(|tables|, i requires 0 <= i < |tables| => TableLen(tables[i]))
  }

  /** The encoded length of the envelope that a chunk of units is sent in. */
  function ChunkLen(scopeId: string, clientId: string, units: seq<PushUnit>): nat {
    EncodedLen(scopeId, clientId, Merge(units))
  }

  lemma {:induction false} SumConcat(a: seq<nat>, b: seq<nat>)
    ensures Sum(a + b) == Sum(a) + Sum(b)
  {
    if b == [] {
      assert a + b == a;
    } else {
      SumConcat(a, b[..|b| - 1]);
      assert (a + b)[..|a + b| - 1] == a + b[..|b| - 1];
    }
  }

  lemma ListLenGrows(a: seq<nat>, b: seq<nat>, c: seq<nat>)
    ensures ListLen(b) <= ListLen(a + b + c)
  {
    SumConcat(a + b, c);
    SumConcat(a, b);
  }

  lemma {:induction false} InTableConcat(a: seq<PushUnit>, b: seq<PushUnit>, table: string)
    ensures RowsIn(a + b, table) == RowsIn(a, table) + RowsIn(b, table)
    ensures DeletedIn(a + b, table) == DeletedIn(a, table) + DeletedIn(b, table)
  {
    if b == [] {
      assert a + b == a;
    } else {
      InTableConcat(a, b[..|b| - 1], table);
      assert (a + b)[..|a + b| - 1] == a + b[..|b| - 1];
    }
  }

  lemma RowLensGrow(a: seq<Payload>, b: seq<Payload>, c: seq<Payload>)
    ensures ListLen(RowLens(b)) <= ListLen(RowLens(a + b + c))
  {
    assert RowLens(a + b + c) == RowLens(a) + RowLens(b) + RowLens(c);
    ListLenGrows(RowLens(a), RowLens(b), RowLens(c));
  }

  lemma IdLensGrow(a: seq<string>, b: seq<string>, c: seq<string>)
    ensures ListLen(IdLens(b)) <= ListLen(IdLens(a + b + c))
  {
    assert IdLens(a + b + c) == IdLens(a) + IdLens(b) + IdLens(c);
    ListLenGrows(IdLens(a), IdLens(b), IdLens(c));
  }

  lemma TableLenGrows(a: seq<PushUnit>, b: seq<PushUnit>, c: seq<PushUnit>, table: string)
    ensures TableLen(TableOf(b, table)) <= TableLen(TableOf(a + b + c, table))
  {
    InTableConcat(a + b, c, table);
    InTableConcat(a, b, table);
    RowLensGrow(RowsIn(a, table), RowsIn(b, table), RowsIn(c, table));
    IdLensGrow(DeletedIn(a, table), DeletedIn(b, table), DeletedIn(c, table));
  }

  /** The lengths that `len` gives to the listed names. */
  function Lens(names: seq<string>, len: string -> nat): seq<nat> {
    seq(|names|, i requires 0 <= i < |names| => len(names[i]))
  }

  lemma SumWithout(names: seq<string>, k: nat, len: string -> nat)
    requires k < |names|
    ensures Sum(Lens(names, len)) == Sum(Lens(names[..k] + names[k + 1..], len)) + len(names[k])
  {
    var before, after, one := names[..k], names[k + 1..], [names[k]];
    assert names == before + one + after;
    assert Lens(names, len) == Lens(before, len) + Lens(one, len) + Lens(after, len);
    assert Lens(before + after, len) == Lens(before, len) + Lens(after, len);
    SumConcat(Lens(before, len) + Lens(one, len), Lens(after, len));
    SumConcat(Lens(before, len), Lens(one, len));
    SumConcat(Lens(before, len), Lens(after, len));
    assert Lens(one, len)[..0] == [];
  }

  lemma {:induction false} MoreNamesLonger(few: seq<string>, many: seq<string>, short: string -> nat,
                                           long: string -> nat)
    requires NoDuplicates(few) && forall n :: n in few ==> n in many && short(n) <= long(n)
    ensures Sum(Lens(few, short)) <= Sum(Lens(many, long)) && |few| <= |many|
    decreases |few|
  {
    if few != [] {
      var n, rest := few[|few| - 1], few[..|few| - 1];
      assert n in few;
      var k :| 0 <= k < |many| && many[k] == n;
      var others := many[..k] + many[k + 1..];
      forall m | m in rest ensures m in others && short(m) <= long(m) {
        assert m in few;
        var j :| 0 <= j < |many| && many[j] == m;
        assert if j < k then others[j] == m else others[j - 1] == m;
      }
      MoreNamesLonger(rest, others, short, long);
      SumWithout(many, k, long);
      assert Lens(few, short)[..|few| - 1] == Lens(rest, short);
    }
  }

  /** A run of consecutive units never encodes longer than a run that contains it. */
  lemma ChunkLenMonotone(scopeId: string, clientId: string, a: seq<PushUnit>, b: seq<PushUnit>, c: seq<PushUnit>)
    ensures ChunkLen(scopeId, clientId, b) <= ChunkLen(scopeId, clientId, a + b + c)
  {
    var all := a + b + c;
    var few, many := TableNames(b), TableNames(all);
    TableNamesAre(b);
    TableNamesAre(all);
    forall n | n in few ensures n in many {
      var u :| u in b && u.table == n;
      assert u in all;
    }
    var short := n => TableLen(TableOf(b, n));
    var long := n => TableLen(TableOf(all, n));
    forall n | n in few ensures short(n) <= long(n) {
      TableLenGrows(a, b, c, n);
    }
    MoreNamesLonger(few, many, short, long);
    assert TableLens(Merge(b)) == Lens(few, short);
    assert TableLens(Merge(all)) == Lens(many, long);
  }

  // ---------------------------------------------------------------------------------------------
  // The server's check
  // ---------------------------------------------------------------------------------------------

  datatype Limits = Limits(maxBytes: nat, maxRows: nat)

  function RowCount(t: TableChange): nat {
    |t.changedRows| + |t.deletedIds|
  }

  function TotalRows(tables: seq<TableChange>): nat {
    if tables == [] then 0 else TotalRows(tables[..|tables| - 1]) + RowCount(tables[|tables| - 1])
  }

  method ValidatePushEnvelope(bodyBytes: nat, tables: seq<TableChange>, limits: Limits) returns (accepted: bool)
    ensures accepted <==> bodyBytes <= limits.maxBytes && TotalRows(tables) <= limits.maxRows
  {
    if bodyBytes > limits.maxBytes {
      return false;
    }
    var totalRows := 0;
    for i := 0 to |tables|
      invariant totalRows == TotalRows(tables[..i])
    {
      assert tables[..i + 1][..i] == tables[..i];
      totalRows := totalRows + |tables[i].changedRows| + |tables[i].deletedIds|;
    }
    assert tables[..|tables|] == tables;
    return totalRows <= limits.maxRows;
  }

  function RowsOver(names: seq<string>, units: seq<PushUnit>): nat {
    if names == [] then 0 else RowsOver(names[..|names| - 1], units) + RowCount(TableOf(units, names[|names| - 1]))
  }

  lemma {:induction false} OneMoreRow(names: seq<string>, units: seq<PushUnit>, u: PushUnit)
    requires NoDuplicates(names)
    ensures RowsOver(names, units + [u]) == RowsOver(names, units) + if u.table in names then 1 else 0
  {
    if names != [] {
      OneMoreRow(names[..|names| - 1], units, u);
      assert (units + [u])[..|units|] == units;
      assert names == names[..|names| - 1] + [names[|names| - 1]];
    }
  }

  lemma {:induction false} RowsOverAll(names: seq<string>, units: seq<PushUnit>)
    requires NoDuplicates(names) && forall u :: u in units ==> u.table in names
    ensures RowsOver(names, units) == |units|
    decreases |units|
  {
    if units == [] {
      NoRows(names);
    } else {
      var rest, u := units[..|units| - 1], units[|units| - 1];
      RowsOverAll(names, rest);
      OneMoreRow(names, rest, u);
      assert units == rest + [u];
    }
  }

  lemma {:induction false} NoRows(names: seq<string>)
    ensures RowsOver(names, []) == 0
  {
    if names != [] { NoRows(names[..|names| - 1]); }
  }

  lemma {:induction false} TotalIsOver(names: seq<string>, units: seq<PushUnit>)
    ensures TotalRows(seq(|names|, i requires 0 <= i < |names| => TableOf(units, names[i]))) == RowsOver(names, units)
  {
    if names != [] {
      var rest := names[..|names| - 1];
      TotalIsOver(rest, units);
      assert seq(|names|, i requires 0 <= i < |names| => TableOf(units, names[i]))[..|names| - 1]
          == seq(|rest|, i requires 0 <= i < |rest| => TableOf(units, rest[i]));
    }
  }

  /** An envelope counts one row for each unit: merging neither loses nor repeats any. */
  lemma MergedRowCount(units: seq<PushUnit>)
    ensures TotalRows(Merge(units)) == |units|
  {
    TableNamesAre(units);
    TotalIsOver(TableNames(units), units);
    RowsOverAll(TableNames(units), units);
  }

  lemma {:induction false} RowUnitsIn(table: string, rows: seq<Payload>, ids: map<string, seq<string>>)
    ensures RowsIn(RowUnits(table, rows, ids), table) == rows && DeletedIn(RowUnits(table, rows, ids), table) == []
  {
    if rows != [] {
      var rest := rows[..|rows| - 1];
      RowUnitsIn(table, rest, ids);
      assert RowUnits(table, rows, ids)[..|rows| - 1] == RowUnits(table, rest, ids);
    }
  }

  lemma {:induction false} IdUnitsIn(table: string, deleted: seq<string>, ids: map<string, seq<string>>)
    ensures RowsIn(IdUnits(table, deleted, ids), table) == [] &&
      DeletedIn(IdUnits(table, deleted, ids), table) == deleted
  {
    if deleted != [] {
      var rest := deleted[..|deleted| - 1];
      IdUnitsIn(table, rest, ids);
      assert IdUnits(table, deleted, ids)[..|deleted| - 1] == IdUnits(table, rest, ids);
    }
  }

  lemma OneTable(table: string, units: seq<PushUnit>)
    requires units != [] && forall u :: u in units ==> u.table == table
    ensures TableNames(units) == [table]
  {
  }

  /** Merging the units of one table gives back the table's changes. */
  lemma MergeFlatten(table: string, c: TableOutboxChanges)
    requires c.changedRows != [] || c.deletedIds != []
    ensures Merge(FlattenSpec(table, c)) == [TableChange(table, c.changedRows, c.deletedIds)]
  {
    var rows, ids :=
      RowUnits(table, c.changedRows, c.outboxIdsByRowId), IdUnits(table, c.deletedIds, c.outboxIdsByRowId);
    OneTable(table, rows + ids);
    InTableConcat(rows, ids, table);
    RowUnitsIn(table, c.changedRows, c.outboxIdsByRowId);
    IdUnitsIn(table, c.deletedIds, c.outboxIdsByRowId);
    assert c.changedRows + [] == c.changedRows && [] + c.deletedIds == c.deletedIds;
    assert TableNames(FlattenSpec(table, c)) == [table];
  }
}
