/**
 Coalescing of the outbox log (crates/baresync-core/src/schema.rs). Each entry of the log says that a row was
 inserted, updated or deleted; one table's log is folded into at most one change for each row.
 */
module Schema {
  import opened Wrappers
  import Naming

  datatype Operation = Insert | Update | Delete | Unknown(text: string)

  datatype Value = Null | Text(text: string) | Number(n: int)

  type Columns = map<string, Value>

  datatype Row = Row(id: string, columns: Columns)

  /** One entry of the log, with the row it refers to if the row still exists locally. */
  datatype Entry = Entry(operation: Operation, rowId: string, row: Option<Row>)

  datatype Coalesced = Coalesced(operation: Operation, row: Option<Row>)

  datatype Changes = Changes(changedRows: seq<Row>, deletedIds: seq<string>, skippedMissingPayload: seq<string>)

  type Table = map<string, Columns>

  function CoalesceOperation(previous: Option<Operation>, next: Operation): Result<Option<Operation>, string> {
    match (previous, next)
    case (_, Unknown(text)) => Failure("Unknown sync outbox operation: " + text)
    case (Some(Insert), Update) => Success(Some(Insert))
    case (Some(Insert), Delete) => Success(None)
    case (Some(Update), Update) => Success(Some(Update))
    case (Some(Update), Delete) => Success(Some(Delete))
    case (Some(Delete), Insert) => Success(Some(Update))
    case (Some(Delete), Update) => Success(Some(Update))
    case (Some(Delete), Delete) => Success(Some(Delete))
    case (_, _) => Success(Some(next))
  }

  predicate AllKnown(log: seq<Entry>) {
    forall e :: e in log ==> !e.operation.Unknown?
  }

  /** A column is local-only when its name, or its snake_case name, matches a listed one either way. */
  predicate IsLocalOnly(column: string, localOnly: seq<string>) {
    exists l :: l in localOnly &&
      (l == column || Naming.CamelToSnakeName(l) == column
       || l == Naming.CamelToSnakeName(column) || Naming.CamelToSnakeName(l) == Naming.CamelToSnakeName(column))
  }

  function FilterLocalColumns(row: Row, localOnly: seq<string>): Row {
    Row(row.id, map c | c in row.columns && !IsLocalOnly(c, localOnly) :: row.columns[c])
  }

  /** The JSON key of a column is dropped exactly if the column is listed as local-only. */
  lemma LocalColumnsAreDropped(column: string, localOnly: seq<string>)
    requires Naming.IsColumnName(column) && forall l :: l in localOnly ==> Naming.IsColumnName(l)
    ensures IsLocalOnly(Naming.SnakeToCamelName(column), localOnly) <==> column in localOnly
  {
    Naming.ColumnRoundTrip(column);
    forall l | l in localOnly ensures Naming.CamelToSnakeName(l) == l {
      forall c | c in l ensures !Naming.IsUpper(c) {
        var i :| 0 <= i < |l| && l[i] == c;
        assert Naming.InnerOk(l, i);
      }
      Naming.SnakeIsSnake(l, true);
    }
  }

  // ---------------------------------------------------------------------------------------------
  // The fold and what it emits
  // ---------------------------------------------------------------------------------------------

  /** Row ids in the order they became pending (an id that was cancelled can appear again), and what is pending. */
  datatype Folded = Folded(order: seq<string>, byId: map<string, Coalesced>)

  function Step(f: Folded, e: Entry): Folded
    requires !e.operation.Unknown?
  {
    var previous := if e.rowId in f.byId then Some(f.byId[e.rowId].operation) else None;
    var order := if e.rowId in f.byId then f.order else f.order + [e.rowId];
    match CoalesceOperation(previous, e.operation).value
    case Some(operation) => Folded(order, f.byId[e.rowId := Coalesced(operation, e.row)])
    case None => Folded(order, f.byId - {e.rowId})
  }

  function Fold(log: seq<Entry>): Folded
    requires AllKnown(log)
  {
    if log == [] then Folded([], map[])
    else Step(Fold(log[..|log| - 1]), log[|log| - 1])
  }

  function LocalFilter(localOnly: seq<string>): (filter: Row -> Row)
    ensures KeepsIds(filter)
  {
    row => FilterLocalColumns(row, localOnly)
  }

  ghost predicate KeepsIds(filter: Row -> Row) {
    forall row :: filter(row).id == row.id
  }

  function Prepend(c: Coalesced, id: string, rest: Changes, filter: Row -> Row): Changes {
    match c.row
    case Some(row) => rest.(changedRows := [filter(row)] + rest.changedRows)
    case None =>
      if c.operation.Delete? then rest.(deletedIds := [id] + rest.deletedIds)
      else rest.(skippedMissingPayload := [id] + rest.skippedMissingPayload)
  }

  /** Each pending id is taken out when it is first met, so a later occurrence in `order` emits nothing. */
  function Emit(order: seq<string>, byId: map<string, Coalesced>, filter: Row -> Row): Changes {
    if order == [] then Changes([], [], [])
    else if order[0] !in byId then Emit(order[1..], byId, filter)
    else Prepend(byId[order[0]], order[0], Emit(order[1..], byId - {order[0]}, filter), filter)
  }

  function TableChanges(log: seq<Entry>, filter: Row -> Row): Changes
    requires AllKnown(log)
  {
    var f := Fold(log);
    Emit(f.order, f.byId, filter)
  }

  function Append(a: Changes, b: Changes): Changes {
    Changes(a.changedRows + b.changedRows, a.deletedIds + b.deletedIds,
            a.skippedMissingPayload + b.skippedMissingPayload)
  }

  method FoldRows(rows: seq<Entry>) returns (result: Result<Folded, string>)
    ensures result.Success? <==> AllKnown(rows)
    ensures result.Success? ==> result.value == Fold(rows)
  {
    var order: seq<string> := [];
    var byId: map<string, Coalesced> := map[];
    for i := 0 to |rows|
      invariant AllKnown(rows[..i])
      invariant Fold(rows[..i]) == Folded(order, byId)
    {
      var item := rows[i];
      assert rows[..i + 1][..i] == rows[..i];
      if item.rowId !in byId {
        order := order + [item.rowId];
      }
      var previous := if item.rowId in byId then Some(byId[item.rowId].operation) else None;
      var coalesced := CoalesceOperation(previous, item.operation);
      if coalesced.Failure? {
        assert item in rows;
        return Failure(coalesced.error);
      }
      match coalesced.value {
        case Some(operation) => byId := byId[item.rowId := Coalesced(operation, item.row)];
        case None => byId := byId - {item.rowId};
      }
    }
    assert rows[..|rows|] == rows;
    return Success(Folded(order, byId));
  }

  method EmitChanges(folded: Folded, filter: Row -> Row) returns (changes: Changes)
    ensures changes == Emit(folded.order, folded.byId, filter)
  {
    var order, byId := folded.order, folded.byId;
    changes := Changes([], [], []);
    for i := 0 to |order|
      invariant Append(changes, Emit(order[i..], byId, filter)) == Emit(order, folded.byId, filter)
    {
      EmitStep(changes, order, i, byId, filter);
      if order[i] in byId {
        var entry := byId[order[i]];
        byId := byId - {order[i]};
        changes := AppendOne(changes, entry, order[i], filter);
      }
    }
  }

  /** What the loop does with a pending row that it takes out. */
  method AppendOne(changes: Changes, entry: Coalesced, id: string, filter: Row -> Row) returns (next: Changes)
    ensures next == Append(changes, Prepend(entry, id, Changes([], [], []), filter))
  {
    match entry.row {
      case Some(row) =>
        return changes.(changedRows := changes.changedRows + [filter(row)]);
      case None =>
        if entry.operation.Delete? {
          return changes.(deletedIds := changes.deletedIds + [id]);
        }
        return changes.(skippedMissingPayload := changes.skippedMissingPayload + [id]);
    }
  }

  lemma EmitStep(changes: Changes, order: seq<string>, i: nat, byId: map<string, Coalesced>, filter: Row -> Row)
    requires i < |order|
    ensures Append(changes, Emit(order[i..], byId, filter)) ==
      if order[i] !in byId then Append(changes, Emit(order[i + 1..], byId, filter))
      else Append(Append(changes, Prepend(byId[order[i]], order[i], Changes([], [], []), filter)),
                  Emit(order[i + 1..], byId - {order[i]}, filter))
  {
    assert order[i..][1..] == order[i + 1..];
    if order[i] in byId {
      PrependAppends(changes, byId[order[i]], order[i], Emit(order[i + 1..], byId - {order[i]}, filter), filter);
    }
  }

  method OutboxRowsToTableChanges(rows: seq<Entry>, localOnly: seq<string>) returns (result: Result<Changes, string>)
    ensures result.Success? <==> AllKnown(rows)
    ensures result.Success? ==> result.value == TableChanges(rows, LocalFilter(localOnly))
  {
    var folded := FoldRows(rows);
    if folded.Failure? {
      return Failure(folded.error);
    }
    var changes := EmitChanges(folded.value, LocalFilter(localOnly));
    return Success(changes);
  }

  lemma PrependAppends(a: Changes, c: Coalesced, id: string, rest: Changes, filter: Row -> Row)
    ensures Append(a, Prepend(c, id, rest, filter))
         == Append(Append(a, Prepend(c, id, Changes([], [], []), filter)), rest)
  {
  }

  // ---------------------------------------------------------------------------------------------
  // Each row is emitted at most once
  // ---------------------------------------------------------------------------------------------

  ghost predicate Touched(log: seq<Entry>, id: string) {
    exists e :: e in log && e.rowId == id
  }

  function IdsOf(rows: seq<Row>): seq<string> {
    seq(|rows|, i requires 0 <= i < |rows| => rows[i].id)
  }

  function EmittedIds(c: Changes): multiset<string> {
    multiset(IdsOf(c.changedRows)) + multiset(c.deletedIds) + multiset(c.skippedMissingPayload)
  }

  ghost predicate RowsMatchIds(byId: map<string, Coalesced>) {
    forall id :: id in byId && byId[id].row.Some? ==> byId[id].row.value.id == id
  }

  /** The row read for an entry is the row the entry names (the join of schema.rs, line 173). */
  ghost predicate Joined(log: seq<Entry>) {
    forall e :: e in log && e.row.Some? ==> e.row.value.id == e.rowId
  }

  lemma {:induction false} FoldJoined(log: seq<Entry>)
    requires AllKnown(log) && Joined(log)
    ensures RowsMatchIds(Fold(log).byId)
    ensures forall id :: id in Fold(log).byId ==> id in Fold(log).order
    ensures forall id :: id in Fold(log).order <==> Touched(log, id)
  {
    if log != [] {
      FoldJoined(log[..|log| - 1]);
      assert log == log[..|log| - 1] + [log[|log| - 1]];
    }
  }

  lemma PrependIds(c: Coalesced, id: string, rest: Changes, filter: Row -> Row)
    requires KeepsIds(filter) && (c.row.Some? ==> c.row.value.id == id)
    ensures EmittedIds(Prepend(c, id, rest, filter)) == EmittedIds(rest) + multiset{id}
  {
    if c.row.Some? {
      var row := filter(c.row.value);
      assert IdsOf([row] + rest.changedRows) == [id] + IdsOf(rest.changedRows);
    }
  }

  lemma {:induction false} EmitOnce(order: seq<string>, byId: map<string, Coalesced>, filter: Row -> Row)
    requires KeepsIds(filter) && RowsMatchIds(byId)
    ensures forall id :: EmittedIds(Emit(order, byId, filter))[id] == if id in order && id in byId then 1 else 0
    decreases |order|
  {
    if order != [] {
      assert order == [order[0]] + order[1..];
      if order[0] in byId {
        EmitOnce(order[1..], byId - {order[0]}, filter);
        PrependIds(byId[order[0]], order[0], Emit(order[1..], byId - {order[0]}, filter), filter);
      } else {
        EmitOnce(order[1..], byId, filter);
      }
    }
  }

  /** Ids whose entries cancelled out: an insert, perhaps updates, and a delete last. */
  ghost predicate Cancelled(log: seq<Entry>, id: string)
    requires AllKnown(log)
  {
    Touched(log, id) && id !in Fold(log).byId
  }

  ghost predicate Emitted(log: seq<Entry>, id: string)
    requires AllKnown(log)
  {
    Touched(log, id) && !Cancelled(log, id)
  }

  /** Every row named in the log is emitted exactly once, except the cancelled ones, which are not emitted. */
  lemma EachRowOnce(log: seq<Entry>, filter: Row -> Row)
    requires KeepsIds(filter) && AllKnown(log) && Joined(log)
    ensures forall id :: EmittedIds(TableChanges(log, filter))[id] == if Emitted(log, id) then 1 else 0
  {
    FoldJoined(log);
    EmitOnce(Fold(log).order, Fold(log).byId, filter);
  }

  // ---------------------------------------------------------------------------------------------
  // Coalescing preserves meaning
  // ---------------------------------------------------------------------------------------------

  /** Inserts and updates carry their row, deletes carry none. */
  ghost predicate CarriesRows(log: seq<Entry>) {
    forall e :: e in log ==> (e.row.Some? <==> !e.operation.Delete?)
  }

  function ReplayEntry(t: Table, e: Entry, filter: Row -> Row): Table {
    match e.row
    case Some(row) => t[e.rowId := filter(row).columns]
    case None => t - {e.rowId}
  }

  /** The log applied to a table entry by entry. */
  function Replay(t: Table, log: seq<Entry>, filter: Row -> Row): Table {
    if log == [] then t else ReplayEntry(Replay(t, log[..|log| - 1], filter), log[|log| - 1], filter)
  }

  function UpsertAll(t: Table, rows: seq<Row>): Table
    decreases |rows|
  {
    if rows == [] then t else UpsertAll(t[rows[0].id := rows[0].columns], rows[1..])
  }

  /** The changes applied to a table: changed rows first, then deletions. */
  function Apply(t: Table, c: Changes): Table {
    UpsertAll(t, c.changedRows) - (set id | id in c.deletedIds)
  }

  function Lookup(t: Table, id: string): Option<Columns> {
    if id in t then Some(t[id]) else None
  }

  /** What becomes of one id when the pending changes are applied. */
  function Outcome(t: Table, byId: map<string, Coalesced>, id: string, filter: Row -> Row): Option<Columns> {
    if id !in byId then Lookup(t, id)
    else match byId[id].row
      case Some(row) => Some(filter(row).columns)
      case None => if byId[id].operation.Delete? then None else Lookup(t, id)
  }

  lemma {:induction false} UpsertLookup(t: Table, rows: seq<Row>, id: string)
    ensures id !in IdsOf(rows) ==> Lookup(UpsertAll(t, rows), id) == Lookup(t, id)
    decreases |rows|
  {
    if rows != [] {
      assert IdsOf(rows) == [rows[0].id] + IdsOf(rows[1..]);
      UpsertLookup(t[rows[0].id := rows[0].columns], rows[1..], id);
    }
  }

  /** Applying a list of changes from its head on. */
  lemma ApplyPrepend(t: Table, c: Coalesced, head: string, rest: Changes, filter: Row -> Row, id: string)
    requires KeepsIds(filter) && (c.row.Some? ==> c.row.value.id == head)
    ensures id != head ==>
      Lookup(Apply(t, Prepend(c, head, rest, filter)), id) ==
      Lookup(Apply(if c.row.Some? then t[head := filter(c.row.value).columns] else t, rest), id)
    ensures id == head && id !in IdsOf(rest.changedRows) && id !in rest.deletedIds ==>
      Lookup(Apply(t, Prepend(c, head, rest, filter)), id) == Outcome(t, map[head := c], id, filter)
  {
    match c.row
    case Some(row) =>
      var filtered := filter(row);
      assert ([filtered] + rest.changedRows)[1..] == rest.changedRows;
      UpsertLookup(t[head := filtered.columns], rest.changedRows, id);
    case None =>
      UpsertLookup(t, rest.changedRows, id);
  }

  lemma NotEmitted(order: seq<string>, byId: map<string, Coalesced>, filter: Row -> Row, id: string)
    requires KeepsIds(filter) && RowsMatchIds(byId) && id !in byId
    ensures id !in IdsOf(Emit(order, byId, filter).changedRows) && id !in Emit(order, byId, filter).deletedIds
  {
    EmitOnce(order, byId, filter);
    assert id !in EmittedIds(Emit(order, byId, filter));
  }

  lemma {:induction false} EmitOutcome(t: Table, order: seq<string>, byId: map<string, Coalesced>,
                                       filter: Row -> Row, id: string)
    requires KeepsIds(filter) && RowsMatchIds(byId) && (id in byId ==> id in order)
    ensures Lookup(Apply(t, Emit(order, byId, filter)), id) == Outcome(t, byId, id, filter)
    decreases |order|
  {
    if order == [] {
    } else if order[0] !in byId {
      EmitOutcome(t, order[1..], byId, filter, id);
    } else {
      var head, left := order[0], byId - {order[0]};
      ApplyPrepend(t, byId[head], head, Emit(order[1..], left, filter), filter, id);
      if head == id {
        NotEmitted(order[1..], left, filter, id);
      } else {
        var row := byId[head].row;
        EmitOutcome(if row.Some? then t[head := filter(row.value).columns] else t, order[1..], left, filter, id);
      }
    }
  }

  /** A pending change says exactly what replaying leaves; a cancelled row is gone after replaying. */
  ghost predicate Matches(t: Table, f: Folded, now: Table, touched: bool, filter: Row -> Row, id: string) {
    && (id in f.byId ==>
          && touched
          && Lookup(now, id) == Outcome(t, f.byId, id, filter)
          && (f.byId[id].row.None? <==> f.byId[id].operation.Delete?))
    && (id !in f.byId && touched ==> id !in now)
    && (!touched ==> Lookup(now, id) == Lookup(t, id))
  }

  lemma StepMatches(t: Table, f: Folded, now: Table, touched: bool, filter: Row -> Row, id: string, e: Entry)
    requires Matches(t, f, now, touched, filter, id)
    requires !e.operation.Unknown? && (e.row.Some? <==> !e.operation.Delete?)
    ensures Matches(t, Step(f, e), ReplayEntry(now, e, filter), touched || e.rowId == id, filter, id)
  {
  }

  lemma {:induction false} FoldMatchesReplay(t: Table, log: seq<Entry>, filter: Row -> Row, id: string)
    requires AllKnown(log) && CarriesRows(log)
    ensures Matches(t, Fold(log), Replay(t, log, filter), Touched(log, id), filter, id)
  {
    if log != [] {
      var rest, e := log[..|log| - 1], log[|log| - 1];
      assert log == rest + [e];
      assert Touched(log, id) <==> Touched(rest, id) || e.rowId == id;
      FoldMatchesReplay(t, rest, filter, id);
      StepMatches(t, Fold(rest), Replay(t, rest, filter), Touched(rest, id), filter, id, e);
    }
  }

  /**
   The emitted changes have the same effect on a table as the log they stand for exactly when no cancelled
   row was in the table to begin with.
   */
  lemma CoalescingPreservesMeaning(t: Table, log: seq<Entry>, filter: Row -> Row)
    requires KeepsIds(filter) && AllKnown(log) && Joined(log) && CarriesRows(log)
    ensures Apply(t, TableChanges(log, filter)) == Replay(t, log, filter)
      <==> forall id :: Cancelled(log, id) ==> id !in t
  {
    var f := Fold(log);
    var applied, replayed := Apply(t, TableChanges(log, filter)), Replay(t, log, filter);
    FoldJoined(log);
    forall id ensures Lookup(applied, id) == Outcome(t, f.byId, id, filter) {
      EmitOutcome(t, f.order, f.byId, filter, id);
    }
    forall id
      ensures Cancelled(log, id) ==> Lookup(applied, id) == Lookup(t, id) && Lookup(replayed, id) == None
      ensures !Cancelled(log, id) ==> Lookup(applied, id) == Lookup(replayed, id)
    {
      FoldMatchesReplay(t, log, filter, id);
    }
    if forall id :: Cancelled(log, id) ==> id !in t {
      SameLookups(applied, replayed);
    }
  }

  lemma SameLookups(a: Table, b: Table)
    requires forall id :: Lookup(a, id) == Lookup(b, id)
    ensures a == b
  {
    forall id | id in a ensures id in b && a[id] == b[id] { assert Lookup(a, id) == Lookup(b, id); }
    forall id | id in b ensures id in a { assert Lookup(a, id) == Lookup(b, id); }
  }

  /** Inserts name absent rows; updates and deletes name present ones. */
  ghost predicate WellFormedHistory(t: Table, log: seq<Entry>, filter: Row -> Row) {
    log == [] ||
    (WellFormedHistory(t, log[..|log| - 1], filter)
     && (log[|log| - 1].operation.Insert? <==> log[|log| - 1].rowId !in Replay(t, log[..|log| - 1], filter)))
  }

  /** In a well-formed history what is pending tells whether the row was, and whether it now is, in the table. */
  ghost predicate Tracks(t: Table, f: Folded, now: Table, id: string) {
    if id in f.byId then
      && (f.byId[id].operation.Insert? <==> id !in t)
      && (f.byId[id].operation.Delete? <==> id !in now)
    else id in t <==> id in now
  }

  lemma StepTracks(t: Table, f: Folded, now: Table, filter: Row -> Row, id: string, e: Entry)
    requires Tracks(t, f, now, id)
    requires !e.operation.Unknown? && (e.row.Some? <==> !e.operation.Delete?)
    requires e.operation.Insert? <==> e.rowId !in now
    ensures Tracks(t, Step(f, e), ReplayEntry(now, e, filter), id)
  {
  }

  lemma KnownSplits(log: seq<Entry>)
    requires AllKnown(log) && CarriesRows(log) && log != []
    ensures AllKnown(log[..|log| - 1]) && CarriesRows(log[..|log| - 1])
    ensures var e := log[|log| - 1]; !e.operation.Unknown? && (e.row.Some? <==> !e.operation.Delete?)
  {
  }

  lemma {:induction false} WellFormedFold(t: Table, log: seq<Entry>, filter: Row -> Row, id: string)
    requires AllKnown(log) && CarriesRows(log) && WellFormedHistory(t, log, filter)
    ensures Tracks(t, Fold(log), Replay(t, log, filter), id)
  {
    if log != [] {
      var rest, e := log[..|log| - 1], log[|log| - 1];
      KnownSplits(log);
      WellFormedFold(t, rest, filter, id);
      StepTracks(t, Fold(rest), Replay(t, rest, filter), filter, id, e);
    }
  }

  /** For every well-formed history the emitted changes have the same effect as the log. */
  lemma WellFormedHistoriesCoalesce(t: Table, log: seq<Entry>, filter: Row -> Row)
    requires KeepsIds(filter) && AllKnown(log) && Joined(log) && CarriesRows(log) && WellFormedHistory(t, log, filter)
    ensures Apply(t, TableChanges(log, filter)) == Replay(t, log, filter)
  {
    forall id | Cancelled(log, id) ensures id !in t {
      WellFormedFold(t, log, filter, id);
      FoldMatchesReplay(t, log, filter, id);
    }
    CoalescingPreservesMeaning(t, log, filter);
  }

  /** An insert of a row that the table already has, then its delete, is dropped: the row stays. */
  lemma CancelledRowSurvives(columns: Columns, filter: Row -> Row)
    requires KeepsIds(filter)
    ensures var log := [Entry(Insert, "a", Some(Row("a", columns))), Entry(Delete, "a", None)];
      AllKnown(log) && Joined(log) && CarriesRows(log)
      && Apply(map["a" := columns], TableChanges(log, filter)) != Replay(map["a" := columns], log, filter)
  {
    var log := [Entry(Insert, "a", Some(Row("a", columns))), Entry(Delete, "a", None)];
    assert log[..1] == [log[0]] && log[..1][..0] == [];
    assert Fold(log[..1]) == Step(Fold([]), log[0]);
    assert Fold(log) == Step(Fold(log[..1]), log[1]);
    assert Cancelled(log, "a") by { assert log[0] in log && log[0].rowId == "a"; }
    CoalescingPreservesMeaning(map["a" := columns], log, filter);
  }
}
