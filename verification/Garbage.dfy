/**
 Garbage collection under foreign keys (crates/baresync-core/src/gc.rs, lines 4-24; the connection has foreign keys
 enabled, crates/baresync-core/src/db_worker.rs, line 221). One statement a table deletes its synced tombstones; it
 fails if a row that stays refers to one of them, and then the collection stops.
 */
module Garbage {
  import opened Wrappers
  import opened Sequences
  import Schema
  import opened DbWorker
  import opened Store

  /** The synced tombstones of a table. */
  function GarbageOf(db: Database, table: string): set<Key> {
    set k | k in db && k.table == table && db[k].deletedAt.Some? && db[k].isSynced
  }

  /** Deletes a table's garbage, unless that leaves a reference dangling. */
  function DeleteFrom(refs: References, db: Database, table: string): Option<Database> {
    var next := db - GarbageOf(db, table);
    if Integrity(refs, next) then Some(next) else None
  }

  function DeleteOn(refs: References): (exec: Execution<Database, string>)
    ensures forall db, t :: exec(db, t) == DeleteFrom(refs, db, t)
  {
    (db, t) => DeleteFrom(refs, db, t)
  }

  lemma DeletingShrinks(refs: References, db: Database, table: string)
    requires DeleteFrom(refs, db, table).Some?
    ensures |DeleteFrom(refs, db, table).value| <= |db|
  {
    var next := db - GarbageOf(db, table);
    assert next.Keys == db.Keys - GarbageOf(db, table);
  }

  /** Goes through once every table in turn does; a failure keeps what was deleted before it. */
  method RunGarbageCollection(ghost refs: References, connection: Connection<Database, string>, tables: seq<string>)
    returns (ok: bool, totalDeleted: nat)
    requires connection.exec == DeleteOn(refs)
    modifies connection
    ensures connection.open == old(connection.open)
    ensures ok <==> RunAll(DeleteOn(refs), old(connection.db), tables).Some?
    ensures ok ==> connection.db == RunAll(DeleteOn(refs), old(connection.db), tables).value
    ensures totalDeleted == |old(connection.db)| - |connection.db|
  {
    totalDeleted := 0;
    for i := 0 to |tables|
      invariant connection.open == old(connection.open)
      invariant RunAll(DeleteOn(refs), old(connection.db), tables) == RunAll(DeleteOn(refs), connection.db, tables[i..])
      invariant totalDeleted == |old(connection.db)| - |connection.db|
    {
      assert tables[i..][1..] == tables[i + 1..];
      var before := connection.db;
      var executed := connection.Execute(tables[i]);
      if !executed {
        return false, totalDeleted;
      }
      DeletingShrinks(refs, before, tables[i]);
      totalDeleted := totalDeleted + (|before| - |connection.db|);
    }
    return true, totalDeleted;
  }

  // ---------------------------------------------------------------------------------------------
  // When it goes through
  // ---------------------------------------------------------------------------------------------

  /** Row `j` has a foreign key to row `k`. */
  ghost predicate Refers(refs: References, db: Database, j: Key, k: Key) {
    j in db && exists fk :: fk in RefsOf(refs, j.table) && Parent(fk, db[j].content) == Some(k)
  }

  /** `j` is garbage of one of the first tables up to `i`. */
  ghost predicate GoneBy(db: Database, tables: seq<string>, i: nat, j: Key)
    requires i < |tables|
  {
    exists m :: 0 <= m <= i && j in GarbageOf(db, tables[m])
  }

  /** Every row that refers to garbage of table `i` is itself garbage by then. */
  ghost predicate FreeAt(refs: References, db: Database, tables: seq<string>, i: nat)
    requires i < |tables|
  {
    forall j, k :: k in GarbageOf(db, tables[i]) && Refers(refs, db, j, k) ==> GoneBy(db, tables, i, j)
  }

  lemma FirstDelete(refs: References, db: Database, tables: seq<string>)
    requires Integrity(refs, db) && tables != []
    ensures Integrity(refs, db - GarbageOf(db, tables[0])) <==> FreeAt(refs, db, tables, 0)
  {
    var gone := GarbageOf(db, tables[0]);
    var next := db - gone;
    if FreeAt(refs, db, tables, 0) {
      forall j | j in next ensures ParentsIn(refs, next.Keys, j.table, next[j].content) {
        assert ParentsIn(refs, db.Keys, j.table, db[j].content);
        forall fk | fk in RefsOf(refs, j.table) && Parent(fk, db[j].content).Some?
          ensures Parent(fk, db[j].content).value in next.Keys
        {
          assert Refers(refs, db, j, Parent(fk, db[j].content).value);
        }
      }
    }
    if Integrity(refs, next) {
      forall j, k | k in gone && Refers(refs, db, j, k) ensures GoneBy(db, tables, 0, j) {
        assert j in next ==> ParentsIn(refs, next.Keys, j.table, next[j].content);
      }
    }
  }

  lemma SameGarbage(db: Database, table: string, other: string)
    requires table != other
    ensures GarbageOf(db - GarbageOf(db, other), table) == GarbageOf(db, table)
  {
  }

  lemma GoneByTail(db: Database, tables: seq<string>, i: nat, j: Key)
    requires NoDuplicates(tables) && 1 <= i < |tables| && j in db - GarbageOf(db, tables[0])
    ensures GoneBy(db, tables, i, j) <==> GoneBy(db - GarbageOf(db, tables[0]), tables[1..], i - 1, j)
  {
    var next, rest := db - GarbageOf(db, tables[0]), tables[1..];
    if GoneBy(db, tables, i, j) {
      var m :| 0 <= m <= i && j in GarbageOf(db, tables[m]);
      SameGarbage(db, tables[m], tables[0]);
      assert rest[m - 1] == tables[m];
    }
    if GoneBy(next, rest, i - 1, j) {
      var m :| 0 <= m <= i - 1 && j in GarbageOf(next, rest[m]);
      assert rest[m] == tables[m + 1];
      SameGarbage(db, tables[m + 1], tables[0]);
    }
  }

  lemma LaterDelete(refs: References, db: Database, tables: seq<string>, i: nat)
    requires NoDuplicates(tables) && 1 <= i < |tables|
    ensures FreeAt(refs, db, tables, i) <==> FreeAt(refs, db - GarbageOf(db, tables[0]), tables[1..], i - 1)
  {
    var next, rest := db - GarbageOf(db, tables[0]), tables[1..];
    SameGarbage(db, tables[i], tables[0]);
    assert rest[i - 1] == tables[i];
    forall j, k | k in GarbageOf(db, tables[i]) && Refers(refs, db, j, k)
      ensures j !in next ==> GoneBy(db, tables, i, j)
      ensures j in next ==> Refers(refs, next, j, k)
      ensures j in next ==> (GoneBy(db, tables, i, j) <==> GoneBy(next, rest, i - 1, j))
    {
      if j in next {
        GoneByTail(db, tables, i, j);
      } else {
        assert j in GarbageOf(db, tables[0]);
      }
    }
    forall j, k | Refers(refs, next, j, k) ensures Refers(refs, db, j, k) {
    }
  }

  ghost predicate AllFree(refs: References, db: Database, tables: seq<string>) {
    forall i :: 0 <= i < |tables| ==> FreeAt(refs, db, tables, i)
  }

  lemma AllFreeTail(refs: References, db: Database, tables: seq<string>)
    requires NoDuplicates(tables) && tables != []
    ensures AllFree(refs, db, tables) <==>
      FreeAt(refs, db, tables, 0) && AllFree(refs, db - GarbageOf(db, tables[0]), tables[1..])
  {
    var next, rest := db - GarbageOf(db, tables[0]), tables[1..];
    forall i | 0 <= i < |rest| ensures FreeAt(refs, next, rest, i) <==> FreeAt(refs, db, tables, i + 1) {
      LaterDelete(refs, db, tables, i + 1);
    }
    if AllFree(refs, next, rest) && FreeAt(refs, db, tables, 0) {
      forall i | 0 <= i < |tables| ensures FreeAt(refs, db, tables, i) {
        assert i > 0 ==> FreeAt(refs, next, rest, i - 1);
      }
    }
  }

  /**
   Table by table, the collection goes through exactly if whatever refers to a tombstone of a table is a tombstone of
   that table or of an earlier one.
   */
  lemma {:induction false} CollectionGoesThroughIff(refs: References, db: Database, tables: seq<string>)
    requires NoDuplicates(tables) && Integrity(refs, db)
    ensures RunAll(DeleteOn(refs), db, tables).Some? <==> AllFree(refs, db, tables)
    decreases |tables|
  {
    if tables != [] {
      var next, rest := db - GarbageOf(db, tables[0]), tables[1..];
      FirstDelete(refs, db, tables);
      AllFreeTail(refs, db, tables);
      if Integrity(refs, next) {
        CollectionGoesThroughIff(refs, next, rest);
      }
    }
  }

  /** Every table is listed after the tables that refer to it. */
  ghost predicate ChildrenFirst(refs: References, tables: seq<string>) {
    forall a, b, fk ::
      0 <= a < |tables| && 0 <= b < |tables| && fk in RefsOf(refs, tables[b]) && fk.target == tables[a] ==> b <= a
  }

  /** In delete order the collection goes through exactly if no live or unsynced row refers to a synced tombstone. */
  lemma DeleteOrderServesIff(refs: References, db: Database, tables: seq<string>)
    requires NoDuplicates(tables) && ChildrenFirst(refs, tables) && Integrity(refs, db)
    requires forall k :: k in db ==> k.table in tables
    ensures RunAll(DeleteOn(refs), db, tables).Some? <==>
      forall j: Key, k: Key :: k in GarbageOf(db, k.table) && Refers(refs, db, j, k) ==> j in GarbageOf(db, j.table)
  {
    CollectionGoesThroughIff(refs, db, tables);
    if AllFree(refs, db, tables) {
      forall j: Key, k: Key | k in GarbageOf(db, k.table) && Refers(refs, db, j, k)
        ensures j in GarbageOf(db, j.table)
      {
        var i :| 0 <= i < |tables| && tables[i] == k.table;
        assert FreeAt(refs, db, tables, i);
        assert GoneBy(db, tables, i, j);
      }
    }
    if forall j: Key, k: Key :: k in GarbageOf(db, k.table) && Refers(refs, db, j, k) ==> j in GarbageOf(db, j.table) {
      forall i | 0 <= i < |tables| ensures FreeAt(refs, db, tables, i) {
        forall j, k | k in GarbageOf(db, tables[i]) && Refers(refs, db, j, k) ensures GoneBy(db, tables, i, j) {
          var m :| 0 <= m < |tables| && tables[m] == j.table;
          var fk :| fk in RefsOf(refs, j.table) && Parent(fk, db[j].content) == Some(k);
          assert fk in RefsOf(refs, tables[m]) && fk.target == tables[i];
          assert m <= i && j in GarbageOf(db, tables[m]);
        }
      }
    }
  }

  const FAMILY: References := map["children" := [ForeignKey("parent_id", "parents")]]

  /** A deleted parent with a deleted child. */
  function DeletedFamily(at: int): Database {
    map[Key("parents", "p") := LocalRow(map[], at, Some(at), true),
        Key("children", "c") := LocalRow(map["parent_id" := Schema.Text("p")], at, Some(at), true)]
  }

  lemma ChildRefers(at: int)
    ensures Refers(FAMILY, DeletedFamily(at), Key("children", "c"), Key("parents", "p"))
    ensures Integrity(FAMILY, DeletedFamily(at))
  {
    var fk := ForeignKey("parent_id", "parents");
    assert fk in RefsOf(FAMILY, "children");
    assert Parent(fk, DeletedFamily(at)[Key("children", "c")].content) == Some(Key("parents", "p"));
  }

  /** The order that the collection uses, parents first, fails on it. */
  lemma UpsertOrderFails(at: int)
    ensures Integrity(FAMILY, DeletedFamily(at))
    ensures RunAll(DeleteOn(FAMILY), DeletedFamily(at), ["parents", "children"]).None?
  {
    var db, up := DeletedFamily(at), ["parents", "children"];
    ChildRefers(at);
    CollectionGoesThroughIff(FAMILY, db, up);
    assert Key("parents", "p") in GarbageOf(db, up[0]);
    assert !GoneBy(db, up, 0, Key("children", "c"));
    assert !FreeAt(FAMILY, db, up, 0);
  }
}
