/**
 Foreign-key order of the synced tables (packages/baresync/src/generator/fk-order.ts).
 A graph has one node for each synced table and an edge from a table to each table it refers to;
 a depth-first sort puts every table after the tables it depends on, or reports why it cannot.
 */
module FkOrder {
  import opened Wrappers
  import opened Sequences

  /** One foreign key: the table its first foreign column belongs to, and the nullability of its columns. */
  datatype Reference = Reference(target: Option<string>, notNull: seq<bool>)

  datatype Table = Table(name: string, references: seq<Reference>)

  datatype OrderError =
    | MissingTarget(table: string)
    | RequiredExternal(table: string, target: string)
    | Cycle(table: string)
    | MissingNode(table: string)

  /** Nodes and dependency sets in insertion order, as a JavaScript Map of Sets keeps them. */
  datatype Graph = Graph(nodes: seq<string>, dependencies: map<string, seq<string>>)

  datatype TableOrder = TableOrder(upsertOrder: seq<string>, deleteOrder: seq<string>)

  ghost predicate WellFormed(g: Graph) {
    && NoDuplicates(g.nodes)
    && g.dependencies.Keys == Elements(g.nodes)
  }

  /** `a` depends on `b`. */
  ghost predicate Edge(g: Graph, a: string, b: string) {
    a in g.dependencies && b in g.dependencies[a]
  }

  ghost predicate IsPath(g: Graph, p: seq<string>) {
    forall i :: 0 <= i < |p| - 1 ==> Edge(g, p[i], p[i + 1])
  }

  /** Some nonempty walk along dependencies leads from `n` back to `n`. */
  ghost predicate OnCycle(g: Graph, n: string) {
    exists p: seq<string> :: |p| >= 2 && p[0] == n && p[|p| - 1] == n && IsPath(g, p)
  }

  ghost predicate Acyclic(g: Graph) {
    forall n :: !OnCycle(g, n)
  }

  /** Every dependency has a node of its own. */
  ghost predicate Closed(g: Graph) {
    forall a, b :: Edge(g, a, b) ==> b in g.dependencies
  }

  /** Every table stands after all of its dependencies. */
  ghost predicate DependenciesFirst(g: Graph, order: seq<string>) {
    forall i, d :: 0 <= i < |order| && Edge(g, order[i], d) ==> d in order[..i]
  }

  /** Every table stands before all of its dependencies. */
  ghost predicate DependentsFirst(g: Graph, order: seq<string>) {
    forall i, d :: 0 <= i < |order| && Edge(g, order[i], d) ==> d in order[i + 1..]
  }

  ghost predicate IsUpsertOrder(g: Graph, order: seq<string>) {
    && NoDuplicates(order)
    && Elements(order) == Elements(g.nodes)
    && DependenciesFirst(g, order)
  }

  // ---------------------------------------------------------------------------------------------
  // An order exists only for closed, acyclic graphs
  // ---------------------------------------------------------------------------------------------

  /** Along a path, positions in an upsert order go strictly down. */
  lemma {:induction false} PathDescends(g: Graph, order: seq<string>, p: seq<string>, i: nat) returns (j: nat)
    requires DependenciesFirst(g, order) && IsPath(g, p)
    requires |p| >= 2 && i < |order| && order[i] == p[0]
    ensures j < i && order[j] == p[|p| - 1]
    decreases |p|
  {
    assert Edge(g, p[0], p[1]);
    j :| 0 <= j < i && order[j] == p[1];
    if |p| > 2 {
      var rest := p[1..];
      assert IsPath(g, rest) by {
        forall k | 0 <= k < |rest| - 1 ensures Edge(g, rest[k], rest[k + 1]) {
          assert Edge(g, p[k + 1], p[k + 2]);
        }
      }
      j := PathDescends(g, order, rest, j);
    }
  }

  lemma OrderedGraphIsAcyclic(g: Graph, order: seq<string>)
    requires WellFormed(g) && IsUpsertOrder(g, order)
    ensures Closed(g) && Acyclic(g)
  {
    forall a, b | Edge(g, a, b) ensures b in g.dependencies {
      assert a in Elements(order);
      var i :| 0 <= i < |order| && order[i] == a;
      assert b in Elements(order);
    }
    forall n | OnCycle(g, n) ensures false {
      var p: seq<string> :| |p| >= 2 && p[0] == n && p[|p| - 1] == n && IsPath(g, p);
      assert Edge(g, p[0], p[1]);
      assert n in Elements(order);
      var i: nat :| i < |order| && order[i] == n;
      var j := PathDescends(g, order, p, i);
    }
  }

  // ---------------------------------------------------------------------------------------------
  // Depth-first sort
  // ---------------------------------------------------------------------------------------------

  /** The state that the nested `visit` of `topologicalSort` mutates. */
  class Sorter {
    const graph: Graph
    var visiting: set<string>
    var visited: set<string>
    var ordered: seq<string>

    constructor (g: Graph)
      requires WellFormed(g)
      ensures graph == g && Valid() && visiting == {} && ordered == []
    {
      graph := g;
      visiting, visited, ordered := {}, {}, [];
    }

    ghost predicate Valid()
      reads this
    {
      && WellFormed(graph)
      && visited == Elements(ordered)
      && visited <= graph.dependencies.Keys
      && visiting <= graph.dependencies.Keys
      && visiting !! visited
      && NoDuplicates(ordered)
      && DependenciesFirst(graph, ordered)
    }

    /** `stack` is the chain of callers: the tables being visited, each depending on the next. */
    method Visit(name: string, ghost stack: seq<string>) returns (error: Option<OrderError>)
      requires Valid() && Elements(stack) == visiting && IsPath(graph, stack + [name])
      modifies this
      ensures old(visited) <= visited
      ensures error.None? ==> Valid() && visiting == old(visiting) && name in visited
      ensures error.Some? ==> match error.value {
        case Cycle(n) => OnCycle(graph, n)
        case MissingNode(n) => n !in graph.dependencies && (n == name || exists a :: Edge(graph, a, n))
        case _ => false
      }
      decreases graph.dependencies.Keys - visiting
    {
      if name in visited {
        return None;
      }
      if name in visiting {
        CycleOf(graph, stack, name);
        return Some(Cycle(name));
      }
      visiting := visiting + {name};
      if name !in graph.dependencies {
        return Some(MissingNode(name));
      }
      var dependencies := graph.dependencies[name];
      ghost var inner := stack + [name];
      assert Elements(inner) == visiting;
      for i := 0 to |dependencies|
        invariant Valid() && visiting == old(visiting) + {name}
        invariant old(visited) <= visited
        invariant forall d :: d in dependencies[..i] ==> d in visited
      {
        assert IsPath(graph, inner + [dependencies[i]]) by {
          assert Edge(graph, name, dependencies[i]);
          ExtendPath(graph, inner, dependencies[i]);
        }
        var failed := Visit(dependencies[i], inner);
        if failed.Some? {
          if failed.value.MissingNode? && failed.value.table == dependencies[i] {
            assert Edge(graph, name, dependencies[i]);
          }
          return failed;
        }
      }
      assert dependencies[..|dependencies|] == dependencies;
      AppendKeepsOrder(graph, ordered, name);
      visiting := visiting - {name};
      visited := visited + {name};
      ordered := ordered + [name];
      return None;
    }
  }

  lemma AppendKeepsOrder(g: Graph, order: seq<string>, name: string)
    requires DependenciesFirst(g, order)
    requires forall d :: Edge(g, name, d) ==> d in order
    ensures DependenciesFirst(g, order + [name])
  {
    var longer := order + [name];
    forall i, d | 0 <= i < |longer| && Edge(g, longer[i], d) ensures d in longer[..i] {
      if i < |order| {
        assert longer[..i] == order[..i];
      } else {
        assert longer[..i] == order;
      }
    }
  }

  lemma ExtendPath(g: Graph, p: seq<string>, d: string)
    requires IsPath(g, p)
    requires |p| > 0 ==> Edge(g, p[|p| - 1], d)
    ensures IsPath(g, p + [d])
  {
  }

  /** A table met again while it is being visited closes a cycle through the stack. */
  lemma CycleOf(g: Graph, stack: seq<string>, name: string)
    requires IsPath(g, stack + [name]) && name in stack
    ensures OnCycle(g, name)
  {
    var i :| 0 <= i < |stack| && stack[i] == name;
    var whole := stack + [name];
    var p := whole[i..];
    forall k | 0 <= k < |p| - 1 ensures Edge(g, p[k], p[k + 1]) {
      assert Edge(g, whole[i + k], whole[i + k + 1]);
    }
    assert p[0] == name && p[|p| - 1] == name && IsPath(g, p);
  }

  /** Succeeds exactly on the closed, acyclic graphs; every failure names a real culprit. */
  method TopologicalSort(g: Graph) returns (result: Result<seq<string>, OrderError>)
    requires WellFormed(g)
    ensures result.Success? <==> Closed(g) && Acyclic(g)
    ensures result.Success? ==> IsUpsertOrder(g, result.value)
    ensures result.Failure? ==> match result.error {
      case Cycle(n) => OnCycle(g, n)
      case MissingNode(n) => n !in g.dependencies && exists a :: Edge(g, a, n)
      case _ => false
    }
  {
    var sorter := new Sorter(g);
    for i := 0 to |g.nodes|
      invariant sorter.Valid() && sorter.graph == g && sorter.visiting == {}
      invariant forall n :: n in g.nodes[..i] ==> n in sorter.visited
    {
      var failed := sorter.Visit(g.nodes[i], []);
      if failed.Some? {
        assert g.nodes[i] in Elements(g.nodes);
        return Failure(failed.value);
      }
    }
    assert g.nodes[..|g.nodes|] == g.nodes;
    OrderedGraphIsAcyclic(g, sorter.ordered);
    return Success(sorter.ordered);
  }

  // ---------------------------------------------------------------------------------------------
  // From a schema to its order
  // ---------------------------------------------------------------------------------------------

  predicate RefersTo(references: seq<Reference>, target: string) {
    exists r :: r in references && r.target == Some(target)
  }

  /** A reference the order may not ignore: no target, or a required column into a table that is not synced. */
  predicate Unsound(r: Reference, synced: set<string>) {
    r.target.None? || (r.target.value !in synced && exists c :: c in r.notNull && c)
  }

  ghost predicate SoundReferences(tables: seq<Table>, synced: set<string>) {
    forall t, r :: t in tables && t.name in synced && r in t.references ==> !Unsound(r, synced)
  }

  /** The nodes are the synced tables; the edges are their references to other synced tables. */
  ghost predicate IsGraphOf(g: Graph, tables: seq<Table>, synced: set<string>) {
    && WellFormed(g)
    && g.dependencies.Keys == (set t | t in tables && t.name in synced :: t.name)
    && EdgesOf(g, tables, synced)
  }

  ghost predicate EdgesOf(g: Graph, tables: seq<Table>, synced: set<string>) {
    forall a, b :: Edge(g, a, b) <==>
      a in synced && b in synced && a != b && exists t :: t in tables && t.name == a && RefersTo(t.references, b)
  }

  method AddReferences(table: Table, synced: set<string>, dependencies: seq<string>)
    returns (result: Result<seq<string>, OrderError>)
    ensures result.Success? <==> forall r :: r in table.references ==> !Unsound(r, synced)
    ensures result.Success? ==> forall b :: b in result.value <==>
      b in dependencies || (b in synced && b != table.name && RefersTo(table.references, b))
    ensures result.Failure? ==> result.error.MissingTarget? || result.error.RequiredExternal?
  {
    var all := dependencies;
    for i := 0 to |table.references|
      invariant forall r :: r in table.references[..i] ==> !Unsound(r, synced)
      invariant forall b :: b in all <==>
        b in dependencies || (b in synced && b != table.name && RefersTo(table.references[..i], b))
    {
      var reference := table.references[i];
      assert table.references[..i + 1] == table.references[..i] + [reference];
      assert reference in table.references;
      if reference.target.None? {
        return Failure(MissingTarget(table.name));
      }
      var target := reference.target.value;
      if target !in synced {
        if exists c :: c in reference.notNull && c {
          return Failure(RequiredExternal(table.name, target));
        }
      } else if target != table.name && target !in all {
        all := all + [target];
      }
    }
    assert table.references[..|table.references|] == table.references;
    return Success(all);
  }

  method BuildGraph(tables: seq<Table>, synced: set<string>) returns (result: Result<Graph, OrderError>)
    ensures result.Success? <==> SoundReferences(tables, synced)
    ensures result.Success? ==> IsGraphOf(result.value, tables, synced)
    ensures result.Failure? ==> result.error.MissingTarget? || result.error.RequiredExternal?
  {
    var nodes: seq<string> := [];
    var dependencies: map<string, seq<string>> := map[];
    for i := 0 to |tables|
      invariant NoDuplicates(nodes) && dependencies.Keys == Elements(nodes)
      invariant dependencies.Keys == set t | t in tables[..i] && t.name in synced :: t.name
      invariant forall n :: n in dependencies ==> dependencies[n] == []
    {
      assert tables[..i + 1] == tables[..i] + [tables[i]];
      var name := tables[i].name;
      if name in synced {
        if name !in dependencies {
          nodes := nodes + [name];
        }
        dependencies := dependencies[name := []];
      }
    }
    assert tables[..|tables|] == tables;
    for i := 0 to |tables|
      invariant WellFormed(Graph(nodes, dependencies))
      invariant dependencies.Keys == set t | t in tables && t.name in synced :: t.name
      invariant SoundReferences(tables[..i], synced)
      invariant EdgesOf(Graph(nodes, dependencies), tables[..i], synced)
    {
      var table := tables[i];
      assert tables[..i + 1] == tables[..i] + [table];
      if table.name in dependencies {
        var extended := AddReferences(table, synced, dependencies[table.name]);
        if extended.Failure? {
          assert table in tables;
          return Failure(extended.error);
        }
        ghost var before := Graph(nodes, dependencies);
        dependencies := dependencies[table.name := extended.value];
        EdgesGrow(before, Graph(nodes, dependencies), tables[..i], table, synced);
      } else {
        assert table.name !in synced;
      }
    }
    return Success(Graph(nodes, dependencies));
  }

  lemma EdgesGrow(before: Graph, after: Graph, tables: seq<Table>, table: Table, synced: set<string>)
    requires EdgesOf(before, tables, synced) && table.name in synced
    requires table.name in before.dependencies && table.name in after.dependencies
    requires after.dependencies == before.dependencies[table.name := after.dependencies[table.name]]
    requires forall b :: b in after.dependencies[table.name] <==>
      b in before.dependencies[table.name] || (b in synced && b != table.name && RefersTo(table.references, b))
    ensures EdgesOf(after, tables + [table], synced)
  {
    forall a, b
      ensures Edge(after, a, b) <==>
        a in synced && b in synced && a != b
        && exists t :: t in tables + [table] && t.name == a && RefersTo(t.references, b)
    {
      assert Edge(after, a, b) <==>
        (Edge(before, a, b) || (a == table.name && b in synced && b != a && RefersTo(table.references, b)));
      if a == table.name && RefersTo(table.references, b) {
        assert table in tables + [table];
      }
      if t :| t in tables && t.name == a && RefersTo(t.references, b) {
        assert t in tables + [table];
      }
    }
  }

  /** Two graphs of one schema have the same edges, so they are orderable together. */
  lemma GraphsAgree(g: Graph, h: Graph, tables: seq<Table>, synced: set<string>)
    requires IsGraphOf(g, tables, synced) && IsGraphOf(h, tables, synced)
    requires Closed(g) && Acyclic(g)
    ensures Closed(h) && Acyclic(h)
  {
    assert forall a, b :: Edge(g, a, b) <==> Edge(h, a, b);
    forall n | OnCycle(h, n) ensures false {
      var p: seq<string> :| |p| >= 2 && p[0] == n && p[|p| - 1] == n && IsPath(h, p);
      assert IsPath(g, p);
      assert OnCycle(g, n);
    }
  }

  function Reverse<T>(s: seq<T>): (r: seq<T>)
    ensures |r| == |s|
    ensures forall i :: 0 <= i < |s| ==> r[i] == s[|s| - 1 - i]
  {
    seq(|s|, i requires 0 <= i < |s| => s[|s| - 1 - i])
  }

  lemma ReversedOrder(g: Graph, order: seq<string>)
    requires IsUpsertOrder(g, order)
    ensures DependentsFirst(g, Reverse(order)) && Elements(Reverse(order)) == Elements(order)
  {
    var r := Reverse(order);
    forall i, d | 0 <= i < |r| && Edge(g, r[i], d) ensures d in r[i + 1..] {
      var k := |r| - 1 - i;
      assert order[k] == r[i];
      var j :| 0 <= j < k && order[j] == d;
      assert r[i + 1..][|r| - 1 - j - (i + 1)] == d;
    }
    forall x | x in order ensures x in r {
      var j :| 0 <= j < |order| && order[j] == x;
      assert r[|r| - 1 - j] == x;
    }
  }

  /**
   An order exists exactly when every reference is sound and the references among synced tables
   (a table's references to itself aside) lead to synced tables and form no cycle.
   */
  method ComputeSyncTableOrder(tables: seq<Table>, syncedNames: Option<seq<string>>)
    returns (result: Result<TableOrder, OrderError>)
    ensures var synced := SyncedNames(tables, syncedNames);
      result.Success? <==>
        SoundReferences(tables, synced)
        && exists g :: IsGraphOf(g, tables, synced) && Closed(g) && Acyclic(g)
    ensures result.Success? ==>
      exists g :: IsGraphOf(g, tables, SyncedNames(tables, syncedNames))
        && IsUpsertOrder(g, result.value.upsertOrder)
        && DependentsFirst(g, result.value.deleteOrder)
        && result.value.deleteOrder == Reverse(result.value.upsertOrder)
  {
    var synced := SyncedNames(tables, syncedNames);
    var built := BuildGraph(tables, synced);
    if built.Failure? {
      return Failure(built.error);
    }
    var g := built.value;
    var sorted := TopologicalSort(g);
    if sorted.Failure? {
      forall h | IsGraphOf(h, tables, synced) && Closed(h) && Acyclic(h) ensures false {
        GraphsAgree(h, g, tables, synced);
      }
      return Failure(sorted.error);
    }
    ReversedOrder(g, sorted.value);
    return Success(TableOrder(sorted.value, Reverse(sorted.value)));
  }

  function SyncedNames(tables: seq<Table>, syncedNames: Option<seq<string>>): set<string> {
    match syncedNames
    case Some(names) => Elements(names)
    case None => set t | t in tables :: t.name
  }
}
