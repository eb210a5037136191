/**
 * The circuit (Circuit.py): a graph whose nodes carry components and
 * whose edges record which ports they join. The graph library underneath
 * is reduced to what the circuit code reads from it: the nodes in
 * insertion order, the node-to-component map and the edge tags.
 */
module CircuitModel {
  import opened Wrappers
  import opened Failures
  import opened Sequences
  import opened Headers
  import opened ScatteringTable
  import opened ComponentModel
  import opened Reduction

  /** One element of the `ebunch` that add_edges_from unpacks; extra edge attributes are left out. */
  datatype EdgeRequest = EdgeRequest(u: NodeId, uPort: int, v: NodeId, vPort: int)

  // ---------------------------------------------------------------------
  // Free ports (Circuit.py:60-71)

  /** What FreePorts reads of one component: its port count and its connection lists. */
  datatype PortView = PortView(portsNumber: int, connections: map<int, seq<Link>>)

  /** Every port 1..portsNumber has a connection list. */
  predicate Complete(v: PortView)
  {
    forall p :: 1 <= p <= v.portsNumber ==> p in v.connections
  }

  /** Every node has a complete view. */
  predicate Viewed(nodes: seq<NodeId>, views: map<NodeId, PortView>)
  {
    forall k :: 0 <= k < |nodes| ==> nodes[k] in views && Complete(views[nodes[k]])
  }

  /** The unconnected ports 1..upTo of the component at `node`, ascending. */
  function FreeOfComponent(node: NodeId, v: PortView, upTo: int): seq<FreePort>
    requires Complete(v) && upTo <= (if v.portsNumber < 0 then 0 else v.portsNumber)
    decreases upTo
  {
    if upTo <= 0 then []
    else FreeOfComponent(node, v, upTo - 1) + (if |v.connections[upTo]| < 1 then [(node, upTo)] else [])
  }

  /** The free ports of the first `m` nodes, node by node. */
  function FreeOfNodes(nodes: seq<NodeId>, views: map<NodeId, PortView>, m: nat): seq<FreePort>
    requires m <= |nodes| && Viewed(nodes, views)
  {
    if m == 0 then []
    else
      var v := views[nodes[m - 1]];
      FreeOfNodes(nodes, views, m - 1) + FreeOfComponent(nodes[m - 1], v, v.portsNumber)
  }

  lemma {:induction false} FreeOfComponentMembers(node: NodeId, v: PortView, upTo: int)
    requires Complete(v) && upTo <= (if v.portsNumber < 0 then 0 else v.portsNumber)
    ensures forall x :: x in FreeOfComponent(node, v, upTo) <==>
      x.0 == node && 1 <= x.1 <= upTo && v.connections[x.1] == []
    ensures NoDup(FreeOfComponent(node, v, upTo))
    ensures forall k :: 0 <= k < |FreeOfComponent(node, v, upTo)| ==> FreeOfComponent(node, v, upTo)[k].0 == node
    ensures forall i, j :: 0 <= i < j < |FreeOfComponent(node, v, upTo)| ==>
      FreeOfComponent(node, v, upTo)[i].1 < FreeOfComponent(node, v, upTo)[j].1
    ensures forall k :: 0 <= k < |FreeOfComponent(node, v, upTo)| ==> FreeOfComponent(node, v, upTo)[k].1 <= upTo
    decreases upTo
  {
    if upTo > 0 {
      FreeOfComponentMembers(node, v, upTo - 1);
    }
  }

  /** Free port `x` comes before `y` in the recomputed list: on an earlier node, or on the same node with a lower port. */
  predicate InOrder(nodes: seq<NodeId>, x: FreePort, y: FreePort)
  {
    x.0 in nodes && y.0 in nodes &&
    (IndexOf(nodes, x.0) < IndexOf(nodes, y.0) || (x.0 == y.0 && x.1 < y.1))
  }

  /**
   * The free ports of the first `m` nodes are their unconnected ports, each
   * listed once, node by node in node order and by ascending port within a node.
   */
  lemma {:induction false} FreeOfNodesMembers(nodes: seq<NodeId>, views: map<NodeId, PortView>, m: nat)
    requires m <= |nodes| && NoDup(nodes) && Viewed(nodes, views)
    ensures forall x :: x in FreeOfNodes(nodes, views, m) <==>
      x.0 in nodes[..m] && x.0 in views && 1 <= x.1 <= views[x.0].portsNumber &&
      x.1 in views[x.0].connections && views[x.0].connections[x.1] == []
    ensures NoDup(FreeOfNodes(nodes, views, m))
    ensures forall k :: 0 <= k < |FreeOfNodes(nodes, views, m)| ==> FreeOfNodes(nodes, views, m)[k].0 in nodes[..m]
    ensures forall i, j :: 0 <= i < j < |FreeOfNodes(nodes, views, m)| ==>
      InOrder(nodes, FreeOfNodes(nodes, views, m)[i], FreeOfNodes(nodes, views, m)[j])
  {
    if m > 0 {
      var node := nodes[m - 1];
      var v := views[node];
      var front := FreeOfNodes(nodes, views, m - 1);
      var last := FreeOfComponent(node, v, v.portsNumber);
      FreeOfNodesMembers(nodes, views, m - 1);
      FreeOfComponentMembers(node, v, v.portsNumber);
      assert nodes[..m] == nodes[..m - 1] + [node];
      assert node !in nodes[..m - 1] by {
        assert forall j :: 0 <= j < m - 1 ==> nodes[j] != nodes[m - 1];
      }
      forall i, j | 0 <= i < j < |front + last|
        ensures (front + last)[i] != (front + last)[j]
        ensures InOrder(nodes, (front + last)[i], (front + last)[j])
      {
        if i < |front| && j >= |front| {
          assert (front + last)[i] == front[i];
          assert (front + last)[j] == last[j - |front|];
          assert front[i].0 in nodes[..m - 1];
          var p :| 0 <= p < m - 1 && nodes[p] == front[i].0;
          assert IndexOf(nodes, front[i].0) <= p;
          assert IndexOf(nodes, node) == m - 1;
        } else if i >= |front| {
          assert (front + last)[i] == last[i - |front|];
          assert (front + last)[j] == last[j - |front|];
        } else {
          assert (front + last)[i] == front[i];
          assert (front + last)[j] == front[j];
        }
      }
    }
  }

  /**
   * The FreePorts property (Circuit.py:60-71) on values: recomputed from the
   * connection lists while the circuit is marked updated, otherwise the
   * cache. (The property's `__updated__ = False` in the cache branch writes
   * the value the field already has.)
   */
  method FreePortsFrom(updated: bool, cache: seq<FreePort>, nodes: seq<NodeId>, views: map<NodeId, PortView>)
    returns (ports: seq<FreePort>)
    requires Viewed(nodes, views)
    ensures ports == if updated then FreeOfNodes(nodes, views, |nodes|) else cache
  {
    if !updated {
      return cache;
    }
    ports := [];
    var i := 0;
    while i < |nodes|
      invariant 0 <= i <= |nodes|
      invariant ports == FreeOfNodes(nodes, views, i)
    {
      var v := views[nodes[i]];
      var port := 1;
      while port <= v.portsNumber
        invariant 1 <= port && (v.portsNumber >= 0 ==> port <= v.portsNumber + 1)
        invariant v.portsNumber < 0 ==> port == 1
        invariant ports == FreeOfNodes(nodes, views, i) + FreeOfComponent(nodes[i], v, port - 1)
      {
        if |v.connections[port]| < 1 {
          ports := ports + [(nodes[i], port)];
        }
        port := port + 1;
      }
      i := i + 1;
    }
  }

  // ---------------------------------------------------------------------
  // Result frequencies (Circuit.py:73-80)

  /** Circuit.py:78, inner test: some entry of the column equals the frequency (NaN equals nothing). */
  predicate InColumn(column: seq<Cell>, f: Cell)
  {
    exists k :: 0 <= k < |column| && Same(column[k], f)
  }

  /** Circuit.py:78, outer test: some other component has the frequency. */
  predicate InAnyOther(columns: seq<seq<Cell>>, f: Cell)
  {
    exists i :: 0 <= i < |columns| && InColumn(columns[i], f)
  }

  /** The candidates some other column has, in candidate order. */
  function KeepShared(candidates: seq<Cell>, others: seq<seq<Cell>>): (r: seq<Cell>)
    ensures forall f :: f in r <==> f in candidates && InAnyOther(others, f)
    ensures NoDup(candidates) ==> NoDup(r)
    decreases |candidates|
  {
    if candidates == [] then []
    else
      var front, last := candidates[..|candidates| - 1], candidates[|candidates| - 1];
      assert candidates == front + [last];
      KeepShared(front, others) + (if InAnyOther(others, last) then [last] else [])
  }

  /** The frequency columns of all tables but the last, each without repeats (`unique()`). */
  function OtherColumns(tables: seq<Table>): (r: seq<seq<Cell>>)
    requires |tables| >= 1
    ensures |r| == |tables| - 1
  {
    seq(|tables| - 1, k requires 0 <= k < |tables| - 1 => Dedup(Column(tables[k], FrequencyHeader)))
  }

  /** With no other column nothing is kept. */
  lemma {:induction false} KeepSharedNothing(candidates: seq<Cell>)
    ensures KeepShared(candidates, []) == []
    decreases |candidates|
  {
    if candidates != [] {
      KeepSharedNothing(candidates[..|candidates| - 1]);
    }
  }

  /** Every table has the frequency column. */
  predicate AllHaveFrequencies(tables: seq<Table>)
  {
    forall k :: 0 <= k < |tables| ==> FrequencyHeader in tables[k].columns
  }

  /**
   * ResultFrequencies on the components' tables in node order: the distinct
   * frequencies of the last table that some other table has.
   */
  function ResultFrequenciesOf(tables: seq<Table>): Result<seq<Cell>, Failure>
  {
    if !AllHaveFrequencies(tables) then Err(MissingColumn(FrequencyHeader))
    else if tables == [] then Err(EmptyCircuit)
    else Ok(KeepShared(Dedup(Column(tables[|tables| - 1], FrequencyHeader)), OtherColumns(tables)))
  }

  /** The result frequencies are exactly the non-missing frequencies of the last table found in some other table, once each. */
  lemma ResultFrequenciesMembers(tables: seq<Table>, f: Cell)
    requires |tables| >= 1 && AllHaveFrequencies(tables)
    ensures ResultFrequenciesOf(tables).Ok?
    ensures NoDup(ResultFrequenciesOf(tables).value)
    ensures f in ResultFrequenciesOf(tables).value <==>
      f in Column(tables[|tables| - 1], FrequencyHeader) && !f.Missing? &&
      exists k :: 0 <= k < |tables| - 1 && f in Column(tables[k], FrequencyHeader)
  {
    var n := |tables|;
    var others := OtherColumns(tables);
    if exists k :: 0 <= k < n - 1 && f in Column(tables[k], FrequencyHeader) {
      var k :| 0 <= k < n - 1 && f in Column(tables[k], FrequencyHeader);
      if !f.Missing? {
        var j :| 0 <= j < |others[k]| && others[k][j] == f;
        assert InColumn(others[k], f);
      }
    }
    if InAnyOther(others, f) {
      var i :| 0 <= i < n - 1 && InColumn(others[i], f);
      var j :| 0 <= j < |others[i]| && Same(others[i][j], f);
      assert f in Column(tables[i], FrequencyHeader);
    }
  }

  /**
   * The loops of ResultFrequencies (Circuit.py:74-80): collect each table's
   * distinct frequencies, set the last list aside, then keep those of its
   * frequencies that some other list has.
   */
  method SharedFrequencies(tables: seq<Table>) returns (r: Result<seq<Cell>, Failure>)
    ensures r == ResultFrequenciesOf(tables)
  {
    var columns: seq<seq<Cell>> := [];
    var i := 0;
    while i < |tables|
      invariant 0 <= i <= |tables|
      invariant AllHaveFrequencies(tables[..i])
      invariant |columns| == i
      invariant forall k :: 0 <= k < i ==> columns[k] == Dedup(Column(tables[k], FrequencyHeader))
    {
      if FrequencyHeader !in tables[i].columns {
        assert !AllHaveFrequencies(tables);
        return Err(MissingColumn(FrequencyHeader));
      }
      columns := columns + [Dedup(Column(tables[i], FrequencyHeader))];
      i := i + 1;
    }
    assert tables[..i] == tables;
    if columns == [] {
      return Err(EmptyCircuit);
    }
    var first := columns[|columns| - 1];
    var others := columns[..|columns| - 1];
    var result: seq<Cell> := [];
    var j := 0;
    while j < |first|
      invariant 0 <= j <= |first|
      invariant result == KeepShared(first[..j], others)
    {
      assert first[..j + 1] == first[..j] + [first[j]];
      if InAnyOther(others, first[j]) {
        result := result + [first[j]];
      }
      j := j + 1;
    }
    assert first[..j] == first;
    assert others == OtherColumns(tables);
    r := Ok(result);
  }

  /** With a single component no frequency is shared, so the result is empty. */
  lemma SingleComponentNoFrequencies(t: Table)
    requires FrequencyHeader in t.columns
    ensures ResultFrequenciesOf([t]) == Ok([])
  {
    assert OtherColumns([t]) == [];
    KeepSharedNothing(Dedup(Column(t, FrequencyHeader)));
  }

  // ---------------------------------------------------------------------
  // Edge tags and the wiring they record (Circuit.py:39-43)

  /** The end of edge `e` that is not `node` (the node itself on a loop). */
  function OtherEnd(e: (NodeId, NodeId), node: NodeId): NodeId
  {
    if e.0 == node then e.1 else e.0
  }

  /**
   * The tag of edge `e` records a wiring that __connect__ made: its node is
   * an end of the edge, and the two ports list each other.
   */
  ghost predicate Wired(e: (NodeId, NodeId), t: Tag, comps: map<NodeId, Component>)
    reads comps.Values
  {
    (t.u == e.0 || t.u == e.1) && e.0 in comps && e.1 in comps &&
    var a, b := comps[t.u], comps[OtherEnd(e, t.u)];
    t.uPort in a.connections && t.vPort in b.connections &&
    Link(b, t.vPort) in a.connections[t.uPort] && Link(a, t.uPort) in b.connections[t.vPort]
  }

  /** Every edge's tag records a wiring. */
  ghost predicate EdgesWired(edges: map<(NodeId, NodeId), Tag>, comps: map<NodeId, Component>)
    reads comps.Values
  {
    forall e :: e in edges ==> Wired(e, edges[e], comps)
  }

  /** Tagging an edge with a wiring that exists keeps every tag's wiring. */
  lemma TagKeepsWired(edges: map<(NodeId, NodeId), Tag>, comps: map<NodeId, Component>, e: (NodeId, NodeId), t: Tag)
    requires EdgesWired(edges, comps) && Wired(e, t, comps)
    ensures EdgesWired(edges[e := t], comps)
  {
  }

  // ---------------------------------------------------------------------
  // The circuit

  class Circuit {
    /** `__updated__`: set by add_node and add_edge, never cleared by them. */
    var updated: bool
    /** `__freePorts__`: the cached free-port list; nothing ever writes it after construction. */
    var freePortsCache: seq<FreePort>
    /** The graph's nodes in insertion order. */
    var nodes: seq<NodeId>
    /** The `Component` attribute of each node. */
    var components: map<NodeId, Component>
    /** The `PortsConnection` tag of each edge, keyed by its end nodes. */
    var edges: map<(NodeId, NodeId), Tag>

    ghost predicate Valid()
      reads this, components.Values
    {
      NoDup(nodes) &&
      Placed(nodes, components) &&
      (forall n :: n in components ==> n in nodes && components[n].Valid()) &&
      freePortsCache == [] &&
      (forall e :: e in edges ==> e.0 in components && e.1 in components)
    }

    /** Circuit.py:10-13: an empty graph, not updated, with an empty cache. */
    constructor ()
      ensures Valid()
      ensures !updated && freePortsCache == [] && nodes == [] && components == map[] && edges == map[]
    {
      updated := false;
      freePortsCache := [];
      nodes := [];
      components := map[];
      edges := map[];
    }

    /** The tables of the components in node order (the order of `self.Components`). */
    function Tables(): (r: seq<Table>)
      reads this, components.Values
      requires Valid()
      ensures |r| == |nodes|
      ensures forall k :: 0 <= k < |nodes| ==> r[k] == components[nodes[k]].store
    {
      TablesOf(nodes, components, |nodes|)
    }

    /** The port count and connection lists of each node's component. */
    function Views(): (r: map<NodeId, PortView>)
      reads this, components.Values
      requires Valid()
      ensures Viewed(nodes, r)
    {
      var r := map n | n in components :: PortView(components[n].portsNumber, components[n].connections);
      assert forall k :: 0 <= k < |nodes| ==> nodes[k] in r && Complete(r[nodes[k]]) by {
        forall k | 0 <= k < |nodes|
          ensures nodes[k] in r && Complete(r[nodes[k]])
        {
          assert components[nodes[k]].Valid();
        }
      }
      r
    }

    /** Every edge's tag records a wiring between the components of its ends. */
    ghost predicate EdgesLinked()
      reads this`edges, this`components, components.Values
    {
      EdgesWired(edges, components)
    }

    /**
     * Where the edges' tags record the wiring, consecutive hops of a walk
     * meet at wired ports: the port the walk leaves the k-th node by lists
     * the port it enters the next node by, and the other way round.
     */
    lemma HopsLinked(p: seq<NodeId>, inPort: int, outPort: int, net: Net, k: nat)
      requires EdgesLinked() && net.stores == StoreMap() && net.edges == edges
      requires Walkable(p, net) && k < |p| - 1 && p[k] != p[k + 1]
      ensures var hops, c, d := Hops(p, inPort, outPort, net), components[p[k]], components[p[k + 1]];
        hops[k].outPort in c.connections && hops[k + 1].inPort in d.connections &&
        Link(d, hops[k + 1].inPort) in c.connections[hops[k].outPort] &&
        Link(c, hops[k].outPort) in d.connections[hops[k + 1].inPort]
    {
      assert Linked(p, k, net);
      var e := EdgeKey(p[k], p[k + 1]);
      var t := edges[e];
      assert Wired(e, t, components);
      if t.u == p[k] {
        assert OtherEnd(e, t.u) == p[k + 1];
      } else {
        assert OtherEnd(e, t.u) == p[k];
      }
    }

    /** The free ports as recomputed (Circuit.py:63-68). */
    function FreePortsOf(): seq<FreePort>
      reads this, components.Values
      requires Valid()
    {
      FreeOfNodes(nodes, Views(), |nodes|)
    }

    /** Circuit.py:86: the port counts of the nodes' components, added up. */
    function PortSum(): int
      reads this, components.Values
      requires Valid()
    {
      PortSumOf(nodes, components, |nodes|)
    }

    /** The table of each node's component. */
    function StoreMap(): map<NodeId, Table>
      reads this, components.Values
    {
      map n | n in components :: components[n].store
    }

    /** When recomputed, the free ports are exactly the unconnected ports of the nodes, each once. */
    lemma FreePortsMembers()
      requires Valid()
      ensures forall x :: x in FreePortsOf() <==>
        x.0 in components && 1 <= x.1 <= components[x.0].portsNumber &&
        x.1 in components[x.0].connections && components[x.0].connections[x.1] == []
      ensures NoDup(FreePortsOf())
    {
      assert forall n :: n in components ==> n in nodes;
      var views := Views();
      FreeOfNodesMembers(nodes, views, |nodes|);
      assert nodes[..|nodes|] == nodes;
      forall x: FreePort | x.0 in components
        ensures x.0 in nodes && x.0 in views && views[x.0] == PortView(components[x.0].portsNumber, components[x.0].connections)
      {
        assert components[x.0].Valid();
      }
    }

    /** add_node (Circuit.py:19-22): mark the circuit updated, add the node if new and set its component. */
    method AddNode(node: NodeId, component: Component)
      requires Valid() && component.Valid()
      modifies this
      ensures Valid()
      ensures updated
      ensures nodes == if node in old(nodes) then old(nodes) else old(nodes) + [node]
      ensures components == old(components)[node := component]
      ensures edges == old(edges) && freePortsCache == old(freePortsCache)
    {
      updated := true;
      if node !in nodes {
        nodes := nodes + [node];
      }
      components := components[node := component];
    }

    /** add_nodes_from (Circuit.py:31-33): add_node for each pair of `zip(nodes, components)`. */
    method AddNodesFrom(newNodes: seq<NodeId>, newComponents: seq<Component>)
      requires Valid() && forall c :: c in newComponents ==> c.Valid()
      modifies this
      ensures Valid()
      ensures updated == (old(updated) || (|newNodes| > 0 && |newComponents| > 0))
      ensures forall n :: n in components <==> n in old(components) || exists k :: 0 <= k < |newNodes| && k < |newComponents| && newNodes[k] == n
      ensures edges == old(edges)
      ensures var zipped := if |newNodes| <= |newComponents| then |newNodes| else |newComponents|;
        nodes == NodesAfter(old(nodes), newNodes, zipped) && components == ComponentsAfter(old(components), newNodes, newComponents, zipped)
    {
      var k := 0;
      while k < |newNodes| && k < |newComponents|
        invariant 0 <= k <= |newNodes| && k <= |newComponents|
        invariant Valid()
        invariant updated == (old(updated) || k > 0)
        invariant edges == old(edges)
        invariant nodes == NodesAfter(old(nodes), newNodes, k) && components == ComponentsAfter(old(components), newNodes, newComponents, k)
      {
        AddNode(newNodes[k], newComponents[k]);
        k := k + 1;
      }
      ComponentsAfterNamed(old(components), newNodes, newComponents, k);
    }

    /**
     * add_edge (Circuit.py:39-43): mark the circuit updated, look up both
     * nodes' components, connect the two ports, then tag the edge. Each
     * step that raises leaves the effects of the steps before it.
     */
    method AddEdge(u: NodeId, uPort: int, v: NodeId, vPort: int) returns (r: Outcome<Failure>)
      requires Valid()
      modifies this, components.Values
      ensures Valid()
      ensures updated && nodes == old(nodes) && components == old(components) && freePortsCache == old(freePortsCache)
      ensures r == (if u !in components then Fail(MissingNode(u))
        else if v !in components then Fail(MissingNode(v))
        else if uPort !in old(components[u].connections) then Fail(MissingPort(uPort))
        else if vPort !in old(components[v].connections) then Fail(MissingPort(vPort))
        else Pass)
      ensures edges == if r == Pass then old(edges)[EdgeKey(u, v) := Tag(u, uPort, vPort)] else old(edges)
      ensures r == Pass ==> LocalPort(edges[EdgeKey(u, v)], u) == uPort && (u != v ==> LocalPort(edges[EdgeKey(u, v)], v) == vPort)
      ensures u in components && v in components && uPort in old(components[u].connections) ==>
        Link(components[v], vPort) in components[u].connections[uPort]
      ensures r == Pass ==> Link(components[u], uPort) in components[v].connections[vPort]
      ensures forall c :: c in components.Values ==> c.store == old(c.store) && c.maxPowers == old(c.maxPowers)
      ensures u !in components || v !in components || uPort !in old(components[u].connections) ==>
        forall c :: c in components.Values ==> c.connections == old(c.connections)
      ensures u in components && v in components ==>
        forall c :: c in components.Values && c != components[u] && c != components[v] ==> c.connections == old(c.connections)
      ensures u in components && v in components && uPort in old(components[u].connections) && components[u] == components[v] ==>
        var first := old(components[u].connections)[uPort := old(components[u].connections)[uPort] + [Link(components[v], vPort)]];
        components[u].connections == if vPort in first then first[vPort := first[vPort] + [Link(components[u], uPort)]] else first
      ensures u in components && v in components && uPort in old(components[u].connections) && components[u] != components[v] ==>
        components[u].connections == old(components[u].connections)[uPort := old(components[u].connections)[uPort] + [Link(components[v], vPort)]] &&
        components[v].connections == if vPort in old(components[v].connections)
          then old(components[v].connections)[vPort := old(components[v].connections)[vPort] + [Link(components[u], uPort)]]
          else old(components[v].connections)
      ensures old(EdgesLinked()) ==> EdgesLinked()
    {
      MarkUpdated();
      if u !in components {
        return Fail(MissingNode(u));
      }
      if v !in components {
        return Fail(MissingNode(v));
      }
      r := ConnectNodes(u, uPort, v, vPort);
    }

    /** `self.__updated__ = True`; nothing else changes. */
    method MarkUpdated()
      requires Valid()
      modifies this
      ensures Valid() && updated
      ensures nodes == old(nodes) && components == old(components) && edges == old(edges) && freePortsCache == old(freePortsCache)
      ensures old(EdgesLinked()) ==> EdgesLinked()
    {
      updated := true;
    }

    /** The rest of add_edge once both nodes are known (Circuit.py:41-43): connect the ports, then tag the edge. */
    method ConnectNodes(u: NodeId, uPort: int, v: NodeId, vPort: int) returns (r: Outcome<Failure>)
      requires Valid() && u in components && v in components
      modifies this, components[u], components[v]
      ensures Valid()
      ensures updated == old(updated) && nodes == old(nodes) && components == old(components) && freePortsCache == old(freePortsCache)
      ensures r == (if uPort !in old(components[u].connections) then Fail(MissingPort(uPort))
        else if vPort !in old(components[v].connections) then Fail(MissingPort(vPort))
        else Pass)
      ensures edges == if r == Pass then old(edges)[EdgeKey(u, v) := Tag(u, uPort, vPort)] else old(edges)
      ensures uPort in old(components[u].connections) ==> Link(components[v], vPort) in components[u].connections[uPort]
      ensures r == Pass ==> Link(components[u], uPort) in components[v].connections[vPort]
      ensures components[u].store == old(components[u].store) && components[u].maxPowers == old(components[u].maxPowers)
      ensures components[v].store == old(components[v].store) && components[v].maxPowers == old(components[v].maxPowers)
      ensures uPort !in old(components[u].connections) ==>
        components[u].connections == old(components[u].connections) && components[v].connections == old(components[v].connections)
      ensures uPort in old(components[u].connections) && components[u] == components[v] ==>
        var first := old(components[u].connections)[uPort := old(components[u].connections)[uPort] + [Link(components[v], vPort)]];
        components[u].connections == if vPort in first then first[vPort := first[vPort] + [Link(components[u], uPort)]] else first
      ensures uPort in old(components[u].connections) && components[u] != components[v] ==>
        components[u].connections == old(components[u].connections)[uPort := old(components[u].connections)[uPort] + [Link(components[v], vPort)]] &&
        components[v].connections == if vPort in old(components[v].connections)
          then old(components[v].connections)[vPort := old(components[v].connections)[vPort] + [Link(components[u], uPort)]]
          else old(components[v].connections)
      ensures old(EdgesLinked()) ==> EdgesLinked()
    {
      var cu, cv := components[u], components[v];
      r := cu.Connect(uPort, cv, vPort);
      if old(EdgesLinked()) {
        assert forall c :: c in components.Values ==> Grown(old(c.connections), c.connections);
        forall e | e in edges
          ensures Wired(e, edges[e], components)
        {
          var t := edges[e];
          assert old(Wired(e, t, components));
          var a, b := components[t.u], components[OtherEnd(e, t.u)];
          assert Grown(old(a.connections), a.connections) && Grown(old(b.connections), b.connections);
        }
        assert EdgesWired(edges, components);
      }
      if r != Pass {
        return r;
      }
      assert OtherEnd(EdgeKey(u, v), u) == v;
      TagEdge(EdgeKey(u, v), Tag(u, uPort, vPort));
    }

    /** Circuit.py:43: store the `PortsConnection` tag on the edge. */
    method TagEdge(key: (NodeId, NodeId), tag: Tag)
      requires Valid() && key.0 in components && key.1 in components
      modifies this
      ensures Valid()
      ensures edges == old(edges)[key := tag]
      ensures updated == old(updated) && nodes == old(nodes) && components == old(components) && freePortsCache == old(freePortsCache)
      ensures old(EdgesLinked()) && Wired(key, tag, components) ==> EdgesLinked()
    {
      if EdgesLinked() && Wired(key, tag, components) {
        TagKeepsWired(edges, components, key, tag);
      }
      edges := edges[key := tag];
    }

    /** add_edges_from (Circuit.py:49-51): each call passes one positional argument too many and raises before add_edge runs. */
    method AddEdgesFrom(ebunch: seq<EdgeRequest>) returns (r: Outcome<Failure>)
      ensures r == (if ebunch == [] then Pass else Fail(EdgeArguments))
    {
      if ebunch == [] {
        return Pass;
      }
      r := Fail(EdgeArguments);
    }

    /**
     * add_edges_from as evidently intended: add_edge for each element of
     * the ebunch in turn, stopping at the first that raises. Every edge of
     * a fully added ebunch is tagged.
     */
    method AddEdgesFromIntended(ebunch: seq<EdgeRequest>) returns (r: Outcome<Failure>)
      requires Valid()
      modifies this, components.Values
      ensures Valid()
      ensures nodes == old(nodes) && components == old(components)
      ensures r == Pass ==> forall k :: 0 <= k < |ebunch| ==> EdgeKey(ebunch[k].u, ebunch[k].v) in edges
      ensures r == Pass ==> forall e :: e in old(edges) ==> e in edges
    {
      var k := 0;
      while k < |ebunch|
        invariant 0 <= k <= |ebunch|
        invariant Valid()
        invariant nodes == old(nodes) && components == old(components)
        invariant forall j :: 0 <= j < k ==> EdgeKey(ebunch[j].u, ebunch[j].v) in edges
        invariant forall e :: e in old(edges) ==> e in edges
      {
        var e := ebunch[k];
        r := AddEdge(e.u, e.uPort, e.v, e.vPort);
        if r != Pass {
          return r;
        }
        k := k + 1;
      }
      r := Pass;
    }

    /** add_weighted_edges_from (Circuit.py:57-58) always raises. */
    method AddWeightedEdgesFrom(ebunch: seq<(NodeId, NodeId, real)>) returns (r: Outcome<Failure>)
      ensures r == Fail(WeightedEdges)
    {
      r := Fail(WeightedEdges);
    }

    /** The FreePorts property (Circuit.py:60-71); the cache it falls back on is always empty. */
    method FreePorts() returns (ports: seq<FreePort>)
      requires Valid()
      ensures ports == if updated then FreePortsOf() else freePortsCache
      ensures !updated ==> ports == []
    {
      ports := FreePortsFrom(updated, freePortsCache, nodes, Views());
    }

    /** ResultFrequencies (Circuit.py:73-80), on the components' tables in node order. */
    method ResultFrequencies() returns (r: Result<seq<Cell>, Failure>)
      requires Valid()
      ensures r == ResultFrequenciesOf(Tables())
    {
      r := SharedFrequencies(Tables());
    }

    /** What Synthesize reads of the circuit. */
    function Snap(): (s: Snapshot)
      reads this, components.Values
      requires Valid()
      ensures Viewed(s.nodes, s.views)
    {
      Snapshot(updated, freePortsCache, nodes, Views(), Tables(), StoreMap(), edges, PortSum())
    }

    /**
     * What Synthesize builds, as a value: the store of the synthesized
     * component, or the error it raises. `componentCount` is the number of
     * connected components and `paths` the node path shortest_path returns
     * for each pair of nodes; both come from the graph library.
     */
    function SynthesisOf(componentCount: nat, paths: map<(NodeId, NodeId), seq<NodeId>>): Result<Table, Failure>
      reads this, components.Values
      requires Valid()
    {
      SynthesisIn(Snap(), componentCount, paths)
    }

    /**
     * Synthesize (Circuit.py:82-170): a fresh component with one port per
     * free port of the circuit, no stored power limits and no connections,
     * whose store is the reduced table; or the error the reduction raises.
     */
    method Synthesize(componentCount: nat, paths: map<(NodeId, NodeId), seq<NodeId>>) returns (r: Result<Component, Failure>)
      requires Valid()
      ensures r.Ok? <==> old(SynthesisOf(componentCount, paths)).Ok?
      ensures r.Err? ==> r.error == old(SynthesisOf(componentCount, paths)).error
      ensures componentCount > 1 ==> r == Err(DisconnectedCircuit)
      ensures r.Ok? ==> fresh(r.value) && r.value.Valid() && r.value.portsNumber == old(PortSum()) - 2 * |edges|
      ensures r.Ok? ==> r.value.store == old(SynthesisOf(componentCount, paths)).value && r.value.maxPowers == None
      ensures r.Ok? ==> forall p :: p in r.value.connections ==> r.value.connections[p] == []
    {
      var snapshot := Snap();
      var store := Reduce(snapshot, componentCount, paths);
      if store.Err? {
        return Err(store.error);
      }
      var result := new Component(snapshot.portSum - 2 * |snapshot.edges|);
      result.SetSMatrices(store.value);
      r := Ok(result);
    }
  }

  /**
   * Synthesize's outcome from what it reads: the number of connected
   * components, the result frequencies, the port count and the graph.
   */
  function SynthesisFrom(componentCount: nat, frequencies: Result<seq<Cell>, Failure>, portsNumber: int, net: Net): Result<Table, Failure>
  {
    if componentCount > 1 then Err(DisconnectedCircuit)
    else
      var values :- frequencies;
      Synthesized(portsNumber, values, net)
  }

  /** What Synthesize reads of the circuit, taken as a value. */
  datatype Snapshot = Snapshot(
    updated: bool, cache: seq<FreePort>, nodes: seq<NodeId>, views: map<NodeId, PortView>,
    tables: seq<Table>, stores: map<NodeId, Table>, edges: map<(NodeId, NodeId), Tag>, portSum: int)

  /** The FreePorts property on a snapshot. */
  function FreePortsIn(s: Snapshot): seq<FreePort>
    requires Viewed(s.nodes, s.views)
  {
    if s.updated then FreeOfNodes(s.nodes, s.views, |s.nodes|) else s.cache
  }

  /** Synthesize's outcome on a snapshot. */
  function SynthesisIn(s: Snapshot, componentCount: nat, paths: map<(NodeId, NodeId), seq<NodeId>>): Result<Table, Failure>
    requires Viewed(s.nodes, s.views)
  {
    SynthesisFrom(componentCount, ResultFrequenciesOf(s.tables), s.portSum - 2 * |s.edges|,
      Net(FreePortsIn(s), s.stores, s.edges, paths))
  }

  /**
   * The body of Synthesize up to its return (Circuit.py:83-164): the
   * connectivity check, the result frequencies, the free ports and the
   * reduction of the initial table.
   */
  method Reduce(s: Snapshot, componentCount: nat, paths: map<(NodeId, NodeId), seq<NodeId>>) returns (r: Result<Table, Failure>)
    requires Viewed(s.nodes, s.views)
    ensures r == SynthesisIn(s, componentCount, paths)
  {
    if componentCount > 1 {
      return Err(DisconnectedCircuit);
    }
    var frequencies := SharedFrequencies(s.tables);
    if frequencies.Err? {
      return Err(frequencies.error);
    }
    var freePorts := FreePortsFrom(s.updated, s.cache, s.nodes, s.views);
    r := RunAll(InitialTable(s.portSum - 2 * |s.edges|, frequencies.value), Net(freePorts, s.stores, s.edges, paths));
  }

  /** The node list after add_node for each of the first `m` nodes of `added`: a node not yet present is appended. */
  function NodesAfter(nodes: seq<NodeId>, added: seq<NodeId>, m: nat): seq<NodeId>
    requires m <= |added|
  {
    if m == 0 then nodes
    else
      var before := NodesAfter(nodes, added, m - 1);
      if added[m - 1] in before then before else before + [added[m - 1]]
  }

  /** The components after add_node for each of the first `m` pairs: each pair sets its node's component. */
  function ComponentsAfter(components: map<NodeId, Component>, added: seq<NodeId>, placed: seq<Component>, m: nat): map<NodeId, Component>
    requires m <= |added| && m <= |placed|
  {
    if m == 0 then components else ComponentsAfter(components, added, placed, m - 1)[added[m - 1] := placed[m - 1]]
  }

  /**
   * The old nodes stay first and in order; the rest are the added nodes
   * that were not there yet, each once, in the order they first occur.
   */
  lemma {:induction false} NodesAfterShape(nodes: seq<NodeId>, added: seq<NodeId>, m: nat)
    requires m <= |added|
    ensures var r := NodesAfter(nodes, added, m);
      |nodes| <= |r| && r[..|nodes|] == nodes &&
      (forall x :: x in r <==> x in nodes || x in added[..m]) &&
      (NoDup(nodes) ==> NoDup(r)) &&
      (forall i :: |nodes| <= i < |r| ==> r[i] !in nodes) &&
      (forall i, j :: |nodes| <= i < j < |r| ==> r[i] in added && r[j] in added && IndexOf(added, r[i]) < IndexOf(added, r[j]))
    decreases m
  {
    if m > 0 {
      NodesAfterShape(nodes, added, m - 1);
      var before, x := NodesAfter(nodes, added, m - 1), added[m - 1];
      assert added[..m] == added[..m - 1] + [x];
      if x !in before {
        var r := before + [x];
        assert x !in added[..m - 1];
        assert IndexOf(added, x) == m - 1;
        forall i | |nodes| <= i < |before|
          ensures r[i] in added && IndexOf(added, r[i]) < m - 1
        {
          assert r[i] == before[i] && before[i] in before && before[i] !in nodes;
          var j :| 0 <= j < m - 1 && added[..m - 1][j] == r[i];
          assert added[j] == r[i];
        }
      }
    }
  }

  /**
   * A node given in the first `m` pairs gets the component of its last
   * pair; every other node keeps its component.
   */
  lemma ComponentsAfterAt(components: map<NodeId, Component>, added: seq<NodeId>, placed: seq<Component>, m: nat)
    requires m <= |added| && m <= |placed|
    ensures var r := ComponentsAfter(components, added, placed, m);
      (forall x :: x in r <==> x in components || x in added[..m]) &&
      (forall j :: 0 <= j < m && added[j] !in added[j + 1..m] ==> added[j] in r && r[added[j]] == placed[j]) &&
      (forall x :: x in components && x !in added[..m] ==> r[x] == components[x])
  {
    ComponentsAfterKeys(components, added, placed, m);
    ComponentsAfterLast(components, added, placed, m);
    ComponentsAfterOthers(components, added, placed, m);
  }

  /** The nodes with a component after the first `m` pairs, with the added ones named by their position. */
  lemma ComponentsAfterNamed(components: map<NodeId, Component>, added: seq<NodeId>, placed: seq<Component>, m: nat)
    requires m <= |added| && m <= |placed|
    ensures forall x :: x in ComponentsAfter(components, added, placed, m) <==>
      x in components || exists j :: 0 <= j < |added| && j < |placed| && j < m && added[j] == x
  {
    ComponentsAfterKeys(components, added, placed, m);
    forall x | x in added[..m]
      ensures exists j :: 0 <= j < |added| && j < |placed| && j < m && added[j] == x
    {
      var j :| 0 <= j < m && added[..m][j] == x;
      assert added[j] == x;
    }
  }

  /** The nodes with a component after the first `m` pairs: the old ones and the added ones. */
  lemma {:induction false} ComponentsAfterKeys(components: map<NodeId, Component>, added: seq<NodeId>, placed: seq<Component>, m: nat)
    requires m <= |added| && m <= |placed|
    ensures forall x :: x in ComponentsAfter(components, added, placed, m) <==> x in components || x in added[..m]
    decreases m
  {
    if m > 0 {
      ComponentsAfterKeys(components, added, placed, m - 1);
      assert added[..m] == added[..m - 1] + [added[m - 1]];
    }
  }

  /** An added node that is not added again later has the component of its pair. */
  lemma {:induction false} ComponentsAfterLast(components: map<NodeId, Component>, added: seq<NodeId>, placed: seq<Component>, m: nat)
    requires m <= |added| && m <= |placed|
    ensures var r := ComponentsAfter(components, added, placed, m);
      forall j :: 0 <= j < m && added[j] !in added[j + 1..m] ==> added[j] in r && r[added[j]] == placed[j]
    decreases m
  {
    if m > 0 {
      var before := ComponentsAfter(components, added, placed, m - 1);
      var r := before[added[m - 1] := placed[m - 1]];
      ComponentsAfterLast(components, added, placed, m - 1);
      forall j | 0 <= j < m && added[j] !in added[j + 1..m]
        ensures added[j] in r && r[added[j]] == placed[j]
      {
        if j < m - 1 {
          assert added[j + 1..m] == added[j + 1..m - 1] + [added[m - 1]];
          assert added[j] !in added[j + 1..m - 1] && added[j] != added[m - 1];
        }
      }
    }
  }

  /** A node none of the first `m` pairs names keeps its component. */
  lemma {:induction false} ComponentsAfterOthers(components: map<NodeId, Component>, added: seq<NodeId>, placed: seq<Component>, m: nat)
    requires m <= |added| && m <= |placed|
    ensures var r := ComponentsAfter(components, added, placed, m);
      forall x :: x in components && x !in added[..m] ==> x in r && r[x] == components[x]
    decreases m
  {
    if m > 0 {
      ComponentsAfterOthers(components, added, placed, m - 1);
      assert added[..m] == added[..m - 1] + [added[m - 1]];
    }
  }

  /** Every node has a component, and a well-formed one. */
  ghost predicate Placed(nodes: seq<NodeId>, components: map<NodeId, Component>)
    reads components.Values
  {
    forall k :: 0 <= k < |nodes| ==> nodes[k] in components && components[nodes[k]].Valid()
  }

  /** The tables of the first `m` nodes. */
  function TablesOf(nodes: seq<NodeId>, components: map<NodeId, Component>, m: nat): (r: seq<Table>)
    reads components.Values
    requires m <= |nodes| && forall k :: 0 <= k < |nodes| ==> nodes[k] in components
    ensures |r| == m && forall k :: 0 <= k < m ==> r[k] == components[nodes[k]].store
  {
    if m == 0 then [] else TablesOf(nodes, components, m - 1) + [components[nodes[m - 1]].store]
  }

  /** The port numbers of the first `m` nodes, summed. */
  function PortSumOf(nodes: seq<NodeId>, components: map<NodeId, Component>, m: nat): int
    reads components.Values
    requires m <= |nodes| && forall k :: 0 <= k < |nodes| ==> nodes[k] in components
  {
    if m == 0 then 0 else PortSumOf(nodes, components, m - 1) + components[nodes[m - 1]].portsNumber
  }
}
