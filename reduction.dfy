/**
 * The network reduction of `Circuit.Synthesize` (Circuit.py:90-164) on
 * values: the free ports, the components' tables, the edge tags and the
 * node path chosen for every pair of free ports on different nodes. The
 * circuit class runs this reduction with loops; the folds below are what
 * those loops compute.
 */
module Reduction {
  import opened Wrappers
  import opened Failures
  import opened Sequences
  import opened Headers
  import opened ScatteringTable
  import ComponentModel

  type NodeId = int

  /** The `PortsConnection` tuple stored on an edge: (u_of_edge, u port, v port), Circuit.py:43. */
  datatype Tag = Tag(u: NodeId, uPort: int, vPort: int)

  type FreePort = (NodeId, int)

  /** networkx edges are unordered: an edge is keyed by its end nodes, smaller first. */
  function EdgeKey(a: NodeId, b: NodeId): (NodeId, NodeId)
  {
    if a <= b then (a, b) else (b, a)
  }

  /** Everything the reduction reads.  */
  datatype Net = Net(
    freePorts: seq<FreePort>,
    stores: map<NodeId, Table>,
    edges: map<(NodeId, NodeId), Tag>,
    paths: map<(NodeId, NodeId), seq<NodeId>>)

  /** Circuit.py:114 and :120: the port of `node` on the edge, the first port when the tag names `node` first, else the second. */
  function LocalPort(tag: Tag, node: NodeId): int
  {
    if tag.u == node then tag.uPort else tag.vPort
  }

  /** The k-th and the next node of `p` are joined by an edge. */
  predicate Linked(p: seq<NodeId>, k: int, net: Net)
    requires 0 <= k < |p| - 1
  {
    EdgeKey(p[k], p[k + 1]) in net.edges
  }

  /** Every node of `p` has a table and consecutive nodes are joined by an edge. */
  predicate Walkable(p: seq<NodeId>, net: Net)
  {
    |p| >= 1 &&
    (forall k :: 0 <= k < |p| ==> p[k] in net.stores) &&
    (forall k :: 0 <= k < |p| - 1 ==> Linked(p, k, net))
  }

  predicate IsPath(p: seq<NodeId>, from: NodeId, to: NodeId, net: Net)
  {
    Walkable(p, net) && p[0] == from && p[|p| - 1] == to
  }

  /** `commonPort` (Circuit.py:92-93): the 1-based position of a free port in the free-port list. */
  function CommonPort(freePorts: seq<FreePort>, x: FreePort): (r: int)
    requires x in freePorts
    ensures 1 <= r <= |freePorts| && freePorts[r - 1] == x
  {
    IndexOf(freePorts, x) + 1
  }

  /** With distinct free ports, commonPort numbers them 1, 2, ... in list order, one number per port. */
  lemma CommonPortIsPosition(freePorts: seq<FreePort>, i: int)
    requires NoDup(freePorts) && 0 <= i < |freePorts|
    ensures CommonPort(freePorts, freePorts[i]) == i + 1
  {
  }

  /** Different free ports get different numbers. */
  lemma CommonPortInjective(freePorts: seq<FreePort>, x: FreePort, y: FreePort)
    requires x in freePorts && y in freePorts && x != y
    ensures CommonPort(freePorts, x) != CommonPort(freePorts, y)
  {
  }

  /** The out-port list of Circuit.py:101: the free ports on another node than `inNode`, in order. */
  function OutTargets(freePorts: seq<FreePort>, inNode: NodeId): (r: seq<FreePort>)
    ensures |r| <= |freePorts|
    decreases |freePorts|
  {
    if freePorts == [] then []
    else
      var front := freePorts[..|freePorts| - 1];
      var last := freePorts[|freePorts| - 1];
      assert freePorts == front + [last];
      OutTargets(front, inNode) + (if last.0 != inNode then [last] else [])
  }

  lemma {:induction false} OutTargetsMembers(freePorts: seq<FreePort>, inNode: NodeId)
    ensures forall x :: x in OutTargets(freePorts, inNode) <==> x in freePorts && x.0 != inNode
    decreases |freePorts|
  {
    if freePorts != [] {
      OutTargetsMembers(freePorts[..|freePorts| - 1], inNode);
      assert freePorts == freePorts[..|freePorts| - 1] + [freePorts[|freePorts| - 1]];
    }
  }

  lemma OutTargetsAt(freePorts: seq<FreePort>, inNode: NodeId, j: nat)
    requires j < |OutTargets(freePorts, inNode)|
    ensures OutTargets(freePorts, inNode)[j] in freePorts && OutTargets(freePorts, inNode)[j].0 != inNode
  {
    OutTargetsMembers(freePorts, inNode);
    assert OutTargets(freePorts, inNode)[j] in OutTargets(freePorts, inNode);
  }

  lemma {:induction false} OutTargetsNone(freePorts: seq<FreePort>, inNode: NodeId)
    requires forall x :: x in freePorts ==> x.0 == inNode
    ensures OutTargets(freePorts, inNode) == []
    decreases |freePorts|
  {
    if freePorts != [] {
      assert freePorts[|freePorts| - 1] in freePorts;
      OutTargetsNone(freePorts[..|freePorts| - 1], inNode);
    }
  }

  /** The port through which the walk enters the k-th node: the free in-port, then the edge from the previous node. */
  function HopIn(p: seq<NodeId>, k: nat, inPort: int, net: Net): int
    requires Walkable(p, net) && k < |p|
  {
    if k == 0 then inPort else assert Linked(p, k - 1, net); LocalPort(net.edges[EdgeKey(p[k - 1], p[k])], p[k])
  }

  /** The port through which the walk leaves the k-th node: the edge to the next node, and the free out-port last. */
  function HopOut(p: seq<NodeId>, k: nat, outPort: int, net: Net): int
    requires Walkable(p, net) && k < |p|
  {
    if k == |p| - 1 then outPort else assert Linked(p, k, net); LocalPort(net.edges[EdgeKey(p[k], p[k + 1])], p[k])
  }

  /** Circuit.py:125-127: keep the one transmission column and rename it to the result's column. */
  function Selection(t: Table, outPort: int, inPort: int, name: string): Table
  {
    RenameColumn(SelectHop(t, outPort, inPort), GainHeader(outPort, inPort), name)
  }

  /** Circuit.py:130-164: expand the accumulator over the selection's new dependencies, then accumulate its gain. */
  function Absorb(acc: Table, sel: Table, name: string): Result<Table, Failure>
  {
    var expanded :- ExpandNew(acc, sel);
    AccumulateTable(expanded, sel, name)
  }

  /** One node of a walk: its table and the ports the walk enters and leaves it by. */
  datatype Hop = Hop(table: Table, outPort: int, inPort: int)

  /** The hops of the walk along `p` entering at `inPort` and leaving at `outPort` (Circuit.py:106-120). */
  function Hops(p: seq<NodeId>, inPort: int, outPort: int, net: Net): (r: seq<Hop>)
    requires Walkable(p, net)
    ensures |r| == |p|
  {
    seq(|p|, k requires 0 <= k < |p| => Hop(net.stores[p[k]], HopOut(p, k, outPort, net), HopIn(p, k, inPort, net)))
  }

  /** One hop of the walk writing the column `name` (Circuit.py:122-164). */
  function HopStep(acc: Table, hop: Hop, name: string): Result<Table, Failure>
  {
    Absorb(acc, Selection(hop.table, hop.outPort, hop.inPort, name), name)
  }

  /** The step of a walk that writes `name`, as a value, so that the walk is a fold of it. */
  function StepFor(name: string): (Table, Hop) -> Result<Table, Failure>
  {
    (acc: Table, hop: Hop) => HopStep(acc, hop, name)
  }

  /**
   * The first `m` steps of one of the loops of Circuit.py:96-164 over `xs`:
   * each step updates the accumulator, and the first step that raises ends
   * the loop with its error.
   */
  function Fold<X>(step: (Table, X) -> Result<Table, Failure>, acc: Table, xs: seq<X>, m: nat): Result<Table, Failure>
    requires m <= |xs|
  {
    if m == 0 then Ok(acc)
    else
      var prev :- Fold(step, acc, xs, m - 1);
      step(prev, xs[m - 1])
  }

  /** Once a step raised, the loop's result is that error. */
  lemma {:induction false} FoldFails<X>(step: (Table, X) -> Result<Table, Failure>, acc: Table, xs: seq<X>, m: nat, n: nat)
    requires m <= n <= |xs| && Fold(step, acc, xs, m).Err?
    ensures Fold(step, acc, xs, n) == Fold(step, acc, xs, m)
    decreases n - m
  {
    if m < n {
      FoldFails(step, acc, xs, m, n - 1);
    }
  }

  /** After a step of the loop: it goes on with the result, or it ends with the step's error. */
  lemma FoldNext<X>(step: (Table, X) -> Result<Table, Failure>, acc: Table, xs: seq<X>, m: nat, current: Table, next: Result<Table, Failure>)
    requires m < |xs| && Fold(step, acc, xs, m) == Ok(current) && next == step(current, xs[m])
    ensures Fold(step, acc, xs, m + 1) == next
    ensures next.Err? ==> Fold(step, acc, xs, |xs|) == next
  {
    if next.Err? {
      FoldFails(step, acc, xs, m + 1, |xs|);
    }
  }

  /** A property of the accumulator that every successful step carries from one position to the next holds after the loop. */
  lemma {:induction false} FoldInvariant<X>(step: (Table, X) -> Result<Table, Failure>, inv: (nat, Table) -> bool, acc: Table, xs: seq<X>, m: nat)
    requires m <= |xs| && Fold(step, acc, xs, m).Ok? && inv(0, acc)
    requires forall j: nat, t: Table :: j < |xs| && inv(j, t) && step(t, xs[j]).Ok? ==> inv(j + 1, step(t, xs[j]).value)
    ensures inv(m, Fold(step, acc, xs, m).value)
  {
    if m > 0 {
      FoldInvariant(step, inv, acc, xs, m - 1);
    }
  }

  /** A loop whose every step keeps the accumulator's columns as a prefix keeps them too. */
  lemma {:induction false} FoldKeepsColumns<X>(step: (Table, X) -> Result<Table, Failure>, acc: Table, xs: seq<X>, m: nat)
    requires m <= |xs| && Fold(step, acc, xs, m).Ok?
    requires forall a: Table, x: X :: step(a, x).Ok? ==> a.columns <= step(a, x).value.columns
    ensures acc.columns <= Fold(step, acc, xs, m).value.columns
  {
    if m > 0 {
      FoldKeepsColumns(step, acc, xs, m - 1);
    }
  }

  /** The name of the column the pair (out-port, in-port) writes: `S{commonOut}{commonIn} (dB)`, Circuit.py:122. */
  function PairColumn(net: Net, inPort: FreePort, outPort: FreePort): string
    requires inPort in net.freePorts && outPort in net.freePorts
  {
    GainHeader(CommonPort(net.freePorts, outPort), CommonPort(net.freePorts, inPort))
  }

  /**
   * The walk from the free port `source` to the free port `target` along
   * the node path `shortest_path` returned; without one, it raises.
   */
  function Walk(acc: Table, source: FreePort, target: FreePort, net: Net): Result<Table, Failure>
    requires source in net.freePorts && target in net.freePorts
  {
    var key := (source.0, target.0);
    if key !in net.paths || !IsPath(net.paths[key], source.0, target.0, net) then Err(NoPath(source.0, target.0))
    else
      var hops := Hops(net.paths[key], source.1, target.1, net);
      Fold(StepFor(PairColumn(net, source, target)), acc, hops, |hops|)
  }

  /**
   * One pass of the out-port loop of Circuit.py:101-164 for the in-port
   * `source`. The targets are free ports, so the last branch is never taken.
   */
  function PairStep(source: FreePort, net: Net): (Table, FreePort) -> Result<Table, Failure>
    requires source in net.freePorts
  {
    (acc: Table, target: FreePort) => if target in net.freePorts then Walk(acc, source, target, net) else Ok(acc)
  }

  /** All out-ports for the in-port `source`. */
  function FromSource(acc: Table, source: FreePort, net: Net): Result<Table, Failure>
    requires source in net.freePorts
  {
    var targets := OutTargets(net.freePorts, source.0);
    Fold(PairStep(source, net), acc, targets, |targets|)
  }

  /** One pass of the in-port loop of Circuit.py:96-164; as above, the last branch is never taken. */
  function SourceStep(net: Net): (Table, FreePort) -> Result<Table, Failure>
  {
    (acc: Table, source: FreePort) => if source in net.freePorts then FromSource(acc, source, net) else Ok(acc)
  }

  /** Circuit.py:87-88: the new component's schema with one row per result frequency and every gain missing. */
  function InitialTable(portsNumber: int, frequencies: seq<Cell>): (r: Table)
    ensures r.columns == ComponentModel.Schema(portsNumber) && |r.rows| == |frequencies|
    ensures forall k :: 0 <= k < |r.rows| ==> Get(r.rows[k], FrequencyHeader) == frequencies[k]
    ensures forall k, c :: 0 <= k < |r.rows| && c != FrequencyHeader ==> Get(r.rows[k], c) == Missing
  {
    Table(ComponentModel.Schema(portsNumber),
      seq(|frequencies|, k requires 0 <= k < |frequencies| => map[FrequencyHeader := frequencies[k]]))
  }

  /** The store of the synthesized component. */
  function Synthesized(portsNumber: int, frequencies: seq<Cell>, net: Net): Result<Table, Failure>
  {
    Fold(SourceStep(net), InitialTable(portsNumber, frequencies), net.freePorts, |net.freePorts|)
  }

  // ---------------------------------------------------------------------
  // Properties of the reduction

  /**
   * One hop appends the hop's new dependencies as columns, multiplies the
   * row count by their numbers of values, and changes no entry but the
   * pair's column.
   */
  lemma AbsorbShape(acc: Table, sel: Table, name: string)
    requires Absorb(acc, sel, name).Ok?
    ensures ExpandNew(acc, sel).Ok?
    ensures var deps := NewDependencies(sel.columns, acc.columns);
      var r := Absorb(acc, sel, name).value;
      r.columns == acc.columns + deps &&
      |r.rows| == |ExpandNew(acc, sel).value.rows| == |acc.rows| * RowFactor(sel, deps)
    ensures var expanded := ExpandNew(acc, sel).value;
      var r := Absorb(acc, sel, name).value;
      forall k, c :: 0 <= k < |r.rows| && c != name ==> Get(r.rows[k], c) == Get(expanded.rows[k], c)
  {
    var deps := NewDependencies(sel.columns, acc.columns);
    ExpandAllShape(acc, sel, deps);
    var expanded := ExpandNew(acc, sel).value;
    AccumulatePrefixRows(expanded, sel, name, |expanded.rows|);
    var r := Absorb(acc, sel, name).value;
    forall k, c | 0 <= k < |r.rows| && c != name
      ensures Get(r.rows[k], c) == Get(expanded.rows[k], c)
    {
      AccumulateRowWrites(expanded.rows[k], expanded.columns, sel, name);
    }
  }

  /** A column once in the accumulator stays there, in place, through every step of a walk. */
  lemma StepKeepsColumns(name: string)
    ensures forall acc: Table, hop: Hop :: StepFor(name)(acc, hop).Ok? ==> acc.columns <= StepFor(name)(acc, hop).value.columns
  {
    forall acc: Table, hop: Hop | StepFor(name)(acc, hop).Ok?
      ensures acc.columns <= StepFor(name)(acc, hop).value.columns
    {
      AbsorbShape(acc, Selection(hop.table, hop.outPort, hop.inPort, name), name);
    }
  }

  /** A walk only adds columns. */
  lemma WalkKeeps(acc: Table, source: FreePort, target: FreePort, net: Net)
    requires source in net.freePorts && target in net.freePorts
    requires Walk(acc, source, target, net).Ok?
    ensures acc.columns <= Walk(acc, source, target, net).value.columns
  {
    var key := (source.0, target.0);
    var hops := Hops(net.paths[key], source.1, target.1, net);
    StepKeepsColumns(PairColumn(net, source, target));
    FoldKeepsColumns(StepFor(PairColumn(net, source, target)), acc, hops, |hops|);
  }

  lemma PairKeepsColumns(source: FreePort, net: Net)
    requires source in net.freePorts
    ensures forall acc: Table, target: FreePort :: PairStep(source, net)(acc, target).Ok? ==>
      acc.columns <= PairStep(source, net)(acc, target).value.columns
  {
    forall acc: Table, target: FreePort | PairStep(source, net)(acc, target).Ok?
      ensures acc.columns <= PairStep(source, net)(acc, target).value.columns
    {
      if target in net.freePorts {
        WalkKeeps(acc, source, target, net);
      }
    }
  }

  lemma SourceKeepsColumns(net: Net)
    ensures forall acc: Table, source: FreePort :: SourceStep(net)(acc, source).Ok? ==>
      acc.columns <= SourceStep(net)(acc, source).value.columns
  {
    forall acc: Table, source: FreePort | SourceStep(net)(acc, source).Ok?
      ensures acc.columns <= SourceStep(net)(acc, source).value.columns
    {
      if source in net.freePorts {
        var targets := OutTargets(net.freePorts, source.0);
        PairKeepsColumns(source, net);
        FoldKeepsColumns(PairStep(source, net), acc, targets, |targets|);
      }
    }
  }

  /** The synthesized store starts with the new component's schema; dependency columns follow it. */
  lemma SynthesizedSchema(portsNumber: int, frequencies: seq<Cell>, net: Net)
    requires Synthesized(portsNumber, frequencies, net).Ok?
    ensures ComponentModel.Schema(portsNumber) <= Synthesized(portsNumber, frequencies, net).value.columns
  {
    SourceKeepsColumns(net);
    FoldKeepsColumns(SourceStep(net), InitialTable(portsNumber, frequencies), net.freePorts, |net.freePorts|);
  }

  /** Without free ports (for instance when the cache is served) the store is the initial table. */
  lemma NoFreePortsNoHops(portsNumber: int, frequencies: seq<Cell>, net: Net)
    requires net.freePorts == []
    ensures Synthesized(portsNumber, frequencies, net) == Ok(InitialTable(portsNumber, frequencies))
  {
  }

  /** A free port on a node with no free port of another node is processed with no walk at all. */
  lemma {:induction false} LoneNodeNoWalk(acc: Table, source: FreePort, net: Net)
    requires source in net.freePorts
    requires forall x :: x in net.freePorts ==> x.0 == source.0
    ensures FromSource(acc, source, net) == Ok(acc)
  {
    OutTargetsNone(net.freePorts, source.0);
  }

  // ---------------------------------------------------------------------
  // Cascade additivity along a walk

  /** The per-hop table a hop contributes to the column `name`. */
  function HopSelection(hop: Hop, name: string): Table
  {
    Selection(hop.table, hop.outPort, hop.inPort, name)
  }

  /** No hop brings a dependency missing from the columns, so no hop expands the accumulator. */
  predicate AddsNoDependency(hops: seq<Hop>, columns: seq<string>, name: string)
  {
    forall i :: 0 <= i < |hops| ==> NewDependencies(HopSelection(hops[i], name).columns, columns) == []
  }

  /** The gains the hops add to a row, in walk order. */
  function PathGains(hops: seq<Hop>, row: Row, columns: seq<string>, name: string): (r: seq<Option<real>>)
    ensures |r| == |hops|
  {
    seq(|hops|, i requires 0 <= i < |hops| => HopGain(HopSelection(hops[i], name), row, columns, name))
  }

  /** A hop that brings no new dependency is the accumulation of its selection alone. */
  lemma HopWithoutExpansion(acc: Table, hop: Hop, name: string)
    requires NewDependencies(HopSelection(hop, name).columns, acc.columns) == []
    ensures StepFor(name)(acc, hop) == AccumulateTable(acc, HopSelection(hop, name), name)
  {
  }

  /**
   * One hop that expands nothing, writing a two-digit gain column, on an
   * accumulator that still agrees with `acc` everywhere but that column:
   * it keeps that agreement and adds the hop's gain for row k to the entry.
   */
  lemma CascadeHop(acc: Table, prev: Table, hop: Hop, name: string, k: nat, gain: Option<real>)
    requires prev.columns == acc.columns && |prev.rows| == |acc.rows| && k < |acc.rows|
    requires forall c :: c != name ==> Get(prev.rows[k], c) == Get(acc.rows[k], c)
    requires name !in CompareColumns(acc.columns) && NewDependencies(HopSelection(hop, name).columns, acc.columns) == []
    requires gain == HopGain(HopSelection(hop, name), acc.rows[k], acc.columns, name)
    requires StepFor(name)(prev, hop).Ok?
    ensures var r := StepFor(name)(prev, hop).value;
      r.columns == acc.columns && |r.rows| == |acc.rows| && !Get(prev.rows[k], name).Text? &&
      (forall c :: c != name ==> Get(r.rows[k], c) == Get(acc.rows[k], c)) &&
      Get(r.rows[k], name) == OptionCell(Combine(CellGain(Get(prev.rows[k], name)), gain))
  {
    var sel := HopSelection(hop, name);
    HopWithoutExpansion(prev, hop, name);
    AccumulateTableAt(prev, sel, name, k);
    FirstMatchAgrees(sel.rows, prev.rows[k], acc.rows[k], CompareColumns(acc.columns), sel.columns);
  }

  /**
   * What holds of row k after the first `j` hops of a walk that expands
   * nothing: the columns, the rows and every entry but `name` are those of
   * `acc`, and the entry `name` is the cascade of its first value with the
   * first `j` gains.
   */
  ghost predicate CascadeRow(acc: Table, name: string, k: nat, gains: seq<Option<real>>, j: nat, t: Table)
  {
    j <= |gains| && k < |acc.rows| &&
    t.columns == acc.columns && |t.rows| == |acc.rows| &&
    (forall c :: c != name ==> Get(t.rows[k], c) == Get(acc.rows[k], c)) &&
    (j == 0 ==> Get(t.rows[k], name) == Get(acc.rows[k], name)) &&
    (j > 0 ==>
      !Get(acc.rows[k], name).Text? &&
      Get(t.rows[k], name) == OptionCell(Cascade(CellGain(Get(acc.rows[k], name)), gains[..j])))
  }

  /** One more hop keeps CascadeRow, with one more gain. */
  lemma CascadeRowStep(acc: Table, hop: Hop, name: string, k: nat, gains: seq<Option<real>>, j: nat, t: Table)
    requires CascadeRow(acc, name, k, gains, j, t) && j < |gains|
    requires name !in CompareColumns(acc.columns) && NewDependencies(HopSelection(hop, name).columns, acc.columns) == []
    requires gains[j] == HopGain(HopSelection(hop, name), acc.rows[k], acc.columns, name)
    requires StepFor(name)(t, hop).Ok?
    ensures CascadeRow(acc, name, k, gains, j + 1, StepFor(name)(t, hop).value)
  {
    CascadeHop(acc, t, hop, name, k, gains[j]);
    CascadeRowExtend(acc, name, k, gains, j, t, StepFor(name)(t, hop).value);
  }

  /** A table whose entry `name` combines the next gain into row k's cascade keeps CascadeRow, with one more gain. */
  lemma CascadeRowExtend(acc: Table, name: string, k: nat, gains: seq<Option<real>>, j: nat, t: Table, r: Table)
    requires CascadeRow(acc, name, k, gains, j, t) && j < |gains|
    requires r.columns == acc.columns && |r.rows| == |acc.rows| && !Get(t.rows[k], name).Text?
    requires forall c :: c != name ==> Get(r.rows[k], c) == Get(acc.rows[k], c)
    requires Get(r.rows[k], name) == OptionCell(Combine(CellGain(Get(t.rows[k], name)), gains[j]))
    ensures CascadeRow(acc, name, k, gains, j + 1, r)
  {
    if j == 0 {
      assert gains[..1] == [gains[0]];
    } else {
      OptionCellGain(Cascade(CellGain(Get(acc.rows[k], name)), gains[..j]), name);
      assert gains[..j + 1][..j] == gains[..j];
    }
  }

  /**
   * A walk that expands nothing, writing a column that is not compared:
   * the columns, the rows and every other entry of row k stay, and row k's
   * entry `name` is the cascade of its first value with the hops' gains for
   * that row, `gains`.
   */
  lemma FoldIsCascade(acc: Table, hops: seq<Hop>, name: string, k: nat, gains: seq<Option<real>>)
    requires 1 <= |hops| && k < |acc.rows|
    requires name !in CompareColumns(acc.columns) && AddsNoDependency(hops, acc.columns, name)
    requires |gains| == |hops| && forall i :: 0 <= i < |hops| ==> gains[i] == HopGain(HopSelection(hops[i], name), acc.rows[k], acc.columns, name)
    requires Fold(StepFor(name), acc, hops, |hops|).Ok?
    ensures CascadeRow(acc, name, k, gains, |hops|, Fold(StepFor(name), acc, hops, |hops|).value)
  {
    var inv := (j: nat, t: Table) => CascadeRow(acc, name, k, gains, j, t);
    forall j: nat, t: Table | j < |hops| && inv(j, t) && StepFor(name)(t, hops[j]).Ok?
      ensures inv(j + 1, StepFor(name)(t, hops[j]).value)
    {
      CascadeRowStep(acc, hops[j], name, k, gains, j, t);
    }
    FoldInvariant(StepFor(name), inv, acc, hops, |hops|);
  }

  /**
   * Row k of `t` is row k of `acc` with the gains added into the entry
   * `name`: the columns, the rows and every other entry stay, the entry
   * becomes its first value plus the sum of the present gains, and it is
   * left as it was when no gain is present.
   */
  ghost predicate SummedRow(acc: Table, name: string, k: nat, gains: seq<Option<real>>, t: Table)
  {
    k < |acc.rows| && t.columns == acc.columns && |t.rows| == |acc.rows| &&
    (forall c :: c != name ==> Get(t.rows[k], c) == Get(acc.rows[k], c)) &&
    var before := CellGain(Get(acc.rows[k], name));
    (AnyPresent(gains) ==> Get(t.rows[k], name) == Num((if before.Some? then before.value else 0.0) + PresentSum(gains))) &&
    (!AnyPresent(gains) ==> Get(t.rows[k], name) == Get(acc.rows[k], name))
  }

  /** After every gain, the cascade is the sum. */
  lemma CascadeRowSum(acc: Table, name: string, k: nat, gains: seq<Option<real>>, t: Table)
    requires 1 <= |gains| && CascadeRow(acc, name, k, gains, |gains|, t)
    ensures SummedRow(acc, name, k, gains, t)
  {
    assert gains[..|gains|] == gains;
    CascadeIsSum(CellGain(Get(acc.rows[k], name)), gains);
  }

  /**
   * Cascade additivity (Circuit.py:106-164): a walk that expands nothing,
   * writing a two-digit gain column, keeps the rows and every other entry,
   * and turns row k's entry into its earlier value plus the sum, in dB, of
   * the hops' present gains for that row; when no hop has a gain for the
   * row the entry stays as it was (NaN in the initial table).
   */
  lemma WalkIsSum(acc: Table, source: FreePort, target: FreePort, net: Net, k: nat)
    requires source in net.freePorts && target in net.freePorts && k < |acc.rows|
    requires (source.0, target.0) in net.paths && IsPath(net.paths[(source.0, target.0)], source.0, target.0, net)
    requires IsTwoDigitGain(PairColumn(net, source, target))
    requires AddsNoDependency(Hops(net.paths[(source.0, target.0)], source.1, target.1, net), acc.columns, PairColumn(net, source, target))
    requires Walk(acc, source, target, net).Ok?
    ensures var name := PairColumn(net, source, target);
      SummedRow(acc, name, k, PathGains(Hops(net.paths[(source.0, target.0)], source.1, target.1, net), acc.rows[k], acc.columns, name),
        Walk(acc, source, target, net).value)
  {
    var name := PairColumn(net, source, target);
    var hops := Hops(net.paths[(source.0, target.0)], source.1, target.1, net);
    var gains := PathGains(hops, acc.rows[k], acc.columns, name);
    assert Walk(acc, source, target, net) == Fold(StepFor(name), acc, hops, |hops|);
    CompareColumnsMembers(acc.columns);
    FoldIsCascade(acc, hops, name, k, gains);
    CascadeRowSum(acc, name, k, gains, Walk(acc, source, target, net).value);
  }


  // ---------------------------------------------------------------------
  // The loops of Circuit.py:96-164

  /** Circuit.py:129-164 for one hop: ExpandNewDependencies, then AccumulateHop. */
  method AbsorbHop(acc: Table, sel: Table, name: string) returns (r: Result<Table, Failure>)
    ensures r == Absorb(acc, sel, name)
  {
    var expanded := ExpandNewDependencies(acc, sel);
    if expanded.Err? {
      return Err(expanded.error);
    }
    r := AccumulateHop(expanded.value, sel, name);
  }

  /** Circuit.py:122-164 for one node: its selection, absorbed into the accumulator. */
  method RunHop(acc: Table, hop: Hop, name: string) returns (r: Result<Table, Failure>)
    ensures r == HopStep(acc, hop, name)
  {
    var sel := Selection(hop.table, hop.outPort, hop.inPort, name);
    r := AbsorbHop(acc, sel, name);
  }

  /** The node loop of Circuit.py:106-164 over the hops of a path. */
  method RunWalk(acc: Table, hops: seq<Hop>, name: string) returns (r: Result<Table, Failure>)
    ensures r == Fold(StepFor(name), acc, hops, |hops|)
  {
    var current := acc;
    for nodeIndex := 0 to |hops|
      invariant Fold(StepFor(name), acc, hops, nodeIndex) == Ok(current)
    {
      var next := RunHop(current, hops[nodeIndex], name);
      FoldNext(StepFor(name), acc, hops, nodeIndex, current, next);
      if next.Err? {
        return next;
      }
      current := next.value;
    }
    r := Ok(current);
  }

  /** Circuit.py:102-164 for one pair of free ports: the walk along the path between their nodes. */
  method RunPair(acc: Table, source: FreePort, target: FreePort, net: Net) returns (r: Result<Table, Failure>)
    requires source in net.freePorts && target in net.freePorts
    ensures r == Walk(acc, source, target, net)
  {
    var key := (source.0, target.0);
    if key !in net.paths || !IsPath(net.paths[key], source.0, target.0, net) {
      return Err(NoPath(source.0, target.0));
    }
    var hops := Hops(net.paths[key], source.1, target.1, net);
    r := RunWalk(acc, hops, PairColumn(net, source, target));
  }

  /** The out-port loop of Circuit.py:101-164 for the in-port `source`. */
  method RunFromSource(acc: Table, source: FreePort, net: Net) returns (r: Result<Table, Failure>)
    requires source in net.freePorts
    ensures r == FromSource(acc, source, net)
  {
    var targets := OutTargets(net.freePorts, source.0);
    var current := acc;
    for j := 0 to |targets|
      invariant Fold(PairStep(source, net), acc, targets, j) == Ok(current)
    {
      OutTargetsAt(net.freePorts, source.0, j);
      var next := RunPair(current, source, targets[j], net);
      FoldNext(PairStep(source, net), acc, targets, j, current, next);
      if next.Err? {
        return next;
      }
      current := next.value;
    }
    r := Ok(current);
  }

  /** The in-port loop of Circuit.py:96-164. */
  method RunAll(acc: Table, net: Net) returns (r: Result<Table, Failure>)
    ensures r == Fold(SourceStep(net), acc, net.freePorts, |net.freePorts|)
  {
    var current := acc;
    for i := 0 to |net.freePorts|
      invariant Fold(SourceStep(net), acc, net.freePorts, i) == Ok(current)
    {
      var next := RunFromSource(current, net.freePorts[i], net);
      FoldNext(SourceStep(net), acc, net.freePorts, i, current, next);
      if next.Err? {
        return next;
      }
      current := next.value;
    }
    r := Ok(current);
  }
}
