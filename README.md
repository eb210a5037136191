# pyWaveRecipe core in Dafny

pyWaveRecipe describes RF components by their scattering parameters and
wires them into circuits. A `Component` has a number of ports and a
scattering table. The table has a frequency column,
one gain column `S{i}{j} (dB)` per ordered port pair, and any number of
dependency columns (a bias voltage, a temperature, ...). It also keeps
per-port power limits and, for each port, the list of (component, port)
pairs it is wired to. A `Circuit` is a graph: its nodes carry components
and its edges record which two ports they join. `Circuit.Synthesize` reduces a
connected circuit to a single component. Its ports are the circuit's free
ports. For every pair of free ports on different nodes, it walks the node path between
them. At each node it keeps the one transmission column for the ports the
walk uses, expands the result over new dependency values, and adds the
node's gain, in dB, into the result's `S{out}{in} (dB)` column.

The model has these modules:

- `Headers` (headers.dfy): the column names and the regular-expression filters the code applies to them.
- `ScatteringTable` (table.dfy): cells, rows and tables; the per-hop selection and renaming, the dependency expansion and the dB accumulation, each as a function plus the method that runs the source's loop.
- `ComponentModel` (component.dfy): the `Component` class, its schema, its setters and the connection lists.
- `Reduction` (reduction.dfy): Synthesize's reduction on values, and the loop methods that compute it.
- `CircuitModel` (circuit.dfy): the `Circuit` class: node and edge bookkeeping, FreePorts, ResultFrequencies and Synthesize.
- `Wrappers`, `Failures`, `Sequences` (wrappers.dfy): Option/Result and one failure per kind of exception the code raises.

Tables are values: an ordered column list and a list of rows, where a row maps column names to cells.
A name a row does not map reads as NaN (`Missing`). pandas mutations become
new table values, and each loop of the source is a method proved equal to a
fold over the same steps.

In these places the code behaves in ways a reader may not expect; the model follows the code:

- The constructor does not reject a non-positive port count. `range` is then empty, so the component has no gain columns and no ports.
- FreePorts never stores its result. Its cache stays the empty list it was created with, and it is returned whenever the circuit is not marked updated.
- ResultFrequencies keeps a frequency of the last component that *any* other component has, not one that all of them have.
- The synthesized component starts with all of its gain columns, every cell NaN, because it is built by the normal constructor.
- From eleven ports on, gain names are ambiguous: ports (1, 11) and (11, 1) both give "S111 (dB)".

## Model

| member | source | states |
|---|---|---|
| Sequences.IndexOf | pyWaveRecipe/Circuit.py:93 | `list.index`: the first position holding the element |
| Sequences.Dedup | pyWaveRecipe/Circuit.py:74 | `unique()`: the same elements, each once |
| Sequences.DedupFirstSeen | pyWaveRecipe/Circuit.py:74 | `unique()` keeps the order of first appearance: of two kept values, the one first seen earlier comes first |
| Headers.GainHeaderInjective | pyWaveRecipe/Component/Component.py:9 | below ten ports, different ordered port pairs get different gain names |
| Headers.WideGainHeadersCollide | pyWaveRecipe/Component/Component.py:9 | from eleven ports on, the pairs (1, 11) and (11, 1) share the name "S111 (dB)" |
| Headers.DecimalDigits | pyWaveRecipe/Component/Component.py:9 | every character of a formatted port number is a digit |
| Headers.HasPrefixIsTake | pyWaveRecipe/Component/Component.py:40 | the anchored regex test matches exactly when the name begins with the literal text |
| Headers.SingleDigitHeader | pyWaveRecipe/Component/Component.py:40 | a gain name with single-digit ports matches `S\d{2} \(dB\)`, so it is not a dependency |
| Headers.InnerLineBreakFiltered | pyWaveRecipe/Component/Component.py:40 | a name with a line break before its last character fails the `.*$` tail of every filter, so it is neither a dependency, nor kept for a hop, nor compared |
| Headers.GainHeaderOneLine | pyWaveRecipe/Component/Component.py:9 | every gain name passes the `.*$` tail |
| Headers.WideHeaderIsDependency | pyWaveRecipe/Component/Component.py:40 | a gain name is classed as a dependency exactly when one of its ports has two or more digits |
| Headers.KeptGainIsRequestedPair | pyWaveRecipe/Circuit.py:125 | for single-digit ports, the per-hop filter keeps a gain column exactly when it is the requested (out, in) pair |
| ScatteringTable.DistinctPresentIsSet | pyWaveRecipe/Circuit.py:134 | `set(column.dropna())`: each non-missing value of the column, once |
| ScatteringTable.DependenciesMembers | pyWaveRecipe/Component/Component.py:39-40 | GET_DEPENDENCIES keeps exactly the columns that are neither the frequency nor a two-digit gain column and hold no line break before their last character |
| ScatteringTable.DependenciesInOrder | pyWaveRecipe/Component/Component.py:39-40 | the dependencies come in column order: with distinct column names, they are listed without repeats, an earlier one at an earlier column |
| ScatteringTable.CompareColumnsMembers | pyWaveRecipe/Circuit.py:149 | the compared columns are exactly the columns that are not two-digit gain columns and hold no line break before their last character |
| ScatteringTable.KeptColumnsMembers | pyWaveRecipe/Circuit.py:125 | the per-hop filter keeps exactly the one-line columns that are not two-digit gain columns, or are the requested pair's |
| ScatteringTable.SelectHopShape | pyWaveRecipe/Circuit.py:125 | the selection keeps those columns and, in every row, their entries; it drops the rest |
| ScatteringTable.RenameColumnShape | pyWaveRecipe/Circuit.py:127 | renaming moves one column's entries to the new name and changes no other entry; it is a no-op when the column is absent |
| ScatteringTable.ExpandedRowsLength | pyWaveRecipe/Circuit.py:137-144 | expanding over n values multiplies the row count by n |
| ScatteringTable.ExpandedRowAt | pyWaveRecipe/Circuit.py:137-144 | row j·rows+k of the expansion is row k tagged with value j; no other column changes |
| ScatteringTable.ExpandedRowsMembership | pyWaveRecipe/Circuit.py:137-144 | the expanded rows are exactly the original rows tagged with one of the values |
| ScatteringTable.ExpandDependency | pyWaveRecipe/Circuit.py:137-144 | the pop/copy/concat loop computes the expansion |
| ScatteringTable.NewDependenciesIsSet | pyWaveRecipe/Circuit.py:130-133 | the new dependencies are the set difference of the hop's dependencies and the result's columns, each once |
| ScatteringTable.ExpandAllSucceeds | pyWaveRecipe/Circuit.py:133-137 | the expansion raises exactly when some new dependency has no non-missing value (`pop` of an empty set) |
| ScatteringTable.ExpandAllShape | pyWaveRecipe/Circuit.py:133-144 | a successful expansion appends the new dependencies as columns and multiplies the rows by the product of their value counts |
| ScatteringTable.ExpandNewDependencies | pyWaveRecipe/Circuit.py:133-144 | the dependency loop computes the expansion, failing at the first dependency without values |
| ScatteringTable.FirstMatchIsFirst | pyWaveRecipe/Circuit.py:153-158 | the row used is the first per-hop row matching every compared column the hop has; none is found exactly when no row matches |
| ScatteringTable.AccumulateRowWrites | pyWaveRecipe/Circuit.py:152-164 | one row step changes only the pair's column: current and added dB combined, a NaN on either side skipped |
| ScatteringTable.AccumulatePrefixRows | pyWaveRecipe/Circuit.py:152-164 | a successful accumulation keeps the row count, and each row is stepped on its own |
| ScatteringTable.AccumulatePrefixFails | pyWaveRecipe/Circuit.py:152-164 | after a row step raises, the accumulation's result is that error |
| ScatteringTable.AccumulateNext | pyWaveRecipe/Circuit.py:152-164 | after one row step, the loop either goes on with the updated row or ends with the step's error |
| ScatteringTable.AccumulateHop | pyWaveRecipe/Circuit.py:152-164 | the row loop, writing entries in place, computes the accumulation |
| ScatteringTable.FirstMatchAgrees | pyWaveRecipe/Circuit.py:153-156 | two result rows that agree on every compared column find the same per-hop row |
| ScatteringTable.AccumulateTableAt | pyWaveRecipe/Circuit.py:152-164 | after one accumulation, row k's pair entry is its old dB value combined with the pair entry of the first matching per-hop row; the columns, the row count and every other entry stay |
| ScatteringTable.CascadeIsSum | pyWaveRecipe/Circuit.py:160-164 | a sequence of such combinations gives the first value plus the sum of the present dB values; it stays NaN only if every value is NaN (used by Reduction.WalkIsSum) |
| ComponentModel.PortSet | pyWaveRecipe/Component/Component.py:71 | the connection map's keys are exactly the ports 1..n |
| ComponentModel.GainNames | pyWaveRecipe/Component/Component.py:57-61 | the nested port loops produce the schema's gain names |
| ComponentModel.GainColumnsLength | pyWaveRecipe/Component/Component.py:57-61 | there are n·n gain columns |
| ComponentModel.GainColumnsAt | pyWaveRecipe/Component/Component.py:57-61 | position (i-1)·n+(j-1) holds S{i}{j}, with the outer loop on the first port |
| ComponentModel.GainColumnsOnly | pyWaveRecipe/Component/Component.py:57-61 | every gain column is S{i}{j} for ports i, j in 1..n |
| ComponentModel.NewSchemaDependencies | pyWaveRecipe/Component/Component.py:57-61 | a new component of at most nine ports has no dependency columns; one of ten or more counts its own S{10}{10} (dB) as one |
| ComponentModel.RemoveFirstMultiset | pyWaveRecipe/Component/Component.py:82-83 | `list.remove` takes out exactly one copy |
| ComponentModel.AppendedCount | pyWaveRecipe/Component/Component.py:78-79 | an append adds one to the count of that one link on that one port |
| ComponentModel.RemovedCount | pyWaveRecipe/Component/Component.py:82-83 | a removal takes one from the count of that one link on that one port |
| ComponentModel.AppendedClosed | pyWaveRecipe/Component/Component.py:78-79 | appending a link to an existing component and port keeps every link pointing at an existing port |
| ComponentModel.RemovedClosed | pyWaveRecipe/Component/Component.py:82-83 | removing a link keeps every link pointing at an existing port |
| ComponentModel.ConnectKeepsSymmetry | pyWaveRecipe/Component/Component.py:77-79 | `__connect__` keeps the connection lists symmetric |
| ComponentModel.ConnectKeepsBalance | pyWaveRecipe/Component/Component.py:77-79 | after `__connect__`, A:p lists B:q as often as B:q lists A:p |
| ComponentModel.DisconnectKeepsSymmetry | pyWaveRecipe/Component/Component.py:81-83 | in a symmetric view, `__disconnect__` of a present pair with two different ends finds the reverse entry and keeps the lists symmetric |
| ComponentModel.DisconnectKeepsBalance | pyWaveRecipe/Component/Component.py:81-83 | two matching removals keep A:p→B:q and B:q→A:p counts equal |
| ComponentModel.RemovedAppended | pyWaveRecipe/Component/Component.py:78-83 | removing a link just appended, which the port did not hold, restores the view |
| ComponentModel.RemovedAppendedCommute | pyWaveRecipe/Component/Component.py:78-83 | an append and a removal on different ports commute |
| ComponentModel.ConnectThenDisconnect | pyWaveRecipe/Component/Component.py:77-83 | connecting two unlinked ports and then disconnecting them gives back the same connection lists |
| ComponentModel.Component.constructor | pyWaveRecipe/Component/Component.py:54-71 | the schema, no rows, no stored power limits, connection keys 1..n, every list empty |
| ComponentModel.Component.New | pyWaveRecipe/Component/Component.py:54-71 | the default leaves maxPowers None; a finite number raises (`len()` of a number); an explicit list raises unless its length is the port count, and otherwise it is stored |
| ComponentModel.Component.DependencyColumns | pyWaveRecipe/Component/Component.py:41-43 | `Dependancies`: the store's columns that are dependencies, in column order when the column names are distinct |
| ComponentModel.Component.SetMaxPowers | pyWaveRecipe/Component/Component.py:48-52 | the setter raises on a wrong length and changes nothing; otherwise it stores the list |
| ComponentModel.Component.SetSMatrices | pyWaveRecipe/Component/Component.py:35-36 | the store is replaced by the new table; nothing else changes |
| ComponentModel.Component.Connect | pyWaveRecipe/Component/Component.py:77-79 | it appends to both lists, or raises at the first missing port, keeping the first append; the lists only grow |
| ComponentModel.Component.Disconnect | pyWaveRecipe/Component/Component.py:81-83 | it removes the first matching entry from both lists, or raises at the first missing port or entry, keeping the earlier step |
| Reduction.CommonPort | pyWaveRecipe/Circuit.py:90-93 | commonPort is the 1-based position of the free port in the free-port list |
| Reduction.CommonPortIsPosition | pyWaveRecipe/Circuit.py:90-93 | with distinct free ports, the i-th port gets number i+1 |
| Reduction.CommonPortInjective | pyWaveRecipe/Circuit.py:90-93 | different free ports get different numbers |
| Reduction.OutTargetsMembers | pyWaveRecipe/Circuit.py:101 | the out-ports are exactly the free ports on another node than the in-port's |
| Reduction.OutTargetsAt | pyWaveRecipe/Circuit.py:101 | every out-port is a free port on another node |
| Reduction.OutTargetsNone | pyWaveRecipe/Circuit.py:101 | when every free port is on the in-port's node, there are no out-ports |
| Reduction.FoldFails | pyWaveRecipe/Circuit.py:96-164 | once a step of the nested loops raises, the result is that error |
| Reduction.FoldNext | pyWaveRecipe/Circuit.py:96-164 | after one step, the loop either goes on with the step's table or ends with its error |
| Reduction.FoldKeepsColumns | pyWaveRecipe/Circuit.py:96-164 | if every step keeps the result's columns as a prefix, the loop does too |
| Reduction.FoldInvariant | pyWaveRecipe/Circuit.py:106-164 | a property that every successful step carries from position j to j+1 holds after the whole loop |
| Reduction.CascadeHop | pyWaveRecipe/Circuit.py:122-164 | a hop that adds no dependency combines its gain for row k into row k's pair entry and changes nothing else |
| Reduction.CascadeRowStep | pyWaveRecipe/Circuit.py:106-164 | after j+1 hops, row k's pair entry is the cascade of its first value with the first j+1 per-hop gains |
| Reduction.FoldIsCascade | pyWaveRecipe/Circuit.py:106-164 | after the whole walk, row k's pair entry is the cascade of its first value with every per-hop gain; every other entry of row k stays |
| Reduction.WalkIsSum | pyWaveRecipe/Circuit.py:103-164 | when no hop adds a dependency, row k's pair entry after the walk is its first value plus the sum of the present per-hop gains, each taken from the first per-hop row matching row k; it is unchanged when no gain is present, and nothing else in row k changes |
| Reduction.InitialTable | pyWaveRecipe/Circuit.py:86-88 | the new component's schema, one row per result frequency, every gain NaN |
| Reduction.AbsorbShape | pyWaveRecipe/Circuit.py:129-164 | one hop appends its new dependencies as columns, multiplies the rows by their value counts and changes no entry but the pair's column |
| Reduction.StepKeepsColumns | pyWaveRecipe/Circuit.py:122-164 | a hop keeps the result's columns, in place |
| Reduction.WalkKeeps | pyWaveRecipe/Circuit.py:103-164 | a walk keeps the result's columns, in place |
| Reduction.PairKeepsColumns | pyWaveRecipe/Circuit.py:101-164 | every out-port pass keeps the result's columns |
| Reduction.SourceKeepsColumns | pyWaveRecipe/Circuit.py:96-164 | every in-port pass keeps the result's columns |
| Reduction.SynthesizedSchema | pyWaveRecipe/Circuit.py:87-164 | the synthesized store begins with the new component's schema |
| Reduction.NoFreePortsNoHops | pyWaveRecipe/Circuit.py:96 | without free ports the store is the initial table |
| Reduction.LoneNodeNoWalk | pyWaveRecipe/Circuit.py:101 | a free port whose node has no free-port partner elsewhere is passed without a walk |
| Reduction.AbsorbHop | pyWaveRecipe/Circuit.py:129-164 | expansion, then accumulation, as one hop defines them |
| Reduction.RunHop | pyWaveRecipe/Circuit.py:122-164 | one node: its selection, absorbed into the result |
| Reduction.RunWalk | pyWaveRecipe/Circuit.py:106-164 | the node loop computes the fold of the hop steps along the path |
| Reduction.RunPair | pyWaveRecipe/Circuit.py:102-164 | one pair: the walk along the path, or NoPath when there is none |
| Reduction.RunFromSource | pyWaveRecipe/Circuit.py:101-164 | the out-port loop computes the fold over the out-ports |
| Reduction.RunAll | pyWaveRecipe/Circuit.py:96-164 | the in-port loop computes the fold over the free ports |
| CircuitModel.FreeOfComponentMembers | pyWaveRecipe/Circuit.py:65-67 | a component's free ports are its ports with an empty connection list, in ascending order, each once |
| CircuitModel.FreeOfNodesMembers | pyWaveRecipe/Circuit.py:63-68 | the free ports are the unconnected ports of the nodes, grouped node by node, each once |
| CircuitModel.FreePortsFrom | pyWaveRecipe/Circuit.py:60-71 | the loops recompute the free ports when the circuit is marked updated, and otherwise return the cache |
| CircuitModel.KeepShared | pyWaveRecipe/Circuit.py:77-79 | it keeps exactly the candidates some other column has, without adding duplicates |
| CircuitModel.KeepSharedNothing | pyWaveRecipe/Circuit.py:77-79 | with no other column, nothing is kept |
| CircuitModel.ResultFrequenciesMembers | pyWaveRecipe/Circuit.py:73-80 | the result frequencies are the non-missing frequencies of the last component that some other component has, each once |
| CircuitModel.SharedFrequencies | pyWaveRecipe/Circuit.py:73-80 | the two loops of ResultFrequencies compute that list, or fail on a missing column or an empty circuit |
| CircuitModel.SingleComponentNoFrequencies | pyWaveRecipe/Circuit.py:73-80 | a single component gives no frequencies |
| CircuitModel.Circuit.constructor | pyWaveRecipe/Circuit.py:10-13 | an empty graph, not updated, with an empty cache |
| CircuitModel.Circuit.Tables | pyWaveRecipe/Circuit.py:16-17 | the components' tables in node order |
| CircuitModel.Circuit.FreePortsMembers | pyWaveRecipe/Circuit.py:60-68 | a recomputed free port is exactly an existing port of a node with an empty connection list; no port appears twice |
| CircuitModel.Circuit.AddNode | pyWaveRecipe/Circuit.py:19-22 | it marks the circuit updated, appends a new node and sets the node's component |
| CircuitModel.NodesAfterShape | pyWaveRecipe/Circuit.py:31-33 | after add_nodes_from the old nodes come first, in order, followed by the added nodes that were new, each once, in the order they first occur |
| CircuitModel.ComponentsAfterAt | pyWaveRecipe/Circuit.py:31-33 | after add_nodes_from an added node has the component of its last pair; every other node keeps its component |
| CircuitModel.Circuit.AddNodesFrom | pyWaveRecipe/Circuit.py:31-33 | add_node for each pair of the zip of nodes and components: the node list and the component map are those of NodesAfter and ComponentsAfter on the zipped pairs |
| CircuitModel.Circuit.MarkUpdated | pyWaveRecipe/Circuit.py:40 | only the updated flag changes |
| CircuitModel.Circuit.AddEdge | pyWaveRecipe/Circuit.py:39-43 | it marks the circuit updated, appends (v, v port) to u's port list and then (u, u port) to v's, or raises at the first missing node or port, keeping the earlier steps; the exact new lists, also when u and v share a component; no other list changes; edge tags that recorded a wiring still do |
| CircuitModel.Circuit.ConnectNodes | pyWaveRecipe/Circuit.py:41-43 | it connects the ports with the exact new lists, then tags the edge with (u, u port, v port); edge tags that recorded a wiring still do, and so does the new one |
| CircuitModel.Circuit.TagEdge | pyWaveRecipe/Circuit.py:43 | the edge gets its tag and nothing else changes; a tag that records an existing wiring keeps every tag wired |
| CircuitModel.TagKeepsWired | pyWaveRecipe/Circuit.py:43 | adding a wired tag to wired tags keeps them all wired |
| CircuitModel.Circuit.HopsLinked | pyWaveRecipe/Circuit.py:106-120 | when every edge tag records a wiring, the port by which a walk leaves a node and the port by which it enters the next node list each other |
| CircuitModel.Circuit.AddEdgesFrom | pyWaveRecipe/Circuit.py:49-51 | as written, any non-empty ebunch raises before an edge is added |
| CircuitModel.Circuit.AddEdgesFromIntended | pyWaveRecipe/Circuit.py:49-51 | add_edge for each element, stopping at the first that raises: a fully added ebunch has every edge tagged |
| CircuitModel.Circuit.AddWeightedEdgesFrom | pyWaveRecipe/Circuit.py:57-58 | it always raises |
| CircuitModel.Circuit.FreePorts | pyWaveRecipe/Circuit.py:60-71 | the property recomputes the free ports when the circuit is marked updated; otherwise it returns the cache, which is always empty |
| CircuitModel.Circuit.ResultFrequencies | pyWaveRecipe/Circuit.py:73-80 | ResultFrequencies on the components' tables in node order |
| CircuitModel.Circuit.Synthesize | pyWaveRecipe/Circuit.py:82-170 | a disconnected circuit raises; otherwise the result is a fresh component with ΣPortsNumber − 2·edges ports, no power limits, no connections and the reduced store, or the reduction's error |
| CircuitModel.Reduce | pyWaveRecipe/Circuit.py:83-164 | the connectivity check, the result frequencies, the free ports and the reduction of the initial table |

## Left out

- CSV reading and writing (`ToCSVStream`, `FromCSVStream` and the rest) and setup.py: I/O outside the core.
- networkx: `connected_components` and `shortest_path` become inputs to Synthesize: a component count and a map of node paths. A missing or malformed path gives NoPath.
- `remove_node`, `remove_nodes_from`, `remove_edge` and `remove_edges_from`: not part of the modelled core.
- The SMatrices getter's frequency and argument filters, and the merge branch of its setter: not part of the modelled core. Only the no-argument setter is modelled.
- The maximum-power budget that Synthesize only describes in comments (Circuit.py:166-168) computes nothing, and is not modelled.
- Floating point: gains and frequencies are reals. NaN is the `Missing` cell, and dB sums are exact.
- Python set order: new dependencies are taken in the selection's column order, and dependency values in order of first occurrence. The source iterates sets, whose order is unspecified.
- Duplicate column names: pandas allows them, but the model treats a table's columns as names with one entry per row.
- `outNode is not inNode` (Circuit.py:101) is modelled as `!=` on node identifiers.
- `reset_index` (Circuit.py:147) has no counterpart: rows are a plain list with positions 0..n-1.
- Synthesize's mutations of `result.SMatrices` are modelled as table values threaded through the loops. The method then stores the final table with the SMatrices setter.
- CircuitModel.Circuit.AddEdge: re-adding an edge between the same two nodes overwrites its tag, and the model keeps only the newest. Both components still hold both connection entries.
- Reduction.PairStep, Reduction.SourceStep: their branches for a port that is not free are never taken, because the loops only visit free ports.
- ComponentModel.Component.Connect, ComponentModel.Component.Disconnect: their contracts state the new connection lists. The symmetry these operations keep is proved on connection maps taken as values (ConnectKeepsSymmetry, DisconnectKeepsSymmetry), not as an invariant over the heap.
- Reduction.WalkIsSum: it is stated only for walks where no hop adds a new dependency, and for a pair column that is a two-digit gain column. With a new dependency the rows multiply, and row k after the walk is no longer row k of the start. AbsorbShape states what such a hop does.
- Headers.IsDigit: it accepts the ASCII digits only. Python's `\d` also matches other Unicode decimal digits. The gain names the code builds hold ASCII digits only, but a dependency name read from a table could hold others.
- Node identifiers are integers. networkx accepts any hashable object as a node.
- CircuitModel.Circuit.AddNode, CircuitModel.Circuit.AddNodesFrom: their effect on the edge-wiring invariant (EdgesLinked) is not stated. It is kept unless a node that ends an edge gets a different component, which breaks the tags of that node's edges.
- Headers.KeptGainIsRequestedPair: it is stated for single-digit ports only. With wider port numbers the source's `\d{2}` filter matches other names, and WideHeaderIsDependency covers that case.

## Findings

| source | as written | input that shows it | evidently intended | confidence | as-written member | corrected member |
|---|---|---|---|---|---|---|
| pyWaveRecipe/Circuit.py:49-51 | add_edges_from passes `edge_attr` as a fifth positional argument to add_edge, which accepts four | any non-empty ebunch, e.g. `[(1, 1, 2, 1)]`: a TypeError before any edge is added | add_edge for each element, with the extra attributes as keyword attributes | high, not executed | CircuitModel.Circuit.AddEdgesFrom | CircuitModel.Circuit.AddEdgesFromIntended |
