/** Presets: the whole graph as one value, exported and imported. */
module Preset {
  import opened Common
  import opened Topology
  import opened Controller

  const PRESET_VERSION := 1

  datatype PresetNode = PresetNode(id: usize, labelText: string, inputs: u16, outputs: u16, kind: Option<string>,
                                   params: Option<NodeParams>)
  datatype PresetLink = PresetLink(from: usize, fromPort: u16, to: usize, toPort: u16)
  datatype PresetFile = PresetFile(version: u32, nodes: seq<PresetNode>, links: seq<PresetLink>)

  function Exported(c: Registry): (p: PresetFile)
    ensures p.version == PRESET_VERSION
    ensures |p.nodes| == |c.topology.nodes| && |p.links| == |c.topology.edges|
    ensures forall i :: 0 <= i < |p.nodes| ==> p.nodes[i] == NodeOf(Info(c, c.topology.nodes[i]))
    ensures forall i :: 0 <= i < |p.links| ==> p.links[i] == PresetLinkOf(c.topology.edges[i])
  {
    PresetFile(PRESET_VERSION,
               seq(|ListNodes(c)|, i requires 0 <= i < |ListNodes(c)| => NodeOf(ListNodes(c)[i])),
               seq(|ListLinks(c)|, i requires 0 <= i < |ListLinks(c)| =>
                     var l := ListLinks(c)[i]; PresetLink(l.from, l.fromPort, l.to, l.toPort)))
  }

  function NodeOf(info: NodeInfo): PresetNode {
    PresetNode(info.id, info.labelText, info.inputs, info.outputs, info.kind, info.params)
  }

  function PresetLinkOf(e: SnapshotEdge): PresetLink {
    PresetLink(e.from, e.fromPort % 65536, e.to, e.toPort % 65536)
  }

  // ----- import, one store mutation at a time ---------------------------------------------------------

  datatype Action = Drop(id: usize) | Put(node: PresetNode) | Wire(link: PresetLink)

  function Snapshotted(n: PresetNode): NodeSnapshot {
    NodeSnapshot(n.id, BuildPorts(n.inputs, Input), BuildPorts(n.outputs, Output))
  }

  function EdgeOf(l: PresetLink): SnapshotEdge {
    SnapshotEdge(l.from, l.fromPort, l.to, l.toPort)
  }

  function Performed(c: Registry, a: Action): Registry {
    match a
    case Drop(id) => Deleted(c, id)
    case Put(n) => Recorded(c, Snapshotted(n), n.labelText, n.kind, n.params)
    case Wire(l) => c.(topology := Apply(c.topology, AddLink(EdgeOf(l))))
  }

  function PerformedAll(c: Registry, actions: seq<Action>): Registry {
    if actions == [] then c else Performed(PerformedAll(c, actions[..|actions| - 1]), actions[|actions| - 1])
  }

  function Drops(nodes: seq<NodeSnapshot>): (actions: seq<Action>)
    ensures |actions| == |nodes| && forall i :: 0 <= i < |nodes| ==> actions[i] == Drop(nodes[i].id)
  {
    seq(|nodes|, i requires 0 <= i < |nodes| => Drop(nodes[i].id))
  }

  function Puts(nodes: seq<PresetNode>): (actions: seq<Action>)
    ensures |actions| == |nodes| && forall i :: 0 <= i < |nodes| ==> actions[i] == Put(nodes[i])
  {
    seq(|nodes|, i requires 0 <= i < |nodes| => Put(nodes[i]))
  }

  function Wires(links: seq<PresetLink>): (actions: seq<Action>)
    ensures |actions| == |links| && forall i :: 0 <= i < |links| ==> actions[i] == Wire(links[i])
  {
    seq(|links|, i requires 0 <= i < |links| => Wire(links[i]))
  }

  function Actions(c: Registry, p: PresetFile): seq<Action> {
    Drops(c.topology.nodes) + Puts(p.nodes) + Wires(p.links)
  }

  function Imported(c: Registry, p: PresetFile): Registry {
    PerformedAll(c, Actions(c, p))
  }

  lemma {:induction false} PerformNext(c: Registry, actions: seq<Action>, k: nat)
    requires k < |actions|
    ensures PerformedAll(c, actions[..k + 1]) == Performed(PerformedAll(c, actions[..k]), actions[k])
  {
    assert actions[..k + 1][..k] == actions[..k];
  }

  lemma {:induction false} PerformSplit(c: Registry, a: seq<Action>, b: seq<Action>)
    ensures PerformedAll(c, a + b) == PerformedAll(PerformedAll(c, a), b)
  {
    hide Performed;
    if b == [] {
      assert a + b == a;
    } else {
      var n := |b| - 1;
      assert (a + b)[..|a| + n] == a + b[..n];
      PerformSplit(c, a, b[..n]);
    }
  }

  /** The import loops. The store refuses the mutation number `refuseAt`, if there are that many. */
  method ImportPreset(c: GraphController, p: PresetFile, refuseAt: nat) returns (r: Result<(), ControlError>)
    modifies c
    ensures var all := Actions(old(c.State()), p);
            && r == (if refuseAt < |all| then Err(GraphError) else Ok(()))
            && c.State() == PerformedAll(old(c.State()), if refuseAt < |all| then all[..refuseAt] else all)
  {
    hide Performed, PerformedAll;
    ghost var all := Actions(c.State(), p);
    ghost var start := c.State();
    var existing := c.topology.nodes;
    var calls := 0;
    PerformNone(start, all);
    while calls < |existing|
      invariant 0 <= calls <= |existing| && calls <= refuseAt
      invariant c.State() == PerformedAll(start, all[..calls])
    {
      if calls == refuseAt {
        return Err(GraphError);
      }
      assert all[calls] == Drop(existing[calls].id);
      DropNode(c, existing[calls].id);
      PerformNext(start, all, calls);
      calls := calls + 1;
    }
    var i := 0;
    while i < |p.nodes|
      invariant 0 <= i <= |p.nodes| && calls == |existing| + i && calls <= refuseAt
      invariant c.State() == PerformedAll(start, all[..calls])
    {
      if calls == refuseAt {
        return Err(GraphError);
      }
      assert all[calls] == Put(p.nodes[i]);
      PutNode(c, p.nodes[i]);
      PerformNext(start, all, calls);
      i, calls := i + 1, calls + 1;
    }
    var j := 0;
    while j < |p.links|
      invariant 0 <= j <= |p.links| && calls == |existing| + |p.nodes| + j && calls <= refuseAt
      invariant c.State() == PerformedAll(start, all[..calls])
    {
      if calls == refuseAt {
        return Err(GraphError);
      }
      assert all[calls] == Wire(p.links[j]);
      WireLink(c, p.links[j]);
      PerformNext(start, all, calls);
      j, calls := j + 1, calls + 1;
    }
    assert all[..calls] == all;
    r := Ok(());
  }

  lemma {:induction false} PerformNone(c: Registry, actions: seq<Action>)
    ensures PerformedAll(c, actions[..0]) == c
  {
  }

  method DropNode(c: GraphController, id: usize)
    modifies c
    ensures c.State() == Performed(old(c.State()), Drop(id))
  {
    c.topology := Apply(c.topology, RemoveNode(id));
    c.labels := c.labels - {id};
    c.kinds := c.kinds - {id};
    c.params := c.params - {id};
  }

  method PutNode(c: GraphController, node: PresetNode)
    modifies c
    ensures c.State() == Performed(old(c.State()), Put(node))
  {
    var snapshot := NodeSnapshot(node.id, BuildPorts(node.inputs, Input), BuildPorts(node.outputs, Output));
    c.topology := Apply(c.topology, AddNode(snapshot));
    c.labels := c.labels[node.id := node.labelText];
    if node.kind.Some? {
      c.kinds := c.kinds[node.id := node.kind.value];
    }
    if node.params.Some? {
      c.params := c.params[node.id := node.params.value];
    }
  }

  method WireLink(c: GraphController, link: PresetLink)
    modifies c
    ensures c.State() == Performed(old(c.State()), Wire(link))
  {
    c.topology := Apply(c.topology, AddLink(SnapshotEdge(link.from, link.fromPort, link.to, link.toPort)));
  }

  // ----- dropping ---------------------------------------------------------------------------------------

  ghost predicate TouchesSome(nodes: seq<NodeSnapshot>, e: SnapshotEdge) {
    exists n :: n in nodes && Touches(e, n.id)
  }

  /** `m'` is `m` without the keys among `nodes`. */
  ghost predicate Pruned<V>(m: map<usize, V>, m': map<usize, V>, nodes: seq<NodeSnapshot>) {
    forall id :: Get(m', id) == if HasNode(nodes, id) then None else Get(m, id)
  }

  ghost predicate Dropped(c: Registry, d: Registry, nodes: seq<NodeSnapshot>) {
    && (forall n :: n in d.topology.nodes <==> n in c.topology.nodes && !HasNode(nodes, n.id))
    && (forall e :: e in d.topology.edges <==> e in c.topology.edges && !TouchesSome(nodes, e))
    && Pruned(c.labels, d.labels, nodes) && Pruned(c.kinds, d.kinds, nodes) && Pruned(c.params, d.params, nodes)
  }

  lemma {:induction false} PruneOne<V>(m: map<usize, V>, m': map<usize, V>, nodes: seq<NodeSnapshot>, n: NodeSnapshot)
    requires Pruned(m, m', nodes)
    ensures Pruned(m, m' - {n.id}, nodes + [n])
  {
    forall id ensures HasNode(nodes + [n], id) <==> HasNode(nodes, id) || id == n.id {
      HasAppended(nodes, n, id);
    }
  }

  lemma {:induction false} TouchesSnoc(nodes: seq<NodeSnapshot>, n: NodeSnapshot, e: SnapshotEdge)
    ensures TouchesSome(nodes + [n], e) <==> TouchesSome(nodes, e) || Touches(e, n.id)
  {
    assert n in nodes + [n];
    if TouchesSome(nodes, e) {
      var x :| x in nodes && Touches(e, x.id);
      assert x in nodes + [n];
    }
  }

  lemma {:induction false} DropOne(c: Registry, d: Registry, nodes: seq<NodeSnapshot>, n: NodeSnapshot)
    requires Dropped(c, d, nodes)
    ensures Dropped(c, Deleted(d, n.id), nodes + [n])
  {
    hide Pruned, HasNode, TouchesSome, Touches, WithoutNode, WithoutEdges;
    PruneOne(c.labels, d.labels, nodes, n);
    PruneOne(c.kinds, d.kinds, nodes, n);
    PruneOne(c.params, d.params, nodes, n);
    var d' := Deleted(d, n.id);
    forall x ensures x in d'.topology.nodes <==> x in c.topology.nodes && !HasNode(nodes + [n], x.id) {
      HasAppended(nodes, n, x.id);
    }
    forall e ensures e in d'.topology.edges <==> e in c.topology.edges && !TouchesSome(nodes + [n], e) {
      TouchesSnoc(nodes, n, e);
    }
  }

  lemma {:induction false} DropNothing(c: Registry)
    ensures Dropped(c, c, [])
  {
  }

  lemma {:induction false} DropAll(c: Registry, nodes: seq<NodeSnapshot>)
    ensures Dropped(c, PerformedAll(c, Drops(nodes)), nodes)
  {
    hide Dropped, Deleted;
    if nodes == [] {
      DropNothing(c);
    } else {
      var n := |nodes| - 1;
      DropAll(c, nodes[..n]);
      assert Drops(nodes)[..n] == Drops(nodes[..n]);
      DropOne(c, PerformedAll(c, Drops(nodes[..n])), nodes[..n], nodes[n]);
      assert nodes[..n] + [nodes[n]] == nodes;
    }
  }

  /** What is left of a state after the first loop of an import. */
  function Residue(c: Registry): Registry {
    PerformedAll(c, Drops(c.topology.nodes))
  }

  lemma {:induction false} ResidueHasNoNodes(c: Registry)
    ensures Residue(c).topology.nodes == []
    ensures Residue(c).topology.edges == [] <==> forall e :: e in c.topology.edges ==> TouchesSome(c.topology.nodes, e)
    ensures Dropped(c, Residue(c), c.topology.nodes)
  {
    hide PerformedAll;
    var d := Residue(c);
    assert d.topology.nodes != [] ==> d.topology.nodes[0] in d.topology.nodes;
    forall x | x in c.topology.nodes ensures HasNode(c.topology.nodes, x.id) {
      HasNodeMeans(c.topology.nodes, x.id);
    }
    DropAll(c, c.topology.nodes);
    if d.topology.edges != [] {
      assert d.topology.edges[0] in d.topology.edges;
    }
  }

  // ----- putting ------------------------------------------------------------------------------------------

  ghost predicate DistinctNodes(nodes: seq<PresetNode>) {
    forall i, j :: 0 <= i < j < |nodes| ==> nodes[i].id != nodes[j].id
  }

  ghost predicate Used(nodes: seq<PresetNode>, id: usize) {
    exists i :: 0 <= i < |nodes| && nodes[i].id == id
  }

  function Snapshots(nodes: seq<PresetNode>): (ss: seq<NodeSnapshot>)
    ensures |ss| == |nodes| && forall i :: 0 <= i < |nodes| ==> ss[i] == Snapshotted(nodes[i])
  {
    seq(|nodes|, i requires 0 <= i < |nodes| => Snapshotted(nodes[i]))
  }

  function Or<V>(a: Option<V>, b: Option<V>): Option<V> { if a.Some? then a else b }

  /** The registries after the nodes went in on top of `d`: entries of other ids as in `d`, entries of
      these ids as in the preset, falling back to `d` where the preset has none. */
  ghost predicate Registered(d: Registry, c: Registry, nodes: seq<PresetNode>) {
    && (forall i :: 0 <= i < |nodes| ==>
          && Get(c.labels, nodes[i].id) == Some(nodes[i].labelText)
          && Get(c.kinds, nodes[i].id) == Or(nodes[i].kind, Get(d.kinds, nodes[i].id))
          && Get(c.params, nodes[i].id) == Or(nodes[i].params, Get(d.params, nodes[i].id)))
    && (forall id :: !Used(nodes, id) ==>
          && Get(c.labels, id) == Get(d.labels, id) && Get(c.kinds, id) == Get(d.kinds, id)
          && Get(c.params, id) == Get(d.params, id))
  }

  lemma {:induction false} UsedSnoc(nodes: seq<PresetNode>, n: PresetNode, id: usize)
    ensures Used(nodes + [n], id) <==> Used(nodes, id) || id == n.id
  {
    assert (nodes + [n])[|nodes|] == n;
    if Used(nodes, id) {
      var i :| 0 <= i < |nodes| && nodes[i].id == id;
      assert (nodes + [n])[i] == nodes[i];
    }
  }

  /** How many nodes are there after the puts: all of them exactly when the ids are distinct. */
  lemma {:induction false} PutNodes(d: Registry, nodes: seq<PresetNode>)
    requires d.topology.nodes == []
    ensures var c := PerformedAll(d, Puts(nodes));
            && c.topology.edges == d.topology.edges
            && (forall id :: HasNode(c.topology.nodes, id) <==> Used(nodes, id))
            && |c.topology.nodes| <= |nodes|
            && (DistinctNodes(nodes) ==> c.topology.nodes == Snapshots(nodes))
            && (!DistinctNodes(nodes) ==> |c.topology.nodes| < |nodes|)
  {
    hide Used, HasNode, Recorded, BuildPorts;
    if nodes == [] {
      NoneUsed();
    } else {
      var k := |nodes| - 1;
      var init, n := nodes[..k], nodes[k];
      PutNodes(d, init);
      assert Puts(nodes)[..k] == Puts(init);
      assert init + [n] == nodes;
      PutNodesStep(PerformedAll(d, Puts(init)), init, n);
    }
  }

  lemma {:induction false} NoneUsed()
    ensures forall id :: !HasNode([], id) && !Used([], id)
  {
  }

  lemma {:induction false} PutNodesStep(c: Registry, nodes: seq<PresetNode>, n: PresetNode)
    requires forall id :: HasNode(c.topology.nodes, id) <==> Used(nodes, id)
    requires |c.topology.nodes| <= |nodes|
    requires DistinctNodes(nodes) ==> c.topology.nodes == Snapshots(nodes)
    requires !DistinctNodes(nodes) ==> |c.topology.nodes| < |nodes|
    ensures var c' := Performed(c, Put(n));
            && c'.topology.edges == c.topology.edges
            && (forall id :: HasNode(c'.topology.nodes, id) <==> Used(nodes + [n], id))
            && |c'.topology.nodes| <= |nodes| + 1
            && (DistinctNodes(nodes + [n]) ==> c'.topology.nodes == Snapshots(nodes + [n]))
            && (!DistinctNodes(nodes + [n]) ==> |c'.topology.nodes| < |nodes| + 1)
  {
    hide Used, HasNode, BuildPorts;
    PutIds(c, n);
    forall id ensures HasNode(Performed(c, Put(n)).topology.nodes, id) <==> Used(nodes + [n], id) {
      UsedSnoc(nodes, n, id);
    }
    DistinctSnoc(nodes, n);
    hide Performed, DistinctNodes;
    assert Snapshots(nodes + [n]) == Snapshots(nodes) + [Snapshotted(n)];
  }

  lemma {:induction false} DistinctSnoc(nodes: seq<PresetNode>, n: PresetNode)
    ensures DistinctNodes(nodes + [n]) <==> DistinctNodes(nodes) && !Used(nodes, n.id)
  {
    var all := nodes + [n];
    if DistinctNodes(all) {
      forall i, j | 0 <= i < j < |nodes| ensures nodes[i].id != nodes[j].id {
        assert all[i] == nodes[i] && all[j] == nodes[j];
      }
      forall i | 0 <= i < |nodes| ensures nodes[i].id != n.id {
        assert all[i] == nodes[i] && all[|nodes|] == n;
      }
    }
  }

  lemma {:induction false} PutIds(c: Registry, n: PresetNode)
    ensures var nodes, nodes' := c.topology.nodes, Performed(c, Put(n)).topology.nodes;
            && (forall id :: HasNode(nodes', id) <==> HasNode(nodes, id) || id == n.id)
            && (HasNode(nodes, n.id) ==> |nodes'| == |nodes|)
            && (!HasNode(nodes, n.id) ==> nodes' == nodes + [Snapshotted(n)])
  {
    var nodes, x := c.topology.nodes, Snapshotted(n);
    if HasNode(nodes, n.id) {
      forall id ensures HasNode(WithNode(nodes, x), id) <==> HasNode(nodes, id) {
        ReplaceKeepsIds(nodes, IndexOf(nodes, n.id), x, id);
      }
    } else {
      forall id ensures HasNode(nodes + [x], id) <==> HasNode(nodes, id) || id == n.id {
        HasAppended(nodes, x, id);
      }
    }
  }

  lemma {:induction false} ReplaceKeepsIds(nodes: seq<NodeSnapshot>, i: nat, x: NodeSnapshot, id: usize)
    requires i < |nodes| && nodes[i].id == x.id
    ensures HasNode(nodes[i := x], id) <==> HasNode(nodes, id)
  {
    if HasNode(nodes, id) {
      assert nodes[i := x][IndexOf(nodes, id)].id == id;
    }
    if HasNode(nodes[i := x], id) {
      assert nodes[IndexOf(nodes[i := x], id)].id == id;
    }
  }

  lemma {:induction false} PutRegisters(d: Registry, nodes: seq<PresetNode>)
    requires DistinctNodes(nodes)
    ensures Registered(d, PerformedAll(d, Puts(nodes)), nodes)
  {
    hide Registered, Recorded;
    if nodes == [] {
      RegisteredNone(d);
    } else {
      var k := |nodes| - 1;
      var init, n := nodes[..k], nodes[k];
      assert init + [n] == nodes;
      DistinctSnoc(init, n);
      PutRegisters(d, init);
      assert Puts(nodes)[..k] == Puts(init);
      PutRegistersStep(d, PerformedAll(d, Puts(init)), init, n);
    }
  }

  lemma {:induction false} RegisteredNone(d: Registry)
    ensures Registered(d, d, [])
  {
  }

  lemma {:induction false} PutRegistersStep(d: Registry, c: Registry, nodes: seq<PresetNode>, n: PresetNode)
    requires Registered(d, c, nodes) && !Used(nodes, n.id)
    ensures Registered(d, Performed(c, Put(n)), nodes + [n])
  {
    var c', all := Performed(c, Put(n)), nodes + [n];
    hide Apply, BuildPorts;
    forall id ensures Used(all, id) <==> Used(nodes, id) || id == n.id {
      UsedSnoc(nodes, n, id);
    }
    forall i | 0 <= i < |nodes| ensures nodes[i].id != n.id {
      assert Used(nodes, nodes[i].id);
    }
    hide Used;
    forall i | 0 <= i < |all|
      ensures && Get(c'.labels, all[i].id) == Some(all[i].labelText)
              && Get(c'.kinds, all[i].id) == Or(all[i].kind, Get(d.kinds, all[i].id))
              && Get(c'.params, all[i].id) == Or(all[i].params, Get(d.params, all[i].id))
    {
      assert i < |nodes| ==> all[i] == nodes[i];
    }
  }

  // ----- wiring -------------------------------------------------------------------------------------------

  function Edges(links: seq<PresetLink>): (es: seq<SnapshotEdge>)
    ensures |es| == |links| && forall i :: 0 <= i < |links| ==> es[i] == EdgeOf(links[i])
  {
    seq(|links|, i requires 0 <= i < |links| => EdgeOf(links[i]))
  }

  lemma {:induction false} WireAll(c: Registry, links: seq<PresetLink>)
    ensures PerformedAll(c, Wires(links)) == c.(topology := c.topology.(edges := c.topology.edges + Edges(links)))
  {
    if links == [] {
      assert c.topology.edges + [] == c.topology.edges;
    } else {
      var k := |links| - 1;
      WireAll(c, links[..k]);
      assert Wires(links)[..k] == Wires(links[..k]);
      assert Edges(links) == Edges(links[..k]) + [EdgeOf(links[k])];
      assert c.topology.edges + Edges(links[..k]) + [EdgeOf(links[k])]
             == c.topology.edges + (Edges(links[..k]) + [EdgeOf(links[k])]);
    }
  }

  lemma {:induction false} ImportedIs(c: Registry, p: PresetFile)
    ensures var put := PerformedAll(Residue(c), Puts(p.nodes));
            Imported(c, p) == put.(topology := put.topology.(edges := put.topology.edges + Edges(p.links)))
  {
    hide PerformedAll;
    PerformSplit(c, Drops(c.topology.nodes) + Puts(p.nodes), Wires(p.links));
    PerformSplit(c, Drops(c.topology.nodes), Puts(p.nodes));
    WireAll(PerformedAll(Residue(c), Puts(p.nodes)), p.links);
  }

  // ----- main results ----------------------------------------------------------------------------------------

  /** Where the preset is silent about a kind or params, nothing is left over under that id from a
      registry entry without a node. */
  ghost predicate NoLeftovers(c: Registry, nodes: seq<PresetNode>) {
    forall i :: 0 <= i < |nodes| ==>
      && (nodes[i].kind.None? ==> nodes[i].id !in c.kinds || HasNode(c.topology.nodes, nodes[i].id))
      && (nodes[i].params.None? ==> nodes[i].id !in c.params || HasNode(c.topology.nodes, nodes[i].id))
  }

  ghost predicate NoStrayEdges(c: Registry) {
    forall e :: e in c.topology.edges ==> TouchesSome(c.topology.nodes, e)
  }

  lemma {:induction false} LeftoversAre(c: Registry, nodes: seq<PresetNode>)
    ensures var d := Residue(c);
            NoLeftovers(c, nodes) <==>
            forall i :: 0 <= i < |nodes| ==> Covered(d, nodes[i])
  {
    ResidueHasNoNodes(c);
    hide Residue, HasNode;
  }

  lemma {:induction false} PutNodeIsExported(c: Registry, d: Registry, nodes: seq<PresetNode>, i: nat)
    requires i < |nodes| && Registered(d, c, nodes)
    ensures NodeOf(Info(c, Snapshotted(nodes[i]))) == nodes[i] <==> Covered(d, nodes[i])
  {
    hide Digits;
  }

  /** Nothing shows through from `d` under this node's id. */
  predicate Covered(d: Registry, n: PresetNode) {
    (n.kind.None? ==> Get(d.kinds, n.id).None?) && (n.params.None? ==> Get(d.params, n.id).None?)
  }

  lemma {:induction false} NodesBack(c: Registry, put: Registry, d: Registry, nodes: seq<PresetNode>)
    requires c.topology.nodes == Snapshots(nodes) && Registered(d, put, nodes)
    requires c.labels == put.labels && c.kinds == put.kinds && c.params == put.params
    ensures Exported(c).nodes == nodes <==> forall i :: 0 <= i < |nodes| ==> Covered(d, nodes[i])
  {
    hide Registered, Info, NodeOf, Get, Snapshotted, PresetLinkOf, Covered;
    forall i | 0 <= i < |nodes| ensures Exported(c).nodes[i] == nodes[i] <==> Covered(d, nodes[i]) {
      InfoIsLocal(put, c, Snapshotted(nodes[i]));
      PutNodeIsExported(put, d, nodes, i);
    }
  }

  lemma {:induction false} ExportedNodes(c: Registry, p: PresetFile)
    requires DistinctNodes(p.nodes)
    ensures Exported(Imported(c, p)).nodes == p.nodes <==> NoLeftovers(c, p.nodes)
  {
    hide PerformedAll, Imported, Residue, NoLeftovers, DistinctNodes, Registered, Dropped, Used, HasNode, Exported,
         TouchesSome, Covered, Snapshots;
    ResidueHasNoNodes(c);
    ImportedIs(c, p);
    PutNodes(Residue(c), p.nodes);
    PutRegisters(Residue(c), p.nodes);
    LeftoversAre(c, p.nodes);
    NodesBack(Imported(c, p), PerformedAll(Residue(c), Puts(p.nodes)), Residue(c), p.nodes);
  }

  lemma {:induction false} LinkBack(l: PresetLink)
    ensures PresetLinkOf(EdgeOf(l)) == l
  {
  }

  lemma {:induction false} LinksBack(c: Registry, before: seq<SnapshotEdge>, links: seq<PresetLink>)
    requires c.topology.edges == before + Edges(links)
    ensures Exported(c).links == links <==> before == []
  {
    hide PresetLinkOf, EdgeOf, NodeOf, Info;
    assert |Exported(c).links| == |before| + |links|;
    if before == [] {
      forall i | 0 <= i < |links| ensures Exported(c).links[i] == links[i] {
        LinkBack(links[i]);
      }
    }
  }

  lemma {:induction false} ExportedLinks(c: Registry, p: PresetFile)
    ensures Exported(Imported(c, p)).links == p.links <==> NoStrayEdges(c)
  {
    ResidueHasNoNodes(c);
    ImportedIs(c, p);
    PutNodes(Residue(c), p.nodes);
    hide PerformedAll, Imported, Residue, DistinctNodes, Dropped, Used, HasNode, TouchesSome, Exported, Edges;
    LinksBack(Imported(c, p), Residue(c).topology.edges, p.links);
  }

  /** Import then export gives the preset back, in node order, labels, kinds, params and link order,
      exactly when it is a version 1 preset with distinct ids and the old state had no edge away from
      every node and no orphan registry entry that shows through. */
  lemma {:induction false} RoundTrip(c: Registry, p: PresetFile)
    ensures Exported(Imported(c, p)) == p <==>
              && p.version == PRESET_VERSION && DistinctNodes(p.nodes)
              && NoLeftovers(c, p.nodes) && NoStrayEdges(c)
  {
    var d := Residue(c);
    ResidueHasNoNodes(c);
    ImportedIs(c, p);
    PutNodes(d, p.nodes);
    hide PerformedAll, Imported, Residue, DistinctNodes, Dropped, Used, HasNode, TouchesSome, NoLeftovers, NoStrayEdges;
    ExportedLinks(c, p);
    if DistinctNodes(p.nodes) {
      ExportedNodes(c, p);
    }
  }

  lemma {:induction false} WellFormedIsClean(c: Registry, nodes: seq<PresetNode>)
    requires WellFormed(c)
    ensures NoLeftovers(c, nodes) && NoStrayEdges(c)
  {
    hide KindName, DistinctIds;
    forall e | e in c.topology.edges ensures TouchesSome(c.topology.nodes, e) {
      assert PortsExist(c.topology, e);
      var i := IndexOf(c.topology.nodes, e.from);
      assert c.topology.nodes[i] in c.topology.nodes;
    }
  }

  /** From any well-formed state: the round trip holds for every version 1 preset with distinct ids,
      and the state reached owes nothing to the state before. */
  lemma {:induction false} ImportReplaces(c: Registry, p: PresetFile)
    requires WellFormed(c)
    ensures Exported(Imported(c, p)) == p <==> p.version == PRESET_VERSION && DistinctNodes(p.nodes)
    ensures Imported(c, p) == Imported(NOTHING, p)
  {
    WellFormedIsClean(c, p.nodes);
    RoundTrip(c, p);
    ResidueIsNothing(c);
    NothingIsWellFormed();
    ResidueIsNothing(NOTHING);
    ImportedIs(c, p);
    ImportedIs(NOTHING, p);
  }

  lemma {:induction false} ResidueIsNothing(c: Registry)
    requires WellFormed(c)
    ensures Residue(c) == NOTHING
  {
    WellFormedIsClean(c, []);
    ResidueHasNoNodes(c);
    hide Residue;
    var d := Residue(c);
    PrunedIsEmpty(c.topology, c.labels, d.labels);
    PrunedIsEmpty(c.topology, c.kinds, d.kinds);
    PrunedIsEmpty(c.topology, c.params, d.params);
  }

  lemma {:induction false} PrunedIsEmpty<V>(t: Snapshot, m: map<usize, V>, m': map<usize, V>)
    requires LiveKeys(t, m) && Pruned(m, m', t.nodes)
    ensures m' == map[]
  {
    forall id ensures id !in m' {
      assert Get(m', id).None?;
    }
  }

  /** Export then import into any well-formed controller: the same listing again. */
  lemma {:induction false} CopyIsFaithful(c: Registry, target: Registry)
    requires WellFormed(c) && WellFormed(target)
    ensures Exported(Imported(target, Exported(c))) == Exported(c)
  {
    hide KindName, PortsExist, LiveKeys, Imported;
    var p := Exported(c);
    forall i, j | 0 <= i < j < |p.nodes| ensures p.nodes[i].id != p.nodes[j].id {
      assert c.topology.nodes[i].id != c.topology.nodes[j].id;
    }
    ImportReplaces(target, p);
  }

  // ----- imports among the other calls -----------------------------------------------------------------------

  /** The link joins ports that nodes of the preset have. */
  ghost predicate Fits(nodes: seq<PresetNode>, l: PresetLink) {
    && (exists i :: 0 <= i < |nodes| && nodes[i].id == l.from && l.fromPort < nodes[i].outputs)
    && (exists i :: 0 <= i < |nodes| && nodes[i].id == l.to && l.toPort < nodes[i].inputs)
  }

  /** Params come with the kind they name. */
  predicate Named(n: PresetNode) {
    n.params.Some? ==> n.kind == Some(KindName(n.params.value))
  }

  /** What import leaves unchecked. */
  ghost predicate Sound(p: PresetFile) {
    && (forall l :: l in p.links ==> Fits(p.nodes, l))
    && (forall i :: 0 <= i < |p.nodes| ==> Named(p.nodes[i]))
  }

  lemma {:induction false} FoundAt(nodes: seq<PresetNode>, i: nat)
    requires DistinctNodes(nodes) && i < |nodes|
    ensures IndexOf(Snapshots(nodes), nodes[i].id) == i
  {
    hide BuildPorts;
    var k := IndexOf(Snapshots(nodes), nodes[i].id);
    assert Snapshots(nodes)[i].id == nodes[i].id;
    assert k < |nodes| ==> Snapshots(nodes)[k].id == nodes[k].id;
  }

  lemma {:induction false} FitsMeans(nodes: seq<PresetNode>, edges: seq<SnapshotEdge>, l: PresetLink)
    requires DistinctNodes(nodes)
    ensures PortsExist(Snapshot(Snapshots(nodes), edges), EdgeOf(l)) <==> Fits(nodes, l)
  {
    hide IndexOf, DistinctNodes;
    var t := Snapshot(Snapshots(nodes), edges);
    if PortsExist(t, EdgeOf(l)) {
      var i, j := IndexOf(t.nodes, l.from), IndexOf(t.nodes, l.to);
      assert t.nodes[i] == Snapshotted(nodes[i]) && t.nodes[j] == Snapshotted(nodes[j]);
    }
    if Fits(nodes, l) {
      var i :| 0 <= i < |nodes| && nodes[i].id == l.from && l.fromPort < nodes[i].outputs;
      var j :| 0 <= j < |nodes| && nodes[j].id == l.to && l.toPort < nodes[j].inputs;
      FoundAt(nodes, i);
      FoundAt(nodes, j);
    }
  }

  /** What an import over a well-formed state leaves, node by node and link by link. */
  ghost predicate Holding(c: Registry, p: PresetFile) {
    && c.topology == Snapshot(Snapshots(p.nodes), Edges(p.links))
    && Registered(NOTHING, c, p.nodes)
  }

  lemma {:induction false} ImportHolds(c: Registry, p: PresetFile)
    requires WellFormed(c) && DistinctNodes(p.nodes)
    ensures Holding(Imported(c, p), p)
  {
    hide PerformedAll, Imported, Residue, DistinctNodes, Used, HasNode, WellFormed, Snapshots, Edges;
    ResidueIsNothing(c);
    ImportedIs(c, p);
    PutNodes(NOTHING, p.nodes);
    PutRegisters(NOTHING, p.nodes);
    assert [] + Edges(p.links) == Edges(p.links);
  }

  lemma {:induction false} EdgesFit(p: PresetFile)
    requires DistinctNodes(p.nodes)
    ensures var t := Snapshot(Snapshots(p.nodes), Edges(p.links));
            (forall e :: e in t.edges ==> PortsExist(t, e)) <==> forall l :: l in p.links ==> Fits(p.nodes, l)
  {
    hide Fits, PortsExist, DistinctNodes, Snapshots, EdgeOf;
    var t := Snapshot(Snapshots(p.nodes), Edges(p.links));
    forall i | 0 <= i < |p.links| ensures PortsExist(t, t.edges[i]) <==> Fits(p.nodes, p.links[i]) {
      FitsMeans(p.nodes, t.edges, p.links[i]);
    }
    if forall e :: e in t.edges ==> PortsExist(t, e) {
      forall l | l in p.links ensures Fits(p.nodes, l) {
        var i :| 0 <= i < |p.links| && p.links[i] == l;
        assert t.edges[i] in t.edges;
      }
    }
    if forall l :: l in p.links ==> Fits(p.nodes, l) {
      forall e | e in t.edges ensures PortsExist(t, e) {
        var i :| 0 <= i < |t.edges| && t.edges[i] == e;
        assert p.links[i] in p.links;
      }
    }
  }

  lemma {:induction false} KeysAreUsed(c: Registry, p: PresetFile)
    requires Holding(c, p) && DistinctNodes(p.nodes)
    ensures DistinctIds(c.topology.nodes)
    ensures LiveKeys(c.topology, c.labels) && LiveKeys(c.topology, c.kinds) && LiveKeys(c.topology, c.params)
  {
    hide BuildPorts;
    forall id | id in c.labels || id in c.kinds || id in c.params ensures HasNode(c.topology.nodes, id) {
      assert Get(c.labels, id).Some? || Get(c.kinds, id).Some? || Get(c.params, id).Some?;
      assert Used(p.nodes, id);
      var i :| 0 <= i < |p.nodes| && p.nodes[i].id == id;
      FoundAt(p.nodes, i);
    }
  }

  lemma {:induction false} KindsAreNamed(c: Registry, p: PresetFile)
    requires Holding(c, p)
    ensures (forall id :: id in c.params ==> id in c.kinds && c.kinds[id] == KindName(c.params[id]))
            <==> forall i :: 0 <= i < |p.nodes| ==> Named(p.nodes[i])
  {
    hide KindName, Snapshots;
    forall i | 0 <= i < |p.nodes|
      ensures var id := p.nodes[i].id;
              Named(p.nodes[i]) <==> (id in c.params ==> id in c.kinds && c.kinds[id] == KindName(c.params[id]))
    {
      assert Get(c.kinds, p.nodes[i].id) == p.nodes[i].kind && Get(c.params, p.nodes[i].id) == p.nodes[i].params;
    }
    forall id | id in c.params ensures Used(p.nodes, id) {
      assert Get(c.params, id).Some?;
    }
  }

  /** Import checks neither ports nor kinds. From a well-formed state, with distinct ids, it leaves a
      well-formed one exactly when the preset's links fit its own nodes and its params come with the
      kind they name. */
  lemma {:induction false} ImportIsWellFormed(c: Registry, p: PresetFile)
    requires WellFormed(c) && DistinctNodes(p.nodes)
    ensures WellFormed(Imported(c, p)) <==> Sound(p)
  {
    ImportHolds(c, p);
    hide Imported, DistinctNodes, LiveKeys, PortsExist, Fits, KindName, Named, DistinctIds, Registered, Snapshots;
    KeysAreUsed(Imported(c, p), p);
    KindsAreNamed(Imported(c, p), p);
    EdgesFit(p);
  }

  /** An import that is refused after its drops has imported a shorter preset. */
  lemma {:induction false} RefusedIsShorter(c: Registry, p: PresetFile, k: nat)
    requires |c.topology.nodes| <= k <= |Actions(c, p)|
    ensures PerformedAll(c, Actions(c, p)[..k]) == Imported(c, Shortened(p, k - |c.topology.nodes|))
  {
    hide PerformedAll;
    var q := Shortened(p, k - |c.topology.nodes|);
    assert Actions(c, p)[..k] == Actions(c, q);
  }

  /** The first `k` entries of a preset, nodes before links. */
  function Shortened(p: PresetFile, k: nat): PresetFile
    requires k <= |p.nodes| + |p.links|
  {
    if k <= |p.nodes| then p.(nodes := p.nodes[..k], links := []) else p.(links := p.links[..k - |p.nodes|])
  }

  lemma {:induction false} DropsKeep(c: Registry, nodes: seq<NodeSnapshot>)
    requires WellFormed(c)
    ensures WellFormed(PerformedAll(c, Drops(nodes)))
  {
    hide WellFormed, Deleted;
    if nodes == [] {
    } else {
      var n := |nodes| - 1;
      DropsKeep(c, nodes[..n]);
      assert Drops(nodes)[..n] == Drops(nodes[..n]);
      DeleteKeeps(PerformedAll(c, Drops(nodes[..n])), nodes[n].id);
    }
  }

  datatype Command = Call(op: Op) | Import(preset: PresetFile, refuseAt: nat)

  /** What an import does to the state, refused or not. */
  function ImportedUpTo(c: Registry, p: PresetFile, refuseAt: nat): Registry {
    PerformedAll(c, if refuseAt < |Actions(c, p)| then Actions(c, p)[..refuseAt] else Actions(c, p))
  }

  function Commanded(c: Registry, command: Command): Registry {
    match command
    case Call(op) => Step(c, op)
    case Import(p, refuseAt) => ImportedUpTo(c, p, refuseAt)
  }

  function Session(c: Registry, commands: seq<Command>): Registry {
    if commands == [] then c else Commanded(Session(c, commands[..|commands| - 1]), commands[|commands| - 1])
  }

  /** A bound on the ids in use: each creation may take one more, an import brings its own. */
  function Top(c: Registry, commands: seq<Command>): nat {
    if commands == [] then MaxId(c.topology.nodes)
    else
      var before := Top(c, commands[..|commands| - 1]);
      match commands[|commands| - 1]
      case Call(op) => if op.Create? then before + 1 else before
      case Import(p, _) => if before < MaxId(Snapshots(p.nodes)) then MaxId(Snapshots(p.nodes)) else before
  }

  lemma {:induction false} ShortenedIsSound(p: PresetFile, k: nat)
    requires DistinctNodes(p.nodes) && Sound(p) && k <= |p.nodes| + |p.links|
    ensures DistinctNodes(Shortened(p, k).nodes) && Sound(Shortened(p, k))
  {
    hide Fits, Named;
  }

  lemma {:induction false} ImportUpToKeeps(c: Registry, p: PresetFile, refuseAt: nat)
    requires WellFormed(c) && DistinctNodes(p.nodes) && Sound(p)
    ensures WellFormed(ImportedUpTo(c, p, refuseAt))
  {
    hide WellFormed, PerformedAll, Sound, DistinctNodes;
    var all, n := Actions(c, p), |c.topology.nodes|;
    var k := if refuseAt < |all| then refuseAt else |all|;
    assert k == |all| ==> all[..k] == all;
    if k <= n {
      assert all[..k] == Drops(c.topology.nodes[..k]);
      DropsKeep(c, c.topology.nodes[..k]);
    } else {
      ShortenedIsSound(p, k - n);
      ImportIsWellFormed(c, Shortened(p, k - n));
      RefusedIsShorter(c, p, k);
    }
  }

  lemma {:induction false} MaxIdWithin(nodes: seq<NodeSnapshot>, whole: seq<NodeSnapshot>)
    requires forall n :: n in nodes ==> n in whole
    ensures MaxId(nodes) <= MaxId(whole)
  {
    if nodes != [] {
      var i :| 0 <= i < |nodes| && nodes[i].id == MaxId(nodes);
      assert nodes[i] in whole;
    }
  }

  lemma {:induction false} ImportBrings(c: Registry, p: PresetFile, refuseAt: nat)
    requires WellFormed(c) && DistinctNodes(p.nodes)
    ensures var m := MaxId(ImportedUpTo(c, p, refuseAt).topology.nodes);
            m <= MaxId(c.topology.nodes) || m <= MaxId(Snapshots(p.nodes))
  {
    hide WellFormed, PerformedAll, MaxId, Registered, BuildPorts;
    var all, n := Actions(c, p), |c.topology.nodes|;
    var k := if refuseAt < |all| then refuseAt else |all|;
    assert k == |all| ==> all[..k] == all;
    if k <= n {
      assert all[..k] == Drops(c.topology.nodes[..k]);
      DropAll(c, c.topology.nodes[..k]);
      MaxIdWithin(ImportedUpTo(c, p, refuseAt).topology.nodes, c.topology.nodes);
    } else {
      var q := Shortened(p, k - n);
      RefusedIsShorter(c, p, k);
      ImportHolds(c, q);
      MaxIdWithin(Snapshots(q.nodes), Snapshots(p.nodes));
    }
  }

  ghost predicate SoundImports(commands: seq<Command>) {
    forall i :: 0 <= i < |commands| ==>
      commands[i].Import? ==> DistinctNodes(commands[i].preset.nodes) && Sound(commands[i].preset)
  }

  /** Every run of create, link, delete and import, from any well-formed state, refused at any point,
      stays well-formed as long as the imports are sound and there are ids left. */
  lemma {:induction false} SessionIsWellFormed(c: Registry, commands: seq<Command>)
    requires WellFormed(c) && SoundImports(commands) && Top(c, commands) <= USIZE_MAX
    ensures WellFormed(Session(c, commands)) && MaxId(Session(c, commands).topology.nodes) <= Top(c, commands)
  {
    hide WellFormed, Step, ImportedUpTo, DistinctNodes, Sound, Snapshots, MaxId;
    if commands == [] {
    } else {
      var n := |commands| - 1;
      SessionIsWellFormed(c, commands[..n]);
      var before := Session(c, commands[..n]);
      match commands[n] {
        case Call(op) =>
          MaxIdGrowsByOne(before, op);
          StepKeeps(before, op);
        case Import(p, refuseAt) =>
          ImportUpToKeeps(before, p, refuseAt);
          ImportBrings(before, p, refuseAt);
      }
    }
  }
}
