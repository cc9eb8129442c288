/** Building a runnable graph from a topology snapshot and a node factory. */
module BuildGraph {
  import opened Common
  import opened Topology

  /** A node from the factory, registered as a plain node or as a sink that gets flushed. */
  datatype BuiltNode<+N> = Plain(node: N) | Sink(node: N)

  datatype Link = Link(from: nat, fromPort: usize, to: nat, toPort: usize)

  /** The graph library's view: nodes numbered in the order they were added, links in order. */
  datatype Graph<+N> = Graph(slots: seq<BuiltNode<N>>, links: seq<Link>)

  datatype EngineError = NoNode(id: usize) | UnknownNode(id: usize) | LinkRefused | CompileFailed

  /** What the graph library does with links and with the finished graph. */
  datatype Library<!N> = Library(links: (Graph<N>, Link) -> bool, compiles: Graph<N> -> bool)

  /** What the factory answers on its k-th call, asked for an id. */
  type Factory<!N> = (nat, usize) -> Option<BuiltNode<N>>

  /** The slot an id is mapped to: the last node carrying it. */
  function Renamed(nodes: seq<NodeSnapshot>, id: usize): (slot: Option<nat>)
    ensures slot.Some? ==> slot.value < |nodes| && nodes[slot.value].id == id
    ensures slot.None? ==> forall i :: 0 <= i < |nodes| ==> nodes[i].id != id
    ensures slot.Some? ==> forall i :: slot.value < i < |nodes| ==> nodes[i].id != id
  {
    if nodes == [] then None
    else if nodes[|nodes| - 1].id == id then Some(|nodes| - 1)
    else Renamed(nodes[..|nodes| - 1], id)
  }

  /** The renaming is a bijection onto 0..n-1 that sends each node to its own slot exactly when the
      ids are distinct. */
  lemma {:induction false} RenamingIsBijective(nodes: seq<NodeSnapshot>)
    ensures DistinctIds(nodes) <==> forall i :: 0 <= i < |nodes| ==> Renamed(nodes, nodes[i].id) == Some(i)
  {
    if !DistinctIds(nodes) {
      var i, j :| 0 <= i < j < |nodes| && nodes[i].id == nodes[j].id;
      assert Renamed(nodes, nodes[i].id) != Some(i);
    }
  }

  predicate Known(nodes: seq<NodeSnapshot>, e: SnapshotEdge) {
    Renamed(nodes, e.from).Some? && Renamed(nodes, e.to).Some?
  }

  function RenamedEdge(nodes: seq<NodeSnapshot>, e: SnapshotEdge): Link
    requires Known(nodes, e)
  {
    Link(Renamed(nodes, e.from).value, e.fromPort, Renamed(nodes, e.to).value, e.toPort)
  }

  /** Nothing is confused by the renaming: a link leads back to the edge it came from. */
  lemma {:induction false} EdgeRecovered(nodes: seq<NodeSnapshot>, e: SnapshotEdge, f: SnapshotEdge)
    requires Known(nodes, e) && Known(nodes, f)
    ensures var l := RenamedEdge(nodes, e);
            && l.from < |nodes| && l.to < |nodes|
            && e == SnapshotEdge(nodes[l.from].id, l.fromPort, nodes[l.to].id, l.toPort)
    ensures RenamedEdge(nodes, e) == RenamedEdge(nodes, f) <==> e == f
  {
  }

  predicate Supplied<N>(nodes: seq<NodeSnapshot>, factory: Factory<N>) {
    forall i :: 0 <= i < |nodes| ==> factory(i, nodes[i].id).Some?
  }

  /** Every node from its own factory answer, in its registration class, in snapshot order. */
  function Slots<N>(nodes: seq<NodeSnapshot>, factory: Factory<N>): (slots: seq<BuiltNode<N>>)
    requires Supplied(nodes, factory)
    ensures |slots| == |nodes| && forall i :: 0 <= i < |nodes| ==> slots[i] == factory(i, nodes[i].id).value
  {
    seq(|nodes|, i requires 0 <= i < |nodes| => factory(i, nodes[i].id).value)
  }

  predicate AllKnown(t: Snapshot) {
    forall j :: 0 <= j < |t.edges| ==> Known(t.nodes, t.edges[j])
  }

  /** The edge list renamed, in order. */
  function Links(t: Snapshot): (links: seq<Link>)
    requires AllKnown(t)
    ensures |links| == |t.edges| && forall j :: 0 <= j < |t.edges| ==> links[j] == RenamedEdge(t.nodes, t.edges[j])
  {
    seq(|t.edges|, j requires 0 <= j < |t.edges| => RenamedEdge(t.nodes, t.edges[j]))
  }

  /** The library takes the links one by one and then compiles. */
  predicate Accepted<N>(slots: seq<BuiltNode<N>>, links: seq<Link>, lib: Library<N>) {
    && (forall j :: 0 <= j < |links| ==> lib.links(Graph(slots, links[..j]), links[j]))
    && lib.compiles(Graph(slots, links))
  }

  /** A build succeeds exactly when the factory knows every node, no edge names an unknown node and
      the library accepts; and then the graph is the snapshot renamed. */
  method Build<N>(t: Snapshot, factory: Factory<N>, lib: Library<N>) returns (r: Result<Graph<N>, EngineError>)
    ensures r.Ok? <==> Supplied(t.nodes, factory) && AllKnown(t) && Accepted(Slots(t.nodes, factory), Links(t), lib)
    ensures r.Ok? ==> r.value == Graph(Slots(t.nodes, factory), Links(t))
    ensures r.Ok? ==> lib.compiles(r.value)
    ensures r.Ok? ==> forall j :: 0 <= j < |r.value.links| ==>
                        lib.links(Graph(r.value.slots, r.value.links[..j]), r.value.links[j])
    ensures r.Err? && r.error.NoNode? <==> !Supplied(t.nodes, factory)
    ensures r.Err? && r.error.UnknownNode? ==> !AllKnown(t)
  {
    hide Renamed, Maps;
    MapsNone();
    var slots: seq<BuiltNode<N>> := [];
    var idMap: map<usize, nat> := map[];
    var i := 0;
    while i < |t.nodes|
      invariant 0 <= i <= |t.nodes| && |slots| == i
      invariant forall k :: 0 <= k < i ==> factory(k, t.nodes[k].id) == Some(slots[k])
      invariant Maps(idMap, t.nodes[..i])
    {
      var built := factory(i, t.nodes[i].id);
      if built.None? {
        return Err(NoNode(t.nodes[i].id));
      }
      MapsNext(idMap, t.nodes, i);
      slots := slots + [built.value];
      idMap := idMap[t.nodes[i].id := i];
      i := i + 1;
    }
    assert t.nodes[..i] == t.nodes;
    assert slots == Slots(t.nodes, factory);
    MapsMeans(idMap, t.nodes);
    var links: seq<Link> := [];
    var j := 0;
    while j < |t.edges|
      invariant 0 <= j <= |t.edges| && |links| == j
      invariant forall k :: 0 <= k < j ==> Known(t.nodes, t.edges[k]) && links[k] == RenamedEdge(t.nodes, t.edges[k])
      invariant forall k :: 0 <= k < j ==> lib.links(Graph(slots, links[..k]), links[k])
    {
      var e := t.edges[j];
      if e.from !in idMap {
        return Err(UnknownNode(e.from));
      }
      if e.to !in idMap {
        return Err(UnknownNode(e.to));
      }
      var link := Link(idMap[e.from], e.fromPort, idMap[e.to], e.toPort);
      if !lib.links(Graph(slots, links), link) {
        Refused(t, slots, links, lib);
        return Err(LinkRefused);
      }
      assert forall k :: 0 <= k < j ==> (links + [link])[..k] == links[..k];
      assert (links + [link])[..j] == links;
      links := links + [link];
      j := j + 1;
    }
    assert links == Links(t);
    if !lib.compiles(Graph(slots, links)) {
      return Err(CompileFailed);
    }
    r := Ok(Graph(slots, links));
  }

  /** The id map built so far is the renaming of the nodes so far. */
  ghost predicate Maps(idMap: map<usize, nat>, nodes: seq<NodeSnapshot>) {
    forall id :: Renamed(nodes, id) == if id in idMap then Some(idMap[id]) else None
  }

  lemma {:induction false} MapsNone()
    ensures Maps(map[], [])
  {
  }

  lemma {:induction false} MapsNext(idMap: map<usize, nat>, nodes: seq<NodeSnapshot>, i: nat)
    requires i < |nodes| && Maps(idMap, nodes[..i])
    ensures Maps(idMap[nodes[i].id := i], nodes[..i + 1])
  {
    assert nodes[..i + 1][..i] == nodes[..i];
  }

  lemma {:induction false} MapsMeans(idMap: map<usize, nat>, nodes: seq<NodeSnapshot>)
    requires Maps(idMap, nodes)
    ensures forall id :: Renamed(nodes, id) == if id in idMap then Some(idMap[id]) else None
  {
  }

  lemma {:induction false} Refused<N>(t: Snapshot, slots: seq<BuiltNode<N>>, links: seq<Link>, lib: Library<N>)
    requires |links| < |t.edges| && Known(t.nodes, t.edges[|links|])
    requires forall k :: 0 <= k < |links| ==> Known(t.nodes, t.edges[k]) && links[k] == RenamedEdge(t.nodes, t.edges[k])
    requires !lib.links(Graph(slots, links), RenamedEdge(t.nodes, t.edges[|links|]))
    ensures AllKnown(t) ==> !Accepted(slots, Links(t), lib)
  {
    if AllKnown(t) {
      assert Links(t)[..|links|] == links;
    }
  }
}
