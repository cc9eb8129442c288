/**
 The audio graph as the session store keeps it: nodes with their ports, edges between ports, and
 the four mutations that change it.
 */
module Topology {
  import opened Common

  /** A machine word: node ids and port numbers. */
  type usize = u64

  datatype PortDir = Input | Output
  datatype SampleFmt = F32 | F64 | I16 | I32
  datatype PortMeta = PortMeta(direction: PortDir, channels: u16, sampleFormat: SampleFmt)

  datatype NodeSnapshot = NodeSnapshot(id: usize, inputs: seq<PortMeta>, outputs: seq<PortMeta>)
  datatype SnapshotEdge = SnapshotEdge(from: usize, fromPort: usize, to: usize, toPort: usize)
  datatype Snapshot = Snapshot(nodes: seq<NodeSnapshot>, edges: seq<SnapshotEdge>)

  datatype Mutation =
    | AddNode(node: NodeSnapshot)
    | RemoveNode(id: usize)
    | AddLink(edge: SnapshotEdge)
    | RemoveLink(index: usize)

  const EMPTY := Snapshot([], [])

  /** Position of the node with this id, or the number of nodes when there is none. */
  function IndexOf(nodes: seq<NodeSnapshot>, id: usize): (i: nat)
    ensures i <= |nodes|
    ensures i < |nodes| ==> nodes[i].id == id
    ensures forall k :: 0 <= k < i ==> nodes[k].id != id
  {
    if nodes == [] || nodes[0].id == id then 0 else 1 + IndexOf(nodes[1..], id)
  }

  function Node(t: Snapshot, id: usize): Option<NodeSnapshot> {
    var i := IndexOf(t.nodes, id);
    if i < |t.nodes| then Some(t.nodes[i]) else None
  }

  /** An existing node with the same id is replaced where it stands. */
  function WithNode(nodes: seq<NodeSnapshot>, node: NodeSnapshot): seq<NodeSnapshot> {
    var i := IndexOf(nodes, node.id);
    if i < |nodes| then nodes[i := node] else nodes + [node]
  }

  function WithoutNode(nodes: seq<NodeSnapshot>, id: usize): (rest: seq<NodeSnapshot>)
    ensures forall n :: n in rest <==> n in nodes && n.id != id
  {
    if nodes == [] then []
    else if nodes[0].id == id then WithoutNode(nodes[1..], id)
    else [nodes[0]] + WithoutNode(nodes[1..], id)
  }

  predicate Touches(e: SnapshotEdge, id: usize) {
    e.from == id || e.to == id
  }

  /** Edges with no end at `id`, in order. */
  function WithoutEdges(edges: seq<SnapshotEdge>, id: usize): (rest: seq<SnapshotEdge>)
    ensures forall e :: e in rest <==> e in edges && !Touches(e, id)
  {
    if edges == [] then []
    else if Touches(edges[0], id) then WithoutEdges(edges[1..], id)
    else [edges[0]] + WithoutEdges(edges[1..], id)
  }

  function Apply(t: Snapshot, m: Mutation): Snapshot {
    match m
    case AddNode(node) => t.(nodes := WithNode(t.nodes, node))
    case RemoveNode(id) => Snapshot(WithoutNode(t.nodes, id), WithoutEdges(t.edges, id))
    case AddLink(edge) => t.(edges := t.edges + [edge])
    case RemoveLink(i) => if i < |t.edges| then t.(edges := t.edges[..i] + t.edges[i + 1..]) else t
  }

  function Fold(t: Snapshot, ms: seq<Mutation>): Snapshot {
    if ms == [] then t else Apply(Fold(t, ms[..|ms| - 1]), ms[|ms| - 1])
  }

  lemma {:induction false} FoldSnoc(t: Snapshot, ms: seq<Mutation>, m: Mutation)
    ensures Fold(t, ms + [m]) == Apply(Fold(t, ms), m)
  {
    assert (ms + [m])[..|ms|] == ms;
  }

  // ----- looking nodes up ------------------------------------------------------------------------

  ghost predicate DistinctIds(nodes: seq<NodeSnapshot>) {
    forall i, j :: 0 <= i < j < |nodes| ==> nodes[i].id != nodes[j].id
  }

  predicate HasNode(nodes: seq<NodeSnapshot>, id: usize) {
    IndexOf(nodes, id) < |nodes|
  }

  lemma {:induction false} HasNodeMeans(nodes: seq<NodeSnapshot>, id: usize)
    ensures HasNode(nodes, id) <==> exists n :: n in nodes && n.id == id
  {
    if HasNode(nodes, id) {
      assert nodes[IndexOf(nodes, id)] in nodes;
    }
  }

  lemma {:induction false} IndexAppend(nodes: seq<NodeSnapshot>, x: NodeSnapshot, id: usize)
    ensures IndexOf(nodes + [x], id) == if HasNode(nodes, id) then IndexOf(nodes, id)
                                        else if x.id == id then |nodes|
                                        else |nodes| + 1
  {
    if nodes == [] || nodes[0].id == id {
    } else {
      assert (nodes + [x])[1..] == nodes[1..] + [x];
      IndexAppend(nodes[1..], x, id);
    }
  }

  /** Looking up after an append of a node with a new id. */
  lemma {:induction false} NodeAppend(t: Snapshot, x: NodeSnapshot, id: usize)
    requires !HasNode(t.nodes, x.id)
    ensures Node(t.(nodes := WithNode(t.nodes, x)), id) == if id == x.id then Some(x) else Node(t, id)
    ensures WithNode(t.nodes, x) == t.nodes + [x]
  {
    IndexAppend(t.nodes, x, id);
  }

  lemma {:induction false} WithoutIndex(nodes: seq<NodeSnapshot>, id: usize, k: usize)
    requires k != id
    ensures var rest := WithoutNode(nodes, id);
            && HasNode(rest, k) == HasNode(nodes, k)
            && (HasNode(nodes, k) ==> rest[IndexOf(rest, k)] == nodes[IndexOf(nodes, k)])
  {
    if nodes == [] || nodes[0].id == k {
    } else {
      WithoutIndex(nodes[1..], id, k);
      if nodes[0].id == id {
        assert WithoutNode(nodes, id) == WithoutNode(nodes[1..], id);
      } else {
        var rest := WithoutNode(nodes[1..], id);
        assert WithoutNode(nodes, id) == [nodes[0]] + rest && ([nodes[0]] + rest)[1..] == rest;
      }
    }
  }

  /** Looking up after a removal. */
  lemma {:induction false} NodeWithout(t: Snapshot, id: usize, k: usize)
    ensures Node(Apply(t, RemoveNode(id)), k) == if k == id then None else Node(t, k)
  {
    if k != id {
      WithoutIndex(t.nodes, id, k);
    }
  }

  lemma {:induction false} WithoutIsDistinct(nodes: seq<NodeSnapshot>, id: usize)
    requires DistinctIds(nodes)
    ensures DistinctIds(WithoutNode(nodes, id))
  {
    if nodes == [] {
    } else {
      var rest := WithoutNode(nodes[1..], id);
      WithoutIsDistinct(nodes[1..], id);
      if nodes[0].id != id {
        forall j | 0 <= j < |rest| ensures rest[j].id != nodes[0].id {
          assert rest[j] in nodes[1..];
        }
      }
    }
  }

  lemma {:induction false} Joined<X>(x: seq<X>, y: seq<X>, z: seq<X>)
    ensures x + (y + z) == x + y + z
  {
  }

  /** Removal judges each node by itself and keeps the rest in place, order and repetitions included. */
  lemma {:induction false} WithoutNodeSplits(n: NodeSnapshot, rest: seq<NodeSnapshot>, b: seq<NodeSnapshot>, id: usize)
    ensures WithoutNode([n] + rest, id) == (if n.id == id then [] else [n]) + WithoutNode(rest, id)
    ensures WithoutNode(rest + b, id) == WithoutNode(rest, id) + WithoutNode(b, id)
    decreases |rest|
  {
    assert ([n] + rest)[1..] == rest;
    if rest == [] {
      assert rest + b == b;
    } else {
      var kept := if rest[0].id == id then [] else [rest[0]];
      assert (rest + b)[1..] == rest[1..] + b;
      WithoutNodeSplits(rest[0], rest[1..], b, id);
      Joined(kept, WithoutNode(rest[1..], id), WithoutNode(b, id));
    }
  }

  lemma {:induction false} WithoutEdgesSplits(e: SnapshotEdge, rest: seq<SnapshotEdge>, b: seq<SnapshotEdge>, id: usize)
    ensures WithoutEdges([e] + rest, id) == (if Touches(e, id) then [] else [e]) + WithoutEdges(rest, id)
    ensures WithoutEdges(rest + b, id) == WithoutEdges(rest, id) + WithoutEdges(b, id)
    decreases |rest|
  {
    hide Touches;
    assert ([e] + rest)[1..] == rest;
    if rest == [] {
      assert rest + b == b;
    } else {
      var kept := if Touches(rest[0], id) then [] else [rest[0]];
      assert (rest + b)[1..] == rest[1..] + b;
      WithoutEdgesSplits(rest[0], rest[1..], b, id);
      Joined(kept, WithoutEdges(rest[1..], id), WithoutEdges(b, id));
    }
  }

  /** The largest id, or 0 in an empty graph. */
  function MaxId(nodes: seq<NodeSnapshot>): (m: usize)
    ensures forall i :: 0 <= i < |nodes| ==> nodes[i].id <= m
    ensures nodes != [] ==> exists i :: 0 <= i < |nodes| && nodes[i].id == m
    ensures nodes == [] ==> m == 0
  {
    if nodes == [] then 0
    else
      var rest := MaxId(nodes[1..]);
      if nodes[0].id >= rest then nodes[0].id else rest
  }

  // ----- what each mutation does, place by place ----------------------------------------------------------

  /** Removing the link at a position: the links before it stay, the later ones move up by one; a position
      past the end changes nothing. */
  lemma {:induction false} RemoveLinkIs(t: Snapshot, i: usize)
    ensures var t' := Apply(t, RemoveLink(i));
            && t'.nodes == t.nodes
            && (i >= |t.edges| ==> t'.edges == t.edges)
            && (i < |t.edges| ==>
                  && |t'.edges| == |t.edges| - 1
                  && forall k :: 0 <= k < |t'.edges| ==> t'.edges[k] == t.edges[if k < i then k else k + 1])
  {
    assert i < |t.edges| ==> |t.edges[..i] + t.edges[i + 1..]| == |t.edges| - 1;
  }

  /** Adding a link: the others stay where they are and it comes last. */
  lemma {:induction false} AddLinkIs(t: Snapshot, e: SnapshotEdge)
    ensures var t' := Apply(t, AddLink(e));
            && t'.nodes == t.nodes && |t'.edges| == |t.edges| + 1 && t'.edges[|t.edges|] == e
            && forall k :: 0 <= k < |t.edges| ==> t'.edges[k] == t.edges[k]
  {
  }

  /** Adding a node: under a known id it takes the place of the first node with that id, under a new id it
      comes last; every other node stays where it is. */
  lemma {:induction false} AddNodeIs(t: Snapshot, x: NodeSnapshot, i: nat)
    requires i <= |t.nodes| && forall k :: 0 <= k < i ==> t.nodes[k].id != x.id
    requires i < |t.nodes| ==> t.nodes[i].id == x.id
    ensures var t' := Apply(t, AddNode(x));
            && t'.edges == t.edges && |t'.nodes| == (if i < |t.nodes| then |t.nodes| else |t.nodes| + 1)
            && t'.nodes[i] == x && forall k :: 0 <= k < |t.nodes| && k != i ==> t'.nodes[k] == t.nodes[k]
  {
    var j := IndexOf(t.nodes, x.id);
    assert i == j;
  }

  /** Removing a node takes its links along, and nothing else. */
  lemma {:induction false} RemoveNodeIs(t: Snapshot, id: usize)
    ensures var t' := Apply(t, RemoveNode(id));
            && (forall n :: n in t'.nodes <==> n in t.nodes && n.id != id)
            && (forall e :: e in t'.edges <==> e in t.edges && e.from != id && e.to != id)
            && multiset(t'.nodes) <= multiset(t.nodes) && multiset(t'.edges) <= multiset(t.edges)
            && (!HasNode(t.nodes, id) ==> t'.nodes == t.nodes)
  {
    OnlyFewerNodes(t.nodes, id);
    OnlyFewerEdges(t.edges, id);
  }

  lemma {:induction false} OnlyFewerNodes(nodes: seq<NodeSnapshot>, id: usize)
    ensures multiset(WithoutNode(nodes, id)) <= multiset(nodes)
    ensures !HasNode(nodes, id) ==> WithoutNode(nodes, id) == nodes
  {
    if nodes == [] {
    } else {
      OnlyFewerNodes(nodes[1..], id);
      assert nodes == [nodes[0]] + nodes[1..];
    }
  }

  lemma {:induction false} OnlyFewerEdges(edges: seq<SnapshotEdge>, id: usize)
    ensures multiset(WithoutEdges(edges, id)) <= multiset(edges)
  {
    if edges == [] {
    } else {
      OnlyFewerEdges(edges[1..], id);
      assert edges == [edges[0]] + edges[1..];
    }
  }
}
