/**
 The graph controller: it turns API calls into session-store mutations and keeps three side
 registries (labels, kinds, params) in step with the topology.
 */
module Controller {
  import opened Common
  import opened Topology

  const USIZE_MAX := 0xFFFF_FFFF_FFFF_FFFF

  /** Kind-specific parameters. */
  datatype NodeParams =
    | Gain(gain: real)
    | Mixer(inputs: usize, gains: seq<real>)
    | Eq(filterType: string, freq: real, gainDb: real, q: real)
    | Compressor(thresholdDb: real, ratio: real, attackMs: real, releaseMs: real, makeupDb: real)
    | Limiter(thresholdDb: real)
    | Meter
    | ChannelMap(mode: string, pan: Option<real>)
    | Delay(maxDelayMs: real, delayMs: real, feedback: real, mix: real)
    | NoiseGate(thresholdDb: real, attackMs: real, holdMs: real, releaseMs: real)
    | Noise(color: string, amp: real, seed: u64)
    | Tone(waveform: string, freq: real, amp: real)
    | Reverb(roomSize: real, damping: real, wet: real, dry: real)
    | Chorus(rateHz: real, depthMs: real, centerDelayMs: real, mix: real)
    | Distortion(mode: string, drive: real, threshold: real, outputLevel: real)
    | Flanger(rateHz: real, depthMs: real, centerDelayMs: real, feedback: real, mix: real)
    | AuxSend(sendLevel: real)
    | Phaser(rateHz: real, baseFreq: real, depth: real, feedback: real, mix: real, stages: u32)
    | Bitcrusher(bits: u32, holdFactor: u32)
    | Tremolo(rateHz: real, depth: real)
    | StereoWidener(width: real)

  function KindName(p: NodeParams): string {
    match p
    case Gain(_) => "gain"
    case Mixer(_, _) => "mixer"
    case Eq(_, _, _, _) => "eq"
    case Compressor(_, _, _, _, _) => "compressor"
    case Limiter(_) => "limiter"
    case Meter => "meter"
    case ChannelMap(_, _) => "channel_map"
    case Delay(_, _, _, _) => "delay"
    case NoiseGate(_, _, _, _) => "noise_gate"
    case Noise(_, _, _) => "noise"
    case Tone(_, _, _) => "tone"
    case Reverb(_, _, _, _) => "reverb"
    case Chorus(_, _, _, _) => "chorus"
    case Distortion(_, _, _, _) => "distortion"
    case Flanger(_, _, _, _, _) => "flanger"
    case AuxSend(_) => "aux_send"
    case Phaser(_, _, _, _, _, _) => "phaser"
    case Bitcrusher(_, _) => "bitcrusher"
    case Tremolo(_, _) => "tremolo"
    case StereoWidener(_) => "stereo_widener"
  }

  datatype NodeSpec = NodeSpec(labelText: string, inputs: u16, outputs: u16, kind: Option<string>,
                               params: Option<NodeParams>)

  datatype NodeInfo = NodeInfo(id: usize, labelText: string, inputs: u16, outputs: u16, kind: Option<string>,
                               params: Option<NodeParams>)

  datatype LinkInfo = LinkInfo(id: nat, from: usize, fromPort: u16, to: usize, toPort: u16)

  datatype ControlError = BadRequest | NotFound | GraphError

  /** Topology and registries together. */
  datatype Registry = Registry(topology: Snapshot, labels: map<usize, string>, kinds: map<usize, string>,
                               params: map<usize, NodeParams>)

  const NOTHING := Registry(EMPTY, map[], map[], map[])

  // ----- queries -----------------------------------------------------------------------------------

  function Digits(n: nat): string {
    if n < 10 then [(n as char) + '0'] else Digits(n / 10) + [((n % 10) as char) + '0']
  }

  function Get<V>(m: map<usize, V>, id: usize): Option<V> {
    if id in m then Some(m[id]) else None
  }

  function Info(c: Registry, n: NodeSnapshot): NodeInfo {
    NodeInfo(n.id, if n.id in c.labels then c.labels[n.id] else "node-" + Digits(n.id),
             |n.inputs| % 65536, |n.outputs| % 65536, Get(c.kinds, n.id), Get(c.params, n.id))
  }

  function ListNodes(c: Registry): (infos: seq<NodeInfo>)
    ensures |infos| == |c.topology.nodes|
    ensures forall i :: 0 <= i < |infos| ==> infos[i] == Info(c, c.topology.nodes[i])
  {
    seq(|c.topology.nodes|, i requires 0 <= i < |c.topology.nodes| => Info(c, c.topology.nodes[i]))
  }

  function ListLinks(c: Registry): (links: seq<LinkInfo>)
    ensures |links| == |c.topology.edges|
    ensures forall i :: 0 <= i < |links| ==> links[i] == LinkOf(i, c.topology.edges[i])
  {
    seq(|c.topology.edges|, i requires 0 <= i < |c.topology.edges| => LinkOf(i, c.topology.edges[i]))
  }

  function LinkOf(i: nat, e: SnapshotEdge): LinkInfo {
    LinkInfo(i, e.from, e.fromPort % 65536, e.to, e.toPort % 65536)
  }

  // ----- operations ----------------------------------------------------------------------------------

  predicate IsWhitespace(c: char) {
    var n := c as int;
    9 <= n <= 13 || n in {0x20, 0x85, 0xA0, 0x1680, 0x2028, 0x2029, 0x202F, 0x205F, 0x3000} || 0x2000 <= n <= 0x200A
  }

  /** What is left after trimming is empty. */
  predicate IsBlank(s: string) {
    forall i :: 0 <= i < |s| ==> IsWhitespace(s[i])
  }

  function BuildPorts(count: u16, direction: PortDir): (ports: seq<PortMeta>)
    ensures |ports| == count
  {
    seq(count, _ => PortMeta(direction, 1, F32))
  }

  predicate Agrees(spec: NodeSpec) {
    spec.params.Some? && spec.kind.Some? ==> spec.kind.value == KindName(spec.params.value)
  }

  /** The declared kind, or the one the params name. */
  function KindOf(spec: NodeSpec): Option<string> {
    if spec.kind.None? && spec.params.Some? then Some(KindName(spec.params.value)) else spec.kind
  }

  predicate Acceptable(spec: NodeSpec) {
    !IsBlank(spec.labelText) && Agrees(spec)
  }

  function NewId(t: Snapshot): usize {
    var m := MaxId(t.nodes);
    if m < USIZE_MAX then m + 1 else USIZE_MAX
  }

  function Recorded(c: Registry, node: NodeSnapshot, labelText: string, kind: Option<string>,
                    params: Option<NodeParams>): Registry {
    Registry(Apply(c.topology, AddNode(node)),
             c.labels[node.id := labelText],
             if kind.Some? then c.kinds[node.id := kind.value] else c.kinds,
             if params.Some? then c.params[node.id := params.value] else c.params)
  }

  function Created(c: Registry, spec: NodeSpec): Registry {
    var node := NodeSnapshot(NewId(c.topology), BuildPorts(spec.inputs, Input), BuildPorts(spec.outputs, Output));
    Recorded(c, node, spec.labelText, KindOf(spec), spec.params)
  }

  /** The node and its incident links gone, its registry entries pruned. */
  function Deleted(c: Registry, id: usize): Registry {
    Registry(Apply(c.topology, RemoveNode(id)), c.labels - {id}, c.kinds - {id}, c.params - {id})
  }

  /** Both nodes exist and have those ports. */
  predicate PortsExist(t: Snapshot, e: SnapshotEdge) {
    && Node(t, e.from).Some? && e.fromPort < |Node(t, e.from).value.outputs|
    && Node(t, e.to).Some? && e.toPort < |Node(t, e.to).value.inputs|
  }

  function LinkError(t: Snapshot, e: SnapshotEdge): ControlError {
    if Node(t, e.from).None? then NotFound
    else if e.fromPort >= |Node(t, e.from).value.outputs| then BadRequest
    else if Node(t, e.to).None? then NotFound
    else BadRequest
  }

  // ----- the object --------------------------------------------------------------------------------

  /** `stored` says whether the session store takes the mutation of a call. */
  class GraphController {
    var topology: Snapshot
    var labels: map<usize, string>
    var kinds: map<usize, string>
    var params: map<usize, NodeParams>

    ghost function State(): Registry
      reads this
    {
      Registry(topology, labels, kinds, params)
    }

    /** Over a store that may already hold a graph; nothing is recorded about it. */
    constructor (stored: Snapshot)
      ensures State() == Registry(stored, map[], map[], map[])
    {
      topology, labels, kinds, params := stored, map[], map[], map[];
    }

    /** With kinds and params already recorded elsewhere; labels are always a controller's own. */
    constructor WithRegistries(stored: Snapshot, kinds: map<usize, string>, params: map<usize, NodeParams>)
      ensures State() == Registry(stored, map[], kinds, params)
    {
      this.topology, this.labels, this.kinds, this.params := stored, map[], kinds, params;
    }

    method CreateNode(spec: NodeSpec, stored: bool) returns (r: Result<usize, ControlError>)
      modifies this
      ensures State() == if Acceptable(spec) && stored then Created(old(State()), spec) else old(State())
      ensures r == if !Acceptable(spec) then Err(BadRequest)
                   else if !stored then Err(GraphError)
                   else Ok(NewId(old(topology)))
    {
      hide KindName, IsWhitespace, Apply;
      if IsBlank(spec.labelText) {
        return Err(BadRequest);
      }
      var kind := spec.kind;
      if spec.params.Some? {
        var actual := KindName(spec.params.value);
        if kind.Some? && kind.value != actual {
          return Err(BadRequest);
        }
        kind := Some(actual);
      }
      var id := NewId(topology);
      var node := NodeSnapshot(id, BuildPorts(spec.inputs, Input), BuildPorts(spec.outputs, Output));
      if !stored {
        return Err(GraphError);
      }
      topology := Apply(topology, AddNode(node));
      labels := labels[id := spec.labelText];
      if kind.Some? {
        kinds := kinds[id := kind.value];
      }
      if spec.params.Some? {
        params := params[id := spec.params.value];
      }
      r := Ok(id);
    }

    method LinkPorts(from: usize, fromPort: u16, to: usize, toPort: u16,
                     stored: bool) returns (r: Result<nat, ControlError>)
      modifies this
      ensures var e := SnapshotEdge(from, fromPort, to, toPort);
              var ok := PortsExist(old(topology), e);
              && State() == (if ok && stored then old(State()).(topology := Apply(old(topology), AddLink(e)))
                             else old(State()))
              && r == if !ok then Err(LinkError(old(topology), e))
                      else if !stored then Err(GraphError)
                      else Ok(|old(topology).edges|)
    {
      var src := Node(topology, from);
      if src.None? {
        return Err(NotFound);
      }
      if fromPort >= |src.value.outputs| {
        return Err(BadRequest);
      }
      var dst := Node(topology, to);
      if dst.None? {
        return Err(NotFound);
      }
      if toPort >= |dst.value.inputs| {
        return Err(BadRequest);
      }
      if !stored {
        return Err(GraphError);
      }
      topology := Apply(topology, AddLink(SnapshotEdge(from, fromPort, to, toPort)));
      if |topology.edges| == 0 {
        return Err(GraphError);
      }
      r := Ok(|topology.edges| - 1);
    }

    method DeleteNode(id: usize, stored: bool) returns (r: Result<(), ControlError>)
      modifies this
      ensures State() == if HasNode(old(topology).nodes, id) && stored then Deleted(old(State()), id) else old(State())
      ensures r == if !HasNode(old(topology).nodes, id) then Err(NotFound)
                   else if !stored then Err(GraphError)
                   else Ok(())
    {
      if Node(topology, id).None? {
        return Err(NotFound);
      }
      if !stored {
        return Err(GraphError);
      }
      topology := Apply(topology, RemoveNode(id));
      labels := labels - {id};
      kinds := kinds - {id};
      params := params - {id};
      r := Ok(());
    }

    method DeleteLink(id: usize, stored: bool) returns (r: Result<(), ControlError>)
      modifies this
      ensures State()
              == old(State()).(topology := if stored then Apply(old(topology), RemoveLink(id)) else old(topology))
      ensures r == if id >= |old(topology).edges| then Err(NotFound) else if !stored then Err(GraphError) else Ok(())
    {
      if id >= |topology.edges| {
        return Err(NotFound);
      }
      if !stored {
        return Err(GraphError);
      }
      topology := Apply(topology, RemoveLink(id));
      r := Ok(());
    }
  }

  // ----- runs ------------------------------------------------------------------------------------------

  datatype Op =
    | Create(spec: NodeSpec, stored: bool)
    | LinkPorts(edge: SnapshotEdge, stored: bool)
    | DeleteNode(id: usize, stored: bool)
    | DeleteLink(index: usize, stored: bool)

  function Step(c: Registry, op: Op): Registry {
    if !op.stored then c
    else match op
      case Create(spec, _) => if Acceptable(spec) then Created(c, spec) else c
      case LinkPorts(e, _) => if PortsExist(c.topology, e) then c.(topology := Apply(c.topology, AddLink(e))) else c
      case DeleteNode(id, _) => if HasNode(c.topology.nodes, id) then Deleted(c, id) else c
      case DeleteLink(i, _) => c.(topology := Apply(c.topology, RemoveLink(i)))
  }

  function Run(c: Registry, ops: seq<Op>): Registry {
    if ops == [] then c else Step(Run(c, ops[..|ops| - 1]), ops[|ops| - 1])
  }

  // ----- well-formedness --------------------------------------------------------------------------------

  ghost predicate LiveKeys<V>(t: Snapshot, m: map<usize, V>) {
    forall id :: id in m ==> HasNode(t.nodes, id)
  }

  /** Ids are distinct, edges join existing ports, the registries speak only of existing nodes, and
      params are only recorded next to the kind they name. */
  ghost predicate WellFormed(c: Registry) {
    && DistinctIds(c.topology.nodes)
    && (forall e :: e in c.topology.edges ==> PortsExist(c.topology, e))
    && LiveKeys(c.topology, c.labels) && LiveKeys(c.topology, c.kinds) && LiveKeys(c.topology, c.params)
    && (forall id :: id in c.params ==> id in c.kinds && c.kinds[id] == KindName(c.params[id]))
  }

  /** The id handed out is new exactly when the largest id in use is not the largest there is. */
  lemma {:induction false} NewIdIsFresh(t: Snapshot)
    ensures !HasNode(t.nodes, NewId(t)) <==> MaxId(t.nodes) < USIZE_MAX
    ensures t.nodes == [] ==> NewId(t) == 1
  {
    HasNodeMeans(t.nodes, NewId(t));
    if t.nodes != [] {
      var i :| 0 <= i < |t.nodes| && t.nodes[i].id == MaxId(t.nodes);
      assert t.nodes[i] in t.nodes;
    }
  }

  /** It is one above the largest id in use. */
  lemma {:induction false} NewIdIsNext(t: Snapshot)
    ensures forall n :: n in t.nodes ==> n.id < NewId(t) || n.id == USIZE_MAX
    ensures t.nodes != [] && (forall n :: n in t.nodes ==> n.id < USIZE_MAX) ==>
              exists n :: n in t.nodes && n.id + 1 == NewId(t)
  {
    if t.nodes != [] {
      var i :| 0 <= i < |t.nodes| && t.nodes[i].id == MaxId(t.nodes);
      assert t.nodes[i] in t.nodes;
    }
  }

  lemma {:induction false} HasAppended(nodes: seq<NodeSnapshot>, x: NodeSnapshot, id: usize)
    ensures HasNode(nodes + [x], id) <==> HasNode(nodes, id) || id == x.id
  {
    IndexAppend(nodes, x, id);
  }

  lemma {:induction false} AppendIsDistinct(nodes: seq<NodeSnapshot>, x: NodeSnapshot)
    requires DistinctIds(nodes) && !HasNode(nodes, x.id)
    ensures DistinctIds(nodes + [x])
  {
  }

  lemma {:induction false} AppendKeepsKeys<V>(t: Snapshot, x: NodeSnapshot, m: map<usize, V>, v: V)
    requires LiveKeys(t, m)
    ensures LiveKeys(t.(nodes := t.nodes + [x]), m) && LiveKeys(t.(nodes := t.nodes + [x]), m[x.id := v])
  {
    hide HasNode;
    forall id | id in m || id == x.id ensures HasNode(t.nodes + [x], id) {
      HasAppended(t.nodes, x, id);
    }
  }

  lemma {:induction false} AppendKeepsEdges(t: Snapshot, x: NodeSnapshot)
    requires (forall e :: e in t.edges ==> PortsExist(t, e)) && !HasNode(t.nodes, x.id)
    ensures forall e :: e in t.edges ==> PortsExist(Apply(t, AddNode(x)), e)
  {
    hide Node, HasNode, WithNode;
    forall e | e in t.edges ensures PortsExist(Apply(t, AddNode(x)), e) {
      NodeAppend(t, x, e.from);
      NodeAppend(t, x, e.to);
      HasMeansSome(t, x.id);
    }
  }

  lemma {:induction false} HasMeansSome(t: Snapshot, id: usize)
    ensures HasNode(t.nodes, id) <==> Node(t, id).Some?
  {
  }

  lemma {:induction false} RecordKeeps(c: Registry, node: NodeSnapshot, labelText: string, kind: Option<string>,
                                       params: Option<NodeParams>)
    requires WellFormed(c) && !HasNode(c.topology.nodes, node.id)
    requires params.Some? ==> kind == Some(KindName(params.value))
    ensures WellFormed(Recorded(c, node, labelText, kind, params))
  {
    hide KindName, HasNode, LiveKeys, DistinctIds, PortsExist, WithNode;
    NodeAppend(c.topology, node, node.id);
    AppendIsDistinct(c.topology.nodes, node);
    AppendKeepsEdges(c.topology, node);
    AppendKeepsKeys(c.topology, node, c.labels, labelText);
    AppendKeepsKeys(c.topology, node, c.kinds, if kind.Some? then kind.value else "");
    AppendKeepsKeys(c.topology, node, c.params, if params.Some? then params.value else Meter);
    NotLiveNotKey(c.topology, c.params, node.id);
  }

  lemma {:induction false} NotLiveNotKey<V>(t: Snapshot, m: map<usize, V>, id: usize)
    requires LiveKeys(t, m) && !HasNode(t.nodes, id)
    ensures id !in m
  {
  }

  lemma {:induction false} DeleteKeepsKeys<V>(t: Snapshot, id: usize, m: map<usize, V>)
    requires LiveKeys(t, m)
    ensures LiveKeys(Apply(t, RemoveNode(id)), m - {id})
  {
    hide WithoutEdges, WithoutNode, HasNode;
    forall k | k in m - {id} ensures HasNode(WithoutNode(t.nodes, id), k) {
      WithoutIndex(t.nodes, id, k);
    }
  }

  lemma {:induction false} DeleteKeepsEdges(t: Snapshot, id: usize)
    requires forall e :: e in t.edges ==> PortsExist(t, e)
    ensures var t' := Apply(t, RemoveNode(id)); forall e :: e in t'.edges ==> PortsExist(t', e)
  {
    hide WithoutEdges, WithoutNode, Node;
    var t' := Apply(t, RemoveNode(id));
    forall e | e in t'.edges ensures PortsExist(t', e) {
      NodeWithout(t, id, e.from);
      NodeWithout(t, id, e.to);
    }
  }

  lemma {:induction false} DeleteKeeps(c: Registry, id: usize)
    requires WellFormed(c)
    ensures WellFormed(Deleted(c, id))
  {
    hide KindName, PortsExist, LiveKeys, DistinctIds;
    WithoutIsDistinct(c.topology.nodes, id);
    DeleteKeepsKeys(c.topology, id, c.labels);
    DeleteKeepsKeys(c.topology, id, c.kinds);
    DeleteKeepsKeys(c.topology, id, c.params);
    DeleteKeepsEdges(c.topology, id);
    hide WithoutNode, WithoutEdges;
  }

  lemma {:induction false} EdgesKeep(c: Registry, edges: seq<SnapshotEdge>)
    requires WellFormed(c) && forall e :: e in edges ==> PortsExist(c.topology, e)
    ensures WellFormed(c.(topology := c.topology.(edges := edges)))
  {
    hide KindName;
    var t := c.topology.(edges := edges);
    forall e | e in edges ensures PortsExist(t, e) {
      assert Node(t, e.from) == Node(c.topology, e.from) && Node(t, e.to) == Node(c.topology, e.to);
    }
  }

  lemma {:induction false} StepKeeps(c: Registry, op: Op)
    requires WellFormed(c) && (op.Create? ==> MaxId(c.topology.nodes) < USIZE_MAX)
    ensures WellFormed(Step(c, op))
  {
    hide WellFormed, KindName, IsBlank, Recorded, Deleted;
    match op
    case Create(spec, stored) =>
      if stored && Acceptable(spec) {
        NewIdIsFresh(c.topology);
        var ins, outs := BuildPorts(spec.inputs, Input), BuildPorts(spec.outputs, Output);
        var node := NodeSnapshot(NewId(c.topology), ins, outs);
        RecordKeeps(c, node, spec.labelText, KindOf(spec), spec.params);
      }
    case LinkPorts(e, stored) =>
      EdgesExist(c);
      if stored && PortsExist(c.topology, e) {
        EdgesKeep(c, c.topology.edges + [e]);
      }
    case DeleteNode(id, stored) => DeleteKeeps(c, id);
    case DeleteLink(i, stored) =>
      EdgesExist(c);
      if i < |c.topology.edges| {
        EdgesKeep(c, c.topology.edges[..i] + c.topology.edges[i + 1..]);
      }
  }

  lemma {:induction false} EdgesExist(c: Registry)
    requires WellFormed(c)
    ensures forall e :: e in c.topology.edges ==> PortsExist(c.topology, e)
  {
  }

  // ----- main results --------------------------------------------------------------------------------------

  function Creates(ops: seq<Op>): nat {
    if ops == [] then 0 else Creates(ops[..|ops| - 1]) + if ops[|ops| - 1].Create? then 1 else 0
  }

  lemma {:induction false} MaxIdGrowsByOne(c: Registry, op: Op)
    ensures MaxId(Step(c, op).topology.nodes) <= MaxId(c.topology.nodes) + if op.Create? then 1 else 0
  {
    hide Acceptable, PortsExist, WithoutEdges, KindName, KindOf;
    var nodes, nodes' := c.topology.nodes, Step(c, op).topology.nodes;
    if nodes' != [] {
      var i :| 0 <= i < |nodes'| && nodes'[i].id == MaxId(nodes');
      if op.DeleteNode? {
        assert nodes'[i] in nodes;
      }
    }
  }

  /** Every run of create, link, delete-node and delete-link from any well-formed state, with any calls
      refused by the store, stays well-formed as long as there are ids left for its creations. */
  lemma {:induction false} RunIsWellFormed(c: Registry, ops: seq<Op>)
    requires WellFormed(c) && MaxId(c.topology.nodes) + Creates(ops) <= USIZE_MAX
    ensures WellFormed(Run(c, ops)) && MaxId(Run(c, ops).topology.nodes) <= MaxId(c.topology.nodes) + Creates(ops)
  {
    hide WellFormed, Step;
    if ops == [] {
    } else {
      var n := |ops| - 1;
      RunIsWellFormed(c, ops[..n]);
      MaxIdGrowsByOne(Run(c, ops[..n]), ops[n]);
      StepKeeps(Run(c, ops[..n]), ops[n]);
    }
  }

  lemma {:induction false} NothingIsWellFormed()
    ensures WellFormed(NOTHING)
  {
  }

  lemma {:induction false} InfoIsLocal(c: Registry, c': Registry, n: NodeSnapshot)
    requires Get(c'.labels, n.id) == Get(c.labels, n.id) && Get(c'.kinds, n.id) == Get(c.kinds, n.id)
    requires Get(c'.params, n.id) == Get(c.params, n.id)
    ensures Info(c', n) == Info(c, n)
  {
    hide Digits;
  }

  lemma {:induction false} RecordedInfo(c: Registry, node: NodeSnapshot, labelText: string, kind: Option<string>,
                                        params: Option<NodeParams>, n: NodeSnapshot)
    requires kind.None? ==> node.id !in c.kinds
    requires params.None? ==> node.id !in c.params
    ensures Info(Recorded(c, node, labelText, kind, params), node)
         == NodeInfo(node.id, labelText, |node.inputs| % 65536, |node.outputs| % 65536, kind, params)
    ensures n.id != node.id ==> Info(Recorded(c, node, labelText, kind, params), n) == Info(c, n)
  {
    hide Digits, Apply;
    if n.id != node.id {
      InfoIsLocal(c, Recorded(c, node, labelText, kind, params), n);
    }
  }

  /** A created node is listed with exactly what was asked for, after the others, which are listed
      as before: a reused id inherits nothing. */
  lemma {:induction false} CreatedIsListed(c: Registry, spec: NodeSpec)
    requires WellFormed(c) && MaxId(c.topology.nodes) < USIZE_MAX
    ensures ListNodes(Created(c, spec)) == ListNodes(c) +
              [NodeInfo(NewId(c.topology), spec.labelText, spec.inputs, spec.outputs, KindOf(spec), spec.params)]
    ensures ListLinks(Created(c, spec)) == ListLinks(c)
  {
    hide NewId, WellFormed, MaxId, Info, Recorded, LinkOf, KindOf;
    var id := NewId(c.topology);
    var node := NodeSnapshot(id, BuildPorts(spec.inputs, Input), BuildPorts(spec.outputs, Output));
    CreatedAs(c, spec);
    RecordedInfo(c, node, spec.labelText, KindOf(spec), spec.params, node);
    forall i | 0 <= i < |c.topology.nodes|
      ensures Info(Created(c, spec), c.topology.nodes[i]) == Info(c, c.topology.nodes[i])
    {
      RecordedInfo(c, node, spec.labelText, KindOf(spec), spec.params, c.topology.nodes[i]);
    }
  }

  /** A created node comes last, under an id no node and no registry knows. */
  lemma {:induction false} CreatedAs(c: Registry, spec: NodeSpec)
    requires WellFormed(c) && MaxId(c.topology.nodes) < USIZE_MAX
    ensures var id := NewId(c.topology);
            var node := NodeSnapshot(id, BuildPorts(spec.inputs, Input), BuildPorts(spec.outputs, Output));
            && Created(c, spec).topology == c.topology.(nodes := c.topology.nodes + [node])
            && id !in c.kinds && id !in c.params
            && forall i :: 0 <= i < |c.topology.nodes| ==> c.topology.nodes[i].id != id
  {
    var id := NewId(c.topology);
    var node := NodeSnapshot(id, BuildPorts(spec.inputs, Input), BuildPorts(spec.outputs, Output));
    NewIdIsFresh(c.topology);
    hide NewId, KindOf, KindName, PortsExist, MaxId, DistinctIds;
    NodeAppend(c.topology, node, id);
    HasNodeMeans(c.topology.nodes, id);
    forall i | 0 <= i < |c.topology.nodes| ensures c.topology.nodes[i].id != id {
      assert c.topology.nodes[i] in c.topology.nodes;
    }
    hide HasNode, WithNode;
    NotLiveNotKey(c.topology, c.kinds, id);
    NotLiveNotKey(c.topology, c.params, id);
  }

  lemma {:induction false} DeletedInfo(c: Registry, id: usize, n: NodeSnapshot)
    requires n.id != id
    ensures Info(Deleted(c, id), n) == Info(c, n)
  {
    hide Apply;
    InfoIsLocal(c, Deleted(c, id), n);
  }

  lemma {:induction false} Listed(c: Registry, info: NodeInfo)
    ensures info in ListNodes(c) <==> exists n :: n in c.topology.nodes && Info(c, n) == info
  {
    hide Info;
    if info in ListNodes(c) {
      var i :| 0 <= i < |ListNodes(c)| && ListNodes(c)[i] == info;
      assert c.topology.nodes[i] in c.topology.nodes;
    }
    forall i | 0 <= i < |c.topology.nodes| ensures Info(c, c.topology.nodes[i]) in ListNodes(c) {
      assert ListNodes(c)[i] in ListNodes(c);
    }
  }

  lemma {:induction false} InfoHasId(c: Registry, n: NodeSnapshot)
    ensures Info(c, n).id == n.id
  {
  }

  /** Deleting a node leaves every other node and every link between other nodes as listed. */
  lemma {:induction false} DeletedIsGone(c: Registry, id: usize)
    ensures forall info :: info in ListNodes(Deleted(c, id)) <==> info in ListNodes(c) && info.id != id
    ensures !HasNode(Deleted(c, id).topology.nodes, id)
    ensures id !in Deleted(c, id).labels && id !in Deleted(c, id).kinds && id !in Deleted(c, id).params
    ensures forall e :: e in Deleted(c, id).topology.edges <==> e in c.topology.edges && !Touches(e, id)
  {
    hide Info, ListNodes, HasNode, WithoutNode, WithoutEdges;
    var c' := Deleted(c, id);
    HasNodeMeans(c'.topology.nodes, id);
    forall info ensures info in ListNodes(c') <==> info in ListNodes(c) && info.id != id {
      Listed(c, info);
      Listed(c', info);
      forall n ensures Info(c, n).id == n.id == Info(c', n).id && (n.id != id ==> Info(c', n) == Info(c, n)) {
        InfoHasId(c, n);
        InfoHasId(c', n);
        if n.id != id {
          DeletedInfo(c, id, n);
        }
      }
    }
  }

  /** When the largest id is in use, a new node takes it over and inherits the old kind and params. */
  lemma {:induction false} StaleAtTheTop(spec: NodeSpec, gain: real)
    requires spec.kind.None? && spec.params.None?
    ensures var top := NodeSnapshot(USIZE_MAX, [], []);
            var c := Registry(Snapshot([top], []), map[], map[USIZE_MAX := "gain"], map[USIZE_MAX := Gain(gain)]);
            && WellFormed(c) && |ListNodes(Created(c, spec))| == 1
            && ListNodes(Created(c, spec))[0].params == Some(Gain(gain))
  {
    var top := NodeSnapshot(USIZE_MAX, [], []);
    assert MaxId([top]) == USIZE_MAX;
    assert IndexOf([top], USIZE_MAX) == 0;
  }

  /** A new link is listed last, as asked for, and the links and nodes listed before stay as they were. */
  lemma {:induction false} LinkedIsListed(c: Registry, e: SnapshotEdge)
    requires PortsExist(c.topology, e) && e.fromPort < 65536 && e.toPort < 65536
    ensures var c' := Step(c, LinkPorts(e, true));
            && ListLinks(c') == ListLinks(c) + [LinkInfo(|c.topology.edges|, e.from, e.fromPort, e.to, e.toPort)]
            && ListNodes(c') == ListNodes(c)
  {
    hide PortsExist, Info;
    var c' := Step(c, LinkPorts(e, true));
    AddLinkIs(c.topology, e);
    forall n ensures Info(c', n) == Info(c, n) {
      InfoIsLocal(c, c', n);
    }
  }

  /** Deleting link `i`: the links before it are listed as before, the later ones one place earlier under
      one id less, and exactly that link is gone; the nodes stay. */
  lemma {:induction false} DeletedLinkIsGone(c: Registry, i: usize)
    requires i < |c.topology.edges|
    ensures var before, after := ListLinks(c), ListLinks(Step(c, DeleteLink(i, true)));
            && |after| == |before| - 1
            && (forall k :: 0 <= k < i ==> after[k] == before[k])
            && (forall k :: i <= k < |after| ==> after[k] == before[k + 1].(id := k))
            && ListNodes(Step(c, DeleteLink(i, true))) == ListNodes(c)
  {
    hide Info;
    var c' := Step(c, DeleteLink(i, true));
    RemoveLinkIs(c.topology, i);
    hide Apply;
    forall n ensures Info(c', n) == Info(c, n) {
      InfoIsLocal(c, c', n);
    }
  }

  /** Trimming from both ends. */
  function Trimmed(s: string): string {
    if s == [] then []
    else if IsWhitespace(s[0]) then Trimmed(s[1..])
    else if IsWhitespace(s[|s| - 1]) then Trimmed(s[..|s| - 1])
    else s
  }

  lemma {:induction false} TrimmedIsBlank(s: string)
    ensures Trimmed(s) == [] <==> IsBlank(s)
  {
    hide IsWhitespace;
    if s == [] {
    } else if IsWhitespace(s[0]) {
      TrimmedIsBlank(s[1..]);
      assert forall i :: 0 < i < |s| ==> s[i] == s[1..][i - 1];
    } else if IsWhitespace(s[|s| - 1]) {
      TrimmedIsBlank(s[..|s| - 1]);
      assert s[..|s| - 1][0] == s[0];
    }
  }

  /** A creation is refused exactly for a label with nothing left after trimming, or for params next to the
      name of another kind. What is created is of the kind asked for, or else of the kind of its params. */
  lemma {:induction false} AcceptedExactlyWhen(spec: NodeSpec)
    ensures Acceptable(spec) <==>
              && Trimmed(spec.labelText) != []
              && !(spec.params.Some? && spec.kind.Some? && spec.kind.value != KindName(spec.params.value))
    ensures spec.kind.Some? ==> KindOf(spec) == spec.kind
    ensures spec.kind.None? ==>
              KindOf(spec) == if spec.params.Some? then Some(KindName(spec.params.value)) else None
  {
    hide IsWhitespace, KindName;
    TrimmedIsBlank(spec.labelText);
  }

  function ValueOf(digits: string): int {
    if digits == "" then 0 else 10 * ValueOf(digits[..|digits| - 1]) + (digits[|digits| - 1] as int - '0' as int)
  }

  /** The default label ends in the decimal number, without leading zeros. */
  lemma {:induction false} DigitsAreDecimal(n: nat)
    ensures ValueOf(Digits(n)) == n && Digits(n) != "" && (Digits(n)[0] == '0' ==> n == 0)
    ensures forall i :: 0 <= i < |Digits(n)| ==> '0' <= Digits(n)[i] <= '9'
  {
    if n < 10 {
    } else {
      DigitsAreDecimal(n / 10);
      assert Digits(n)[..|Digits(n)| - 1] == Digits(n / 10);
    }
  }

  /** Why a link is refused: the first of source node, source port, target node and target port that is missing
      decides, a node as not found and a port as a bad request. */
  lemma {:induction false} LinkRefusals(t: Snapshot, e: SnapshotEdge)
    requires !PortsExist(t, e)
    ensures var src, dst := Node(t, e.from), Node(t, e.to);
            && (src.None? ==> LinkError(t, e) == NotFound)
            && (src.Some? && e.fromPort >= |src.value.outputs| ==> LinkError(t, e) == BadRequest)
            && (src.Some? && e.fromPort < |src.value.outputs| && dst.None? ==> LinkError(t, e) == NotFound)
            && (src.Some? && e.fromPort < |src.value.outputs| && dst.Some? ==>
                  LinkError(t, e) == BadRequest && e.toPort >= |dst.value.inputs|)
  {
    hide IndexOf;
  }
}
