/**
 The objects live reload works on: the store, the rebuild task with its slot, the engine, and the gateway
 bridge. Every method performs the steps of the interleaving model, so that the theorems about its runs
 are about them.
 */
module Engine {
  import opened Common
  import opened BuildGraph
  import L = LiveReload
  import T = Topology

  // ----- rings and the bridge --------------------------------------------------------------------------

  /** A bounded single-producer, single-consumer FIFO. Its past, its maker and its side are history. */
  class RingBuffer {
    var frames: seq<L.Frame>
    const capacity: nat
    ghost const build: nat
    ghost const inbound: bool
    ghost var accepted: seq<L.Frame>
    ghost var gone: seq<L.Frame>

    ghost function State(): L.Ring
      reads this
    {
      L.Ring(build, inbound, accepted, gone, frames)
    }

    constructor (capacity: nat, ghost build: nat, ghost inbound: bool)
      ensures State() == L.Ring(build, inbound, [], [], []) && this.capacity == capacity
    {
      this.frames, this.capacity := [], capacity;
      this.build, this.inbound, this.accepted, this.gone := build, inbound, [], [];
    }

    method Push(frame: L.Frame) returns (ok: bool)
      modifies this
      ensures State() == L.Pushed(old(State()), capacity, frame)
      ensures ok <==> |old(frames)| < capacity
    {
      ok := |frames| < capacity;
      if ok {
        frames, accepted := frames + [frame], accepted + [frame];
      }
    }

    /** Offers frames one by one; those that meet a full ring are dropped. */
    method PushAll(fs: seq<L.Frame>)
      modifies this
      ensures State() == L.PushedAll(old(State()), capacity, fs)
    {
      var i := 0;
      while i < |fs|
        invariant 0 <= i <= |fs|
        invariant State() == L.PushedAll(old(State()), capacity, fs[..i])
      {
        assert fs[..i + 1][..i] == fs[..i];
        var _ := Push(fs[i]);
        i := i + 1;
      }
      assert fs[..i] == fs;
    }

    /** Takes `n` frames out, if there are that many. */
    method Take(n: nat)
      modifies this
      ensures State() == L.Popped(old(State()), n)
    {
      if n <= |frames| {
        frames, gone := frames[n..], gone + frames[..n];
      }
    }

    method Pop() returns (frame: Option<L.Frame>)
      modifies this
      ensures State() == L.Popped(old(State()), 1)
      ensures frame == if old(frames) == [] then None else Some(old(frames)[0])
    {
      frame := if frames == [] then None else Some(frames[0]);
      Take(1);
    }
  }

  /** What a graph slot holds: a bridge node with its ring and the ring's number, or any other node. */
  datatype Node =
    | SourceNode(ring: RingBuffer, number: nat)
    | SinkNode(ring: RingBuffer, number: nat)
    | Effect(id: T.usize)

  /** The gateway's side of the bridge. `rings` is every ring ever made, the ends by number. */
  class GatewayBridge {
    const capacity: nat
    var made: nat
    var inbound: Option<RingBuffer>
    var outbound: Option<RingBuffer>
    ghost var rings: seq<RingBuffer>
    ghost var inboundAt: Option<nat>
    ghost var outboundAt: Option<nat>

    ghost predicate Valid()
      reads this, rings
    {
      && made == |rings|
      && (forall i, j :: 0 <= i < j < |rings| ==> rings[i] != rings[j])
      && (forall i :: 0 <= i < |rings| ==> rings[i].capacity == capacity)
      && EndAt(inbound, inboundAt) && EndAt(outbound, outboundAt)
    }

    ghost predicate EndAt(end: Option<RingBuffer>, at: Option<nat>)
      reads this
    {
      && end.Some? == at.Some?
      && (at.Some? ==> at.value < |rings| && rings[at.value] == end.value)
    }

    ghost function Contents(): (states: seq<L.Ring>)
      reads this, rings
      ensures |states| == |rings| && forall i :: 0 <= i < |rings| ==> states[i] == rings[i].State()
    {
      seq(|rings|, i requires 0 <= i < |rings| reads this, rings => rings[i].State())
    }

    ghost function State(): L.Bridge
      reads this, rings
    {
      L.Bridge(Contents(), inboundAt, outboundAt, capacity)
    }

    constructor (capacity: nat)
      ensures Valid() && State() == L.Bridge([], None, None, capacity)
    {
      this.capacity, this.made, this.inbound, this.outbound := capacity, 0, None, None;
      this.rings, this.inboundAt, this.outboundAt := [], None, None;
    }

    /** A bridge node's number is that of the ring it holds. */
    ghost predicate Rung(node: Option<Node>)
      reads this
    {
      node.Some? && !node.value.Effect? ==>
        node.value.number < |rings| && rings[node.value.number] == node.value.ring
    }

    ghost predicate Wires(slots: seq<BuiltNode<Node>>)
      reads this
    {
      Rung(BridgeNode(slots, true)) && Rung(BridgeNode(slots, false))
    }

    method TakeFrom(ring: RingBuffer, number: nat, n: nat)
      requires Valid() && number < |rings| && rings[number] == ring
      modifies rings
      ensures Valid()
      ensures State() == L.OnRing(old(State()), Some(number), L.Popped(L.RingAt(old(State()), Some(number)), n))
    {
      hide L.Popped;
      ring.Take(n);
    }

    method PushTo(ring: RingBuffer, number: nat, fs: seq<L.Frame>)
      requires Valid() && number < |rings| && rings[number] == ring
      modifies rings
      ensures Valid()
      ensures State()
              == L.OnRing(old(State()), Some(number), L.PushedAll(L.RingAt(old(State()), Some(number)), capacity, fs))
    {
      hide L.PushedAll;
      ring.PushAll(fs);
    }

    /** A fresh ring; the gateway now holds its producer end. */
    method MakeSourceNode(ghost r: L.Reload) returns (node: BuiltNode<Node>)
      requires Valid() && r.phase.Building?
      modifies this
      ensures Valid() && State() == L.Bridged(old(State()), r, L.MakeSource)
      ensures |rings| == |old(rings)| + 1 && old(rings) <= rings && fresh(rings[|old(rings)|])
      ensures node.Plain? && node.node == SourceNode(rings[|old(rings)|], |old(rings)|)
    {
      var ring := new RingBuffer(capacity, r.phase.graph.build, true);
      node := Plain(SourceNode(ring, made));
      made, inbound := made + 1, Some(ring);
      inboundAt, rings := Some(|rings|), rings + [ring];
    }

    /** A fresh ring; the gateway now holds its consumer end. */
    method MakeSinkNode(ghost r: L.Reload) returns (node: BuiltNode<Node>)
      requires Valid() && r.phase.Building?
      modifies this
      ensures Valid() && State() == L.Bridged(old(State()), r, L.MakeSink)
      ensures |rings| == |old(rings)| + 1 && old(rings) <= rings && fresh(rings[|old(rings)|])
      ensures node.Sink? && node.node == SinkNode(rings[|old(rings)|], |old(rings)|)
    {
      var ring := new RingBuffer(capacity, r.phase.graph.build, false);
      node := Sink(SinkNode(ring, made));
      made, outbound := made + 1, Some(ring);
      outboundAt, rings := Some(|rings|), rings + [ring];
    }

    /** Refused when the ring is full or no source node exists yet. */
    method PushInbound(frame: L.Frame, ghost r: L.Reload) returns (ok: bool)
      requires Valid()
      modifies rings
      ensures Valid() && State() == L.Bridged(old(State()), r, L.PushInbound(frame))
      ensures ok <==> inbound.Some? && |old(L.RingAt(State(), inboundAt).queued)| < capacity
    {
      if inbound.None? {
        return false;
      }
      ok := inbound.value.Push(frame);
    }

    method PopOutbound(ghost r: L.Reload) returns (frame: Option<L.Frame>)
      requires Valid()
      modifies rings
      ensures Valid() && State() == L.Bridged(old(State()), r, L.PopOutbound)
      ensures var queued := old(L.RingAt(State(), outboundAt).queued);
              frame == if outbound.None? || queued == [] then None else Some(queued[0])
    {
      if outbound.None? {
        return None;
      }
      frame := outbound.value.Pop();
    }
  }

  // ----- graphs, the slot and the engine -------------------------------------------------------------------

  /** A built graph with the topology version it was read from and the number of its build. */
  datatype LiveGraph = LiveGraph(graph: Graph<Node>, version: nat, build: nat)

  /** The last bridge node of one side among the slots. */
  function BridgeNode(slots: seq<BuiltNode<Node>>, source: bool): (node: Option<Node>)
    ensures node.Some? ==> if source then node.value.SourceNode? else node.value.SinkNode?
  {
    if slots == [] then None
    else
      var last := slots[|slots| - 1].node;
      if (source && last.SourceNode?) || (!source && last.SinkNode?) then Some(last)
      else BridgeNode(slots[..|slots| - 1], source)
  }

  function Number(node: Option<Node>): Option<nat> {
    if node.None? || node.value.Effect? then None else Some(node.value.number)
  }

  function RingNumber(slots: seq<BuiltNode<Node>>, source: bool): Option<nat> {
    Number(BridgeNode(slots, source))
  }

  /** The graph as the interleaving model sees it. */
  function Seen(g: LiveGraph): L.Graph {
    L.Graph(g.version, g.build, RingNumber(g.graph.slots, true), RingNumber(g.graph.slots, false))
  }

  function SeenSlot(g: Option<LiveGraph>): Option<L.Graph> {
    if g.None? then None else Some(Seen(g.value))
  }

  /** One place, latest rebuild wins. */
  class RebuildSlot {
    var pending: Option<LiveGraph>

    constructor ()
      ensures pending == None
    {
      pending := None;
    }
  }

  class GraphEngine {
    var graph: LiveGraph
    const slot: RebuildSlot
    ghost var ran: seq<nat>

    ghost predicate Shows(r: L.Reload)
      reads this, slot
    {
      r.slot == SeenSlot(slot.pending) && r.live == Seen(graph) && r.ran == ran
    }

    constructor (graph: LiveGraph, slot: RebuildSlot)
      ensures this.graph == graph && this.slot == slot && ran == []
    {
      this.graph, this.slot, this.ran := graph, slot, [];
    }

    /** The live and the pending graph hold the rings their bridge nodes name. */
    ghost predicate Wired(bridge: GatewayBridge)
      reads this, slot, bridge
    {
      bridge.Wires(graph.graph.slots) && (slot.pending.Some? ==> bridge.Wires(slot.pending.value.graph.slots))
    }

    /** One cycle's traffic on the rings of the graph's bridge nodes. */
    method Cycle(bridge: GatewayBridge, source: Option<Node>, sink: Option<Node>, taken: nat, flushed: seq<L.Frame>)
      requires bridge.Valid() && bridge.Rung(source) && bridge.Rung(sink)
      modifies bridge.rings
      ensures bridge.Valid()
      ensures var from, to := Number(source), Number(sink);
              var b := old(bridge.State());
              var b1 := L.OnRing(b, from, L.Popped(L.RingAt(b, from), taken));
              bridge.State() == L.OnRing(b1, to, L.PushedAll(L.RingAt(b1, to), b.capacity, flushed))
    {
      hide L.PushedAll, L.Popped;
      if source.Some? && !source.value.Effect? {
        bridge.TakeFrom(source.value.ring, source.value.number, taken);
      }
      if sink.Some? && !sink.value.Effect? {
        bridge.PushTo(sink.value.ring, sink.value.number, flushed);
      }
    }

    /** The cycle runs on the old graph: its source takes frames, its sink is flushed; the swap comes after. */
    method Step(bridge: GatewayBridge, taken: nat, flushed: seq<L.Frame>, ghost r: L.Reload)
      requires bridge.Valid() && Shows(r) && Wired(bridge)
      modifies this, slot, bridge.rings
      ensures Wired(bridge) && Shows(L.Reloaded(r, |bridge.rings|, L.EngineStep(taken, flushed)))
      ensures graph == (if old(slot.pending).Some? then old(slot.pending).value else old(graph)) && slot.pending == None
      ensures bridge.Valid() && bridge.State() == L.Bridged(old(bridge.State()), r, L.EngineStep(taken, flushed))
    {
      hide L.PushedAll, L.Popped, BridgeNode;
      var source, sink := BridgeNode(graph.graph.slots, true), BridgeNode(graph.graph.slots, false);
      Cycle(bridge, source, sink, taken, flushed);
      assert bridge.State() == L.Bridged(old(bridge.State()), r, L.EngineStep(taken, flushed));
      ran := ran + [graph.version];
      if slot.pending.Some? {
        graph := slot.pending.value;
      }
      slot.pending := None;
    }
  }

  // ----- the store and the rebuild task --------------------------------------------------------------------

  /** The session store as the rebuild task meets it: the topology, and the events sent for it. */
  class Store {
    var topology: T.Snapshot
    var applied: nat
    var published: nat
    ghost var history: seq<T.Snapshot>

    ghost predicate Valid()
      reads this
    {
      |history| == applied + 1 && history[applied] == topology && published <= applied
    }

    ghost predicate Shows(r: L.Reload)
      reads this
    {
      r.history == history && r.published == published
    }

    constructor (topology: T.Snapshot)
      ensures Valid() && history == [topology] && published == 0 && applied == 0
    {
      this.topology, this.applied, this.published, this.history := topology, 0, 0, [topology];
    }

    /** Under the lock: the topology changes, then the event goes out. */
    method ApplyMutation(m: T.Mutation, ghost r: L.Reload)
      requires Valid() && Shows(r) && !L.Locked(r)
      modifies this
      ensures Valid() && Shows(L.Reloaded(L.Reloaded(r, 0, L.Mutate(m)), 0, L.Publish)) && applied == old(applied) + 1
      ensures topology == T.Apply(old(topology), m) && history == old(history) + [topology]
    {
      topology := T.Apply(topology, m);
      applied, history := applied + 1, history + [topology];
      published := published + 1;
    }
  }

  /** What the node factory makes of an id. */
  datatype Role = BridgeSource | BridgeSink | Ordinary(sink: bool) | Unknown

  predicate Named(nodes: seq<T.NodeSnapshot>, roles: T.usize -> Role) {
    forall i :: 0 <= i < |nodes| ==> roles(nodes[i].id) != Unknown
  }

  function MakeSteps(role: Role): seq<L.Step> {
    match role
    case BridgeSource => [L.MakeSource]
    case BridgeSink => [L.MakeSink]
    case _ => []
  }

  /** The bridge steps of a build: the nodes in order, up to the first unknown one. */
  function Makes(nodes: seq<T.NodeSnapshot>, roles: T.usize -> Role): seq<L.Step> {
    if nodes == [] then []
    else
      var n := |nodes| - 1;
      Makes(nodes[..n], roles) + if Named(nodes[..n], roles) then MakeSteps(roles(nodes[n].id)) else []
  }

  /** The rebuild state once these nodes have been made. */
  function Making(r: L.Reload, answers: seq<BuiltNode<Node>>): L.Reload
    requires r.phase.Building?
  {
    r.(phase := L.Building(r.phase.graph.(source := RingNumber(answers, true), sink := RingNumber(answers, false))))
  }

  /** What stands in a slot: a bridge node, or an ordinary node, registered as a sink or not. */
  datatype Place = FromGateway | ToGateway | Other(id: T.usize, sink: bool) | Misplaced

  function PlaceOf(slot: BuiltNode<Node>): Place {
    match slot
    case Plain(SourceNode(_, _)) => FromGateway
    case Sink(SinkNode(_, _)) => ToGateway
    case Plain(Effect(id)) => Other(id, false)
    case Sink(Effect(id)) => Other(id, true)
    case _ => Misplaced
  }

  function Expected(role: Role, id: T.usize): Place {
    match role
    case BridgeSource => FromGateway
    case BridgeSink => ToGateway
    case Ordinary(sink) => Other(id, sink)
    case Unknown => Misplaced
  }

  /** Each slot holds what the factory makes of the node in that position. */
  ghost predicate Filled(slots: seq<BuiltNode<Node>>, nodes: seq<T.NodeSnapshot>, roles: T.usize -> Role) {
    && |slots| <= |nodes|
    && forall i :: 0 <= i < |slots| ==>
         PlaceOf(slots[i]) == Expected(roles(nodes[i].id), nodes[i].id)
  }

  lemma {:induction false} FilledNext(slots: seq<BuiltNode<Node>>, slot: BuiltNode<Node>, nodes: seq<T.NodeSnapshot>,
                                      roles: T.usize -> Role)
    requires Filled(slots, nodes, roles) && |slots| < |nodes|
    requires PlaceOf(slot) == Expected(roles(nodes[|slots|].id), nodes[|slots|].id)
    ensures Filled(slots + [slot], nodes, roles)
  {
    hide PlaceOf, Expected;
  }

  lemma {:induction false} FilledNone(nodes: seq<T.NodeSnapshot>, roles: T.usize -> Role)
    ensures Filled([], nodes, roles)
  {
  }

  class RebuildTask {
    const store: Store
    const slot: RebuildSlot
    const bridge: GatewayBridge
    var next: nat
    var builds: nat
    ghost var phase: L.Phase
    ghost var attempt: Option<nat>
    var succeeded: bool
    var refused: bool

    ghost predicate Shows(r: L.Reload)
      reads this, store, slot
    {
      && store.Shows(r) && r.next == next && r.phase == phase && r.builds == builds
      && r.attempt == attempt && r.succeeded == succeeded && r.slot == SeenSlot(slot.pending)
    }

    constructor (store: Store, slot: RebuildSlot, bridge: GatewayBridge)
      ensures this.store == store && this.slot == slot && this.bridge == bridge
      ensures next == store.published && builds == 0 && phase == L.Pending && attempt == None
      ensures !succeeded && !refused
    {
      this.store, this.slot, this.bridge := store, slot, bridge;
      this.next, this.builds := store.published, 0;
      this.phase, this.attempt, this.succeeded, this.refused := L.Pending, None, false, false;
    }

    /** Polls the receiver: an event, missed events, or nothing. */
    method TryRecv(ghost r: L.Reload) returns (due: bool)
      requires Shows(r) && r.phase.Idle?
      modifies this
      ensures Shows(L.Reloaded(r, |bridge.rings|, L.TryRecv)) && due == phase.Pending? && (!due ==> phase.Idle?)
      ensures attempt == old(attempt) && succeeded == old(succeeded) && refused == old(refused) && builds == old(builds)
      ensures next >= old(next) && (old(next) < store.published ==> next > old(next))
      ensures next <= MaxOf(old(next), store.published)
    {
      due := next < store.published;
      if due {
        next := if store.published - next > L.CHANNEL_SLOTS then store.published - L.CHANNEL_SLOTS else next + 1;
        phase := L.Pending;
      }
    }

    /** One known node. */
    method MakeNode(role: Role, id: T.usize, ghost w: L.World) returns (node: BuiltNode<Node>)
      requires bridge.Valid() && w.reload.phase.Building? && bridge.State() == w.bridge && role != Unknown
      modifies bridge
      ensures bridge.Valid() && old(bridge.rings) <= bridge.rings && bridge.Rung(Some(node.node))
      ensures forall i :: |old(bridge.rings)| <= i < |bridge.rings| ==> fresh(bridge.rings[i])
      ensures PlaceOf(node) == Expected(role, id)
      ensures node.node.SourceNode? == role.BridgeSource? && node.node.SinkNode? == role.BridgeSink?
      ensures var r := w.reload;
              var w' := match role
                case BridgeSource => L.Next(w, L.MakeSource)
                case BridgeSink => L.Next(w, L.MakeSink)
                case _ => w;
              && bridge.State() == w'.bridge
              && w'.reload == match node.node
                 case SourceNode(_, k) => r.(phase := L.Building(r.phase.graph.(source := Some(k))))
                 case SinkNode(_, k) => r.(phase := L.Building(r.phase.graph.(sink := Some(k))))
                 case Effect(_) => r
    {
      hide L.Next;
      OneMade(w);
      match role {
        case BridgeSource => node := bridge.MakeSourceNode(w.reload);
        case BridgeSink => node := bridge.MakeSinkNode(w.reload);
        case Ordinary(sink) => node := if sink then Sink(Effect(id)) else Plain(Effect(id));
      }
    }

    /** The factory's answers for the nodes in order, up to and including the first unknown one; bridge
        nodes are made on the spot. `w` is the world while building. */
    method AskFactory(nodes: seq<T.NodeSnapshot>, roles: T.usize -> Role, ghost w: L.World)
        returns (answers: seq<BuiltNode<Node>>)
      requires bridge.Valid() && w.reload.phase.Building? && bridge.State() == w.bridge
      requires w.reload.phase.graph.source.None? && w.reload.phase.graph.sink.None?
      modifies bridge
      ensures bridge.Valid() && old(bridge.rings) <= bridge.rings
      ensures forall i :: |old(bridge.rings)| <= i < |bridge.rings| ==> fresh(bridge.rings[i])
      ensures Filled(answers, nodes, roles) && (|answers| == |nodes| <==> Named(nodes, roles))
      ensures var w' := L.Run(w, Makes(nodes, roles));
              && bridge.State() == w'.bridge && bridge.Wires(answers)
              && w'.reload == Making(w.reload, answers)
    {
      hide L.Next, Makes, BridgeNode, Filled, PlaceOf, Expected;
      answers := [];
      var i := 0;
      FilledNone(nodes, roles);
      MakesNone(roles);
      NoneMade(w);
      while i < |nodes| && roles(nodes[i].id) != Unknown
        invariant 0 <= i <= |nodes| && |answers| == i && Named(nodes[..i], roles) && Filled(answers, nodes, roles)
        invariant bridge.Valid() && old(bridge.rings) <= bridge.rings
        invariant forall k :: |old(bridge.rings)| <= k < |bridge.rings| ==> fresh(bridge.rings[k])
        invariant var w' := L.Run(w, Makes(nodes[..i], roles));
                  bridge.State() == w'.bridge && bridge.Wires(answers) && w'.reload == Making(w.reload, answers)
        decreases |nodes| - i
      {
        MakesNext(nodes, roles, i, w);
        ghost var before := L.Run(w, Makes(nodes[..i], roles));
        var node := MakeNode(roles(nodes[i].id), nodes[i].id, before);
        BridgeNodeSnoc(answers, node);
        FilledNext(answers, node, nodes, roles);
        answers := answers + [node];
        i := i + 1;
      }
      if i < |nodes| {
        MakesStop(nodes, roles, i);
      } else {
        assert nodes[..i] == nodes;
      }
    }

    /** Ask the factory for every node, then link and compile. */
    method BuildCurrent(topology: T.Snapshot, roles: T.usize -> Role, lib: Library<Node>, ghost w: L.World)
        returns (graph: Result<Graph<Node>, EngineError>)
      requires bridge.Valid() && w.reload.phase.Building? && bridge.State() == w.bridge
      requires w.reload.phase.graph.source.None? && w.reload.phase.graph.sink.None?
      modifies bridge
      ensures bridge.Valid() && old(bridge.rings) <= bridge.rings
      ensures forall i :: |old(bridge.rings)| <= i < |bridge.rings| ==> fresh(bridge.rings[i])
      ensures var w' := L.Run(w, Makes(topology.nodes, roles));
              && bridge.State() == w'.bridge && w'.reload.phase.Building?
              && w'.reload == w.reload.(phase := w'.reload.phase)
              && w'.reload.phase.graph.version == w.reload.phase.graph.version
              && w'.reload.phase.graph.build == w.reload.phase.graph.build
              && (graph.Ok? ==> w'.reload == Making(w.reload, graph.value.slots))
      ensures graph.Ok? ==> Carries(graph.value, topology, roles) && bridge.Wires(graph.value.slots)
      ensures graph.Ok? <==> Named(topology.nodes, roles) && AllKnown(topology) && !Refusal(graph)
    {
      hide L.Run, Makes, BridgeNode, PlaceOf, Expected;
      var answers := AskFactory(topology.nodes, roles, w);
      var factory: Factory<Node> := (k: nat, _: T.usize) => if k < |answers| then Some(answers[k]) else None;
      AllAnswered(topology.nodes, factory, answers);
      graph := Build(topology, factory, lib);
    }

    /** The whole of a rebuild: the steps of the interleaving model, in one go. */
    method RebuildOnce(roles: T.usize -> Role, lib: Library<Node>, ghost r: L.Reload)
        returns (built: bool, ghost steps: seq<L.Step>)
      requires bridge.Valid() && store.Valid() && Shows(r) && r.phase.Pending? && !L.Locked(r)
      modifies this, slot, bridge
      ensures steps == RebuildSteps(store.topology, roles, built) && phase.Idle? && next == old(next)
      ensures bridge.Valid() && old(bridge.rings) <= bridge.rings
      ensures forall i :: |old(bridge.rings)| <= i < |bridge.rings| ==> fresh(bridge.rings[i])
      ensures var w := L.Run(L.World(r, old(bridge.State())), steps); Shows(w.reload) && bridge.State() == w.bridge
      ensures built ==> Fresh(slot.pending, store.topology, store.applied, roles)
      ensures built ==> bridge.Wires(slot.pending.value.graph.slots)
      ensures !built ==> slot.pending == old(slot.pending)
      ensures attempt == Some(store.applied) && succeeded == built
      ensures built <==> Named(store.topology.nodes, roles) && AllKnown(store.topology) && !refused
    {
      hide L.Run, L.Next, Makes, BridgeNode, Carries, Named, AllKnown;
      ghost var w := L.World(r, bridge.State());
      ghost var w1 := L.Next(w, L.ReadTopology);
      ReadsTopology(w);
      var version := store.applied;
      var graph := BuildCurrent(store.topology, roles, lib, w1);
      ghost var w2 := L.Run(w1, Makes(store.topology.nodes, roles));
      built := graph.Ok?;
      steps := [L.ReadTopology] + Makes(store.topology.nodes, roles) + [L.Finish(built)];
      WholeBuild(w, Makes(store.topology.nodes, roles), built);
      Finished(w2, built);
      Conclude(graph, version);
    }

    /** A finished build replaces what is in the slot, a failed one leaves it. */
    method Conclude(graph: Result<Graph<Node>, EngineError>, version: nat)
      modifies this, slot
      ensures builds == old(builds) + 1 && attempt == Some(version) && phase == L.Idle && next == old(next)
      ensures succeeded == graph.Ok? && refused == Refusal(graph)
      ensures slot.pending == if graph.Ok? then Some(LiveGraph(graph.value, version, builds)) else old(slot.pending)
    {
      builds := builds + 1;
      attempt, phase, succeeded, refused := Some(version), L.Idle, graph.Ok?, Refusal(graph);
      if graph.Ok? {
        slot.pending := Some(LiveGraph(graph.value, version, builds));
      }
    }

    /** One round of the task's loop: poll, and rebuild if an event came or events were missed. */
    method Poll(roles: T.usize -> Role, lib: Library<Node>, ghost r: L.Reload) returns (ghost steps: seq<L.Step>)
      requires bridge.Valid() && store.Valid() && Shows(r) && r.phase.Idle? && !L.Locked(r)
      modifies this, slot, bridge
      ensures bridge.Valid() && old(bridge.rings) <= bridge.rings && phase.Idle?
      ensures forall i :: |old(bridge.rings)| <= i < |bridge.rings| ==> fresh(bridge.rings[i])
      ensures var w := L.Run(L.World(r, old(bridge.State())), steps); Shows(w.reload) && bridge.State() == w.bridge
      ensures || slot.pending == old(slot.pending)
              || (Fresh(slot.pending, store.topology, store.applied, roles)
                  && bridge.Wires(slot.pending.value.graph.slots))
      ensures || (attempt == old(attempt) && succeeded == old(succeeded) && refused == old(refused))
              || (attempt == Some(store.applied)
                  && (succeeded <==> Named(store.topology.nodes, roles) && AllKnown(store.topology) && !refused))
      ensures next >= old(next) && (old(next) < store.published ==> next > old(next))
      ensures next <= MaxOf(old(next), store.published)
      ensures steps == [L.TryRecv] || exists built :: steps == [L.TryRecv] + RebuildSteps(store.topology, roles, built)
    {
      hide L.Run, Makes, BridgeNode, Carries, Named, AllKnown, Fresh;
      ghost var w := L.World(r, bridge.State());
      ghost var w1 := L.Next(w, L.TryRecv);
      steps := [L.TryRecv];
      RunOne(w, L.TryRecv);
      var due := TryRecv(r);
      if due {
        var built, more := RebuildOnce(roles, lib, w1.reload);
        L.RunSplit(w, [L.TryRecv], more);
        steps := [L.TryRecv] + more;
      }
    }
  }

  function MaxOf(a: nat, b: nat): nat { if a < b then b else a }

  /** The steps of one rebuild. */
  function RebuildSteps(topology: T.Snapshot, roles: T.usize -> Role, built: bool): seq<L.Step> {
    [L.ReadTopology] + Makes(topology.nodes, roles) + [L.Finish(built)]
  }

  /** The library would not take a link, or would not compile. */
  predicate Refusal(graph: Result<Graph<Node>, EngineError>) {
    graph.Err? && (graph.error.LinkRefused? || graph.error.CompileFailed?)
  }

  /** The graph has the node of every position of the topology in its slot, and its edges as links. */
  ghost predicate Carries(graph: Graph<Node>, topology: T.Snapshot, roles: T.usize -> Role) {
    && Named(topology.nodes, roles) && AllKnown(topology)
    && |graph.slots| == |topology.nodes| && Filled(graph.slots, topology.nodes, roles)
    && graph.links == Links(topology)
  }

  /** A graph just built from the topology with this number. */
  ghost predicate Fresh(pending: Option<LiveGraph>, topology: T.Snapshot, version: nat, roles: T.usize -> Role) {
    && pending.Some? && pending.value.version == version && 0 < pending.value.build
    && Carries(pending.value.graph, topology, roles)
  }

  /** A built graph carries the version of the topology it names. */
  ghost predicate Carried(g: LiveGraph, history: seq<T.Snapshot>, roles: T.usize -> Role) {
    g.version < |history| && (0 < g.build ==> Carries(g.graph, history[g.version], roles))
  }

  /** Everything that is or may become live does, and the last build failed only for a reason. */
  ghost predicate Loaded(live: LiveGraph, pending: Option<LiveGraph>, history: seq<T.Snapshot>, attempt: Option<nat>,
                         succeeded: bool, refused: bool, roles: T.usize -> Role) {
    && Carried(live, history, roles) && (pending.Some? ==> Carried(pending.value, history, roles))
    && (attempt.Some? ==>
          && attempt.value < |history|
          && var t := history[attempt.value];
             (succeeded <==> Named(t.nodes, roles) && AllKnown(t) && !refused))
  }

  lemma {:induction false} MakesAreMakes(nodes: seq<T.NodeSnapshot>, roles: T.usize -> Role)
    ensures forall i :: 0 <= i < |Makes(nodes, roles)| ==>
              Makes(nodes, roles)[i].MakeSource? || Makes(nodes, roles)[i].MakeSink?
  {
    if nodes == [] {
    } else {
      MakesAreMakes(nodes[..|nodes| - 1], roles);
    }
  }

  /** A poll, with or without its rebuild, leaves the live graph alone. */
  lemma {:induction false} ReloadIsBehind(w: L.World, topology: T.Snapshot, roles: T.usize -> Role, built: bool)
    ensures var steps := RebuildSteps(topology, roles, built);
            && L.Run(w, steps).reload.live == w.reload.live && L.Run(w, steps).reload.ran == w.reload.ran
            && L.Run(w, [L.TryRecv] + steps).reload.live == w.reload.live
            && L.Run(w, [L.TryRecv] + steps).reload.ran == w.reload.ran
            && L.Run(w, [L.TryRecv]).reload.live == w.reload.live && L.Run(w, [L.TryRecv]).reload.ran == w.reload.ran
  {
    hide L.Run, Makes;
    MakesAreMakes(topology.nodes, roles);
    L.EngineUntouched(w, RebuildSteps(topology, roles, built));
    L.EngineUntouched(w, [L.TryRecv] + RebuildSteps(topology, roles, built));
    L.EngineUntouched(w, [L.TryRecv]);
  }

  lemma {:induction false} RunOne(w: L.World, step: L.Step)
    ensures L.Run(w, [step]) == L.Next(w, step)
  {
    hide L.Next;
    L.RunSnoc(w, [], step);
    assert [] + [step] == [step];
  }

  lemma {:induction false} OneMade(w: L.World)
    requires w.reload.phase.Building?
    ensures var ring, r := Some(|w.bridge.rings|), w.reload;
            && L.Next(w, L.MakeSource)
               == L.World(r.(phase := L.Building(r.phase.graph.(source := ring))), L.Bridged(w.bridge, r, L.MakeSource))
            && L.Next(w, L.MakeSink)
               == L.World(r.(phase := L.Building(r.phase.graph.(sink := ring))), L.Bridged(w.bridge, r, L.MakeSink))
  {
    hide L.Bridged;
  }

  lemma {:induction false} AllAnswered(nodes: seq<T.NodeSnapshot>, factory: Factory<Node>,
                                       answers: seq<BuiltNode<Node>>)
    requires |answers| <= |nodes|
    requires forall k: nat, id :: factory(k, id) == if k < |answers| then Some(answers[k]) else None
    ensures Supplied(nodes, factory) <==> |answers| == |nodes|
    ensures Supplied(nodes, factory) ==> Slots(nodes, factory) == answers
  {
    if |answers| < |nodes| {
      var k := |answers|;
      assert factory(k, nodes[k].id).None?;
    }
  }

  lemma {:induction false} ReadsTopology(w: L.World)
    requires w.reload.phase.Pending? && !L.Locked(w.reload) && w.reload.history != []
    ensures var w1 := L.Next(w, L.ReadTopology);
            && w1.bridge == w.bridge && w1.reload.phase.Building?
            && w1.reload == w.reload.(builds := w.reload.builds + 1, attempt := Some(|w.reload.history| - 1),
                 phase := L.Building(L.Graph(|w.reload.history| - 1, w.reload.builds + 1, None, None)))
  {
  }

  lemma {:induction false} WholeBuild(w: L.World, makes: seq<L.Step>, ok: bool)
    ensures L.Run(w, [L.ReadTopology] + makes + [L.Finish(ok)])
         == L.Next(L.Run(L.Next(w, L.ReadTopology), makes), L.Finish(ok))
  {
    hide L.Run, L.Next;
    L.RunSnoc(w, [L.ReadTopology] + makes, L.Finish(ok));
    L.RunSplit(w, [L.ReadTopology], makes);
    L.RunSnoc(w, [], L.ReadTopology);
    RunNone(w);
    assert [] + [L.ReadTopology] == [L.ReadTopology];
  }

  lemma {:induction false} RunNone(w: L.World)
    ensures L.Run(w, []) == w
  {
  }

  lemma {:induction false} Finished(w: L.World, ok: bool)
    requires w.reload.phase.Building?
    ensures L.Next(w, L.Finish(ok)).bridge == w.bridge
    ensures L.Next(w, L.Finish(ok)).reload
         == w.reload.(phase := L.Idle, succeeded := ok,
                      slot := if ok then Some(w.reload.phase.graph) else w.reload.slot)
  {
  }

  lemma {:induction false} MakesNone(roles: T.usize -> Role)
    ensures Makes([], roles) == []
  {
  }

  lemma {:induction false} NoneMade(w: L.World)
    requires w.reload.phase.Building? && w.reload.phase.graph.source.None? && w.reload.phase.graph.sink.None?
    ensures L.Run(w, []) == w && w.reload == Making(w.reload, [])
  {
  }

  /** One more known node: its bridge step, if any, comes next. */
  lemma {:induction false} MakesNext(nodes: seq<T.NodeSnapshot>, roles: T.usize -> Role, i: nat, w: L.World)
    requires i < |nodes| && Named(nodes[..i], roles) && roles(nodes[i].id) != Unknown
    ensures Named(nodes[..i + 1], roles)
    ensures var before, after := L.Run(w, Makes(nodes[..i], roles)), L.Run(w, Makes(nodes[..i + 1], roles));
            after == match roles(nodes[i].id)
              case BridgeSource => L.Next(before, L.MakeSource)
              case BridgeSink => L.Next(before, L.MakeSink)
              case _ => before
  {
    hide L.Run, L.Next;
    var done := Makes(nodes[..i], roles);
    assert nodes[..i + 1][..i] == nodes[..i];
    assert Makes(nodes[..i + 1], roles) == done + MakeSteps(roles(nodes[i].id));
    assert done + [] == done;
    L.RunSnoc(w, done, L.MakeSource);
    L.RunSnoc(w, done, L.MakeSink);
  }

  /** Nothing is made after the first unknown node. */
  lemma {:induction false} MakesStop(nodes: seq<T.NodeSnapshot>, roles: T.usize -> Role, i: nat)
    requires i < |nodes| && roles(nodes[i].id) == Unknown
    ensures !Named(nodes, roles) && Makes(nodes, roles) == Makes(nodes[..i], roles)
  {
    var n := |nodes| - 1;
    if i == n {
    } else {
      assert nodes[..n][..i] == nodes[..i];
      MakesStop(nodes[..n], roles, i);
    }
  }

  lemma {:induction false} BridgeNodeSnoc(slots: seq<BuiltNode<Node>>, last: BuiltNode<Node>)
    ensures BridgeNode(slots + [last], true)
            == if last.node.SourceNode? then Some(last.node) else BridgeNode(slots, true)
    ensures BridgeNode(slots + [last], false)
            == if last.node.SinkNode? then Some(last.node) else BridgeNode(slots, false)
  {
    assert (slots + [last])[..|slots|] == slots;
  }

  // ----- all of it together ------------------------------------------------------------------------------

  /** What the threads may be asked to do. */
  datatype Command =
    | Apply(mutation: T.Mutation)
    | Poll
    | Cycle(taken: nat, flushed: seq<L.Frame>)
    | Push(frame: L.Frame)
    | Pop

  /** The store, the rebuild task, the engine and the bridge of one process. */
  class Process {
    const store: Store
    const task: RebuildTask
    const engine: GraphEngine
    const bridge: GatewayBridge
    const roles: T.usize -> Role
    const lib: Library<Node>
    ghost const topology: T.Snapshot
    ghost var steps: seq<L.Step>
    ghost var mutations: seq<T.Mutation>

    ghost predicate Shape() {
      task.store == store && task.bridge == bridge && task.slot == engine.slot
    }

    /** The objects are where the interleaving model is after `steps`. */
    ghost predicate Valid()
      reads this, store, task, engine, engine.slot, bridge, bridge.rings
    {
      && Shape() && store.Valid() && bridge.Valid() && engine.Wired(bridge)
      && var w := L.Run(L.Start(topology, bridge.capacity), steps);
         && task.Shows(w.reload) && engine.Shows(w.reload) && bridge.State() == w.bridge
         && store.published == store.applied
    }

    /** And they hold what they should: the store every mutation, the graphs the topologies they name. */
    ghost predicate Full()
      reads this, store, task, engine, engine.slot
    {
      && store.topology == T.Fold(topology, mutations) && store.applied == |mutations|
      && Loaded(engine.graph, engine.slot.pending, store.history, task.attempt, task.succeeded, task.refused, roles)
    }

    constructor (topology: T.Snapshot, capacity: nat, roles: T.usize -> Role, lib: Library<Node>)
      ensures Valid() && Full() && task.phase.Pending? && steps == [] && mutations == []
      ensures fresh(store) && fresh(task) && fresh(engine)
      ensures fresh(engine.slot) && fresh(bridge) && bridge.rings == [] && bridge.capacity == capacity
      ensures this.topology == topology && this.roles == roles && this.lib == lib
    {
      var s := new Store(topology);
      var slot := new RebuildSlot();
      var b := new GatewayBridge(capacity);
      var t := new RebuildTask(s, slot, b);
      var e := new GraphEngine(LiveGraph(Graph([], []), 0, 0), slot);
      this.store, this.task, this.engine, this.bridge := s, t, e, b;
      this.topology, this.steps, this.mutations, this.roles, this.lib := topology, [], [], roles, lib;
    }

    /** The initial rebuild of the task. */
    method Begin()
      requires Valid() && Full() && task.phase.Pending?
      modifies this, task, engine.slot, bridge
      ensures Valid() && Full() && task.phase.Idle? && mutations == old(mutations) && old(bridge.rings) <= bridge.rings
      ensures forall i :: |old(bridge.rings)| <= i < |bridge.rings| ==> fresh(bridge.rings[i])
    {
      hide L.Run, BridgeNode, Loaded, Fresh, Carries, Named, AllKnown, T.Fold;
      ghost var start := L.Start(topology, bridge.capacity);
      ghost var w := L.Run(start, steps);
      var built, more := task.RebuildOnce(roles, lib, w.reload);
      ReloadIsBehind(w, store.topology, roles, built);
      L.RunSplit(start, steps, more);
      steps := steps + more;
      LoadedNext(engine.graph, old(engine.slot.pending), engine.slot.pending, store.history, store.applied,
                 old(task.attempt), old(task.succeeded), old(task.refused),
                 task.attempt, task.succeeded, task.refused, roles);
    }

    method Reload()
      requires Valid() && Full() && task.phase.Idle?
      modifies this, task, engine.slot, bridge
      ensures Valid() && Full() && task.phase.Idle? && mutations == old(mutations) && old(bridge.rings) <= bridge.rings
      ensures forall i :: |old(bridge.rings)| <= i < |bridge.rings| ==> fresh(bridge.rings[i])
      ensures task.next >= old(task.next) && task.next <= MaxOf(old(task.next), store.published)
      ensures old(task.next) < store.published ==> task.next > old(task.next)
    {
      hide L.Run, BridgeNode, Loaded, Fresh, Carries, Named, AllKnown, T.Fold;
      ghost var start := L.Start(topology, bridge.capacity);
      ghost var w := L.Run(start, steps);
      var more := task.Poll(roles, lib, w.reload);
      ReloadIsBehind(w, store.topology, roles, true);
      ReloadIsBehind(w, store.topology, roles, false);
      L.RunSplit(start, steps, more);
      steps := steps + more;
      LoadedNext(engine.graph, old(engine.slot.pending), engine.slot.pending, store.history, store.applied,
                 old(task.attempt), old(task.succeeded), old(task.refused),
                 task.attempt, task.succeeded, task.refused, roles);
    }

    method Mutate(m: T.Mutation)
      requires Valid() && Full() && task.phase.Idle?
      modifies this, store
      ensures Valid() && Full() && task.phase.Idle? && mutations == old(mutations) + [m]
    {
      hide L.Run, BridgeNode, T.Apply, T.Fold, Loaded;
      ghost var start := L.Start(topology, bridge.capacity);
      ghost var w := L.Run(start, steps);
      L.RunSnoc(start, steps, L.Mutate(m));
      L.RunSnoc(start, steps + [L.Mutate(m)], L.Publish);
      store.ApplyMutation(m, w.reload);
      steps := steps + [L.Mutate(m)] + [L.Publish];
      T.FoldSnoc(topology, mutations, m);
      mutations := mutations + [m];
      LoadedLonger(engine.graph, engine.slot.pending, old(store.history), store.history, task.attempt, task.succeeded,
                   task.refused, roles);
    }

    method RunCycle(taken: nat, flushed: seq<L.Frame>)
      requires Valid() && Full() && task.phase.Idle?
      modifies this, engine, engine.slot, bridge.rings
      ensures Valid() && Full() && task.phase.Idle? && mutations == old(mutations)
      ensures steps == old(steps) + [L.EngineStep(taken, flushed)]
    {
      hide L.Run, BridgeNode, L.Bridged, Carries;
      ghost var start := L.Start(topology, bridge.capacity);
      ghost var w := L.Run(start, steps);
      L.RunSnoc(start, steps, L.EngineStep(taken, flushed));
      engine.Step(bridge, taken, flushed, w.reload);
      steps := steps + [L.EngineStep(taken, flushed)];
    }

    method PushFrame(frame: L.Frame)
      requires Valid() && Full() && task.phase.Idle?
      modifies this, bridge.rings
      ensures Valid() && Full() && task.phase.Idle? && mutations == old(mutations)
    {
      hide L.Run, BridgeNode, L.Bridged, Loaded, T.Fold, Store.Valid;
      ghost var start := L.Start(topology, bridge.capacity);
      L.RunSnoc(start, steps, L.PushInbound(frame));
      var _ := bridge.PushInbound(frame, L.Run(start, steps).reload);
      steps := steps + [L.PushInbound(frame)];
    }

    method PopFrame()
      requires Valid() && Full() && task.phase.Idle?
      modifies this, bridge.rings
      ensures Valid() && Full() && task.phase.Idle? && mutations == old(mutations)
    {
      hide L.Run, BridgeNode, L.Bridged, Loaded, T.Fold, Store.Valid;
      ghost var start := L.Start(topology, bridge.capacity);
      L.RunSnoc(start, steps, L.PopOutbound);
      var _ := bridge.PopOutbound(L.Run(start, steps).reload);
      steps := steps + [L.PopOutbound];
    }

    /** Whatever a thread is asked to do. */
    method Do(command: Command)
      requires Valid() && Full() && task.phase.Idle?
      modifies this, store, task, engine, engine.slot, bridge, bridge.rings
      ensures Valid() && Full() && task.phase.Idle? && old(bridge.rings) <= bridge.rings
      ensures forall i :: |old(bridge.rings)| <= i < |bridge.rings| ==> fresh(bridge.rings[i])
      ensures mutations == old(mutations) + if command.Apply? then [command.mutation] else []
    {
      hide L.Run, BridgeNode, Loaded;
      match command
      case Apply(m) => Mutate(m);
      case Poll => Reload();
      case Cycle(taken, flushed) => RunCycle(taken, flushed);
      case Push(frame) => PushFrame(frame);
      case Pop => PopFrame();
    }

    method DoAll(commands: seq<Command>)
      requires Valid() && Full() && task.phase.Idle?
      modifies this, store, task, engine, engine.slot, bridge, bridge.rings
      ensures Valid() && Full() && task.phase.Idle? && old(bridge.rings) <= bridge.rings
      ensures forall i :: |old(bridge.rings)| <= i < |bridge.rings| ==> fresh(bridge.rings[i])
      ensures mutations == old(mutations) + Mutations(commands)
    {
      hide Process.Valid, Process.Full;
      var i := 0;
      while i < |commands|
        invariant 0 <= i <= |commands| && Valid() && Full() && task.phase.Idle?
        invariant mutations == old(mutations) + Mutations(commands[..i])
        invariant old(bridge.rings) <= bridge.rings
        invariant forall k :: |old(bridge.rings)| <= k < |bridge.rings| ==> fresh(bridge.rings[k])
      {
        assert commands[..i + 1][..i] == commands[..i];
        Do(commands[i]);
        i := i + 1;
      }
      assert commands[..i] == commands;
    }

    /** Poll until nothing is unread, then run a cycle. Then the last build was tried on the topology with
        every mutation; it went through unless the factory lacks a node, an edge names none, or the library
        refused; and if it did, the live graph carries that topology. */
    method Settle()
      requires Valid() && Full() && task.phase.Idle?
      modifies this, task, engine, engine.slot, bridge, bridge.rings
      ensures Valid() && Full() && mutations == old(mutations)
      ensures var final := T.Fold(topology, mutations);
              && (task.succeeded <==> Named(final.nodes, roles) && AllKnown(final) && !task.refused)
              && (task.succeeded ==> engine.graph.version == |mutations| && Carries(engine.graph.graph, final, roles))
    {
      hide Process.Valid, Process.Full;
      while task.next < store.published
        invariant Valid() && Full() && task.phase.Idle? && mutations == old(mutations)
        invariant old(bridge.rings) <= bridge.rings
        invariant forall k :: |old(bridge.rings)| <= k < |bridge.rings| ==> fresh(bridge.rings[k])
        decreases store.published - task.next
      {
        Reload();
      }
      Settled();
      RunCycle(0, []);
      LiveIs();
    }

    lemma {:induction false} LiveIs()
      requires Valid() && Full()
      requires var r := L.Run(L.Start(topology, bridge.capacity), steps).reload;
               && r.attempt == Some(store.applied)
               && (r.succeeded ==> r.live.version == store.applied && 0 < r.live.build)
      ensures var final := T.Fold(topology, mutations);
              && (task.succeeded <==> Named(final.nodes, roles) && AllKnown(final) && !task.refused)
              && (task.succeeded ==> engine.graph.version == |mutations| && Carries(engine.graph.graph, final, roles))
    {
      hide Carries, T.Fold, L.Run, BridgeNode;
    }

    /** With nothing unread, the next cycle swaps in the last build if it went through. */
    lemma {:induction false} Settled()
      requires Valid() && task.phase.Idle? && task.next >= store.published
      ensures var r := L.Run(L.Start(topology, bridge.capacity), steps + [L.EngineStep(0, [])]).reload;
              && r.attempt == Some(store.applied)
              && (r.succeeded ==> r.live.version == store.applied && 0 < r.live.build)
    {
      var start := L.Start(topology, bridge.capacity);
      L.RunIsConsistent(topology, bridge.capacity, steps);
      L.NoLostUpdate(topology, bridge.capacity, steps, 0, []);
      L.RunSnoc(start, steps, L.EngineStep(0, []));
    }
  }

  lemma {:induction false} LoadedNext(live: LiveGraph, was: Option<LiveGraph>, now: Option<LiveGraph>,
                                      history: seq<T.Snapshot>, version: nat,
                                      attempt0: Option<nat>, succeeded0: bool, refused0: bool,
                                      attempt: Option<nat>, succeeded: bool, refused: bool, roles: T.usize -> Role)
    requires Loaded(live, was, history, attempt0, succeeded0, refused0, roles) && |history| == version + 1
    requires now == was || Fresh(now, history[version], version, roles)
    requires || (attempt == attempt0 && succeeded == succeeded0 && refused == refused0)
             || (attempt == Some(version)
                 && var t := history[version]; (succeeded <==> Named(t.nodes, roles) && AllKnown(t) && !refused))
    ensures Loaded(live, now, history, attempt, succeeded, refused, roles)
  {
    hide Carries;
  }

  lemma {:induction false} LoadedLonger(live: LiveGraph, pending: Option<LiveGraph>, history: seq<T.Snapshot>,
                                        longer: seq<T.Snapshot>, attempt: Option<nat>, succeeded: bool, refused: bool,
                                        roles: T.usize -> Role)
    requires Loaded(live, pending, history, attempt, succeeded, refused, roles) && history <= longer
    ensures Loaded(live, pending, longer, attempt, succeeded, refused, roles)
  {
    hide Carries;
  }

  /** The mutations among the commands. */
  function Mutations(commands: seq<Command>): seq<T.Mutation> {
    if commands == [] then []
    else
      var n := |commands| - 1;
      Mutations(commands[..n]) + if commands[n].Apply? then [commands[n].mutation] else []
  }

  function Places(slots: seq<BuiltNode<Node>>): (places: seq<Place>)
    ensures |places| == |slots| && forall i :: 0 <= i < |slots| ==> places[i] == PlaceOf(slots[i])
  {
    seq(|slots|, i requires 0 <= i < |slots| => PlaceOf(slots[i]))
  }

  /** A whole session on the objects: any schedule of mutations, polls, cycles and gateway traffic, then
      polls until nothing is unread, then one cycle. The last build went through exactly when the factory
      knows every node of the first topology with every mutation applied, no edge names an unknown one and
      the library did not refuse. If it did, that topology is what is live: node by node in the slots, edge
      by edge in the links. */
  method Session(topology: T.Snapshot, capacity: nat, roles: T.usize -> Role, lib: Library<Node>,
                 commands: seq<Command>)
      returns (live: nat, places: seq<Place>, links: seq<Link>, built: bool, refused: bool)
    ensures var final := T.Fold(topology, Mutations(commands));
            && (built <==> Named(final.nodes, roles) && AllKnown(final) && !refused)
            && (built ==>
                  && live == |Mutations(commands)| && links == Links(final) && |places| == |final.nodes|
                  && forall i :: 0 <= i < |places| ==>
                       places[i] == Expected(roles(final.nodes[i].id), final.nodes[i].id))
  {
    hide Process.Valid, Process.Full, T.Fold, PlaceOf, Expected;
    var p := new Process(topology, capacity, roles, lib);
    p.Begin();
    p.DoAll(commands);
    p.Settle();
    assert p.mutations == Mutations(commands);
    live, built, refused := p.engine.graph.version, p.task.succeeded, p.task.refused;
    places, links := Places(p.engine.graph.graph.slots), p.engine.graph.graph.links;
  }
}
