/**
 The server around the controller: booting from the stored graph and the saved preset, seeding the
 bridge, serving commands, saving a preset from time to time, and starting again.
 */
module Server {
  import opened Common
  import opened Topology
  import opened Controller
  import opened Preset

  const CHANNELS: u16 := 2

  // ----- booting -----------------------------------------------------------------------------------------

  function Port(direction: PortDir, channels: u16): seq<PortMeta> { [PortMeta(direction, channels, F32)] }

  const SOURCE := NodeSnapshot(0, [], Port(Output, CHANNELS))
  const SINK := NodeSnapshot(1, Port(Input, CHANNELS), [])

  function FileNode(id: usize, channels: u16): NodeSnapshot { NodeSnapshot(id, [], Port(Output, channels)) }

  /** The link seeded into an empty graph: from the file if its channels match, else from the bridge. */
  function SeedLink(file: Option<u16>): SnapshotEdge {
    SnapshotEdge(if file == Some(CHANNELS) then 2 else 0, 0, 1, 0)
  }

  function FileId(t: Snapshot): usize {
    if t.nodes == [] then 2 else (MaxId(t.nodes) + 1) % (USIZE_MAX + 1)
  }

  /** A node put straight into the store: no label, and a kind only if one is given. */
  function Placed(c: Registry, node: NodeSnapshot, kind: Option<string>): Registry {
    Registry(Apply(c.topology, AddNode(node)), c.labels,
             if kind.Some? then c.kinds[node.id := kind.value] else c.kinds, c.params)
  }

  function Filed(c: Registry, id: usize, file: Option<u16>): Registry {
    if file.Some? then Placed(c, FileNode(id, file.value), Some("file")) else c
  }

  /** An empty graph gets the bridge's source and sink and one link; `file` is the channel count of a
      loaded file, which gets a node in any case. */
  function Seeded(c: Registry, file: Option<u16>): Registry {
    if c.topology.nodes != [] then Filed(c, FileId(c.topology), file)
    else
      var filed := Filed(Placed(Placed(c, SOURCE, None), SINK, None), 2, file);
      filed.(topology := Apply(filed.topology, AddLink(SeedLink(file))))
  }

  /** The registries when the API starts to serve: the stored graph, replaced by the saved preset if
      there is one (up to the mutation the store refuses), then seeded. The labels went with the
      controller that did the import. */
  function Booted(stored: Snapshot, saved: Option<PresetFile>, refuseAt: nat, file: Option<u16>): Registry {
    var start := Registry(stored, map[], map[], map[]);
    var restored := if saved.Some? then ImportedUpTo(start, saved.value, refuseAt) else start;
    Seeded(restored.(labels := map[]), file)
  }

  method Place(c: GraphController, node: NodeSnapshot, kind: Option<string>)
    modifies c
    ensures c.State() == Placed(old(c.State()), node, kind)
  {
    c.topology := Apply(c.topology, AddNode(node));
    if kind.Some? {
      c.kinds := c.kinds[node.id := kind.value];
    }
  }

  method Seed(c: GraphController, file: Option<u16>)
    modifies c
    ensures c.State() == Seeded(old(c.State()), file)
  {
    hide Placed, Apply, MaxId;
    var empty, id := c.topology.nodes == [], FileId(c.topology);
    if empty {
      Place(c, SOURCE, None);
      Place(c, SINK, None);
    }
    if file.Some? {
      Place(c, FileNode(id, file.value), Some("file"));
    }
    if empty {
      c.topology := Apply(c.topology, AddLink(SeedLink(file)));
    }
  }

  method Boot(stored: Snapshot, saved: Option<PresetFile>, refuseAt: nat,
              file: Option<u16>) returns (serving: GraphController)
    ensures fresh(serving) && serving.State() == Booted(stored, saved, refuseAt, file)
  {
    hide Seeded, PerformedAll;
    var restore := new GraphController(stored);
    if saved.Some? {
      var _ := ImportPreset(restore, saved.value, refuseAt);
    }
    serving := new GraphController.WithRegistries(restore.topology, restore.kinds, restore.params);
    Seed(serving, file);
  }

  // ----- what booting keeps --------------------------------------------------------------------------------

  lemma {:induction false} PlaceKeeps(c: Registry, node: NodeSnapshot, kind: Option<string>)
    requires WellFormed(c) && !HasNode(c.topology.nodes, node.id)
    ensures WellFormed(Placed(c, node, kind))
    ensures Placed(c, node, kind).topology == c.topology.(nodes := c.topology.nodes + [node])
  {
    hide KindName, HasNode, LiveKeys, DistinctIds, PortsExist, WithNode;
    NodeAppend(c.topology, node, node.id);
    AppendIsDistinct(c.topology.nodes, node);
    AppendKeepsEdges(c.topology, node);
    AppendKeepsKeys(c.topology, node, c.labels, "");
    AppendKeepsKeys(c.topology, node, c.kinds, if kind.Some? then kind.value else "");
    AppendKeepsKeys(c.topology, node, c.params, Meter);
    NotLiveNotKey(c.topology, c.params, node.id);
  }

  lemma {:induction false} FileIsNew(c: Registry)
    requires c.topology.nodes != [] && MaxId(c.topology.nodes) < USIZE_MAX
    ensures !HasNode(c.topology.nodes, FileId(c.topology)) && FileId(c.topology) == MaxId(c.topology.nodes) + 1
  {
    HasNodeMeans(c.topology.nodes, FileId(c.topology));
  }

  lemma {:induction false} SeedNodes(c: Registry, file: Option<u16>)
    requires WellFormed(c) && c.topology.nodes == []
    ensures var filed := Filed(Placed(Placed(c, SOURCE, None), SINK, None), 2, file);
            && WellFormed(filed) && filed.topology.edges == []
            && filed.topology.nodes == [SOURCE, SINK] + if file.Some? then [FileNode(2, file.value)] else []
  {
    hide WellFormed, Placed;
    NoEdges(c);
    var one := Placed(c, SOURCE, None);
    PlaceKeeps(c, SOURCE, None);
    assert one.topology.nodes == [SOURCE];
    assert !HasNode([SOURCE], 1);
    var two := Placed(one, SINK, None);
    PlaceKeeps(one, SINK, None);
    assert two.topology.nodes == [SOURCE, SINK];
    assert [SOURCE, SINK][1..] == [SINK];
    assert !HasNode([SOURCE, SINK], 2);
    if file.Some? {
      PlaceKeeps(two, FileNode(2, file.value), Some("file"));
    }
  }

  lemma {:induction false} NoEdges(c: Registry)
    requires WellFormed(c)
    ensures c.topology.edges != [] ==> c.topology.nodes != []
  {
    assert c.topology.edges != [] ==> c.topology.edges[0] in c.topology.edges;
  }

  lemma {:induction false} SeedLinkFits(t: Snapshot, file: Option<u16>)
    requires t.nodes == [SOURCE, SINK] + if file.Some? then [FileNode(2, file.value)] else []
    ensures PortsExist(t, SeedLink(file))
  {
    assert t.nodes[0] == SOURCE && t.nodes[1] == SINK && (file.Some? ==> t.nodes[2] == FileNode(2, file.value));
    assert IndexOf(t.nodes, 0) == 0;
    assert t.nodes[1..][0] == SINK && IndexOf(t.nodes[1..], 1) == 0;
    if file.Some? {
      assert t.nodes[1..][1..][0] == FileNode(2, file.value) && IndexOf(t.nodes[1..][1..], 2) == 0;
      assert IndexOf(t.nodes[1..], 2) == 1;
    }
  }

  /** The ids a boot or a call may have brought into use. */
  function AtLeast(a: nat, b: nat): nat { if a < b then b else a }

  /** Port counts as the API can name them. */
  ghost predicate Small(t: Snapshot) {
    forall i :: 0 <= i < |t.nodes| ==> |t.nodes[i].inputs| < 65536 && |t.nodes[i].outputs| < 65536
  }

  lemma {:induction false} EmptySeedKeeps(c: Registry, file: Option<u16>)
    requires WellFormed(c) && c.topology.nodes == []
    ensures var d := Seeded(c, file);
            && WellFormed(d) && d.topology.edges == [SeedLink(file)]
            && d.topology.nodes == [SOURCE, SINK] + if file.Some? then [FileNode(2, file.value)] else []
  {
    var filed := Filed(Placed(Placed(c, SOURCE, None), SINK, None), 2, file);
    SeedNodes(c, file);
    SeedLinkFits(filed.topology, file);
    hide Filed, WellFormed, PortsExist, IndexOf;
    EdgesKeep(filed, [SeedLink(file)]);
    assert filed.topology.edges + [SeedLink(file)] == [SeedLink(file)];
  }

  lemma {:induction false} FileKeeps(c: Registry, channels: u16)
    requires WellFormed(c) && c.topology.nodes != [] && MaxId(c.topology.nodes) < USIZE_MAX
    ensures var d := Placed(c, FileNode(FileId(c.topology), channels), Some("file"));
            && WellFormed(d) && d.topology == c.topology.(nodes := d.topology.nodes)
            && d.topology.nodes == c.topology.nodes + [FileNode(FileId(c.topology), channels)]
            && MaxId(d.topology.nodes) == MaxId(c.topology.nodes) + 1
  {
    hide WellFormed, Placed, HasNode, MaxId;
    var node := FileNode(FileId(c.topology), channels);
    FileIsNew(c);
    PlaceKeeps(c, node, Some("file"));
    MaxOfAppended(c.topology.nodes, node);
  }

  lemma {:induction false} SeedKeeps(c: Registry, file: Option<u16>)
    requires WellFormed(c) && MaxId(c.topology.nodes) < USIZE_MAX
    ensures WellFormed(Seeded(c, file))
    ensures MaxId(Seeded(c, file).topology.nodes) <= AtLeast(MaxId(c.topology.nodes) + 1, 2)
    ensures Small(c.topology) ==> Small(Seeded(c, file).topology)
  {
    hide WellFormed, MaxId, Placed;
    if c.topology.nodes == [] {
      EmptySeedKeeps(c, file);
      hide Seeded;
      SeedIds(Seeded(c, file).topology.nodes, file);
    } else if file.Some? {
      FileKeeps(c, file.value);
    }
  }

  lemma {:induction false} SeedIds(nodes: seq<NodeSnapshot>, file: Option<u16>)
    requires nodes == [SOURCE, SINK] + if file.Some? then [FileNode(2, file.value)] else []
    ensures MaxId(nodes) <= 2
  {
    var i :| 0 <= i < |nodes| && nodes[i].id == MaxId(nodes);
  }

  lemma {:induction false} MaxOfAppended(nodes: seq<NodeSnapshot>, x: NodeSnapshot)
    ensures MaxId(nodes + [x]) == AtLeast(MaxId(nodes), x.id)
  {
    var all := nodes + [x];
    var i :| 0 <= i < |all| && all[i].id == MaxId(all);
    assert all[|nodes|] == x;
    if nodes != [] {
      var j :| 0 <= j < |nodes| && nodes[j].id == MaxId(nodes);
      assert all[j] == nodes[j];
    }
  }

  /** What a preset written by the server is: distinct ids and sound. */
  lemma {:induction false} ExportIsSound(c: Registry)
    requires WellFormed(c) && Small(c.topology)
    ensures DistinctNodes(Exported(c).nodes) && Sound(Exported(c))
    ensures MaxId(Snapshots(Exported(c).nodes)) == MaxId(c.topology.nodes)
  {
    var p := Exported(c);
    forall i, j | 0 <= i < j < |p.nodes| ensures p.nodes[i].id != p.nodes[j].id {
      assert c.topology.nodes[i].id != c.topology.nodes[j].id;
    }
    forall l | l in p.links ensures Fits(p.nodes, l) {
      var k :| 0 <= k < |p.links| && p.links[k] == l;
      assert c.topology.edges[k] in c.topology.edges;
      ExportFits(c, c.topology.edges[k]);
    }
    forall i | 0 <= i < |p.nodes| ensures Named(p.nodes[i]) {
      ExportNamed(c, c.topology.nodes[i]);
    }
    hide Exported, Fits, Named, WellFormed;
    SameIdsSameMax(c, p);
  }

  lemma {:induction false} ExportFits(c: Registry, e: SnapshotEdge)
    requires Small(c.topology) && PortsExist(c.topology, e)
    ensures Fits(Exported(c).nodes, PresetLinkOf(e))
  {
    var i, j := IndexOf(c.topology.nodes, e.from), IndexOf(c.topology.nodes, e.to);
    ExportedPorts(c, i);
    ExportedPorts(c, j);
    hide IndexOf, Exported, Info, NodeOf;
  }

  lemma {:induction false} ExportedPorts(c: Registry, i: nat)
    requires Small(c.topology) && i < |c.topology.nodes|
    ensures var n, q := c.topology.nodes[i], Exported(c).nodes;
            && i < |q| && q[i].id == n.id && q[i].inputs == |n.inputs| && q[i].outputs == |n.outputs|
  {
    hide Digits;
  }

  lemma {:induction false} ExportNamed(c: Registry, n: NodeSnapshot)
    requires WellFormed(c)
    ensures Named(NodeOf(Info(c, n)))
  {
    hide Digits, KindName;
  }

  lemma {:induction false} SameIdsSameMax(c: Registry, p: PresetFile)
    requires |p.nodes| == |c.topology.nodes|
    requires forall i :: 0 <= i < |p.nodes| ==> p.nodes[i].id == c.topology.nodes[i].id
    ensures MaxId(Snapshots(p.nodes)) == MaxId(c.topology.nodes)
  {
    var a, b := Snapshots(p.nodes), c.topology.nodes;
    forall i | 0 <= i < |a| ensures a[i].id == b[i].id {
    }
    if a != [] {
      var i :| 0 <= i < |a| && a[i].id == MaxId(a);
      var j :| 0 <= j < |b| && b[j].id == MaxId(b);
      assert b[i].id <= MaxId(b) && a[j].id <= MaxId(a);
    }
  }

  // ----- the life of a server -----------------------------------------------------------------------------

  /** What is live, and the preset file of the autosave thread. */
  datatype State = State(live: Registry, saved: Option<PresetFile>)

  datatype Event = Do(command: Command) | Autosave | Restart(refuseAt: nat, file: Option<u16>)

  /** The autosave thread has a controller of its own, which never recorded a label. */
  function AutosaveOf(c: Registry): PresetFile {
    Exported(c.(labels := map[]))
  }

  function After(s: State, event: Event): State {
    match event
    case Do(command) => s.(live := Commanded(s.live, command))
    case Autosave => s.(saved := Some(AutosaveOf(s.live)))
    case Restart(refuseAt, file) => s.(live := Booted(s.live.topology, s.saved, refuseAt, file))
  }

  function Lifetime(s: State, events: seq<Event>): State {
    if events == [] then s else After(Lifetime(s, events[..|events| - 1]), events[|events| - 1])
  }

  /** A bound on the ids in use. */
  function Ceiling(m: nat, events: seq<Event>): nat {
    if events == [] then m
    else
      var before := Ceiling(m, events[..|events| - 1]);
      match events[|events| - 1]
      case Do(Call(op)) => if op.Create? then before + 1 else before
      case Do(Import(p, _)) => AtLeast(before, MaxId(Snapshots(p.nodes)))
      case Autosave => before
      case Restart(_, _) => AtLeast(before + 1, 2)
  }

  ghost predicate SoundEvents(events: seq<Event>) {
    forall i :: 0 <= i < |events| ==>
      events[i].Do? && events[i].command.Import? ==>
        DistinctNodes(events[i].command.preset.nodes) && Sound(events[i].command.preset)
  }

  /** The live graph is well-formed, and so is whatever the next restart would read. */
  ghost predicate Healthy(s: State, m: nat) {
    && WellFormed(s.live) && Small(s.live.topology) && MaxId(s.live.topology.nodes) <= m
    && (s.saved.Some? ==>
          && DistinctNodes(s.saved.value.nodes) && Sound(s.saved.value)
          && MaxId(Snapshots(s.saved.value.nodes)) <= m)
  }

  lemma {:induction false} Unlabelled(c: Registry)
    requires WellFormed(c)
    ensures WellFormed(c.(labels := map[]))
  {
    hide KindName, PortsExist;
  }

  lemma {:induction false} Restored(c: Registry)
    requires WellFormed(c)
    ensures WellFormed(Registry(c.topology, map[], map[], map[]))
  {
    hide KindName, PortsExist;
  }

  lemma {:induction false} BootKeeps(s: State, refuseAt: nat, file: Option<u16>, m: nat)
    requires Healthy(s, m) && m < USIZE_MAX
    ensures Healthy(s.(live := Booted(s.live.topology, s.saved, refuseAt, file)), AtLeast(m + 1, 2))
  {
    hide WellFormed, ImportedUpTo, Seeded, MaxId, DistinctNodes, Sound, Small;
    var start := Registry(s.live.topology, map[], map[], map[]);
    Restored(s.live);
    var restored := start;
    if s.saved.Some? {
      restored := ImportedUpTo(start, s.saved.value, refuseAt);
      ImportUpToKeeps(start, s.saved.value, refuseAt);
      ImportBrings(start, s.saved.value, refuseAt);
      ImportIsSmall(start, s.saved.value, refuseAt);
    }
    Unlabelled(restored);
    SeedKeeps(restored.(labels := map[]), file);
  }

  lemma {:induction false} ImportIsSmall(c: Registry, p: PresetFile, refuseAt: nat)
    requires Small(c.topology)
    ensures Small(ImportedUpTo(c, p, refuseAt).topology)
  {
    var all := Actions(c, p);
    PerformedIsSmall(c, if refuseAt < |all| then all[..refuseAt] else all);
  }

  lemma {:induction false} PerformedIsSmall(c: Registry, actions: seq<Action>)
    requires Small(c.topology)
    ensures Small(PerformedAll(c, actions).topology)
  {
    hide WithoutEdges;
    if actions == [] {
    } else {
      var n := |actions| - 1;
      PerformedIsSmall(c, actions[..n]);
      var before := PerformedAll(c, actions[..n]);
      match actions[n] {
        case Drop(id) => WithoutIsSmall(before.topology.nodes, id);
        case Put(node) => WithIsSmall(before.topology.nodes, Snapshotted(node));
        case Wire(_) =>
      }
    }
  }

  lemma {:induction false} WithoutIsSmall(nodes: seq<NodeSnapshot>, id: usize)
    requires Small(Snapshot(nodes, []))
    ensures Small(Snapshot(WithoutNode(nodes, id), []))
  {
    var rest := WithoutNode(nodes, id);
    forall i | 0 <= i < |rest| ensures |rest[i].inputs| < 65536 && |rest[i].outputs| < 65536 {
      assert rest[i] in nodes;
    }
  }

  lemma {:induction false} WithIsSmall(nodes: seq<NodeSnapshot>, x: NodeSnapshot)
    requires Small(Snapshot(nodes, [])) && |x.inputs| < 65536 && |x.outputs| < 65536
    ensures Small(Snapshot(WithNode(nodes, x), []))
  {
  }

  lemma {:induction false} StepIsSmall(c: Registry, op: Op)
    requires Small(c.topology)
    ensures Small(Step(c, op).topology)
  {
    hide Acceptable, PortsExist, WithoutEdges, KindName, KindOf, WithNode, WithoutNode, NewId;
    match op
    case Create(spec, _) =>
      WithIsSmall(c.topology.nodes, NodeSnapshot(NewId(c.topology), BuildPorts(spec.inputs, Input),
                                                 BuildPorts(spec.outputs, Output)));
    case DeleteNode(id, _) => WithoutIsSmall(c.topology.nodes, id);
    case _ =>
  }

  lemma {:induction false} CommandKeeps(s: State, command: Command, m: nat)
    requires Healthy(s, m) && Ceiling(m, [Do(command)]) <= USIZE_MAX && SoundEvents([Do(command)])
    ensures Healthy(s.(live := Commanded(s.live, command)), Ceiling(m, [Do(command)]))
  {
    hide WellFormed, Step, ImportedUpTo, MaxId, DistinctNodes, Sound, Small, Snapshots;
    assert [Do(command)][0] == Do(command) && [Do(command)][..0] == [];
    assert Ceiling(m, []) == m;
    match command {
      case Call(op) =>
        MaxIdGrowsByOne(s.live, op);
        StepKeeps(s.live, op);
        StepIsSmall(s.live, op);
      case Import(p, refuseAt) =>
        ImportUpToKeeps(s.live, p, refuseAt);
        ImportBrings(s.live, p, refuseAt);
        ImportIsSmall(s.live, p, refuseAt);
    }
  }

  lemma {:induction false} SaveKeeps(s: State, m: nat)
    requires Healthy(s, m)
    ensures Healthy(s.(saved := Some(AutosaveOf(s.live))), m)
  {
    hide WellFormed, Small, DistinctNodes, Sound, MaxId;
    Unlabelled(s.live);
    ExportIsSound(s.live.(labels := map[]));
  }

  lemma {:induction false} CeilingNext(m: nat, events: seq<Event>)
    requires events != []
    ensures var n := |events| - 1;
            Ceiling(m, events) == Ceiling(Ceiling(m, events[..n]), [events[n]])
  {
    var n := |events| - 1;
    assert [events[n]][0] == events[n] && [events[n]][..0] == [];
  }

  /** Over every run of calls, imports, saves and restarts, refused anywhere: the live graph is
      well-formed and so is the preset the next restart reads, as long as the presets posted are sound
      and there are ids left. */
  lemma {:induction false} LifetimeIsHealthy(s: State, events: seq<Event>, m: nat)
    requires Healthy(s, m) && SoundEvents(events) && Ceiling(m, events) <= USIZE_MAX
    ensures Healthy(Lifetime(s, events), Ceiling(m, events))
  {
    hide Healthy, Commanded, Booted, AutosaveOf, Sound, DistinctNodes, Snapshots, MaxId;
    if events == [] {
    } else {
      var n := |events| - 1;
      LifetimeIsHealthy(s, events[..n], m);
      var before, c := Lifetime(s, events[..n]), Ceiling(m, events[..n]);
      match events[n] {
        case Do(command) =>
          CeilingNext(m, events);
          CommandKeeps(before, command, c);
        case Autosave => SaveKeeps(before, c);
        case Restart(refuseAt, file) => BootKeeps(before, refuseAt, file, c);
      }
    }
  }

  // ----- what a restart brings back ---------------------------------------------------------------------------

  lemma {:induction false} RegistriesBack(c: Registry, b: Registry)
    requires WellFormed(c) && Holding(b, AutosaveOf(c))
    ensures b.kinds == c.kinds && b.params == c.params
  {
    hide KindName, PortsExist, DistinctIds, Snapshots, Digits;
    var nodes := AutosaveOf(c).nodes;
    forall id ensures Get(b.kinds, id) == Get(c.kinds, id) && Get(b.params, id) == Get(c.params, id) {
      if HasNode(c.topology.nodes, id) {
        var i := IndexOf(c.topology.nodes, id);
        assert nodes[i].id == id;
      } else {
        NotLiveNotKey(c.topology, c.kinds, id);
        NotLiveNotKey(c.topology, c.params, id);
        UsedIsLive(c, id);
      }
    }
    SameMap(b.kinds, c.kinds);
    SameMap(b.params, c.params);
  }

  lemma {:induction false} UsedIsLive(c: Registry, id: usize)
    ensures Used(AutosaveOf(c).nodes, id) ==> HasNode(c.topology.nodes, id)
  {
    hide Info;
    var nodes := AutosaveOf(c).nodes;
    forall i | 0 <= i < |nodes| ensures nodes[i].id == c.topology.nodes[i].id {
      InfoHasId(c.(labels := map[]), c.topology.nodes[i]);
    }
    HasNodeMeans(c.topology.nodes, id);
  }

  lemma {:induction false} SameMap<V>(a: map<usize, V>, b: map<usize, V>)
    requires forall id :: Get(a, id) == Get(b, id)
    ensures a == b
  {
    forall id: usize ensures id in a <==> id in b {
      assert Get(a, id) == Get(b, id);
    }
    forall id: usize | id in a ensures a[id] == b[id] {
      assert Get(a, id) == Get(b, id);
    }
  }

  /** The name a node is listed under when no label is recorded for it. */
  predicate Unnamed(c: Registry, n: NodeSnapshot) {
    n.id in c.labels ==> c.labels[n.id] == "node-" + Digits(n.id)
  }

  lemma {:induction false} NodesListed(c: Registry, b: Registry)
    requires b.topology.nodes == Snapshots(AutosaveOf(c).nodes)
    requires b.kinds == c.kinds && b.params == c.params && b.labels == map[]
    ensures ListNodes(b) == ListNodes(c.(labels := map[]))
    ensures ListNodes(b) == ListNodes(c) <==>
              forall i :: 0 <= i < |c.topology.nodes| ==> Unnamed(c, c.topology.nodes[i])
  {
    hide Digits;
    var c0 := c.(labels := map[]);
    forall i | 0 <= i < |c.topology.nodes|
      ensures ListNodes(b)[i] == ListNodes(c0)[i]
      ensures ListNodes(c0)[i] == ListNodes(c)[i] <==> Unnamed(c, c.topology.nodes[i])
    {
    }
    hide Info, Unnamed;
  }

  lemma {:induction false} LinksListed(c: Registry, b: Registry)
    requires b.topology.edges == Edges(AutosaveOf(c).links)
    ensures ListLinks(b) == ListLinks(c)
  {
    hide NodeOf, Info;
    forall i | 0 <= i < |c.topology.edges| ensures ListLinks(b)[i] == ListLinks(c)[i] {
      assert b.topology.edges[i] == EdgeOf(PresetLinkOf(c.topology.edges[i]));
    }
  }

  /** Ports as the API makes them. */
  predicate Plain(n: NodeSnapshot) {
    && (forall k :: 0 <= k < |n.inputs| ==> n.inputs[k] == PortMeta(Input, 1, F32))
    && (forall k :: 0 <= k < |n.outputs| ==> n.outputs[k] == PortMeta(Output, 1, F32))
  }

  lemma {:induction false} PlainIsBack(c: Registry, n: NodeSnapshot)
    requires |n.inputs| < 65536 && |n.outputs| < 65536
    ensures Snapshotted(NodeOf(Info(c, n))) == n <==> Plain(n)
  {
    hide Digits;
    var back := Snapshotted(NodeOf(Info(c, n)));
    assert back.inputs == BuildPorts(|n.inputs|, Input) && back.outputs == BuildPorts(|n.outputs|, Output);
    if Plain(n) {
      assert n.inputs == back.inputs && n.outputs == back.outputs;
    }
  }

  lemma {:induction false} EdgeIsBack(c: Registry, e: SnapshotEdge)
    requires Small(c.topology) && PortsExist(c.topology, e)
    ensures EdgeOf(PresetLinkOf(e)) == e
  {
  }

  lemma {:induction false} TopologyBack(c: Registry, b: Registry)
    requires WellFormed(c) && Small(c.topology)
    requires b.topology == Snapshot(Snapshots(AutosaveOf(c).nodes), Edges(AutosaveOf(c).links))
    ensures b.topology == c.topology <==> forall i :: 0 <= i < |c.topology.nodes| ==> Plain(c.topology.nodes[i])
  {
    var c0, p := c.(labels := map[]), AutosaveOf(c);
    EdgesExist(c);
    hide WellFormed, Info, NodeOf, Snapshotted, EdgeOf, PresetLinkOf, PortsExist, Plain;
    forall i | 0 <= i < |c.topology.edges| ensures b.topology.edges[i] == c.topology.edges[i] {
      assert c.topology.edges[i] in c.topology.edges;
      EdgeIsBack(c, c.topology.edges[i]);
    }
    assert b.topology.edges == c.topology.edges;
    forall i | 0 <= i < |c.topology.nodes|
      ensures b.topology.nodes[i] == c.topology.nodes[i] <==> Plain(c.topology.nodes[i])
    {
      PlainIsBack(c0, c.topology.nodes[i]);
    }
    assert b.topology.nodes == c.topology.nodes <==>
             forall i :: 0 <= i < |c.topology.nodes| ==> b.topology.nodes[i] == c.topology.nodes[i];
  }

  /** Save, then start again, with nothing refused, from any state a server can be in: kinds, params and
      links are back, and every node, in order. The labels are not, unless they were the default ones;
      nor are ports, unless they were mono and F32. */
  lemma {:induction false} RestartRestores(s: State, m: nat, refuseAt: nat)
    requires Healthy(s, m) && s.live.topology.nodes != []
    requires |Actions(Registry(s.live.topology, map[], map[], map[]), AutosaveOf(s.live))| <= refuseAt
    ensures var c, b := s.live, After(After(s, Autosave), Restart(refuseAt, None)).live;
            && b.kinds == c.kinds && b.params == c.params && b.labels == map[]
            && ListLinks(b) == ListLinks(c) && ListNodes(b) == ListNodes(c.(labels := map[]))
            && (ListNodes(b) == ListNodes(c) <==>
                  forall i :: 0 <= i < |c.topology.nodes| ==> Unnamed(c, c.topology.nodes[i]))
            && (b.topology == c.topology <==>
                  forall i :: 0 <= i < |c.topology.nodes| ==> Plain(c.topology.nodes[i]))
  {
    hide Small, DistinctNodes, Sound, MaxId, After, AutosaveOf, Actions, Imported, Snapshots, Edges, ListNodes,
         ListLinks, Unnamed, Plain;
    var c, p := s.live, AutosaveOf(s.live);
    var start := Registry(c.topology, map[], map[], map[]);
    SaveKeeps(s, m);
    Restored(c);
    hide WellFormed;
    ImportHolds(start, p);
    RestartImports(s, refuseAt);
    var imported := Imported(start, p);
    RegistriesBack(c, imported);
    var b := imported.(labels := map[]);
    NodesListed(c, b);
    LinksListed(c, b);
    TopologyBack(c, b);
  }

  lemma {:induction false} RestartImports(s: State, refuseAt: nat)
    requires s.live.topology.nodes != []
    requires var start := Registry(s.live.topology, map[], map[], map[]);
             && |Actions(start, AutosaveOf(s.live))| <= refuseAt
             && Holding(Imported(start, AutosaveOf(s.live)), AutosaveOf(s.live))
    ensures After(After(s, Autosave), Restart(refuseAt, None)).live
         == Imported(Registry(s.live.topology, map[], map[], map[]), AutosaveOf(s.live)).(labels := map[])
  {
    hide PerformedAll, Info, NodeOf, Registered, Snapshotted, EdgeOf, PresetLinkOf, Placed, MaxId;
    assert |Snapshots(AutosaveOf(s.live).nodes)| == |s.live.topology.nodes|;
  }

  /** So a label given through the API is gone: whatever the server held before, a node created with a
      label that does not start like a default one is listed differently after a save and a restart. */
  lemma {:induction false} LabelIsLost(s: State, m: nat, spec: NodeSpec, refuseAt: nat)
    requires Healthy(s, m) && m < USIZE_MAX && Acceptable(spec) && spec.labelText != "" && spec.labelText[0] != 'n'
    requires var c := Created(s.live, spec);
             |Actions(Registry(c.topology, map[], map[], map[]), AutosaveOf(c))| <= refuseAt
    ensures var s' := After(s, Do(Call(Create(spec, true))));
            ListNodes(After(After(s', Autosave), Restart(refuseAt, None)).live) != ListNodes(s'.live)
  {
    var c, k := Created(s.live, spec), |s.live.topology.nodes|;
    NewLabel(s.live, spec);
    assert !Unnamed(c, c.topology.nodes[k]);
    hide Healthy, WellFormed, Actions, AutosaveOf, ListNodes, Created, Unnamed, MaxId, Acceptable, Booted;
    CreatedIsHealthy(s, m, spec);
    RestartRestores(s.(live := c), m + 1, refuseAt);
  }

  lemma {:induction false} NewLabel(c: Registry, spec: NodeSpec)
    requires WellFormed(c) && MaxId(c.topology.nodes) < USIZE_MAX
    ensures var d, k := Created(c, spec), |c.topology.nodes|;
            && k < |d.topology.nodes| && d.topology.nodes[k].id in d.labels
            && d.labels[d.topology.nodes[k].id] == spec.labelText
  {
    hide KindName, KindOf, PortsExist, MaxId, HasNode, WithNode, DistinctIds, LiveKeys;
    var node := NodeSnapshot(NewId(c.topology), BuildPorts(spec.inputs, Input), BuildPorts(spec.outputs, Output));
    NewIdIsFresh(c.topology);
    NodeAppend(c.topology, node, node.id);
  }

  lemma {:induction false} CreatedIsHealthy(s: State, m: nat, spec: NodeSpec)
    requires Healthy(s, m) && m < USIZE_MAX && Acceptable(spec)
    ensures Healthy(s.(live := Created(s.live, spec)), m + 1)
  {
    hide Healthy, Acceptable, Created;
    var command := Call(Create(spec, true));
    assert [Do(command)][0] == Do(command) && [Do(command)][..0] == [] && Ceiling(m, []) == m;
    CommandKeeps(s, command, m);
  }

  /** A first boot, with nothing stored and nothing saved: the bridge's source and sink, and one link into the
      sink, from the source or from a stereo file. */
  lemma {:induction false} FirstBoot(refuseAt: nat, file: Option<u16>)
    ensures var c := Booted(EMPTY, None, refuseAt, file);
            && c.topology.nodes == [NodeSnapshot(0, [], [PortMeta(Output, 2, F32)]),
                                    NodeSnapshot(1, [PortMeta(Input, 2, F32)], [])]
                 + (if file.Some? then [NodeSnapshot(2, [], [PortMeta(Output, file.value, F32)])] else [])
            && c.topology.edges == [if file == Some(2) then SnapshotEdge(2, 0, 1, 0) else SnapshotEdge(0, 0, 1, 0)]
            && c.labels == map[] && c.params == map[]
            && c.kinds == (if file.Some? then map[2 := "file"] else map[])
  {
    NothingIsWellFormed();
    EmptySeedKeeps(NOTHING, file);
    hide Apply, MaxId;
  }

  /** A file loaded into a graph that is there already gets the next id, its kind, and no link. */
  lemma {:induction false} FileIsAdded(c: Registry, channels: u16)
    requires WellFormed(c) && c.topology.nodes != [] && MaxId(c.topology.nodes) < USIZE_MAX
    ensures var d, id := Seeded(c, Some(channels)), NewId(c.topology);
            && d.topology.nodes == c.topology.nodes + [NodeSnapshot(id, [], [PortMeta(Output, channels, F32)])]
            && d.topology.edges == c.topology.edges && d.kinds == c.kinds[id := "file"]
            && d.labels == c.labels && d.params == c.params
  {
    FileIsNew(c);
    var node := FileNode(FileId(c.topology), channels);
    hide WellFormed, MaxId, HasNode;
    PlaceKeeps(c, node, Some("file"));
    hide Apply, FileId;
  }

  /** What is saved: every node in order with its kind, params and port counts, under a default label, and every
      link. */
  lemma {:induction false} AutosaveIs(c: Registry, i: nat)
    requires i < |c.topology.nodes|
    ensures var p, n := AutosaveOf(c), c.topology.nodes[i];
            && p.version == 1 && |p.nodes| == |c.topology.nodes| && |p.links| == |c.topology.edges|
            && p.nodes[i].id == n.id && p.nodes[i].labelText == "node-" + Digits(n.id)
            && p.nodes[i].kind == Get(c.kinds, n.id) && p.nodes[i].params == Get(c.params, n.id)
            && p.nodes[i].inputs == |n.inputs| % 65536 && p.nodes[i].outputs == |n.outputs| % 65536
    ensures forall k :: 0 <= k < |c.topology.edges| ==>
              var e, l := c.topology.edges[k], AutosaveOf(c).links[k];
              && l.from == e.from && l.to == e.to
              && l.fromPort == e.fromPort % 65536 && l.toPort == e.toPort % 65536
  {
    hide Digits;
  }
}
