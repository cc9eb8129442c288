/**
 Live reload as interleaved steps of four threads: the session store applying mutations and
 publishing events on a 64-slot broadcast channel, the rebuild thread, the engine thread that swaps
 in what it finds in a one-place slot, and a gateway worker at the outer ends of the bridge rings.
 */
module LiveReload {
  import opened Common
  import T = Topology

  const CHANNEL_SLOTS := 64

  type Frame = seq<real>

  /** A built graph: the topology version it was read from, the number of the build, and the rings
      its bridge source and sink nodes hold. */
  datatype Graph = Graph(version: nat, build: nat, source: Option<nat>, sink: Option<nat>)

  /** The rebuild thread is about to read the topology, is building, or waits for an event. */
  datatype Phase = Pending | Building(graph: Graph) | Idle

  /** `history[v]` is the topology after `v` mutations; `published` counts the events sent, `next` is
      the receiver's position among them. `attempt` is the version last read for a build, `succeeded`
      whether that build went through, `ran` the versions of the cycles run so far. */
  datatype Reload = Reload(
    history: seq<T.Snapshot>, published: nat, next: nat, phase: Phase, builds: nat,
    attempt: Option<nat>, succeeded: bool, slot: Option<Graph>, live: Graph, ran: seq<nat>)

  datatype Step =
    | Mutate(mutation: T.Mutation)
    | Publish
    | TryRecv
    | ReadTopology
    | MakeSource
    | MakeSink
    | Finish(ok: bool)
    | EngineStep(taken: nat, flushed: seq<Frame>)
    | PushInbound(frame: Frame)
    | PopOutbound

  function Version(r: Reload): int { |r.history| - 1 }

  /** `apply_mutation` holds the store lock between changing the topology and sending the event. */
  predicate Locked(r: Reload) { r.published < Version(r) }

  /** One step; `ring` is the number a fresh ring would get. */
  function Reloaded(r: Reload, ring: nat, step: Step): Reload {
    match step
    case Mutate(m) =>
      if Locked(r) || r.history == [] then r
      else r.(history := r.history + [T.Apply(r.history[Version(r)], m)])
    case Publish => if Locked(r) then r.(published := r.published + 1) else r
    case TryRecv =>
      if !r.phase.Idle? || r.next >= r.published then r
      else if r.published - r.next > CHANNEL_SLOTS then r.(next := r.published - CHANNEL_SLOTS, phase := Pending)
      else r.(next := r.next + 1, phase := Pending)
    case ReadTopology =>
      if !r.phase.Pending? || Locked(r) || r.history == [] then r
      else r.(builds := r.builds + 1, attempt := Some(Version(r)),
              phase := Building(Graph(Version(r), r.builds + 1, None, None)))
    case MakeSource => if r.phase.Building? then r.(phase := Building(r.phase.graph.(source := Some(ring)))) else r
    case MakeSink => if r.phase.Building? then r.(phase := Building(r.phase.graph.(sink := Some(ring)))) else r
    case Finish(ok) =>
      if !r.phase.Building? then r
      else r.(phase := Idle, succeeded := ok, slot := if ok then Some(r.phase.graph) else r.slot)
    case EngineStep(_, _) =>
      var r1 := r.(ran := r.ran + [r.live.version]);
      if r.slot.Some? then r1.(live := r.slot.value, slot := None) else r1
    case _ => r
  }

  // ----- the bridge rings ------------------------------------------------------------------------------

  /** A bounded FIFO with its past: what was accepted, what was taken out, what is queued; with
      the build that made it and its direction. */
  datatype Ring = Ring(build: nat, inbound: bool, accepted: seq<Frame>, gone: seq<Frame>,
                       queued: seq<Frame>)

  /** All rings ever made, and the gateway's current ends. */
  datatype Bridge = Bridge(rings: seq<Ring>, inbound: Option<nat>, outbound: Option<nat>, capacity: nat)

  function Pushed(ring: Ring, capacity: nat, f: Frame): Ring {
    if |ring.queued| < capacity then ring.(accepted := ring.accepted + [f], queued := ring.queued + [f]) else ring
  }

  function PushedAll(ring: Ring, capacity: nat, fs: seq<Frame>): Ring {
    if fs == [] then ring else Pushed(PushedAll(ring, capacity, fs[..|fs| - 1]), capacity, fs[|fs| - 1])
  }

  function Popped(ring: Ring, n: nat): Ring {
    if n <= |ring.queued| then ring.(gone := ring.gone + ring.queued[..n], queued := ring.queued[n..]) else ring
  }

  function OnRing(b: Bridge, r: Option<nat>, ring: Ring): Bridge {
    if r.Some? && r.value < |b.rings| then b.(rings := b.rings[r.value := ring]) else b
  }

  function RingAt(b: Bridge, r: Option<nat>): Ring {
    if r.Some? && r.value < |b.rings| then b.rings[r.value] else Ring(0, true, [], [], [])
  }

  function Bridged(b: Bridge, r: Reload, step: Step): Bridge {
    match step
    case MakeSource =>
      if r.phase.Building?
      then b.(rings := b.rings + [Ring(r.phase.graph.build, true, [], [], [])], inbound := Some(|b.rings|))
      else b
    case MakeSink =>
      if r.phase.Building?
      then b.(rings := b.rings + [Ring(r.phase.graph.build, false, [], [], [])], outbound := Some(|b.rings|))
      else b
    case EngineStep(taken, flushed) =>
      var b1 := OnRing(b, r.live.source, Popped(RingAt(b, r.live.source), taken));
      OnRing(b1, r.live.sink, PushedAll(RingAt(b1, r.live.sink), b.capacity, flushed))
    case PushInbound(f) => OnRing(b, b.inbound, Pushed(RingAt(b, b.inbound), b.capacity, f))
    case PopOutbound => OnRing(b, b.outbound, Popped(RingAt(b, b.outbound), 1))
    case _ => b
  }

  // ----- runs ----------------------------------------------------------------------------------------------

  datatype World = World(reload: Reload, bridge: Bridge)

  /** The rebuild thread has just subscribed; the engine runs a first graph of its own. */
  function Start(topology: T.Snapshot, capacity: nat): World {
    World(Reload([topology], 0, 0, Pending, 0, None, false, None, Graph(0, 0, None, None), []),
          Bridge([], None, None, capacity))
  }

  function Next(w: World, step: Step): World {
    World(Reloaded(w.reload, |w.bridge.rings|, step), Bridged(w.bridge, w.reload, step))
  }

  function Run(w: World, steps: seq<Step>): World {
    if steps == [] then w else Next(Run(w, steps[..|steps| - 1]), steps[|steps| - 1])
  }

  // ----- invariants ------------------------------------------------------------------------------------------

  ghost predicate Sorted(s: seq<nat>) {
    forall i, j :: 0 <= i < j < |s| ==> s[i] <= s[j]
  }

  /** The version the newest finished build would run: pending in the slot, or live already. */
  function Newest(r: Reload): Graph { if r.slot.Some? then r.slot.value else r.live }

  ghost predicate Consistent(r: Reload) {
    && 0 <= Version(r)
    && r.next <= r.published <= Version(r) <= r.published + 1
    // every event received so far is covered by the last read, unless a read is still to come
    && (!r.phase.Pending? ==> r.attempt.Some? && r.next <= r.attempt.value)
    && (r.attempt.Some? ==> r.attempt.value <= Version(r))
    && (r.attempt.None? ==> r.slot.None? && r.live.version == 0 && !r.succeeded)
    && (r.attempt.Some? ==> 0 < r.builds)
    && (r.phase.Building? ==> r.phase.graph.version == r.attempt.value && r.phase.graph.build == r.builds)
    // versions never go backwards
    && r.live.version <= Newest(r).version
    && (r.attempt.Some? ==> Newest(r).version <= r.attempt.value)
    && Sorted(r.ran) && (forall i :: 0 <= i < |r.ran| ==> r.ran[i] <= r.live.version)
    // the last build, if it succeeded, is the newest
    && (!r.phase.Building? && r.succeeded ==> Newest(r).version == r.attempt.value && Newest(r).build == r.builds)
  }

  lemma {:induction false} ReloadKeeps(r: Reload, ring: nat, step: Step)
    requires Consistent(r)
    ensures Consistent(Reloaded(r, ring, step))
  {
    hide T.Apply;
  }

  lemma {:induction false} RunIsConsistent(topology: T.Snapshot, capacity: nat, steps: seq<Step>)
    ensures Consistent(Run(Start(topology, capacity), steps).reload)
  {
    if steps == [] {
    } else {
      hide Consistent, Reloaded, Bridged;
      var w := Run(Start(topology, capacity), steps[..|steps| - 1]);
      RunIsConsistent(topology, capacity, steps[..|steps| - 1]);
      ReloadKeeps(w.reload, |w.bridge.rings|, steps[|steps| - 1]);
    }
  }

  /** Nothing unread, nothing being built or about to be, no mutation half applied. */
  predicate Quiet(r: Reload) {
    r.phase.Idle? && r.next == r.published && !Locked(r)
  }

  /** No lost update: in every interleaving, once all is quiet the last topology a build was tried on
      is the store's current one; and if that build succeeded, one more engine step runs it. */
  lemma {:induction false} NoLostUpdate(topology: T.Snapshot, capacity: nat, steps: seq<Step>, taken: nat,
                                        flushed: seq<Frame>)
    requires Quiet(Run(Start(topology, capacity), steps).reload)
    ensures var w := Run(Start(topology, capacity), steps);
            && w.reload.attempt == Some(Version(w.reload))
            && (w.reload.succeeded ==>
                  var live := Next(w, EngineStep(taken, flushed)).reload.live;
                  live.version == Version(w.reload) && live.build == w.reload.builds && 0 < live.build)
  {
    RunIsConsistent(topology, capacity, steps);
    hide Run, Bridged;
  }

  /** The mutations that took effect in a run: all but those tried while another one held the lock. */
  function Applied(w: World, steps: seq<Step>): seq<T.Mutation> {
    if steps == [] then []
    else
      var n := |steps| - 1;
      Applied(w, steps[..n])
      + if steps[n].Mutate? && !Locked(Run(w, steps[..n]).reload) then [steps[n].mutation] else []
  }

  /** Version `k` is the first topology with the first `k` mutations applied. */
  ghost predicate Tells(history: seq<T.Snapshot>, topology: T.Snapshot, ms: seq<T.Mutation>) {
    |history| == |ms| + 1 && forall k :: 0 <= k <= |ms| ==> history[k] == T.Fold(topology, ms[..k])
  }

  lemma {:induction false} TellsNext(history: seq<T.Snapshot>, topology: T.Snapshot, ms: seq<T.Mutation>, m: T.Mutation)
    requires Tells(history, topology, ms)
    ensures Tells(history + [T.Apply(history[|ms|], m)], topology, ms + [m])
  {
    hide T.Apply;
    var more := ms + [m];
    T.FoldSnoc(topology, ms, m);
    assert ms[..|ms|] == ms && more[..|more|] == more;
    forall k | 0 <= k <= |ms| ensures more[..k] == ms[..k] {
    }
  }

  /** What the versions are, after every run. */
  lemma {:induction false} HistoryIsFold(topology: T.Snapshot, capacity: nat, steps: seq<Step>)
    ensures var start := Start(topology, capacity);
            Tells(Run(start, steps).reload.history, topology, Applied(start, steps))
  {
    hide T.Apply, T.Fold, Bridged;
    var start := Start(topology, capacity);
    if steps == [] {
      FirstTells(topology);
    } else {
      var n := |steps| - 1;
      HistoryIsFold(topology, capacity, steps[..n]);
      var before, done := Run(start, steps[..n]).reload, Applied(start, steps[..n]);
      if steps[n].Mutate? && !Locked(before) {
        TellsNext(before.history, topology, done, steps[n].mutation);
      } else {
        assert done + [] == done;
      }
      hide Tells;
    }
  }

  lemma {:induction false} FirstTells(topology: T.Snapshot)
    ensures Tells([topology], topology, [])
  {
  }

  /** So once all is quiet and the last build went through, one more step runs the topology with every
      mutation applied. */
  lemma {:induction false} LiveIsCurrent(topology: T.Snapshot, capacity: nat, steps: seq<Step>, taken: nat,
                                         flushed: seq<Frame>)
    requires Quiet(Run(Start(topology, capacity), steps).reload)
    requires Run(Start(topology, capacity), steps).reload.succeeded
    ensures var start := Start(topology, capacity);
            var r := Next(Run(start, steps), EngineStep(taken, flushed)).reload;
            && r.live.version < |r.history|
            && r.history[r.live.version] == T.Fold(topology, Applied(start, steps))
  {
    NoLostUpdate(topology, capacity, steps, taken, flushed);
    HistoryIsFold(topology, capacity, steps);
    hide Run, Applied;
    var ms := Applied(Start(topology, capacity), steps);
    assert ms[..|ms|] == ms;
  }

  /** The versions live at the engine steps of a run, one each. */
  function Cycled(w: World, steps: seq<Step>): seq<nat> {
    if steps == [] then []
    else
      var n := |steps| - 1;
      Cycled(w, steps[..n]) + if steps[n].EngineStep? then [Run(w, steps[..n]).reload.live.version] else []
  }

  lemma {:induction false} RanIsCycled(topology: T.Snapshot, capacity: nat, steps: seq<Step>)
    ensures Run(Start(topology, capacity), steps).reload.ran == Cycled(Start(topology, capacity), steps)
  {
    hide Bridged, Reloaded;
    if steps == [] {
    } else {
      var n, w := |steps| - 1, Start(topology, capacity);
      var before := Run(w, steps[..n]);
      RanIsCycled(topology, capacity, steps[..n]);
      OneCycle(before.reload, |before.bridge.rings|, steps[n]);
      assert Cycled(w, steps[..n]) + [] == Cycled(w, steps[..n]);
    }
  }

  lemma {:induction false} OneCycle(r: Reload, ring: nat, step: Step)
    ensures Reloaded(r, ring, step).ran == if step.EngineStep? then r.ran + [r.live.version] else r.ran
  {
    hide T.Apply;
  }

  /** The versions of the cycles the engine runs never go backwards. */
  lemma {:induction false} VersionsMonotone(topology: T.Snapshot, capacity: nat, steps: seq<Step>)
    ensures Sorted(Run(Start(topology, capacity), steps).reload.ran)
  {
    RunIsConsistent(topology, capacity, steps);
    hide Run;
  }

  // ----- the gateway across rebuilds ---------------------------------------------------------------------------

  /** Frames leave a ring in the order they were accepted, and none is lost in between. */
  predicate Fifo(ring: Ring, capacity: nat) {
    ring.accepted == ring.gone + ring.queued && |ring.queued| <= capacity
  }

  ghost predicate AllFifo(b: Bridge) {
    forall i :: 0 <= i < |b.rings| ==> Fifo(b.rings[i], b.capacity)
  }

  lemma {:induction false} PushedIsFifo(ring: Ring, capacity: nat, f: Frame)
    requires Fifo(ring, capacity)
    ensures Fifo(Pushed(ring, capacity, f), capacity)
  {
    assert ring.gone + (ring.queued + [f]) == ring.gone + ring.queued + [f];
  }

  lemma {:induction false} PushedAllIsFifo(ring: Ring, capacity: nat, fs: seq<Frame>)
    requires Fifo(ring, capacity)
    ensures Fifo(PushedAll(ring, capacity, fs), capacity)
  {
    if fs == [] {
    } else {
      PushedAllIsFifo(ring, capacity, fs[..|fs| - 1]);
      PushedIsFifo(PushedAll(ring, capacity, fs[..|fs| - 1]), capacity, fs[|fs| - 1]);
    }
  }

  lemma {:induction false} PoppedIsFifo(ring: Ring, capacity: nat, n: nat)
    requires Fifo(ring, capacity)
    ensures Fifo(Popped(ring, n), capacity)
  {
    if n <= |ring.queued| {
      assert ring.gone + ring.queued[..n] + ring.queued[n..] == ring.gone + ring.queued;
    }
  }

  lemma {:induction false} BridgeIsFifo(b: Bridge, r: Reload, step: Step)
    requires AllFifo(b)
    ensures AllFifo(Bridged(b, r, step))
  {
    hide Fifo, Pushed, PushedAll, Popped;
    EmptyIsFifo(b.capacity);
    match step
    case EngineStep(taken, flushed) =>
      PoppedIsFifo(RingAt(b, r.live.source), b.capacity, taken);
      var b1 := OnRing(b, r.live.source, Popped(RingAt(b, r.live.source), taken));
      PushedAllIsFifo(RingAt(b1, r.live.sink), b.capacity, flushed);
    case PushInbound(f) => PushedIsFifo(RingAt(b, b.inbound), b.capacity, f);
    case PopOutbound => PoppedIsFifo(RingAt(b, b.outbound), b.capacity, 1);
    case _ =>
  }

  lemma {:induction false} EmptyIsFifo(capacity: nat)
    ensures forall build, inbound :: Fifo(Ring(build, inbound, [], [], []), capacity)
  {
  }

  /** Which build made each ring, and for which side. */
  ghost predicate SameMakers(b: Bridge, b': Bridge) {
    && |b.rings| <= |b'.rings|
    && forall i :: 0 <= i < |b.rings| ==>
         b'.rings[i].build == b.rings[i].build && b'.rings[i].inbound == b.rings[i].inbound
  }

  /** A graph's rings were made by that graph's own build, and a ring end held by the gateway that
      was made by this build is the one this graph holds. */
  ghost predicate Owns(b: Bridge, g: Graph) {
    && (g.source.Some? ==>
          g.source.value < |b.rings| && b.rings[g.source.value].build == g.build && b.rings[g.source.value].inbound)
    && (g.sink.Some? ==>
          g.sink.value < |b.rings| && b.rings[g.sink.value].build == g.build && !b.rings[g.sink.value].inbound)
    && (b.inbound.Some? && b.inbound.value < |b.rings| && b.rings[b.inbound.value].build == g.build ==>
          g.source == b.inbound)
    && (b.outbound.Some? && b.outbound.value < |b.rings| && b.rings[b.outbound.value].build == g.build ==>
          g.sink == b.outbound)
  }

  ghost predicate EndsExist(b: Bridge) {
    && (b.inbound.Some? ==> b.inbound.value < |b.rings| && b.rings[b.inbound.value].inbound)
    && (b.outbound.Some? ==> b.outbound.value < |b.rings| && !b.rings[b.outbound.value].inbound)
  }

  /** The gateway's ends are the most recently made rings of their side. */
  ghost predicate NewestEnds(b: Bridge) {
    && (forall i :: 0 <= i < |b.rings| && b.rings[i].inbound ==> b.inbound.Some? && i <= b.inbound.value)
    && (forall i :: 0 <= i < |b.rings| && !b.rings[i].inbound ==> b.outbound.Some? && i <= b.outbound.value)
  }

  ghost predicate Attached(w: World) {
    var r, b := w.reload, w.bridge;
    && EndsExist(b) && NewestEnds(b)
    && (forall i :: 0 <= i < |b.rings| ==> b.rings[i].build <= r.builds)
    && Owns(b, r.live) && (r.slot.Some? ==> Owns(b, r.slot.value))
    && r.live.build <= r.builds && (r.slot.Some? ==> r.slot.value.build <= r.builds)
    && (r.phase.Building? ==>
          && Owns(b, r.phase.graph) && r.phase.graph.build == r.builds
          && r.live.build < r.builds && (r.slot.Some? ==> r.slot.value.build < r.builds))
  }

  /** Pushing and popping changes neither the makers of rings nor the gateway's ends. */
  lemma {:induction false} TrafficKeepsMakers(b: Bridge, r: Reload, step: Step)
    requires step.EngineStep? || step.PushInbound? || step.PopOutbound?
    ensures var b' := Bridged(b, r, step);
            SameMakers(b, b') && |b'.rings| == |b.rings| && b'.inbound == b.inbound && b'.outbound == b.outbound
  {
    if step.EngineStep? {
      PushedAllKeepsMaker(RingAt(OnRing(b, r.live.source, Popped(RingAt(b, r.live.source), step.taken)), r.live.sink),
                          b.capacity, step.flushed);
    }
  }

  lemma {:induction false} PushedAllKeepsMaker(ring: Ring, capacity: nat, fs: seq<Frame>)
    ensures PushedAll(ring, capacity, fs).build == ring.build && PushedAll(ring, capacity, fs).inbound == ring.inbound
  {
    if fs == [] {
    } else {
      PushedAllKeepsMaker(ring, capacity, fs[..|fs| - 1]);
    }
  }

  lemma {:induction false} OwnsKept(b: Bridge, b': Bridge, g: Graph)
    requires SameMakers(b, b') && EndsExist(b) && Owns(b, g) && b'.inbound == b.inbound && b'.outbound == b.outbound
    ensures Owns(b', g)
  {
  }

  lemma {:induction false} MakingKeeps(w: World, step: Step)
    requires Attached(w) && (step.MakeSource? || step.MakeSink?)
    ensures Attached(Next(w, step))
  {
    hide T.Apply;
  }

  lemma {:induction false} TrafficKeeps(w: World, step: Step)
    requires Attached(w) && (step.EngineStep? || step.PushInbound? || step.PopOutbound?)
    ensures Attached(Next(w, step))
  {
    hide Owns, Bridged, SameMakers;
    var b, b' := w.bridge, Bridged(w.bridge, w.reload, step);
    TrafficKeepsMakers(b, w.reload, step);
    SameMakersMeans(b, b');
    OwnsKept(b, b', w.reload.live);
    if w.reload.slot.Some? {
      OwnsKept(b, b', w.reload.slot.value);
    }
    if w.reload.phase.Building? {
      OwnsKept(b, b', w.reload.phase.graph);
    }
  }

  lemma {:induction false} SameMakersMeans(b: Bridge, b': Bridge)
    requires SameMakers(b, b')
    ensures forall i :: 0 <= i < |b.rings| ==>
              b'.rings[i].build == b.rings[i].build && b'.rings[i].inbound == b.rings[i].inbound
  {
  }

  lemma {:induction false} ReloadingKeeps(w: World, step: Step)
    requires Attached(w) && !step.MakeSource? && !step.MakeSink?
    requires !step.EngineStep? && !step.PushInbound? && !step.PopOutbound?
    ensures Attached(Next(w, step))
  {
    hide T.Apply;
    if step.ReadTopology? && w.reload.history != [] {
      FreshGraphOwns(w, Graph(Version(w.reload), w.reload.builds + 1, None, None));
      hide Owns;
    } else {
      hide Owns;
    }
  }

  lemma {:induction false} FreshGraphOwns(w: World, g: Graph)
    requires Attached(w) && g.build > w.reload.builds && g.source.None? && g.sink.None?
    ensures Owns(w.bridge, g)
  {
  }

  lemma {:induction false} StepKeepsAttached(w: World, step: Step)
    requires Attached(w)
    ensures Attached(Next(w, step))
  {
    hide Attached, Reloaded, Bridged;
    if step.MakeSource? || step.MakeSink? {
      MakingKeeps(w, step);
    } else if step.EngineStep? || step.PushInbound? || step.PopOutbound? {
      TrafficKeeps(w, step);
    } else {
      ReloadingKeeps(w, step);
    }
  }

  lemma {:induction false} RunIsAttached(topology: T.Snapshot, capacity: nat, steps: seq<Step>)
    ensures Attached(Run(Start(topology, capacity), steps)) && AllFifo(Run(Start(topology, capacity), steps).bridge)
    ensures Run(Start(topology, capacity), steps).bridge.capacity == capacity
  {
    if steps == [] {
    } else {
      var w, step := Run(Start(topology, capacity), steps[..|steps| - 1]), steps[|steps| - 1];
      RunIsAttached(topology, capacity, steps[..|steps| - 1]);
      hide Attached, AllFifo, Reloaded;
      BridgeIsFifo(w.bridge, w.reload, step);
      StepKeepsAttached(w, step);
    }
  }

  /** In every interleaving the gateway and the engine meet in the same inbound ring exactly when the
      live graph comes from the build that made that ring; likewise outbound. */
  lemma {:induction false} ConnectedExactlyWhen(topology: T.Snapshot, capacity: nat, steps: seq<Step>)
    ensures var w := Run(Start(topology, capacity), steps);
            && (w.bridge.inbound.Some? ==> w.bridge.inbound.value < |w.bridge.rings|)
            && (w.bridge.outbound.Some? ==> w.bridge.outbound.value < |w.bridge.rings|)
            && (w.bridge.inbound.Some? ==>
                 (w.reload.live.source == w.bridge.inbound <==>
                    w.bridge.rings[w.bridge.inbound.value].build == w.reload.live.build))
            && (w.bridge.outbound.Some? ==>
                 (w.reload.live.sink == w.bridge.outbound <==>
                    w.bridge.rings[w.bridge.outbound.value].build == w.reload.live.build))
  {
    RunIsAttached(topology, capacity, steps);
    hide Run;
  }

  /** The latest build went through, and the gateway's end of that side comes from it. */
  predicate Delivered(w: World, end: Option<nat>) {
    && !w.reload.phase.Building? && w.reload.succeeded
    && end.Some? && end.value < |w.bridge.rings| && w.bridge.rings[end.value].build == w.reload.builds
  }

  /** Survival, whatever rebuilds came before: if the latest build succeeded and made a source node,
      one engine step later the gateway pushes into the live source's ring; if it made a sink node, the
      gateway pops from the live sink's ring. Both rings hand frames on in order and lose none. */
  lemma {:induction false} GatewaySurvives(topology: T.Snapshot, capacity: nat, steps: seq<Step>, taken: nat,
                                           flushed: seq<Frame>)
    ensures var w := Run(Start(topology, capacity), steps);
            var w' := Next(w, EngineStep(taken, flushed));
            && w'.bridge.inbound == w.bridge.inbound && w'.bridge.outbound == w.bridge.outbound
            && (Delivered(w, w.bridge.inbound) ==> w'.reload.live.source == w'.bridge.inbound)
            && (Delivered(w, w.bridge.outbound) ==> w'.reload.live.sink == w'.bridge.outbound)
            && forall i :: 0 <= i < |w'.bridge.rings| ==> Fifo(w'.bridge.rings[i], capacity)
  {
    var w := Run(Start(topology, capacity), steps);
    RunIsConsistent(topology, capacity, steps);
    RunIsAttached(topology, capacity, steps);
    hide Run, Fifo;
    TrafficKeeps(w, EngineStep(taken, flushed));
    BridgeIsFifo(w.bridge, w.reload, EngineStep(taken, flushed));
    TrafficKeepsMakers(w.bridge, w.reload, EngineStep(taken, flushed));
    hide Bridged;
  }

  function PushedFrames(steps: seq<Step>): seq<Frame> {
    if steps == [] then []
    else
      var last := steps[|steps| - 1];
      PushedFrames(steps[..|steps| - 1]) + if last.PushInbound? then [last.frame] else []
  }

  /** The inbound ring had room at every push. */
  predicate RoomThroughout(w: World, steps: seq<Step>) {
    steps == [] ||
    var before := Run(w, steps[..|steps| - 1]);
    && RoomThroughout(w, steps[..|steps| - 1])
    && (steps[|steps| - 1].PushInbound? ==>
          |RingAt(before.bridge, before.bridge.inbound).queued| < before.bridge.capacity)
  }

  /** What one step adds to the gateway's inbound ring: the pushed frame, if there is room. */
  lemma {:induction false} OnePushArrives(w: World, step: Step)
    requires Attached(w) && w.bridge.inbound.Some? && !step.MakeSource?
    ensures var b, b' := w.bridge, Bridged(w.bridge, w.reload, step);
            && b'.inbound == b.inbound
            && RingAt(b', b.inbound).accepted == RingAt(b, b.inbound).accepted +
                 if step.PushInbound? && |RingAt(b, b.inbound).queued| < b.capacity then [step.frame] else []
  {
    hide PushedAll;
    assert RingAt(w.bridge, w.bridge.inbound).accepted + [] == RingAt(w.bridge, w.bridge.inbound).accepted;
  }

  /** Between two builds: every frame pushed enters the same ring, in order, exactly when there was room
      at every push; otherwise frames are missing. */
  lemma {:induction false} PushesArrive(w: World, steps: seq<Step>)
    requires Attached(w) && w.bridge.inbound.Some?
    requires forall i :: 0 <= i < |steps| ==> !steps[i].MakeSource?
    ensures var w' := Run(w, steps);
            var was, now := RingAt(w.bridge, w.bridge.inbound).accepted, RingAt(w'.bridge, w.bridge.inbound).accepted;
            && Attached(w') && w'.bridge.inbound == w.bridge.inbound
            && (RoomThroughout(w, steps) ==> now == was + PushedFrames(steps))
            && (!RoomThroughout(w, steps) ==> |now| < |was| + |PushedFrames(steps)|)
  {
    hide Attached, RingAt, Reloaded, Bridged;
    if steps == [] {
      assert RingAt(w.bridge, w.bridge.inbound).accepted + [] == RingAt(w.bridge, w.bridge.inbound).accepted;
    } else {
      var n := |steps| - 1;
      var before, step := Run(w, steps[..n]), steps[n];
      PushesArrive(w, steps[..n]);
      OnePushArrives(before, step);
      StepKeepsAttached(before, step);
    }
  }

  /** The gateway across a rebuild, end to end. Let a build make its source node, after any run; then
      let anything happen except another build's source. If that build is still the latest and went
      through, one engine step later the gateway and the live graph hold the ring it made. What that
      ring accepted is what was pushed since, in push order and with none lost, exactly when there was
      room at every push; and all it accepted has left it or is queued, in order. */
  lemma {:induction false} GatewayDelivers(topology: T.Snapshot, capacity: nat, before: seq<Step>, after: seq<Step>,
                                           taken: nat, flushed: seq<Frame>)
    requires var w0 := Run(Start(topology, capacity), before);
             && w0.reload.phase.Building?
             && (forall i :: 0 <= i < |after| ==> !after[i].MakeSource?)
             && var w2 := Run(Next(w0, MakeSource), after);
                !w2.reload.phase.Building? && w2.reload.succeeded && w2.reload.builds == w0.reload.builds
    ensures var w0 := Run(Start(topology, capacity), before);
            var w := Next(Run(Next(w0, MakeSource), after), EngineStep(taken, flushed));
            var ring := |w0.bridge.rings|;
            && w.reload.live.source == w.bridge.inbound == Some(ring) && ring < |w.bridge.rings|
            && (w.bridge.rings[ring].accepted == PushedFrames(after) <==> RoomThroughout(Next(w0, MakeSource), after))
            && Fifo(w.bridge.rings[ring], capacity)
  {
    var w0 := Run(Start(topology, capacity), before);
    var w1 := Next(w0, MakeSource);
    var w2 := Run(w1, after);
    var steps := before + [MakeSource] + after;
    RunIsAttached(topology, capacity, before);
    RunIsConsistent(topology, capacity, before);
    StepKeepsAttached(w0, MakeSource);
    FreshSource(w0);
    RunSnoc(Start(topology, capacity), before, MakeSource);
    RunSplit(Start(topology, capacity), before + [MakeSource], after);
    PushesArrive(w1, after);
    GatewaySurvives(topology, capacity, steps, taken, flushed);
    MakersStay(w1, after);
    OnePushArrives(w2, EngineStep(taken, flushed));
    TrafficKeepsMakers(w2.bridge, w2.reload, EngineStep(taken, flushed));
    RunIsAttached(topology, capacity, steps);
    hide Run, Bridged, Attached, Fifo, PushedFrames, RoomThroughout, Consistent, AllFifo;
    assert [] + PushedFrames(after) == PushedFrames(after);
    var kept := RingAt(w2.bridge, w2.bridge.inbound).accepted;
    assert kept + [] == kept;
  }

  lemma {:induction false} FreshSource(w: World)
    requires w.reload.phase.Building? && w.reload.phase.graph.build == w.reload.builds
    ensures var w' := Next(w, MakeSource);
            && w'.bridge.inbound == Some(|w.bridge.rings|) && |w'.bridge.rings| == |w.bridge.rings| + 1
            && RingAt(w'.bridge, w'.bridge.inbound) == Ring(w.reload.builds, true, [], [], [])
            && w'.reload.builds == w.reload.builds
  {
  }

  /** No step changes which build made a ring. */
  lemma {:induction false} MakersStay(w: World, steps: seq<Step>)
    ensures SameMakers(w.bridge, Run(w, steps).bridge)
  {
    if steps == [] {
    } else {
      var n := |steps| - 1;
      var before, step := Run(w, steps[..n]), steps[n];
      MakersStay(w, steps[..n]);
      if step.EngineStep? || step.PushInbound? || step.PopOutbound? {
        TrafficKeepsMakers(before.bridge, before.reload, step);
        hide Bridged;
      }
    }
  }

  // ----- what passes through the rings ---------------------------------------------------------------------------

  function Least(a: nat, b: nat): nat { if a < b then a else b }

  /** A ring takes as many of the frames offered as it has room for, the first ones, in order. */
  lemma {:induction false} PushedAllIs(ring: Ring, capacity: nat, fs: seq<Frame>)
    requires |ring.queued| <= capacity
    ensures var k, after := Least(|fs|, capacity - |ring.queued|), PushedAll(ring, capacity, fs);
            && after.accepted == ring.accepted + fs[..k] && after.queued == ring.queued + fs[..k]
            && after.gone == ring.gone
  {
    if fs == [] {
      assert ring.accepted + fs == ring.accepted && ring.queued + fs == ring.queued;
    } else {
      var n := |fs| - 1;
      PushedAllIs(ring, capacity, fs[..n]);
      var room := capacity - |ring.queued|;
      if n < room {
        assert fs[..n] + [fs[n]] == fs;
      } else {
        assert fs[..n][..room] == fs[..room];
      }
    }
  }

  /** What one step does to the ring the gateway pops from: the oldest frame leaves it at a pop, what the
      live graph plays into it enters it as far as there is room, and nothing else happens. */
  lemma {:induction false} OutboundStep(w: World, step: Step)
    requires Attached(w) && AllFifo(w.bridge) && w.bridge.outbound.Some? && !step.MakeSink?
    ensures var b, b' := w.bridge, Bridged(w.bridge, w.reload, step);
            var ring, ring' := RingAt(b, b.outbound), RingAt(b', b.outbound);
            && b'.outbound == b.outbound && |ring.queued| <= b.capacity
            && ring'.gone == ring.gone + (if step.PopOutbound? then ring.queued[..Least(1, |ring.queued|)] else [])
            && ring'.accepted == ring.accepted
                 + (if step.EngineStep? && w.reload.live.sink == b.outbound
                    then step.flushed[..Least(|step.flushed|, b.capacity - |ring.queued|)] else [])
  {
    var b, o := w.bridge, w.bridge.outbound;
    var ring := RingAt(b, o);
    assert Fifo(ring, b.capacity);
    assert ring.gone + [] == ring.gone && ring.accepted + [] == ring.accepted;
    if step.EngineStep? {
      assert w.reload.live.source != o;
      if w.reload.live.sink == o {
        PushedAllIs(ring, b.capacity, step.flushed);
      }
    }
    hide PushedAll;
  }

  /** And to the ring the gateway pushes into: the live graph takes the oldest frames it asks for, if there
      are that many. */
  lemma {:induction false} InboundStep(w: World, step: Step)
    requires Attached(w) && AllFifo(w.bridge) && w.bridge.inbound.Some? && !step.MakeSource?
    ensures var b, b' := w.bridge, Bridged(w.bridge, w.reload, step);
            var ring, ring' := RingAt(b, b.inbound), RingAt(b', b.inbound);
            && b'.inbound == b.inbound
            && ring'.gone == ring.gone
                 + (if step.EngineStep? && w.reload.live.source == b.inbound && step.taken <= |ring.queued|
                    then ring.queued[..step.taken] else [])
  {
    hide PushedAll;
    var b := w.bridge;
    var ring := RingAt(b, b.inbound);
    assert ring.gone + [] == ring.gone;
    assert step.EngineStep? ==> w.reload.live.sink != b.inbound;
  }

  /** The frames the gateway got from its pops. */
  function PoppedFrames(w: World, steps: seq<Step>): seq<Frame> {
    if steps == [] then []
    else
      var n := |steps| - 1;
      var queued := RingAt(Run(w, steps[..n]).bridge, w.bridge.outbound).queued;
      PoppedFrames(w, steps[..n]) + if steps[n].PopOutbound? then queued[..Least(1, |queued|)] else []
  }

  /** The frames live graphs played into the gateway's ring. */
  function PlayedFrames(w: World, steps: seq<Step>): seq<Frame> {
    if steps == [] then []
    else
      var n := |steps| - 1;
      var before := Run(w, steps[..n]);
      var room := before.bridge.capacity - |RingAt(before.bridge, w.bridge.outbound).queued|;
      PlayedFrames(w, steps[..n])
      + if steps[n].EngineStep? && before.reload.live.sink == w.bridge.outbound && 0 <= room
        then steps[n].flushed[..Least(|steps[n].flushed|, room)] else []
  }

  /** Between two sinks: the frames the gateway got and those still waiting are, in order, those that were
      waiting and those played since. Nothing is lost, doubled or turned round. */
  lemma {:induction false} PopsDeliver(w: World, steps: seq<Step>)
    requires Attached(w) && AllFifo(w.bridge) && w.bridge.outbound.Some?
    requires forall i :: 0 <= i < |steps| ==> !steps[i].MakeSink?
    ensures var o, w' := w.bridge.outbound, Run(w, steps);
            && Attached(w') && AllFifo(w'.bridge) && w'.bridge.outbound == o
            && RingAt(w'.bridge, o).gone == RingAt(w.bridge, o).gone + PoppedFrames(w, steps)
            && RingAt(w'.bridge, o).accepted == RingAt(w.bridge, o).accepted + PlayedFrames(w, steps)
            && PoppedFrames(w, steps) + RingAt(w'.bridge, o).queued
               == RingAt(w.bridge, o).queued + PlayedFrames(w, steps)
  {
    hide Attached, AllFifo, RingAt, PoppedFrames, PlayedFrames, Run;
    PopsCount(w, steps);
    OutboundExists(w);
    OutboundExists(Run(w, steps));
    Balanced(w.bridge, Run(w, steps).bridge, w.bridge.outbound, PoppedFrames(w, steps), PlayedFrames(w, steps));
  }

  lemma {:induction false} OutboundExists(w: World)
    requires Attached(w) && w.bridge.outbound.Some?
    ensures w.bridge.outbound.value < |w.bridge.rings|
  {
  }

  lemma {:induction false} PopsCount(w: World, steps: seq<Step>)
    requires Attached(w) && AllFifo(w.bridge) && w.bridge.outbound.Some?
    requires forall i :: 0 <= i < |steps| ==> !steps[i].MakeSink?
    ensures var o, w' := w.bridge.outbound, Run(w, steps);
            && Attached(w') && AllFifo(w'.bridge) && w'.bridge.outbound == o
            && RingAt(w'.bridge, o).gone == RingAt(w.bridge, o).gone + PoppedFrames(w, steps)
            && RingAt(w'.bridge, o).accepted == RingAt(w.bridge, o).accepted + PlayedFrames(w, steps)
  {
    hide Attached, Reloaded, Bridged, AllFifo, RingAt;
    var o := w.bridge.outbound;
    var first := RingAt(w.bridge, o);
    if steps == [] {
      assert first.gone + [] == first.gone && first.accepted + [] == first.accepted;
    } else {
      var n := |steps| - 1;
      var before, step := Run(w, steps[..n]), steps[n];
      PopsCount(w, steps[..n]);
      OutboundStep(before, step);
      StepKeepsAttached(before, step);
      BridgeIsFifo(before.bridge, before.reload, step);
      T.Joined(first.gone, PoppedFrames(w, steps[..n]), PoppedFrames(w, steps)[|PoppedFrames(w, steps[..n])|..]);
      T.Joined(first.accepted, PlayedFrames(w, steps[..n]), PlayedFrames(w, steps)[|PlayedFrames(w, steps[..n])|..]);
    }
  }

  lemma {:induction false} Balanced(b: Bridge, b': Bridge, o: Option<nat>, popped: seq<Frame>, played: seq<Frame>)
    requires AllFifo(b) && AllFifo(b') && o.Some? && o.value < |b.rings| && o.value < |b'.rings|
    requires RingAt(b', o).gone == RingAt(b, o).gone + popped
    requires RingAt(b', o).accepted == RingAt(b, o).accepted + played
    ensures popped + RingAt(b', o).queued == RingAt(b, o).queued + played
  {
    var ring, ring' := RingAt(b, o), RingAt(b', o);
    assert Fifo(ring, b.capacity) && Fifo(ring', b'.capacity);
    assert ring'.accepted == ring.gone + (popped + ring'.queued);
    assert ring'.accepted == ring.gone + (ring.queued + played);
    assert (ring.gone + (popped + ring'.queued))[|ring.gone|..] == popped + ring'.queued;
    assert (ring.gone + (ring.queued + played))[|ring.gone|..] == ring.queued + played;
  }

  /** A build that fails after making its bridge nodes cuts the gateway off: the live graph keeps the
      old ring, the gateway holds the new one. */
  lemma {:induction false} FailedBuildDisconnects(topology: T.Snapshot, m: T.Mutation)
    ensures var steps := [ReadTopology, MakeSource, Finish(true), EngineStep(0, [])]
                       + [Mutate(m), Publish, TryRecv] + [ReadTopology, MakeSource, Finish(false)];
            var w := Run(Start(topology, 128), steps);
            Quiet(w.reload) && w.reload.live.source == Some(0) && w.bridge.inbound == Some(1)
  {
    hide T.Apply, Run;
    var s1 := [ReadTopology, MakeSource, Finish(true), EngineStep(0, [])];
    var s2, s3 := [Mutate(m), Publish, TryRecv], [ReadTopology, MakeSource, Finish(false)];
    RunSplit(Start(topology, 128), s1, s2);
    RunSplit(Start(topology, 128), s1 + s2, s3);
    FirstBuild(topology);
    var w1 := Run(Start(topology, 128), s1);
    OneMutation(w1, m);
    var w2 := Run(w1, s2);
    Run3(w2, ReadTopology, MakeSource, Finish(false));
  }

  lemma {:induction false} FirstBuild(topology: T.Snapshot)
    ensures var w := Run(Start(topology, 128), [ReadTopology, MakeSource, Finish(true), EngineStep(0, [])]);
            && |w.reload.history| == 1 && w.reload.published == 0 && w.reload.next == 0 && w.reload.phase.Idle?
            && w.reload.live.source == Some(0) && w.reload.slot.None? && |w.bridge.rings| == 1
  {
    hide Run;
    var w := Start(topology, 128);
    Run3(w, ReadTopology, MakeSource, Finish(true));
    RunSnoc(w, [ReadTopology, MakeSource, Finish(true)], EngineStep(0, []));
    assert [ReadTopology, MakeSource, Finish(true)] + [EngineStep(0, [])]
           == [ReadTopology, MakeSource, Finish(true), EngineStep(0, [])];
  }

  lemma {:induction false} OneMutation(w: World, m: T.Mutation)
    requires |w.reload.history| == 1 && w.reload.published == 0 && w.reload.next == 0 && w.reload.phase.Idle?
    ensures var w' := Run(w, [Mutate(m), Publish, TryRecv]);
            && |w'.reload.history| == 2 && w'.reload.published == 1 && w'.reload.next == 1 && w'.reload.phase.Pending?
            && w'.reload.live == w.reload.live && w'.reload.slot == w.reload.slot && w'.bridge == w.bridge
  {
    hide T.Apply, Run;
    Run3(w, Mutate(m), Publish, TryRecv);
  }

  /** Only the engine changes what is live. */
  lemma {:induction false} EngineUntouched(w: World, steps: seq<Step>)
    requires forall i :: 0 <= i < |steps| ==> !steps[i].EngineStep?
    ensures Run(w, steps).reload.live == w.reload.live && Run(w, steps).reload.ran == w.reload.ran
  {
    if steps == [] {
    } else {
      EngineUntouched(w, steps[..|steps| - 1]);
    }
  }

  lemma {:induction false} RunSnoc(w: World, steps: seq<Step>, step: Step)
    ensures Run(w, steps + [step]) == Next(Run(w, steps), step)
  {
    assert (steps + [step])[..|steps|] == steps;
  }

  lemma {:induction false} Run3(w: World, a: Step, b: Step, c: Step)
    ensures Run(w, [a, b, c]) == Next(Next(Next(w, a), b), c)
  {
    RunSnoc(w, [a, b], c);
    RunSnoc(w, [a], b);
    RunSnoc(w, [], a);
    assert [a, b] + [c] == [a, b, c] && [a] + [b] == [a, b] && [] + [a] == [a];
  }

  lemma {:induction false} RunSplit(w: World, a: seq<Step>, b: seq<Step>)
    ensures Run(w, a + b) == Run(Run(w, a), b)
  {
    hide Next;
    if b == [] {
      assert a + b == a;
    } else {
      var n := |b| - 1;
      assert (a + b)[..|a| + n] == a + b[..n];
      RunSplit(w, a, b[..n]);
    }
  }
}
