/**
 Any number of replicas over one committed log. Consensus is taken as given: replicas only ever
 apply the next committed entries. Everything else is free: batch sizes, when snapshots are built,
 sent and installed, old and duplicated messages, and crashes between any two transactions.
 */
module Cluster {
  import opened Common
  import opened Replica
  import T = Topology

  /** A replica: its two rows, the builder's and the installer's unfinished work, and (as history)
      the length of the log prefix it last installed. */
  datatype Node = Node(state: PersistedState, snapshot: Option<PersistedSnapshot>,
                       building: Option<PersistedSnapshot>, installing: Option<PersistedSnapshot>, base: nat)

  datatype System = System(nodes: seq<Node>, net: seq<PersistedSnapshot>)

  /** One transaction, message or crash. `r` names the replica. */
  datatype Step =
    | ApplyBatch(r: nat, count: nat)
    | BuildRead(r: nat)
    | BuildWrite(r: nat)
    | Send(r: nat)
    | Corrupt(meta: SnapshotMeta, bytes: seq<byte>)
    | InstallState(r: nat, msg: nat)
    | InstallRecord(r: nat)
    | Crash(r: nat)

  const FRESH := Node(INITIAL, None, None, None, 0)

  function Start(replicas: nat): System {
    System(seq(replicas, _ => FRESH), [])
  }

  /** How many log entries a last-applied log id covers. */
  function Covered(lastApplied: Option<LogId>): nat {
    if lastApplied.None? then 0 else lastApplied.value.index + 1
  }

  function NodeStep(log: seq<Entry>, net: seq<PersistedSnapshot>, n: Node, step: Step): Node {
    match step
    case ApplyBatch(_, count) =>
      var at := Covered(n.state.lastApplied);
      if at + count <= |log| then n.(state := ApplyAll(n.state, log[at..at + count])) else n
    case BuildRead(_) => n.(building := Some(Captured(n.state)))
    case BuildWrite(_) => if n.building.Some? then n.(snapshot := n.building, building := None) else n
    case InstallState(_, msg) =>
      if msg < |net| && net[msg].payload.Encoded?
      then n.(state := Installed(net[msg]), installing := Some(net[msg]), base := Covered(net[msg].meta.lastLogId))
      else n
    case InstallRecord(_) => if n.installing.Some? then n.(snapshot := n.installing, installing := None) else n
    case Crash(_) => n.(building := None, installing := None)
    case _ => n
  }

  function SystemStep(log: seq<Entry>, c: System, step: Step): System {
    if step.Corrupt? then c.(net := c.net + [PersistedSnapshot(step.meta, Garbage(step.bytes))])
    else if step.r >= |c.nodes| then c
    else if step.Send? then
      if c.nodes[step.r].snapshot.Some? then c.(net := c.net + [c.nodes[step.r].snapshot.value]) else c
    else c.(nodes := c.nodes[step.r := NodeStep(log, c.net, c.nodes[step.r], step)])
  }

  function Exec(log: seq<Entry>, c: System, steps: seq<Step>): (c': System)
    ensures |c'.nodes| == |c.nodes|
  {
    if steps == [] then c else SystemStep(log, Exec(log, c, steps[..|steps| - 1]), steps[|steps| - 1])
  }

  // ----- the reference: the log applied from the start ---------------------------------------------

  function At(log: seq<Entry>, n: nat): PersistedState
    requires n <= |log|
  {
    ApplyAll(INITIAL, log[..n])
  }

  ghost predicate Indexed(log: seq<Entry>) {
    forall i :: 0 <= i < |log| ==> log[i].logId.index == i
  }

  /** The mutations among the entries, in order. */
  function Mutations(entries: seq<Entry>): seq<T.Mutation> {
    if entries == [] then []
    else
      var last := entries[|entries| - 1];
      Mutations(entries[..|entries| - 1]) + if last.payload.Normal? then [last.payload.mutation] else []
  }

  /** The membership set last. */
  function LatestMembership(entries: seq<Entry>): StoredMembership {
    if entries == [] then INITIAL.lastMembership
    else
      var last := entries[|entries| - 1];
      if last.payload.Members? then StoredMembership(Some(last.logId), last.payload.membership)
      else LatestMembership(entries[..|entries| - 1])
  }

  lemma {:induction false} AtIsFold(entries: seq<Entry>)
    ensures var s := ApplyAll(INITIAL, entries);
            && s.topology == T.Fold(T.EMPTY, Mutations(entries))
            && s.nextMutationId == |Mutations(entries)|
            && s.lastMembership == LatestMembership(entries)
            && s.lastApplied == if entries == [] then None else Some(entries[|entries| - 1].logId)
  {
    if entries == [] {
    } else {
      var init, last := entries[..|entries| - 1], entries[|entries| - 1];
      AtIsFold(init);
      assert Mutations(init) + [] == Mutations(init);
      if last.payload.Normal? {
        T.FoldSnoc(T.EMPTY, Mutations(init), last.payload.mutation);
      }
    }
  }

  // ----- the invariant -------------------------------------------------------------------------------

  /** Equal but for the mutation counter. */
  predicate SameView(s: PersistedState, t: PersistedState) {
    s.topology == t.topology && s.lastApplied == t.lastApplied && s.lastMembership == t.lastMembership
  }

  /** The state is the log applied up to the state's own last-applied log id. */
  predicate Faithful(log: seq<Entry>, s: PersistedState) {
    Covered(s.lastApplied) <= |log| && SameView(s, At(log, Covered(s.lastApplied)))
  }

  predicate FaithfulSnapshot(log: seq<Entry>, p: PersistedSnapshot) {
    p.payload.Encoded? && Faithful(log, Installed(p))
  }

  predicate FaithfulOption(log: seq<Entry>, p: Option<PersistedSnapshot>) {
    p.Some? ==> FaithfulSnapshot(log, p.value)
  }

  predicate GoodNode(log: seq<Entry>, n: Node) {
    && Faithful(log, n.state)
    && FaithfulOption(log, n.snapshot)
    && FaithfulOption(log, n.building)
    && FaithfulOption(log, n.installing)
    && n.base <= Covered(n.state.lastApplied)
    && n.state.nextMutationId == |Mutations(log[n.base..Covered(n.state.lastApplied)])|
  }

  ghost predicate Good(log: seq<Entry>, c: System) {
    && (forall i :: 0 <= i < |c.nodes| ==> GoodNode(log, c.nodes[i]))
    && (forall m :: 0 <= m < |c.net| ==> c.net[m].payload.Encoded? ==> FaithfulSnapshot(log, c.net[m]))
  }

  // ----- applying from a faithful state -----------------------------------------------------------------

  lemma {:induction false} SameViewApplies(s: PersistedState, t: PersistedState, entries: seq<Entry>)
    requires SameView(s, t)
    ensures SameView(ApplyAll(s, entries), ApplyAll(t, entries))
    ensures ApplyAll(s, entries).nextMutationId == s.nextMutationId + |Mutations(entries)|
  {
    hide T.Apply;
    if entries == [] {
    } else {
      SameViewApplies(s, t, entries[..|entries| - 1]);
    }
  }

  lemma {:induction false} AtCovers(log: seq<Entry>, n: nat)
    requires Indexed(log) && n <= |log|
    ensures Covered(At(log, n).lastApplied) == n
  {
    AtIsFold(log[..n]);
  }

  /** Install at `n`, then apply the suffix: the same view as applying everything. */
  lemma {:induction false} SuffixApplies(log: seq<Entry>, s: PersistedState, count: nat)
    requires Indexed(log) && Faithful(log, s) && Covered(s.lastApplied) + count <= |log|
    ensures var n := Covered(s.lastApplied);
            var s' := ApplyAll(s, log[n..n + count]);
            && Faithful(log, s') && Covered(s'.lastApplied) == n + count
            && s'.nextMutationId == s.nextMutationId + |Mutations(log[n..n + count])|
  {
    hide ApplyAll, Mutations;
    var n := Covered(s.lastApplied);
    AtSplit(log, n, count);
    SameViewApplies(s, At(log, n), log[n..n + count]);
    AtCovers(log, n + count);
    hide At;
  }

  lemma {:induction false} AtSplit(log: seq<Entry>, n: nat, count: nat)
    requires n + count <= |log|
    ensures At(log, n + count) == ApplyAll(At(log, n), log[n..n + count])
  {
    hide ApplyAll;
    assert log[..n + count] == log[..n] + log[n..n + count];
    BatchSplit(INITIAL, log[..n], log[n..n + count]);
  }

  lemma {:induction false} MutationsSplit(a: seq<Entry>, b: seq<Entry>)
    ensures Mutations(a + b) == Mutations(a) + Mutations(b)
  {
    if b == [] {
      assert a + b == a;
    } else {
      var n := |b| - 1;
      assert (a + b)[..|a| + n] == a + b[..n];
      MutationsSplit(a, b[..n]);
    }
  }

  lemma {:induction false} ApplyKeeps(log: seq<Entry>, n: Node, count: nat)
    requires Indexed(log) && GoodNode(log, n) && Covered(n.state.lastApplied) + count <= |log|
    ensures var at := Covered(n.state.lastApplied); GoodNode(log, n.(state := ApplyAll(n.state, log[at..at + count])))
  {
    hide ApplyAll, Mutations, Faithful, FaithfulOption;
    var at := Covered(n.state.lastApplied);
    SuffixApplies(log, n.state, count);
    assert log[n.base..at + count] == log[n.base..at] + log[at..at + count];
    MutationsSplit(log[n.base..at], log[at..at + count]);
  }

  lemma {:induction false} InstallKeeps(log: seq<Entry>, n: Node, snap: PersistedSnapshot)
    requires GoodNode(log, n) && FaithfulSnapshot(log, snap)
    ensures GoodNode(log, n.(state := Installed(snap), installing := Some(snap), base := Covered(snap.meta.lastLogId)))
  {
    var at := Covered(snap.meta.lastLogId);
    assert log[at..at] == [];
  }

  lemma {:induction false} NodeKeeps(log: seq<Entry>, net: seq<PersistedSnapshot>, n: Node, step: Step)
    requires Indexed(log) && GoodNode(log, n)
    requires forall m :: 0 <= m < |net| ==> net[m].payload.Encoded? ==> FaithfulSnapshot(log, net[m])
    ensures GoodNode(log, NodeStep(log, net, n, step))
  {
    hide ApplyAll, Mutations, At;
    match step
    case ApplyBatch(_, count) =>
      if Covered(n.state.lastApplied) + count <= |log| {
        ApplyKeeps(log, n, count);
      }
    case InstallState(_, msg) =>
      if msg < |net| && net[msg].payload.Encoded? {
        InstallKeeps(log, n, net[msg]);
      }
    case _ =>
  }

  lemma {:induction false} StepKeeps(log: seq<Entry>, c: System, step: Step)
    requires Indexed(log) && Good(log, c)
    ensures Good(log, SystemStep(log, c, step))
  {
    hide NodeStep, Faithful, Mutations;
    if !step.Corrupt? && !step.Send? && step.r < |c.nodes| {
      NodeKeeps(log, c.net, c.nodes[step.r], step);
    }
  }

  lemma {:induction false} FreshIsGood(log: seq<Entry>)
    ensures GoodNode(log, FRESH)
  {
    assert log[..0] == [] && log[0..0] == [];
  }

  lemma {:induction false} RunKeeps(log: seq<Entry>, replicas: nat, steps: seq<Step>)
    requires Indexed(log)
    ensures Good(log, Exec(log, Start(replicas), steps))
  {
    hide GoodNode, SystemStep, FaithfulSnapshot;
    if steps == [] {
      FreshIsGood(log);
    } else {
      RunKeeps(log, replicas, steps[..|steps| - 1]);
      StepKeeps(log, Exec(log, Start(replicas), steps[..|steps| - 1]), steps[|steps| - 1]);
    }
  }

  // ----- main results -----------------------------------------------------------------------------------

  /** In every run, two replicas with the same last-applied index hold the same topology and the
      same membership, and it is the one the log prescribes. */
  lemma {:induction false} ReplicasAgree(log: seq<Entry>, replicas: nat, steps: seq<Step>, i: nat, j: nat)
    requires Indexed(log)
    requires var c := Exec(log, Start(replicas), steps);
             && i < |c.nodes| && j < |c.nodes|
             && Covered(c.nodes[i].state.lastApplied) == Covered(c.nodes[j].state.lastApplied)
    ensures var c := Exec(log, Start(replicas), steps);
            var s, t := c.nodes[i].state, c.nodes[j].state;
            var n := Covered(s.lastApplied);
            && n <= |log|
            && s.topology == t.topology == T.Fold(T.EMPTY, Mutations(log[..n]))
            && s.lastMembership == t.lastMembership == LatestMembership(log[..n])
  {
    hide Mutations, LatestMembership;
    RunKeeps(log, replicas, steps);
    var c := Exec(log, Start(replicas), steps);
    assert GoodNode(log, c.nodes[i]) && GoodNode(log, c.nodes[j]);
    hide Exec;
    AtIsFold(log[..Covered(c.nodes[i].state.lastApplied)]);
  }

  /** In every reachable state, a stored snapshot is the log folded up to its own last log id. */
  lemma {:induction false} SnapshotIsFold(log: seq<Entry>, replicas: nat, steps: seq<Step>, i: nat)
    requires Indexed(log)
    requires var c := Exec(log, Start(replicas), steps); i < |c.nodes| && c.nodes[i].snapshot.Some?
    ensures var p := Exec(log, Start(replicas), steps).nodes[i].snapshot.value;
            var n := Covered(p.meta.lastLogId);
            && n <= |log|
            && p.payload == Encoded(T.Fold(T.EMPTY, Mutations(log[..n])))
            && p.meta.lastMembership == LatestMembership(log[..n])
  {
    hide Mutations, LatestMembership;
    RunKeeps(log, replicas, steps);
    var c := Exec(log, Start(replicas), steps);
    assert GoodNode(log, c.nodes[i]);
    hide Exec;
    AtIsFold(log[..Covered(c.nodes[i].snapshot.value.meta.lastLogId)]);
  }

  /** The mutation counter counts the mutations applied since the last install. So at equal log
      positions two replicas hand out the same next id exactly when the prefixes they last installed
      hold equally many mutations. */
  lemma {:induction false} CountersAgree(log: seq<Entry>, replicas: nat, steps: seq<Step>, i: nat, j: nat)
    requires Indexed(log)
    requires var c := Exec(log, Start(replicas), steps);
             && i < |c.nodes| && j < |c.nodes|
             && Covered(c.nodes[i].state.lastApplied) == Covered(c.nodes[j].state.lastApplied)
    ensures var c := Exec(log, Start(replicas), steps);
            var a, b := c.nodes[i], c.nodes[j];
            && a.base <= Covered(a.state.lastApplied) <= |log| && b.base <= |log|
            && a.state.nextMutationId == |Mutations(log[a.base..Covered(a.state.lastApplied)])|
            && (a.state.nextMutationId == b.state.nextMutationId
                <==> |Mutations(log[..a.base])| == |Mutations(log[..b.base])|)
  {
    hide Mutations, Faithful;
    RunKeeps(log, replicas, steps);
    var c := Exec(log, Start(replicas), steps);
    var a, b := c.nodes[i], c.nodes[j];
    assert GoodNode(log, a) && GoodNode(log, b);
    hide Exec;
    var n := Covered(a.state.lastApplied);
    FaithfulWithin(log, a.state);
    assert log[..n] == log[..a.base] + log[a.base..n] == log[..b.base] + log[b.base..n];
    MutationsSplit(log[..a.base], log[a.base..n]);
    MutationsSplit(log[..b.base], log[b.base..n]);
  }

  lemma {:induction false} FaithfulWithin(log: seq<Entry>, s: PersistedState)
    requires Faithful(log, s)
    ensures Covered(s.lastApplied) <= |log|
  {
  }

  lemma {:induction false} ResponsesCountOn(s: PersistedState, entries: seq<Entry>, k: nat)
    requires k < |entries|
    ensures Responses(s, entries)[k].mutationId
         == if entries[k].payload.Normal? then s.nextMutationId + |Mutations(entries[..k])| else 0
  {
    var n := |entries| - 1;
    if k < n {
      assert entries[..n][..k] == entries[..k];
      ResponsesCountOn(s, entries[..n], k);
    } else {
      SameViewApplies(s, s, entries[..n]);
    }
  }

  /** The id a client gets for the `k`-th entry of any batch, on any replica in any run: the number of
      mutations that replica applied before it since its last install; 0 for an entry that is no
      mutation. */
  lemma {:induction false} ResponseCounts(log: seq<Entry>, replicas: nat, steps: seq<Step>, i: nat, count: nat, k: nat)
    requires Indexed(log)
    requires var c := Exec(log, Start(replicas), steps);
             i < |c.nodes| && k < count && Covered(c.nodes[i].state.lastApplied) + count <= |log|
    ensures var n := Exec(log, Start(replicas), steps).nodes[i];
            var at := Covered(n.state.lastApplied);
            && n.base <= at
            && Responses(n.state, log[at..at + count])[k].mutationId
               == if log[at + k].payload.Normal? then |Mutations(log[n.base..at + k])| else 0
  {
    hide Mutations, Faithful, FaithfulOption, Responses;
    RunKeeps(log, replicas, steps);
    var n := Exec(log, Start(replicas), steps).nodes[i];
    assert GoodNode(log, n);
    hide Exec;
    var at := Covered(n.state.lastApplied);
    ResponsesCountOn(n.state, log[at..at + count], k);
    assert log[at..at + count][..k] == log[at..at + k];
    assert log[n.base..at + k] == log[n.base..at] + log[at..at + k];
    MutationsSplit(log[n.base..at], log[at..at + k]);
  }

  /** The counters do come apart: one replica applies a mutation, another installs its snapshot. */
  lemma {:induction false} CountersComeApart(e: Entry)
    requires e.payload.Normal? && e.logId.index == 0
    ensures var c := Exec([e], Start(2), [ApplyBatch(0, 1), BuildRead(0), BuildWrite(0), Send(0), InstallState(1, 0)]);
            && c.nodes[0].state.lastApplied == c.nodes[1].state.lastApplied
            && c.nodes[0].state.nextMutationId == 1 && c.nodes[1].state.nextMutationId == 0
  {
    var s := [ApplyBatch(0, 1), BuildRead(0), BuildWrite(0), Send(0), InstallState(1, 0)];
    var c := Sent(e);
    assert s[..4] == [ApplyBatch(0, 1), BuildRead(0), BuildWrite(0), Send(0)];
    assert Exec([e], Start(2), s) == SystemStep([e], c, s[4]);
  }

  // ----- how far the stored snapshot reaches -------------------------------------------------------------

  /** Entries covered by a snapshot row; an absent one covers none. */
  function Reach(p: Option<PersistedSnapshot>): nat {
    if p.None? then 0 else Covered(p.value.meta.lastLogId)
  }

  /** The stored snapshot moves backwards exactly when a build or an install that is still pending
      covers less than the row it is about to overwrite. */
  lemma {:induction false} SnapshotMovesBack(log: seq<Entry>, c: System, step: Step, r: nat)
    requires r < |c.nodes|
    ensures var n := c.nodes[r];
            Reach(SystemStep(log, c, step).nodes[r].snapshot) < Reach(n.snapshot) <==>
              || (step == BuildWrite(r) && n.building.Some? && Reach(n.building) < Reach(n.snapshot))
              || (step == InstallRecord(r) && n.installing.Some? && Reach(n.installing) < Reach(n.snapshot))
  {
    hide ApplyAll;
  }

  /** A step that keeps builds and installs apart: no install while a build is pending or of anything
      older than the state, and no build while an install is pending. */
  predicate Separate(c: System, step: Step) {
    match step
    case BuildRead(r) => r < |c.nodes| ==> c.nodes[r].installing.None?
    case InstallState(r, msg) =>
      r < |c.nodes| && msg < |c.net| ==>
        && c.nodes[r].building.None?
        && Covered(c.nodes[r].state.lastApplied) <= Covered(c.net[msg].meta.lastLogId)
    case _ => true
  }

  /** What separate steps keep: everything pending lies between the stored row and the state. */
  predicate Forward(n: Node) {
    var at := Covered(n.state.lastApplied);
    && Reach(n.snapshot) <= at
    && (n.building.Some? ==> n.installing.None? && Reach(n.snapshot) <= Reach(n.building) <= at)
    && (n.installing.Some? ==> Reach(n.snapshot) <= Reach(n.installing) <= at)
  }

  lemma {:induction false} StepIsForward(log: seq<Entry>, c: System, step: Step, r: nat)
    requires Indexed(log) && Good(log, c) && Separate(c, step) && r < |c.nodes| && Forward(c.nodes[r])
    ensures var n := SystemStep(log, c, step).nodes[r];
            Forward(n) && Reach(c.nodes[r].snapshot) <= Reach(n.snapshot)
  {
    hide ApplyAll, Mutations, Faithful;
    var n := c.nodes[r];
    assert GoodNode(log, n);
    if step.ApplyBatch? && step.r == r && Covered(n.state.lastApplied) + step.count <= |log| {
      SuffixApplies(log, n.state, step.count);
    }
  }

  /** In every run whose steps keep builds and installs apart, no replica's stored snapshot ever covers
      less than it did before. */
  lemma {:induction false} SnapshotAdvances(log: seq<Entry>, replicas: nat, steps: seq<Step>, r: nat, k: nat)
    requires Indexed(log) && r < replicas && k <= |steps|
    requires forall i :: 0 <= i < |steps| ==> Separate(Exec(log, Start(replicas), steps[..i]), steps[i])
    ensures var n := Exec(log, Start(replicas), steps).nodes[r];
            Forward(n) && Reach(Exec(log, Start(replicas), steps[..k]).nodes[r].snapshot) <= Reach(n.snapshot)
    decreases |steps|
  {
    hide SystemStep, Good, Separate, Forward;
    if steps == [] {
      assert steps[..k] == [];
      FreshIsForward(replicas, r);
    } else {
      var n := |steps| - 1;
      var init := steps[..n];
      forall i | 0 <= i < n ensures Separate(Exec(log, Start(replicas), init[..i]), init[i]) {
        assert init[..i] == steps[..i];
      }
      SnapshotAdvances(log, replicas, init, r, if k <= n then k else n);
      RunKeeps(log, replicas, init);
      StepIsForward(log, Exec(log, Start(replicas), init), steps[n], r);
      assert if k <= n then init[..k] == steps[..k] else steps[..k] == steps;
    }
  }

  lemma {:induction false} FreshIsForward(replicas: nat, r: nat)
    requires r < replicas
    ensures Forward(Start(replicas).nodes[r])
  {
  }

  /** Without that care it does: replica 1 reads for a snapshot of its empty state, installs and
      records a snapshot of one entry, and then writes what it had read. */
  lemma {:induction false} SnapshotFallsBack(e: Entry)
    requires e.payload.Normal? && e.logId.index == 0
    ensures var steps := [ApplyBatch(0, 1), BuildRead(0), BuildWrite(0), Send(0),
                          BuildRead(1), InstallState(1, 0), InstallRecord(1), BuildWrite(1)];
            && Reach(Exec([e], Start(2), steps[..7]).nodes[1].snapshot) == 1
            && Reach(Exec([e], Start(2), steps).nodes[1].snapshot) == 0
  {
    var first := [ApplyBatch(0, 1), BuildRead(0), BuildWrite(0), Send(0)];
    var steps := [ApplyBatch(0, 1), BuildRead(0), BuildWrite(0), Send(0),
                  BuildRead(1), InstallState(1, 0), InstallRecord(1), BuildWrite(1)];
    var c4 := Sent(e);
    assert steps[..4] == first;
    assert steps[..5][..4] == steps[..4] && steps[..6][..5] == steps[..5] && steps[..7][..6] == steps[..6];
    var c5 := SystemStep([e], c4, steps[4]);
    assert Exec([e], Start(2), steps[..5]) == c5;
    var c6 := SystemStep([e], c5, steps[5]);
    assert Exec([e], Start(2), steps[..6]) == c6;
    var c7 := SystemStep([e], c6, steps[6]);
    assert Exec([e], Start(2), steps[..7]) == c7;
    assert Exec([e], Start(2), steps) == SystemStep([e], c7, steps[7]);
  }

  lemma {:induction false} Sent(e: Entry) returns (c: System)
    requires e.payload.Normal? && e.logId.index == 0
    ensures c == Exec([e], Start(2), [ApplyBatch(0, 1), BuildRead(0), BuildWrite(0), Send(0)])
    ensures |c.nodes| == 2 && c.nodes[1] == FRESH && c.nodes[0].state == ApplyEntry(INITIAL, e)
    ensures c.net == [Captured(ApplyEntry(INITIAL, e))]
  {
    var s := [ApplyBatch(0, 1), BuildRead(0), BuildWrite(0), Send(0)];
    var c1 := SystemStep([e], Start(2), s[0]);
    assert [e][0..1] == [e] && [e][..0] == [];
    assert ApplyAll(INITIAL, [e]) == ApplyEntry(INITIAL, e);
    assert c1.nodes[0].state == ApplyEntry(INITIAL, e);
    assert s[..1] == [s[0]] && s[..3][..2] == s[..2] && s[..2][..1] == s[..1] && s[..1][..0] == [];
    assert Exec([e], Start(2), s[..1]) == c1;
    var c2 := SystemStep([e], c1, s[1]);
    assert Exec([e], Start(2), s[..2]) == c2;
    var c3 := SystemStep([e], c2, s[2]);
    assert Exec([e], Start(2), s[..3]) == c3;
    c := SystemStep([e], c3, s[3]);
  }

  // ----- steps make progress ---------------------------------------------------------------------------------

  /** Applying the next entries: in every reachable state they take the replica exactly that much further. */
  lemma {:induction false} BatchAdvances(log: seq<Entry>, replicas: nat, steps: seq<Step>, r: nat, count: nat)
    requires Indexed(log)
    requires var c := Exec(log, Start(replicas), steps);
             r < |c.nodes| && Covered(c.nodes[r].state.lastApplied) + count <= |log|
    ensures var c := Exec(log, Start(replicas), steps);
            var n, n' := c.nodes[r], SystemStep(log, c, ApplyBatch(r, count)).nodes[r];
            var to := Covered(n.state.lastApplied) + count;
            && Covered(n'.state.lastApplied) == to
            && n'.state.topology == T.Fold(T.EMPTY, Mutations(log[..to]))
            && n'.state.lastMembership == LatestMembership(log[..to])
            && n'.snapshot == n.snapshot
  {
    hide Mutations, LatestMembership, ApplyAll;
    RunKeeps(log, replicas, steps);
    var n := Exec(log, Start(replicas), steps).nodes[r];
    assert GoodNode(log, n);
    hide Exec;
    SuffixApplies(log, n.state, count);
    AtIsFold(log[..Covered(n.state.lastApplied) + count]);
  }

  /** So from every reachable state any replica can catch up, and then holds the whole log. */
  lemma {:induction false} CanCatchUp(log: seq<Entry>, replicas: nat, steps: seq<Step>, r: nat)
    requires Indexed(log) && r < replicas
    ensures exists step :: Exec(log, Start(replicas), steps + [step]).nodes[r].state.topology
                        == T.Fold(T.EMPTY, Mutations(log))
  {
    var c := Exec(log, Start(replicas), steps);
    RunKeeps(log, replicas, steps);
    assert GoodNode(log, c.nodes[r]);
    FaithfulWithin(log, c.nodes[r].state);
    var step := ApplyBatch(r, |log| - Covered(c.nodes[r].state.lastApplied));
    BatchAdvances(log, replicas, steps, r, step.count);
    hide Mutations, SystemStep;
    assert log[..|log|] == log && (steps + [step])[..|steps|] == steps;
    assert Exec(log, Start(replicas), steps + [step]) == SystemStep(log, c, step);
  }

  /** What the other transactions do to the replica they name: a read captures its state as it is, a write
      stores what was read, an install takes over a decodable snapshot and nothing from another one, a crash
      loses only unfinished work. No step touches another replica. */
  lemma {:induction false} StepDoes(log: seq<Entry>, c: System, step: Step, r: nat)
    requires r < |c.nodes|
    ensures var n, n' := c.nodes[r], SystemStep(log, c, step).nodes[r];
            && (step == BuildRead(r) ==>
                  && n'.state == n.state && n'.snapshot == n.snapshot && n'.building.Some?
                  && n'.building.value.payload == Encoded(n.state.topology)
                  && n'.building.value.meta == SnapshotMeta(n.state.lastApplied, n.state.lastMembership))
            && (step == BuildWrite(r) && n.building.Some? ==> n'.state == n.state && n'.snapshot == n.building)
            && (step == InstallRecord(r) && n.installing.Some? ==> n'.state == n.state && n'.snapshot == n.installing)
            && (step == Crash(r) ==> n'.state == n.state && n'.snapshot == n.snapshot)
            && (!step.Corrupt? && step.r != r ==> n' == n)
    ensures forall msg: nat :: step == InstallState(r, msg) && msg < |c.net| ==>
              var n, n', got := c.nodes[r], SystemStep(log, c, step).nodes[r], c.net[msg];
              && (got.payload.Garbage? ==> n' == n)
              && (got.payload.Encoded? ==>
                    && n'.state.topology == got.payload.topology && n'.state.lastApplied == got.meta.lastLogId
                    && n'.state.lastMembership == got.meta.lastMembership && n'.installing == Some(got))
    ensures step == Send(r) && c.nodes[r].snapshot.Some? ==>
              SystemStep(log, c, step).net == c.net + [c.nodes[r].snapshot.value]
  {
    hide ApplyAll;
  }
}
