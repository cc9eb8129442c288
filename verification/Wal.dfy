/**
 The single-node session store: a write-ahead log of mutations in an ordered table, and the
 topology it adds up to, kept in memory.
 */
module Wal {
  import opened Common
  import opened Topology

  datatype StoreError = Persistence

  /** A stored row: a mutation as JSON, or bytes that do not parse. */
  datatype Row = Json(mutation: Mutation) | Unreadable

  /** The table, in key order. */
  type Table = seq<(nat, Row)>

  /** Insert into the ordered table, overwriting an equal key. */
  function Put(rows: Table, key: nat, row: Row): Table {
    if rows == [] || key < rows[0].0 then [(key, row)] + rows
    else if key == rows[0].0 then [(key, row)] + rows[1..]
    else [rows[0]] + Put(rows[1..], key, row)
  }

  /** The keys are exactly `from`, `from + 1`, and so on. */
  predicate Dense(rows: Table, from: nat) {
    forall i :: 0 <= i < |rows| ==> rows[i].0 == from + i
  }

  predicate Readable(rows: Table) {
    forall i :: 0 <= i < |rows| ==> rows[i].1.Json?
  }

  lemma {:induction false} PutAt(rows: Table, from: nat, key: nat, row: Row)
    requires Dense(rows, from) && from <= key <= from + |rows|
    ensures Put(rows, key, row) == if key < from + |rows| then rows[key - from := (key, row)] else rows + [(key, row)]
  {
    if rows == [] || key == rows[0].0 {
    } else {
      PutAt(rows[1..], from + 1, key, row);
    }
  }

  function Stored(rows: Table): (ms: seq<Mutation>)
    requires Readable(rows)
    ensures |ms| == |rows| && forall i :: 0 <= i < |rows| ==> ms[i] == rows[i].1.mutation
  {
    seq(|rows|, i requires 0 <= i < |rows| => rows[i].1.mutation)
  }

  /** Replay the table in key order; the next id counts the rows. */
  method Replay(rows: Table) returns (r: Result<(Snapshot, nat), StoreError>)
    ensures r == Replayed(rows)
  {
    hide Fold, Apply;
    ReplayNone();
    var snapshot, nextId := EMPTY, 0;
    while nextId < |rows|
      invariant 0 <= nextId <= |rows| && Readable(rows[..nextId])
      invariant snapshot == Fold(EMPTY, Stored(rows[..nextId]))
    {
      match rows[nextId].1
      case Unreadable =>
        return Err(Persistence);
      case Json(mutation) =>
        ReplayOne(rows, nextId);
        snapshot := Apply(snapshot, mutation);
        nextId := nextId + 1;
    }
    assert rows[..nextId] == rows;
    r := Ok((snapshot, nextId));
  }

  lemma {:induction false} ReplayNone()
    ensures Fold(EMPTY, Stored([])) == EMPTY
  {
  }

  lemma {:induction false} ReplayOne(rows: Table, n: nat)
    requires n < |rows| && Readable(rows[..n]) && rows[n].1.Json?
    ensures Readable(rows[..n + 1])
    ensures Fold(EMPTY, Stored(rows[..n + 1])) == Apply(Fold(EMPTY, Stored(rows[..n])), rows[n].1.mutation)
  {
    hide Fold, Apply;
    assert rows[..n + 1] == rows[..n] + [rows[n]];
    assert Stored(rows[..n + 1]) == Stored(rows[..n]) + [rows[n].1.mutation];
    FoldSnoc(EMPTY, Stored(rows[..n]), rows[n].1.mutation);
  }

  function Replayed(rows: Table): Result<(Snapshot, nat), StoreError> {
    if Readable(rows) then Ok((Fold(EMPTY, Stored(rows)), |rows|)) else Err(Persistence)
  }

  /** How the transaction of one mutation ends: durable, undone, or durable although the commit
      reported a failure. */
  datatype Commit = Done | Undone | Unreported

  class RaftEngine {
    var rows: Table
    var snapshot: Snapshot
    var nextId: nat

    ghost function State(): World
      reads this
    {
      World(rows, Some(Engine(snapshot, nextId)))
    }

    constructor (rows: Table, replayed: (Snapshot, nat))
      requires Replayed(rows) == Ok(replayed)
      ensures State() == World(rows, Some(Engine(replayed.0, replayed.1)))
    {
      this.rows, this.snapshot, this.nextId := rows, replayed.0, replayed.1;
    }

    method ApplyMutation(mutation: Mutation, commit: Commit) returns (r: Result<nat, StoreError>)
      modifies this
      ensures State() == AfterApply(old(State()), mutation, commit)
      ensures r == if commit.Done? then Ok(old(nextId)) else Err(Persistence)
    {
      var id := nextId;
      if commit != Undone {
        rows := Put(rows, id, Json(mutation));
      }
      if commit != Done {
        return Err(Persistence);
      }
      snapshot := Apply(snapshot, mutation);
      nextId := id + 1;
      r := Ok(id);
    }
  }

  /** Open the file: fails exactly when some row cannot be read back. */
  method OpenEngine(rows: Table) returns (r: Result<RaftEngine, StoreError>)
    ensures r.Ok? <==> Readable(rows)
    ensures r.Ok? ==> fresh(r.value) && r.value.State() == World(rows, Some(Engine(Fold(EMPTY, Stored(rows)), |rows|)))
  {
    var replayed := Replay(rows);
    match replayed
    case Err(e) =>
      r := Err(e);
    case Ok(state) =>
      var engine := new RaftEngine(rows, state);
      r := Ok(engine);
  }

  // ----- runs ---------------------------------------------------------------------------------------

  datatype Engine = Engine(snapshot: Snapshot, nextId: nat)

  /** The file, and the process that has it open, if any. */
  datatype World = World(rows: Table, engine: Option<Engine>)

  datatype Step = ApplyStep(mutation: Mutation, commit: Commit) | CrashIn(mutation: Mutation,
                            durable: bool) | Crash | Open

  function AfterApply(w: World, m: Mutation, commit: Commit): World {
    if w.engine.None? then w
    else
      var e := w.engine.value;
      match commit
      case Done => World(Put(w.rows, e.nextId, Json(m)), Some(Engine(Apply(e.snapshot, m), e.nextId + 1)))
      case Undone => w
      case Unreported => w.(rows := Put(w.rows, e.nextId, Json(m)))
  }

  function Next(w: World, step: Step): World {
    match step
    case ApplyStep(m, commit) => AfterApply(w, m, commit)
    case CrashIn(m, durable) => AfterApply(w, m, if durable then Unreported else Undone).(engine := None)
    case Crash => w.(engine := None)
    case Open =>
      if w.engine.Some? then w
      else
        var r := Replayed(w.rows);
        if r.Ok? then w.(engine := Some(Engine(r.value.0, r.value.1))) else w
  }

  /** The mutation acknowledged by a step, under its id. */
  function Acknowledged(w: World, step: Step): map<nat, Mutation> {
    if step.ApplyStep? && step.commit.Done? && w.engine.Some?
    then map[w.engine.value.nextId := step.mutation]
    else map[]
  }

  /** The world after a run from an empty file, and everything acknowledged on the way. */
  function Run(steps: seq<Step>): (World, map<nat, Mutation>) {
    if steps == [] then (World([], None), map[])
    else
      var r, step := Run(steps[..|steps| - 1]), steps[|steps| - 1];
      (Next(r.0, step), r.1 + Acknowledged(r.0, step))
  }

  // ----- invariant ------------------------------------------------------------------------------------

  /** The live topology is the fold of the first `nextId` rows; at most one row is beyond them. */
  ghost predicate InStep(rows: Table, e: Engine)
    requires Readable(rows)
  {
    && e.nextId <= |rows| <= e.nextId + 1
    && e.snapshot == Fold(EMPTY, Stored(rows)[..e.nextId])
  }

  ghost predicate Sound(w: World) {
    && Dense(w.rows, 0) && Readable(w.rows)
    && (w.engine.Some? ==> InStep(w.rows, w.engine.value))
  }

  /** Acknowledged mutations are in the table under their ids, below anything still in flight. */
  ghost predicate Kept(w: World, acked: map<nat, Mutation>)
    requires Sound(w)
  {
    forall k :: k in acked ==>
      && k < |w.rows| && Stored(w.rows)[k] == acked[k]
      && (w.engine.Some? ==> k < w.engine.value.nextId)
  }

  lemma {:induction false} PutKeeps(rows: Table, e: Engine, m: Mutation)
    requires Dense(rows, 0) && Readable(rows) && InStep(rows, e)
    ensures var rows' := Put(rows, e.nextId, Json(m));
            && Dense(rows', 0) && Readable(rows') && InStep(rows', e)
            && |rows'| == e.nextId + 1 && Stored(rows') == Stored(rows)[..e.nextId] + [m]
  {
    PutAt(rows, 0, e.nextId, Json(m));
    var rows' := Put(rows, e.nextId, Json(m));
    assert Stored(rows') == Stored(rows)[..e.nextId] + [m];
    assert Stored(rows')[..e.nextId] == Stored(rows)[..e.nextId];
  }

  lemma {:induction false} ApplyKeeps(w: World, m: Mutation, commit: Commit)
    requires Sound(w)
    ensures Sound(AfterApply(w, m, commit))
    ensures w.engine.Some? && commit != Undone ==>
              Stored(AfterApply(w, m, commit).rows) == Stored(w.rows)[..w.engine.value.nextId] + [m]
  {
    hide Put, Fold, Apply;
    if w.engine.Some? && commit != Undone {
      var e := w.engine.value;
      PutKeeps(w.rows, e, m);
      FoldSnoc(EMPTY, Stored(w.rows)[..e.nextId], m);
      var stored := Stored(w.rows)[..e.nextId] + [m];
      assert stored[..e.nextId + 1] == stored;
    }
  }

  lemma {:induction false} NextKeeps(w: World, step: Step)
    requires Sound(w)
    ensures Sound(Next(w, step))
  {
    hide AfterApply;
    match step
    case ApplyStep(m, commit) => ApplyKeeps(w, m, commit);
    case CrashIn(m, durable) => ApplyKeeps(w, m, if durable then Unreported else Undone);
    case Crash =>
    case Open => assert Stored(w.rows)[..|w.rows|] == Stored(w.rows);
  }

  lemma {:induction false} NextRemembers(w: World, step: Step, acked: map<nat, Mutation>)
    requires Sound(w) && Kept(w, acked)
    ensures Sound(Next(w, step)) && Kept(Next(w, step), acked + Acknowledged(w, step))
  {
    NextKeeps(w, step);
    match step
    case ApplyStep(m, commit) => ApplyKeeps(w, m, commit);
    case CrashIn(m, durable) => ApplyKeeps(w, m, if durable then Unreported else Undone);
    case Crash =>
    case Open =>
  }

  // ----- main results ----------------------------------------------------------------------------------

  /** Every run: the keys are exactly 0..n-1, the live topology is the fold of the stored rows but
      for at most one in flight, and the k-th row holds what was acknowledged under id k. */
  lemma {:induction false} RunIsSound(steps: seq<Step>)
    ensures var r := Run(steps); Sound(r.0) && Kept(r.0, r.1)
  {
    if steps == [] {
    } else {
      var r, step := Run(steps[..|steps| - 1]), steps[|steps| - 1];
      RunIsSound(steps[..|steps| - 1]);
      NextRemembers(r.0, step, r.1);
    }
  }

  /** Crash at any point of any run and open again: opening succeeds and gives the topology from
      before, or that with the one mutation that was in flight. */
  lemma {:induction false} ReopenRestores(steps: seq<Step>, crash: Step)
    requires crash.Crash? || crash.CrashIn?
    requires Run(steps).0.engine.Some?
    ensures var w := Run(steps).0;
            var e := w.engine.value;
            var w' := Next(Next(w, crash), Open);
            && w'.engine.Some? && w'.engine.value.nextId == |w'.rows| && e.nextId <= |w'.rows| <= e.nextId + 1
            && (|w'.rows| == e.nextId ==> w'.engine.value.snapshot == e.snapshot)
            && (|w'.rows| != e.nextId ==> w'.rows[e.nextId] == (e.nextId, Json(InFlight(w, crash))))
            && (|w'.rows| != e.nextId ==> w'.engine.value.snapshot == Apply(e.snapshot, InFlight(w, crash)))
  {
    RunIsSound(steps);
    hide Run, Put;
    var w := Run(steps).0;
    var e, w1 := w.engine.value, Next(w, crash);
    NextKeeps(w, crash);
    CrashLeaves(w, crash);
    var stored := Stored(w1.rows);
    if |w1.rows| == e.nextId {
      assert stored == stored[..e.nextId];
    } else {
      assert stored == stored[..e.nextId] + [InFlight(w, crash)];
      FoldSnoc(EMPTY, stored[..e.nextId], InFlight(w, crash));
    }
  }

  /** The mutation beyond the live ones: the one being applied if it became durable, or else one
      whose commit was durable without being reported. */
  function InFlight(w: World, crash: Step): Mutation {
    if crash.CrashIn? && crash.durable then crash.mutation
    else if w.engine.Some? && w.engine.value.nextId < |w.rows| && w.rows[w.engine.value.nextId].1.Json?
    then w.rows[w.engine.value.nextId].1.mutation
    else RemoveLink(0)
  }

  lemma {:induction false} CrashLeaves(w: World, crash: Step)
    requires Sound(w) && w.engine.Some? && (crash.Crash? || crash.CrashIn?)
    ensures var rows, n := Next(w, crash).rows, w.engine.value.nextId;
            && Dense(rows, 0) && Readable(rows) && n <= |rows| <= n + 1
            && Stored(rows)[..n] == Stored(w.rows)[..n]
            && (n < |rows| ==> Stored(rows)[n] == InFlight(w, crash))
  {
    if crash.CrashIn? {
      ApplyKeeps(w, crash.mutation, if crash.durable then Unreported else Undone);
      PutKeeps(w.rows, w.engine.value, crash.mutation);
    }
  }

  /** What a mutation leaves behind: unless the commit is undone, its row under the next id, in place of one
      that was never reported or after all others; the topology in memory and the next id move on exactly when
      the commit is reported done. */
  lemma {:induction false} CommitDecides(w: World, m: Mutation, commit: Commit)
    requires Sound(w) && w.engine.Some?
    ensures var w', e, n := AfterApply(w, m, commit), w.engine.value, w.engine.value.nextId;
            && (commit.Undone? ==> w' == w)
            && (!commit.Undone? ==>
                  && |w'.rows| == n + 1 && w'.rows[n] == (n, Json(m))
                  && forall k :: 0 <= k < n ==> w'.rows[k] == w.rows[k])
            && w'.engine == Some(if commit.Done? then Engine(Apply(e.snapshot, m), n + 1) else e)
  {
    hide Fold, Apply, Stored;
    PutAt(w.rows, 0, w.engine.value.nextId, Json(m));
  }
}
