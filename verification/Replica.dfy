/**
 One replica's state machine: two rows in a database, the live state and the current snapshot,
 rewritten one transaction at a time.
 */
module Replica {
  import opened Common
  import T = Topology

  datatype LogId = LogId(term: u64, leader: u64, index: nat)

  datatype Membership = Membership(configs: seq<set<u64>>, nodes: map<u64, string>)

  /** A membership with the log id of the entry that set it. */
  datatype StoredMembership = StoredMembership(logId: Option<LogId>, membership: Membership)

  datatype EntryPayload = Blank | Normal(mutation: T.Mutation) | Members(membership: Membership)

  datatype Entry = Entry(logId: LogId, payload: EntryPayload)

  datatype PersistedState = PersistedState(
    topology: T.Snapshot, lastApplied: Option<LogId>, lastMembership: StoredMembership, nextMutationId: nat)

  datatype ClientWriteResponse = ClientWriteResponse(mutationId: nat)

  datatype StorageError = WriteFailed | BadPayload

  /** Snapshot bytes: the encoding of a topology, or bytes that do not decode. */
  datatype Payload = Encoded(topology: T.Snapshot) | Garbage(bytes: seq<byte>)

  datatype SnapshotMeta = SnapshotMeta(lastLogId: Option<LogId>, lastMembership: StoredMembership)

  datatype PersistedSnapshot = PersistedSnapshot(meta: SnapshotMeta, payload: Payload)

  const INITIAL := PersistedState(T.EMPTY, None, StoredMembership(None, Membership([], map[])), 0)

  // ----- applying entries -----------------------------------------------------------------------

  function ApplyEntry(s: PersistedState, e: Entry): PersistedState {
    var s1 := s.(lastApplied := Some(e.logId));
    match e.payload
    case Blank => s1
    case Normal(m) => s1.(topology := T.Apply(s.topology, m), nextMutationId := s.nextMutationId + 1)
    case Members(m) => s1.(lastMembership := StoredMembership(Some(e.logId), m))
  }

  function Response(s: PersistedState, e: Entry): ClientWriteResponse {
    ClientWriteResponse(if e.payload.Normal? then s.nextMutationId else 0)
  }

  function ApplyAll(s: PersistedState, entries: seq<Entry>): PersistedState {
    if entries == [] then s else ApplyEntry(ApplyAll(s, entries[..|entries| - 1]), entries[|entries| - 1])
  }

  function Responses(s: PersistedState, entries: seq<Entry>): (rs: seq<ClientWriteResponse>)
    ensures |rs| == |entries|
  {
    if entries == [] then []
    else
      var n := |entries| - 1;
      Responses(s, entries[..n]) + [Response(ApplyAll(s, entries[..n]), entries[n])]
  }

  /** Cutting a run of entries into batches changes neither the state nor the answers. */
  lemma {:induction false} BatchSplit(s: PersistedState, a: seq<Entry>, b: seq<Entry>)
    ensures ApplyAll(s, a + b) == ApplyAll(ApplyAll(s, a), b)
    ensures Responses(s, a + b) == Responses(s, a) + Responses(ApplyAll(s, a), b)
  {
    hide ApplyEntry, Response;
    if b == [] {
      assert a + b == a;
    } else {
      var n := |b| - 1;
      assert (a + b)[..|a| + n] == a + b[..n];
      BatchSplit(s, a, b[..n]);
    }
  }

  // ----- snapshots ----------------------------------------------------------------------------------

  /** What the builder reads from the live state. */
  function Captured(s: PersistedState): PersistedSnapshot {
    PersistedSnapshot(SnapshotMeta(s.lastApplied, s.lastMembership), Encoded(s.topology))
  }

  /** The live state an installed snapshot leaves; the mutation counter starts again. */
  function Installed(snap: PersistedSnapshot): PersistedState
    requires snap.payload.Encoded?
  {
    PersistedState(snap.payload.topology, snap.meta.lastLogId, snap.meta.lastMembership, 0)
  }

  // ----- the object --------------------------------------------------------------------------------

  /** The two rows. `commits` says which of an operation's write transactions go through. */
  class StateMachine {
    var state: PersistedState
    var snapshot: Option<PersistedSnapshot>

    constructor ()
      ensures state == INITIAL && snapshot == None
    {
      state, snapshot := INITIAL, None;
    }

    method Apply(entries: seq<Entry>, commits: bool) returns (r: Result<seq<ClientWriteResponse>, StorageError>)
      modifies this
      ensures snapshot == old(snapshot)
      ensures commits ==> state == ApplyAll(old(state), entries) && r == Ok(Responses(old(state), entries))
      ensures !commits ==> state == old(state) && r == Err(WriteFailed)
    {
      var s := state;
      var responses := [];
      var i := 0;
      while i < |entries|
        invariant 0 <= i <= |entries|
        invariant s == ApplyAll(state, entries[..i]) && responses == Responses(state, entries[..i])
      {
        assert entries[..i + 1][..i] == entries[..i];
        var entry := entries[i];
        s := s.(lastApplied := Some(entry.logId));
        match entry.payload {
          case Blank =>
            responses := responses + [ClientWriteResponse(0)];
          case Normal(mutation) =>
            var id := s.nextMutationId;
            s := s.(nextMutationId := id + 1);
            s := s.(topology := T.Apply(s.topology, mutation));
            responses := responses + [ClientWriteResponse(id)];
          case Members(membership) =>
            s := s.(lastMembership := StoredMembership(Some(entry.logId), membership));
            responses := responses + [ClientWriteResponse(0)];
        }
        i := i + 1;
      }
      assert entries[..i] == entries;
      if !commits {
        return Err(WriteFailed);
      }
      state := s;
      r := Ok(responses);
    }

    /** Two transactions: the live state, then the snapshot row. */
    method InstallSnapshot(snap: PersistedSnapshot, commits: nat) returns (r: Result<(), StorageError>)
      modifies this
      ensures state == if snap.payload.Encoded? && commits > 0 then Installed(snap) else old(state)
      ensures snapshot == if snap.payload.Encoded? && commits > 1 then Some(snap) else old(snapshot)
      ensures r.Ok? <==> snap.payload.Encoded? && commits > 1
    {
      if snap.payload.Garbage? {
        return Err(BadPayload);
      }
      if commits == 0 {
        return Err(WriteFailed);
      }
      state := PersistedState(snap.payload.topology, snap.meta.lastLogId, snap.meta.lastMembership, 0);
      if commits == 1 {
        return Err(WriteFailed);
      }
      snapshot := Some(snap);
      r := Ok(());
    }

    method GetCurrentSnapshot() returns (r: Option<PersistedSnapshot>)
      ensures r == snapshot
    {
      r := snapshot;
    }

    /** The first half of building: read under the lock, then let go of it. */
    method BuildRead() returns (snap: PersistedSnapshot)
      ensures snap == Captured(state)
    {
      snap := PersistedSnapshot(SnapshotMeta(state.lastApplied, state.lastMembership), Encoded(state.topology));
    }

    /** The second half: record what was read, whatever happened in between. */
    method BuildWrite(snap: PersistedSnapshot, commits: bool) returns (r: Result<PersistedSnapshot, StorageError>)
      modifies this
      ensures state == old(state) && snapshot == if commits then Some(snap) else old(snapshot)
      ensures r == if commits then Ok(snap) else Err(WriteFailed)
    {
      if !commits {
        return Err(WriteFailed);
      }
      snapshot := Some(snap);
      r := Ok(snap);
    }
  }
}
