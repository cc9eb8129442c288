# SonicBrew: a model of its state machines, codecs and delay lines, with proofs

SonicBrew is a networked audio engine written in Rust. This project models six of its components in
Dafny and proves what they promise, for all inputs, all interleavings and all runs. Code that works
by updating state is modelled as classes with loops and is proved against specification functions;
the theorems are about those functions.

| component | modules |
|---|---|
| RTP receive path: reorder buffer, drain, receive loop, RTP and PCM codecs, send clock | `Jitter`, `Receiver`, `Rtp`, `Layout`, `Pcm`, `Bytes`, `Transport` |
| Replicated session state and the single-node write-ahead log | `Topology`, `Replica`, `Cluster`, `Wal` |
| Live reload of the running graph, and the gateway bridge | `BuildGraph`, `Engine`, `LiveReload` |
| Graph controller, presets, and the server's boots and restarts | `Controller`, `Preset`, `Server` |
| PulseAudio tagstructs, control frames, requests and the handshake | `TagStruct`, `TagCodec`, `Daemon` |
| Delay-line effects | `Ring`, `Blocks`, `Delay`, `Flanger`, `Reverb` |

`dafny verify dfyconfig.toml` checks everything. `Common` holds the shared value types.

## How things are modelled

- **Wrap-around.** Sequence numbers are 16-bit (`u16`), timestamps 32-bit, node ids 64-bit with the
  saturating addition written out. The reorder buffer is compared with an ideal sorted waiting list
  over unbounded indices.
- **Concurrency.** Replicas and the live-reload threads are step machines; a theorem about `Run` or
  `Exec` speaks about every interleaving of the steps, including crashes between two transactions.
- **The outside world.** Committed log, store and socket outcomes, datagrams, deadlines and the LFO's
  sine are parameters. The sine is any function into [-1, 1].
- **Numbers.** Samples are exact reals.
- **`TopologySnapshot::apply`** belongs to another crate and is modelled from what this repository says
  about it: `RemoveNode` drops incident edges, removals of absent things do nothing, `AddNode` on a
  known id replaces the node, `AddLink` appends, `RemoveLink` is positional.
- **Text** in tagstructs is a byte sequence with the UTF-8 validity rule of section 4 of RFC 3629.

## Where the code does something else than its documentation says

The model follows the code. Each point has a lemma with the exact condition.

- The first node created in an empty graph gets id 1; the module documentation says 0
  (`NewIdIsFresh`; `crates/control-api/src/lib.rs:29-30` against lines 907-915).
- When the id 2^64 - 1 is in use, a new node takes that id over and inherits its kind and params
  (`NewIdIsFresh`, `StaleAtTheTop`).
- The comment on the PCM codec promises an error under one step. That holds for a sample exactly when
  its magnitude and its place between two codes add up to less than 1.5, and for all samples below a
  level exactly when that level is at most one step above half scale; the general bound is 1.5 steps
  (`UnderOneStep`, `UnderOneStepBelow`, `SampleError`).
- The receive loop drains the reorder buffer after every packet, so it never reorders: an arrival
  behind the last emitted one is lost, and no frame ever waits for a later cycle (`LatePacketIsLost`,
  `KeptAll`).
- Mutation ids start again at 0 when a snapshot is installed, so two replicas in the same state may
  hand out different ids (`CountersAgree`, `CountersComeApart`).
- A snapshot that was read before an install and is written after it replaces a newer snapshot by an
  older one (`SnapshotFallsBack`, `SnapshotMovesBack`, `SnapshotAdvances`).
- The flanger's extra ring slot keeps the interpolation from aliasing exactly when the constructor's
  arguments leave one sample between the bottom of the sweep and the cursor, which is guaranteed from
  1000 Hz on (`TrueExactlyWhen`, `SweepIsTrueExactlyWhen`, `SlowClockIsShort`).
- The delay-line effects promise that `process` never panics. It does exactly when a block has more
  channels than the node was built for and at least one sample of each (the three `Process` methods;
  `crates/audio-engine/src/nodes/delay.rs:5-6`, `flanger.rs:7-8`, `reverb.rs:6-8`).
- A build that fails after it made its bridge nodes has already replaced the gateway's rings
  (`ConnectedExactlyWhen`, `FailedBuildDisconnects`).
- A tagstruct string with an embedded NUL is written whole and read back cut (`EmbeddedNul`,
  `RoundTripOne`).
- `docs/RUNBOOK.md:53` says the saved preset holds the labels. The autosave thread and the import at
  boot use controllers of their own, and labels belong to a controller, so a restart brings back kinds,
  params, nodes and links but no label; and ports come back as mono (`RestartRestores`, `LabelIsLost`).
- Import checks neither ports nor kinds, so it can leave links and params the API would have refused
  (`ImportIsWellFormed`).

## Model

| member | source | states |
|---|---|---|
| `Jitter.ForwardDistance` | crates/net-rtp-aes67/src/jitter.rs:22-24 | the result is in the signed 16-bit window and leads from one sequence number to the other modulo 65536 |
| `Jitter.DistanceRecovers` | crates/net-rtp-aes67/src/jitter.rs:22-24 | an unbounded difference inside the window is recovered exactly from the two wrapped numbers, across any number of wraps |
| `Jitter.JitterBuffer.constructor` | crates/net-rtp-aes67/src/jitter.rs:54-60 | no baseline, nothing buffered |
| `Jitter.JitterBuffer.Push` | crates/net-rtp-aes67/src/jitter.rs:86-107 | state and outcome after a push: late or duplicate, refused at capacity, or accepted; the first push sets the baseline |
| `Jitter.JitterBuffer.Pop` | crates/net-rtp-aes67/src/jitter.rs:112-117 | hands out exactly the packet at the baseline and moves the baseline on with wrap-around |
| `Jitter.JitterBuffer.SkipGap` | crates/net-rtp-aes67/src/jitter.rs:122-145 | the unordered search moves the baseline to the buffered key with the smallest positive forward distance and returns that distance, or does nothing |
| `Jitter.PushDecides` | crates/net-rtp-aes67/src/jitter.rs:86-107 | in plain modular arithmetic: late or duplicate exactly when behind the baseline in the 16-bit cycle or already buffered, refused exactly at capacity, stored otherwise; and what the push changes |
| `Jitter.SkipDecides` | crates/net-rtp-aes67/src/jitter.rs:122-145 | a skip moves to the first buffered number ahead and counts the places in between, and does nothing exactly when the baseline is buffered or nothing is ahead |
| `Jitter.NearestUnique` | crates/net-rtp-aes67/src/jitter.rs:129-136 | that key does not depend on the order the hash map is searched in |
| `Jitter.FirstIsNearest` | crates/net-rtp-aes67/src/jitter.rs:122-145 | the first waiting item of the ideal list is the only key the search can return |
| `Jitter.PushRefines` | crates/net-rtp-aes67/src/jitter.rs:86-107 | a push of an index inside the window has the same outcome on the 16-bit and the ideal buffer and keeps them related |
| `Jitter.PopRefines` | crates/net-rtp-aes67/src/jitter.rs:112-117 | a pop gives the same packet on both |
| `Jitter.SkipRefines` | crates/net-rtp-aes67/src/jitter.rs:122-145 | a skip counts the same gap on both |
| `Jitter.StepRefines` | crates/net-rtp-aes67/src/jitter.rs:86-145 | every single operation is simulated by the ideal buffer |
| `Jitter.RunRefines` | crates/net-rtp-aes67/src/jitter.rs:86-145 | for every run whose arrivals are within -32768..32767 of the baseline, the 16-bit buffer gives exactly the outputs of the buffer over unbounded integers |
| `Jitter.IdealIsOrderly` | crates/net-rtp-aes67/src/jitter.rs:78-145 | over every run: what was emitted and what waits are strictly increasing with the baseline between them, and together a rearrangement of what was accepted |
| `Jitter.ArbitraryRun` | crates/net-rtp-aes67/src/jitter.rs:42-145 | with no assumption on the arrivals: every run is the wrapped image of such an orderly run, the size stays within capacity, every key stays 0..32767 ahead of the baseline |
| `Receiver.DrainRun` | crates/net-rtp-aes67/src/worker.rs:51-54 | pops and decodes the contiguous run, in order, and stops at a gap or when empty |
| `Receiver.DrainJitter` | crates/net-rtp-aes67/src/worker.rs:43-66 | from every reachable buffer state: ends, leaves the buffer empty with the baseline past the last packet, one decoded frame per packet in increasing forward distance, and the no-progress guard never fires |
| `Receiver.PushOntoEmpty` | crates/net-rtp-aes67/src/worker.rs:107-108 | on an empty buffer a packet is buffered alone if it is not behind the baseline, and ignored otherwise |
| `Receiver.RecvLoop.constructor` | crates/net-rtp-aes67/src/worker.rs:86-95 | a fresh loop with an empty buffer of capacity 64 |
| `Receiver.RecvLoop.Packet` | crates/net-rtp-aes67/src/worker.rs:106-122 | one cycle: the buffer is empty again, at most one frame was offered, and it was queued if the ring had room, dropped if not |
| `Receiver.RecvLoop.Run` | crates/net-rtp-aes67/src/worker.rs:95-130 | the loop over any events (datagrams, receive errors, the graph taking frames) refines the event-by-event specification |
| `Receiver.RunIsAccounted` | crates/net-rtp-aes67/src/worker.rs:92-130 | over every run the frames offered are exactly those of the first arrival and of every later one not behind the last emitted; each was taken, is queued, or was dropped at a full ring, in order |
| `Receiver.FollowsMeans` | crates/net-rtp-aes67/src/worker.rs:107-108 | emitted or late is decided by the distance modulo 65536: below 32768 is ahead |
| `Receiver.LossNeedsFullRing` | crates/net-rtp-aes67/src/worker.rs:109-121 | at every point of every run the ring is within capacity; the next event drops a frame exactly when it brings one and the ring is full; the graph gets one exactly when it asks and the ring is not empty |
| `Receiver.NothingDroppedExactlyWhen` | crates/net-rtp-aes67/src/worker.rs:92-130 | nothing is dropped if and only if there was room at every emitted arrival, and exactly then the frames taken and queued are all the emitted ones in order |
| `Receiver.KeptAll` | crates/net-rtp-aes67/src/worker.rs:106-108 | nothing is lost if and only if every arrival is ahead of the one just before it |
| `Receiver.LatePacketIsLost` | crates/net-rtp-aes67/src/worker.rs:70-84 | of the arrivals 0, 2, 1 the last is lost although the buffer has room |
| `Rtp.HeaderRoundTrip` | crates/net-rtp-aes67/src/codec.rs:73-126 | parsing an encoded header gives it back, whatever bytes follow |
| `Rtp.HeaderReencode` | crates/net-rtp-aes67/src/codec.rs:73-126 | encoding a parsed header gives the first twelve bytes back |
| `Rtp.HeaderLayout` | crates/net-rtp-aes67/src/codec.rs:113-126 | which bits and bytes of the header hold which field, numbers most significant byte first |
| `Rtp.RefusedExactlyWhen` | crates/net-rtp-aes67/src/codec.rs:73-172 | on arbitrary bytes: which error for too short, for another version, for a CSRC list that is not there; everything else parses with the bytes after the list as payload |
| `Rtp.PacketRoundTrip` | crates/net-rtp-aes67/src/codec.rs:152-172 | a packet survives encode and parse if and only if its header fields fit and the CSRC count is 0 |
| `Bytes.DecodeEncode` | crates/net-rtp-aes67/src/codec.rs:122-124 | big-endian decoding undoes encoding for every width |
| `Bytes.EncodeDecode` | crates/net-rtp-aes67/src/codec.rs:92-94 | big-endian encoding undoes decoding |
| `Bytes.BigEndianAt` | crates/net-rtp-aes67/src/codec.rs:122-124 | byte i of n is the digit of weight 256^(n - 1 - i) |
| `Bytes.WordBytes` | crates/net-rtp-aes67/src/codec.rs:122-124 | the bytes of 16- and 32-bit words, most significant first |
| `Layout.EncodePcm` | crates/net-rtp-aes67/src/codec.rs:287-307 | the nested loops write the packed samples of the interleaved stream, channel by channel within each frame |
| `Layout.DecodePcm` | crates/net-rtp-aes67/src/codec.rs:311-333 | the nested loops fill every planar position with the sample that belongs there; trailing bytes are ignored |
| `Layout.LayoutRoundTrip` | crates/net-rtp-aes67/src/codec.rs:287-333 | interleaving and de-interleaving cancel for any channel and sample count, dropping what does not fill a frame |
| `Layout.InterleavedAt` | crates/net-rtp-aes67/src/codec.rs:287-307 | frame i of channel c is sample c * n + i in memory and i * channels + c on the wire |
| `Layout.DeinterleavedAt` | crates/net-rtp-aes67/src/codec.rs:311-333 | and back |
| `Pcm.UnpackPack` | crates/net-rtp-aes67/src/codec.rs:260-283 | byte packing and sign extension restore every 16- or 24-bit integer |
| `Pcm.PackUnpack` | crates/net-rtp-aes67/src/codec.rs:260-283 | and every byte group comes from exactly one in-range integer |
| `Pcm.PackBytes` | crates/net-rtp-aes67/src/codec.rs:260-283 | two's complement, most significant byte first, for both widths |
| `Pcm.QuantizeIsNearest` | crates/net-rtp-aes67/src/codec.rs:231-268 | the code of a sample is its clamp times 32767 or 8388607, rounded to the nearest integer with halves away from zero |
| `Pcm.SampleError` | crates/net-rtp-aes67/src/codec.rs:225-283 | every sample comes back within 1.5 steps of its clamp |
| `Pcm.BackWithin` | crates/net-rtp-aes67/src/codec.rs:225-283 | a code stands for its fraction of 32768 or 8388608, and a sample in [-1, 1] comes back within 1.5 of those fractions |
| `Pcm.UnderOneStep` | crates/net-rtp-aes67/src/codec.rs:225-229 | a sample's error is under one step if and only if its clamped magnitude and its fraction between two codes add up to less than 1.5 |
| `Pcm.UnderOneStepBelow` | crates/net-rtp-aes67/src/codec.rs:225-229 | all samples strictly inside a level are under one step if and only if the level is at most one step above half scale, and the sample at that level is off by exactly one step |
| `Pcm.WholeStepSample` | crates/net-rtp-aes67/src/codec.rs:225-229 | for every other code, a sample that is off by exactly one step |
| `Pcm.Transcode` | crates/net-rtp-aes67/src/codec.rs:231-283 | decoding and encoding a code again keeps it if and only if it is within half scale, else it moves one step towards zero |
| `Pcm.Encode` | crates/net-rtp-aes67/src/codec.rs:241-268 | L16 and L24 encoding of planar samples |
| `Pcm.Decode` | crates/net-rtp-aes67/src/codec.rs:251-283 | L16 and L24 decoding into planar samples |
| `Pcm.EncodedAt` | crates/net-rtp-aes67/src/codec.rs:241-307 | the payload's length, and which bytes of it hold which sample's code |
| `Pcm.DecodedAt` | crates/net-rtp-aes67/src/codec.rs:251-333 | the number of samples decoded, and which bytes each comes from |
| `Pcm.DecodeAfterEncode` | crates/net-rtp-aes67/src/codec.rs:241-333 | decode after encode, for any channel count: the planar layout restored, an incomplete last frame dropped, nothing for no channels, each sample quantised once and within 1.5 steps |
| `Transport.UdpTransport.constructor` | crates/net-rtp-aes67/src/transport.rs:44-57 | the clock starts at sequence number 0 and timestamp 0 |
| `Transport.UdpTransport.SendRtp` | crates/net-rtp-aes67/src/transport.rs:105-122 | the datagram carries the clock before the call; the clock moves on with wrap-around by one packet and by the payload's frame count |
| `Transport.UdpTransport.SendAll` | crates/net-rtp-aes67/src/transport.rs:105-122 | the n-th datagram carries n modulo 65536 and the frames sent before it modulo 2^32 |
| `Transport.AdvanceIsFrames` | crates/net-rtp-aes67/src/transport.rs:105-122 | a payload of k whole frames, and perhaps part of one, moves the timestamp by k |
| `Transport.SteadyClock` | crates/net-rtp-aes67/src/transport.rs:105-122 | with k frames in every payload the n-th packet is stamped n * k |
| `Transport.DatagramLayout` | crates/net-rtp-aes67/src/transport.rs:105-122 | the n-th datagram of a stream byte by byte: flags, payload type, number, timestamp, source, payload |
| `Transport.ReceivedIsSent` | crates/net-rtp-aes67/src/transport.rs:96-122 | the receive side reads back number and payload of every sent datagram |
| `Transport.GapIsFollowed` | crates/net-rtp-aes67/src/jitter.rs:22-24 | the receiver accepts the next survivor if and only if the losses in between are below 32768 in the 16-bit cycle |
| `Transport.EndToEnd` | crates/net-rtp-aes67/src/worker.rs:86-132 | over a lossy in-order network the output is exactly the survivors in send order, if and only if every gap is short; losses of up to 32767 in a row always are |
| `Transport.EndToEndFrames` | crates/net-rtp-aes67/src/worker.rs:86-132 | the frames taken, queued and dropped are together exactly the survivors in send order, if and only if every gap is short, with any interleaving of taking frames and receive errors |
| `Transport.EndToEndDelivers` | crates/net-rtp-aes67/src/worker.rs:86-132 | with room at every arrival the frames taken and queued are exactly the decoded survivors in send order, if and only if every gap is short |
| `Transport.FrameOfEncoded` | crates/net-rtp-aes67/src/worker.rs:141-167 | a frame encoded by the send worker and decoded by the receive worker keeps its layout, each sample quantised once, for any channel count |
| `Topology.WithoutNodeSplits` | crates/control-api/src/lib.rs:951-959 | removal by id judges every node by itself and keeps the rest in place, with order and repetitions |
| `Topology.WithoutEdgesSplits` | crates/control-api/src/lib.rs:79-86 | the same for the edges with an end at the removed node |
| `Topology.RemoveNodeIs` | crates/control-api/src/lib.rs:79-86 | removing a node takes exactly the links at it along, and keeps every other node and link as often as it was there |
| `Topology.AddNodeIs` | crates/control-api/src/lib.rs:916-923 | a node under a known id takes that node's place, under a new id comes last; every other stays in place |
| `Topology.RemoveLinkIs` | crates/control-api/src/lib.rs:974-984 | removing link i keeps the links before it and moves the later ones up by one; nothing happens past the end |
| `Topology.NodeWithout` | crates/control-api/src/lib.rs:951-972 | after a removal the id is not found and every other lookup is unchanged |
| `Topology.NodeAppend` | crates/control-api/src/lib.rs:916-923 | after adding a node with a new id it is found under it and every other lookup is unchanged |
| `Replica.BatchSplit` | crates/session-store/src/raft_state_machine.rs:322-353 | cutting the entries into batches changes neither the state nor the responses |
| `Replica.StateMachine.constructor` | crates/session-store/src/raft_state_machine.rs:98-134 | the default state, no snapshot |
| `Replica.StateMachine.Apply` | crates/session-store/src/raft_state_machine.rs:322-353 | the loop applies all entries and answers each; a failed write changes nothing |
| `Replica.StateMachine.InstallSnapshot` | crates/session-store/src/raft_state_machine.rs:367-393 | two transactions in order: state row, then snapshot row; an undecodable payload changes nothing |
| `Replica.StateMachine.BuildWrite` | crates/session-store/src/raft_state_machine.rs:442-483 | records what was read, whatever happened since |
| `Cluster.AtIsFold` | crates/session-store/src/raft_state_machine.rs:322-353 | applying a log from the start: the fold of its mutations, their number, the last membership, the last log id |
| `Cluster.SuffixApplies` | crates/session-store/src/raft_state_machine.rs:322-393 | install at n, then apply the suffix: the same topology and membership as applying everything |
| `Cluster.StepKeeps` | crates/session-store/src/raft_state_machine.rs:322-483 | each transaction, message, corruption or crash keeps the invariant |
| `Cluster.RunKeeps` | crates/session-store/src/raft_state_machine.rs:322-483 | the invariant holds in every reachable state of any number of replicas |
| `Cluster.BatchAdvances` | crates/session-store/src/raft_state_machine.rs:322-353 | in every reachable state applying the next entries takes the replica exactly that far, to the fold of the log up to there |
| `Cluster.CanCatchUp` | crates/session-store/src/raft_state_machine.rs:322-353 | from every reachable state any replica can reach the fold of the whole log |
| `Cluster.ReplicasAgree` | crates/session-store/src/raft_state_machine.rs:322-393 | in every run, replicas with the same last-applied index hold the same topology and membership, namely the fold of the log |
| `Cluster.SnapshotIsFold` | crates/session-store/src/raft_state_machine.rs:367-483 | in every reachable state, between any two transactions, a stored snapshot is the log folded up to its own last log id |
| `Cluster.CountersAgree` | crates/session-store/src/raft_state_machine.rs:337-384 | the mutation counter counts the mutations since the last install; at equal positions two replicas agree on it if and only if the prefixes they installed hold equally many |
| `Cluster.ResponseCounts` | crates/session-store/src/raft_state_machine.rs:334-346 | on any replica in any run, the id answered for the k-th entry of a batch is the number of mutations applied before it since that replica's last install, and 0 for an entry that is no mutation |
| `Cluster.CountersComeApart` | crates/session-store/src/raft_state_machine.rs:377-384 | a run after which two replicas in the same state hand out different ids |
| `Cluster.SnapshotMovesBack` | crates/session-store/src/raft_state_machine.rs:367-483 | the stored snapshot comes to cover less exactly when a pending build or install that covers less than it is written |
| `Cluster.StepIsForward` | crates/session-store/src/raft_state_machine.rs:367-483 | a step that keeps builds and installs apart keeps everything pending between the stored snapshot and the state |
| `Cluster.SnapshotAdvances` | crates/session-store/src/raft_state_machine.rs:367-483 | in every run of such steps no replica's stored snapshot ever covers less than before |
| `Cluster.SnapshotFallsBack` | crates/session-store/src/raft_state_machine.rs:416-483 | a run in which a stored snapshot of one entry is replaced by one of none |
| `Wal.Replay` | crates/session-store/src/lib.rs:137-159 | replaying the rows in key order gives their fold and their number, or an error at an unreadable row |
| `Wal.RaftEngine.constructor` | crates/session-store/src/lib.rs:160-172 | the engine starts from the replayed state |
| `Wal.OpenEngine` | crates/session-store/src/lib.rs:121-173 | opening fails if and only if some row cannot be read back |
| `Wal.RaftEngine.ApplyMutation` | crates/session-store/src/lib.rs:218-246 | persists first, then updates memory, for commits that succeed, fail, or succeed without being reported |
| `Wal.PutAt` | crates/session-store/src/lib.rs:231-236 | on dense keys an insert appends at the end or overwrites in place |
| `Wal.CommitDecides` | crates/session-store/src/lib.rs:218-246 | unless the commit is undone the row is there under the next id, alone at the end; memory and next id move on exactly when the commit is reported |
| `Wal.NextKeeps` | crates/session-store/src/lib.rs:121-246 | apply, crash and open keep keys dense, rows readable and the live topology equal to the fold |
| `Wal.RunIsSound` | crates/session-store/src/lib.rs:121-246 | over every run: keys are exactly 0..n-1, the live topology is the fold of the stored rows but for at most one in flight, and row k holds for ever what was acknowledged under id k |
| `Wal.ReopenRestores` | crates/session-store/src/lib.rs:121-173 | crash anywhere and reopen: opening succeeds with the topology from before, or that plus the one mutation in flight |
| `BuildGraph.Build` | crates/audio-engine/src/lib.rs:84-113 | succeeds if and only if the factory knows every node, no edge names an unknown node and the library accepts every link and compiles; then slots and links are the snapshot renamed, in order; and which error means what |
| `BuildGraph.RenamingIsBijective` | crates/audio-engine/src/lib.rs:91-101 | the renaming sends each node to its own slot if and only if the ids are distinct |
| `BuildGraph.EdgeRecovered` | crates/audio-engine/src/lib.rs:102-110 | a link leads back to its edge; different edges stay different |
| `Engine.GraphEngine.constructor` | crates/audio-engine/src/lib.rs:201-203 | owns the given graph and slot, having run nothing |
| `Engine.GraphEngine.Step` | crates/audio-engine/src/lib.rs:211-225 | is the engine step of the interleaving model: the cycle runs on the old graph and its rings, then a pending graph is swapped in as a whole and the slot emptied |
| `Engine.GraphEngine.Cycle` | crates/audio-engine/src/lib.rs:211-225 | a cycle takes from the ring of the live source and fills the ring of the live sink, as far as there is room |
| `Engine.Store.ApplyMutation` | crates/session-store/src/lib.rs:218-246 | the topology becomes the mutated one; and it is the model's change followed by its event |
| `Engine.RebuildTask.TryRecv` | crates/audio-engine/src/lib.rs:170-187 | is the model's step: an event or a lag makes a rebuild due, and the receiver moves on |
| `Engine.RebuildTask.AskFactory` | crates/audio-engine/src/lib.rs:91-101 | the loop over the nodes puts into each slot what the node's role asks for, makes bridge nodes on the way, and stops at the first node without an answer |
| `Engine.RebuildTask.BuildCurrent` | crates/audio-engine/src/lib.rs:84-113 | builds the topology read, on rings the build itself made; fails exactly for an unknown node, an edge without a node or a refusal of the library |
| `Engine.RebuildTask.RebuildOnce` | crates/audio-engine/src/lib.rs:128-141 | is the model's read, makes and finish: a successful build puts the graph of the current topology into the slot, a failed one leaves it |
| `Engine.RebuildTask.Poll` | crates/audio-engine/src/lib.rs:170-187 | one turn of the worker's loop is a run of model steps |
| `Engine.RingBuffer.Push` | crates/audio-engine/src/bridge.rs:101-106 | bounded FIFO push, accepted exactly when there is room |
| `Engine.RingBuffer.Pop` | crates/audio-engine/src/bridge.rs:110-120 | FIFO pop of the oldest frame |
| `Engine.GatewayBridge.constructor` | crates/audio-engine/src/bridge.rs:50-65 | no rings and no ends |
| `Engine.GatewayBridge.MakeSourceNode` | crates/audio-engine/src/bridge.rs:72-81 | is the model's step: a fresh ring whose producer end the gateway now holds, and a node that reads it |
| `Engine.GatewayBridge.MakeSinkNode` | crates/audio-engine/src/bridge.rs:87-96 | is the model's step: a fresh ring whose consumer end the gateway now holds, and a sink node that writes it |
| `Engine.GatewayBridge.PushInbound` | crates/audio-engine/src/bridge.rs:101-106 | is the model's step; refused if and only if there is no source node or the ring is full |
| `Engine.GatewayBridge.PopOutbound` | crates/audio-engine/src/bridge.rs:110-120 | is the model's step; the oldest frame of the current ring or none, and nothing else changes |
| `Engine.Process.constructor` | crates/audio-engine/src/lib.rs:159-203 | store, worker, engine and bridge start in the model's first state |
| `Engine.Process.Reload` | crates/audio-engine/src/lib.rs:159-190 | keeps the objects equal to a run of the model from its start |
| `Engine.Process.RunCycle` | crates/audio-engine/src/lib.rs:211-225 | so does an engine cycle |
| `Engine.Process.DoAll` | crates/audio-engine/src/lib.rs:128-225 | so does any schedule of mutations, worker turns, cycles and gateway traffic; the store holds every mutation applied in order, and every graph the topology it was read from |
| `Engine.Process.Settle` | crates/audio-engine/src/lib.rs:128-225 | worker turns until nothing is unread, then one cycle: the last build went through unless a node, an edge or the library is to blame, and then the live graph carries the first topology with every mutation applied |
| `Engine.Session` | crates/audio-engine/src/lib.rs:128-225 | on the objects, for any schedule: built exactly when the final topology can be built; and then the live slots and links are, one by one, the nodes and edges of the first topology with every mutation applied |
| `LiveReload.ReloadKeeps` | crates/audio-engine/src/lib.rs:128-225 | every step of every thread keeps the reload invariant, with lagged receivers and with the store locked between change and event |
| `LiveReload.RunIsConsistent` | crates/audio-engine/src/lib.rs:159-190 | the invariant holds after every interleaving |
| `LiveReload.NoLostUpdate` | crates/audio-engine/src/lib.rs:128-225 | whenever nothing is unread, being built or half applied, the last topology tried is the store's current one, and if that build succeeded one more step makes it live |
| `LiveReload.HistoryIsFold` | crates/session-store/src/lib.rs:218-246 | after every run version k is the first topology with the first k mutations applied |
| `LiveReload.LiveIsCurrent` | crates/audio-engine/src/lib.rs:128-225 | once all is quiet and the last build succeeded, one more step runs the topology with every mutation applied |
| `LiveReload.RanIsCycled` | crates/audio-engine/src/lib.rs:211-225 | the engine runs one cycle per step, on the graph live before the swap |
| `LiveReload.VersionsMonotone` | crates/audio-engine/src/lib.rs:211-225 | the topology versions the engine runs never go backwards |
| `LiveReload.BridgeIsFifo` | crates/audio-engine/src/bridge.rs:72-120 | in every step each ring hands on what it accepted, in order, losing nothing |
| `LiveReload.StepKeepsAttached` | crates/audio-engine/src/bridge.rs:72-96 | every graph holds rings its own build made, and the gateway the most recently made ones, none newer existing on either side |
| `LiveReload.RunIsAttached` | crates/audio-engine/src/bridge.rs:72-120 | both hold after every interleaving |
| `LiveReload.ConnectedExactlyWhen` | crates/audio-engine/src/bridge.rs:72-120 | gateway and engine meet in one ring if and only if the live graph comes from the build that made it |
| `LiveReload.GatewaySurvives` | crates/audio-engine/src/bridge.rs:67-96 | after any rebuilds, if the latest build succeeded, one step later the gateway pushes into the live source's ring and pops from the live sink's, for each of the two nodes that build made; every ring is in order and loses nothing |
| `LiveReload.PushesArrive` | crates/audio-engine/src/bridge.rs:101-106 | until the next source is made, every frame pushed enters the same ring in push order if and only if there was room at every push |
| `LiveReload.GatewayDelivers` | crates/audio-engine/src/bridge.rs:67-106 | a build makes its source after any run, anything but another source follows, the build is still the latest and went through: one step later gateway and live graph share its ring, which accepted exactly the frames pushed since if and only if there was room at every push |
| `LiveReload.InboundStep` | crates/audio-engine/src/bridge.rs:101-106 | what each step takes out of the ring the gateway pushes into: the oldest frames the live source asks for |
| `LiveReload.OutboundStep` | crates/audio-engine/src/bridge.rs:110-120 | what each step does to the ring the gateway pops from: the oldest frame leaves at a pop, what the live sink plays enters as far as there is room |
| `LiveReload.PopsDeliver` | crates/audio-engine/src/bridge.rs:110-120 | between two sinks the frames popped and still waiting are, in order, those that were waiting and those played since |
| `LiveReload.FailedBuildDisconnects` | crates/audio-engine/src/lib.rs:128-141 | a run in which a failed build leaves the gateway holding a ring no live graph reads |
| `Controller.GraphController.constructor` | crates/control-api/src/lib.rs:813-819 | over any stored graph, with nothing recorded about it |
| `Controller.GraphController.WithRegistries` | crates/control-api/src/lib.rs:834-845 | over any stored graph with shared kinds and params, and no labels |
| `Controller.GraphController.CreateNode` | crates/control-api/src/lib.rs:884-945 | refuses blank labels and mismatched params, infers the kind, records only after the store took the node |
| `Controller.GraphController.LinkPorts` | crates/control-api/src/lib.rs:1003-1046 | links only existing ports, with the error of the first check that fails, and returns the new link's position |
| `Controller.GraphController.DeleteNode` | crates/control-api/src/lib.rs:951-972 | removes node, incident links and all registry entries, or reports it missing |
| `Controller.GraphController.DeleteLink` | crates/control-api/src/lib.rs:974-984 | removes the link at that position, or reports it missing |
| `Controller.NewIdIsFresh` | crates/control-api/src/lib.rs:907-915 | the id handed out is new if and only if the largest id is not already in use; in an empty graph it is 1 |
| `Controller.NewIdIsNext` | crates/control-api/src/lib.rs:907-915 | it is one above the largest id in use |
| `Controller.RecordKeeps` | crates/control-api/src/lib.rs:916-943 | recording a node under a new id keeps the controller well-formed |
| `Controller.DeleteKeeps` | crates/control-api/src/lib.rs:951-972 | so does deleting one |
| `Controller.StepKeeps` | crates/control-api/src/lib.rs:884-1046 | so does every operation |
| `Controller.RunIsWellFormed` | crates/control-api/src/lib.rs:884-1046 | after every run from any well-formed state: ids distinct, edges at existing ports, registries only about existing nodes, params next to the kind they name; and the largest id grew at most by the creations |
| `Controller.CreatedIsListed` | crates/control-api/src/lib.rs:884-945 | a created node is listed with exactly what was asked for and the rest as before, so a reused id inherits nothing |
| `Controller.AcceptedExactlyWhen` | crates/control-api/src/lib.rs:884-906 | a creation is accepted exactly when the trimmed label is not empty and params do not contradict the kind, and the kind recorded is the one asked for or that of the params |
| `Controller.DigitsAreDecimal` | crates/control-api/src/lib.rs:848-867 | the default label ends in the id in decimal |
| `Controller.LinkedIsListed` | crates/control-api/src/lib.rs:1003-1046 | a new link is listed last as asked for, everything else as before |
| `Controller.DeletedIsGone` | crates/control-api/src/lib.rs:951-972 | exactly the other nodes and the links between them remain listed |
| `Controller.DeletedLinkIsGone` | crates/control-api/src/lib.rs:974-984 | after deleting link i the earlier links are listed as before, the later ones one place and one id earlier, and the nodes as before |
| `Controller.StaleAtTheTop` | crates/control-api/src/lib.rs:907-915 | a well-formed state in which a new node inherits params |
| `Preset.Exported` | crates/control-api/src/lib.rs:1054-1080 | version 1, every node and link as listed, in order |
| `Preset.ImportPreset` | crates/control-api/src/lib.rs:1092-1155 | the three loops perform drops, puts and links in order; if the store refuses the k-th mutation, exactly the first k happened |
| `Preset.DropAll` | crates/control-api/src/lib.rs:1095-1115 | after the first loop exactly the edges and registry entries away from every old node are left |
| `Preset.PutNodes` | crates/control-api/src/lib.rs:1118-1126 | after the second loop the nodes are the preset's, in order, if and only if its ids are distinct |
| `Preset.PutRegisters` | crates/control-api/src/lib.rs:1127-1143 | and the registries hold the preset's values, with leftovers showing only where the preset is silent |
| `Preset.WireAll` | crates/control-api/src/lib.rs:1145-1153 | the third loop appends the links in order |
| `Preset.RoundTrip` | crates/control-api/src/lib.rs:1054-1155 | from any state, import then export gives the preset back if and only if it is version 1 with distinct ids and the old state has no stray edge and no orphan entry that shows through |
| `Preset.ImportReplaces` | crates/control-api/src/lib.rs:1082-1155 | from a well-formed state the result is the same as from an empty one, and the round trip holds for every version 1 preset with distinct ids and for no other |
| `Preset.CopyIsFaithful` | crates/control-api/src/lib.rs:63-75 | export from one well-formed controller and import into another: the same listing |
| `Preset.ImportIsWellFormed` | crates/control-api/src/lib.rs:1082-1155 | from a well-formed state, with distinct ids, the result is well-formed if and only if the preset's links fit its own nodes and its params come with the kind they name |
| `Preset.RefusedIsShorter` | crates/control-api/src/lib.rs:1092-1155 | an import refused after its drops has imported a shorter preset |
| `Preset.ImportUpToKeeps` | crates/control-api/src/lib.rs:1092-1155 | a sound import keeps the controller well-formed wherever it is refused |
| `Preset.SessionIsWellFormed` | crates/control-api/src/lib.rs:884-1155 | so does every run of calls and sound imports, as long as there are ids left |
| `Server.Seed` | crates/sonicbrew/src/main.rs:1598-1687 | the mutations at boot give the seeded registries |
| `Server.Boot` | crates/sonicbrew/src/main.rs:1571-1687 | restoring, handing the registries to a new controller and seeding, in this order |
| `Server.FirstBoot` | crates/sonicbrew/src/main.rs:1598-1661 | with nothing stored and nothing saved: source 0, sink 1, one link into the sink, from a stereo file if one is loaded |
| `Server.FileIsAdded` | crates/sonicbrew/src/main.rs:1670-1687 | a file loaded into an existing graph gets the next id and its kind, and no link |
| `Server.SeedKeeps` | crates/sonicbrew/src/main.rs:1598-1687 | seeding keeps the controller well-formed and uses at most one id more, or the ids up to 2 |
| `Server.ExportIsSound` | crates/sonicbrew/src/main.rs:1791-1804 | a preset the server saves has distinct ids and is sound |
| `Server.BootKeeps` | crates/sonicbrew/src/main.rs:1571-1687 | a boot from a stored graph and a saved preset, refused anywhere, gives a well-formed controller |
| `Server.LifetimeIsHealthy` | crates/sonicbrew/src/main.rs:1571-1860 | over every run of calls, posted presets, autosaves and restarts: the live graph is well-formed and so is the preset the next restart reads |
| `Server.RestartRestores` | crates/sonicbrew/src/main.rs:1575-1592 | save and restart bring back kinds, params, links and nodes; the listing is the same if and only if every label was a default one, the topology if and only if every port was mono and F32 |
| `Server.LabelIsLost` | docs/RUNBOOK.md:53-56 | whatever the server held, a node created with its own label is listed differently after a save and a restart |
| `TagStruct.CutAtNul` | crates/gw-pulse/src/tags.rs:289-304 | text cut before a NUL is still text |
| `TagStruct.Utf8Means` | crates/gw-pulse/src/tags.rs:289-304 | what passes for text is exactly what encodes a sequence of Unicode scalar values |
| `TagStruct.PairsUnique` | crates/gw-pulse/src/tags.rs:139-150 | a terminated proplist can be read in one way only |
| `TagStruct.FieldUnique` | crates/gw-pulse/src/tags.rs:70-192 | at any place at most one field of a kind can stand: the bytes alone determine value and end |
| `TagStruct.FieldsUnique` | crates/gw-pulse/src/tags.rs:70-192 | the same for sequences of fields read with a fixed sequence of calls |
| `TagStruct.EmbeddedNul` | crates/gw-pulse/src/tags.rs:104-109 | of a written string with a NUL, what stands there for the reader is the part before it, and only that |
| `TagStruct.FieldBytes` | crates/gw-pulse/src/tags.rs:70-181 | the bytes of every field of fixed layout |
| `TagStruct.LongBytes` | crates/gw-pulse/src/tags.rs:127-131 | and of the 64-bit word |
| `TagStruct.CountedBytes` | crates/gw-pulse/src/tags.rs:119-192 | and of blobs, channel maps and channel volumes |
| `TagStruct.PairBytes` | crates/gw-pulse/src/tags.rs:139-150 | a proplist is its pairs, each a string, a length and a blob, and the terminator |
| `TagCodec.TagWriter.Word` | crates/gw-pulse/src/tags.rs:78-82 | appends a tagged u32 |
| `TagCodec.TagWriter.Text` | crates/gw-pulse/src/tags.rs:104-109 | appends tag, bytes and NUL |
| `TagCodec.TagWriter.Arbitrary` | crates/gw-pulse/src/tags.rs:119-125 | appends tag, length and bytes |
| `TagCodec.TagWriter.Proplist` | crates/gw-pulse/src/tags.rs:139-148 | the loop appends every pair with its double length, then the terminator |
| `TagCodec.TagWriter.Cvolume` | crates/gw-pulse/src/tags.rs:183-192 | appends tag, raw count and raw words |
| `TagCodec.TagWriter.Write` | crates/gw-pulse/src/tags.rs:78-192 | every field appends its encoding |
| `TagCodec.TagReader.Take` | crates/gw-pulse/src/tags.rs:238-246 | hands out the next n bytes or, if there are fewer, fails without moving |
| `TagCodec.TagReader.ExpectTag` | crates/gw-pulse/src/tags.rs:252-258 | succeeds if and only if that tag is next; the error names what was there |
| `TagCodec.TagReader.ReadU32` | crates/gw-pulse/src/tags.rs:261-265 | returns the word that stands at the cursor and moves past it, or fails because none does |
| `TagCodec.TagReader.ReadU8` | crates/gw-pulse/src/tags.rs:268-271 | the same for octets |
| `TagCodec.TagReader.ReadBoolean` | crates/gw-pulse/src/tags.rs:274-281 | the same for booleans |
| `TagCodec.TagReader.ReadString` | crates/gw-pulse/src/tags.rs:285-307 | the same for strings and absent strings; which error comes back when a NUL-terminated text is too long or not UTF-8, when there is no NUL, and at a wrong tag |
| `TagCodec.TagReader.ReadArbitrary` | crates/gw-pulse/src/tags.rs:310-318 | the same for blobs within the limit; a larger length word is always the oversize error |
| `TagCodec.TagReader.ReadU64` | crates/gw-pulse/src/tags.rs:321-327 | the same for long words |
| `TagCodec.TagReader.ReadPair` | crates/gw-pulse/src/tags.rs:337-350 | reads the only pair that can stand at the cursor, or fails because no proplist does |
| `TagCodec.TagReader.ReadProplist` | crates/gw-pulse/src/tags.rs:332-359 | the loop ends on all bytes, and returns the proplist that stands at the cursor or fails because none does |
| `TagCodec.TagReader.ReadSampleSpec` | crates/gw-pulse/src/tags.rs:366-371 | the same for sample specs, in wire order |
| `TagCodec.TagReader.ReadVolume` | crates/gw-pulse/src/tags.rs:374-378 | the same for volumes |
| `TagCodec.TagReader.ReadCvolume` | crates/gw-pulse/src/tags.rs:383-400 | the same for channel volumes |
| `TagCodec.TagReader.ReadChannelMap` | crates/gw-pulse/src/tags.rs:404-408 | the same for channel maps |
| `TagCodec.TagReader.Read` | crates/gw-pulse/src/tags.rs:213-420 | on arbitrary bytes every read either returns the field at the cursor and advances past it, or fails, naming a wrong tag or truncation; the cursor never leaves the buffer |
| `TagCodec.TakesExactlyTheTags` | crates/gw-pulse/src/tags.rs:252-420 | each reader call takes exactly the tags its fields are written with |
| `TagCodec.RoundTrip` | crates/gw-pulse/src/tags.rs:70-420 | any readable fields, written and read with the matching calls, come back equal, and the cursor stops exactly at their end whatever follows |
| `TagCodec.RoundTripOne` | crates/gw-pulse/src/tags.rs:70-420 | a field of any kind, written and read with the matching call, comes back if and only if its strings hold no NUL and its lengths are within the limits |
| `Daemon.PacketUnique` | crates/gw-pulse/src/daemon.rs:538-596 | the bytes at a place determine the packet |
| `Daemon.DescriptorBytes` | crates/gw-pulse/src/daemon.rs:538-564 | which bytes of the descriptor hold length, channel, offset and flags |
| `Daemon.BodyBytes` | crates/gw-pulse/src/daemon.rs:538-564 | which bytes of the body hold command, tag and tagstruct |
| `Daemon.Stream.WriteFrame` | crates/gw-pulse/src/daemon.rs:538-564 | sends descriptor, command, tag and tagstruct, addressed to the control channel |
| `Daemon.Stream.ReadFrame` | crates/gw-pulse/src/daemon.rs:567-596 | returns the frame that stands at the cursor and moves past it, or fails because no acceptable one does |
| `Daemon.ParseBody` | crates/gw-pulse/src/daemon.rs:583-595 | splits a body into command, tag and the rest, or fails because it has no such form |
| `Daemon.FrameRoundTrip` | crates/gw-pulse/src/daemon.rs:538-596 | reading undoes writing, whatever follows, if and only if the body is at most 4 MiB |
| `Daemon.ErrorReply` | crates/gw-pulse/src/daemon.rs:600-609 | the code that stands first, or 0 if none does; the message behind it, or none if none can be read |
| `Daemon.PulseDaemon.Request` | crates/gw-pulse/src/daemon.rs:499-524 | sends under a fresh tag, skips exactly the frames with other tags, returns the first frame with its own tag, or its error; a reply within the deadline is never missed |
| `Daemon.PulseDaemon.Auth` | crates/gw-pulse/src/daemon.rs:450-470 | sends AUTH with the cookie; succeeds only on a REPLY that carries the server version, and on every such REPLY within the deadline |
| `Daemon.AuthBytes` | crates/gw-pulse/src/daemon.rs:450-470 | the bytes of the AUTH body: version 35 and the cookie, if there is one |
| `Daemon.PulseDaemon.SetClientName` | crates/gw-pulse/src/daemon.rs:473-495 | sends SET_CLIENT_NAME with the proplist; succeeds only on a REPLY that is empty or starts with a client index, and on every such REPLY within the deadline |
| `Daemon.Connect` | crates/gw-pulse/src/daemon.rs:212-244 | nothing is sent with a cookie of the wrong size; AUTH goes first under tag 1, the name second under tag 2 and only after AUTH was answered by REPLY; two good answers in a row are enough |
| `Ring.WriteExtends` | crates/audio-engine/src/nodes/delay.rs:65-80 | a write at the cursor extends the history without changing the meaning of any slot in the window |
| `Ring.ReadsBack` | crates/audio-engine/src/nodes/delay.rs:66-70 | the slot d behind the cursor holds the history d samples ago, for every d up to the capacity |
| `Ring.CursorArithmetic` | crates/audio-engine/src/nodes/delay.rs:69-79 | the modulo arithmetic of the source names those slots |
| `Blocks.PerChannelFits` | crates/audio-engine/src/nodes/delay.rs:101-108 | the channels of a block lie inside both buffers |
| `Blocks.PerChannelIs` | crates/audio-engine/src/nodes/delay.rs:101-106 | a block is split into as many samples of every channel as the shorter buffer holds whole |
| `Blocks.ProcessedNext` | crates/audio-engine/src/nodes/delay.rs:105-111 | one more channel of a block is done and the earlier ones stay done |
| `Delay.EchoObeys` | crates/audio-engine/src/nodes/delay.rs:65-81 | wet[n] = x[n] + fb * wet[n - d] and y[n] = x[n] * (1 - mix) + wet[n] * mix at every sample, for every d >= 1, silence before the start |
| `Delay.EchoIsTheSolution` | crates/audio-engine/src/nodes/delay.rs:65-77 | no other line obeys the recurrence |
| `Delay.ImpulseEchoes` | crates/audio-engine/src/nodes/delay.rs:65-77 | an impulse comes back every d samples with the powers of fb, and nothing in between |
| `Delay.CutAnywhere` | crates/audio-engine/src/nodes/delay.rs:91-113 | the output so far does not depend on what comes later |
| `Delay.DelayNode.constructor` | crates/audio-engine/src/nodes/delay.rs:40-61 | silent rings, and every argument moved to the nearest allowed value |
| `Delay.DelayNode.ProcessSample` | crates/audio-engine/src/nodes/delay.rs:65-81 | the ring node continues the output of the recurrence over the channel's full history |
| `Delay.DelayNode.ProcessChannel` | crates/audio-engine/src/nodes/delay.rs:107-111 | one channel's part of a block |
| `Delay.DelayNode.Process` | crates/audio-engine/src/nodes/delay.rs:91-113 | whole blocks: however the stream is cut, every channel's output is the recurrence on all it heard; nothing else in the buffer changes; panics exactly on a block with more channels than the node has and a sample of each |
| `Delay.DelayIsBounded` | crates/audio-engine/src/nodes/delay.rs:49-81 | line and output stay within m / (1 - fb), at most 100 m, for every input within m |
| `Flanger.TapReads` | crates/audio-engine/src/nodes/flanger.rs:101-106 | the wrapped fractional read is a read on the unbounded history |
| `Flanger.TapIs` | crates/audio-engine/src/nodes/flanger.rs:101-106 | it is the linear interpolation of true history, plus a multiple of the oldest slot when the delay is below one sample |
| `Flanger.TrueExactlyWhen` | crates/audio-engine/src/nodes/flanger.rs:70-73 | it equals the interpolation for every history if and only if the delay is at least one sample |
| `Flanger.ConfigureIsSane` | crates/audio-engine/src/nodes/flanger.rs:51-75 | every configuration keeps the sweep positive and inside the ring, and at least one sample long from 1000 Hz on |
| `Flanger.ConfigureIs` | crates/audio-engine/src/nodes/flanger.rs:51-75 | the settings in numbers, for arguments inside and outside their ranges |
| `Flanger.PhaseTurns` | crates/audio-engine/src/nodes/flanger.rs:112-117 | the LFO phase is n increments less whole turns, within one turn |
| `Flanger.SweepIsTrueExactlyWhen` | crates/audio-engine/src/nodes/flanger.rs:51-73 | no LFO value makes the delay shorter than one sample if and only if the constructor's depth, centre and sample rate leave a margin of one sample; from 1000 Hz on they do |
| `Flanger.SlowClockIsShort` | crates/audio-engine/src/nodes/flanger.rs:51-73 | at 500 Hz a depth of 1 ms around 2 ms has a shortest delay of half a sample |
| `Flanger.WetIsTrue` | crates/audio-engine/src/nodes/flanger.rs:92-112 | the wet value of every sample interpolates what the line held, never an overwritten slot |
| `Flanger.FlangerObeys` | crates/audio-engine/src/nodes/flanger.rs:92-120 | with a delay of at least one sample: the wet value is the line that long ago in linear interpolation, the line gets x + wet * fb, the output is the mix |
| `Flanger.CutAnywhere` | crates/audio-engine/src/nodes/flanger.rs:130-152 | the output so far does not depend on what comes later |
| `Flanger.FlangerIsTrue` | crates/audio-engine/src/nodes/flanger.rs:51-120 | so it is for every configuration with that margin, every LFO and every input |
| `Flanger.FlangerIsBounded` | crates/audio-engine/src/nodes/flanger.rs:65-120 | line and output stay within m / (1 - fb), at most 10 m, whatever the sweep |
| `Flanger.FlangerNode.constructor` | crates/audio-engine/src/nodes/flanger.rs:51-88 | silent rings of the configured size |
| `Flanger.FlangerNode.ProcessSample` | crates/audio-engine/src/nodes/flanger.rs:92-120 | the ring node continues the output defined on the channel's full history, with the LFO phase in step |
| `Flanger.FlangerNode.ProcessChannel` | crates/audio-engine/src/nodes/flanger.rs:146-151 | one channel's part of a block |
| `Flanger.FlangerNode.Process` | crates/audio-engine/src/nodes/flanger.rs:130-152 | whole blocks, however the stream is cut; panics exactly on a block with more channels than the node has and a sample of each |
| `Reverb.CombBound` | crates/audio-engine/src/nodes/reverb.rs:53-62 | a comb's line, lowpass and output stay within any b with m + b f <= b |
| `Reverb.CombObeys` | crates/audio-engine/src/nodes/reverb.rs:53-62 | the comb's recurrences at every sample: output, lowpass and line |
| `Reverb.AllpassBound` | crates/audio-engine/src/nodes/reverb.rs:81-90 | an allpass at most triples the bound of its input |
| `Reverb.AllpassObeys` | crates/audio-engine/src/nodes/reverb.rs:81-90 | the allpass's recurrences at every sample: output and line |
| `Reverb.Configure` | crates/audio-engine/src/nodes/reverb.rs:115-152 | feedback in 0.7..0.98, gains in 0..1, eight and four delays of at least one sample |
| `Reverb.ConfigureIs` | crates/audio-engine/src/nodes/reverb.rs:115-174 | the settings in numbers; each delay is the nearest to the same time as the table's at 44100 Hz, and the table's own at that rate |
| `Reverb.ReverbIsBounded` | crates/audio-engine/src/nodes/reverb.rs:123-168 | every comb within 50 m and the output within 32401 m, for every input within m |
| `Reverb.ReverbObeys` | crates/audio-engine/src/nodes/reverb.rs:156-168 | the output is x * dry plus wet times four allpasses in a row on the sum of the eight combs |
| `Reverb.CutAnywhere` | crates/audio-engine/src/nodes/reverb.rs:183-205 | the output so far does not depend on what comes later |
| `Reverb.CombFilter.constructor` | crates/audio-engine/src/nodes/reverb.rs:40-49 | a silent line |
| `Reverb.CombFilter.Process` | crates/audio-engine/src/nodes/reverb.rs:53-62 | the in-place filter continues the damped comb recurrence over its full history |
| `Reverb.AllpassFilter.constructor` | crates/audio-engine/src/nodes/reverb.rs:72-77 | a silent line |
| `Reverb.AllpassFilter.Process` | crates/audio-engine/src/nodes/reverb.rs:81-90 | the in-place filter continues the allpass recurrence over its full history |
| `Reverb.ReverbNode.constructor` | crates/audio-engine/src/nodes/reverb.rs:115-152 | all filters configured per channel, none sharing memory |
| `Reverb.ReverbNode.RunCombs` | crates/audio-engine/src/nodes/reverb.rs:157-161 | the loop adds the eight combs of one channel and leaves the other channels alone |
| `Reverb.ReverbNode.RunAllpasses` | crates/audio-engine/src/nodes/reverb.rs:162-166 | the loop passes the sample through the four allpasses of one channel |
| `Reverb.ReverbNode.ProcessSample` | crates/audio-engine/src/nodes/reverb.rs:156-168 | the node continues the output of the comb bank and allpass chain over the channel's full history |
| `Reverb.ReverbNode.ProcessChannel` | crates/audio-engine/src/nodes/reverb.rs:199-204 | one channel's part of a block |
| `Reverb.ReverbNode.Process` | crates/audio-engine/src/nodes/reverb.rs:183-205 | whole blocks, however the stream is cut; panics exactly on a block with more channels than the node has and a sample of each |

## Left out

- Single-precision rounding: samples, gains and delays are exact reals, so the bounds speak about exact arithmetic.
- openraft, redb, rtrb, tokio and the graph library: a committed log, atomic transactions, FIFO rings, a lagging broadcast channel and contiguous node ids are taken as given.
- Log storage, Raft networking and forwarding (`raft_log_store.rs`, `raft_network.rs`, `distributed.rs`), and the snapshot id string.
- Serialization: a stored or sent value either decodes to what was encoded or does not decode at all.
- 64-bit overflow of mutation ids and of stream positions: they are unbounded numbers here.
- Receiver.RecvLoop.Run: a finite list of events stands for the thread until the graph abandons the ring; sleeping and logging are not modelled.
- LiveReload.NoLostUpdate: the engine's first graph holds no bridge ring, there is one bridge, and kinds and params recorded after a mutation are not part of the topology a build reads.
- Controller.RunIsWellFormed: calls happen one after the other; the locks of the registries are not modelled.
- Server.Boot: the wait for the first build, and giving up when it does not come, are not modelled.
- Engine.Process.DoAll: the worker's build runs as one turn; its interleaving with the other threads is in `LiveReload`.
- Reading presets from and writing them to JSON files, the REST surface, argument parsing, the clock of the autosave thread.
- Daemon.Stream.WriteFrame: writes always go through; a deadline is the number of frames that can still be read.
- The values of the client name proplist, which hold the process id, are a parameter.
- Playback streams, memblocks and server info of the PulseAudio client, which reuse the same fields and frames.
- Flanger.FlangerNode.constructor: leaves out sample rate 0, where the source divides by zero and the LFO phase becomes infinite.
- Flanger.FlangerNode.ProcessSample: the sine of the phase is any function into [-1, 1].
- Reverb.Configure: rounds the scaled delay to the nearest integer with halves up, which for these non-negative values is the rounding of the source.
- The other audio nodes (mixer, limiter, meter, equaliser, compressor, phaser, gate, distortion, generators and the like): they rest on transcendental functions or would only add easier members.
- ALSA, netmap, the browser gateway, the monitor window and the TUI.
