/**
 The RTP receive worker: each packet goes through the reorder buffer, which is drained on the spot,
 and the decoded frames are offered to a bounded ring that drops when full.
 */
module Receiver {
  import opened Common
  import opened Jitter
  import Pcm
  import Rtp

  datatype AudioFrame = AudioFrame(channels: u16, sampleRate: u32, samples: seq<real>)

  type Payload = seq<byte>

  function Frame(channels: u16, sampleRate: u32, payload: Payload): AudioFrame {
    AudioFrame(channels, sampleRate, Pcm.Decoded(Pcm.L16, payload, channels))
  }

  /** The frames of waiting packets, in their order. */
  function FramesOf(channels: u16, sampleRate: u32, items: seq<(nat, Payload)>): (frames: seq<AudioFrame>)
    ensures |frames| == |items|
  {
    if items == [] then []
    else FramesOf(channels, sampleRate, items[..|items| - 1]) + [Frame(channels, sampleRate, items[|items| - 1].1)]
  }

  lemma {:induction false} FramesSnoc(channels: u16, sampleRate: u32, items: seq<(nat, Payload)>, n: nat)
    requires n < |items|
    ensures FramesOf(channels, sampleRate, items[..n + 1])
            == FramesOf(channels, sampleRate, items[..n]) + [Frame(channels, sampleRate, items[n].1)]
  {
    assert items[..n + 1][..n] == items[..n];
  }

  /** The inner loop of the drain: pop the contiguous in-order run. */
  method DrainRun(jitter: JitterBuffer<Payload>, channels: u16, sampleRate: u32, emitted: seq<AudioFrame>,
                  ghost u: Ideal<Payload>, ghost v0: Ideal<Payload>, ghost done0: nat)
      returns (frames: seq<AudioFrame>, ghost v: Ideal<Payload>, ghost done: nat)
    requires DrainPoint(u, v0, done0) && Refines(jitter.State(), v0)
    requires emitted == FramesOf(channels, sampleRate, u.items[..done0])
    modifies jitter
    ensures DrainPoint(u, v, done) && Refines(jitter.State(), v)
    ensures frames == FramesOf(channels, sampleRate, u.items[..done])
    ensures IdealPop(v).1.None? && (v == v0 || |v.items| < |v0.items|)
  {
    hide FramesOf, Refines, AfterPop;
    frames, v, done := emitted, v0, done0;
    var more := true;
    while more
      invariant DrainPoint(u, v, done) && Refines(jitter.State(), v)
      invariant frames == FramesOf(channels, sampleRate, u.items[..done])
      invariant v == v0 || |v.items| < |v0.items|
      invariant !more ==> IdealPop(v).1.None?
      decreases |v.items|, more
    {
      DrainPop(jitter.State(), u, v, done);
      var packet := jitter.Pop();
      match packet
      case None =>
        more := false;
      case Some((_, payload)) =>
        FramesSnoc(channels, sampleRate, u.items, done);
        var samples := Pcm.Decode(Pcm.L16, payload, channels);
        frames := frames + [AudioFrame(channels, sampleRate, samples)];
        v, done := IdealPop(v).0, done + 1;
    }
  }

  /**
   From any state the buffer can reach (`u` is the waiting list it stands for): the drain ends, the
   buffer is left empty with its cursor just past the last packet, one frame comes out per
   buffered packet in increasing forward distance, and the no-progress guard never fires.
   */
  method DrainJitter(jitter: JitterBuffer<Payload>, channels: u16, sampleRate: u32, ghost u: Ideal<Payload>)
      returns (frames: seq<AudioFrame>, guardFired: bool)
    requires Refines(jitter.State(), u)
    modifies jitter
    ensures frames == FramesOf(channels, sampleRate, u.items)
    ensures !guardFired
    ensures jitter.buf == map[]
    ensures jitter.nextSeq == WrapNext(Past(u))
  {
    frames, guardFired := [], false;
    ghost var v: Ideal<Payload>, done: nat := u, 0;
    while true
      invariant DrainPoint(u, v, done) && Refines(jitter.State(), v)
      invariant frames == FramesOf(channels, sampleRate, u.items[..done]) && !guardFired
      decreases |v.items|, if v.items != [] && v.next == Some(v.items[0].0) then 0 else 1
    {
      frames, v, done := DrainRun(jitter, channels, sampleRate, frames, u, v, done);
      if jitter.buf == map[] {
        break;
      }
      DrainSkip(jitter.State(), u, v, done);
      var skipped := jitter.SkipGap();
      v := IdealSkip(v).0;
      if skipped == 0 {
        guardFired := true;
        break;
      }
    }
    DrainEnd(jitter.State(), u, v, done);
  }

  /** The baseline just past everything `u` holds. */
  function Past(u: Ideal<Payload>): Option<nat> {
    if u.items == [] then u.next else Some(u.items[|u.items| - 1].0 + 1)
  }

  function WrapNext(next: Option<nat>): Option<u16> {
    if next.None? then None else Some(next.value % 65536)
  }

  lemma {:induction false} DrainPop(s: Buffer<Payload>, u: Ideal<Payload>, v: Ideal<Payload>, done: nat)
    requires DrainPoint(u, v, done) && Refines(s, v)
    ensures IdealPop(v).1.None? ==> AfterPop(s) == (s, None)
    ensures IdealPop(v).1.Some? ==>
              && AfterPop(s).1.Some? && done < |u.items| && AfterPop(s).1.value.1 == u.items[done].1
              && DrainPoint(u, IdealPop(v).0, done + 1) && Refines(AfterPop(s).0, IdealPop(v).0)
  {
    PopRefines(s, v);
  }

  lemma {:induction false} DrainSkip(s: Buffer<Payload>, u: Ideal<Payload>, v: Ideal<Payload>, done: nat)
    requires DrainPoint(u, v, done) && Refines(s, v) && IdealPop(v).1.None? && s.buf != map[]
    ensures v.items != [] && IdealSkip(v).0 == v.(next := Some(v.items[0].0)) && v.next != Some(v.items[0].0)
    ensures DrainPoint(u, IdealSkip(v).0, done) && Refines(AfterSkip(s).0, IdealSkip(v).0) && AfterSkip(s).1 > 0
  {
    SkipRefines(s, v);
    assert |s.buf| != 0;
  }

  lemma {:induction false} DrainEnd(s: Buffer<Payload>, u: Ideal<Payload>, v: Ideal<Payload>, done: nat)
    requires DrainPoint(u, v, done) && Refines(s, v) && s.buf == map[]
    ensures u.items[..done] == u.items && s.nextSeq == WrapNext(Past(u))
  {
  }

  /** `v` is what remains of `u` after its first `done` packets went out. */
  ghost predicate DrainPoint(u: Ideal<Payload>, v: Ideal<Payload>, done: nat) {
    && done <= |u.items| && v.items == u.items[done..]
    && (done == 0 && v.items == [] ==> v.next == u.next)
    && (done > 0 ==> v.next == Some(u.items[done - 1].0 + 1) || (v.items != [] && v.next == Some(v.items[0].0)))
  }

  // ----- the receive loop --------------------------------------------------------------------

  const JITTER_CAPACITY := 64
  const DATAGRAM_LIMIT := 65_535

  /** `sn` is not behind the next sequence number the loop waits for. */
  predicate Follows(next: Option<u16>, sn: u16) {
    next.None? || ForwardDistance(next.value, sn) >= 0
  }

  function Succ(sn: u16): u16 { (sn + 1) % 65536 }

  /** The waiting list behind an empty buffer, one full cycle up. */
  function Idle(next: Option<u16>): Ideal<Payload> {
    Ideal(if next.None? then None else Some(next.value + 65536), [], JITTER_CAPACITY)
  }

  function Placed(next: Option<u16>, sn: u16): (index: nat)
    ensures index % 65536 == sn
  {
    if next.None? then sn + 65536 else Unwrap(next.value + 65536, sn)
  }

  /** From an empty buffer, one push leaves that packet alone in the buffer or nothing at all. */
  lemma {:induction false} PushOntoEmpty(s: Buffer<Payload>, sn: u16, payload: Payload)
    requires s.buf == map[] && s.capacity == JITTER_CAPACITY
    ensures var u := IdealPush(Idle(s.nextSeq), Placed(s.nextSeq, sn), payload).0;
            && Refines(AfterPush(s, sn, payload).0, u)
            && u.items == (if Follows(s.nextSeq, sn) then [(Placed(s.nextSeq, sn), payload)] else [])
            && WrapNext(Past(u)) == (if Follows(s.nextSeq, sn) then Some(Succ(sn)) else s.nextSeq)
  {
    var index := Placed(s.nextSeq, sn);
    PushRefines(s, Idle(s.nextSeq), index, payload);
    WrapSucc(index);
    if s.nextSeq.Some? {
      DistanceRecovers(s.nextSeq.value + 65536, index);
    }
  }

  /** What the worker thread has done so far: the next sequence number wanted, the frames in the
      ring, those the graph already took, and how many were dropped at a full ring. */
  datatype Progress = Progress(next: Option<u16>, ring: seq<AudioFrame>, taken: seq<AudioFrame>, dropped: nat)

  /** A frame meets the ring: queued if there is room, dropped otherwise. */
  function Offered(p: Progress, capacity: nat, frame: AudioFrame): Progress {
    if |p.ring| < capacity then p.(ring := p.ring + [frame]) else p.(dropped := p.dropped + 1)
  }

  function AfterPacket(p: Progress, capacity: nat, sn: u16, frame: AudioFrame): Progress {
    if Follows(p.next, sn) then Offered(p, capacity, frame).(next := Some(Succ(sn))) else p
  }

  /** What the loop can meet: a datagram, a receive timeout or error, the graph taking a frame. */
  datatype Event = Datagram(bytes: seq<byte>) | RecvError | Take

  /** `recv_rtp_with_seq` on one datagram, cut to the receive buffer. */
  function Received(datagram: seq<byte>): Option<(u16, Payload)> {
    match Rtp.ParsePacket(if |datagram| <= DATAGRAM_LIMIT then datagram else datagram[..DATAGRAM_LIMIT])
    case Err(_) => None
    case Ok(packet) => Some((packet.header.sn, packet.payload))
  }

  class RecvLoop {
    const jitter: JitterBuffer<Payload>
    const channels: u16
    const sampleRate: u32
    const capacity: nat
    var ring: seq<AudioFrame>
    ghost var taken: seq<AudioFrame>
    ghost var dropped: nat

    /** At every cycle boundary the jitter buffer is empty. */
    ghost predicate Valid()
      reads this, jitter
    {
      jitter.buf == map[] && jitter.capacity == JITTER_CAPACITY
    }

    ghost function State(): Progress
      reads this, jitter
    {
      Progress(jitter.nextSeq, ring, taken, dropped)
    }

    constructor (channels: u16, sampleRate: u32, capacity: nat)
      ensures Valid() && fresh(jitter) && State() == Progress(None, [], [], 0)
      ensures this.channels == channels && this.sampleRate == sampleRate && this.capacity == capacity
    {
      this.jitter := new JitterBuffer(JITTER_CAPACITY);
      this.channels, this.sampleRate, this.capacity := channels, sampleRate, capacity;
      this.ring, this.taken, this.dropped := [], [], 0;
    }

    /** One cycle with a packet. */
    method Packet(sn: u16, payload: Payload)
      requires Valid()
      modifies this, jitter
      ensures Valid()
      ensures State() == AfterPacket(old(State()), capacity, sn, Frame(channels, sampleRate, payload))
    {
      PushOntoEmpty(jitter.State(), sn, payload);
      ghost var u := IdealPush(Idle(jitter.nextSeq), Placed(jitter.nextSeq, sn), payload).0;
      ghost var follows := Follows(jitter.nextSeq, sn);
      var _ := jitter.Push(sn, payload);
      var frames, _ := DrainJitter(jitter, channels, sampleRate, u);
      assert u.items != [] ==> u.items[..|u.items| - 1] == [];
      assert frames == if follows then [Frame(channels, sampleRate, payload)] else [];
      var i := 0;
      while i < |frames|
        modifies this
        invariant 0 <= i <= |frames|
        invariant var offered := if i == 0 then old(State()) else Offered(old(State()), capacity, frames[0]);
                  State() == offered.(next := jitter.nextSeq)
      {
        if |ring| < capacity {
          ring := ring + [frames[i]];
        } else {
          dropped := dropped + 1;
          break;
        }
        i := i + 1;
      }
    }

    /** The worker thread, until the graph abandons the ring (the end of `events`). */
    method Run(events: seq<Event>)
      requires Valid()
      modifies this, jitter
      ensures Valid()
      ensures State() == AfterEvents(old(State()), capacity, channels, sampleRate, events)
    {
      var i := 0;
      while i < |events|
        invariant 0 <= i <= |events| && Valid()
        invariant State() == AfterEvents(old(State()), capacity, channels, sampleRate, events[..i])
      {
        assert events[..i + 1][..i] == events[..i];
        match events[i] {
          case Datagram(bytes) =>
            var packet := Received(bytes);
            if packet.Some? {
              Packet(packet.value.0, packet.value.1);
            }
          case RecvError =>
          case Take =>
            if ring != [] {
              taken, ring := taken + [ring[0]], ring[1..];
            }
        }
        i := i + 1;
      }
      assert events[..i] == events;
    }
  }

  function AfterEvent(p: Progress, capacity: nat, channels: u16, sampleRate: u32, event: Event): Progress {
    match event
    case Datagram(bytes) =>
      var packet := Received(bytes);
      if packet.None? then p else AfterPacket(p, capacity, packet.value.0, Frame(channels, sampleRate, packet.value.1))
    case RecvError => p
    case Take => if p.ring == [] then p else p.(taken := p.taken + [p.ring[0]], ring := p.ring[1..])
  }

  function AfterEvents(p: Progress, capacity: nat, channels: u16, sampleRate: u32, events: seq<Event>): Progress {
    if events == [] then p
    else AfterEvent(AfterEvents(p, capacity, channels, sampleRate, events[..|events| - 1]), capacity, channels,
                    sampleRate, events[|events| - 1])
  }

  // ----- what comes out ----------------------------------------------------------------------

  /** The well-formed packets among the events, in arrival order. */
  function Arrivals(events: seq<Event>): seq<(u16, Payload)> {
    if events == [] then []
    else
      var last := events[|events| - 1];
      Arrivals(events[..|events| - 1]) + Arrival(last)
  }

  function Arrival(event: Event): seq<(u16, Payload)> {
    if event.Datagram? && Received(event.bytes).Some? then [Received(event.bytes).value] else []
  }

  /** The arrivals that are emitted: the first one, and every later one whose forward distance
      from the successor of the last emitted one is not negative. */
  function Kept(arrivals: seq<(u16, Payload)>): seq<(u16, Payload)> {
    if arrivals == [] then []
    else
      var kept, last := Kept(arrivals[..|arrivals| - 1]), arrivals[|arrivals| - 1];
      if Follows(Wanted(kept), last.0) then kept + [last] else kept
  }

  function Wanted(kept: seq<(u16, Payload)>): Option<u16> {
    if kept == [] then None else Some(Succ(kept[|kept| - 1].0))
  }

  function Frames(channels: u16, sampleRate: u32, kept: seq<(u16, Payload)>): (frames: seq<AudioFrame>)
    ensures |frames| == |kept|
    ensures forall i :: 0 <= i < |kept| ==> frames[i] == Frame(channels, sampleRate, kept[i].1)
  {
    seq(|kept|, i requires 0 <= i < |kept| => Frame(channels, sampleRate, kept[i].1))
  }

  /** `part` is `whole` with some elements left out. */
  predicate Thinned<T(==)>(part: seq<T>, whole: seq<T>) {
    if part == [] then true
    else if whole == [] then false
    else
      var p, w := |part| - 1, |whole| - 1;
      (part[p] == whole[w] && Thinned(part[..p], whole[..w])) || Thinned(part, whole[..w])
  }

  /** The whole run: the frames offered to the ring are exactly those of the kept arrivals; each
      of them was taken, is queued or was dropped at a full ring, in order. */
  ghost predicate Accounted(p: Progress, frames: seq<AudioFrame>) {
    && |p.taken| + |p.ring| + p.dropped == |frames|
    && Thinned(p.taken + p.ring, frames)
    && (p.dropped == 0 ==> p.taken + p.ring == frames)
  }

  lemma {:induction false} ThinnedStep<T>(part: seq<T>, whole: seq<T>, x: T)
    requires Thinned(part, whole)
    ensures Thinned(part, whole + [x]) && Thinned(part + [x], whole + [x])
  {
    assert (whole + [x])[..|whole|] == whole && (part + [x])[..|part|] == part;
  }

  lemma {:induction false} OfferedIsAccounted(p: Progress, frames: seq<AudioFrame>, capacity: nat, frame: AudioFrame)
    requires Accounted(p, frames)
    ensures Accounted(Offered(p, capacity, frame), frames + [frame])
  {
    assert p.taken + (p.ring + [frame]) == p.taken + p.ring + [frame];
    ThinnedStep(p.taken + p.ring, frames, frame);
  }

  lemma {:induction false} KeptSnoc(arrivals: seq<(u16, Payload)>, a: (u16, Payload))
    ensures Kept(arrivals + [a])
            == if Follows(Wanted(Kept(arrivals)), a.0) then Kept(arrivals) + [a] else Kept(arrivals)
  {
    assert (arrivals + [a])[..|arrivals|] == arrivals;
  }

  lemma {:induction false} PacketIsAccounted(p: Progress, arrivals: seq<(u16, Payload)>, capacity: nat,
                                             channels: u16, sampleRate: u32, a: (u16, Payload))
    requires p.next == Wanted(Kept(arrivals)) && Accounted(p, Frames(channels, sampleRate, Kept(arrivals)))
    ensures var p' := AfterPacket(p, capacity, a.0, Frame(channels, sampleRate, a.1));
            var kept := Kept(arrivals + [a]);
            p'.next == Wanted(kept) && Accounted(p', Frames(channels, sampleRate, kept))
  {
    hide Frame, Accounted, Kept, Follows;
    KeptSnoc(arrivals, a);
    if Follows(p.next, a.0) {
      assert Frames(channels, sampleRate, Kept(arrivals) + [a])
             == Frames(channels, sampleRate, Kept(arrivals)) + [Frame(channels, sampleRate, a.1)];
      OfferedIsAccounted(p, Frames(channels, sampleRate, Kept(arrivals)), capacity, Frame(channels, sampleRate, a.1));
      AccountedIgnoresNext(Offered(p, capacity, Frame(channels, sampleRate, a.1)),
                           Frames(channels, sampleRate, Kept(arrivals) + [a]), Some(Succ(a.0)));
    }
  }

  lemma {:induction false} AccountedIgnoresNext(p: Progress, frames: seq<AudioFrame>, next: Option<u16>)
    requires Accounted(p, frames)
    ensures Accounted(p.(next := next), frames)
  {
  }

  lemma {:induction false} EventIsAccounted(p: Progress, arrivals: seq<(u16, Payload)>, capacity: nat, channels: u16,
                                            sampleRate: u32, event: Event)
    requires p.next == Wanted(Kept(arrivals)) && Accounted(p, Frames(channels, sampleRate, Kept(arrivals)))
    ensures var p' := AfterEvent(p, capacity, channels, sampleRate, event);
            var arrivals' := arrivals + Arrival(event);
            p'.next == Wanted(Kept(arrivals')) && Accounted(p', Frames(channels, sampleRate, Kept(arrivals')))
  {
    hide Frame, Kept, Received, AfterPacket;
    if event.Datagram? && Received(event.bytes).Some? {
      PacketIsAccounted(p, arrivals, capacity, channels, sampleRate, Received(event.bytes).value);
    } else {
      assert arrivals + [] == arrivals;
      if event.Take? && p.ring != [] {
        assert p.taken + [p.ring[0]] + p.ring[1..] == p.taken + p.ring;
      }
    }
  }

  /** The output of the receive loop, for every sequence of events. */
  lemma {:induction false} RunIsAccounted(capacity: nat, channels: u16, sampleRate: u32, events: seq<Event>)
    ensures var p := AfterEvents(Progress(None, [], [], 0), capacity, channels, sampleRate, events);
            && p.next == Wanted(Kept(Arrivals(events)))
            && Accounted(p, Frames(channels, sampleRate, Kept(Arrivals(events))))
  {
    if events == [] {
    } else {
      var init, event := events[..|events| - 1], events[|events| - 1];
      RunIsAccounted(capacity, channels, sampleRate, init);
      EventIsAccounted(AfterEvents(Progress(None, [], [], 0), capacity, channels, sampleRate, init), Arrivals(init),
                       capacity, channels, sampleRate, event);
    }
  }

  ghost predicate AllFollow(arrivals: seq<(u16, Payload)>) {
    forall i :: 0 < i < |arrivals| ==> Follows(Some(Succ(arrivals[i - 1].0)), arrivals[i].0)
  }

  /** Nothing is lost exactly when every arrival is ahead of the one just before it. */
  lemma {:induction false} KeptAll(arrivals: seq<(u16, Payload)>)
    ensures Kept(arrivals) == arrivals <==> AllFollow(arrivals)
    ensures |Kept(arrivals)| <= |arrivals| && (|Kept(arrivals)| == |arrivals| ==> Kept(arrivals) == arrivals)
  {
    if arrivals == [] {
    } else {
      var n := |arrivals| - 1;
      var init := arrivals[..n];
      assert arrivals == init + [arrivals[n]];
      KeptAll(init);
      KeptSnoc(init, arrivals[n]);
      hide Kept, Follows;
      assert Kept(arrivals) == arrivals <==> Kept(init) == init && (init == [] || Follows(Wanted(init), arrivals[n].0));
    }
  }

  /** The loop never reorders: of 0, 2, 1 the late 1 is lost, although the buffer has room. */
  lemma {:induction false} LatePacketIsLost(a: Payload, b: Payload, c: Payload)
    ensures Kept([(0, a), (2, c), (1, b)]) == [(0, a), (2, c)]
  {
    var x: (u16, Payload), y: (u16, Payload), z: (u16, Payload) := (0, a), (2, c), (1, b);
    KeptSnoc([x, y], z);
    KeptSnoc([x], y);
    KeptSnoc([], x);
    assert [x, y] + [z] == [x, y, z] && [x] + [y] == [x, y] && [] + [x] == [x];
  }

  // ----- when frames are lost ------------------------------------------------------------------------

  const START := Progress(None, [], [], 0)

  /** Ahead of the baseline, or at it, in the 16-bit cycle. */
  lemma {:induction false} FollowsMeans(base: u16, sn: u16)
    ensures Follows(Some(base), sn) <==> (sn - base) % 65536 < 32768
  {
  }

  /** The event brings a packet that is emitted. */
  predicate Brings(before: seq<Event>, event: Event) {
    |Kept(Arrivals(before + [event]))| > |Kept(Arrivals(before))|
  }

  lemma {:induction false} RunNext(capacity: nat, channels: u16, sampleRate: u32, before: seq<Event>, event: Event)
    ensures AfterEvents(START, capacity, channels, sampleRate, before + [event])
         == AfterEvent(AfterEvents(START, capacity, channels, sampleRate, before), capacity, channels, sampleRate,
                       event)
    ensures Arrivals(before + [event]) == Arrivals(before) + Arrival(event)
  {
    assert (before + [event])[..|before|] == before;
  }

  lemma {:induction false} BringsMeans(p: Progress, before: seq<Event>, event: Event)
    requires p.next == Wanted(Kept(Arrivals(before))) && Arrivals(before + [event]) == Arrivals(before) + Arrival(event)
    ensures Brings(before, event) <==> Arrival(event) != [] && Follows(p.next, Arrival(event)[0].0)
  {
    hide Kept, Follows, Received;
    if Arrival(event) == [] {
      assert Arrivals(before) + [] == Arrivals(before);
    } else {
      KeptSnoc(Arrivals(before), Arrival(event)[0]);
    }
  }

  /** At every point of every run: the ring is within its capacity; the next event loses a frame exactly
      when it brings one and the ring is full; the graph gets one exactly when it asks and the ring is
      not empty. */
  lemma {:induction false} LossNeedsFullRing(capacity: nat, channels: u16, sampleRate: u32, before: seq<Event>,
                                             event: Event)
    ensures var p := AfterEvents(START, capacity, channels, sampleRate, before);
            var p' := AfterEvents(START, capacity, channels, sampleRate, before + [event]);
            && |p.ring| <= capacity && |p'.ring| <= capacity
            && p'.dropped == p.dropped + (if Brings(before, event) && |p.ring| == capacity then 1 else 0)
            && |p'.taken| == |p.taken| + (if event.Take? && p.ring != [] then 1 else 0)
    decreases |before|
  {
    hide AfterEvents, AfterEvent, Arrivals, Kept, Follows, Received, Wanted, Brings;
    if before == [] {
      StartIs(capacity, channels, sampleRate);
    } else {
      var n := |before| - 1;
      LossNeedsFullRing(capacity, channels, sampleRate, before[..n], before[n]);
      assert before[..n] + [before[n]] == before;
    }
    var p := AfterEvents(START, capacity, channels, sampleRate, before);
    RunIsAccounted(capacity, channels, sampleRate, before);
    RunNext(capacity, channels, sampleRate, before, event);
    EventCounts(p, capacity, channels, sampleRate, event);
    BringsMeans(p, before, event);
  }

  lemma {:induction false} StartIs(capacity: nat, channels: u16, sampleRate: u32)
    ensures AfterEvents(START, capacity, channels, sampleRate, []) == START
  {
  }

  lemma {:induction false} EventCounts(p: Progress, capacity: nat, channels: u16, sampleRate: u32, event: Event)
    requires |p.ring| <= capacity
    ensures var p' := AfterEvent(p, capacity, channels, sampleRate, event);
            var brings := Arrival(event) != [] && Follows(p.next, Arrival(event)[0].0);
            && |p'.ring| <= capacity
            && p'.dropped == p.dropped + (if brings && |p.ring| == capacity then 1 else 0)
            && |p'.taken| == |p.taken| + (if event.Take? && p.ring != [] then 1 else 0)
  {
    hide Follows, Received, Frame;
  }

  /** There was room whenever a packet that is emitted came. */
  ghost predicate RoomAtArrivals(capacity: nat, channels: u16, sampleRate: u32, events: seq<Event>) {
    forall i :: 0 <= i < |events| && Brings(events[..i], events[i]) ==>
      |AfterEvents(START, capacity, channels, sampleRate, events[..i]).ring| < capacity
  }

  lemma {:induction false} RoomSnoc(capacity: nat, channels: u16, sampleRate: u32, before: seq<Event>, event: Event)
    ensures RoomAtArrivals(capacity, channels, sampleRate, before + [event]) <==>
              && RoomAtArrivals(capacity, channels, sampleRate, before)
              && (Brings(before, event) ==>
                    |AfterEvents(START, capacity, channels, sampleRate, before).ring| < capacity)
  {
    hide Brings, AfterEvents;
    var all, n := before + [event], |before|;
    assert all[..n] == before && all[n] == event;
    forall i | 0 <= i < n ensures all[..i] == before[..i] && all[i] == before[i] {
    }
  }

  /** So nothing is dropped exactly when there was room at every such arrival; and then the frames taken
      and queued are the emitted ones, every one and in order. */
  lemma {:induction false} NothingDroppedExactlyWhen(capacity: nat, channels: u16, sampleRate: u32, events: seq<Event>)
    ensures var p := AfterEvents(START, capacity, channels, sampleRate, events);
            && (p.dropped == 0 <==> RoomAtArrivals(capacity, channels, sampleRate, events))
            && (p.taken + p.ring == Frames(channels, sampleRate, Kept(Arrivals(events))) <==> p.dropped == 0)
  {
    RunIsAccounted(capacity, channels, sampleRate, events);
    hide Kept, Thinned, Frames, Arrivals, RoomAtArrivals;
    if events == [] {
      RoomNone(capacity, channels, sampleRate);
    } else {
      var n := |events| - 1;
      var before, event := events[..n], events[n];
      assert before + [event] == events;
      NothingDroppedExactlyWhen(capacity, channels, sampleRate, before);
      LossNeedsFullRing(capacity, channels, sampleRate, before, event);
      hide AfterEvents, Brings;
      RoomSnoc(capacity, channels, sampleRate, before, event);
    }
  }

  lemma {:induction false} RoomNone(capacity: nat, channels: u16, sampleRate: u32)
    ensures RoomAtArrivals(capacity, channels, sampleRate, [])
  {
  }
}
