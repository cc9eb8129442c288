/**
 The RTP receive-side reorder buffer: packets keyed by 16-bit sequence number,
 emitted in wrap-aware order, with explicit gap skipping and a capacity.
 */
module Jitter {
  import opened Common

  /** `to.wrapping_sub(from) as i16`: the one distance in the signed window that leads
      from `from` to `to`. */
  function ForwardDistance(from: u16, to: u16): (d: int)
    ensures -32768 <= d < 32768
    ensures (from + d) % 65536 == to
  {
    var w := (to - from) % 65536;
    if w < 32768 then w else w - 65536
  }

  /** Any unbounded difference that stays inside the signed window is recovered exactly
      from the two wrapped sequence numbers. */
  lemma {:induction false} DistanceRecovers(from: nat, to: nat)
    requires -32768 <= to - from < 32768
    ensures ForwardDistance(from % 65536, to % 65536) == to - from
  {
    var d := ForwardDistance(from % 65536, to % 65536);
    assert (from % 65536 + d) % 65536 == to % 65536;
    assert (d - (to - from)) % 65536 == 0;
  }

  datatype PushOutcome<+T> = Accepted | Duplicate | Rejected(payload: T)

  /** Operations and outputs, over 16-bit numbers (`u16`) or unbounded indices (`nat`). */
  datatype Op<+K, +T> = PushOp(sn: K, payload: T) | PopOp | SkipOp

  datatype Output<+K, +T> = Pushed(outcome: PushOutcome<T>) | Popped(packet: Option<(K, T)>) | Skipped(count: nat)

  // ----- the 16-bit buffer -----------------------------------------------------------

  datatype Buffer<+T> = Buffer(nextSeq: Option<u16>, buf: map<u16, T>, capacity: nat)

  function New<T>(capacity: nat): Buffer<T> {
    Buffer(None, map[], capacity)
  }

  function AfterPush<T>(s: Buffer<T>, sn: u16, payload: T): (Buffer<T>, PushOutcome<T>) {
    if s.nextSeq.Some? && ForwardDistance(s.nextSeq.value, sn) < 0 then
      (s, Duplicate)
    else
      var s1 := s.(nextSeq := Some(if s.nextSeq.Some? then s.nextSeq.value else sn));
      if sn in s.buf then (s1, Duplicate)
      else if |s.buf| >= s.capacity then (s1, Rejected(payload))
      else (s1.(buf := s.buf[sn := payload]), Accepted)
  }

  function AfterPop<T>(s: Buffer<T>): (Buffer<T>, Option<(u16, T)>) {
    if s.nextSeq.Some? && s.nextSeq.value in s.buf then
      var n := s.nextSeq.value;
      (s.(nextSeq := Some((n + 1) % 65536), buf := s.buf - {n}), Some((n, s.buf[n])))
    else
      (s, None)
  }

  /** `sn` is the buffered key with the smallest positive forward distance from `base`. */
  ghost predicate IsNearest(base: u16, keys: set<u16>, sn: u16) {
    && sn in keys
    && ForwardDistance(base, sn) > 0
    && forall k :: k in keys && ForwardDistance(base, k) > 0 ==> ForwardDistance(base, sn) <= ForwardDistance(base, k)
  }

  ghost function AfterSkip<T>(s: Buffer<T>): (Buffer<T>, nat) {
    if s.nextSeq.Some? && s.nextSeq.value !in s.buf && exists sn :: IsNearest(s.nextSeq.value, s.buf.Keys, sn) then
      var sn :| IsNearest(s.nextSeq.value, s.buf.Keys, sn);
      (s.(nextSeq := Some(sn)), ForwardDistance(s.nextSeq.value, sn))
    else
      (s, 0)
  }

  ghost function Step<T>(s: Buffer<T>, op: Op<u16, T>): (Buffer<T>, Output<u16, T>) {
    match op
    case PushOp(sn, payload) => var r := AfterPush(s, sn, payload); (r.0, Pushed(r.1))
    case PopOp => var r := AfterPop(s); (r.0, Popped(r.1))
    case SkipOp => var r := AfterSkip(s); (r.0, Skipped(r.1))
  }

  ghost function Run<T>(s: Buffer<T>, ops: seq<Op<u16, T>>): (r: (Buffer<T>, seq<Output<u16, T>>))
    ensures |r.1| == |ops|
  {
    if ops == [] then (s, [])
    else
      var r := Run(s, ops[..|ops| - 1]);
      var last := Step(r.0, ops[|ops| - 1]);
      (last.0, r.1 + [last.1])
  }

  // ----- the ideal buffer: a sorted waiting list over unbounded indices -------------------

  datatype Ideal<+T> = Ideal(next: Option<nat>, items: seq<(nat, T)>, capacity: nat)

  function NewIdeal<T>(capacity: nat): Ideal<T> {
    Ideal(None, [], capacity)
  }

  ghost predicate Increasing<T>(packets: seq<(nat, T)>) {
    forall i, j :: 0 <= i < j < |packets| ==> packets[i].0 < packets[j].0
  }

  predicate Holds<T>(items: seq<(nat, T)>, index: nat) {
    exists i :: 0 <= i < |items| && items[i].0 == index
  }

  /** How many leading items come before `index`. */
  function Rank<T>(items: seq<(nat, T)>, index: nat): (r: nat)
    ensures r <= |items|
    ensures forall i :: 0 <= i < r ==> items[i].0 < index
    ensures r < |items| ==> index <= items[r].0
  {
    if items == [] || index <= items[0].0 then 0 else 1 + Rank(items[1..], index)
  }

  function Insert<T>(items: seq<(nat, T)>, index: nat, payload: T): (more: seq<(nat, T)>)
    ensures |more| == |items| + 1
  {
    var r := Rank(items, index);
    items[..r] + [(index, payload)] + items[r..]
  }

  function IdealPush<T>(u: Ideal<T>, index: nat, payload: T): (Ideal<T>, PushOutcome<T>) {
    var next := if u.next.Some? then u.next.value else index;
    var u1 := u.(next := Some(next));
    if index < next || Holds(u.items, index) then (u1, Duplicate)
    else if |u.items| >= u.capacity then (u1, Rejected(payload))
    else (u1.(items := Insert(u.items, index, payload)), Accepted)
  }

  function IdealPop<T>(u: Ideal<T>): (Ideal<T>, Option<(nat, T)>) {
    if u.next.Some? && u.items != [] && u.items[0].0 == u.next.value then
      (u.(next := Some(u.next.value + 1), items := u.items[1..]), Some(u.items[0]))
    else
      (u, None)
  }

  function IdealSkip<T>(u: Ideal<T>): (Ideal<T>, nat) {
    if u.next.Some? && u.items != [] && u.next.value < u.items[0].0 then
      (u.(next := Some(u.items[0].0)), u.items[0].0 - u.next.value)
    else
      (u, 0)
  }

  function IdealStep<T>(u: Ideal<T>, op: Op<nat, T>): (Ideal<T>, Output<nat, T>) {
    match op
    case PushOp(index, payload) => var r := IdealPush(u, index, payload); (r.0, Pushed(r.1))
    case PopOp => var r := IdealPop(u); (r.0, Popped(r.1))
    case SkipOp => var r := IdealSkip(u); (r.0, Skipped(r.1))
  }

  function IdealRun<T>(u: Ideal<T>, ops: seq<Op<nat, T>>): (r: (Ideal<T>, seq<Output<nat, T>>))
    ensures |r.1| == |ops| && r.0.capacity == u.capacity
  {
    if ops == [] then (u, [])
    else
      var r := IdealRun(u, ops[..|ops| - 1]);
      var last := IdealStep(r.0, ops[|ops| - 1]);
      (last.0, r.1 + [last.1])
  }

  // ----- the 16-bit buffer refines the ideal one ------------------------------------------

  function WrapOp<T>(op: Op<nat, T>): Op<u16, T> {
    match op
    case PushOp(index, payload) => PushOp(index % 65536, payload)
    case PopOp => PopOp
    case SkipOp => SkipOp
  }

  function WrapOps<T>(ops: seq<Op<nat, T>>): (wrapped: seq<Op<u16, T>>)
    ensures |wrapped| == |ops| && forall i :: 0 <= i < |ops| ==> wrapped[i] == WrapOp(ops[i])
  {
    if ops == [] then [] else WrapOps(ops[..|ops| - 1]) + [WrapOp(ops[|ops| - 1])]
  }

  function WrapOutput<T>(o: Output<nat, T>): Output<u16, T> {
    match o
    case Pushed(outcome) => Pushed(outcome)
    case Popped(None) => Popped(None)
    case Popped(Some(p)) => Popped(Some((p.0 % 65536, p.1)))
    case Skipped(n) => Skipped(n)
  }

  function WrapOutputs<T>(outs: seq<Output<nat, T>>): (wrapped: seq<Output<u16, T>>)
    ensures |wrapped| == |outs| && forall i :: 0 <= i < |outs| ==> wrapped[i] == WrapOutput(outs[i])
  {
    if outs == [] then [] else WrapOutputs(outs[..|outs| - 1]) + [WrapOutput(outs[|outs| - 1])]
  }

  /** `buf` holds `items` with the indices reduced modulo 65536, all of them in the half-window
      ahead of `base`, and nothing else. */
  ghost predicate Mirrors<T>(base: nat, buf: map<u16, T>, items: seq<(nat, T)>) {
    && |buf| == |items|
    && Increasing(items)
    && (forall i :: 0 <= i < |items| ==>
          && 0 <= items[i].0 - base < 32768
          && items[i].0 % 65536 in buf && buf[items[i].0 % 65536] == items[i].1)
  }

  function Wrapped<T>(items: seq<(nat, T)>): set<u16> {
    if items == [] then {} else Wrapped(items[1..]) + {items[0].0 % 65536}
  }

  lemma {:induction false} WrappedItem<T>(items: seq<(nat, T)>, q: u16) returns (i: nat)
    requires q in Wrapped(items)
    ensures i < |items| && items[i].0 % 65536 == q
  {
    if items[0].0 % 65536 == q {
      i := 0;
    } else {
      i := WrappedItem(items[1..], q);
      i := i + 1;
    }
  }

  lemma {:induction false} WrappedIsDistinct<T>(base: nat, items: seq<(nat, T)>)
    requires Increasing(items) && forall i :: 0 <= i < |items| ==> 0 <= items[i].0 - base < 32768
    ensures |Wrapped(items)| == |items|
  {
    if items == [] {
    } else {
      WrappedIsDistinct(base, items[1..]);
      if items[0].0 % 65536 in Wrapped(items[1..]) {
        var i := WrappedItem(items[1..], items[0].0 % 65536);
        DistanceRecovers(base, items[0].0);
        DistanceRecovers(base, items[i + 1].0);
      }
    }
  }

  lemma {:induction false} WrappedWithin<T>(buf: map<u16, T>, items: seq<(nat, T)>)
    requires forall i :: 0 <= i < |items| ==> items[i].0 % 65536 in buf
    ensures Wrapped(items) <= buf.Keys
  {
    if items == [] {
    } else {
      WrappedWithin(buf, items[1..]);
    }
  }

  lemma {:induction false} SameSizeSubset(a: set<u16>, b: set<u16>)
    requires a <= b && |a| == |b|
    ensures a == b
  {
    assert b == a + (b - a);
    assert |b| == |a| + |b - a|;
  }

  /** Every buffered sequence number belongs to a waiting item. */
  lemma {:induction false} ItemOf<T>(base: nat, buf: map<u16, T>, items: seq<(nat, T)>, q: u16) returns (i: nat)
    requires Mirrors(base, buf, items) && q in buf
    ensures i < |items| && items[i].0 % 65536 == q
    ensures ForwardDistance(base % 65536, q) == items[i].0 - base
  {
    WrappedIsDistinct(base, items);
    WrappedWithin(buf, items);
    SameSizeSubset(Wrapped(items), buf.Keys);
    i := WrappedItem(items, q);
    DistanceRecovers(base, items[i].0);
  }

  ghost predicate Refines<T>(s: Buffer<T>, u: Ideal<T>) {
    && s.capacity == u.capacity
    && (u.next.None? ==> s.nextSeq.None? && u.items == [] && s.buf == map[])
    && (u.next.Some? ==> s.nextSeq == Some(u.next.value % 65536) && Mirrors(u.next.value, s.buf, u.items))
  }

  /** The pushed index is in the signed window around the current baseline. */
  predicate InWindow<T>(u: Ideal<T>, op: Op<nat, T>) {
    op.PushOp? && u.next.Some? ==> -32768 <= op.sn - u.next.value < 32768
  }

  /** A sequence number is buffered exactly when the index it stands for is. */
  lemma {:induction false} Lookup<T>(base: nat, buf: map<u16, T>, items: seq<(nat, T)>, k: nat)
    requires Mirrors(base, buf, items) && -32768 <= k - base < 32768
    ensures k % 65536 in buf <==> Holds(items, k)
  {
    if k % 65536 in buf {
      var i := ItemOf(base, buf, items, k % 65536);
      DistanceRecovers(base, k);
    }
  }

  lemma {:induction false} MirrorsInsert<T>(base: nat, buf: map<u16, T>, items: seq<(nat, T)>, k: nat, v: T)
    requires Mirrors(base, buf, items) && 0 <= k - base < 32768 && !Holds(items, k)
    ensures Mirrors(base, buf[k % 65536 := v], Insert(items, k, v))
  {
    Lookup(base, buf, items, k);
    InsertIncreasing(items, k, v, base);
    forall i | 0 <= i <= |items| ensures var item := Insert(items, k, v)[i];
      && 0 <= item.0 - base < 32768 && item.0 % 65536 in buf[k % 65536 := v]
      && buf[k % 65536 := v][item.0 % 65536] == item.1
    {
      InsertAt(items, k, v, i);
    }
  }

  lemma {:induction false} MirrorsPop<T>(base: nat, buf: map<u16, T>, items: seq<(nat, T)>)
    requires Mirrors(base, buf, items) && items != [] && items[0].0 == base
    ensures Mirrors(base + 1, buf - {base % 65536}, items[1..])
  {
    var buf' := buf - {base % 65536};
    assert buf'.Keys == buf.Keys - {base % 65536};
    DistanceRecovers(base, base);
    forall i | 0 < i < |items| ensures items[i].0 % 65536 in buf' && buf'[items[i].0 % 65536] == items[i].1 {
      DistanceRecovers(base, items[i].0);
    }
  }

  lemma {:induction false} PushRefines<T>(s: Buffer<T>, u: Ideal<T>, index: nat, payload: T)
    requires Refines(s, u) && InWindow(u, PushOp(index, payload))
    ensures Refines(AfterPush(s, index % 65536, payload).0, IdealPush(u, index, payload).0)
    ensures AfterPush(s, index % 65536, payload).1 == IdealPush(u, index, payload).1
  {
    var base := if u.next.Some? then u.next.value else index;
    DistanceRecovers(base, index);
    Lookup(base, s.buf, u.items, index);
    if base <= index && !Holds(u.items, index) {
      MirrorsInsert(base, s.buf, u.items, index, payload);
    }
  }

  lemma {:induction false} WrapSucc(n: nat)
    ensures (n % 65536 + 1) % 65536 == (n + 1) % 65536
  {
    var q, r := n / 65536, n % 65536;
    assert n == 65536 * q + r;
    if r == 65535 {
      assert n + 1 == 65536 * (q + 1);
    }
  }

  lemma {:induction false} PopRefines<T>(s: Buffer<T>, u: Ideal<T>)
    requires Refines(s, u)
    ensures Refines(AfterPop(s).0, IdealPop(u).0)
    ensures Popped(AfterPop(s).1) == WrapOutput(Popped(IdealPop(u).1))
  {
    if u.next.Some? {
      var base := u.next.value;
      Lookup(base, s.buf, u.items, base);
      if u.items != [] && u.items[0].0 == base {
        MirrorsPop(base, s.buf, u.items);
        WrapSucc(base);
      }
    }
  }

  /** Nothing is nearer than the first waiting item: its sequence number is the one key that
      the search over the hash map can return, whatever the iteration order. */
  lemma {:induction false} FirstIsNearest<T>(base: nat, buf: map<u16, T>, items: seq<(nat, T)>)
    requires Mirrors(base, buf, items) && items != [] && base < items[0].0
    ensures var sn := items[0].0 % 65536;
            && IsNearest(base % 65536, buf.Keys, sn)
            && ForwardDistance(base % 65536, sn) == items[0].0 - base
            && forall other :: IsNearest(base % 65536, buf.Keys, other) ==> other == sn
  {
    DistanceRecovers(base, items[0].0);
    forall q | q in buf ensures ForwardDistance(base % 65536, q) >= items[0].0 - base {
      var i := ItemOf(base, buf, items, q);
    }
  }

  lemma {:induction false} SkipRefines<T>(s: Buffer<T>, u: Ideal<T>)
    requires Refines(s, u)
    ensures Refines(AfterSkip(s).0, IdealSkip(u).0)
    ensures AfterSkip(s).1 == IdealSkip(u).1
  {
    if u.next.Some? {
      var base := u.next.value;
      Lookup(base, s.buf, u.items, base);
      if u.items == [] {
        assert s.buf.Keys == {};
      } else if base < u.items[0].0 {
        FirstIsNearest(base, s.buf, u.items);
      }
    }
  }

  /** One operation: the wrapped buffer and the ideal one answer alike and stay related. */
  lemma {:induction false} StepRefines<T>(s: Buffer<T>, u: Ideal<T>, op: Op<nat, T>)
    requires Refines(s, u) && InWindow(u, op)
    ensures Refines(Step(s, WrapOp(op)).0, IdealStep(u, op).0)
    ensures Step(s, WrapOp(op)).1 == WrapOutput(IdealStep(u, op).1)
  {
    match op
    case PushOp(index, payload) => PushRefines(s, u, index, payload);
    case PopOp => PopRefines(s, u);
    case SkipOp => SkipRefines(s, u);
  }

  /** Every pushed index was in the window when it arrived. */
  ghost predicate InWindowRun<T>(capacity: nat, ops: seq<Op<nat, T>>) {
    forall i :: 0 <= i < |ops| ==> InWindow(IdealRun(NewIdeal(capacity), ops[..i]).0, ops[i])
  }

  /** Whole runs: across any number of wraps, the 16-bit buffer produces exactly the
      outputs of the buffer over unbounded indices. */
  lemma {:induction false} RunRefines<T>(capacity: nat, ops: seq<Op<nat, T>>)
    requires InWindowRun(capacity, ops)
    ensures var r, i := Run(New(capacity), WrapOps(ops)), IdealRun(NewIdeal(capacity), ops);
            Refines(r.0, i.0) && r.1 == WrapOutputs(i.1)
  {
    if ops == [] {
    } else {
      var init, last := ops[..|ops| - 1], ops[|ops| - 1];
      assert forall i :: 0 <= i < |init| ==> init[..i] == ops[..i];
      RunRefines(capacity, init);
      assert WrapOps(ops)[..|ops| - 1] == WrapOps(init);
      StepRefines(Run(New(capacity), WrapOps(init)).0, IdealRun(NewIdeal(capacity), init).0, last);
    }
  }

  // ----- runs with no assumption on the arrivals --------------------------------------------

  /** The index nearest `base` whose sequence number is `q`. */
  function Unwrap(base: nat, q: u16): (k: int)
    ensures k % 65536 == q && -32768 <= k - base < 32768
  {
    var k := base + ForwardDistance(base % 65536, q);
    assert k % 65536 == (base % 65536 + ForwardDistance(base % 65536, q)) % 65536;
    k
  }

  /** The operation over indices that a 16-bit operation stands for. The first packet is placed
      one full cycle up, so that indices behind the baseline stay natural numbers. */
  function LiftOp<T>(next: Option<nat>, op: Op<u16, T>): Op<nat, T>
    requires next.Some? ==> 65536 <= next.value
  {
    match op
    case PushOp(sn, payload) => PushOp(if next.Some? then Unwrap(next.value, sn) else sn + 65536, payload)
    case PopOp => PopOp
    case SkipOp => SkipOp
  }

  function Lift<T>(capacity: nat, ops: seq<Op<u16, T>>): (lifted: seq<Op<nat, T>>)
    ensures var next := IdealRun(NewIdeal(capacity), lifted).0.next; next.Some? ==> 65536 <= next.value
  {
    if ops == [] then []
    else
      var init := Lift(capacity, ops[..|ops| - 1]);
      var all := init + [LiftOp(IdealRun(NewIdeal(capacity), init).0.next, ops[|ops| - 1])];
      assert all[..|init|] == init;
      all
  }

  lemma {:induction false} InWindowExtend<T>(capacity: nat, ops: seq<Op<nat, T>>, op: Op<nat, T>)
    requires InWindowRun(capacity, ops) && InWindow(IdealRun(NewIdeal(capacity), ops).0, op)
    ensures InWindowRun(capacity, ops + [op])
  {
    var all := ops + [op];
    assert all[..|ops|] == ops;
    forall i | 0 <= i < |ops| ensures InWindow(IdealRun(NewIdeal(capacity), all[..i]).0, all[i]) {
      assert all[i] == ops[i] && all[..i] == ops[..i];
    }
  }

  lemma {:induction false} WrapOpsSnoc<T>(ops: seq<Op<nat, T>>, op: Op<nat, T>)
    ensures WrapOps(ops + [op]) == WrapOps(ops) + [WrapOp(op)]
  {
    assert (ops + [op])[..|ops|] == ops;
  }

  lemma {:induction false} LiftOpWraps<T>(next: Option<nat>, op: Op<u16, T>)
    requires next.Some? ==> 65536 <= next.value
    ensures WrapOp(LiftOp(next, op)) == op
  {
  }

  lemma {:induction false} LiftWraps<T>(capacity: nat, ops: seq<Op<u16, T>>)
    ensures WrapOps(Lift(capacity, ops)) == ops
  {
    if ops == [] {
    } else {
      var init, op := ops[..|ops| - 1], ops[|ops| - 1];
      assert init + [op] == ops;
      LiftWraps(capacity, init);
      var next := IdealRun(NewIdeal(capacity), Lift(capacity, init)).0.next;
      LiftOpWraps(next, op);
      WrapOpsSnoc(Lift(capacity, init), LiftOp(next, op));
    }
  }

  lemma {:induction false} LiftIsInWindow<T>(capacity: nat, ops: seq<Op<u16, T>>)
    ensures InWindowRun(capacity, Lift(capacity, ops))
  {
    if ops == [] {
    } else {
      var n := |ops| - 1;
      LiftIsInWindow(capacity, ops[..n]);
      var init := Lift(capacity, ops[..n]);
      InWindowExtend(capacity, init, LiftOp(IdealRun(NewIdeal(capacity), init).0.next, ops[n]));
    }
  }

  /** The packets handed out by `pop`, in order. */
  function Emitted<K, T>(outs: seq<Output<K, T>>): seq<(K, T)> {
    if outs == [] then []
    else
      var last := outs[|outs| - 1];
      Emitted(outs[..|outs| - 1]) + if last.Popped? && last.packet.Some? then [last.packet.value] else []
  }

  /** The packets `push` accepted, in order. */
  function Admitted<K, T>(ops: seq<Op<K, T>>, outs: seq<Output<K, T>>): seq<(K, T)>
    requires |ops| == |outs|
  {
    if ops == [] then []
    else
      var n := |ops| - 1;
      Admitted(ops[..n], outs[..n]) +
      if ops[n].PushOp? && outs[n] == Pushed(Accepted) then [(ops[n].sn, ops[n].payload)] else []
  }

  /** Within capacity; what was emitted and what still waits are both in strictly increasing
      order, with the baseline in between; and together they are a rearrangement of what was
      accepted. So nothing is emitted twice or out of order and nothing accepted is lost. */
  ghost predicate Orderly<T>(admitted: seq<(nat, T)>, emitted: seq<(nat, T)>, u: Ideal<T>) {
    Ordered(emitted, u) && multiset(admitted) == multiset(emitted + u.items)
  }

  ghost predicate Ordered<T>(emitted: seq<(nat, T)>, u: Ideal<T>) {
    && |u.items| <= u.capacity
    && Increasing(emitted)
    && Increasing(u.items)
    && (u.next.None? ==> u.items == [] && emitted == [])
    && (u.next.Some? ==>
          && (forall i :: 0 <= i < |u.items| ==> u.next.value <= u.items[i].0)
          && (forall i :: 0 <= i < |emitted| ==> emitted[i].0 < u.next.value))
  }

  lemma {:induction false} InsertAt<T>(items: seq<(nat, T)>, k: nat, v: T, i: nat)
    requires i <= |items|
    ensures var r := Rank(items, k);
            Insert(items, k, v)[i] == if i < r then items[i] else if i == r then (k, v) else items[i - 1]
  {
  }

  lemma {:induction false} InsertIncreasing<T>(items: seq<(nat, T)>, k: nat, v: T, low: nat)
    requires Increasing(items) && !Holds(items, k)
    requires low <= k && forall i :: 0 <= i < |items| ==> low <= items[i].0
    ensures Increasing(Insert(items, k, v))
    ensures forall i :: 0 <= i < |items| + 1 ==> low <= Insert(items, k, v)[i].0
  {
    var r, items' := Rank(items, k), Insert(items, k, v);
    forall i | 0 <= i <= |items| ensures low <= items'[i].0 {
      InsertAt(items, k, v, i);
    }
    forall i, j | 0 <= i < j <= |items| ensures items'[i].0 < items'[j].0 {
      InsertAt(items, k, v, i);
      InsertAt(items, k, v, j);
      assert r < |items| ==> items[r].0 != k;
    }
  }

  lemma {:induction false} InsertRearranges<T>(front: seq<(nat, T)>, items: seq<(nat, T)>, k: nat, v: T)
    ensures multiset(front + Insert(items, k, v)) == multiset(front + items + [(k, v)])
  {
    var r := Rank(items, k);
    assert items == items[..r] + items[r..];
    assert front + Insert(items, k, v) == front + items[..r] + [(k, v)] + items[r..];
    assert front + items + [(k, v)] == front + items[..r] + items[r..] + [(k, v)];
  }

  lemma {:induction false} PushIsOrdered<T>(emitted: seq<(nat, T)>, u: Ideal<T>, index: nat, payload: T)
    requires Ordered(emitted, u)
    ensures Ordered(emitted, IdealPush(u, index, payload).0)
  {
    hide Insert, Holds;
    if IdealPush(u, index, payload).1 == Accepted {
      InsertIncreasing(u.items, index, payload, if u.next.Some? then u.next.value else index);
    }
  }

  lemma {:induction false} PushIsOrderly<T>(admitted: seq<(nat, T)>, emitted: seq<(nat, T)>, u: Ideal<T>, index: nat,
                                            payload: T)
    requires Orderly(admitted, emitted, u)
    ensures var r := IdealPush(u, index, payload);
            Orderly(if r.1 == Accepted then admitted + [(index, payload)] else admitted, emitted, r.0)
  {
    hide Insert, Holds, Ordered;
    PushIsOrdered(emitted, u, index, payload);
    if IdealPush(u, index, payload).1 == Accepted {
      InsertRearranges(emitted, u.items, index, payload);
    }
  }

  lemma {:induction false} PopIsOrderly<T>(admitted: seq<(nat, T)>, emitted: seq<(nat, T)>, u: Ideal<T>)
    requires Orderly(admitted, emitted, u)
    ensures var r := IdealPop(u); Orderly(admitted, emitted + if r.1.Some? then [r.1.value] else [], r.0)
  {
    if IdealPop(u).1.Some? {
      assert emitted + [u.items[0]] + u.items[1..] == emitted + u.items;
    } else {
      assert emitted + [] == emitted;
    }
  }

  lemma {:induction false} TraceExtends<K, T>(ops: seq<Op<K, T>>, outs: seq<Output<K, T>>, op: Op<K, T>,
                                              out: Output<K, T>)
    requires |ops| == |outs|
    ensures Emitted(outs + [out]) == Emitted(outs) + if out.Popped? && out.packet.Some? then [out.packet.value] else []
    ensures Admitted(ops + [op], outs + [out]) == Admitted(ops, outs) +
                  if op.PushOp? && out == Pushed(Accepted) then [(op.sn, op.payload)] else []
  {
    assert (ops + [op])[..|ops|] == ops && (outs + [out])[..|ops|] == outs;
  }

  lemma {:induction false} StepIsOrderly<T>(ops: seq<Op<nat, T>>, outs: seq<Output<nat, T>>, u: Ideal<T>,
                                            op: Op<nat, T>)
    requires |ops| == |outs| && Orderly<T>(Admitted<nat, T>(ops, outs), Emitted<nat, T>(outs), u)
    ensures var r := IdealStep(u, op);
            Orderly<T>(Admitted<nat, T>(ops + [op], outs + [r.1]), Emitted<nat, T>(outs + [r.1]), r.0)
  {
    hide Orderly, IdealPush, IdealPop, IdealSkip, Admitted, Emitted;
    var admitted: seq<(nat, T)>, emitted: seq<(nat, T)> := Admitted(ops, outs), Emitted(outs);
    TraceExtends(ops, outs, op, IdealStep(u, op).1);
    match op
    case PushOp(index, payload) =>
      PushIsOrderly(admitted, emitted, u, index, payload);
      assert emitted + [] == emitted && admitted + [] == admitted;
    case PopOp =>
      PopIsOrderly(admitted, emitted, u);
      assert admitted + [] == admitted;
    case SkipOp =>
      SkipIsOrderly(admitted, emitted, u);
      assert emitted + [] == emitted && admitted + [] == admitted;
  }

  lemma {:induction false} SkipIsOrderly<T>(admitted: seq<(nat, T)>, emitted: seq<(nat, T)>, u: Ideal<T>)
    requires Orderly(admitted, emitted, u)
    ensures Orderly(admitted, emitted, IdealSkip(u).0)
  {
  }

  lemma {:induction false} IdealIsOrderly<T>(capacity: nat, ops: seq<Op<nat, T>>)
    ensures var r := IdealRun(NewIdeal(capacity), ops);
            Orderly<T>(Admitted<nat, T>(ops, r.1), Emitted<nat, T>(r.1), r.0)
  {
    if ops == [] {
    } else {
      var init, op := ops[..|ops| - 1], ops[|ops| - 1];
      var before := IdealRun(NewIdeal(capacity), init);
      var after := IdealStep(before.0, op);
      assert init + [op] == ops;
      assert IdealRun(NewIdeal(capacity), ops) == (after.0, before.1 + [after.1]);
      IdealIsOrderly(capacity, init);
      StepIsOrderly(init, before.1, before.0, op);
    }
  }

  /** The guarantee of the 16-bit buffer for an arbitrary run, with no assumption on what
      arrives: it is the wrapped image of an orderly ideal run, its size stays within capacity
      and every buffered key is 0..32767 ahead of the next sequence number. */
  lemma {:induction false} ArbitraryRun<T>(capacity: nat, ops: seq<Op<u16, T>>)
    ensures var r, lifted := Run(New(capacity), ops), Lift(capacity, ops);
            var i := IdealRun(NewIdeal(capacity), lifted);
            && WrapOps(lifted) == ops && r.1 == WrapOutputs(i.1) && Refines(r.0, i.0)
            && Orderly<T>(Admitted<nat, T>(lifted, i.1), Emitted<nat, T>(i.1), i.0)
    ensures var s := Run(New(capacity), ops).0;
            && |s.buf| <= capacity
            && (forall q :: q in s.buf ==> s.nextSeq.Some? && 0 <= ForwardDistance(s.nextSeq.value, q) < 32768)
  {
    LiftWraps(capacity, ops);
    LiftIsInWindow(capacity, ops);
    var lifted := Lift(capacity, ops);
    RunRefines(capacity, lifted);
    IdealIsOrderly(capacity, lifted);
    AheadOfBaseline(Run(New(capacity), ops).0, IdealRun(NewIdeal(capacity), lifted).0);
  }

  lemma {:induction false} AheadOfBaseline<T>(s: Buffer<T>, u: Ideal<T>)
    requires Refines(s, u)
    ensures |s.buf| == |u.items|
    ensures forall q :: q in s.buf ==> s.nextSeq.Some? && 0 <= ForwardDistance(s.nextSeq.value, q) < 32768
  {
    forall q | q in s.buf ensures 0 <= ForwardDistance(s.nextSeq.value, q) {
      var i := ItemOf(u.next.value, s.buf, u.items, q);
    }
  }

  // ----- the object ------------------------------------------------------------------------------

  /** The buffer as the program keeps it: a cursor and a hash map, updated in place. */
  class JitterBuffer<T> {
    var nextSeq: Option<u16>
    var buf: map<u16, T>
    const capacity: nat

    ghost function State(): Buffer<T>
      reads this
    {
      Buffer(nextSeq, buf, capacity)
    }

    constructor (capacity: nat)
      ensures State() == New(capacity)
    {
      this.nextSeq := None;
      this.buf := map[];
      this.capacity := capacity;
    }

    method Push(sn: u16, payload: T) returns (outcome: PushOutcome<T>)
      modifies this
      ensures (State(), outcome) == AfterPush(old(State()), sn, payload)
    {
      match nextSeq {
        case None =>
          nextSeq := Some(sn);
        case Some(base) =>
          if ForwardDistance(base, sn) < 0 {
            return Duplicate;
          }
      }
      if sn in buf {
        return Duplicate;
      }
      if |buf| >= capacity {
        return Rejected(payload);
      }
      buf := buf[sn := payload];
      outcome := Accepted;
    }

    method Pop() returns (packet: Option<(u16, T)>)
      modifies this
      ensures (State(), packet) == AfterPop(old(State()))
    {
      match nextSeq
      case None =>
        packet := None;
      case Some(next) =>
        if next !in buf {
          return None;
        }
        packet := Some((next, buf[next]));
        buf := buf - {next};
        nextSeq := Some((next + 1) % 65536);
    }

    /** The search visits the keys in no particular order. */
    method SkipGap() returns (skipped: nat)
      modifies this
      ensures (State(), skipped) == AfterSkip(old(State()))
    {
      if nextSeq.None? || nextSeq.value in buf {
        return 0;
      }
      var base := nextSeq.value;
      var best: Option<(u16, int)> := None;
      var rest := buf.Keys;
      while rest != {}
        invariant rest <= buf.Keys
        invariant best.None? ==> forall k :: k in buf.Keys - rest ==> ForwardDistance(base, k) <= 0
        invariant best.Some? ==> best.value.1 == ForwardDistance(base, best.value.0)
        invariant best.Some? ==> IsNearest(base, buf.Keys - rest, best.value.0)
        decreases |rest|
      {
        var sn :| sn in rest;
        rest := rest - {sn};
        var d := ForwardDistance(base, sn);
        if d > 0 && (best.None? || d < best.value.1) {
          best := Some((sn, d));
        }
      }
      assert buf.Keys - rest == buf.Keys;
      match best
      case None =>
        skipped := 0;
      case Some((sn, d)) =>
        NearestUnique(base, buf.Keys, sn);
        nextSeq := Some(sn);
        skipped := d;
    }
  }

  lemma {:induction false} NearestUnique(base: u16, keys: set<u16>, sn: u16)
    requires IsNearest(base, keys, sn)
    ensures forall other :: IsNearest(base, keys, other) ==> other == sn
  {
  }

  // ----- single operations in plain terms ------------------------------------------------------------------

  /** A push is late or a duplicate exactly when it is behind the baseline in the 16-bit cycle or its number
      is buffered; of the others, it is refused exactly at capacity; the rest are stored. The first push that
      is not behind sets the baseline. */
  lemma {:induction false} PushDecides<T>(s: Buffer<T>, sn: u16, payload: T)
    ensures var (s', outcome) := AfterPush(s, sn, payload);
            var behind := s.nextSeq.Some? && (sn - s.nextSeq.value) % 65536 >= 32768;
            && (outcome == Duplicate <==> behind || sn in s.buf)
            && (outcome == Rejected(payload) <==> !behind && sn !in s.buf && |s.buf| >= s.capacity)
            && (outcome == Accepted <==> !behind && sn !in s.buf && |s.buf| < s.capacity)
            && s'.buf == (if outcome == Accepted then s.buf[sn := payload] else s.buf)
            && s'.nextSeq == (if s.nextSeq.Some? then s.nextSeq else Some(sn)) && s'.capacity == s.capacity
  {
  }

  /** A pop hands out a packet exactly when the one at the baseline is buffered, and takes it out. */
  lemma {:induction false} PopDecides<T>(s: Buffer<T>)
    ensures var (s', packet) := AfterPop(s);
            && (packet.Some? <==> s.nextSeq.Some? && s.nextSeq.value in s.buf)
            && (packet.None? ==> s' == s)
            && (packet.Some? ==>
                  var n := s.nextSeq.value;
                  && packet.value == (n, s.buf[n]) && s'.buf.Keys == s.buf.Keys - {n}
                  && (forall k :: k in s'.buf ==> s'.buf[k] == s.buf[k])
                  && s'.nextSeq == Some(if n == 65535 then 0 else n + 1))
  {
  }

  /** Places from one number forward to another. */
  function Gap(base: u16, k: u16): nat { (k as int - base) % 65536 }

  predicate Ahead(base: u16, k: u16) { 0 < Gap(base, k) < 32768 }

  /** A skip moves the baseline to the first buffered number ahead of it in the 16-bit cycle and counts the
      places in between; it does nothing when the baseline itself is buffered or nothing is ahead. */
  lemma {:induction false} SkipDecides<T>(s: Buffer<T>)
    ensures var (s', count) := AfterSkip(s);
            && s'.buf == s.buf && s'.capacity == s.capacity
            && (count == 0 ==> s' == s)
            && (count > 0 <==> && s.nextSeq.Some? && s.nextSeq.value !in s.buf
                               && exists k :: k in s.buf && Ahead(s.nextSeq.value, k))
            && (count > 0 ==>
                  && s'.nextSeq.Some? && s'.nextSeq.value in s.buf && Gap(s.nextSeq.value, s'.nextSeq.value) == count
                  && forall k :: k in s.buf && Ahead(s.nextSeq.value, k) ==> count <= Gap(s.nextSeq.value, k))
  {
    hide ForwardDistance, Gap;
    if s.nextSeq.Some? {
      var base := s.nextSeq.value;
      forall k: u16
        ensures Ahead(base, k) == (ForwardDistance(base, k) > 0)
        ensures Ahead(base, k) ==> ForwardDistance(base, k) == Gap(base, k)
      {
        AheadMeans(base, k);
      }
      hide Ahead;
      if k :| k in s.buf && Ahead(base, k) {
        HasNearest(base, s.buf.Keys, k);
      }
    }
  }

  lemma {:induction false} AheadMeans(base: u16, k: u16)
    ensures Ahead(base, k) == (ForwardDistance(base, k) > 0)
    ensures Ahead(base, k) ==> ForwardDistance(base, k) == Gap(base, k)
  {
  }

  lemma {:induction false} HasNearest(base: u16, keys: set<u16>, k: u16)
    requires k in keys && ForwardDistance(base, k) > 0
    ensures exists sn :: IsNearest(base, keys, sn)
    decreases ForwardDistance(base, k)
  {
    if nearer :| nearer in keys && 0 < ForwardDistance(base, nearer) < ForwardDistance(base, k) {
      HasNearest(base, keys, nearer);
    } else {
      assert IsNearest(base, keys, k);
    }
  }
}
