/** The reverb: eight damped comb filters in parallel, four allpass filters in series. */
module Reverb {
  import opened Blocks
  import opened Common
  import opened Layout
  import opened Ring
  import Delay

  const COMB_DELAYS_441: seq<nat> := [1116, 1188, 1277, 1356, 1422, 1491, 1557, 1617]
  const ALLPASS_DELAYS_441: seq<nat> := [556, 441, 341, 225]
  const COMBS_PER_CHANNEL := 8
  const ALLPASSES_PER_CHANNEL := 4
  const ALLPASS_FEEDBACK := 0.5
  const REFERENCE_RATE := 44_100

  // ----- comb filter on a whole stream ---------------------------------------------------------------------

  /** The line and the lowpass state after a stream. */
  datatype CombState = CombState(kept: seq<real>, low: real)

  /** out[n] = kept[n - d]; low[n] = out[n] * (1 - damp) + low[n - 1] * damp; kept[n] = x[n] + low[n] * f. */
  function Comb(x: seq<real>, d: nat, f: real, damp: real): (s: CombState)
    ensures |s.kept| == |x|
  {
    if |x| == 0 then CombState([], 0.0)
    else
      var n := |x| - 1;
      var s := Comb(x[..n], d, f, damp);
      var low := Mixed(Past(s.kept, n - d), s.low, damp);
      CombState(s.kept + [Fed(x[n], low, f)], low)
  }

  function CombOut(x: seq<real>, d: nat, f: real, damp: real): (y: seq<real>)
    ensures |y| == |x|
  {
    if |x| == 0 then []
    else
      var n := |x| - 1;
      CombOut(x[..n], d, f, damp) + [Past(Comb(x[..n], d, f, damp).kept, n - d)]
  }

  lemma {:induction false} CombSnoc(x: seq<real>, v: real, d: nat, f: real, damp: real)
    ensures var s := Comb(x, d, f, damp);
            var low := Mixed(Past(s.kept, |x| - d), s.low, damp);
            && Comb(x + [v], d, f, damp) == CombState(s.kept + [Fed(v, low, f)], low)
            && CombOut(x + [v], d, f, damp) == CombOut(x, d, f, damp) + [Past(s.kept, |x| - d)]
  {
    hide Fed, Mixed, Past;
    var all := x + [v];
    assert all[..|x|] == x && all[|x|] == v;
  }

  lemma {:induction false} CombBound(x: seq<real>, d: nat, f: real, damp: real, m: real, b: real)
    requires Within(x, m) && 0.0 <= f && 0.0 <= b && m + b * f <= b && 0.0 <= damp <= 1.0
    ensures Within(Comb(x, d, f, damp).kept, b) && Abs(Comb(x, d, f, damp).low) <= b
    ensures Within(CombOut(x, d, f, damp), b)
  {
    hide Fed, Mixed;
    if |x| == 0 {
    } else {
      var n := |x| - 1;
      CombBound(x[..n], d, f, damp, m, b);
      var s := Comb(x[..n], d, f, damp);
      MixedBound(Past(s.kept, n - d), s.low, damp, b);
      FedBound(x[n], Mixed(Past(s.kept, n - d), s.low, damp), f, m, b);
    }
  }

  lemma {:induction false} CombPrefix(x: seq<real>, k: nat, d: nat, f: real, damp: real)
    requires k <= |x|
    ensures Comb(x[..k], d, f, damp).kept == Comb(x, d, f, damp).kept[..k]
    ensures CombOut(x[..k], d, f, damp) == CombOut(x, d, f, damp)[..k]
  {
    hide Fed, Mixed, Past;
    if k == |x| {
      assert x[..k] == x;
    } else {
      var n := |x| - 1;
      CombPrefix(x[..n], k, d, f, damp);
      assert x[..n][..k] == x[..k];
    }
  }

  /** The recurrences of the comb at every sample. `low` is the lowpass before the sample, `low1` after. */
  lemma {:induction false} CombObeys(x: seq<real>, d: nat, f: real, damp: real, n: nat)
    requires n < |x| && 1 <= d
    ensures var kept, out := Comb(x, d, f, damp).kept, CombOut(x, d, f, damp);
            var low, low1 := Comb(x[..n], d, f, damp).low, Comb(x[..n + 1], d, f, damp).low;
            && out[n] == (if n < d then 0.0 else kept[n - d])
            && low1 == out[n] * (1.0 - damp) + low * damp
            && kept[n] == x[n] + low1 * f
            && (n == 0 ==> low == 0.0)
  {
    CombIsFed(x, d, f, damp, n);
    var kept := Comb(x, d, f, damp).kept;
    assert n == 0 ==> x[..n] == [];
    assert n >= d ==> kept[..n][n - d] == kept[n - d];
    hide Comb, CombOut;
  }

  lemma {:induction false} CombIsFed(x: seq<real>, d: nat, f: real, damp: real, n: nat)
    requires n < |x| && 1 <= d
    ensures var kept, out := Comb(x, d, f, damp).kept, CombOut(x, d, f, damp);
            var low, low1 := Comb(x[..n], d, f, damp).low, Comb(x[..n + 1], d, f, damp).low;
            out[n] == Past(kept[..n], n - d) && low1 == Mixed(out[n], low, damp) && kept[n] == Fed(x[n], low1, f)
  {
    hide Fed, Mixed, Past, Comb, CombOut;
    CombPrefix(x, n, d, f, damp);
    CombPrefix(x, n + 1, d, f, damp);
    assert x[..n + 1] == x[..n] + [x[n]];
    CombSnoc(x[..n], x[n], d, f, damp);
    var kept, out := Comb(x, d, f, damp).kept, CombOut(x, d, f, damp);
    assert kept[..n + 1][n] == kept[n] && out[..n + 1][n] == out[n];
  }

  // ----- allpass filter on a whole stream ------------------------------------------------------------------

  /** out[n] = line[n - d] - x[n], where the line is the echo with gain 1/2. */
  function AllpassOut(x: seq<real>, d: nat): (y: seq<real>)
    ensures |y| == |x|
  {
    if |x| == 0 then []
    else
      var n := |x| - 1;
      AllpassOut(x[..n], d) + [Past(Delay.Echo(x[..n], d, ALLPASS_FEEDBACK), n - d) - x[n]]
  }

  lemma {:induction false} AllpassSnoc(x: seq<real>, v: real, d: nat)
    ensures AllpassOut(x + [v], d) == AllpassOut(x, d) + [Past(Delay.Echo(x, d, ALLPASS_FEEDBACK), |x| - d) - v]
  {
    hide Past, Delay.Echo;
    var all := x + [v];
    assert all[..|x|] == x && all[|x|] == v;
  }

  lemma {:induction false} AllpassBound(x: seq<real>, d: nat, m: real)
    requires Within(x, m) && 0.0 <= m
    ensures Within(AllpassOut(x, d), 3.0 * m)
  {
    hide Delay.Echo;
    if |x| == 0 {
    } else {
      var n := |x| - 1;
      AllpassBound(x[..n], d, m);
      Delay.EchoBound(x[..n], d, ALLPASS_FEEDBACK, m, 2.0 * m);
    }
  }

  lemma {:induction false} AllpassPrefix(x: seq<real>, k: nat, d: nat)
    requires k <= |x|
    ensures AllpassOut(x[..k], d) == AllpassOut(x, d)[..k]
  {
    hide Past, Delay.Echo;
    if k == |x| {
      assert x[..k] == x;
    } else {
      var n := |x| - 1;
      AllpassPrefix(x[..n], k, d);
      assert x[..n][..k] == x[..k];
    }
  }

  /** The recurrences of the allpass at every sample, with its line: the input goes in at full, what comes
      out of the line goes back in at half. */
  lemma {:induction false} AllpassObeys(x: seq<real>, d: nat, n: nat)
    requires n < |x| && 1 <= d
    ensures var line, out := Delay.Echo(x, d, 0.5), AllpassOut(x, d);
            && out[n] == -x[n] + (if n < d then 0.0 else line[n - d])
            && line[n] == x[n] + 0.5 * (if n < d then 0.0 else line[n - d])
  {
    Delay.EchoObeys(x, d, 0.5, 0.0, n);
    Delay.EchoPrefix(x, n, d, 0.5);
    AllpassPrefix(x, n + 1, d);
    assert x[..n + 1] == x[..n] + [x[n]];
    AllpassSnoc(x[..n], x[n], d);
    var line, out := Delay.Echo(x, d, 0.5), AllpassOut(x, d);
    hide Delay.Echo, AllpassOut;
    assert out[..n + 1][n] == out[n];
    assert n >= d ==> line[..n][n - d] == line[n - d];
  }

  // ----- the bank, the chain, the node -----------------------------------------------------------------------

  function Plus(a: seq<real>, b: seq<real>): (c: seq<real>)
    requires |a| == |b|
    ensures |c| == |a| && forall n :: 0 <= n < |c| ==> c[n] == a[n] + b[n]
  {
    seq(|a|, n requires 0 <= n < |a| => a[n] + b[n])
  }

  /** The sum of the combs. */
  function Bank(x: seq<real>, delays: seq<nat>, f: real, damp: real): (y: seq<real>)
    ensures |y| == |x|
  {
    if delays == [] then seq(|x|, _ => 0.0)
    else
      var k := |delays| - 1;
      Plus(Bank(x, delays[..k], f, damp), CombOut(x, delays[k], f, damp))
  }

  /** The allpasses one after the other. */
  function Chain(x: seq<real>, delays: seq<nat>): (y: seq<real>)
    ensures |y| == |x|
  {
    if delays == [] then x
    else
      var k := |delays| - 1;
      AllpassOut(Chain(x, delays[..k]), delays[k])
  }

  datatype Settings = Settings(feedback: real, damping: real, wet: real, dry: real, combDelays: seq<nat>,
                               allpassDelays: seq<nat>)

  function Mix(x: real, reverb: real, s: Settings): real { x * s.dry + reverb * s.wet }

  function Reverberated(x: seq<real>, s: Settings): (y: seq<real>)
    ensures |y| == |x|
  {
    Chain(Bank(x, s.combDelays, s.feedback, s.damping), s.allpassDelays)
  }

  function Output(x: seq<real>, s: Settings): (y: seq<real>)
    ensures |y| == |x| && forall n :: 0 <= n < |x| ==> y[n] == Mix(x[n], Reverberated(x, s)[n], s)
  {
    seq(|x|, n requires 0 <= n < |x| => Mix(x[n], Reverberated(x, s)[n], s))
  }

  predicate Sane(s: Settings) {
    && 0.7 <= s.feedback <= 0.98 && 0.0 <= s.damping <= 1.0 && 0.0 <= s.wet <= 1.0 && 0.0 <= s.dry <= 1.0
    && |s.combDelays| == COMBS_PER_CHANNEL && |s.allpassDelays| == ALLPASSES_PER_CHANNEL
    && (forall i :: 0 <= i < |s.combDelays| ==> s.combDelays[i] >= 1)
    && (forall i :: 0 <= i < |s.allpassDelays| ==> s.allpassDelays[i] >= 1)
  }

  /** Nearest integer, halves up, at least 1. */
  function ScaleDelay(base: nat, sampleRate: u32): (d: nat)
    ensures d >= 1
  {
    var r := (base as real * (sampleRate as real / REFERENCE_RATE as real) + 0.5).Floor;
    if r < 1 then 1 else r
  }

  function Configure(roomSize: real, damping: real, wet: real, dry: real, sampleRate: u32): (s: Settings)
    ensures Sane(s)
  {
    Settings(Clamp(roomSize, 0.0, 1.0) * 0.28 + 0.7, Clamp(damping, 0.0, 1.0),
             Clamp(wet, 0.0, 1.0), Clamp(dry, 0.0, 1.0),
             seq(8, i requires 0 <= i < 8 => ScaleDelay(COMB_DELAYS_441[i], sampleRate)),
             seq(4, i requires 0 <= i < 4 => ScaleDelay(ALLPASS_DELAYS_441[i], sampleRate)))
  }

  // ----- bounds ------------------------------------------------------------------------------------------------

  lemma {:induction false} PlusBound(a: seq<real>, b: seq<real>, m: real, k: real)
    requires |a| == |b| && Within(a, m) && Within(b, k)
    ensures Within(Plus(a, b), m + k)
  {
  }

  function Repeated(n: nat, b: real): real { if n == 0 then 0.0 else Repeated(n - 1, b) + b }

  function Tripled(n: nat, b: real): real { if n == 0 then b else 3.0 * Tripled(n - 1, b) }

  lemma {:induction false} BankBound(x: seq<real>, delays: seq<nat>, f: real, damp: real, m: real, b: real)
    requires Within(x, m) && 0.0 <= f && 0.0 <= b && m + b * f <= b && 0.0 <= damp <= 1.0
    ensures Within(Bank(x, delays, f, damp), Repeated(|delays|, b))
  {
    hide CombOut, Plus;
    if delays == [] {
    } else {
      var k := |delays| - 1;
      BankBound(x, delays[..k], f, damp, m, b);
      CombBound(x, delays[k], f, damp, m, b);
      PlusBound(Bank(x, delays[..k], f, damp), CombOut(x, delays[k], f, damp), Repeated(k, b), b);
    }
  }

  lemma {:induction false} ChainBound(x: seq<real>, delays: seq<nat>, m: real)
    requires Within(x, m) && 0.0 <= m
    ensures Within(Chain(x, delays), Tripled(|delays|, m)) && 0.0 <= Tripled(|delays|, m)
  {
    hide AllpassOut;
    if delays == [] {
    } else {
      var k := |delays| - 1;
      ChainBound(x, delays[..k], m);
      AllpassBound(Chain(x, delays[..k]), delays[k], Tripled(k, m));
    }
  }

  lemma {:induction false} MixBound(x: real, reverb: real, s: Settings, m: real, b: real)
    requires Abs(x) <= m && Abs(reverb) <= b && Sane(s) && 0.0 <= m && 0.0 <= b
    ensures Abs(Mix(x, reverb, s)) <= m + b
  {
    WeightedBound(x, reverb, s.dry, s.wet, m, b);
  }

  lemma {:induction false} WeightedBound(x: real, y: real, g: real, h: real, m: real, b: real)
    requires Abs(x) <= m && Abs(y) <= b && 0.0 <= g <= 1.0 && 0.0 <= h <= 1.0
    ensures Abs(x * g + y * h) <= m + b
  {
    ScaledBound(x, g, m);
    ScaledBound(y, h, b);
    SumBound(x * g, y * h, m, b);
  }

  lemma {:induction false} EightFold(b: real)
    ensures Repeated(8, b) == 8.0 * b
  {
    assert Repeated(2, b) == Repeated(1, b) + b && Repeated(1, b) == b;
    assert Repeated(4, b) == Repeated(3, b) + b && Repeated(3, b) == Repeated(2, b) + b;
    assert Repeated(6, b) == Repeated(5, b) + b && Repeated(5, b) == Repeated(4, b) + b;
    assert Repeated(8, b) == Repeated(7, b) + b && Repeated(7, b) == Repeated(6, b) + b;
  }

  lemma {:induction false} FourStages(m: real)
    ensures Tripled(4, m) == 81.0 * m
  {
    assert Tripled(1, m) == 3.0 * Tripled(0, m) && Tripled(0, m) == m;
    assert Tripled(2, m) == 3.0 * Tripled(1, m);
    assert Tripled(3, m) == 3.0 * Tripled(2, m);
    assert Tripled(4, m) == 3.0 * Tripled(3, m);
  }

  /** For every input within `m`: each comb stays within m / (1 - f), at most 50 * m, and the output of
      the node within 32401 * m. */
  lemma {:induction false} ReverbIsBounded(x: seq<real>, s: Settings, m: real)
    requires Within(x, m) && 0.0 <= m && Sane(s)
    ensures m / (1.0 - s.feedback) <= 50.0 * m
    ensures forall d :: Within(Comb(x, d, s.feedback, s.damping).kept, m / (1.0 - s.feedback))
    ensures Within(Output(x, s), 32401.0 * m)
  {
    hide Comb, CombOut, Bank, Chain, AllpassOut, Mix;
    LoopLimit(m, s.feedback, 50.0);
    var b := m / (1.0 - s.feedback);
    forall d ensures Within(Comb(x, d, s.feedback, s.damping).kept, b) {
      CombBound(x, d, s.feedback, s.damping, m, b);
    }
    BankBound(x, s.combDelays, s.feedback, s.damping, m, b);
    var bank := Bank(x, s.combDelays, s.feedback, s.damping);
    EightFold(b);
    FourStages(8.0 * b);
    ChainBound(bank, s.allpassDelays, 8.0 * b);
    hide Repeated, Tripled;
    forall n | 0 <= n < |x| ensures Abs(Output(x, s)[n]) <= 32401.0 * m {
      MixBound(x[n], Reverberated(x, s)[n], s, m, 32400.0 * m);
    }
  }

  // ----- the filters -----------------------------------------------------------------------------------------------

  class CombFilter {
    const buffer: array<real>
    const feedback: real
    const damping: real
    var idx: nat
    var lowpass: real
    ghost var heard: seq<real>

    ghost predicate Valid()
      reads this, buffer
    {
      && Holds(buffer[..], idx, Comb(heard, buffer.Length, feedback, damping).kept)
      && lowpass == Comb(heard, buffer.Length, feedback, damping).low
    }

    constructor (delay: nat, feedback: real, damping: real)
      ensures Valid() && fresh(buffer) && heard == [] && buffer.Length == (if delay == 0 then 1 else delay)
      ensures this.feedback == feedback && this.damping == damping
    {
      this.feedback, this.damping := feedback, damping;
      this.idx, this.lowpass, this.heard := 0, 0.0, [];
      var cap := if delay == 0 then 1 else delay;
      this.buffer := new real[cap](_ => 0.0);
      new;
      StartsSilent(buffer[..]);
    }

    method Process(input: real) returns (output: real)
      requires Valid()
      modifies this, buffer
      ensures Valid() && heard == old(heard) + [input]
      ensures CombOut(heard, buffer.Length, feedback, damping)
              == CombOut(old(heard), buffer.Length, feedback, damping) + [output]
    {
      hide Comb, CombOut, Fed, Mixed, Past;
      ghost var ring, s := buffer[..], Comb(heard, buffer.Length, feedback, damping);
      CombSnoc(heard, input, buffer.Length, feedback, damping);
      ReadsBack(ring, idx, s.kept, buffer.Length);
      output := buffer[idx];
      lowpass := Mixed(output, lowpass, damping);
      ghost var written := Fed(input, lowpass, feedback);
      WriteExtends(ring, idx, s.kept, written);
      buffer[idx] := Fed(input, lowpass, feedback);
      assert buffer[..] == ring[idx := written];
      idx := idx + 1;
      if idx >= buffer.Length {
        idx := 0;
      }
      heard := heard + [input];
    }
  }

  class AllpassFilter {
    const buffer: array<real>
    var idx: nat
    ghost var heard: seq<real>

    ghost predicate Valid()
      reads this, buffer
    {
      Holds(buffer[..], idx, Delay.Echo(heard, buffer.Length, ALLPASS_FEEDBACK))
    }

    constructor (delay: nat)
      ensures Valid() && fresh(buffer) && heard == [] && buffer.Length == (if delay == 0 then 1 else delay)
    {
      this.idx, this.heard := 0, [];
      var cap := if delay == 0 then 1 else delay;
      this.buffer := new real[cap](_ => 0.0);
      new;
      StartsSilent(buffer[..]);
    }

    method Process(input: real) returns (output: real)
      requires Valid()
      modifies this, buffer
      ensures Valid() && heard == old(heard) + [input]
      ensures AllpassOut(heard, buffer.Length) == AllpassOut(old(heard), buffer.Length) + [output]
    {
      hide Delay.Echo, AllpassOut, Fed, Past;
      ghost var ring, line := buffer[..], Delay.Echo(heard, buffer.Length, ALLPASS_FEEDBACK);
      Delay.EchoSnoc(heard, input, buffer.Length, ALLPASS_FEEDBACK);
      AllpassSnoc(heard, input, buffer.Length);
      ReadsBack(ring, idx, line, buffer.Length);
      var buffered := buffer[idx];
      output := -input + buffered;
      ghost var written := Fed(input, buffered, ALLPASS_FEEDBACK);
      WriteExtends(ring, idx, line, written);
      buffer[idx] := Fed(input, buffered, ALLPASS_FEEDBACK);
      assert buffer[..] == ring[idx := written];
      idx := idx + 1;
      if idx >= buffer.Length {
        idx := 0;
      }
      heard := heard + [input];
    }
  }

  // ----- the node ---------------------------------------------------------------------------------------------------

  lemma {:induction false} PlusSnoc(a: seq<real>, b: seq<real>, u: real, v: real)
    requires |a| == |b|
    ensures Plus(a + [u], b + [v]) == Plus(a, b) + [u + v]
  {
  }

  /** One more comb in the sum, one more sample in the stream. */
  lemma {:induction false} BankNext(x: seq<real>, v: real, delays: seq<nat>, f: real, damp: real, i: nat, sum: real,
                                    out: real)
    requires i < |delays|
    requires Bank(x + [v], delays[..i], f, damp) == Bank(x, delays[..i], f, damp) + [sum]
    requires CombOut(x + [v], delays[i], f, damp) == CombOut(x, delays[i], f, damp) + [out]
    ensures Bank(x + [v], delays[..i + 1], f, damp) == Bank(x, delays[..i + 1], f, damp) + [sum + out]
  {
    hide CombOut, Plus;
    assert delays[..i + 1][..i] == delays[..i];
    PlusSnoc(Bank(x, delays[..i], f, damp), CombOut(x, delays[i], f, damp), sum, out);
  }

  lemma {:induction false} BankNone(x: seq<real>, v: real, f: real, damp: real)
    ensures Bank(x + [v], [], f, damp) == Bank(x, [], f, damp) + [0.0]
  {
  }

  /** What reaches the allpass number `i`. */
  function Stage(x: seq<real>, s: Settings, i: nat): (y: seq<real>)
    requires i <= |s.allpassDelays|
    ensures |y| == |x|
  {
    Chain(Bank(x, s.combDelays, s.feedback, s.damping), s.allpassDelays[..i])
  }

  lemma {:induction false} StageNext(x: seq<real>, s: Settings, i: nat)
    requires i < |s.allpassDelays|
    ensures Stage(x, s, i + 1) == AllpassOut(Stage(x, s, i), s.allpassDelays[i])
  {
    hide AllpassOut, Bank;
    assert s.allpassDelays[..i + 1][..i] == s.allpassDelays[..i];
  }

  lemma {:induction false} StageEnds(x: seq<real>, s: Settings)
    ensures Stage(x, s, 0) == Bank(x, s.combDelays, s.feedback, s.damping)
    ensures Stage(x, s, |s.allpassDelays|) == Reverberated(x, s)
  {
    assert s.allpassDelays[..|s.allpassDelays|] == s.allpassDelays;
  }

  lemma {:induction false} OutputSnoc(x: seq<real>, v: real, s: Settings, reverb: real)
    requires Reverberated(x + [v], s) == Reverberated(x, s) + [reverb]
    ensures Output(x + [v], s) == Output(x, s) + [Mix(v, reverb, s)]
  {
    hide Reverberated, Mix;
  }

  /** Equal outside `low..high`. */
  ghost predicate SameElsewhere(a: seq<seq<real>>, b: seq<seq<real>>, low: nat, high: nat) {
    |a| == |b| && forall k :: 0 <= k < |a| && !(low <= k < high) ==> b[k] == a[k]
  }

  /** Of the combs of channel `c`, the first `done` heard `h1`, the others `h`. */
  ghost predicate Fed8(hs: seq<seq<real>>, c: nat, h: seq<real>, h1: seq<real>, done: nat) {
    && 8 * c + 8 <= |hs|
    && forall k :: 8 * c <= k < 8 * c + 8 ==> hs[k] == if k < 8 * c + done then h1 else h
  }

  /** After the first `i` combs of a channel took the sample `x`, with `sum` added up. */
  ghost predicate CombsAt(hs0: seq<seq<real>>, hs: seq<seq<real>>, s: Settings, c: nat, h: seq<real>, x: real,
                          i: nat, sum: real) {
    && i <= 8 && |s.combDelays| == 8
    && Fed8(hs, c, h, h + [x], i) && SameElsewhere(hs0, hs, 8 * c, 8 * c + 8)
    && Bank(h + [x], s.combDelays[..i], s.feedback, s.damping)
       == Bank(h, s.combDelays[..i], s.feedback, s.damping) + [sum]
  }

  lemma {:induction false} CombsAtFirst(hs: seq<seq<real>>, s: Settings, c: nat, h: seq<real>, x: real)
    requires Fed8(hs, c, h, h, 0) && |s.combDelays| == 8
    ensures CombsAt(hs, hs, s, c, h, x, 0, 0.0)
  {
    hide Bank;
    BankNone(h, x, s.feedback, s.damping);
  }

  lemma {:induction false} CombsAtMeans(hs0: seq<seq<real>>, hs: seq<seq<real>>, s: Settings, c: nat, h: seq<real>,
                                        x: real, i: nat, sum: real)
    requires CombsAt(hs0, hs, s, c, h, x, i, sum) && i < 8
    ensures 8 * c + i < |hs| && hs[8 * c + i] == h
  {
    hide Bank, SameElsewhere;
  }

  lemma {:induction false} CombsAtNext(hs0: seq<seq<real>>, hs: seq<seq<real>>, s: Settings, c: nat, h: seq<real>,
                                       x: real, i: nat, sum: real, out: real)
    requires CombsAt(hs0, hs, s, c, h, x, i, sum) && i < 8
    requires CombOut(h + [x], s.combDelays[i], s.feedback, s.damping)
             == CombOut(h, s.combDelays[i], s.feedback, s.damping) + [out]
    ensures 8 * c + i < |hs| && CombsAt(hs0, hs[8 * c + i := h + [x]], s, c, h, x, i + 1, sum + out)
  {
    hide Bank, CombOut;
    BankNext(h, x, s.combDelays, s.feedback, s.damping, i, sum, out);
  }

  /** Each allpass of channel `c` heard the stage before it: the first `done` of `h1`, the others of `h`. */
  ghost predicate Staged(hs: seq<seq<real>>, s: Settings, c: nat, h: seq<real>, h1: seq<real>, done: nat) {
    && 4 * c + 4 <= |hs| && |s.allpassDelays| == 4
    && forall k :: 4 * c <= k < 4 * c + 4 ==> hs[k] == Stage(if k < 4 * c + done then h1 else h, s, k - 4 * c)
  }

  /** After the first `i` allpasses of a channel took their sample, with `v` coming out. */
  ghost predicate AllpassesAt(hs0: seq<seq<real>>, hs: seq<seq<real>>, s: Settings, c: nat, h: seq<real>, x: real,
                              i: nat, v: real) {
    && i <= 4 && Staged(hs, s, c, h, h + [x], i) && SameElsewhere(hs0, hs, 4 * c, 4 * c + 4)
    && Stage(h + [x], s, i) == Stage(h, s, i) + [v]
  }

  lemma {:induction false} AllpassesAtFirst(hs: seq<seq<real>>, s: Settings, c: nat, h: seq<real>, x: real, v: real)
    requires Staged(hs, s, c, h, h, 0) && Stage(h + [x], s, 0) == Stage(h, s, 0) + [v]
    ensures AllpassesAt(hs, hs, s, c, h, x, 0, v)
  {
    hide Stage;
  }

  lemma {:induction false} AllpassesAtMeans(hs0: seq<seq<real>>, hs: seq<seq<real>>, s: Settings, c: nat,
                                            h: seq<real>, x: real, i: nat, v: real)
    requires AllpassesAt(hs0, hs, s, c, h, x, i, v) && i < 4
    ensures |s.allpassDelays| == 4 && 4 * c + i < |hs| && hs[4 * c + i] == Stage(h, s, i)
  {
    hide Stage, SameElsewhere;
  }

  lemma {:induction false} AllpassesAtNext(hs0: seq<seq<real>>, hs: seq<seq<real>>, s: Settings, c: nat,
                                           h: seq<real>, x: real, i: nat, v: real, out: real)
    requires AllpassesAt(hs0, hs, s, c, h, x, i, v) && i < 4 && |s.allpassDelays| == 4
    requires AllpassOut(Stage(h, s, i) + [v], s.allpassDelays[i])
             == AllpassOut(Stage(h, s, i), s.allpassDelays[i]) + [out]
    ensures 4 * c + i < |hs| && AllpassesAt(hs0, hs[4 * c + i := Stage(h, s, i) + [v]], s, c, h, x, i + 1, out)
  {
    StageNext(h, s, i);
    StageNext(h + [x], s, i);
    hide Stage, AllpassOut, Staged, SameElsewhere;
    StagedNext(hs, s, c, h, h + [x], i);
    ElsewhereNext(hs0, hs, 4 * c, 4 * c + 4, 4 * c + i, Stage(h, s, i) + [v]);
  }

  lemma {:induction false} StagedNext(hs: seq<seq<real>>, s: Settings, c: nat, h: seq<real>, h1: seq<real>, i: nat)
    requires Staged(hs, s, c, h, h1, i) && i < 4
    ensures 4 * c + 4 <= |hs| && Staged(hs[4 * c + i := Stage(h1, s, i)], s, c, h, h1, i + 1)
  {
    hide Stage;
  }

  lemma {:induction false} ElsewhereNext(hs0: seq<seq<real>>, hs: seq<seq<real>>, lo: nat, hi: nat, k: nat,
                                         h: seq<real>)
    requires SameElsewhere(hs0, hs, lo, hi) && lo <= k < hi && k < |hs|
    ensures SameElsewhere(hs0, hs[k := h], lo, hi)
  {
  }

  lemma {:induction false} AllFed(combs0: seq<seq<real>>, combs: seq<seq<real>>, allpasses0: seq<seq<real>>,
                                  allpasses: seq<seq<real>>,
                                  s: Settings, c: nat, h: seq<real>, x: real, sum: real, v: real)
    requires CombsAt(combs0, combs, s, c, h, x, 8, sum) && AllpassesAt(allpasses0, allpasses, s, c, h, x, 4, v)
    ensures Fed8(combs, c, h + [x], h + [x], 0) && Staged(allpasses, s, c, h + [x], h + [x], 0)
    ensures SameElsewhere(combs0, combs, 8 * c, 8 * c + 8) && SameElsewhere(allpasses0, allpasses, 4 * c, 4 * c + 4)
    ensures Reverberated(h + [x], s) == Reverberated(h, s) + [v]
  {
    StageEnds(h, s);
    StageEnds(h + [x], s);
    hide Stage, SameElsewhere, Bank, Reverberated;
  }

  lemma {:induction false} SumIsStage(combs0: seq<seq<real>>, combs: seq<seq<real>>, s: Settings, c: nat,
                                      h: seq<real>, x: real, sum: real)
    requires CombsAt(combs0, combs, s, c, h, x, 8, sum)
    ensures Stage(h + [x], s, 0) == Stage(h, s, 0) + [sum]
  {
    StageEnds(h, s);
    StageEnds(h + [x], s);
    hide Stage, SameElsewhere, Bank, Fed8;
    assert s.combDelays[..8] == s.combDelays;
  }

  lemma {:induction false} OthersKeep(combs0: seq<seq<real>>, combs1: seq<seq<real>>, allpasses0: seq<seq<real>>,
                                      allpasses1: seq<seq<real>>,
                                      s: Settings, c: nat, d: nat, g: seq<real>)
    requires d != c && Fed8(combs0, d, g, g, 0) && Staged(allpasses0, s, d, g, g, 0)
    requires SameElsewhere(combs0, combs1, 8 * c, 8 * c + 8) && SameElsewhere(allpasses0, allpasses1, 4 * c, 4 * c + 4)
    ensures Fed8(combs1, d, g, g, 0) && Staged(allpasses1, s, d, g, g, 0)
  {
    hide Stage;
  }

  lemma {:induction false} NothingHeard(combs: seq<seq<real>>, allpasses: seq<seq<real>>, s: Settings, c: nat)
    requires 8 * c + 8 <= |combs| && 4 * c + 4 <= |allpasses| && |s.allpassDelays| == 4
    requires forall k :: 0 <= k < |combs| ==> combs[k] == []
    requires forall k :: 0 <= k < |allpasses| ==> allpasses[k] == []
    ensures Fed8(combs, c, [], [], 0) && Staged(allpasses, s, c, [], [], 0)
  {
    hide Stage;
  }

  class ReverbNode {
    const settings: Settings
    const channels: nat
    const combs: seq<CombFilter>
    const allpasses: seq<AllpassFilter>
    ghost const combLines: seq<array<real>>
    ghost const allpassLines: seq<array<real>>
    ghost var heard: seq<seq<real>>

    /** The lines are the filters' buffers. */
    ghost predicate Lines() {
      && |combLines| == |combs| && |allpassLines| == |allpasses|
      && (forall k :: 0 <= k < |combs| ==> combs[k].buffer == combLines[k])
      && (forall k :: 0 <= k < |allpasses| ==> allpasses[k].buffer == allpassLines[k])
    }

    /** The filters are configured alike for every channel and share no memory. */
    ghost predicate Shape() {
      && Lines() && Sane(settings) && 0 < channels && |combs| == 8 * channels && |allpasses| == 4 * channels
      && (forall k :: 0 <= k < |combs| ==>
            && combs[k].feedback == settings.feedback && combs[k].damping == settings.damping
            && combs[k].buffer.Length == settings.combDelays[k % 8])
      && (forall k :: 0 <= k < |allpasses| ==> allpasses[k].buffer.Length == settings.allpassDelays[k % 4])
      && Separate()
    }

    ghost predicate Separate()
      requires Lines()
    {
      && (forall j, k :: 0 <= j < k < |combs| ==> combs[j] != combs[k] && combLines[j] != combLines[k])
      && (forall j, k :: 0 <= j < k < |allpasses| ==>
            allpasses[j] != allpasses[k] && allpassLines[j] != allpassLines[k])
      && (forall j, k :: 0 <= j < |combs| && 0 <= k < |allpasses| ==> combLines[j] != allpassLines[k])
    }

    ghost predicate CombsValid()
      requires Lines()
      reads combs, combLines
    {
      forall k :: 0 <= k < |combs| ==> combs[k].Valid()
    }

    ghost predicate AllpassesValid()
      requires Lines()
      reads allpasses, allpassLines
    {
      forall k :: 0 <= k < |allpasses| ==> allpasses[k].Valid()
    }

    /** What each comb heard. */
    ghost function CombsHeard(): (hs: seq<seq<real>>)
      reads combs
      ensures |hs| == |combs| && forall k :: 0 <= k < |hs| ==> hs[k] == combs[k].heard
    {
      seq(|combs|, k requires 0 <= k < |combs| reads combs => combs[k].heard)
    }

    ghost function AllpassesHeard(): (hs: seq<seq<real>>)
      reads allpasses
      ensures |hs| == |allpasses| && forall k :: 0 <= k < |hs| ==> hs[k] == allpasses[k].heard
    {
      seq(|allpasses|, k requires 0 <= k < |allpasses| reads allpasses => allpasses[k].heard)
    }

    /** One comb; the others are out of its reach. */
    method RunComb(x: real, k: nat) returns (out: real)
      requires Lines() && Separate() && CombsValid() && k < |combs|
      modifies combs[k], combLines[k]
      ensures CombsValid() && CombsHeard() == old(CombsHeard())[k := old(CombsHeard())[k] + [x]]
      ensures var h, d := old(CombsHeard())[k], combs[k].buffer.Length;
              CombOut(h + [x], d, combs[k].feedback, combs[k].damping)
                == CombOut(h, d, combs[k].feedback, combs[k].damping) + [out]
    {
      hide CombOut, Comb, CombFilter.Valid;
      out := combs[k].Process(x);
      forall j | 0 <= j < |combs| ensures combs[j].Valid() {
        if j != k {
          assert combs[j] != combs[k] && combLines[j] != combLines[k];
          assert old(combs[j].Valid());
        }
      }
    }

    method RunAllpass(v: real, k: nat) returns (out: real)
      requires Lines() && Separate() && AllpassesValid() && k < |allpasses|
      modifies allpasses[k], allpassLines[k]
      ensures AllpassesValid() && AllpassesHeard() == old(AllpassesHeard())[k := old(AllpassesHeard())[k] + [v]]
      ensures var h, d := old(AllpassesHeard())[k], allpasses[k].buffer.Length;
              AllpassOut(h + [v], d) == AllpassOut(h, d) + [out]
    {
      hide AllpassOut, Delay.Echo, AllpassFilter.Valid;
      out := allpasses[k].Process(v);
      forall j | 0 <= j < |allpasses| ensures allpasses[j].Valid() {
        if j != k {
          assert allpasses[j] != allpasses[k] && allpassLines[j] != allpassLines[k];
          assert old(allpasses[j].Valid());
        }
      }
    }

    lemma {:induction false} ShapeMeans(c: nat)
      requires Shape() && c < channels
      ensures Lines() && Separate() && |settings.combDelays| == 8 && |settings.allpassDelays| == 4
      ensures 8 * c + 8 <= |combs| && 4 * c + 4 <= |allpasses|
    {
    }

    lemma {:induction false} CombLength(c: nat, i: nat)
      requires Shape() && c < channels && i < 8
      ensures 8 * c + i < |combs| && |settings.combDelays| == 8
      ensures var comb := combs[8 * c + i];
              && comb.buffer.Length == settings.combDelays[i] && comb.feedback == settings.feedback
              && comb.damping == settings.damping
    {
      assert (8 * c + i) % 8 == i;
    }

    lemma {:induction false} StageLength(c: nat, i: nat)
      requires Shape() && c < channels && i < 4
      ensures 4 * c + i < |allpasses| && |settings.allpassDelays| == 4
      ensures allpasses[4 * c + i].buffer.Length == settings.allpassDelays[i]
    {
      assert (4 * c + i) % 4 == i;
    }

    /** All eight combs of a channel, each fed the same sample. */
    method RunCombs(x: real, c: nat, ghost h: seq<real>) returns (sum: real)
      requires Shape() && CombsValid() && c < channels && Fed8(CombsHeard(), c, h, h, 0)
      modifies combs, combLines
      ensures CombsValid() && CombsAt(old(CombsHeard()), CombsHeard(), settings, c, h, x, 8, sum)
    {
      hide CombsAt, CombOut, CombsValid, Fed8, Shape, Lines, Separate, Sane;
      ShapeMeans(c);
      CombsAtFirst(CombsHeard(), settings, c, h, x);
      sum := 0.0;
      var i := 0;
      while i < 8
        invariant 0 <= i <= 8 && CombsValid() && CombsAt(old(CombsHeard()), CombsHeard(), settings, c, h, x, i, sum)
      {
        CombLength(c, i);
        ghost var hs := CombsHeard();
        CombsAtMeans(old(CombsHeard()), hs, settings, c, h, x, i, sum);
        var out := RunComb(x, 8 * c + i);
        CombsAtNext(old(CombsHeard()), hs, settings, c, h, x, i, sum, out);
        sum := sum + out;
        i := i + 1;
      }
    }

    /** The four allpasses of a channel in series; `h` is what the channel heard before this sample. */
    method RunAllpasses(v: real, c: nat, ghost h: seq<real>, ghost x: real) returns (wetOut: real)
      requires Shape() && AllpassesValid() && c < channels && Staged(AllpassesHeard(), settings, c, h, h, 0)
      requires Stage(h + [x], settings, 0) == Stage(h, settings, 0) + [v]
      modifies allpasses, allpassLines
      ensures AllpassesValid() && AllpassesAt(old(AllpassesHeard()), AllpassesHeard(), settings, c, h, x, 4, wetOut)
    {
      hide AllpassesAt, Stage, AllpassOut, AllpassesValid, Staged, Shape, Lines, Separate, Sane;
      ShapeMeans(c);
      AllpassesAtFirst(AllpassesHeard(), settings, c, h, x, v);
      wetOut := v;
      var i := 0;
      while i < 4
        invariant 0 <= i <= 4 && AllpassesValid()
        invariant AllpassesAt(old(AllpassesHeard()), AllpassesHeard(), settings, c, h, x, i, wetOut)
      {
        StageLength(c, i);
        ghost var hs := AllpassesHeard();
        AllpassesAtMeans(old(AllpassesHeard()), hs, settings, c, h, x, i, wetOut);
        var out := RunAllpass(wetOut, 4 * c + i);
        AllpassesAtNext(old(AllpassesHeard()), hs, settings, c, h, x, i, wetOut, out);
        wetOut := out;
        i := i + 1;
      }
    }

    /** Every comb of the channel heard `h`; every allpass heard the stage before it. */
    ghost predicate HeardBy(c: nat, h: seq<real>)
      requires Shape() && c < channels
      reads combs, allpasses
    {
      Fed8(CombsHeard(), c, h, h, 0) && Staged(AllpassesHeard(), settings, c, h, h, 0)
    }

    ghost predicate Valid()
      reads this, combs, combLines, allpasses, allpassLines
    {
      && Shape() && |heard| == channels && CombsValid() && AllpassesValid()
      && forall c :: 0 <= c < channels ==> HeardBy(c, heard[c])
    }

    /** One sample through the combs and allpasses of one channel; the other channels hear nothing. */
    method RunChannel(x: real, c: nat, ghost h: seq<real>) returns (wetOut: real)
      requires Shape() && CombsValid() && AllpassesValid() && c < channels && HeardBy(c, h)
      modifies combs, combLines, allpasses, allpassLines
      ensures CombsValid() && AllpassesValid() && HeardBy(c, h + [x])
      ensures forall d, g :: 0 <= d < channels && d != c && old(HeardBy(d, g)) ==> HeardBy(d, g)
      ensures Reverberated(h + [x], settings) == Reverberated(h, settings) + [wetOut]
    {
      hide SameElsewhere, Stage, Reverberated, CombsValid, AllpassesValid, Fed8, Staged, CombsAt, AllpassesAt;
      assert forall line :: line in allpassLines ==> line !in combLines;
      assert forall line :: line in combLines ==> line !in allpassLines;
      hide Separate;
      ghost var combs0, allpasses0 := CombsHeard(), AllpassesHeard();
      var combOut := RunCombs(x, c, h);
      SumIsStage(combs0, CombsHeard(), settings, c, h, x, combOut);
      wetOut := RunAllpasses(combOut, c, h, x);
      AllFed(combs0, CombsHeard(), allpasses0, AllpassesHeard(), settings, c, h, x, combOut, wetOut);
      forall d, g | 0 <= d < channels && d != c && old(HeardBy(d, g)) ensures HeardBy(d, g) {
        OthersKeep(combs0, CombsHeard(), allpasses0, AllpassesHeard(), settings, c, d, g);
      }
    }

    method ProcessSample(x: real, c: nat) returns (y: real)
      requires Valid() && c < channels
      modifies this, combs, combLines, allpasses, allpassLines
      ensures Valid() && heard == old(heard)[c := old(heard[c]) + [x]]
      ensures Output(heard[c], settings) == Output(old(heard[c]), settings) + [y]
    {
      hide HeardBy, Output, Reverberated, CombsValid, AllpassesValid, Separate, Mix, Shape;
      ghost var h := heard[c];
      var wetOut := RunChannel(x, c, h);
      OutputSnoc(h, x, settings, wetOut);
      heard := heard[c := h + [x]];
      y := Mix(x, wetOut, settings);
    }

    constructor (roomSize: real, damping: real, wet: real, dry: real, sampleRate: u32, channels: u16)
      ensures Valid() && fresh(combs) && fresh(combLines) && fresh(allpasses) && fresh(allpassLines)
      ensures settings == Configure(roomSize, damping, wet, dry, sampleRate)
      ensures this.channels == if channels == 0 then 1 else channels
      ensures forall c :: 0 <= c < |heard| ==> heard[c] == []
    {
      hide Configure, CombFilter.Valid, AllpassFilter.Valid;
      var s := Configure(roomSize, damping, wet, dry, sampleRate);
      var ch: nat := if channels == 0 then 1 else channels;
      var bank, bankLines := NewCombs(s, ch);
      var chain, chainLines := NewAllpasses(s, ch);
      this.settings, this.channels := s, ch;
      this.combs, this.combLines, this.allpasses, this.allpassLines := bank, bankLines, chain, chainLines;
      this.heard := seq(ch, _ => []);
      new;
      forall c | 0 <= c < this.channels ensures HeardBy(c, heard[c]) {
        NothingHeard(CombsHeard(), AllpassesHeard(), settings, c);
      }
      hide Fed8, Staged;
    }

    /** The output of this node for a whole stream. */
    ghost function Played(): (f: Stream)
      ensures forall c, x :: f(c, x) == Output(x, settings)
    {
      (_: nat, x: seq<real>) => Output(x, settings)
    }

    /** One channel's part of a block, sample by sample. */
    method ProcessChannel(inp: seq<real>, c: nat, offset: nat, perCh: nat, out: array<real>)
      requires Valid() && c < channels && out !in combLines && out !in allpassLines
      requires offset + perCh <= |inp| && offset + perCh <= out.Length
      modifies this, combs, combLines, allpasses, allpassLines, out
      ensures Valid() && |heard| == |old(heard)| && forall d :: 0 <= d < |heard| && d != c ==> heard[d] == old(heard)[d]
      ensures ChannelDone(Played(), c, old(heard)[c], heard[c], inp, out[..], offset, perCh)
      ensures out[..offset] == old(out[..offset]) && out[offset + perCh..] == old(out[offset + perCh..])
    {
      hide HeardBy, Output, CombsValid, AllpassesValid, Shape;
      ghost var h, out0 := heard[c], out[..];
      assert h + inp[offset..offset] == h;
      var i := 0;
      while i < perCh
        invariant 0 <= i <= perCh && Valid()
        invariant heard == old(heard)[c := h + inp[offset..offset + i]]
        invariant Filling(Played()(c, heard[c]), h, out0, out[..], offset, i)
      {
        hide Filling;
        var idx := offset + i;
        ghost var so := heard[c];
        assert so + [inp[idx]] == h + inp[offset..idx + 1];
        var y := ProcessSample(inp[idx], c);
        FillingNext(Played()(c, so), h, out0, out[..], offset, i, y);
        ghost var out1 := out[..];
        out[idx] := y;
        assert out[..] == out1[idx := y];
        i := i + 1;
      }
    }

    /** A whole block, planar, all channels: however the stream was cut into blocks, each channel's
        output continues the output for the one stream it has heard. A block of more channels than the
        node was built for panics, after the node's own channels, unless it is too short to hold a
        sample of each. */
    method Process(inp: seq<real>, inChannels: nat, out: array<real>) returns (panicked: bool)
      requires Valid() && out !in combLines && out !in allpassLines
      modifies this, combs, combLines, allpasses, allpassLines, out
      ensures Valid()
      ensures panicked <==> channels < inChannels && 0 < PerChannel(|inp|, out.Length, inChannels)
      ensures Processed(Played(), old(heard), heard, inp, old(out[..]), out[..], Served(inChannels, channels),
                        PerChannel(|inp|, out.Length, inChannels))
    {
      hide HeardBy, Output, CombsValid, AllpassesValid, Shape, ChannelDone, Processed;
      var perCh := PerChannel(|inp|, out.Length, inChannels);
      PerChannelFits(|inp|, out.Length, inChannels);
      if inChannels == 0 || |inp| == 0 || out.Length == 0 {
        EmptyBlock(Played(), heard, inp, out[..], Served(inChannels, channels));
        return false;
      }
      var offset, c := 0, 0;
      NoneProcessed(Played(), heard, inp, out[..], perCh);
      while c < inChannels
        invariant 0 <= c <= inChannels && Valid() && |heard| == |old(heard)| && offset == Addr(c, perCh)
        invariant channels < c ==> perCh == 0
        invariant Processed(Played(), old(heard), heard, inp, old(out[..]), out[..], Served(c, channels), perCh)
      {
        if channels <= c && 0 < perCh {
          return true;
        }
        AddrMono(c + 1, inChannels, perCh);
        if c < channels {
          ghost var heard0, out0 := heard, out[..];
          ProcessChannel(inp, c, offset, perCh, out);
          ProcessedNext(Played(), old(heard), heard0, heard, inp, old(out[..]), out0, out[..], c, offset, perCh);
        }
        offset, c := offset + perCh, c + 1;
      }
      panicked := false;
    }
  }

  method NewCombs(s: Settings, channels: nat) returns (combs: seq<CombFilter>, ghost lines: seq<array<real>>)
    requires Sane(s)
    ensures |combs| == |lines| == 8 * channels && fresh(combs) && fresh(lines)
    ensures forall k :: 0 <= k < |combs| ==> combs[k].buffer == lines[k] && combs[k].Valid() && combs[k].heard == []
    ensures forall k :: 0 <= k < |combs| ==>
              && combs[k].feedback == s.feedback && combs[k].damping == s.damping
              && combs[k].buffer.Length == s.combDelays[k % 8]
    ensures forall j, k :: 0 <= j < k < |combs| ==> combs[j] != combs[k] && lines[j] != lines[k]
  {
    hide CombFilter.Valid;
    combs, lines := [], [];
    while |combs| < 8 * channels
      invariant |combs| == |lines| <= 8 * channels && fresh(combs) && fresh(lines)
      invariant forall k :: 0 <= k < |combs| ==> combs[k].buffer == lines[k] && combs[k].Valid() && combs[k].heard == []
      invariant forall k :: 0 <= k < |combs| ==>
                  && combs[k].feedback == s.feedback && combs[k].damping == s.damping
                  && combs[k].buffer.Length == s.combDelays[k % 8]
      invariant forall j, k :: 0 <= j < k < |combs| ==> combs[j] != combs[k] && lines[j] != lines[k]
    {
      var comb := new CombFilter(s.combDelays[|combs| % 8], s.feedback, s.damping);
      combs, lines := combs + [comb], lines + [comb.buffer];
    }
  }

  method NewAllpasses(s: Settings, channels: nat) returns (allpasses: seq<AllpassFilter>, ghost lines: seq<array<real>>)
    requires Sane(s)
    ensures |allpasses| == |lines| == 4 * channels && fresh(allpasses) && fresh(lines)
    ensures forall k :: 0 <= k < |allpasses| ==>
              allpasses[k].buffer == lines[k] && allpasses[k].Valid() && allpasses[k].heard == []
    ensures forall k :: 0 <= k < |allpasses| ==> allpasses[k].buffer.Length == s.allpassDelays[k % 4]
    ensures forall j, k :: 0 <= j < k < |allpasses| ==> allpasses[j] != allpasses[k] && lines[j] != lines[k]
  {
    hide AllpassFilter.Valid;
    allpasses, lines := [], [];
    while |allpasses| < 4 * channels
      invariant |allpasses| == |lines| <= 4 * channels && fresh(allpasses) && fresh(lines)
      invariant forall k :: 0 <= k < |allpasses| ==>
                  allpasses[k].buffer == lines[k] && allpasses[k].Valid() && allpasses[k].heard == []
      invariant forall k :: 0 <= k < |allpasses| ==> allpasses[k].buffer.Length == s.allpassDelays[k % 4]
      invariant forall j, k :: 0 <= j < k < |allpasses| ==> allpasses[j] != allpasses[k] && lines[j] != lines[k]
    {
      var allpass := new AllpassFilter(s.allpassDelays[|allpasses| % 4]);
      allpasses, lines := allpasses + [allpass], lines + [allpass.buffer];
    }
  }

  // ----- the node in plain terms --------------------------------------------------------------------------

  lemma {:induction false} BankNext8(x: seq<real>, ds: seq<nat>, k: nat, f: real, damp: real, n: nat)
    requires k < |ds| && n < |x|
    ensures Bank(x, ds[..k + 1], f, damp)[n] == Bank(x, ds[..k], f, damp)[n] + CombOut(x, ds[k], f, damp)[n]
  {
    assert ds[..k + 1][..k] == ds[..k];
  }

  /** The node's output: the dry gain on the input, the wet gain on four allpasses in a row, which are fed
      with the sum of the eight combs. */
  lemma {:induction false} ReverbObeys(x: seq<real>, s: Settings, n: nat)
    requires n < |x| && |s.combDelays| == 8 && |s.allpassDelays| == 4
    ensures var bank, a := Bank(x, s.combDelays, s.feedback, s.damping), s.allpassDelays;
            Output(x, s)[n] == x[n] * s.dry
              + AllpassOut(AllpassOut(AllpassOut(AllpassOut(bank, a[0]), a[1]), a[2]), a[3])[n] * s.wet
    ensures Bank(x, s.combDelays, s.feedback, s.damping)[n]
         == Voice(x, s, 0, n) + Voice(x, s, 1, n) + Voice(x, s, 2, n) + Voice(x, s, 3, n)
            + Voice(x, s, 4, n) + Voice(x, s, 5, n) + Voice(x, s, 6, n) + Voice(x, s, 7, n)
  {
    hide CombOut, AllpassOut;
    FourInARow(Bank(x, s.combDelays, s.feedback, s.damping), s.allpassDelays);
    EightInParallel(x, s, n);
    hide Bank, Chain, Voice;
  }

  lemma {:induction false} FourInARow(x: seq<real>, a: seq<nat>)
    requires |a| == 4
    ensures Chain(x, a) == AllpassOut(AllpassOut(AllpassOut(AllpassOut(x, a[0]), a[1]), a[2]), a[3])
  {
    hide AllpassOut;
    assert a[..3][..2] == a[..2] && a[..2][..1] == a[..1] && a[..1][..0] == [];
    assert Chain(x, a[..1]) == AllpassOut(Chain(x, []), a[0]);
    assert Chain(x, a[..2]) == AllpassOut(Chain(x, a[..1]), a[1]);
    assert Chain(x, a[..3]) == AllpassOut(Chain(x, a[..2]), a[2]);
  }

  /** Sample `n` of comb `k`. */
  function Voice(x: seq<real>, s: Settings, k: nat, n: nat): real
    requires k < |s.combDelays| && n < |x|
  {
    CombOut(x, s.combDelays[k], s.feedback, s.damping)[n]
  }

  lemma {:induction false} EightInParallel(x: seq<real>, s: Settings, n: nat)
    requires |s.combDelays| == 8 && n < |x|
    ensures Bank(x, s.combDelays, s.feedback, s.damping)[n]
         == Voice(x, s, 0, n) + Voice(x, s, 1, n) + Voice(x, s, 2, n) + Voice(x, s, 3, n)
            + Voice(x, s, 4, n) + Voice(x, s, 5, n) + Voice(x, s, 6, n) + Voice(x, s, 7, n)
  {
    hide CombOut;
    var ds, f, damp := s.combDelays, s.feedback, s.damping;
    assert ds[..8] == ds && ds[..0] == [] && Bank(x, [], f, damp)[n] == 0.0;
    hide Bank;
    BankNext8(x, ds, 0, f, damp, n);
    BankNext8(x, ds, 1, f, damp, n);
    BankNext8(x, ds, 2, f, damp, n);
    BankNext8(x, ds, 3, f, damp, n);
    BankNext8(x, ds, 4, f, damp, n);
    BankNext8(x, ds, 5, f, damp, n);
    BankNext8(x, ds, 6, f, damp, n);
    BankNext8(x, ds, 7, f, damp, n);
  }

  /** The settings in numbers. At the reference rate the delays are those of the tables; at any rate each is
      the nearest number of samples to the same time, but at least one. */
  lemma {:induction false} ConfigureIs(roomSize: real, damping: real, wet: real, dry: real, sampleRate: u32, i: nat)
    requires i < 8
    ensures var s := Configure(roomSize, damping, wet, dry, sampleRate);
            && (0.0 <= roomSize <= 1.0 ==> s.feedback == 0.7 + 0.28 * roomSize)
            && (0.0 <= damping <= 1.0 ==> s.damping == damping)
            && (0.0 <= wet <= 1.0 ==> s.wet == wet) && (0.0 <= dry <= 1.0 ==> s.dry == dry)
            && Timed(s.combDelays[i], COMB_DELAYS_441[i], sampleRate)
            && (i < 4 ==> Timed(s.allpassDelays[i], ALLPASS_DELAYS_441[i], sampleRate))
    ensures var s := Configure(roomSize, damping, wet, dry, 44100);
            s.combDelays[i] == COMB_DELAYS_441[i] && (i < 4 ==> s.allpassDelays[i] == ALLPASS_DELAYS_441[i])
  {
    ScaleIsTimed(COMB_DELAYS_441[i], sampleRate);
    ScaleIsTimed(COMB_DELAYS_441[i], 44100);
    if i < 4 {
      ScaleIsTimed(ALLPASS_DELAYS_441[i], sampleRate);
      ScaleIsTimed(ALLPASS_DELAYS_441[i], 44100);
    }
    hide ScaleDelay;
  }

  predicate Timed(d: nat, base: nat, sampleRate: u32) {
    var exact := (base * sampleRate) as real / 44100.0;
    (d == 1 && exact < 1.5) || d as real - 0.5 <= exact < d as real + 0.5
  }

  lemma {:induction false} ScaleIsTimed(base: nat, sampleRate: u32)
    ensures Timed(ScaleDelay(base, sampleRate), base, sampleRate)
    ensures base >= 1 ==> ScaleDelay(base, 44100) == base
  {
    assert base as real * (sampleRate as real / 44100.0) == (base as real * sampleRate as real) / 44100.0;
    assert (base * sampleRate) as real == base as real * sampleRate as real;
    assert base as real * (44100.0 / 44100.0) == base as real;
  }

  lemma {:induction false} BankPrefix(x: seq<real>, k: nat, delays: seq<nat>, f: real, damp: real)
    requires k <= |x|
    ensures Bank(x[..k], delays, f, damp) == Bank(x, delays, f, damp)[..k]
  {
    hide CombOut;
    if delays == [] {
    } else {
      var n := |delays| - 1;
      BankPrefix(x, k, delays[..n], f, damp);
      CombPrefix(x, k, delays[n], f, damp);
      PlusPrefix(Bank(x, delays[..n], f, damp), CombOut(x, delays[n], f, damp), k);
    }
  }

  lemma {:induction false} PlusPrefix(a: seq<real>, b: seq<real>, k: nat)
    requires k <= |a| == |b|
    ensures Plus(a[..k], b[..k]) == Plus(a, b)[..k]
  {
  }

  lemma {:induction false} ChainPrefix(x: seq<real>, k: nat, delays: seq<nat>)
    requires k <= |x|
    ensures Chain(x[..k], delays) == Chain(x, delays)[..k]
  {
    hide AllpassOut;
    if delays == [] {
    } else {
      var n := |delays| - 1;
      ChainPrefix(x, k, delays[..n]);
      AllpassPrefix(Chain(x, delays[..n]), k, delays[n]);
    }
  }

  /** A stream may be cut anywhere: the output so far does not depend on what comes later. */
  lemma {:induction false} CutAnywhere(x: seq<real>, k: nat, s: Settings)
    requires k <= |x|
    ensures Output(x[..k], s) == Output(x, s)[..k]
  {
    hide Mix, Bank, Chain;
    BankPrefix(x, k, s.combDelays, s.feedback, s.damping);
    ChainPrefix(Bank(x, s.combDelays, s.feedback, s.damping), k, s.allpassDelays);
    assert Reverberated(x[..k], s) == Reverberated(x, s)[..k];
  }
}
