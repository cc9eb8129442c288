/** The flanger: a feedback delay line read at a fractional position that an LFO sweeps. */
module Flanger {
  import opened Blocks
  import opened Common
  import opened Layout
  import opened Ring

  const FEEDBACK_CEIL := 0.9

  /** The single-precision value of one full LFO cycle. */
  const TWO_PI := 6.283185482025146484375

  // ----- reading between samples -------------------------------------------------------------------------

  function Ceil(x: real): int { -((-x).Floor) }

  function RemEuclid(x: real, m: real): real
    requires 0.0 < m
  {
    x - m * (x / m).Floor as real
  }

  lemma {:induction false} RemOnce(x: real, m: real)
    requires 0.0 < m && -m <= x < m
    ensures RemEuclid(x, m) == if x < 0.0 then x + m else x
  {
    var q := x / m;
    assert q * m == x;
    QuotientRange(x, m, q);
    var k := q.Floor;
    assert k == if x < 0.0 then -1 else 0;
    assert RemEuclid(x, m) == x - m * k as real;
  }

  lemma {:induction false} QuotientRange(x: real, m: real, q: real)
    requires 0.0 < m && q * m == x && -m <= x < m
    ensures -1.0 <= q < 1.0 && (x < 0.0 <==> q < 0.0)
  {
    assert (q + 1.0) * m == x + m;
    NonNegativeFactor(q + 1.0, m);
    assert (1.0 - q) * m == m - x;
    PositiveFactor(1.0 - q, m);
    if x < 0.0 {
      assert -q * m == -x;
      PositiveFactor(-q, m);
    } else {
      NonNegativeFactor(q, m);
    }
  }

  lemma {:induction false} PositiveFactor(b: real, p: real)
    requires 0.0 < p && 0.0 < b * p
    ensures 0.0 < b
  {
  }

  /** The source's read: wrap the fractional position into the ring, interpolate two neighbours. */
  function RingTap(ring: seq<real>, wp: nat, delay: real): real
    requires wp < |ring| && 0.0 < delay < |ring| as real
  {
    var cap := |ring|;
    RemOnce(wp as real - delay, cap as real);
    var readPos := RemEuclid(wp as real - delay, cap as real);
    var idx0 := readPos.Floor;
    var idx1 := (idx0 + 1) % cap;
    Mixed(ring[idx0], ring[idx1], readPos - idx0 as real)
  }

  /** Linear interpolation of an unbounded history at a real-valued time. */
  function Interpolated(h: seq<real>, t: real): real {
    Mixed(Past(h, t.Floor), Past(h, t.Floor + 1), t - t.Floor as real)
  }

  /** What the ring read yields on the history: the two neighbours of the delayed time, except that
      for a delay below one sample the younger neighbour is the slot about to be overwritten. */
  function Tap(h: seq<real>, delay: real, cap: nat): real {
    var d := Ceil(delay);
    Mixed(Past(h, |h| - d), if d >= 2 then Past(h, |h| - d + 1) else Past(h, |h| - cap), d as real - delay)
  }

  lemma {:induction false} TapIndices(wp: nat, delay: real, cap: nat)
    requires wp < cap && 0.0 < delay < cap as real
    ensures var d, readPos := Ceil(delay), RemEuclid(wp as real - delay, cap as real);
            && 1 <= d <= cap && readPos.Floor == Slot(wp, d, cap)
            && readPos - readPos.Floor as real == d as real - delay
  {
    RemOnce(wp as real - delay, cap as real);
    hide RemEuclid;
  }

  lemma {:induction false} NextSlot(wp: nat, d: nat, cap: nat)
    requires wp < cap && 1 <= d <= cap
    ensures (Slot(wp, d, cap) + 1) % cap == if d >= 2 then Slot(wp, d - 1, cap) else wp
  {
    ModOnce(Slot(wp, d, cap) + 1, cap);
  }

  /** The ring read is the read on the history. */
  lemma {:induction false} TapReads(ring: seq<real>, wp: nat, h: seq<real>, delay: real)
    requires Holds(ring, wp, h) && 0.0 < delay < |ring| as real
    ensures RingTap(ring, wp, delay) == Tap(h, delay, |ring|)
  {
    var cap, d := |ring|, Ceil(delay);
    TapIndices(wp, delay, cap);
    NextSlot(wp, d, cap);
    ReadsBack(ring, wp, h, d);
    if d >= 2 {
      ReadsBack(ring, wp, h, d - 1);
    } else {
      ReadsBack(ring, wp, h, cap);
      assert Slot(wp, cap, cap) == wp;
    }
    hide Mixed, Past, RemEuclid;
  }

  /** The read is the interpolation of true history, plus an alias of the oldest slot when the delay is
      below one sample. */
  lemma {:induction false} TapIs(h: seq<real>, delay: real, cap: nat)
    requires 0.0 < delay < cap as real
    ensures Tap(h, delay, cap) == Interpolated(h, |h| as real - delay)
                                + if delay < 1.0 then Past(h, |h| - cap) * (1.0 - delay) else 0.0
  {
    var t := |h| as real - delay;
    var d := Ceil(delay);
    assert t.Floor == |h| - d;
    assert t - t.Floor as real == d as real - delay;
    MixedAlias(Past(h, |h| - d), Past(h, |h| - cap), d as real - delay);
    hide Mixed;
    if d == 1 {
      assert Past(h, |h|) == 0.0;
      if delay == 1.0 {
        assert Past(h, |h| - cap) * (d as real - delay) == 0.0;
      }
    }
  }

  lemma {:induction false} MixedAlias(a: real, b: real, t: real)
    ensures Mixed(a, b, t) == Mixed(a, 0.0, t) + b * t
  {
  }

  /** So the read is true to the history, whatever the history, exactly when the delay is at least one
      sample. */
  lemma {:induction false} TrueExactlyWhen(delay: real, cap: nat)
    requires 0.0 < delay < cap as real
    ensures (forall h: seq<real> :: Tap(h, delay, cap) == Interpolated(h, |h| as real - delay)) <==> 1.0 <= delay
  {
    hide Tap, Interpolated;
    forall h: seq<real> | 1.0 <= delay ensures Tap(h, delay, cap) == Interpolated(h, |h| as real - delay) {
      TapIs(h, delay, cap);
    }
    if delay < 1.0 {
      var h := seq(cap, i => if i == 0 then 1.0 else 0.0);
      TapIs(h, delay, cap);
      assert Past(h, 0) == 1.0;
      assert Tap(h, delay, cap) != Interpolated(h, |h| as real - delay);
    }
  }

  // ----- the whole stream -----------------------------------------------------------------------------------

  /** What the line holds for a whole input stream, when sample `n` is read `delay(n)` behind. */
  function Line(x: seq<real>, delay: nat -> real, fb: real, cap: nat): (kept: seq<real>)
    ensures |kept| == |x|
  {
    if |x| == 0 then []
    else
      var n := |x| - 1;
      var kept := Line(x[..n], delay, fb, cap);
      kept + [Fed(x[n], Tap(kept, delay(n), cap), fb)]
  }

  function Wet(x: seq<real>, delay: nat -> real, fb: real, cap: nat, n: nat): real
    requires n < |x|
  {
    Tap(Line(x[..n], delay, fb, cap), delay(n), cap)
  }

  function Output(x: seq<real>, delay: nat -> real, fb: real, mix: real, cap: nat): (y: seq<real>)
    ensures |y| == |x|
    ensures forall n :: 0 <= n < |x| ==> y[n] == Mixed(x[n], Wet(x, delay, fb, cap, n), mix)
  {
    seq(|x|, n requires 0 <= n < |x| => Mixed(x[n], Wet(x, delay, fb, cap, n), mix))
  }

  lemma {:induction false} LineSnoc(x: seq<real>, v: real, delay: nat -> real, fb: real, cap: nat)
    ensures Line(x + [v], delay, fb, cap)
            == Line(x, delay, fb, cap) + [Fed(v, Tap(Line(x, delay, fb, cap), delay(|x|), cap), fb)]
  {
    hide Fed, Tap;
    var all := x + [v];
    assert all[..|x|] == x && all[|x|] == v;
  }

  lemma {:induction false} OutputSnoc(x: seq<real>, v: real, delay: nat -> real, fb: real, mix: real, cap: nat)
    ensures Output(x + [v], delay, fb, mix, cap)
         == Output(x, delay, fb, mix, cap) + [Mixed(v, Tap(Line(x, delay, fb, cap), delay(|x|), cap), mix)]
  {
    hide Line, Tap, Mixed;
    var all := x + [v];
    assert all[..|x|] == x;
    forall n | 0 <= n < |x| ensures Wet(all, delay, fb, cap, n) == Wet(x, delay, fb, cap, n) {
      assert all[..n] == x[..n];
    }
  }

  /** With every delay at least one sample, the wet value is the interpolation of what the line held at
      the delayed time: nothing overwritten is ever read. */
  lemma {:induction false} WetIsTrue(x: seq<real>, delay: nat -> real, fb: real, cap: nat, n: nat)
    requires n < |x| && 1.0 <= delay(n) < cap as real
    ensures Wet(x, delay, fb, cap, n) == Interpolated(Line(x[..n], delay, fb, cap), n as real - delay(n))
  {
    hide Line, Tap, Interpolated;
    TapIs(Line(x[..n], delay, fb, cap), delay(n), cap);
  }

  lemma {:induction false} LinePrefix(x: seq<real>, k: nat, delay: nat -> real, fb: real, cap: nat)
    requires k <= |x|
    ensures Line(x[..k], delay, fb, cap) == Line(x, delay, fb, cap)[..k]
  {
    if k == |x| {
      assert x[..k] == x;
    } else {
      var n := |x| - 1;
      LinePrefix(x[..n], k, delay, fb, cap);
      assert x[..n][..k] == x[..k];
    }
  }

  lemma {:induction false} LineIsFed(x: seq<real>, delay: nat -> real, fb: real, cap: nat, n: nat)
    requires n < |x|
    ensures Line(x, delay, fb, cap)[n] == Fed(x[n], Wet(x, delay, fb, cap, n), fb)
  {
    hide Fed, Tap;
    LinePrefix(x, n + 1, delay, fb, cap);
    assert x[..n + 1] == x[..n] + [x[n]];
    LineSnoc(x[..n], x[n], delay, fb, cap);
    assert Line(x, delay, fb, cap)[..n + 1][n] == Line(x, delay, fb, cap)[n];
  }

  /** The line `t` samples after the start, between two samples in proportion; silence before the start. */
  predicate Between(line: seq<real>, n: nat, t: real, v: real)
    requires n <= |line|
  {
    var k, a := t.Floor, t - t.Floor as real;
    var low, high := if 0 <= k < n then line[k] else 0.0, if 0 <= k + 1 < n then line[k + 1] else 0.0;
    v == low * (1.0 - a) + high * a
  }

  /** The recurrences of the node at every sample whose delay is at least one: the wet value lies on the
      line that long ago, the line gets the input and the wet value times the feedback, the output is the
      mix of both. */
  lemma {:induction false} FlangerObeys(x: seq<real>, delay: nat -> real, fb: real, mix: real, cap: nat, n: nat)
    requires n < |x| && 1.0 <= delay(n) < cap as real
    ensures var line, wet := Line(x, delay, fb, cap), Wet(x, delay, fb, cap, n);
            && Between(line, n, n as real - delay(n), wet)
            && line[n] == x[n] + wet * fb
            && Output(x, delay, fb, mix, cap)[n] == x[n] * (1.0 - mix) + wet * mix
  {
    hide Line, Wet, Interpolated, Between;
    WetIsTrue(x, delay, fb, cap, n);
    LineIsFed(x, delay, fb, cap, n);
    LinePrefix(x, n, delay, fb, cap);
    InterpolatedBetween(Line(x, delay, fb, cap), n, n as real - delay(n));
  }

  lemma {:induction false} InterpolatedBetween(line: seq<real>, n: nat, t: real)
    requires n <= |line|
    ensures Between(line, n, t, Interpolated(line[..n], t))
  {
  }

  /** A stream may be cut anywhere: the output so far does not depend on what comes later. */
  lemma {:induction false} CutAnywhere(x: seq<real>, k: nat, delay: nat -> real, fb: real, mix: real, cap: nat)
    requires k <= |x|
    ensures Output(x[..k], delay, fb, mix, cap) == Output(x, delay, fb, mix, cap)[..k]
  {
    hide Mixed, Line, Tap;
    forall n | 0 <= n < k ensures Wet(x[..k], delay, fb, cap, n) == Wet(x, delay, fb, cap, n) {
      assert x[..k][..n] == x[..n];
    }
  }

  // ----- settings --------------------------------------------------------------------------------------------

  /** In samples. */
  datatype Settings = Settings(center: real, depth: real, feedback: real, mix: real, phaseInc: real, capacity: nat)

  function Max(a: real, b: real): real { if a < b then b else a }

  function InSamples(ms: real, sampleRate: u32): real { ms * 0.001 * sampleRate as real }

  function Configure(rateHz: real, depthMs: real, centerDelayMs: real, feedback: real, mix: real,
                     sampleRate: u32): Settings
    requires 0 < sampleRate
  {
    var rate := Clamp(rateHz, 0.05, 10.0);
    var depth := Max(depthMs, 0.0);
    var center := Max(Max(centerDelayMs, 1.0), depth + 1.0);
    var length := (InSamples(center + depth, sampleRate) + 1.0).Floor;
    Settings(InSamples(center, sampleRate), InSamples(depth, sampleRate),
             Clamp(feedback, 0.0, FEEDBACK_CEIL), Clamp(mix, 0.0, 1.0),
             TWO_PI * rate / sampleRate as real, if length < 4 then 4 else length)
  }

  /** The sweep stays behind the cursor and inside the ring. */
  predicate Sane(s: Settings) {
    && 0.0 <= s.depth < s.center && s.center + s.depth < s.capacity as real
    && 0.0 <= s.feedback <= FEEDBACK_CEIL && 0.0 <= s.mix <= 1.0
  }

  lemma {:induction false} Scaling(a: real, b: real, sr: u32)
    ensures InSamples(a + b, sr) == InSamples(a, sr) + InSamples(b, sr)
    ensures InSamples(a - b, sr) == InSamples(a, sr) - InSamples(b, sr)
    ensures 0.0 <= a ==> 0.0 <= InSamples(a, sr)
    ensures 1.0 <= a && 0 < sr ==> 0.0 < InSamples(a, sr)
    ensures 1.0 <= a && 1000 <= sr ==> 1.0 <= InSamples(a, sr)
  {
    var r := sr as real;
    assert InSamples(a, sr) == a * (0.001 * r);
    if 0.0 <= a {
      ProductSign(a, 0.001 * r);
    }
    if 1.0 <= a {
      ProductSign(a - 1.0, 0.001 * r);
      assert (a - 1.0) * (0.001 * r) == a * (0.001 * r) - 0.001 * r;
    }
  }

  /** Every configuration is sane; and its shortest delay is at least one sample from 1000 Hz on. */
  lemma {:induction false} ConfigureIsSane(rateHz: real, depthMs: real, centerDelayMs: real, feedback: real,
                                           mix: real, sampleRate: u32)
    requires 0 < sampleRate
    ensures var s := Configure(rateHz, depthMs, centerDelayMs, feedback, mix, sampleRate);
            Sane(s) && (1000 <= sampleRate ==> 1.0 <= s.center - s.depth)
  {
    var depth := Max(depthMs, 0.0);
    var center := Max(Max(centerDelayMs, 1.0), depth + 1.0);
    Scaling(center, depth, sampleRate);
    Scaling(center - depth, 0.0, sampleRate);
    Scaling(depth, 0.0, sampleRate);
    hide InSamples;
  }

  /** The LFO phase before sample `n`. */
  function Phase(n: nat, inc: real): real {
    if n == 0 then 0.0
    else
      var p := Phase(n - 1, inc) + inc;
      if p >= TWO_PI then p - TWO_PI else p
  }

  function Sway(center: real, depth: real, lfo: real): real { center + depth * lfo }

  lemma {:induction false} SwayRange(center: real, depth: real, lfo: real)
    requires 0.0 <= depth && -1.0 <= lfo <= 1.0
    ensures center - depth <= Sway(center, depth, lfo) <= center + depth
  {
    ProductSign(depth, 1.0 - lfo);
    ProductSign(depth, 1.0 + lfo);
    assert depth * (1.0 - lfo) == depth - depth * lfo && depth * (1.0 + lfo) == depth + depth * lfo;
  }

  /** How far the bottom of the sweep stays from the cursor, in milliseconds. */
  function Margin(depthMs: real, centerDelayMs: real): real {
    var depth := Max(depthMs, 0.0);
    Max(Max(centerDelayMs, 1.0), depth + 1.0) - depth
  }

  /** That the margin is one sample or more. */
  predicate LongEnough(depthMs: real, centerDelayMs: real, sampleRate: u32) {
    1.0 <= InSamples(Margin(depthMs, centerDelayMs), sampleRate)
  }

  lemma {:induction false} MarginIs(rateHz: real, depthMs: real, centerDelayMs: real, feedback: real,
                                    mix: real, sampleRate: u32)
    requires 0 < sampleRate
    ensures var s := Configure(rateHz, depthMs, centerDelayMs, feedback, mix, sampleRate);
            s.center - s.depth == InSamples(Margin(depthMs, centerDelayMs), sampleRate)
  {
    var depth := Max(depthMs, 0.0);
    Scaling(Max(Max(centerDelayMs, 1.0), depth + 1.0), depth, sampleRate);
    hide InSamples;
  }

  /** The delay is at least one sample for every LFO value exactly when the arguments of the
      constructor leave a margin of one sample. */
  lemma {:induction false} SweepIsTrueExactlyWhen(rateHz: real, depthMs: real, centerDelayMs: real, feedback: real,
                                                  mix: real, sampleRate: u32)
    requires 0 < sampleRate
    ensures var s := Configure(rateHz, depthMs, centerDelayMs, feedback, mix, sampleRate);
            (forall lfo: real :: -1.0 <= lfo <= 1.0 ==> 1.0 <= Sway(s.center, s.depth, lfo)) <==>
              LongEnough(depthMs, centerDelayMs, sampleRate)
    ensures 1000 <= sampleRate ==> LongEnough(depthMs, centerDelayMs, sampleRate)
  {
    var s := Configure(rateHz, depthMs, centerDelayMs, feedback, mix, sampleRate);
    ConfigureIsSane(rateHz, depthMs, centerDelayMs, feedback, mix, sampleRate);
    MarginIs(rateHz, depthMs, centerDelayMs, feedback, mix, sampleRate);
    hide Configure, Margin, InSamples;
    assert Sway(s.center, s.depth, -1.0) == s.center - s.depth;
    forall lfo: real | -1.0 <= lfo <= 1.0 ensures s.center - s.depth <= Sway(s.center, s.depth, lfo) {
      SwayRange(s.center, s.depth, lfo);
    }
  }

  /** At 500 Hz a depth of 1 ms around 2 ms is not: the shortest delay is half a sample. */
  lemma {:induction false} SlowClockIsShort(rateHz: real, feedback: real, mix: real)
    ensures !LongEnough(1.0, 2.0, 500)
    ensures var s := Configure(rateHz, 1.0, 2.0, feedback, mix, 500); Sway(s.center, s.depth, -1.0) == 0.5
  {
    assert InSamples(1.0, 500) == 0.5 && InSamples(2.0, 500) == 1.0;
  }

  /** The LFO phase runs through the circle at a steady rate: `n` increments, less whole turns. */
  lemma {:induction false} PhaseTurns(n: nat, inc: real) returns (turns: nat)
    requires 0.0 <= inc <= TWO_PI
    ensures 0.0 <= Phase(n, inc) < TWO_PI && Phase(n, inc) + turns as real * TWO_PI == n as real * inc
  {
    if n == 0 {
      turns := 0;
    } else {
      turns := PhaseTurns(n - 1, inc);
      assert n as real * inc == (n - 1) as real * inc + inc;
      if Phase(n - 1, inc) + inc >= TWO_PI {
        turns := turns + 1;
      }
    }
  }

  /** The settings in numbers: a thousandth of the sample rate per millisecond, the centre at least 1 ms and
      at least 1 ms above the depth, the LFO between 0.05 and 10 turns a second. */
  lemma {:induction false} ConfigureIs(rateHz: real, depthMs: real, centerDelayMs: real, feedback: real,
                                       mix: real, sampleRate: u32)
    requires 0 < sampleRate
    ensures var s := Configure(rateHz, depthMs, centerDelayMs, feedback, mix, sampleRate);
            var sr := sampleRate as real;
            && (depthMs <= 0.0 ==> s.depth == 0.0) && (depthMs >= 0.0 ==> 1000.0 * s.depth == depthMs * sr)
            && (centerDelayMs >= 1.0 && centerDelayMs >= depthMs + 1.0 ==> 1000.0 * s.center == centerDelayMs * sr)
            && (depthMs >= 0.0 && centerDelayMs <= depthMs + 1.0 ==> 1000.0 * s.center == (depthMs + 1.0) * sr)
            && (0.0 <= feedback <= 0.9 ==> s.feedback == feedback) && (feedback < 0.0 ==> s.feedback == 0.0)
            && (feedback > 0.9 ==> s.feedback == 0.9)
            && (0.0 <= mix <= 1.0 ==> s.mix == mix) && (mix < 0.0 ==> s.mix == 0.0) && (mix > 1.0 ==> s.mix == 1.0)
            && (0.05 <= rateHz <= 10.0 ==> s.phaseInc * sr == TWO_PI * rateHz)
  {
  }

  ghost predicate Bounded(sine: real -> real) {
    forall p: real :: -1.0 <= sine(p) <= 1.0
  }

  /** The delay of sample `n`. */
  function Swept(s: Settings, sine: real -> real): (delay: nat -> real)
    ensures forall n :: delay(n) == Sway(s.center, s.depth, sine(Phase(n, s.phaseInc)))
  {
    (n: nat) => Sway(s.center, s.depth, sine(Phase(n, s.phaseInc)))
  }

  /** The delay of a sample: the centre, and the depth times the LFO at the sample's phase. */
  lemma {:induction false} SweptIs(s: Settings, sine: real -> real, n: nat)
    ensures Swept(s, sine)(n) == s.center + s.depth * sine(Phase(n, s.phaseInc))
    ensures Phase(0, s.phaseInc) == 0.0
  {
  }

  /** With such arguments, and so at every sample rate of 1000 Hz and above, for any LFO with values in
      [-1, 1]: the wet value of every sample interpolates the true history of the line. */
  lemma {:induction false} FlangerIsTrue(rateHz: real, depthMs: real, centerDelayMs: real, feedback: real, mix: real,
                                         sampleRate: u32,
                                         sine: real -> real, x: seq<real>, n: nat)
    requires 0 < sampleRate && LongEnough(depthMs, centerDelayMs, sampleRate) && Bounded(sine) && n < |x|
    ensures var s := Configure(rateHz, depthMs, centerDelayMs, feedback, mix, sampleRate);
            var delay := Swept(s, sine);
            Wet(x, delay, s.feedback, s.capacity, n)
              == Interpolated(Line(x[..n], delay, s.feedback, s.capacity), n as real - delay(n))
  {
    var s := Configure(rateHz, depthMs, centerDelayMs, feedback, mix, sampleRate);
    ConfigureIsSane(rateHz, depthMs, centerDelayMs, feedback, mix, sampleRate);
    MarginIs(rateHz, depthMs, centerDelayMs, feedback, mix, sampleRate);
    hide Configure, Line, Wet, Interpolated, Sway, Phase, InSamples, Margin;
    SwayRange(s.center, s.depth, sine(Phase(n, s.phaseInc)));
    WetIsTrue(x, Swept(s, sine), s.feedback, s.capacity, n);
  }

  // ----- bounds -------------------------------------------------------------------------------------------------

  lemma {:induction false} TapBound(h: seq<real>, delay: real, cap: nat, b: real)
    requires Within(h, b) && 0.0 <= b
    ensures Abs(Tap(h, delay, cap)) <= b
  {
    var d := Ceil(delay);
    MixedBound(Past(h, |h| - d), if d >= 2 then Past(h, |h| - d + 1) else Past(h, |h| - cap), d as real - delay, b);
  }

  lemma {:induction false} LineBound(x: seq<real>, delay: nat -> real, fb: real, cap: nat, m: real, b: real)
    requires Within(x, m) && 0.0 <= fb && 0.0 <= b && m + b * fb <= b
    ensures Within(Line(x, delay, fb, cap), b)
  {
    hide Fed, Tap;
    if |x| == 0 {
    } else {
      var n := |x| - 1;
      LineBound(x[..n], delay, fb, cap, m, b);
      var kept := Line(x[..n], delay, fb, cap);
      TapBound(kept, delay(n), cap, b);
      FedBound(x[n], Tap(kept, delay(n), cap), fb, m, b);
    }
  }

  lemma {:induction false} OutputBound(x: seq<real>, delay: nat -> real, fb: real, mix: real, cap: nat, m: real,
                                       b: real)
    requires Within(x, m) && 0.0 <= fb && 0.0 <= m <= b && m + b * fb <= b && 0.0 <= mix <= 1.0
    ensures Within(Output(x, delay, fb, mix, cap), b)
  {
    hide Line, Tap, Mixed;
    forall n | 0 <= n < |x| ensures Abs(Output(x, delay, fb, mix, cap)[n]) <= b {
      LineBound(x[..n], delay, fb, cap, m, b);
      TapBound(Line(x[..n], delay, fb, cap), delay(n), cap, b);
      MixedBound(x[n], Wet(x, delay, fb, cap, n), mix, b);
    }
  }

  /** For every input within `m`, whatever the sweep: line and output stay within m / (1 - fb), which is
      at most 10 * m. */
  lemma {:induction false} FlangerIsBounded(x: seq<real>, delay: nat -> real, s: Settings, m: real)
    requires Within(x, m) && 0.0 <= m && Sane(s)
    ensures m / (1.0 - s.feedback) <= 10.0 * m
    ensures Within(Line(x, delay, s.feedback, s.capacity), m / (1.0 - s.feedback))
    ensures Within(Output(x, delay, s.feedback, s.mix, s.capacity), m / (1.0 - s.feedback))
  {
    hide Line, Output, Within;
    var b := m / (1.0 - s.feedback);
    LoopLimit(m, s.feedback, 10.0);
    LineBound(x, delay, s.feedback, s.capacity, m, b);
    OutputBound(x, delay, s.feedback, s.mix, s.capacity, m, b);
  }

  // ----- the node -------------------------------------------------------------------------------------------------

  class FlangerNode {
    const buffers: seq<array<real>>
    const settings: Settings
    const sine: real -> real
    var writePos: seq<nat>
    var lfoPhase: seq<real>
    ghost var heard: seq<seq<real>>

    ghost predicate InStep(c: nat)
      requires c < |buffers| == |writePos| == |lfoPhase| == |heard|
      reads this, buffers[c]
    {
      && Holds(buffers[c][..], writePos[c], Line(heard[c], Swept(settings, sine), settings.feedback, settings.capacity))
      && lfoPhase[c] == Phase(|heard[c]|, settings.phaseInc)
    }

    ghost predicate Shape() {
      && 0 < |buffers| && Sane(settings) && Bounded(sine)
      && (forall c, d :: 0 <= c < d < |buffers| ==> buffers[c] != buffers[d])
      && (forall c :: 0 <= c < |buffers| ==> buffers[c].Length == settings.capacity)
    }

    ghost predicate Valid()
      reads this, buffers
    {
      && Shape() && |buffers| == |writePos| == |lfoPhase| == |heard|
      && forall c :: 0 <= c < |buffers| ==> InStep(c)
    }

    constructor (rateHz: real, depthMs: real, centerDelayMs: real, feedback: real, mix: real, sampleRate: u32,
                 channels: u16, sine: real -> real)
      requires 0 < sampleRate && Bounded(sine)
      ensures Valid() && fresh(buffers) && |buffers| == (if channels == 0 then 1 else channels)
      ensures settings == Configure(rateHz, depthMs, centerDelayMs, feedback, mix, sampleRate) && this.sine == sine
      ensures forall c :: 0 <= c < |heard| ==> heard[c] == []
    {
      var s := Configure(rateHz, depthMs, centerDelayMs, feedback, mix, sampleRate);
      ConfigureIsSane(rateHz, depthMs, centerDelayMs, feedback, mix, sampleRate);
      hide Configure;
      var ch: nat := if channels == 0 then 1 else channels;
      var cap := s.capacity;
      this.settings, this.sine := s, sine;
      this.writePos := seq(ch, _ => 0);
      this.lfoPhase := seq(ch, _ => 0.0);
      this.heard := seq(ch, _ => []);
      var lines: seq<array<real>> := [];
      while |lines| < ch
        invariant |lines| <= ch && fresh(lines)
        invariant forall c, d :: 0 <= c < d < |lines| ==> lines[c] != lines[d]
        invariant forall c :: 0 <= c < |lines| ==> lines[c].Length == cap
        invariant forall c, j :: 0 <= c < |lines| && 0 <= j < cap ==> lines[c][j] == 0.0
      {
        var line := new real[cap](_ => 0.0);
        lines := lines + [line];
      }
      this.buffers := lines;
      new;
      forall c | 0 <= c < |buffers| ensures InStep(c) {
        StartsSilent(buffers[c][..]);
      }
    }

    method ProcessSample(x: real, c: nat) returns (y: real)
      requires Valid() && c < |buffers|
      modifies this, buffers[c]
      ensures Valid() && heard == old(heard)[c := old(heard[c]) + [x]]
      ensures var f := Swept(settings, sine);
              Output(heard[c], f, settings.feedback, settings.mix, settings.capacity)
              == Output(old(heard[c]), f, settings.feedback, settings.mix, settings.capacity) + [y]
    {
      hide Line, Tap, Fed, Mixed, Past, Sway, RemEuclid, Output;
      assert InStep(c);
      ghost var h, ring, f := heard[c], buffers[c][..], Swept(settings, sine);
      ghost var kept := Line(h, f, settings.feedback, settings.capacity);
      LineSnoc(h, x, f, settings.feedback, settings.capacity);
      OutputSnoc(h, x, f, settings.feedback, settings.mix, settings.capacity);
      var cap, wp := settings.capacity, writePos[c];
      var lfo := sine(lfoPhase[c]);
      var currentDelay := Sway(settings.center, settings.depth, lfo);
      SwayRange(settings.center, settings.depth, lfo);
      TapIndices(wp, currentDelay, cap);
      TapReads(ring, wp, kept, currentDelay);
      var readPos := RemEuclid(wp as real - currentDelay, cap as real);
      var idx0 := readPos.Floor;
      var idx1 := (idx0 + 1) % cap;
      var wet := Mixed(buffers[c][idx0], buffers[c][idx1], readPos - idx0 as real);
      assert wet == Tap(kept, f(|h|), cap);
      var back := Fed(x, wet, settings.feedback);
      WriteExtends(ring, wp, kept, back);
      CursorArithmetic(wp, 1, cap);
      buffers[c][wp] := back;
      assert buffers[c][..] == ring[wp := back];
      writePos := writePos[c := (wp + 1) % cap];
      var phase := lfoPhase[c] + settings.phaseInc;
      lfoPhase := lfoPhase[c := if phase >= TWO_PI then phase - TWO_PI else phase];
      heard := heard[c := h + [x]];
      forall d | 0 <= d < |buffers| && d != c ensures InStep(d) {
        assert old(InStep(d)) && buffers[d][..] == old(buffers[d][..]);
      }
      y := Mixed(x, wet, settings.mix);
    }

    /** The output of this node for a whole stream. */
    ghost function Played(): (f: Stream)
      ensures forall c, x ::
                f(c, x) == Output(x, Swept(settings, sine), settings.feedback, settings.mix, settings.capacity)
    {
      (_: nat, x: seq<real>) => Output(x, Swept(settings, sine), settings.feedback, settings.mix, settings.capacity)
    }

    /** One channel's part of a block, sample by sample. */
    method ProcessChannel(inp: seq<real>, c: nat, offset: nat, perCh: nat, out: array<real>)
      requires Valid() && c < |buffers| && out !in buffers
      requires offset + perCh <= |inp| && offset + perCh <= out.Length
      modifies this, buffers[c], out
      ensures Valid() && |heard| == |old(heard)| && forall d :: 0 <= d < |heard| && d != c ==> heard[d] == old(heard)[d]
      ensures ChannelDone(Played(), c, old(heard)[c], heard[c], inp, out[..], offset, perCh)
      ensures out[..offset] == old(out[..offset]) && out[offset + perCh..] == old(out[offset + perCh..])
    {
      hide Output, InStep, Swept, Shape;
      ghost var h, out0 := heard[c], out[..];
      assert h + inp[offset..offset] == h;
      var i := 0;
      while i < perCh
        invariant 0 <= i <= perCh && Valid()
        invariant heard == old(heard)[c := h + inp[offset..offset + i]]
        invariant Filling(Played()(c, heard[c]), h, out0, out[..], offset, i)
      {
        hide Filling;
        var idx := offset + i;
        ghost var so := heard[c];
        assert so + [inp[idx]] == h + inp[offset..idx + 1];
        var y := ProcessSample(inp[idx], c);
        FillingNext(Played()(c, so), h, out0, out[..], offset, i, y);
        ghost var out1 := out[..];
        out[idx] := y;
        assert out[..] == out1[idx := y];
        i := i + 1;
      }
    }

    /** A whole block, planar, all channels: however the stream was cut into blocks, each channel's
        output continues the output for the one stream it has heard. A block of more channels than the
        node was built for panics, after the node's own channels, unless it is too short to hold a
        sample of each. */
    method Process(inp: seq<real>, channels: nat, out: array<real>) returns (panicked: bool)
      requires Valid() && out !in buffers
      modifies this, buffers, out
      ensures Valid()
      ensures panicked <==> |buffers| < channels && 0 < PerChannel(|inp|, out.Length, channels)
      ensures Processed(Played(), old(heard), heard, inp, old(out[..]), out[..], Served(channels, |buffers|),
                        PerChannel(|inp|, out.Length, channels))
    {
      hide Output, InStep, ChannelDone, Processed, Swept, Shape;
      var perCh := PerChannel(|inp|, out.Length, channels);
      PerChannelFits(|inp|, out.Length, channels);
      if channels == 0 || |inp| == 0 || out.Length == 0 {
        EmptyBlock(Played(), heard, inp, out[..], Served(channels, |buffers|));
        return false;
      }
      var offset, c := 0, 0;
      NoneProcessed(Played(), heard, inp, out[..], perCh);
      while c < channels
        invariant 0 <= c <= channels && Valid() && |heard| == |old(heard)| && offset == Addr(c, perCh)
        invariant |buffers| < c ==> perCh == 0
        invariant Processed(Played(), old(heard), heard, inp, old(out[..]), out[..], Served(c, |buffers|), perCh)
      {
        if |buffers| <= c && 0 < perCh {
          return true;
        }
        AddrMono(c + 1, channels, perCh);
        if c < |buffers| {
          ghost var heard0, out0 := heard, out[..];
          ProcessChannel(inp, c, offset, perCh, out);
          ProcessedNext(Played(), old(heard), heard0, heard, inp, old(out[..]), out0, out[..], c, offset, perCh);
        }
        offset, c := offset + perCh, c + 1;
      }
      panicked := false;
    }
  }
}
