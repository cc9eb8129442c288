/** The delay node: per-channel ring buffers with feedback and a wet/dry mix, in exact reals. */
module Delay {
  import opened Blocks
  import opened Common
  import opened Layout
  import opened Ring

  const FEEDBACK_CEIL := 0.99

  /** The echo of a whole input stream: wet[n] = x[n] + fb * wet[n - d]. */
  function Echo(x: seq<real>, d: nat, fb: real): (wet: seq<real>)
    ensures |wet| == |x|
  {
    if |x| == 0 then []
    else
      var n := |x| - 1;
      var wet := Echo(x[..n], d, fb);
      wet + [Fed(x[n], Past(wet, n - d), fb)]
  }

  /** The mixed output for a whole input stream. */
  function Output(x: seq<real>, d: nat, fb: real, mix: real): (y: seq<real>)
    ensures |y| == |x|
    ensures forall n :: 0 <= n < |x| ==> y[n] == Mixed(x[n], Echo(x, d, fb)[n], mix)
  {
    seq(|x|, n requires 0 <= n < |x| => Mixed(x[n], Echo(x, d, fb)[n], mix))
  }

  lemma {:induction false} EchoSnoc(x: seq<real>, v: real, d: nat, fb: real)
    ensures Echo(x + [v], d, fb) == Echo(x, d, fb) + [Fed(v, Past(Echo(x, d, fb), |x| - d), fb)]
  {
    var all := x + [v];
    assert all[..|x|] == x && all[|x|] == v;
  }

  /** The echo of a longer stream starts with the echo of the shorter one. */
  lemma {:induction false} EchoPrefix(x: seq<real>, k: nat, d: nat, fb: real)
    requires k <= |x|
    ensures Echo(x[..k], d, fb) == Echo(x, d, fb)[..k]
  {
    if k == |x| {
      assert x[..k] == x;
    } else {
      var n := |x| - 1;
      EchoPrefix(x[..n], k, d, fb);
      assert x[..n][..k] == x[..k];
    }
  }

  lemma {:induction false} EchoIsFed(x: seq<real>, d: nat, fb: real, n: nat)
    requires n < |x| && 1 <= d
    ensures var wet := Echo(x, d, fb); wet[n] == Fed(x[n], Past(wet, n - d), fb)
  {
    hide Fed;
    EchoPrefix(x, n + 1, d, fb);
    EchoPrefix(x, n, d, fb);
    assert x[..n + 1] == x[..n] + [x[n]];
    EchoSnoc(x[..n], x[n], d, fb);
    assert Echo(x, d, fb)[..n + 1][n] == Echo(x, d, fb)[n];
  }

  /** The recurrence of the code, at one sample. */
  predicate Obeys(x: seq<real>, wet: seq<real>, d: nat, fb: real, n: nat)
    requires n < |x| == |wet| && 1 <= d
  {
    wet[n] == x[n] + fb * if n < d then 0.0 else wet[n - d]
  }

  /** The recurrence at every sample, and the mix. */
  lemma {:induction false} EchoObeys(x: seq<real>, d: nat, fb: real, mix: real, n: nat)
    requires n < |x| && 1 <= d
    ensures Obeys(x, Echo(x, d, fb), d, fb, n)
    ensures Output(x, d, fb, mix)[n] == x[n] * (1.0 - mix) + Echo(x, d, fb)[n] * mix
  {
    EchoIsFed(x, d, fb, n);
    hide Echo;
  }

  /** Nothing else obeys it. */
  lemma {:induction false} EchoIsTheSolution(x: seq<real>, wet: seq<real>, d: nat, fb: real)
    requires |wet| == |x| && 1 <= d && forall n :: 0 <= n < |x| ==> Obeys(x, wet, d, fb, n)
    ensures wet == Echo(x, d, fb)
  {
    if x == [] {
    } else {
      var n, echo := |x| - 1, Echo(x, d, fb);
      forall k | 0 <= k < n ensures Obeys(x[..n], wet[..n], d, fb, k) {
        assert Obeys(x, wet, d, fb, k);
      }
      EchoIsTheSolution(x[..n], wet[..n], d, fb);
      EchoPrefix(x, n, d, fb);
      EchoObeys(x, d, fb, 0.0, n);
      hide Echo;
      assert wet[..n] == echo[..n];
      SameNext(x, wet, echo, d, fb, n);
      assert wet == wet[..n] + [wet[n]] && echo == echo[..n] + [echo[n]];
    }
  }

  lemma {:induction false} SameNext(x: seq<real>, wet: seq<real>, echo: seq<real>, d: nat, fb: real, n: nat)
    requires n < |x| == |wet| == |echo| && 1 <= d && wet[..n] == echo[..n]
    requires Obeys(x, wet, d, fb, n) && Obeys(x, echo, d, fb, n)
    ensures wet[n] == echo[n]
  {
    assert n >= d ==> wet[n - d] == wet[..n][n - d] && echo[n - d] == echo[..n][n - d];
  }

  /** A stream may be cut anywhere: the output so far does not depend on what comes later. */
  lemma {:induction false} CutAnywhere(x: seq<real>, k: nat, d: nat, fb: real, mix: real)
    requires k <= |x|
    ensures Output(x[..k], d, fb, mix) == Output(x, d, fb, mix)[..k]
  {
    hide Mixed, Echo;
    EchoPrefix(x, k, d, fb);
    assert forall n :: 0 <= n < k ==> Echo(x, d, fb)[..k][n] == Echo(x, d, fb)[n];
  }

  function Power(fb: real, k: nat): real { if k == 0 then 1.0 else fb * Power(fb, k - 1) }

  /** One sample followed by silence comes back every `d` samples, each time `fb` times as loud, and there
      is silence in between. */
  lemma {:induction false} ImpulseEchoes(len: nat, d: nat, fb: real, n: nat)
    requires n < len && 1 <= d
    ensures Echo(Impulse(len), d, fb)[n] == if n % d == 0 then Power(fb, n / d) else 0.0
  {
    EchoObeys(Impulse(len), d, fb, 0.0, n);
    if n < d {
      Below(n, d);
    } else {
      ImpulseEchoes(len, d, fb, n - d);
      hide Echo;
      OneBack(n, d);
    }
  }

  function Impulse(len: nat): (x: seq<real>)
    ensures |x| == len && forall n :: 0 <= n < len ==> x[n] == if n == 0 then 1.0 else 0.0
  {
    seq(len, n => if n == 0 then 1.0 else 0.0)
  }

  lemma {:induction false} Below(n: nat, d: nat)
    requires n < d
    ensures n % d == n && n / d == 0
  {
  }

  lemma {:induction false} OneBack(n: nat, d: nat)
    requires 1 <= d <= n
    ensures (n - d) % d == n % d && n / d == (n - d) / d + 1
  {
    var q, r := (n - d) / d, (n - d) % d;
    assert (q + 1) * d == q * d + d;
    DivModOf(q + 1, d, r);
  }

  class DelayNode {
    const buffers: seq<array<real>>
    const capacity: nat
    const delaySamples: nat
    const feedback: real
    const mix: real
    var writePos: seq<nat>
    ghost var heard: seq<seq<real>>

    /** The ring of channel `c` is the latest part of the echo of all that channel heard. */
    ghost predicate InStep(c: nat)
      requires c < |buffers| == |writePos| == |heard|
      reads this, buffers[c]
    {
      Holds(buffers[c][..], writePos[c], Echo(heard[c], delaySamples, feedback))
    }

    ghost predicate Shape() {
      && 0 < |buffers| && 1 <= delaySamples <= capacity && 0.0 <= feedback <= FEEDBACK_CEIL && 0.0 <= mix <= 1.0
      && (forall c, d :: 0 <= c < d < |buffers| ==> buffers[c] != buffers[d])
      && (forall c :: 0 <= c < |buffers| ==> buffers[c].Length == capacity)
    }

    ghost predicate Valid()
      reads this, buffers
    {
      && Shape() && |buffers| == |writePos| == |heard|
      && forall c :: 0 <= c < |buffers| ==> InStep(c)
    }

    constructor (maxDelaySamples: nat, delaySamples: nat, feedback: real, mix: real, channels: u16)
      ensures Valid() && fresh(buffers) && |buffers| == (if channels == 0 then 1 else channels)
      ensures forall c :: 0 <= c < |heard| ==> heard[c] == []
      // every argument is moved to the nearest value allowed
      ensures capacity == if maxDelaySamples == 0 then 1 else maxDelaySamples
      ensures this.delaySamples == if delaySamples < 1 then 1
                                   else if delaySamples > capacity then capacity
                                   else delaySamples
      ensures this.feedback == Clamp(feedback, 0.0, FEEDBACK_CEIL) && this.mix == Clamp(mix, 0.0, 1.0)
    {
      var cap: nat := if maxDelaySamples == 0 then 1 else maxDelaySamples;
      var ch: nat := if channels == 0 then 1 else channels;
      this.capacity := cap;
      this.delaySamples := if delaySamples < 1 then 1 else if delaySamples > cap then cap else delaySamples;
      this.feedback := Clamp(feedback, 0.0, FEEDBACK_CEIL);
      this.mix := Clamp(mix, 0.0, 1.0);
      this.writePos := seq(ch, _ => 0);
      this.heard := seq(ch, _ => []);
      var lines: seq<array<real>> := [];
      while |lines| < ch
        invariant |lines| <= ch && fresh(lines)
        invariant forall c, d :: 0 <= c < d < |lines| ==> lines[c] != lines[d]
        invariant forall c :: 0 <= c < |lines| ==> lines[c].Length == cap
        invariant forall c, j :: 0 <= c < |lines| && 0 <= j < cap ==> lines[c][j] == 0.0
      {
        var line := new real[cap](_ => 0.0);
        lines := lines + [line];
      }
      this.buffers := lines;
      new;
      forall c | 0 <= c < |buffers| ensures InStep(c) {
        StartsSilent(buffers[c][..]);
      }
    }

    method ProcessSample(x: real, c: nat) returns (y: real)
      requires Valid() && c < |buffers|
      modifies this, buffers[c]
      ensures Valid() && heard == old(heard)[c := old(heard[c]) + [x]]
      ensures Output(heard[c], delaySamples, feedback, mix) == Output(old(heard[c]), delaySamples, feedback, mix) + [y]
    {
      hide Echo, Past, Fed, Mixed, Output;
      assert InStep(c);
      ghost var h, ring := heard[c], buffers[c][..];
      ghost var wets := Echo(h, delaySamples, feedback);
      EchoSnoc(h, x, delaySamples, feedback);
      OutputSnoc(h, x, delaySamples, feedback, mix);
      var wp := writePos[c];
      CursorArithmetic(wp, delaySamples, capacity);
      ReadsBack(ring, wp, wets, delaySamples);
      var delayed := buffers[c][(wp + capacity - delaySamples) % capacity];
      var wet := Fed(x, delayed, feedback);
      WriteExtends(ring, wp, wets, wet);
      buffers[c][wp] := wet;
      writePos := writePos[c := (wp + 1) % capacity];
      heard := heard[c := h + [x]];
      assert buffers[c][..] == ring[wp := wet];
      forall d | 0 <= d < |buffers| && d != c ensures InStep(d) {
        assert old(InStep(d)) && buffers[d][..] == old(buffers[d][..]);
      }
      y := Mixed(x, wet, mix);
    }

    /** The output of this node for a whole stream. */
    ghost function Played(): (f: Stream)
      ensures forall c, x :: f(c, x) == Output(x, delaySamples, feedback, mix)
    {
      (_: nat, x: seq<real>) => Output(x, delaySamples, feedback, mix)
    }

    /** One channel's part of a block, sample by sample. */
    method ProcessChannel(inp: seq<real>, c: nat, offset: nat, perCh: nat, out: array<real>)
      requires Valid() && c < |buffers| && out !in buffers
      requires offset + perCh <= |inp| && offset + perCh <= out.Length
      modifies this, buffers[c], out
      ensures Valid() && |heard| == |old(heard)| && forall d :: 0 <= d < |heard| && d != c ==> heard[d] == old(heard)[d]
      ensures ChannelDone(Played(), c, old(heard)[c], heard[c], inp, out[..], offset, perCh)
      ensures out[..offset] == old(out[..offset]) && out[offset + perCh..] == old(out[offset + perCh..])
    {
      hide Output, InStep, Shape;
      ghost var h, out0 := heard[c], out[..];
      assert h + inp[offset..offset] == h;
      var i := 0;
      while i < perCh
        invariant 0 <= i <= perCh && Valid()
        invariant heard == old(heard)[c := h + inp[offset..offset + i]]
        invariant Filling(Played()(c, heard[c]), h, out0, out[..], offset, i)
      {
        hide Filling;
        var idx := offset + i;
        ghost var so := heard[c];
        assert so + [inp[idx]] == h + inp[offset..idx + 1];
        var y := ProcessSample(inp[idx], c);
        FillingNext(Played()(c, so), h, out0, out[..], offset, i, y);
        ghost var out1 := out[..];
        out[idx] := y;
        assert out[..] == out1[idx := y];
        i := i + 1;
      }
    }

    /** A whole block, planar, all channels: however the stream was cut into blocks, each channel's
        output continues the output for the one stream it has heard. A block of more channels than the
        node was built for panics, after the node's own channels, unless it is too short to hold a
        sample of each. */
    method Process(inp: seq<real>, channels: nat, out: array<real>) returns (panicked: bool)
      requires Valid() && out !in buffers
      modifies this, buffers, out
      ensures Valid()
      ensures panicked <==> |buffers| < channels && 0 < PerChannel(|inp|, out.Length, channels)
      ensures Processed(Played(), old(heard), heard, inp, old(out[..]), out[..], Served(channels, |buffers|),
                        PerChannel(|inp|, out.Length, channels))
    {
      hide Output, InStep, ChannelDone, Processed, Shape;
      var perCh := PerChannel(|inp|, out.Length, channels);
      PerChannelFits(|inp|, out.Length, channels);
      if channels == 0 || |inp| == 0 || out.Length == 0 {
        EmptyBlock(Played(), heard, inp, out[..], Served(channels, |buffers|));
        return false;
      }
      var offset, c := 0, 0;
      NoneProcessed(Played(), heard, inp, out[..], perCh);
      while c < channels
        invariant 0 <= c <= channels && Valid() && |heard| == |old(heard)| && offset == Addr(c, perCh)
        invariant |buffers| < c ==> perCh == 0
        invariant Processed(Played(), old(heard), heard, inp, old(out[..]), out[..], Served(c, |buffers|), perCh)
      {
        if |buffers| <= c && 0 < perCh {
          return true;
        }
        AddrMono(c + 1, channels, perCh);
        if c < |buffers| {
          ghost var heard0, out0 := heard, out[..];
          ProcessChannel(inp, c, offset, perCh, out);
          ProcessedNext(Played(), old(heard), heard0, heard, inp, old(out[..]), out0, out[..], c, offset, perCh);
        }
        offset, c := offset + perCh, c + 1;
      }
      panicked := false;
    }
  }

  lemma {:induction false} OutputSnoc(x: seq<real>, v: real, d: nat, fb: real, mix: real)
    ensures Output(x + [v], d, fb, mix)
            == Output(x, d, fb, mix) + [Mixed(v, Fed(v, Past(Echo(x, d, fb), |x| - d), fb), mix)]
  {
    hide Echo, Mixed, Fed, Past;
    EchoSnoc(x, v, d, fb);
  }

  // ----- output bounds -----------------------------------------------------------------------------------

  /** With inputs up to `m`, the line stays within any `b` with m <= b * (1 - fb). */
  lemma {:induction false} EchoBound(x: seq<real>, d: nat, fb: real, m: real, b: real)
    requires Within(x, m) && 0.0 <= fb && 0.0 <= b && m + b * fb <= b
    ensures Within(Echo(x, d, fb), b)
  {
    hide Fed;
    if |x| == 0 {
    } else {
      var n := |x| - 1;
      EchoBound(x[..n], d, fb, m, b);
      var wet := Echo(x[..n], d, fb);
      FedBound(x[n], Past(wet, n - d), fb, m, b);
    }
  }

  lemma {:induction false} OutputBound(x: seq<real>, d: nat, fb: real, mix: real, m: real, b: real)
    requires Within(x, m) && m <= b && Within(Echo(x, d, fb), b) && 0.0 <= mix <= 1.0
    ensures Within(Output(x, d, fb, mix), b)
  {
    hide Echo, Mixed;
    forall n | 0 <= n < |x| ensures Abs(Output(x, d, fb, mix)[n]) <= b {
      MixedBound(x[n], Echo(x, d, fb)[n], mix, b);
    }
  }

  /** For every input stream within `m` and the gains the constructor allows: the line and the output
      stay within m / (1 - fb), which is at most 100 * m. */
  lemma {:induction false} DelayIsBounded(x: seq<real>, d: nat, fb: real, mix: real, m: real)
    requires Within(x, m) && 0.0 <= m && 0.0 <= fb <= FEEDBACK_CEIL && 0.0 <= mix <= 1.0
    ensures m / (1.0 - fb) <= 100.0 * m
    ensures Within(Echo(x, d, fb), m / (1.0 - fb)) && Within(Output(x, d, fb, mix), m / (1.0 - fb))
  {
    hide Echo, Output, Within;
    var b := m / (1.0 - fb);
    LoopLimit(m, fb, 100.0);
    EchoBound(x, d, fb, m, b);
    OutputBound(x, d, fb, mix, m, b);
  }
}
