/**
 L16 and L24 payloads: big-endian interleaved samples on the wire, planar samples in memory
 (section 4.5.11 of RFC 3551 for L16). Samples are exact reals.
 */
module Pcm {
  import opened Common
  import opened Bytes
  import opened Layout

  /** Bytes per sample and the two scale factors: encode multiplies by 2^N - 1, decode divides by 2^N. */
  datatype Format = L16 | L24 {
    function Width(): (w: nat) ensures 0 < w { if L16? then 2 else 3 }
    function FullScale(): int { if L16? then 32_767 else 8_388_607 }
    function DecodeDiv(): int { if L16? then 32_768 else 8_388_608 }
  }

  // ----- one sample -----------------------------------------------------------------------

  function Clamp(x: real): real { if x < -1.0 then -1.0 else if x > 1.0 then 1.0 else x }

  /** Nearest integer, halves away from zero. */
  function Round(x: real): (k: int)
    ensures -0.5 <= k as real - x <= 0.5
  {
    if x >= 0.0 then (x + 0.5).Floor else -((-x + 0.5).Floor)
  }

  function Quantize(f: Format, x: real): (k: int)
    ensures -f.FullScale() <= k <= f.FullScale()
  {
    Round(Clamp(x) * f.FullScale() as real)
  }

  function Dequantize(f: Format, k: int): real { k as real / f.DecodeDiv() as real }

  /** Two's complement in `Width` bytes. */
  function Pack(f: Format, k: int): (b: seq<byte>)
    ensures |b| == f.Width()
  {
    BigEndian(k % Pow256(f.Width()), f.Width())
  }

  /** Sign extension of the assembled word. */
  function Unpack(f: Format, b: seq<byte>): int
    requires |b| == f.Width()
  {
    var raw := FromBigEndian(b);
    if raw >= f.DecodeDiv() then raw - Pow256(f.Width()) else raw
  }

  lemma {:induction false} FormatConstants(f: Format)
    ensures Pow256(f.Width()) == 2 * f.DecodeDiv() && f.FullScale() == f.DecodeDiv() - 1
  {
    Widths();
  }

  /** Packing and sign extension are inverse on every integer of the width ... */
  lemma {:induction false} UnpackPack(f: Format, k: int)
    requires -f.DecodeDiv() <= k < f.DecodeDiv()
    ensures Unpack(f, Pack(f, k)) == k
  {
    FormatConstants(f);
    DecodeEncode(k % Pow256(f.Width()), f.Width());
  }

  /** ... and on every byte string of the width. */
  lemma {:induction false} PackUnpack(f: Format, b: seq<byte>)
    requires |b| == f.Width()
    ensures -f.DecodeDiv() <= Unpack(f, b) < f.DecodeDiv() && Pack(f, Unpack(f, b)) == b
  {
    FormatConstants(f);
    EncodeDecode(b);
  }

  /** Distance, in quantisation steps, between a clamped sample and what comes back. */
  function ErrorSteps(f: Format, x: real): real {
    var e := (Dequantize(f, Quantize(f, x)) - Clamp(x)) * f.DecodeDiv() as real;
    if e < 0.0 then -e else e
  }

  lemma {:induction false} ErrorIsOffset(f: Format, x: real)
    ensures var e := Quantize(f, x) as real - Clamp(x) * f.FullScale() as real - Clamp(x);
            ErrorSteps(f, x) == if e < 0.0 then -e else e
  {
    var d, q := f.DecodeDiv() as real, Quantize(f, x) as real;
    assert (q / d - Clamp(x)) * d == q - Clamp(x) * d;
  }

  /** Every sample, in range or not, comes back within 1.5 steps of its clamp. */
  lemma {:induction false} SampleError(f: Format, x: real)
    ensures ErrorSteps(f, x) <= 1.5
  {
    ErrorIsOffset(f, x);
  }

  function Abs(x: real): real { if x < 0.0 then -x else x }

  /** The place of a sample between two codes, in steps, as the rounding sees it. */
  function Offset(f: Format, x: real): real {
    var u := Abs(Clamp(x)) * f.FullScale() as real + 0.5;
    u - u.Floor as real
  }

  /** The code's own claim is an error under one step. It holds for a sample exactly when its magnitude
      and its place between two codes add up to less than 1.5. */
  lemma {:induction false} UnderOneStep(f: Format, x: real)
    ensures ErrorSteps(f, x) < 1.0 <==> Offset(f, x) + Abs(Clamp(x)) < 1.5
  {
    ErrorIsOffset(f, x);
    QuantizeIs(f, x);
    hide Quantize, ErrorSteps;
  }

  lemma {:induction false} QuantizeIs(f: Format, x: real)
    ensures var c, s := Clamp(x), f.FullScale() as real;
            && Abs(c) * s == (if c < 0.0 then -(c * s) else c * s)
            && Quantize(f, x) == if c < 0.0 then -((Abs(c) * s + 0.5).Floor) else (Abs(c) * s + 0.5).Floor
  {
    var c, s := Clamp(x), f.FullScale() as real;
    hide Clamp;
    assert c < 0.0 ==> c * s < 0.0;
    assert c >= 0.0 ==> c * s >= 0.0;
  }

  /** One step above half scale. */
  function Peak(f: Format): real { (f.DecodeDiv() / 2 + 1) as real / f.DecodeDiv() as real }

  /** As a bound on the level: all samples strictly inside plus and minus `p` are under one step exactly
      when `p` is at most one step above half scale; the sample at that level is off by a whole step. */
  lemma {:induction false} UnderOneStepBelow(f: Format, p: real)
    ensures (forall x: real :: -p < x < p ==> ErrorSteps(f, x) < 1.0) <==> p <= Peak(f)
    ensures ErrorSteps(f, Peak(f)) == 1.0
  {
    PeakIsOff(f);
    if p <= Peak(f) {
      forall x: real | -p < x < p ensures ErrorSteps(f, x) < 1.0 {
        BelowPeak(f, x);
        UnderOneStep(f, x);
      }
    }
    hide ErrorSteps, Peak;
  }

  lemma {:induction false} PeakIsOff(f: Format)
    ensures ErrorSteps(f, Peak(f)) == 1.0 && 0.5 < Peak(f) < 1.0
  {
    var x := WholeStepSample(f, f.DecodeDiv() / 2);
  }

  lemma {:induction false} BelowPeak(f: Format, x: real)
    requires -Peak(f) < x < Peak(f)
    ensures Offset(f, x) + Abs(Clamp(x)) < 1.5
  {
    var a, d := Abs(x), f.DecodeDiv() as real;
    assert Peak(f) * d == d * 0.5 + 1.0;
    if a >= 0.5 {
      assert a * d < d * 0.5 + 1.0;
      assert a * f.FullScale() as real == a * d - a;
      assert (a * f.FullScale() as real + 0.5).Floor == f.DecodeDiv() / 2;
    }
  }

  lemma {:induction false} WholeStepSample(f: Format, k: int) returns (x: real)
    requires -f.FullScale() <= k <= f.FullScale()
    requires 2 * k >= f.DecodeDiv() || 2 * k <= -f.DecodeDiv()
    ensures Quantize(f, x) == k && ErrorSteps(f, x) == 1.0
    ensures x == (if k > 0 then k + 1 else k - 1) as real / f.DecodeDiv() as real
  {
    var d := f.DecodeDiv() as real;
    var target := if k > 0 then k + 1 else k - 1;
    x := target as real / d;
    assert x * d == target as real;
    assert -1.0 <= x <= 1.0;
    assert x * f.FullScale() as real == target as real - x;
    ErrorIsOffset(f, x);
  }

  /** Re-encoding a decoded sample gives the same wire code exactly up to half scale; beyond it
      every pass moves the code one step towards zero. */
  lemma {:induction false} Transcode(f: Format, k: int)
    requires -f.FullScale() <= k <= f.FullScale()
    ensures Quantize(f, Dequantize(f, k)) == k <==> -f.DecodeDiv() <= 2 * k <= f.DecodeDiv()
    ensures 2 * k > f.DecodeDiv() ==> Quantize(f, Dequantize(f, k)) == k - 1
    ensures 2 * k < -f.DecodeDiv() ==> Quantize(f, Dequantize(f, k)) == k + 1
  {
    var d, x := f.DecodeDiv() as real, Dequantize(f, k);
    assert x * d == k as real;
    assert -1.0 <= x <= 1.0;
    assert x * f.FullScale() as real == k as real - x;
  }

  // ----- whole payloads ------------------------------------------------------------------------

  function Packer(f: Format): real -> seq<byte> { x => Pack(f, Quantize(f, x)) }

  function Unpacker(f: Format): seq<byte> -> real {
    b => if |b| == f.Width() then Dequantize(f, Unpack(f, b)) else 0.0
  }

  function Encoded(f: Format, planar: seq<real>, channels: u16): seq<byte> {
    if channels == 0 then [] else Flatten(Packer(f), Interleave(planar, channels))
  }

  function Decoded(f: Format, b: seq<byte>, channels: u16): seq<real> {
    if channels == 0 then [] else Deinterleave(Samples(Unpacker(f), f.Width(), b), channels)
  }

  /** `encode_l16` and `encode_l24`. */
  method Encode(f: Format, frames: seq<real>, channels: u16) returns (out: seq<byte>)
    ensures out == Encoded(f, frames, channels)
  {
    out := EncodePcm(frames, channels, Packer(f));
  }

  /** `decode_l16` and `decode_l24`. */
  method Decode(f: Format, bytes: seq<byte>, channels: u16) returns (planar: seq<real>)
    ensures planar == Decoded(f, bytes, channels)
  {
    planar := DecodePcm(bytes, channels, f.Width(), Unpacker(f), 0.0);
  }

  /** What one pass over the wire makes of samples. */
  function Through(f: Format, samples: seq<real>): (back: seq<real>)
    ensures |back| == |samples|
    ensures forall i :: 0 <= i < |back| ==> back[i] == Dequantize(f, Quantize(f, samples[i]))
  {
    seq(|samples|, i requires 0 <= i < |samples| => Dequantize(f, Quantize(f, samples[i])))
  }

  lemma {:induction false} UnpackerPacker(f: Format, x: real)
    ensures |Packer(f)(x)| == f.Width() && Unpacker(f)(Packer(f)(x)) == Dequantize(f, Quantize(f, x))
  {
    UnpackPack(f, Quantize(f, x));
  }

  lemma {:induction false} SamplesThrough(f: Format, wire: seq<real>)
    ensures Samples(Unpacker(f), f.Width(), Flatten(Packer(f), wire)) == Through(f, wire)
  {
    var w, back := f.Width(), Samples(Unpacker(f), f.Width(), Flatten(Packer(f), wire));
    FlattenLength(Packer(f), w, wire);
    forall i: nat | i < |wire| ensures back[i] == Through(f, wire)[i] {
      FlattenSlice(Packer(f), w, wire, i);
      UnpackerPacker(f, wire[i]);
    }
  }

  lemma {:induction false} DeinterleaveThrough(f: Format, wire: seq<real>, ch: nat)
    requires 0 < ch
    ensures Deinterleave(Through(f, wire), ch) == Through(f, Deinterleave(wire, ch))
  {
  }

  /** The samples of `len` that fill whole frames. */
  function WholeSamples(len: nat, channels: u16): (n: nat)
    ensures n <= len
  {
    if channels == 0 then 0
    else
      FramesIsQuotient(len, channels);
      AddrIsProduct(len / channels, channels);
      len / channels * channels
  }

  /** Decoding after encoding, for any channel count and any number of samples: the planar layout
      is restored, samples that do not fill a frame are dropped, and every sample, clamped to
      [-1, 1] first, is within 1.5 quantisation steps. */
  lemma {:induction false} DecodeAfterEncode(f: Format, planar: seq<real>, channels: u16)
    ensures Decoded(f, Encoded(f, planar, channels), channels) == Through(f, planar[..WholeSamples(|planar|, channels)])
    ensures forall k :: 0 <= k < |planar| ==> ErrorSteps(f, planar[k]) <= 1.5
  {
    if 0 < channels {
      FramesIsQuotient(|planar|, channels);
      AddrIsProduct(|planar| / channels, channels);
      LayoutRoundTrip(planar, channels);
      SamplesThrough(f, Interleave(planar, channels));
      DeinterleaveThrough(f, Interleave(planar, channels), channels);
    }
    forall k | 0 <= k < |planar| ensures ErrorSteps(f, planar[k]) <= 1.5 {
      SampleError(f, planar[k]);
    }
  }

  // ----- the wire, byte by byte -----------------------------------------------------------------------

  /** The code of a sample: clamped to [-1, 1], scaled by 2^15 - 1 or 2^23 - 1, rounded to the nearest
      integer with halves away from zero. */
  lemma {:induction false} QuantizeIsNearest(x: real)
    ensures -1.0 <= x <= 1.0 ==> Nearest(x * 32767.0, Quantize(L16, x)) && Nearest(x * 8388607.0, Quantize(L24, x))
    ensures x > 1.0 ==> Quantize(L16, x) == 32767 && Quantize(L24, x) == 8388607
    ensures x < -1.0 ==> Quantize(L16, x) == -32767 && Quantize(L24, x) == -8388607
  {
  }

  predicate Nearest(y: real, k: int) {
    if y >= 0.0 then k as real <= y + 0.5 < k as real + 1.0 else k as real - 1.0 < y - 0.5 <= k as real
  }

  /** Two's complement, most significant byte first. */
  lemma {:induction false} PackBytes(k: int)
    ensures Pack(L16, k) == [k % 0x1_0000 / 256, k % 256]
    ensures Pack(L24, k) == [k % 0x100_0000 / 0x1_0000, k % 0x100_0000 / 256 % 256, k % 256]
  {
    var v: nat, w: nat := k % 0x1_0000, k % 0x100_0000;
    TwoBytes(v);
    ThreeBytes(w);
    LowByte(k);
    Widths();
    hide BigEndian, Pow256;
    assert Pack(L16, k) == BigEndian(v, 2) && Pack(L24, k) == BigEndian(w, 3);
  }

  lemma {:induction false} LowByte(k: int)
    ensures k % 0x1_0000 % 256 == k % 256 && k % 0x100_0000 % 256 == k % 256
  {
    var v, w := k % 0x1_0000, k % 0x100_0000;
    RemainderIs(k, 256 * (k / 0x1_0000) + v / 256, v % 256);
    RemainderIs(k, 0x1_0000 * (k / 0x100_0000) + w / 256, w % 256);
  }

  lemma {:induction false} RemainderIs(k: int, q: int, r: int)
    requires k == 256 * q + r && 0 <= r < 256
    ensures k % 256 == r
  {
  }

  lemma {:induction false} TwoBytes(v: nat)
    requires v < 0x1_0000
    ensures BigEndian(v, 2) == [v / 256, v % 256]
  {
    Widths();
    BigEndianAt(v, 2, 0);
    BigEndianAt(v, 2, 1);
    hide BigEndian;
  }

  lemma {:induction false} ThreeBytes(v: nat)
    requires v < 0x100_0000
    ensures BigEndian(v, 3) == [v / 0x1_0000, v / 256 % 256, v % 256]
  {
    Widths();
    BigEndianAt(v, 3, 0);
    BigEndianAt(v, 3, 1);
    BigEndianAt(v, 3, 2);
    hide BigEndian;
  }

  /** Where each sample goes: frame `i` of channel `c` is group `i * channels + c` of the payload. */
  lemma {:induction false} EncodedAt(f: Format, planar: seq<real>, channels: u16, c: nat, i: nat)
    requires c < channels && i < |planar| / channels
    ensures var n, at := |planar| / channels, i * channels + c;
            && 0 <= c * n + i < |planar|
            && 0 <= at * f.Width() && at * f.Width() + f.Width() <= |Encoded(f, planar, channels)|
            && Encoded(f, planar, channels)[at * f.Width()..at * f.Width() + f.Width()]
               == Pack(f, Quantize(f, planar[c * n + i]))
    ensures |Encoded(f, planar, channels)| == |planar| / channels * channels * f.Width()
  {
    hide Quantize, Pack, Frames, Addr, Interleave, Flatten;
    var w, wire, at: nat := f.Width(), Interleave(planar, channels), i * channels + c;
    InterleavedAt(planar, channels, c, i);
    FlattenLength(Packer(f), w, wire);
    FlattenSlice(Packer(f), w, wire, at);
    AddrIsProduct(|wire|, w);
    SliceAt(Flatten(Packer(f), wire), w, at);
  }

  /** Where each sample comes from. */
  lemma {:induction false} DecodedAt(f: Format, b: seq<byte>, channels: u16, c: nat, i: nat)
    requires c < channels && i < |b| / f.Width() / channels
    ensures var n, at := |b| / f.Width() / channels, i * channels + c;
            && |Decoded(f, b, channels)| == n * channels && 0 <= c * n + i < n * channels
            && 0 <= at * f.Width() && at * f.Width() + f.Width() <= |b|
            && Decoded(f, b, channels)[c * n + i]
               == Dequantize(f, Unpack(f, b[at * f.Width()..at * f.Width() + f.Width()]))
  {
    hide Dequantize, Unpack, Frames, Deinterleave, Addr;
    var w, at: nat := f.Width(), i * channels + c;
    var samples := Samples(Unpacker(f), w, b);
    FramesIsQuotient(|b|, w);
    DeinterleavedAt(samples, channels, c, i);
    SliceAt(b, w, at);
  }

  lemma {:induction false} SliceAt(b: seq<byte>, w: nat, at: nat)
    requires 0 < w && at < Frames(|b|, w)
    ensures 0 <= at * w && at * w + w <= |b| && Slice(b, w, at) == b[at * w..at * w + w]
  {
    AddrIsProduct(at, w);
    AddrMono(at + 1, Frames(|b|, w), w);
  }

  /** A decoded code is a fraction of 2^15 or 2^23; so what comes back of a sample in range is within 1.5
      of those fractions. */
  lemma {:induction false} BackWithin(f: Format, x: real)
    requires -1.0 <= x <= 1.0
    ensures var back := Dequantize(f, Quantize(f, x));
            back * (if f.L16? then 32768.0 else 8388608.0) == Quantize(f, x) as real
            && -1.5 <= (back - x) * (if f.L16? then 32768.0 else 8388608.0) <= 1.5
  {
    SampleError(f, x);
    hide Quantize;
  }
}
