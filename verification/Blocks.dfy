/** Cutting streams into planar blocks: how the audio nodes walk the channels of a buffer. */
module Blocks {
  import opened Common
  import opened Layout

  /** What a node computes on channel `c` for everything that channel heard. */
  type Stream = (nat, seq<real>) -> seq<real>

  /** Samples per channel in a block. */
  function PerChannel(inLen: nat, outLen: nat, channels: nat): nat {
    if channels == 0 then 0 else (if inLen < outLen then inLen else outLen) / channels
  }

  /** As many samples of every channel as the shorter buffer holds whole. */
  lemma {:induction false} PerChannelIs(inLen: nat, outLen: nat, channels: nat)
    requires 0 < channels
    ensures var k := PerChannel(inLen, outLen, channels);
            && k * channels <= inLen && k * channels <= outLen
            && (inLen < (k + 1) * channels || outLen < (k + 1) * channels)
  {
    var n := if inLen < outLen then inLen else outLen;
    FramesIsQuotient(n, channels);
    AddrIsProduct(n / channels, channels);
    AddrIsProduct(n / channels + 1, channels);
    hide Addr, Frames;
  }

  /** Channels a node built for `built` of them gets through. */
  function Served(channels: nat, built: nat): nat { if built < channels then built else channels }

  lemma {:induction false} PerChannelFits(inLen: nat, outLen: nat, channels: nat)
    ensures Addr(channels, PerChannel(inLen, outLen, channels)) <= inLen
    ensures Addr(channels, PerChannel(inLen, outLen, channels)) <= outLen
    ensures inLen == 0 || outLen == 0 ==> PerChannel(inLen, outLen, channels) == 0
  {
    if channels > 0 {
      var n := if inLen < outLen then inLen else outLen;
      FramesIsQuotient(n, channels);
      AddrComm(Frames(n, channels), channels);
    }
  }

  /** The channel heard its part of the block, and the output buffer holds what follows for it. */
  ghost predicate ChannelDone(f: Stream, c: nat, h0: seq<real>, h1: seq<real>, inp: seq<real>, out: seq<real>,
                              offset: nat, perCh: nat) {
    && offset + perCh <= |inp| && offset + perCh <= |out|
    && h1 == h0 + inp[offset..offset + perCh]
    && |f(c, h1)| == |h1|
    && out[offset..offset + perCh] == f(c, h1)[|h0|..]
  }

  /** The first `done` channels of a block are done, nothing else changed. */
  ghost predicate Processed(f: Stream, heard0: seq<seq<real>>, heard1: seq<seq<real>>, inp: seq<real>,
                            out0: seq<real>, out1: seq<real>, done: nat, perCh: nat) {
    && |heard0| == |heard1| && done <= |heard0| && |out0| == |out1|
    && Addr(done, perCh) <= |inp| && Addr(done, perCh) <= |out0|
    && out1[Addr(done, perCh)..] == out0[Addr(done, perCh)..]
    && (forall d :: done <= d < |heard0| ==> heard1[d] == heard0[d])
    && (forall d :: 0 <= d < done ==> ChannelDone(f, d, heard0[d], heard1[d], inp, out1, Addr(d, perCh), perCh))
  }

  lemma {:induction false} NoneProcessed(f: Stream, heard0: seq<seq<real>>, inp: seq<real>, out0: seq<real>, perCh: nat)
    ensures Processed(f, heard0, heard0, inp, out0, out0, 0, perCh)
  {
  }

  lemma {:induction false} EmptyBlock(f: Stream, heard0: seq<seq<real>>, inp: seq<real>, out0: seq<real>, done: nat)
    requires done <= |heard0| && forall c :: 0 <= c < done ==> |f(c, heard0[c])| == |heard0[c]|
    ensures Processed(f, heard0, heard0, inp, out0, out0, done, 0)
  {
    forall d | 0 <= d <= done ensures Addr(d, 0) == 0 {
      AddrIsProduct(d, 0);
    }
    forall d | 0 <= d < done ensures ChannelDone(f, d, heard0[d], heard0[d], inp, out0, 0, 0) {
      assert heard0[d] + inp[0..0] == heard0[d];
    }
  }

  lemma {:induction false} ChannelStays(f: Stream, d: nat, h0: seq<real>, h1: seq<real>, inp: seq<real>,
                                        out1: seq<real>, out2: seq<real>, a: nat, offset: nat, perCh: nat)
    requires ChannelDone(f, d, h0, h1, inp, out1, offset, perCh)
    requires offset + perCh <= a <= |out1| == |out2| && out2[..a] == out1[..a]
    ensures ChannelDone(f, d, h0, h1, inp, out2, offset, perCh)
  {
    assert out2[offset..offset + perCh] == out2[..a][offset..offset + perCh];
    assert out1[offset..offset + perCh] == out1[..a][offset..offset + perCh];
  }

  lemma {:induction false} ProcessedNext(f: Stream, heard0: seq<seq<real>>, heard1: seq<seq<real>>,
                                         heard2: seq<seq<real>>, inp: seq<real>,
                                         out0: seq<real>, out1: seq<real>, out2: seq<real>, c: nat, a: nat, perCh: nat)
    requires Processed(f, heard0, heard1, inp, out0, out1, c, perCh) && c < |heard1| == |heard2|
    requires a == Addr(c, perCh) && a + perCh <= |out1| == |out2|
    requires forall d :: 0 <= d < |heard1| && d != c ==> heard2[d] == heard1[d]
    requires out2[..a] == out1[..a] && out2[a + perCh..] == out1[a + perCh..]
    requires ChannelDone(f, c, heard1[c], heard2[c], inp, out2, a, perCh)
    ensures Processed(f, heard0, heard2, inp, out0, out2, c + 1, perCh)
  {
    hide ChannelDone;
    assert Addr(c + 1, perCh) == a + perCh;
    ChannelWithin(f, c, heard1[c], heard2[c], inp, out2, a, perCh);
    assert out1[a + perCh..] == out1[a..][perCh..] && out0[a + perCh..] == out0[a..][perCh..];
    forall d | 0 <= d < c ensures ChannelDone(f, d, heard0[d], heard2[d], inp, out2, Addr(d, perCh), perCh) {
      AddrMono(d + 1, c, perCh);
      ChannelStays(f, d, heard0[d], heard1[d], inp, out1, out2, a, Addr(d, perCh), perCh);
    }
  }

  lemma {:induction false} ChannelWithin(f: Stream, c: nat, h0: seq<real>, h1: seq<real>, inp: seq<real>,
                                         out: seq<real>, offset: nat, perCh: nat)
    requires ChannelDone(f, c, h0, h1, inp, out, offset, perCh)
    ensures offset + perCh <= |inp|
  {
  }

  /** How the output buffer of one channel looks after `i` samples of its part. */
  ghost predicate Filling(y: seq<real>, h: seq<real>, out0: seq<real>, out1: seq<real>, offset: nat, i: nat) {
    && offset + i <= |out0| == |out1| && |y| == |h| + i
    && out1[..offset] == out0[..offset] && out1[offset + i..] == out0[offset + i..]
    && out1[offset..offset + i] == y[|h|..]
  }

  lemma {:induction false} FillingNext(y: seq<real>, h: seq<real>, out0: seq<real>, out1: seq<real>, offset: nat,
                                       i: nat, v: real)
    requires Filling(y, h, out0, out1, offset, i) && offset + i < |out1|
    ensures Filling(y + [v], h, out0, out1[offset + i := v], offset, i + 1)
  {
    var out2 := out1[offset + i := v];
    assert out2[..offset] == out1[..offset];
    assert out2[offset + i + 1..] == out1[offset + i..][1..] && out0[offset + i + 1..] == out0[offset + i..][1..];
    assert out2[offset..offset + i + 1] == out1[offset..offset + i] + [v];
    assert (y + [v])[|h|..] == y[|h|..] + [v];
  }
}
