/**
 The RTP send clock, and the stream from sender to receiver: encode, lose some datagrams on the
 way, parse, and run the receive loop on what is left.
 */
module Transport {
  import opened Common
  import opened Jitter
  import Layout
  import Pcm
  import Rtp
  import R = Receiver

  datatype Codec = PcmL16 | PcmL24 | Opus | Custom(payloadType: byte)

  function PayloadType(codec: Codec, channels: u16): byte {
    match codec
    case PcmL16 => if channels >= 2 then 10 else 11
    case PcmL24 => 96
    case Opus => 97
    case Custom(n) => n
  }

  function BytesPerSample(codec: Codec): nat {
    match codec
    case PcmL16 => 2
    case PcmL24 => 3
    case _ => 1
  }

  /** Whole frames (one sample per channel) in a payload of `len` bytes, as the clock counts them. */
  function TimestampAdvance(len: nat, codec: Codec, channels: u16): u32 {
    len / (BytesPerSample(codec) * if channels == 0 then 1 else channels) % 0x1_0000_0000
  }

  class UdpTransport {
    var sn: u16
    var timestamp: u32
    const ssrc: u32
    const channels: u16

    constructor (ssrc: u32, channels: u16)
      ensures sn == 0 && timestamp == 0 && this.ssrc == ssrc && this.channels == channels
    {
      this.sn, this.timestamp, this.ssrc, this.channels := 0, 0, ssrc, channels;
    }

    /** The datagram handed to the socket. The clock moves on whether or not the socket takes it. */
    method SendRtp(payload: seq<byte>, codec: Codec) returns (datagram: seq<byte>)
      modifies this
      ensures var header := Rtp.NewHeader(PayloadType(codec, channels), old(sn), old(timestamp), ssrc);
              datagram == Rtp.EncodePacket(Rtp.Packet(header, payload))
      ensures sn == R.Succ(old(sn))
      ensures timestamp == (old(timestamp) + TimestampAdvance(|payload|, codec, channels)) % 0x1_0000_0000
    {
      var header := Rtp.NewHeader(PayloadType(codec, channels), sn, timestamp, ssrc);
      sn := (sn + 1) % 0x1_0000;
      timestamp := (timestamp + TimestampAdvance(|payload|, codec, channels)) % 0x1_0000_0000;
      datagram := Rtp.EncodePacket(Rtp.Packet(header, payload));
    }

    /** A whole stream from a fresh transport: the n-th datagram carries `n` modulo 65536 and the
        count of all frames sent before it modulo 2^32. */
    method SendAll(payloads: seq<seq<byte>>, codec: Codec) returns (datagrams: seq<seq<byte>>)
      requires sn == 0 && timestamp == 0
      modifies this
      ensures datagrams == Sent(payloads, codec, channels, ssrc)
    {
      hide FramesBefore, TimestampAdvance, PayloadType, Rtp.EncodePacket, Rtp.NewHeader;
      datagrams := [];
      var n := 0;
      assert payloads[..0] == [];
      FramesNone(codec, channels);
      while n < |payloads|
        invariant 0 <= n <= |payloads| && |datagrams| == n
        invariant sn == n % 65536 && timestamp == FramesBefore(payloads[..n], codec, channels) % 0x1_0000_0000
        invariant forall i :: 0 <= i < n ==> datagrams[i] == Sent(payloads, codec, channels, ssrc)[i]
      {
        WrapSucc(n);
        FramesNext(payloads, codec, channels, n);
        var datagram := SendRtp(payloads[n], codec);
        datagrams := datagrams + [datagram];
        n := n + 1;
      }
    }
  }

  /** Frames counted by the clock over a list of payloads, without wrap-around. */
  function FramesBefore(payloads: seq<seq<byte>>, codec: Codec, channels: u16): nat {
    if payloads == [] then 0
    else
      var n := |payloads| - 1;
      FramesBefore(payloads[..n], codec, channels) + TimestampAdvance(|payloads[n]|, codec, channels)
  }

  lemma {:induction false} FramesNone(codec: Codec, channels: u16)
    ensures FramesBefore([], codec, channels) == 0
  {
  }

  lemma {:induction false} FramesNext(payloads: seq<seq<byte>>, codec: Codec, channels: u16, n: nat)
    requires n < |payloads|
    ensures var before := FramesBefore(payloads[..n], codec, channels);
            var step := TimestampAdvance(|payloads[n]|, codec, channels);
            FramesBefore(payloads[..n + 1], codec, channels) % 0x1_0000_0000
              == (before % 0x1_0000_0000 + step) % 0x1_0000_0000
  {
    hide TimestampAdvance;
    assert payloads[..n + 1][..n] == payloads[..n];
  }

  function SentPacket(payloads: seq<seq<byte>>, codec: Codec, channels: u16, ssrc: u32, n: nat): Rtp.Packet
    requires n < |payloads|
  {
    Rtp.Packet(Rtp.NewHeader(PayloadType(codec, channels), n % 65536,
                             FramesBefore(payloads[..n], codec, channels) % 0x1_0000_0000, ssrc), payloads[n])
  }

  function Sent(payloads: seq<seq<byte>>, codec: Codec, channels: u16, ssrc: u32): (datagrams: seq<seq<byte>>)
    ensures |datagrams| == |payloads|
    ensures forall n :: 0 <= n < |payloads| ==>
              datagrams[n] == Rtp.EncodePacket(SentPacket(payloads, codec, channels, ssrc, n))
  {
    seq(|payloads|, n requires 0 <= n < |payloads| => Rtp.EncodePacket(SentPacket(payloads, codec, channels, ssrc, n)))
  }

  // ----- sender, lossy in-order network, receiver -----------------------------------------------

  /** The network delivers the datagrams with these indices, in this order. */
  ghost predicate InOrder(survivors: seq<nat>, sent: nat) {
    && (forall k :: 0 <= k < |survivors| ==> survivors[k] < sent)
    && (forall k :: 0 < k < |survivors| ==> survivors[k - 1] < survivors[k])
  }

  function Delivered(datagrams: seq<seq<byte>>, survivors: seq<nat>): (events: seq<R.Event>)
    requires forall k :: 0 <= k < |survivors| ==> survivors[k] < |datagrams|
    ensures |events| == |survivors|
  {
    if survivors == [] then []
    else
      var k := |survivors| - 1;
      Delivered(datagrams, survivors[..k]) + [R.Datagram(datagrams[survivors[k]])]
  }

  /** The surviving packets as the receiver should see them. */
  function Surviving(payloads: seq<seq<byte>>, survivors: seq<nat>): (packets: seq<(u16, R.Payload)>)
    requires forall k :: 0 <= k < |survivors| ==> survivors[k] < |payloads|
    ensures |packets| == |survivors|
    ensures forall k :: 0 <= k < |survivors| ==> packets[k] == (survivors[k] % 65536, payloads[survivors[k]])
  {
    if survivors == [] then []
    else
      var k := |survivors| - 1;
      Surviving(payloads, survivors[..k]) + [(survivors[k] % 65536, payloads[survivors[k]])]
  }

  /** The receive side reads back the sequence number and payload of a sent packet. */
  lemma {:induction false} ReceivedIsSent(payloads: seq<seq<byte>>, codec: Codec, channels: u16, ssrc: u32, n: nat)
    requires n < |payloads| && |payloads[n]| + Rtp.RTP_HEADER_LEN <= R.DATAGRAM_LIMIT
    ensures R.Received(Sent(payloads, codec, channels, ssrc)[n]) == Some((n % 65536, payloads[n]))
  {
    hide FramesBefore, Rtp.ParsePacket;
    Rtp.PacketRoundTrip(SentPacket(payloads, codec, channels, ssrc, n));
  }

  ghost predicate FitDatagrams(payloads: seq<seq<byte>>) {
    forall n :: 0 <= n < |payloads| ==> |payloads[n]| + Rtp.RTP_HEADER_LEN <= R.DATAGRAM_LIMIT
  }

  lemma {:induction false} ArrivalsAreSurviving(payloads: seq<seq<byte>>, codec: Codec, channels: u16, ssrc: u32,
                                                survivors: seq<nat>)
    requires FitDatagrams(payloads) && forall k :: 0 <= k < |survivors| ==> survivors[k] < |payloads|
    ensures R.Arrivals(Delivered(Sent(payloads, codec, channels, ssrc), survivors)) == Surviving(payloads, survivors)
  {
    if survivors == [] {
    } else {
      var k := |survivors| - 1;
      var sent := Sent(payloads, codec, channels, ssrc);
      var before, event := Delivered(sent, survivors[..k]), R.Datagram(sent[survivors[k]]);
      hide R.Received, Sent;
      assert (before + [event])[..k] == before;
      ArrivalsAreSurviving(payloads, codec, channels, ssrc, survivors[..k]);
      ReceivedIsSent(payloads, codec, channels, ssrc, survivors[k]);
    }
  }

  /** Two in-order survivors follow each other for the receiver when the number of packets lost in
      between lies in the lower half of its 16-bit cycle. */
  lemma {:induction false} GapIsFollowed(a: nat, b: nat)
    requires a < b
    ensures R.Follows(Some(R.Succ(a % 65536)), b % 65536) <==> Lost(a, b) % 65536 < 32768
  {
    WrapSucc(a);
    DifferenceWraps(a + 1, b);
  }

  lemma {:induction false} DifferenceWraps(x: nat, y: nat)
    ensures (y % 65536 - x % 65536) % 65536 == (y - x) % 65536
  {
    var d, q := y % 65536 - x % 65536, y / 65536 - x / 65536;
    assert y - x == d + 65536 * q;
  }

  /** End to end: with in-order delivery, the packets that come out of the receiver are exactly the
      survivors, in send order, if and only if the number of packets lost between neighbours is
      below 32768 in its 16-bit cycle. Runs of up to 32767 losses are always fine. */
  lemma {:induction false} EndToEnd(payloads: seq<seq<byte>>, codec: Codec, channels: u16, ssrc: u32,
                                    survivors: seq<nat>)
    requires FitDatagrams(payloads) && InOrder(survivors, |payloads|)
    ensures var arrivals := R.Arrivals(Delivered(Sent(payloads, codec, channels, ssrc), survivors));
            R.Kept(arrivals) == Surviving(payloads, survivors) <==> ShortGaps(survivors)
    ensures (forall k :: 0 < k < |survivors| ==> Lost(survivors[k - 1], survivors[k]) <= 32767) ==>
            R.Kept(R.Arrivals(Delivered(Sent(payloads, codec, channels, ssrc), survivors)))
              == Surviving(payloads, survivors)
  {
    hide R.Kept, R.Arrivals, Sent, Surviving, Delivered, ShortGaps;
    ArrivalsAreSurviving(payloads, codec, channels, ssrc, survivors);
    R.KeptAll(Surviving(payloads, survivors));
    SurvivorsFollow(payloads, survivors);
    ShortRunsAreShort(survivors, |payloads|);
  }

  /** How many packets were lost between two survivors. */
  function Lost(a: nat, b: nat): int { b - a - 1 }

  /** Fewer than 32768 packets are lost between neighbours, counted in the 16-bit cycle. */
  ghost predicate ShortGaps(survivors: seq<nat>) {
    forall k :: 0 < k < |survivors| ==> Lost(survivors[k - 1], survivors[k]) % 65536 < 32768
  }

  lemma {:induction false} ShortRunsAreShort(survivors: seq<nat>, sent: nat)
    requires InOrder(survivors, sent)
    ensures (forall k :: 0 < k < |survivors| ==> Lost(survivors[k - 1], survivors[k]) <= 32767) ==> ShortGaps(survivors)
  {
  }

  lemma {:induction false} SurvivorsFollow(payloads: seq<seq<byte>>, survivors: seq<nat>)
    requires InOrder(survivors, |payloads|)
    ensures R.AllFollow(Surviving(payloads, survivors)) <==> ShortGaps(survivors)
  {
    hide R.Follows, R.Succ;
    var packets := Surviving(payloads, survivors);
    forall k | 0 < k < |survivors|
      ensures R.Follows(Some(R.Succ(packets[k - 1].0)), packets[k].0) <==>
                Lost(survivors[k - 1], survivors[k]) % 65536 < 32768
    {
      assert packets[k - 1].0 == survivors[k - 1] % 65536;
      GapIsFollowed(survivors[k - 1], survivors[k]);
    }
    if R.AllFollow(packets) {
      forall k | 0 < k < |survivors| ensures Lost(survivors[k - 1], survivors[k]) % 65536 < 32768 {
        assert R.Follows(Some(R.Succ(packets[k - 1].0)), packets[k].0);
      }
    }
  }

  /** The same for the frames: what the graph took, what is queued and what a full ring dropped are
      together the decoded survivors, in send order, if and only if the losses are short. */
  lemma {:induction false} EndToEndFrames(payloads: seq<seq<byte>>, codec: Codec, channels: u16, ssrc: u32,
                                          survivors: seq<nat>,
                                          events: seq<R.Event>, capacity: nat, sampleRate: u32)
    requires FitDatagrams(payloads) && InOrder(survivors, |payloads|)
    requires R.Arrivals(events) == R.Arrivals(Delivered(Sent(payloads, codec, channels, ssrc), survivors))
    ensures var p := R.AfterEvents(R.Progress(None, [], [], 0), capacity, channels, sampleRate, events);
            R.Accounted(p, R.Frames(channels, sampleRate, Surviving(payloads, survivors))) <==> ShortGaps(survivors)
  {
    hide R.Kept, R.Arrivals, R.AfterEvents, Sent, Surviving, Delivered, ShortGaps;
    EndToEnd(payloads, codec, channels, ssrc, survivors);
    ArrivalsAreSurviving(payloads, codec, channels, ssrc, survivors);
    R.KeptAll(Surviving(payloads, survivors));
    R.RunIsAccounted(capacity, channels, sampleRate, events);
  }

  /** With room in the ring at every arrival, nothing but the network loses anything: the graph has or
      will find exactly the decoded survivors, in send order, if and only if the losses are short. */
  lemma {:induction false} EndToEndDelivers(payloads: seq<seq<byte>>, codec: Codec, channels: u16, ssrc: u32,
                                            survivors: seq<nat>,
                                            events: seq<R.Event>, capacity: nat, sampleRate: u32)
    requires FitDatagrams(payloads) && InOrder(survivors, |payloads|)
    requires R.Arrivals(events) == R.Arrivals(Delivered(Sent(payloads, codec, channels, ssrc), survivors))
    requires R.RoomAtArrivals(capacity, channels, sampleRate, events)
    ensures var p := R.AfterEvents(R.START, capacity, channels, sampleRate, events);
            p.taken + p.ring == R.Frames(channels, sampleRate, Surviving(payloads, survivors)) <==> ShortGaps(survivors)
  {
    hide R.Kept, R.Arrivals, R.AfterEvents, Sent, Surviving, Delivered, ShortGaps, R.RoomAtArrivals;
    EndToEnd(payloads, codec, channels, ssrc, survivors);
    ArrivalsAreSurviving(payloads, codec, channels, ssrc, survivors);
    R.KeptAll(Surviving(payloads, survivors));
    R.NothingDroppedExactlyWhen(capacity, channels, sampleRate, events);
  }

  /** A frame the send worker encoded and the receive worker decoded: same layout with any
      incomplete last frame dropped, each sample quantised once. */
  lemma {:induction false} FrameOfEncoded(planar: seq<real>, channels: u16, sampleRate: u32)
    ensures R.Frame(channels, sampleRate, Pcm.Encoded(Pcm.L16, planar, channels))
         == R.AudioFrame(channels, sampleRate, Pcm.Through(Pcm.L16, planar[..Pcm.WholeSamples(|planar|, channels)]))
  {
    hide Pcm.WholeSamples;
    Pcm.DecodeAfterEncode(Pcm.L16, planar, channels);
  }

  // ----- the stream on the wire ---------------------------------------------------------------------------

  /** The clock counts frames: a payload of `k` whole frames and perhaps a part of one moves it by `k`. */
  lemma {:induction false} AdvanceIsFrames(codec: Codec, channels: u16, k: nat, part: nat)
    requires 0 < channels && k < 0x1_0000_0000
    requires part < channels * (if codec.PcmL16? then 2 else if codec.PcmL24? then 3 else 1)
    ensures TimestampAdvance(k * (channels * (if codec.PcmL16? then 2 else if codec.PcmL24? then 3 else 1)) + part,
                             codec, channels) == k
  {
    Layout.DivModOf(k, BytesPerSample(codec) * channels, part);
  }

  /** Payloads of `k` frames each: the n-th packet is stamped n * k. */
  lemma {:induction false} SteadyClock(payloads: seq<seq<byte>>, codec: Codec, channels: u16, k: nat)
    requires 0 < channels && k < 0x1_0000_0000
    requires forall i :: 0 <= i < |payloads| ==>
               |payloads[i]| == k * (channels * (if codec.PcmL16? then 2 else if codec.PcmL24? then 3 else 1))
    ensures FramesBefore(payloads, codec, channels) == |payloads| * k
  {
    hide TimestampAdvance;
    if payloads == [] {
    } else {
      var n := |payloads| - 1;
      SteadyClock(payloads[..n], codec, channels, k);
      AdvanceIsFrames(codec, channels, k, 0);
      assert |payloads| * k == n * k + k;
    }
  }

  /** The n-th datagram of a stream, byte by byte; 10 and 11 are the L16 types of section 6 of RFC 3551. */
  lemma {:induction false} DatagramLayout(payloads: seq<seq<byte>>, codec: Codec, channels: u16, ssrc: u32, n: nat)
    requires n < |payloads|
    ensures var d := Sent(payloads, codec, channels, ssrc)[n];
            var stamp := FramesBefore(payloads[..n], codec, channels) % 0x1_0000_0000;
            && |d| == 12 + |payloads[n]| && d[12..] == payloads[n]
            && d[0] == 128 && d[2] == n / 256 % 256 && d[3] == n % 256
            && d[4] == stamp / 0x100_0000 && d[5] == stamp / 0x1_0000 % 256
            && d[6] == stamp / 0x100 % 256 && d[7] == stamp % 256
            && d[8] == ssrc / 0x100_0000 && d[9] == ssrc / 0x1_0000 % 256
            && d[10] == ssrc / 0x100 % 256 && d[11] == ssrc % 256
            && (codec.PcmL16? ==> d[1] == if channels >= 2 then 10 else 11) && (codec.PcmL24? ==> d[1] == 96)
  {
    hide FramesBefore, Rtp.EncodeHeader;
    var p := SentPacket(payloads, codec, channels, ssrc, n);
    var stamp := FramesBefore(payloads[..n], codec, channels) % 0x1_0000_0000;
    Rtp.HeaderLayout(p.header);
    PlainFlags(p.header);
    NumberBytes(n);
    hide SentPacket;
    assert Rtp.EncodePacket(p)[12..] == payloads[n];
    assert forall i :: 0 <= i < 12 ==> Rtp.EncodePacket(p)[i] == Rtp.EncodeHeader(p.header)[i];
  }

  lemma {:induction false} NumberBytes(n: nat)
    ensures n % 65536 / 256 == n / 256 % 256 && n % 65536 % 256 == n % 256
  {
  }

  lemma {:induction false} PlainFlags(h: Rtp.Header)
    requires !h.padding && !h.extension && h.csrcCount == 0 && !h.marker
    ensures Rtp.EncodeHeader(h)[0] == 128 && Rtp.EncodeHeader(h)[1] == h.payloadType % 128
  {
  }
}
