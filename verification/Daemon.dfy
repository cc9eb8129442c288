/** The PulseAudio native-protocol client: control frames, request and reply, the handshake. */
module Daemon {
  import opened Common
  import opened Bytes
  import opened TagStruct
  import opened TagCodec

  const HEADER_LEN := 20
  const PROTOCOL_VERSION := 35
  const AUTH_COOKIE_LEN := 256
  const CONTROL_CHANNEL: u32 := 0xFFFF_FFFF

  const ERROR: u32 := 0
  const TIMEOUT: u32 := 1
  const REPLY: u32 := 2
  const AUTH: u32 := 8
  const SET_CLIENT_NAME: u32 := 9

  datatype DaemonError = Io | Cookie | Protocol | Server(code: u32, message: Option<Text>)

  /** The descriptor fields a reader ignores. */
  datatype Routing = Routing(channel: u32, offset: u64, flags: u32)

  datatype Frame = Frame(command: u32, tag: u32, payload: seq<byte>)

  datatype Packet = Packet(routing: Routing, frame: Frame)

  /** How requests are addressed. */
  const CONTROL := Routing(CONTROL_CHANNEL, 0, 0)

  function Body(f: Frame): (b: seq<byte>)
    ensures |b| == 10 + |f.payload|
  {
    EncU32(f.command) + EncU32(f.tag) + f.payload
  }

  function Descriptor(length: u32, r: Routing): (b: seq<byte>)
    ensures |b| == HEADER_LEN
  {
    Be32(length) + Be32(r.channel) + Be64(r.offset) + Be32(r.flags)
  }

  predicate Sendable(f: Frame) { 10 + |f.payload| < 0x1_0000_0000 }

  /** A body the reader accepts. */
  predicate Receivable(f: Frame) { 10 + |f.payload| <= MAX_LEN }

  function Wire(p: Packet): (b: seq<byte>)
    requires Sendable(p.frame)
    ensures |b| == HEADER_LEN + 10 + |p.frame.payload|
  {
    Descriptor(|Body(p.frame)|, p.routing) + Body(p.frame)
  }

  function WireAll(ps: seq<Packet>): seq<byte>
    requires forall i :: 0 <= i < |ps| ==> Sendable(ps[i].frame)
  {
    if ps == [] then [] else WireAll(ps[..|ps| - 1]) + Wire(ps[|ps| - 1])
  }

  // ----- what can stand at a place --------------------------------------------------------------------------

  ghost predicate PacketAt(buf: seq<byte>, p: nat, packet: Packet) {
    Receivable(packet.frame) && At(buf, p, Wire(packet))
  }

  lemma {:induction false} DescriptorParts(buf: seq<byte>, p: nat, length: u32, r: Routing)
    ensures At(buf, p, Descriptor(length, r)) <==>
              && At(buf, p, Be32(length)) && At(buf, p + 4, Be32(r.channel))
              && At(buf, p + 8, Be64(r.offset)) && At(buf, p + 16, Be32(r.flags))
  {
    hide At, Be32, Be64;
    var l, c, o, f := Be32(length), Be32(r.channel), Be64(r.offset), Be32(r.flags);
    assert Descriptor(length, r) == l + (c + (o + f));
    AtSplit(buf, p, l, c + (o + f));
    AtSplit(buf, p + 4, c, o + f);
    AtSplit(buf, p + 8, o, f);
  }

  lemma {:induction false} BodyParts(buf: seq<byte>, p: nat, f: Frame)
    ensures At(buf, p, Body(f)) <==>
              At(buf, p, EncU32(f.command)) && At(buf, p + 5, EncU32(f.tag)) && At(buf, p + 10, f.payload)
  {
    hide At, EncU32;
    var c, t := EncU32(f.command), EncU32(f.tag);
    assert Body(f) == c + (t + f.payload);
    AtSplit(buf, p, c, t + f.payload);
    AtSplit(buf, p + 5, t, f.payload);
  }

  lemma {:induction false} WireParts(buf: seq<byte>, p: nat, packet: Packet)
    requires Sendable(packet.frame)
    ensures At(buf, p, Wire(packet)) <==>
              && At(buf, p, Descriptor(10 + |packet.frame.payload|, packet.routing))
              && At(buf, p + HEADER_LEN, Body(packet.frame))
  {
    hide At, Descriptor, Body;
    AtSplit(buf, p, Descriptor(|Body(packet.frame)|, packet.routing), Body(packet.frame));
  }

  lemma {:induction false} LongUnique(buf: seq<byte>, p: nat, v: u64, w: u64)
    requires At(buf, p, Be64(v)) && At(buf, p, Be64(w))
    ensures v == w
  {
    hide BigEndian, FromBigEndian;
    AtSame(buf, p, Be64(v), Be64(w));
  }

  /** The bytes determine the packet; with the length word alone already deciding its size. */
  lemma {:induction false} PacketUnique(buf: seq<byte>, p: nat, a: Packet, b: Packet)
    requires Sendable(a.frame) && Sendable(b.frame) && At(buf, p, Wire(a)) && At(buf, p, Wire(b))
    ensures a == b
  {
    hide At, Descriptor, Body, Wire, EncU32, Be32, Be64;
    WireParts(buf, p, a);
    WireParts(buf, p, b);
    DescriptorParts(buf, p, 10 + |a.frame.payload|, a.routing);
    DescriptorParts(buf, p, 10 + |b.frame.payload|, b.routing);
    WordUnique(buf, p, 10 + |a.frame.payload|, 10 + |b.frame.payload|);
    WordUnique(buf, p + 4, a.routing.channel, b.routing.channel);
    LongUnique(buf, p + 8, a.routing.offset, b.routing.offset);
    WordUnique(buf, p + 16, a.routing.flags, b.routing.flags);
    BodyParts(buf, p + HEADER_LEN, a.frame);
    BodyParts(buf, p + HEADER_LEN, b.frame);
    LengthIs(buf, p + HEADER_LEN, a.frame.command, b.frame.command);
    LengthIs(buf, p + HEADER_LEN + 5, a.frame.tag, b.frame.tag);
    AtSame(buf, p + HEADER_LEN + 10, a.frame.payload, b.frame.payload);
  }

  // ----- the stream -------------------------------------------------------------------------------------------

  /** A connected socket: what the peer sends, how far it was read, what was sent. */
  class Stream {
    const incoming: seq<byte>
    var pos: nat
    var outgoing: seq<byte>

    ghost predicate Valid()
      reads this
    {
      pos <= |incoming|
    }

    constructor (incoming: seq<byte>)
      ensures this.incoming == incoming && pos == 0 && outgoing == []
    {
      this.incoming, pos, outgoing := incoming, 0, [];
    }

    method WriteAll(bytes: seq<byte>)
      modifies this
      ensures outgoing == old(outgoing) + bytes && pos == old(pos)
    {
      outgoing := outgoing + bytes;
    }

    /** Fails when the peer closes or stalls before `n` bytes. */
    method ReadExact(n: nat) returns (r: Result<seq<byte>, DaemonError>)
      requires Valid()
      modifies this
      ensures Valid() && outgoing == old(outgoing) && old(pos) <= pos
      ensures r.Ok? <==> old(pos) + n <= |incoming|
      ensures r.Ok? ==> pos == old(pos) + n && |r.value| == n && At(incoming, old(pos), r.value)
    {
      if pos + n > |incoming| {
        pos := |incoming|;
        return Err(Io);
      }
      r := Ok(incoming[pos..pos + n]);
      pos := pos + n;
    }

    method WriteFrame(command: u32, tag: u32, tagstruct: seq<byte>)
      requires Sendable(Frame(command, tag, tagstruct))
      modifies this
      ensures outgoing == old(outgoing) + Wire(Packet(CONTROL, Frame(command, tag, tagstruct))) && pos == old(pos)
    {
      hide Be32, Be64;
      var payload := [TAG_U32] + Be32(command);
      payload := payload + ([TAG_U32] + Be32(tag));
      payload := payload + tagstruct;
      assert payload == Body(Frame(command, tag, tagstruct));
      hide Body, EncU32;
      ghost var before := outgoing;
      WriteAll(Be32(|payload|));
      WriteAll(Be32(0xFFFF_FFFF));
      WriteAll(Be64(0));
      WriteAll(Be32(0));
      assert outgoing == before + Descriptor(|payload|, CONTROL);
      hide Descriptor;
      WriteAll(payload);
    }

    method ReadFrame() returns (r: Result<Frame, DaemonError>, ghost routing: Routing)
      requires Valid()
      modifies this
      ensures Valid() && outgoing == old(outgoing) && old(pos) <= pos
      ensures r.Ok? ==>
                && PacketAt(incoming, old(pos), Packet(routing, r.value))
                && pos == old(pos) + |Wire(Packet(routing, r.value))|
      ensures r.Err? ==> forall packet :: !PacketAt(incoming, old(pos), packet)
    {
      hide At, Be32, Be64, FromBe32, FromBe64, Descriptor, Body, EncU32, Wire, PacketAt;
      ghost var p := pos;
      routing := CONTROL;
      PacketNeedsHeader(incoming, p);
      var descriptor := ReadExact(HEADER_LEN);
      if descriptor.Err? {
        return Err(Io), routing;
      }
      var d := descriptor.value;
      var length := FromBe32(d[0..4]);
      routing := Routing(FromBe32(d[4..8]), FromBe64(d[8..16]), FromBe32(d[16..20]));
      DescriptorRead(incoming, p, d, length, routing);
      PacketLength(incoming, p, length, routing);
      if length == 0 || length > MAX_LEN {
        return Err(Protocol), routing;
      }
      var body := ReadExact(length);
      if body.Err? {
        return Err(Io), routing;
      }
      var frame := ParseBody(body.value);
      PacketIsBody(incoming, p, length, routing, body.value);
      if frame.Err? {
        return Err(Protocol), routing;
      }
      FrameStands(incoming, p, routing, frame.value);
      r := frame;
    }
  }

  lemma {:induction false} PacketNeedsHeader(buf: seq<byte>, p: nat)
    ensures forall packet :: PacketAt(buf, p, packet) ==> p + HEADER_LEN <= |buf|
  {
  }

  lemma {:induction false} DescriptorRead(buf: seq<byte>, p: nat, d: seq<byte>, length: u32, r: Routing)
    requires At(buf, p, d) && |d| == HEADER_LEN
    requires d[0..4] == Be32(length) && d[4..8] == Be32(r.channel)
    requires d[8..16] == Be64(r.offset) && d[16..20] == Be32(r.flags)
    ensures At(buf, p, Descriptor(length, r))
  {
    hide At, Be32, Be64;
    assert d == d[0..4] + d[4..8] + d[8..16] + d[16..20];
  }

  /** The length word fixes the size of every packet that can stand here. */
  lemma {:induction false} PacketLength(buf: seq<byte>, p: nat, length: u32, r: Routing)
    requires At(buf, p, Descriptor(length, r))
    ensures forall packet :: PacketAt(buf, p, packet) ==>
              && 10 + |packet.frame.payload| == length <= MAX_LEN
              && At(buf, p + HEADER_LEN, Body(packet.frame)) && p + HEADER_LEN + length <= |buf|
  {
    hide At, Descriptor, Wire, Be32, Be64, EncU32;
    forall packet | PacketAt(buf, p, packet)
      ensures && 10 + |packet.frame.payload| == length <= MAX_LEN
              && At(buf, p + HEADER_LEN, Body(packet.frame)) && p + HEADER_LEN + length <= |buf|
    {
      WireParts(buf, p, packet);
      DescriptorParts(buf, p, length, r);
      DescriptorParts(buf, p, 10 + |packet.frame.payload|, packet.routing);
      WordUnique(buf, p, length, 10 + |packet.frame.payload|);
      AtBounds(buf, p + HEADER_LEN);
    }
  }

  lemma {:induction false} PacketIsBody(buf: seq<byte>, p: nat, length: u32, r: Routing, body: seq<byte>)
    requires At(buf, p, Descriptor(length, r)) && At(buf, p + HEADER_LEN, body) && |body| == length
    ensures forall packet :: PacketAt(buf, p, packet) ==> Body(packet.frame) == body
  {
    PacketLength(buf, p, length, r);
    hide At, Descriptor, PacketAt, EncU32;
    forall packet | PacketAt(buf, p, packet) ensures Body(packet.frame) == body {
      AtSame(buf, p + HEADER_LEN, Body(packet.frame), body);
    }
  }

  lemma {:induction false} FrameStands(buf: seq<byte>, p: nat, r: Routing, f: Frame)
    requires Receivable(f) && At(buf, p, Descriptor(10 + |f.payload|, r)) && At(buf, p + HEADER_LEN, Body(f))
    ensures PacketAt(buf, p, Packet(r, f))
  {
    hide At, Descriptor, Body;
    WireParts(buf, p, Packet(r, f));
  }

  /** Splits a body into command, tag and the rest. */
  method ParseBody(body: seq<byte>) returns (r: Result<Frame, DaemonError>)
    ensures r.Ok? ==> body == Body(r.value)
    ensures r.Err? ==> forall f :: body != Body(f)
  {
    hide At, EncU32;
    forall f
      ensures body == Body(f) <==>
                && At(body, 0, EncU32(f.command)) && At(body, 5, EncU32(f.tag)) && At(body, 10, f.payload)
                && |body| == 10 + |f.payload|
    {
      BodyParts(body, 0, f);
      WholeAt(body, Body(f));
    }
    var reader := new TagReader(body);
    var command := reader.ReadU32();
    if command.Err? {
      return Err(Protocol);
    }
    var tag := reader.ReadU32();
    if tag.Err? {
      return Err(Protocol);
    }
    RestAt(body, 10);
    r := Ok(Frame(command.value, tag.value, body[10..]));
  }

  lemma {:induction false} WholeAt(a: seq<byte>, b: seq<byte>)
    ensures a == b <==> At(a, 0, b) && |a| == |b|
  {
    assert a[0..|a|] == a;
  }

  lemma {:induction false} RestAt(a: seq<byte>, n: nat)
    requires n <= |a|
    ensures At(a, n, a[n..])
  {
  }

  /** `read_frame` undoes `write_frame`, whatever follows, exactly when the body is within the limit. */
  method FrameRoundTrip(command: u32, tag: u32, tagstruct: seq<byte>,
                        rest: seq<byte>) returns (r: Result<Frame, DaemonError>, end: nat)
    requires Sendable(Frame(command, tag, tagstruct))
    ensures r.Ok? <==> 10 + |tagstruct| <= MAX_LEN
    ensures r.Ok? ==> r.value == Frame(command, tag, tagstruct) && end == HEADER_LEN + 10 + |tagstruct|
  {
    hide At, Wire;
    var sender := new Stream([]);
    sender.WriteFrame(command, tag, tagstruct);
    var receiver := new Stream(sender.outgoing + rest);
    ghost var packet := Packet(CONTROL, Frame(command, tag, tagstruct));
    PrefixAt(Wire(packet), rest);
    assert sender.outgoing == Wire(packet);
    assert 10 + |tagstruct| <= MAX_LEN ==> PacketAt(receiver.incoming, 0, packet);
    ghost var routing;
    r, routing := receiver.ReadFrame();
    if r.Ok? {
      PacketUnique(receiver.incoming, 0, Packet(routing, r.value), packet);
    }
    end := receiver.pos;
  }

  lemma {:induction false} PrefixAt(a: seq<byte>, rest: seq<byte>)
    ensures At(a + rest, 0, a)
  {
  }

  // ----- request and reply -------------------------------------------------------------------------------------

  predicate Fails(f: Frame) { f.command == ERROR || f.command == TIMEOUT }

  /** The error an ERROR or TIMEOUT reply stands for; unreadable parts get defaults. */
  method ErrorReply(frame: Frame) returns (e: DaemonError)
    ensures e.Server?
    ensures forall code :: At(frame.payload, 0, EncU32(code)) ==> e.code == code
    ensures (forall code :: !At(frame.payload, 0, EncU32(code))) ==> e.code == 0
    ensures (exists code :: At(frame.payload, 0, EncU32(code))) && e.message.None? ==>
              forall text: Text :: ReadableText(text) ==> !At(frame.payload, 5, EncStr(text))
    ensures forall code, text: Text :: ReadableText(text) && At(frame.payload, 0, EncU32(code) + EncStr(text)) ==>
              e == Server(code, Some(text))
  {
    hide At, EncU32, Utf8, NoNul, EncStr;
    var reader := new TagReader(frame.payload);
    var code := reader.ReadU32();
    var message := reader.ReadString();
    e := Server(if code.Ok? then code.value else 0, if message.Ok? then message.value else None);
    forall c | At(frame.payload, 0, EncU32(c)) ensures code.Ok? && e.code == c {
      LengthIs(frame.payload, 0, c, code.value);
    }
    forall text: Text | ReadableText(text) && code.Ok? && At(frame.payload, 5, EncStr(text)) ensures e.message.Some? {
      NotBoth(frame.payload, 5, text);
    }
    forall c, text: Text | ReadableText(text) && At(frame.payload, 0, EncU32(c) + EncStr(text))
      ensures e == Server(c, Some(text))
    {
      AtSplit(frame.payload, 0, EncU32(c), EncStr(text));
      LengthIs(frame.payload, 0, c, code.value);
      NotBoth(frame.payload, 5, text);
      StrUnique(frame.payload, 5, text, message.value.value);
    }
  }

  lemma {:induction false} NotBoth(buf: seq<byte>, p: nat, s: Text)
    requires At(buf, p, EncStr(s))
    ensures !At(buf, p, [TAG_STRING_NULL])
  {
    AtFirst(buf, p, EncStr(s));
    AtByte(buf, p);
  }

  /** Whole packets standing one after the other. */
  ghost predicate PacketsAt(buf: seq<byte>, p: nat, ps: seq<Packet>) {
    (forall i :: 0 <= i < |ps| ==> Receivable(ps[i].frame)) && At(buf, p, WireAll(ps))
  }

  lemma {:induction false} PacketsGrow(buf: seq<byte>, p: nat, ps: seq<Packet>, packet: Packet)
    requires PacketsAt(buf, p, ps) && PacketAt(buf, p + |WireAll(ps)|, packet)
    ensures PacketsAt(buf, p, ps + [packet]) && |WireAll(ps + [packet])| == |WireAll(ps)| + |Wire(packet)|
  {
    hide At, Wire;
    var all := ps + [packet];
    assert all[..|ps|] == ps;
    AtSplit(buf, p, WireAll(ps), Wire(packet));
  }

  class PulseDaemon {
    const stream: Stream
    var nextTag: u32
    var serverVersion: u32

    constructor (stream: Stream)
      ensures this.stream == stream && nextTag == 1 && serverVersion == 0
    {
      this.stream, nextTag, serverVersion := stream, 1, 0;
    }

    /** Sends one request and skips frames until its own tag comes back. `patience` is how many frames
        can be read before the deadline. */
    method Request(command: u32, tagstruct: seq<byte>, patience: nat, ghost reply: seq<Packet>)
        returns (r: Result<Frame, DaemonError>, ghost skipped: seq<Packet>, ghost last: Packet)
      requires stream.Valid() && Sendable(Frame(command, nextTag, tagstruct))
      modifies this, stream
      ensures stream.Valid() && nextTag == (old(nextTag) + 1) % 0x1_0000_0000 && serverVersion == old(serverVersion)
      ensures stream.outgoing == old(stream.outgoing) + Wire(Packet(CONTROL, Frame(command, old(nextTag), tagstruct)))
      ensures forall i :: 0 <= i < |skipped| ==> skipped[i].frame.tag != old(nextTag)
      ensures r.Ok? ==>
                && r.value == last.frame && last.frame.tag == old(nextTag) && !Fails(last.frame)
                && |skipped| < patience && PacketsAt(stream.incoming, old(stream.pos), skipped + [last])
                && stream.pos == old(stream.pos) + |WireAll(skipped + [last])|
      // and if a reply is there within the deadline, it is the result
      ensures Replies(stream.incoming, old(stream.pos), reply, old(nextTag)) && |reply| <= patience ==>
                var f := reply[|reply| - 1].frame;
                if Fails(f) then r.Err? && r.error.Server? else r == Ok(f) && skipped + [last] == reply
    {
      hide At, Wire, PacketAt, PacketsAt;
      var tag := nextTag;
      nextTag := (nextTag + 1) % 0x1_0000_0000;
      stream.WriteFrame(command, tag, tagstruct);
      skipped, last := [], Packet(CONTROL, Frame(command, tag, []));
      ghost var start := stream.pos;
      NoPackets(stream.incoming, start);
      var seen := 0;
      while seen < patience
        modifies stream
        invariant stream.Valid() && seen <= patience && |skipped| == seen
        invariant stream.outgoing == old(stream.outgoing) + Wire(Packet(CONTROL, Frame(command, tag, tagstruct)))
        invariant PacketsAt(stream.incoming, start, skipped) && AllReceivable(skipped)
        invariant stream.pos == start + |WireAll(skipped)|
        invariant forall i :: 0 <= i < |skipped| ==> skipped[i].frame.tag != tag
        invariant Replies(stream.incoming, start, reply, tag) ==> |skipped| < |reply| && skipped == reply[..|skipped|]
      {
        if Replies(stream.incoming, start, reply, tag) {
          ReplyNext(stream.incoming, start, reply, |skipped|);
        }
        ghost var at := stream.pos;
        var frame, routing := stream.ReadFrame();
        if frame.Err? {
          return Err(frame.error), skipped, last;
        }
        seen := seen + 1;
        last := Packet(routing, frame.value);
        AtReceivable(stream.incoming, at, last);
        PacketsGrow(stream.incoming, start, skipped, last);
        if Replies(stream.incoming, start, reply, tag) {
          SamePacket(stream.incoming, at, last, reply[|skipped|]);
        }
        if frame.value.tag != tag {
          skipped := skipped + [last];
        } else if Fails(frame.value) {
          var e := ErrorReply(frame.value);
          return Err(e), skipped, last;
        } else {
          return Ok(frame.value), skipped, last;
        }
      }
      r := Err(Io);
    }

    /** Handshake step 1. */
    method Auth(cookie: Option<seq<byte>>, patience: nat, ghost reply: seq<Packet>)
        returns (r: Result<(), DaemonError>, ghost answer: Frame)
      requires stream.Valid() && GoodCookie(cookie)
      modifies this, stream
      ensures stream.Valid() && nextTag == (old(nextTag) + 1) % 0x1_0000_0000
      ensures var sent := Frame(AUTH, old(nextTag), AuthBody(cookie));
              stream.outgoing == old(stream.outgoing) + Wire(Packet(CONTROL, sent))
      ensures r.Ok? ==>
                answer.tag == old(nextTag) && answer.command == REPLY && At(answer.payload, 0, EncU32(serverVersion))
      // and a good answer within the deadline is enough
      ensures Answers(stream.incoming, old(stream.pos), reply, old(nextTag), patience) && Versioned(Last(reply)) ==>
                r.Ok? && answer == Last(reply) && stream.pos == old(stream.pos) + |WireAll(reply)|
    {
      hide Wire, At, EncU32, EncBlob, PacketsAt;
      var writer := new TagWriter();
      writer.Word(PROTOCOL_VERSION);
      if cookie.Some? {
        writer.Arbitrary(cookie.value);
      }
      assert writer.buf == AuthBody(cookie);
      AuthBodyFits(cookie);
      var frame, _, _ := Request(AUTH, writer.buf, patience, reply);
      if frame.Err? {
        return Err(frame.error), Frame(0, 0, []);
      }
      answer := frame.value;
      if frame.value.command != REPLY {
        return Err(Protocol), answer;
      }
      var reader := new TagReader(frame.value.payload);
      var version := reader.ReadU32();
      if version.Err? {
        return Err(Protocol), answer;
      }
      serverVersion := version.value;
      r := Ok(());
    }

    /** Handshake step 2. */
    method SetClientName(props: Pairs, patience: nat, ghost reply: seq<Packet>)
        returns (r: Result<(), DaemonError>, ghost answer: Frame)
      requires stream.Valid() && Writable(Props(props))
      requires Sendable(Frame(SET_CLIENT_NAME, nextTag, Encode(Props(props))))
      modifies this, stream
      ensures stream.Valid() && nextTag == (old(nextTag) + 1) % 0x1_0000_0000 && serverVersion == old(serverVersion)
      ensures var sent := Frame(SET_CLIENT_NAME, old(nextTag), Encode(Props(props)));
              stream.outgoing == old(stream.outgoing) + Wire(Packet(CONTROL, sent))
      ensures r.Ok? ==> answer.tag == old(nextTag) && answer.command == REPLY && Indexed(answer)
      ensures Answers(stream.incoming, old(stream.pos), reply, old(nextTag), patience) && Indexed(Last(reply)) ==>
                r.Ok? && answer == Last(reply)
    {
      hide Wire, At, Encode, PacketsAt;
      var writer := new TagWriter();
      writer.Proplist(props);
      assert writer.buf == Encode(Props(props));
      var frame, _, _ := Request(SET_CLIENT_NAME, writer.buf, patience, reply);
      if frame.Err? {
        return Err(frame.error), Frame(0, 0, []);
      }
      answer := frame.value;
      if frame.value.command != REPLY {
        return Err(Protocol), answer;
      }
      if frame.value.payload != [] {
        var reader := new TagReader(frame.value.payload);
        var index := reader.ReadU32();
        if index.Err? {
          return Err(Protocol), answer;
        }
      }
      r := Ok(());
    }
  }

  function Last(ps: seq<Packet>): Frame {
    if ps == [] then Frame(0, 0, []) else ps[|ps| - 1].frame
  }

  /** A REPLY to this tag arrives within the deadline, after frames with other tags only. */
  ghost predicate Answers(buf: seq<byte>, p: nat, ps: seq<Packet>, tag: u32, patience: nat) {
    Replies(buf, p, ps, tag) && |ps| <= patience && Last(ps).command == REPLY
  }

  /** The reply body starts with a word: a protocol version, or a client index. */
  ghost predicate Versioned(f: Frame) {
    exists v :: At(f.payload, 0, EncU32(v))
  }

  /** What the naming request accepts: an empty reply, or one that starts with the client's index. */
  ghost predicate Indexed(f: Frame) {
    f.payload == [] || Versioned(f)
  }

  /** The server answers both requests of the handshake, one after the other. */
  ghost predicate Granted(buf: seq<byte>, p: nat, reply1: seq<Packet>, reply2: seq<Packet>, patience: nat) {
    && Answers(buf, p, reply1, 1, patience) && Versioned(Last(reply1))
    && Answers(buf, p + |WireAll(reply1)|, reply2, 2, patience) && Indexed(Last(reply2))
  }

  predicate GoodCookie(cookie: Option<seq<byte>>) { cookie.Some? ==> |cookie.value| == AUTH_COOKIE_LEN }

  function AuthBody(cookie: Option<seq<byte>>): seq<byte>
    requires GoodCookie(cookie)
  {
    EncU32(PROTOCOL_VERSION) + if cookie.Some? then EncBlob(cookie.value) else []
  }

  lemma {:induction false} AuthBodyFits(cookie: Option<seq<byte>>)
    requires GoodCookie(cookie)
    ensures forall command, tag :: Sendable(Frame(command, tag, AuthBody(cookie)))
  {
  }

  /** Connecting: nothing is sent with a cookie of the wrong size; AUTH goes first, under tag 1; the
      client name goes second, under tag 2, and only after AUTH was answered by a REPLY that carries
      the server's version. */
  method Connect(stream: Stream, cookie: Option<seq<byte>>, props: Pairs, patience: nat,
                 ghost reply1: seq<Packet>, ghost reply2: seq<Packet>)
      returns (r: Result<PulseDaemon, DaemonError>, ghost authorised: bool, ghost answer: Frame)
    requires stream.Valid() && Writable(Props(props)) && Sendable(Frame(SET_CLIENT_NAME, 2, Encode(Props(props))))
    modifies stream
    ensures !GoodCookie(cookie) ==> r == Err(Cookie) && stream.outgoing == old(stream.outgoing)
    ensures GoodCookie(cookie) ==>
              var auth := Wire(Packet(CONTROL, Frame(AUTH, 1, AuthBody(cookie))));
              var name := Wire(Packet(CONTROL, Frame(SET_CLIENT_NAME, 2, Encode(Props(props)))));
              stream.outgoing == old(stream.outgoing) + auth + if authorised then name else []
    ensures authorised ==> answer.tag == 1 && answer.command == REPLY
    ensures r.Ok? ==>
              && authorised && r.value.stream == stream && r.value.nextTag == 3
              && At(answer.payload, 0, EncU32(r.value.serverVersion))
    ensures GoodCookie(cookie) && Granted(stream.incoming, old(stream.pos), reply1, reply2, patience) ==> r.Ok?
  {
    hide Wire, At, EncU32, EncBlob, Encode, Writable, AuthBody, Sendable;
    authorised, answer := false, Frame(0, 0, []);
    if cookie.Some? && |cookie.value| != AUTH_COOKIE_LEN {
      return Err(Cookie), authorised, answer;
    }
    AuthFits(cookie);
    var daemon := new PulseDaemon(stream);
    var auth;
    auth, answer := daemon.Auth(cookie, patience, reply1);
    if auth.Err? {
      return Err(auth.error), authorised, answer;
    }
    authorised := true;
    var name, _ := daemon.SetClientName(props, patience, reply2);
    if name.Err? {
      return Err(name.error), authorised, answer;
    }
    r := Ok(daemon);
  }

  lemma {:induction false} AuthFits(cookie: Option<seq<byte>>)
    requires GoodCookie(cookie)
    ensures Sendable(Frame(AUTH, 1, AuthBody(cookie)))
  {
  }

  /** Packets with other tags, then one with this tag. */
  ghost predicate Replies(buf: seq<byte>, p: nat, ps: seq<Packet>, tag: u32) {
    && ps != [] && PacketsAt(buf, p, ps) && ps[|ps| - 1].frame.tag == tag
    && forall i :: 0 <= i < |ps| - 1 ==> ps[i].frame.tag != tag
  }

  lemma {:induction false} ReplyNext(buf: seq<byte>, p: nat, ps: seq<Packet>, k: nat)
    requires PacketsAt(buf, p, ps) && k < |ps|
    ensures PacketAt(buf, p + |WireAll(ps[..k])|, ps[k])
  {
    hide At, Wire;
    var n := |ps| - 1;
    AtSplit(buf, p, WireAll(ps[..n]), Wire(ps[n]));
    if k == n {
    } else {
      assert ps[..n][..k] == ps[..k];
      ReplyNext(buf, p, ps[..n], k);
    }
  }

  lemma {:induction false} SamePacket(buf: seq<byte>, p: nat, a: Packet, b: Packet)
    requires PacketAt(buf, p, a) && PacketAt(buf, p, b)
    ensures a == b
  {
    hide At, Wire;
    PacketUnique(buf, p, a, b);
  }

  predicate AllReceivable(ps: seq<Packet>) { forall i :: 0 <= i < |ps| ==> Receivable(ps[i].frame) }

  lemma {:induction false} NoPackets(buf: seq<byte>, p: nat)
    requires p <= |buf|
    ensures PacketsAt(buf, p, []) && |WireAll([])| == 0
  {
  }

  lemma {:induction false} AtReceivable(buf: seq<byte>, p: nat, packet: Packet)
    requires PacketAt(buf, p, packet)
    ensures Receivable(packet.frame)
  {
  }

  // ----- the bytes of a frame --------------------------------------------------------------------------------

  /** The descriptor: length, channel, offset and flags, in this order. */
  lemma {:induction false} DescriptorBytes(length: u32, r: Routing)
    ensures var b := Descriptor(length, r);
            && b[0..4] == [length / 0x100_0000, length / 0x1_0000 % 256, length / 0x100 % 256, length % 256]
            && b[4..8] == [r.channel / 0x100_0000, r.channel / 0x1_0000 % 256, r.channel / 0x100 % 256, r.channel % 256]
            && (forall i :: 0 <= i < 8 ==> b[8..16][i] == r.offset / Pow256(7 - i) % 256)
            && b[16..20] == [r.flags / 0x100_0000, r.flags / 0x1_0000 % 256, r.flags / 0x100 % 256, r.flags % 256]
  {
    hide Be32, Be64, Pow256;
    var b := Descriptor(length, r);
    WordBytes(0, length);
    WordBytes(0, r.channel);
    WordBytes(0, r.flags);
    OffsetBytes(r.offset);
    assert b[0..4] == Be32(length) && b[4..8] == Be32(r.channel) && b[16..20] == Be32(r.flags);
    assert b[8..16] == Be64(r.offset);
  }

  /** The body: command and tag as tagged words, then the tagstruct. */
  lemma {:induction false} BodyBytes(f: Frame)
    ensures var b := Body(f);
            && b[0] == 'L' as int && b[5] == 'L' as int && b[10..] == f.payload
            && b[1..5] == [f.command / 0x100_0000, f.command / 0x1_0000 % 256, f.command / 0x100 % 256, f.command % 256]
            && b[6..10] == [f.tag / 0x100_0000, f.tag / 0x1_0000 % 256, f.tag / 0x100 % 256, f.tag % 256]
  {
    hide Be32;
    var b := Body(f);
    WordBytes(0, f.command);
    WordBytes(0, f.tag);
    assert b[1..5] == Be32(f.command) && b[6..10] == Be32(f.tag);
  }

  /** A frame on the wire: the descriptor, announcing the length of the body, then the body. Requests go to the
      control channel, number 2^32 - 1. */
  lemma {:induction false} WireBytes(p: Packet)
    requires Sendable(p.frame)
    ensures Wire(p)[..20] == Descriptor(10 + |p.frame.payload|, p.routing) && Wire(p)[20..] == Body(p.frame)
    ensures CONTROL.channel == 0xFFFF_FFFF && CONTROL.offset == 0 && CONTROL.flags == 0
  {
    hide Descriptor, Body;
  }

  lemma {:induction false} OffsetBytes(v: u64)
    ensures forall i :: 0 <= i < 8 ==> Be64(v)[i] == v / Pow256(7 - i) % 256
  {
    forall i | 0 <= i < 8 ensures Be64(v)[i] == v / Pow256(7 - i) % 256 {
      BigEndianAt(v, 8, i);
    }
  }

  /** The body of AUTH: protocol version 35 and, if there is one, the cookie of 256 bytes. */
  lemma {:induction false} AuthBytes(cookie: Option<seq<byte>>)
    requires GoodCookie(cookie)
    ensures AuthBody(cookie)
         == ['L' as int, 0, 0, 0, 35] + if cookie.Some? then ['x' as int, 0, 0, 1, 0] + cookie.value else []
  {
    hide Be32;
    WordBytes(0, 35);
    WordBytes(0, 256);
  }

  /** The numbers on the wire; ERROR and TIMEOUT are the replies that fail a request. */
  lemma {:induction false} CommandNumbers(f: Frame)
    ensures Fails(f) <==> f.command == 0 || f.command == 1
    ensures REPLY == 2 && AUTH == 8 && SET_CLIENT_NAME == 9
  {
  }
}
