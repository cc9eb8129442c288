/** The RTP fixed header and packet framing (section 5.1 of RFC 3550). */
module Rtp {
  import opened Common
  import opened Bytes

  const RTP_VERSION := 2
  const RTP_HEADER_LEN := 12

  datatype Header = Header(
    version: byte, padding: bool, extension: bool, csrcCount: byte, marker: bool, payloadType: byte,
    sn: u16, timestamp: u32, ssrc: u32)

  datatype Packet = Packet(header: Header, payload: seq<byte>)

  datatype NetworkError = Truncated(got: nat) | BadVersion(version: byte) | ShorterThanHeader(got: nat, claimed: nat)

  function Bit(b: bool): byte { if b then 1 else 0 }

  /** A header for a fresh packet: flags clear, no CSRC list, payload type masked to 7 bits. */
  function NewHeader(payloadType: byte, sn: u16, timestamp: u32, ssrc: u32): Header {
    Header(RTP_VERSION, false, false, 0, false, payloadType % 128, sn, timestamp, ssrc)
  }

  function EncodeHeader(h: Header): (b: seq<byte>)
    ensures |b| == RTP_HEADER_LEN
  {
    [RTP_VERSION * 64 + Bit(h.padding) * 32 + Bit(h.extension) * 16 + h.csrcCount % 16,
     Bit(h.marker) * 128 + h.payloadType % 128]
    + Be16(h.sn) + Be32(h.timestamp) + Be32(h.ssrc)
  }

  function ParseHeader(buf: seq<byte>): (r: Result<Header, NetworkError>) {
    if |buf| < RTP_HEADER_LEN then Err(Truncated(|buf|))
    else
      var version := buf[0] / 64;
      if version != RTP_VERSION then Err(BadVersion(version))
      else Ok(Header(version, buf[0] / 32 % 2 != 0, buf[0] / 16 % 2 != 0, buf[0] % 16,
                     buf[1] / 128 != 0, buf[1] % 128,
                     FromBe16(buf[2..4]), FromBe32(buf[4..8]), FromBe32(buf[8..12])))
  }

  /** Header length on the wire, with the CSRC list the count announces. */
  function EncodedLen(h: Header): nat { RTP_HEADER_LEN + 4 * h.csrcCount }

  function EncodePacket(p: Packet): seq<byte> { EncodeHeader(p.header) + p.payload }

  function ParsePacket(buf: seq<byte>): Result<Packet, NetworkError> {
    match ParseHeader(buf)
    case Err(e) => Err(e)
    case Ok(h) =>
      if |buf| < EncodedLen(h) then Err(ShorterThanHeader(|buf|, EncodedLen(h)))
      else Ok(Packet(h, buf[EncodedLen(h)..]))
  }

  /** The fields fit the bits the wire gives them. */
  predicate Encodable(h: Header) {
    h.version == RTP_VERSION && h.csrcCount < 16 && h.payloadType < 128
  }

  lemma {:induction false} FlagByte(p: bool, x: bool, cc: byte)
    requires cc < 16
    ensures var b := 128 + Bit(p) * 32 + Bit(x) * 16 + cc;
            b / 64 == 2 && (b / 32 % 2 != 0) == p && (b / 16 % 2 != 0) == x && b % 16 == cc
  {
  }

  /** Parsing what the encoder wrote gives the header back, whatever bytes follow. */
  lemma {:induction false} HeaderRoundTrip(h: Header, rest: seq<byte>)
    requires Encodable(h)
    ensures ParseHeader(EncodeHeader(h) + rest) == Ok(h)
  {
    var b := EncodeHeader(h) + rest;
    FlagByte(h.padding, h.extension, h.csrcCount);
    assert b[2..4] == Be16(h.sn);
    assert b[4..8] == Be32(h.timestamp);
    assert b[8..12] == Be32(h.ssrc);
  }

  /** Encoding what was parsed gives the first twelve bytes back. */
  lemma {:induction false} HeaderReencode(buf: seq<byte>)
    requires ParseHeader(buf).Ok?
    ensures Encodable(ParseHeader(buf).value) && EncodeHeader(ParseHeader(buf).value) == buf[..RTP_HEADER_LEN]
  {
    var h := ParseHeader(buf).value;
    var b := buf[0];
    assert b == 64 * (b / 64) + 32 * (b / 32 % 2) + 16 * (b / 16 % 2) + b % 16;
    assert buf[..12] == [buf[0], buf[1]] + buf[2..4] + buf[4..8] + buf[8..12];
  }

  /** A packet survives encode and parse exactly when its header is encodable and announces no
      CSRC list: the encoder writes the count but never the list, so with a count of `c` the
      parser eats `4 * c` bytes of the payload or fails. */
  lemma {:induction false} PacketRoundTrip(p: Packet)
    ensures ParsePacket(EncodePacket(p)) == Ok(p) <==> Encodable(p.header) && p.header.csrcCount == 0
  {
    var h := p.header;
    var sent := h.(version := RTP_VERSION, csrcCount := h.csrcCount % 16, payloadType := h.payloadType % 128);
    assert EncodeHeader(sent) == EncodeHeader(h);
    HeaderRoundTrip(sent, p.payload);
    assert EncodePacket(p)[RTP_HEADER_LEN..] == p.payload;
  }

  /** Where the header keeps what (section 5.1 of RFC 3550): version, padding, extension and CSRC count
      from the top bit of the first byte down, marker and payload type in the second, then number,
      timestamp and source, most significant byte first. */
  lemma {:induction false} HeaderLayout(h: Header)
    ensures var b := EncodeHeader(h);
            && b[0] / 64 == 2 && (b[0] / 32 % 2 == 1 <==> h.padding) && (b[0] / 16 % 2 == 1 <==> h.extension)
            && b[0] % 16 == h.csrcCount % 16
            && (b[1] / 128 == 1 <==> h.marker) && b[1] % 128 == h.payloadType % 128
            && b[2] == h.sn / 256 && b[3] == h.sn % 256
            && b[4] == h.timestamp / 0x100_0000 && b[5] == h.timestamp / 0x1_0000 % 256
            && b[6] == h.timestamp / 0x100 % 256 && b[7] == h.timestamp % 256
            && b[8] == h.ssrc / 0x100_0000 && b[9] == h.ssrc / 0x1_0000 % 256
            && b[10] == h.ssrc / 0x100 % 256 && b[11] == h.ssrc % 256
  {
    FlagByte(h.padding, h.extension, h.csrcCount % 16);
    WordBytes(h.sn, h.timestamp);
    WordBytes(h.sn, h.ssrc);
    hide Be16, Be32;
  }

  /** What is refused, and why: too short for the fixed header, another version, or too short for the CSRC list
      it announces. Everything else parses, and the payload is what follows that list. */
  lemma {:induction false} RefusedExactlyWhen(buf: seq<byte>)
    ensures |buf| < 12 ==> ParsePacket(buf) == Err(Truncated(|buf|))
    ensures |buf| >= 12 && buf[0] / 64 != 2 ==> ParsePacket(buf) == Err(BadVersion(buf[0] / 64))
    ensures |buf| >= 12 && buf[0] / 64 == 2 ==>
              var claimed := 12 + 4 * (buf[0] % 16);
              && (|buf| < claimed ==> ParsePacket(buf) == Err(ShorterThanHeader(|buf|, claimed)))
              && (|buf| >= claimed ==> ParsePacket(buf).Ok? && ParsePacket(buf).value.payload == buf[claimed..])
  {
  }
}
