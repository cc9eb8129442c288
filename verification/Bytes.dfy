/** Big-endian integers of any width and their inverse. */
module Bytes {
  import opened Common
  import Layout

  function Pow256(n: nat): (p: nat)
    ensures 0 < p
  {
    if n == 0 then 1 else 256 * Pow256(n - 1)
  }

  lemma {:induction false} Widths()
    ensures Pow256(1) == 0x100
    ensures Pow256(2) == 0x1_0000
    ensures Pow256(3) == 0x100_0000
    ensures Pow256(4) == 0x1_0000_0000
    ensures Pow256(8) == 0x1_0000_0000_0000_0000
  {
    assert Pow256(2) == 256 * Pow256(1);
    assert Pow256(3) == 256 * Pow256(2);
    assert Pow256(4) == 256 * Pow256(3);
    assert Pow256(6) == 256 * Pow256(5) && Pow256(5) == 256 * Pow256(4);
    assert Pow256(8) == 256 * Pow256(7) && Pow256(7) == 256 * Pow256(6);
  }

  /** The low `n` bytes of `v`, most significant first. */
  function BigEndian(v: nat, n: nat): (b: seq<byte>)
    ensures |b| == n
  {
    if n == 0 then [] else BigEndian(v / 256, n - 1) + [v % 256]
  }

  function FromBigEndian(b: seq<byte>): (v: nat)
    ensures v < Pow256(|b|)
  {
    if b == [] then 0 else FromBigEndian(b[..|b| - 1]) * 256 + b[|b| - 1]
  }

  lemma {:induction false} DecodeEncode(v: nat, n: nat)
    requires v < Pow256(n)
    ensures FromBigEndian(BigEndian(v, n)) == v
  {
    if n == 0 {
    } else {
      DecodeEncode(v / 256, n - 1);
      assert BigEndian(v, n)[..n - 1] == BigEndian(v / 256, n - 1);
    }
  }

  lemma {:induction false} EncodeDecode(b: seq<byte>)
    ensures BigEndian(FromBigEndian(b), |b|) == b
  {
    if b == [] {
    } else {
      var init, last := b[..|b| - 1], b[|b| - 1];
      EncodeDecode(init);
      LastByte(FromBigEndian(init), last);
      assert b == init + [last];
    }
  }

  lemma {:induction false} LastByte(q: nat, r: byte)
    ensures (q * 256 + r) / 256 == q && (q * 256 + r) % 256 == r
  {
  }

  lemma {:induction false} QuotientOfQuotient(v: nat, p: nat)
    requires 0 < p
    ensures v / 256 / p == v / (256 * p)
  {
    var w := v / 256;
    var q, r := w / p, w % p;
    assert w == p * q + r;
    assert v == 256 * w + v % 256;
    assert 256 * (p * q) == q * (256 * p);
    Layout.DivModOf(q, 256 * p, 256 * r + v % 256);
  }

  /** Where the bytes go: place `i` of `n` holds the digit of weight 256^(n - 1 - i). */
  lemma {:induction false} BigEndianAt(v: nat, n: nat, i: nat)
    requires i < n
    ensures BigEndian(v, n)[i] == v / Pow256(n - 1 - i) % 256
  {
    if i == n - 1 {
    } else {
      BigEndianAt(v / 256, n - 1, i);
      QuotientOfQuotient(v, Pow256(n - 2 - i));
      assert Pow256(n - 1 - i) == 256 * Pow256(n - 2 - i);
    }
  }

  /** 16- and 32-bit words byte by byte. */
  lemma {:induction false} WordBytes(h: u16, w: u32)
    ensures Be16(h) == [h / 256, h % 256]
    ensures Be32(w) == [w / 0x100_0000, w / 0x1_0000 % 256, w / 0x100 % 256, w % 256]
  {
    Widths();
    BigEndianAt(h, 2, 0);
    BigEndianAt(h, 2, 1);
    BigEndianAt(w, 4, 0);
    BigEndianAt(w, 4, 1);
    BigEndianAt(w, 4, 2);
    BigEndianAt(w, 4, 3);
  }

  /** 32-bit words, as `to_be_bytes` and `from_be_bytes` see them. */
  function Be32(v: u32): (b: seq<byte>)
    ensures |b| == 4 && FromBigEndian(b) == v
  {
    Widths();
    DecodeEncode(v, 4);
    BigEndian(v, 4)
  }

  function FromBe32(b: seq<byte>): (v: u32)
    requires |b| == 4
    ensures Be32(v) == b
  {
    Widths();
    EncodeDecode(b);
    FromBigEndian(b)
  }

  function Be16(v: u16): (b: seq<byte>)
    ensures |b| == 2 && FromBigEndian(b) == v
  {
    Widths();
    DecodeEncode(v, 2);
    BigEndian(v, 2)
  }

  function FromBe16(b: seq<byte>): (v: u16)
    requires |b| == 2
    ensures Be16(v) == b
  {
    Widths();
    EncodeDecode(b);
    FromBigEndian(b)
  }

  function Be64(v: u64): (b: seq<byte>)
    ensures |b| == 8 && FromBigEndian(b) == v
  {
    Widths();
    DecodeEncode(v, 8);
    BigEndian(v, 8)
  }

  function FromBe64(b: seq<byte>): (v: u64)
    requires |b| == 8
    ensures Be64(v) == b
  {
    Widths();
    EncodeDecode(b);
    FromBigEndian(b)
  }
}
