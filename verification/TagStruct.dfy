/** PulseAudio tagstruct fields as bytes: every field starts with a tag and its end can be told from
    the bytes alone. */
module TagStruct {
  import opened Common
  import opened Bytes

  const MAX_LEN := 4 * 1024 * 1024

  const TAG_U32: byte := 76
  const TAG_U8: byte := 66
  const TAG_BOOLEAN_TRUE: byte := 49
  const TAG_BOOLEAN_FALSE: byte := 48
  const TAG_STRING: byte := 116
  const TAG_STRING_NULL: byte := 78
  const TAG_ARBITRARY: byte := 120
  const TAG_U64: byte := 82
  const TAG_PROPLIST: byte := 80
  const TAG_VOLUME: byte := 118
  const TAG_SAMPLE_SPEC: byte := 97
  const TAG_CHANNEL_MAP: byte := 109
  const TAG_CVOLUME: byte := 118

  // ----- text ---------------------------------------------------------------------------------------

  predicate Between(b: seq<byte>, i: nat, low: byte, high: byte) {
    i < |b| && low <= b[i] <= high
  }

  predicate Continues(b: seq<byte>, i: nat) { Between(b, i, 0x80, 0xBF) }

  /** Length of the UTF-8 sequence at the front of `b`, 0 if there is none (RFC 3629, section 4). */
  function CharLen(b: seq<byte>): (n: nat)
    ensures n <= |b|
  {
    if Between(b, 0, 0x00, 0x7F) then 1
    else if Between(b, 0, 0xC2, 0xDF) && Continues(b, 1) then 2
    else if && Continues(b, 2)
            && (|| (Between(b, 0, 0xE0, 0xE0) && Between(b, 1, 0xA0, 0xBF))
                || (Between(b, 0, 0xE1, 0xEC) && Continues(b, 1))
                || (Between(b, 0, 0xED, 0xED) && Between(b, 1, 0x80, 0x9F))
                || (Between(b, 0, 0xEE, 0xEF) && Continues(b, 1))) then 3
    else if && Continues(b, 2) && Continues(b, 3)
            && (|| (Between(b, 0, 0xF0, 0xF0) && Between(b, 1, 0x90, 0xBF))
                || (Between(b, 0, 0xF1, 0xF3) && Continues(b, 1))
                || (Between(b, 0, 0xF4, 0xF4) && Between(b, 1, 0x80, 0x8F))) then 4
    else 0
  }

  predicate Utf8(b: seq<byte>) {
    b == [] || (CharLen(b) > 0 && Utf8(b[CharLen(b)..]))
  }

  /** Text as the program holds it: UTF-8 bytes, NUL allowed. */
  type Text = b: seq<byte> | Utf8(b) witness []

  /** Key and value pairs of a proplist. */
  type Pairs = seq<(Text, Text)>

  predicate NoNul(b: seq<byte>) { forall i :: 0 <= i < |b| ==> b[i] != 0 }

  /** Text cut before a NUL is text. */
  lemma {:induction false} CutAtNul(s: seq<byte>, i: nat)
    requires Utf8(s) && i < |s| && s[i] == 0
    ensures Utf8(s[..i])
  {
    if i == 0 {
    } else {
      var n := CharLen(s);
      assert i >= n && CharLen(s[..i]) == n;
      CutAtNul(s[n..], i - n);
      assert s[n..][..i - n] == s[..i][n..];
    }
  }

  // ----- fields -----------------------------------------------------------------------------------------

  datatype Field =
    | U32(word: u32)
    | U8(octet: byte)
    | Boolean(flag: bool)
    | Str(text: Text)
    | NullStr
    | Blob(data: seq<byte>)
    | U64(long: u64)
    | Props(pairs: Pairs)
    | Spec(rate: u32, channels: byte, format: byte)
    | Positions(positions: seq<byte>)
    | Volume(level: u32)
    | CVolume(levels: seq<u32>)

  /** Which reader call a field needs; one call reads both strings and their absence. */
  datatype Kind = KU32 | KU8 | KBoolean | KString | KBlob | KU64 | KProps | KSpec | KPositions | KVolume | KCVolume

  function KindOf(f: Field): Kind {
    match f
    case U32(_) => KU32
    case U8(_) => KU8
    case Boolean(_) => KBoolean
    case Str(_) => KString
    case NullStr => KString
    case Blob(_) => KBlob
    case U64(_) => KU64
    case Props(_) => KProps
    case Spec(_, _, _) => KSpec
    case Positions(_) => KPositions
    case Volume(_) => KVolume
    case CVolume(_) => KCVolume
  }

  /** Strings without NUL, lengths within the limits. */
  predicate ReadableText(s: Text) { NoNul(s) && |s| <= MAX_LEN }

  predicate ReadablePairs(pairs: Pairs) {
    forall i :: 0 <= i < |pairs| ==> ReadableText(pairs[i].0) && |pairs[i].1| <= MAX_LEN
  }

  predicate Readable(f: Field) {
    match f
    case Str(s) => ReadableText(s)
    case Blob(data) => |data| <= MAX_LEN
    case Props(pairs) => ReadablePairs(pairs)
    case Positions(ps) => |ps| < 256
    case CVolume(vs) => |vs| < 256
    case _ => true
  }

  /** What the writer takes without panicking: counts fit their prefixes. */
  predicate Writable(f: Field) {
    match f
    case Blob(data) => |data| < 0x1_0000_0000
    case Props(pairs) => forall i :: 0 <= i < |pairs| ==> |pairs[i].1| < 0x1_0000_0000
    case Positions(ps) => |ps| < 256
    case CVolume(vs) => |vs| < 256
    case _ => true
  }

  function EncU32(v: u32): (b: seq<byte>)
    ensures |b| == 5
  {
    [TAG_U32] + Be32(v)
  }

  function EncStr(s: Text): seq<byte> { [TAG_STRING] + s + [0] }

  function EncBlob(data: seq<byte>): seq<byte>
    requires |data| < 0x1_0000_0000
  {
    [TAG_ARBITRARY] + Be32(|data|) + data
  }

  function EncPair(key: Text, value: Text): seq<byte>
    requires |value| < 0x1_0000_0000
  {
    EncStr(key) + EncU32(|value|) + EncBlob(value)
  }

  /** Key and value pairs up to and including the terminating NULL string. */
  function EncPairs(pairs: Pairs): seq<byte>
    requires forall i :: 0 <= i < |pairs| ==> |pairs[i].1| < 0x1_0000_0000
  {
    if pairs == [] then [TAG_STRING_NULL] else EncPair(pairs[0].0, pairs[0].1) + EncPairs(pairs[1..])
  }

  function RawWords(vs: seq<u32>): (b: seq<byte>)
    ensures |b| == 4 * |vs|
  {
    if vs == [] then [] else Be32(vs[0]) + RawWords(vs[1..])
  }

  function Encode(f: Field): (b: seq<byte>)
    requires Writable(f)
    ensures 0 < |b|
  {
    match f
    case U32(v) => EncU32(v)
    case U8(v) => [TAG_U8, v]
    case Boolean(b) => [if b then TAG_BOOLEAN_TRUE else TAG_BOOLEAN_FALSE]
    case Str(s) => EncStr(s)
    case NullStr => [TAG_STRING_NULL]
    case Blob(data) => EncBlob(data)
    case U64(v) => [TAG_U64] + Be64(v)
    case Props(pairs) => [TAG_PROPLIST] + EncPairs(pairs)
    case Spec(rate, channels, format) => [TAG_SAMPLE_SPEC, format, channels] + Be32(rate)
    case Positions(ps) => [TAG_CHANNEL_MAP, |ps|] + ps
    case Volume(v) => [TAG_VOLUME] + Be32(v)
    case CVolume(vs) => [TAG_CVOLUME, |vs|] + RawWords(vs)
  }

  lemma {:induction false} ReadableIsWritable(f: Field)
    requires Readable(f)
    ensures Writable(f)
  {
  }

  // ----- bytes at a position -----------------------------------------------------------------------------

  /** `enc` stands in `buf` at `p`. */
  predicate At(buf: seq<byte>, p: nat, enc: seq<byte>) {
    p + |enc| <= |buf| && buf[p..p + |enc|] == enc
  }

  lemma {:induction false} AtSplit(buf: seq<byte>, p: nat, a: seq<byte>, b: seq<byte>)
    ensures At(buf, p, a + b) <==> At(buf, p, a) && At(buf, p + |a|, b)
  {
    var ab := a + b;
    if At(buf, p, ab) {
      assert buf[p..p + |a|] == buf[p..p + |ab|][..|a|] == a;
      assert buf[p + |a|..p + |a| + |b|] == buf[p..p + |ab|][|a|..] == b;
    }
    if At(buf, p, a) && At(buf, p + |a|, b) {
      assert buf[p..p + |ab|] == buf[p..p + |a|] + buf[p + |a|..p + |a| + |b|];
    }
  }

  lemma {:induction false} AtFirst(buf: seq<byte>, p: nat, enc: seq<byte>)
    requires At(buf, p, enc) && enc != []
    ensures p < |buf| && buf[p] == enc[0]
  {
    assert buf[p..p + |enc|][0] == enc[0];
  }

  /** Two encodings of the same length at the same place are equal. */
  lemma {:induction false} AtSame(buf: seq<byte>, p: nat, a: seq<byte>, b: seq<byte>)
    requires At(buf, p, a) && At(buf, p, b) && |a| == |b|
    ensures a == b
  {
  }

  lemma {:induction false} AtIndex(buf: seq<byte>, p: nat, enc: seq<byte>, i: nat)
    requires At(buf, p, enc) && i < |enc|
    ensures p + i < |buf| && buf[p + i] == enc[i]
  {
    assert buf[p..p + |enc|][i] == enc[i];
  }

  // ----- unique reading -------------------------------------------------------------------------------------

  /** Two NUL-free texts with their terminators at the same place are equal. */
  lemma {:induction false} TextUnique(buf: seq<byte>, p: nat, s: seq<byte>, t: seq<byte>)
    requires NoNul(s) && NoNul(t) && At(buf, p, s + [0]) && At(buf, p, t + [0])
    ensures s == t
  {
    if |s| < |t| {
      AtIndex(buf, p, s + [0], |s|);
      AtIndex(buf, p, t + [0], |s|);
    } else if |t| < |s| {
      AtIndex(buf, p, s + [0], |t|);
      AtIndex(buf, p, t + [0], |t|);
    } else {
      AtSame(buf, p, s + [0], t + [0]);
      assert s == (s + [0])[..|s|] == (t + [0])[..|s|];
    }
  }

  lemma {:induction false} StrUnique(buf: seq<byte>, p: nat, s: Text, t: Text)
    requires NoNul(s) && NoNul(t) && At(buf, p, EncStr(s)) && At(buf, p, EncStr(t))
    ensures s == t
  {
    assert EncStr(s) == [TAG_STRING] + (s + [0]) && EncStr(t) == [TAG_STRING] + (t + [0]);
    AtSplit(buf, p, [TAG_STRING], s + [0]);
    AtSplit(buf, p, [TAG_STRING], t + [0]);
    TextUnique(buf, p + 1, s, t);
  }

  lemma {:induction false} WordUnique(buf: seq<byte>, p: nat, v: u32, w: u32)
    requires At(buf, p, Be32(v)) && At(buf, p, Be32(w))
    ensures v == w
  {
    hide BigEndian, FromBigEndian;
    AtSame(buf, p, Be32(v), Be32(w));
  }

  /** Length-prefixed data. */
  lemma {:induction false} BlobUnique(buf: seq<byte>, p: nat, a: seq<byte>, b: seq<byte>)
    requires |a| < 0x1_0000_0000 && |b| < 0x1_0000_0000 && At(buf, p, EncBlob(a)) && At(buf, p, EncBlob(b))
    ensures a == b
  {
    hide Be32;
    BlobParts(buf, p, a);
    BlobParts(buf, p, b);
    WordUnique(buf, p + 1, |a|, |b|);
    AtSame(buf, p + 5, a, b);
  }

  lemma {:induction false} BlobParts(buf: seq<byte>, p: nat, data: seq<byte>)
    requires |data| < 0x1_0000_0000
    ensures |EncBlob(data)| == 5 + |data|
    ensures At(buf, p, EncBlob(data)) <==>
              At(buf, p, [TAG_ARBITRARY]) && At(buf, p + 1, Be32(|data|)) && At(buf, p + 5, data)
  {
    hide At;
    var word := Be32(|data|);
    assert EncBlob(data) == [TAG_ARBITRARY] + (word + data);
    AtSplit(buf, p, [TAG_ARBITRARY], word + data);
    AtSplit(buf, p + 1, word, data);
  }

  /** Where the pieces of a pair stand. */
  lemma {:induction false} PairParts(buf: seq<byte>, p: nat, key: Text, value: Text, rest: seq<byte>)
    requires |value| < 0x1_0000_0000
    ensures |EncStr(key)| == |key| + 2 && |EncPair(key, value)| == |key| + |value| + 12
    ensures At(buf, p, EncPair(key, value) + rest) <==>
              && At(buf, p, EncStr(key)) && At(buf, p + |key| + 2, EncU32(|value|))
              && At(buf, p + |key| + 7, EncBlob(value)) && At(buf, p + |key| + |value| + 12, rest)
  {
    hide At, EncU32, Utf8;
    var k, l, b := EncStr(key), EncU32(|value|), EncBlob(value);
    assert |b| == |value| + 5;
    assert EncPair(key, value) + rest == k + (l + (b + rest));
    hide EncStr, EncBlob, EncPair;
    AtSplit(buf, p, k, l + (b + rest));
    AtSplit(buf, p + |key| + 2, l, b + rest);
    AtSplit(buf, p + |key| + 7, b, rest);
  }

  lemma {:induction false} PairsUnique(buf: seq<byte>, p: nat, ps: Pairs, qs: Pairs)
    requires ReadablePairs(ps) && ReadablePairs(qs) && At(buf, p, EncPairs(ps)) && At(buf, p, EncPairs(qs))
    ensures ps == qs
    decreases |ps|
  {
    hide At, EncPair, EncStr, EncU32, EncBlob, Utf8;
    PairsFirst(buf, p, ps);
    PairsFirst(buf, p, qs);
    if ps == [] || qs == [] {
    } else {
      PairParts(buf, p, ps[0].0, ps[0].1, EncPairs(ps[1..]));
      PairParts(buf, p, qs[0].0, qs[0].1, EncPairs(qs[1..]));
      StrUnique(buf, p, ps[0].0, qs[0].0);
      BlobUnique(buf, p + |ps[0].0| + 7, ps[0].1, qs[0].1);
      PairsUnique(buf, p + |ps[0].0| + |ps[0].1| + 12, ps[1..], qs[1..]);
      assert ps == [ps[0]] + ps[1..] && qs == [qs[0]] + qs[1..];
    }
  }

  lemma {:induction false} PairsFirst(buf: seq<byte>, p: nat, ps: Pairs)
    requires ReadablePairs(ps) && At(buf, p, EncPairs(ps))
    ensures p < |buf| && buf[p] == if ps == [] then TAG_STRING_NULL else TAG_STRING
  {
    AtFirst(buf, p, EncPairs(ps));
  }

  lemma {:induction false} RawWordsUnique(vs: seq<u32>, ws: seq<u32>)
    requires |vs| == |ws| && RawWords(vs) == RawWords(ws)
    ensures vs == ws
  {
    hide BigEndian, FromBigEndian;
    if vs == [] {
    } else {
      assert Be32(vs[0]) == RawWords(vs)[..4] && Be32(ws[0]) == RawWords(ws)[..4];
      assert RawWords(vs[1..]) == RawWords(vs)[4..] && RawWords(ws[1..]) == RawWords(ws)[4..];
      RawWordsUnique(vs[1..], ws[1..]);
      assert vs == [vs[0]] + vs[1..] && ws == [ws[0]] + ws[1..];
    }
  }

  lemma {:induction false} CountedUnique(buf: seq<byte>, p: nat, tag: byte, n: byte, m: byte, a: seq<byte>,
                                         b: seq<byte>)
    requires At(buf, p, [tag, n] + a) && At(buf, p, [tag, m] + b)
    ensures n == m && (|a| == |b| ==> a == b)
  {
    AtIndex(buf, p, [tag, n] + a, 1);
    AtIndex(buf, p, [tag, m] + b, 1);
    if |a| == |b| {
      AtSplit(buf, p, [tag, n], a);
      AtSplit(buf, p, [tag, m], b);
      AtSame(buf, p + 2, a, b);
    }
  }

  lemma {:induction false} WordsEqual(v: u32, w: u32)
    requires Be32(v) == Be32(w)
    ensures v == w
  {
  }

  lemma {:induction false} LongsEqual(v: u64, w: u64)
    requires Be64(v) == Be64(w)
    ensures v == w
  {
  }

  /** No two readable fields of one kind can stand at the same place: whatever follows, the bytes
      determine the field and where it ends. */
  lemma {:induction false} FieldUnique(buf: seq<byte>, p: nat, f: Field, g: Field)
    requires Readable(f) && Readable(g) && Writable(f) && Writable(g) && KindOf(f) == KindOf(g)
    requires At(buf, p, Encode(f)) && At(buf, p, Encode(g))
    ensures f == g
  {
    hide At, Be32, Be64, EncPairs, Utf8, ReadablePairs, RawWords, EncU32;
    AtFirst(buf, p, Encode(f));
    AtFirst(buf, p, Encode(g));
    match f {
      case Str(s) => if g.Str? { hide EncStr; StrUnique(buf, p, s, g.text); }
      case Blob(data) => hide EncBlob; BlobUnique(buf, p, data, g.data);
      case Props(pairs) =>
        AtSplit(buf, p, [TAG_PROPLIST], EncPairs(pairs));
        AtSplit(buf, p, [TAG_PROPLIST], EncPairs(g.pairs));
        PairsUnique(buf, p + 1, pairs, g.pairs);
      case Positions(ps) => CountedUnique(buf, p, TAG_CHANNEL_MAP, |ps|, |g.positions|, ps, g.positions);
      case CVolume(vs) =>
        CountedUnique(buf, p, TAG_CVOLUME, |vs|, |g.levels|, RawWords(vs), RawWords(g.levels));
        RawWordsUnique(vs, g.levels);
      case _ => FixedUnique(buf, p, f, g);
    }
  }

  lemma {:induction false} FixedUnique(buf: seq<byte>, p: nat, f: Field, g: Field)
    requires f.U32? || f.U8? || f.Boolean? || f.U64? || f.Spec? || f.Volume? || f.NullStr?
    requires Readable(g) && Writable(g) && KindOf(f) == KindOf(g)
    requires At(buf, p, Encode(f)) && At(buf, p, Encode(g))
    ensures f == g
  {
    hide At, BigEndian, FromBigEndian, Utf8;
    AtFirst(buf, p, Encode(f));
    AtFirst(buf, p, Encode(g));
    if !f.NullStr? {
      AtSame(buf, p, Encode(f), Encode(g));
      match f {
        case U32(v) => assert Be32(v) == Encode(f)[1..]; assert Be32(g.word) == Encode(g)[1..]; WordsEqual(v, g.word);
        case U8(v) => assert v == Encode(f)[1];
        case U64(v) => assert Be64(v) == Encode(f)[1..]; assert Be64(g.long) == Encode(g)[1..]; LongsEqual(v, g.long);
        case Volume(v) =>
          assert Be32(v) == Encode(f)[1..];
          assert Be32(g.level) == Encode(g)[1..];
          WordsEqual(v, g.level);
        case Spec(r, c, m) =>
          assert Be32(r) == Encode(f)[3..];
          assert Be32(g.rate) == Encode(g)[3..];
          WordsEqual(r, g.rate);
          assert m == Encode(f)[1] && c == Encode(f)[2];
        case _ =>
      }
    }
  }

  // ----- sequences of fields ---------------------------------------------------------------------------------

  predicate AllReadable(fs: seq<Field>) { forall i :: 0 <= i < |fs| ==> Readable(fs[i]) }

  function EncodeAll(fs: seq<Field>): seq<byte>
    requires AllReadable(fs)
  {
    if fs == [] then []
    else
      ReadableIsWritable(fs[0]);
      Encode(fs[0]) + EncodeAll(fs[1..])
  }

  function Kinds(fs: seq<Field>): (ks: seq<Kind>)
    ensures |ks| == |fs| && forall i :: 0 <= i < |fs| ==> ks[i] == KindOf(fs[i])
  {
    seq(|fs|, i requires 0 <= i < |fs| => KindOf(fs[i]))
  }

  /** The same for whole sequences: with the sequence of reader calls fixed, the bytes determine all
      values and the place where reading stops. */
  lemma {:induction false} FieldsUnique(buf: seq<byte>, p: nat, fs: seq<Field>, gs: seq<Field>)
    requires AllReadable(fs) && AllReadable(gs) && Kinds(fs) == Kinds(gs)
    requires At(buf, p, EncodeAll(fs)) && At(buf, p, EncodeAll(gs))
    ensures fs == gs
    decreases |fs|
  {
    hide At, Encode, Readable, Writable;
    if fs == [] {
    } else {
      ReadableIsWritable(fs[0]);
      ReadableIsWritable(gs[0]);
      assert Kinds(fs)[0] == Kinds(gs)[0];
      AtSplit(buf, p, Encode(fs[0]), EncodeAll(fs[1..]));
      AtSplit(buf, p, Encode(gs[0]), EncodeAll(gs[1..]));
      FieldUnique(buf, p, fs[0], gs[0]);
      assert Kinds(fs[1..]) == Kinds(fs)[1..] && Kinds(gs[1..]) == Kinds(gs)[1..];
      FieldsUnique(buf, p + |Encode(fs[0])|, fs[1..], gs[1..]);
      assert fs == [fs[0]] + fs[1..] && gs == [gs[0]] + gs[1..];
    }
  }

  /** A string with a NUL inside is written, but what stands there for the reader is the part before
      the NUL, and nothing else. */
  lemma {:induction false} EmbeddedNul(s: Text, rest: seq<byte>, i: nat)
    requires i < |s| && s[i] == 0 && NoNul(s[..i])
    ensures Utf8(s[..i]) && At(EncStr(s) + rest, 0, EncStr(s[..i])) && |EncStr(s[..i])| < |EncStr(s)|
    ensures forall t: Text :: NoNul(t) && At(EncStr(s) + rest, 0, EncStr(t)) ==> t == s[..i]
  {
    CutAtNul(s, i);
    var buf, cut: Text := EncStr(s) + rest, s[..i];
    assert buf[0..0 + |EncStr(cut)|] == EncStr(cut);
    forall t: Text | NoNul(t) && At(buf, 0, EncStr(t)) ensures t == cut {
      StrUnique(buf, 0, t, cut);
    }
  }

  // ----- the bytes of each field ----------------------------------------------------------------------------

  /** Every field with a fixed layout, byte by byte; 'L', 'B', '1', '0', 't', 'N', 'x', 'R', 'a', 'm', 'v' and
      'P' are the type tags. */
  lemma {:induction false} FieldBytes(w: u32, o: byte, format: byte, s: Text)
    ensures Encode(U32(w)) == ['L' as int, w / 0x100_0000, w / 0x1_0000 % 256, w / 0x100 % 256, w % 256]
    ensures Encode(Volume(w)) == ['v' as int, w / 0x100_0000, w / 0x1_0000 % 256, w / 0x100 % 256, w % 256]
    ensures Encode(Spec(w, o, format))
         == ['a' as int, format, o, w / 0x100_0000, w / 0x1_0000 % 256, w / 0x100 % 256, w % 256]
    ensures Encode(U8(o)) == ['B' as int, o]
    ensures Encode(Boolean(true)) == ['1' as int] && Encode(Boolean(false)) == ['0' as int]
    ensures Encode(NullStr) == ['N' as int] && Encode(Str(s)) == ['t' as int] + s + [0]
  {
    WordBytes(0, w);
    hide Be32;
  }

  lemma {:induction false} LongBytes(v: u64, i: nat)
    requires i < 8
    ensures var b := Encode(U64(v)); |b| == 9 && b[0] == 'R' as int && b[1 + i] == v / Pow256(7 - i) % 256
  {
    BigEndianAt(v, 8, i);
    hide Pow256, BigEndian;
  }

  /** The fields that carry a count or a length. */
  lemma {:induction false} CountedBytes(data: seq<byte>, positions: seq<byte>, levels: seq<u32>, i: nat)
    requires |data| < 0x1_0000_0000 && |positions| < 256 && i < |levels| < 256
    ensures var n, b := |data|, Encode(Blob(data));
            && b[0] == 'x' as int && b[5..] == data
            && b[1..5] == [n / 0x100_0000, n / 0x1_0000 % 256, n / 0x100 % 256, n % 256]
    ensures Encode(Positions(positions)) == ['m' as int, |positions|] + positions
    ensures var b, w := Encode(CVolume(levels)), levels[i];
            && |b| == 2 + 4 * |levels| && b[0] == 'v' as int && b[1] == |levels|
            && b[2 + 4 * i..6 + 4 * i] == [w / 0x100_0000, w / 0x1_0000 % 256, w / 0x100 % 256, w % 256]
  {
    WordBytes(0, |data|);
    WordBytes(0, levels[i]);
    hide Be32;
    RawWordAt(levels, i);
    hide RawWords;
    var b := Encode(CVolume(levels));
    assert b[2 + 4 * i..6 + 4 * i] == RawWords(levels)[4 * i..4 * i + 4];
  }

  lemma {:induction false} RawWordAt(vs: seq<u32>, i: nat)
    requires i < |vs|
    ensures RawWords(vs)[4 * i..4 * i + 4] == Be32(vs[i])
  {
    hide Be32;
    if i == 0 {
    } else {
      RawWordAt(vs[1..], i - 1);
      assert RawWords(vs)[4 * i..4 * i + 4] == RawWords(vs[1..])[4 * (i - 1)..4 * (i - 1) + 4];
    }
  }

  /** A pair of a proplist: the key as a string, the value's length as a word and once more in its blob. */
  lemma {:induction false} PairBytes(key: Text, value: Text)
    requires |value| < 0x1_0000_0000
    ensures EncPair(key, value) == Encode(Str(key)) + Encode(U32(|value|)) + Encode(Blob(value))
    ensures Encode(Props([])) == ['P' as int, 'N' as int]
    ensures Encode(Props([(key, value)])) == ['P' as int] + EncPair(key, value) + ['N' as int]
  {
    PairIs(key, value);
    hide EncPair;
    var pairs: Pairs := [(key, value)];
    assert pairs[1..] == [];
    assert EncPairs(pairs) == EncPair(key, value) + EncPairs([]);
  }

  lemma {:induction false} PairIs(key: Text, value: Text)
    requires |value| < 0x1_0000_0000
    ensures EncPair(key, value) == Encode(Str(key)) + Encode(U32(|value|)) + Encode(Blob(value))
  {
  }

  // ----- UTF-8 by code points ---------------------------------------------------------------------------------

  /** Unicode scalar values: all code points but the surrogates. */
  predicate Scalar(c: nat) { c < 0xD800 || 0xE000 <= c <= 0x10FFFF }

  /** The table of section 3 of RFC 3629. */
  function EncodeScalar(c: nat): (b: seq<byte>)
    requires Scalar(c)
    ensures 1 <= |b| <= 4
  {
    if c < 0x80 then [c]
    else if c < 0x800 then [0xC0 + c / 64, 0x80 + c % 64]
    else if c < 0x1_0000 then [0xE0 + c / 4096, 0x80 + c / 64 % 64, 0x80 + c % 64]
    else [0xF0 + c / 0x4_0000, 0x80 + c / 4096 % 64, 0x80 + c / 64 % 64, 0x80 + c % 64]
  }

  ghost predicate AllScalar(cs: seq<nat>) { forall i :: 0 <= i < |cs| ==> Scalar(cs[i]) }

  function EncodeScalars(cs: seq<nat>): seq<byte>
    requires AllScalar(cs)
  {
    if cs == [] then [] else EncodeScalar(cs[0]) + EncodeScalars(cs[1..])
  }

  lemma {:induction false} ScalarIsAccepted(c: nat, rest: seq<byte>)
    requires Scalar(c)
    ensures CharLen(EncodeScalar(c) + rest) == |EncodeScalar(c)|
  {
    var b := EncodeScalar(c) + rest;
    assert forall i :: 0 <= i < |EncodeScalar(c)| ==> b[i] == EncodeScalar(c)[i];
  }

  lemma {:induction false} AcceptedIsScalar(b: seq<byte>) returns (c: nat)
    requires CharLen(b) > 0
    ensures Scalar(c) && EncodeScalar(c) == b[..CharLen(b)]
  {
    var n := CharLen(b);
    if n == 1 {
      c := b[0];
    } else if n == 2 {
      c := TwoByteScalar(b[0], b[1]);
    } else if n == 3 {
      c := ThreeByteScalar(b[0], b[1], b[2]);
    } else {
      c := FourByteScalar(b[0], b[1], b[2], b[3]);
    }
  }

  lemma {:induction false} TwoByteScalar(x: byte, y: byte) returns (c: nat)
    requires 0xC2 <= x <= 0xDF && 0x80 <= y <= 0xBF
    ensures Scalar(c) && EncodeScalar(c) == [x, y]
  {
    c := 64 * (x as int - 0xC0) + (y - 0x80);
  }

  lemma {:induction false} ThreeByteScalar(x: byte, y: byte, z: byte) returns (c: nat)
    requires 0xE0 <= x <= 0xEF && 0x80 <= y <= 0xBF && 0x80 <= z <= 0xBF
    requires (x == 0xE0 ==> 0xA0 <= y) && (x == 0xED ==> y <= 0x9F)
    ensures Scalar(c) && EncodeScalar(c) == [x, y, z]
  {
    var high: nat := 64 * (x as int - 0xE0) + (y - 0x80);
    c := 64 * high + (z - 0x80);
    assert c / 64 == high && c % 64 == z - 0x80 && high / 64 == x - 0xE0 && high % 64 == y - 0x80;
    assert c / 4096 == high / 64;
  }

  lemma {:induction false} FourByteScalar(x: byte, y: byte, z: byte, u: byte) returns (c: nat)
    requires 0xF0 <= x <= 0xF4 && 0x80 <= y <= 0xBF && 0x80 <= z <= 0xBF && 0x80 <= u <= 0xBF
    requires (x == 0xF0 ==> 0x90 <= y) && (x == 0xF4 ==> y <= 0x8F)
    ensures Scalar(c) && EncodeScalar(c) == [x, y, z, u]
  {
    var top: nat := 64 * (x as int - 0xF0) + (y - 0x80);
    var high: nat := 64 * top + (z - 0x80);
    c := 64 * high + (u - 0x80);
    assert c / 64 == high && c % 64 == u - 0x80 && high / 64 == top && high % 64 == z - 0x80;
    assert top / 64 == x - 0xF0 && top % 64 == y - 0x80;
    assert c / 4096 == high / 64 && c / 0x4_0000 == top / 64;
  }

  lemma {:induction false} ScalarsAreText(cs: seq<nat>)
    requires AllScalar(cs)
    ensures Utf8(EncodeScalars(cs))
  {
    hide CharLen, EncodeScalar;
    if cs == [] {
    } else {
      ScalarIsAccepted(cs[0], EncodeScalars(cs[1..]));
      ScalarsAreText(cs[1..]);
      assert (EncodeScalar(cs[0]) + EncodeScalars(cs[1..]))[|EncodeScalar(cs[0])|..] == EncodeScalars(cs[1..]);
    }
  }

  lemma {:induction false} TextIsScalars(b: seq<byte>) returns (cs: seq<nat>)
    requires Utf8(b)
    ensures AllScalar(cs) && EncodeScalars(cs) == b
    decreases |b|
  {
    hide CharLen, EncodeScalar;
    if b == [] {
      cs := [];
    } else {
      var n := CharLen(b);
      var c := AcceptedIsScalar(b);
      var rest := TextIsScalars(b[n..]);
      cs := [c] + rest;
      assert b[..n] + b[n..] == b && cs[1..] == rest;
    }
  }

  /** What passes for text is exactly what encodes a sequence of scalar values. */
  lemma {:induction false} Utf8Means(b: seq<byte>)
    ensures Utf8(b) <==> exists cs :: AllScalar(cs) && EncodeScalars(cs) == b
  {
    hide CharLen, EncodeScalar;
    if Utf8(b) {
      var cs := TextIsScalars(b);
    }
    forall cs | AllScalar(cs) && EncodeScalars(cs) == b ensures Utf8(b) {
      ScalarsAreText(cs);
    }
  }
}
