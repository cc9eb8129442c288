/** The tagstruct writer and reader objects. */
module TagCodec {
  import opened Common
  import opened Bytes
  import opened TagStruct

  datatype PulseError = Truncated | InvalidTag(tag: byte) | Oversized | InvalidUtf8

  class TagWriter {
    var buf: seq<byte>

    constructor ()
      ensures buf == []
    {
      buf := [];
    }

    method Word(value: u32)
      modifies this
      ensures buf == old(buf) + EncU32(value)
    {
      buf := buf + [TAG_U32];
      buf := buf + Be32(value);
    }

    method Text(value: TagStruct.Text)
      modifies this
      ensures buf == old(buf) + EncStr(value)
    {
      buf := buf + [TAG_STRING];
      buf := buf + value;
      buf := buf + [0];
    }

    method Arbitrary(data: seq<byte>)
      requires |data| < 0x1_0000_0000
      modifies this
      ensures buf == old(buf) + EncBlob(data)
    {
      buf := buf + [TAG_ARBITRARY];
      buf := buf + Be32(|data|);
      buf := buf + data;
    }

    method Proplist(pairs: Pairs)
      requires Writable(Props(pairs))
      modifies this
      ensures buf == old(buf) + Encode(Props(pairs))
    {
      hide EncU32, EncStr, EncBlob, EncPairs;
      buf := buf + [TAG_PROPLIST];
      var i := 0;
      while i < |pairs|
        invariant 0 <= i <= |pairs|
        invariant buf + EncPairs(pairs[i..]) == old(buf) + Encode(Props(pairs))
      {
        ghost var before, rest := buf, EncPairs(pairs[i + 1..]);
        var (key, value) := pairs[i];
        PairsStep(pairs, i);
        Text(key);
        Word(|value|);
        Arbitrary(value);
        assert buf + rest == before + (EncPair(key, value) + rest);
        i := i + 1;
      }
      PairsEnd();
      assert pairs[i..] == [];
      buf := buf + [TAG_STRING_NULL];
    }

    method Cvolume(volumes: seq<u32>)
      requires |volumes| < 256
      modifies this
      ensures buf == old(buf) + Encode(CVolume(volumes))
    {
      hide Be32, RawWords;
      buf := buf + [TAG_CVOLUME];
      buf := buf + [|volumes|];
      ghost var head := buf;
      var i := 0;
      WordsEnd();
      while i < |volumes|
        invariant 0 <= i <= |volumes|
        invariant buf == head + RawWords(volumes[..i])
      {
        WordsStep(volumes, i);
        buf := buf + Be32(volumes[i]);
        i := i + 1;
      }
      assert volumes[..i] == volumes;
    }

    /** Any field, through its own writer call. */
    method Write(f: Field)
      requires Writable(f)
      modifies this
      ensures buf == old(buf) + Encode(f)
    {
      hide EncPairs, RawWords, EncStr, EncBlob, EncU32, Be32, Be64;
      match f
      case U32(v) => Word(v);
      case U8(v) => buf := buf + [TAG_U8]; buf := buf + [v];
      case Boolean(b) => buf := buf + [if b then TAG_BOOLEAN_TRUE else TAG_BOOLEAN_FALSE];
      case Str(s) => Text(s);
      case NullStr => buf := buf + [TAG_STRING_NULL];
      case Blob(data) => Arbitrary(data);
      case U64(v) => buf := buf + [TAG_U64]; buf := buf + Be64(v);
      case Props(pairs) => Proplist(pairs);
      case Spec(rate, channels, format) =>
        buf := buf + [TAG_SAMPLE_SPEC];
        buf := buf + [format];
        buf := buf + [channels];
        buf := buf + Be32(rate);
      case Positions(ps) => buf := buf + [TAG_CHANNEL_MAP]; buf := buf + [|ps|]; buf := buf + ps;
      case Volume(v) => buf := buf + [TAG_VOLUME]; buf := buf + Be32(v);
      case CVolume(vs) => Cvolume(vs);
    }
  }

  lemma {:induction false} PairsStep(pairs: Pairs, i: nat)
    requires i < |pairs| && Writable(Props(pairs))
    ensures EncPairs(pairs[i..]) == EncPair(pairs[i].0, pairs[i].1) + EncPairs(pairs[i + 1..])
  {
    assert pairs[i..][0] == pairs[i] && pairs[i..][1..] == pairs[i + 1..];
  }

  lemma {:induction false} PairsEnd()
    ensures EncPairs([]) == [TAG_STRING_NULL]
  {
  }

  lemma {:induction false} WordsStep(vs: seq<u32>, i: nat)
    requires i < |vs|
    ensures RawWords(vs[..i + 1]) == RawWords(vs[..i]) + Be32(vs[i])
  {
    hide Be32;
    if i == 0 {
      assert vs[..1] == [vs[0]];
    } else {
      assert vs[..i + 1][1..] == vs[1..][..i] && vs[..i][1..] == vs[1..][..i - 1];
      WordsStep(vs[1..], i - 1);
    }
  }

  lemma {:induction false} WordsEnd()
    ensures RawWords([]) == []
  {
  }

  // ----- reading --------------------------------------------------------------------------------------------

  /** A readable field of this kind stands at `p`. */
  predicate Finds(buf: seq<byte>, p: nat, kind: Kind, f: Field) {
    Readable(f) && Writable(f) && KindOf(f) == kind && At(buf, p, Encode(f))
  }

  /** The tags a reader call takes. */
  predicate Takes(kind: Kind, tag: byte) {
    match kind
    case KU32 => tag == TAG_U32
    case KU8 => tag == TAG_U8
    case KBoolean => tag == TAG_BOOLEAN_TRUE || tag == TAG_BOOLEAN_FALSE
    case KString => tag == TAG_STRING || tag == TAG_STRING_NULL
    case KBlob => tag == TAG_ARBITRARY
    case KU64 => tag == TAG_U64
    case KProps => tag == TAG_PROPLIST
    case KSpec => tag == TAG_SAMPLE_SPEC
    case KPositions => tag == TAG_CHANNEL_MAP
    case KVolume => tag == TAG_VOLUME
    case KCVolume => tag == TAG_CVOLUME
  }

  /** At the end of the buffer the error is truncation, at a wrong tag it names that tag. */
  predicate Blames<A>(buf: seq<byte>, p: nat, kind: Kind, r: Result<A, PulseError>) {
    && (p == |buf| ==> r == Err(Truncated))
    && (p < |buf| && !Takes(kind, buf[p]) ==> r == Err(InvalidTag(buf[p])))
  }

  /** Reading a field either returns the field that stands at the cursor and moves past it, or fails
      because no such field stands there. */
  ghost predicate ReadsOne(buf: seq<byte>, p: nat, kind: Kind, r: Result<Field, PulseError>, end: nat) {
    && p <= end <= |buf| && Blames(buf, p, kind, r)
    && (r.Ok? ==> Finds(buf, p, kind, r.value) && end == p + |Encode(r.value)|)
    && (r.Err? ==> forall f :: !Finds(buf, p, kind, f))
  }

  class TagReader {
    const buf: seq<byte>
    var pos: nat

    ghost predicate Valid()
      reads this
    {
      pos <= |buf|
    }

    constructor (buf: seq<byte>)
      ensures this.buf == buf && pos == 0 && Valid()
    {
      this.buf, pos := buf, 0;
    }

    method Take(n: nat) returns (r: Result<seq<byte>, PulseError>)
      requires Valid()
      modifies this
      ensures Valid()
      ensures r.Ok? <==> old(pos) + n <= |buf|
      ensures r.Ok? ==> pos == old(pos) + n && r.value == buf[old(pos)..pos] && At(buf, old(pos), r.value)
      ensures r.Err? ==> pos == old(pos) && r.error == Truncated
    {
      var end := pos + n;
      if end > |buf| {
        return Err(Truncated);
      }
      r := Ok(buf[pos..end]);
      pos := end;
    }

    method ExpectTag(expected: byte) returns (r: Result<(), PulseError>)
      requires Valid()
      modifies this
      ensures Valid() && old(pos) <= pos
      ensures r.Ok? <==> At(buf, old(pos), [expected])
      ensures r.Ok? ==> pos == old(pos) + 1
      ensures r.Err? ==> r.error == if old(pos) < |buf| then InvalidTag(buf[old(pos)]) else Truncated
    {
      var byte := Take(1);
      if byte.Err? {
        return Err(byte.error);
      }
      if byte.value[0] != expected {
        return Err(InvalidTag(byte.value[0]));
      }
      r := Ok(());
    }

    method ReadU32() returns (r: Result<u32, PulseError>)
      requires Valid()
      modifies this
      ensures Valid() && old(pos) <= pos
      ensures r.Ok? ==> At(buf, old(pos), EncU32(r.value)) && pos == old(pos) + 5
      ensures r.Err? ==> forall v :: !At(buf, old(pos), EncU32(v))
      ensures Blames(buf, old(pos), KU32, r)
    {
      hide At, Be32;
      AtByte(buf, pos);
      forall v ensures At(buf, pos, EncU32(v)) <==> At(buf, pos, [TAG_U32]) && At(buf, pos + 1, Be32(v)) {
        AtSplit(buf, pos, [TAG_U32], Be32(v));
      }
      var tag := ExpectTag(TAG_U32);
      if tag.Err? {
        return Err(tag.error);
      }
      AtLength(buf, pos);
      var bytes := Take(4);
      if bytes.Err? {
        return Err(bytes.error);
      }
      r := Ok(FromBe32(bytes.value));
    }

    method ReadString() returns (r: Result<Option<Text>, PulseError>)
      requires Valid()
      modifies this
      ensures Valid() && old(pos) <= pos
      ensures r == Ok(None) ==> At(buf, old(pos), [TAG_STRING_NULL]) && pos == old(pos) + 1
      ensures r.Ok? && r.value.Some? ==>
                && ReadableText(r.value.value) && At(buf, old(pos), EncStr(r.value.value))
                && pos == old(pos) + |r.value.value| + 2
      ensures r.Err? ==>
                && !At(buf, old(pos), [TAG_STRING_NULL])
                && forall s: Text :: ReadableText(s) ==> !At(buf, old(pos), EncStr(s))
      ensures Blames(buf, old(pos), KString, r)
      ensures forall s :: NoNul(s) && At(buf, old(pos), [TAG_STRING]) && At(buf, old(pos) + 1, s + [0]) ==>
                if |s| > MAX_LEN then r == Err(Oversized)
                else if !Utf8(s) then r == Err(InvalidUtf8)
                else r == Ok(Some(s))
      ensures At(buf, old(pos), [TAG_STRING]) && (forall k :: old(pos) < k < |buf| ==> buf[k] != 0) ==>
                r == Err(Truncated)
    {
      hide At, Utf8, NoNul;
      ghost var start := pos;
      forall s: Text
        ensures At(buf, start, EncStr(s)) <==> At(buf, start, [TAG_STRING]) && At(buf, start + 1, s + [0])
      {
        assert EncStr(s) == [TAG_STRING] + (s + [0]);
        AtSplit(buf, start, [TAG_STRING], s + [0]);
      }
      AtByte(buf, start);
      var byte := Take(1);
      if byte.Err? {
        return Err(byte.error);
      }
      if byte.value[0] == TAG_STRING_NULL {
        return Ok(None);
      }
      if byte.value[0] != TAG_STRING {
        return Err(InvalidTag(byte.value[0]));
      }
      var nul := 0;
      while pos + nul < |buf| && buf[pos + nul] != 0
        invariant pos + nul <= |buf|
        invariant forall k :: pos <= k < pos + nul ==> buf[k] != 0
      {
        nul := nul + 1;
      }
      UpToNul(buf, pos, nul);
      if pos + nul == |buf| {
        return Err(Truncated);
      }
      var bytes := buf[pos..pos + nul];
      if nul > MAX_LEN {
        return Err(Oversized);
      }
      if !Utf8(bytes) {
        return Err(InvalidUtf8);
      }
      pos := pos + nul + 1;
      r := Ok(Some(bytes));
    }

    /** A length, without a tag of its own. */
    method TakeLength() returns (r: Result<u32, PulseError>)
      requires Valid()
      modifies this
      ensures Valid() && old(pos) <= pos
      ensures r.Ok? ==> pos == old(pos) + 4 && At(buf, old(pos), Be32(r.value))
      ensures forall len: u32 :: At(buf, old(pos), Be32(len)) ==> r == Ok(len)
    {
      hide At, Be32;
      ghost var start := pos;
      AtLength(buf, start);
      var bytes := Take(4);
      if bytes.Err? {
        return Err(bytes.error);
      }
      r := Ok(FromBe32(bytes.value));
      forall len: u32 | At(buf, start, Be32(len)) ensures r == Ok(len) {
        WordUnique(buf, start, len, r.value);
      }
    }

    method ReadArbitrary() returns (r: Result<seq<byte>, PulseError>)
      requires Valid()
      modifies this
      ensures Valid() && old(pos) <= pos
      ensures r.Ok? ==> |r.value| <= MAX_LEN && At(buf, old(pos), EncBlob(r.value)) && pos == old(pos) + |r.value| + 5
      ensures r.Err? ==> forall b :: |b| <= MAX_LEN ==> !At(buf, old(pos), EncBlob(b))
      ensures Blames(buf, old(pos), KBlob, r)
      ensures forall len: u32 ::
                len > MAX_LEN && At(buf, old(pos), [TAG_ARBITRARY]) && At(buf, old(pos) + 1, Be32(len)) ==>
                  r == Err(Oversized)
    {
      hide At, Be32, EncBlob;
      ghost var start := pos;
      AtByte(buf, start);
      forall b | |b| <= MAX_LEN
        ensures At(buf, start, EncBlob(b)) <==>
                  At(buf, start, [TAG_ARBITRARY]) && At(buf, start + 1, Be32(|b|)) && At(buf, start + 5, b)
      {
        BlobParts(buf, start, b);
      }
      var tag := ExpectTag(TAG_ARBITRARY);
      if tag.Err? {
        return Err(tag.error);
      }
      var len := TakeLength();
      if len.Err? {
        return Err(len.error);
      }
      if len.value > MAX_LEN {
        return Err(Oversized);
      }
      AtBounds(buf, start + 5);
      r := Take(len.value);
    }

    method ReadPair() returns (r: Result<(Text, Text), PulseError>)
      requires Valid() && pos < |buf| && buf[pos] == TAG_STRING
      modifies this
      ensures Valid() && old(pos) <= pos
      ensures r.Ok? ==> FirstPair(buf, old(pos), pos, r.value) && ReadableText(r.value.0) && |r.value.1| <= MAX_LEN
      ensures r.Ok? ==> pos == old(pos) + |r.value.0| + |r.value.1| + 12
      ensures r.Err? ==> forall ps: Pairs :: !PairsAt(buf, old(pos), ps)
    {
      hide At, EncStr, EncU32, EncBlob, ReadableText, NoNul, Utf8, PairsAt, FirstPair, Blames;
      ghost var p := pos;
      NotEmptyHere(buf, p);
      var k := ReadString();
      if k.Err? {
        return Err(k.error);
      }
      if k.value.None? {
        assert false;
      }
      var key := k.value.value;
      forall ps: Pairs | PairsAt(buf, p, ps) ensures ps[0].0 == key {
        KeyIs(buf, p, key, ps);
      }
      var l := ReadU32();
      if l.Err? {
        return Err(l.error);
      }
      var len := l.value;
      forall ps: Pairs | PairsAt(buf, p, ps) ensures |ps[0].1| == len {
        LengthIs(buf, p + |key| + 2, |ps[0].1|, len);
      }
      if len > MAX_LEN {
        return Err(Oversized);
      }
      var blob := ReadArbitrary();
      if blob.Err? {
        return Err(blob.error);
      }
      forall ps: Pairs | PairsAt(buf, p, ps) ensures ps[0].1 == blob.value {
        BlobUnique(buf, p + |key| + 7, ps[0].1, blob.value);
      }
      if |blob.value| != len {
        return Err(Truncated);
      }
      if !Utf8(blob.value) {
        return Err(InvalidUtf8);
      }
      PairRead(buf, p, key, blob.value);
      r := Ok((key, blob.value));
    }

    method ReadProplist() returns (r: Result<Pairs, PulseError>)
      requires Valid()
      modifies this
      ensures Valid() && old(pos) <= pos
      ensures r.Ok? ==> Finds(buf, old(pos), KProps, Props(r.value)) && pos == old(pos) + |Encode(Props(r.value))|
      ensures r.Err? ==> forall ps: Pairs :: !Finds(buf, old(pos), KProps, Props(ps))
      ensures Blames(buf, old(pos), KProps, r)
    {
      hide At, EncPairs, Utf8, Splits, FirstPair, ReadableText;
      ghost var first := pos;
      AtByte(buf, first);
      forall ps: Pairs
        ensures Finds(buf, first, KProps, Props(ps)) <==> At(buf, first, [TAG_PROPLIST]) && PairsAt(buf, first + 1, ps)
      {
        PropsParts(buf, first, ps);
      }
      hide Finds, PairsAt;
      var tag := ExpectTag(TAG_PROPLIST);
      if tag.Err? {
        return Err(tag.error);
      }
      ghost var start := pos;
      var pairs: Pairs := [];
      SplitsNone(buf, start);
      NoPairs();
      while true
        invariant start <= pos <= |buf| && start == first + 1
        invariant Splits(buf, start, pos, pairs) && ReadablePairs(pairs)
        invariant start + |EncPairs(pairs)| == pos + 1
        decreases |buf| - pos
      {
        Stuck(buf, start, pos, pairs);
        if pos == |buf| {
          return Err(Truncated);
        }
        if buf[pos] == TAG_STRING {
          ghost var p := pos;
          var pair := ReadPair();
          if pair.Err? {
            return Err(pair.error);
          }
          SplitsMore(buf, start, p, pairs, pos, pair.value);
          PairsGrow(pairs, pair.value);
          pairs := pairs + [pair.value];
        } else if buf[pos] == TAG_STRING_NULL {
          Ended(buf, start, pos, pairs);
          pos := pos + 1;
          break;
        } else {
          return Err(InvalidTag(buf[pos]));
        }
      }
      PropsLength(pairs);
      r := Ok(pairs);
    }

    /** A tag and a payload of fixed size. */
    method Tagged(tag: byte, n: nat) returns (r: Result<seq<byte>, PulseError>)
      requires Valid()
      modifies this
      ensures Valid() && old(pos) <= pos
      ensures r.Ok? ==> |r.value| == n && At(buf, old(pos), [tag] + r.value) && pos == old(pos) + 1 + n
      ensures r.Err? ==> forall b :: |b| == n ==> !At(buf, old(pos), [tag] + b)
      ensures old(pos) == |buf| ==> r == Err(Truncated)
      ensures old(pos) < |buf| && buf[old(pos)] != tag ==> r == Err(InvalidTag(buf[old(pos)]))
    {
      hide At;
      forall b ensures At(buf, pos, [tag] + b) <==> At(buf, pos, [tag]) && At(buf, pos + 1, b) {
        AtSplit(buf, pos, [tag], b);
      }
      AtBounds(buf, pos + 1);
      AtByte(buf, pos);
      var t := ExpectTag(tag);
      if t.Err? {
        return Err(t.error);
      }
      r := Take(n);
    }

    method ReadU8() returns (r: Result<byte, PulseError>)
      requires Valid()
      modifies this
      ensures Valid() && ReadsOne(buf, old(pos), KU8, Lift(r, v => U8(v)), pos)
    {
      hide At;
      var b := Tagged(TAG_U8, 1);
      if b.Err? {
        assert forall v: byte :: Encode(U8(v)) == [TAG_U8] + [v];
        return Err(b.error);
      }
      assert [TAG_U8] + b.value == Encode(U8(b.value[0]));
      r := Ok(b.value[0]);
    }

    method ReadBoolean() returns (r: Result<bool, PulseError>)
      requires Valid()
      modifies this
      ensures Valid() && ReadsOne(buf, old(pos), KBoolean, Lift(r, v => Boolean(v)), pos)
    {
      hide At;
      AtByte(buf, pos);
      var b := Take(1);
      if b.Err? {
        return Err(b.error);
      }
      if b.value[0] == TAG_BOOLEAN_TRUE {
        return Ok(true);
      }
      if b.value[0] == TAG_BOOLEAN_FALSE {
        return Ok(false);
      }
      r := Err(InvalidTag(b.value[0]));
    }

    method ReadU64() returns (r: Result<u64, PulseError>)
      requires Valid()
      modifies this
      ensures Valid() && ReadsOne(buf, old(pos), KU64, Lift(r, v => U64(v)), pos)
    {
      hide At, Be64, FromBe64;
      var b := Tagged(TAG_U64, 8);
      if b.Err? {
        return Err(b.error);
      }
      r := Ok(FromBe64(b.value));
    }

    method ReadVolume() returns (r: Result<u32, PulseError>)
      requires Valid()
      modifies this
      ensures Valid() && ReadsOne(buf, old(pos), KVolume, Lift(r, v => Volume(v)), pos)
    {
      hide At, Be32, FromBe32;
      var b := Tagged(TAG_VOLUME, 4);
      if b.Err? {
        return Err(b.error);
      }
      r := Ok(FromBe32(b.value));
    }

    method ReadSampleSpec() returns (r: Result<(u32, byte, byte), PulseError>)
      requires Valid()
      modifies this
      ensures Valid() && ReadsOne(buf, old(pos), KSpec, Lift(r, (v: (u32, byte, byte)) => Spec(v.0, v.1, v.2)), pos)
    {
      hide At, Be32, FromBe32;
      var b := Tagged(TAG_SAMPLE_SPEC, 6);
      if b.Err? {
        assert forall rate, channels: byte, format: byte ::
            Encode(Spec(rate, channels, format)) == [TAG_SAMPLE_SPEC] + ([format, channels] + Be32(rate));
        return Err(b.error);
      }
      var rate := FromBe32(b.value[2..]);
      assert [TAG_SAMPLE_SPEC] + b.value == Encode(Spec(rate, b.value[1], b.value[0]));
      r := Ok((rate, b.value[1], b.value[0]));
    }

    /** A tag, a raw count and that many items of `width` bytes. */
    method Counted(tag: byte, width: nat) returns (r: Result<(byte, seq<byte>), PulseError>)
      requires Valid()
      modifies this
      ensures Valid() && old(pos) <= pos
      ensures r.Ok? ==>
                && |r.value.1| == r.value.0 * width && At(buf, old(pos), [tag, r.value.0] + r.value.1)
                && pos == old(pos) + 2 + |r.value.1|
      ensures r.Err? ==> forall n: byte, b: seq<byte> :: |b| == n * width ==> !At(buf, old(pos), [tag, n] + b)
      ensures old(pos) == |buf| ==> r == Err(Truncated)
      ensures old(pos) < |buf| && buf[old(pos)] != tag ==> r == Err(InvalidTag(buf[old(pos)]))
    {
      hide At;
      ghost var p := pos;
      forall n: byte, b ensures At(buf, p, [tag, n] + b) <==> At(buf, p, [tag] + [n]) && At(buf, p + 2, b) {
        assert [tag, n] == [tag] + [n];
        AtSplit(buf, p, [tag, n], b);
      }
      AtBounds(buf, p + 2);
      var c := Tagged(tag, 1);
      if c.Err? {
        return Err(c.error);
      }
      var count := c.value[0];
      assert c.value == [count];
      forall n: byte | At(buf, p, [tag] + [n]) ensures n == count {
        AtSame(buf, p, [tag] + [n], [tag] + [count]);
        assert ([tag] + [n])[1] == ([tag] + [count])[1];
      }
      var b := Take(count * width);
      if b.Err? {
        return Err(b.error);
      }
      r := Ok((count, b.value));
    }

    method ReadChannelMap() returns (r: Result<seq<byte>, PulseError>)
      requires Valid()
      modifies this
      ensures Valid() && ReadsOne(buf, old(pos), KPositions, Lift(r, v => Positions(v)), pos)
    {
      hide At;
      var b := Counted(TAG_CHANNEL_MAP, 1);
      if b.Err? {
        return Err(b.error);
      }
      r := Ok(b.value.1);
    }

    method ReadCvolume() returns (r: Result<seq<u32>, PulseError>)
      requires Valid()
      modifies this
      ensures Valid() && ReadsOne(buf, old(pos), KCVolume, Lift(r, v => CVolume(v)), pos)
    {
      hide At, Be32, FromBe32, RawWords;
      var b := Counted(TAG_CVOLUME, 4);
      if b.Err? {
        return Err(b.error);
      }
      var count, bytes := b.value.0, b.value.1;
      var volumes: seq<u32> := [];
      var i: nat := 0;
      WordsEnd();
      while i < count
        modifies {}
        invariant 0 <= i <= count && |volumes| == i && RawWords(volumes) == bytes[..4 * i]
      {
        var v := FromBe32(bytes[4 * i..4 * i + 4]);
        WordsSnoc(volumes, v);
        assert bytes[..4 * (i + 1)] == bytes[..4 * i] + bytes[4 * i..4 * i + 4];
        volumes := volumes + [v];
        i := i + 1;
      }
      assert bytes[..4 * count] == bytes;
      r := Ok(volumes);
    }

    /** Any field, through its own reader call. */
    method Read(kind: Kind) returns (r: Result<Field, PulseError>)
      requires Valid()
      modifies this
      ensures Valid() && ReadsOne(buf, old(pos), kind, r, pos)
    {
      hide At, Encode, Readable, Writable;
      match kind
      case KU32 => r := ReadWord();
      case KU8 => var v := ReadU8(); r := Lift(v, v => U8(v));
      case KBoolean => var v := ReadBoolean(); r := Lift(v, v => Boolean(v));
      case KString => r := ReadText();
      case KBlob => r := ReadBlob();
      case KU64 => var v := ReadU64(); r := Lift(v, v => U64(v));
      case KProps => r := ReadProps();
      case KSpec => var v := ReadSampleSpec(); r := Lift(v, (v: (u32, byte, byte)) => Spec(v.0, v.1, v.2));
      case KPositions => var v := ReadChannelMap(); r := Lift(v, v => Positions(v));
      case KVolume => var v := ReadVolume(); r := Lift(v, v => Volume(v));
      case KCVolume => var v := ReadCvolume(); r := Lift(v, v => CVolume(v));
    }

    method ReadWord() returns (r: Result<Field, PulseError>)
      requires Valid()
      modifies this
      ensures Valid() && ReadsOne(buf, old(pos), KU32, r, pos)
    {
      hide At, EncU32;
      var v := ReadU32();
      r := Lift(v, v => U32(v));
    }

    method ReadText() returns (r: Result<Field, PulseError>)
      requires Valid()
      modifies this
      ensures Valid() && ReadsOne(buf, old(pos), KString, r, pos)
    {
      hide At, Utf8, ReadableText;
      var v := ReadString();
      r := Lift(v, (v: Option<Text>) => if v.Some? then Str(v.value) else NullStr);
    }

    method ReadBlob() returns (r: Result<Field, PulseError>)
      requires Valid()
      modifies this
      ensures Valid() && ReadsOne(buf, old(pos), KBlob, r, pos)
    {
      hide At;
      var v := ReadArbitrary();
      r := Lift(v, v => Blob(v));
    }

    method ReadProps() returns (r: Result<Field, PulseError>)
      requires Valid()
      modifies this
      ensures Valid() && ReadsOne(buf, old(pos), KProps, r, pos)
    {
      hide At, EncPairs, Utf8;
      var v := ReadProplist();
      r := Lift(v, v => Props(v));
    }
  }


  /** Any fields, written and read back with the matching calls: the same values, and the cursor stops
      exactly at the end of them, whatever bytes follow. */
  method RoundTrip(fields: seq<Field>, rest: seq<byte>) returns (back: seq<Field>, end: nat)
    requires AllReadable(fields)
    ensures back == fields && end == |EncodeAll(fields)|
  {
    hide Encode, Readable, Writable, At, ReadsOne;
    var writer := new TagWriter();
    var i := 0;
    NoFields();
    while i < |fields|
      modifies writer
      invariant 0 <= i <= |fields| && writer.buf == EncodeAll(fields[..i])
    {
      ReadableIsWritable(fields[i]);
      EncodeNext(fields, i);
      writer.Write(fields[i]);
      i := i + 1;
    }
    assert fields[..i] == fields;
    ghost var written := writer.buf;
    var reader := new TagReader(writer.buf + rest);
    back, i := [], 0;
    while i < |fields|
      modifies reader
      invariant 0 <= i <= |fields| && back == fields[..i]
      invariant reader.buf == written + rest && reader.Valid() && reader.pos == |EncodeAll(fields[..i])|
    {
      var p := reader.pos;
      NextField(fields, i, rest);
      var f := reader.Read(KindOf(fields[i]));
      OnlyField(reader.buf, p, fields[i], f, reader.pos);
      EncodeNext(fields, i);
      back := back + [f.value];
      i := i + 1;
    }
    end := reader.pos;
  }

  /** One field, written and read back with the matching call: it comes back exactly when its strings
      hold no NUL and its lengths are within the limits. */
  method RoundTripOne(f: Field, rest: seq<byte>) returns (r: Result<Field, PulseError>, end: nat)
    requires Writable(f)
    ensures r == Ok(f) <==> Readable(f)
    ensures Readable(f) ==> end == |Encode(f)|
  {
    hide Encode, Readable, Writable, At;
    var writer := new TagWriter();
    writer.Write(f);
    assert writer.buf == Encode(f);
    var reader := new TagReader(writer.buf + rest);
    StandsAt([], Encode(f), [], rest);
    assert [] + (Encode(f) + []) + rest == Encode(f) + rest;
    r := reader.Read(KindOf(f));
    if Readable(f) {
      OnlyField(reader.buf, 0, f, r, reader.pos);
    }
    end := reader.pos;
  }

  lemma {:induction false} NoFields()
    ensures EncodeAll([]) == []
  {
  }

  lemma {:induction false} EncodeNext(fields: seq<Field>, i: nat)
    requires AllReadable(fields) && i < |fields|
    ensures Writable(fields[i]) && EncodeAll(fields[..i + 1]) == EncodeAll(fields[..i]) + Encode(fields[i])
  {
    hide Encode, Readable, Writable;
    ReadableIsWritable(fields[i]);
    if i == 0 {
      assert fields[..1] == [fields[0]];
    } else {
      assert fields[..i + 1][1..] == fields[1..][..i] && fields[..i][1..] == fields[1..][..i - 1];
      EncodeNext(fields[1..], i - 1);
    }
  }

  lemma {:induction false} EncodeSplit(fields: seq<Field>, i: nat)
    requires AllReadable(fields) && i <= |fields|
    ensures EncodeAll(fields) == EncodeAll(fields[..i]) + EncodeAll(fields[i..])
  {
    hide Encode, Readable, Writable;
    if i == 0 {
      assert fields[0..] == fields && fields[..0] == [];
    } else {
      assert fields[..i][1..] == fields[1..][..i - 1] && fields[1..][i - 1..] == fields[i..];
      EncodeSplit(fields[1..], i - 1);
    }
  }

  /** In the written bytes the next field stands where the previous ones end. */
  lemma {:induction false} NextField(fields: seq<Field>, i: nat, rest: seq<byte>)
    requires AllReadable(fields) && i < |fields|
    ensures Finds(EncodeAll(fields) + rest, |EncodeAll(fields[..i])|, KindOf(fields[i]), fields[i])
  {
    hide Encode, Readable, Writable, At;
    ReadableIsWritable(fields[i]);
    EncodeSplit(fields, i);
    var before, f, after := EncodeAll(fields[..i]), Encode(fields[i]), EncodeAll(fields[i + 1..]);
    assert fields[i..][1..] == fields[i + 1..];
    assert EncodeAll(fields[i..]) == f + after;
    StandsAt(before, f, after, rest);
  }

  lemma {:induction false} StandsAt(before: seq<byte>, f: seq<byte>, after: seq<byte>, rest: seq<byte>)
    ensures At(before + (f + after) + rest, |before|, f)
  {
  }

  lemma {:induction false} OnlyField(buf: seq<byte>, p: nat, f: Field, r: Result<Field, PulseError>, end: nat)
    requires Finds(buf, p, KindOf(f), f) && ReadsOne(buf, p, KindOf(f), r, end)
    ensures r == Ok(f) && Writable(f) && end == p + |Encode(f)|
  {
    hide At, Encode, Readable;
    if r.Ok? {
      FieldUnique(buf, p, f, r.value);
    }
  }

  function Lift<A, B>(r: Result<A, PulseError>, f: A -> B): Result<B, PulseError> {
    if r.Ok? then Ok(f(r.value)) else Err(r.error)
  }

  lemma {:induction false} WordsSnoc(vs: seq<u32>, v: u32)
    ensures RawWords(vs + [v]) == RawWords(vs) + Be32(v)
  {
    hide Be32;
    var all := vs + [v];
    WordsStep(all, |vs|);
    assert all[..|vs|] == vs && all[..|vs| + 1] == all;
  }

  // ----- proplists ----------------------------------------------------------------------------------------------

  /** A readable list of pairs with its terminator stands at `p`. */
  ghost predicate PairsAt(buf: seq<byte>, p: nat, ps: Pairs) {
    ReadablePairs(ps) && At(buf, p, EncPairs(ps))
  }

  lemma {:induction false} PairsCons(buf: seq<byte>, p: nat, ps: Pairs)
    requires ps != []
    ensures PairsAt(buf, p, ps) <==>
              && ReadableText(ps[0].0) && |ps[0].1| <= MAX_LEN
              && At(buf, p, EncStr(ps[0].0)) && At(buf, p + |ps[0].0| + 2, EncU32(|ps[0].1|))
              && At(buf, p + |ps[0].0| + 7, EncBlob(ps[0].1)) && PairsAt(buf, p + |ps[0].0| + |ps[0].1| + 12, ps[1..])
  {
    hide At, EncStr, EncU32, EncBlob, EncPair, ReadableText, Utf8;
    if |ps[0].1| <= MAX_LEN && ReadablePairs(ps[1..]) {
      PairParts(buf, p, ps[0].0, ps[0].1, EncPairs(ps[1..]));
    }
  }

  /** The same key stands at the front of every list that can stand there. */
  lemma {:induction false} KeyIs(buf: seq<byte>, p: nat, key: Text, ps: Pairs)
    requires ReadableText(key) && At(buf, p, EncStr(key)) && PairsAt(buf, p, ps)
    ensures ps != [] && ps[0].0 == key
  {
    AtFirst(buf, p, EncStr(key));
    PairsFirst(buf, p, ps);
    hide At, EncStr, Utf8;
    PairsCons(buf, p, ps);
    StrUnique(buf, p, key, ps[0].0);
  }

  lemma {:induction false} LengthIs(buf: seq<byte>, p: nat, v: u32, w: u32)
    requires At(buf, p, EncU32(v)) && At(buf, p, EncU32(w))
    ensures v == w
  {
    hide At, Be32;
    AtSplit(buf, p, [TAG_U32], Be32(v));
    AtSplit(buf, p, [TAG_U32], Be32(w));
    WordUnique(buf, p + 1, v, w);
  }

  /** `pairs` then whatever stands at `pos`: that is what stands at `start`. */
  ghost predicate Splits(buf: seq<byte>, start: nat, pos: nat, pairs: Pairs) {
    forall ps: Pairs :: PairsAt(buf, start, ps) <==>
        |pairs| <= |ps| && ps[..|pairs|] == pairs && PairsAt(buf, pos, ps[|pairs|..])
  }

  /** The pair at `p` is the only one that can stand there, and the rest follows at `end`. */
  ghost predicate FirstPair(buf: seq<byte>, p: nat, end: nat, pair: (Text, Text)) {
    forall ps: Pairs :: PairsAt(buf, p, ps) <==> ps != [] && ps[0] == pair && PairsAt(buf, end, ps[1..])
  }

  lemma {:induction false} PairRead(buf: seq<byte>, p: nat, key: Text, value: Text)
    requires ReadableText(key) && |value| <= MAX_LEN && At(buf, p, EncStr(key))
    requires At(buf, p + |key| + 2, EncU32(|value|)) && At(buf, p + |key| + 7, EncBlob(value))
    ensures FirstPair(buf, p, p + |key| + |value| + 12, (key, value))
  {
    hide At, EncStr, EncU32, EncBlob, ReadableText, Utf8, PairsAt;
    forall ps: Pairs
      ensures PairsAt(buf, p, ps) <==>
                ps != [] && ps[0] == (key, value) && PairsAt(buf, p + |key| + |value| + 12, ps[1..])
    {
      if ps != [] {
        PairsCons(buf, p, ps);
      }
      if PairsAt(buf, p, ps) {
        KeyIs(buf, p, key, ps);
        BlobUnique(buf, p + |key| + 7, value, ps[0].1);
      }
    }
  }

  lemma {:induction false} SplitsMore(buf: seq<byte>, start: nat, pos: nat, pairs: Pairs, end: nat, pair: (Text, Text))
    requires Splits(buf, start, pos, pairs) && FirstPair(buf, pos, end, pair)
    ensures Splits(buf, start, end, pairs + [pair])
  {
    hide PairsAt, Utf8;
    var n := |pairs|;
    forall ps: Pairs
      ensures PairsAt(buf, start, ps) <==>
                n + 1 <= |ps| && ps[..n + 1] == pairs + [pair] && PairsAt(buf, end, ps[n + 1..])
    {
      if n + 1 <= |ps| {
        assert ps[n..][0] == ps[n] && ps[n..][1..] == ps[n + 1..] && ps[..n + 1] == ps[..n] + [ps[n]];
      }
    }
  }

  lemma {:induction false} NotEmptyHere(buf: seq<byte>, p: nat)
    requires p < |buf| && buf[p] == TAG_STRING
    ensures !At(buf, p, [TAG_STRING_NULL])
    ensures forall ps: Pairs :: PairsAt(buf, p, ps) ==>
              && ps != [] && ReadableText(ps[0].0) && |ps[0].1| <= MAX_LEN && At(buf, p, EncStr(ps[0].0))
              && At(buf, p + |ps[0].0| + 2, EncU32(|ps[0].1|)) && At(buf, p + |ps[0].0| + 7, EncBlob(ps[0].1))
  {
    AtByte(buf, p);
    hide At, EncStr, EncU32, EncBlob, ReadableText, Utf8;
    forall ps: Pairs | PairsAt(buf, p, ps)
      ensures && ps != [] && ReadableText(ps[0].0) && |ps[0].1| <= MAX_LEN && At(buf, p, EncStr(ps[0].0))
              && At(buf, p + |ps[0].0| + 2, EncU32(|ps[0].1|)) && At(buf, p + |ps[0].0| + 7, EncBlob(ps[0].1))
    {
      PairsFirst(buf, p, ps);
      PairsCons(buf, p, ps);
    }
  }

  lemma {:induction false} PropsParts(buf: seq<byte>, p: nat, ps: Pairs)
    ensures Finds(buf, p, KProps, Props(ps)) <==> At(buf, p, [TAG_PROPLIST]) && PairsAt(buf, p + 1, ps)
  {
    hide At, EncPairs, Utf8;
    if ReadablePairs(ps) {
      ReadableIsWritable(Props(ps));
      AtSplit(buf, p, [TAG_PROPLIST], EncPairs(ps));
    }
  }

  lemma {:induction false} PropsLength(ps: Pairs)
    requires Writable(Props(ps))
    ensures |Encode(Props(ps))| == 1 + |EncPairs(ps)|
  {
  }

  /** If nothing can stand at `pos`, nothing can stand at `start`. */
  lemma {:induction false} Stuck(buf: seq<byte>, start: nat, pos: nat, pairs: Pairs)
    requires Splits(buf, start, pos, pairs)
    ensures (forall ps: Pairs :: !PairsAt(buf, pos, ps)) ==> forall ps: Pairs :: !PairsAt(buf, start, ps)
    ensures pos >= |buf| || (buf[pos] != TAG_STRING && buf[pos] != TAG_STRING_NULL) ==>
              forall ps: Pairs :: !PairsAt(buf, start, ps)
  {
    forall ps: Pairs | PairsAt(buf, pos, ps)
      ensures pos < |buf| && (buf[pos] == TAG_STRING || buf[pos] == TAG_STRING_NULL)
    {
      PairsFirst(buf, pos, ps);
    }
    hide PairsAt, Utf8;
  }

  lemma {:induction false} Ended(buf: seq<byte>, start: nat, pos: nat, pairs: Pairs)
    requires Splits(buf, start, pos, pairs) && pos < |buf| && buf[pos] == TAG_STRING_NULL
    ensures PairsAt(buf, start, pairs)
  {
    PairsEnd();
    AtByte(buf, pos);
    NoPairs();
    assert PairsAt(buf, pos, []);
    hide PairsAt, Utf8;
    assert pairs[..|pairs|] == pairs && pairs[|pairs|..] == [];
  }

  lemma {:induction false} NoPairs()
    ensures ReadablePairs([]) && |EncPairs([])| == 1
  {
  }

  lemma {:induction false} PairsGrow(pairs: Pairs, pair: (Text, Text))
    requires ReadablePairs(pairs) && ReadableText(pair.0) && |pair.1| <= MAX_LEN
    ensures ReadablePairs(pairs + [pair])
    ensures |EncPairs(pairs + [pair])| == |EncPairs(pairs)| + |pair.0| + |pair.1| + 12
  {
    hide Utf8, EncPair, ReadableText;
    var all := pairs + [pair];
    PairParts([], 0, pair.0, pair.1, []);
    if pairs == [] {
      assert all[1..] == [];
    } else {
      assert all[1..] == pairs[1..] + [pair];
      PairsGrow(pairs[1..], pair);
    }
  }

  lemma {:induction false} SplitsNone(buf: seq<byte>, start: nat)
    ensures Splits(buf, start, start, [])
  {
    hide PairsAt;
    assert forall ps: Pairs :: ps[..0] == [] && ps[0..] == ps;
  }

  lemma {:induction false} AtLength(buf: seq<byte>, p: nat)
    ensures forall v :: At(buf, p, Be32(v)) ==> p + 4 <= |buf|
  {
  }

  lemma {:induction false} AtBounds(buf: seq<byte>, p: nat)
    ensures forall b :: At(buf, p, b) ==> p + |b| <= |buf|
  {
  }

  lemma {:induction false} AtByte(buf: seq<byte>, p: nat)
    ensures forall b: byte {:trigger At(buf, p, [b])} :: At(buf, p, [b]) <==> p < |buf| && buf[p] == b
  {
  }

  /** What a scan for NUL finds is the only NUL-free text that can stand there. */
  lemma {:induction false} UpToNul(buf: seq<byte>, p: nat, nul: nat)
    requires p + nul <= |buf| && (p + nul < |buf| ==> buf[p + nul] == 0)
    requires forall k :: p <= k < p + nul ==> buf[k] != 0
    ensures NoNul(buf[p..p + nul])
    ensures p + nul < |buf| ==> At(buf, p, buf[p..p + nul] + [0])
    ensures forall s :: NoNul(s) && At(buf, p, s + [0]) ==> p + nul < |buf| && s == buf[p..p + nul]
  {
    var text := buf[p..p + nul];
    if p + nul < |buf| {
      assert buf[p..p + nul + 1] == text + [0];
    }
    forall s | NoNul(s) && At(buf, p, s + [0]) ensures p + nul < |buf| && s == text {
      AtIndex(buf, p, s + [0], |s|);
      if p + nul < |buf| {
        TextUnique(buf, p, s, text);
      }
    }
  }

  /** Each reader call takes exactly the tags its fields are written with. */
  lemma {:induction false} TakesExactlyTheTags(kind: Kind, tag: byte)
    ensures Takes(kind, tag) <==> exists f :: Writable(f) && KindOf(f) == kind && Encode(f)[0] == tag
  {
    hide Be32, Be64;
    var text: Text := [];
    var (f, g) := match kind
      case KU32 => (U32(0), U32(0))
      case KU8 => (U8(0), U8(0))
      case KBoolean => (Boolean(true), Boolean(false))
      case KString => (Str(text), NullStr)
      case KBlob => (Blob([]), Blob([]))
      case KU64 => (U64(0), U64(0))
      case KProps => (Props([]), Props([]))
      case KSpec => (Spec(0, 0, 0), Spec(0, 0, 0))
      case KPositions => (Positions([]), Positions([]))
      case KVolume => (Volume(0), Volume(0))
      case KCVolume => (CVolume([]), CVolume([]));
    assert Writable(f) && KindOf(f) == kind && Writable(g) && KindOf(g) == kind;
    assert Takes(kind, tag) ==> tag == Encode(f)[0] || tag == Encode(g)[0];
  }
}
