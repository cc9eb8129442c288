/**
 Interleaved and planar sample layouts. Addresses are kept in additive form, so that proofs about
 them stay linear; AddrIsProduct and FramesIsQuotient connect them to the products and quotients
 of the code.
 */
module Layout {
  import opened Common

  /** Where row `row` starts when every row has `cols` places. */
  function Addr(row: nat, cols: nat): nat {
    if row == 0 then 0 else Addr(row - 1, cols) + cols
  }

  lemma {:induction false} AddrIsProduct(row: nat, cols: nat)
    ensures Addr(row, cols) == row * cols
  {
    if row == 0 {
    } else {
      AddrIsProduct(row - 1, cols);
      assert (row - 1) * cols + cols == row * cols;
    }
  }

  lemma {:induction false} AddrComm(a: nat, b: nat)
    ensures Addr(a, b) == Addr(b, a)
  {
    AddrIsProduct(a, b);
    AddrIsProduct(b, a);
  }

  lemma {:induction false} AddrMono(a: nat, b: nat, cols: nat)
    requires a <= b
    ensures Addr(a, cols) <= Addr(b, cols)
  {
    if a == b {
    } else {
      AddrMono(a, b - 1, cols);
    }
  }

  lemma {:induction false} DivModOf(c: nat, n: nat, i: nat)
    requires i < n
    ensures (c * n + i) / n == c
  {
    var x := c * n + i;
    var q, r := x / n, x % n;
    assert x == q * n + r;
    assert (c + 1) * n == c * n + n && (q + 1) * n == q * n + n;
    if q > c {
      MulLe(c + 1, q, n);
    } else if q < c {
      MulLe(q + 1, c, n);
    }
  }

  lemma {:induction false} MulLe(a: int, b: int, n: nat)
    requires a <= b
    ensures a * n <= b * n
  {
    assert (b - a) * n == b * n - a * n;
  }

  /** How many whole frames of `ch` samples fit. */
  function Frames(len: nat, ch: nat): (n: nat)
    requires 0 < ch
    ensures Addr(n, ch) <= len < Addr(n, ch) + ch
  {
    if len < ch then 0 else 1 + Frames(len - ch, ch)
  }

  lemma {:induction false} FramesIsQuotient(len: nat, ch: nat)
    requires 0 < ch
    ensures Frames(len, ch) == len / ch
  {
    var n := Frames(len, ch);
    AddrIsProduct(n, ch);
    DivModOf(n, ch, len - n * ch);
  }

  lemma {:induction false} FramesOf(n: nat, ch: nat)
    requires 0 < ch
    ensures Frames(Addr(n, ch), ch) == n
  {
    if n == 0 {
    } else {
      FramesOf(n - 1, ch);
    }
  }

  function Row(k: nat, cols: nat): nat
    requires 0 < cols
  {
    if k < cols then 0 else 1 + Row(k - cols, cols)
  }

  function Col(k: nat, cols: nat): (c: nat)
    requires 0 < cols
    ensures c < cols && Addr(Row(k, cols), cols) + c == k
  {
    if k < cols then k else Col(k - cols, cols)
  }

  lemma {:induction false} RowColOf(row: nat, col: nat, cols: nat)
    requires col < cols
    ensures Row(Addr(row, cols) + col, cols) == row && Col(Addr(row, cols) + col, cols) == col
  {
    if row == 0 {
    } else {
      RowColOf(row - 1, col, cols);
    }
  }

  lemma {:induction false} RowBound(k: nat, rows: nat, cols: nat)
    requires 0 < cols && k < Addr(rows, cols)
    ensures Row(k, cols) < rows
  {
    if Row(k, cols) >= rows {
      AddrMono(rows, Row(k, cols), cols);
      var c := Col(k, cols);
    }
  }

  /** Row-major addresses stay inside their block, read either way round. */
  lemma {:induction false} InBlock(row: nat, rows: nat, col: nat, cols: nat)
    requires row < rows && col < cols
    ensures Addr(row, cols) + col < Addr(rows, cols) == Addr(cols, rows)
  {
    AddrMono(row + 1, rows, cols);
    AddrComm(rows, cols);
  }

  /** Row-major position of the place that column-major position `k` of a `rows` by `cols` block
      stands for. */
  function Transposed(rows: nat, cols: nat, k: nat): (t: nat)
    requires 0 < rows && k < Addr(cols, rows)
    ensures t < Addr(rows, cols)
  {
    RowBound(k, cols, rows);
    InBlock(Col(k, rows), rows, Row(k, rows), cols);
    Addr(Col(k, rows), cols) + Row(k, rows)
  }

  lemma {:induction false} TransposedOf(rows: nat, cols: nat, row: nat, col: nat)
    requires row < rows && col < cols
    ensures Addr(col, rows) + row < Addr(cols, rows)
    ensures Transposed(rows, cols, Addr(col, rows) + row) == Addr(row, cols) + col < Addr(rows, cols)
  {
    InBlock(col, cols, row, rows);
    RowColOf(col, row, rows);
  }

  /** Wire order: frame by frame, all channels of a frame together. What does not fill a whole
      frame is dropped. */
  function Interleave<T>(planar: seq<T>, ch: nat): (wire: seq<T>)
    requires 0 < ch
    ensures |wire| == Addr(Frames(|planar|, ch), ch) <= |planar|
    ensures forall k :: 0 <= k < |wire| ==>
              var t := Transposed(ch, Frames(|planar|, ch), k); t < |planar| && wire[k] == planar[t]
  {
    var n := Frames(|planar|, ch);
    AddrComm(n, ch);
    seq(Addr(n, ch), k requires 0 <= k < Addr(n, ch) => planar[Transposed(ch, n, k)])
  }

  /** Memory order: all frames of a channel together. */
  function Deinterleave<T>(wire: seq<T>, ch: nat): (planar: seq<T>)
    requires 0 < ch
    ensures |planar| == Addr(Frames(|wire|, ch), ch) == Addr(ch, Frames(|wire|, ch)) <= |wire|
    ensures forall k :: 0 <= k < |planar| ==>
              var t := Transposed(Frames(|wire|, ch), ch, k); t < |wire| && planar[k] == wire[t]
  {
    var n := Frames(|wire|, ch);
    AddrComm(n, ch);
    seq(Addr(n, ch), k requires 0 <= k < Addr(n, ch) => wire[Transposed(n, ch, k)])
  }

  lemma {:induction false} InterleavedAddress<T>(planar: seq<T>, ch: nat, n: nat, c: nat, i: nat)
    requires 0 < ch && n == Frames(|planar|, ch) && c < ch && i < n
    ensures Addr(i, ch) + c < Addr(n, ch) && Addr(c, n) + i < |planar|
    ensures Interleave(planar, ch)[Addr(i, ch) + c] == planar[Addr(c, n) + i]
  {
    AddrComm(n, ch);
    TransposedOf(ch, n, c, i);
  }

  lemma {:induction false} DeinterleavedAddress<T>(wire: seq<T>, ch: nat, n: nat, c: nat, i: nat)
    requires 0 < ch && n == Frames(|wire|, ch) && c < ch && i < n
    ensures Addr(c, n) + i < Addr(n, ch) && Addr(i, ch) + c < |wire|
    ensures Deinterleave(wire, ch)[Addr(c, n) + i] == wire[Addr(i, ch) + c]
  {
    AddrComm(n, ch);
    TransposedOf(n, ch, i, c);
  }

  /** In the arithmetic of the loops: frame `i` of channel `c` is sample `c * n + i` in memory and sample
      `i * ch + c` on the wire, where `n` is the number of whole frames. */
  lemma {:induction false} InterleavedAt<T>(planar: seq<T>, ch: nat, c: nat, i: nat)
    requires 0 < ch && c < ch && i < |planar| / ch
    ensures var n := |planar| / ch;
            && |Interleave(planar, ch)| == n * ch
            && 0 <= i * ch + c < n * ch && 0 <= c * n + i < |planar|
            && Interleave(planar, ch)[i * ch + c] == planar[c * n + i]
  {
    var n := |planar| / ch;
    FramesIsQuotient(|planar|, ch);
    AddrIsProduct(n, ch);
    AddrIsProduct(i, ch);
    AddrIsProduct(c, n);
    InterleavedAddress(planar, ch, n, c, i);
  }

  lemma {:induction false} DeinterleavedAt<T>(wire: seq<T>, ch: nat, c: nat, i: nat)
    requires 0 < ch && c < ch && i < |wire| / ch
    ensures var n := |wire| / ch;
            && |Deinterleave(wire, ch)| == n * ch
            && 0 <= c * n + i < n * ch && 0 <= i * ch + c < |wire|
            && Deinterleave(wire, ch)[c * n + i] == wire[i * ch + c]
  {
    var n := |wire| / ch;
    FramesIsQuotient(|wire|, ch);
    AddrIsProduct(n, ch);
    AddrIsProduct(i, ch);
    AddrIsProduct(c, n);
    DeinterleavedAddress(wire, ch, n, c, i);
  }

  /** Deinterleaving undoes interleaving on the whole frames, for any channel count. */
  lemma {:induction false} LayoutRoundTrip<T>(planar: seq<T>, ch: nat)
    requires 0 < ch
    ensures Deinterleave(Interleave(planar, ch), ch) == planar[..Addr(Frames(|planar|, ch), ch)]
  {
    var n, wire := Frames(|planar|, ch), Interleave(planar, ch);
    FramesOf(n, ch);
    AddrComm(n, ch);
    forall k: nat | k < Addr(n, ch) ensures Deinterleave(wire, ch)[k] == planar[k] {
      RowBound(k, ch, n);
      DeinterleavedAddress(wire, ch, n, Row(k, n), Col(k, n));
      InterleavedAddress(planar, ch, n, Row(k, n), Col(k, n));
    }
  }

  // ----- payloads: every sample packed into `width` bytes -------------------------------------

  function Flatten<T>(pack: T -> seq<byte>, samples: seq<T>): seq<byte> {
    if samples == [] then [] else Flatten(pack, samples[..|samples| - 1]) + pack(samples[|samples| - 1])
  }

  lemma {:induction false} FlattenSnoc<T>(pack: T -> seq<byte>, samples: seq<T>, k: nat)
    requires k < |samples|
    ensures Flatten(pack, samples[..k + 1]) == Flatten(pack, samples[..k]) + pack(samples[k])
  {
    assert samples[..k + 1][..k] == samples[..k];
  }

  /** The `i`-th group of `width` bytes. */
  function Slice(bytes: seq<byte>, width: nat, i: nat): (s: seq<byte>)
    requires 0 < width && i < Frames(|bytes|, width)
    ensures |s| == width
  {
    AddrMono(i + 1, Frames(|bytes|, width), width);
    bytes[Addr(i, width)..Addr(i, width) + width]
  }

  lemma {:induction false} FlattenLength<T>(pack: T -> seq<byte>, width: nat, samples: seq<T>)
    requires 0 < width && forall x :: x in samples ==> |pack(x)| == width
    ensures |Flatten(pack, samples)| == Addr(|samples|, width)
    ensures Frames(|Flatten(pack, samples)|, width) == |samples|
  {
    FramesOf(|samples|, width);
    if samples == [] {
    } else {
      FlattenLength(pack, width, samples[..|samples| - 1]);
    }
  }

  lemma {:induction false} FlattenSlice<T>(pack: T -> seq<byte>, width: nat, samples: seq<T>, i: nat)
    requires 0 < width && i < |samples| && forall x :: x in samples ==> |pack(x)| == width
    ensures Frames(|Flatten(pack, samples)|, width) == |samples|
    ensures Slice(Flatten(pack, samples), width, i) == pack(samples[i])
  {
    var n := |samples| - 1;
    FlattenLength(pack, width, samples);
    FlattenLength(pack, width, samples[..n]);
    if i == n {
    } else {
      FlattenSlice(pack, width, samples[..n], i);
      AddrMono(i + 1, n, width);
    }
  }

  /** The samples a payload holds; trailing bytes that do not fill a sample are ignored. */
  function Samples<U>(unpack: seq<byte> -> U, width: nat, bytes: seq<byte>): (samples: seq<U>)
    requires 0 < width
    ensures |samples| == Frames(|bytes|, width)
    ensures forall i :: 0 <= i < |samples| ==> samples[i] == unpack(Slice(bytes, width, i))
  {
    var n := Frames(|bytes|, width);
    seq(n, i requires 0 <= i < n => unpack(Slice(bytes, width, i)))
  }

  lemma {:induction false} FlattenNone<T>(pack: T -> seq<byte>)
    ensures Flatten(pack, []) == []
  {
  }

  /** The shared interleaving encoder: `pack` appends the bytes of each sample. */
  method EncodePcm<T>(frames: seq<T>, channels: u16, pack: T -> seq<byte>) returns (out: seq<byte>)
    ensures out == if channels == 0 then [] else Flatten(pack, Interleave(frames, channels))
  {
    hide Flatten, Interleave, Frames;
    out := [];
    if channels == 0 {
      return;
    }
    FlattenNone(pack);
    var numFrames := Frames(|frames|, channels);
    ghost var wire, pos := Interleave(frames, channels), 0;
    assert wire[..0] == [];
    for i := 0 to numFrames
      invariant pos == Addr(i, channels) <= |wire|
      invariant out == Flatten(pack, wire[..pos])
    {
      for c := 0 to channels
        invariant pos == Addr(i, channels) + c <= |wire|
        invariant out == Flatten(pack, wire[..pos])
      {
        InterleavedAddress(frames, channels, numFrames, c, i);
        FlattenSnoc(pack, wire, pos);
        out := out + pack(frames[Addr(c, numFrames) + i]);
        pos := pos + 1;
      }
    }
    assert wire[..pos] == wire;
  }

  /** The planar positions already filled when the loops are at frame `i`, channel `c`. */
  predicate Filled(k: nat, n: nat, i: nat, c: nat)
    requires 0 < n
  {
    Col(k, n) < i || (Col(k, n) == i && Row(k, n) < c)
  }

  ghost predicate FilledIn<U>(out: seq<U>, target: seq<U>, n: nat, i: nat, c: nat) {
    |out| == |target| && forall k: nat :: k < |out| && 0 < n && Filled(k, n, i, c) ==> out[k] == target[k]
  }

  lemma {:induction false} FillOne<U>(out: seq<U>, target: seq<U>, n: nat, i: nat, c: nat)
    requires i < n && FilledIn(out, target, n, i, c) && Addr(c, n) + i < |out|
    ensures FilledIn(out[Addr(c, n) + i := target[Addr(c, n) + i]], target, n, i, c + 1)
  {
  }

  lemma {:induction false} FillNone<U>(out: seq<U>, target: seq<U>, n: nat)
    requires |out| == |target|
    ensures FilledIn(out, target, n, 0, 0)
  {
  }

  lemma {:induction false} FillDone<U>(out: seq<U>, target: seq<U>, n: nat, ch: nat)
    requires FilledIn(out, target, n, n, 0) && |out| == Addr(n, ch)
    ensures out == target
  {
    forall k: nat | k < |out| ensures 0 < n && out[k] == target[k] {
      assert 0 < n;
      assert Filled(k, n, n, 0);
    }
  }

  lemma {:induction false} FillNextFrame<U>(out: seq<U>, target: seq<U>, n: nat, i: nat, ch: nat)
    requires i < n && |out| == Addr(n, ch) && FilledIn(out, target, n, i, ch)
    ensures FilledIn(out, target, n, i + 1, 0)
  {
    forall k: nat | k < |out| && Filled(k, n, i + 1, 0) ensures Filled(k, n, i, ch) {
      AddrComm(n, ch);
      RowBound(k, ch, n);
    }
  }

  /** The shared decoder: `unpack` reads each group of `width` bytes into its planar place. */
  method DecodePcm<U>(bytes: seq<byte>, channels: u16, width: nat, unpack: seq<byte> -> U,
                      zero: U) returns (planar: seq<U>)
    requires 0 < width
    ensures planar == if channels == 0 then [] else Deinterleave(Samples(unpack, width, bytes), channels)
  {
    hide FilledIn, Frames;
    if channels == 0 {
      return [];
    }
    var numFrames := Frames(Frames(|bytes|, width), channels);
    ghost var samples := Samples(unpack, width, bytes);
    ghost var target := Deinterleave(samples, channels);
    var out := new U[Addr(numFrames, channels)](_ => zero);
    FillNone(out[..], target, numFrames);
    hide Deinterleave, Samples;
    for i := 0 to numFrames
      invariant FilledIn(out[..], target, numFrames, i, 0)
    {
      for c := 0 to channels
        invariant FilledIn(out[..], target, numFrames, i, c)
      {
        DeinterleavedAddress(samples, channels, numFrames, c, i);
        FillOne(out[..], target, numFrames, i, c);
        var at, idx := Addr(i, channels) + c, Addr(c, numFrames) + i;
        var sample := unpack(Slice(bytes, width, at));
        ghost var before := out[..];
        out[idx] := sample;
        assert out[..] == before[idx := sample];
      }
      FillNextFrame(out[..], target, numFrames, i, channels);
    }
    FillDone(out[..], target, numFrames, channels);
    planar := out[..];
  }
}
