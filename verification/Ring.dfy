/** Ring buffers as windows on an unbounded history. */
module Ring {
  import opened Common

  /** The history at any index; nothing was heard before the start. */
  function Past(h: seq<real>, k: int): real {
    if 0 <= k < |h| then h[k] else 0.0
  }

  /** How many writes ago slot `j` was written, for a cursor at `wp`: 1 is the latest, `cap` the oldest. */
  function Age(wp: nat, j: nat, cap: nat): (a: nat)
    requires wp < cap && j < cap
    ensures 1 <= a <= cap
  {
    if j < wp then wp - j else wp + cap - j
  }

  function Advance(wp: nat, cap: nat): (next: nat)
    requires wp < cap
    ensures next < cap
  {
    if wp + 1 < cap then wp + 1 else 0
  }

  /** The slot written `d` writes ago. */
  function Slot(wp: nat, d: nat, cap: nat): (j: nat)
    requires wp < cap && 1 <= d <= cap
    ensures j < cap && Age(wp, j, cap) == d
  {
    if d <= wp then wp - d else wp + cap - d
  }

  /** Each slot holds the value of the history its age points at. */
  ghost predicate Holds(ring: seq<real>, wp: nat, h: seq<real>) {
    && wp < |ring|
    && forall j :: 0 <= j < |ring| ==> ring[j] == Past(h, |h| - Age(wp, j, |ring|))
  }

  lemma {:induction false} StartsSilent(ring: seq<real>)
    requires |ring| > 0 && forall j :: 0 <= j < |ring| ==> ring[j] == 0.0
    ensures Holds(ring, 0, [])
  {
  }

  /** A write at the cursor extends the history; no slot in the window loses its meaning. */
  lemma {:induction false} WriteExtends(ring: seq<real>, wp: nat, h: seq<real>, v: real)
    requires Holds(ring, wp, h)
    ensures Holds(ring[wp := v], Advance(wp, |ring|), h + [v])
  {
    var cap, next := |ring|, Advance(wp, |ring|);
    forall j | 0 <= j < cap ensures ring[wp := v][j] == Past(h + [v], |h| + 1 - Age(next, j, cap)) {
      if j == wp {
        assert Age(next, j, cap) == 1;
      } else {
        assert Age(next, j, cap) == Age(wp, j, cap) + 1;
      }
    }
  }

  lemma {:induction false} ReadsBack(ring: seq<real>, wp: nat, h: seq<real>, d: nat)
    requires Holds(ring, wp, h) && 1 <= d <= |ring|
    ensures ring[Slot(wp, d, |ring|)] == Past(h, |h| - d)
  {
  }

  /** The cursor arithmetic of the source. */
  lemma {:induction false} CursorArithmetic(wp: nat, d: nat, cap: nat)
    requires wp < cap && 1 <= d <= cap
    ensures (wp + cap - d) % cap == Slot(wp, d, cap)
    ensures (wp + 1) % cap == Advance(wp, cap)
  {
    ModOnce(wp + cap - d, cap);
    ModOnce(wp + 1, cap);
  }

  /** What goes into a line: the input and the delayed value fed back. */
  function Fed(x: real, delayed: real, fb: real): real { x + delayed * fb }

  /** Wet/dry crossfade. */
  function Mixed(x: real, wet: real, mix: real): real { x * (1.0 - mix) + wet * mix }

  function Clamp(x: real, low: real, high: real): real {
    if x < low then low else if x > high then high else x
  }

  // ----- magnitudes --------------------------------------------------------------------------------------

  function Abs(x: real): real { if x < 0.0 then -x else x }

  ghost predicate Within(s: seq<real>, m: real) {
    forall k :: 0 <= k < |s| ==> Abs(s[k]) <= m
  }

  lemma {:induction false} ProductBound(x: real, g: real, m: real)
    requires Abs(x) <= m && 0.0 <= g
    ensures Abs(x * g) <= m * g
  {
    if x < 0.0 {
      assert (m + x) * g >= 0.0;
    } else {
      assert (m - x) * g >= 0.0;
    }
    assert (x < 0.0) ==> x * g <= 0.0;
    assert (x >= 0.0) ==> x * g >= 0.0;
  }

  lemma {:induction false} ScaledBound(x: real, g: real, m: real)
    requires Abs(x) <= m && 0.0 <= g <= 1.0
    ensures Abs(x * g) <= m
  {
    ProductBound(x, g, m);
    ProductBound(m, 1.0 - g, m);
    assert m * (1.0 - g) == m - m * g;
  }

  lemma {:induction false} SumBound(a: real, b: real, m: real, k: real)
    requires Abs(a) <= m && Abs(b) <= k
    ensures Abs(a + b) <= m + k
  {
  }

  /** A crossfade of two values stays within their common bound. */
  lemma {:induction false} CrossfadeBound(a: real, b: real, t: real, m: real)
    requires Abs(a) <= m && Abs(b) <= m && 0.0 <= t <= 1.0
    ensures Abs(a * (1.0 - t) + b * t) <= m
  {
    ProductBound(a, 1.0 - t, m);
    ProductBound(b, t, m);
    var p, q := a * (1.0 - t), b * t;
    assert Abs(p + q) <= Abs(p) + Abs(q);
    assert m * (1.0 - t) == m - m * t;
  }

  lemma {:induction false} FedBound(x: real, delayed: real, fb: real, m: real, b: real)
    requires Abs(x) <= m && Abs(delayed) <= b && 0.0 <= fb && m + b * fb <= b
    ensures Abs(Fed(x, delayed, fb)) <= b
  {
    ProductBound(delayed, fb, b);
  }

  lemma {:induction false} MixedBound(x: real, wet: real, mix: real, b: real)
    requires Abs(x) <= b && Abs(wet) <= b && 0.0 <= mix <= 1.0
    ensures Abs(Mixed(x, wet, mix)) <= b
  {
    CrossfadeBound(x, wet, mix, b);
  }

  lemma {:induction false} NonNegativeFactor(b: real, p: real)
    requires 0.0 < p && 0.0 <= b * p
    ensures 0.0 <= b
  {
  }

  lemma {:induction false} ProductSign(a: real, b: real)
    requires 0.0 <= a && 0.0 <= b
    ensures 0.0 <= a * b
  {
  }

  /** The limit of a feedback loop with gain `fb` fed with values up to `m`, when 1 / (1 - fb) <= k. */
  lemma {:induction false} LoopLimit(m: real, fb: real, k: real)
    requires 0.0 <= m && 0.0 <= fb < 1.0 && 1.0 <= k * (1.0 - fb)
    ensures var b := m / (1.0 - fb); 0.0 <= m <= b <= k * m && m + b * fb == b
  {
    var p := 1.0 - fb;
    var b := m / p;
    assert b * p == m;
    NonNegativeFactor(b, p);
    ProductSign(b, fb);
    assert b * p == b - b * fb;
    ProductSign(b, k * p - 1.0);
    assert b * (k * p - 1.0) == k * (b * p) - b;
  }
}
