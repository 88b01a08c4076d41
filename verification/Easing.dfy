/** Smoothstep easing and how fast it can move. */
module Easing {
  import opened Reals

  function Clamp01(t: real): real { Clamp(t, 0.0, 1.0) }

  function Smoothstep(t: real): real {
    var u := Clamp01(t);
    u * u * (3.0 - 2.0 * u)
  }

  function Lerp(a: real, b: real, t: real): real { a + (b - a) * t }

  /** The slope of the smoothstep chord from `u` to `v`. */
  function Chord(u: real, v: real): real {
    3.0 * (u + v) - 2.0 * (u * u + u * v + v * v)
  }

  lemma ChordParts(u: real, v: real)
    ensures Chord(u, v) == 2.0 * Product(u, 1.0 - u) + 2.0 * Product(v, 1.0 - v)
                           + Product(u, 1.0 - v) + Product(v, 1.0 - u)
  {
  }

  lemma ChordBounds(u: real, v: real)
    requires 0.0 <= u <= 1.0 && 0.0 <= v <= 1.0
    ensures 0.0 <= Chord(u, v) <= 1.5
  {
    ChordParts(u, v);
    assert 1.5 - Chord(u, v) == 1.5 * Product(1.0 - u - v, 1.0 - u - v) + 0.5 * Product(u - v, u - v);
    hide Product, Chord;
    ProductSign(u, 1.0 - u);
    ProductSign(v, 1.0 - v);
    ProductSign(u, 1.0 - v);
    ProductSign(v, 1.0 - u);
    ProductSign(1.0 - u - v, 1.0 - u - v);
    ProductSign(u - v, u - v);
  }

  lemma ChordRises(u: real, v: real)
    ensures v * v * (3.0 - 2.0 * v) - u * u * (3.0 - 2.0 * u) == Product(v - u, Chord(u, v))
  {
  }

  /** Smoothstep never falls, and rises at most one and a half times as fast as its argument. */
  lemma SmoothstepSpread(s: real, t: real)
    requires s <= t
    ensures 0.0 <= Smoothstep(t) - Smoothstep(s) <= 1.5 * (Clamp01(t) - Clamp01(s))
  {
    var (u, v) := (Clamp01(s), Clamp01(t));
    ChordRises(u, v);
    ChordBounds(u, v);
    assert Product(v - u, 1.5 - Chord(u, v)) == 1.5 * (v - u) - Product(v - u, Chord(u, v));
    hide Product, Chord;
    ProductSign(v - u, Chord(u, v));
    ProductSign(v - u, 1.5 - Chord(u, v));
  }

  lemma SmoothstepRange(t: real)
    ensures 0.0 <= Smoothstep(t) <= 1.0
    ensures t <= 0.0 ==> Smoothstep(t) == 0.0
    ensures t >= 1.0 ==> Smoothstep(t) == 1.0
  {
    var u := Clamp01(t);
    SmoothstepSpread(0.0, u);
    SmoothstepSpread(u, 1.0);
  }

  /** Within its range it rises all the way. */
  lemma SmoothstepRises(s: real, t: real)
    requires 0.0 <= s < t <= 1.0
    ensures Smoothstep(s) < Smoothstep(t)
  {
    hide Product, Chord;
    ChordRises(s, t);
    ChordParts(s, t);
    ProductSign(s, 1.0 - s);
    ProductSign(t, 1.0 - t);
    ProductSign(s, 1.0 - t);
    ProductSign(t, 1.0 - s);
    ProductSign(t - s, Chord(s, t));
  }

  /** Before its end the curve has not arrived. */
  lemma SmoothstepShort(t: real)
    requires t < 1.0
    ensures Smoothstep(t) < 1.0
  {
    var u := Clamp01(t);
    assert 1.0 - Smoothstep(t) == Product(Product(1.0 - u, 1.0 - u), 1.0 + 2.0 * u);
    hide Product;
    ProductSign(1.0 - u, 1.0 - u);
    ProductSign(Product(1.0 - u, 1.0 - u), 1.0 + 2.0 * u);
  }

  /** It starts and ends gently, and its second half mirrors its first. */
  lemma SmoothstepEases(t: real)
    requires 0.0 <= t <= 1.0
    ensures Smoothstep(t) <= 3.0 * t * t && 1.0 - Smoothstep(t) <= 3.0 * (1.0 - t) * (1.0 - t)
    ensures Smoothstep(1.0 - t) == 1.0 - Smoothstep(t)
  {
    assert Smoothstep(t) == Product(Product(t, t), 3.0 - 2.0 * t);
    assert 1.0 - Smoothstep(t) == Product(Product(1.0 - t, 1.0 - t), 1.0 + 2.0 * t);
    assert 3.0 * t * t - Product(Product(t, t), 3.0 - 2.0 * t) == Product(Product(t, t), 2.0 * t);
    assert 3.0 * (1.0 - t) * (1.0 - t) - Product(Product(1.0 - t, 1.0 - t), 1.0 + 2.0 * t)
        == Product(Product(1.0 - t, 1.0 - t), 2.0 - 2.0 * t);
    MirrorIsRest(t);
    hide Product, Smoothstep;
    ProductSign(t, t);
    ProductSign(1.0 - t, 1.0 - t);
    ProductSign(Product(t, t), 2.0 * t);
    ProductSign(Product(1.0 - t, 1.0 - t), 2.0 - 2.0 * t);
  }

  lemma MirrorIsRest(t: real)
    requires 0.0 <= t <= 1.0
    ensures Smoothstep(1.0 - t) == 1.0 - Smoothstep(t)
  {
  }

  // ------------------------------------------------------------------------------ ramps

  /** Progress at time `e` through a phase of length `len` starting at `s`. */
  function Ramp(s: real, len: real, e: real): real
    requires len > 0.0
  {
    Smoothstep((e - s) / len)
  }

  /** How much of the time up to `e` falls into the phase. */
  function Spent(s: real, len: real, e: real): real { Clamp(e, s, s + len) - s }

  lemma ClampedProgress(s: real, len: real, e: real)
    requires len > 0.0
    ensures len * Clamp01((e - s) / len) == Spent(s, len, e)
  {
    var q := (e - s) / len;
    Quotient(e - s, len);
    assert Product(len, q) == e - s && Product(len, 1.0 - q) == s + len - e;
    hide Product;
    ProductSign(len, q);
    ProductSign(len, 1.0 - q);
    ProductSign(len, -q);
    ProductSign(len, q - 1.0);
    ProductOne(len, q);
  }

  lemma ProductOne(k: real, q: real)
    ensures Product(k, -q) == -Product(k, q) && Product(k, q - 1.0) == -Product(k, 1.0 - q)
    ensures Product(k, q) == k * q
  {
  }

  /** A phase advances at most one and a half times its share of the time spent in it. */
  lemma RampSpread(s: real, len: real, e1: real, e2: real)
    requires len > 0.0 && e1 <= e2
    ensures 0.0 <= Ramp(s, len, e2) - Ramp(s, len, e1)
    ensures len * (Ramp(s, len, e2) - Ramp(s, len, e1)) <= 1.5 * (Spent(s, len, e2) - Spent(s, len, e1))
  {
    var (p1, p2) := ((e1 - s) / len, (e2 - s) / len);
    QuotientOrder(e1 - s, e2 - s, len);
    SmoothstepSpread(p1, p2);
    ClampedProgress(s, len, e1);
    ClampedProgress(s, len, e2);
    var (rise, room) := (Smoothstep(p2) - Smoothstep(p1), Clamp01(p2) - Clamp01(p1));
    hide Smoothstep, Clamp01, Clamp;
    assert Product(len, 1.5 * room - rise) == 1.5 * (len * room) - len * rise;
    ProductSign(len, 1.5 * room - rise);
  }

  lemma QuotientOrder(a: real, b: real, len: real)
    requires len > 0.0 && a <= b
    ensures a / len <= b / len
  {
  }

  lemma RampEnds(s: real, len: real, e: real)
    requires len > 0.0
    ensures 0.0 <= Ramp(s, len, e) <= 1.0
    ensures e <= s ==> Ramp(s, len, e) == 0.0
    ensures e >= s + len ==> Ramp(s, len, e) == 1.0
  {
    hide Smoothstep;
    SmoothstepRange((e - s) / len);
    if e <= s {
      QuotientOrder(e - s, 0.0, len);
    } else if e >= s + len {
      QuotientOrder(len, e - s, len);
    }
  }
}
