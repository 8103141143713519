/** Fixed-point requantisation (sched/mnist/quantize.py:18-46, sw/int8_mlp.h:25-39). */
module Requant {
  import opened Arith

  type Int64 = x: int | -0x8000_0000_0000_0000 <= x < 0x8000_0000_0000_0000

  /** Two's-complement truncation to 64 bits. */
  function Wrap64(x: int): Int64
    decreases if x < 0 then -x else x + 1
  {
    if x < -0x8000_0000_0000_0000 then Wrap64(x + 0x1_0000_0000_0000_0000)
    else if x >= 0x8000_0000_0000_0000 then Wrap64(x - 0x1_0000_0000_0000_0000)
    else x
  }

  lemma {:induction false} Wrap64Modulo(x: int)
    ensures Wrap64(x) == (x + 0x8000_0000_0000_0000) % 0x1_0000_0000_0000_0000 - 0x8000_0000_0000_0000
    decreases if x < 0 then -x else x + 1
  {
    if x < -0x8000_0000_0000_0000 {
      Wrap64Modulo(x + 0x1_0000_0000_0000_0000);
    } else if x >= 0x8000_0000_0000_0000 {
      Wrap64Modulo(x - 0x1_0000_0000_0000_0000);
    }
  }

  /** 2^k for any integer k. */
  function Pow2(k: int): (r: real)
    ensures r > 0.0
    decreases if k < 0 then -k else k
  {
    if k == 0 then 1.0 else if k > 0 then 2.0 * Pow2(k - 1) else Pow2(k + 1) / 2.0
  }

  lemma Pow2Step(k: int)
    ensures Pow2(k + 1) == 2.0 * Pow2(k)
  {
  }

  /** Rounding to the nearest integer, ties to even. */
  function Round(x: real): (r: int)
    ensures -0.5 <= r as real - x <= 0.5
    ensures x == r as real - 0.5 || x == r as real + 0.5 ==> r % 2 == 0
  {
    var f := x.Floor;
    var d := x - f as real;
    if d < 0.5 || (d == 0.5 && f % 2 == 0) then f else f + 1
  }

  // --- quantize_multiplier ---

  /** The loops move powers of two between `m` and `shift`. */
  predicate Scaled(m: real, shift: int, multiplier: real) { m * Pow2(shift) == multiplier }

  lemma HalveScaled(m: real, shift: int, multiplier: real)
    requires Scaled(m, shift, multiplier)
    ensures Scaled(m / 2.0, shift + 1, multiplier)
  {
    Pow2Step(shift);
    var p := Pow2(shift);
    assert (m / 2.0) * (2.0 * p) == m * p;
  }

  lemma DoubleScaled(m: real, shift: int, multiplier: real)
    requires Scaled(m, shift, multiplier)
    ensures Scaled(m * 2.0, shift - 1, multiplier)
  {
    Pow2Step(shift - 1);
    var p := Pow2(shift - 1);
    assert (m * 2.0) * p == m * (2.0 * p);
  }

  /** Halving a number that is at least 1 lowers its floor. */
  lemma FloorDrops(m: real)
    requires m >= 1.0
    ensures 0 <= (m / 2.0).Floor < m.Floor
  {
  }

  /** Doubling a number below 1/2 lowers the floor of its reciprocal. */
  lemma ReciprocalDrops(m: real)
    requires 0.0 < m < 0.5
    ensures 0 <= (1.0 / (m * 2.0)).Floor < (1.0 / m).Floor
  {
    var r := 1.0 / m;
    assert r * m == 1.0;
    if r <= 2.0 {
      Scale(r, 2.0, m);
      assert false;
    }
    assert 1.0 / (m * 2.0) == r / 2.0;
    FloorDrops(r);
  }

  /** Terminates for every multiplier, and represents a positive one with relative error 2^-31. */
  method QuantizeMultiplier(multiplier: real) returns (q: int, shift: int)
    ensures multiplier <= 0.0 ==> q == 0 && shift == 0
    ensures multiplier > 0.0 ==> 0x4000_0000 <= q < 0x8000_0000 && Close(multiplier, q, shift)
  {
    if multiplier <= 0.0 { return 0, 0; }
    hide Scaled, Close;
    var m := multiplier;
    shift := 0;
    Unscaled(m);
    while m >= 1.0
      invariant m > 0.0 && Scaled(m, shift, multiplier)
      decreases m.Floor
    {
      FloorDrops(m);
      HalveScaled(m, shift, multiplier);
      m := m / 2.0;
      shift := shift + 1;
    }
    while m < 0.5
      invariant 0.0 < m < 1.0 && Scaled(m, shift, multiplier)
      decreases (1.0 / m).Floor
    {
      ReciprocalDrops(m);
      DoubleScaled(m, shift, multiplier);
      m := m * 2.0;
      shift := shift - 1;
    }
    q := Round(m * 2147483648.0);
    RoundedClose(m, shift, multiplier, q);
    if q == 0x8000_0000 {
      q := q / 2;
      shift := shift + 1;
    }
  }

  /** The represented multiplier is within `m * 2^-31` of `m`. */
  predicate Close(m: real, m0: int, shift: int) {
    -m <= m0 as real * Pow2(shift) - m * 2147483648.0 <= m
  }

  lemma Unscaled(m: real)
    ensures Scaled(m, 0, m)
  {
  }

  lemma RoundedClose(m: real, shift: int, multiplier: real, q: int)
    requires 0.5 <= m < 1.0 && Scaled(m, shift, multiplier) && q == Round(m * 2147483648.0)
    ensures 0x4000_0000 <= q <= 0x8000_0000
    ensures q < 0x8000_0000 ==> Close(multiplier, q, shift)
    ensures q == 0x8000_0000 ==> Close(multiplier, q / 2, shift + 1)
  {
    var p := Pow2(shift);
    var v := q as real * p;
    ErrorBound(m, p, q, multiplier, v);
    if q == 0x8000_0000 {
      Pow2Step(shift);
      assert (q / 2) as real == 1073741824.0;
      assert v == 1073741824.0 * (2.0 * p);
      assert Close(multiplier, q / 2, shift + 1);
    }
  }

  /** Half a unit in the last place is at most `m`, because `m` is at least one half. */
  lemma ErrorBound(m: real, p: real, q: int, mp: real, qp: real)
    requires 0.5 <= m < 1.0 && p > 0.0 && q == Round(m * 2147483648.0) && mp == m * p && qp == q as real * p
    ensures 0x4000_0000 <= q <= 0x8000_0000
    ensures -mp <= qp - mp * 2147483648.0 <= mp
  {
    var e := q as real - m * 2147483648.0;
    ScaledError(e, m, p);
    Spread(q as real, m, p);
  }

  lemma Spread(q: real, m: real, p: real)
    ensures (q - m * 2147483648.0) * p == q * p - m * p * 2147483648.0
  {
  }

  lemma ScaledError(e: real, m: real, p: real)
    requires 0.5 <= m && p > 0.0 && -0.5 <= e <= 0.5
    ensures -(m * p) <= e * p <= m * p
  {
    Scale(-m, e, p);
    Scale(e, m, p);
    assert (-m) * p == -(m * p);
  }

  lemma Scale(x: real, y: real, p: real)
    requires x <= y && p >= 0.0
    ensures x * p <= y * p
  {
  }

  // --- apply_requant ---

  function P2(k: nat): (r: nat)
    ensures r > 0
  {
    if k == 0 then 1 else 2 * P2(k - 1)
  }

  /** Arithmetic shift right: the floor of `x / 2^k`. */
  function Shr(x: int, k: nat): int
    decreases k
  {
    if k == 0 then x else Shr(x / 2, k - 1)
  }

  lemma {:induction false} ShrIsFloor(x: int, k: nat)
    ensures Shr(x, k) * P2(k) <= x < (Shr(x, k) + 1) * P2(k)
    decreases k
  {
    if k > 0 {
      ShrIsFloor(x / 2, k - 1);
      DoubleFloor(x, Shr(x / 2, k - 1), P2(k - 1));
    }
  }

  lemma DoubleFloor(x: int, s: int, p: nat)
    requires s * p <= x / 2 < (s + 1) * p
    ensures s * (2 * p) <= x < (s + 1) * (2 * p)
  {
    TwiceProduct(s, p);
    TwiceProduct(s + 1, p);
    HalfBounds(x, s * p, (s + 1) * p);
  }

  lemma TwiceProduct(s: int, p: int)
    ensures s * (2 * p) == 2 * (s * p)
  {
  }

  lemma HalfBounds(x: int, lo: int, hi: int)
    requires lo <= x / 2 < hi
    ensures 2 * lo <= x < 2 * hi
  {
  }

  lemma {:induction false} ShrMonotone(x: int, y: int, k: nat)
    requires x <= y
    ensures Shr(x, k) <= Shr(y, k)
    decreases k
  {
    if k > 0 { ShrMonotone(x / 2, y / 2, k - 1); }
  }

  function Rounding(rs: nat): nat { if rs > 0 then P2(rs - 1) else 0 }

  /** The integer-only rescale, each step truncated to int64. A shift distance of 64 or more is undefined. */
  function ApplyRequant(acc: Int32, m0: Int32, shift: int): Int64
    requires -32 <= shift <= 94
  {
    var prod := Wrap64(acc * m0);
    var rs := 31 - shift;
    if rs >= 0 then Wrap64(Shr(Wrap64(prod + Rounding(rs)), rs)) else Wrap64(prod * P2(-rs))
  }

  lemma P2Bound(k: nat)
    requires k <= 62
    ensures P2(k) <= 0x4000_0000_0000_0000
  {
    P2Split(k, 62);
    assert P2(62) == 0x4000_0000_0000_0000 by { P2Values(); }
  }

  lemma {:induction false} P2Split(k: nat, n: nat)
    requires k <= n
    ensures P2(k) <= P2(n)
  {
    if k < n { P2Split(k, n - 1); }
  }

  lemma P2Values()
    ensures P2(31) == 0x8000_0000 && P2(62) == 0x4000_0000_0000_0000
  {
    assert P2(8) == 0x100;
    assert P2(16) == 0x1_0000;
    assert P2(24) == 0x100_0000;
    assert P2(31) == 0x8000_0000;
    assert P2(39) == 0x80_0000_0000;
    assert P2(47) == 0x8000_0000_0000;
    assert P2(55) == 0x80_0000_0000_0000;
  }

  /** The rescale over the integers: round half up of `acc * M0 / 2^rs`. */
  function Exact(acc: int, m0: int, rs: nat): int { Shr(acc * m0 + Rounding(rs), rs) }

  /** For every shift distance from 0 to 63 no int64 step overflows. */
  lemma {:induction false} NoOverflow(acc: Int32, m0: Int32, shift: int)
    requires m0 >= 0 && -32 <= shift <= 31
    ensures ApplyRequant(acc, m0, shift) == Exact(acc, m0, 31 - shift)
  {
    var rs := 31 - shift;
    ProductBound(acc, m0);
    if rs > 0 { P2Bound(rs - 1); }
    ShrInRange(acc * m0 + Rounding(rs), rs);
  }

  lemma ProductBound(x: Int32, m0: Int32)
    requires m0 >= 0
    ensures -0x4000_0000_0000_0000 <= x * m0 < 0x4000_0000_0000_0000
  {
    Times(-0x8000_0000, x, m0);
    Times(x, 0x7fff_ffff, m0);
  }

  /** Beyond a shift of 31 the rescale multiplies by a power of two, modulo 2^64. */
  lemma LeftShift(acc: Int32, m0: Int32, shift: int)
    requires m0 >= 0 && 31 < shift <= 94
    ensures var x := acc * m0 * P2(shift - 31);
      ApplyRequant(acc, m0, shift) == (x + 0x8000_0000_0000_0000) % 0x1_0000_0000_0000_0000 - 0x8000_0000_0000_0000
  {
    ProductBound(acc, m0);
    Wrap64Modulo(acc * m0 * P2(shift - 31));
    hide P2;
  }

  lemma Times(x: int, y: int, m: int)
    requires x <= y && m >= 0
    ensures x * m <= y * m
  {
  }

  lemma {:induction false} ShrInRange(x: Int64, k: nat)
    ensures -0x8000_0000_0000_0000 <= Shr(x, k) < 0x8000_0000_0000_0000
    decreases k
  {
    if k > 0 { ShrInRange(x / 2, k - 1); }
  }

  /** The rescale preserves order. */
  lemma {:induction false} Monotone(acc: Int32, acc': Int32, m0: Int32, shift: int)
    requires m0 >= 0 && -32 <= shift <= 31 && acc <= acc'
    ensures ApplyRequant(acc, m0, shift) <= ApplyRequant(acc', m0, shift)
  {
    NoOverflow(acc, m0, shift);
    NoOverflow(acc', m0, shift);
    Times(acc, acc', m0);
    ShrMonotone(acc * m0 + Rounding(31 - shift), acc' * m0 + Rounding(31 - shift), 31 - shift);
  }

  /** Rounding to a multiple of 2^rs is off by at most half of it, and ties go up. */
  lemma {:induction false} ExactIsNearest(acc: int, m0: int, rs: nat)
    ensures 0 - P2(rs) < 2 * (Exact(acc, m0, rs) * P2(rs) - acc * m0) <= P2(rs)
  {
    var x, d := acc * m0 + Rounding(rs), P2(rs);
    ShrIsFloor(x, rs);
    assert (Shr(x, rs) + 1) * d == Shr(x, rs) * d + d;
  }

  lemma HalfUnit(out: int, p: int, d: nat)
    requires d > 0 && 0 - d <= 2 * (out * d - p) <= d
    ensures -0.5 <= out as real - p as real / d as real <= 0.5
  {
    var q, t, dr := p as real / d as real, out * d - p, d as real;
    var e := out as real - q;
    assert 0 - d <= 2 * t <= d;
    assert -dr <= 2.0 * t as real <= dr;
    assert e * dr == t as real by {
      assert q * dr == p as real;
      ProductCast(out, d);
      assert e * dr == out as real * dr - q * dr;
    }
    AtMostHalf(e, dr, t as real);
  }

  lemma AtMostHalf(e: real, d: real, t: real)
    requires d > 0.0 && t == e * d && -d <= 2.0 * t <= d
    ensures -0.5 <= e <= 0.5
  {
    Unscale(-0.5, e, d);
    Unscale(e, 0.5, d);
  }

  lemma Unscale(x: real, y: real, p: real)
    requires p > 0.0 && x * p <= y * p
    ensures x <= y
  {
    if x > y { ScaleStrict(y, x, p); }
  }

  lemma {:induction false} ProductCast(x: int, d: nat)
    ensures (x * d) as real == x as real * d as real
  {
    if d > 0 {
      ProductCast(x, d - 1);
      assert x * d == x * (d - 1) + x;
    }
  }

  lemma ScaleStrict(x: real, y: real, p: real)
    requires x < y && p > 0.0
    ensures x * p < y * p
  {
  }

  lemma {:induction false} Pow2TimesP2(rs: nat)
    ensures Pow2(31 - rs) * P2(rs) as real == 2147483648.0
  {
    if rs == 0 {
      Pow2Values();
    } else {
      Pow2TimesP2(rs - 1);
      Pow2Step(31 - rs);
      var p, d := Pow2(31 - rs), P2(rs - 1);
      assert p * (2 * d) as real == (2.0 * p) * d as real;
    }
  }

  lemma Pow2Values()
    ensures Pow2(31) == 2147483648.0
  {
    assert Pow2(8) == 256.0;
    assert Pow2(16) == 65536.0;
    assert Pow2(24) == 16777216.0;
  }

  /** `acc` times the represented multiplier. */
  function Represented(acc: int, m0: int, shift: int): real { acc as real * (m0 as real * Pow2(shift)) / 2147483648.0 }

  lemma QuotientIsRepresented(acc: int, m0: int, rs: nat)
    ensures (acc * m0) as real / P2(rs) as real == Represented(acc, m0, 31 - rs)
  {
    Pow2TimesP2(rs);
    SameQuotient(acc as real, m0 as real, P2(rs) as real, Pow2(31 - rs));
    hide Pow2, P2;
  }

  lemma SameQuotient(x: real, y: real, d: real, p: real)
    requires d > 0.0 && p * d == 2147483648.0
    ensures (x * y) / d == x * (y * p) / 2147483648.0
  {
    assert (x * y) / d * (d * p) == (x * y) * p by { assert (x * y) / d * d == x * y; }
  }

  lemma ExactError(acc: int, m0: int, rs: nat)
    ensures -0.5 <= Exact(acc, m0, rs) as real - Represented(acc, m0, 31 - rs) <= 0.5
  {
    hide Exact, P2, Represented;
    ExactIsNearest(acc, m0, rs);
    HalfUnit(Exact(acc, m0, rs), acc * m0, P2(rs));
    QuotientIsRepresented(acc, m0, rs);
  }

  lemma RelativeError(x: real, y: real, m: real)
    requires m >= 0.0 && -m <= y - m * 2147483648.0 <= m
    ensures -(Abs(x) * m) <= x * y - x * m * 2147483648.0 <= Abs(x) * m
  {
    var e := y - m * 2147483648.0;
    assert x * y - x * m * 2147483648.0 == x * e;
    if x >= 0.0 { Scale(-m, e, x); Scale(e, m, x); } else { Scale(-m, e, -x); Scale(e, m, -x); }
  }

  lemma RepresentedError(acc: int, m0: int, shift: int, m: real)
    requires m > 0.0 && Close(m, m0, shift)
    ensures var slack := Abs(acc as real) * m / 2147483648.0;
      -slack <= Represented(acc, m0, shift) - acc as real * m <= slack
  {
    RelativeError(acc as real, m0 as real * Pow2(shift), m);
  }

  /** With M0 and shift from `QuantizeMultiplier(m)`, requantisation is off from `acc * m` by at most one
      half plus the multiplier's own relative error. */
  lemma {:induction false} RequantError(acc: Int32, m0: Int32, shift: int, m: real)
    requires m > 0.0 && m0 >= 0 && -32 <= shift <= 31 && Close(m, m0, shift)
    ensures var slack := 0.5 + Abs(acc as real) * m / 2147483648.0;
      -slack <= ApplyRequant(acc, m0, shift) as real - acc as real * m <= slack
  {
    hide ApplyRequant, Exact, Represented, Close;
    NoOverflow(acc, m0, shift);
    ExactError(acc, m0, 31 - shift);
    RepresentedError(acc, m0, shift, m);
  }

  function Abs(x: real): real { if x < 0.0 then -x else x }

  // --- clipping ---

  function Clip(v: int, lo: int, hi: int): int { if v < lo then lo else if v > hi then hi else v }

  /** Clamp to 0..127: ReLU and saturation in one. */
  method ClipRelu(v: Int64) returns (r: Int8)
    ensures (v < 0 ==> r == 0) && (0 <= v <= 127 ==> r == v) && (v > 127 ==> r == 127)
  {
    var x := v;
    if x < 0 { x := 0; }
    if x > 127 { x := 127; }
    r := x;
  }
}
