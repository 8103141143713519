/** Machine integers of the accelerator, and the dot product that every layer computes. */
module Arith {

  type Int8 = x: int | -0x80 <= x < 0x80
  type Int32 = x: int | -0x8000_0000 <= x < 0x8000_0000

  /** Matrices are row-major sequences of rows. */
  type Row8 = seq<Int8>
  type Row32 = seq<Int32>
  type Mat8 = seq<Row8>
  type Mat32 = seq<Row32>

  const TWO32 := 0x1_0000_0000

  /** Two's-complement truncation to 32 bits: what a 32-bit register keeps of an integer. */
  function Wrap32(x: int): Int32
    decreases if x < 0 then -x else x + 1
  {
    if x < -0x8000_0000 then Wrap32(x + TWO32)
    else if x >= 0x8000_0000 then Wrap32(x - TWO32)
    else x
  }

  /** It is the representative of `x` modulo 2^32 in the signed range. */
  lemma {:induction false} Wrap32Modulo(x: int)
    ensures Wrap32(x) == (x + 0x8000_0000) % 0x1_0000_0000 - 0x8000_0000
    decreases if x < 0 then -x else x + 1
  {
    if x < -0x8000_0000 {
      Wrap32Modulo(x + TWO32);
    } else if x >= 0x8000_0000 {
      Wrap32Modulo(x - TWO32);
    }
  }

  /** Wrapping early or late makes no difference to a sum. */
  lemma Wrap32Add(a: int, b: int)
    ensures Wrap32(Wrap32(a) + b) == Wrap32(a + b)
  {
    Wrap32Modulo(a);
    Wrap32Modulo(a + b);
    Wrap32Modulo(Wrap32(a) + b);
  }

  lemma Wrap32Add2(a: int, b: int)
    ensures Wrap32(Wrap32(a) + Wrap32(b)) == Wrap32(a + b)
  {
    Wrap32Add(a, Wrap32(b));
    Wrap32Add(b, a);
  }

  /** What a 32-bit unsigned register keeps of an integer. */
  function U32(x: int): (r: nat)
    ensures r < TWO32
  {
    x % 0x1_0000_0000
  }

  /** Remainder by repeated subtraction: how an index wraps around a buffer of `d` cells. */
  function Mod(x: nat, d: nat): (r: nat)
    requires d > 0
    ensures r < d
  {
    if x < d then x else Mod(x - d, d)
  }

  lemma {:induction false} ModIsRemainder(x: nat, d: nat)
    requires d > 0
    ensures Mod(x, d) == x % d
  {
    if x < d {
      DivModUnique(x, d, 0, x);
    } else {
      ModIsRemainder(x - d, d);
      OneMore(x - d, d);
    }
  }

  lemma OneMore(x: nat, d: nat)
    requires d > 0
    ensures (x + d) % d == x % d
  {
    assert (x / d + 1) * d == (x / d) * d + d;
    DivModUnique(x + d, d, x / d + 1, x % d);
  }

  lemma DivModUnique(x: nat, d: nat, q: nat, r: nat)
    requires r < d && x == q * d + r
    ensures x / d == q && x % d == r
  {
    var q', r' := x / d, x % d;
    assert x == q' * d + r';
    if q < q' { MulGap(q, q', d); } else if q' < q { MulGap(q', q, d); }
  }

  /** Different multiples of `d` are at least `d` apart. */
  lemma {:induction false} MulGap(q: nat, q': nat, d: nat)
    requires q < q'
    ensures q * d + d <= q' * d
  {
    assert q' * d == (q' - 1) * d + d;
    if q < q' - 1 { MulGap(q, q' - 1, d); }
  }

  /** Two numbers less than `d` apart have different remainders. */
  lemma {:induction false} ModInjective(x: nat, y: nat, d: nat)
    requires d > 0 && x < y < x + d
    ensures Mod(x, d) != Mod(y, d)
  {
    if x >= d {
      ModInjective(x - d, y - d, d);
    } else if y >= d {
      assert Mod(y, d) == y - d;
    }
  }

  /** `m` has `rows` rows of `cols` entries. */
  predicate Shape<T>(m: seq<seq<T>>, rows: nat, cols: nat) {
    |m| == rows && forall i :: 0 <= i < rows ==> |m[i]| == cols
  }

  /** The first `n` products of row `a` with column `c` of `w`, summed over the integers. */
  function Dot(a: Row8, w: Mat8, c: nat, n: nat): int
    requires n <= |a| && n <= |w|
    requires forall i :: 0 <= i < n ==> c < |w[i]|
  {
    if n == 0 then 0 else Dot(a, w, c, n - 1) + a[n-1] as int * w[n-1][c] as int
  }

  /** A row times a matrix: one row of the int32 golden result `A @ W`. */
  function RowTimes(a: Row8, w: Mat8, cols: nat): (r: Row32)
    requires Shape(w, |a|, cols)
    ensures |r| == cols
  {
    seq(cols, c requires 0 <= c < cols => Wrap32(Dot(a, w, c, |a|)))
  }

  /** The golden model: `A @ W`, accumulated in int32. */
  function MatMul(a: Mat8, w: Mat8, k: nat, cols: nat): (r: Mat32)
    requires Shape(a, |a|, k) && Shape(w, k, cols)
    ensures Shape(r, |a|, cols)
  {
    seq(|a|, m requires 0 <= m < |a| => RowTimes(a[m], w, cols))
  }

  /** `acc + bias`, in int32. */
  function AddBias(acc: Row32, bias: Row32): (r: Row32)
    requires |acc| == |bias|
    ensures |r| == |acc|
  {
    seq<Int32>(|acc|, i requires 0 <= i < |acc| => Wrap32(acc[i] as int + bias[i] as int))
  }

  function Zeros8(n: nat): (r: Row8) ensures |r| == n && forall i :: 0 <= i < n ==> r[i] == 0 {
    seq(n, i => 0)
  }

  function Zeros32(n: nat): (r: Row32) ensures |r| == n && forall i :: 0 <= i < n ==> r[i] == 0 {
    seq(n, i => 0)
  }

  function Min(a: int, b: int): int { if a < b then a else b }
}
