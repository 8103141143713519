/** im2col convolution (sched/nn/layers.py): patches, the weight matrix, and what their product is. */
module Conv {
  import opened Arith
  import opened Tiling

  /** An (N, C, H, W) int8 tensor. */
  datatype Images = Images(n: nat, c: nat, h: nat, w: nat, px: seq<seq<seq<Row8>>>) {
    predicate Valid() {
      |px| == n && (forall b :: 0 <= b < n ==> |px[b]| == c) && (forall b, k :: 0 <= b < n && 0 <= k < c ==> Shape(px[b][k], h, w))
    }
  }

  // --- row-major positions ---

  datatype Index = Index(a: nat, i: nat, j: nat)

  /** Number of indices of an array with these dimensions. */
  function Count(n: nat, d1: nat, d2: nat): nat { n * d1 * d2 }

  /** Row-major position of an index, where the last two dimensions are `d1` and `d2`. */
  function Pos(x: Index, d1: nat, d2: nat): nat { (x.a * d1 + x.i) * d2 + x.j }

  predicate InRange(x: Index, n: nat, d1: nat, d2: nat) { x.a < n && x.i < d1 && x.j < d2 }

  /** The index at a position. */
  function At(m: nat, n: nat, d1: nat, d2: nat): (x: Index)
    requires m < Count(n, d1, d2)
    ensures InRange(x, n, d1, d2) && Pos(x, d1, d2) == m
  {
    Positive(n * d1, d2);
    Positive(n, d1);
    Quotient(m, n * d1, d2);
    Quotient(m / d2, n, d1);
    Index(m / d2 / d1, m / d2 % d1, m % d2)
  }

  /** Positions and indices are in bijection. */
  lemma {:induction false} AtPos(x: Index, n: nat, d1: nat, d2: nat)
    requires InRange(x, n, d1, d2)
    ensures Pos(x, d1, d2) < Count(n, d1, d2) && At(Pos(x, d1, d2), n, d1, d2) == x
  {
    MulBound(x.a, x.i, n, d1);
    MulBound(x.a * d1 + x.i, x.j, n * d1, d2);
    DivModUnique(Pos(x, d1, d2), d2, x.a * d1 + x.i, x.j);
    DivModUnique(x.a * d1 + x.i, d1, x.a, x.i);
  }

  lemma Positive(x: nat, y: nat)
    requires x * y > 0
    ensures x > 0 && y > 0
  {
  }

  lemma Quotient(m: nat, n: nat, d: nat)
    requires d > 0 && m < n * d
    ensures m / d < n && (m / d) * d + m % d == m
  {
    if m / d > n { MulGap(n, m / d, d); }
  }

  lemma MulBound(a: nat, i: nat, n: nat, d: nat)
    requires a < n && i < d
    ensures a * d + i < n * d
  {
    MulGap(a, n, d);
  }

  // --- patches ---

  /** A `kh` x `kw` valid convolution exists; a negative output size is an error. */
  predicate Fits(x: Images, kh: nat, kw: nat) { kh > 0 && kw > 0 && x.h + 1 >= kh && x.w + 1 >= kw }

  function OutH(x: Images, kh: nat): nat requires x.h + 1 >= kh { x.h + 1 - kh }

  function OutW(x: Images, kw: nat): nat requires x.w + 1 >= kw { x.w + 1 - kw }

  function PatchRows(x: Images, kh: nat, kw: nat): nat requires Fits(x, kh, kw) { Count(x.n, OutH(x, kh), OutW(x, kw)) }

  /** Row `r` is an output pixel, column `q` a channel and an offset under the kernel. */
  function Under(x: Images, kh: nat, kw: nat, r: Index, q: Index): Int8
    requires x.Valid() && Fits(x, kh, kw) && InRange(r, x.n, OutH(x, kh), OutW(x, kw)) && InRange(q, x.c, kh, kw)
  {
    x.px[r.a][q.a][r.i + q.i][r.j + q.j]
  }

  function PatchAt(x: Images, kh: nat, kw: nat, m: nat, k: nat): Int8
    requires x.Valid() && Fits(x, kh, kw) && m < PatchRows(x, kh, kw) && k < Count(x.c, kh, kw)
  {
    Under(x, kh, kw, At(m, x.n, OutH(x, kh), OutW(x, kw)), At(k, x.c, kh, kw))
  }

  /** The patch matrix, both of its indices taken apart in row-major order. */
  function Patches(x: Images, kh: nat, kw: nat): (p: Mat8)
    requires x.Valid() && Fits(x, kh, kw)
    ensures Shape(p, PatchRows(x, kh, kw), Count(x.c, kh, kw))
  {
    seq<Row8>(PatchRows(x, kh, kw), m requires 0 <= m < PatchRows(x, kh, kw) =>
      seq<Int8>(Count(x.c, kh, kw), k requires 0 <= k < Count(x.c, kh, kw) => PatchAt(x, kh, kw, m, k)))
  }

  /** Fills the six-dimensional patch array one kernel offset at a time. */
  method FillPatches(x: Images, kh: nat, kw: nat) returns (buf: array6<Int8>)
    requires x.Valid() && Fits(x, kh, kw)
    ensures fresh(buf) && buf.Length0 == x.n && buf.Length1 == OutH(x, kh) && buf.Length2 == OutW(x, kw)
    ensures buf.Length3 == x.c && buf.Length4 == kh && buf.Length5 == kw
    ensures forall b, i, j, c, dy, dx :: 0 <= b < x.n && 0 <= i < OutH(x, kh) && 0 <= j < OutW(x, kw) && 0 <= c < x.c && 0 <= dy < kh && 0 <= dx < kw ==>
      buf[b, i, j, c, dy, dx] == x.px[b][c][i + dy][j + dx]
  {
    var oh, ow := OutH(x, kh), OutW(x, kw);
    buf := new Int8[x.n, oh, ow, x.c, kh, kw]((b, i, j, c, dy, dx) => 0);
    for dy := 0 to kh
      invariant forall b, i, j, c, y, z :: 0 <= b < x.n && 0 <= i < oh && 0 <= j < ow && 0 <= c < x.c && 0 <= y < dy && 0 <= z < kw ==>
        buf[b, i, j, c, y, z] == x.px[b][c][i + y][j + z]
    {
      for dx := 0 to kw
        invariant forall b, i, j, c, y, z :: 0 <= b < x.n && 0 <= i < oh && 0 <= j < ow && 0 <= c < x.c && 0 <= y < dy && 0 <= z < kw ==>
          buf[b, i, j, c, y, z] == x.px[b][c][i + y][j + z]
        invariant forall b, i, j, c, z :: 0 <= b < x.n && 0 <= i < oh && 0 <= j < ow && 0 <= c < x.c && 0 <= z < dx ==>
          buf[b, i, j, c, dy, z] == x.px[b][c][i + dy][j + z]
      {
        forall b, i, j, c | 0 <= b < x.n && 0 <= i < oh && 0 <= j < ow && 0 <= c < x.c {
          buf[b, i, j, c, dy, dx] := x.px[b][c][i + dy][j + dx];
        }
      }
    }
  }

  method Im2col(x: Images, kh: nat, kw: nat) returns (cols: Mat8)
    requires x.Valid() && Fits(x, kh, kw)
    ensures cols == Patches(x, kh, kw)
  {
    hide At, Count, Pos, Images.Valid;
    var buf := FillPatches(x, kh, kw);
    cols := seq<Row8>(PatchRows(x, kh, kw), m requires 0 <= m < PatchRows(x, kh, kw) reads buf =>
      seq<Int8>(Count(x.c, kh, kw), k requires 0 <= k < Count(x.c, kh, kw) reads buf =>
        var r, q := At(m, x.n, OutH(x, kh), OutW(x, kw)), At(k, x.c, kh, kw);
        buf[r.a, r.i, r.j, q.a, q.i, q.j]));
    forall m, k | 0 <= m < PatchRows(x, kh, kw) && 0 <= k < Count(x.c, kh, kw)
      ensures cols[m][k] == Patches(x, kh, kw)[m][k]
    {
    }
    assert forall m :: 0 <= m < PatchRows(x, kh, kw) ==> cols[m] == Patches(x, kh, kw)[m];
  }

  /** Entry by entry: row `(b * OH + i) * OW + j`, column `(c * kh + dy) * kw + dx` of the patch matrix. */
  lemma {:induction false} PatchLayout(x: Images, kh: nat, kw: nat, r: Index, q: Index, m: nat, k: nat)
    requires x.Valid() && kh > 0 && kw > 0 && r.a < x.n && r.i + kh <= x.h && r.j + kw <= x.w && q.a < x.c && q.i < kh && q.j < kw
    requires m == (r.a * (x.h + 1 - kh) + r.i) * (x.w + 1 - kw) + r.j && k == (q.a * kh + q.i) * kw + q.j
    ensures m < PatchRows(x, kh, kw) && k < Count(x.c, kh, kw)
    ensures Patches(x, kh, kw)[m][k] == x.px[r.a][q.a][r.i + q.i][r.j + q.j]
  {
    hide Count, At;
    AtPos(r, x.n, OutH(x, kh), OutW(x, kw));
    AtPos(q, x.c, kh, kw);
  }

  // --- the product is the direct sum ---

  /** Quantised kernels, (Cout, Cin, kh, kw). */
  datatype Kernel = Kernel(out: nat, c: nat, kh: nat, kw: nat, v: seq<seq<seq<Row8>>>) {
    predicate Valid() {
      |v| == out && (forall o :: 0 <= o < out ==> |v[o]| == c) && (forall o, k :: 0 <= o < out && 0 <= k < c ==> Shape(v[o][k], kh, kw))
    }

    function Weight(o: nat, q: Index): Int8 requires Valid() && o < out && InRange(q, c, kh, kw) { v[o][q.a][q.i][q.j] }
  }

  /** `W.reshape(out_ch, -1).T` */
  function Matrix(g: Kernel): (w: Mat8)
    requires g.Valid()
    ensures Shape(w, Count(g.c, g.kh, g.kw), g.out)
  {
    seq<Row8>(Count(g.c, g.kh, g.kw), k requires 0 <= k < Count(g.c, g.kh, g.kw) =>
      seq<Int8>(g.out, o requires 0 <= o < g.out => g.Weight(o, At(k, g.c, g.kh, g.kw))))
  }

  /** A kernel that can be slid over the images. */
  predicate Matches(x: Images, g: Kernel) { x.Valid() && g.Valid() && Fits(x, g.kh, g.kw) && g.c == x.c }

  predicate OutPixel(x: Images, g: Kernel, r: Index) requires Matches(x, g) { InRange(r, x.n, OutH(x, g.kh), OutW(x, g.kw)) }

  // Sums over kernel columns, kernel rows and input channels of products `f(c, dy, dx)`.

  function Across(f: (nat, nat, nat) -> int, c: nat, dy: nat, n: nat): int {
    if n == 0 then 0 else Across(f, c, dy, n - 1) + f(c, dy, n - 1)
  }

  function Down(f: (nat, nat, nat) -> int, c: nat, n: nat, kw: nat): int {
    if n == 0 then 0 else Down(f, c, n - 1, kw) + Across(f, c, n - 1, kw)
  }

  function Total(f: (nat, nat, nat) -> int, n: nat, kh: nat, kw: nat): int {
    if n == 0 then 0 else Total(f, n - 1, kh, kw) + Down(f, n - 1, kh, kw)
  }

  /** `f` lists the products of the direct convolution for output channel `o` and output pixel `(i, j)` of image `b`:
      the pixel at `(i + dy, j + dx)` of channel `c` times the weight at `(dy, dx)`. */
  predicate Products(x: Images, g: Kernel, b: nat, i: nat, j: nat, o: nat, f: (nat, nat, nat) -> int)
    requires Matches(x, g) && b < x.n && i + g.kh <= x.h && j + g.kw <= x.w && o < g.out
  {
    forall c: nat, dy: nat, dx: nat :: c < g.c && dy < g.kh && dx < g.kw ==>
      f(c, dy, dx) == x.px[b][c][i + dy][j + dx] as int * g.v[o][c][dy][dx] as int
  }

  /** The patch row of an output pixel. */
  function PatchRow(x: Images, g: Kernel, r: Index): (row: Row8)
    requires Matches(x, g) && OutPixel(x, g, r)
    ensures |row| == Count(g.c, g.kh, g.kw)
  {
    AtPos(r, x.n, OutH(x, g.kh), OutW(x, g.kw));
    Patches(x, g.kh, g.kw)[Pos(r, OutH(x, g.kh), OutW(x, g.kw))]
  }

  function Part(x: Images, g: Kernel, r: Index, o: nat, n: nat): int
    requires Matches(x, g) && OutPixel(x, g, r) && o < g.out && n <= Count(g.c, g.kh, g.kw)
  {
    Dot(PatchRow(x, g, r), Matrix(g), o, n)
  }

  lemma PartStep(x: Images, g: Kernel, r: Index, o: nat, f: (nat, nat, nat) -> int, q: Index)
    requires Matches(x, g) && OutPixel(x, g, r) && o < g.out && Products(x, g, r.a, r.i, r.j, o, f) && InRange(q, g.c, g.kh, g.kw)
    ensures var k := Pos(q, g.kh, g.kw);
      k < Count(g.c, g.kh, g.kw) && Part(x, g, r, o, k + 1) == Part(x, g, r, o, k) + f(q.a, q.i, q.j)
  {
    hide Pos, Count, At, Under, Kernel.Weight, Products;
    AtPos(q, g.c, g.kh, g.kw);
    AtPos(r, x.n, OutH(x, g.kh), OutW(x, g.kw));
    var k := Pos(q, g.kh, g.kw);
    assert PatchRow(x, g, r)[k] == Under(x, g.kh, g.kw, r, q);
    assert Matrix(g)[k][o] == g.Weight(o, q);
    TermIs(x, g, r, o, f, q);
  }

  lemma TermIs(x: Images, g: Kernel, r: Index, o: nat, f: (nat, nat, nat) -> int, q: Index)
    requires Matches(x, g) && OutPixel(x, g, r) && o < g.out && Products(x, g, r.a, r.i, r.j, o, f) && InRange(q, g.c, g.kh, g.kw)
    ensures f(q.a, q.i, q.j) == Under(x, g.kh, g.kw, r, q) as int * g.Weight(o, q) as int
  {
  }

  lemma NextPos(q: Index, d1: nat, d2: nat)
    ensures Pos(q.(j := q.j + 1), d1, d2) == Pos(q, d1, d2) + 1
    ensures Pos(Index(q.a, q.i + 1, 0), d1, d2) == Pos(Index(q.a, q.i, d2), d1, d2)
    ensures Pos(Index(q.a + 1, 0, 0), d1, d2) == Pos(Index(q.a, d1, 0), d1, d2)
    ensures Pos(Index(q.a, 0, 0), d1, d2) == Count(q.a, d1, d2)
  {
  }

  lemma {:induction false} PartAcross(x: Images, g: Kernel, r: Index, o: nat, f: (nat, nat, nat) -> int, c: nat, dy: nat, n: nat)
    requires Matches(x, g) && OutPixel(x, g, r) && o < g.out && Products(x, g, r.a, r.i, r.j, o, f) && c < g.c && dy < g.kh && n <= g.kw
    ensures Pos(Index(c, dy, 0), g.kh, g.kw) <= Pos(Index(c, dy, n), g.kh, g.kw) <= Count(g.c, g.kh, g.kw)
    ensures Part(x, g, r, o, Pos(Index(c, dy, n), g.kh, g.kw)) ==
      Part(x, g, r, o, Pos(Index(c, dy, 0), g.kh, g.kw)) + Across(f, c, dy, n)
  {
    hide Part, Pos, Count;
    if n == 0 {
      PartStep(x, g, r, o, f, Index(c, dy, 0));
    } else {
      PartAcross(x, g, r, o, f, c, dy, n - 1);
      PartStep(x, g, r, o, f, Index(c, dy, n - 1));
      NextPos(Index(c, dy, n - 1), g.kh, g.kw);
    }
  }

  lemma {:induction false} PartDown(x: Images, g: Kernel, r: Index, o: nat, f: (nat, nat, nat) -> int, c: nat, n: nat)
    requires Matches(x, g) && OutPixel(x, g, r) && o < g.out && Products(x, g, r.a, r.i, r.j, o, f) && c < g.c && n <= g.kh
    ensures Pos(Index(c, 0, 0), g.kh, g.kw) <= Pos(Index(c, n, 0), g.kh, g.kw) <= Count(g.c, g.kh, g.kw)
    ensures Part(x, g, r, o, Pos(Index(c, n, 0), g.kh, g.kw)) == Part(x, g, r, o, Pos(Index(c, 0, 0), g.kh, g.kw)) + Down(f, c, n, g.kw)
  {
    hide Part, Pos, Count, Across;
    if n == 0 {
      PartAcross(x, g, r, o, f, c, 0, 0);
    } else {
      PartDown(x, g, r, o, f, c, n - 1);
      PartAcross(x, g, r, o, f, c, n - 1, g.kw);
      NextPos(Index(c, n - 1, 0), g.kh, g.kw);
    }
  }

  lemma PartStart(x: Images, g: Kernel, r: Index, o: nat)
    requires Matches(x, g) && OutPixel(x, g, r) && o < g.out
    ensures Pos(Index(0, 0, 0), g.kh, g.kw) == 0 && Part(x, g, r, o, 0) == 0
  {
  }

  lemma {:induction false} PartChannels(x: Images, g: Kernel, r: Index, o: nat, f: (nat, nat, nat) -> int, n: nat)
    requires Matches(x, g) && OutPixel(x, g, r) && o < g.out && Products(x, g, r.a, r.i, r.j, o, f) && n <= g.c
    ensures Pos(Index(n, 0, 0), g.kh, g.kw) <= Count(g.c, g.kh, g.kw)
    ensures Part(x, g, r, o, Pos(Index(n, 0, 0), g.kh, g.kw)) == Total(f, n, g.kh, g.kw)
  {
    hide Part, Pos, Count, Across, Down;
    if n == 0 {
      PartStart(x, g, r, o);
    } else {
      PartChannels(x, g, r, o, f, n - 1);
      PartDown(x, g, r, o, f, n - 1, g.kh);
      NextPos(Index(n - 1, 0, 0), g.kh, g.kw);
    }
  }

  lemma {:induction false} PixelSum(x: Images, g: Kernel, r: Index, o: nat, f: (nat, nat, nat) -> int)
    requires Matches(x, g) && OutPixel(x, g, r) && o < g.out && Products(x, g, r.a, r.i, r.j, o, f)
    ensures var m := Pos(r, OutH(x, g.kh), OutW(x, g.kw));
      m < PatchRows(x, g.kh, g.kw) &&
      MatMul(Patches(x, g.kh, g.kw), Matrix(g), Count(g.c, g.kh, g.kw), g.out)[m][o] == Wrap32(Total(f, g.c, g.kh, g.kw))
  {
    hide Pos, Count, Products, Total, At;
    AtPos(r, x.n, OutH(x, g.kh), OutW(x, g.kw));
    PartChannels(x, g, r, o, f, g.c);
    NextPos(Index(g.c, 0, 0), g.kh, g.kw);
  }

  /** Row `(b * OH + i) * OW + j` and column `o` of the matrix product of patches and kernel matrix is the direct
      convolution sum in int32. */
  lemma {:induction false} ConvolutionIsDirect(x: Images, g: Kernel, b: nat, i: nat, j: nat, o: nat, f: (nat, nat, nat) -> int, m: nat)
    requires Matches(x, g) && b < x.n && i + g.kh <= x.h && j + g.kw <= x.w && o < g.out && Products(x, g, b, i, j, o, f)
    requires m == (b * (x.h + 1 - g.kh) + i) * (x.w + 1 - g.kw) + j
    ensures m < PatchRows(x, g.kh, g.kw)
    ensures MatMul(Patches(x, g.kh, g.kw), Matrix(g), Count(g.c, g.kh, g.kw), g.out)[m][o] == Wrap32(Total(f, g.c, g.kh, g.kw))
  {
    hide Products, Count, MatMul, Patches, Matrix, Total;
    PixelSum(x, g, Index(b, i, j), o, f);
  }
}
