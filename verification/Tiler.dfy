/** sched/tiler.py: the schedule, tile extraction, and execution of a schedule on a backend. */
module Tiler {
  import opened Arith
  import opened Tiling

  method MakePlan(k: nat, n: nat) returns (schedule: seq<Tile>)
    ensures schedule == Plan(Tiles(k), Tiles(n))
    ensures forall t :: t in schedule <==> t.kt < Tiles(k) && t.nt < Tiles(n)
    ensures forall t :: t in schedule ==> multiset(schedule)[t] == 1
  {
    var nkt, nnt := Tiles(k), Tiles(n);
    schedule := [];
    for nt := 0 to nnt
      invariant schedule == Plan(nkt, nt)
    {
      var before := schedule;
      for kt := 0 to nkt
        invariant schedule == before + Column(kt, nt)
      {
        schedule := schedule + [Tile(kt, nt)];
        ColumnSnoc(kt, nt);
      }
    }
    forall t: Tile
      ensures t in schedule <==> t.kt < nkt && t.nt < nnt
      ensures t in schedule ==> multiset(schedule)[t] == 1
    {
      PlanRange(nkt, nnt, t);
      PlanOnce(nkt, nnt, t);
    }
  }

  /** `mat[r0:r1, c0:c1]`, zero-padded to the requested size. */
  method PadTile2d(mat: Mat8, cols: nat, r0: nat, r1: nat, c0: nat, c1: nat) returns (out: Mat8)
    requires Shape(mat, |mat|, cols) && r0 <= r1 && c0 <= c1
    ensures Shape(out, r1 - r0, c1 - c0)
    ensures forall i, j :: 0 <= i < r1 - r0 && 0 <= j < c1 - c0 ==>
      out[i][j] == if r0 + i < |mat| && c0 + j < cols then mat[r0+i][c0+j] else 0
  {
    var buf := new Int8[r1 - r0, c1 - c0]((i, j) => 0);
    var rHi, cHi := Min(r1, |mat|), Min(c1, cols);
    if r0 < rHi && c0 < cHi {
      forall i, j | 0 <= i < rHi - r0 && 0 <= j < cHi - c0 {
        buf[i, j] := mat[r0+i][c0+j];
      }
    }
    out := seq<Row8>(r1 - r0, i requires 0 <= i < r1 - r0 reads buf =>
      seq<Int8>(c1 - c0, j requires 0 <= j < c1 - c0 reads buf => buf[i, j]));
  }

  /** The contract of every backend: `run_tile(Wt, At)` is `At @ Wt` in int32. */
  ghost predicate GoldenBackend(runTile: (Mat8, Mat8) -> Mat32) {
    forall wt: Mat8, at: Mat8 :: Shape(wt, TILE, TILE) && Shape(at, |at|, TILE) ==> runTile(wt, at) == MatMul(at, wt, TILE, TILE)
  }

  /** A sum of products accumulated in an int32, wrapping after every addition. */
  function Accumulated(a: Row8, w: Mat8, c: nat, n: nat): Int32
    requires n <= |a| && n <= |w| && forall i :: 0 <= i < n ==> c < |w[i]|
  {
    if n == 0 then 0 else Wrap32(Accumulated(a, w, c, n - 1) as int + Wrap32(a[n-1] as int * w[n-1][c] as int) as int)
  }

  /** The reference backend: `At.astype(int32) @ Wt.astype(int32)`, every operation in int32. */
  function NumpyRunTile(wt: Mat8, at: Mat8): Mat32 {
    if Shape(wt, TILE, TILE) && Shape(at, |at|, TILE) then
      seq<Row32>(|at|, m requires 0 <= m < |at| => seq<Int32>(TILE, c requires 0 <= c < TILE => Accumulated(at[m], wt, c, TILE)))
    else []
  }

  /** Wrapping as the sum goes along loses nothing against wrapping the exact sum. */
  lemma {:induction false} AccumulatedIsWrapped(a: Row8, w: Mat8, c: nat, n: nat)
    requires n <= |a| && n <= |w| && forall i :: 0 <= i < n ==> c < |w[i]|
    ensures Accumulated(a, w, c, n) == Wrap32(Dot(a, w, c, n))
  {
    if n > 0 {
      AccumulatedIsWrapped(a, w, c, n - 1);
      Wrap32Add2(Dot(a, w, c, n - 1), a[n-1] as int * w[n-1][c] as int);
    }
  }

  /** The reference backend meets the contract, so there is a backend that does. */
  lemma NumpyIsGolden()
    ensures GoldenBackend(NumpyRunTile)
  {
    forall wt: Mat8, at: Mat8 | Shape(wt, TILE, TILE) && Shape(at, |at|, TILE)
      ensures NumpyRunTile(wt, at) == MatMul(at, wt, TILE, TILE)
    {
      forall m, c | 0 <= m < |at| && 0 <= c < TILE
        ensures NumpyRunTile(wt, at)[m][c] == MatMul(at, wt, TILE, TILE)[m][c]
      {
        AccumulatedIsWrapped(at[m], wt, c, TILE);
      }
      assert forall m :: 0 <= m < |at| ==> NumpyRunTile(wt, at)[m] == MatMul(at, wt, TILE, TILE)[m];
    }
  }

  /** Executing the plan on the reference backend. */
  method ExecuteOnNumpy(a: Mat8, w: Mat8, n: nat) returns (c: Mat32)
    requires Shape(a, |a|, |w|) && Shape(w, |w|, n)
    ensures c == MatMul(a, w, |w|, n)
  {
    NumpyIsGolden();
    hide GoldenBackend, NumpyRunTile;
    var schedule := MakePlan(|w|, n);
    c := Execute(schedule, a, w, n, NumpyRunTile);
  }

  /** One tile product, entry by entry, is that tile's share of the result. */
  lemma TileProduct(a: Mat8, w: Mat8, t: Tile, m: nat, j: nat)
    requires m < |a| && j < TILE
    ensures MatMul(ATile(a, t.kt), WTile(w, t.kt, t.nt), TILE, TILE)[m][j] == Wrap32(TileDot(a[m], w, t.nt * 4 + j, t.kt))
  {
  }

  /** Entry `col` of a row after the first `i` jobs of a schedule. */
  function Partial(row: Row8, w: Mat8, col: nat, schedule: seq<Tile>, i: nat): Int32
    requires i <= |schedule|
  {
    Wrap32(Sum(Share(row, w, col), schedule[..i]))
  }

  /** One more job adds its wrapped tile product, or leaves the entry alone. */
  lemma PartialStep(row: Row8, w: Mat8, col: nat, schedule: seq<Tile>, i: nat)
    requires i < |schedule|
    ensures var t := schedule[i];
      Partial(row, w, col, schedule, i + 1) ==
        if t.nt == col / 4 then Wrap32(Partial(row, w, col, schedule, i) + Wrap32(TileDot(row, w, col, t.kt)))
        else Partial(row, w, col, schedule, i)
  {
    assert schedule[..i+1][..i] == schedule[..i];
    Wrap32Add2(Sum(Share(row, w, col), schedule[..i]), TileDot(row, w, col, schedule[i].kt));
  }

  lemma PartialWhole(row: Row8, w: Mat8, n: nat, col: nat, schedule: seq<Tile>)
    requires Shape(w, |row|, n) && col < n
    ensures Partial(row, w, col, schedule, |schedule|) == Wrap32(Sum(Share(row, w, col), schedule))
    ensures Schedules(schedule, |row|, n) ==> Partial(row, w, col, schedule, |schedule|) == RowTimes(row, w, n)[col]
  {
    assert schedule[..|schedule|] == schedule;
    if Schedules(schedule, |row|, n) { ScheduleAddsUp(schedule, row, w, n, col); }
  }

  /** Runs any schedule on any golden backend, accumulating into C in place. */
  method Execute(schedule: seq<Tile>, a: Mat8, w: Mat8, n: nat, runTile: (Mat8, Mat8) -> Mat32) returns (c: Mat32)
    requires Shape(a, |a|, |w|) && Shape(w, |w|, n) && GoldenBackend(runTile)
    requires forall i :: 0 <= i < |schedule| ==> schedule[i].nt < Tiles(n)
    ensures Shape(c, |a|, n)
    ensures forall m, col :: 0 <= m < |a| && 0 <= col < n ==> c[m][col] == Wrap32(Sum(Share(a[m], w, col), schedule))
    ensures Schedules(schedule, |w|, n) ==> c == MatMul(a, w, |w|, n)
  {
    var width := Tiles(n) * 4;
    var acc := new Int32[|a|, width]((m, col) => 0);
    for i := 0 to |schedule|
      invariant forall m, col :: 0 <= m < |a| && 0 <= col < width ==> acc[m, col] == Partial(a[m], w, col, schedule, i)
    {
      var ct := RunJob(schedule[i], a, w, n, runTile);
      Accumulate(acc, a, w, schedule, i, ct);
    }
    c := Columns(acc, n);
    PartialsWhole(a, w, n, schedule);
    assert Schedules(schedule, |w|, n) ==> forall m :: 0 <= m < |a| ==> c[m] == MatMul(a, w, |w|, n)[m];
  }

  /** `C[:, :N]` */
  method Columns(acc: array2<Int32>, n: nat) returns (c: Mat32)
    requires n <= acc.Length1
    ensures Shape(c, acc.Length0, n)
    ensures forall m, col :: 0 <= m < acc.Length0 && 0 <= col < n ==> c[m][col] == acc[m, col]
  {
    c := seq<Row32>(acc.Length0, m requires 0 <= m < acc.Length0 reads acc =>
      seq<Int32>(n, col requires 0 <= col < n reads acc => acc[m, col]));
  }

  lemma PartialsWhole(a: Mat8, w: Mat8, n: nat, schedule: seq<Tile>)
    requires Shape(a, |a|, |w|) && Shape(w, |w|, n)
    ensures forall m, col :: 0 <= m < |a| && 0 <= col < n ==>
      Partial(a[m], w, col, schedule, |schedule|) == Wrap32(Sum(Share(a[m], w, col), schedule)) &&
      (Schedules(schedule, |w|, n) ==> Partial(a[m], w, col, schedule, |schedule|) == MatMul(a, w, |w|, n)[m][col])
  {
    forall m, col | 0 <= m < |a| && 0 <= col < n
      ensures Partial(a[m], w, col, schedule, |schedule|) == Wrap32(Sum(Share(a[m], w, col), schedule))
      ensures Schedules(schedule, |w|, n) ==> Partial(a[m], w, col, schedule, |schedule|) == MatMul(a, w, |w|, n)[m][col]
    {
      PartialWhole(a[m], w, n, col, schedule);
    }
  }

  method RunJob(t: Tile, a: Mat8, w: Mat8, n: nat, runTile: (Mat8, Mat8) -> Mat32) returns (ct: Mat32)
    requires Shape(a, |a|, |w|) && Shape(w, |w|, n) && GoldenBackend(runTile)
    ensures ct == MatMul(ATile(a, t.kt), WTile(w, t.kt, t.nt), TILE, TILE)
  {
    var wt, at := ExtractTiles(t, a, w, n);
    GoldenProduct(runTile, wt, at);
    ct := runTile(wt, at);
  }

  lemma GoldenProduct(runTile: (Mat8, Mat8) -> Mat32, wt: Mat8, at: Mat8)
    requires GoldenBackend(runTile) && Shape(wt, TILE, TILE) && Shape(at, |at|, TILE)
    ensures runTile(wt, at) == MatMul(at, wt, TILE, TILE)
  {
  }

  method ExtractTiles(t: Tile, a: Mat8, w: Mat8, n: nat) returns (wt: Mat8, at: Mat8)
    requires Shape(a, |a|, |w|) && Shape(w, |w|, n)
    ensures wt == WTile(w, t.kt, t.nt) && at == ATile(a, t.kt)
  {
    wt := PadTile2d(w, n, t.kt * 4, t.kt * 4 + 4, t.nt * 4, t.nt * 4 + 4);
    at := PadTile2d(a, |w|, 0, |a|, t.kt * 4, t.kt * 4 + 4);
    PaddedTiles(a, w, n, t, wt, at);
  }

  lemma PaddedTiles(a: Mat8, w: Mat8, n: nat, t: Tile, wt: Mat8, at: Mat8)
    requires Shape(a, |a|, |w|) && Shape(w, |w|, n) && Shape(wt, TILE, TILE) && Shape(at, |a|, TILE)
    requires forall i, j :: 0 <= i < TILE && 0 <= j < TILE ==>
      wt[i][j] == if t.kt * 4 + i < |w| && t.nt * 4 + j < n then w[t.kt*TILE+i][t.nt*TILE+j] else 0
    requires forall i, j :: 0 <= i < |a| && 0 <= j < TILE ==>
      at[i][j] == if 0 + i < |a| && t.kt * 4 + j < |w| then a[0+i][t.kt*TILE+j] else 0
    ensures wt == WTile(w, t.kt, t.nt) && at == ATile(a, t.kt)
  {
    forall i | 0 <= i < TILE ensures wt[i] == WTile(w, t.kt, t.nt)[i] {
      assert WTile(w, t.kt, t.nt)[i] == WRow(w, t.kt * 4 + i, t.nt);
    }
    forall i | 0 <= i < |a| ensures at[i] == PadRow(a[i], t.kt) { }
  }

  /** `C[:, nt*4 : nt*4 + 4] += Ct` */
  method Accumulate(acc: array2<Int32>, ghost a: Mat8, ghost w: Mat8, schedule: seq<Tile>, i: nat, ct: Mat32)
    requires i < |schedule| && acc.Length0 == |a| && (schedule[i].nt + 1) * 4 <= acc.Length1
    requires ct == MatMul(ATile(a, schedule[i].kt), WTile(w, schedule[i].kt, schedule[i].nt), TILE, TILE)
    requires forall m, col :: 0 <= m < |a| && 0 <= col < acc.Length1 ==> acc[m, col] == Partial(a[m], w, col, schedule, i)
    modifies acc
    ensures forall m, col :: 0 <= m < |a| && 0 <= col < acc.Length1 ==> acc[m, col] == Partial(a[m], w, col, schedule, i + 1)
  {
    var base := schedule[i].nt * 4;
    forall m, j | 0 <= m < acc.Length0 && 0 <= j < TILE {
      acc[m, base + j] := Wrap32(acc[m, base + j] + ct[m][j]);
    }
    forall m, col | 0 <= m < |a| && 0 <= col < acc.Length1
      ensures acc[m, col] == Partial(a[m], w, col, schedule, i + 1)
    {
      PartialStep(a[m], w, col, schedule, i);
      if base <= col < base + TILE {
        TileProduct(a, w, schedule[i], m, col - base);
        assert acc[m, base + (col - base)] == Wrap32(old(acc[m, base + (col - base)]) + ct[m][col - base]);
      }
    }
  }

  // --- no partial sum wraps while K is at most 131071 ---

  lemma {:induction false} DotBound(a: Row8, w: Mat8, c: nat, n: nat)
    requires n <= |a| && n <= |w| && forall i :: 0 <= i < n ==> c < |w[i]|
    ensures -0x4000 * n <= Dot(a, w, c, n) <= 0x4000 * n
  {
    if n > 0 {
      DotBound(a, w, c, n - 1);
      ProductBound(a[n-1], w[n-1][c]);
    }
  }

  lemma ProductBound(x: Int8, y: Int8)
    ensures -0x4000 <= x as int * y as int <= 0x4000
  {
    NonNegative(0x80 - x, 0x80 + y);
    NonNegative(0x80 + x, 0x80 - y);
    NonNegative(0x80 - x, 0x80 - y);
    NonNegative(0x80 + x, 0x80 + y);
  }

  lemma NonNegative(u: int, v: int)
    requires u >= 0 && v >= 0
    ensures u * v >= 0
  {
  }

  /** Bound on a tile's share: only the columns of the tile that exist count. */
  function Bound(k: nat, col: nat): Tile -> int {
    (t: Tile) => if t.nt == col / 4 then 0x4000 * Min(TILE, if t.kt * 4 < k then k - t.kt * 4 else 0) else 0
  }

  lemma ShareBound(row: Row8, w: Mat8, col: nat, t: Tile)
    ensures -Bound(|row|, col)(t) <= Share(row, w, col)(t) <= Bound(|row|, col)(t)
  {
    var a, b, j := PadRow(row, t.kt), WTile(w, t.kt, col / 4), col % 4;
    var used := Min(TILE, if t.kt * 4 < |row| then |row| - t.kt * 4 else 0);
    DotBound(a, b, j, used);
    DotPadding(a, b, j, used);
  }

  lemma DotPadding(a: Row8, w: Mat8, c: nat, used: nat)
    requires used <= TILE == |a| && Shape(w, TILE, TILE) && c < TILE
    requires forall i :: used <= i < TILE ==> a[i] == 0
    ensures Dot(a, w, c, TILE) == Dot(a, w, c, used)
  {
    assert Dot(a, w, c, 4) == Dot(a, w, c, 3) + a[3] as int * w[3][c] as int;
    assert Dot(a, w, c, 3) == Dot(a, w, c, 2) + a[2] as int * w[2][c] as int;
    assert Dot(a, w, c, 2) == Dot(a, w, c, 1) + a[1] as int * w[1][c] as int;
    assert Dot(a, w, c, 1) == Dot(a, w, c, 0) + a[0] as int * w[0][c] as int;
  }

  lemma {:induction false} SumShareBound(row: Row8, w: Mat8, col: nat, s: seq<Tile>)
    ensures -Sum(Bound(|row|, col), s) <= Sum(Share(row, w, col), s) <= Sum(Bound(|row|, col), s)
    ensures 0 <= Sum(Bound(|row|, col), s)
  {
    if s != [] {
      SumShareBound(row, w, col, s[..|s|-1]);
      ShareBound(row, w, col, s[|s|-1]);
    }
  }

  lemma {:induction false} BoundOfColumn(k: nat, col: nat, nkt: nat, nt: nat)
    ensures Sum(Bound(k, col), Column(nkt, nt))
         == if nt == col / 4 then 0x4000 * Min(nkt * 4, k) else 0
  {
    if nkt > 0 {
      BoundOfColumn(k, col, nkt - 1, nt);
      ColumnSnoc(nkt - 1, nt);
    }
  }

  lemma {:induction false} BoundOfPlan(k: nat, col: nat, nnt: nat)
    ensures Sum(Bound(k, col), Plan(Tiles(k), nnt)) == if col / 4 < nnt then 0x4000 * k else 0
  {
    if nnt > 0 {
      BoundOfPlan(k, col, nnt - 1);
      BoundOfColumn(k, col, Tiles(k), nnt - 1);
      assert Min(Tiles(k) * 4, k) == k;
      SumConcat(Bound(k, col), Plan(Tiles(k), nnt - 1), Column(Tiles(k), nnt - 1));
    }
  }

  /** For K <= 131071 the accumulator holds the exact integer after every job, in every order. */
  lemma NoPartialSumWraps(schedule: seq<Tile>, row: Row8, w: Mat8, n: nat, col: nat, i: nat)
    requires Shape(w, |row|, n) && col < n && Schedules(schedule, |row|, n) && i <= |schedule|
    requires |row| <= 131071
    ensures Partial(row, w, col, schedule, i) == Sum(Share(row, w, col), schedule[..i])
  {
    var b := Bound(|row|, col);
    assert schedule == schedule[..i] + schedule[i..];
    SumConcat(b, schedule[..i], schedule[i..]);
    SumShareBound(row, w, col, schedule[..i]);
    SumShareBound(row, w, col, schedule[i..]);
    SumPermutation(b, schedule, Plan(Tiles(|row|), Tiles(n)));
    BoundOfPlan(|row|, col, Tiles(n));
  }

  lemma {:induction false} ExtremeDot(a: Row8, w: Mat8, n: nat)
    requires n <= |a| && n <= |w| && forall i :: 0 <= i < n ==> a[i] == -0x80 && |w[i]| == 1 && w[i][0] == -0x80
    ensures Dot(a, w, 0, n) == 0x4000 * n
  {
    if n > 0 { ExtremeDot(a, w, n - 1); }
  }

  /** The limit is exact: at K = 131072 the all -128 operands make the int32 result wrap. */
  lemma OneMoreColumnWraps() returns (a: Row8, w: Mat8)
    ensures |a| == 131072 && Shape(w, |a|, 1)
    ensures RowTimes(a, w, 1)[0] != Dot(a, w, 0, |a|)
  {
    var row: Row8 := [-0x80];
    a := seq<Int8>(131072, i => -0x80);
    w := seq<Row8>(131072, i => row);
    ExtremeDot(a, w, 131072);
  }
}
