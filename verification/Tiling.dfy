/** The 4 x 4 weight-stationary tiling shared by sched/tiler.py and sw/coproc_driver.h: which tiles
    there are, how they are padded, and why summing tile products in any order gives `A @ W`. */
module Tiling {
  import opened Arith

  const TILE := 4

  /** Number of tiles that cover `x` rows or columns. */
  function Tiles(x: nat): (t: nat)
    ensures 4 * t >= x && (x > 0 ==> 4 * (t - 1) < x)
  {
    (x + TILE - 1) / 4
  }

  datatype Tile = Tile(kt: nat, nt: nat)

  /** A row of activations restricted to k-tile `kt`, zero beyond the row's end. */
  function PadRow(a: Row8, kt: nat): (r: Row8)
    ensures |r| == TILE
  {
    seq<Int8>(TILE, j requires 0 <= j < TILE => if kt * 4 + j < |a| then a[kt * 4 + j] else 0)
  }

  /** `A[:, 4*kt : 4*kt + 4]`, zero-padded. */
  function ATile(a: Mat8, kt: nat): (t: Mat8)
    ensures Shape(t, |a|, TILE)
  {
    seq<Row8>(|a|, m requires 0 <= m < |a| => PadRow(a[m], kt))
  }

  function WRow(w: Mat8, k: nat, nt: nat): (r: Row8)
    ensures |r| == TILE
  {
    if k < |w| then PadRow(w[k], nt) else Zeros8(TILE)
  }

  /** `W[4*kt : 4*kt + 4, 4*nt : 4*nt + 4]`, zero-padded. */
  function WTile(w: Mat8, kt: nat, nt: nat): (t: Mat8)
    ensures Shape(t, TILE, TILE)
  {
    [WRow(w, kt * 4, nt), WRow(w, kt * 4 + 1, nt), WRow(w, kt * 4 + 2, nt), WRow(w, kt * 4 + 3, nt)]
  }

  /** What tile (kt, col / 4) contributes to entry (m, col), over the integers. */
  function TileDot(row: Row8, w: Mat8, col: nat, kt: nat): int {
    Dot(PadRow(row, kt), WTile(w, kt, col / 4), col % 4, TILE)
  }

  // --- one row, one column: the tiles along k add up ---

  function SumTiles(row: Row8, w: Mat8, col: nat, n: nat): int {
    if n == 0 then 0 else SumTiles(row, w, col, n - 1) + TileDot(row, w, col, n - 1)
  }

  /** The dot product with both operands zero beyond their ends. */
  function PadDot(row: Row8, w: Mat8, col: nat, n: nat): int {
    if n == 0 then 0 else PadDot(row, w, col, n - 1) + PadTerm(row, w, col, n - 1)
  }

  function PadTerm(row: Row8, w: Mat8, col: nat, k: nat): int {
    if k < |row| && k < |w| && col < |w[k]| then row[k] as int * w[k][col] as int else 0
  }

  lemma PadRowAt(w: Mat8, k: nat, nt: nat, j: nat)
    requires j < 4
    ensures WRow(w, k, nt)[j] == var col := nt * 4 + j; if k < |w| && col < |w[k]| then w[k][col] else 0
  {
  }

  lemma WTileAt(w: Mat8, kt: nat, nt: nat, i: nat, j: nat)
    requires i < 4 && j < 4
    ensures WTile(w, kt, nt)[i][j] == var k, col := kt * 4 + i, nt * 4 + j; if k < |w| && col < |w[k]| then w[k][col] else 0
  {
    hide PadRow;
    assert WTile(w, kt, nt)[i] == WRow(w, kt * 4 + i, nt);
    PadRowAt(w, kt * 4 + i, nt, j);
  }

  /** Position `i` of a padded tile product is position `4*kt + i` of the padded dot product. */
  lemma TileTerm(row: Row8, w: Mat8, col: nat, kt: nat, i: nat)
    requires i < 4
    ensures PadRow(row, kt)[i] as int * WTile(w, kt, col / 4)[i][col % 4] as int == PadTerm(row, w, col, kt * 4 + i)
  {
    var k := kt * 4 + i;
    var x, y := PadRow(row, kt)[i], WTile(w, kt, col / 4)[i][col % 4];
    assert x == if k < |row| then row[k] else 0;
    assert y == (if k < |w| && col < |w[k]| then w[k][col] else 0) by { WTileAt(w, kt, col / 4, i, col % 4); }
    ZeroProduct(x, y);
  }

  lemma ZeroProduct(x: int, y: int)
    ensures x == 0 || y == 0 ==> x * y == 0
  {
  }

  lemma TileDotIsSlice(row: Row8, w: Mat8, col: nat, kt: nat)
    ensures TileDot(row, w, col, kt) == PadDot(row, w, col, kt * 4 + TILE) - PadDot(row, w, col, kt * 4)
  {
    var a, t, j := PadRow(row, kt), WTile(w, kt, col / 4), col % 4;
    TileTerm(row, w, col, kt, 0);
    TileTerm(row, w, col, kt, 1);
    TileTerm(row, w, col, kt, 2);
    TileTerm(row, w, col, kt, 3);
    assert Dot(a, t, j, 1) == PadTerm(row, w, col, kt * 4);
    assert Dot(a, t, j, 2) == Dot(a, t, j, 1) + PadTerm(row, w, col, kt * 4 + 1);
    assert Dot(a, t, j, 3) == Dot(a, t, j, 2) + PadTerm(row, w, col, kt * 4 + 2);
    assert Dot(a, t, j, 4) == Dot(a, t, j, 3) + PadTerm(row, w, col, kt * 4 + 3);
    assert PadDot(row, w, col, kt * 4 + 1) == PadDot(row, w, col, kt * 4) + PadTerm(row, w, col, kt * 4);
    assert PadDot(row, w, col, kt * 4 + 2) == PadDot(row, w, col, kt * 4 + 1) + PadTerm(row, w, col, kt * 4 + 1);
    assert PadDot(row, w, col, kt * 4 + 3) == PadDot(row, w, col, kt * 4 + 2) + PadTerm(row, w, col, kt * 4 + 2);
  }

  lemma {:induction false} SumTilesIsPadDot(row: Row8, w: Mat8, col: nat, n: nat)
    ensures SumTiles(row, w, col, n) == PadDot(row, w, col, n * 4)
  {
    if n > 0 {
      SumTilesIsPadDot(row, w, col, n - 1);
      TileDotIsSlice(row, w, col, n - 1);
    }
  }

  lemma {:induction false} PadDotIsDot(row: Row8, w: Mat8, col: nat, n: nat)
    requires |w| == |row| && forall i :: 0 <= i < |w| ==> col < |w[i]|
    ensures PadDot(row, w, col, n) == Dot(row, w, col, if n < |row| then n else |row|)
  {
    if n > 0 { PadDotIsDot(row, w, col, n - 1); }
  }

  /** All k-tiles of a column together give the whole dot product, whatever K is. */
  lemma TilesAddUp(row: Row8, w: Mat8, col: nat)
    requires |w| == |row| && forall i :: 0 <= i < |w| ==> col < |w[i]|
    ensures SumTiles(row, w, col, Tiles(|row|)) == Dot(row, w, col, |row|)
  {
    SumTilesIsPadDot(row, w, col, Tiles(|row|));
    PadDotIsDot(row, w, col, Tiles(|row|) * 4);
  }

  // --- schedules ---

  function Column(nkt: nat, nt: nat): seq<Tile> { seq(nkt, kt requires 0 <= kt < nkt => Tile(kt, nt)) }

  /** nt outer, kt inner. */
  function Plan(nkt: nat, nnt: nat): (s: seq<Tile>) {
    if nnt == 0 then [] else Plan(nkt, nnt - 1) + Column(nkt, nnt - 1)
  }

  lemma ColumnSnoc(nkt: nat, nt: nat)
    ensures Column(nkt + 1, nt) == Column(nkt, nt) + [Tile(nkt, nt)]
  {
  }

  lemma {:induction false} PlanLength(nkt: nat, nnt: nat)
    ensures |Plan(nkt, nnt)| == nnt * nkt
  {
    if nnt > 0 {
      PlanLength(nkt, nnt - 1);
      assert nnt * nkt == (nnt - 1) * nkt + nkt;
    }
  }

  /** Position `i` of the plan, as the driver computes it. */
  lemma {:induction false} PlanAt(nkt: nat, nnt: nat, i: nat)
    requires nkt > 0 && i < |Plan(nkt, nnt)|
    ensures Plan(nkt, nnt)[i] == Tile(i % nkt, i / nkt)
  {
    PlanLength(nkt, nnt);
    PlanLength(nkt, nnt - 1);
    if i < |Plan(nkt, nnt - 1)| {
      PlanAt(nkt, nnt - 1, i);
    } else {
      DivModUnique(i, nkt, nnt - 1, i - (nnt - 1) * nkt);
    }
  }

  lemma {:induction false} PlanRange(nkt: nat, nnt: nat, t: Tile)
    ensures t in Plan(nkt, nnt) <==> t.kt < nkt && t.nt < nnt
  {
    if nnt > 0 {
      PlanRange(nkt, nnt - 1, t);
      var col := Column(nkt, nnt - 1);
      if t.kt < nkt && t.nt == nnt - 1 { assert col[t.kt] == t; }
    }
  }

  /** Every tile is in the plan exactly once. */
  lemma {:induction false} PlanOnce(nkt: nat, nnt: nat, t: Tile)
    ensures multiset(Plan(nkt, nnt))[t] == if t.kt < nkt && t.nt < nnt then 1 else 0
  {
    if nnt > 0 {
      PlanOnce(nkt, nnt - 1, t);
      ColumnOnce(nkt, nnt - 1, t);
    }
  }

  lemma {:induction false} ColumnOnce(nkt: nat, nt: nat, t: Tile)
    ensures multiset(Column(nkt, nt))[t] == if t.kt < nkt && t.nt == nt then 1 else 0
  {
    if nkt > 0 {
      ColumnOnce(nkt - 1, nt, t);
      ColumnSnoc(nkt - 1, nt);
    }
  }

  /** Sum of `f` over a schedule. */
  function Sum<T>(f: T -> int, s: seq<T>): int {
    if s == [] then 0 else Sum(f, s[..|s|-1]) + f(s[|s|-1])
  }

  lemma {:induction false} SumConcat<T>(f: T -> int, s: seq<T>, t: seq<T>)
    ensures Sum(f, s + t) == Sum(f, s) + Sum(f, t)
  {
    if t == [] {
      assert s + t == s;
    } else {
      SumConcat(f, s, t[..|t|-1]);
      assert (s + t)[..|s+t|-1] == s + t[..|t|-1];
    }
  }

  lemma SumRemove<T>(f: T -> int, s: seq<T>, i: nat)
    requires i < |s|
    ensures Sum(f, s) == Sum(f, s[..i] + s[i+1..]) + f(s[i])
  {
    assert s == s[..i] + ([s[i]] + s[i+1..]);
    SumConcat(f, s[..i], [s[i]] + s[i+1..]);
    SumConcat(f, [s[i]], s[i+1..]);
    SumConcat(f, s[..i], s[i+1..]);
    assert Sum(f, [s[i]]) == f(s[i]) by { assert [s[i]][..0] == []; }
  }

  /** A sum over a schedule does not depend on the schedule's order. */
  lemma {:induction false} SumPermutation<T>(f: T -> int, s: seq<T>, t: seq<T>)
    requires multiset(s) == multiset(t)
    ensures Sum(f, s) == Sum(f, t)
    decreases |s|
  {
    if s == [] {
      assert |t| == |multiset(t)|;
    } else {
      var x := s[|s|-1];
      assert x in multiset(t);
      var i :| 0 <= i < |t| && t[i] == x;
      var s', t' := s[..|s|-1], t[..i] + t[i+1..];
      assert s == s' + [x];
      assert t == t[..i] + [t[i]] + t[i+1..];
      assert multiset(s') == multiset(s) - multiset{x};
      assert multiset(t') == multiset(t) - multiset{x};
      SumPermutation(f, s', t');
      SumRemove(f, t, i);
    }
  }

  /** What a schedule entry contributes to entry `col` of a row. */
  function Share(row: Row8, w: Mat8, col: nat): Tile -> int {
    (t: Tile) => if t.nt == col / 4 then TileDot(row, w, col, t.kt) else 0
  }

  lemma {:induction false} SumColumn(row: Row8, w: Mat8, col: nat, nkt: nat, nt: nat)
    ensures Sum(Share(row, w, col), Column(nkt, nt))
         == if nt == col / 4 then SumTiles(row, w, col, nkt) else 0
  {
    if nkt > 0 {
      SumColumn(row, w, col, nkt - 1, nt);
      ColumnSnoc(nkt - 1, nt);
    }
  }

  lemma {:induction false} SumPlan(row: Row8, w: Mat8, col: nat, nkt: nat, nnt: nat)
    ensures Sum(Share(row, w, col), Plan(nkt, nnt)) == if col / 4 < nnt then SumTiles(row, w, col, nkt) else 0
  {
    if nnt > 0 {
      SumPlan(row, w, col, nkt, nnt - 1);
      SumColumn(row, w, col, nkt, nnt - 1);
      SumConcat(Share(row, w, col), Plan(nkt, nnt - 1), Column(nkt, nnt - 1));
    }
  }

  predicate Schedules(s: seq<Tile>, k: nat, n: nat) { multiset(s) == multiset(Plan(Tiles(k), Tiles(n))) }

  /** Any order of the plan's tiles adds up to the dot product. */
  lemma ScheduleAddsUp(s: seq<Tile>, row: Row8, w: Mat8, n: nat, col: nat)
    requires Shape(w, |row|, n) && col < n && Schedules(s, |row|, n)
    ensures Sum(Share(row, w, col), s) == Dot(row, w, col, |row|)
  {
    SumPermutation(Share(row, w, col), s, Plan(Tiles(|row|), Tiles(n)));
    SumPlan(row, w, col, Tiles(|row|), Tiles(n));
    TilesAddUp(row, w, col);
  }
}
