/** The skewed feed-and-capture schedules around one systolic array: the performance testbench
    (sim/perf/tb_perf.cpp, sim/perf/metrics.h) and the tile runner (sched/tile_runner.cpp). */
module Schedule {
  import opened Arith
  import opened Systolic
  import opened Wavefront

  /** The array after `ticks` ticks of the skewed feed of `a` through weights `w`. */
  ghost predicate Streamed(n: nat, g: Grid, a: Mat8, w: Mat8, ticks: nat) {
    g.Valid(n) && g.weight == w && Tracks(n, g, Skewed(n, a, ticks))
  }

  lemma StreamStarts(n: nat, g: Grid, a: Mat8, w: Mat8)
    requires g.Valid(n) && g.weight == w && g.Drained(n)
    ensures Streamed(n, g, a, w, 0)
  {
    DrainedTracks(n, g);
    assert Skewed(n, a, 0) == [];
  }

  /** Feeds vector `t - r` on lane `r`, zero outside the stream, and clocks the array. */
  method StreamTick(arr: SystolicArray, a: Mat8, t: nat, ghost w: Mat8)
    requires arr.Valid() && Shape(a, |a|, arr.n) && Streamed(arr.n, arr.Value(), a, w, t)
    modifies arr.cells
    ensures Streamed(arr.n, arr.Value(), a, w, t + 1)
  {
    var n := arr.n;
    var act: Row8 := [];
    for r := 0 to n
      invariant act == SkewedRow(n, a, t)[..r]
    {
      var m := t - r;
      assert SkewedRow(n, a, t)[r] == Lane(a, r, m) == if 0 <= m < |a| then a[m][r] else 0;
      act := act + [if 0 <= m < |a| then a[m][r] else 0];
    }
    assert act == SkewedRow(n, a, t);
    ghost var g := arr.Value();
    arr.Tick(false, false, arr.Value().weight, act);
    TracksStep(n, g, Skewed(n, a, t), g.weight, act, arr.Value());
    SkewedSnoc(n, a, t);
  }

  /** Results captured once tick `t` is done: vector `m` column `c` is due after tick `m + c + n` (tick 1 first). */
  ghost predicate Captured(got: array2<Int32>, n: nat, a: Mat8, w: Mat8, t: nat)
    requires Shape(a, |a|, n) && Shape(w, n, n)
    reads got
  {
    got.Length0 == |a| && got.Length1 == n &&
    forall m, c :: 0 <= m < |a| && 0 <= c < n && m + c + n <= t ==> got[m, c] == Result(n, a, w, c, m)
  }

  /** Which outputs have been captured once tick `t` is done. */
  ghost predicate SeenUpTo(seen: multiset<(nat, nat)>, m: nat, n: nat, t: nat) {
    forall k: nat, c: nat :: seen[(k, c)] == if k < m && c < n && k + c + n <= t then 1 else 0
  }

  /** Captures the outputs due after tick `t`; `seen` records which. */
  method Capture(arr: SystolicArray, got: array2<Int32>, a: Mat8, w: Mat8, t: nat, ghost seen0: multiset<(nat, nat)>)
    returns (ghost seen: multiset<(nat, nat)>)
    requires arr.Valid() && arr.n > 0 && Shape(a, |a|, arr.n) && Shape(w, arr.n, arr.n) && t > 0
    requires Streamed(arr.n, arr.Value(), a, w, t) && Captured(got, arr.n, a, w, t - 1) && SeenUpTo(seen0, |a|, arr.n, t - 1)
    modifies got
    ensures Captured(got, arr.n, a, w, t) && SeenUpTo(seen, |a|, arr.n, t)
  {
    var n := arr.n;
    seen := seen0;
    for c := 0 to n
      invariant got.Length0 == |a| && got.Length1 == n
      invariant forall m, j :: 0 <= m < |a| && 0 <= j < n && m + j + n < t + (if j < c then 1 else 0) ==> got[m, j] == Result(n, a, w, j, m)
      invariant forall m: nat, j: nat :: seen[(m, j)] == if m < |a| && j < n && m + j + n < t + (if j < c then 1 else 0) then 1 else 0
    {
      var m := t - n - c;
      if 0 <= m < |a| {
        SkewedOutput(n, arr.Value(), a, t, c);
        got[m, c] := arr.Value().psum[n-1][c];
        seen := seen + multiset{(m as nat, c as nat)};
      }
    }
  }

  /** One tick of the schedule: feed, clock, capture. */
  method FeedAndCapture(arr: SystolicArray, got: array2<Int32>, a: Mat8, w: Mat8, t: nat, ghost seen0: multiset<(nat, nat)>)
    returns (ghost seen: multiset<(nat, nat)>)
    requires arr.Valid() && arr.n > 0 && Shape(a, |a|, arr.n) && Shape(w, arr.n, arr.n) && t > 0
    requires Streamed(arr.n, arr.Value(), a, w, t - 1) && Captured(got, arr.n, a, w, t - 1) && SeenUpTo(seen0, |a|, arr.n, t - 1)
    modifies arr.cells, got
    ensures Streamed(arr.n, arr.Value(), a, w, t) && Captured(got, arr.n, a, w, t) && SeenUpTo(seen, |a|, arr.n, t)
  {
    hide Streamed, Captured, SeenUpTo, Result;
    StreamTick(arr, a, t - 1, w);
    seen := Capture(arr, got, a, w, t, seen0);
  }

  /** Marks the vectors with an output due after tick `t`. */
  method MarkFilled(filled: array<bool>, n: nat, t: nat)
    requires n > 0 && t > 0 && forall m :: 0 <= m < filled.Length && m + n < t ==> filled[m]
    modifies filled
    ensures forall m :: 0 <= m < filled.Length && m + n <= t ==> filled[m]
  {
    for c := 0 to n
      invariant forall m :: 0 <= m < filled.Length && m + n < t + (if c > 0 then 1 else 0) ==> filled[m]
    {
      var m := t - n - c;
      if 0 <= m < filled.Length { filled[m] := true; }
    }
  }

  // --- utilisation ---

  /** Ticks among the first `t` in which PE (r,c) holds a vector of the stream. */
  function Busy(m: nat, d: nat, t: int): nat { if t <= d then 0 else if t - d < m then t - d else m }

  /** Summed over the first `cols` PEs of row `r`. */
  function BusyRow(m: nat, r: nat, cols: nat, t: int): nat {
    if cols == 0 then 0 else BusyRow(m, r, cols - 1, t) + Busy(m, r + cols - 1, t)
  }

  /** Summed over the first `rows` rows of an array `n` wide. */
  function BusyGrid(m: nat, rows: nat, n: nat, t: int): nat {
    if rows == 0 then 0 else BusyGrid(m, rows - 1, n, t) + BusyRow(m, rows - 1, n, t)
  }

  lemma {:induction false} BusyRowStart(m: nat, r: nat, cols: nat)
    ensures BusyRow(m, r, cols, 0) == 0
  {
    if cols > 0 { BusyRowStart(m, r, cols - 1); }
  }

  lemma {:induction false} BusyGridStart(m: nat, rows: nat, n: nat)
    ensures BusyGrid(m, rows, n, 0) == 0
  {
    if rows > 0 { BusyGridStart(m, rows - 1, n); BusyRowStart(m, rows - 1, n); }
  }

  lemma {:induction false} BusyRowEnd(m: nat, r: nat, cols: nat, t: nat)
    requires cols == 0 || t >= m + r + cols - 1
    ensures BusyRow(m, r, cols, t) == m * cols
  {
    if cols > 0 { BusyRowEnd(m, r, cols - 1, t); }
  }

  /** In the end every PE has held every vector exactly once. */
  lemma {:induction false} BusyGridEnd(m: nat, rows: nat, n: nat, t: nat)
    requires rows == 0 || n == 0 || t >= m + rows + n - 2
    ensures BusyGrid(m, rows, n, t) == m * (rows * n)
  {
    if rows > 0 {
      BusyGridEnd(m, rows - 1, n, t);
      BusyRowEnd(m, rows - 1, n, t);
      assert rows * n == (rows - 1) * n + n;
      Distribute(m, (rows - 1) * n, n);
    }
  }

  lemma Distribute(m: nat, x: nat, y: nat)
    ensures m * (x + y) == m * x + m * y
  {
  }

  /** A PE is counted in tick `t` (tick 1 first) exactly when its activation register holds a stream vector. */
  lemma CountedPeHoldsVector(n: nat, g: Grid, a: Mat8, w: Mat8, t: nat, r: nat, c: nat)
    requires Shape(a, |a|, n) && r < n && c < n && t > 0 && Streamed(n, g, a, w, t)
    ensures var m := t - c - r - 1; g.act[r][c] == if 0 <= m < |a| then a[m][r] else 0
    ensures Busy(|a|, r + c, t) - Busy(|a|, r + c, t - 1) == if 0 <= t - c - r - 1 < |a| then 1 else 0
  {
    assert TracksAt(n, g, Skewed(n, a, t), r, c);
    if t - 1 - c >= 0 { FedSkewed(n, a, t, r, t - 1 - c); }
  }

  datatype PerfResult = PerfResult(totalCycles: nat, fillCycles: int, drainCycles: int, idealMacs: nat, macsPerCycle: real, utilizationPct: real)

  /** sim/perf/metrics.h, compute_perf, over exact reals. */
  function ComputePerf(m: nat, n: nat, totalCycles: nat): PerfResult
    requires n > 0
  {
    var ideal := m * n * n;
    if totalCycles > 0 then
      PerfResult(totalCycles, n - 1, n - 1, ideal, ideal as real / totalCycles as real,
                 ideal as real / (totalCycles as real * n as real * n as real) * 100.0)
    else PerfResult(totalCycles, n - 1, n - 1, ideal, 0.0, 0.0)
  }

  class PerfCounters {
    var m: nat
    var n: nat
    var cycles: nat
    var validPeSum: nat

    constructor () {
      m, n, cycles, validPeSum := 0, 0, 0, 0;
    }

    method BeginOp(m: nat, n: nat)
      modifies this
      ensures this.m == m && this.n == n && cycles == 0 && validPeSum == 0
    {
      this.m, this.n, cycles, validPeSum := m, n, 0, 0;
    }

    method Tick(validPes: nat)
      modifies this
      ensures cycles == old(cycles) + 1 && validPeSum == old(validPeSum) + validPes && m == old(m) && n == old(n)
    {
      cycles := cycles + 1;
      validPeSum := validPeSum + validPes;
    }

    method EndOp() returns (r: PerfResult)
      requires n > 0
      ensures r == ComputePerf(m, n, cycles)
    {
      r := ComputePerf(m, n, cycles);
    }
  }

  /** Utilisation of the measured schedule is exactly the stream's share of its ticks; the rest is filling and
      draining, N - 1 ticks each. */
  lemma Utilisation(m: nat, n: nat)
    requires m > 0 && n > 0
    ensures var r := ComputePerf(m, n, m + 2 * n - 2);
      r.totalCycles == m + r.fillCycles + r.drainCycles && r.fillCycles == r.drainCycles == n - 1 && r.idealMacs == m * n * n &&
      r.macsPerCycle * r.totalCycles as real == (m * n * n) as real
    ensures ComputePerf(m, n, m + 2 * n - 2).utilizationPct == m as real / (m + 2 * n - 2) as real * 100.0
    ensures ComputePerf(m, n, m + 2 * n - 2).utilizationPct <= 100.0
    ensures ComputePerf(m, n, m + 2 * n - 2).utilizationPct == 100.0 <==> n == 1
  {
    var t := m + 2 * n - 2;
    RealProduct(m, n);
    CancelSquare(m as real, t as real, n as real);
    Share(m as real, t as real);
  }

  lemma RealProduct(m: nat, n: nat)
    ensures (m * n * n) as real == m as real * n as real * n as real
  {
    assert (m * n) as real == m as real * n as real;
  }

  lemma CancelSquare(m: real, t: real, n: real)
    requires t > 0.0 && n > 0.0
    ensures t * n * n > 0.0 && (m * n * n) / (t * n * n) == m / t
  {
    var q := m / t;
    assert m == q * t;
    Positive(t, n);
    Positive(t * n, n);
    Regroup(q, t, n);
    Quotient(m * n * n, t * n * n, q);
  }

  lemma Regroup(q: real, t: real, n: real)
    ensures q * t * n * n == q * (t * n * n)
  {
  }

  lemma Quotient(x: real, d: real, q: real)
    requires d > 0.0 && x == q * d
    ensures x / d == q
  {
  }

  lemma Share(m: real, t: real)
    requires 0.0 < m <= t
    ensures m / t * 100.0 <= 100.0 && (m / t * 100.0 == 100.0 <==> m == t)
  {
    var q := m / t;
    assert q * t == m;
    Compare(q, t);
  }

  lemma Compare(q: real, t: real)
    requires t > 0.0
    ensures q > 1.0 ==> q * t > t
    ensures q < 1.0 ==> q * t < t
  {
  }

  lemma Positive(x: real, y: real)
    requires x > 0.0 && y > 0.0
    ensures x * y > 0.0
  {
  }

  /** Counts the PEs that hold a stream vector in tick `t`. */
  method CountValid(n: nat, m: nat, t: nat) returns (valid: nat)
    requires t > 0
    ensures valid == BusyGrid(m, n, n, t) - BusyGrid(m, n, n, t - 1)
  {
    valid := 0;
    for r := 0 to n
      invariant valid == BusyGrid(m, r, n, t) - BusyGrid(m, r, n, t - 1)
    {
      ghost var before := valid;
      for c := 0 to n
        invariant valid == before + BusyRow(m, r, c, t) - BusyRow(m, r, c, t - 1)
      {
        var k := t - c - r - 1;
        if 0 <= k < m { valid := valid + 1; }
      }
    }
  }

  // --- the two schedules ---

  ghost predicate Product(got: array2<Int32>, n: nat, a: Mat8, w: Mat8)
    requires Shape(a, |a|, n) && Shape(w, n, n)
    reads got
  {
    got.Length0 == |a| && got.Length1 == n &&
    forall m, c :: 0 <= m < |a| && 0 <= c < n ==> got[m, c] == MatMul(a, w, n, n)[m][c]
  }

  lemma AllCaptured(got: array2<Int32>, n: nat, a: Mat8, w: Mat8, t: nat)
    requires Shape(a, |a|, n) && Shape(w, n, n) && Captured(got, n, a, w, t) && t >= |a| + 2 * n - 2
    ensures Product(got, n, a, w)
  {
    forall m, c | 0 <= m < |a| && 0 <= c < n
      ensures got[m, c] == MatMul(a, w, n, n)[m][c]
    {
      assert m + c + n <= t;
      assert got[m, c] == Result(n, a, w, c, m);
    }
  }

  lemma NothingCaptured(got: array2<Int32>, n: nat, a: Mat8, w: Mat8)
    requires Shape(a, |a|, n) && Shape(w, n, n) && n > 0 && got.Length0 == |a| && got.Length1 == n
    ensures Captured(got, n, a, w, 0) && SeenUpTo(multiset{}, |a|, n, 0)
  {
  }

  lemma AllSeen(seen: multiset<(nat, nat)>, m: nat, n: nat, t: nat)
    requires SeenUpTo(seen, m, n, t) && t >= m + 2 * n - 2
    ensures forall k: nat, c: nat :: seen[(k, c)] == if k < m && c < n then 1 else 0
  {
  }

  /** Recomputes every result and compares. */
  method Verify(got: array2<Int32>, filled: array<bool>, n: nat, a: Mat8, w: Mat8) returns (ok: bool)
    requires Shape(a, |a|, n) && Shape(w, n, n) && got.Length0 == |a| && got.Length1 == n && filled.Length == |a|
    ensures ok <==> (forall m :: 0 <= m < |a| ==> filled[m]) && Product(got, n, a, w)
  {
    for m := 0 to |a|
      invariant forall i :: 0 <= i < m ==> filled[i]
      invariant forall i, c :: 0 <= i < m && 0 <= c < n ==> got[i, c] == MatMul(a, w, n, n)[i][c]
    {
      if !filled[m] { return false; }
      for c := 0 to n
        invariant forall j :: 0 <= j < c ==> got[m, j] == MatMul(a, w, n, n)[m][j]
      {
        var ref: Int32 := 0;
        for k := 0 to n
          invariant ref == Wrap32(Dot(a[m], w, c, k))
        {
          Wrap32Add(Dot(a[m], w, c, k), a[m][k] as int * w[k][c] as int);
          ref := Wrap32(ref + a[m][k] as int * w[k][c] as int);
        }
        assert ref == MatMul(a, w, n, n)[m][c];
        if got[m, c] != ref { return false; }
      }
    }
    return true;
  }

  /** The performance testbench's run: with weights `w` loaded and the array empty, `M + 2N - 2` ticks
      capture each of the M*N outputs exactly once, count `M * N * N` busy PEs, and the check passes. */
  method StreamAndVerify(arr: SystolicArray, w: Mat8, a: Mat8, pc: PerfCounters)
    returns (ok: bool, got: array2<Int32>, ghost seen: multiset<(nat, nat)>)
    requires arr.Valid() && arr.n > 0 && Shape(a, |a|, arr.n) && Shape(w, arr.n, arr.n)
    requires arr.Value().weight == w && arr.Value().Drained(arr.n)
    modifies arr.cells, pc
    ensures ok && Product(got, arr.n, a, w)
    ensures forall m: nat, c: nat :: seen[(m, c)] == if m < |a| && c < arr.n then 1 else 0
    ensures pc.cycles == old(pc.cycles) + |a| + 2 * arr.n - 2
    ensures pc.validPeSum == old(pc.validPeSum) + |a| * (arr.n * arr.n)
    ensures pc.m == old(pc.m) && pc.n == old(pc.n)
  {
    hide Streamed, SeenUpTo, Result, BusyGrid, Product, MatMul, Captured, Skewed;
    var n := arr.n;
    got := new Int32[|a|, n]((m, c) => 0);
    var filled := new bool[|a|](m => false);
    var total := |a| + 2 * n - 2;
    StreamStarts(n, arr.Value(), a, w);
    BusyGridStart(|a|, n, n);
    NothingCaptured(got, n, a, w);
    seen := multiset{};
    for t := 1 to total + 1
      invariant arr.Valid() && Streamed(n, arr.Value(), a, w, t - 1) && Captured(got, n, a, w, t - 1)
      invariant SeenUpTo(seen, |a|, n, t - 1)
      invariant forall m :: 0 <= m < |a| && m + n < t ==> filled[m]
      invariant pc.cycles == old(pc.cycles) + t - 1
      invariant pc.validPeSum == old(pc.validPeSum) + BusyGrid(|a|, n, n, t - 1)
      invariant pc.m == old(pc.m) && pc.n == old(pc.n)
    {
      seen := FeedAndCapture(arr, got, a, w, t, seen);
      var valid := CountValid(n, |a|, t);
      pc.Tick(valid);
      MarkFilled(filled, n, t);
    }
    BusyGridEnd(|a|, n, n, total);
    AllCaptured(got, n, a, w, total);
    AllSeen(seen, |a|, n, total);
    ok := Verify(got, filled, n, a, w);
  }

  /** Reset, then a weight load with zero activations, leaves any array empty with the weights in place. */
  method ResetAndLoad(arr: SystolicArray, w: Mat8)
    requires arr.Valid() && Shape(w, arr.n, arr.n)
    modifies arr.cells
    ensures arr.Value().weight == w && arr.Value().Drained(arr.n)
  {
    var n := arr.n;
    ghost var g0 := arr.Value();
    arr.Tick(true, false, arr.Value().weight, Zeros8(n));
    ghost var g1 := arr.Value();
    forall r, c | 0 <= r < n && 0 <= c < n
      ensures g1.act[r][c] == 0 && g1.psum[r][c] == 0
    {
      assert CellStep(n, g0, true, false, g0.weight, Zeros8(n), g1, r, c);
    }
    arr.Tick(false, true, w, Zeros8(n));
    ghost var g2 := arr.Value();
    forall r, c | 0 <= r < n && 0 <= c < n
      ensures g2.act[r][c] == 0 && g2.psum[r][c] == 0 && g2.weight[r][c] == w[r][c]
    {
      assert CellStep(n, g1, false, true, w, Zeros8(n), g2, r, c);
    }
    assert forall r :: 0 <= r < n ==> g2.weight[r] == w[r];
  }

  /** One tile on the tile runner's 4-wide array, whatever it held before: the product, and `M + 9` cycles. */
  method RunTile(arr: SystolicArray, w: Mat8, acts: Mat8) returns (results: array2<Int32>, cycles: nat, ghost seen: multiset<(nat, nat)>)
    requires arr.Valid() && arr.n == 4 && Shape(acts, |acts|, 4) && Shape(w, 4, 4)
    modifies arr.cells
    ensures Product(results, 4, acts, w) && cycles == |acts| + 9
    ensures forall m: nat, c: nat :: seen[(m, c)] == if m < |acts| && c < 4 then 1 else 0
  {
    hide Streamed, SeenUpTo, Result, Product, MatMul, Captured, Skewed;
    ResetAndLoad(arr, w);
    results := new Int32[|acts|, 4]((m, c) => 0);
    var streamTicks := |acts| + 2 * (4 - 1) + 1;
    StreamStarts(4, arr.Value(), acts, w);
    NothingCaptured(results, 4, acts, w);
    seen := multiset{};
    for j := 0 to streamTicks
      invariant arr.Valid() && Streamed(4, arr.Value(), acts, w, j) && Captured(results, 4, acts, w, j)
      invariant SeenUpTo(seen, |acts|, 4, j)
    {
      seen := FeedAndCapture(arr, results, acts, w, j + 1, seen);
    }
    AllCaptured(results, 4, acts, w, streamTicks);
    AllSeen(seen, |acts|, 4, streamTicks);
    cycles := 2 + streamTicks;
  }
}
