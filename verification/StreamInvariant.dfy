/** What every reachable state of the streaming datapath satisfies. `a` stands for the activation
    rows pushed so far by the current command, `mem0` for the result RAM when streaming began. */
module StreamInvariant {
  import opened Arith
  import opened Systolic
  import opened Wavefront
  import opened Stream

  /** The result RAM after the first `k` result rows have been written, in order. */
  function WriteResults(p: Params, mem: Mat32, cBase: nat, a: Mat8, w: Mat8, k: nat): (mem': Mat32)
    requires p.Valid() && Shape(mem, p.d, p.n) && Shape(a, |a|, p.n) && Shape(w, p.n, p.n) && k <= |a|
    ensures Shape(mem', p.d, p.n)
  {
    if k == 0 then mem
    else WriteResults(p, mem, cBase, a, w, k - 1)[Addr(p, cBase, k - 1) := RowTimes(a[k-1], w, p.n)]
  }

  /** No partial result is left anywhere in the pipeline. */
  ghost predicate Quiet(p: Params, s: Top)
    requires s.Valid(p)
  {
    s.grid.Drained(p.n) &&
    (forall r, i :: 0 <= i < r < p.n ==> s.rowSk[r][i] == 0) &&
    (forall c, j :: 0 <= c < p.n && 0 <= j < p.n - 1 - c ==> s.colSk[c][j] == 0)
  }

  /** Lane `r`'s skew chain holds the last `r` pushes of that lane. */
  ghost predicate RowChain(p: Params, s: Top, a: Mat8, r: nat)
    requires s.Valid(p) && r < p.n
  {
    forall i :: 0 <= i < r ==> s.rowSk[r][i] == Lane(a, r, s.cyc - 1 - i)
  }

  /** Column `c`'s de-skew chain holds the results that left that column most recently. */
  ghost predicate ColChain(p: Params, s: Top, a: Mat8, c: nat)
    requires s.Valid(p) && c < p.n && Shape(a, |a|, p.n)
  {
    forall j :: 0 <= j < p.n - 1 - c ==> s.colSk[c][j] == Result(p.n, a, s.grid.weight, c, s.cyc - 1 - p.n - c - j)
  }

  ghost predicate Chains(p: Params, s: Top, a: Mat8)
    requires s.Valid(p) && Shape(a, |a|, p.n)
  {
    (forall r :: 0 <= r < p.n ==> RowChain(p, s, a, r)) && (forall c :: 0 <= c < p.n ==> ColChain(p, s, a, c))
  }

  /** Rows written before cycle `cyc`. */
  function Written(p: Params, cyc: nat): nat requires p.Valid() { if cyc < Skewness(p) then 0 else cyc - Skewness(p) }

  /** The registers at cycle `cyc` are exactly what streaming the rows `a` has made of them. */
  ghost predicate Flow(p: Params, s: Top, a: Mat8, mem0: Mat32)
    requires s.Valid(p)
  {
    Shape(a, |a|, p.n) && Shape(mem0, p.d, p.n) && Written(p, s.cyc) <= |a| &&
    Tracks(p.n, s.grid, Skewed(p.n, a, s.cyc)) && Chains(p, s, a) &&
    s.mem == WriteResults(p, mem0, s.cmd.cBase, a, s.grid.weight, Written(p, s.cyc))
  }

  ghost predicate InStream(p: Params, s: Top, a: Mat8, mem0: Mat32)
    requires s.Valid(p)
  {
    s.cyc < s.cmd.mRows + Skewness(p) && |a| == Min(s.cyc, s.cmd.mRows) && Flow(p, s, a, mem0)
  }

  /** The cycle counter of this command does not wrap at 2^32. */
  predicate Fits(p: Params, c: Command) { c.mRows + 2 * p.n <= TWO32 }

  ghost predicate Inv(p: Params, s: Top, a: Mat8, mem0: Mat32) {
    s.Valid(p) &&
    match s.fsm
    case Idle => Quiet(p, s)
    case Streaming => Fits(p, s.cmd) && InStream(p, s, a, mem0)
    case Done => Fits(p, s.cmd) && Quiet(p, s) && |a| == s.cmd.mRows && Shape(a, |a|, p.n) && Shape(mem0, p.d, p.n) &&
                 s.mem == WriteResults(p, mem0, s.cmd.cBase, a, s.grid.weight, |a|)
    case _ => Fits(p, s.cmd) && Quiet(p, s) && s.li < p.n
  }

  /** The rows pushed once this edge has passed. */
  function Pushed(s: Top, a: Mat8): Mat8 {
    if !s.fsm.Streaming? then []
    else if s.cyc < s.cmd.mRows then a + [s.rdData] else a
  }

  // --- one cycle of S_STREAM ---

  /** Appending the row of cycle `t` does not disturb what was fed before `t`. */
  lemma SkewedGrows(n: nat, a: Mat8, row: Row8, t: nat)
    requires t <= |a|
    ensures Skewed(n, a + [row], t) == Skewed(n, a, t)
  {
    forall i | 0 <= i < t
      ensures SkewedRow(n, a + [row], i) == SkewedRow(n, a, i)
    {
      forall r | 0 <= r < n ensures SkewedRow(n, a + [row], i)[r] == SkewedRow(n, a, i)[r] {
        assert Lane(a + [row], r, i - r) == Lane(a, r, i - r);
      }
    }
  }

  lemma ResultGrows(n: nat, a: Mat8, row: Row8, w: Mat8, c: nat, k: int)
    requires Shape(a, |a|, n) && |row| == n && Shape(w, n, n) && c < n && k < |a|
    ensures Shape(a + [row], |a| + 1, n)
    ensures Result(n, a + [row], w, c, k) == Result(n, a, w, c, k)
  {
  }

  lemma {:induction false} WriteResultsGrows(p: Params, mem: Mat32, cBase: nat, a: Mat8, row: Row8, w: Mat8, k: nat)
    requires p.Valid() && Shape(mem, p.d, p.n) && Shape(a, |a|, p.n) && |row| == p.n && Shape(w, p.n, p.n) && k <= |a|
    ensures Shape(a + [row], |a| + 1, p.n)
    ensures WriteResults(p, mem, cBase, a + [row], w, k) == WriteResults(p, mem, cBase, a, w, k)
  {
    assert Shape(a + [row], |a| + 1, p.n);
    if k > 0 { WriteResultsGrows(p, mem, cBase, a, row, w, k - 1); }
  }

  /** The state of cycle `cyc`, described with the row pushed in this very cycle already included. */
  lemma PushInvisible(p: Params, s: Top, a: Mat8, mem0: Mat32)
    requires s.Valid(p) && s.fsm.Streaming? && InStream(p, s, a, mem0)
    ensures Flow(p, s, Pushed(s, a), mem0)
  {
    if s.cyc < s.cmd.mRows {
      var a' := a + [s.rdData];
      SkewedGrows(p.n, a, s.rdData, s.cyc);
      WriteResultsGrows(p, mem0, s.cmd.cBase, a, s.rdData, s.grid.weight, Written(p, s.cyc));
      forall r | 0 <= r < p.n
        ensures RowChain(p, s, a', r)
      {
        assert RowChain(p, s, a, r);
      }
      forall c | 0 <= c < p.n
        ensures ColChain(p, s, a', c)
      {
        assert ColChain(p, s, a, c);
        forall j | 0 <= j < p.n - 1 - c
          ensures s.colSk[c][j] == Result(p.n, a', s.grid.weight, c, s.cyc - 1 - p.n - c - j)
        {
          ResultGrows(p.n, a, s.rdData, s.grid.weight, c, s.cyc - 1 - p.n - c - j);
        }
      }
    }
  }

  /** The skew chains present exactly the skewed feed to the grid. */
  lemma ActInIsSkewed(p: Params, s: Top, a: Mat8)
    requires s.Valid(p) && s.fsm.Streaming? && |a| == Min(s.cyc, s.cmd.mRows)
    requires var a' := Pushed(s, a); Shape(a', |a'|, p.n) && Chains(p, s, a')
    ensures ActIn(p, s) == SkewedRow(p.n, Pushed(s, a), s.cyc)
  {
    var a' := Pushed(s, a);
    forall r | 0 <= r < p.n
      ensures ActSkewed(p, s, r) == Lane(a', r, s.cyc - r)
    {
      if r > 0 { assert RowChain(p, s, a', r); }
    }
  }

  /** The word on the write port is the result row of vector `cyc - (2N-1)`. */
  lemma AlignedResult(p: Params, s: Top, a: Mat8, c: nat)
    requires s.Valid(p) && c < p.n && Shape(a, |a|, p.n)
    requires Tracks(p.n, s.grid, Skewed(p.n, a, s.cyc)) && ColChain(p, s, a, c)
    ensures PsumAligned(p, s, c) == Result(p.n, a, s.grid.weight, c, s.cyc - Skewness(p))
  {
    if c == p.n - 1 {
      SkewedOutput(p.n, s.grid, a, s.cyc, c);
    } else {
      assert s.colSk[c][p.n-2-c] == Result(p.n, a, s.grid.weight, c, s.cyc - 1 - p.n - c - (p.n - 2 - c));
    }
  }

  lemma WriteIsResultRow(p: Params, s: Top, a: Mat8)
    requires s.Valid(p) && Shape(a, |a|, p.n) && WrEn(p, s)
    requires Tracks(p.n, s.grid, Skewed(p.n, a, s.cyc)) && Chains(p, s, a)
    requires s.cyc - Skewness(p) < |a|
    ensures WrData(p, s) == RowTimes(a[s.cyc - Skewness(p)], s.grid.weight, p.n)
  {
    forall c | 0 <= c < p.n
      ensures WrData(p, s)[c] == RowTimes(a[s.cyc - Skewness(p)], s.grid.weight, p.n)[c]
    {
      assert ColChain(p, s, a, c);
      AlignedResult(p, s, a, c);
    }
  }

  lemma RowChainStep(p: Params, s: Top, a: Mat8, s': Top, r: nat)
    requires s.Valid(p) && s'.Valid(p) && s.fsm.Streaming? && |a| == Min(s.cyc, s.cmd.mRows) && r < p.n
    requires var a' := Pushed(s, a); Shape(a', |a'|, p.n) && RowChain(p, s, a', r)
    requires s'.rowSk == RowSkNext(p, s, false) && s'.cyc == s.cyc + 1
    ensures RowChain(p, s', Pushed(s, a), r)
  {
    assert s'.rowSk[r] == Shift(s.rowSk[r], ActPush(p, s, r));
  }

  lemma ColShifted(p: Params, s: Top, c: nat)
    requires s.Valid(p) && s.fsm.Streaming? && c < p.n
    ensures ColSkNext(p, s, false)[c] == Shift(s.colSk[c], s.grid.psum[p.n-1][c])
  {
  }

  lemma ColChainStep(p: Params, s: Top, a: Mat8, s': Top, c: nat)
    requires s.Valid(p) && s'.Valid(p) && s.fsm.Streaming? && c < p.n
    requires Shape(a, |a|, p.n) && ColChain(p, s, a, c) && Tracks(p.n, s.grid, Skewed(p.n, a, s.cyc))
    requires s'.colSk == ColSkNext(p, s, false) && s'.grid.weight == s.grid.weight && s'.cyc == s.cyc + 1
    ensures ColChain(p, s', a, c)
  {
    hide Skewed, Tracks, Result, RowSkNext, ColSkNext, Shift;
    SkewedOutput(p.n, s.grid, a, s.cyc, c);
    ColShifted(p, s, c);
    forall j | 0 <= j < p.n - 1 - c
      ensures s'.colSk[c][j] == Result(p.n, a, s'.grid.weight, c, s'.cyc - 1 - p.n - c - j)
    {
      if j > 0 { assert s.colSk[c][j-1] == Result(p.n, a, s.grid.weight, c, s.cyc - 1 - p.n - c - (j - 1)); }
    }
  }

  /** The shift chains after one more cycle. */
  lemma ChainsStep(p: Params, s: Top, a: Mat8, s': Top)
    requires s.Valid(p) && s'.Valid(p) && s.fsm.Streaming? && |a| == Min(s.cyc, s.cmd.mRows)
    requires var a' := Pushed(s, a); Shape(a', |a'|, p.n) && Chains(p, s, a') && Tracks(p.n, s.grid, Skewed(p.n, a', s.cyc))
    requires s'.rowSk == RowSkNext(p, s, false) && s'.colSk == ColSkNext(p, s, false)
    requires s'.grid.weight == s.grid.weight && s'.cyc == s.cyc + 1
    ensures Chains(p, s', Pushed(s, a))
  {
    hide RowChain, ColChain, Tracks, RowSkNext, ColSkNext, Pushed;
    var a' := Pushed(s, a);
    forall r | 0 <= r < p.n
      ensures RowChain(p, s', a', r)
    {
      RowChainStep(p, s, a, s', r);
    }
    forall c | 0 <= c < p.n
      ensures ColChain(p, s', a', c)
    {
      ColChainStep(p, s, a', s', c);
    }
  }

  /** After the last of the M + 2N - 1 cycles nothing is left in the pipeline. */
  lemma StreamDrains(p: Params, s: Top, a: Mat8)
    requires s.Valid(p) && Shape(a, |a|, p.n) && s.cyc == |a| + Skewness(p)
    requires Tracks(p.n, s.grid, Skewed(p.n, a, s.cyc)) && Chains(p, s, a)
    ensures Quiet(p, s)
  {
    SkewedDrains(p.n, s.grid, a, s.cyc);
    forall r, i | 0 <= i < r < p.n
      ensures s.rowSk[r][i] == 0
    {
      assert RowChain(p, s, a, r);
    }
    forall c, j | 0 <= c < p.n && 0 <= j < p.n - 1 - c
      ensures s.colSk[c][j] == 0
    {
      assert ColChain(p, s, a, c);
    }
  }

  /** One cycle's register updates advance the flow by one cycle. */
  lemma FlowStep(p: Params, s: Top, a: Mat8, mem0: Mat32, s': Top)
    requires s.Valid(p) && s'.Valid(p) && s.fsm.Streaming? && InStream(p, s, a, mem0)
    requires GridStep(p.n, s.grid, false, false, s.weightBuf, ActIn(p, s), s'.grid)
    requires s'.rowSk == RowSkNext(p, s, false) && s'.colSk == ColSkNext(p, s, false)
    requires s'.mem == if WrEn(p, s) then s.mem[WrAddr(p, s) := WrData(p, s)] else s.mem
    requires s'.cmd == s.cmd && s'.cyc == s.cyc + 1
    ensures Flow(p, s', Pushed(s, a), mem0) && s'.grid.weight == s.grid.weight
  {
    var a' := Pushed(s, a);
    PushInvisible(p, s, a, mem0);
    ActInIsSkewed(p, s, a);
    TracksStep(p.n, s.grid, Skewed(p.n, a', s.cyc), s.weightBuf, ActIn(p, s), s'.grid);
    SkewedSnoc(p.n, a', s.cyc);
    ChainsStep(p, s, a, s');
    if WrEn(p, s) { WriteIsResultRow(p, s, a'); }
  }

  /** What the FSM does in S_STREAM while the counters do not wrap. */
  lemma StreamFsm(p: Params, s: Top, x: In, s': Top)
    requires s.Valid(p) && s.fsm.Streaming? && Fits(p, s.cmd) && s.cyc < s.cmd.mRows + Skewness(p)
    requires x.Valid(p) && !x.rst && Step(p, s, x, s')
    ensures s'.Valid(p) && s'.cmd == s.cmd && !s'.done
    ensures s'.fsm == if s.cyc == s.cmd.mRows + Skewness(p) - 1 then Done else Streaming
    ensures s'.fsm.Streaming? ==> s'.cyc == s.cyc + 1
  {
    CountersDoNotWrap(p, s);
    var f := FsmNext(p, s, x);
    assert s'.cmd == f.cmd && s'.done == f.done && s'.fsm == f.fsm && s'.cyc == f.cyc;
  }

  lemma CountersDoNotWrap(p: Params, s: Top)
    requires s.Valid(p) && Fits(p, s.cmd) && s.cyc < s.cmd.mRows + Skewness(p)
    ensures U32(TotalCycles(p, s) - 1) == s.cmd.mRows + Skewness(p) - 1
    ensures U32(s.cyc + 1) == s.cyc + 1
  {
  }

  /** Every cycle of S_STREAM keeps the invariant, and the last one leaves the pipeline empty. */
  lemma StreamStep(p: Params, s: Top, x: In, s': Top, a: Mat8, mem0: Mat32)
    requires s.fsm.Streaming? && Inv(p, s, a, mem0) && x.Valid(p) && !x.rst && Step(p, s, x, s')
    ensures Inv(p, s', Pushed(s, a), mem0)
    ensures s'.grid.weight == s.grid.weight
  {
    hide RowSkNext, ColSkNext, WrData, ActIn, WrAddr, GridStep, RowChain, ColChain, Tracks, WriteResults, FsmNext, Shape;
    StreamFsm(p, s, x, s');
    var next := s'.(cyc := s.cyc + 1);
    FlowStep(p, s, a, mem0, next);
    if s'.fsm.Done? {
      StreamDrains(p, next, Pushed(s, a));
    }
  }

  // --- the other states ---

  lemma ZeroRegisters(n: nat, g: Grid, weightIn: Mat8, load: bool, actIn: Row8, g': Grid)
    requires g.Valid(n) && Shape(weightIn, n, n) && |actIn| == n && GridStep(n, g, false, load, weightIn, actIn, g')
    requires g.Drained(n) && forall r :: 0 <= r < n ==> actIn[r] == 0
    ensures g'.Drained(n)
    ensures g'.weight == if load then weightIn else g.weight
  {
    forall r, c | 0 <= r < n && 0 <= c < n
      ensures g'.act[r][c] == 0 && g'.psum[r][c] == 0 && g'.weight[r][c] == if load then weightIn[r][c] else g.weight[r][c]
    {
      assert CellStep(n, g, false, load, weightIn, actIn, g', r, c);
    }
    assert forall r :: 0 <= r < n ==> g'.weight[r] == if load then weightIn[r] else g.weight[r];
  }

  /** Outside S_STREAM a quiet pipeline stays quiet, although the PEs are clocked. */
  lemma QuietStep(p: Params, s: Top, x: In, s': Top)
    requires s.Valid(p) && !s.fsm.Streaming? && Quiet(p, s) && x.Valid(p) && !x.rst && Step(p, s, x, s')
    ensures s'.Valid(p) && Quiet(p, s')
    ensures s'.grid.weight == if s.fsm.LoadPulse? then s.weightBuf else s.grid.weight
    ensures s'.mem == s.mem
  {
    forall r | 0 <= r < p.n ensures ActIn(p, s)[r] == 0 { }
    ZeroRegisters(p.n, s.grid, s.weightBuf, s.fsm.LoadPulse?, ActIn(p, s), s'.grid);
  }

  lemma ResetStep(p: Params, s: Top, x: In, s': Top)
    requires s.Valid(p) && x.Valid(p) && x.rst && Step(p, s, x, s')
    ensures s'.Valid(p) && s'.fsm.Idle? && Quiet(p, s') && !s'.done && s'.li == 0 && s'.cyc == 0
    ensures forall r, c :: 0 <= r < p.n && 0 <= c < p.n ==>
      s'.grid.weight[r][c] == 0 && s'.grid.act[r][c] == 0 && s'.grid.psum[r][c] == 0
  {
    forall r, c | 0 <= r < p.n && 0 <= c < p.n
      ensures s'.grid.weight[r][c] == 0 && s'.grid.act[r][c] == 0 && s'.grid.psum[r][c] == 0
    {
      assert CellStep(p.n, s.grid, true, s.fsm.LoadPulse?, s.weightBuf, ActIn(p, s), s'.grid, r, c);
    }
    assert forall c :: 0 <= c < p.n ==> s'.colSk[c] == Zeros32(p.n - 1 - c);
  }

  /** An empty pipeline satisfies the streaming invariant at cycle 0. */
  lemma StreamBegins(p: Params, s: Top)
    requires s.Valid(p) && s.fsm.Streaming? && s.cyc == 0 && Quiet(p, s) && Fits(p, s.cmd)
    ensures Inv(p, s, [], s.mem)
  {
    DrainedTracks(p.n, s.grid);
    assert Skewed(p.n, [], 0) == [];
  }
}
