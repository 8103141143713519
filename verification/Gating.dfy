/** The clock-gated array's oracle (sim/power/tb_power.cpp:71-112) against the ungated grid. */
module Gating {
  import opened Arith
  import opened Systolic
  import Wavefront

  /** The oracle's registers. */
  datatype Soft = Soft(weight: Mat8, act: Mat8, valid: seq<seq<bool>>, psum: Mat32) {
    predicate Valid(n: nat) { Shape(weight, n, n) && Shape(act, n, n) && Shape(valid, n, n) && Shape(psum, n, n) }

    function ActWire(n: nat, actIn: Row8, r: nat, c: nat): Int8
      requires Valid(n) && |actIn| == n && r < n && c < n
    {
      if c == 0 then actIn[r] else act[r][c-1]
    }

    function ValidWire(n: nat, validIn: seq<bool>, r: nat, c: nat): bool
      requires Valid(n) && |validIn| == n && r < n && c < n
    {
      if c == 0 then validIn[r] else valid[r][c-1]
    }

    function PsumWire(n: nat, r: nat, c: nat): Int32
      requires Valid(n) && r < n && c < n
    {
      if r == 0 then 0 else psum[r-1][c]
    }
  }

  /** What one step leaves in PE (r,c): a gated cell keeps its activation and its validity. */
  ghost predicate SoftCell(n: nat, s: Soft, actIn: Row8, validIn: seq<bool>, s': Soft, r: nat, c: nat)
    requires s.Valid(n) && s'.Valid(n) && |actIn| == |validIn| == n && r < n && c < n
  {
    var a, v := s.ActWire(n, actIn, r, c), s.ValidWire(n, validIn, r, c);
    s'.psum[r][c] == Wrap32(s.PsumWire(n, r, c) + if v then a as int * s.weight[r][c] as int else 0) &&
    s'.act[r][c] == (if v then a else s.act[r][c]) &&
    s'.valid[r][c] == (if v then true else s.valid[r][c])
  }

  ghost predicate SoftStep(n: nat, s: Soft, actIn: Row8, validIn: seq<bool>, s': Soft)
    requires s.Valid(n) && |actIn| == |validIn| == n
  {
    s'.Valid(n) && s'.weight == s.weight &&
    forall r, c :: 0 <= r < n && 0 <= c < n ==> SoftCell(n, s, actIn, validIn, s', r, c)
  }

  /** The same for one cell of row `r`, given the row's own inputs. */
  ghost predicate RowCell(s: Soft, aIn: Int8, vIn: bool, r: nat, c: nat, act: Int8, valid: bool, psum: Int32)
    requires r < |s.act| == |s.valid| == |s.psum| == |s.weight|
    requires c < |s.act[r]| && c < |s.valid[r]| && c < |s.weight[r]| && (r > 0 ==> c < |s.psum[r-1]|)
  {
    var a, v := (if c == 0 then aIn else s.act[r][c-1]), (if c == 0 then vIn else s.valid[r][c-1]);
    psum == Wrap32((if r == 0 then 0 else s.psum[r-1][c]) + if v then a as int * s.weight[r][c] as int else 0) &&
    act == (if v then a else s.act[r][c]) && valid == (if v then true else s.valid[r][c])
  }

  /** Replacing row `r` by its new registers. */
  lemma RowAdded(n: nat, s: Soft, actIn: Row8, validIn: seq<bool>, t: Soft, r: nat, act: Row8, valid: seq<bool>, psum: Row32)
    requires s.Valid(n) && t.Valid(n) && |actIn| == |validIn| == n && r < n && |act| == |valid| == |psum| == n && t.weight == s.weight
    requires forall i, j :: 0 <= i < r && 0 <= j < n ==> SoftCell(n, s, actIn, validIn, t, i, j)
    requires forall c :: 0 <= c < n ==> RowCell(s, actIn[r], validIn[r], r, c, act[c], valid[c], psum[c])
    ensures var t' := Soft(t.weight, t.act[r := act], t.valid[r := valid], t.psum[r := psum]);
      t'.Valid(n) && forall i, j :: 0 <= i <= r && 0 <= j < n ==> SoftCell(n, s, actIn, validIn, t', i, j)
  {
    var t' := Soft(t.weight, t.act[r := act], t.valid[r := valid], t.psum[r := psum]);
    forall i, j | 0 <= i <= r && 0 <= j < n
      ensures SoftCell(n, s, actIn, validIn, t', i, j)
    {
      if i < r {
        assert SoftCell(n, s, actIn, validIn, t, i, j);
      } else {
        assert RowCell(s, actIn[r], validIn[r], r, j, act[j], valid[j], psum[j]);
      }
    }
  }

  class SoftArray {
    const n: nat
    var weight: Mat8
    var act: Mat8
    var valid: seq<seq<bool>>
    var psum: Mat32

    ghost function Value(): Soft
      reads this
    {
      Soft(weight, act, valid, psum)
    }

    constructor (n: nat)
      ensures this.n == n && Value().Valid(n)
      ensures forall r, c :: 0 <= r < n && 0 <= c < n ==> act[r][c] == 0 && !valid[r][c] && psum[r][c] == 0
    {
      this.n := n;
      weight, act := seq<Row8>(n, r => Zeros8(n)), seq<Row8>(n, r => Zeros8(n));
      valid, psum := seq<seq<bool>>(n, r => seq<bool>(n, c => false)), seq<Row32>(n, r => Zeros32(n));
    }

    method Reset()
      requires Value().Valid(n)
      modifies this
      ensures Value().Valid(n) && weight == old(weight)
      ensures forall r, c :: 0 <= r < n && 0 <= c < n ==> act[r][c] == 0 && !valid[r][c] && psum[r][c] == 0
    {
      act := seq<Row8>(n, r => Zeros8(n));
      valid, psum := seq<seq<bool>>(n, r => seq<bool>(n, c => false)), seq<Row32>(n, r => Zeros32(n));
    }

    method LoadWeights(w: Mat8)
      requires Value().Valid(n) && Shape(w, n, n)
      modifies this
      ensures Value() == old(Value()).(weight := w)
    {
      weight := w;
    }

    /** One tick; every cell is computed from the old registers. Returns the bottom row. */
    method Step(actIn: Row8, validIn: seq<bool>) returns (out: Row32)
      requires Value().Valid(n) && |actIn| == |validIn| == n
      modifies this
      ensures SoftStep(n, old(Value()), actIn, validIn, Value())
      ensures |out| == n && forall c :: 0 <= c < n ==> out[c] == psum[n-1][c]
    {
      hide SoftCell, RowCell;
      var newAct, newValid, newPsum := act, valid, psum;
      ghost var s := Value();
      for r := 0 to n
        invariant Value() == s && Soft(weight, newAct, newValid, newPsum).Valid(n)
        invariant forall i, j :: 0 <= i < r && 0 <= j < n ==>
          SoftCell(n, s, actIn, validIn, Soft(weight, newAct, newValid, newPsum), i, j)
      {
        var rowAct, rowValid, rowPsum := StepRow(r, actIn[r], validIn[r]);
        ghost var before := Soft(weight, newAct, newValid, newPsum);
        newAct, newValid, newPsum := newAct[r := rowAct], newValid[r := rowValid], newPsum[r := rowPsum];
        RowAdded(n, s, actIn, validIn, before, r, rowAct, rowValid, rowPsum);
      }
      act, valid, psum := newAct, newValid, newPsum;
      out := if n == 0 then [] else psum[n-1];
    }

    /** The new registers of row `r`, column by column. */
    method StepRow(r: nat, aIn: Int8, vIn: bool) returns (rowAct: Row8, rowValid: seq<bool>, rowPsum: Row32)
      requires Value().Valid(n) && r < n
      ensures |rowAct| == |rowValid| == |rowPsum| == n
      ensures forall c :: 0 <= c < n ==> RowCell(Value(), aIn, vIn, r, c, rowAct[c], rowValid[c], rowPsum[c])
    {
      rowAct, rowValid, rowPsum := [], [], [];
      for c := 0 to n
        invariant |rowAct| == |rowValid| == |rowPsum| == c
        invariant forall j :: 0 <= j < c ==> RowCell(Value(), aIn, vIn, r, j, rowAct[j], rowValid[j], rowPsum[j])
      {
        var a := if c == 0 then aIn else act[r][c-1];
        var v := if c == 0 then vIn else valid[r][c-1];
        var p := if r == 0 then 0 else psum[r-1][c];
        var prod := if v then a as int * weight[r][c] as int else 0;
        rowPsum := rowPsum + [Wrap32(p + prod)];
        rowAct := rowAct + [if v then a else act[r][c]];
        rowValid := rowValid + [if v then true else valid[r][c]];
      }
    }
  }

  /** The gated cell itself (rtl/cg/pe_cg.sv): the clock of its activation and validity registers runs only
      while the row is valid or in reset. */
  class PeCg {
    var weight: Int8
    var actOut: Int8
    var validOut: bool
    var psumOut: Int32

    constructor () {
      weight, actOut, validOut, psumOut := *, *, *, *;
    }

    /** One clock edge; out of reset it does to its cell exactly what a step of the oracle does. */
    method Tick(rst: bool, weightLoad: bool, actValid: bool, weightIn: Int8, actIn: Int8, psumIn: Int32)
      modifies this
      ensures rst ==> weight == 0 && actOut == 0 && !validOut && psumOut == 0
      ensures !rst ==>
        weight == (if weightLoad then weightIn else old(weight)) &&
        psumOut == Wrap32(psumIn + if actValid then actIn as int * old(weight) as int else 0) &&
        actOut == (if actValid then actIn else old(actOut)) && validOut == (if actValid then true else old(validOut))
    {
      var isolated: Int8 := if actValid then actIn else 0;
      var prod := isolated as int * weight as int;
      var gated := actValid || rst;
      psumOut := if rst then 0 else Wrap32(psumIn + prod);
      weight := if rst then 0 else if weightLoad then weightIn else weight;
      if gated {
        if rst { actOut, validOut := 0, false; } else { actOut, validOut := actIn, actValid; }
      }
    }
  }

  // --- equivalence with the ungated grid ---

  /** Activations of invalid rows replaced by zero. */
  function Masked(actIn: Row8, validIn: seq<bool>): (a: Row8)
    requires |actIn| == |validIn|
    ensures |a| == |actIn|
  {
    seq<Int8>(|actIn|, r requires 0 <= r < |actIn| => if validIn[r] then actIn[r] else 0)
  }

  /** The ungated cell holds the oracle's activation where that is valid, and zero elsewhere. */
  ghost predicate SameCell(n: nat, s: Soft, g: Grid, r: nat, c: nat)
    requires s.Valid(n) && g.Valid(n) && r < n && c < n
  {
    g.psum[r][c] == s.psum[r][c] && g.weight[r][c] == s.weight[r][c] &&
    g.act[r][c] == (if s.valid[r][c] then s.act[r][c] else 0) &&
    (c > 0 && s.valid[r][c] ==> s.valid[r][c-1])
  }

  ghost predicate Same(n: nat, s: Soft, g: Grid, lastValid: seq<bool>)
    requires s.Valid(n) && g.Valid(n) && |lastValid| == n
  {
    (forall r, c :: 0 <= r < n && 0 <= c < n ==> SameCell(n, s, g, r, c)) &&
    (forall r :: 0 <= r < n && n > 0 && s.valid[r][0] ==> lastValid[r])
  }

  /** One tick keeps them the same, provided no row's validity drops. */
  lemma SameStep(n: nat, s: Soft, g: Grid, lastValid: seq<bool>, actIn: Row8, validIn: seq<bool>, s': Soft, g': Grid)
    requires s.Valid(n) && g.Valid(n) && |lastValid| == |actIn| == |validIn| == n
    requires Same(n, s, g, lastValid) && forall r :: 0 <= r < n && lastValid[r] ==> validIn[r]
    requires SoftStep(n, s, actIn, validIn, s') && GridStep(n, g, false, false, g.weight, Masked(actIn, validIn), g')
    ensures Same(n, s', g', validIn)
  {
    forall r, c | 0 <= r < n && 0 <= c < n
      ensures SameCell(n, s', g', r, c)
      ensures c == 0 && s'.valid[r][c] ==> validIn[r]
    {
      CellsAgree(n, s, g, lastValid, actIn, validIn, s', g', r, c);
    }
  }

  lemma CellsAgree(n: nat, s: Soft, g: Grid, lastValid: seq<bool>, actIn: Row8, validIn: seq<bool>, s': Soft, g': Grid, r: nat, c: nat)
    requires s.Valid(n) && g.Valid(n) && |lastValid| == |actIn| == |validIn| == n && r < n && c < n
    requires Same(n, s, g, lastValid) && forall r :: 0 <= r < n && lastValid[r] ==> validIn[r]
    requires SoftStep(n, s, actIn, validIn, s') && GridStep(n, g, false, false, g.weight, Masked(actIn, validIn), g')
    ensures SameCell(n, s', g', r, c)
    ensures c == 0 && s'.valid[r][c] ==> validIn[r]
  {
    assert SoftCell(n, s, actIn, validIn, s', r, c);
    assert CellStep(n, g, false, false, g.weight, Masked(actIn, validIn), g', r, c);
    assert SameCell(n, s, g, r, c);
    if c > 0 {
      assert SameCell(n, s, g, r, c - 1);
      assert SoftCell(n, s, actIn, validIn, s', r, c - 1);
    }
    if r > 0 { assert SameCell(n, s, g, r - 1, c); }
    var a, w := s.ActWire(n, actIn, r, c), s.weight[r][c];
    assert g.ActWire(n, Masked(actIn, validIn), r, c) == if s.ValidWire(n, validIn, r, c) then a else 0;
  }

  /** A run of the oracle and a run of the ungated grid on the masked activations. */
  ghost predicate Runs(n: nat, ss: seq<Soft>, gs: seq<Grid>, acts: Mat8, valids: seq<seq<bool>>) {
    |ss| == |gs| == |acts| + 1 == |valids| + 1 &&
    (forall i :: 0 <= i < |ss| ==> ss[i].Valid(n) && gs[i].Valid(n)) &&
    (forall i :: 0 <= i < |acts| ==> |acts[i]| == |valids[i]| == n) &&
    (forall i :: 0 <= i < |acts| ==> SoftStep(n, ss[i], acts[i], valids[i], ss[i+1])) &&
    (forall i :: 0 <= i < |acts| ==> GridStep(n, gs[i], false, false, gs[i].weight, Masked(acts[i], valids[i]), gs[i+1])) &&
    gs[0].Drained(n) && gs[0].weight == ss[0].weight &&
    forall r, c :: 0 <= r < n && 0 <= c < n ==> ss[0].act[r][c] == 0 && !ss[0].valid[r][c] && ss[0].psum[r][c] == 0
  }

  predicate Keeps(n: nat, before: seq<bool>, after: seq<bool>)
    requires |before| == |after| == n
  {
    forall r :: 0 <= r < n && before[r] ==> after[r]
  }

  predicate Schedule(n: nat, valids: seq<seq<bool>>) { forall i :: 0 <= i < |valids| ==> |valids[i]| == n }

  /** No row's validity drops during the first `ticks` ticks. A constant validity is the special case. */
  predicate NeverDrops(n: nat, valids: seq<seq<bool>>, ticks: int)
    requires Schedule(n, valids)
  {
    forall i, j :: 0 <= i < |valids| && j == i + 1 && j < |valids| && j < ticks ==> Keeps(n, valids[i], valids[j])
  }

  ghost predicate SameAt(n: nat, s: Soft, g: Grid, valids: seq<seq<bool>>, i: nat)
    requires s.Valid(n) && g.Valid(n) && i <= |valids| && Schedule(n, valids)
  {
    Same(n, s, g, if i == 0 then seq<bool>(n, r => false) else valids[i-1])
  }

  lemma {:induction false} RunsAgree(n: nat, ss: seq<Soft>, gs: seq<Grid>, acts: Mat8, valids: seq<seq<bool>>, i: nat)
    requires Runs(n, ss, gs, acts, valids) && NeverDrops(n, valids, i) && i < |ss|
    ensures SameAt(n, ss[i], gs[i], valids, i)
  {
    if i == 0 {
      assert forall r, c :: 0 <= r < n && 0 <= c < n ==> SameCell(n, ss[0], gs[0], r, c);
    } else {
      RunsAgree(n, ss, gs, acts, valids, i - 1);
      SameStep(n, ss[i-1], gs[i-1], if i == 1 then seq<bool>(n, r => false) else valids[i-2],
               acts[i-1], valids[i-1], ss[i], gs[i]);
    }
  }

  /** The next partial sums agree whatever the new validities are. */
  lemma SumsAgree(n: nat, s: Soft, g: Grid, lastValid: seq<bool>, actIn: Row8, validIn: seq<bool>, s': Soft, g': Grid)
    requires s.Valid(n) && g.Valid(n) && |lastValid| == |actIn| == |validIn| == n && Same(n, s, g, lastValid)
    requires SoftStep(n, s, actIn, validIn, s') && GridStep(n, g, false, false, g.weight, Masked(actIn, validIn), g')
    ensures s'.psum == g'.psum
  {
    forall r, c | 0 <= r < n && 0 <= c < n
      ensures s'.psum[r][c] == g'.psum[r][c]
    {
      assert SoftCell(n, s, actIn, validIn, s', r, c);
      assert CellStep(n, g, false, false, g.weight, Masked(actIn, validIn), g', r, c);
      assert SameCell(n, s, g, r, c);
      if c > 0 { assert SameCell(n, s, g, r, c - 1); }
      if r > 0 { assert SameCell(n, s, g, r - 1, c); }
      var a := s.ActWire(n, actIn, r, c);
      assert g.ActWire(n, Masked(actIn, validIn), r, c) == if s.ValidWire(n, validIn, r, c) then a else 0;
    }
    assert forall r :: 0 <= r < n ==> s'.psum[r] == g'.psum[r];
  }

  /** If no row's validity drops more than a tick before, the gated array's partial sums equal the ungated
      array's, whatever junk the invalid rows carry. */
  lemma GatingIsInvisible(n: nat, ss: seq<Soft>, gs: seq<Grid>, acts: Mat8, valids: seq<seq<bool>>, i: nat)
    requires Runs(n, ss, gs, acts, valids) && i < |ss| && NeverDrops(n, valids, i - 1)
    ensures ss[i].psum == gs[i].psum
  {
    if i == 0 {
      assert forall r :: 0 <= r < n ==> ss[0].psum[r] == gs[0].psum[r];
    } else {
      RunsAgree(n, ss, gs, acts, valids, i - 1);
      SumsAgree(n, ss[i-1], gs[i-1], if i == 1 then seq<bool>(n, r => false) else valids[i-2],
                acts[i-1], valids[i-1], ss[i], gs[i]);
    }
  }

  // --- the condition is exact ---

  /** Row `r` is valid in tick `i` and invalid in the next, with a tick left to see it. */
  predicate DropsAt(n: nat, valids: seq<seq<bool>>, i: nat, r: nat)
    requires Schedule(n, valids)
  {
    i + 2 < |valids| && r < n && valids[i][r] && !valids[i+1][r]
  }

  function SpikeWeights(n: nat, r: nat): (w: Mat8)
    ensures Shape(w, n, n)
  {
    seq<Row8>(n, i requires 0 <= i < n => seq<Int8>(n, j requires 0 <= j < n => if i == r && j == 1 then 1 else 0))
  }

  function SpikeActs(n: nat, ticks: nat, i: nat, r: nat): (acts: Mat8)
    ensures Shape(acts, ticks, n)
  {
    seq<Row8>(ticks, t requires 0 <= t < ticks => seq<Int8>(n, k requires 0 <= k < n => if t == i && k == r then 1 else 0))
  }

  /** A run of both arrays on a single unit activation entering row `r` in tick `i`, with a single unit weight
      in that row's second column. */
  ghost predicate Spike(n: nat, ss: seq<Soft>, gs: seq<Grid>, valids: seq<seq<bool>>, i: nat, r: nat) {
    Runs(n, ss, gs, SpikeActs(n, |valids|, i, r), valids) && ss[0].weight == SpikeWeights(n, r)
  }

  /** One tick of one cell of both runs. */
  lemma SpikeCell(n: nat, ss: seq<Soft>, gs: seq<Grid>, valids: seq<seq<bool>>, i: nat, r: nat, t: nat, k: nat, c: nat)
    requires Spike(n, ss, gs, valids, i, r) && t < |valids| && k < n && c < n
    ensures |ss| == |gs| == |valids| + 1 && |valids[t]| == n
    ensures ss[t].Valid(n) && gs[t].Valid(n) && ss[t+1].Valid(n) && gs[t+1].Valid(n)
    ensures var acts := SpikeActs(n, |valids|, i, r);
      SoftCell(n, ss[t], acts[t], valids[t], ss[t+1], k, c) &&
      CellStep(n, gs[t], false, false, gs[t].weight, Masked(acts[t], valids[t]), gs[t+1], k, c)
    ensures ss[t].weight == gs[t].weight == SpikeWeights(n, r)
  {
    hide SoftCell, CellStep, SpikeWeights, SpikeActs;
    SpikeHeld(n, ss, gs, valids, i, r, t);
  }

  lemma {:induction false} SpikeHeld(n: nat, ss: seq<Soft>, gs: seq<Grid>, valids: seq<seq<bool>>, i: nat, r: nat, t: nat)
    requires Spike(n, ss, gs, valids, i, r) && t <= |valids|
    ensures ss[t].weight == gs[t].weight == SpikeWeights(n, r)
  {
    hide SoftCell, CellStep, SpikeWeights, SpikeActs;
    if t > 0 {
      SpikeHeld(n, ss, gs, valids, i, r, t - 1);
      var acts := SpikeActs(n, |valids|, i, r);
      Wavefront.WeightsHeld(n, gs[t-1], gs[t-1].weight, Masked(acts[t-1], valids[t-1]), gs[t]);
    }
  }

  /** The first column's new activations: taken if valid, else frozen in one array and zero in the other. */
  lemma FirstColumn(n: nat, s: Soft, g: Grid, actIn: Row8, validIn: seq<bool>, s': Soft, g': Grid, k: nat)
    requires k < n && s.Valid(n) && g.Valid(n) && s'.Valid(n) && g'.Valid(n) && |actIn| == |validIn| == n
    requires SoftCell(n, s, actIn, validIn, s', k, 0)
    requires CellStep(n, g, false, false, g.weight, Masked(actIn, validIn), g', k, 0)
    ensures if validIn[k] then s'.act[k][0] == actIn[k] && s'.valid[k][0] && g'.act[k][0] == actIn[k]
            else s'.act[k][0] == s.act[k][0] && s'.valid[k][0] == s.valid[k][0] && g'.act[k][0] == 0
  {
  }

  /** The second column's new sums, when nothing comes from above. */
  lemma SecondColumn(n: nat, s: Soft, g: Grid, actIn: Row8, validIn: seq<bool>, s': Soft, g': Grid, k: nat)
    requires 2 <= n && k < n && s.Valid(n) && g.Valid(n) && s'.Valid(n) && g'.Valid(n) && |actIn| == |validIn| == n
    requires SoftCell(n, s, actIn, validIn, s', k, 1)
    requires CellStep(n, g, false, false, g.weight, Masked(actIn, validIn), g', k, 1)
    requires k > 0 ==> s.psum[k-1][1] == 0 && g.psum[k-1][1] == 0
    ensures s.weight[k][1] == 0 == g.weight[k][1] ==> s'.psum[k][1] == 0 && g'.psum[k][1] == 0
    ensures s.weight[k][1] == 1 == g.weight[k][1] && s.valid[k][0] ==> s'.psum[k][1] == s.act[k][0] && g'.psum[k][1] == g.act[k][0]
  {
  }

  /** Nothing comes down the second column from above row `r`. */
  lemma {:induction false} NothingAbove(n: nat, ss: seq<Soft>, gs: seq<Grid>, valids: seq<seq<bool>>, i: nat, r: nat, t: nat, k: nat)
    requires n >= 2 && Spike(n, ss, gs, valids, i, r) && t <= |valids| && k < r < n
    ensures |ss| == |gs| == |valids| + 1 && ss[t].Valid(n) && gs[t].Valid(n)
    ensures ss[t].psum[k][1] == 0 && gs[t].psum[k][1] == 0
  {
    hide SoftCell, CellStep, SpikeActs;
    if t > 0 {
      if k > 0 { NothingAbove(n, ss, gs, valids, i, r, t - 1, k - 1); }
      SpikeCell(n, ss, gs, valids, i, r, t - 1, k, 1);
      hide Spike;
      var acts := SpikeActs(n, |valids|, i, r);
      SecondColumn(n, ss[t-1], gs[t-1], acts[t-1], valids[t-1], ss[t], gs[t], k);
    }
  }

  /** The unit activation is still there, frozen with its validity bit, two ticks on; the ungated cell has moved on. */
  lemma SpikeFrozen(n: nat, ss: seq<Soft>, gs: seq<Grid>, valids: seq<seq<bool>>, i: nat, r: nat)
    requires n >= 2 && Schedule(n, valids) && DropsAt(n, valids, i, r) && Spike(n, ss, gs, valids, i, r)
    ensures ss[i+2].Valid(n) && gs[i+2].Valid(n) && ss[i+2].act[r][0] == 1 && ss[i+2].valid[r][0] && gs[i+2].act[r][0] == 0
  {
    hide SoftCell, CellStep, SpikeWeights;
    SpikeCell(n, ss, gs, valids, i, r, i, r, 0);
    SpikeCell(n, ss, gs, valids, i, r, i + 1, r, 0);
    hide Spike;
    var acts := SpikeActs(n, |valids|, i, r);
    FirstColumn(n, ss[i], gs[i], acts[i], valids[i], ss[i+1], gs[i+1], r);
    FirstColumn(n, ss[i+1], gs[i+1], acts[i+1], valids[i+1], ss[i+2], gs[i+2], r);
  }

  /** When a valid row becomes invalid its frozen activation keeps its validity bit, and the next column
      multiplies it again: for every schedule with a drop there are weights and activations that show it. */
  lemma DroppingIsVisible(n: nat, ss: seq<Soft>, gs: seq<Grid>, valids: seq<seq<bool>>, i: nat, r: nat)
    requires n >= 2 && Schedule(n, valids) && DropsAt(n, valids, i, r) && Spike(n, ss, gs, valids, i, r)
    ensures ss[i+3].psum[r][1] == 1 && gs[i+3].psum[r][1] == 0
  {
    hide SoftCell, CellStep, SpikeActs;
    SpikeFrozen(n, ss, gs, valids, i, r);
    SpikeCell(n, ss, gs, valids, i, r, i + 2, r, 1);
    if r > 0 { NothingAbove(n, ss, gs, valids, i, r, i + 2, r - 1); }
    hide Spike;
    var acts := SpikeActs(n, |valids|, i, r);
    SecondColumn(n, ss[i+2], gs[i+2], acts[i+2], valids[i+2], ss[i+3], gs[i+3], r);
  }

  // --- such runs exist ---

  function NextSoft(n: nat, s: Soft, actIn: Row8, validIn: seq<bool>): (s': Soft)
    requires s.Valid(n) && |actIn| == |validIn| == n
    ensures SoftStep(n, s, actIn, validIn, s')
  {
    Soft(s.weight,
         seq<Row8>(n, r requires 0 <= r < n => seq<Int8>(n, c requires 0 <= c < n =>
           if s.ValidWire(n, validIn, r, c) then s.ActWire(n, actIn, r, c) else s.act[r][c])),
         seq<seq<bool>>(n, r requires 0 <= r < n => seq<bool>(n, c requires 0 <= c < n =>
           if s.ValidWire(n, validIn, r, c) then true else s.valid[r][c])),
         seq<Row32>(n, r requires 0 <= r < n => seq<Int32>(n, c requires 0 <= c < n =>
           Wrap32(s.PsumWire(n, r, c) + if s.ValidWire(n, validIn, r, c) then s.ActWire(n, actIn, r, c) as int * s.weight[r][c] as int else 0))))
  }

  function NextGrid(n: nat, g: Grid, actIn: Row8): (g': Grid)
    requires g.Valid(n) && |actIn| == n
    ensures GridStep(n, g, false, false, g.weight, actIn, g')
  {
    Grid(g.weight,
         seq<Row8>(n, r requires 0 <= r < n => seq<Int8>(n, c requires 0 <= c < n => g.ActWire(n, actIn, r, c))),
         seq<Row32>(n, r requires 0 <= r < n => seq<Int32>(n, c requires 0 <= c < n =>
           Wrap32(g.PsumWire(n, r, c) + g.ActWire(n, actIn, r, c) as int * g.weight[r][c] as int))))
  }

  lemma {:induction false} RunExists(n: nat, w: Mat8, acts: Mat8, valids: seq<seq<bool>>) returns (ss: seq<Soft>, gs: seq<Grid>)
    requires Shape(w, n, n) && Shape(acts, |valids|, n) && Schedule(n, valids)
    ensures Runs(n, ss, gs, acts, valids) && ss[0].weight == w
    decreases |valids|
  {
    if valids == [] {
      var zeros8, zeros32 := seq<Row8>(n, r => Zeros8(n)), seq<Row32>(n, r => Zeros32(n));
      ss := [Soft(w, zeros8, seq<seq<bool>>(n, r => seq<bool>(n, c => false)), zeros32)];
      gs := [Grid(w, zeros8, zeros32)];
    } else {
      hide SoftStep, GridStep, NextSoft, NextGrid;
      var t := |valids| - 1;
      ss, gs := RunExists(n, w, acts[..t], valids[..t]);
      var s', g' := NextSoft(n, ss[t], acts[t], valids[t]), NextGrid(n, gs[t], Masked(acts[t], valids[t]));
      StepsValid(n, ss[t], acts[t], valids[t], s', gs[t], Masked(acts[t], valids[t]), g');
      ss, gs := ss + [s'], gs + [g'];
    }
  }

  lemma StepsValid(n: nat, s: Soft, actIn: Row8, validIn: seq<bool>, s': Soft, g: Grid, masked: Row8, g': Grid)
    requires s.Valid(n) && g.Valid(n) && |actIn| == |validIn| == |masked| == n
    requires SoftStep(n, s, actIn, validIn, s') && GridStep(n, g, false, false, g.weight, masked, g')
    ensures s'.Valid(n) && g'.Valid(n)
  {
  }

  // --- the theorem ---

  ghost predicate SameSums(ss: seq<Soft>, gs: seq<Grid>) { |ss| == |gs| && forall i :: 0 <= i < |ss| ==> ss[i].psum == gs[i].psum }

  /** With these validities, gating never shows: for all weights and activations all partial sums agree at every tick. */
  ghost predicate Invisible(n: nat, valids: seq<seq<bool>>) {
    forall ss, gs, acts :: Runs(n, ss, gs, acts, valids) ==> SameSums(ss, gs)
  }

  /** A single column has no neighbour to multiply a stale activation. */
  lemma SingleColumn(ss: seq<Soft>, gs: seq<Grid>, acts: Mat8, valids: seq<seq<bool>>, i: nat)
    requires Runs(1, ss, gs, acts, valids) && i < |ss|
    ensures ss[i].psum == gs[i].psum
  {
    if i > 0 {
      SingleWeight(ss, gs, acts, valids, i - 1);
      assert SoftCell(1, ss[i-1], acts[i-1], valids[i-1], ss[i], 0, 0);
      assert CellStep(1, gs[i-1], false, false, gs[i-1].weight, Masked(acts[i-1], valids[i-1]), gs[i], 0, 0);
    }
    assert ss[i].psum[0] == gs[i].psum[0];
  }

  lemma {:induction false} SingleWeight(ss: seq<Soft>, gs: seq<Grid>, acts: Mat8, valids: seq<seq<bool>>, i: nat)
    requires Runs(1, ss, gs, acts, valids) && i < |ss|
    ensures ss[i].weight == gs[i].weight
  {
    if i > 0 {
      SingleWeight(ss, gs, acts, valids, i - 1);
      Wavefront.WeightsHeld(1, gs[i-1], gs[i-1].weight, Masked(acts[i-1], valids[i-1]), gs[i]);
    }
  }

  /** Gating is invisible exactly if the array has a single column or no row's validity ever drops with a
      tick left to see it. */
  lemma GatingExactly(n: nat, valids: seq<seq<bool>>)
    requires Schedule(n, valids)
    ensures Invisible(n, valids) <==> n < 2 || forall i: nat, r: nat :: !DropsAt(n, valids, i, r)
  {
    if n >= 2 {
      if i: nat, r: nat :| DropsAt(n, valids, i, r) {
        var ss, gs := RunExists(n, SpikeWeights(n, r), SpikeActs(n, |valids|, i, r), valids);
        DroppingIsVisible(n, ss, gs, valids, i, r);
        assert !SameSums(ss, gs) by { assert ss[i+3].psum != gs[i+3].psum; }
      } else {
        NoDrops(n, valids);
        forall ss: seq<Soft>, gs: seq<Grid>, acts: Mat8 | Runs(n, ss, gs, acts, valids)
          ensures SameSums(ss, gs)
        {
          forall i | 0 <= i < |ss| ensures ss[i].psum == gs[i].psum {
            GatingIsInvisible(n, ss, gs, acts, valids, i);
          }
        }
      }
    } else {
      forall ss: seq<Soft>, gs: seq<Grid>, acts: Mat8 | Runs(n, ss, gs, acts, valids)
        ensures SameSums(ss, gs)
      {
        forall i | 0 <= i < |ss| ensures ss[i].psum == gs[i].psum {
          if n == 1 { SingleColumn(ss, gs, acts, valids, i); }
        }
      }
    }
  }

  lemma NoDrops(n: nat, valids: seq<seq<bool>>)
    requires Schedule(n, valids) && forall i: nat, r: nat :: !DropsAt(n, valids, i, r)
    ensures forall k :: k < |valids| ==> NeverDrops(n, valids, k)
  {
    forall i | 0 <= i && i + 2 < |valids|
      ensures Keeps(n, valids[i], valids[i+1])
    {
      forall r | 0 <= r < n ensures valids[i][r] ==> valids[i+1][r] { assert !DropsAt(n, valids, i, r); }
    }
  }
}
