/** The processing element (rtl/pe.sv) and the N x N grid of them (rtl/systolic_array.sv). */
module Systolic {
  import opened Arith

  /** A registered multiply-accumulate cell that holds one weight. */
  class Pe {
    var weight: Int8
    var actOut: Int8
    var psumOut: Int32

    constructor ()
    {
      weight, actOut, psumOut := *, *, *;
    }

    /** One clock edge. The product uses the weight held before the edge. */
    method Tick(rst: bool, weightLoad: bool, weightIn: Int8, actIn: Int8, psumIn: Int32)
      modifies this
      ensures Clocked(this, old(weight), rst, weightLoad, weightIn, actIn, psumIn)
      ensures rst ==> weight == 0 && actOut == 0 && psumOut == 0
      ensures !rst ==> weight == (if weightLoad then weightIn else old(weight)) && actOut == actIn && psumOut == Wrap32(psumIn + actIn * old(weight))
    {
      if rst {
        actOut, psumOut := 0, 0;
      } else {
        actOut, psumOut := actIn, Wrap32(psumIn + actIn * weight);
      }
      if rst {
        weight := 0;
      } else if weightLoad {
        weight := weightIn;
      }
    }
  }

  /** The registers of the whole grid. */
  datatype Grid = Grid(weight: Mat8, act: Mat8, psum: Mat32) {
    predicate Valid(n: nat) {
      Shape(weight, n, n) && Shape(act, n, n) && Shape(psum, n, n)
    }

    predicate Drained(n: nat) requires Valid(n) {
      forall r, c :: 0 <= r < n && 0 <= c < n ==> act[r][c] == 0 && psum[r][c] == 0
    }

    /** The wire into PE (r,c) from its left neighbour. */
    function ActWire(n: nat, actIn: Row8, r: nat, c: nat): Int8
      requires Valid(n) && |actIn| == n && r < n && c < n
    {
      if c == 0 then actIn[r] else act[r][c-1]
    }

    /** The wire into PE (r,c) from the PE above. */
    function PsumWire(n: nat, r: nat, c: nat): Int32
      requires Valid(n) && r < n && c < n
    {
      if r == 0 then 0 else psum[r-1][c]
    }
  }

  /** What one clock edge puts in the registers of PE (r,c), all inputs being old values. */
  ghost predicate CellStep(n: nat, g: Grid, rst: bool, load: bool, weightIn: Mat8, actIn: Row8, g': Grid, r: nat, c: nat)
    requires g.Valid(n) && g'.Valid(n) && Shape(weightIn, n, n) && |actIn| == n && r < n && c < n
  {
    if rst then g'.weight[r][c] == 0 && g'.act[r][c] == 0 && g'.psum[r][c] == 0
    else g'.weight[r][c] == (if load then weightIn[r][c] else g.weight[r][c]) &&
         g'.act[r][c] == g.ActWire(n, actIn, r, c) &&
         g'.psum[r][c] == Wrap32(g.PsumWire(n, r, c) + g.ActWire(n, actIn, r, c) * g.weight[r][c])
  }

  /** One clock edge of the grid: every register moves at once. */
  ghost predicate GridStep(n: nat, g: Grid, rst: bool, load: bool, weightIn: Mat8, actIn: Row8, g': Grid)
    requires g.Valid(n) && Shape(weightIn, n, n) && |actIn| == n
  {
    g'.Valid(n) &&
    forall r, c :: 0 <= r < n && 0 <= c < n ==> CellStep(n, g, rst, load, weightIn, actIn, g', r, c)
  }

  class SystolicArray {
    const n: nat
    const pes: seq<seq<Pe>>
    ghost const cells: set<Pe>

    ghost predicate Valid() {
      Shape(pes, n, n) &&
      (forall r, c :: 0 <= r < n && 0 <= c < n ==> pes[r][c] in cells) &&
      forall r, c, r', c' :: 0 <= r < n && 0 <= c < n && 0 <= r' < n && 0 <= c' < n && (r, c) != (r', c') ==>
        pes[r][c] != pes[r'][c']
    }

    /** The register contents, read off the PEs. */
    function Value(): (g: Grid)
      requires Valid()
      reads cells
      ensures g.Valid(n)
    {
      Grid(seq(n, r requires 0 <= r < n reads cells => seq(n, c requires 0 <= c < n reads cells => pes[r][c].weight)),
           seq(n, r requires 0 <= r < n reads cells => seq(n, c requires 0 <= c < n reads cells => pes[r][c].actOut)),
           seq(n, r requires 0 <= r < n reads cells => seq(n, c requires 0 <= c < n reads cells => pes[r][c].psumOut)))
    }

    /** Registers hold arbitrary values until the first reset. */
    constructor (n: nat)
      ensures this.n == n && Valid() && fresh(cells)
    {
      var rows: seq<seq<Pe>> := [];
      ghost var all: set<Pe> := {};
      for r := 0 to n
        invariant Shape(rows, r, n) && fresh(all)
        invariant forall i, j :: 0 <= i < r && 0 <= j < n ==> rows[i][j] in all
        invariant forall i, j, i', j' :: 0 <= i < r && 0 <= j < n && 0 <= i' < r && 0 <= j' < n && (i, j) != (i', j') ==>
          rows[i][j] != rows[i'][j']
      {
        var row: seq<Pe> := [];
        ghost var before := all;
        for c := 0 to n
          invariant |row| == c && fresh(all) && before <= all
          invariant forall j :: 0 <= j < c ==> row[j] in all && row[j] !in before
          invariant forall j, j' :: 0 <= j < j' < c ==> row[j] != row[j']
        {
          var pe := new Pe();
          row, all := row + [pe], all + {pe};
        }
        rows := rows + [row];
      }
      this.n, pes, cells := n, rows, all;
    }

    /** Clocks every PE with the given wires. */
    method TickPes(rst: bool, load: bool, weightIn: Mat8, actWire: Mat8, psumWire: Mat32)
      requires Valid() && Shape(weightIn, n, n) && Shape(actWire, n, n) && Shape(psumWire, n, n)
      modifies cells
      ensures forall i, j :: 0 <= i < n && 0 <= j < n ==>
        Clocked(pes[i][j], old(pes[i][j].weight), rst, load, weightIn[i][j], actWire[i][j], psumWire[i][j])
    {
      for r := 0 to n
        invariant forall i, j :: r <= i < n && 0 <= j < n ==> pes[i][j].weight == old(pes[i][j].weight)
        invariant forall i, j :: 0 <= i < r && 0 <= j < n ==>
          Clocked(pes[i][j], old(pes[i][j].weight), rst, load, weightIn[i][j], actWire[i][j], psumWire[i][j])
      {
        assert forall i, j :: 0 <= i < n && i != r && 0 <= j < n ==> pes[i][j] !in pes[r];
        TickRow(pes[r], rst, load, weightIn[r], actWire[r], psumWire[r]);
      }
    }

    /** Samples the activation and partial-sum wires into every PE. */
    method Wires(actIn: Row8) returns (actWire: Mat8, psumWire: Mat32)
      requires Valid() && |actIn| == n
      ensures Shape(actWire, n, n) && Shape(psumWire, n, n)
      ensures forall r, c :: 0 <= r < n && 0 <= c < n ==> actWire[r][c] == Value().ActWire(n, actIn, r, c)
      ensures forall r, c :: 0 <= r < n && 0 <= c < n ==> psumWire[r][c] == Value().PsumWire(n, r, c)
    {
      actWire := seq(n, r requires 0 <= r < n reads cells =>
        seq(n, c requires 0 <= c < n reads cells => if c == 0 then actIn[r] else pes[r][c-1].actOut));
      psumWire := seq(n, r requires 0 <= r < n reads cells =>
        seq(n, c requires 0 <= c < n reads cells => if r == 0 then 0 else pes[r-1][c].psumOut));
    }

    /** One clock edge: the wires are sampled first, then every PE is clocked. */
    method Tick(rst: bool, load: bool, weightIn: Mat8, actIn: Row8)
      requires Valid() && Shape(weightIn, n, n) && |actIn| == n
      modifies cells
      ensures GridStep(n, old(Value()), rst, load, weightIn, actIn, Value())
    {
      ghost var g := Value();
      var actWire, psumWire := Wires(actIn);
      TickPes(rst, load, weightIn, actWire, psumWire);
      ghost var g' := Value();
      forall r, c | 0 <= r < n && 0 <= c < n
        ensures CellStep(n, g, rst, load, weightIn, actIn, g', r, c)
      {
        assert Clocked(pes[r][c], g.weight[r][c], rst, load, weightIn[r][c], actWire[r][c], psumWire[r][c]);
      }
    }
  }

  method TickRow(row: seq<Pe>, rst: bool, load: bool, weightIn: Row8, act: Row8, psum: Row32)
    requires |weightIn| == |act| == |psum| == |row|
    requires forall i, j :: 0 <= i < j < |row| ==> row[i] != row[j]
    modifies row
    ensures forall j :: 0 <= j < |row| ==> Clocked(row[j], old(row[j].weight), rst, load, weightIn[j], act[j], psum[j])
  {
    for c := 0 to |row|
      invariant forall j :: c <= j < |row| ==> row[j].weight == old(row[j].weight)
      invariant forall j :: 0 <= j < c ==> Clocked(row[j], old(row[j].weight), rst, load, weightIn[j], act[j], psum[j])
    {
      row[c].Tick(rst, load, weightIn[c], act[c], psum[c]);
    }
  }

  /** What a clock edge leaves in a PE that held weight `w`. */
  ghost predicate Clocked(pe: Pe, w: Int8, rst: bool, load: bool, weightIn: Int8, a: Int8, p: Int32)
    reads pe
  {
    if rst then pe.weight == 0 && pe.actOut == 0 && pe.psumOut == 0
    else pe.weight == (if load then weightIn else w) && pe.actOut == a && pe.psumOut == Wrap32(p + a * w)
  }
}
