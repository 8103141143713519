/** The sequencer (rtl/stream_ctrl.sv) closed over its two RAMs and the grid (rtl/stream_top.sv):
    the clocked state, and what one clock edge does to it. */
module Stream {
  import opened Arith
  import opened Systolic

  /** `n` is the grid size N, `d` the RAM depth 2^ADDR_W. */
  datatype Params = Params(n: nat, d: nat) {
    predicate Valid() { 1 <= n <= d && 2 * n <= TWO32 }
  }

  datatype Fsm = Idle | LoadAddr | LoadData | LoadPulse | Prefetch | Streaming | Done

  datatype Command = Command(wBase: nat, aBase: nat, cBase: nat, mRows: nat)

  /** Every register of the closed system. `rowSk[r]` is lane r's skew chain, `colSk[c]` column c's
      de-skew chain, `rdData` the operand RAM's output register, `mem` the result RAM. */
  datatype Top = Top(fsm: Fsm, li: nat, cyc: nat, cmd: Command, weightBuf: Mat8, rowSk: Mat8, colSk: Mat32,
                     done: bool, rdData: Row8, grid: Grid, mem: Mat32)
  {
    predicate Valid(p: Params) {
      p.Valid() && li < p.d && cyc < TWO32 && cmd.mRows < TWO32 &&
      Shape(weightBuf, p.n, p.n) && |rdData| == p.n && grid.Valid(p.n) && Shape(mem, p.d, p.n) &&
      |rowSk| == p.n && (forall r :: 0 <= r < p.n ==> |rowSk[r]| == r) &&
      |colSk| == p.n && (forall c :: 0 <= c < p.n ==> |colSk[c]| == p.n - 1 - c)
    }
  }

  /** The inputs of one clock edge, with the operand RAM's contents at that edge (the design never
      writes that RAM; the host may, at any time). */
  datatype In = In(rst: bool, start: bool, cmd: Command, aw: Mat8) {
    predicate Valid(p: Params) { Shape(aw, p.d, p.n) && cmd.mRows < TWO32 }
  }

  /** Address arithmetic is modulo the RAM depth. */
  function Addr(p: Params, base: nat, offset: nat): (a: nat)
    requires p.Valid()
    ensures a < p.d
  {
    Mod(base + offset, p.d)
  }

  lemma AddrIsRemainder(p: Params, base: nat, offset: nat)
    requires p.Valid()
    ensures Addr(p, base, offset) == (base + offset) % p.d
  {
    ModIsRemainder(base + offset, p.d);
  }

  function Skewness(p: Params): nat requires p.Valid() { 2 * p.n - 1 }

  function TotalCycles(p: Params, s: Top): nat requires p.Valid() { U32(s.cmd.mRows + Skewness(p)) }

  // --- read/write address and strobe muxing ---

  function RdAddr(p: Params, s: Top): (a: nat)
    requires s.Valid(p)
    ensures a < p.d
  {
    match s.fsm
    case LoadAddr => Addr(p, s.cmd.wBase, s.li)
    case Prefetch => Addr(p, s.cmd.aBase, 0)
    case Streaming => Addr(p, s.cmd.aBase, U32(s.cyc + 1))
    case _ => 0
  }

  predicate RdEn(s: Top) {
    s.fsm.LoadAddr? || s.fsm.Prefetch? || (s.fsm.Streaming? && U32(s.cyc + 1) < s.cmd.mRows)
  }

  predicate WrEn(p: Params, s: Top) requires p.Valid() {
    s.fsm.Streaming? && s.cyc >= Skewness(p) && s.cyc - Skewness(p) < s.cmd.mRows
  }

  function WrAddr(p: Params, s: Top): (a: nat)
    requires s.Valid(p)
    ensures a < p.d
  {
    if WrEn(p, s) then Addr(p, s.cmd.cBase, s.cyc - Skewness(p)) else 0
  }

  // --- row skew and column de-skew ---

  function ActPush(p: Params, s: Top, r: nat): Int8
    requires s.Valid(p) && r < p.n
  {
    if s.fsm.Streaming? && s.cyc < s.cmd.mRows then s.rdData[r] else 0
  }

  function ActSkewed(p: Params, s: Top, r: nat): Int8
    requires s.Valid(p) && r < p.n
  {
    if r == 0 then ActPush(p, s, 0) else s.rowSk[r][r-1]
  }

  function ActIn(p: Params, s: Top): (row: Row8)
    requires s.Valid(p)
    ensures |row| == p.n
  {
    seq<Int8>(p.n, r requires 0 <= r < p.n => ActSkewed(p, s, r))
  }

  function PsumAligned(p: Params, s: Top, c: nat): Int32
    requires s.Valid(p) && c < p.n
  {
    if c == p.n - 1 then s.grid.psum[p.n-1][c] else s.colSk[c][p.n-2-c]
  }

  function WrData(p: Params, s: Top): (row: Row32)
    requires s.Valid(p)
    ensures |row| == p.n
  {
    seq<Int32>(p.n, c requires 0 <= c < p.n => PsumAligned(p, s, c))
  }

  /** A shift register takes `x` in at its head. */
  function Shift<T>(chain: seq<T>, x: T): (r: seq<T>)
    ensures |r| == |chain|
    ensures forall i :: 0 <= i < |chain| ==> r[i] == if i == 0 then x else chain[i-1]
  {
    if chain == [] then [] else [x] + chain[..|chain|-1]
  }

  function RowSkNext(p: Params, s: Top, rst: bool): (sk: Mat8)
    requires s.Valid(p)
    ensures |sk| == p.n && forall r :: 0 <= r < p.n ==> |sk[r]| == r
  {
    seq<Row8>(p.n, r requires 0 <= r < p.n =>
      if rst then Zeros8(r) else if s.fsm.Streaming? then Shift(s.rowSk[r], ActPush(p, s, r)) else s.rowSk[r])
  }

  function ColChainNext(p: Params, s: Top, rst: bool, c: nat): (chain: Row32)
    requires s.Valid(p) && c < p.n
    ensures |chain| == p.n - 1 - c
  {
    if rst then Zeros32(p.n - 1 - c)
    else if s.fsm.Streaming? then Shift(s.colSk[c], s.grid.psum[p.n-1][c]) else s.colSk[c]
  }

  function ColSkNext(p: Params, s: Top, rst: bool): (sk: Mat32)
    requires s.Valid(p)
    ensures |sk| == p.n && forall c :: 0 <= c < p.n ==> |sk[c]| == p.n - 1 - c
  {
    seq<Row32>(p.n, c requires 0 <= c < p.n => ColChainNext(p, s, rst, c))
  }

  // --- main FSM ---

  /** The FSM's registers after the edge; everything outside the FSM is left as it was. */
  function FsmNext(p: Params, s: Top, x: In): (s': Top)
    requires s.Valid(p) && x.Valid(p)
    ensures s'.Valid(p)
  {
    if x.rst then s.(fsm := Idle, li := 0, cyc := 0, done := false)
    else
      var s := s.(done := false);
      match s.fsm
      case Idle => if x.start then s.(cmd := x.cmd, li := 0, fsm := LoadAddr) else s
      case LoadAddr => s.(fsm := LoadData)
      case LoadData =>
        var s := if s.li < p.n then s.(weightBuf := s.weightBuf[s.li := s.rdData]) else s;
        if s.li == p.n - 1 then s.(fsm := LoadPulse) else s.(li := Mod(s.li + 1, p.d), fsm := LoadAddr)
      case LoadPulse => s.(fsm := Prefetch)
      case Prefetch => s.(cyc := 0, fsm := Streaming)
      case Streaming =>
        if s.cyc == U32(TotalCycles(p, s) - 1) then s.(fsm := Done) else s.(cyc := U32(s.cyc + 1))
      case Done => s.(done := true, fsm := Idle)
  }

  /** One clock edge of the whole system. The RAMs have no reset. */
  ghost predicate Step(p: Params, s: Top, x: In, s': Top)
    requires s.Valid(p) && x.Valid(p)
  {
    GridStep(p.n, s.grid, x.rst, s.fsm.LoadPulse?, s.weightBuf, ActIn(p, s), s'.grid) &&
    s' == FsmNext(p, s, x).(
      rowSk := RowSkNext(p, s, x.rst),
      colSk := ColSkNext(p, s, x.rst),
      rdData := if RdEn(s) then x.aw[RdAddr(p, s)] else s.rdData,
      mem := if WrEn(p, s) then s.mem[WrAddr(p, s) := WrData(p, s)] else s.mem,
      grid := s'.grid)
  }
}
