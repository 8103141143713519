/** rtl/stream_top.sv as a clocked object, and the stream testbench's command loop on it. */
module StreamDevice {
  import opened Arith
  import opened Systolic
  import opened Stream
  import opened StreamInvariant
  import opened StreamRuns

  class StreamTop {
    const p: Params
    const grid: SystolicArray
    var fsm: Fsm
    var li: nat
    var cyc: nat
    var cmd: Command
    var weightBuf: Mat8
    var rowSk: Mat8
    var colSk: Mat32
    var done: bool
    var rdData: Row8
    var aw: Mat8   // operand RAM, loaded from outside
    var mem: Mat32 // result RAM

    ghost predicate Valid()
      reads this, grid.cells
    {
      grid.n == p.n && grid.Valid() && Value().Valid(p) && Shape(aw, p.d, p.n)
    }

    /** Powers up with arbitrary register contents (`power`); only a reset makes them known. */
    constructor (p: Params, power: Top, aw: Mat8)
      requires power.Valid(p) && Shape(aw, p.d, p.n)
      ensures Valid() && this.p == p && this.aw == aw && fresh(grid.cells)
    {
      this.p, this.aw := p, aw;
      grid := new SystolicArray(p.n);
      fsm, li, cyc, cmd, weightBuf := power.fsm, power.li, power.cyc, power.cmd, power.weightBuf;
      rowSk, colSk, done, rdData, mem := power.rowSk, power.colSk, power.done, power.rdData, power.mem;
    }

    function Value(): Top
      requires grid.Valid()
      reads this, grid.cells
    {
      Top(fsm, li, cyc, cmd, weightBuf, rowSk, colSk, done, rdData, grid.Value(), mem)
    }

    /** One clock edge: all wires are read off the old registers, then every register moves. */
    method Tick(rst: bool, start: bool, command: Command)
      requires Valid() && command.mRows < TWO32
      modifies this, grid.cells
      ensures Valid() && aw == old(aw)
      ensures Step(p, old(Value()), In(rst, start, command, aw), Value())
    {
      hide FsmNext, RowSkNext, ColSkNext, WrData, ActIn, WrAddr, RdAddr, CellStep, Shift;
      var s := Value();
      grid.Tick(rst, fsm.LoadPulse?, weightBuf, ActIn(p, s));
      TickRams(s);
      TickSkew(s, rst);
      TickFsm(s, rst, start, command);
    }

    /** Both RAMs, which have no reset. */
    method TickRams(s: Top)
      requires s.Valid(p) && s.mem == mem && Shape(aw, p.d, p.n)
      modifies this`mem, this`rdData
      ensures rdData == if RdEn(s) then aw[RdAddr(p, s)] else old(rdData)
      ensures mem == if WrEn(p, s) then s.mem[WrAddr(p, s) := WrData(p, s)] else s.mem
    {
      if WrEn(p, s) { mem := mem[WrAddr(p, s) := WrData(p, s)]; }
      if RdEn(s) { rdData := aw[RdAddr(p, s)]; }
    }

    /** The row-skew and column de-skew chains, lane by lane. */
    method TickSkew(s: Top, rst: bool)
      requires s.Valid(p) && s.rowSk == rowSk && s.colSk == colSk
      modifies this`rowSk, this`colSk
      ensures rowSk == RowSkNext(p, s, rst) && colSk == ColSkNext(p, s, rst)
    {
      for r := 0 to p.n
        invariant |rowSk| == p.n && |colSk| == p.n
        invariant forall i :: 0 <= i < r ==> rowSk[i] == RowSkNext(p, s, rst)[i]
        invariant forall i :: 0 <= i < r ==> colSk[i] == ColSkNext(p, s, rst)[i]
        invariant forall i :: r <= i < p.n ==> rowSk[i] == s.rowSk[i] && colSk[i] == s.colSk[i]
      {
        hide Shift;
        if rst {
          rowSk, colSk := rowSk[r := Zeros8(r)], colSk[r := Zeros32(p.n - 1 - r)];
        } else if s.fsm.Streaming? {
          rowSk := rowSk[r := Shift(rowSk[r], ActPush(p, s, r))];
          colSk := colSk[r := Shift(colSk[r], s.grid.psum[p.n-1][r])];
        }
      }
    }

    /** The main FSM; `s` holds the registers before the edge. */
    method TickFsm(s: Top, rst: bool, start: bool, command: Command)
      requires s.Valid(p) && command.mRows < TWO32 && Shape(aw, p.d, p.n)
      requires s.fsm == fsm && s.li == li && s.cyc == cyc && s.cmd == cmd && s.weightBuf == weightBuf
      modifies this`fsm, this`li, this`cyc, this`cmd, this`weightBuf, this`done
      ensures var f := FsmNext(p, s, In(rst, start, command, aw));
        fsm == f.fsm && li == f.li && cyc == f.cyc && cmd == f.cmd && weightBuf == f.weightBuf && done == f.done
    {
      done := false;
      if rst {
        fsm, li, cyc := Idle, 0, 0;
        return;
      }
      match fsm
      case Idle =>
        if start { cmd, li, fsm := command, 0, LoadAddr; }
      case LoadAddr =>
        fsm := LoadData;
      case LoadData =>
        if li < p.n { weightBuf := weightBuf[li := s.rdData]; }
        if li == p.n - 1 { fsm := LoadPulse; } else { li, fsm := Mod(li + 1, p.d), LoadAddr; }
      case LoadPulse =>
        fsm := Prefetch;
      case Prefetch =>
        cyc, fsm := 0, Streaming;
      case Streaming =>
        if cyc == U32(TotalCycles(p, s) - 1) { fsm := Done; } else { cyc := U32(cyc + 1); }
      case Done =>
        done, fsm := true, Idle;
    }

    /** Runs one command and counts the edges to its done pulse, giving up after `10 * m + 100`. */
    method RunOne(command: Command, ghost job: Job) returns (cycles: int)
      requires Valid() && job.Valid(p) && job.c == command && Operands(p, aw, job)
      requires fsm.Idle? && Quiet(p, Value())
      modifies this, grid.cells
      ensures Valid() && aw == old(aw)
      ensures cycles == if Latency(p, job) <= 10 * command.mRows + 100 then Latency(p, job) else -1
      ensures cycles >= 0 ==> fsm.Idle? && done && Quiet(p, Value()) && mem == Golden(p, old(mem), job)
    {
      ghost var mem0 := mem;
      ghost var s := Value();
      Tick(false, true, command);
      StartStep(p, s, In(false, true, command, aw), Value(), job);
      cycles := 0;
      var timeout := 10 * command.mRows + 100;
      while !done
        invariant Valid() && aw == old(aw) && 0 <= cycles <= timeout
        invariant Progress(p, Value(), job, mem0, cycles)
        decreases timeout - cycles
      {
        s := Value();
        Tick(false, false, command);
        ProgressStep(p, s, In(false, false, command, aw), Value(), job, mem0, cycles);
        cycles := cycles + 1;
        if cycles > timeout { return -1; }
      }
    }
  }

  /** The job is `cycles` edges past its start edge. */
  ghost predicate Progress(p: Params, s: Top, job: Job, mem0: Mat32, cycles: nat)
    requires job.Valid(p) && s.Valid(p)
  {
    if s.done then
      cycles == Latency(p, job) && s.fsm.Idle? && Quiet(p, s) && Shape(mem0, p.d, p.n) && s.mem == Golden(p, mem0, job)
    else
      cycles < Latency(p, job) && Executing(p, s, job, mem0) && Remaining(p, s) == Latency(p, job) - cycles
  }

  lemma ProgressStep(p: Params, s: Top, x: In, s': Top, job: Job, mem0: Mat32, cycles: nat)
    requires job.Valid(p) && s.Valid(p) && x.Valid(p) && Step(p, s, x, s') && Operands(p, x.aw, job) && !x.rst
    requires Progress(p, s, job, mem0, cycles) && !s.done
    ensures s'.Valid(p) && Progress(p, s', job, mem0, cycles + 1)
  {
    if s.fsm.Done? {
      DoneStep(p, s, x, s', job, mem0);
    } else {
      ExecutingStep(p, s, x, s', job, mem0);
      WritePort(p, s', job, mem0);
    }
  }
}
