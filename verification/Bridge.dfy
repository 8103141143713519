/** From the datapath to the driver's device: seen as flat memories of four-lane rows, what a retirement does in
    `Coproc` is what the clocked datapath does in `StreamRuns`. */
module Bridge {
  import opened Arith
  import opened Tiling
  import opened Stream
  import opened StreamInvariant
  import opened StreamRuns
  import opened CmdQueue
  import opened MmioRuns
  import opened Coproc

  /** The command in the driver's units: operand bytes, and int32 cells of results. */
  function InCells(c: Command): QCmd { QCmd(4 * c.wBase, 4 * c.aBase, 4 * c.cBase, c.mRows) }

  /** Nothing the command refers to runs past the end of its RAM. */
  predicate NoWrap(p: Params, c: Command) {
    c.wBase + p.n <= p.d && c.aBase + c.mRows <= p.d && c.cBase + c.mRows <= p.d
  }

  lemma AddrIsSum(p: Params, base: nat, i: nat)
    requires p.Valid() && base + i < p.d
    ensures Addr(p, base, i) == base + i
  {
  }

  lemma {:induction false} FlatEntry<T>(rows: seq<seq<T>>, i: nat, j: nat)
    requires Shape(rows, |rows|, TILE) && i < |rows| && j < 4
    ensures Flat(rows)[4 * i + j] == rows[i][j]
  {
    FlatRow(rows, i);
    assert Flat(rows)[4 * i..4 * i + TILE][j] == Flat(rows)[4 * i + j];
  }

  /** Replacing a row is storing it. */
  lemma FlatUpdate<T>(rows: seq<seq<T>>, i: nat, row: seq<T>)
    requires Shape(rows, |rows|, TILE) && i < |rows| && |row| == 4
    ensures Flat(rows[i := row]) == Store(Flat(rows), 4 * i, row)
  {
    var a, b := Flat(rows[i := row]), Store(Flat(rows), 4 * i, row);
    forall k | 0 <= k < |a|
      ensures a[k] == b[k]
    {
      var r, j := k / 4, k % 4;
      FlatEntry(rows, r, j);
      FlatEntry(rows[i := row], r, j);
    }
  }

  lemma FlatRowAt<T>(rows: seq<seq<T>>, at: nat, n: nat, i: nat)
    requires Shape(rows, |rows|, TILE) && at + n <= |rows| && i < n
    ensures RowsAt(Flat(rows), 4 * at, n)[i] == rows[at + i]
  {
    hide Flat, RowsAt;
    FlatRow(rows, at + i);
    RowsAtRow(Flat(rows), 4 * at, n, i, 4 * (at + i));
  }

  lemma RowsAtRow<T>(mem: seq<T>, at: nat, n: nat, i: nat, lo: nat)
    requires at + 4 * n <= |mem| && i < n && lo == at + 4 * i
    ensures RowsAt(mem, at, n)[i] == mem[lo..lo + TILE]
  {
  }

  /** Rows of the flat memory are rows of the RAM. */
  lemma FlatRows<T>(rows: seq<seq<T>>, at: nat, n: nat)
    requires Shape(rows, |rows|, TILE) && at + n <= |rows|
    ensures RowsAt(Flat(rows), 4 * at, n) == rows[at..at + n]
  {
    hide Flat, RowsAt;
    forall i | 0 <= i < n
      ensures RowsAt(Flat(rows), 4 * at, n)[i] == rows[at..at + n][i]
    {
      FlatRowAt(rows, at, n, i);
    }
  }

  /** The operands the driver stored are the operands the datapath reads. */
  lemma SameOperands(p: Params, aw: Mat8, c: Command)
    requires p.Valid() && p.n == 4 && Shape(aw, p.d, 4) && NoWrap(p, c)
    ensures JobAt(p, aw, c).w == RowsAt(Flat(aw), 4 * c.wBase, 4)
    ensures JobAt(p, aw, c).a == RowsAt(Flat(aw), 4 * c.aBase, c.mRows)
  {
    FlatRows(aw, c.wBase, 4);
    FlatRows(aw, c.aBase, c.mRows);
    forall i | 0 <= i < 4 ensures Addr(p, c.wBase, i) == c.wBase + i { AddrIsSum(p, c.wBase, i); }
    forall k | 0 <= k < c.mRows ensures Addr(p, c.aBase, k) == c.aBase + k { AddrIsSum(p, c.aBase, k); }
    assert JobAt(p, aw, c).w == aw[c.wBase..c.wBase + 4];
    assert JobAt(p, aw, c).a == aw[c.aBase..c.aBase + c.mRows];
  }

  /** One more row of the result. */
  lemma RowWritten(p: Params, mem: Mat32, aw: Mat8, c: Command, k: nat)
    requires p.Valid() && p.n == 4 && Shape(aw, p.d, 4) && Shape(mem, p.d, 4) && NoWrap(p, c) && k < c.mRows
    ensures var job, q := JobAt(p, aw, c), InCells(c);
      Store(Flat(mem), q.c + 4 * k, RowTimes(Flat(aw)[q.a + 4 * k..q.a + 4 * (k + 1)], RowsAt(Flat(aw), q.w, TILE), TILE)) ==
      Flat(mem[Addr(p, c.cBase, k) := RowTimes(job.a[k], job.w, 4)])
  {
    SameOperands(p, aw, c);
    AddrIsSum(p, c.cBase, k);
    hide Flat, Store, JobAt, RowTimes, Addr;
    var job, q := JobAt(p, aw, c), InCells(c);
    assert RowsAt(Flat(aw), q.a, q.m)[k] == Flat(aw)[q.a + 4 * k..q.a + 4 * (k + 1)];
    FlatUpdate(mem, c.cBase + k, RowTimes(job.a[k], job.w, 4));
  }

  lemma {:induction false} RowsWritten(p: Params, mem: Mat32, aw: Mat8, c: Command, k: nat)
    requires p.Valid() && p.n == 4 && Shape(aw, p.d, 4) && Shape(mem, p.d, 4) && NoWrap(p, c) && k <= c.mRows
    ensures var job := JobAt(p, aw, c);
      WriteRows(Flat(aw), Flat(mem), InCells(c), k) == Flat(WriteResults(p, mem, c.cBase, job.a, job.w, k))
  {
    hide Flat, Store, RowTimes, Addr;
    if k > 0 {
      var job := JobAt(p, aw, c);
      RowsWritten(p, mem, aw, c, k - 1);
      RowWritten(p, WriteResults(p, mem, c.cBase, job.a, job.w, k - 1), aw, c, k - 1);
    }
  }

  /** Retiring a command in the driver's device is the datapath's golden effect. */
  lemma RetirementIsDatapath(p: Params, mem: Mat32, aw: Mat8, c: Command)
    requires p.Valid() && p.n == 4 && Shape(aw, p.d, 4) && Shape(mem, p.d, 4) && NoWrap(p, c) && Fits(p, c)
    ensures JobAt(p, aw, c).Valid(p) && CmdFits(InCells(c), |Flat(aw)|, |Flat(mem)|)
    ensures WriteRows(Flat(aw), Flat(mem), InCells(c), c.mRows) == Flat(Golden(p, mem, JobAt(p, aw, c)))
  {
    RowsWritten(p, mem, aw, c, c.mRows);
  }

  // --- any number of retirements ---

  predicate Commandable(p: Params, cs: seq<Command>) { forall i :: 0 <= i < |cs| ==> NoWrap(p, cs[i]) && Fits(p, cs[i]) }

  function JobsAt(p: Params, aw: Mat8, cs: seq<Command>): (jobs: seq<Job>)
    requires p.Valid() && p.n == 4 && Shape(aw, p.d, 4) && Commandable(p, cs)
    ensures |jobs| == |cs| && forall i :: 0 <= i < |jobs| ==> jobs[i].Valid(p)
  {
    seq(|cs|, i requires 0 <= i < |cs| => JobAt(p, aw, cs[i]))
  }

  /** The device's two memories are the datapath's RAMs, and its queue holds these commands. */
  ghost predicate Same(p: Params, s: State, mem: Mat32, aw: Mat8, cs: seq<Command>)
    requires Shape(aw, p.d, 4) && Shape(mem, p.d, 4)
  {
    s.Valid() && s.rd == Flat(aw) && s.wr == Flat(mem) && |s.queue| == |cs| && forall i :: 0 <= i < |cs| ==> s.queue[i] == InCells(cs[i])
  }

  lemma OneRetirement(p: Params, s: State, mem: Mat32, aw: Mat8, c: Command)
    requires p.Valid() && p.n == 4 && Shape(aw, p.d, 4) && Shape(mem, p.d, 4) && NoWrap(p, c) && Fits(p, c)
    requires s.Valid() && s.queue != [] && s.queue[0] == InCells(c) && s.rd == Flat(aw) && s.wr == Flat(mem)
    ensures JobAt(p, aw, c).Valid(p) && Retire(s).wr == Flat(Golden(p, mem, JobAt(p, aw, c)))
  {
    RetirementIsDatapath(p, mem, aw, c);
  }

  lemma GoldenAllStep(p: Params, mem: Mat32, jobs: seq<Job>, k: nat)
    requires p.Valid() && Shape(mem, p.d, p.n) && JobsValid(p, jobs) && 0 < k <= |jobs|
    ensures GoldenAll(p, mem, jobs[..k]) == Golden(p, GoldenAll(p, mem, jobs[..k-1]), jobs[k-1])
  {
    assert jobs[..k][..k-1] == jobs[..k-1];
  }

  /** However many commands the device retires, its result memory is the fold of the datapath's golden writes. */
  lemma {:induction false} EvolutionIsDatapath(p: Params, s: State, mem: Mat32, aw: Mat8, cs: seq<Command>, k: nat)
    requires p.Valid() && p.n == 4 && Shape(aw, p.d, 4) && Shape(mem, p.d, 4) && Commandable(p, cs) && Same(p, s, mem, aw, cs) && k <= |cs|
    ensures Evolve(s, k).wr == Flat(GoldenAll(p, mem, JobsAt(p, aw, cs)[..k]))
  {
    var jobs := JobsAt(p, aw, cs);
    if k == 0 {
      assert jobs[..0] == [];
    } else {
      hide Flat, WriteRows, Golden, GoldenAll, JobAt, Retire, NoWrap, StreamInvariant.Fits;
      EvolutionIsDatapath(p, s, mem, aw, cs, k - 1);
      EvolveTotals(s, k - 1);
      GoldenAllStep(p, mem, jobs, k);
      var s1 := Evolve(s, k - 1);
      assert s1.queue[0] == InCells(cs[k-1]) && Evolve(s, k) == Retire(s1);
      hide Evolve;
      OneRetirement(p, s1, GoldenAll(p, mem, jobs[..k-1]), aw, cs[k-1]);
    }
  }

  // --- the register block, edge by edge, is the driver's device ---

  /** The device's control state, in the driver's units, is the register block's. */
  predicate Related(d: State, c: Control) {
    |d.queue| == |c.queue| && (forall i :: 0 <= i < |c.queue| ==> d.queue[i] == InCells(c.queue[i])) &&
    d.regs == InCells(c.regs) && d.irqEn == c.irqEn && d.pending == c.pending && d.doneCount == c.doneCount
  }

  /** What a store on the bus is to the device: a register write, a command that is queued if there is `room` and
      dropped otherwise, or a write of the interrupt register. */
  function Stored(d: State, b: Bus, depth: nat, room: bool): State
    requires depth > 0
  {
    if Writes(b, 0x00) then d.(regs := d.regs.(w := 4 * Mod(b.wdata, depth)))
    else if Writes(b, 0x08) then d.(regs := d.regs.(a := 4 * Mod(b.wdata, depth)))
    else if Writes(b, 0x10) then d.(regs := d.regs.(c := 4 * Mod(b.wdata, depth)))
    else if Writes(b, 0x18) then d.(regs := d.regs.(m := U32(b.wdata)))
    else if Writes(b, 0x20) && Bit0(b.wdata) then
      if room then d.(queue := d.queue + [d.regs], accepted := d.accepted + 1) else d.(dropped := d.dropped + 1)
    else if Writes(b, 0x30) then
      d.(irqEn := Bit0(b.wdata), pending := d.pending && !Bit1(b.wdata), cleared := d.cleared + if d.pending && Bit1(b.wdata) then 1 else 0)
    else d
  }

  /** The driver's register writes, each a word or double-word store to an absolute address, are the operations of its
      device: `WriteReg`, `WriteCmd` and `WriteIrq`. Nothing else on the bus changes it. */
  lemma StoredDecode(d: State, b: Bus, depth: nat, room: bool)
    requires depth > 0
    ensures var d1 := Stored(d, b, depth, room);
      var w := b.wen && (b.funct3 == 2 || b.funct3 == 3);
      if w && b.addr == 0x1000_0000 then d1 == d.(regs := d.regs.(w := 4 * (b.wdata % depth)))
      else if w && b.addr == 0x1000_0008 then d1 == d.(regs := d.regs.(a := 4 * (b.wdata % depth)))
      else if w && b.addr == 0x1000_0010 then d1 == d.(regs := d.regs.(c := 4 * (b.wdata % depth)))
      else if w && b.addr == 0x1000_0018 then d1 == d.(regs := d.regs.(m := b.wdata % 0x1_0000_0000))
      else if w && b.addr == 0x1000_0020 && b.wdata % 2 == 1 then
        d1 == if room then d.(queue := d.queue + [d.regs], accepted := d.accepted + 1) else d.(dropped := d.dropped + 1)
      else if w && b.addr == 0x1000_0030 then
        var clear := b.wdata / 2 % 2 == 1;
        d1 == d.(irqEn := b.wdata % 2 == 1, pending := d.pending && !clear, cleared := d.cleared + if d.pending && clear then 1 else 0)
      else d1 == d
  {
    ModIsRemainder(b.wdata, depth);
    hide Mod;
  }

  lemma StoredRelates(d: State, c: Control, b: Bus, depth: nat)
    requires Related(d, c) && depth > 0
    ensures Related(Stored(d, b, depth, |c.queue| - (if c.running then 1 else 0) < 4), c.Stored(b, depth))
  {
    assert Writes(b, 0x20) ==> !Writes(b, 0x30);
    hide Mod, U32, Writes;
  }

  lemma RetireRelates(d: State, c: Control)
    requires Related(d, c) && d.Valid() && c.queue != []
    ensures Related(Retire(d), c.Retired())
  {
    hide WriteRows;
  }

  /** The operands of the commands from `from` on are still in the operand RAM as they were when accepted. */
  predicate Intact(p: Params, aw: Mat8, jobs: seq<Job>, from: nat)
    requires p.Valid() && Shape(aw, p.d, p.n)
  {
    forall j :: from <= j < |jobs| ==> NoWrap(p, jobs[j].c) && jobs[j] == JobAt(p, aw, jobs[j].c)
  }

  /** The device's memories are the datapath's RAMs, its result memory as the counted commands have left it. */
  ghost predicate SameMemory(p: Params, h: History, aw: Mat8, d: State)
    requires p.Valid() && p.n == 4 && Shape(aw, p.d, 4)
  {
    JobsValid(p, h.jobs) && Shape(h.mem0, p.d, 4) && h.retired <= |h.jobs| && Intact(p, aw, h.jobs, h.retired) &&
    d.rd == Flat(aw) && d.wr == Flat(After(p, h, h.retired)) && d.accepted == |h.jobs| && d.retired == h.retired
  }

  /** `d` is what the driver sees of the wired system. */
  ghost predicate Represents(p: Params, s: Sys, h: History, aw: Mat8, d: State) {
    p.Valid() && p.n == 4 && Shape(aw, p.d, 4) && SysInv(p, s, h) && h.retired <= |h.jobs| && d.Valid() &&
    SameMemory(p, h, aw, d) && Related(d, ControlOf(s, h))
  }

  lemma StoredFits(p: Params, d: State, b: Bus, c: Command, room: bool)
    requires p.Valid() && p.n == 4 && d.Valid() && |d.rd| == |d.wr| == 4 * p.d && d.regs == InCells(c)
    requires Writes(b, 0x20) && Bit0(b.wdata) && room ==> NoWrap(p, c)
    ensures Stored(d, b, p.d, room).Valid()
  {
    hide Mod, U32, Writes;
  }

  /** The memory side of a retirement. */
  lemma RetiredMemory(p: Params, h: History, h': History, aw: Mat8, d: State)
    requires p.Valid() && p.n == 4 && Shape(aw, p.d, 4) && SameMemory(p, h, aw, d) && d.Valid()
    requires h.retired < |h.jobs| && d.queue != [] && d.queue[0] == InCells(h.jobs[h.retired].c)
    requires h' == h.(retired := h.retired + 1)
    ensures SameMemory(p, h', aw, Retire(d))
  {
    var job := h.jobs[h.retired];
    assert NoWrap(p, job.c) && job == JobAt(p, aw, job.c);
    OneRetirement(p, d, After(p, h, h.retired), aw, job.c);
    AfterOneMore(p, h, h.retired);
    hide Flat, WriteRows, GoldenAll, Golden, JobAt;
    assert After(p, h', h.retired + 1) == After(p, h, h.retired + 1);
  }

  /** Accepting a command changes no memory. */
  lemma AcceptedMemory(p: Params, h: History, h': History, aw: Mat8, d: State, d': State, more: seq<Job>)
    requires p.Valid() && p.n == 4 && Shape(aw, p.d, 4) && SameMemory(p, h, aw, d)
    requires JobsValid(p, more) && Intact(p, aw, more, 0) && h' == h.(jobs := h.jobs + more)
    requires d'.rd == d.rd && d'.wr == d.wr && d'.retired == d.retired && d'.accepted == d.accepted + |more|
    ensures SameMemory(p, h', aw, d')
  {
    hide Flat, JobAt, GoldenAll;
    AfterPrefix(p, h, h', h.retired);
  }

  /** Every clock edge of the wired system is, to the driver, its store of that cycle followed by `Retire` if a
      command is done: the device of `Coproc` with both its memories. A store of CMD finds room whenever fewer than
      four commands are outstanding. */
  lemma EdgeRefinesDevice(p: Params, s: Sys, x: SysIn, s': Sys, h: History, d: State)
    requires Represents(p, s, h, x.aw, d) && x.Valid(p) && !x.rst && Behaved(p, s, x, h) && SysStep(p, s, x, s')
    requires s.q.Enqueues(x.bus) ==> NoWrap(p, s.q.hold)
    ensures |d.queue| < 4 ==> s.q.cnt < 4
    ensures var d1 := Stored(d, x.bus, p.d, s.q.cnt < 4);
      d1.Valid() && (s.t.done ==> d1.queue != []) &&
      Represents(p, s', NextHistory(p, h, s, x, s'), x.aw, if s.t.done then Retire(d1) else d1)
  {
    var h', room := NextHistory(p, h, s, x, s'), s.q.cnt < 4;
    var d1 := Stored(d, x.bus, p.d, room);
    EdgeIsDeviceStep(p, s, x, s', h);
    InvKept(p, s, x, s', h);
    Outstanding(p, s, h);
    StoredRelates(d, ControlOf(s, h), x.bus, p.d);
    StoredFits(p, d, x.bus, s.q.hold, room);
    EdgeMemory(p, s, x, s', h, d);
    if s.t.done { RetireRelates(d1, ControlOf(s, h).Stored(x.bus, p.d)); }
    hide Related, SameMemory, Stored, Control.Stored, Control.Retired, Retire, SysInv, SysStep, Behaved, NextHistory, Regs.Enqueues;
  }

  lemma Outstanding(p: Params, s: Sys, h: History)
    requires SysInv(p, s, h)
    ensures h.retired <= h.popped <= h.retired + 1 && h.popped <= |h.jobs| && s.q.cnt == |h.jobs| - h.popped && s.q.cnt <= 4
    ensures s.t.done ==> h.popped == h.retired + 1
  {
  }

  lemma PoppedIrrelevant(p: Params, h: History, h': History, aw: Mat8, d: State)
    requires p.Valid() && p.n == 4 && Shape(aw, p.d, 4) && SameMemory(p, h, aw, d) && h' == h.(popped := h'.popped)
    ensures SameMemory(p, h', aw, d)
  {
    hide Flat, GoldenAll, JobAt;
    assert After(p, h', h.retired) == After(p, h, h.retired);
  }

  /** What a store leaves alone. */
  lemma StoredFrame(d: State, b: Bus, depth: nat, room: bool)
    requires depth > 0
    ensures var d1 := Stored(d, b, depth, room);
      d1.rd == d.rd && d1.wr == d.wr && d1.retired == d.retired && d.queue <= d1.queue &&
      d1.accepted == d.accepted + if Writes(b, 0x20) && Bit0(b.wdata) && room then 1 else 0
  {
    hide Mod, U32;
  }

  /** The memory side of a store. */
  lemma StoredMemory(p: Params, q: Regs, x: SysIn, h: History, d: State, h1: History)
    requires p.Valid() && p.n == 4 && x.Valid(p) && d.Valid() && SameMemory(p, h, x.aw, d) && d.regs == InCells(q.hold) && q.cnt <= 4
    requires q.Enqueues(x.bus) ==> NoWrap(p, q.hold) && Fits(p, q.hold)
    requires h1 == h.(jobs := h.jobs + if q.Enqueues(x.bus) then [JobAt(p, x.aw, q.hold)] else [])
    ensures var d1 := Stored(d, x.bus, p.d, q.cnt < 4);
      d1.Valid() && SameMemory(p, h1, x.aw, d1) && d.queue <= d1.queue
  {
    var more := if q.Enqueues(x.bus) then [JobAt(p, x.aw, q.hold)] else [];
    StoredFits(p, d, x.bus, q.hold, q.cnt < 4);
    if q.Enqueues(x.bus) { JobAtValid(p, x.aw, q.hold); }
    StoredFrame(d, x.bus, p.d, q.cnt < 4);
    assert SameMemory(p, h, x.aw, d) ==> |d.rd| == |d.wr| == 4 * p.d;
    hide SameMemory, Flat, JobAt, GoldenAll, Operands, QueueFits, Stored, Writes, NoWrap, StreamInvariant.Fits;
    AcceptedMemory(p, h, h1, x.aw, d, Stored(d, x.bus, p.d, q.cnt < 4), more);
  }

  lemma EdgeMemory(p: Params, s: Sys, x: SysIn, s': Sys, h: History, d: State)
    requires Represents(p, s, h, x.aw, d) && x.Valid(p) && !x.rst && Behaved(p, s, x, h)
    requires s.q.Enqueues(x.bus) ==> NoWrap(p, s.q.hold)
    ensures var d1 := Stored(d, x.bus, p.d, s.q.cnt < 4);
      d1.Valid() && (s.t.done ==> d1.queue != []) &&
      SameMemory(p, NextHistory(p, h, s, x, s'), x.aw, if s.t.done then Retire(d1) else d1)
  {
    var d1, h' := Stored(d, x.bus, p.d, s.q.cnt < 4), NextHistory(p, h, s, x, s');
    var h1 := h.(jobs := h.jobs + if s.q.Enqueues(x.bus) then [JobAt(p, x.aw, s.q.hold)] else []);
    Outstanding(p, s, h);
    StoredMemory(p, s.q, x, h, d, h1);
    hide Stored, SysInv, Behaved, Retire, JobAt, Regs.Enqueues, Regs.Pops;
    if s.t.done {
      OldestQueued(s, h, d);
      RetiredMemory(p, h1, h1.(retired := h.retired + 1), x.aw, d1);
      PoppedIrrelevant(p, h1.(retired := h.retired + 1), h', x.aw, Retire(d1));
    } else {
      PoppedIrrelevant(p, h1, h', x.aw, d1);
    }
  }

  lemma OldestQueued(s: Sys, h: History, d: State)
    requires h.retired < |h.jobs| && Related(d, ControlOf(s, h))
    ensures d.queue != [] && d.queue[0] == InCells(h.jobs[h.retired].c)
  {
  }

  /** A reset makes a fresh device. */
  lemma ResetIsFresh(p: Params, s: Sys, x: SysIn, s': Sys, h: History)
    requires p.Valid() && p.n == 4 && s.Valid(p) && x.Valid(p) && x.rst && SysStep(p, s, x, s')
    ensures Represents(p, s', NextHistory(p, h, s, x, s'), x.aw,
      State(Flat(x.aw), Flat(s'.t.mem), QCmd(0, 0, 0, 0), [], 0, false, false, 0, 0, 0, 0, 0))
  {
    ResetEstablishes(p, s, x, s', h);
    hide Flat, SysInv, Step;
  }

  /** The host may rewrite operand memory that no outstanding command reads. */
  lemma HostStores(p: Params, s: Sys, h: History, aw: Mat8, aw': Mat8, d: State)
    requires Represents(p, s, h, aw, d) && Shape(aw', p.d, 4) && Intact(p, aw', h.jobs, h.retired)
    ensures Represents(p, s, h, aw', d.(rd := Flat(aw')))
  {
    hide SysInv, JobAt, GoldenAll, NoWrap;
  }
}
