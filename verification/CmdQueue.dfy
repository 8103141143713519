/** The MMIO register block (rtl/mmio/cmd_queue_regs.sv): operand registers, a four-deep command FIFO, the
    start pulse, the completion counter and the interrupt flag. */
module CmdQueue {
  import opened Arith
  import opened Stream

  /** One cycle of the core's load/store port. */
  datatype Bus = Bus(addr: nat, wdata: nat, wen: bool, funct3: nat)

  /** In range, and a word or double-word access. */
  predicate RegHit(b: Bus) { 0x1000_0000 <= b.addr < 0x1000_0040 && (b.funct3 == 2 || b.funct3 == 3) }

  predicate Writes(b: Bus, off: nat) { RegHit(b) && b.wen && b.addr % 64 == off }

  predicate Bit0(x: nat) { x % 2 == 1 }

  predicate Bit1(x: nat) { x / 2 % 2 == 1 }

  /** A two-bit index, `i` places on. */
  function Slot(rp: nat, i: nat): (s: nat)
    requires rp < 4 && i <= 4
    ensures s < 4
  {
    if rp + i < 4 then rp + i else rp + i - 4
  }

  /** Every register of the block. `out` is the command presented with the start pulse. */
  datatype Regs = Regs(hold: Command, fifo: seq<Command>, wp: nat, rp: nat, cnt: nat, start: bool, out: Command,
                       irqEn: bool, pending: bool, doneCount: nat)
  {
    predicate Valid() {
      |fifo| == 4 && wp < 4 && rp < 4 && cnt <= 4 && doneCount < 0x1_0000 && hold.mRows < TWO32 && out.mRows < TWO32 &&
      forall i :: 0 <= i < 4 ==> fifo[i].mRows < TWO32
    }

    /** The two indices agree with the count; true from the first reset on. */
    predicate Aligned() { Valid() && wp == Slot(rp, cnt) }

    /** The queued commands, oldest first. */
    function Waiting(): (w: seq<Command>)
      requires Valid()
      ensures |w| == cnt
    {
      seq(cnt, i requires 0 <= i < cnt => fifo[Slot(rp, i)])
    }

    /** CMD written with bit 0 set while the FIFO has room. */
    predicate Enqueues(b: Bus) { Writes(b, 0x20) && Bit0(b.wdata) && cnt != 4 }

    predicate Pops(busy: bool) { !busy && cnt != 0 && !start }

    /** STATUS: bit 0 busy, 1 full, 2 empty, 7..4 count, 31..16 done count. */
    function Status(busy: bool, done: bool): nat {
      doneCount * 0x1_0000 + cnt * 16 + (if cnt == 0 then 4 else 0) + (if cnt == 4 then 2 else 0) +
      (if busy || start || done then 1 else 0)
    }
  }

  const NoCommand := Command(0, 0, 0, 0)

  /** The FIFO half of the block. `d` is the depth of the RAMs the addresses index. */
  function FifoNext(q: Regs, b: Bus, busy: bool, rst: bool): (q': Regs)
    requires q.Valid()
    ensures q'.Valid()
  {
    if rst then q.(wp := 0, rp := 0, cnt := 0, start := false, out := NoCommand)
    else
      var e, o := q.Enqueues(b), q.Pops(busy);
      q.(fifo := if e then q.fifo[q.wp := q.hold] else q.fifo,
         wp := if e then Slot(q.wp, 1) else q.wp,
         out := if o then q.fifo[q.rp] else q.out,
         rp := if o then Slot(q.rp, 1) else q.rp,
         start := o,
         cnt := if e && !o then q.cnt + 1 else if o && !e then q.cnt - 1 else q.cnt)
  }

  /** The half with the operand registers, the completion counter and the interrupt flag. */
  function HoldNext(q: Regs, d: nat, b: Bus, done: bool, rst: bool): (q': Regs)
    requires q.Valid() && d > 0
    ensures q'.Valid()
  {
    if rst then q.(hold := NoCommand, irqEn := false, pending := false, doneCount := 0)
    else
      var hold :=
        if Writes(b, 0x00) then q.hold.(wBase := Mod(b.wdata, d))
        else if Writes(b, 0x08) then q.hold.(aBase := Mod(b.wdata, d))
        else if Writes(b, 0x10) then q.hold.(cBase := Mod(b.wdata, d))
        else if Writes(b, 0x18) then q.hold.(mRows := U32(b.wdata))
        else q.hold;
      q.(hold := hold,
         irqEn := if Writes(b, 0x30) then Bit0(b.wdata) else q.irqEn,
         pending := done || (q.pending && !(Writes(b, 0x30) && Bit1(b.wdata))),
         doneCount := if done then (q.doneCount + 1) % 0x1_0000 else q.doneCount)
  }

  /** One clock edge: both halves read the old registers. */
  function QueueNext(q: Regs, d: nat, b: Bus, busy: bool, done: bool, rst: bool): (q': Regs)
    requires q.Valid() && d > 0
    ensures q'.Valid()
  {
    var h := HoldNext(q, d, b, done, rst);
    FifoNext(q, b, busy, rst).(hold := h.hold, irqEn := h.irqEn, pending := h.pending, doneCount := h.doneCount)
  }

  class CmdQueueRegs {
    const d: nat
    var hold: Command
    var fifo: array<Command>
    var wp: nat
    var rp: nat
    var cnt: nat
    var start: bool
    var out: Command
    var irqEn: bool
    var pending: bool
    var doneCount: nat

    function Value(): Regs
      reads this, fifo
    {
      Regs(hold, fifo[..], wp, rp, cnt, start, out, irqEn, pending, doneCount)
    }

    ghost predicate Valid()
      reads this, fifo
    {
      d > 0 && fifo.Length == 4 && Value().Valid()
    }

    /** Registers hold arbitrary values until the first reset. */
    constructor (d: nat, power: Regs)
      requires d > 0 && power.Valid()
      ensures Valid() && this.d == d && fresh(fifo)
    {
      this.d := d;
      hold, wp, rp, cnt, start, out := power.hold, power.wp, power.rp, power.cnt, power.start, power.out;
      irqEn, pending, doneCount := power.irqEn, power.pending, power.doneCount;
      fifo := new Command[4](i requires 0 <= i < 4 => power.fifo[i]);
    }

    method Tick(rst: bool, b: Bus, busy: bool, done: bool)
      requires Valid()
      modifies this, fifo
      ensures Valid() && fifo == old(fifo) && Value() == QueueNext(old(Value()), d, b, busy, done, rst)
    {
      hide HoldNext, Writes;
      var next, enqueue, pop := hold, Value().Enqueues(b), Value().Pops(busy);
      TickHold(rst, b, done);
      TickFifo(rst, next, enqueue, pop, b, busy);
    }

    method TickFifo(rst: bool, next: Command, enqueue: bool, pop: bool, ghost b: Bus, ghost busy: bool)
      requires Valid() && next.mRows < TWO32
      requires enqueue == Value().Enqueues(b) && pop == Value().Pops(busy)
      modifies this`wp, this`rp, this`cnt, this`start, this`out, fifo
      ensures Valid() && fifo == old(fifo)
      ensures Value() == FifoNext(old(Value()).(hold := next), b, busy, rst).(hold := hold)
    {
      hide Writes;
      if rst {
        wp, rp, cnt, start, out := 0, 0, 0, false, NoCommand;
      } else {
        start := false;
        var head := fifo[rp];
        if enqueue { fifo[wp] := next; wp := Slot(wp, 1); }
        if pop { out, rp, start := head, Slot(rp, 1), true; }
        if enqueue && !pop { cnt := cnt + 1; } else if pop && !enqueue { cnt := cnt - 1; }
      }
    }

    method TickHold(rst: bool, b: Bus, done: bool)
      requires Valid()
      modifies this`hold, this`irqEn, this`pending, this`doneCount
      ensures Valid() && Value() == HoldNext(old(Value()), d, b, done, rst)
    {
      if rst {
        hold, irqEn, pending, doneCount := NoCommand, false, false, 0;
      } else {
        hide Mod, U32;
        if RegHit(b) && b.wen {
          match b.addr % 64 {
            case 0x00 => hold := hold.(wBase := Mod(b.wdata, d));
            case 0x08 => hold := hold.(aBase := Mod(b.wdata, d));
            case 0x10 => hold := hold.(cBase := Mod(b.wdata, d));
            case 0x18 => hold := hold.(mRows := U32(b.wdata));
            case 0x30 =>
              irqEn := Bit0(b.wdata);
              if Bit1(b.wdata) { pending := false; }
            case _ =>
          }
        }
        if done {
          doneCount := (doneCount + 1) % 0x1_0000;
          pending := true;
        }
      }
    }
  }

  /** The FIFO as a list: a command goes in at the back, and the head comes out with the start pulse. */
  lemma FifoOrder(q: Regs, d: nat, b: Bus, busy: bool, done: bool)
    requires q.Aligned() && d > 0
    ensures var q' := QueueNext(q, d, b, busy, done, false);
      var all := q.Waiting() + if q.Enqueues(b) then [q.hold] else [];
      q'.Aligned() && q'.start == q.Pops(busy) &&
      if q.Pops(busy) then q'.out == all[0] && q'.Waiting() == all[1..] else q'.Waiting() == all
  {
    var q' := QueueNext(q, d, b, busy, done, false);
    var all := q.Waiting() + if q.Enqueues(b) then [q.hold] else [];
    var first := if q.Pops(busy) then 1 else 0;
    assert forall i :: 0 <= i < q'.cnt ==> q'.Waiting()[i] == all[i + first];
  }

  /** Which bus cycles are stores, and what each does, by its absolute address: a word or double-word write to one of
      six addresses. Any other address or width, and every read, leaves all of these registers alone. */
  lemma StoreDecode(q: Regs, d: nat, b: Bus, busy: bool, done: bool)
    requires q.Valid() && d > 0
    ensures var q' := QueueNext(q, d, b, busy, done, false);
      var w := b.wen && (b.funct3 == 2 || b.funct3 == 3);
      q'.hold.wBase == (if w && b.addr == 0x1000_0000 then b.wdata % d else q.hold.wBase) &&
      q'.hold.aBase == (if w && b.addr == 0x1000_0008 then b.wdata % d else q.hold.aBase) &&
      q'.hold.cBase == (if w && b.addr == 0x1000_0010 then b.wdata % d else q.hold.cBase) &&
      q'.hold.mRows == (if w && b.addr == 0x1000_0018 then b.wdata % 0x1_0000_0000 else q.hold.mRows) &&
      q'.irqEn == (if w && b.addr == 0x1000_0030 then b.wdata % 2 == 1 else q.irqEn) &&
      q'.pending == (done || (q.pending && !(w && b.addr == 0x1000_0030 && b.wdata / 2 % 2 == 1)))
  {
    ModIsRemainder(b.wdata, d);
    hide Mod, FifoNext;
  }

  /** The only bus cycle that queues a command is a write of an odd word to the CMD address while fewer than four
      commands wait; it puts the operand registers at the back of the list. */
  lemma CommandDecode(q: Regs, d: nat, b: Bus, busy: bool, done: bool)
    requires q.Aligned() && d > 0
    ensures var q' := QueueNext(q, d, b, busy, done, false);
      var w := b.wen && (b.funct3 == 2 || b.funct3 == 3);
      var listed := q.Waiting() + if w && b.addr == 0x1000_0020 && b.wdata % 2 == 1 && |q.Waiting()| < 4 then [q.hold] else [];
      if !busy && q.Waiting() != [] && !q.start then q'.start && q'.out == listed[0] && q'.Waiting() == listed[1..]
      else !q'.start && q'.Waiting() == listed
  {
    FifoOrder(q, d, b, busy, done);
    hide QueueNext, Regs.Waiting;
  }

  /** What a poller of STATUS sees as "queue empty and not busy". */
  lemma {:induction false} IdleStatus(q: Regs, busy: bool, done: bool)
    requires q.Valid()
    ensures var s := q.Status(busy, done);
      (s / 4 % 2 == 1 && s % 2 == 0 <==> q.cnt == 0 && !busy && !q.start && !done) && (s / 2 % 2 == 1 <==> q.cnt == 4) &&
      s / 0x1_0000 == q.doneCount && s / 16 % 16 == q.cnt
  {
    StatusBits(q.doneCount, q.cnt, if q.cnt == 0 then 1 else 0, if q.cnt == 4 then 1 else 0, if busy || q.start || done then 1 else 0);
  }

  lemma StatusBits(dc: nat, cnt: nat, empty: nat, full: nat, busy: nat)
    requires cnt < 16 && empty <= 1 && full <= 1 && busy <= 1
    ensures var s := dc * 0x1_0000 + cnt * 16 + empty * 4 + full * 2 + busy;
      s % 2 == busy && s / 2 % 2 == full && s / 4 % 2 == empty && s / 16 % 16 == cnt && s / 0x1_0000 == dc
  {
    LowBit(dc * 32768 + cnt * 8 + empty * 2 + full, busy);
    LowBit(dc * 16384 + cnt * 4 + empty, full);
    LowBit(dc * 8192 + cnt * 2, empty);
    Quarter(dc * 16384 + cnt * 4 + empty, full * 2 + busy);
    LowHex(dc * 4096 + cnt, empty * 4 + full * 2 + busy);
    LowHex(dc * 256, cnt);
    HighHalf(dc, cnt * 16 + empty * 4 + full * 2 + busy);
  }

  lemma LowBit(x: nat, b: nat)
    requires b <= 1
    ensures (2 * x + b) % 2 == b && (2 * x + b) / 2 == x
  {
  }

  lemma Quarter(x: nat, r: nat)
    requires r < 4
    ensures (4 * x + r) / 4 == x
  {
  }

  lemma LowHex(x: nat, r: nat)
    requires r < 16
    ensures (16 * x + r) / 16 == x && (16 * x + r) % 16 == r
  {
  }

  lemma HighHalf(x: nat, r: nat)
    requires r < 0x1_0000
    ensures (0x1_0000 * x + r) / 0x1_0000 == x
  {
  }
}
