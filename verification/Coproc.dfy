/** The coprocessor as the driver sees it (sw/coproc_driver.h, sw/coproc_mmio.h, rtl/mmio/cmd_queue_regs.sv):
    two host-visible memories, a command FIFO, a 16-bit completion counter and a one-bit IRQ flag.
    The hardware retires commands whenever it likes, between any two actions of the driver. */
module Coproc {
  import opened Arith
  import opened Tiling

  const QDEPTH := 4
  const COUNTER := 0x1_0000

  /** A queued command. `w` and `a` are byte addresses of int8 operands; `c` counts int32 cells of the
      result memory (its byte address divided by 4). */
  datatype QCmd = QCmd(w: nat, a: nat, c: nat, m: nat)

  /** `rows` rows of TILE lanes starting at cell `at` of a memory. */
  function RowsAt<T>(mem: seq<T>, at: nat, rows: nat): (r: seq<seq<T>>)
    requires at + 4 * rows <= |mem|
    ensures Shape(r, rows, TILE)
  {
    seq(rows, i requires 0 <= i < rows => mem[at + 4 * i .. at + 4 * i + TILE])
  }

  /** Rows of TILE lanes, laid out one after the other. */
  function Flat<T>(rows: seq<seq<T>>): (s: seq<T>)
    requires Shape(rows, |rows|, TILE)
    ensures |s| == 4 * |rows|
  {
    if rows == [] then [] else Flat(rows[..|rows|-1]) + rows[|rows|-1]
  }

  /** `mem` with `data` stored from cell `at` on. */
  function Store<T>(mem: seq<T>, at: nat, data: seq<T>): (m: seq<T>)
    requires at + |data| <= |mem|
    ensures |m| == |mem|
  {
    seq(|mem|, i requires 0 <= i < |mem| => if at <= i < at + |data| then data[i - at] else mem[i])
  }

  lemma {:induction false} FlatRow<T>(rows: seq<seq<T>>, i: nat)
    requires Shape(rows, |rows|, TILE) && i < |rows|
    ensures Flat(rows)[4 * i..4 * i + TILE] == rows[i]
  {
    var front := rows[..|rows|-1];
    if i < |rows| - 1 {
      FlatRow(front, i);
      assert Flat(rows) == Flat(front) + rows[|rows|-1];
      SliceOfFront(Flat(front), rows[|rows|-1], 4 * i, 4 * i + TILE);
    }
  }

  lemma SliceOfFront<T>(front: seq<T>, rest: seq<T>, lo: nat, hi: nat)
    requires lo <= hi <= |front|
    ensures (front + rest)[lo..hi] == front[lo..hi]
  {
  }

  /** A slice of what was stored. */
  lemma StoredSlice<T>(mem: seq<T>, at: nat, data: seq<T>, lo: nat, hi: nat, slice: seq<T>)
    requires at + |data| <= |mem| && lo <= hi <= |data| && data[lo..hi] == slice
    ensures Store(mem, at, data)[at + lo..at + hi] == slice
  {
  }

  /** Reading back what was stored gives the rows again. */
  lemma StoreRowsAt<T>(mem: seq<T>, at: nat, rows: seq<seq<T>>)
    requires Shape(rows, |rows|, TILE) && at + 4 * |rows| <= |mem|
    ensures RowsAt(Store(mem, at, Flat(rows)), at, |rows|) == rows
  {
    hide Flat;
    var m := Store(mem, at, Flat(rows));
    forall i | 0 <= i < |rows|
      ensures RowsAt(m, at, |rows|)[i] == rows[i]
    {
      FlatRow(rows, i);
      StoredSlice(mem, at, Flat(rows), 4 * i, 4 * i + 4, rows[i]);
    }
  }

  predicate Disjoint(at: nat, len: nat, at': nat, len': nat) { at + len <= at' || at' + len' <= at }

  /** A store elsewhere leaves rows alone. */
  lemma StoreElsewhere<T>(mem: seq<T>, at: nat, data: seq<T>, at': nat, rows: nat)
    requires at + |data| <= |mem| && at' + 4 * rows <= |mem| && Disjoint(at, |data|, at', 4 * rows)
    ensures RowsAt(Store(mem, at, data), at', rows) == RowsAt(mem, at', rows)
  {
    var m := Store(mem, at, data);
    forall i | 0 <= i < rows
      ensures RowsAt(m, at', rows)[i] == RowsAt(mem, at', rows)[i]
    {
    }
  }

  predicate CmdFits(c: QCmd, rdSize: nat, wrSize: nat) {
    c.w + 4 * 4 <= rdSize && c.a + 4 * c.m <= rdSize && c.c + 4 * c.m <= wrSize
  }

  /** The result memory after the first `k` rows of a command: each is a row of `A @ W`. */
  function WriteRows(rd: seq<Int8>, wr: seq<Int32>, c: QCmd, k: nat): (wr': seq<Int32>)
    requires CmdFits(c, |rd|, |wr|) && k <= c.m
    ensures |wr'| == |wr|
  {
    if k == 0 then wr
    else Store(WriteRows(rd, wr, c, k - 1), c.c + 4 * (k - 1),
               RowTimes(rd[c.a + 4 * (k - 1)..c.a + 4 * k], RowsAt(rd, c.w, TILE), TILE))
  }

  /** What a command leaves in its own C region. */
  lemma {:induction false} WriteRowsResult(rd: seq<Int8>, wr: seq<Int32>, c: QCmd, k: nat)
    requires CmdFits(c, |rd|, |wr|) && k <= c.m
    ensures RowsAt(WriteRows(rd, wr, c, k), c.c, k) == MatMul(RowsAt(rd, c.a, c.m), RowsAt(rd, c.w, TILE), TILE, TILE)[..k]
  {
    if k > 0 {
      var before := WriteRows(rd, wr, c, k - 1);
      var row := RowTimes(rd[c.a + 4 * (k - 1)..c.a + 4 * k], RowsAt(rd, c.w, TILE), TILE);
      var m := Store(before, c.c + 4 * (k - 1), row);
      WriteRowsResult(rd, wr, c, k - 1);
      StoreElsewhere(before, c.c + 4 * (k - 1), row, c.c, k - 1);
      assert RowsAt(m, c.c, k) == RowsAt(m, c.c, k - 1) + [m[c.c + 4 * (k - 1)..c.c + 4 * k]];
      assert m[c.c + 4 * (k - 1)..c.c + 4 * k] == row;
    }
  }

  /** A command touches nothing outside its own C region. */
  lemma {:induction false} WriteRowsElsewhere(rd: seq<Int8>, wr: seq<Int32>, c: QCmd, k: nat, at: nat, rows: nat)
    requires CmdFits(c, |rd|, |wr|) && k <= c.m
    requires at + 4 * rows <= |wr| && Disjoint(c.c, 4 * c.m, at, 4 * rows)
    ensures RowsAt(WriteRows(rd, wr, c, k), at, rows) == RowsAt(wr, at, rows)
  {
    if k > 0 {
      WriteRowsElsewhere(rd, wr, c, k - 1, at, rows);
      StoreElsewhere(WriteRows(rd, wr, c, k - 1), c.c + 4 * (k - 1),
                     RowTimes(rd[c.a + 4 * (k - 1)..c.a + 4 * k], RowsAt(rd, c.w, TILE), TILE), at, rows);
    }
  }

  /** No operand byte of the command lies in `at .. at + len`. */
  predicate Unread(c: QCmd, at: nat, len: nat) {
    Disjoint(c.w, 4 * 4, at, len) && Disjoint(c.a, 4 * c.m, at, len)
  }

  lemma StoreKeepsSlice<T>(mem: seq<T>, at: nat, data: seq<T>, lo: nat, hi: nat)
    requires at + |data| <= |mem| && lo <= hi <= |mem| && Disjoint(lo, hi - lo, at, |data|)
    ensures Store(mem, at, data)[lo..hi] == mem[lo..hi]
  {
  }

  /** A store that the command does not read changes nothing of what it will write. */
  lemma {:induction false} UnreadIsIrrelevant(rd: seq<Int8>, wr: seq<Int32>, c: QCmd, k: nat, at: nat, data: seq<Int8>)
    requires CmdFits(c, |rd|, |wr|) && k <= c.m && at + |data| <= |rd| && Unread(c, at, |data|)
    ensures WriteRows(Store(rd, at, data), wr, c, k) == WriteRows(rd, wr, c, k)
  {
    if k > 0 {
      UnreadIsIrrelevant(rd, wr, c, k - 1, at, data);
      StoreElsewhere(rd, at, data, c.w, 4);
      StoreKeepsSlice(rd, at, data, c.a + 4 * (k - 1), c.a + 4 * k);
    }
  }

  predicate QueueFits(q: seq<QCmd>, rdSize: nat, wrSize: nat) {
    forall i :: 0 <= i < |q| ==> CmdFits(q[i], rdSize, wrSize)
  }

  /** The device's state: memories, operand registers, the accepted commands not yet retired (oldest
      first), the IRQ registers, and running totals of what happened to commands and interrupts. */
  datatype State = State(rd: seq<Int8>, wr: seq<Int32>, regs: QCmd, queue: seq<QCmd>, doneCount: nat,
                         irqEn: bool, pending: bool,
                         accepted: nat, dropped: nat, retired: nat,
                         cleared: nat, // times a set IRQ flag was cleared
                         lost: nat)    // retirements that found the flag already set
  {
    predicate Valid() {
      doneCount < COUNTER && QueueFits(queue, |rd|, |wr|)
    }
  }

  /** The datapath finishes the oldest command. */
  function Retire(s: State): (s': State)
    requires s.Valid() && s.queue != []
    ensures s'.Valid()
  {
    s.(wr := WriteRows(s.rd, s.wr, s.queue[0], s.queue[0].m), queue := s.queue[1..], doneCount := (s.doneCount + 1) % 0x1_0000,
       pending := true, retired := s.retired + 1, lost := s.lost + if s.pending then 1 else 0)
  }

  /** The hardware retires the `k` oldest commands. */
  function Evolve(s: State, k: nat): (s': State)
    requires s.Valid() && k <= |s.queue|
    ensures s'.Valid() && s'.queue == s.queue[k..]
  {
    if k == 0 then s else Retire(Evolve(s, k - 1))
  }

  /** What retirements change, and what they leave alone. */
  lemma {:induction false} EvolveTotals(s: State, k: nat)
    requires s.Valid() && k <= |s.queue|
    ensures var s' := Evolve(s, k);
      s'.rd == s.rd && |s'.wr| == |s.wr| && s'.regs == s.regs && s'.irqEn == s.irqEn &&
      s'.accepted == s.accepted && s'.dropped == s.dropped && s'.cleared == s.cleared &&
      s'.retired == s.retired + k &&
      s'.pending == (s.pending || k > 0) &&
      s'.lost == s.lost + (if k == 0 then 0 else if s.pending then k else k - 1)
  {
    hide WriteRows;
    if k > 0 { EvolveTotals(s, k - 1); }
  }

  lemma {:induction false} EvolveDoneCount(s: State, k: nat)
    requires s.Valid() && k <= |s.queue|
    ensures Evolve(s, k).doneCount == (s.doneCount + k) % 0x1_0000
  {
    hide WriteRows;
    if k > 0 {
      EvolveDoneCount(s, k - 1);
      CountOn(s.doneCount + k - 1);
    }
  }

  lemma CountOn(x: nat)
    ensures (x % 0x1_0000 + 1) % 0x1_0000 == (x + 1) % 0x1_0000
  {
  }

  class Device {
    var rd: seq<Int8>
    var wr: seq<Int32>
    var regs: QCmd
    var queue: seq<QCmd>
    var running: bool     // the head of the queue has left the FIFO for the datapath
    var doneCount: nat
    var irqEn: bool
    var pending: bool
    ghost var accepted: nat
    ghost var dropped: nat
    ghost var retired: nat
    ghost var cleared: nat
    ghost var lost: nat

    ghost function Value(): State
      reads this
    {
      State(rd, wr, regs, queue, doneCount, irqEn, pending, accepted, dropped, retired, cleared, lost)
    }

    ghost predicate Valid()
      reads this
    {
      Value().Valid() && (running ==> |queue| > 0)
    }

    constructor (rd: seq<Int8>, wr: seq<Int32>)
      ensures Valid() && queue == [] && !pending && this.rd == rd && this.wr == wr
    {
      this.rd, this.wr, regs, queue, running, doneCount, irqEn, pending := rd, wr, QCmd(0, 0, 0, 0), [], false, 0, false, false;
      accepted, dropped, retired, cleared, lost := 0, 0, 0, 0, 0;
    }

    method RetireOne()
      requires Valid() && queue != []
      modifies this
      ensures Valid() && Value() == Retire(old(Value()))
    {
      hide WriteRows;
      ghost var s := Value();
      wr := WriteRows(rd, wr, queue[0], queue[0].m);
      queue, running := queue[1..], false;
      doneCount := (doneCount + 1) % 0x1_0000;
      lost := lost + if pending then 1 else 0;
      pending := true;
      retired := retired + 1;
      assert Value() == Retire(s);
    }

    /** Whatever the hardware does between two driver actions. */
    method Interfere() returns (ghost k: nat)
      requires Valid()
      modifies this
      ensures Valid() && k <= old(|queue|) && Value() == Evolve(old(Value()), k)
    {
      hide WriteRows;
      k := 0;
      while *
        invariant Valid() && k <= old(|queue|) && Value() == Evolve(old(Value()), k)
        decreases |queue|
      {
        if queue == [] { break; }
        RetireOne();
        k := k + 1;
      }
      if queue != [] { running := *; }
    }

    // --- the driver's operations; the hardware may move before each of them ---

    /** Writes IRQ_EN, and clears IRQ_PENDING (write 1 to clear) if `clear` is set. */
    method WriteIrq(enable: bool, clear: bool) returns (ghost k: nat)
      requires Valid()
      modifies this
      ensures Valid() && k <= old(|queue|)
      ensures var s := Evolve(old(Value()), k);
        Value() == s.(irqEn := enable, pending := s.pending && !clear,
                      cleared := s.cleared + if s.pending && clear then 1 else 0)
    {
      hide Evolve, QueueFits;
      k := Interfere();
      irqEn := enable;
      cleared := cleared + if pending && clear then 1 else 0;
      pending := pending && !clear;
    }

    /** Blocks until the interrupt line is up. Accepted commands retire eventually, so the wait never
        ends (`ok` false) only if nothing is left that could raise the line. */
    method WaitIrq() returns (ok: bool, ghost k: nat)
      requires Valid() && irqEn
      modifies this
      ensures Valid() && k <= old(|queue|) && Value() == Evolve(old(Value()), k)
      ensures ok == pending
      ensures !ok ==> queue == []
    {
      hide WriteRows;
      k := Interfere();
      while !pending && queue != []
        invariant Valid() && k <= old(|queue|) && Value() == Evolve(old(Value()), k)
        decreases |queue|
      {
        RetireOne();
        k := k + 1;
      }
      ok := pending;
    }

    /** Polls STATUS until the FIFO is empty and the datapath idle. Accepted commands retire eventually. */
    method WaitIdle()
      requires Valid()
      modifies this
      ensures Valid() && Value() == Evolve(old(Value()), old(|queue|))
    {
      hide WriteRows;
      ghost var k := 0;
      while running || queue != []
        invariant Valid() && k <= old(|queue|) && Value() == Evolve(old(Value()), k)
        decreases |queue|
      {
        RetireOne();
        k := k + 1;
      }
    }

    /** Reads STATUS[31:16]. */
    method ReadDoneCount() returns (dc: nat, ghost k: nat)
      requires Valid()
      modifies this
      ensures Valid() && k <= old(|queue|) && Value() == Evolve(old(Value()), k) && dc == doneCount
    {
      hide Evolve, WriteRows;
      k := Interfere();
      dc := doneCount;
    }

    /** Stores into the operand memory. The bytes must not belong to a command that may still read them. */
    method MemWrite(at: nat, data: seq<Int8>) returns (ghost k: nat)
      requires Valid() && at + |data| <= |rd|
      requires forall i :: 0 <= i < |queue| ==> Unread(queue[i], at, |data|)
      modifies this
      ensures Valid() && k <= old(|queue|)
      ensures var s := Evolve(old(Value()), k); |s.rd| == old(|rd|) && Value() == s.(rd := Store(s.rd, at, data))
    {
      hide Evolve, WriteRows;
      k := Interfere();
      EvolveTotals(old(Value()), k);
      rd := Store(rd, at, data);
    }

    /** Loads from the result memory. The cells must not belong to a command that may still write them. */
    method MemRead(at: nat, len: nat) returns (data: seq<Int32>, ghost k: nat)
      requires Valid() && at + len <= |wr|
      requires forall i :: 0 <= i < |queue| ==> Disjoint(queue[i].c, 4 * queue[i].m, at, len)
      modifies this
      ensures Valid() && k <= old(|queue|) && Value() == Evolve(old(Value()), k)
      ensures |wr| == old(|wr|) && data == wr[at..at + len]
    {
      hide Evolve, WriteRows;
      k := Interfere();
      EvolveTotals(old(Value()), k);
      data := wr[at..at + len];
    }

    /** Writes one of the four operand registers of the next command. */
    method WriteReg(regs: QCmd) returns (ghost k: nat)
      requires Valid()
      modifies this
      ensures Valid() && k <= old(|queue|) && Value() == Evolve(old(Value()), k).(regs := regs)
    {
      hide Evolve, WriteRows;
      k := Interfere();
      this.regs := regs;
    }

    /** Writes 1 to CMD: the command is queued, or dropped when four commands wait in the FIFO. */
    method WriteCmd() returns (ghost k: nat, ghost queued: bool)
      requires Valid() && CmdFits(regs, |rd|, |wr|)
      modifies this
      ensures Valid() && k <= old(|queue|)
      ensures var s := Evolve(old(Value()), k);
        Value() == if queued then s.(queue := s.queue + [s.regs], accepted := s.accepted + 1) else s.(dropped := s.dropped + 1)
      ensures old(|queue|) < QDEPTH ==> queued
    {
      hide Evolve, WriteRows;
      k := Interfere();
      EvolveTotals(old(Value()), k);
      queued := (if running then |queue| - 1 else |queue|) < QDEPTH;
      if (if running then |queue| - 1 else |queue|) < QDEPTH {
        queue := queue + [regs];
        accepted := accepted + 1;
      } else {
        dropped := dropped + 1;
      }
    }
  }
}
