/** The four-slot command queue as a driver uses it: operands are packed into a slot, the command is
    queued, and its result is read back before the slot is used again, while the hardware retires
    commands between any two driver actions. */
module SlotQueue {
  import opened Arith
  import opened Tiling
  import opened Coproc

  /** One scratch region per queue slot, in cells of the memory it lives in. */
  datatype Buffers = Buffers(w: seq<nat>, a: seq<nat>, c: seq<nat>)

  /** The slots lie inside the memories and do not overlap. */
  predicate Slots(b: Buffers, rdSize: nat, wrSize: nat) {
    |b.w| == |b.a| == |b.c| == 4 &&
    (forall s :: 0 <= s < 4 ==> b.w[s] + 16 <= rdSize && b.a[s] + 4096 <= rdSize && b.c[s] + 4096 <= wrSize) &&
    (forall s, t :: 0 <= s < 4 && 0 <= t < 4 && s != t ==>
      Disjoint(b.w[s], 16, b.w[t], 16) && Disjoint(b.a[s], 4096, b.a[t], 4096) && Disjoint(b.c[s], 4096, b.c[t], 4096)) &&
    (forall s, t :: 0 <= s < 4 && 0 <= t < 4 ==> Disjoint(b.w[s], 16, b.a[t], 4096))
  }

  /** The operands of one command: at most 1024 activation rows and one weight tile. */
  datatype Work = Work(a: Mat8, w: Mat8) {
    predicate Valid() { |a| <= 1024 && Shape(a, |a|, TILE) && Shape(w, TILE, TILE) }

    function Product(): (t: Mat32) requires Valid() ensures Shape(t, |a|, TILE) { MatMul(a, w, TILE, TILE) }
  }

  predicate Packed(work: seq<Work>) { forall i :: 0 <= i < |work| ==> work[i].Valid() }

  function CmdOf(b: Buffers, rows: nat, i: nat): QCmd
    requires |b.w| == |b.a| == |b.c| == 4
  {
    QCmd(b.w[i % 4], b.a[i % 4], b.c[i % 4], rows)
  }

  ghost predicate OperandsReady(s: State, b: Buffers, work: seq<Work>, i: nat)
    requires Slots(b, |s.rd|, |s.wr|) && Packed(work) && i < |work|
  {
    RowsAt(s.rd, b.w[i % 4], 4) == work[i].w && RowsAt(s.rd, b.a[i % 4], |work[i].a|) == work[i].a
  }

  ghost predicate ResultReady(s: State, b: Buffers, work: seq<Work>, i: nat)
    requires Slots(b, |s.rd|, |s.wr|) && Packed(work) && i < |work|
  {
    RowsAt(s.wr, b.c[i % 4], |work[i].a|) == work[i].Product()
  }

  /** Progress inside a block: jobs below `collected` are read back, below `retired` are computed, below
      `issued` are queued; every queued job still has its operands and every computed one its result. */
  ghost predicate InFlight(s: State, b: Buffers, work: seq<Work>, collected: nat, retired: nat, issued: nat) {
    s.Valid() && Slots(b, |s.rd|, |s.wr|) && Packed(work) &&
    collected <= retired <= issued <= |work| && issued <= collected + 4 &&
    |s.queue| == issued - retired &&
    (forall i :: retired <= i < issued ==> s.queue[i - retired] == CmdOf(b, |work[i].a|, i)) &&
    (forall i :: retired <= i < issued ==> OperandsReady(s, b, work, i)) &&
    (forall i :: collected <= i < retired ==> ResultReady(s, b, work, i))
  }

  /** Interrupts still owed: constant, because every retirement is cleared, lost or pending. */
  function Balance(s: State): int { s.retired - s.cleared - s.lost - if s.pending then 1 else 0 }

  /** The totals since the block began in state `s0`. */
  predicate Ledger(s0: State, s: State, retired: nat, issued: nat) {
    |s.rd| == |s0.rd| && |s.wr| == |s0.wr| && s.irqEn == s0.irqEn &&
    s.accepted == s0.accepted + issued && s.dropped == s0.dropped && s.retired == s0.retired + retired &&
    s.doneCount == (s0.doneCount + retired) % 0x1_0000 &&
    Balance(s) == Balance(s0) && s.cleared >= s0.cleared && s.lost >= s0.lost
  }

  // --- how the state of a block moves ---

  /** Jobs less than four apart use different slots. */
  lemma SlotsDiffer(i: nat, j: nat)
    requires i < j < i + 4
    ensures i % 4 != j % 4
  {
  }

  /** A retirement computes the oldest job's product and disturbs no other. */
  lemma RetireKeeps(s: State, b: Buffers, work: seq<Work>, collected: nat, retired: nat, issued: nat)
    requires InFlight(s, b, work, collected, retired, issued) && retired < issued
    ensures InFlight(Retire(s), b, work, collected, retired + 1, issued)
  {
    var c := s.queue[0];
    var s' := Retire(s);
    assert c == CmdOf(b, |work[retired].a|, retired) by { assert s.queue[retired - retired] == CmdOf(b, |work[retired].a|, retired); }
    assert ResultReady(s', b, work, retired) by {
      assert OperandsReady(s, b, work, retired);
      WriteRowsResult(s.rd, s.wr, c, c.m);
      assert work[retired].Product()[..c.m] == work[retired].Product();
    }
    forall i | collected <= i < retired
      ensures ResultReady(s', b, work, i)
    {
      assert ResultReady(s, b, work, i);
      SlotsDiffer(i, retired);
      WriteRowsElsewhere(s.rd, s.wr, c, c.m, b.c[i % 4], |work[i].a|);
    }
    forall i | retired + 1 <= i < issued
      ensures OperandsReady(s', b, work, i)
      ensures s'.queue[i - (retired + 1)] == CmdOf(b, |work[i].a|, i)
    {
      assert OperandsReady(s, b, work, i);
      assert s.queue[i - retired] == CmdOf(b, |work[i].a|, i);
    }
  }

  lemma QueueLength(s: State, b: Buffers, work: seq<Work>, collected: nat, retired: nat, issued: nat)
    requires InFlight(s, b, work, collected, retired, issued)
    ensures |s.queue| == issued - retired
  {
  }

  lemma {:induction false} EvolveKeeps(s: State, b: Buffers, work: seq<Work>, collected: nat, retired: nat, issued: nat, k: nat)
    requires InFlight(s, b, work, collected, retired, issued) && s.Valid() && k <= |s.queue|
    ensures InFlight(Evolve(s, k), b, work, collected, retired + k, issued)
  {
    hide InFlight, Retire, WriteRows;
    QueueLength(s, b, work, collected, retired, issued);
    if k > 0 {
      EvolveKeeps(s, b, work, collected, retired, issued, k - 1);
      RetireKeeps(Evolve(s, k - 1), b, work, collected, retired + k - 1, issued);
    }
  }

  lemma EvolveLedger(s0: State, s: State, retired: nat, issued: nat, k: nat)
    requires s.Valid() && k <= |s.queue| && Ledger(s0, s, retired, issued)
    ensures Ledger(s0, Evolve(s, k), retired + k, issued)
    ensures Evolve(s, k).cleared == s.cleared && Evolve(s, k).regs == s.regs
  {
    hide Evolve, State.Valid;
    EvolveTotals(s, k);
    EvolveDoneCount(s, k);
    CountFrom(s0.doneCount, retired, k);
  }

  lemma CountFrom(base: nat, x: nat, k: nat)
    ensures ((base + x) % 0x1_0000 + k) % 0x1_0000 == (base + (x + k)) % 0x1_0000
  {
  }

  /** While a slot's previous job is collected, its operand bytes belong to no queued command. */
  lemma SlotFree(s: State, b: Buffers, work: seq<Work>, collected: nat, retired: nat, issued: nat, at: nat, len: nat)
    requires InFlight(s, b, work, collected, retired, issued) && issued < collected + 4
    requires (at == b.w[issued % 4] && len == 16) || (at == b.a[issued % 4] && len <= 4096)
    ensures forall j :: 0 <= j < |s.queue| ==> Unread(s.queue[j], at, len)
  {
    forall j | 0 <= j < |s.queue|
      ensures Unread(s.queue[j], at, len)
    {
      var i := retired + j;
      assert s.queue[i - retired] == CmdOf(b, |work[i].a|, i);
      SlotsDiffer(i, issued);
    }
  }

  /** Packing operands into a free slot leaves every queued job's operands alone. */
  lemma StoreKeeps(s: State, b: Buffers, work: seq<Work>, collected: nat, retired: nat, issued: nat, at: nat, data: seq<Int8>)
    requires InFlight(s, b, work, collected, retired, issued) && issued < collected + 4
    requires (at == b.w[issued % 4] && |data| == 16) || (at == b.a[issued % 4] && |data| <= 4096)
    requires at + |data| <= |s.rd|
    ensures InFlight(s.(rd := Store(s.rd, at, data)), b, work, collected, retired, issued)
  {
    var s' := s.(rd := Store(s.rd, at, data));
    forall i | retired <= i < issued
      ensures OperandsReady(s', b, work, i)
    {
      assert OperandsReady(s, b, work, i);
      SlotsDiffer(i, issued);
      StoreElsewhere(s.rd, at, data, b.w[i % 4], 4);
      StoreElsewhere(s.rd, at, data, b.a[i % 4], |work[i].a|);
    }
    forall i | collected <= i < retired
      ensures ResultReady(s', b, work, i)
    {
      assert ResultReady(s, b, work, i);
    }
  }

  /** Queueing the packed job. */
  lemma IssueKeeps(s: State, b: Buffers, work: seq<Work>, collected: nat, retired: nat, issued: nat)
    requires InFlight(s, b, work, collected, retired, issued) && issued < collected + 4 && issued < |work|
    requires OperandsReady(s, b, work, issued)
    ensures InFlight(s.(queue := s.queue + [CmdOf(b, |work[issued].a|, issued)], accepted := s.accepted + 1), b, work, collected, retired, issued + 1)
  {
    var s' := s.(queue := s.queue + [CmdOf(b, |work[issued].a|, issued)], accepted := s.accepted + 1);
    forall i | retired <= i < issued + 1
      ensures OperandsReady(s', b, work, i) && s'.queue[i - retired] == CmdOf(b, |work[i].a|, i)
    {
      assert OperandsReady(s, b, work, i);
      if i < issued { assert s.queue[i - retired] == CmdOf(b, |work[i].a|, i); }
    }
    forall i | collected <= i < retired
      ensures ResultReady(s', b, work, i)
    {
      assert ResultReady(s, b, work, i);
    }
  }

  /** Reading the oldest result back frees its slot. */
  lemma CollectKeeps(s: State, b: Buffers, work: seq<Work>, collected: nat, retired: nat, issued: nat)
    requires InFlight(s, b, work, collected, retired, issued) && collected < retired
    ensures InFlight(s, b, work, collected + 1, retired, issued)
    ensures ResultReady(s, b, work, collected)
    ensures forall j :: 0 <= j < |s.queue| ==> Disjoint(s.queue[j].c, 4 * s.queue[j].m, b.c[collected % 4], 4 * |work[collected].a|)
  {
    forall j | 0 <= j < |s.queue|
      ensures Disjoint(s.queue[j].c, 4 * s.queue[j].m, b.c[collected % 4], 4 * |work[collected].a|)
    {
      assert s.queue[retired + j - retired] == CmdOf(b, |work[retired + j].a|, retired + j);
      SlotsDiffer(collected, retired + j);
    }
  }

  // --- operations on the device ---

  /** What stays fixed while a block is processed: the device state it began in, the slots, the data. */
  datatype Context = Context(s0: State, b: Buffers, work: seq<Work>)

  ghost predicate Going(x: Context, s: State, collected: nat, retired: nat, issued: nat) {
    InFlight(s, x.b, x.work, collected, retired, issued) && Ledger(x.s0, s, retired, issued)
  }

  lemma Moves(x: Context, s: State, collected: nat, retired: nat, issued: nat, k: nat)
    requires Going(x, s, collected, retired, issued) && k <= |s.queue|
    ensures Going(x, Evolve(s, k), collected, retired + k, issued)
    ensures Evolve(s, k).cleared == s.cleared && Evolve(s, k).regs == s.regs && Evolve(s, k).rd == s.rd && |Evolve(s, k).wr| == |s.wr|
  {
    EvolveKeeps(s, x.b, x.work, collected, retired, issued, k);
    EvolveLedger(x.s0, s, retired, issued, k);
    EvolveTotals(s, k);
  }

  /** The driver's four register writes; the IRQ bookkeeping is not touched. */
  method WriteRegs(dev: Device, c: QCmd, ghost x: Context, ghost collected: nat, ghost retired: nat, ghost issued: nat)
    returns (ghost r: nat)
    requires dev.Valid() && Going(x, dev.Value(), collected, retired, issued)
    modifies dev
    ensures dev.Valid() && retired <= r && Going(x, dev.Value(), collected, r, issued)
    ensures dev.regs == c && dev.cleared == old(dev.cleared) && dev.rd == old(dev.rd) && |dev.wr| == old(|dev.wr|)
  {
    hide Going, Evolve;
    r := WriteReg(dev, dev.regs.(w := c.w), x, collected, retired, issued);
    r := WriteReg(dev, dev.regs.(a := c.a), x, collected, r, issued);
    r := WriteReg(dev, dev.regs.(c := c.c), x, collected, r, issued);
    r := WriteReg(dev, dev.regs.(m := c.m), x, collected, r, issued);
  }

  method WriteReg(dev: Device, regs: QCmd, ghost x: Context, ghost collected: nat, ghost retired: nat, ghost issued: nat)
    returns (ghost r: nat)
    requires dev.Valid() && Going(x, dev.Value(), collected, retired, issued)
    modifies dev
    ensures dev.Valid() && retired <= r && Going(x, dev.Value(), collected, r, issued)
    ensures dev.regs == regs && dev.cleared == old(dev.cleared) && dev.rd == old(dev.rd) && |dev.wr| == old(|dev.wr|)
  {
    hide Evolve, Going;
    ghost var s := dev.Value();
    ghost var k := dev.WriteReg(regs);
    Moves(x, s, collected, retired, issued, k);
    RegsIrrelevant(x, Evolve(s, k), regs, collected, retired + k, issued);
    r := retired + k;
  }

  lemma RegsIrrelevant(x: Context, s: State, regs: QCmd, collected: nat, retired: nat, issued: nat)
    requires Going(x, s, collected, retired, issued)
    ensures Going(x, s.(regs := regs), collected, retired, issued)
  {
    var s' := s.(regs := regs);
    assert forall i :: retired <= i < issued ==> OperandsReady(s, x.b, x.work, i) ==> OperandsReady(s', x.b, x.work, i);
    assert forall i :: collected <= i < retired ==> ResultReady(s, x.b, x.work, i) ==> ResultReady(s', x.b, x.work, i);
  }

  /** The slot of job `issued` and what is to be stored there. */
  predicate SlotOperand(x: Context, issued: nat, at: nat, data: Mat8) {
    |x.b.w| == |x.b.a| == 4 && Packed(x.work) && issued < |x.work| &&
    ((at == x.b.w[issued % 4] && data == x.work[issued].w) || (at == x.b.a[issued % 4] && data == x.work[issued].a))
  }

  lemma SlotReady(x: Context, s: State, collected: nat, retired: nat, issued: nat, at: nat, data: Mat8)
    requires Going(x, s, collected, retired, issued) && issued < collected + 4 && SlotOperand(x, issued, at, data)
    ensures Shape(data, |data|, TILE) && at + |Flat(data)| <= |s.rd|
    ensures forall j :: 0 <= j < |s.queue| ==> Unread(s.queue[j], at, |Flat(data)|)
  {
    SlotFree(s, x.b, x.work, collected, retired, issued, at, |Flat(data)|);
  }

  lemma OperandStored(x: Context, s: State, collected: nat, retired: nat, issued: nat, at: nat, data: Mat8)
    requires Going(x, s, collected, retired, issued) && issued < collected + 4 && SlotOperand(x, issued, at, data)
    ensures Shape(data, |data|, TILE) && at + |Flat(data)| <= |s.rd|
    ensures Going(x, s.(rd := Store(s.rd, at, Flat(data))), collected, retired, issued)
  {
    StoreKeeps(s, x.b, x.work, collected, retired, issued, at, Flat(data));
  }

  /** Stores one tile into its slot. */
  method StoreOperand(dev: Device, at: nat, data: Mat8, ghost x: Context, ghost collected: nat, ghost retired: nat, ghost issued: nat)
    returns (ghost r: nat)
    requires dev.Valid() && Going(x, dev.Value(), collected, retired, issued)
    requires issued < collected + 4 && SlotOperand(x, issued, at, data)
    modifies dev
    ensures dev.Valid() && retired <= r && Going(x, dev.Value(), collected, r, issued) && dev.cleared == old(dev.cleared)
    ensures Shape(data, |data|, TILE) && at + |Flat(data)| <= old(|dev.rd|) && |dev.wr| == old(|dev.wr|)
    ensures dev.rd == Store(old(dev.rd), at, Flat(data))
  {
    hide Evolve, Going, SlotOperand, Flat, Store, Unread;
    ghost var s := dev.Value();
    SlotReady(x, s, collected, retired, issued, at, data);
    ghost var k := dev.MemWrite(at, Flat(data));
    Moves(x, s, collected, retired, issued, k);
    OperandStored(x, Evolve(s, k), collected, retired + k, issued, at, data);
    r := retired + k;
  }

  /** Both operands are in the slot once the second store is done. */
  lemma BothStored(x: Context, rd: seq<Int8>, issued: nat)
    requires Packed(x.work) && issued < |x.work| && Slots(x.b, |rd|, |x.s0.wr|)
    ensures var rd1 := Store(rd, x.b.w[issued % 4], Flat(x.work[issued].w));
      var rd2 := Store(rd1, x.b.a[issued % 4], Flat(x.work[issued].a));
      RowsAt(rd2, x.b.w[issued % 4], 4) == x.work[issued].w && RowsAt(rd2, x.b.a[issued % 4], |x.work[issued].a|) == x.work[issued].a
  {
    var w, a := x.b.w[issued % 4], x.b.a[issued % 4];
    StoreRowsAt(rd, w, x.work[issued].w);
    var rd1 := Store(rd, w, Flat(x.work[issued].w));
    StoreRowsAt(rd1, a, x.work[issued].a);
    StoreElsewhere(rd1, a, Flat(x.work[issued].a), w, 4);
  }

  /** Packs one tile's operands into its slot and queues the command. */
  method IssueTile(dev: Device, b: Buffers, slot: nat, wt: Mat8, at: Mat8, mc: nat,
                   ghost x: Context, ghost collected: nat, ghost retired: nat, ghost issued: nat) returns (ghost r: nat)
    requires dev.Valid() && Going(x, dev.Value(), collected, retired, issued) && issued < collected + 4 && issued < |x.work|
    requires b == x.b && slot == issued % 4 && wt == x.work[issued].w && at == x.work[issued].a && mc == |x.work[issued].a|
    modifies dev
    ensures dev.Valid() && retired <= r && Going(x, dev.Value(), collected, r, issued + 1) && dev.cleared == old(dev.cleared)
  {
    assert Slots(b, |dev.rd|, |x.s0.wr|) && |dev.wr| == |x.s0.wr| && Packed(x.work);
    BothStored(x, dev.rd, issued);
    var c := QCmd(b.w[slot], b.a[slot], b.c[slot], mc);
    assert c == CmdOf(b, mc, issued) && SlotOperand(x, issued, b.w[slot], wt) && SlotOperand(x, issued, b.a[slot], at);
    hide Evolve, Going, SlotOperand, Flat, Store, Slots, RowsAt, CmdOf;
    r := StoreOperand(dev, b.w[slot], wt, x, collected, retired, issued);
    r := StoreOperand(dev, b.a[slot], at, x, collected, r, issued);
    r := WriteRegs(dev, c, x, collected, r, issued);
    r := Queue(dev, x, collected, r, issued);
  }

  /** With fewer than four jobs uncollected the FIFO has room, so the command is not dropped. */
  lemma RoomInQueue(x: Context, s: State, collected: nat, retired: nat, issued: nat)
    requires Going(x, s, collected, retired, issued) && issued < collected + 4 && issued < |x.work|
    ensures |s.queue| < 4 && |x.b.w| == |x.b.a| == |x.b.c| == 4
    ensures s.regs == CmdOf(x.b, |x.work[issued].a|, issued) ==> CmdFits(s.regs, |s.rd|, |s.wr|)
  {
  }

  method Queue(dev: Device, ghost x: Context, ghost collected: nat, ghost retired: nat, ghost issued: nat) returns (ghost r: nat)
    requires dev.Valid() && Going(x, dev.Value(), collected, retired, issued) && issued < collected + 4 && issued < |x.work|
    requires Slots(x.b, |dev.rd|, |dev.wr|) && Packed(x.work) && dev.regs == CmdOf(x.b, |x.work[issued].a|, issued)
    requires OperandsReady(dev.Value(), x.b, x.work, issued)
    modifies dev
    ensures dev.Valid() && retired <= r && Going(x, dev.Value(), collected, r, issued + 1) && dev.cleared == old(dev.cleared)
  {
    hide Evolve, Going, OperandsReady, CmdOf, CmdFits, Slots;
    ghost var s := dev.Value();
    RoomInQueue(x, s, collected, retired, issued);
    ghost var k, queued := dev.WriteCmd();
    Moves(x, s, collected, retired, issued, k);
    JobQueued(x, s, Evolve(s, k), collected, retired + k, issued);
    r := retired + k;
  }

  lemma JobQueued(x: Context, s: State, s': State, collected: nat, retired: nat, issued: nat)
    requires Going(x, s', collected, retired, issued) && issued < collected + 4 && issued < |x.work|
    requires s'.rd == s.rd && |s'.wr| == |s.wr| && s'.regs == CmdOf(x.b, |x.work[issued].a|, issued)
    requires Slots(x.b, |s.rd|, |s.wr|) && OperandsReady(s, x.b, x.work, issued)
    ensures Going(x, s'.(queue := s'.queue + [s'.regs], accepted := s'.accepted + 1), collected, retired, issued + 1)
  {
    assert OperandsReady(s', x.b, x.work, issued);
    IssueKeeps(s', x.b, x.work, collected, retired, issued);
  }

  /** Reads the oldest result back. */
  method ReadResult(dev: Device, at: nat, mc: nat, ghost x: Context, ghost collected: nat, ghost retired: nat, ghost issued: nat)
    returns (ct: seq<Int32>, ghost r: nat)
    requires dev.Valid() && Going(x, dev.Value(), collected, retired, issued) && collected < retired
    requires |x.b.c| == 4 && collected < |x.work| && at == x.b.c[collected % 4] && mc == |x.work[collected].a|
    modifies dev
    ensures dev.Valid() && retired <= r && Going(x, dev.Value(), collected + 1, r, issued) && dev.cleared == old(dev.cleared)
    ensures Packed(x.work) && collected < |x.work| && |ct| == 4 * mc && RowsAt(ct, 0, mc) == x.work[collected].Product()
  {
    hide Going, Evolve, Slots;
    ghost var s := dev.Value();
    CanRead(x, s, collected, retired, issued);
    ghost var k;
    ct, k := dev.MemRead(at, 4 * mc);
    Moves(x, s, collected, retired, issued, k);
    r := retired + k;
    ResultRead(x, Evolve(s, k), collected, r, issued, ct);
  }

  lemma CanRead(x: Context, s: State, collected: nat, retired: nat, issued: nat)
    requires Going(x, s, collected, retired, issued) && collected < retired
    ensures Slots(x.b, |s.rd|, |s.wr|) && Packed(x.work) && collected < |x.work|
    ensures x.b.c[collected % 4] + 4 * |x.work[collected].a| <= |s.wr|
    ensures forall j :: 0 <= j < |s.queue| ==> Disjoint(s.queue[j].c, 4 * s.queue[j].m, x.b.c[collected % 4], 4 * |x.work[collected].a|)
  {
    CollectKeeps(s, x.b, x.work, collected, retired, issued);
  }

  lemma ResultRead(x: Context, s: State, collected: nat, retired: nat, issued: nat, ct: seq<Int32>)
    requires Going(x, s, collected, retired, issued) && collected < retired && collected < |x.work| && |x.b.c| == 4
    requires var at := x.b.c[collected % 4]; at + 4 * |x.work[collected].a| <= |s.wr| && ct == s.wr[at..at + 4 * |x.work[collected].a|]
    ensures Going(x, s, collected + 1, retired, issued)
    ensures RowsAt(ct, 0, |x.work[collected].a|) == x.work[collected].Product()
  {
    CollectKeeps(s, x.b, x.work, collected, retired, issued);
    var at, mc := x.b.c[collected % 4], |x.work[collected].a|;
    forall i | 0 <= i < mc
      ensures RowsAt(ct, 0, mc)[i] == RowsAt(s.wr, at, mc)[i]
    {
    }
  }

  /** A block begins with nothing in flight. */
  lemma BlockBegins(x: Context)
    requires x.s0.Valid() && x.s0.queue == [] && Packed(x.work) && Slots(x.b, |x.s0.rd|, |x.s0.wr|)
    ensures Going(x, x.s0, 0, 0, 0)
  {
  }
}
