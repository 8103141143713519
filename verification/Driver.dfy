/** sw/coproc_driver.h: tiled matrix multiplication through the four-deep command queue, with the
    hardware retiring commands between any two driver actions. */
module Driver {
  import opened Arith
  import opened Tiling
  import opened Coproc
  import opened SlotQueue
  import Tiler
  import IrqProtocol

  const MAXROWS := 1024

  /** One block of at most 1024 activation rows against the whole weight matrix. */
  datatype Block = Block(a: Mat8, w: Mat8, n: nat) {
    predicate Valid() { |a| <= MAXROWS && Shape(a, |a|, |w|) && Shape(w, |w|, n) }

    function Jobs(): seq<Tile> { Plan(Tiles(|w|), Tiles(n)) }

    function At(i: nat): (t: Mat8) requires i < |Jobs()| ensures Shape(t, |a|, TILE) { ATile(a, Jobs()[i].kt) }

    function Wt(i: nat): (t: Mat8) requires i < |Jobs()| ensures Shape(t, TILE, TILE) { WTile(w, Jobs()[i].kt, Jobs()[i].nt) }

    function Product(i: nat): (t: Mat32) requires i < |Jobs()| ensures Shape(t, |a|, TILE) { MatMul(At(i), Wt(i), TILE, TILE) }

    function Operands(): (work: seq<Work>) ensures |work| == |Jobs()| { seq(|Jobs()|, i requires 0 <= i < |Jobs()| => Work(At(i), Wt(i))) }
  }

  // --- the driver ---

  method PackWTile(w: Mat8, n: nat, kt: nat, nt: nat) returns (out: Mat8)
    requires Shape(w, |w|, n)
    ensures out == WTile(w, kt, nt)
  {
    out := [];
    for i := 0 to 4
      invariant out == WTile(w, kt, nt)[..i]
    {
      var row: Row8 := [];
      for j := 0 to 4
        invariant row == WTile(w, kt, nt)[i][..j]
      {
        var r, c := kt * 4 + i, nt * 4 + j;
        WTileAt(w, kt, nt, i, j);
        row := row + [if r < |w| && c < n then w[r][c] else 0];
      }
      assert row == WTile(w, kt, nt)[i];
      out := out + [row];
    }
  }

  method PackATile(a: Mat8, k: nat, m0: nat, mc: nat, kt: nat) returns (out: Mat8)
    requires Shape(a, |a|, k) && m0 + mc <= |a|
    ensures out == ATile(a[m0..m0 + mc], kt)
  {
    out := [];
    for m := 0 to mc
      invariant out == ATile(a[m0..m0 + mc], kt)[..m]
    {
      var row: Row8 := [];
      for j := 0 to 4
        invariant row == PadRow(a[m0 + m], kt)[..j]
      {
        var r, c := m0 + m, kt * 4 + j;
        row := row + [if r < |a| && c < k then a[r][c] else 0];
      }
      assert row == PadRow(a[m0 + m], kt) == ATile(a[m0..m0 + mc], kt)[m];
      out := out + [row];
    }
  }

  /** Clearing the interrupt flag. */
  lemma Cleared(x: Context, s: State, collected: nat, retired: nat, issued: nat)
    requires Going(x, s, collected, retired, issued) && x.s0.irqEn
    ensures Going(x, s.(irqEn := true, pending := false, cleared := s.cleared + if s.pending then 1 else 0), collected, retired, issued)
  {
    var s' := s.(irqEn := true, pending := false, cleared := s.cleared + if s.pending then 1 else 0);
    assert forall i :: retired <= i < issued ==> OperandsReady(s, x.b, x.work, i) ==> OperandsReady(s', x.b, x.work, i);
    assert forall i :: collected <= i < retired ==> ResultReady(s, x.b, x.work, i) ==> ResultReady(s', x.b, x.work, i);
  }

  /** Interrupts taken in this block; each one stands for a retirement of its own. */
  function Taken(x: Context, s: State): int { s.cleared - x.s0.cleared }

  lemma TakenBound(x: Context, s: State, collected: nat, retired: nat, issued: nat)
    requires Going(x, s, collected, retired, issued) && !x.s0.pending && x.s0.irqEn
    ensures Taken(x, s) + (s.lost - x.s0.lost) + (if s.pending then 1 else 0) == retired
    ensures s.doneCount == (x.s0.doneCount + retired) % 0x1_0000 && s.irqEn && s.lost >= x.s0.lost
    ensures |s.queue| == issued - retired && collected <= retired <= issued
  {
  }

  /** Keeps IRQ_EN set and clears IRQ_PENDING. */
  method ClearFlag(dev: Device, ghost x: Context, ghost collected: nat, ghost retired: nat, ghost issued: nat) returns (ghost r: nat)
    requires dev.Valid() && x.s0.irqEn && dev.pending && Going(x, dev.Value(), collected, retired, issued)
    modifies dev
    ensures dev.Valid() && retired <= r && Going(x, dev.Value(), collected, r, issued)
    ensures dev.irqEn && !dev.pending && dev.cleared == old(dev.cleared) + 1
  {
    hide Evolve, Going, QueueFits;
    ghost var s := dev.Value();
    ghost var k := dev.WriteIrq(true, true);
    Moves(x, s, collected, retired, issued, k);
    r := retired + k;
    EvolveTotals(s, k);
    Cleared(x, Evolve(s, k), collected, r, issued);
  }

  /** One round of the wait: sleep until the interrupt, clear it, read the counter. */
  method WaitOnce(dev: Device, ghost x: Context, ghost collected: nat, ghost retired: nat, ghost issued: nat)
    returns (ok: bool, dc: nat, ghost r: nat)
    requires dev.Valid() && dev.irqEn && x.s0.irqEn && Going(x, dev.Value(), collected, retired, issued)
    modifies dev
    ensures dev.Valid() && retired <= r && Going(x, dev.Value(), collected, r, issued)
    ensures ok ==> dev.cleared == old(dev.cleared) + 1 && dc == dev.doneCount
    ensures !ok ==> dev.cleared == old(dev.cleared) && !dev.pending && dev.queue == []
  {
    hide Evolve, Going;
    ghost var s, k := dev.Value(), 0;
    ok, k := dev.WaitIrq();
    Moves(x, s, collected, retired, issued, k);
    r, dc := retired + k, 0;
    if ok {
      r := ClearFlag(dev, x, collected, r, issued);
      s := dev.Value();
      dc, k := dev.ReadDoneCount();
      Moves(x, s, collected, r, issued, k);
      r := r + k;
    }
  }

  /** Waits until at least `want` commands have retired since `base`, taking at least one interrupt.
      `ok` is false if the driver would sleep for ever. */
  method WaitRetired(dev: Device, base: nat, want: nat, ghost x: Context, ghost collected: nat, ghost retired: nat, ghost issued: nat)
    returns (ok: bool, ghost r: nat)
    requires dev.Valid() && dev.irqEn && x.s0.irqEn && Going(x, dev.Value(), collected, retired, issued)
    requires !x.s0.pending && base == x.s0.doneCount < 0x1_0000 && want == collected + 1 && Taken(x, dev.Value()) >= collected
    modifies dev
    ensures dev.Valid() && retired <= r && Going(x, dev.Value(), collected, r, issued)
    ensures dev.cleared >= old(dev.cleared) && (ok ==> dev.cleared > old(dev.cleared))
    ensures !ok ==> !dev.pending && dev.queue == []
    ensures issued <= 65535 ==> dev.cleared == old(dev.cleared) + if ok then 1 else 0
  {
    hide Going;
    r := retired;
    while true
      invariant dev.Valid() && retired <= r && Going(x, dev.Value(), collected, r, issued)
      invariant dev.irqEn && Taken(x, dev.Value()) >= collected && dev.cleared >= old(dev.cleared)
      invariant issued <= 65535 ==> dev.cleared == old(dev.cleared)
      decreases issued - Taken(x, dev.Value())
    {
      ghost var before := dev.Value();
      TakenBound(x, before, collected, r, issued);
      var dc;
      ok, dc, r := WaitOnce(dev, x, collected, r, issued);
      TakenBound(x, dev.Value(), collected, r, issued);
      if !ok { return; }
      if issued <= 65535 { IrqProtocol.CountReached(base, r, want); }
      if IrqProtocol.CountSince(dc, base) >= want { return; }
    }
  }

  // --- the handshake ---

  /** The handshake machine's view of a block in progress. */
  function Handshake(x: Context, s: State, pc: IrqProtocol.Pc, collected: nat, retired: nat, issued: nat): IrqProtocol.State
    requires s.cleared >= x.s0.cleared && s.lost >= x.s0.lost
  {
    IrqProtocol.State(pc, issued, collected, retired, s.pending, s.cleared - x.s0.cleared, s.lost - x.s0.lost)
  }

  /** A block begins in the handshake machine's initial state. */
  lemma HandshakeBegins(x: Context)
    requires !x.s0.pending
    ensures Handshake(x, x.s0, IrqProtocol.Issuing, 0, 0, 0) == IrqProtocol.Init()
  {
  }

  /** Everything the driver and the device do to a block is a step of the handshake machine: a retirement; the flag
      going down after a wakeup; the comparison of the counter; a command queued while there is room. */
  lemma StepsOfTheHandshake(x: Context, s: State, collected: nat, retired: nat, issued: nat)
    requires Going(x, s, collected, retired, issued) && x.s0.doneCount < 0x1_0000
    ensures s.cleared >= x.s0.cleared && s.lost >= x.s0.lost
    ensures retired < issued ==> s.queue != [] && forall pc ::
      IrqProtocol.RetireStep(Handshake(x, s, pc, collected, retired, issued), Handshake(x, Retire(s), pc, collected, retired + 1, issued))
    ensures var m := IrqProtocol.Setup(|x.work|, x.s0.doneCount);
      (s.pending ==> IrqProtocol.DriverStep(m, Handshake(x, s, IrqProtocol.Waiting, collected, retired, issued),
                                            Handshake(x, s, IrqProtocol.Woken, collected, retired, issued))) &&
      IrqProtocol.DriverStep(m, Handshake(x, s, IrqProtocol.Woken, collected, retired, issued),
        Handshake(x, s.(irqEn := true, pending := false, cleared := s.cleared + if s.pending then 1 else 0), IrqProtocol.Reading, collected, retired, issued)) &&
      IrqProtocol.DriverStep(m, Handshake(x, s, IrqProtocol.Reading, collected, retired, issued),
        if IrqProtocol.CountSince(s.doneCount, x.s0.doneCount) >= collected + 1
        then Handshake(x, s, IrqProtocol.Issuing, collected + 1, retired, issued)
        else Handshake(x, s, IrqProtocol.Waiting, collected, retired, issued)) &&
      (collected < |x.work| ==> IrqProtocol.DriverStep(m, Handshake(x, s, IrqProtocol.Issuing, collected, retired, issued),
        if issued < |x.work| && issued < collected + 4 then Handshake(x, s, IrqProtocol.Issuing, collected, retired, issued + 1)
        else Handshake(x, s, IrqProtocol.Waiting, collected, retired, issued)))
  {
    hide InFlight, WriteRows;
    QueueLength(s, x.b, x.work, collected, retired, issued);
  }

  // --- a block of rows ---

  /** Rows `m0 .. m0 + |a|` of C hold the sums of the first `collected` jobs. */
  ghost predicate Summed(c: array2<Int32>, m0: nat, blk: Block, collected: nat)
    requires blk.Valid() && collected <= |blk.Jobs()| && m0 + |blk.a| <= c.Length0 && c.Length1 == blk.n
    reads c
  {
    forall m, col :: m0 <= m < m0 + |blk.a| && 0 <= col < blk.n ==>
      c[m, col] == Tiler.Partial(blk.a[m - m0], blk.w, col, blk.Jobs(), collected)
  }

  twostate predicate OtherRowsKept(c: array2<Int32>, m0: nat, mc: nat)
    reads c
  {
    forall m, col :: 0 <= m < c.Length0 && 0 <= col < c.Length1 && !(m0 <= m < m0 + mc) ==> c[m, col] == old(c[m, col])
  }

  method ZeroRows(c: array2<Int32>, m0: nat, mc: nat, n: nat)
    requires m0 + mc <= c.Length0 && c.Length1 == n
    modifies c
    ensures forall m, col :: m0 <= m < m0 + mc && 0 <= col < n ==> c[m, col] == 0
    ensures OtherRowsKept(c, m0, mc)
  {
    for col := 0 to n
      invariant forall m, j :: m0 <= m < m0 + mc && 0 <= j < col ==> c[m, j] == 0
      invariant OtherRowsKept(c, m0, mc)
    {
      for m := 0 to mc
        invariant forall i, j :: m0 <= i < m0 + mc && 0 <= j < n && (j < col || (j == col && i < m0 + m)) ==> c[i, j] == 0
        invariant OtherRowsKept(c, m0, mc)
      {
        c[m0 + m, col] := 0;
      }
    }
  }

  /** Adds one tile product to its columns of one row. */
  method AddRow(c: array2<Int32>, row: nat, nt: nat, ct: Row32, ghost a: Row8, ghost w: Mat8, ghost jobs: seq<Tile>, ghost i: nat)
    requires row < c.Length0 && |ct| == 4 && i < |jobs| && jobs[i].nt == nt
    requires forall j :: 0 <= j < 4 ==> ct[j] == Wrap32(TileDot(a, w, nt * 4 + j, jobs[i].kt))
    requires forall col :: 0 <= col < c.Length1 ==> c[row, col] == Tiler.Partial(a, w, col, jobs, i)
    modifies c
    ensures forall col :: 0 <= col < c.Length1 ==> c[row, col] == Tiler.Partial(a, w, col, jobs, i + 1)
    ensures OtherRowsKept(c, row, 1)
  {
    for j := 0 to 4
      invariant forall col :: 0 <= col < c.Length1 ==>
        c[row, col] == Tiler.Partial(a, w, col, jobs, if nt * 4 <= col < nt * 4 + j then i + 1 else i)
      invariant OtherRowsKept(c, row, 1)
    {
      var col := nt * 4 + j;
      if col < c.Length1 {
        Tiler.PartialStep(a, w, col, jobs, i);
        c[row, col] := Wrap32(c[row, col] + ct[j]);
      }
    }
    forall col | 0 <= col < c.Length1 && !(nt * 4 <= col < nt * 4 + 4)
      ensures Tiler.Partial(a, w, col, jobs, i + 1) == Tiler.Partial(a, w, col, jobs, i)
    {
      Tiler.PartialStep(a, w, col, jobs, i);
    }
  }

  /** Adds the product read back for job `i` to the block's rows. */
  method AddTile(c: array2<Int32>, m0: nat, mc: nat, nt: nat, ct: seq<Int32>, ghost blk: Block, ghost i: nat)
    requires blk.Valid() && i < |blk.Jobs()| && m0 + mc <= c.Length0 && c.Length1 == blk.n && mc == |blk.a|
    requires nt == blk.Jobs()[i].nt && |ct| == 4 * mc && RowsAt(ct, 0, mc) == blk.Product(i)
    requires Summed(c, m0, blk, i)
    modifies c
    ensures Summed(c, m0, blk, i + 1) && OtherRowsKept(c, m0, mc)
  {
    for m := 0 to mc
      invariant forall r, col :: m0 <= r < m0 + m && 0 <= col < blk.n ==>
        c[r, col] == Tiler.Partial(blk.a[r - m0], blk.w, col, blk.Jobs(), i + 1)
      invariant forall r, col :: m0 + m <= r < m0 + mc && 0 <= col < blk.n ==>
        c[r, col] == Tiler.Partial(blk.a[r - m0], blk.w, col, blk.Jobs(), i)
      invariant OtherRowsKept(c, m0, mc)
    {
      var row := ct[4 * m..4 * m + 4];
      ProductRow(blk, i, m, row, ct);
      hide Tiler.Partial, RowsAt, TileDot;
      AddRow(c, m0 + m, nt, row, blk.a[m], blk.w, blk.Jobs(), i);
    }
  }

  lemma ProductRow(blk: Block, i: nat, m: nat, row: Row32, ct: seq<Int32>)
    requires blk.Valid() && i < |blk.Jobs()| && m < |blk.a|
    requires |ct| == 4 * |blk.a| && RowsAt(ct, 0, |blk.a|) == blk.Product(i) && row == ct[4 * m..4 * m + 4]
    ensures forall j :: 0 <= j < 4 ==> row[j] == Wrap32(TileDot(blk.a[m], blk.w, blk.Jobs()[i].nt * 4 + j, blk.Jobs()[i].kt))
  {
    assert RowsAt(ct, 0, |blk.a|)[m] == row;
    forall j | 0 <= j < 4
      ensures row[j] == Wrap32(TileDot(blk.a[m], blk.w, blk.Jobs()[i].nt * 4 + j, blk.Jobs()[i].kt))
    {
      Tiler.TileProduct(blk.a, blk.w, blk.Jobs()[i], m, j);
    }
  }

  /** All jobs together are the block's rows of `A @ W`. */
  lemma BlockSum(c: array2<Int32>, m0: nat, blk: Block)
    requires blk.Valid() && m0 + |blk.a| <= c.Length0 && c.Length1 == blk.n && Summed(c, m0, blk, |blk.Jobs()|)
    ensures forall m, col :: m0 <= m < m0 + |blk.a| && 0 <= col < blk.n ==> c[m, col] == RowTimes(blk.a[m - m0], blk.w, blk.n)[col]
  {
    forall m, col | m0 <= m < m0 + |blk.a| && 0 <= col < blk.n
      ensures c[m, col] == RowTimes(blk.a[m - m0], blk.w, blk.n)[col]
    {
      Tiler.PartialWhole(blk.a[m - m0], blk.w, blk.n, col, blk.Jobs());
    }
  }

  /** Keeps the queue as full as its four slots allow. */
  method Fill(dev: Device, a: Mat8, w: Mat8, k: nat, n: nat, m0: nat, mc: nat, b: Buffers, issued0: nat, collected: nat,
              ghost blk: Block, ghost x: Context, ghost retired: nat) returns (issued: nat, ghost r: nat)
    requires Shape(a, |a|, k) && Shape(w, k, n) && m0 + mc <= |a| && mc <= MAXROWS
    requires b == x.b && blk == Block(a[m0..m0 + mc], w, n) && x.work == blk.Operands()
    requires dev.Valid() && Going(x, dev.Value(), collected, retired, issued0) && collected < |blk.Jobs()|
    modifies dev
    ensures dev.Valid() && retired <= r && Going(x, dev.Value(), collected, r, issued) && collected < issued <= |blk.Jobs()|
    ensures dev.cleared == old(dev.cleared)
  {
    var nkt, nnt := Tiles(k), Tiles(n);
    var total := nnt * nkt;
    PlanLength(nkt, nnt);
    assert blk.Jobs() == Plan(nkt, nnt);
    issued, r := issued0, retired;
    while issued < total && issued - collected < QDEPTH
      invariant dev.Valid() && retired <= r && Going(x, dev.Value(), collected, r, issued) && collected <= issued
      invariant dev.cleared == old(dev.cleared)
    {
      hide Going;
      var nt, kt := issued / nkt, issued % nkt;
      PlanAt(nkt, nnt, issued);
      var wt := PackWTile(w, n, kt, nt);
      var at := PackATile(a, k, m0, mc, kt);
      r := IssueTile(dev, b, issued % 4, wt, at, mc, x, collected, r, issued);
      issued := issued + 1;
    }
  }

  /** Waits for the oldest job, reads its result back and adds it in. */
  method CollectOne(dev: Device, base: nat, collected: nat, m0: nat, mc: nat, nkt: nat, c: array2<Int32>, b: Buffers,
                    ghost blk: Block, ghost x: Context, ghost retired: nat, ghost issued: nat) returns (ok: bool, ghost r: nat)
    requires dev.Valid() && dev.irqEn && x.s0.irqEn && Going(x, dev.Value(), collected, retired, issued) && collected < issued
    requires b == x.b && |b.c| == 4 && blk.Valid() && x.work == blk.Operands() && mc == |blk.a| && nkt == Tiles(|blk.w|) && collected < |blk.Jobs()|
    requires !x.s0.pending && base == x.s0.doneCount < 0x1_0000 && Taken(x, dev.Value()) >= collected
    requires m0 + mc <= c.Length0 && c.Length1 == blk.n && Summed(c, m0, blk, collected)
    modifies dev, c
    ensures dev.Valid() && retired <= r && OtherRowsKept(c, m0, mc)
    ensures Taken(x, dev.Value()) >= old(Taken(x, dev.Value()))
    ensures issued <= 65535 ==> Taken(x, dev.Value()) == old(Taken(x, dev.Value())) + if ok then 1 else 0
    ensures ok ==> Going(x, dev.Value(), collected + 1, r, issued) && Taken(x, dev.Value()) >= collected + 1
    ensures ok ==> Summed(c, m0, blk, collected + 1)
    ensures !ok ==> Going(x, dev.Value(), collected, r, issued) && !dev.pending && dev.queue == []
  {
    hide Going, Summed;
    ok, r := WaitRetired(dev, base, collected + 1, x, collected, retired, issued);
    TakenBound(x, dev.Value(), collected, r, issued);
    if ok {
      PlanLength(nkt, Tiles(blk.n));
      assert nkt > 0;
      var nt := collected / nkt;
      PlanAt(nkt, Tiles(blk.n), collected);
      var ct;
      ct, r := ReadResult(dev, b.c[collected % 4], mc, x, collected, r, issued);
      AddTile(c, m0, mc, nt, ct, blk, collected);
    }
  }

  /** Zeroes the block's rows of C and reads the completion counter to count from. */
  method BeginBlock(dev: Device, m0: nat, mc: nat, c: array2<Int32>, ghost b: Buffers, ghost blk: Block, ghost x: Context) returns (base: nat)
    requires dev.Valid() && dev.queue == [] && !dev.pending && dev.irqEn && Slots(b, |dev.rd|, |dev.wr|)
    requires x.s0 == dev.Value() && x.b == b && blk.Valid() && x.work == blk.Operands() && mc == |blk.a|
    requires m0 + mc <= c.Length0 && c.Length1 == blk.n
    modifies dev, c
    ensures dev.Valid() && dev.Value() == x.s0 && base == x.s0.doneCount < 0x1_0000 && Going(x, x.s0, 0, 0, 0)
    ensures Summed(c, m0, blk, 0) && OtherRowsKept(c, m0, mc)
  {
    ZeroRows(c, m0, mc, c.Length1);
    ghost var none;
    base, none := dev.ReadDoneCount();
    BlockBegins(x);
  }

  /** Issues and collects all the jobs of a block. */
  method RunJobs(dev: Device, base: nat, a: Mat8, w: Mat8, k: nat, n: nat, m0: nat, mc: nat, c: array2<Int32>, b: Buffers,
                 ghost blk: Block, ghost x: Context) returns (ok: bool)
    requires Shape(a, |a|, k) && Shape(w, k, n) && m0 + mc <= |a| && mc <= MAXROWS && c.Length0 == |a| && c.Length1 == n
    requires b == x.b && |b.c| == 4 && blk == Block(a[m0..m0 + mc], w, n) && x.work == blk.Operands()
    requires dev.Valid() && dev.irqEn && x.s0 == dev.Value() && !x.s0.pending && base == x.s0.doneCount < 0x1_0000
    requires Going(x, dev.Value(), 0, 0, 0) && Summed(c, m0, blk, 0)
    modifies dev, c
    ensures dev.Valid() && OtherRowsKept(c, m0, mc) && dev.dropped == x.s0.dropped && dev.lost >= x.s0.lost
    ensures ok ==> Summed(c, m0, blk, |x.work|) && Done(x, dev.Value())
    ensures !ok && |x.work| <= 65535 ==> dev.lost > x.s0.lost
  {
    hide Going, Summed, Evolve, Slots, Block.Operands, Plan, Done, QueueFits, Tiles;
    var nkt, nnt := Tiles(k), Tiles(n);
    var total := nnt * nkt;
    PlanLength(nkt, nnt);
    hide Shape;
    var issued, collected := 0, 0;
    ghost var r := 0;
    while collected < total
      invariant dev.Valid() && dev.irqEn && Going(x, dev.Value(), collected, r, issued) && Taken(x, dev.Value()) >= collected
      invariant total <= 65535 ==> Taken(x, dev.Value()) == collected
      invariant collected <= total && Summed(c, m0, blk, collected) && OtherRowsKept(c, m0, mc)
    {
      issued, r := Fill(dev, a, w, k, n, m0, mc, b, issued, collected, blk, x, r);
      TakenBound(x, dev.Value(), collected, r, issued);
      ok, r := CollectOne(dev, base, collected, m0, mc, nkt, c, b, blk, x, r, issued);
      if !ok {
        Asleep(x, dev.Value(), collected, r, issued);
        return;
      }
      collected := collected + 1;
      TakenBound(x, dev.Value(), collected, r, issued);
    }
    Finished(x, dev.Value(), r, issued);
    return true;
  }

  /** One block of at most 1024 rows. `completed` is false if the driver ends up asleep for ever. */
  method RunBlock(dev: Device, a: Mat8, w: Mat8, k: nat, n: nat, m0: nat, mc: nat, c: array2<Int32>, b: Buffers)
    returns (completed: bool)
    requires Shape(a, |a|, k) && Shape(w, k, n) && m0 + mc <= |a| && mc <= MAXROWS && c.Length0 == |a| && c.Length1 == n
    requires dev.Valid() && dev.queue == [] && !dev.pending && dev.irqEn && Slots(b, |dev.rd|, |dev.wr|)
    modifies dev, c
    ensures dev.Valid() && OtherRowsKept(c, m0, mc)
    ensures dev.dropped == old(dev.dropped) && dev.lost >= old(dev.lost)
    ensures completed ==> dev.queue == [] && !dev.pending && dev.irqEn && Slots(b, |dev.rd|, |dev.wr|)
    ensures completed ==> forall m, col :: m0 <= m < m0 + mc && 0 <= col < n ==> c[m, col] == RowTimes(a[m], w, n)[col]
    ensures completed ==> dev.lost == old(dev.lost) && dev.accepted - old(dev.accepted) == |Plan(Tiles(k), Tiles(n))| == dev.cleared - old(dev.cleared)
    ensures !completed && |Plan(Tiles(k), Tiles(n))| <= 65535 ==> dev.lost > old(dev.lost)
  {
    assert |b.c| == 4;
    hide Going, Summed, Evolve, Slots, Plan;
    ghost var blk := Block(a[m0..m0 + mc], w, n);
    ghost var x := Context(dev.Value(), b, blk.Operands());
    var base := BeginBlock(dev, m0, mc, c, b, blk, x);
    completed := RunJobs(dev, base, a, w, k, n, m0, mc, c, b, blk, x);
    if completed { BlockSum(c, m0, blk); }
  }

  /** A block is done: nothing queued or pending, and every command raised and was answered by its own interrupt. */
  predicate Done(x: Context, s: State) {
    s.queue == [] && !s.pending && s.irqEn == x.s0.irqEn && s.lost == x.s0.lost && Slots(x.b, |s.rd|, |s.wr|) &&
    s.accepted - x.s0.accepted == |x.work| == Taken(x, s)
  }

  /** A driver asleep with nothing outstanding has lost an interrupt. */
  lemma Asleep(x: Context, s: State, collected: nat, retired: nat, issued: nat)
    requires Going(x, s, collected, retired, issued) && !x.s0.pending && !s.pending && s.queue == []
    ensures s.lost - x.s0.lost == issued - Taken(x, s) >= 0
    ensures s.dropped == x.s0.dropped && issued <= |x.work|
  {
  }

  lemma Finished(x: Context, s: State, retired: nat, issued: nat)
    requires Going(x, s, |x.work|, retired, issued) && !x.s0.pending && Taken(x, s) >= |x.work|
    ensures Done(x, s) && s.dropped == x.s0.dropped
  {
  }

  // --- the whole multiplication ---

  /** Number of row blocks. */
  function Blocks(m: nat): nat { (m + 1023) / 1024 }

  function Times(blocks: nat, jobs: nat): nat { if blocks == 0 then 0 else Times(blocks - 1, jobs) + jobs }

  /** `C = A @ W` through the command queue, under every interleaving with the hardware. If the driver
      returns, C is the int32 product, no interrupt was lost, none is pending, and exactly one was taken
      for each command issued. With at most 65535 tiles per block it returns unless an interrupt was lost. */
  method MatmulTiled(dev: Device, a: Mat8, w: Mat8, k: nat, n: nat, c: array2<Int32>, b: Buffers) returns (completed: bool)
    requires Shape(a, |a|, k) && Shape(w, k, n) && c.Length0 == |a| && c.Length1 == n
    requires dev.Valid() && dev.queue == [] && Slots(b, |dev.rd|, |dev.wr|)
    modifies dev, c
    ensures dev.Valid() && dev.dropped == old(dev.dropped)
    ensures completed ==> forall m, col :: 0 <= m < |a| && 0 <= col < n ==> c[m, col] == MatMul(a, w, k, n)[m][col]
    ensures completed ==> dev.queue == [] && !dev.pending && dev.irqEn && Slots(b, |dev.rd|, |dev.wr|)
    ensures completed ==> dev.accepted == old(dev.accepted) + Times(Blocks(|a|), |Plan(Tiles(k), Tiles(n))|)
    ensures completed ==>
      dev.cleared == old(dev.cleared) + (if old(dev.pending) then 1 else 0) + Times(Blocks(|a|), |Plan(Tiles(k), Tiles(n))|)
    ensures completed ==> dev.lost == old(dev.lost)
    ensures !completed && |Plan(Tiles(k), Tiles(n))| <= 65535 ==> dev.lost > old(dev.lost)
  {
    ghost var none := dev.WriteIrq(true, true); // IRQ_EN set, stale pending cleared
    var m0 := 0;
    ghost var blocks := 0;
    while m0 < |a|
      invariant dev.Valid() && dev.queue == [] && !dev.pending && dev.irqEn && Slots(b, |dev.rd|, |dev.wr|)
      invariant dev.dropped == old(dev.dropped) && dev.lost == old(dev.lost)
      invariant m0 == 1024 * blocks && blocks <= Blocks(|a|)
      invariant dev.accepted == old(dev.accepted) + Times(blocks, |Plan(Tiles(k), Tiles(n))|)
      invariant dev.cleared == old(dev.cleared) + (if old(dev.pending) then 1 else 0) + Times(blocks, |Plan(Tiles(k), Tiles(n))|)
      invariant forall m, col :: 0 <= m < |a| && m < m0 && 0 <= col < n ==> c[m, col] == RowTimes(a[m], w, n)[col]
      decreases |a| + 1024 - m0
    {
      var mc := if |a| - m0 > MAXROWS then MAXROWS else |a| - m0;
      completed := RunBlock(dev, a, w, k, n, m0, mc, c, b);
      if !completed { return; }
      m0 := m0 + MAXROWS;
      blocks := blocks + 1;
    }
    return true;
  }
}
