/** sched/coproc_backend.py: one tile product of any height, cut into chunks of at most 1024 rows that are
    queued four at a time. */
module ChunkedBackend {
  import opened Arith
  import opened Tiling
  import opened Coproc
  import opened SlotQueue

  datatype Chunk = Chunk(row0: nat, rows: nat)

  /** The chunks of `m` rows; no rows still make one empty chunk. */
  function Chunks(m: nat): (chunks: seq<Chunk>)
    ensures |chunks| > 0
  {
    if m == 0 then [Chunk(0, 0)]
    else seq((m + 1023) / 1024, i requires 0 <= i < (m + 1023) / 1024 => Chunk(1024 * i, Min(1024, m - 1024 * i)))
  }

  /** Every row lies in exactly one chunk, and no chunk is longer than a command may be. */
  lemma ChunksPartition(m: nat, row: nat, i: nat)
    requires row < m && i < |Chunks(m)|
    ensures var c := Chunks(m)[i]; c.rows <= 1024 && c.row0 + c.rows <= m && (c.row0 <= row < c.row0 + c.rows <==> i == row / 1024)
    ensures row / 1024 < |Chunks(m)|
  {
  }

  lemma ChunkAt(m: nat, i: nat)
    requires i < |Chunks(m)|
    ensures Chunks(m)[i] == Chunk(1024 * i, Min(1024, m - 1024 * i))
    ensures i + 1 < |Chunks(m)| ==> 1024 * (i + 1) < m
    ensures i + 1 == |Chunks(m)| ==> m <= 1024 * (i + 1)
  {
  }

  method MakeChunks(m: nat) returns (chunks: seq<Chunk>)
    ensures chunks == Chunks(m)
  {
    chunks := [];
    var m0 := 0;
    while m0 < m
      invariant m0 == 1024 * |chunks| && |chunks| <= |Chunks(m)| && (m0 >= m ==> m == 0 || |chunks| == |Chunks(m)|)
      invariant if m > 0 then chunks == Chunks(m)[..|chunks|] else chunks == []
      invariant |chunks| == |Chunks(m)| ==> m <= m0
      decreases m - m0
    {
      ChunkAt(m, |chunks|);
      chunks := chunks + [Chunk(m0, Min(1024, m - m0))];
      m0 := m0 + 1024;
    }
    assert m > 0 ==> chunks == Chunks(m);
    if chunks == [] { chunks := [Chunk(0, 0)]; }
  }

  /** The backend's fixed slots: 1028 four-byte words of operands each, and 1024 rows of results. */
  function Layout(): (b: Buffers)
    ensures |b.w| == |b.a| == |b.c| == 4
  {
    Buffers(seq(4, s requires 0 <= s < 4 => s * 1028 * 4), seq(4, s requires 0 <= s < 4 => s * 1028 * 4 + 4 * 4),
            seq(4, s requires 0 <= s < 4 => s * 1024 * 4))
  }

  /** The slots do not overlap, in any memory large enough to hold them. */
  lemma LayoutIsDisjoint(rdSize: nat, wrSize: nat)
    requires rdSize >= 4 * 1028 * 4 && wrSize >= 4 * 1024 * 4
    ensures Slots(Layout(), rdSize, wrSize)
  {
  }

  // --- one batch ---

  /** The commands of a batch. */
  function BatchWork(batch: seq<Chunk>, at: Mat8, wt: Mat8): (work: seq<Work>)
    requires forall j :: 0 <= j < |batch| ==> batch[j].row0 + batch[j].rows <= |at|
    ensures |work| == |batch|
  {
    seq(|batch|, j requires 0 <= j < |batch| => Work(at[batch[j].row0..batch[j].row0 + batch[j].rows], wt))
  }

  predicate BatchFits(batch: seq<Chunk>, m: nat) {
    |batch| <= 4 && forall j :: 0 <= j < |batch| ==> batch[j].rows <= 1024 && batch[j].row0 + batch[j].rows <= m
  }

  /** Queues a command for each chunk of the batch, in a slot of its own. */
  method Enqueue(dev: Device, batch: seq<Chunk>, at: Mat8, wt: Mat8, ghost x: Context) returns (ghost r: nat)
    requires Shape(at, |at|, TILE) && Shape(wt, TILE, TILE) && BatchFits(batch, |at|)
    requires x.work == BatchWork(batch, at, wt) && x.b == Layout()
    requires dev.Valid() && Going(x, dev.Value(), 0, 0, 0)
    modifies dev
    ensures dev.Valid() && Going(x, dev.Value(), 0, r, |batch|)
  {
    hide Going, Layout;
    r := 0;
    for slot := 0 to |batch|
      invariant dev.Valid() && Going(x, dev.Value(), 0, r, slot)
    {
      var c := batch[slot];
      r := IssueTile(dev, Layout(), slot, wt, at[c.row0..c.row0 + c.rows], c.rows, x, 0, r, slot);
    }
  }

  /** With the FIFO empty and the datapath idle every command of the batch is computed. */
  lemma AllRetired(x: Context, s: State, r: nat)
    requires Going(x, s, 0, r, |x.work|)
    ensures Going(x, Evolve(s, |s.queue|), 0, |x.work|, |x.work|)
  {
    Moves(x, s, 0, r, |x.work|, |s.queue|);
  }

  /** The first `rows` rows of the result are computed. */
  predicate RowsDone(ct: Mat32, at: Mat8, wt: Mat8, rows: nat)
    requires Shape(at, |at|, TILE) && Shape(wt, TILE, TILE)
  {
    |ct| == |at| && forall m :: 0 <= m < |at| && m < rows ==> ct[m] == RowTimes(at[m], wt, TILE)
  }

  /** Replaces the rows of one chunk. */
  function Splice(ct: Mat32, row0: nat, rows: Mat32): (t: Mat32)
    requires row0 + |rows| <= |ct|
    ensures |t| == |ct|
  {
    ct[..row0] + rows + ct[row0 + |rows|..]
  }

  lemma ChunkSpliced(ct: Mat32, at: Mat8, wt: Mat8, c: Chunk, rows: Mat32)
    requires Shape(at, |at|, TILE) && Shape(wt, TILE, TILE) && c.row0 + c.rows <= |at| && RowsDone(ct, at, wt, c.row0)
    requires rows == MatMul(at[c.row0..c.row0 + c.rows], wt, TILE, TILE)
    ensures RowsDone(Splice(ct, c.row0, rows), at, wt, c.row0 + c.rows)
  {
  }

  /** Reads one chunk's result back into its rows; an empty chunk is skipped. */
  method ReadChunk(dev: Device, c: Chunk, slot: nat, ct0: Mat32, ghost at: Mat8, ghost wt: Mat8, ghost x: Context) returns (ct: Mat32)
    requires Shape(at, |at|, TILE) && Shape(wt, TILE, TILE) && c.row0 + c.rows <= |at| && RowsDone(ct0, at, wt, c.row0)
    requires slot < |x.work| && slot < 4 && x.work[slot] == Work(at[c.row0..c.row0 + c.rows], wt) && x.b == Layout()
    requires dev.Valid() && Going(x, dev.Value(), slot, |x.work|, |x.work|)
    modifies dev
    ensures dev.Valid() && Going(x, dev.Value(), slot + 1, |x.work|, |x.work|)
    ensures RowsDone(ct, at, wt, c.row0 + c.rows)
  {
    hide Going, Layout, RowsDone, RowTimes, MatMul, Splice, RowsAt;
    ct := ct0;
    if c.rows == 0 {
      NothingToRead(x, dev.Value(), slot, |x.work|);
    } else {
      var cells;
      ghost var r;
      cells, r := ReadResult(dev, Layout().c[slot], c.rows, x, slot, |x.work|, |x.work|);
      AtMostIssued(x, dev.Value(), slot + 1, r);
      ChunkSpliced(ct, at, wt, c, RowsAt(cells, 0, c.rows));
      ct := Splice(ct, c.row0, RowsAt(cells, 0, c.rows));
    }
  }

  /** Reads the results of the batch back into their rows. */
  method ReadBack(dev: Device, batch: seq<Chunk>, ct0: Mat32, ghost i: nat, ghost at: Mat8, ghost wt: Mat8, ghost x: Context)
    returns (ct: Mat32)
    requires Shape(at, |at|, TILE) && Shape(wt, TILE, TILE) && BatchFits(batch, |at|)
    requires i + |batch| <= |Chunks(|at|)| && batch == Chunks(|at|)[i..i + |batch|] && RowsDone(ct0, at, wt, 1024 * i)
    requires x.work == BatchWork(batch, at, wt) && x.b == Layout()
    requires dev.Valid() && Going(x, dev.Value(), 0, |batch|, |batch|)
    modifies dev
    ensures dev.Valid() && Going(x, dev.Value(), |batch|, |batch|, |batch|)
    ensures RowsDone(ct, at, wt, 1024 * (i + |batch|))
  {
    ct := ct0;
    for slot := 0 to |batch|
      invariant dev.Valid() && Going(x, dev.Value(), slot, |batch|, |batch|)
      invariant RowsDone(ct, at, wt, 1024 * (i + slot))
    {
      hide Going, Layout, RowsDone, Chunks;
      ChunkAt(|at|, i + slot);
      ct := ReadChunk(dev, batch[slot], slot, ct, at, wt, x);
      RoundedUp(ct, at, wt, 1024 * (i + slot + 1));
    }
  }

  lemma RoundedUp(ct: Mat32, at: Mat8, wt: Mat8, end: nat)
    requires Shape(at, |at|, TILE) && Shape(wt, TILE, TILE)
    ensures RowsDone(ct, at, wt, |at|) ==> RowsDone(ct, at, wt, end)
  {
  }

  lemma AtMostIssued(x: Context, s: State, collected: nat, retired: nat)
    requires Going(x, s, collected, retired, |x.work|)
    ensures retired <= |x.work|
  {
  }

  /** An empty chunk's result needs no reading. */
  lemma NothingToRead(x: Context, s: State, collected: nat, retired: nat)
    requires Going(x, s, collected, retired, |x.work|) && collected < retired
    ensures Going(x, s, collected + 1, retired, |x.work|)
  {
    CollectKeeps(s, x.b, x.work, collected, retired, |x.work|);
  }

  /** One batch: queue it, wait until the device is idle, read it back. */
  method RunBatch(dev: Device, batch: seq<Chunk>, at: Mat8, wt: Mat8, ct0: Mat32, ghost i: nat) returns (ct: Mat32)
    requires Shape(at, |at|, TILE) && Shape(wt, TILE, TILE) && BatchFits(batch, |at|)
    requires i + |batch| <= |Chunks(|at|)| && batch == Chunks(|at|)[i..i + |batch|] && RowsDone(ct0, at, wt, 1024 * i)
    requires dev.Valid() && dev.queue == [] && |dev.rd| >= 4 * 1028 * 4 && |dev.wr| >= 4 * 1024 * 4
    modifies dev
    ensures dev.Valid() && dev.queue == [] && |dev.rd| == old(|dev.rd|) && |dev.wr| == old(|dev.wr|)
    ensures dev.accepted == old(dev.accepted) + |batch| && dev.dropped == old(dev.dropped)
    ensures RowsDone(ct, at, wt, 1024 * (i + |batch|))
  {
    hide Going, Layout, RowsDone, Evolve, Slots;
    ghost var x := Context(dev.Value(), Layout(), BatchWork(batch, at, wt));
    LayoutIsDisjoint(|dev.rd|, |dev.wr|);
    BlockBegins(x);
    ghost var r := Enqueue(dev, batch, at, wt, x);
    ghost var s := dev.Value();
    dev.WaitIdle();
    AllRetired(x, s, r);
    ct := ReadBack(dev, batch, ct0, i, at, wt, x);
    BatchDone(x, dev.Value());
  }

  lemma BatchDone(x: Context, s: State)
    requires Going(x, s, |x.work|, |x.work|, |x.work|)
    ensures s.queue == [] && s.accepted == x.s0.accepted + |x.work| && s.dropped == x.s0.dropped
    ensures |s.rd| == |x.s0.rd| && |s.wr| == |x.s0.wr|
  {
  }

  lemma BatchOfChunks(m: nat, i: nat, k: nat)
    requires i + k <= |Chunks(m)| && k <= 4
    ensures BatchFits(Chunks(m)[i..i + k], m)
  {
  }

  // --- a whole tile product ---

  /** The backend's contract: `At @ Wt` for any number of rows, with one command per chunk and none dropped. */
  method RunTile(dev: Device, wt: Mat8, at: Mat8) returns (ct: Mat32)
    requires Shape(at, |at|, TILE) && Shape(wt, TILE, TILE)
    requires dev.Valid() && dev.queue == [] && |dev.rd| >= 4 * 1028 * 4 && |dev.wr| >= 4 * 1024 * 4
    modifies dev
    ensures dev.Valid() && dev.queue == []
    ensures ct == MatMul(at, wt, TILE, TILE)
    ensures dev.accepted == old(dev.accepted) + |Chunks(|at|)| && dev.dropped == old(dev.dropped)
  {
    var chunks := MakeChunks(|at|);
    ct := seq(|at|, m => Zeros32(4));
    var i := 0;
    while i < |chunks|
      invariant i <= |chunks| && RowsDone(ct, at, wt, 1024 * i)
      invariant dev.Valid() && dev.queue == [] && |dev.rd| == old(|dev.rd|) && |dev.wr| == old(|dev.wr|)
      invariant dev.accepted == old(dev.accepted) + i && dev.dropped == old(dev.dropped)
    {
      hide RowsDone, Chunks, BatchFits;
      var k := if |chunks| - i > 4 then 4 else |chunks| - i;
      var batch := chunks[i..i + k];
      BatchOfChunks(|at|, i, k);
      ct := RunBatch(dev, batch, at, wt, ct, i);
      i := i + |batch|;
    }
    ChunkAt(|at|, |chunks| - 1);
    assert ct == MatMul(at, wt, TILE, TILE);
  }
}
