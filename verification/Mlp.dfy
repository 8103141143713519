/** sw/int8_mlp.h: two-layer int8 inference on top of the tiled driver, against the integer part of
    sched/mnist/quantize.py's `int8_forward`. */
module Mlp {
  import opened Arith
  import opened Requant
  import opened Coproc
  import opened Driver
  import opened SlotQueue
  import opened Tiling

  /** The quantised network; all sizes are parameters (784, 64 and 10 in the C code). */
  datatype Weights = Weights(nIn: nat, nHid: nat, nOut: nat, w1: Mat8, b1: Row32, w2: Mat8, b2: Row32, m0: Int32, shift: int) {
    predicate Valid() {
      Shape(w1, nIn, nHid) && |b1| == nHid && Shape(w2, nHid, nOut) && |b2| == nOut && -32 <= shift <= 94
    }
  }

  /** Requantise, then ReLU and saturate to int8. */
  function Activate(acc: Row32, m0: Int32, shift: int): (r: Row8)
    requires -32 <= shift <= 94
    ensures |r| == |acc|
  {
    seq<Int8>(|acc|, i requires 0 <= i < |acc| => Clip(ApplyRequant(acc[i], m0, shift), 0, 127))
  }

  /** The reference forward pass of one image. */
  function Forward(wt: Weights, x: Row8): (logits: Row32)
    requires wt.Valid() && |x| == wt.nIn
    ensures |logits| == wt.nOut
  {
    var h := Activate(AddBias(RowTimes(x, wt.w1, wt.nHid), wt.b1), wt.m0, wt.shift);
    AddBias(RowTimes(h, wt.w2, wt.nOut), wt.b2)
  }

  /** Biases, rescales and clips one layer's accumulators, unit by unit. */
  method ActivateLoop(acc: array2<Int32>, bias: Row32, m0: Int32, shift: int, ghost row: Row32) returns (h: Row8)
    requires acc.Length0 == 1 && acc.Length1 == |bias| == |row| && -32 <= shift <= 94
    requires forall j :: 0 <= j < |row| ==> acc[0, j] == row[j]
    ensures h == Activate(AddBias(row, bias), m0, shift)
  {
    h := [];
    for j := 0 to |bias|
      invariant h == Activate(AddBias(row, bias), m0, shift)[..j]
    {
      var r := ApplyRequant(Wrap32(acc[0, j] as int + bias[j] as int), m0, shift);
      var v := ClipRelu(r);
      h := h + [v];
    }
  }

  method BiasLoop(acc: array2<Int32>, bias: Row32, ghost row: Row32) returns (out: Row32)
    requires acc.Length0 == 1 && acc.Length1 == |bias| == |row|
    requires forall j :: 0 <= j < |row| ==> acc[0, j] == row[j]
    ensures out == AddBias(row, bias)
  {
    out := [];
    for c := 0 to |bias|
      invariant out == AddBias(row, bias)[..c]
    {
      out := out + [Wrap32(acc[0, c] as int + bias[c] as int)];
    }
  }

  /** One matrix multiplication of a single row. */
  method MatmulRow(dev: Device, x: Row8, w: Mat8, n: nat, b: Buffers) returns (completed: bool, acc: array2<Int32>)
    requires Shape(w, |x|, n) && dev.Valid() && dev.queue == [] && Slots(b, |dev.rd|, |dev.wr|)
    modifies dev
    ensures dev.Valid() && fresh(acc) && acc.Length0 == 1 && acc.Length1 == n
    ensures completed ==> forall j :: 0 <= j < n ==> acc[0, j] == RowTimes(x, w, n)[j]
    ensures completed ==> dev.queue == [] && !dev.pending && Slots(b, |dev.rd|, |dev.wr|) && dev.lost == old(dev.lost)
    ensures completed ==> dev.cleared - old(dev.cleared) == dev.accepted - old(dev.accepted) + if old(dev.pending) then 1 else 0
    ensures !completed && |Plan(Tiles(|x|), Tiles(n))| <= 65535 ==> dev.lost > old(dev.lost)
  {
    acc := new Int32[1, n]((i, j) => 0);
    completed := MatmulTiled(dev, [x], w, |x|, n, acc, b);
    assert completed ==> forall j :: 0 <= j < n ==> acc[0, j] == MatMul([x], w, |x|, n)[0][j];
  }

  /** Unit `j` of the hidden layer: the biased dot product, rescaled, then cut to 0..127. */
  predicate HiddenUnit(wt: Weights, x: Row8, j: nat, v: Int8)
    requires wt.Valid() && |x| == wt.nIn && j < wt.nHid
  {
    var r := ApplyRequant(Wrap32(Dot(x, wt.w1, j, wt.nIn) + wt.b1[j]), wt.m0, wt.shift);
    (r < 0 ==> v == 0) && (0 <= r <= 127 ==> v == r) && (r > 127 ==> v == 127)
  }

  /** The reference's logits, spelled out over the hidden layer `h`. */
  lemma ForwardEntries(wt: Weights, x: Row8) returns (h: Row8)
    requires wt.Valid() && |x| == wt.nIn
    ensures |h| == wt.nHid && forall j :: 0 <= j < wt.nHid ==> HiddenUnit(wt, x, j, h[j])
    ensures forall c :: 0 <= c < wt.nOut ==> Forward(wt, x)[c] == Wrap32(Dot(h, wt.w2, c, wt.nHid) + wt.b2[c])
  {
    hide ApplyRequant, Dot;
    h := Activate(AddBias(RowTimes(x, wt.w1, wt.nHid), wt.b1), wt.m0, wt.shift);
    forall j | 0 <= j < wt.nHid
      ensures HiddenUnit(wt, x, j, h[j])
    {
      Wrap32Add(Dot(x, wt.w1, j, wt.nIn), wt.b1[j]);
    }
    forall c | 0 <= c < wt.nOut
      ensures Forward(wt, x)[c] == Wrap32(Dot(h, wt.w2, c, wt.nHid) + wt.b2[c])
    {
      Wrap32Add(Dot(h, wt.w2, c, wt.nHid), wt.b2[c]);
    }
  }

  /** Runs one image through both layers. If it returns, the logits are the reference's, bit for bit, and
      over both calls exactly one interrupt was taken per command (plus a stale one, if there was). */
  method Infer(dev: Device, wt: Weights, x: Row8, b: Buffers) returns (completed: bool, logits: Row32, ghost hidden: Row8)
    requires wt.Valid() && |x| == wt.nIn && dev.Valid() && dev.queue == [] && Slots(b, |dev.rd|, |dev.wr|)
    modifies dev
    ensures dev.Valid()
    ensures completed ==> logits == Forward(wt, x)
    ensures |hidden| == wt.nHid && forall j :: 0 <= j < wt.nHid ==> HiddenUnit(wt, x, j, hidden[j])
    ensures completed ==> forall c :: 0 <= c < wt.nOut ==> logits[c] == Wrap32(Dot(hidden, wt.w2, c, wt.nHid) + wt.b2[c])
    ensures completed ==> dev.queue == [] && !dev.pending && Slots(b, |dev.rd|, |dev.wr|) && dev.lost == old(dev.lost)
    ensures completed ==> dev.cleared - old(dev.cleared) == dev.accepted - old(dev.accepted) + if old(dev.pending) then 1 else 0
    ensures !completed && |Plan(Tiles(wt.nIn), Tiles(wt.nHid))| <= 65535 && |Plan(Tiles(wt.nHid), Tiles(wt.nOut))| <= 65535 ==>
      dev.lost > old(dev.lost)
  {
    logits := [];
    hidden := ForwardEntries(wt, x);
    var acc1;
    completed, acc1 := MatmulRow(dev, x, wt.w1, wt.nHid, b);
    if !completed { return; }
    var h := ActivateLoop(acc1, wt.b1, wt.m0, wt.shift, RowTimes(x, wt.w1, wt.nHid));
    var acc2;
    completed, acc2 := MatmulRow(dev, h, wt.w2, wt.nOut, b);
    if !completed { return; }
    logits := BiasLoop(acc2, wt.b2, RowTimes(h, wt.w2, wt.nOut));
  }

  /** The first index of the largest logit. */
  method Argmax(logits: Row32) returns (best: nat)
    requires |logits| > 0
    ensures best < |logits|
    ensures forall c :: 0 <= c < |logits| ==> logits[c] <= logits[best]
    ensures forall c :: 0 <= c < best ==> logits[c] < logits[best]
  {
    best := 0;
    for c := 1 to |logits|
      invariant best < c
      invariant forall i :: 0 <= i < c ==> logits[i] <= logits[best]
      invariant forall i :: 0 <= i < best ==> logits[i] < logits[best]
    {
      if logits[c] > logits[best] { best := c; }
    }
  }
}
