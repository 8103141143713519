/** Layer graphs (sched/nn/layers.py, sched/nn/quant.py): the int8 forward pass through the tiled backend against
    the one written directly on whole matrices. */
module Graph {
  import opened Arith
  import opened Tiling
  import opened Requant
  import Conv
  import Tiler

  /** Four-dimensional and two-dimensional int8 tensors, and the same with int32 entries. */
  datatype Tensor =
    | Batch(x: Conv.Images)
    | Rows(cols: nat, m: Mat8)
    | Deep(n: nat, c: nat, h: nat, w: nat, acc4: seq<seq<Mat32>>)
    | Logits(cols: nat, acc: Mat32)
  {
    predicate Valid() {
      match this
      case Batch(x) => x.Valid()
      case Rows(cols, m) => Shape(m, |m|, cols)
      case Deep(n, c, h, w, acc4) =>
        |acc4| == n && (forall b :: 0 <= b < n ==> |acc4[b]| == c) && (forall b, k :: 0 <= b < n && 0 <= k < c ==> Shape(acc4[b][k], h, w))
      case Logits(cols, acc) => Shape(acc, |acc|, cols)
    }

    predicate Int8() { Batch? || Rows? }
  }

  /** Bias and fixed-point scale of a layer. */
  datatype Scale = Scale(b: Row32, m0: Int32, shift: int) {
    predicate Valid() { -32 <= shift <= 94 }
  }

  datatype Layer =
    | Conv2d(g: Conv.Kernel, q: Scale)
    | Dense(inF: nat, outF: nat, output: bool, w: Mat8, q: Scale)
    | MaxPool2x2
    | ReLU
    | Flatten
  {
    predicate Valid() {
      match this
      case Conv2d(g, q) => g.Valid() && g.kh > 0 && g.kw > 0 && |q.b| == g.out && q.Valid()
      case Dense(inF, outF, output, w, q) => Shape(w, inF, outF) && |q.b| == outF && q.Valid()
      case _ => true
    }
  }

  /** `Raises` stands for the exceptions of shapes that do not go together. `Unmodelled`: a layer other than
      ReLU is given a four-dimensional int32 tensor. */
  datatype Outcome = Ok(t: Tensor) | Raises | Unmodelled

  // --- the arithmetic of one layer ---

  /** Rescale and clip to -127..127. */
  function Requantise(acc: Row32, q: Scale): (r: Row8)
    requires |acc| == |q.b| && q.Valid()
    ensures |r| == |acc|
  {
    var biased := AddBias(acc, q.b);
    seq<Int8>(|acc|, o requires 0 <= o < |acc| => Clip(ApplyRequant(biased[o], q.m0, q.shift), -127, 127))
  }

  function RequantiseRows(acc: Mat32, q: Scale): (m: Mat8)
    requires Shape(acc, |acc|, |q.b|) && q.Valid()
    ensures Shape(m, |acc|, |q.b|)
  {
    seq<Row8>(|acc|, i requires 0 <= i < |acc| => Requantise(acc[i], q))
  }

  function AddBiasRows(acc: Mat32, b: Row32): (m: Mat32)
    requires Shape(acc, |acc|, |b|)
    ensures Shape(m, |acc|, |b|)
  {
    seq<Row32>(|acc|, i requires 0 <= i < |acc| => AddBias(acc[i], b))
  }

  /** Reads (N*OH*OW, Cout) as (N, OH, OW, Cout) and moves the channels forward. */
  function Unfold(m: Mat8, n: nat, oh: nat, ow: nat, out: nat): (x: Conv.Images)
    requires Shape(m, Conv.Count(n, oh, ow), out)
    ensures x.Valid()
  {
    Conv.Images(n, out, oh, ow, seq(n, b requires 0 <= b < n => seq(out, o requires 0 <= o < out =>
      seq(oh, i requires 0 <= i < oh => seq<Int8>(ow, j requires 0 <= j < ow =>
        Conv.AtPos(Conv.Index(b, i, j), n, oh, ow);
        m[Conv.Pos(Conv.Index(b, i, j), oh, ow)][o])))))
  }

  predicate ConvFits(g: Conv.Kernel, x: Conv.Images) { Conv.Fits(x, g.kh, g.kw) && g.c == x.c }

  function ConvOut(g: Conv.Kernel, q: Scale, x: Conv.Images): (y: Conv.Images)
    requires x.Valid() && g.Valid() && ConvFits(g, x) && |q.b| == g.out && q.Valid()
    ensures y.Valid()
  {
    var acc := MatMul(Conv.Patches(x, g.kh, g.kw), Conv.Matrix(g), Conv.Count(g.c, g.kh, g.kw), g.out);
    Unfold(RequantiseRows(acc, q), x.n, Conv.OutH(x, g.kh), Conv.OutW(x, g.kw), g.out)
  }

  function MapRow(row: Row8): (r: Row8)
    ensures |r| == |row|
  {
    seq<Int8>(|row|, i requires 0 <= i < |row| => Clip(row[i], 0, 127))
  }

  function MapRows(m: Mat8): (r: Mat8)
    ensures |r| == |m| && forall i :: 0 <= i < |m| ==> |r[i]| == |m[i]|
  {
    seq<Row8>(|m|, i requires 0 <= i < |m| => MapRow(m[i]))
  }

  function ReluImages(x: Conv.Images): (y: Conv.Images)
    requires x.Valid()
    ensures y.Valid()
  {
    x.(px := seq(x.n, b requires 0 <= b < x.n => seq(x.c, k requires 0 <= k < x.c => MapRows(x.px[b][k]))))
  }

  function ClipLogits(acc: Mat32): (m: Mat8)
    ensures |m| == |acc| && forall i :: 0 <= i < |m| ==> |m[i]| == |acc[i]|
  {
    seq<Row8>(|acc|, i requires 0 <= i < |acc| => seq<Int8>(|acc[i]|, j requires 0 <= j < |acc[i]| => Clip(acc[i][j], 0, 127)))
  }

  /** Truncation of an int32 to int8, as a numpy cast does it. */
  function Cast8(v: Int32): Int8 { (v + 0x80) % 0x100 - 0x80 }

  function CastLogits(acc: Mat32): (m: Mat8)
    ensures |m| == |acc| && forall i :: 0 <= i < |m| ==> |m[i]| == |acc[i]|
  {
    seq<Row8>(|acc|, i requires 0 <= i < |acc| => seq<Int8>(|acc[i]|, j requires 0 <= j < |acc[i]| => Cast8(acc[i][j])))
  }

  function CastImages(x: Conv.Images): (y: Conv.Images)
    requires x.Valid()
    ensures y.Valid()
  {
    x.(px := seq(x.n, b requires 0 <= b < x.n => seq(x.c, k requires 0 <= k < x.c => CastLogits(x.px[b][k]))))
  }

  /** A cast of int8 values changes nothing. */
  lemma CastKeeps(m: Mat8)
    ensures CastLogits(m) == m
  {
    forall i | 0 <= i < |m| ensures CastLogits(m)[i] == m[i] { }
  }

  lemma CastKeepsImages(x: Conv.Images)
    requires x.Valid()
    ensures CastImages(x) == x
  {
    hide CastLogits;
    forall b | 0 <= b < x.n ensures CastImages(x).px[b] == x.px[b] {
      forall k | 0 <= k < x.c ensures CastImages(x).px[b][k] == x.px[b][k] { CastKeeps(x.px[b][k]); }
    }
  }

  function ReluDeep(c: nat, acc4: seq<seq<Mat32>>): (px: seq<seq<Mat8>>)
    requires forall b :: 0 <= b < |acc4| ==> |acc4[b]| == c
    ensures |px| == |acc4| && forall b :: 0 <= b < |px| ==> |px[b]| == c
    ensures forall b, k :: 0 <= b < |px| && 0 <= k < c ==> px[b][k] == ClipLogits(acc4[b][k])
  {
    seq(|acc4|, b requires 0 <= b < |acc4| => seq(c, k requires 0 <= k < c => ClipLogits(acc4[b][k])))
  }

  /** Products of int32 activations, as the whole-matrix reference forms them. */
  function Dot32(a: Row32, w: Mat8, c: nat, n: nat): int
    requires n <= |a| && n <= |w| && forall i :: 0 <= i < n ==> c < |w[i]|
  {
    if n == 0 then 0 else Dot32(a, w, c, n - 1) + a[n-1] as int * w[n-1][c] as int
  }

  function MatMul32(a: Mat32, w: Mat8, k: nat, cols: nat): (r: Mat32)
    requires Shape(a, |a|, k) && Shape(w, k, cols)
    ensures Shape(r, |a|, cols)
  {
    seq<Row32>(|a|, m requires 0 <= m < |a| => seq<Int32>(cols, c requires 0 <= c < cols => Wrap32(Dot32(a[m], w, c, k))))
  }

  function DenseOut(l: Layer, acc: Mat32): (t: Tensor)
    requires l.Dense? && l.Valid() && Shape(acc, |acc|, l.outF)
    ensures t.Valid()
  {
    if l.output then Logits(l.outF, AddBiasRows(acc, l.q.b)) else Rows(l.outF, RequantiseRows(acc, l.q))
  }

  function Max(a: Int8, b: Int8): Int8 { if a < b then b else a }

  /** Splitting both axes in two needs even sizes, unless there is nothing to split. */
  predicate Pools(x: Conv.Images) { (x.h % 2 == 0 && x.w % 2 == 0) || x.n == 0 || x.c == 0 || x.h == 0 || x.w == 0 }

  function Pooled(x: Conv.Images): (y: Conv.Images)
    requires x.Valid()
    ensures y.Valid()
  {
    Conv.Images(x.n, x.c, x.h / 2, x.w / 2, seq(x.n, b requires 0 <= b < x.n => seq(x.c, k requires 0 <= k < x.c =>
      seq(x.h / 2, i requires 0 <= i < x.h / 2 => seq<Int8>(x.w / 2, j requires 0 <= j < x.w / 2 =>
        Max(Max(x.px[b][k][2 * i][2 * j], x.px[b][k][2 * i][2 * j + 1]),
            Max(x.px[b][k][2 * i + 1][2 * j], x.px[b][k][2 * i + 1][2 * j + 1])))))))
  }

  /** `x.reshape(N, -1)`; without any row the other size cannot be inferred. */
  function Flat(x: Conv.Images): (m: Mat8)
    requires x.Valid()
    ensures Shape(m, x.n, Conv.Count(x.c, x.h, x.w))
  {
    seq<Row8>(x.n, b requires 0 <= b < x.n => seq<Int8>(Conv.Count(x.c, x.h, x.w), k requires 0 <= k < Conv.Count(x.c, x.h, x.w) =>
      var q := Conv.At(k, x.c, x.h, x.w);
      x.px[b][q.a][q.i][q.j]))
  }

  // --- one layer, both ways ---

  /** The whole-matrix reference, sched/nn/quant.py's pure_numpy_int8_forward, on one layer. */
  function PureLayer(l: Layer, t: Tensor): (r: Outcome)
    requires l.Valid() && t.Valid()
    ensures r.Ok? ==> r.t.Valid()
  {
    match (l, t)
    case (Conv2d(g, q), Batch(x)) => if ConvFits(g, x) then Ok(Batch(ConvOut(g, q, x))) else Raises
    case (Conv2d(g, q), Rows(_, _)) => Raises
    case (Conv2d(g, q), Logits(_, _)) => Raises
    case (Dense(inF, outF, output, w, q), Rows(cols, m)) =>
      if cols != inF then Raises else Ok(DenseOut(l, MatMul(m, w, inF, outF)))
    case (Dense(inF, outF, output, w, q), Logits(cols, acc)) =>
      if cols != inF then Raises else Ok(DenseOut(l, MatMul32(acc, w, inF, outF)))
    case (Dense(inF, outF, output, w, q), Batch(x)) =>
      if x.w != inF then Raises
      else if output then Ok(Deep(x.n, x.c, x.h, outF, seq(x.n, b requires 0 <= b < x.n => seq(x.c, k requires 0 <= k < x.c =>
        AddBiasRows(MatMul(x.px[b][k], w, inF, outF), q.b)))))
      else Ok(Batch(Conv.Images(x.n, x.c, x.h, outF, seq(x.n, b requires 0 <= b < x.n => seq(x.c, k requires 0 <= k < x.c =>
        RequantiseRows(MatMul(x.px[b][k], w, inF, outF), q))))))
    case (MaxPool2x2, Batch(x)) => if Pools(x) then Ok(Batch(Pooled(x))) else Raises
    case (MaxPool2x2, Rows(_, _)) => Raises
    case (MaxPool2x2, Logits(_, _)) => Raises
    case (ReLU, Batch(x)) => Ok(Batch(ReluImages(x)))
    case (ReLU, Rows(cols, m)) => Ok(Rows(cols, MapRows(m)))
    case (ReLU, Logits(cols, acc)) => Ok(Rows(cols, ClipLogits(acc)))
    case (ReLU, Deep(n, c, h, w, acc4)) => Ok(Batch(Conv.Images(n, c, h, w, ReluDeep(c, acc4))))
    case (Flatten, Batch(x)) => if x.n == 0 then Raises else Ok(Rows(Conv.Count(x.c, x.h, x.w), Flat(x)))
    case (Flatten, Rows(cols, m)) => if m == [] then Raises else Ok(t)
    case (Flatten, Logits(cols, acc)) => if acc == [] then Raises else Ok(t)
    case _ => Unmodelled
  }

  /** The layers' own forward_int8: a dense layer insists on two dimensions and cuts its activations into int8
      tiles; pooling and flattening cast to int8. */
  function TiledLayer(l: Layer, t: Tensor): (r: Outcome)
    requires l.Valid() && t.Valid()
    ensures r.Ok? ==> r.t.Valid()
  {
    match (l, t)
    case (Conv2d(g, q), Batch(x)) => if ConvFits(g, x) then Ok(Batch(ConvOut(g, q, x))) else Raises
    case (Conv2d(g, q), Rows(_, _)) => Raises
    case (Conv2d(g, q), Logits(_, _)) => Raises
    case (Dense(inF, outF, output, w, q), Rows(cols, m)) => if cols != inF then Raises else Ok(DenseOut(l, MatMul(m, w, inF, outF)))
    case (Dense(inF, outF, output, w, q), Logits(cols, acc)) =>
      if cols != inF then Raises else Ok(DenseOut(l, MatMul(CastLogits(acc), w, inF, outF)))
    case (Dense(inF, outF, output, w, q), Batch(_)) => Raises
    case (Dense(inF, outF, output, w, q), Deep(_, _, _, _, _)) => Raises
    case (MaxPool2x2, Batch(x)) => if Pools(x) then Ok(Batch(CastImages(Pooled(x)))) else Raises
    case (MaxPool2x2, Rows(_, _)) => Raises
    case (MaxPool2x2, Logits(_, _)) => Raises
    case (ReLU, Batch(x)) => Ok(Batch(ReluImages(x)))
    case (ReLU, Rows(cols, m)) => Ok(Rows(cols, MapRows(m)))
    case (ReLU, Logits(cols, acc)) => Ok(Rows(cols, ClipLogits(acc)))
    case (ReLU, Deep(n, c, h, w, acc4)) => Ok(Batch(Conv.Images(n, c, h, w, ReluDeep(c, acc4))))
    case (Flatten, Batch(x)) => if x.n == 0 then Raises else Ok(Rows(Conv.Count(x.c, x.h, x.w), CastLogits(Flat(x))))
    case (Flatten, Rows(cols, m)) => if m == [] then Raises else Ok(Rows(cols, CastLogits(m)))
    case (Flatten, Logits(cols, acc)) => if acc == [] then Raises else Ok(Rows(cols, CastLogits(acc)))
    case _ => Unmodelled
  }

  predicate AllValid(layers: seq<Layer>) { forall i :: 0 <= i < |layers| ==> layers[i].Valid() }

  function PureForward(layers: seq<Layer>, t: Tensor): (r: Outcome)
    requires AllValid(layers) && t.Valid()
    ensures r.Ok? ==> r.t.Valid()
  {
    if layers == [] then Ok(t)
    else
      var u := PureForward(layers[..|layers| - 1], t);
      if u.Ok? then PureLayer(layers[|layers| - 1], u.t) else u
  }

  function TiledForward(layers: seq<Layer>, t: Tensor): (r: Outcome)
    requires AllValid(layers) && t.Valid()
    ensures r.Ok? ==> r.t.Valid()
  {
    if layers == [] then Ok(t)
    else
      var u := TiledForward(layers[..|layers| - 1], t);
      if u.Ok? then TiledLayer(layers[|layers| - 1], u.t) else u
  }

  // --- sizes ---

  /** The size of a tensor, whatever its entries. */
  datatype Size = Size4(n: nat, c: nat, h: nat, w: nat) | Size2(rows: nat, cols: nat)

  datatype MaybeSize = Fits(s: Size) | NoFit

  function SizeOf(t: Tensor): Size {
    match t
    case Batch(x) => Size4(x.n, x.c, x.h, x.w)
    case Rows(cols, m) => Size2(|m|, cols)
    case Deep(n, c, h, w, _) => Size4(n, c, h, w)
    case Logits(cols, acc) => Size2(|acc|, cols)
  }

  /** What the reference makes of a size; `NoFit` where numpy raises. */
  function LayerSize(l: Layer, s: Size): MaybeSize {
    match (l, s)
    case (Conv2d(g, q), Size4(n, c, h, w)) =>
      if g.kh > 0 && g.kw > 0 && h + 1 >= g.kh && w + 1 >= g.kw && g.c == c then Fits(Size4(n, g.out, h + 1 - g.kh, w + 1 - g.kw)) else NoFit
    case (Dense(inF, outF, _, _, _), Size2(rows, cols)) => if cols == inF then Fits(Size2(rows, outF)) else NoFit
    case (Dense(inF, outF, _, _, _), Size4(n, c, h, w)) => if w == inF then Fits(Size4(n, c, h, outF)) else NoFit
    case (MaxPool2x2, Size4(n, c, h, w)) =>
      if (h % 2 == 0 && w % 2 == 0) || n == 0 || c == 0 || h == 0 || w == 0 then Fits(Size4(n, c, h / 2, w / 2)) else NoFit
    case (ReLU, _) => Fits(s)
    case (Flatten, Size4(n, c, h, w)) => if n > 0 then Fits(Size2(n, Conv.Count(c, h, w))) else NoFit
    case (Flatten, Size2(rows, cols)) => if rows > 0 then Fits(s) else NoFit
    case _ => NoFit
  }

  function GraphSize(layers: seq<Layer>, s: Size): MaybeSize {
    if layers == [] then Fits(s)
    else
      var u := GraphSize(layers[..|layers| - 1], s);
      if u.Fits? then LayerSize(layers[|layers| - 1], u.s) else NoFit
  }

  // --- when the two agree ---

  predicate Raw(l: Layer) { l.Dense? && l.output }

  /** Every raw output but that of the last layer goes straight into a ReLU. */
  predicate Harmless(layers: seq<Layer>) { forall i, j :: 0 <= i < |layers| && j == i + 1 && j < |layers| && Raw(layers[i]) ==> layers[j].ReLU? }

  /** By its size alone: layer `i` is a dense layer that is given an unflattened tensor whose last axis happens to fit. */
  predicate Broadcasts(layers: seq<Layer>, s: Size, i: nat)
    requires i < |layers|
  {
    var u := GraphSize(layers[..i], s);
    u.Fits? && u.s.Size4? && layers[i].Dense? && u.s.w == layers[i].inF
  }

  predicate SomeBroadcast(layers: seq<Layer>, s: Size) { exists i :: 0 <= i < |layers| && Broadcasts(layers, s, i) }

  lemma SomeBroadcastFront(layers: seq<Layer>, s: Size)
    requires layers != []
    ensures SomeBroadcast(layers, s) <==> SomeBroadcast(layers[..|layers| - 1], s) || Broadcasts(layers, s, |layers| - 1)
  {
    var front, last := layers[..|layers| - 1], |layers| - 1;
    forall i | 0 <= i < last
      ensures Broadcasts(front, s, i) == Broadcasts(layers, s, i)
    {
      assert front[..i] == layers[..i];
    }
    if i :| 0 <= i < last && Broadcasts(front, s, i) { assert Broadcasts(layers, s, i); }
    if i :| 0 <= i < |layers| && Broadcasts(layers, s, i) { if i < last { assert Broadcasts(front, s, i); } }
  }

  /** On int8 tensors, and for a ReLU on any, the reference returns exactly if the size fits, and then with that size. */
  lemma LayerFits(l: Layer, t: Tensor)
    requires l.Valid() && t.Valid() && (t.Int8() || l.ReLU?)
    ensures PureLayer(l, t) != Unmodelled && (PureLayer(l, t).Ok? <==> LayerSize(l, SizeOf(t)).Fits?)
    ensures PureLayer(l, t).Ok? ==> SizeOf(PureLayer(l, t).t) == LayerSize(l, SizeOf(t)).s && (Raw(l) || PureLayer(l, t).t.Int8())
  {
  }

  /** There the layer's own forward pass agrees with the reference, its casts changing nothing, except that a dense
      layer raises on an unflattened tensor. */
  lemma LayerAgrees(l: Layer, t: Tensor)
    requires l.Valid() && t.Valid() && (t.Int8() || l.ReLU?)
    ensures if l.Dense? && t.Batch? && t.x.w == l.inF then TiledLayer(l, t) == Raises else TiledLayer(l, t) == PureLayer(l, t)
  {
    hide CastLogits, CastImages;
    match t
    case Batch(x) =>
      if l.MaxPool2x2? { CastKeepsImages(Pooled(x)); }
      if l.Flatten? { CastKeeps(Flat(x)); }
    case Rows(cols, m) => CastKeeps(m);
    case Logits(cols, acc) =>
    case Deep(n, c, h, w, acc4) =>
  }

  /** The size of the input decides whether, and with what size, the reference returns. */
  lemma {:induction false} ForwardFits(layers: seq<Layer>, t: Tensor)
    requires AllValid(layers) && t.Valid() && t.Int8() && Harmless(layers)
    ensures PureForward(layers, t) != Unmodelled && (PureForward(layers, t).Ok? <==> GraphSize(layers, SizeOf(t)).Fits?)
    ensures PureForward(layers, t).Ok? ==>
      SizeOf(PureForward(layers, t).t) == GraphSize(layers, SizeOf(t)).s &&
      (PureForward(layers, t).t.Int8() || (layers != [] && Raw(layers[|layers| - 1])))
  {
    hide PureLayer, LayerSize, Layer.Valid;
    if layers != [] {
      var front, last := layers[..|layers| - 1], layers[|layers| - 1];
      ForwardFits(front, t);
      var u := PureForward(front, t);
      if u.Ok? { LayerFits(last, u.t); }
    }
  }

  lemma NoLayers(s: Size)
    ensures !SomeBroadcast([], s)
  {
  }

  lemma {:induction false} ForwardAgrees(layers: seq<Layer>, t: Tensor)
    requires AllValid(layers) && t.Valid() && t.Int8() && Harmless(layers)
    ensures TiledForward(layers, t) == if SomeBroadcast(layers, SizeOf(t)) then Raises else PureForward(layers, t)
  {
    hide PureLayer, TiledLayer, LayerSize, Layer.Valid, GraphSize, SomeBroadcast;
    NoLayers(SizeOf(t));
    if layers != [] {
      var front, last := layers[..|layers| - 1], layers[|layers| - 1];
      ForwardAgrees(front, t);
      ForwardFits(front, t);
      SomeBroadcastFront(layers, SizeOf(t));
      var u := PureForward(front, t);
      if u.Ok? { LayerAgrees(last, u.t); }
    }
  }

  /** Whatever the tensor's entries, the tiled graph returns what the reference returns, unless the size of the input
      takes the reference through a dense layer on an unflattened tensor: there, and only there, the tiled path
      raises and the reference does not. Layers and input size decide. */
  lemma {:induction false} TiledMatchesPure(layers: seq<Layer>, t: Tensor)
    requires AllValid(layers) && t.Valid() && t.Int8() && Harmless(layers)
    ensures TiledForward(layers, t) == PureForward(layers, t) <==>
      !(GraphSize(layers, SizeOf(t)).Fits? && SomeBroadcast(layers, SizeOf(t)))
    ensures TiledForward(layers, t).Ok? ==> TiledForward(layers, t) == PureForward(layers, t)
  {
    hide PureForward, TiledForward, GraphSize, SomeBroadcast;
    ForwardAgrees(layers, t);
    ForwardFits(layers, t);
  }

  /** Every dense layer on every unflattened tensor whose last axis fits: the reference broadcasts, the tiled path raises. */
  lemma UnflattenedDenseDiffers(l: Layer, t: Tensor)
    requires l.Dense? && l.Valid() && t.Batch? && t.Valid() && t.x.w == l.inF
    ensures PureForward([l], t).Ok? && TiledForward([l], t) == Raises
  {
    assert [l][..0] == [];
  }

  /** Flattening raw outputs: the tiled path truncates them to int8 and the reference does not, which shows exactly
      if some output is outside the int8 range. */
  lemma RawThenFlatten(l: Layer, t: Tensor)
    requires Raw(l) && l.Valid() && t.Rows? && t.Valid() && t.cols == l.inF && t.m != []
    ensures var acc := AddBiasRows(MatMul(t.m, l.w, l.inF, l.outF), l.q.b);
      PureForward([l, Flatten], t) == Ok(Logits(l.outF, acc)) && TiledForward([l, Flatten], t) == Ok(Rows(l.outF, CastLogits(acc))) &&
      (SameEntries(CastLogits(acc), acc, l.outF) <==> InByteRange(acc, l.outF))
  {
    RawLayer(l, t);
    var acc := AddBiasRows(MatMul(t.m, l.w, l.inF, l.outF), l.q.b);
    CastShows(acc, l.outF);
    assert [l, Flatten][..1] == [l];
    hide MatMul, AddBiasRows, CastLogits, SameEntries, InByteRange, DenseOut;
  }

  lemma RawLayer(l: Layer, t: Tensor)
    requires Raw(l) && l.Valid() && t.Rows? && t.Valid() && t.cols == l.inF && t.m != []
    ensures var acc := AddBiasRows(MatMul(t.m, l.w, l.inF, l.outF), l.q.b);
      acc != [] && PureForward([l], t) == Ok(Logits(l.outF, acc)) && TiledForward([l], t) == Ok(Logits(l.outF, acc))
  {
    hide MatMul, AddBiasRows, CastLogits, RequantiseRows;
    assert [l][..0] == [];
  }

  predicate SameEntries(m: Mat8, acc: Mat32, cols: nat)
    requires Shape(m, |acc|, cols) && Shape(acc, |acc|, cols)
  {
    forall i, o :: 0 <= i < |acc| && 0 <= o < cols ==> m[i][o] == acc[i][o]
  }

  predicate InByteRange(acc: Mat32, cols: nat)
    requires Shape(acc, |acc|, cols)
  {
    forall i, o :: 0 <= i < |acc| && 0 <= o < cols ==> -0x80 <= acc[i][o] < 0x80
  }

  lemma CastShows(acc: Mat32, cols: nat)
    requires Shape(acc, |acc|, cols)
    ensures SameEntries(CastLogits(acc), acc, cols) <==> InByteRange(acc, cols)
  {
    hide CastLogits;
    forall i, o | 0 <= i < |acc| && 0 <= o < cols
      ensures CastLogits(acc)[i][o] == acc[i][o] <==> -0x80 <= acc[i][o] < 0x80
    {
      CastEntry(acc, i, o);
      CastExactly(acc[i][o]);
    }
  }

  lemma CastEntry(acc: Mat32, i: nat, o: nat)
    requires i < |acc| && o < |acc[i]|
    ensures CastLogits(acc)[i][o] == Cast8(acc[i][o])
  {
  }

  /** The cast keeps the residue modulo 2^8. */
  lemma CastExactly(v: Int32)
    ensures (Cast8(v) - v) % 0x100 == 0 && (Cast8(v) == v <==> -0x80 <= v < 0x80)
  {
  }

  // --- the layers, entry by entry ---

  lemma OneLayer(l: Layer, t: Tensor)
    requires l.Valid() && t.Valid()
    ensures PureForward([l], t) == PureLayer(l, t) && TiledForward([l], t) == TiledLayer(l, t)
  {
    assert [l][..0] == [];
    hide PureLayer, TiledLayer;
  }

  /** Rescaled to an int8 between -127 and 127. */
  predicate Rescaled(v: Int8, acc: Int32, q: Scale)
    requires q.Valid()
  {
    var r := ApplyRequant(acc, q.m0, q.shift);
    (r < -127 ==> v == -127) && (-127 <= r <= 127 ==> v == r) && (r > 127 ==> v == 127)
  }

  predicate Rectified(v: int, r: int) { (v < 0 ==> r == 0) && (0 <= v <= 127 ==> r == v) && (v > 127 ==> r == 127) }

  /** Every output pixel of a convolution is the direct sum, biased and rescaled. */
  lemma {:induction false} ConvEntry(g: Conv.Kernel, q: Scale, x: Conv.Images, b: nat, o: nat, i: nat, j: nat, f: (nat, nat, nat) -> int)
    requires Conv.Matches(x, g) && |q.b| == g.out && q.Valid()
    requires b < x.n && i + g.kh <= x.h && j + g.kw <= x.w && o < g.out && Conv.Products(x, g, b, i, j, o, f)
    ensures var u := PureForward([Conv2d(g, q)], Batch(x));
      u == TiledForward([Conv2d(g, q)], Batch(x)) && u.Ok? && u.t.Batch? &&
      SizeOf(u.t) == Size4(x.n, g.out, x.h + 1 - g.kh, x.w + 1 - g.kw) &&
      Rescaled(u.t.x.px[b][o][i][j], Wrap32(Conv.Total(f, g.c, g.kh, g.kw) + q.b[o]), q)
  {
    hide PureForward, TiledForward, Conv.Count, ApplyRequant, MatMul, Conv.Patches, Conv.Matrix, Conv.Total, Conv.Products;
    OneLayer(Conv2d(g, q), Batch(x));
    Conv.PixelSum(x, g, Conv.Index(b, i, j), o, f);
    Wrap32Add(Conv.Total(f, g.c, g.kh, g.kw), q.b[o]);
  }

  /** Every entry of a dense layer is the biased dot product, raw if the layer is the output and rescaled otherwise. */
  lemma {:induction false} DenseEntry(l: Layer, cols: nat, m: Mat8, r: nat, o: nat)
    requires l.Dense? && l.Valid() && Rows(cols, m).Valid() && cols == l.inF && r < |m| && o < l.outF
    ensures var u := PureForward([l], Rows(cols, m));
      var acc := Wrap32(Dot(m[r], l.w, o, l.inF) + l.q.b[o]);
      u == TiledForward([l], Rows(cols, m)) && u.Ok? && SizeOf(u.t) == Size2(|m|, l.outF) &&
      if l.output then u.t.Logits? && u.t.acc[r][o] == acc else u.t.Rows? && Rescaled(u.t.m[r][o], acc, l.q)
  {
    OneLayer(l, Rows(cols, m));
    hide PureForward, TiledForward, ApplyRequant, Dot;
    Wrap32Add(Dot(m[r], l.w, o, l.inF), l.q.b[o]);
  }

  /** On an unflattened tensor the reference applies a dense layer to the last axis. */
  lemma {:induction false} BroadcastEntry(l: Layer, x: Conv.Images, b: nat, k: nat, i: nat, o: nat)
    requires l.Dense? && l.Valid() && x.Valid() && x.w == l.inF && b < x.n && k < x.c && i < x.h && o < l.outF
    ensures var u := PureForward([l], Batch(x));
      var acc := Wrap32(Dot(x.px[b][k][i], l.w, o, l.inF) + l.q.b[o]);
      u.Ok? && SizeOf(u.t) == Size4(x.n, x.c, x.h, l.outF) &&
      if l.output then u.t.Deep? && u.t.acc4[b][k][i][o] == acc else u.t.Batch? && Rescaled(u.t.x.px[b][k][i][o], acc, l.q)
  {
    OneLayer(l, Batch(x));
    hide PureForward, TiledForward, ApplyRequant, Dot;
    Wrap32Add(Dot(x.px[b][k][i], l.w, o, l.inF), l.q.b[o]);
  }

  /** Pooling takes the largest of the four pixels of its window. */
  lemma {:induction false} PoolEntry(x: Conv.Images, b: nat, k: nat, i: nat, j: nat)
    requires x.Valid() && x.h % 2 == 0 && x.w % 2 == 0 && b < x.n && k < x.c && i < x.h / 2 && j < x.w / 2
    ensures var u := PureForward([MaxPool2x2], Batch(x));
      u == TiledForward([MaxPool2x2], Batch(x)) && u.Ok? && u.t.Batch? && SizeOf(u.t) == Size4(x.n, x.c, x.h / 2, x.w / 2) &&
      var v := u.t.x.px[b][k][i][j];
      v >= x.px[b][k][2 * i][2 * j] && v >= x.px[b][k][2 * i][2 * j + 1] &&
      v >= x.px[b][k][2 * i + 1][2 * j] && v >= x.px[b][k][2 * i + 1][2 * j + 1] &&
      (v == x.px[b][k][2 * i][2 * j] || v == x.px[b][k][2 * i][2 * j + 1] ||
       v == x.px[b][k][2 * i + 1][2 * j] || v == x.px[b][k][2 * i + 1][2 * j + 1])
  {
    OneLayer(MaxPool2x2, Batch(x));
    hide PureForward, TiledForward, CastImages;
    CastKeepsImages(Pooled(x));
  }

  /** Flattening lists a row's entries channel by channel, row by row. */
  lemma {:induction false} FlattenEntry(x: Conv.Images, b: nat, c: nat, i: nat, j: nat, k: nat)
    requires x.Valid() && b < x.n && c < x.c && i < x.h && j < x.w && k == (c * x.h + i) * x.w + j
    ensures var u := PureForward([Flatten], Batch(x));
      u == TiledForward([Flatten], Batch(x)) && u.Ok? && u.t.Rows? && SizeOf(u.t) == Size2(x.n, x.c * x.h * x.w) &&
      k < x.c * x.h * x.w && u.t.m[b][k] == x.px[b][c][i][j]
  {
    OneLayer(Flatten, Batch(x));
    hide PureForward, TiledForward, CastLogits, Conv.At;
    CastKeeps(Flat(x));
    Conv.AtPos(Conv.Index(c, i, j), x.c, x.h, x.w);
  }

  /** A ReLU rectifies and saturates every entry of every form of tensor. */
  lemma ReluEntry(t: Tensor, b: nat, k: nat, i: nat, j: nat)
    requires t.Valid()
    ensures var u := PureForward([ReLU], t);
      u == TiledForward([ReLU], t) && u.Ok? && u.t.Int8() && SizeOf(u.t) == SizeOf(t) &&
      match t
      case Batch(x) => b < x.n && k < x.c && i < x.h && j < x.w ==> Rectified(x.px[b][k][i][j], u.t.x.px[b][k][i][j])
      case Deep(n, c, h, w, acc4) => b < n && k < c && i < h && j < w ==> Rectified(acc4[b][k][i][j], u.t.x.px[b][k][i][j])
      case Rows(cols, m) => i < |m| && j < cols ==> Rectified(m[i][j], u.t.m[i][j])
      case Logits(cols, acc) => i < |acc| && j < cols ==> Rectified(acc[i][j], u.t.m[i][j])
  {
    OneLayer(ReLU, t);
    hide PureForward, TiledForward;
  }

  // --- the methods ---

  method ConvForward(g: Conv.Kernel, q: Scale, x: Conv.Images, runTile: (Mat8, Mat8) -> Mat32) returns (r: Outcome)
    requires Conv2d(g, q).Valid() && x.Valid() && Tiler.GoldenBackend(runTile)
    ensures r == TiledLayer(Conv2d(g, q), Batch(x))
  {
    hide Conv.Patches, Conv.Matrix, Conv.Count, RequantiseRows, Unfold, MatMul, Tiler.GoldenBackend;
    if !Conv.Fits(x, g.kh, g.kw) || g.c != x.c { return Raises; }
    var cols := Conv.Im2col(x, g.kh, g.kw);
    var schedule := Tiler.MakePlan(Conv.Count(g.c, g.kh, g.kw), g.out);
    var acc := Tiler.Execute(schedule, cols, Conv.Matrix(g), g.out, runTile);
    return Ok(Batch(Unfold(RequantiseRows(acc, q), x.n, Conv.OutH(x, g.kh), Conv.OutW(x, g.kw), g.out)));
  }

  method DenseForward(l: Layer, t: Tensor, runTile: (Mat8, Mat8) -> Mat32) returns (r: Outcome)
    requires l.Dense? && l.Valid() && t.Rows? && t.Valid() && Tiler.GoldenBackend(runTile)
    ensures r == TiledLayer(l, t)
  {
    hide RequantiseRows, AddBiasRows, MatMul, Tiler.GoldenBackend;
    if t.cols != l.inF { return Raises; }
    var schedule := Tiler.MakePlan(t.cols, l.outF);
    var acc := Tiler.Execute(schedule, t.m, l.w, l.outF, runTile);
    return Ok(DenseOut(l, acc));
  }

  /** The graph's forward pass on any backend that meets the tile contract. */
  method GraphForward(layers: seq<Layer>, t0: Tensor, runTile: (Mat8, Mat8) -> Mat32) returns (r: Outcome)
    requires AllValid(layers) && t0.Valid() && Tiler.GoldenBackend(runTile)
    ensures r == TiledForward(layers, t0)
    ensures t0.Int8() && Harmless(layers) && r.Ok? ==> r == PureForward(layers, t0)
  {
    hide PureLayer, TiledLayer, Tiler.GoldenBackend, Layer.Valid;
    r := Ok(t0);
    for i := 0 to |layers|
      invariant r == TiledForward(layers[..i], t0)
    {
      assert layers[..i + 1][..i] == layers[..i];
      if r.Ok? { r := LayerForward(layers[i], r.t, runTile); }
    }
    assert layers[..|layers|] == layers;
    if t0.Int8() && Harmless(layers) { TiledMatchesPure(layers, t0); }
  }

  /** The reference pass itself: whole matrix products, no tiles. */
  method PureNumpyForward(layers: seq<Layer>, t0: Tensor) returns (r: Outcome)
    requires AllValid(layers) && t0.Valid()
    ensures r == PureForward(layers, t0)
    ensures t0.Int8() && Harmless(layers) ==>
      (r.Ok? <==> GraphSize(layers, SizeOf(t0)).Fits?) && (r.Ok? ==> SizeOf(r.t) == GraphSize(layers, SizeOf(t0)).s)
  {
    hide PureLayer, Layer.Valid, GraphSize;
    r := Ok(t0);
    for i := 0 to |layers|
      invariant r == PureForward(layers[..i], t0)
    {
      assert layers[..i + 1][..i] == layers[..i];
      if r.Ok? {
        if layers[i].Conv2d? && r.t.Batch? {
          r := PureConv(layers[i].g, layers[i].q, r.t.x);
        } else {
          r := PureLayer(layers[i], r.t);
        }
      }
    }
    assert layers[..|layers|] == layers;
    if t0.Int8() && Harmless(layers) { ForwardFits(layers, t0); }
  }

  method PureConv(g: Conv.Kernel, q: Scale, x: Conv.Images) returns (r: Outcome)
    requires Conv2d(g, q).Valid() && x.Valid()
    ensures r == PureLayer(Conv2d(g, q), Batch(x))
  {
    hide Conv.Patches, Conv.Matrix, Conv.Count, RequantiseRows, Unfold, MatMul;
    if !Conv.Fits(x, g.kh, g.kw) || g.c != x.c { return Raises; }
    var cols := Conv.Im2col(x, g.kh, g.kw);
    var acc := MatMul(cols, Conv.Matrix(g), Conv.Count(g.c, g.kh, g.kw), g.out);
    return Ok(Batch(Unfold(RequantiseRows(acc, q), x.n, Conv.OutH(x, g.kh), Conv.OutW(x, g.kw), g.out)));
  }

  method LayerForward(l: Layer, t: Tensor, runTile: (Mat8, Mat8) -> Mat32) returns (r: Outcome)
    requires l.Valid() && t.Valid() && Tiler.GoldenBackend(runTile)
    ensures r == TiledLayer(l, t)
  {
    if l.Conv2d? && t.Batch? {
      r := ConvForward(l.g, l.q, t.x, runTile);
    } else if l.Dense? && t.Rows? {
      r := DenseForward(l, t, runTile);
    } else if l.Dense? && t.Logits? {
      r := DenseForward(l, Rows(t.cols, CastLogits(t.acc)), runTile);
    } else {
      r := TiledLayer(l, t); // shape errors and the layers without a matrix product
    }
  }

  /** Runs both passes and compares them, as the layer tests do. */
  method TiledAgrees(layers: seq<Layer>, t0: Tensor, runTile: (Mat8, Mat8) -> Mat32) returns (same: bool)
    requires AllValid(layers) && t0.Valid() && Tiler.GoldenBackend(runTile)
    ensures t0.Int8() && Harmless(layers) ==>
      (same <==> !(GraphSize(layers, SizeOf(t0)).Fits? && SomeBroadcast(layers, SizeOf(t0))))
  {
    hide Tiler.GoldenBackend, PureForward, TiledForward, GraphSize, SomeBroadcast;
    var got := GraphForward(layers, t0, runTile);
    var want := PureNumpyForward(layers, t0);
    if t0.Int8() && Harmless(layers) { TiledMatchesPure(layers, t0); }
    same := got == want;
  }
}
