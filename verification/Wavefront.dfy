/** Closed form of the systolic grid's timing: what every register holds after any number of
    clock edges, for arbitrary activation streams, and what the skewed feed makes of it. */
module Wavefront {
  import opened Arith
  import opened Systolic

  /** Lane `r` of the feed at tick `t`; nothing enters outside the recorded ticks. */
  function Fed(feed: Mat8, r: nat, t: int): Int8 {
    if 0 <= t < |feed| && r < |feed[t]| then feed[t][r] else 0
  }

  /** Sum over the lanes above `rows` of what entered along one diagonal, times the column's weights. */
  function DiagSum(feed: Mat8, w: Mat8, rows: nat, c: nat, t: int): int
    requires rows <= |w| && forall i :: 0 <= i < rows ==> c < |w[i]|
  {
    if rows == 0 then 0
    else DiagSum(feed, w, rows - 1, c, t) + Fed(feed, rows - 1, t + rows - 1) as int * w[rows-1][c] as int
  }

  /** PE (r,c) after `|feed|` ticks: the activation has moved one column a tick, and the partial sum
      is the complete sum of rows 0..r along the diagonal that arrives here. */
  ghost predicate TracksAt(n: nat, g: Grid, feed: Mat8, r: nat, c: nat)
    requires g.Valid(n) && r < n && c < n
  {
    var now := |feed| - 1;
    g.act[r][c] == Fed(feed, r, now - c) &&
    g.psum[r][c] == Wrap32(DiagSum(feed, g.weight, r + 1, c, now - r - c))
  }

  ghost predicate Tracks(n: nat, g: Grid, feed: Mat8)
    requires g.Valid(n)
  {
    forall r, c :: 0 <= r < n && 0 <= c < n ==> TracksAt(n, g, feed, r, c)
  }

  lemma {:induction false} DiagSumPrefix(feed: Mat8, actIn: Row8, w: Mat8, rows: nat, c: nat, t: int)
    requires rows <= |w| && forall i :: 0 <= i < rows ==> c < |w[i]|
    requires t + rows - 1 < |feed|
    ensures DiagSum(feed + [actIn], w, rows, c, t) == DiagSum(feed, w, rows, c, t)
  {
    if rows > 0 { DiagSumPrefix(feed, actIn, w, rows - 1, c, t); }
  }

  lemma DiagSumSplit(feed: Mat8, w: Mat8, rows: nat, c: nat, t: int)
    requires rows < |w| && forall i :: 0 <= i <= rows ==> c < |w[i]|
    ensures DiagSum(feed, w, rows + 1, c, t) == DiagSum(feed, w, rows, c, t) + Fed(feed, rows, t + rows) as int * w[rows][c] as int
  {
  }

  lemma {:induction false} DiagSumBeforeStart(w: Mat8, rows: nat, c: nat, t: int)
    requires rows <= |w| && forall i :: 0 <= i < rows ==> c < |w[i]|
    ensures DiagSum([], w, rows, c, t) == 0
  {
    if rows > 0 { DiagSumBeforeStart(w, rows - 1, c, t); }
  }

  lemma DrainedTracks(n: nat, g: Grid)
    requires g.Valid(n) && g.Drained(n)
    ensures Tracks(n, g, [])
  {
    forall r, c | 0 <= r < n && 0 <= c < n
      ensures TracksAt(n, g, [], r, c)
    {
      DiagSumBeforeStart(g.weight, r + 1, c, -1 - r - c);
    }
  }

  /** With no load and no reset the weights stay. */
  lemma WeightsHeld(n: nat, g: Grid, weightIn: Mat8, actIn: Row8, g': Grid)
    requires g.Valid(n) && Shape(weightIn, n, n) && |actIn| == n
    requires GridStep(n, g, false, false, weightIn, actIn, g')
    ensures g'.weight == g.weight
  {
    forall r, c | 0 <= r < n && 0 <= c < n
      ensures g'.weight[r][c] == g.weight[r][c]
    {
      assert CellStep(n, g, false, false, weightIn, actIn, g', r, c);
    }
    assert forall r :: 0 <= r < n ==> g'.weight[r] == g.weight[r];
  }

  /** One more tick keeps the closed form. */
  lemma TracksStep(n: nat, g: Grid, feed: Mat8, weightIn: Mat8, actIn: Row8, g': Grid)
    requires g.Valid(n) && Shape(weightIn, n, n) && |actIn| == n
    requires GridStep(n, g, false, false, weightIn, actIn, g')
    requires Tracks(n, g, feed)
    ensures Tracks(n, g', feed + [actIn])
    ensures g'.weight == g.weight
  {
    WeightsHeld(n, g, weightIn, actIn, g');
    forall r, c | 0 <= r < n && 0 <= c < n
      ensures TracksAt(n, g', feed + [actIn], r, c)
    {
      assert CellStep(n, g, false, false, weightIn, actIn, g', r, c);
      ActWireTracks(n, g, feed, actIn, r, c);
      DiagSumSplit(feed + [actIn], g.weight, r, c, |feed| - r - c);
      PsumWireTracks(n, g, feed, actIn, r, c, Fed(feed + [actIn], r, |feed| - c) as int * g.weight[r][c] as int);
    }
  }

  lemma ActWireTracks(n: nat, g: Grid, feed: Mat8, actIn: Row8, r: nat, c: nat)
    requires g.Valid(n) && |actIn| == n && Tracks(n, g, feed) && r < n && c < n
    ensures g.ActWire(n, actIn, r, c) == Fed(feed + [actIn], r, |feed| - c)
  {
    if c > 0 { assert TracksAt(n, g, feed, r, c - 1); }
  }

  /** Adding any product to the partial-sum wire extends the diagonal sum above. */
  lemma PsumWireTracks(n: nat, g: Grid, feed: Mat8, actIn: Row8, r: nat, c: nat, product: int)
    requires g.Valid(n) && |actIn| == n && Tracks(n, g, feed) && r < n && c < n
    ensures Wrap32(g.PsumWire(n, r, c) + product)
         == Wrap32(DiagSum(feed + [actIn], g.weight, r, c, |feed| - r - c) + product)
  {
    var above := DiagSum(feed, g.weight, r, c, |feed| - r - c);
    assert DiagSum(feed + [actIn], g.weight, r, c, |feed| - r - c) == above by {
      DiagSumPrefix(feed, actIn, g.weight, r, c, |feed| - r - c);
    }
    if r > 0 {
      assert TracksAt(n, g, feed, r - 1, c);
    }
    Wrap32Add(above, product);
  }

  /** A run of the grid with its weights held: `gs[i]` is the state after `i` ticks of `feed`. */
  ghost predicate Run(n: nat, gs: seq<Grid>, feed: Mat8) {
    |gs| == |feed| + 1 && (forall i :: 0 <= i < |gs| ==> gs[i].Valid(n)) && (forall i :: 0 <= i < |feed| ==> |feed[i]| == n) &&
    forall i :: 0 <= i < |feed| ==> GridStep(n, gs[i], false, false, gs[i].weight, feed[i], gs[i+1])
  }

  /** Closed form of every run from a drained grid, at every tick, whatever is fed. */
  lemma {:induction false} RunClosedForm(n: nat, gs: seq<Grid>, feed: Mat8, i: nat)
    requires Run(n, gs, feed) && gs[0].Drained(n) && i < |gs|
    ensures gs[i].weight == gs[0].weight
    ensures Tracks(n, gs[i], feed[..i])
  {
    if i == 0 {
      DrainedTracks(n, gs[0]);
    } else {
      RunClosedForm(n, gs, feed, i - 1);
      TracksStep(n, gs[i-1], feed[..i-1], gs[i-1].weight, feed[i-1], gs[i]);
      assert feed[..i] == feed[..i-1] + [feed[i-1]];
    }
  }

  /** Lane `r` of vector `k`, where vectors outside the stream are zero. */
  function Lane(a: Mat8, r: nat, k: int): Int8 {
    if 0 <= k < |a| && r < |a[k]| then a[k][r] else 0
  }

  /** What the skewed feed presents at tick `t`: lane `r` is delayed by `r` ticks. */
  function SkewedRow(n: nat, a: Mat8, t: int): (row: Row8)
    ensures |row| == n
  {
    seq<Int8>(n, r requires 0 <= r < n => Lane(a, r, t - r))
  }

  function Skewed(n: nat, a: Mat8, ticks: nat): (feed: Mat8)
    ensures Shape(feed, ticks, n)
  {
    seq(ticks, t requires 0 <= t < ticks => SkewedRow(n, a, t))
  }

  /** Result `c` of vector `k`: the int32 dot product, or zero outside the stream. */
  function Result(n: nat, a: Mat8, w: Mat8, c: nat, k: int): Int32
    requires Shape(a, |a|, n) && Shape(w, n, n) && c < n
  {
    if 0 <= k < |a| then Wrap32(Dot(a[k], w, c, n)) else 0
  }

  lemma FedSkewed(n: nat, a: Mat8, ticks: nat, r: nat, t: int)
    requires r < n && t < ticks
    ensures Fed(Skewed(n, a, ticks), r, t) == Lane(a, r, t - r)
  {
  }

  /** With the skewed feed, a whole diagonal belongs to one vector. */
  lemma {:induction false} DiagSumSkewed(n: nat, a: Mat8, ticks: nat, w: Mat8, rows: nat, c: nat, k: int)
    requires rows <= n && Shape(a, |a|, n) && Shape(w, n, n) && c < n && k + rows - 1 < ticks
    ensures DiagSum(Skewed(n, a, ticks), w, rows, c, k) == if 0 <= k < |a| then Dot(a[k], w, c, rows) else 0
  {
    if rows > 0 {
      DiagSumSkewed(n, a, ticks, w, rows - 1, c, k);
      FedSkewed(n, a, ticks, rows - 1, k + rows - 1);
    }
  }

  /** Column `c` of vector `k` leaves the bottom of the grid after tick `k + c + n - 1` (tick 0 first). */
  lemma SkewedOutput(n: nat, g: Grid, a: Mat8, ticks: nat, c: nat)
    requires g.Valid(n) && Shape(a, |a|, n) && c < n
    requires Tracks(n, g, Skewed(n, a, ticks))
    ensures g.psum[n-1][c] == Result(n, a, g.weight, c, ticks - n - c)
  {
    DiagSumSkewed(n, a, ticks, g.weight, n, c, ticks - n - c);
    assert TracksAt(n, g, Skewed(n, a, ticks), n - 1, c);
  }

  /** Once the last vector's diagonal has left, the grid is empty again. */
  lemma SkewedDrains(n: nat, g: Grid, a: Mat8, ticks: nat)
    requires g.Valid(n) && Shape(a, |a|, n) && Tracks(n, g, Skewed(n, a, ticks))
    requires ticks >= |a| + 2 * n - 1
    ensures g.Drained(n)
  {
    forall r, c | 0 <= r < n && 0 <= c < n
      ensures g.act[r][c] == 0 && g.psum[r][c] == 0
    {
      assert TracksAt(n, g, Skewed(n, a, ticks), r, c);
      FedSkewed(n, a, ticks, r, ticks - 1 - c);
      DiagSumSkewed(n, a, ticks, g.weight, r + 1, c, ticks - 1 - r - c);
    }
  }

  lemma SkewedSnoc(n: nat, a: Mat8, ticks: nat)
    ensures Skewed(n, a, ticks + 1) == Skewed(n, a, ticks) + [SkewedRow(n, a, ticks)]
  {
  }
}
