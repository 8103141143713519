/** Whole runs of the streaming datapath: quiescence between commands, the end-to-end result, the
    exact write stream and latency of a command, and sequences of commands without a reset. */
module StreamRuns {
  import opened Arith
  import opened Systolic
  import opened Wavefront
  import opened Stream
  import opened StreamInvariant

  /** `ss[i]` is the state before edge `i`, `xs[i]` the inputs of edge `i`. */
  ghost predicate Run(p: Params, ss: seq<Top>, xs: seq<In>) {
    p.Valid() && |ss| == |xs| + 1 &&
    (forall i :: 0 <= i < |ss| ==> ss[i].Valid(p)) && (forall i :: 0 <= i < |xs| ==> xs[i].Valid(p)) &&
    forall i :: 0 <= i < |xs| ==> Step(p, ss[i], xs[i], ss[i+1])
  }

  // --- every reachable state ---

  function NextMem0(s: Top, mem0: Mat32, s': Top): Mat32 { if s.fsm.Streaming? then mem0 else s'.mem }

  lemma InvStep(p: Params, s: Top, x: In, s': Top, a: Mat8, mem0: Mat32)
    requires Inv(p, s, a, mem0) && x.Valid(p) && Step(p, s, x, s')
    requires x.start ==> Fits(p, x.cmd)
    ensures Inv(p, s', if x.rst then [] else Pushed(s, a), if x.rst then s'.mem else NextMem0(s, mem0, s'))
  {
    if x.rst {
      ResetStep(p, s, x, s');
    } else if s.fsm.Streaming? {
      StreamStep(p, s, x, s', a, mem0);
    } else {
      QuietStep(p, s, x, s');
      if s.fsm.Prefetch? { StreamBegins(p, s'); }
    }
  }

  lemma {:induction false} InvAlways(p: Params, ss: seq<Top>, xs: seq<In>, i: nat) returns (a: Mat8, mem0: Mat32)
    requires Run(p, ss, xs) && |xs| > 0 && xs[0].rst && 0 < i < |ss|
    requires forall j :: 0 <= j < |xs| && xs[j].start ==> Fits(p, xs[j].cmd)
    ensures Inv(p, ss[i], a, mem0)
  {
    if i == 1 {
      ResetStep(p, ss[0], xs[0], ss[1]);
      a, mem0 := [], ss[1].mem;
    } else {
      var a0, m0 := InvAlways(p, ss, xs, i - 1);
      InvStep(p, ss[i-1], xs[i-1], ss[i], a0, m0);
      a, mem0 := if xs[i-1].rst then [] else Pushed(ss[i-1], a0), if xs[i-1].rst then ss[i].mem else NextMem0(ss[i-1], m0, ss[i]);
    }
  }

  /** After any reset, under any inputs whatever (starts while busy, resets in mid-command, an operand
      RAM that changes all the time), nothing is left in the pipeline outside S_STREAM. */
  lemma Quiescence(p: Params, ss: seq<Top>, xs: seq<In>, i: nat)
    requires Run(p, ss, xs) && |xs| > 0 && xs[0].rst && 0 < i < |ss|
    requires forall j :: 0 <= j < |xs| && xs[j].start ==> Fits(p, xs[j].cmd)
    ensures !ss[i].fsm.Streaming? ==> Quiet(p, ss[i])
  {
    var a, mem0 := InvAlways(p, ss, xs, i);
  }

  // --- one command ---

  /** A command with the weight and activation rows it refers to. */
  datatype Job = Job(c: Command, w: Mat8, a: Mat8) {
    predicate Valid(p: Params) {
      p.Valid() && Shape(w, p.n, p.n) && Shape(a, c.mRows, p.n) && Fits(p, c)
    }
  }

  /** The operand RAM holds the rows of the job. */
  ghost predicate Operands(p: Params, aw: Mat8, job: Job)
    requires job.Valid(p) && Shape(aw, p.d, p.n)
  {
    (forall i :: 0 <= i < p.n ==> aw[Addr(p, job.c.wBase, i)] == job.w[i]) &&
    (forall k :: 0 <= k < job.c.mRows ==> aw[Addr(p, job.c.aBase, k)] == job.a[k])
  }

  /** The golden effect of a job on the result RAM. */
  function Golden(p: Params, mem: Mat32, job: Job): (mem': Mat32)
    requires job.Valid(p) && Shape(mem, p.d, p.n)
    ensures Shape(mem', p.d, p.n)
  {
    WriteResults(p, mem, job.c.cBase, job.a, job.w, job.c.mRows)
  }

  /** How far the job has got in state `s`; `mem0` is the result RAM from before the job. */
  ghost predicate Executing(p: Params, s: Top, job: Job, mem0: Mat32)
    requires job.Valid(p)
  {
    s.Valid(p) && s.cmd == job.c && !s.fsm.Idle? &&
    (s.fsm.LoadAddr? || s.fsm.LoadData? ==> s.li < p.n && forall i :: 0 <= i < s.li ==> s.weightBuf[i] == job.w[i]) &&
    (s.fsm.LoadData? ==> s.rdData == job.w[s.li]) &&
    (s.fsm.LoadPulse? ==> s.weightBuf == job.w) &&
    (s.fsm.Prefetch? || s.fsm.Streaming? || s.fsm.Done? ==> s.grid.weight == job.w) &&
    (s.fsm.Streaming? && s.cyc < job.c.mRows ==> s.rdData == job.a[s.cyc]) &&
    (if s.fsm.Streaming? then Inv(p, s, job.a[..Min(s.cyc, job.c.mRows)], mem0)
     else if s.fsm.Done? then Inv(p, s, job.a, mem0)
     else Quiet(p, s) && s.mem == mem0)
  }

  /** Edges left until the done pulse. */
  function Remaining(p: Params, s: Top): int
    requires p.Valid()
  {
    var stream := s.cmd.mRows + Skewness(p);
    match s.fsm
    case Idle => 0
    case LoadAddr => 2 * (p.n - s.li) + 2 + stream + 1
    case LoadData => 2 * (p.n - s.li) + 1 + stream + 1
    case LoadPulse => 2 + stream + 1
    case Prefetch => 1 + stream + 1
    case Streaming => stream - s.cyc + 1
    case Done => 1
  }

  /** The start edge puts the job on its way, M + 4N + 2 edges from done. */
  lemma StartStep(p: Params, s: Top, x: In, s': Top, job: Job)
    requires job.Valid(p) && s.Valid(p) && x.Valid(p) && s.fsm.Idle? && Quiet(p, s) && Step(p, s, x, s')
    requires !x.rst && x.start && x.cmd == job.c
    ensures Executing(p, s', job, s.mem) && !s'.done
    ensures Remaining(p, s') == job.c.mRows + 4 * p.n + 2
  {
    QuietStep(p, s, x, s');
  }

  lemma LoadStep(p: Params, s: Top, x: In, s': Top, job: Job, mem0: Mat32)
    requires job.Valid(p) && x.Valid(p) && Executing(p, s, job, mem0) && Step(p, s, x, s')
    requires !x.rst && Operands(p, x.aw, job) && !s.fsm.Streaming? && !s.fsm.Done?
    ensures Executing(p, s', job, mem0) && !s'.done
    ensures Remaining(p, s') == Remaining(p, s) - 1
  {
    QuietStep(p, s, x, s');
    match s.fsm
    case LoadAddr =>
      assert x.aw[Addr(p, job.c.wBase, s.li)] == job.w[s.li];
    case LoadData =>
      assert forall i :: 0 <= i <= s.li ==> s'.weightBuf[i] == job.w[i];
      if s.li == p.n - 1 { assert s'.weightBuf == job.w; }
    case LoadPulse =>
    case Prefetch =>
      StreamBegins(p, s');
      if job.c.mRows > 0 { assert x.aw[Addr(p, job.c.aBase, 0)] == job.a[0]; }
      assert job.a[..0] == [];
  }

  /** The push of this cycle extends the pushed prefix of the activation rows. */
  lemma PushedPrefix(s: Top, a: Mat8)
    requires s.fsm.Streaming? && |a| == s.cmd.mRows && (s.cyc < |a| ==> s.rdData == a[s.cyc])
    ensures Pushed(s, a[..Min(s.cyc, |a|)]) == a[..Min(s.cyc + 1, |a|)]
  {
  }

  /** The RAM is read one row ahead. */
  lemma ReadAhead(p: Params, s: Top, x: In, s': Top, job: Job)
    requires job.Valid(p) && s.Valid(p) && x.Valid(p) && Step(p, s, x, s') && Operands(p, x.aw, job)
    requires s.fsm.Streaming? && s.cmd == job.c && s.cyc < s.cmd.mRows + Skewness(p)
    ensures s.cyc + 1 < job.c.mRows ==> s'.rdData == job.a[s.cyc + 1]
  {
    CountersDoNotWrap(p, s);
    if s.cyc + 1 < job.c.mRows {
      assert RdEn(s) && s'.rdData == x.aw[RdAddr(p, s)];
      assert x.aw[Addr(p, job.c.aBase, s.cyc + 1)] == job.a[s.cyc + 1];
    }
  }

  lemma StreamingStep(p: Params, s: Top, x: In, s': Top, job: Job, mem0: Mat32)
    requires job.Valid(p) && x.Valid(p) && Executing(p, s, job, mem0) && Step(p, s, x, s')
    requires !x.rst && Operands(p, x.aw, job) && s.fsm.Streaming?
    ensures Executing(p, s', job, mem0) && !s'.done
    ensures Remaining(p, s') == Remaining(p, s) - 1
  {
    PushedPrefix(s, job.a);
    ReadAhead(p, s, x, s', job);
    StreamStep(p, s, x, s', job.a[..Min(s.cyc, job.c.mRows)], mem0);
    StreamFsm(p, s, x, s');
    if s'.fsm.Done? { assert job.a[..job.c.mRows] == job.a; }
  }

  lemma ExecutingStep(p: Params, s: Top, x: In, s': Top, job: Job, mem0: Mat32)
    requires job.Valid(p) && x.Valid(p) && Executing(p, s, job, mem0) && Step(p, s, x, s')
    requires !x.rst && Operands(p, x.aw, job) && !s.fsm.Done?
    ensures Executing(p, s', job, mem0) && !s'.done
    ensures Remaining(p, s') == Remaining(p, s) - 1
  {
    if s.fsm.Streaming? { StreamingStep(p, s, x, s', job, mem0); } else { LoadStep(p, s, x, s', job, mem0); }
  }

  /** The last edge raises done, with exactly the golden rows in the result RAM. */
  lemma DoneStep(p: Params, s: Top, x: In, s': Top, job: Job, mem0: Mat32)
    requires job.Valid(p) && x.Valid(p) && Executing(p, s, job, mem0) && Step(p, s, x, s')
    requires !x.rst && s.fsm.Done?
    ensures s'.Valid(p) && s'.fsm.Idle? && s'.done && Quiet(p, s')
    ensures Shape(mem0, p.d, p.n) && s'.mem == Golden(p, mem0, job)
  {
    QuietStep(p, s, x, s');
  }

  /** The write port during a job: row `k` is written `M + 1 - k` edges before done, and nothing else is. */
  lemma WritePort(p: Params, s: Top, job: Job, mem0: Mat32)
    requires job.Valid(p) && Executing(p, s, job, mem0)
    ensures Remaining(p, s) >= 1
    ensures WrEn(p, s) <==> 2 <= Remaining(p, s) <= job.c.mRows + 1
    ensures WrEn(p, s) ==> var k := job.c.mRows + 1 - Remaining(p, s);
      WrAddr(p, s) == Addr(p, job.c.cBase, k) && WrData(p, s) == RowTimes(job.a[k], job.w, p.n)
  {
    if WrEn(p, s) {
      var a := job.a[..Min(s.cyc, job.c.mRows)];
      WriteIsResultRow(p, s, a);
    }
  }

  /** In edges `t .. t + latency` of the run, `job` is started and its operands stay in place. The
      rest of the operand RAM may change meanwhile, and further start pulses may arrive. */
  ghost predicate Issued(p: Params, ss: seq<Top>, xs: seq<In>, t: nat, job: Job)
    requires Run(p, ss, xs) && job.Valid(p)
  {
    t + Latency(p, job) < |xs| && xs[t].start && xs[t].cmd == job.c &&
    (forall i :: t <= i <= t + Latency(p, job) ==> !xs[i].rst) &&
    (forall i :: t < i <= t + Latency(p, job) ==> Operands(p, xs[i].aw, job))
  }

  /** Edges from the start edge to the done pulse. */
  function Latency(p: Params, job: Job): nat { job.c.mRows + 4 * p.n + 2 }

  lemma {:induction false} JobProgress(p: Params, ss: seq<Top>, xs: seq<In>, t: nat, job: Job, i: nat)
    requires Run(p, ss, xs) && job.Valid(p) && Issued(p, ss, xs, t, job)
    requires ss[t].fsm.Idle? && Quiet(p, ss[t])
    requires t < i <= t + Latency(p, job)
    ensures Executing(p, ss[i], job, ss[t].mem) && !ss[i].done
    ensures Remaining(p, ss[i]) == t + 1 + Latency(p, job) - i
  {
    hide Executing, Quiet, Step, Operands;
    assert Step(p, ss[i-1], xs[i-1], ss[i]);
    if i == t + 1 {
      StartStep(p, ss[t], xs[t], ss[i], job);
    } else {
      JobProgress(p, ss, xs, t, job, i - 1);
      ExecutingStep(p, ss[i-1], xs[i-1], ss[i], job, ss[t].mem);
    }
  }

  /** End to end: from any quiet idle state one start pulse reaches done after exactly M + 4N + 2 further
      edges, not earlier, with the golden rows written and every other result word unchanged. */
  lemma EndToEnd(p: Params, ss: seq<Top>, xs: seq<In>, t: nat, job: Job)
    requires Run(p, ss, xs) && job.Valid(p) && Issued(p, ss, xs, t, job)
    requires ss[t].fsm.Idle? && Quiet(p, ss[t])
    ensures var end := t + 1 + Latency(p, job);
      ss[end].done && ss[end].fsm.Idle? && Quiet(p, ss[end]) && ss[end].mem == Golden(p, ss[t].mem, job)
    ensures forall i :: t < i <= t + Latency(p, job) ==> !ss[i].done && !ss[i].fsm.Idle?
  {
    var last := t + Latency(p, job);
    JobProgress(p, ss, xs, t, job, last);
    assert Step(p, ss[last], xs[last], ss[last+1]);
    DoneStep(p, ss[last], xs[last], ss[last+1], job, ss[t].mem);
    forall i | t < i <= t + Latency(p, job)
      ensures !ss[i].done && !ss[i].fsm.Idle?
    {
      JobProgress(p, ss, xs, t, job, i);
    }
  }

  /** The latency is within the budget of the stream testbench, for every grid size. */
  lemma LatencyWithinBudget(p: Params, job: Job)
    ensures Latency(p, job) <= job.c.mRows + (2 * p.n + p.n * p.n + 16)
  {
    assert (p.n - 1) * (p.n - 1) >= 0;
  }

  /** The write port over a job: row `k` is written on edge `4N + 2 + k` after the start edge, so the M
      writes are on consecutive edges, in order, once each, and there is no other write. */
  lemma WriteStream(p: Params, ss: seq<Top>, xs: seq<In>, t: nat, job: Job, i: nat)
    requires Run(p, ss, xs) && job.Valid(p) && Issued(p, ss, xs, t, job)
    requires ss[t].fsm.Idle? && Quiet(p, ss[t])
    requires t <= i <= t + 1 + Latency(p, job)
    ensures WrEn(p, ss[i]) <==> 0 <= i - t - (4 * p.n + 2) < job.c.mRows
    ensures WrEn(p, ss[i]) ==> var k := i - t - (4 * p.n + 2);
      ss[i].fsm.Streaming? && WrAddr(p, ss[i]) == Addr(p, job.c.cBase, k) && WrData(p, ss[i]) == RowTimes(job.a[k], job.w, p.n)
  {
    if t < i <= t + Latency(p, job) {
      JobProgress(p, ss, xs, t, job, i);
      WritePort(p, ss[i], job, ss[t].mem);
    } else {
      EndToEnd(p, ss, xs, t, job);
    }
  }

  /** The read port over a job: weight row `j` is fetched on edge `1 + 2j` after the start edge and activation row `k`
      on edge `2N + 2 + k` (row 0 even if there are no rows), and there is no other read. */
  lemma ReadStream(p: Params, ss: seq<Top>, xs: seq<In>, t: nat, job: Job, i: nat)
    requires Run(p, ss, xs) && job.Valid(p) && Issued(p, ss, xs, t, job)
    requires ss[t].fsm.Idle? && Quiet(p, ss[t])
    requires t <= i <= t + 1 + Latency(p, job)
    ensures var e := i - t;
      var weight := 1 <= e < 2 * p.n + 1 && e % 2 == 1;
      var act := e == 2 * p.n + 2 || 2 * p.n + 2 < e < 2 * p.n + 2 + job.c.mRows;
      (RdEn(ss[i]) <==> weight || act) &&
      (weight ==> RdAddr(p, ss[i]) == Addr(p, job.c.wBase, e / 2)) && (act ==> RdAddr(p, ss[i]) == Addr(p, job.c.aBase, e - (2 * p.n + 2)))
  {
    if t < i <= t + Latency(p, job) {
      JobProgress(p, ss, xs, t, job, i);
      ReadPort(p, ss[i], job, ss[t].mem, i - t);
    } else {
      EndToEnd(p, ss, xs, t, job);
    }
  }

  lemma ReadPort(p: Params, s: Top, job: Job, mem0: Mat32, e: nat)
    requires job.Valid(p) && Executing(p, s, job, mem0) && Remaining(p, s) == 1 + Latency(p, job) - e && 1 <= e <= Latency(p, job)
    ensures var weight := 1 <= e < 2 * p.n + 1 && e % 2 == 1;
      var act := e == 2 * p.n + 2 || 2 * p.n + 2 < e < 2 * p.n + 2 + job.c.mRows;
      (RdEn(s) <==> weight || act) &&
      (weight ==> RdAddr(p, s) == Addr(p, job.c.wBase, e / 2)) && (act ==> RdAddr(p, s) == Addr(p, job.c.aBase, e - (2 * p.n + 2)))
  {
    hide Addr, Quiet;
    match s.fsm
    case LoadAddr => assert e == 1 + 2 * s.li;
    case LoadData => assert e == 2 + 2 * s.li;
    case Streaming => assert s.cyc < s.cmd.mRows + Skewness(p);
    case _ =>
  }

  // --- what the golden rows are, word by word ---

  /** Within the RAM's depth distinct offsets have distinct addresses. */
  lemma AddrInjective(p: Params, base: nat, i: nat, j: nat)
    requires p.Valid() && i < p.d && j < p.d && i != j
    ensures Addr(p, base, i) != Addr(p, base, j)
  {
    if i < j { ModInjective(base + i, base + j, p.d); } else { ModInjective(base + j, base + i, p.d); }
  }

  lemma {:induction false} WriteResultsWord(p: Params, mem: Mat32, cBase: nat, a: Mat8, w: Mat8, k: nat, j: nat)
    requires p.Valid() && Shape(mem, p.d, p.n) && Shape(a, |a|, p.n) && Shape(w, p.n, p.n) && k <= |a| && j < k <= p.d
    ensures WriteResults(p, mem, cBase, a, w, k)[Addr(p, cBase, j)] == RowTimes(a[j], w, p.n)
  {
    if j < k - 1 {
      WriteResultsWord(p, mem, cBase, a, w, k - 1, j);
      AddrInjective(p, cBase, j, k - 1);
    }
  }

  lemma {:induction false} WriteResultsElsewhere(p: Params, mem: Mat32, cBase: nat, a: Mat8, w: Mat8, k: nat, addr: nat)
    requires p.Valid() && Shape(mem, p.d, p.n) && Shape(a, |a|, p.n) && Shape(w, p.n, p.n) && k <= |a| && addr < p.d
    requires forall i :: 0 <= i < k ==> Addr(p, cBase, i) != addr
    ensures WriteResults(p, mem, cBase, a, w, k)[addr] == mem[addr]
  {
    if k > 0 {
      WriteResultsElsewhere(p, mem, cBase, a, w, k - 1, addr);
      assert Addr(p, cBase, k - 1) != addr;
    }
  }

  /** `sum_r A[k][r] * W[r][c]`, spelled out as the golden model has it. */
  lemma GoldenWords(p: Params, mem: Mat32, job: Job)
    requires job.Valid(p) && Shape(mem, p.d, p.n) && job.c.mRows <= p.d
    ensures forall k, c :: 0 <= k < job.c.mRows && 0 <= c < p.n ==>
      Golden(p, mem, job)[Addr(p, job.c.cBase, k)][c] == Wrap32(Dot(job.a[k], job.w, c, p.n))
    ensures forall addr :: 0 <= addr < p.d && (forall k :: 0 <= k < job.c.mRows ==> Addr(p, job.c.cBase, k) != addr) ==>
      Golden(p, mem, job)[addr] == mem[addr]
  {
    forall k, c | 0 <= k < job.c.mRows && 0 <= c < p.n
      ensures Golden(p, mem, job)[Addr(p, job.c.cBase, k)][c] == Wrap32(Dot(job.a[k], job.w, c, p.n))
    {
      WriteResultsWord(p, mem, job.c.cBase, job.a, job.w, job.c.mRows, k);
    }
    forall addr | 0 <= addr < p.d && (forall k :: 0 <= k < job.c.mRows ==> Addr(p, job.c.cBase, k) != addr)
      ensures Golden(p, mem, job)[addr] == mem[addr]
    {
      WriteResultsElsewhere(p, mem, job.c.cBase, job.a, job.w, job.c.mRows, addr);
    }
  }

  /** The headline: after any reset and any history, a start pulse in an idle state puts `sum_r A[k][r] * W[r][c]`
      into result word `c_base + k`, lane `c`, for every row, and leaves every other word as it was. */
  lemma AcceleratorIsCorrect(p: Params, ss: seq<Top>, xs: seq<In>, t: nat, job: Job)
    requires Run(p, ss, xs) && |xs| > 0 && xs[0].rst && 0 < t && job.Valid(p) && Issued(p, ss, xs, t, job) && job.c.mRows <= p.d
    requires forall j :: 0 <= j < |xs| && xs[j].start ==> Fits(p, xs[j].cmd)
    requires ss[t].fsm.Idle?
    ensures var end := t + 1 + Latency(p, job);
      ss[end].done && (forall i :: t < i < end ==> !ss[i].done) &&
      (forall k, c :: 0 <= k < job.c.mRows && 0 <= c < p.n ==>
        ss[end].mem[Addr(p, job.c.cBase, k)][c] == Wrap32(Dot(job.a[k], job.w, c, p.n))) &&
      forall addr :: 0 <= addr < p.d && (forall k :: 0 <= k < job.c.mRows ==> Addr(p, job.c.cBase, k) != addr) ==>
        ss[end].mem[addr] == ss[t].mem[addr]
  {
    hide Step, Quiet, Golden, Addr;
    Quiescence(p, ss, xs, t);
    EndToEnd(p, ss, xs, t, job);
    GoldenWords(p, ss[t].mem, job);
  }

  // --- many commands, no reset in between ---

  lemma {:induction false} IdleGap(p: Params, ss: seq<Top>, xs: seq<In>, t: nat, t': nat)
    requires Run(p, ss, xs) && t <= t' < |ss| && ss[t].fsm.Idle? && Quiet(p, ss[t])
    requires forall i :: t <= i < t' ==> !xs[i].rst && !xs[i].start
    ensures ss[t'].fsm.Idle? && Quiet(p, ss[t']) && ss[t'].mem == ss[t].mem
  {
    if t < t' {
      IdleGap(p, ss, xs, t, t' - 1);
      QuietStep(p, ss[t'-1], xs[t'-1], ss[t']);
    }
  }

  /** The golden effect of a list of jobs. */
  function GoldenAll(p: Params, mem: Mat32, jobs: seq<Job>): (mem': Mat32)
    requires p.Valid() && Shape(mem, p.d, p.n) && forall j :: 0 <= j < |jobs| ==> jobs[j].Valid(p)
    ensures Shape(mem', p.d, p.n)
  {
    if jobs == [] then mem else Golden(p, GoldenAll(p, mem, jobs[..|jobs|-1]), jobs[|jobs|-1])
  }

  /** Job `j` is issued at edge `ts[j]`, after its predecessor is done, with no other start in between. */
  ghost predicate InTurn(p: Params, ss: seq<Top>, xs: seq<In>, jobs: seq<Job>, ts: seq<nat>, j: nat)
    requires Run(p, ss, xs) && j < |jobs| == |ts|
  {
    jobs[j].Valid(p) && Issued(p, ss, xs, ts[j], jobs[j]) && FreeAt(p, jobs, ts, j) <= ts[j] &&
    forall i :: FreeAt(p, jobs, ts, j) <= i < ts[j] ==> !xs[i].rst && !xs[i].start
  }

  ghost predicate Session(p: Params, ss: seq<Top>, xs: seq<In>, jobs: seq<Job>, ts: seq<nat>)
    requires Run(p, ss, xs)
  {
    |ts| == |jobs| && (forall j :: 0 <= j < |jobs| ==> jobs[j].Valid(p)) &&
    forall j :: 0 <= j < |jobs| ==> InTurn(p, ss, xs, jobs, ts, j)
  }

  /** The edge from which job `j` may be started. */
  function FreeAt(p: Params, jobs: seq<Job>, ts: seq<nat>, j: nat): nat
    requires j <= |jobs| == |ts|
  {
    if j == 0 then 0 else ts[j-1] + 1 + Latency(p, jobs[j-1])
  }

  /** Any number of commands, with any idle gaps and no reset, leave the fold of their golden writes. */
  lemma {:induction false} SessionResult(p: Params, ss: seq<Top>, xs: seq<In>, jobs: seq<Job>, ts: seq<nat>, j: nat)
    requires Run(p, ss, xs) && Session(p, ss, xs, jobs, ts) && j <= |jobs|
    requires ss[0].fsm.Idle? && Quiet(p, ss[0])
    ensures FreeAt(p, jobs, ts, j) < |ss|
    ensures var s := ss[FreeAt(p, jobs, ts, j)];
      s.fsm.Idle? && Quiet(p, s) && s.mem == GoldenAll(p, ss[0].mem, jobs[..j])
  {
    hide Quiet, Step, Golden, Operands;
    if j > 0 {
      SessionResult(p, ss, xs, jobs, ts, j - 1);
      assert InTurn(p, ss, xs, jobs, ts, j - 1);
      IdleGap(p, ss, xs, FreeAt(p, jobs, ts, j - 1), ts[j-1]);
      EndToEnd(p, ss, xs, ts[j-1], jobs[j-1]);
      assert jobs[..j][..j-1] == jobs[..j-1];
    }
  }
}
