/** The register block wired to the datapath (rtl/mmio/coproc_mmio_top.sv), over whole runs: accepted commands
    are computed once each in the order they were queued, and the counters tell the truth about it. */
module MmioRuns {
  import opened Arith
  import opened Stream
  import opened StreamInvariant
  import opened StreamRuns
  import opened CmdQueue

  datatype Sys = Sys(q: Regs, t: Top) {
    predicate Valid(p: Params) { q.Valid() && t.Valid(p) }
  }

  datatype SysIn = SysIn(rst: bool, bus: Bus, aw: Mat8) {
    predicate Valid(p: Params) { Shape(aw, p.d, p.n) }
  }

  /** What the datapath sees of the register block. */
  function Wires(s: Sys, x: SysIn): In { In(x.rst, s.q.start, s.q.out, x.aw) }

  ghost predicate SysStep(p: Params, s: Sys, x: SysIn, s': Sys)
    requires p.Valid() && s.Valid(p) && x.Valid(p)
  {
    s'.q == QueueNext(s.q, p.d, x.bus, !s.t.fsm.Idle?, s.t.done, x.rst) && Step(p, s.t, Wires(s, x), s'.t)
  }

  // --- what has happened since the last reset ---

  /** The accepted commands with their operands, how many have been started and how many counted as
      done, and the result RAM as the reset left it. */
  datatype History = History(jobs: seq<Job>, popped: nat, retired: nat, mem0: Mat32)

  /** A command with the operand rows it refers to at this moment. */
  function JobAt(p: Params, aw: Mat8, c: Command): Job
    requires p.Valid() && Shape(aw, p.d, p.n)
  {
    Job(c, seq(p.n, i requires 0 <= i < p.n => aw[Addr(p, c.wBase, i)]), seq(c.mRows, k requires 0 <= k < c.mRows => aw[Addr(p, c.aBase, k)]))
  }

  function Moved(p: Params, h: History, q: Regs, x: SysIn, busy: bool, done: bool): History
    requires p.Valid() && x.Valid(p)
  {
    History(h.jobs + (if q.Enqueues(x.bus) then [JobAt(p, x.aw, q.hold)] else []),
            h.popped + (if q.Pops(busy) then 1 else 0), h.retired + (if done then 1 else 0), h.mem0)
  }

  function NextHistory(p: Params, h: History, s: Sys, x: SysIn, s': Sys): History
    requires p.Valid() && x.Valid(p)
  {
    if x.rst then History([], 0, 0, s'.t.mem) else Moved(p, h, s.q, x, !s.t.fsm.Idle?, s.t.done)
  }

  /** A command is in the datapath, or about to enter it. */
  predicate Running(s: Sys) { s.q.start || !s.t.fsm.Idle? }

  /** What is asked of the host: command lengths that do not overflow the cycle counter, and operands that
      stay in place while their command runs. Everything else it may do at any time. */
  ghost predicate Behaved(p: Params, s: Sys, x: SysIn, h: History)
    requires p.Valid() && s.Valid(p) && x.Valid(p)
  {
    x.rst ||
    ((s.q.Enqueues(x.bus) ==> Fits(p, s.q.hold)) &&
     (Running(s) && 0 < h.popped <= |h.jobs| && h.jobs[h.popped - 1].Valid(p) ==> Operands(p, x.aw, h.jobs[h.popped - 1])))
  }

  // --- the invariant ---

  predicate JobsValid(p: Params, jobs: seq<Job>) { forall j :: 0 <= j < |jobs| ==> jobs[j].Valid(p) }

  predicate JobsQueued(w: seq<Command>, jobs: seq<Job>, popped: nat) {
    popped <= |jobs| && |w| == |jobs| - popped && forall i :: 0 <= i < |w| ==> w[i] == jobs[popped + i].c
  }

  /** The FIFO holds exactly the commands not yet started, and the counter tells how many are done. */
  predicate QueueOk(p: Params, q: Regs, h: History) {
    q.Aligned() && JobsValid(p, h.jobs) && JobsQueued(q.Waiting(), h.jobs, h.popped) && q.doneCount == h.retired % 0x1_0000
  }

  /** The result RAM after the first `k` accepted commands. */
  function After(p: Params, h: History, k: nat): (mem: Mat32)
    requires p.Valid() && JobsValid(p, h.jobs) && Shape(h.mem0, p.d, p.n) && k <= |h.jobs|
    ensures Shape(mem, p.d, p.n)
  {
    GoldenAll(p, h.mem0, h.jobs[..k])
  }

  /** Where the oldest unfinished command is. */
  ghost predicate Phase(p: Params, s: Sys, h: History)
    requires p.Valid() && s.Valid(p) && JobsValid(p, h.jobs) && Shape(h.mem0, p.d, p.n) && h.popped <= |h.jobs|
  {
    if s.q.start then
      s.t.fsm.Idle? && !s.t.done && Quiet(p, s.t) && h.popped == h.retired + 1 &&
      s.q.out == h.jobs[h.retired].c && s.t.mem == After(p, h, h.retired)
    else if !s.t.fsm.Idle? then
      !s.t.done && h.popped == h.retired + 1 && Executing(p, s.t, h.jobs[h.retired], After(p, h, h.retired))
    else
      Quiet(p, s.t) && h.popped == h.retired + (if s.t.done then 1 else 0) && s.t.mem == After(p, h, h.popped)
  }

  ghost predicate SysInv(p: Params, s: Sys, h: History) {
    p.Valid() && s.Valid(p) && QueueOk(p, s.q, h) && Shape(h.mem0, p.d, p.n) && Phase(p, s, h)
  }

  /** An edge without reset from a state that satisfies the invariant, with a host that behaves. */
  ghost predicate Edge(p: Params, s: Sys, x: SysIn, s': Sys, h: History) {
    SysInv(p, s, h) && x.Valid(p) && !x.rst && Behaved(p, s, x, h) && SysStep(p, s, x, s')
  }

  lemma ResetEstablishes(p: Params, s: Sys, x: SysIn, s': Sys, h: History)
    requires p.Valid() && s.Valid(p) && x.Valid(p) && x.rst && SysStep(p, s, x, s')
    ensures SysInv(p, s', NextHistory(p, h, s, x, s'))
  {
    ResetStep(p, s.t, Wires(s, x), s'.t);
  }

  lemma JobAtValid(p: Params, aw: Mat8, c: Command)
    requires p.Valid() && Shape(aw, p.d, p.n) && Fits(p, c)
    ensures JobAt(p, aw, c).Valid(p) && Operands(p, aw, JobAt(p, aw, c))
  {
  }

  /** The queue side of one edge. */
  lemma QueueSide(p: Params, q: Regs, x: SysIn, busy: bool, done: bool, h: History)
    requires p.Valid() && x.Valid(p) && QueueOk(p, q, h) && (q.Enqueues(x.bus) ==> Fits(p, q.hold))
    ensures var q' := QueueNext(q, p.d, x.bus, busy, done, false);
      QueueOk(p, q', Moved(p, h, q, x, busy, done)) && q'.start == q.Pops(busy) &&
      (q'.start ==> h.popped < |h.jobs| && q'.out == h.jobs[h.popped].c)
  {
    var more := if q.Enqueues(x.bus) then [JobAt(p, x.aw, q.hold)] else [];
    assert Commands(more) == if q.Enqueues(x.bus) then [q.hold] else [];
    if q.Enqueues(x.bus) { JobAtValid(p, x.aw, q.hold); }
    hide QueueNext, Operands, JobAt, Commands, Fits, JobsQueued, Regs.Waiting, Regs.Enqueues, Shape;
    QueueMoves(q, p.d, x.bus, busy, done, h.jobs, h.popped, more);
    Counted(q, p.d, x.bus, busy, done, h.retired);
  }

  lemma QueueMoves(q: Regs, d: nat, b: Bus, busy: bool, done: bool, jobs: seq<Job>, popped: nat, more: seq<Job>)
    requires q.Aligned() && d > 0 && JobsQueued(q.Waiting(), jobs, popped)
    requires Commands(more) == if q.Enqueues(b) then [q.hold] else []
    ensures var q' := QueueNext(q, d, b, busy, done, false);
      q'.Aligned() && JobsQueued(q'.Waiting(), jobs + more, popped + if q.Pops(busy) then 1 else 0) &&
      q'.start == q.Pops(busy) && (q'.start ==> popped < |jobs| && q'.out == jobs[popped].c)
  {
    assert |q.Waiting()| == q.cnt;
    hide QueueNext, Commands, JobsQueued, Regs.Waiting, Regs.Enqueues;
    FifoOrder(q, d, b, busy, done);
    var all := q.Waiting() + Commands(more);
    assert all[0..] == all;
    JobsMove(q.Waiting(), jobs, popped, more, if q.Pops(busy) then 1 else 0);
  }

  lemma JobsMove(w: seq<Command>, jobs: seq<Job>, popped: nat, more: seq<Job>, first: nat)
    requires JobsQueued(w, jobs, popped) && first <= |w|
    ensures JobsQueued((w + Commands(more))[first..], jobs + more, popped + first)
    ensures w != [] ==> popped < |jobs| && (w + Commands(more))[0] == jobs[popped].c
  {
  }

  lemma Counted(q: Regs, d: nat, b: Bus, busy: bool, done: bool, retired: nat)
    requires q.Valid() && d > 0 && q.doneCount == retired % 0x1_0000
    ensures QueueNext(q, d, b, busy, done, false).doneCount == (retired + if done then 1 else 0) % 0x1_0000
  {
  }

  lemma AfterPrefix(p: Params, h: History, h': History, k: nat)
    requires p.Valid() && JobsValid(p, h.jobs) && JobsValid(p, h'.jobs) && Shape(h.mem0, p.d, p.n) && h'.mem0 == h.mem0
    requires h.jobs <= h'.jobs && k <= |h.jobs|
    ensures After(p, h', k) == After(p, h, k)
  {
    assert h'.jobs[..k] == h.jobs[..k];
  }

  lemma AfterOneMore(p: Params, h: History, k: nat)
    requires p.Valid() && JobsValid(p, h.jobs) && Shape(h.mem0, p.d, p.n) && k < |h.jobs|
    ensures After(p, h, k + 1) == Golden(p, After(p, h, k), h.jobs[k])
  {
    assert h.jobs[..k + 1][..k] == h.jobs[..k];
  }

  lemma NotIdle(p: Params, t: Top, job: Job, mem0: Mat32)
    requires job.Valid(p) && Executing(p, t, job, mem0)
    ensures !t.fsm.Idle?
  {
  }

  /** The datapath side of one edge. */
  lemma DatapathSide(p: Params, s: Sys, x: SysIn, s': Sys, h: History)
    requires Edge(p, s, x, s', h)
    requires h.popped <= |h.jobs|
    ensures s'.t.Valid(p)
    ensures s.q.start ==> s'.t.fsm.LoadAddr? && !s'.t.done && Executing(p, s'.t, h.jobs[h.retired], After(p, h, h.retired))
    ensures !s.q.start && !s.t.fsm.Idle? && !s.t.fsm.Done? ==>
      !s'.t.done && !s'.t.fsm.Idle? && Executing(p, s'.t, h.jobs[h.retired], After(p, h, h.retired))
    ensures !s.q.start && s.t.fsm.Done? ==>
      s'.t.done && s'.t.fsm.Idle? && Quiet(p, s'.t) && s'.t.mem == After(p, h, h.popped)
    ensures !s.q.start && s.t.fsm.Idle? ==>
      !s'.t.done && s'.t.fsm.Idle? && Quiet(p, s'.t) && s'.t.mem == s.t.mem
  {
    hide QueueNext, Operands, Executing, Golden, GoldenAll;
    var i := Wires(s, x);
    if s.q.start {
      StartStep(p, s.t, i, s'.t, h.jobs[h.retired]);
    } else if s.t.fsm.Done? {
      DoneStep(p, s.t, i, s'.t, h.jobs[h.retired], After(p, h, h.retired));
      AfterOneMore(p, h, h.retired);
    } else if !s.t.fsm.Idle? {
      ExecutingStep(p, s.t, i, s'.t, h.jobs[h.retired], After(p, h, h.retired));
      NotIdle(p, s'.t, h.jobs[h.retired], After(p, h, h.retired));
    } else {
      QuietStep(p, s.t, i, s'.t);
    }
  }

  lemma PhaseKept(p: Params, s: Sys, x: SysIn, s': Sys, h: History)
    requires Edge(p, s, x, s', h)
    requires QueueOk(p, s'.q, NextHistory(p, h, s, x, s')) && s'.t.Valid(p) && s'.q.start == s.q.Pops(!s.t.fsm.Idle?)
    requires s'.q.start ==> h.popped < |h.jobs| && s'.q.out == h.jobs[h.popped].c
    ensures Phase(p, s', NextHistory(p, h, s, x, s'))
  {
    hide QueueNext, Operands, Executing, Golden, GoldenAll, Step, Behaved, After, Quiet, Regs.Enqueues, JobAt;
    var h' := NextHistory(p, h, s, x, s');
    DatapathSide(p, s, x, s', h);
    AfterPrefix(p, h, h', h.popped);
    AfterPrefix(p, h, h', h.retired);
  }

  lemma InvKept(p: Params, s: Sys, x: SysIn, s': Sys, h: History)
    requires Edge(p, s, x, s', h)
    ensures SysInv(p, s', NextHistory(p, h, s, x, s'))
  {
    hide QueueNext, Operands, Executing, Golden, GoldenAll, Step, Phase, JobAt, Regs.Enqueues, Regs.Pops, Fits;
    QueueSide(p, s.q, x, !s.t.fsm.Idle?, s.t.done, h);
    DatapathSide(p, s, x, s', h);
    PhaseKept(p, s, x, s', h);
  }

  // --- every reachable state ---

  /** `ss[i]` and `hs[i]` are the state and the history before edge `i`, `xs[i]` the inputs of edge `i`.
      Edge 0 is a reset; the state before it is arbitrary. */
  ghost predicate SysRun(p: Params, ss: seq<Sys>, xs: seq<SysIn>, hs: seq<History>) {
    p.Valid() && |ss| == |hs| == |xs| + 1 && |xs| > 0 && xs[0].rst &&
    (forall i :: 0 <= i < |ss| ==> ss[i].Valid(p)) && (forall i :: 0 <= i < |xs| ==> xs[i].Valid(p)) &&
    forall i :: 0 <= i < |xs| ==> RunEdge(p, ss[i], xs[i], hs[i], ss[i+1], hs[i+1])
  }

  ghost predicate RunEdge(p: Params, s: Sys, x: SysIn, h: History, s': Sys, h': History)
    requires p.Valid() && s.Valid(p) && x.Valid(p)
  {
    SysStep(p, s, x, s') && h' == NextHistory(p, h, s, x, s') && Behaved(p, s, x, h)
  }

  lemma {:induction false} InvAlways(p: Params, ss: seq<Sys>, xs: seq<SysIn>, hs: seq<History>, i: nat)
    requires SysRun(p, ss, xs, hs) && 0 < i < |ss|
    ensures SysInv(p, ss[i], hs[i])
  {
    hide SysStep, NextHistory, Behaved, SysInv, Sys.Valid, SysIn.Valid;
    assert RunEdge(p, ss[i-1], xs[i-1], hs[i-1], ss[i], hs[i]);
    if i > 1 { InvAlways(p, ss, xs, hs, i - 1); }
    if xs[i-1].rst { ResetEstablishes(p, ss[i-1], xs[i-1], ss[i], hs[i-1]); } else { InvKept(p, ss[i-1], xs[i-1], ss[i], hs[i-1]); }
  }

  /** Queue empty and not busy in STATUS, as sw/coproc_mmio.h waits for it, means that every accepted command
      has been computed, once and in order, and counted; nothing else has been written. */
  lemma IdleMeansDone(p: Params, ss: seq<Sys>, xs: seq<SysIn>, hs: seq<History>, i: nat)
    requires SysRun(p, ss, xs, hs) && 0 < i < |ss|
    ensures JobsValid(p, hs[i].jobs) && Shape(hs[i].mem0, p.d, p.n)
    ensures var status := ss[i].q.Status(!ss[i].t.fsm.Idle?, ss[i].t.done);
      (status / 4 % 2 == 1 && status % 2 == 0 <==> hs[i].retired == |hs[i].jobs|) && status / 0x1_0000 == hs[i].retired % 0x1_0000
    ensures hs[i].retired == |hs[i].jobs| ==> ss[i].t.mem == GoldenAll(p, hs[i].mem0, hs[i].jobs)
  {
    assert |hs| == |ss| == |xs| + 1;
    hide SysRun, Executing, Quiet, GoldenAll, Regs.Status;
    InvAlways(p, ss, xs, hs, i);
    IdleStatus(ss[i].q, !ss[i].t.fsm.Idle?, ss[i].t.done);
    if hs[i].retired == |hs[i].jobs| { assert hs[i].jobs[..hs[i].popped] == hs[i].jobs; }
  }

  /** At most four commands wait and one runs; CMD is obeyed exactly while fewer than four wait. */
  lemma QueueDepth(p: Params, ss: seq<Sys>, xs: seq<SysIn>, hs: seq<History>, i: nat)
    requires SysRun(p, ss, xs, hs) && 0 < i < |xs| && !xs[i].rst
    ensures hs[i].retired <= hs[i].popped <= |hs[i].jobs| <= hs[i].popped + 4 && hs[i].popped <= hs[i].retired + 1
    ensures var b := xs[i].bus;
      b.wen && (b.funct3 == 2 || b.funct3 == 3) && b.addr == 0x1000_0020 && b.wdata % 2 == 1 ==>
      |hs[i+1].jobs| == |hs[i].jobs| + if |hs[i].jobs| - hs[i].popped < 4 then 1 else 0
  {
    hide Executing, Quiet, GoldenAll, Step, QueueNext, Behaved;
    InvAlways(p, ss, xs, hs, i);
    assert RunEdge(p, ss[i], xs[i], hs[i], ss[i+1], hs[i+1]);
  }

  // --- results stay readable ---

  lemma UntouchedByRunning(p: Params, t: Top, job: Job, mem0: Mat32, addr: nat)
    requires job.Valid(p) && Executing(p, t, job, mem0) && addr < p.d
    requires forall k :: 0 <= k < job.c.mRows ==> Addr(p, job.c.cBase, k) != addr
    ensures Shape(mem0, p.d, p.n) && t.mem[addr] == mem0[addr]
  {
    if t.fsm.Streaming? {
      var a := job.a[..Min(t.cyc, job.c.mRows)];
      WriteResultsElsewhere(p, mem0, job.c.cBase, a, t.grid.weight, Written(p, t.cyc), addr);
    } else if t.fsm.Done? {
      WriteResultsElsewhere(p, mem0, job.c.cBase, job.a, t.grid.weight, |job.a|, addr);
    }
  }

  /** Outside the C region of the command in progress the result RAM already is what the commands counted
      so far make of it: the host may read a counted command's rows while later ones run. */
  lemma CountedResultsReadable(p: Params, s: Sys, h: History, addr: nat)
    requires SysInv(p, s, h) && addr < p.d && h.popped <= |h.jobs|
    requires h.retired < h.popped ==> forall k :: 0 <= k < h.jobs[h.retired].c.mRows ==> Addr(p, h.jobs[h.retired].c.cBase, k) != addr
    ensures h.retired <= |h.jobs| && s.t.mem[addr] == After(p, h, h.retired)[addr]
  {
    hide Executing, Quiet, Addr;
    if s.q.start {
    } else if !s.t.fsm.Idle? {
      UntouchedByRunning(p, s.t, h.jobs[h.retired], After(p, h, h.retired), addr);
    } else if s.t.done {
      var job := h.jobs[h.retired];
      AfterOneMore(p, h, h.retired);
      WriteResultsElsewhere(p, After(p, h, h.retired), job.c.cBase, job.a, job.w, job.c.mRows, addr);
    }
  }

  // --- every accepted command is computed in time ---

  /** Edges that `jobs` take from the FIFO: a pop, a start and the datapath's latency each. */
  function QueuedWork(p: Params, jobs: seq<Job>): nat {
    if jobs == [] then 0 else 2 + Latency(p, jobs[0]) + QueuedWork(p, jobs[1..])
  }

  /** Edges until everything accepted so far is counted. */
  function WorkLeft(p: Params, s: Sys, h: History): int
    requires p.Valid() && h.popped <= |h.jobs| && (s.q.start ==> h.retired < |h.jobs|)
  {
    QueuedWork(p, h.jobs[h.popped..]) + (if h.retired < |h.jobs| then 1 else 0) +
    if s.q.start then 1 + Latency(p, h.jobs[h.retired]) else if !s.t.fsm.Idle? then Remaining(p, s.t) else 0
  }

  lemma RemainingStep(p: Params, s: Sys, x: SysIn, s': Sys, h: History)
    requires Edge(p, s, x, s', h)
    requires h.popped <= |h.jobs|
    ensures s.q.start ==> Remaining(p, s'.t) == Latency(p, h.jobs[h.retired])
    ensures !s.q.start && !s.t.fsm.Idle? && !s.t.fsm.Done? ==> Remaining(p, s'.t) == Remaining(p, s.t) - 1
  {
    hide QueueNext, Operands, Executing, Golden, GoldenAll;
    if s.q.start {
      StartStep(p, s.t, Wires(s, x), s'.t, h.jobs[h.retired]);
    } else if !s.t.fsm.Idle? && !s.t.fsm.Done? {
      ExecutingStep(p, s.t, Wires(s, x), s'.t, h.jobs[h.retired], After(p, h, h.retired));
    }
  }

  /** Without a new command every edge brings the end one edge closer. */
  lemma WorkStep(p: Params, s: Sys, x: SysIn, s': Sys, h: History)
    requires Edge(p, s, x, s', h)
    requires !s.q.Enqueues(x.bus) && h.popped <= |h.jobs| && (s.q.start ==> h.retired < |h.jobs|)
    ensures var h' := NextHistory(p, h, s, x, s');
      h'.popped <= |h'.jobs| && (s'.q.start ==> h'.retired < |h'.jobs|) &&
      WorkLeft(p, s', h') == if h.retired < |h.jobs| then WorkLeft(p, s, h) - 1 else 0
  {
    QueueSide(p, s.q, x, !s.t.fsm.Idle?, s.t.done, h);
    DatapathSide(p, s, x, s', h);
    RemainingStep(p, s, x, s', h);
    if s.q.Pops(!s.t.fsm.Idle?) { assert h.jobs[h.popped..][1..] == h.jobs[h.popped + 1..]; }
    assert h.jobs + [] == h.jobs;
    hide QueueNext, Operands, Executing, Golden, GoldenAll, Step, Behaved, After, Quiet, JobAt, Regs.Enqueues, Regs.Waiting, Shape, Job.Valid;
  }

  /** Edges `i .. i + k` bring no reset and no new command. */
  ghost predicate NothingNew(ss: seq<Sys>, xs: seq<SysIn>, i: nat, k: nat)
    requires |ss| == |xs| + 1
  {
    i + k < |ss| && forall j :: i <= j < i + k ==> !xs[j].rst && !ss[j].q.Enqueues(xs[j].bus)
  }

  /** Left alone, the device counts the last accepted command after exactly the work left: polling STATUS ends. */
  lemma {:induction false} Drains(p: Params, ss: seq<Sys>, xs: seq<SysIn>, hs: seq<History>, i: nat, k: nat)
    requires SysRun(p, ss, xs, hs) && 0 < i && NothingNew(ss, xs, i, k)
    ensures hs[i].popped <= |hs[i].jobs| && (ss[i].q.start ==> hs[i].retired < |hs[i].jobs|)
    ensures hs[i+k].popped <= |hs[i+k].jobs| && (ss[i+k].q.start ==> hs[i+k].retired < |hs[i+k].jobs|)
    ensures var left := WorkLeft(p, ss[i], hs[i]);
      WorkLeft(p, ss[i+k], hs[i+k]) == (if k < left then left - k else 0) &&
      (hs[i+k].retired == |hs[i+k].jobs| <==> k >= left)
  {
    hide SysStep, Behaved, SysInv, WorkLeft, Sys.Valid, SysIn.Valid;
    InvAlways(p, ss, xs, hs, i + k);
    WorkIsLeft(p, ss[i+k], hs[i+k]);
    if k > 0 {
      Drains(p, ss, xs, hs, i, k - 1);
      InvAlways(p, ss, xs, hs, i + k - 1);
      assert RunEdge(p, ss[i+k-1], xs[i+k-1], hs[i+k-1], ss[i+k], hs[i+k]);
      WorkStep(p, ss[i+k-1], xs[i+k-1], ss[i+k], hs[i+k-1]);
    }
  }

  lemma WorkIsLeft(p: Params, s: Sys, h: History)
    requires SysInv(p, s, h)
    ensures h.popped <= |h.jobs| && (s.q.start ==> h.retired < |h.jobs|) && h.retired <= |h.jobs|
    ensures WorkLeft(p, s, h) >= 0 && (WorkLeft(p, s, h) == 0 <==> h.retired == |h.jobs|)
  {
    if !s.q.start && !s.t.fsm.Idle? { WritePort(p, s.t, h.jobs[h.retired], After(p, h, h.retired)); }
  }

  // --- the interrupt flag ---

  /** IRQ_PENDING is written with a one. */
  predicate Clears(b: Bus) { b.wen && (b.funct3 == 2 || b.funct3 == 3) && b.addr == 0x1000_0030 && b.wdata / 2 % 2 == 1 }

  /** Completion `t` has been seen by no clear before edge `i`; a clear on the completion's own edge loses to it. */
  predicate Unanswered(ss: seq<Sys>, xs: seq<SysIn>, t: nat, i: nat)
    requires |ss| == |xs| + 1 && t < i < |ss|
  {
    ss[t].t.done && forall j :: t < j < i ==> !Clears(xs[j].bus)
  }

  lemma PendingStep(p: Params, s: Sys, x: SysIn, s': Sys)
    requires p.Valid() && s.Valid(p) && x.Valid(p) && SysStep(p, s, x, s')
    ensures s'.q.pending <==> !x.rst && (s.t.done || (s.q.pending && !Clears(x.bus)))
  {
  }

  /** Since a reset on edge `r`, the flag is set exactly when some completion has not been answered by a clear. */
  lemma {:induction false} PendingMeansUnanswered(p: Params, ss: seq<Sys>, xs: seq<SysIn>, hs: seq<History>, r: nat, i: nat)
    requires SysRun(p, ss, xs, hs) && r < i < |ss| && xs[r].rst && forall j :: r < j < i ==> !xs[j].rst
    ensures ss[i].q.pending <==> exists t :: r < t < i && Unanswered(ss, xs, t, i)
  {
    hide SysStep, Behaved, NextHistory, Clears, Sys.Valid, SysIn.Valid;
    assert RunEdge(p, ss[i-1], xs[i-1], hs[i-1], ss[i], hs[i]);
    PendingStep(p, ss[i-1], xs[i-1], ss[i]);
    if i - 1 > r {
      PendingMeansUnanswered(p, ss, xs, hs, r, i - 1);
      if ss[i].q.pending && !ss[i-1].t.done {
        var t :| r < t < i - 1 && Unanswered(ss, xs, t, i - 1);
        assert Unanswered(ss, xs, t, i);
      }
      if t :| r < t < i - 1 && Unanswered(ss, xs, t, i) {
        assert Unanswered(ss, xs, t, i - 1) && !Clears(xs[i-1].bus);
      }
      assert Unanswered(ss, xs, i - 1, i) <==> ss[i-1].t.done;
    }
  }

  // --- how far apart completions are ---

  /** Edge `i` follows the completion at `t` with no reset since and no completion in between. */
  ghost predicate AfterDone(ss: seq<Sys>, xs: seq<SysIn>, t: nat, i: nat)
    requires |ss| == |xs| + 1
  {
    t < i < |ss| && ss[t].t.done && (forall j :: t <= j < i ==> !xs[j].rst) && forall j :: t < j < i ==> !ss[j].t.done
  }

  /** Since that completion the next command has come as far as the clock allows, and no further. */
  predicate ComeAlong(p: Params, s: Sys, h: History, elapsed: nat)
    requires p.Valid()
  {
    (!s.q.start && !s.t.fsm.Idle? ==> h.retired < |h.jobs| && elapsed >= 2 + Latency(p, h.jobs[h.retired]) - Remaining(p, s.t)) &&
    (s.t.done ==> h.retired < |h.jobs| && elapsed >= 2 + Latency(p, h.jobs[h.retired]))
  }

  lemma ComeAlongStep(p: Params, s: Sys, x: SysIn, s': Sys, h: History, elapsed: nat)
    requires Edge(p, s, x, s', h)
    requires !s.t.done && ComeAlong(p, s, h, elapsed) && elapsed >= 1
    ensures ComeAlong(p, s', NextHistory(p, h, s, x, s'), elapsed + 1)
  {
    WorkIsLeft(p, s, h);
    DatapathSide(p, s, x, s', h);
    RemainingStep(p, s, x, s', h);
    hide QueueNext, Operands, Executing, Golden, GoldenAll, Step, Behaved, After, Quiet, JobAt;
  }

  lemma DoneThenIdle(p: Params, s: Sys, x: SysIn, s': Sys, h: History)
    requires Edge(p, s, x, s', h) && s.t.done
    ensures ComeAlong(p, s', NextHistory(p, h, s, x, s'), 1)
  {
    WorkIsLeft(p, s, h);
    DatapathSide(p, s, x, s', h);
  }

  lemma {:induction false} Spaced(p: Params, ss: seq<Sys>, xs: seq<SysIn>, hs: seq<History>, t: nat, i: nat)
    requires SysRun(p, ss, xs, hs) && 0 < t && AfterDone(ss, xs, t, i)
    ensures ComeAlong(p, ss[i], hs[i], i - t)
  {
    hide SysStep, Behaved, SysInv, NextHistory, ComeAlong, Sys.Valid, SysIn.Valid;
    InvAlways(p, ss, xs, hs, i - 1);
    assert RunEdge(p, ss[i-1], xs[i-1], hs[i-1], ss[i], hs[i]);
    if i - 1 == t {
      DoneThenIdle(p, ss[t], xs[t], ss[i], hs[t]);
    } else {
      Spaced(p, ss, xs, hs, t, i - 1);
      ComeAlongStep(p, ss[i-1], xs[i-1], ss[i], hs[i-1], i - 1 - t);
    }
  }

  /** A completion follows the one before it by at least M + 4N + 4 edges, M being its own command's rows. */
  lemma DonesAreApart(p: Params, ss: seq<Sys>, xs: seq<SysIn>, hs: seq<History>, t: nat, u: nat)
    requires SysRun(p, ss, xs, hs) && 0 < t && AfterDone(ss, xs, t, u) && ss[u].t.done
    ensures hs[u].retired < |hs[u].jobs| && u - t >= hs[u].jobs[hs[u].retired].c.mRows + 4 * p.n + 4
  {
    Spaced(p, ss, xs, hs, t, u);
  }

  lemma {:induction false} LastDone(ss: seq<Sys>, t: nat, u: nat) returns (l: nat)
    requires t < u < |ss| && ss[t].t.done
    ensures t <= l < u && ss[l].t.done && forall j :: l < j < u ==> !ss[j].t.done
    decreases u - t
  {
    l := t;
    if j :| t < j < u && ss[j].t.done { l := LastDone(ss, j, u); }
  }

  /** Edge `j` clears the flag at most `bound` edges after the completion at `t`. */
  predicate ClearedWithin(xs: seq<SysIn>, t: nat, bound: nat, j: nat)
    requires j < |xs|
  {
    t < j <= t + bound && Clears(xs[j].bus)
  }

  /** A driver that clears the flag within M + 4N + 4 edges of every completion, for the fewest rows M that any
      command has, loses no interrupt: no completion finds the flag still set. */
  lemma PromptDriverLosesNothing(p: Params, ss: seq<Sys>, xs: seq<SysIn>, hs: seq<History>, r: nat, u: nat, bound: nat)
    requires SysRun(p, ss, xs, hs) && r < u < |xs| && xs[r].rst && (forall j :: r < j <= u ==> !xs[j].rst) && ss[u].t.done
    requires forall k :: 0 <= k < |hs[u].jobs| ==> bound <= hs[u].jobs[k].c.mRows + 4 * p.n + 4
    requires forall t :: r < t < u && ss[t].t.done && t + bound <= u ==> exists j :: t < j <= u && ClearedWithin(xs, t, bound, j)
    ensures ss[u].q.pending ==> Clears(xs[u].bus)
  {
    assert |ss| == |hs| == |xs| + 1;
    hide SysRun, Clears;
    if ss[u].q.pending {
      PendingMeansUnanswered(p, ss, xs, hs, r, u);
      var t0 :| r < t0 < u && Unanswered(ss, xs, t0, u);
      var l := LastDone(ss, t0, u);
      assert AfterDone(ss, xs, l, u);
      DonesAreApart(p, ss, xs, hs, l, u);
      assert l + bound <= u;
      var j :| l < j <= u && ClearedWithin(xs, l, bound, j);
      assert j == u;
    }
  }

  // --- the device as a driver sees it ---

  /** What a driver can tell of the device, memory aside: the commands not yet counted (oldest first), whether
      the first of them has left the FIFO, the operand registers, and the interrupt and counter fields. */
  datatype Control = Control(queue: seq<Command>, running: bool, regs: Command, irqEn: bool, pending: bool, doneCount: nat) {
    /** A store by the driver. */
    function Stored(b: Bus, d: nat): Control
      requires d > 0
    {
      if Writes(b, 0x00) then this.(regs := regs.(wBase := Mod(b.wdata, d)))
      else if Writes(b, 0x08) then this.(regs := regs.(aBase := Mod(b.wdata, d)))
      else if Writes(b, 0x10) then this.(regs := regs.(cBase := Mod(b.wdata, d)))
      else if Writes(b, 0x18) then this.(regs := regs.(mRows := U32(b.wdata)))
      else if Writes(b, 0x20) && Bit0(b.wdata) && |queue| - (if running then 1 else 0) < 4 then this.(queue := queue + [regs])
      else if Writes(b, 0x30) then this.(irqEn := Bit0(b.wdata), pending := pending && !Bit1(b.wdata))
      else this
    }

    /** The hardware counts the oldest command. */
    function Retired(): Control
      requires queue != []
    {
      this.(queue := queue[1..], running := false, doneCount := (doneCount + 1) % 0x1_0000, pending := true)
    }
  }

  function Commands(jobs: seq<Job>): (cs: seq<Command>)
    ensures |cs| == |jobs|
  {
    seq(|jobs|, i requires 0 <= i < |jobs| => jobs[i].c)
  }

  function ControlOf(s: Sys, h: History): Control
    requires h.retired <= |h.jobs|
  {
    Control(Commands(h.jobs[h.retired..]), h.popped > h.retired, s.q.hold, s.q.irqEn, s.q.pending, s.q.doneCount)
  }

  /** Counting, clearing and storing on one edge: the completion wins over the clear. */
  lemma RegistersStep(q: Regs, d: nat, b: Bus, busy: bool, done: bool, c: Control)
    requires q.Valid() && d > 0 && c.regs == q.hold && c.irqEn == q.irqEn && c.pending == q.pending && c.doneCount == q.doneCount
    ensures var q' := QueueNext(q, d, b, busy, done, false);
      var stored := c.Stored(b, d);
      q'.hold == stored.regs && q'.irqEn == stored.irqEn && q'.pending == (done || stored.pending) &&
      q'.doneCount == (if done then (stored.doneCount + 1) % 0x1_0000 else stored.doneCount) && stored.running == c.running
  {
    hide Mod, U32, FifoNext;
  }

  lemma StoredQueue(c: Control, b: Bus, d: nat)
    requires d > 0
    ensures c.Stored(b, d).queue ==
      c.queue + if Writes(b, 0x20) && Bit0(b.wdata) && |c.queue| - (if c.running then 1 else 0) < 4 then [c.regs] else []
  {
    hide Mod, U32;
  }

  lemma CommandsStep(jobs: seq<Job>, more: seq<Job>, retired: nat, done: nat)
    requires retired <= |jobs| && done <= 1 && retired + done <= |jobs|
    ensures Commands((jobs + more)[retired + done..]) == (Commands(jobs[retired..]) + Commands(more))[done..]
  {
  }

  /** Every clock edge is the driver's store of that cycle, then a retirement if a command is done, and possibly
      the next command leaving the FIFO: the contract that Coproc.Device gives the driver. */
  lemma {:induction false} EdgeIsDeviceStep(p: Params, s: Sys, x: SysIn, s': Sys, h: History)
    requires Edge(p, s, x, s', h)
    ensures var h' := NextHistory(p, h, s, x, s');
      h.retired <= |h.jobs| && h'.retired <= |h'.jobs| &&
      var stored := ControlOf(s, h).Stored(x.bus, p.d);
      (s.t.done ==> ControlOf(s, h).running && stored.queue != []) &&
      ControlOf(s', h') == (if s.t.done then stored.Retired() else stored).(running := h'.popped > h'.retired)
  {
    hide Executing, Quiet, Operands, GoldenAll, Step, Behaved, QueueNext, Control.Stored, Writes, After, Golden;
    var more := if s.q.Enqueues(x.bus) then [JobAt(p, x.aw, s.q.hold)] else [];
    assert h.retired <= h.popped <= h.retired + 1 && h.popped <= |h.jobs| && (s.t.done ==> h.popped == h.retired + 1);
    assert s.q.cnt == |h.jobs| - h.popped;
    RegistersStep(s.q, p.d, x.bus, !s.t.fsm.Idle?, s.t.done, ControlOf(s, h));
    StoredQueue(ControlOf(s, h), x.bus, p.d);
    CommandsStep(h.jobs, more, h.retired, if s.t.done then 1 else 0);
    assert Commands(more) == if s.q.Enqueues(x.bus) then [s.q.hold] else [];
  }
}
