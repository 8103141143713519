/** sw/coproc_mmio.h on the wired system: what the five stores of `coproc_matmul` and the polling loop of
    `coproc_wait` amount to, in every run and whatever edges pass between the stores. */
module CoprocMmio {
  import opened Arith
  import opened Stream
  import opened StreamRuns
  import opened CmdQueue
  import opened MmioRuns

  /** A 64-bit store, which is what the C code makes of every register write. */
  function Sd(addr: nat, v: nat): Bus { Bus(addr, v, true, 3) }

  /** A store to one of the four operand registers or to CMD. */
  predicate Programs(b: Bus) {
    b.wen && (b.funct3 == 2 || b.funct3 == 3) &&
    b.addr in {0x1000_0000, 0x1000_0008, 0x1000_0010, 0x1000_0018, 0x1000_0020}
  }

  /** The arguments of a call, and the edges of its five stores. */
  datatype Call = Call(w: nat, a: nat, c: nat, m: nat, t0: nat, t1: nat, t2: nat, t3: nat, t4: nat) {
    predicate Ordered() { t0 < t1 < t2 < t3 < t4 }
  }

  /** The call's stores happen at their edges, and from the first to the last there is no reset and no other store
      to these registers. */
  ghost predicate Made(xs: seq<SysIn>, k: Call) {
    k.Ordered() && k.t4 < |xs| &&
    xs[k.t0].bus == Sd(0x1000_0000, k.w) && xs[k.t1].bus == Sd(0x1000_0008, k.a) && xs[k.t2].bus == Sd(0x1000_0010, k.c) &&
    xs[k.t3].bus == Sd(0x1000_0018, k.m) && xs[k.t4].bus == Sd(0x1000_0020, 1) &&
    (forall i :: k.t0 <= i <= k.t4 ==> !xs[i].rst) &&
    forall i :: k.t0 < i < k.t4 && i != k.t1 && i != k.t2 && i != k.t3 ==> !Programs(xs[i].bus)
  }

  /** CMD is obeyed exactly for a store of an odd word to it while fewer than four commands wait. */
  lemma Obeyed(q: Regs, b: Bus)
    requires q.Valid()
    ensures q.Enqueues(b) <==> b.wen && (b.funct3 == 2 || b.funct3 == 3) && b.addr == 0x1000_0020 && b.wdata % 2 == 1 && q.cnt < 4
  {
  }

  /** Between two of the stores the operand registers and the list of accepted commands stand still. */
  lemma {:induction false} Still(p: Params, ss: seq<Sys>, xs: seq<SysIn>, hs: seq<History>, i: nat, j: nat)
    requires SysRun(p, ss, xs, hs) && 0 < i <= j < |ss|
    requires forall l :: i <= l < j ==> !xs[l].rst && !Programs(xs[l].bus)
    ensures ss[j].q.hold == ss[i].q.hold && hs[j].jobs == hs[i].jobs && hs[j].popped >= hs[i].popped && hs[j].mem0 == hs[i].mem0
  {
    hide SysStep, NextHistory, Behaved, Programs;
    if i < j {
      Still(p, ss, xs, hs, i, j - 1);
      assert RunEdge(p, ss[j-1], xs[j-1], hs[j-1], ss[j], hs[j]);
      OneEdge(p, ss[j-1], xs[j-1], hs[j-1], ss[j], hs[j]);
    }
  }

  /** One edge without reset, as the operand registers and the accepted commands see it. */
  lemma OneEdge(p: Params, s: Sys, x: SysIn, h: History, s': Sys, h': History)
    requires p.Valid() && s.Valid(p) && x.Valid(p) && RunEdge(p, s, x, h, s', h') && !x.rst
    ensures h'.popped >= h.popped && h'.mem0 == h.mem0
    ensures !Programs(x.bus) ==> s'.q.hold == s.q.hold && h'.jobs == h.jobs
    ensures x.bus == Sd(0x1000_0000, x.bus.wdata) ==> s'.q.hold == s.q.hold.(wBase := x.bus.wdata % p.d) && h'.jobs == h.jobs
    ensures x.bus == Sd(0x1000_0008, x.bus.wdata) ==> s'.q.hold == s.q.hold.(aBase := x.bus.wdata % p.d) && h'.jobs == h.jobs
    ensures x.bus == Sd(0x1000_0010, x.bus.wdata) ==> s'.q.hold == s.q.hold.(cBase := x.bus.wdata % p.d) && h'.jobs == h.jobs
    ensures x.bus == Sd(0x1000_0018, x.bus.wdata) ==> s'.q.hold == s.q.hold.(mRows := x.bus.wdata % 0x1_0000_0000) && h'.jobs == h.jobs
    ensures x.bus == Sd(0x1000_0020, 1) && s.q.cnt < 4 ==> h'.jobs == h.jobs + [JobAt(p, x.aw, s.q.hold)]
  {
    StoreDecode(s.q, p.d, x.bus, !s.t.fsm.Idle?, s.t.done);
    Obeyed(s.q, x.bus);
    hide QueueNext, Step, JobAt, Regs.Enqueues, Regs.Pops;
    assert h.jobs + [] == h.jobs;
  }

  /** A store to one of the four operand registers, and the quiet edges after it. */
  lemma Programmed(p: Params, ss: seq<Sys>, xs: seq<SysIn>, hs: seq<History>, t: nat, u: nat, v: nat)
    requires SysRun(p, ss, xs, hs) && 0 < t < u < |ss| && !xs[t].rst
    requires forall l :: t < l < u ==> !xs[l].rst && !Programs(xs[l].bus)
    ensures var b, hold := xs[t].bus, ss[t].q.hold;
      (b == Sd(0x1000_0000, v) ==> ss[u].q.hold == hold.(wBase := v % p.d)) &&
      (b == Sd(0x1000_0008, v) ==> ss[u].q.hold == hold.(aBase := v % p.d)) &&
      (b == Sd(0x1000_0010, v) ==> ss[u].q.hold == hold.(cBase := v % p.d)) &&
      (b == Sd(0x1000_0018, v) ==> ss[u].q.hold == hold.(mRows := v % 0x1_0000_0000)) &&
      (b == Sd(b.addr, v) && b.addr in {0x1000_0000, 0x1000_0008, 0x1000_0010, 0x1000_0018} ==>
        hs[u].jobs == hs[t].jobs && hs[u].popped >= hs[t].popped && hs[u].mem0 == hs[t].mem0)
  {
    Still(p, ss, xs, hs, t + 1, u);
    assert RunEdge(p, ss[t], xs[t], hs[t], ss[t+1], hs[t+1]);
    hide SysRun, RunEdge;
    OneEdge(p, ss[t], xs[t], hs[t], ss[t+1], hs[t+1]);
  }

  /** The four operand stores load the registers and accept nothing. */
  lemma OperandsProgrammed(p: Params, ss: seq<Sys>, xs: seq<SysIn>, hs: seq<History>, k: Call)
    requires SysRun(p, ss, xs, hs) && 0 < k.t0 && Made(xs, k)
    ensures ss[k.t4].q.hold == Command(k.w % p.d, k.a % p.d, k.c % p.d, k.m % 0x1_0000_0000)
    ensures hs[k.t4].jobs == hs[k.t0].jobs && hs[k.t4].popped >= hs[k.t0].popped && hs[k.t4].mem0 == hs[k.t0].mem0
  {
    assert |ss| == |hs| == |xs| + 1 && p.d > 0;
    hide SysRun, Programs;
    Programmed(p, ss, xs, hs, k.t0, k.t1, k.w);
    Programmed(p, ss, xs, hs, k.t1, k.t2, k.a);
    Programmed(p, ss, xs, hs, k.t2, k.t3, k.c);
    Programmed(p, ss, xs, hs, k.t3, k.t4, k.m);
  }

  /** A call made while fewer than four commands wait adds exactly the command it names, truncated to the width of
      the registers, to the accepted commands. */
  lemma {:induction false} CallIsAccepted(p: Params, ss: seq<Sys>, xs: seq<SysIn>, hs: seq<History>, k: Call)
    requires SysRun(p, ss, xs, hs) && 0 < k.t0 && Made(xs, k) && |hs[k.t0].jobs| - hs[k.t0].popped < 4
    ensures hs[k.t4+1].jobs == hs[k.t0].jobs + [JobAt(p, xs[k.t4].aw, Command(k.w % p.d, k.a % p.d, k.c % p.d, k.m % 0x1_0000_0000))]
    ensures hs[k.t4+1].mem0 == hs[k.t0].mem0
  {
    OperandsProgrammed(p, ss, xs, hs, k);
    MmioRuns.InvAlways(p, ss, xs, hs, k.t4);
    Waiting(p, ss[k.t4], hs[k.t4]);
    assert RunEdge(p, ss[k.t4], xs[k.t4], hs[k.t4], ss[k.t4+1], hs[k.t4+1]);
    hide SysRun, RunEdge, SysInv, JobAt;
    OneEdge(p, ss[k.t4], xs[k.t4], hs[k.t4], ss[k.t4+1], hs[k.t4+1]);
  }

  lemma Waiting(p: Params, s: Sys, h: History)
    requires SysInv(p, s, h)
    ensures s.q.cnt == |h.jobs| - h.popped && h.popped <= |h.jobs|
  {
  }

  // --- the call and the wait together ---

  /** The command of a call, truncated to the width of the registers. */
  function Asked(p: Params, k: Call): Command
    requires p.Valid()
  {
    Command(k.w % p.d, k.a % p.d, k.c % p.d, k.m % 0x1_0000_0000)
  }

  /** What `coproc_wait` polls STATUS for: bit 2 set and bit 0 clear. */
  predicate PollEnds(s: Sys)
    requires s.q.Valid()
  {
    var status := s.q.Status(!s.t.fsm.Idle?, s.t.done);
    status / 4 % 2 == 1 && status % 2 == 0
  }

  /** From edge `i` up to edge `j` there is no reset and no store to CMD. */
  predicate NoCommand(xs: seq<SysIn>, i: nat, j: nat)
    requires j <= |xs|
  {
    forall l :: i <= l < j ==>
      !xs[l].rst && !(xs[l].bus.wen && (xs[l].bus.funct3 == 2 || xs[l].bus.funct3 == 3) && xs[l].bus.addr == 0x1000_0020)
  }

  lemma {:induction false} SameJobs(p: Params, ss: seq<Sys>, xs: seq<SysIn>, hs: seq<History>, i: nat, j: nat)
    requires SysRun(p, ss, xs, hs) && 0 < i <= j < |ss| && NoCommand(xs, i, j)
    ensures hs[j].jobs == hs[i].jobs && hs[j].mem0 == hs[i].mem0 && NothingNew(ss, xs, i, j - i)
  {
    hide SysStep, Behaved, JobAt, Regs.Enqueues;
    if i < j {
      SameJobs(p, ss, xs, hs, i, j - 1);
      assert RunEdge(p, ss[j-1], xs[j-1], hs[j-1], ss[j], hs[j]);
      Obeyed(ss[j-1].q, xs[j-1].bus);
      assert hs[j-1].jobs + [] == hs[j-1].jobs;
    }
  }

  predicate AllDone(h: History) { h.retired == |h.jobs| }

  /** Polling sees what is counted. */
  lemma PollSees(p: Params, ss: seq<Sys>, xs: seq<SysIn>, hs: seq<History>, i: nat)
    requires SysRun(p, ss, xs, hs) && 0 < i < |ss|
    ensures PollEnds(ss[i]) <==> AllDone(hs[i])
    ensures JobsValid(p, hs[i].jobs) && Shape(hs[i].mem0, p.d, p.n)
    ensures hs[i].retired == |hs[i].jobs| ==> ss[i].t.mem == GoldenAll(p, hs[i].mem0, hs[i].jobs)
  {
    hide SysStep, Behaved, NextHistory, Regs.Status, GoldenAll;
    IdleMeansDone(p, ss, xs, hs, i);
  }

  /** With everything counted nothing waits and nothing runs. */
  lemma NothingLeft(p: Params, s: Sys, h: History)
    requires SysInv(p, s, h) && h.retired == |h.jobs|
    ensures h.popped == |h.jobs| && s.q.cnt == 0 && !s.q.start && s.t.fsm.Idle? && !s.t.done
  {
  }

  lemma OneJobWork(p: Params, job: Job)
    ensures QueuedWork(p, [job]) == job.c.mRows + 4 * p.n + 4
  {
    assert [job][1..] == [];
  }

  /** With everything counted, accepting a command leaves exactly its own work to be done. */
  lemma FirstJob(p: Params, s: Sys, x: SysIn, s': Sys, h: History)
    requires Edge(p, s, x, s', h) && SysInv(p, s', NextHistory(p, h, s, x, s'))
    requires h.retired == |h.jobs| && s.q.Enqueues(x.bus)
    ensures var h' := NextHistory(p, h, s, x, s');
      h'.popped <= |h'.jobs| && (s'.q.start ==> h'.retired < |h'.jobs|) && WorkLeft(p, s', h') == s.q.hold.mRows + 4 * p.n + 5
  {
    NothingLeft(p, s, h);
    var h' := NextHistory(p, h, s, x, s');
    assert h'.popped == h'.retired == |h.jobs|;
    assert h'.jobs[h'.popped..] == [JobAt(p, x.aw, s.q.hold)];
    OneJobWork(p, JobAt(p, x.aw, s.q.hold));
    hide Step, QueueNext, Executing, After, Operands, GoldenAll;
  }

  /** Up to the CMD store an idle device stays idle. */
  lemma IdleUntilCommand(p: Params, ss: seq<Sys>, xs: seq<SysIn>, hs: seq<History>, k: Call)
    requires SysRun(p, ss, xs, hs) && 0 < k.t0 && Made(xs, k) && AllDone(hs[k.t0])
    ensures hs[k.t4].retired == |hs[k.t4].jobs|
  {
    SameJobs(p, ss, xs, hs, k.t0, k.t4);
    MmioRuns.InvAlways(p, ss, xs, hs, k.t0);
    WorkIsLeft(p, ss[k.t0], hs[k.t0]);
    hide SysRun, SysInv, WorkLeft, Made, Sys.Valid, NothingNew;
    Drains(p, ss, xs, hs, k.t0, k.t4 - k.t0);
  }

  /** The edge of the CMD store. */
  lemma CommandEdge(p: Params, ss: seq<Sys>, xs: seq<SysIn>, hs: seq<History>, t: nat)
    requires SysRun(p, ss, xs, hs) && 0 < t < |xs| && !xs[t].rst && xs[t].bus == Sd(0x1000_0020, 1) && hs[t].retired == |hs[t].jobs|
    ensures var s', h' := ss[t+1], hs[t+1];
      h'.popped <= |h'.jobs| && (s'.q.start ==> h'.retired < |h'.jobs|) && WorkLeft(p, s', h') == ss[t].q.hold.mRows + 4 * p.n + 5
  {
    MmioRuns.InvAlways(p, ss, xs, hs, t);
    MmioRuns.InvAlways(p, ss, xs, hs, t + 1);
    NothingLeft(p, ss[t], hs[t]);
    Obeyed(ss[t].q, xs[t].bus);
    assert RunEdge(p, ss[t], xs[t], hs[t], ss[t+1], hs[t+1]);
    hide SysRun, SysInv, SysStep, Behaved, NextHistory, WorkLeft, Regs.Enqueues;
    FirstJob(p, ss[t], xs[t], ss[t+1], hs[t]);
  }

  /** The call finds the device idle, and leaves it with one command to be done. */
  lemma CallLeaves(p: Params, ss: seq<Sys>, xs: seq<SysIn>, hs: seq<History>, k: Call)
    requires SysRun(p, ss, xs, hs) && 0 < k.t0 && Made(xs, k) && AllDone(hs[k.t0])
    ensures var s', h' := ss[k.t4+1], hs[k.t4+1];
      h'.popped <= |h'.jobs| && (s'.q.start ==> h'.retired < |h'.jobs|) && WorkLeft(p, s', h') == Asked(p, k).mRows + 4 * p.n + 5
  {
    IdleUntilCommand(p, ss, xs, hs, k);
    OperandsProgrammed(p, ss, xs, hs, k);
    hide SysRun, WorkLeft;
    CommandEdge(p, ss, xs, hs, k.t4);
  }

  /** Everything is counted exactly from the edge on at which the work left at edge `t` is done. */
  lemma WaitEnds(p: Params, ss: seq<Sys>, xs: seq<SysIn>, hs: seq<History>, t: nat, i: nat, left: nat)
    requires SysRun(p, ss, xs, hs) && 0 < t <= i < |ss| && NoCommand(xs, t, i)
    requires hs[t].popped <= |hs[t].jobs| && (ss[t].q.start ==> hs[t].retired < |hs[t].jobs|) && WorkLeft(p, ss[t], hs[t]) == left
    ensures AllDone(hs[i]) <==> i >= t + left
  {
    SameJobs(p, ss, xs, hs, t, i);
    hide SysRun, WorkLeft, NoCommand, NothingNew, Sys.Valid;
    Drains(p, ss, xs, hs, t, i - t);
  }

  lemma LastJob(p: Params, mem: Mat32, jobs: seq<Job>, job: Job)
    requires p.Valid() && JobsValid(p, jobs + [job]) && Shape(mem, p.d, p.n)
    ensures JobsValid(p, jobs) && job.Valid(p) && GoldenAll(p, mem, jobs + [job]) == Golden(p, GoldenAll(p, mem, jobs), job)
  {
    var all := jobs + [job];
    assert all[|jobs|] == job && all[..|jobs|] == jobs;
    assert forall j :: 0 <= j < |jobs| ==> jobs[j] == all[j];
  }

  lemma CallEnds(p: Params, ss: seq<Sys>, xs: seq<SysIn>, hs: seq<History>, k: Call, i: nat)
    requires SysRun(p, ss, xs, hs) && 0 < k.t0 && Made(xs, k) && AllDone(hs[k.t0]) && k.t4 < i < |ss| && NoCommand(xs, k.t4 + 1, i)
    ensures AllDone(hs[i]) <==> i >= k.t4 + Asked(p, k).mRows + 4 * p.n + 6
  {
    assert |ss| == |hs| == |xs| + 1 && k.Ordered();
    hide SysRun, NoCommand, Made, Asked, WorkLeft, Sys.Valid;
    CallLeaves(p, ss, xs, hs, k);
    WaitEnds(p, ss, xs, hs, k.t4 + 1, i, Asked(p, k).mRows + 4 * p.n + 5);
  }

  lemma CallResult(p: Params, ss: seq<Sys>, xs: seq<SysIn>, hs: seq<History>, k: Call, i: nat)
    requires SysRun(p, ss, xs, hs) && 0 < k.t0 && Made(xs, k) && AllDone(hs[k.t0]) && k.t4 < i < |ss| && NoCommand(xs, k.t4 + 1, i)
    ensures var job := JobAt(p, xs[k.t4].aw, Asked(p, k));
      job.Valid(p) && (AllDone(hs[i]) ==> ss[i].t.mem == Golden(p, ss[k.t0].t.mem, job))
  {
    PollSees(p, ss, xs, hs, k.t0);
    PollSees(p, ss, xs, hs, i);
    MmioRuns.InvAlways(p, ss, xs, hs, k.t0);
    NothingLeft(p, ss[k.t0], hs[k.t0]);
    SameJobs(p, ss, xs, hs, k.t4 + 1, i);
    hide SysRun, SysInv, JobAt, Golden, GoldenAll, NoCommand, Job.Valid, Made;
    CallIsAccepted(p, ss, xs, hs, k);
    hide Asked;
    LastJob(p, hs[i].mem0, hs[k.t0].jobs, JobAt(p, xs[k.t4].aw, Asked(p, k)));
  }

  /** A poll of an idle device, `coproc_matmul`, and polls until the device is idle again: the polling loop ends with
      the first poll that is M + 4N + 6 edges or more after the CMD store, and not before, and then the result RAM
      holds the golden result of this one command. */
  lemma MatmulThenWait(p: Params, ss: seq<Sys>, xs: seq<SysIn>, hs: seq<History>, k: Call, i: nat)
    requires SysRun(p, ss, xs, hs) && 0 < k.t0 && Made(xs, k) && PollEnds(ss[k.t0]) && k.t4 < i < |ss| && NoCommand(xs, k.t4 + 1, i)
    ensures PollEnds(ss[i]) <==> i >= k.t4 + Asked(p, k).mRows + 4 * p.n + 6
    ensures var job := JobAt(p, xs[k.t4].aw, Asked(p, k));
      job.Valid(p) && (PollEnds(ss[i]) ==> ss[i].t.mem == Golden(p, ss[k.t0].t.mem, job))
  {
    PollSees(p, ss, xs, hs, k.t0);
    PollSees(p, ss, xs, hs, i);
    hide SysRun, PollEnds, Made, NoCommand, Asked, JobAt, Golden, Job.Valid, GoldenAll;
    CallEnds(p, ss, xs, hs, k, i);
    CallResult(p, ss, xs, hs, k, i);
  }

  lemma {:induction false} AddrOfRemainder(p: Params, base: nat, r: nat)
    requires p.Valid()
    ensures Addr(p, base % p.d, r) == Addr(p, base, r)
  {
    ModIsRemainder(base, p.d);
    ModOfSum(base, r, p.d);
  }

  lemma {:induction false} ModOfSum(x: nat, r: nat, d: nat)
    requires d > 0
    ensures Mod(Mod(x, d) + r, d) == Mod(x + r, d)
  {
    if x >= d { ModOfSum(x - d, r, d); }
  }

  /** Then result word `c + r`, lane `l`, is the dot product of operand row `a + r` with column `l` of the rows from
      `w` on, and every other word is as it was before the call. */
  lemma MatmulWords(p: Params, ss: seq<Sys>, xs: seq<SysIn>, hs: seq<History>, k: Call, i: nat, w: Mat8)
    requires SysRun(p, ss, xs, hs) && 0 < k.t0 && Made(xs, k) && PollEnds(ss[k.t0]) && k.t4 < i < |ss| && NoCommand(xs, k.t4 + 1, i)
    requires PollEnds(ss[i]) && k.m <= p.d && k.m < 0x1_0000_0000
    requires Shape(w, p.n, p.n) && forall j :: 0 <= j < p.n ==> w[j] == xs[k.t4].aw[Addr(p, k.w, j)]
    ensures forall r, l :: 0 <= r < k.m && 0 <= l < p.n ==>
      ss[i].t.mem[Addr(p, k.c, r)][l] == Wrap32(Dot(xs[k.t4].aw[Addr(p, k.a, r)], w, l, p.n))
    ensures forall addr :: 0 <= addr < p.d && (forall r :: 0 <= r < k.m ==> Addr(p, k.c, r) != addr) ==>
      ss[i].t.mem[addr] == ss[k.t0].t.mem[addr]
  {
    MatmulThenWait(p, ss, xs, hs, k, i);
    var job := JobAt(p, xs[k.t4].aw, Asked(p, k));
    JobRows(p, xs[k.t4].aw, k, w);
    hide SysRun, Made, PollEnds, NoCommand, Golden, Addr, JobAt;
    GoldenWords(p, ss[k.t0].t.mem, job);
  }

  lemma JobRows(p: Params, aw: Mat8, k: Call, w: Mat8)
    requires p.Valid() && Shape(aw, p.d, p.n) && k.m < 0x1_0000_0000
    requires |w| == p.n && forall j :: 0 <= j < p.n ==> w[j] == aw[Addr(p, k.w, j)]
    ensures var job := JobAt(p, aw, Asked(p, k));
      job.c.mRows == k.m && job.w == w && (forall r :: 0 <= r < k.m ==> job.a[r] == aw[Addr(p, k.a, r)]) &&
      forall r :: 0 <= r < k.m ==> Addr(p, job.c.cBase, r) == Addr(p, k.c, r)
  {
    hide Addr;
    forall j | 0 <= j < p.n ensures Addr(p, k.w % p.d, j) == Addr(p, k.w, j) { AddrOfRemainder(p, k.w, j); }
    forall r | 0 <= r < k.m
      ensures Addr(p, k.a % p.d, r) == Addr(p, k.a, r) && Addr(p, k.c % p.d, r) == Addr(p, k.c, r)
    {
      AddrOfRemainder(p, k.a, r);
      AddrOfRemainder(p, k.c, r);
    }
  }
}
