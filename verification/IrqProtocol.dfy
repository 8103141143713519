/** The handshake between the driver's wait loop and the one-bit interrupt flag (sw/coproc_driver.h:91-154),
    as a state machine over single driver and hardware steps: when it can get stuck, and when it cannot. */
module IrqProtocol {
  import opened Arith

  /** Where the driver is: filling the queue, asleep in wait_irq, awake with the flag not yet cleared,
      about to read the completion counter, or done. */
  datatype Pc = Issuing | Waiting | Woken | Reading | Finished

  /** `total` jobs in the block, `base` the counter's value when it began. */
  datatype Setup = Setup(total: nat, base: nat) {
    predicate Valid() { base < 0x1_0000 }
  }

  /** `taken` counts flag clears, `lost` retirements that found the flag already set. */
  datatype State = State(pc: Pc, issued: nat, collected: nat, retired: nat, pending: bool, taken: nat, lost: nat)

  function Init(): State { State(Issuing, 0, 0, 0, false, 0, 0) }

  /** `(uint32_t)(dc - base)` */
  function CountSince(dc: nat, base: nat): nat { U32(dc - base) }

  /** `(uint32_t)(dc - base) < want` does not hold. */
  predicate CountShows(x: Setup, retired: nat, want: nat) { CountSince((x.base + retired) % 0x1_0000, x.base) >= want }

  /** The driver's next step; nothing while it sleeps with the flag down, or when done. */
  ghost predicate DriverStep(x: Setup, s: State, s': State) {
    match s.pc
    case Issuing =>
      if s.collected >= x.total then s' == s.(pc := Finished)
      else if s.issued < x.total && s.issued - s.collected < 4 then s' == s.(issued := s.issued + 1)
      else s' == s.(pc := Waiting)
    case Waiting => s.pending && s' == s.(pc := Woken)
    case Woken => s' == s.(pc := Reading, pending := false, taken := s.taken + if s.pending then 1 else 0)
    case Reading =>
      if CountShows(x, s.retired, s.collected + 1) then s' == s.(pc := Issuing, collected := s.collected + 1)
      else s' == s.(pc := Waiting)
    case Finished => false
  }

  /** The hardware retires one command. */
  ghost predicate RetireStep(s: State, s': State) {
    s.retired < s.issued &&
    s' == s.(retired := s.retired + 1, pending := true, lost := s.lost + if s.pending then 1 else 0)
  }

  ghost predicate Next(x: Setup, s: State, s': State) { DriverStep(x, s, s') || RetireStep(s, s') }

  /** A run of the handshake from the start of a block. */
  ghost predicate Run(x: Setup, ss: seq<State>) {
    x.Valid() && |ss| > 0 && ss[0] == Init() && forall i :: 0 <= i < |ss| - 1 ==> Next(x, ss[i], ss[i+1])
  }

  /** Neither the driver nor the hardware can move, and the block is not finished. */
  ghost predicate Stuck(x: Setup, s: State) { s.pc != Finished && !CanMove(x, s) }

  ghost predicate CanMove(x: Setup, s: State) { exists s' :: Next(x, s, s') }

  // --- what every run keeps ---

  ghost predicate Inv(x: Setup, s: State) {
    s.collected <= s.taken && s.collected <= x.total && s.retired <= s.issued <= x.total &&
    s.taken + s.lost + (if s.pending then 1 else 0) == s.retired &&
    (s.pc == Woken ==> s.pending) && (s.pc == Reading ==> s.collected < s.taken) &&
    (s.pc in {Waiting, Woken, Reading} ==> s.collected < s.issued) &&
    (s.pc == Finished ==> s.collected == x.total) &&
    s.issued <= s.collected + 4 &&
    (s.lost > 0 ==> s.retired >= 2) &&
    (x.total <= 65535 ==> s.taken == s.collected + if s.pc == Reading then 1 else 0)
  }

  /** The unmasked difference shows `want` retirements whether or not the 16-bit counter has wrapped. */
  lemma {:induction false} CountReached(base: nat, retired: nat, want: nat)
    requires base < 0x1_0000 && want <= retired <= 65535
    ensures CountSince((base + retired) % 0x1_0000, base) >= want
  {
  }

  lemma InvStep(x: Setup, s: State, s': State)
    requires x.Valid() && Inv(x, s) && Next(x, s, s')
    ensures Inv(x, s')
  {
    if s.pc == Reading && DriverStep(x, s, s') && x.total <= 65535 { CountReached(x.base, s.retired, s.collected + 1); }
  }

  lemma {:induction false} InvAlways(x: Setup, ss: seq<State>, i: nat)
    requires Run(x, ss) && i < |ss|
    ensures Inv(x, ss[i])
  {
    if i > 0 {
      InvAlways(x, ss, i - 1);
      InvStep(x, ss[i-1], ss[i]);
    }
  }

  /** Every interrupt taken stands for its own retirement, so a job is collected only after it retired;
      never more than four jobs are in flight; and a finished block has lost no interrupt. */
  lemma Accounting(x: Setup, ss: seq<State>, i: nat)
    requires Run(x, ss) && i < |ss|
    ensures ss[i].retired >= ss[i].taken + if ss[i].pending then 1 else 0
    ensures ss[i].collected <= ss[i].retired <= ss[i].issued <= ss[i].collected + 4
    ensures ss[i].pc == Finished ==>
      ss[i].taken == ss[i].retired == ss[i].issued == x.total && !ss[i].pending && ss[i].lost == 0
  {
    InvAlways(x, ss, i);
  }

  // --- every run ends ---

  function Rank(pc: Pc): nat { match pc case Reading => 4 case Issuing => 3 case Waiting => 2 case Woken => 1 case Finished => 0 }

  function Measure(x: Setup, s: State): int {
    8 * (x.total - s.retired) + (if s.pending then 4 else 0) + (x.total - s.issued) + Rank(s.pc)
  }

  lemma MeasureDrops(x: Setup, s: State, s': State)
    requires Inv(x, s) && Next(x, s, s')
    ensures Measure(x, s') < Measure(x, s)
  {
  }

  lemma MeasureNonNegative(x: Setup, s: State)
    requires Inv(x, s)
    ensures Measure(x, s) >= 0
  {
  }

  lemma RunPrefix(x: Setup, ss: seq<State>, n: nat)
    requires Run(x, ss) && 0 < n <= |ss|
    ensures Run(x, ss[..n])
  {
  }

  /** Whatever the interleaving, a run has at most 9 * total + 4 states. */
  lemma {:induction false} RunsAreFinite(x: Setup, ss: seq<State>)
    requires Run(x, ss)
    ensures |ss| + Measure(x, ss[|ss|-1]) <= 9 * x.total + 4
    ensures Measure(x, ss[|ss|-1]) >= 0
    decreases |ss|
  {
    hide Next, Inv;
    var n := |ss| - 1;
    InvAlways(x, ss, n);
    MeasureNonNegative(x, ss[n]);
    if n > 0 {
      RunPrefix(x, ss, n);
      RunsAreFinite(x, ss[..n]);
      InvAlways(x, ss, n - 1);
      MeasureDrops(x, ss[n-1], ss[n]);
    }
  }

  // --- where a run can end ---

  lemma StuckExactly(x: Setup, s: State)
    requires Inv(x, s)
    ensures Stuck(x, s) <==> s.pc == Waiting && !s.pending && s.retired == s.issued
  {
    if s.retired < s.issued {
      assert Next(x, s, s.(retired := s.retired + 1, pending := true, lost := s.lost + if s.pending then 1 else 0));
    }
    match s.pc
    case Issuing =>
      assert Next(x, s, s.(pc := Finished)) || Next(x, s, s.(issued := s.issued + 1)) || Next(x, s, s.(pc := Waiting));
    case Waiting =>
      if s.pending { assert Next(x, s, s.(pc := Woken)); }
    case Woken =>
      assert Next(x, s, s.(pc := Reading, pending := false, taken := s.taken + 1));
    case Reading =>
      assert Next(x, s, s.(pc := Issuing, collected := s.collected + 1)) || Next(x, s, s.(pc := Waiting));
    case Finished =>
  }

  /** With at most 65535 jobs, a state with no move left is finished if and only if no retirement ever
      found the flag still set. */
  lemma EndsWell(x: Setup, ss: seq<State>)
    requires Run(x, ss) && x.total <= 65535
    requires var s := ss[|ss|-1]; s.pc == Finished || Stuck(x, s)
    ensures var s := ss[|ss|-1]; s.pc == Finished <==> s.lost == 0
  {
    var s := ss[|ss|-1];
    InvAlways(x, ss, |ss| - 1);
    StuckExactly(x, s);
  }

  /** As long as no interrupt has been lost somebody can move. */
  lemma Progress(x: Setup, ss: seq<State>)
    requires Run(x, ss) && x.total <= 65535
    requires var s := ss[|ss|-1]; s.lost == 0 && s.pc != Finished
    ensures CanMove(x, ss[|ss|-1])
  {
    var s := ss[|ss|-1];
    InvAlways(x, ss, |ss| - 1);
    StuckExactly(x, s);
  }

  /** A run in which an interrupt was lost can only go on to a stuck state. */
  lemma {:induction false} LostMeansStuck(x: Setup, ss: seq<State>) returns (tt: seq<State>)
    requires Run(x, ss) && ss[|ss|-1].lost > 0
    ensures Run(x, tt) && Stuck(x, tt[|tt|-1])
    decreases Measure(x, ss[|ss|-1])
  {
    var s := ss[|ss|-1];
    InvAlways(x, ss, |ss| - 1);
    if Stuck(x, s) {
      tt := ss;
    } else {
      assert s.pc != Finished;
      var s' :| Next(x, s, s');
      RunsAreFinite(x, ss);
      MeasureDrops(x, s, s');
      RunsAreFinite(x, ss + [s']);
      tt := LostMeansStuck(x, ss + [s']);
    }
  }

  /** A block of two or more jobs can hang: both retire before the driver first looks at the flag. */
  lemma CanHang(x: Setup) returns (ss: seq<State>)
    requires x.Valid() && x.total >= 2
    ensures Run(x, ss) && Stuck(x, ss[|ss|-1])
  {
    ss := [Init(), State(Issuing, 1, 0, 0, false, 0, 0), State(Issuing, 2, 0, 0, false, 0, 0),
           State(Issuing, 2, 0, 1, true, 0, 0), State(Issuing, 2, 0, 2, true, 0, 1)];
    ss := LostMeansStuck(x, ss);
  }

  /** A block of at most one job cannot. Together with `CanHang`: a hang is possible exactly if total >= 2. */
  lemma CannotHang(x: Setup, ss: seq<State>)
    requires Run(x, ss) && x.total < 2
    ensures !Stuck(x, ss[|ss|-1])
  {
    InvAlways(x, ss, |ss| - 1);
    StuckExactly(x, ss[|ss|-1]);
  }

  // --- blocks of more than 65535 jobs ---

  /** The driver asleep after `k` rounds of one interrupt each, with the queue as full as it gets. */
  function AsleepAfter(x: Setup, k: nat): State { State(Waiting, Min(x.total, k + 4), k, k, false, k, 0) }

  /** Appends one step to a run. */
  lemma {:induction false} Extended(x: Setup, ss: seq<State>, s': State)
    requires Run(x, ss) && Next(x, ss[|ss|-1], s')
    ensures Run(x, ss + [s']) && (ss + [s'])[|ss + [s']| - 1] == s'
  {
  }

  /** One round: the oldest command retires, the driver wakes and clears the flag. */
  lemma {:induction false} WakeUp(x: Setup, ss: seq<State>) returns (tt: seq<State>)
    requires Run(x, ss)
    requires var s := ss[|ss|-1]; s.pc == Waiting && !s.pending && s.retired < s.issued
    ensures Run(x, tt)
    ensures var s := ss[|ss|-1]; tt[|tt|-1] == s.(pc := Reading, retired := s.retired + 1, taken := s.taken + 1)
  {
    var s := ss[|ss|-1];
    hide Run;
    var s1 := s.(retired := s.retired + 1, pending := true);
    var s2 := s1.(pc := Woken);
    var s3 := s2.(pc := Reading, pending := false, taken := s.taken + 1);
    Extended(x, ss, s1);
    Extended(x, ss + [s1], s2);
    Extended(x, ss + [s1] + [s2], s3);
    tt := ss + [s1] + [s2] + [s3];
  }

  /** The first 65535 rounds succeed, one interrupt each, with none lost. */
  lemma {:induction false} Rounds(x: Setup, k: nat) returns (ss: seq<State>)
    requires x.Valid() && x.total >= 65536 && k <= 65535
    ensures Run(x, ss) && ss[|ss|-1] == AsleepAfter(x, k)
  {
    if k == 0 {
      ss := [Init(), State(Issuing, 1, 0, 0, false, 0, 0), State(Issuing, 2, 0, 0, false, 0, 0),
             State(Issuing, 3, 0, 0, false, 0, 0), State(Issuing, 4, 0, 0, false, 0, 0), AsleepAfter(x, 0)];
    } else {
      hide Run;
      ss := Rounds(x, k - 1);
      ss := WakeUp(x, ss);
      CountReached(x.base, k, k);
      var s1 := ss[|ss|-1].(pc := Issuing, collected := k);
      Extended(x, ss, s1);
      ss := ss + [s1];
      if s1.issued < x.total {
        var s2 := s1.(issued := s1.issued + 1);
        Extended(x, ss, s2);
        ss := ss + [s2];
      }
      Extended(x, ss, AsleepAfter(x, k));
      ss := ss + [AsleepAfter(x, k)];
    }
  }

  /** One interrupt more has been taken than there are jobs to show for it. */
  predicate Surplus(s: State) { s.collected + (if s.pc == Reading then 1 else 0) < s.taken && s.lost == 0 }

  /** A surplus is never made up: the hardware, never retiring while the flag is up, brings the run to a stuck
      state without losing an interrupt. */
  lemma {:induction false} SurplusMeansStuck(x: Setup, ss: seq<State>) returns (tt: seq<State>)
    requires Run(x, ss) && Surplus(ss[|ss|-1])
    ensures Run(x, tt) && Stuck(x, tt[|tt|-1]) && tt[|tt|-1].lost == 0
    decreases Measure(x, ss[|ss|-1])
  {
    var s := ss[|ss|-1];
    InvAlways(x, ss, |ss| - 1);
    StuckExactly(x, s);
    if Stuck(x, s) {
      tt := ss;
    } else {
      var s' := LosslessStep(x, s);
      Extended(x, ss, s');
      RunsAreFinite(x, ss + [s']);
      MeasureDrops(x, s, s');
      tt := SurplusMeansStuck(x, ss + [s']);
    }
  }

  /** A step that loses no interrupt, wherever there is a step at all; it keeps a surplus. */
  lemma {:induction false} LosslessStep(x: Setup, s: State) returns (s': State)
    requires Inv(x, s) && !Stuck(x, s) && Surplus(s)
    ensures Next(x, s, s') && Surplus(s')
  {
    StuckExactly(x, s);
    match s.pc
    case Issuing =>
      s' := if s.collected >= x.total then s.(pc := Finished)
            else if s.issued < x.total && s.issued - s.collected < 4 then s.(issued := s.issued + 1) else s.(pc := Waiting);
    case Waiting =>
      s' := if s.pending then s.(pc := Woken) else s.(retired := s.retired + 1, pending := true);
    case Woken => s' := s.(pc := Reading, pending := false, taken := s.taken + 1);
    case Reading =>
      s' := if CountShows(x, s.retired, s.collected + 1) then s.(pc := Issuing, collected := s.collected + 1) else s.(pc := Waiting);
    case Finished => assert false;
  }

  /** From 65536 jobs on, whatever the counter showed at the start, there is a run that hangs although every
      retirement found the flag clear: the test for job 65536 fails at its own retirement. */
  lemma {:induction false} HangsWithoutLoss(x: Setup) returns (ss: seq<State>)
    requires x.Valid() && x.total >= 65536
    ensures Run(x, ss) && Stuck(x, ss[|ss|-1]) && ss[|ss|-1].lost == 0
  {
    ss := Rounds(x, 65535);
    ss := WakeUp(x, ss);
    assert !CountShows(x, 65536, 65536);
    var s := ss[|ss|-1].(pc := Waiting);
    Extended(x, ss, s);
    ss := SurplusMeansStuck(x, ss + [s]);
  }

  ghost predicate LosslessHang(x: Setup, ss: seq<State>) { Run(x, ss) && Stuck(x, ss[|ss|-1]) && ss[|ss|-1].lost == 0 }

  /** The 65535 limit is exact, for every starting value of the counter. */
  lemma {:induction false} CounterLimitIsExact(x: Setup)
    requires x.Valid()
    ensures (forall ss :: !LosslessHang(x, ss)) <==> x.total <= 65535
  {
    if x.total <= 65535 {
      forall ss ensures !LosslessHang(x, ss) {
        if LosslessHang(x, ss) { Progress(x, ss); }
      }
    } else {
      var ss := HangsWithoutLoss(x);
      assert LosslessHang(x, ss);
    }
  }

  lemma {:induction false} NeverBeyondCounter(x: Setup, ss: seq<State>, i: nat)
    requires Run(x, ss) && x.base <= 65532 && i < |ss|
    ensures ss[i].collected <= 65535
  {
    if i > 0 {
      NeverBeyondCounter(x, ss, i - 1);
      InvAlways(x, ss, i - 1);
      assert Next(x, ss[i-1], ss[i]);
      if 65536 <= ss[i-1].retired <= 65539 { NeverShown(x, ss[i-1].retired); }
      hide CountShows;
    }
  }

  lemma {:induction false} NeverShown(x: Setup, retired: nat)
    requires x.base <= 65532 && 65536 <= retired <= 65539
    ensures !CountShows(x, retired, 65536)
  {
  }

  /** Starting from at most 65532 such a block not only can hang: with four jobs in flight the difference never
      reaches 65536, so no run of it ever finishes. */
  lemma {:induction false} CounterTooNarrow(x: Setup, ss: seq<State>, i: nat)
    requires Run(x, ss) && x.base <= 65532 && x.total >= 65536 && i < |ss|
    ensures ss[i].pc != Finished
  {
    NeverBeyondCounter(x, ss, i);
    InvAlways(x, ss, i);
  }
}
