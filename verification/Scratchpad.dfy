/** The double-buffered scratchpad (rtl/scratchpad_dbuf.sv) and the testbench's reference model of it
    (sim/scratchpad/tb_scratchpad.cpp). */
module Scratchpad {

  type Word = int

  /** The inputs of one clock edge. */
  datatype In = In(rst: bool, wrEn: bool, wrAddr: nat, wrData: Word, rdEn: bool, rdAddr: nat, swap: bool) {
    predicate Valid(depth: nat) { (wrEn ==> wrAddr < depth) && (rdEn ==> rdAddr < depth) }
  }

  /** The RTL's registers; `consume1` is consume_bank_q. */
  datatype Rtl = Rtl(consume1: bool, mem0: seq<Word>, mem1: seq<Word>, rdValid: bool, rdData: Word) {
    predicate Valid(depth: nat) { |mem0| == |mem1| == depth }
  }

  /** The reference model's fields. */
  datatype Shadow = Shadow(mem: seq<seq<Word>>, consumeBank: nat, rdValid: bool, rdData: Word) {
    predicate Valid(depth: nat) { |mem| == 2 && |mem[0]| == |mem[1]| == depth && consumeBank < 2 }
  }

  class ScratchpadDbuf {
    const depth: nat
    var consume1: bool
    var mem0: seq<Word>
    var mem1: seq<Word>
    var rdValid: bool
    var rdData: Word

    ghost function Value(): Rtl reads this { Rtl(consume1, mem0, mem1, rdValid, rdData) }

    /** Powers up with arbitrary register and memory contents. */
    constructor (depth: nat, power: Rtl)
      requires power.Valid(depth)
      ensures this.depth == depth && Value() == power
    {
      this.depth := depth;
      consume1, mem0, mem1, rdValid, rdData := power.consume1, power.mem0, power.mem1, power.rdValid, power.rdData;
    }

    /** One clock edge. Three blocks sample the old registers: bank select, write port, read port. */
    method Tick(x: In)
      requires Value().Valid(depth) && x.Valid(depth)
      modifies this
      ensures Value().Valid(depth) && Value() == RtlNext(old(Value()), x, depth)
    {
      var bank, read := consume1, rdData;
      if x.rdEn { read := if bank then mem1[x.rdAddr] else mem0[x.rdAddr]; }
      if x.rst {
        consume1 := true;
      } else if x.swap {
        consume1 := !consume1;
      }
      if x.wrEn && !bank {
        mem1 := mem1[x.wrAddr := x.wrData];
      } else if x.wrEn && bank {
        mem0 := mem0[x.wrAddr := x.wrData];
      }
      if x.rst {
        rdValid, rdData := false, 0;
      } else {
        rdValid, rdData := x.rdEn, read;
      }
    }
  }

  class ShadowModel {
    const depth: nat
    var mem: seq<seq<Word>>
    var consumeBank: nat
    var rdValid: bool
    var rdData: Word

    ghost function Value(): Shadow reads this { Shadow(mem, consumeBank, rdValid, rdData) }

    constructor (depth: nat)
      ensures this.depth == depth && Value().Valid(depth) && consumeBank == 0
    {
      this.depth := depth;
      mem, consumeBank, rdValid, rdData := [seq<Word>(depth, i => 0), seq<Word>(depth, i => 0)], 0, false, 0;
    }

    /** The model samples the read first, then writes, then moves the bank. */
    method Tick(x: In)
      requires Value().Valid(depth) && x.Valid(depth)
      modifies this
      ensures Value().Valid(depth) && Value() == ShadowNext(old(Value()), x, depth)
    {
      var fillBank := 1 - consumeBank;
      var sampled := if x.rdEn then mem[consumeBank][x.rdAddr] else rdData;
      if x.wrEn { mem := mem[fillBank := mem[fillBank][x.wrAddr := x.wrData]]; }
      if x.rst {
        consumeBank, rdValid, rdData := 1, false, 0;
      } else {
        if x.swap { consumeBank := 1 - consumeBank; }
        rdValid := x.rdEn;
        if x.rdEn { rdData := sampled; }
      }
    }
  }

  function RtlNext(s: Rtl, x: In, depth: nat): (s': Rtl)
    requires s.Valid(depth) && x.Valid(depth)
    ensures s'.Valid(depth)
  {
    Rtl(if x.rst then true else if x.swap then !s.consume1 else s.consume1,
        if x.wrEn && s.consume1 then s.mem0[x.wrAddr := x.wrData] else s.mem0,
        if x.wrEn && !s.consume1 then s.mem1[x.wrAddr := x.wrData] else s.mem1,
        !x.rst && x.rdEn,
        if x.rst then 0 else if x.rdEn then (if s.consume1 then s.mem1[x.rdAddr] else s.mem0[x.rdAddr]) else s.rdData)
  }

  function ShadowNext(s: Shadow, x: In, depth: nat): (s': Shadow)
    requires s.Valid(depth) && x.Valid(depth)
    ensures s'.Valid(depth)
  {
    var fill := 1 - s.consumeBank;
    var mem := if x.wrEn then s.mem[fill := s.mem[fill][x.wrAddr := x.wrData]] else s.mem;
    if x.rst then Shadow(mem, 1, false, 0)
    else Shadow(mem, if x.swap then 1 - s.consumeBank else s.consumeBank, x.rdEn,
                if x.rdEn then s.mem[s.consumeBank][x.rdAddr] else s.rdData)
  }

  // --- the RTL refines the reference model ---

  predicate Agree(r: Rtl, s: Shadow) {
    |s.mem| == 2 && s.mem[0] == r.mem0 && s.mem[1] == r.mem1 && s.consumeBank == (if r.consume1 then 1 else 0) &&
    s.rdValid == r.rdValid && s.rdData == r.rdData
  }

  ghost predicate Traces(depth: nat, rs: seq<Rtl>, ss: seq<Shadow>, xs: seq<In>) {
    |rs| == |ss| == |xs| + 1 && (forall i :: 0 <= i < |xs| ==> xs[i].Valid(depth)) &&
    (forall i :: 0 <= i < |rs| ==> rs[i].Valid(depth) && ss[i].Valid(depth)) &&
    (forall i :: 0 <= i < |xs| ==> rs[i+1] == RtlNext(rs[i], xs[i], depth)) &&
    forall i :: 0 <= i < |xs| ==> ss[i+1] == ShadowNext(ss[i], xs[i], depth)
  }

  /** From a first reset without a write, whatever the bank register held at power-up, RTL and model agree
      in every register and every memory word, on every input trace, with resets anywhere. */
  lemma {:induction false} RtlRefinesShadow(depth: nat, rs: seq<Rtl>, ss: seq<Shadow>, xs: seq<In>, i: nat)
    requires Traces(depth, rs, ss, xs) && 0 < i < |rs|
    requires xs[0].rst && !xs[0].wrEn && ss[0].mem == [rs[0].mem0, rs[0].mem1]
    ensures Agree(rs[i], ss[i])
  {
    if i > 1 { RtlRefinesShadow(depth, rs, ss, xs, i - 1); }
    assert rs[i] == RtlNext(rs[i-1], xs[i-1], depth);
    assert ss[i] == ShadowNext(ss[i-1], xs[i-1], depth);
  }

  /** A write in that very first reset cycle goes to a bank the RTL does not define: at power-up with
      consume_bank_q high it lands in bank 0, while the model puts it in bank 1. */
  lemma FirstResetWriteDiffers(depth: nat, r: Rtl, s: Shadow, x: In)
    requires r.Valid(depth) && s.Valid(depth) && x.Valid(depth) && s.mem == [r.mem0, r.mem1]
    requires x.rst && x.wrEn
    ensures var same := RtlNext(r, x, depth).mem0 == ShadowNext(s, x, depth).mem[0] && RtlNext(r, x, depth).mem1 == ShadowNext(s, x, depth).mem[1];
      same <==> (r.consume1 <==> s.consumeBank == 1) || (r.mem0[x.wrAddr] == x.wrData && r.mem1[x.wrAddr] == x.wrData)
  {
    var r', s' := RtlNext(r, x, depth), ShadowNext(s, x, depth);
    if !(r.consume1 <==> s.consumeBank == 1) {
      if r.mem0[x.wrAddr] == x.wrData && r.mem1[x.wrAddr] == x.wrData {
        assert r.mem0[x.wrAddr := x.wrData] == r.mem0 && r.mem1[x.wrAddr := x.wrData] == r.mem1;
      } else {
        assert r'.mem0[x.wrAddr] != s'.mem[0][x.wrAddr] || r'.mem1[x.wrAddr] != s'.mem[1][x.wrAddr];
      }
    }
  }

  // --- what a read returns, in terms of swap epochs ---

  /** Swaps in the first `i` cycles. */
  function Epoch(xs: seq<In>, i: nat): nat
    requires i <= |xs|
  {
    if i == 0 then 0 else Epoch(xs, i - 1) + if xs[i-1].swap then 1 else 0
  }

  /** The last write to `addr` before cycle `i` in an epoch of the given parity, else what was there at the start. */
  function LastWrite(xs: seq<In>, i: nat, addr: nat, parity: nat, initial: Word): Word
    requires i <= |xs|
  {
    if i == 0 then initial
    else if xs[i-1].wrEn && xs[i-1].wrAddr == addr && Epoch(xs, i - 1) % 2 == parity then xs[i-1].wrData
    else LastWrite(xs, i - 1, addr, parity, initial)
  }

  ghost predicate RtlRun(depth: nat, rs: seq<Rtl>, xs: seq<In>) {
    |rs| == |xs| + 1 && (forall i :: 0 <= i < |xs| ==> xs[i].Valid(depth) && !xs[i].rst) &&
    (forall i :: 0 <= i < |rs| ==> rs[i].Valid(depth)) &&
    (forall i :: 0 <= i < |xs| ==> rs[i+1] == RtlNext(rs[i], xs[i], depth)) && rs[0].consume1
  }

  /** Bank 0 collects the writes of even epochs, bank 1 those of odd ones. */
  lemma {:induction false} BanksByEpoch(depth: nat, rs: seq<Rtl>, xs: seq<In>, i: nat)
    requires RtlRun(depth, rs, xs) && i < |rs|
    ensures rs[i].consume1 == (Epoch(xs, i) % 2 == 0)
    ensures forall addr :: 0 <= addr < depth ==> rs[i].mem0[addr] == LastWrite(xs, i, addr, 0, rs[0].mem0[addr])
    ensures forall addr :: 0 <= addr < depth ==> rs[i].mem1[addr] == LastWrite(xs, i, addr, 1, rs[0].mem1[addr])
  {
    if i > 0 {
      BanksByEpoch(depth, rs, xs, i - 1);
      assert rs[i] == RtlNext(rs[i-1], xs[i-1], depth);
    }
  }

  /** Between resets a read issued in epoch `e` returns the last write to that address in an epoch of the
      other parity: no write of epoch `e` itself and no swap in the same cycle can affect it. */
  lemma ReadReturns(depth: nat, rs: seq<Rtl>, xs: seq<In>, i: nat)
    requires RtlRun(depth, rs, xs) && i < |xs| && xs[i].rdEn
    ensures rs[i+1].rdValid
    ensures var e, addr := Epoch(xs, i), xs[i].rdAddr;
      rs[i+1].rdData == LastWrite(xs, i, addr, 1 - e % 2, if e % 2 == 0 then rs[0].mem1[addr] else rs[0].mem0[addr])
  {
    BanksByEpoch(depth, rs, xs, i);
    assert rs[i+1] == RtlNext(rs[i], xs[i], depth);
  }

  /** The write a read returns was made in a strictly earlier epoch. */
  lemma {:induction false} LastWriteIsEarlier(xs: seq<In>, i: nat, addr: nat, parity: nat, initial: Word)
    requires i <= |xs| && parity < 2 && parity != Epoch(xs, i) % 2
    ensures LastWrite(xs, i, addr, parity, initial) == initial ||
            exists j :: 0 <= j < i && Epoch(xs, j) < Epoch(xs, i) && WritesAt(xs, j, addr, parity, LastWrite(xs, i, addr, parity, initial))
  {
    var j := LastWriteIndex(xs, i, addr, parity, initial);
    if j < i { EpochMonotone(xs, j, i); }
  }

  predicate WritesAt(xs: seq<In>, j: nat, addr: nat, parity: nat, value: Word)
    requires j < |xs|
  {
    xs[j].wrEn && xs[j].wrAddr == addr && xs[j].wrData == value && Epoch(xs, j) % 2 == parity
  }

  lemma {:induction false} EpochMonotone(xs: seq<In>, j: nat, i: nat)
    requires j <= i <= |xs|
    ensures Epoch(xs, j) <= Epoch(xs, i)
  {
    if j < i { EpochMonotone(xs, j, i - 1); }
  }

  lemma {:induction false} LastWriteIndex(xs: seq<In>, i: nat, addr: nat, parity: nat, initial: Word) returns (j: nat)
    requires i <= |xs|
    ensures j <= i
    ensures j == i ==> LastWrite(xs, i, addr, parity, initial) == initial
    ensures j < i ==> WritesAt(xs, j, addr, parity, LastWrite(xs, i, addr, parity, initial))
  {
    if i == 0 {
      j := 0;
    } else if xs[i-1].wrEn && xs[i-1].wrAddr == addr && Epoch(xs, i - 1) % 2 == parity {
      j := i - 1;
    } else {
      j := LastWriteIndex(xs, i - 1, addr, parity, initial);
      if j == i - 1 { j := i; }
    }
  }
}
