/** Exactly how long the pipeline waits: the number of ticks between one instruction leaving decode and the
    next, read off the words alone. */
module IssueGaps {
  import opened HazardUnit
  import opened InstructionFields
  import opened SingleCycle
  import opened Pipeline
  import opened PipelineRefinement

  /** The later word reads the register that the earlier one writes. */
  predicate DependsOn(later: bv32, earlier: bv32) {
    ControlSignals(earlier).regWrite && Rd(earlier) != 0 && Reads(later, Rd(earlier))
  }

  predicate IsLoadWord(inst: bv32) { ControlSignals(inst).memRead }

  /** The ticks word next has to wait in decode behind word last, if word before issued directly in front of
      that. Without forwarding a register is read once its writer has left memory; with forwarding only
      loads make the next word wait, but branches and jalr read in decode. */
  function Wait(mode: int, before: bv32, direct: bool, last: bv32, next: bv32): nat {
    if mode == 2 || IsBranchOrJalr(next) then
      if DependsOn(next, last) then 2 else if direct && DependsOn(next, before) then 1 else 0
    else if IsLoadWord(last) && DependsOn(next, last) then 1
    else 0
  }

  /** The ticks behind a redirected branch or jump: one to fetch the target, and one more if that waits for
      the return address. */
  function WaitAtTarget(mode: int, jump: bv32, target: bv32): nat {
    if (mode == 2 || IsBranchOrJalr(target)) && DependsOn(target, jump) then 2 else 1
  }

  // ----- the latches behind an instruction that left decode -----

  /** What execute holds, if it writes a register. */
  predicate ExHolds<V>(x: IdEx<V>, inst: bv32) {
    && (ExWrites(x) <==> ControlSignals(inst).regWrite && Rd(inst) != 0)
    && (ExWrites(x) ==> x.rd == Rd(inst))
  }

  /** So does memory. */
  predicate MemHolds<V>(x: ExMem<V>, inst: bv32) {
    && (MemWrites(x) <==> ControlSignals(inst).regWrite && Rd(inst) != 0)
    && (MemWrites(x) ==> x.rd == Rd(inst))
  }

  lemma IssuedIntoExecute<V, M, P>(d: Datapath<V, M, P>, mode: int, v: Vm<V, M, P>)
    requires Issues(mode, v)
    ensures ExHolds(Tick(d, mode, v).idEx, v.ifId.inst)
    ensures Tick(d, mode, v).ifId.valid ==>
      (Tick(d, mode, v).idEx.valid && Tick(d, mode, v).idEx.signals.memRead <==> IsLoadWord(v.ifId.inst))
  {
    assert !ComputeSignals(mode, v.ifId.inst, v.idEx, v.exMem).flushDecode by { OnlyStallsFlush(mode, v); }
    hide Execute, MemLatch, MemEffect, WriteBack, ComputeSignals, Reads;
  }

  lemma OnlyStallsFlush<V, M, P>(mode: int, v: Vm<V, M, P>)
    requires Issues(mode, v)
    ensures !ComputeSignals(mode, v.ifId.inst, v.idEx, v.exMem).flushDecode
  {
    hide Reads, ReadsFirstTwo;
  }

  lemma IntoMemory<V, M, P>(d: Datapath<V, M, P>, mode: int, v: Vm<V, M, P>)
    ensures
      var m, x := Tick(d, mode, v).exMem, v.idEx;
      && (MemWrites(m) <==> ExWrites(x)) && (MemWrites(m) ==> m.rd == x.rd)
  {
    hide MemLatch, MemEffect, WriteBack, ControlSignals, ComputeSignals, Operand, Decode;
  }

  lemma BubbleIntoExecute<V, M, P>(d: Datapath<V, M, P>, mode: int, v: Vm<V, M, P>)
    requires !Issues(mode, v)
    ensures !Tick(d, mode, v).idEx.valid && !ExWrites(Tick(d, mode, v).idEx)
  {
    hide Execute, MemLatch, MemEffect, WriteBack, ControlSignals, ComputeSignals;
  }

  lemma HeldInDecode<V, M, P>(d: Datapath<V, M, P>, mode: int, v: Vm<V, M, P>)
    requires v.ifId.valid && !Issues(mode, v)
    ensures Tick(d, mode, v).ifId == v.ifId
  {
    hide Execute, MemLatch, MemEffect, WriteBack, ControlSignals, ComputeSignals;
  }

  // ----- when decode waits -----

  lemma BranchReadsTwo(inst: bv32, r: bv32)
    requires IsBranchOrJalr(inst)
    ensures ReadsFirstTwo(inst, r) == Reads(inst, r)
  {
  }

  /** Decode waits exactly for these latches. */
  lemma StallsExactly<V, M, P>(mode: int, v: Vm<V, M, P>)
    requires mode >= 2 && WellFormed(v)
    ensures
      var inst, branch := v.ifId.inst, mode == 2 || IsBranchOrJalr(v.ifId.inst);
      var load := v.idEx.valid && v.idEx.signals.memRead;
      Stalls(mode, v) <==>
        || (ExWrites(v.idEx) && Reads(inst, v.idEx.rd) && (branch || load))
        || (MemWrites(v.exMem) && Reads(inst, v.exMem.rd) && branch)
  {
    if IsBranchOrJalr(v.ifId.inst) {
      BranchReadsTwo(v.ifId.inst, v.idEx.rd);
      BranchReadsTwo(v.ifId.inst, v.exMem.rd);
    }
    hide Reads, ReadsFirstTwo, IsBranchOrJalr;
  }

  /** Behind a bubble in execute, and another in memory, nothing waits. */
  lemma NothingAhead<V, M, P>(mode: int, v: Vm<V, M, P>)
    requires mode >= 2 && WellFormed(v) && v.ifId.valid && !ExWrites(v.idEx) && !MemWrites(v.exMem)
    ensures Issues(mode, v)
  {
    StallsExactly(mode, v);
    hide Reads, ComputeSignals;
  }

  /** The tick behind an instruction that left decode, when decode holds the next one. */
  lemma FirstTickWaits<V, M, P>(mode: int, v: Vm<V, M, P>, before: bv32, direct: bool, last: bv32)
    requires mode >= 2 && WellFormed(v) && v.ifId.valid && ExHolds(v.idEx, last)
    requires v.idEx.valid && v.idEx.signals.memRead <==> IsLoadWord(last)
    requires if direct then MemHolds(v.exMem, before) else !MemWrites(v.exMem)
    ensures Issues(mode, v) <==> Wait(mode, before, direct, last, v.ifId.inst) == 0
  {
    StallsExactly(mode, v);
    hide Reads, ComputeSignals, IsBranchOrJalr, ControlSignals;
  }

  /** The second tick: execute has a bubble, memory what was in execute. */
  lemma SecondTickWaits<V, M, P>(mode: int, v: Vm<V, M, P>, last: bv32)
    requires mode >= 2 && WellFormed(v) && v.ifId.valid && !ExWrites(v.idEx) && MemHolds(v.exMem, last)
    ensures Issues(mode, v) <==> !((mode == 2 || IsBranchOrJalr(v.ifId.inst)) && DependsOn(v.ifId.inst, last))
  {
    StallsExactly(mode, v);
    hide Reads, ComputeSignals, IsBranchOrJalr, ControlSignals;
  }

  // ----- the gap between two instructions -----

  /** An instruction issues, and is not redirected: the next one is in decode, and issues after exactly this
      wait. */
  lemma WaitExactly<V, M, P>(d: Datapath<V, M, P>, mode: int, v0: Vm<V, M, P>)
    requires mode >= 2 && WellFormed(v0)
    requires var v1 := Tick(d, mode, v0); Issues(mode, v1) && Tick(d, mode, v1).ifId.valid
    ensures
      var v1 := Tick(d, mode, v0);
      var v2 := Tick(d, mode, v1);
      var v3 := Tick(d, mode, v2);
      var v4 := Tick(d, mode, v3);
      var wait := Wait(mode, v0.ifId.inst, Issues(mode, v0), v1.ifId.inst, v2.ifId.inst);
      && (wait == 0 ==> Issues(mode, v2))
      && (wait >= 1 ==> !Issues(mode, v2) && v3.ifId == v2.ifId && (Issues(mode, v3) <==> wait == 1))
      && (wait >= 2 ==> v4.ifId == v2.ifId && Issues(mode, v4))
  {
    var v1 := Tick(d, mode, v0);
    var v2 := Tick(d, mode, v1);
    var v3 := Tick(d, mode, v2);
    var before, direct, last := v0.ifId.inst, Issues(mode, v0), v1.ifId.inst;
    hide Tick, Issues, WellFormed, ExWrites, MemWrites, ControlSignals, IsBranchOrJalr, Reads;
    TickKeepsWellFormed(d, mode, v0);
    TickKeepsWellFormed(d, mode, v1);
    TickKeepsWellFormed(d, mode, v2);
    TickKeepsWellFormed(d, mode, v3);
    if direct { IssuedIntoExecute(d, mode, v0); } else { BubbleIntoExecute(d, mode, v0); }
    IntoMemory(d, mode, v1);
    IssuedIntoExecute(d, mode, v1);
    FirstTickWaits(mode, v2, before, direct, last);
    if !Issues(mode, v2) {
      HeldInDecode(d, mode, v2);
      BubbleIntoExecute(d, mode, v2);
      IntoMemory(d, mode, v2);
      SecondTickWaits(mode, v3, last);
      if !Issues(mode, v3) {
        HeldInDecode(d, mode, v3);
        BubbleIntoExecute(d, mode, v3);
        IntoMemory(d, mode, v3);
        NothingAhead(mode, Tick(d, mode, v3));
      }
    }
  }

  lemma EmptyFetches<V, M, P>(d: Datapath<V, M, P>, mode: int, v: Vm<V, M, P>)
    requires mode >= 2 && v.ifId == NoIfId(d)
    ensures !Issues(mode, v) && Tick(d, mode, v).ifId.valid
  {
    hide Execute, MemLatch, MemEffect, WriteBack, ControlSignals;
    assert ComputeSignals(mode, 0, v.idEx, v.exMem) == NO_ACTION by { ZeroHasNoAction(mode, v.idEx, v.exMem); }
  }

  lemma ZeroHasNoAction<V>(mode: int, idEx: IdEx<V>, exMem: ExMem<V>)
    ensures ComputeSignals(mode, 0, idEx, exMem) == NO_ACTION
  {
  }

  lemma RedirectEmpties<V, M, P>(d: Datapath<V, M, P>, mode: int, v: Vm<V, M, P>)
    requires Issues(mode, v) && !Tick(d, mode, v).ifId.valid
    ensures Tick(d, mode, v).ifId == NoIfId(d) && IsControlFlow(v.ifId.inst)
  {
    assert !ComputeSignals(mode, v.ifId.inst, v.idEx, v.exMem).flushDecode by { OnlyStallsFlush(mode, v); }
    hide Execute, MemLatch, MemEffect, WriteBack, ControlSignals, ComputeSignals;
  }

  lemma TargetWaits<V, M, P>(mode: int, v: Vm<V, M, P>, jump: bv32)
    requires mode >= 2 && WellFormed(v) && v.ifId.valid && !ExWrites(v.idEx) && MemHolds(v.exMem, jump)
    ensures Issues(mode, v) <==> WaitAtTarget(mode, jump, v.ifId.inst) == 1
  {
    SecondTickWaits(mode, v, jump);
    hide Reads, ComputeSignals, IsBranchOrJalr, ControlSignals;
  }

  /** Behind a redirected branch or jump: one tick without an instruction, and then the target, which issues
      after exactly this wait. */
  lemma RedirectExactly<V, M, P>(d: Datapath<V, M, P>, mode: int, v1: Vm<V, M, P>)
    requires mode >= 2 && WellFormed(v1) && Issues(mode, v1) && !Tick(d, mode, v1).ifId.valid
    ensures
      var v2 := Tick(d, mode, v1);
      var v3 := Tick(d, mode, v2);
      var v4 := Tick(d, mode, v3);
      var wait := WaitAtTarget(mode, v1.ifId.inst, v3.ifId.inst);
      && !Issues(mode, v2) && v3.ifId.valid
      && (Issues(mode, v3) <==> wait == 1)
      && (wait == 2 ==> v4.ifId == v3.ifId && Issues(mode, v4))
  {
    var v2 := Tick(d, mode, v1);
    var v3 := Tick(d, mode, v2);
    hide Tick, Issues, WellFormed, ExWrites, MemWrites, ControlSignals, IsBranchOrJalr, Reads;
    TickKeepsWellFormed(d, mode, v1);
    TickKeepsWellFormed(d, mode, v2);
    TickKeepsWellFormed(d, mode, v3);
    RedirectEmpties(d, mode, v1);
    IssuedIntoExecute(d, mode, v1);
    EmptyFetches(d, mode, v2);
    BubbleIntoExecute(d, mode, v2);
    IntoMemory(d, mode, v2);
    TargetWaits(mode, v3, v1.ifId.inst);
    if !Issues(mode, v3) {
      HeldInDecode(d, mode, v3);
      BubbleIntoExecute(d, mode, v3);
      IntoMemory(d, mode, v3);
      NothingAhead(mode, Tick(d, mode, v3));
    }
  }
}
