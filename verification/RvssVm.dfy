/** The simulated processor as the object the simulator keeps: its latches are updated stage by stage,
    last stage first, and copied at the end of the tick. */
module RvssVm {
  import opened HazardUnit
  import opened InstructionFields
  import opened SingleCycle
  import opened Pipeline
  import opened PipelineRefinement
  import opened PipelineRuns
  import opened MainLoop
  import opened LoopExit
  import opened Timing
  import opened StraightLine

  // The outcome of a branch or jump in decode, and whether fetch may go on as it has.

  predicate TakenBy<V, M, P>(d: Datapath<V, M, P>, f: IfId<V>, reg1: V, reg2: V) {
    IsJump(f.inst) || d.taken(Funct3(f.inst), reg1, reg2)
  }

  function TargetFrom<V, M, P>(d: Datapath<V, M, P>, f: IfId<V>, reg1: V, imm: V): V {
    d.add(if Opcode(f.inst) == 0x67 then reg1 else f.pc, imm)
  }

  predicate Accepted<V>(mode: int, f: IfId<V>, taken: bool) {
    && (mode == 4 ==> !taken)
    && (mode >= 5 ==> taken == f.predictedTaken)
    && (IsJump(f.inst) ==> f.predictedTaken)
  }

  lemma DecodeByParts<V, M, P>(d: Datapath<V, M, P>, mode: int, v: Vm<V, M, P>, regs: Regs<V>)
    ensures
      var f, c := v.ifId, ComputeSignals(mode, v.ifId.inst, v.idEx, v.exMem);
      var reg1, reg2, imm := d.ReadGpr(regs, Rs1(f.inst)), d.ReadGpr(regs, Rs2(f.inst)), d.imm(f.inst);
      var taken, target := TakenBy(d, f, reg1, reg2), TargetFrom(d, f, reg1, imm);
      var bpu := if mode >= 5 then Pipeline.Update(d, v.bpu, f.pc, taken, target) else v.bpu;
      Decode(d, mode, v, regs) ==
        if c.stallFetch then Decoded(NoIdEx(d), v.pc, v.bpu, true, false, v.stallCount + 1)
        else if c.flushDecode || !f.valid then Decoded(NoIdEx(d), v.pc, v.bpu, false, false, v.stallCount)
        else if !IsControlFlow(f.inst) then Decoded(FilledIdEx(d, f, regs, c), v.pc, v.bpu, false, false, v.stallCount)
        else if Accepted(mode, f, taken) then Decoded(FilledIdEx(d, f, regs, c), v.pc, bpu, false, false, v.stallCount)
        else
          Decoded(if IsJump(f.inst) then JumpIdEx(d, f) else NoIdEx(d), if taken then target else f.pcPlus4, bpu,
                  false, true, v.stallCount + 1)
  {
    hide ComputeSignals, ControlSignals, Opcode, Rd, Funct3, Rs1, Rs2, Pipeline.Update;
  }

  class RvssVm<V(==), M, P> {
    const d: Datapath<V, M, P>
    const mode: int
    const pastEnd: V -> bool
    const executionLimit: nat
    var pc: V
    var regs: Regs<V>
    var mem: M
    var bpu: Bpu<V, P>
    var ifId: IfId<V>
    var idEx: IdEx<V>
    var exMem: ExMem<V>
    var memWb: MemWb<V>
    var ifIdNext: IfId<V>
    var idExNext: IdEx<V>
    var exMemNext: ExMem<V>
    var memWbNext: MemWb<V>
    var pipelineStalled: bool
    var flushFetch: bool
    var stallCount: nat
    var cycles: nat
    var instructionsRetired: nat

    /** Between ticks nothing is pending. */
    predicate Valid()
      reads this
    {
      !pipelineStalled && !flushFetch
    }

    function Snapshot(): Vm<V, M, P>
      reads this
    {
      Vm(pc, regs, mem, ifId, idEx, exMem, memWb, bpu, stallCount)
    }

    constructor (d: Datapath<V, M, P>, mode: int, pastEnd: V -> bool, executionLimit: nat, mem: M, bpu: Bpu<V, P>)
      ensures Valid() && this.d == d && this.mode == mode && this.pastEnd == pastEnd
      ensures this.executionLimit == executionLimit
      ensures cycles == 0 && instructionsRetired == 0
      ensures Snapshot() == Vm(d.zero, map[], mem, NoIfId(d), NoIdEx(d), NoExMem(d), NoMemWb(d), bpu, 0)
    {
      this.d, this.mode, this.pastEnd, this.executionLimit := d, mode, pastEnd, executionLimit;
      this.mem, this.bpu, pc, regs := mem, bpu, d.zero, map[];
      ifId, idEx, exMem, memWb := NoIfId(d), NoIdEx(d), NoExMem(d), NoMemWb(d);
      ifIdNext, idExNext, exMemNext, memWbNext := NoIfId(d), NoIdEx(d), NoExMem(d), NoMemWb(d);
      pipelineStalled, flushFetch, stallCount, cycles := false, false, 0, 0;
      instructionsRetired := 0;
    }

    method PipelineWriteBack()
      modifies this`regs, this`instructionsRetired
      ensures regs == WriteBack(old(regs), memWb)
      ensures instructionsRetired == old(instructionsRetired) + if Retires(Snapshot()) then 1 else 0
    {
      if !memWb.valid { return; }
      if memWb.signals.regWrite {
        var value := if memWb.signals.memToReg then memWb.memData else memWb.aluAns;
        if memWb.rd != 0 { regs := regs[X(memWb.rd) := value]; }
        instructionsRetired := instructionsRetired + 1;
      }
    }

    method PipelineMem()
      modifies this`mem, this`memWbNext
      ensures memWbNext == MemLatch(d, old(mem), exMem) && mem == MemEffect(d, old(mem), exMem)
    {
      if !exMem.valid {
        memWbNext := NoMemWb(d);
        return;
      }
      var readData := d.zero;
      if exMem.signals.memRead {
        readData := d.load(mem, exMem.funct3, exMem.aluAns);
        mem := d.afterLoad(mem, exMem.funct3, exMem.aluAns);
      } else if exMem.signals.memWrite {
        mem := d.store(mem, exMem.funct3, exMem.aluAns, exMem.data);
      }
      memWbNext := MemWb(exMem.aluAns, readData, exMem.rd, exMem.inst, true, exMem.signals);
    }

    method SelectOperand(source: ForwardSource, decoded: V) returns (value: V)
      ensures value == Operand(source, decoded, exMem, memWb)
    {
      value := decoded;
      match source {
        case FromDecode =>
        case FromExecute => value := exMem.aluAns;
        case FromMemory => value := if memWb.signals.memToReg then memWb.memData else memWb.aluAns;
      }
    }

    method PipelineExecute()
      modifies this`exMemNext
      ensures exMemNext == Execute(d, idEx, exMem, memWb)
    {
      hide Opcode, Operand;
      if !idEx.valid {
        exMemNext := NoExMem(d);
        return;
      }
      var reg1 := SelectOperand(idEx.forwardA, idEx.rs1Data);
      var reg2 := SelectOperand(idEx.forwardB, idEx.rs2Data);
      var operand2 := reg2;
      if idEx.signals.aluSrc { operand2 := idEx.imm; }
      var result;
      if Opcode(idEx.inst) == 0x6F || Opcode(idEx.inst) == 0x67 {
        result := idEx.pcPlus4;
      } else {
        result := d.alu(idEx.inst, reg1, operand2);
      }
      exMemNext := ExMem(result, reg2, idEx.rd, idEx.funct3, idEx.inst, true, idEx.signals);
    }

    /** The instruction in decode is a branch or jump: settles it, and answers whether fetch has to
        start over. */
    method ResolveControlFlow(reg1: V, reg2: V, imm: V) returns (redirected: bool)
      requires Valid() && IsControlFlow(ifId.inst)
      modifies this`idExNext, this`pc, this`bpu, this`flushFetch, this`stallCount
      ensures
        var taken := TakenBy(d, ifId, reg1, reg2);
        var target := TargetFrom(d, ifId, reg1, imm);
        && redirected == !Accepted(mode, ifId, taken)
        && bpu == (if mode >= 5 then Pipeline.Update(d, old(bpu), ifId.pc, taken, target) else old(bpu))
        && flushFetch == redirected
        && stallCount == old(stallCount) + (if redirected then 1 else 0)
        && pc == (if !redirected then old(pc) else if taken then target else ifId.pcPlus4)
        && (redirected ==> idExNext == if IsJump(ifId.inst) then JumpIdEx(d, ifId) else NoIdEx(d))
    {
      hide Opcode, Rd, Funct3, Pipeline.Update;
      var inst := ifId.inst;
      var isTaken, target;
      if Opcode(inst) == 0x6F {
        isTaken, target := true, d.add(ifId.pc, imm);
      } else if Opcode(inst) == 0x67 {
        isTaken, target := true, d.add(reg1, imm);
      } else {
        isTaken, target := d.taken(Funct3(inst), reg1, reg2), d.add(ifId.pc, imm);
      }
      var predictionCorrect := true;
      if mode == 4 {
        predictionCorrect := !isTaken;
      } else if mode >= 5 {
        predictionCorrect := isTaken == ifId.predictedTaken;
        bpu := Pipeline.Update(d, bpu, ifId.pc, isTaken, target);
      }
      if (Opcode(inst) == 0x6F || Opcode(inst) == 0x67) && !ifId.predictedTaken { predictionCorrect := false; }
      redirected := !predictionCorrect;
      if redirected {
        pc := if isTaken then target else ifId.pcPlus4;
        flushFetch := true;
        stallCount := stallCount + 1;
        idExNext := NoIdEx(d);
        if Opcode(inst) == 0x6F || Opcode(inst) == 0x67 {
          idExNext := idExNext.(valid := true, signals := NO_SIGNALS.(regWrite := true), aluAns := ifId.pcPlus4,
                                rd := Rd(inst), inst := inst);
        }
      }
    }

    method PipelineDecode()
      requires Valid()
      modifies this`idExNext, this`pc, this`bpu, this`pipelineStalled, this`flushFetch, this`stallCount
      ensures Decoded(idExNext, pc, bpu, pipelineStalled, flushFetch, stallCount) ==
        Decode(d, mode, old(Snapshot()), regs)
      ensures !(pipelineStalled && flushFetch)
    {
      hide ControlSignals, ComputeSignals, Decode, TakenBy, TargetFrom, Accepted, IsControlFlow, IsJump, JumpIdEx;
      DecodeByParts(d, mode, Snapshot(), regs);
      var signals := ComputeSignals(mode, ifId.inst, idEx, exMem);
      if signals.stallFetch {
        pipelineStalled := true;
        stallCount := stallCount + 1;
        idExNext := NoIdEx(d);
        return;
      }
      if signals.flushDecode || !ifId.valid {
        idExNext := NoIdEx(d);
        return;
      }
      var reg1, reg2, imm := d.ReadGpr(regs, Rs1(ifId.inst)), d.ReadGpr(regs, Rs2(ifId.inst)), d.imm(ifId.inst);
      if IsControlFlow(ifId.inst) {
        var redirected := ResolveControlFlow(reg1, reg2, imm);
        if redirected { return; }
      }
      idExNext := IdEx(d.zero, ifId.pcPlus4, reg1, reg2, imm, ifId.inst, Rd(ifId.inst), Funct3(ifId.inst), true,
                       ControlSignals(ifId.inst), signals.forwardA, signals.forwardB);
    }

    method PipelineFetch()
      requires ifIdNext == NoIfId(d) && !(pipelineStalled && flushFetch)
      modifies this`ifIdNext, this`pc, this`bpu, this`pipelineStalled, this`flushFetch
      ensures Valid()
      ensures Fetched(ifIdNext, pc, bpu) ==
        Fetch(d, mode, mem, ifId,
              Decoded(idExNext, old(pc), old(bpu), old(pipelineStalled), old(flushFetch), stallCount))
    {
      if flushFetch {
        flushFetch := false;
        return;
      } else if pipelineStalled {
        pipelineStalled := false;
        ifIdNext := ifId;
        return;
      }
      var nextPc := d.next(pc);
      var predictedPc, predictedTaken := nextPc, false;
      if mode >= 5 {
        var prediction := Pipeline.Predict(d, bpu, pc, nextPc);
        bpu := prediction.bpu;
        predictedPc, predictedTaken := prediction.targetPc, prediction.isTaken;
      }
      ifIdNext := IfId(pc, nextPc, d.fetch(mem, pc), true, predictedTaken);
      pc := predictedPc;
    }

    /** The stages that update registers and memory and fill the later latches. */
    method RetireStages()
      modifies this`regs, this`instructionsRetired, this`mem, this`exMemNext, this`memWbNext
      ensures instructionsRetired == old(instructionsRetired) + if old(Retires(Snapshot())) then 1 else 0
      ensures regs == WriteBack(old(regs), memWb)
      ensures memWbNext == MemLatch(d, old(mem), exMem) && mem == MemEffect(d, old(mem), exMem)
      ensures exMemNext == Execute(d, idEx, exMem, memWb)
    {
      hide Execute, MemLatch, MemEffect, WriteBack;
      PipelineWriteBack();
      PipelineMem();
      PipelineExecute();
    }

    /** The stages that decode one instruction and fetch the next. */
    method IssueStages()
      requires Valid() && ifIdNext == NoIfId(d)
      modifies this`ifIdNext, this`idExNext, this`pc, this`bpu, this`pipelineStalled, this`flushFetch, this`stallCount
      ensures Valid()
      ensures
        var o := Decode(d, mode, old(Snapshot()), regs);
        var f := Fetch(d, mode, mem, ifId, o);
        ifIdNext == f.ifId && idExNext == o.idEx && pc == f.pc && bpu == f.bpu && stallCount == o.stallCount
    {
      hide Decode, Fetch, NoIfId;
      PipelineDecode();
      PipelineFetch();
    }

    /** What the state will be once the new latches are copied over the old ones. */
    function Upcoming(): Vm<V, M, P>
      reads this
    {
      Vm(pc, regs, mem, ifIdNext, idExNext, exMemNext, memWbNext, bpu, stallCount)
    }

    method RunStages()
      requires Valid() && ifIdNext == NoIfId(d)
      modifies this`regs, this`instructionsRetired, this`mem, this`exMemNext, this`memWbNext, this`ifIdNext,
               this`idExNext, this`pc, this`bpu,
        this`pipelineStalled, this`flushFetch, this`stallCount
      ensures Valid() && Upcoming() == Tick(d, mode, old(Snapshot()))
      ensures instructionsRetired == old(instructionsRetired) + if old(Retires(Snapshot())) then 1 else 0
    {
      hide Decode, Fetch, Execute, MemLatch, MemEffect, WriteBack, NoIfId, Tick;
      ghost var v := Snapshot();
      RetireStages();
      DecodeReads(d, mode, v, Snapshot(), regs);
      IssueStages();
      TickByParts(d, mode, v);
    }

    method ClearNext()
      modifies this`ifIdNext, this`idExNext, this`exMemNext, this`memWbNext
      ensures ifIdNext == NoIfId(d)
    {
      ifIdNext, idExNext, exMemNext, memWbNext := NoIfId(d), NoIdEx(d), NoExMem(d), NoMemWb(d);
    }

    method CopyLatches()
      modifies this`ifId, this`idEx, this`exMem, this`memWb
      ensures Snapshot() == Upcoming()
    {
      ifId, idEx, exMem, memWb := ifIdNext, idExNext, exMemNext, memWbNext;
    }

    /** One clock tick. */
    method Clocktick()
      requires Valid()
      modifies this
      ensures Valid() && Snapshot() == Tick(d, mode, old(Snapshot())) && cycles == old(cycles) + 1
      ensures instructionsRetired == old(instructionsRetired) + if old(Retires(Snapshot())) then 1 else 0
    {
      hide NoIfId, Tick;
      ghost var v := Snapshot();
      ClearNext();
      assert Snapshot() == v;
      RunStages();
      ghost var w := Upcoming();
      CopyLatches();
      cycles := cycles + 1;
      assert Snapshot() == w;
    }

    /** Ticks until the program counter has passed the program or the execution limit is passed, then
        five times more. Another thread may ask to stop, here after a given number of ticks. */
    method RunPipelined(stopAfter: nat) returns (n: nat)
      requires Valid()
      modifies this
      ensures Valid() && n <= stopAfter
      ensures
        var run := RunFrom(d, mode, old(Snapshot()));
        && (n < stopAfter && old(instructionsRetired) + Retired(run, n) <= executionLimit ==> LoopEnds(run, pastEnd, n))
        && (forall k: nat {:trigger run(k)} :: k < n ==> !pastEnd(run(k).pc))
        && (n + 5 <= stopAfter ==> Snapshot() == run(n + 5))
        && (n + 5 > stopAfter ==> Snapshot() == run(stopAfter))
    {
      hide Tick, Retires;
      ghost var run := RunFrom(d, mode, Snapshot());
      n := 0;
      while n < stopAfter && !pastEnd(pc)
        invariant Valid() && n <= stopAfter && Snapshot() == run(n)
        invariant instructionsRetired == old(instructionsRetired) + Retired(run, n)
        invariant forall k: nat {:trigger run(k)} :: k < n ==> !pastEnd(run(k).pc)
      {
        if instructionsRetired > executionLimit { break; }
        Clocktick();
        n := n + 1;
      }
      var flushCycles, ticks := 4, n;
      while ticks < stopAfter && flushCycles >= 0
        invariant Valid() && ticks + flushCycles == n + 4 && n <= ticks <= stopAfter && flushCycles >= -1
        invariant Snapshot() == run(ticks)
      {
        Clocktick();
        ticks, flushCycles := ticks + 1, flushCycles - 1;
      }
    }
  }

  ghost function TickTimes<V, M, P>(d: Datapath<V, M, P>, mode: int, v: Vm<V, M, P>, n: nat): Vm<V, M, P> {
    if n == 0 then v else Tick(d, mode, TickTimes(d, mode, v, n - 1))
  }

  ghost function RunFrom<V, M, P>(d: Datapath<V, M, P>, mode: int, v: Vm<V, M, P>): Run<V, M, P> {
    (n: nat) => TickTimes(d, mode, v, n)
  }

  /** Running a straight-line program to its end leaves the registers and memory of the sequential
      machine; in mode 2 the last register write is missing if the last word reads what its
      predecessor writes. */
  method RunStraightLine<V(!new,==), M(!new), P(!new)>(
    vm: RvssVm<V, M, P>, stopAfter: nat, ghost t: Text<V>, ghost jt: V -> V, ghost arch: SeqRun<V, M>,
    ghost addr: nat -> V, ghost w: seq<bv32>) returns (n: nat)
    requires vm.Valid() && |w| > 0 && stopAfter >= 3 * |w| + 3
    requires vm.instructionsRetired + InFlight(vm.Snapshot()) + |w| <= vm.executionLimit + 1
    requires StraightSetup(vm.d, vm.mode, t, jt, RunFrom(vm.d, vm.mode, vm.Snapshot()), arch, vm.pastEnd, addr, w)
    modifies vm
    ensures vm.mem == arch(|w|).mem
    ensures vm.regs == if vm.mode == 2 && LastPairDepends(w) then arch(|w| - 1).regs else arch(|w|).regs
  {
    hide StraightSetup, Timed, LastPairDepends, LoopEnds, Tick, IsRun, Issued, Retired;
    ghost var run := RunFrom(vm.d, vm.mode, vm.Snapshot());
    RunFromIsRun(vm.d, vm.mode, vm.Snapshot());
    ghost var m := StraightLineRun(vm.d, vm.mode, t, jt, run, arch, vm.pastEnd, addr, w);
    StraightIsTimed(vm.d, vm.mode, t, jt, run, arch, vm.pastEnd, addr, w);
    EndMeansLast(vm.d, vm.mode, run, vm.pastEnd, addr, w, m);
    n := vm.RunPipelined(stopAfter);
    NotPastEnd(run, vm.pastEnd, m, n);
    RetiredWereIssued(vm.d, vm.mode, run, n);
    IssuedGrows(vm.mode, run, n, m);
    LoopEndsOnce(run, vm.pastEnd, m, n);
  }

  /** Running any program whose sequential run ends, in a forwarding mode: the machine object stops with
      the sequential result if no instruction at the end of the program leads back, and otherwise behind
      the first that does. */
  method RunToEnd<V(!new,==), M(!new), P(!new)>(
    vm: RvssVm<V, M, P>, stopAfter: nat, ghost t: Text<V>, ghost jt: V -> V, ghost arch: SeqRun<V, M>, ghost kk: nat)
    returns (n: nat)
    requires vm.Valid() && vm.mode >= 3 && stopAfter >= 4 * kk + 8
    requires vm.instructionsRetired + InFlight(vm.Snapshot()) + kk <= vm.executionLimit
    requires LoopRun(vm.d, vm.mode, t, jt, RunFrom(vm.d, vm.mode, vm.Snapshot()), arch, vm.pastEnd, kk)
    modifies vm
    ensures NeverBack(vm.d, t, arch, vm.pastEnd, kk) ==> vm.regs == arch(kk).regs && vm.mem == arch(kk).mem
    ensures forall k: nat :: k < kk && FirstBack(vm.d, t, arch, vm.pastEnd, k) ==> vm.regs == arch(k + 1).regs
  {
    hide LoopRun, NeverBack, FirstBack, LoopEnds, Tick, IsRun, Issued, Retired, RunFrom, InFlight;
    ghost var run := RunFrom(vm.d, vm.mode, vm.Snapshot());
    RunFromIsRun(vm.d, vm.mode, vm.Snapshot());
    ghost var m := RunEnd(vm.d, vm.mode, t, jt, run, arch, vm.pastEnd, kk);
    n := vm.RunPipelined(stopAfter);
    NotPastEnd(run, vm.pastEnd, m, n);
    RetiredWereIssued(vm.d, vm.mode, run, n);
    IssuedGrows(vm.mode, run, n, m);
    LoopEndsOnce(run, vm.pastEnd, m, n);
  }

  lemma RunEnd<V(!new), M(!new), P(!new)>(
    d: Datapath<V, M, P>, mode: int, t: Text<V>, jt: V -> V, run: Run<V, M, P>, arch: SeqRun<V, M>,
    halted: V -> bool, kk: nat) returns (n: nat)
    requires LoopRun(d, mode, t, jt, run, arch, halted, kk) && mode >= 3
    ensures LoopEnds(run, halted, n) && n < 4 * (kk + 1) && Issued(mode, run, n) <= kk
    ensures NeverBack(d, t, arch, halted, kk) ==> run(n + 5).regs == arch(kk).regs && run(n + 5).mem == arch(kk).mem
    ensures forall k: nat :: k < kk && FirstBack(d, t, arch, halted, k) ==> run(n + 5).regs == arch(k + 1).regs
  {
    hide *;
    n := WholeProgramExactly(d, mode, t, jt, run, arch, halted, kk);
    EndsRunning(run, halted, n);
    LoopStaysInside(d, mode, t, jt, run, arch, halted, kk, n);
    forall k: nat | k < kk && FirstBack(d, t, arch, halted, k)
      ensures run(n + 5).regs == arch(k + 1).regs
    {
      OneFirst(d, t, arch, halted, k, Issued(mode, run, n), kk);
    }
  }

  lemma EndsRunning<V, M, P>(run: Run<V, M, P>, halted: V -> bool, n: nat)
    requires LoopEnds(run, halted, n)
    ensures Running(run, halted, n)
  {
  }

  lemma OneFirst<V, M, P>(
    d: Datapath<V, M, P>, t: Text<V>, arch: SeqRun<V, M>, halted: V -> bool, j: nat, k: nat, kk: nat)
    requires FirstBack(d, t, arch, halted, j) && j < kk
    ensures !NeverBack(d, t, arch, halted, kk)
    ensures FirstBack(d, t, arch, halted, k) ==> j == k
  {
    hide LeadsBack;
  }

  lemma RunFromIsRun<V(!new), M(!new), P(!new)>(d: Datapath<V, M, P>, mode: int, v: Vm<V, M, P>)
    ensures IsRun(d, mode, RunFrom(d, mode, v)) && RunFrom(d, mode, v)(0) == v
  {
    hide Tick;
  }

  lemma NotPastEnd<V, M, P>(run: Run<V, M, P>, halted: V -> bool, m: nat, n: nat)
    requires LoopEnds(run, halted, m) && forall k: nat {:trigger run(k)} :: k < n ==> !halted(run(k).pc)
    ensures n <= m
  {
  }

  lemma TickByParts<V, M, P>(d: Datapath<V, M, P>, mode: int, v: Vm<V, M, P>)
    ensures
      var o := Decode(d, mode, v, WriteBack(v.regs, v.memWb));
      var f := Fetch(d, mode, MemEffect(d, v.mem, v.exMem), v.ifId, o);
      Tick(d, mode, v) ==
        Vm(f.pc, WriteBack(v.regs, v.memWb), MemEffect(d, v.mem, v.exMem), f.ifId, o.idEx,
           Execute(d, v.idEx, v.exMem, v.memWb), MemLatch(d, v.mem, v.exMem), f.bpu, o.stallCount)
  {
    hide Decode, Fetch, Execute, MemLatch, MemEffect, WriteBack;
  }

  /** Decode looks at the latches, the program counter and the predictor, not at memory. */
  lemma DecodeReads<V, M, P>(d: Datapath<V, M, P>, mode: int, v: Vm<V, M, P>, w: Vm<V, M, P>, regs: Regs<V>)
    requires w == v.(regs := w.regs, mem := w.mem)
    ensures Decode(d, mode, w, regs) == Decode(d, mode, v, regs)
  {
    hide ComputeSignals, ControlSignals;
  }
}
