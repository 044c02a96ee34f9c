/** Where each mode goes on after a branch or jump, and exactly when that is right. */
module ControlFlow {
  import opened InstructionFields
  import opened HazardUnit
  import opened SingleCycle
  import opened Pipeline
  import opened PipelineRefinement
  import opened PipelineRuns

  /** Decode goes on at a wrong address: without prediction a taken branch is not followed, and a jalr
      predicted taken is not checked against the target it was sent to. */
  predicate GoesAstray<V(==), M, P>(d: Datapath<V, M, P>, mode: int, v: Vm<V, M, P>, regs: Regs<V>) {
    var inst := v.ifId.inst;
    var reg1, reg2 := d.ReadGpr(regs, Rs1(inst)), d.ReadGpr(regs, Rs2(inst));
    || (mode < 4 && Opcode(inst) == 0x63 && d.taken(Funct3(inst), reg1, reg2)
        && d.add(v.ifId.pc, d.imm(inst)) != d.next(v.ifId.pc))
    || (mode >= 5 && Opcode(inst) == 0x67 && v.ifId.predictedTaken && d.add(reg1, d.imm(inst)) != v.pc)
  }

  lemma DecodeGoesOn<V(!new), M(!new), P(!new)>(d: Datapath<V, M, P>, mode: int, t: Text<V>, jt: V -> V,
                                                v: Vm<V, M, P>, regs: Regs<V>)
    requires mode >= 2 && Issues(mode, v) && FrontEndOk(d, mode, t, v) && (mode >= 5 ==> TargetsOk(d, t, jt, v.bpu))
    ensures Decode(d, mode, v, regs).pc == NextPc(d, v.ifId.inst, v.ifId.pc, regs) <==> !GoesAstray(d, mode, v, regs)
  {
  }

  lemma OperandsAreCurrent<V, M, P>(d: Datapath<V, M, P>, mode: int, v: Vm<V, M, P>)
    requires WellFormed(v) && mode >= 2 && !Stalls(mode, v)
    ensures
      var inst, regs, final := v.ifId.inst, WriteBack(v.regs, v.memWb), Drained(d, v).regs;
      && (IsBranchOrJalr(inst) ==> d.ReadGpr(regs, Rs1(inst)) == d.ReadGpr(final, Rs1(inst)))
      && (Opcode(inst) == 0x63 ==> d.ReadGpr(regs, Rs2(inst)) == d.ReadGpr(final, Rs2(inst)))
  {
    hide Drained, WellFormed, Stalls, WriteBack;
    if IsBranchOrJalr(v.ifId.inst) { BranchOperandIsCurrent(d, mode, v, Rs1(v.ifId.inst)); }
    if Opcode(v.ifId.inst) == 0x63 { BranchOperandIsCurrent(d, mode, v, Rs2(v.ifId.inst)); }
  }

  lemma SameOperandsSameWay<V, M, P>(d: Datapath<V, M, P>, mode: int, v: Vm<V, M, P>, regs: Regs<V>, final: Regs<V>)
    requires IsBranchOrJalr(v.ifId.inst) ==> d.ReadGpr(regs, Rs1(v.ifId.inst)) == d.ReadGpr(final, Rs1(v.ifId.inst))
    requires Opcode(v.ifId.inst) == 0x63 ==> d.ReadGpr(regs, Rs2(v.ifId.inst)) == d.ReadGpr(final, Rs2(v.ifId.inst))
    ensures NextPc(d, v.ifId.inst, v.ifId.pc, regs) == NextPc(d, v.ifId.inst, v.ifId.pc, final)
    ensures GoesAstray(d, mode, v, regs) == GoesAstray(d, mode, v, final)
  {
  }

  /** The tick that issues an instruction leaves the pipeline at the sequential machine's next address
      exactly when it does not go astray. */
  lemma RightAddressExactly<V(!new), M(!new), P(!new)>(
    d: Datapath<V, M, P>, mode: int, t: Text<V>, jt: V -> V, v: Vm<V, M, P>)
    requires Lawful(d) && mode >= 2 && Inv(d, mode, t, jt, v) && Issues(mode, v)
    requires IntegerOpcode(Opcode(v.ifId.inst)) && !ReusesOldResult(v.ifId.inst)
    ensures
      var s := Drained(d, v);
      PcOf(Tick(d, mode, v)) == ExecuteOne(d, v.ifId.inst, s).pc <==> !GoesAstray(d, mode, v, s.regs)
  {
    var inst, s, regs := v.ifId.inst, Drained(d, v), WriteBack(v.regs, v.memWb);
    assert s.pc == v.ifId.pc;
    hide Drained, Tick, Decode, NextPc, GoesAstray, IntegerOpcode, ReusesOldResult, Lawful, WriteBack, TargetsOk,
         FrontEndOk, WellFormed, TextKept, ExecuteOne;
    ExecuteOnePc(d, inst, s);
    FetchContinues(d, mode, v);
    OperandsAreCurrent(d, mode, v);
    SameOperandsSameWay(d, mode, v, regs, s.regs);
    DecodeGoesOn(d, mode, t, jt, v, regs);
  }

  // ----- branches that are not followed -----

  /** The machine that never takes a conditional branch. */
  function Blind<V, M, P>(d: Datapath<V, M, P>): Datapath<V, M, P> {
    d.(taken := (funct3, a, b) => false, flag := (funct3, result) => false)
  }

  lemma BlindIsLawful<V(!new), M(!new), P(!new)>(d: Datapath<V, M, P>)
    requires Lawful(d)
    ensures Lawful(Blind(d))
  {
    var b := Blind(d);
    assert forall inst, x, y {:trigger b.alu(inst, x, y)} :: b.alu(inst, x, y) == d.alu(inst, x, y);
    assert forall inst {:trigger b.imm(inst)} :: b.imm(inst) == d.imm(inst);
  }

  /** Below mode 4 the pipeline does not look at the outcome of a branch. */
  lemma BlindTick<V, M, P>(d: Datapath<V, M, P>, mode: int, v: Vm<V, M, P>)
    requires mode < 4
    ensures Tick(d, mode, v) == Tick(Blind(d), mode, v)
  {
    hide ComputeSignals, ControlSignals;
  }

  /** So in modes 2 and 3 every run refines the sequential machine that never takes a branch, and does
      so for programs with branches of any outcome. */
  lemma BlindRunRefines<V(!new), M(!new), P(!new)>(
    d: Datapath<V, M, P>, mode: int, t: Text<V>, jt: V -> V, run: Run<V, M, P>, arch: SeqRun<V, M>, m: nat, n: nat)
    requires Lawful(d) && 2 <= mode < 4 && IsRun(d, mode, run) && IsSeqRun(Blind(d), arch)
    requires Inv(Blind(d), mode, t, jt, run(0)) && Drained(d, run(0)) == arch(0)
    requires forall k: nat {:trigger arch(k)} :: k <= m ==>
      t.covers(arch(k).pc) && TextKept(Blind(d), t, arch(k).mem) && ExactWord(t.word(arch(k).pc))
    requires Issued(mode, run, n) <= m
    ensures Drained(d, run(n)) == arch(Issued(mode, run, n))
  {
    BlindIsLawful(d);
    BlindDrains(d, run(0));
    BlindDrains(d, run(n));
    forall i: nat
      ensures Ticks(Blind(d), mode, run, i)
    {
      assert Ticks(d, mode, run, i);
      BlindTick(d, mode, run(i));
    }
    hide Lawful, Inv, Drained, ExactWord, Tick, Issued, IsSeqRun, TextKept;
    forall k: nat | k <= m
      ensures Good(Blind(d), mode, t, jt, arch(k))
    {
    }
    RunRefines(Blind(d), mode, t, jt, run, arch, m, n);
  }

  lemma BlindDrains<V, M, P>(d: Datapath<V, M, P>, v: Vm<V, M, P>)
    ensures Drained(Blind(d), v) == Drained(d, v)
  {
  }
}
