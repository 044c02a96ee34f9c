/** The pipeline computes what the single-cycle machine computes. Each tick either leaves the
    drained state alone (a stall, a bubble or a redirect) or executes exactly one instruction on it. */
module PipelineRefinement {
  import opened HazardUnit
  import opened InstructionFields
  import opened SingleCycle
  import opened Pipeline

  // ----- the drained state -----

  function PcOf<V, M, P>(v: Vm<V, M, P>): V {
    if v.ifId.valid then v.ifId.pc else v.pc
  }

  /** Registers and memory once the instructions past decode have run to completion, and the
      address of the first instruction that has not left decode. */
  function Drained<V, M, P>(d: Datapath<V, M, P>, v: Vm<V, M, P>): Arch<V, M> {
    var regs1 := WriteBack(v.regs, v.memWb);
    var memWb1, mem1 := MemLatch(d, v.mem, v.exMem), MemEffect(d, v.mem, v.exMem);
    var exMem1 := Execute(d, v.idEx, v.exMem, v.memWb);
    var regs2 := WriteBack(regs1, memWb1);
    var memWb2, mem2 := MemLatch(d, mem1, exMem1), MemEffect(d, mem1, exMem1);
    Arch(PcOf(v), WriteBack(regs2, memWb2), mem2)
  }

  predicate Coherent(s: Signals) {
    s.memToReg == s.memRead && (s.memRead ==> s.regWrite)
  }

  predicate WellFormed<V, M, P>(v: Vm<V, M, P>) {
    && (v.idEx.valid ==> Coherent(v.idEx.signals))
    && (v.exMem.valid ==> Coherent(v.exMem.signals))
    && (!v.ifId.valid ==> v.ifId.inst == 0)
  }

  predicate Stalls<V, M, P>(mode: int, v: Vm<V, M, P>) {
    ComputeSignals(mode, v.ifId.inst, v.idEx, v.exMem).stallFetch
  }

  /** The instruction in decode moves on this tick. */
  predicate Issues<V, M, P>(mode: int, v: Vm<V, M, P>) {
    v.ifId.valid && !Stalls(mode, v)
  }

  function DecodeStage<V, M, P>(d: Datapath<V, M, P>, mode: int, v: Vm<V, M, P>): Decoded<V, P> {
    Decode(d, mode, v, WriteBack(v.regs, v.memWb))
  }

  /** After a tick the drained state is the old drained state with the new ID/EX latch retired. */
  lemma TickDrains<V, M, P>(d: Datapath<V, M, P>, mode: int, v: Vm<V, M, P>)
    ensures
      var s, s' := Drained(d, v), Drained(d, Tick(d, mode, v));
      var e := Execute(d, DecodeStage(d, mode, v).idEx, Execute(d, v.idEx, v.exMem, v.memWb),
                       MemLatch(d, v.mem, v.exMem));
      && s'.regs == WriteBack(s.regs, MemLatch(d, s.mem, e))
      && s'.mem == MemEffect(d, s.mem, e)
  {
  }

  // ----- operands -----

  lemma WriteBackElsewhere<V, M, P>(d: Datapath<V, M, P>, regs: Regs<V>, w: MemWb<V>, rs: bv32)
    requires !(w.valid && w.signals.regWrite && w.rd == rs && rs != 0)
    ensures d.ReadGpr(WriteBack(regs, w), rs) == d.ReadGpr(regs, rs)
  {
  }

  /** A register no instruction ahead will write already holds its final value. */
  lemma UnwrittenRegister<V, M, P>(d: Datapath<V, M, P>, v: Vm<V, M, P>, rs: bv32)
    requires !(ExWrites(v.idEx) && v.idEx.rd == rs)
    requires !(MemWrites(v.exMem) && v.exMem.rd == rs)
    ensures d.ReadGpr(WriteBack(v.regs, v.memWb), rs) == d.ReadGpr(Drained(d, v).regs, rs)
  {
    var regs1 := WriteBack(v.regs, v.memWb);
    var memWb1, mem1 := MemLatch(d, v.mem, v.exMem), MemEffect(d, v.mem, v.exMem);
    var exMem1 := Execute(d, v.idEx, v.exMem, v.memWb);
    WriteBackElsewhere(d, regs1, memWb1, rs);
    WriteBackElsewhere(d, WriteBack(regs1, memWb1), MemLatch(d, mem1, exMem1), rs);
  }

  /** Unless a load in execute is about to write it, the forwarded value is the final value. */
  lemma ForwardedRegister<V, M, P>(d: Datapath<V, M, P>, v: Vm<V, M, P>, rs: bv32)
    requires v.idEx.valid ==> Coherent(v.idEx.signals)
    requires !(ExWrites(v.idEx) && v.idEx.signals.memRead && v.idEx.rd == rs)
    ensures Operand(Forward(true, rs, v.idEx, v.exMem), d.ReadGpr(WriteBack(v.regs, v.memWb), rs),
                    Execute(d, v.idEx, v.exMem, v.memWb), MemLatch(d, v.mem, v.exMem))
         == d.ReadGpr(Drained(d, v).regs, rs)
  {
    var regs1 := WriteBack(v.regs, v.memWb);
    var memWb1, mem1 := MemLatch(d, v.mem, v.exMem), MemEffect(d, v.mem, v.exMem);
    var exMem1 := Execute(d, v.idEx, v.exMem, v.memWb);
    if !(ExWrites(v.idEx) && v.idEx.rd == rs) {
      WriteBackElsewhere(d, WriteBack(regs1, memWb1), MemLatch(d, mem1, exMem1), rs);
      if !(MemWrites(v.exMem) && v.exMem.rd == rs) {
        UnwrittenRegister(d, v, rs);
      }
    }
  }

  /** What it means for the hazard unit to let an operand through. */
  ghost predicate LetThrough<V, M, P>(mode: int, v: Vm<V, M, P>, rs: bv32, source: ForwardSource) {
    if mode == 2 then
      && source == FromDecode
      && !(ExWrites(v.idEx) && v.idEx.rd == rs) && !(MemWrites(v.exMem) && v.exMem.rd == rs)
    else
      && source == Forward(true, rs, v.idEx, v.exMem)
      && !(v.idEx.valid && v.idEx.signals.memRead && v.idEx.rd != 0 && v.idEx.rd == rs)
  }

  lemma UnstalledOperands<V, M, P>(mode: int, v: Vm<V, M, P>)
    requires mode >= 2 && !Stalls(mode, v)
    ensures
      var inst := v.ifId.inst;
      var c := ComputeSignals(mode, inst, v.idEx, v.exMem);
      && (UsesRs1(inst) ==> LetThrough(mode, v, Rs1(inst), c.forwardA))
      && (UsesRs2(inst) ==> LetThrough(mode, v, Rs2(inst), c.forwardB))
      && (!UsesRs1(inst) ==> c.forwardA == FromDecode)
  {
  }

  lemma LetThroughIsCurrent<V, M, P>(d: Datapath<V, M, P>, mode: int, v: Vm<V, M, P>, rs: bv32, source: ForwardSource)
    requires WellFormed(v) && LetThrough(mode, v, rs, source)
    ensures Operand(source, d.ReadGpr(WriteBack(v.regs, v.memWb), rs),
                    Execute(d, v.idEx, v.exMem, v.memWb), MemLatch(d, v.mem, v.exMem))
         == d.ReadGpr(Drained(d, v).regs, rs)
  {
    if mode == 2 { UnwrittenRegister(d, v, rs); } else { ForwardedRegister(d, v, rs); }
  }

  lemma BranchOperandIsCurrent<V, M, P>(d: Datapath<V, M, P>, mode: int, v: Vm<V, M, P>, rs: bv32)
    requires WellFormed(v) && mode >= 2 && IsBranchOrJalr(v.ifId.inst) && !Stalls(mode, v)
    requires rs == Rs1(v.ifId.inst) || (Opcode(v.ifId.inst) == 0x63 && rs == Rs2(v.ifId.inst))
    ensures d.ReadGpr(WriteBack(v.regs, v.memWb), rs) == d.ReadGpr(Drained(d, v).regs, rs)
  {
    UnwrittenRegister(d, v, rs);
  }

  // ----- words the pipeline executes faithfully -----

  /** The integer words whose effect on registers and memory is right in the pipeline: all but
      lui of a nonzero value, auipc, jumps that save a return address, and the branch and load
      words no mnemonic stands for, on which the single-cycle machine reuses an old result. */
  predicate ExactWord(inst: bv32) {
    var op := Opcode(inst);
    && IntegerOpcode(op)
    && (op == 0x37 ==> Rd(inst) == 0 || inst >> 12 == 0)
    && (op == 0x17 || op == 0x6F || op == 0x67 ==> Rd(inst) == 0)
    && (op == 0x63 ==> Funct3(inst) != 2 && Funct3(inst) != 3)
    && (op == 0x03 ==> Funct3(inst) != 7)
  }

  /** The latch x carries word inst, and its operands are what s holds. */
  ghost predicate Carries<V, M, P>(d: Datapath<V, M, P>, inst: bv32, s: Arch<V, M>,
                                   x: IdEx<V>, exMem: ExMem<V>, memWb: MemWb<V>) {
    && x.inst == inst && x.valid && x.rd == Rd(inst) && x.funct3 == Funct3(inst)
    && x.signals == ControlSignals(inst) && x.imm == d.imm(inst)
    && (UsesRs1(inst) || inst >> 12 == 0 ==>
          Operand(x.forwardA, x.rs1Data, exMem, memWb) == d.ReadGpr(s.regs, Rs1(inst)))
    && (UsesRs2(inst) ==> Operand(x.forwardB, x.rs2Data, exMem, memWb) == d.ReadGpr(s.regs, Rs2(inst)))
  }

  /** Executing the latch and retiring it changes s as executing the word does. */
  ghost predicate ActsAlike<V, M, P>(d: Datapath<V, M, P>, inst: bv32, s: Arch<V, M>,
                                     x: IdEx<V>, exMem: ExMem<V>, memWb: MemWb<V>) {
    var e := Execute(d, x, exMem, memWb);
    && WriteBack(s.regs, MemLatch(d, s.mem, e)) == ExecuteOne(d, inst, s).regs
    && MemEffect(d, s.mem, e) == ExecuteOne(d, inst, s).mem
  }

  lemma ArithmeticActsAlike<V, M, P>(d: Datapath<V, M, P>, inst: bv32, s: Arch<V, M>,
                                     x: IdEx<V>, exMem: ExMem<V>, memWb: MemWb<V>)
    requires Carries(d, inst, s, x, exMem, memWb)
    requires Opcode(inst) == 0x33 || Opcode(inst) == 0x13
    ensures ActsAlike(d, inst, s, x, exMem, memWb)
  {
  }

  lemma MemoryActsAlike<V, M, P>(d: Datapath<V, M, P>, inst: bv32, s: Arch<V, M>,
                                 x: IdEx<V>, exMem: ExMem<V>, memWb: MemWb<V>)
    requires Carries(d, inst, s, x, exMem, memWb)
    requires Opcode(inst) == 0x03 || Opcode(inst) == 0x23
    ensures ActsAlike(d, inst, s, x, exMem, memWb)
  {
  }

  lemma UpperActsAlike<V(!new), M(!new), P(!new)>(d: Datapath<V, M, P>, inst: bv32, s: Arch<V, M>,
                                                  x: IdEx<V>, exMem: ExMem<V>, memWb: MemWb<V>)
    requires Carries(d, inst, s, x, exMem, memWb) && Lawful(d) && ExactWord(inst)
    requires Opcode(inst) == 0x37 || Opcode(inst) == 0x17
    ensures ActsAlike(d, inst, s, x, exMem, memWb)
  {
  }

  lemma OtherActsAlike<V, M, P>(d: Datapath<V, M, P>, inst: bv32, s: Arch<V, M>,
                                x: IdEx<V>, exMem: ExMem<V>, memWb: MemWb<V>)
    requires Carries(d, inst, s, x, exMem, memWb) && ExactWord(inst)
    requires Opcode(inst) !in {0x33, 0x13, 0x03, 0x23, 0x37, 0x17}
    ensures ActsAlike(d, inst, s, x, exMem, memWb)
  {
  }

  lemma WordActsAlike<V(!new), M(!new), P(!new)>(d: Datapath<V, M, P>, inst: bv32, s: Arch<V, M>,
                                                 x: IdEx<V>, exMem: ExMem<V>, memWb: MemWb<V>)
    requires Carries(d, inst, s, x, exMem, memWb) && Lawful(d) && ExactWord(inst)
    ensures ActsAlike(d, inst, s, x, exMem, memWb)
  {
    var op := Opcode(inst);
    if op == 0x33 || op == 0x13 { ArithmeticActsAlike(d, inst, s, x, exMem, memWb); }
    else if op == 0x03 || op == 0x23 { MemoryActsAlike(d, inst, s, x, exMem, memWb); }
    else if op == 0x37 || op == 0x17 { UpperActsAlike(d, inst, s, x, exMem, memWb); }
    else { OtherActsAlike(d, inst, s, x, exMem, memWb); }
  }

  /** The latch decode fills for an instruction it lets through. */
  lemma FilledLatchCarries<V, M, P>(d: Datapath<V, M, P>, mode: int, v: Vm<V, M, P>)
    requires WellFormed(v) && mode >= 2 && IntegerOpcode(Opcode(v.ifId.inst)) && !Stalls(mode, v)
    ensures
      var c := ComputeSignals(mode, v.ifId.inst, v.idEx, v.exMem);
      Carries(d, v.ifId.inst, Drained(d, v), FilledIdEx(d, v.ifId, WriteBack(v.regs, v.memWb), c),
              Execute(d, v.idEx, v.exMem, v.memWb), MemLatch(d, v.mem, v.exMem))
  {
    var inst := v.ifId.inst;
    var c := ComputeSignals(mode, inst, v.idEx, v.exMem);
    UnstalledOperands(mode, v);
    if UsesRs1(inst) { LetThroughIsCurrent(d, mode, v, Rs1(inst), c.forwardA); }
    if UsesRs2(inst) { LetThroughIsCurrent(d, mode, v, Rs2(inst), c.forwardB); }
  }

  /** Neither a branch nor a jump to x0 touches registers or memory. */
  lemma ControlFlowIsPure<V, M, P>(d: Datapath<V, M, P>, inst: bv32, s: Arch<V, M>)
    requires Opcode(inst) == 0x63 || (IsJump(inst) && Rd(inst) == 0)
    ensures ExecuteOne(d, inst, s).regs == s.regs && ExecuteOne(d, inst, s).mem == s.mem
  {
  }

  lemma IssueExecutes<V(!new), M(!new), P(!new)>(d: Datapath<V, M, P>, mode: int, v: Vm<V, M, P>)
    requires Lawful(d) && WellFormed(v) && mode >= 2 && Issues(mode, v) && ExactWord(v.ifId.inst)
    ensures
      var s, s' := Drained(d, v), Drained(d, Tick(d, mode, v));
      && s'.regs == ExecuteOne(d, v.ifId.inst, s).regs
      && s'.mem == ExecuteOne(d, v.ifId.inst, s).mem
  {
    var inst, s := v.ifId.inst, Drained(d, v);
    var exMem1, memWb1 := Execute(d, v.idEx, v.exMem, v.memWb), MemLatch(d, v.mem, v.exMem);
    var x := DecodeStage(d, mode, v).idEx;
    TickDrains(d, mode, v);
    if x == FilledIdEx(d, v.ifId, WriteBack(v.regs, v.memWb), ComputeSignals(mode, inst, v.idEx, v.exMem)) {
      FilledLatchCarries(d, mode, v);
      WordActsAlike(d, inst, s, x, exMem1, memWb1);
    } else {
      ControlFlowIsPure(d, inst, s);
    }
  }

  // ----- the program counter -----

  /** The address after the instruction, the way decode works it out. */
  function NextPc<V, M, P>(d: Datapath<V, M, P>, inst: bv32, pc: V, regs: Regs<V>): V {
    var reg1, reg2 := d.ReadGpr(regs, Rs1(inst)), d.ReadGpr(regs, Rs2(inst));
    if Opcode(inst) == 0x67 then d.add(reg1, d.imm(inst))
    else if Opcode(inst) == 0x6F || (Opcode(inst) == 0x63 && d.taken(Funct3(inst), reg1, reg2)) then
      d.add(pc, d.imm(inst))
    else d.next(pc)
  }

  lemma ExecuteOnePc<V(!new), M(!new), P(!new)>(d: Datapath<V, M, P>, inst: bv32, s: Arch<V, M>)
    requires Lawful(d) && IntegerOpcode(Opcode(inst)) && !ReusesOldResult(inst)
    ensures ExecuteOne(d, inst, s).pc == NextPc(d, inst, s.pc, s.regs)
  {
  }

  /** Fetch continues where decode says: at its redirect, or at the address predicted earlier. */
  lemma FetchContinues<V, M, P>(d: Datapath<V, M, P>, mode: int, v: Vm<V, M, P>)
    requires Issues(mode, v)
    ensures PcOf(Tick(d, mode, v)) == DecodeStage(d, mode, v).pc
  {
  }

  /** The words of the program: which addresses it covers and what lies there. */
  datatype Text<!V> = Text(word: V -> bv32, covers: V -> bool)

  ghost predicate TextKept<V(!new), M(!new), P(!new)>(d: Datapath<V, M, P>, t: Text<V>, mem: M) {
    forall pc {:trigger d.fetch(mem, pc)} :: t.covers(pc) ==> d.fetch(mem, pc) == t.word(pc)
  }

  /** Where the control-flow word at pc goes when taken; jt says it for jalr. */
  function TargetOf<V, M, P>(d: Datapath<V, M, P>, t: Text<V>, jt: V -> V, pc: V): V {
    if Opcode(t.word(pc)) == 0x67 then jt(pc) else d.add(pc, d.imm(t.word(pc)))
  }

  /** The predictor remembers targets of control-flow words only, and the right ones. */
  ghost predicate TargetsOk<V, M, P>(d: Datapath<V, M, P>, t: Text<V>, jt: V -> V, b: Bpu<V, P>) {
    forall pc :: pc in b.btb ==> IsControlFlow(t.word(pc)) && b.btb[pc] == TargetOf(d, t, jt, pc)
  }

  ghost predicate FrontEndOk<V(!new), M(!new), P(!new)>(d: Datapath<V, M, P>, mode: int, t: Text<V>, v: Vm<V, M, P>) {
    var f := v.ifId;
    f.valid ==>
      && t.covers(f.pc) && f.inst == t.word(f.pc) && f.pcPlus4 == d.next(f.pc)
      && (!f.predictedTaken ==> v.pc == d.next(f.pc))
      && (f.predictedTaken ==> mode >= 5 && f.pc in v.bpu.btb && v.bpu.btb[f.pc] == v.pc)
  }

  /** What the pipelined modes need of the state in front of an instruction: the program is in
      place, the word is one the pipeline gets right, no conditional branch is taken below mode
      4, and in mode 5 a jalr goes where it always goes. */
  ghost predicate Good<V(!new), M(!new), P(!new)>(
    d: Datapath<V, M, P>, mode: int, t: Text<V>, jt: V -> V, s: Arch<V, M>) {
    var inst := t.word(s.pc);
    var reg1, reg2 := d.ReadGpr(s.regs, Rs1(inst)), d.ReadGpr(s.regs, Rs2(inst));
    && t.covers(s.pc) && TextKept(d, t, s.mem)
    && ExactWord(inst)
    && (mode < 4 && Opcode(inst) == 0x63 ==> !d.taken(Funct3(inst), reg1, reg2))
    && (mode >= 5 && Opcode(inst) == 0x67 ==> d.add(reg1, d.imm(inst)) == jt(s.pc))
  }

  lemma DecodeSettlesPc<V(!new), M(!new), P(!new)>(d: Datapath<V, M, P>, mode: int, t: Text<V>, jt: V -> V,
                                                   v: Vm<V, M, P>, regs: Regs<V>)
    requires mode >= 2 && Issues(mode, v) && FrontEndOk(d, mode, t, v) && (mode >= 5 ==> TargetsOk(d, t, jt, v.bpu))
    requires
      var inst := v.ifId.inst;
      var reg1, reg2 := d.ReadGpr(regs, Rs1(inst)), d.ReadGpr(regs, Rs2(inst));
      && (mode < 4 && Opcode(inst) == 0x63 ==> !d.taken(Funct3(inst), reg1, reg2))
      && (mode >= 5 && Opcode(inst) == 0x67 ==> d.add(reg1, d.imm(inst)) == jt(v.ifId.pc))
    ensures Decode(d, mode, v, regs).pc == NextPc(d, v.ifId.inst, v.ifId.pc, regs)
  {
  }

  // ----- the simulation -----

  ghost predicate Inv<V(!new), M(!new), P(!new)>(
    d: Datapath<V, M, P>, mode: int, t: Text<V>, jt: V -> V, v: Vm<V, M, P>) {
    && WellFormed(v)
    && TextKept(d, t, v.mem) && TextKept(d, t, MemEffect(d, v.mem, v.exMem))
    && FrontEndOk(d, mode, t, v)
    && (mode >= 5 ==> TargetsOk(d, t, jt, v.bpu))
  }

  lemma DrainedStep<V(!new), M(!new), P(!new)>(d: Datapath<V, M, P>, mode: int, t: Text<V>, jt: V -> V, v: Vm<V, M, P>)
    requires Lawful(d) && mode >= 2 && Inv(d, mode, t, jt, v) && Good(d, mode, t, jt, Drained(d, v)) && Issues(mode, v)
    ensures Drained(d, Tick(d, mode, v)) == Step(d, Drained(d, v))
  {
    var inst, s := v.ifId.inst, Drained(d, v);
    assert d.fetch(s.mem, s.pc) == inst;
    IssueExecutes(d, mode, v);
    ExecuteOnePc(d, inst, s);
    FetchContinues(d, mode, v);
    if IsBranchOrJalr(inst) {
      BranchOperandIsCurrent(d, mode, v, Rs1(inst));
      if Opcode(inst) == 0x63 { BranchOperandIsCurrent(d, mode, v, Rs2(inst)); }
    }
    DecodeSettlesPc(d, mode, t, jt, v, WriteBack(v.regs, v.memWb));
  }

  lemma NothingIssued<V, M, P>(d: Datapath<V, M, P>, mode: int, v: Vm<V, M, P>)
    requires !Issues(mode, v)
    ensures Drained(d, Tick(d, mode, v)) == Drained(d, v)
  {
    TickDrains(d, mode, v);
  }

  /** The tables after the decode stage still hold only right targets. */
  lemma DecodeKeepsTargets<V(!new), M(!new), P(!new)>(
    d: Datapath<V, M, P>, mode: int, t: Text<V>, jt: V -> V, v: Vm<V, M, P>)
    requires Lawful(d) && mode >= 5 && Inv(d, mode, t, jt, v) && Good(d, mode, t, jt, Drained(d, v))
    ensures TargetsOk(d, t, jt, DecodeStage(d, mode, v).bpu)
  {
    if Issues(mode, v) && IsControlFlow(v.ifId.inst) {
      if Opcode(v.ifId.inst) == 0x67 { BranchOperandIsCurrent(d, mode, v, Rs1(v.ifId.inst)); }
      ResolvedTargetIsRight(d, mode, t, jt, v, WriteBack(v.regs, v.memWb));
    }
  }

  lemma ResolvedTargetIsRight<V(!new), M(!new), P(!new)>(
    d: Datapath<V, M, P>, mode: int, t: Text<V>, jt: V -> V, v: Vm<V, M, P>, regs: Regs<V>)
    requires Lawful(d) && mode >= 5 && Issues(mode, v) && IsControlFlow(v.ifId.inst)
    requires v.ifId.inst == t.word(v.ifId.pc) && TargetsOk(d, t, jt, v.bpu)
    requires Opcode(v.ifId.inst) == 0x67 ==>
      d.add(d.ReadGpr(regs, Rs1(v.ifId.inst)), d.imm(v.ifId.inst)) == jt(v.ifId.pc)
    ensures TargetsOk(d, t, jt, Decode(d, mode, v, regs).bpu)
  {
  }

  lemma SignalsAreCoherent(inst: bv32)
    ensures Coherent(ControlSignals(inst))
  {
  }

  lemma DecodeIsCoherent<V, M, P>(d: Datapath<V, M, P>, mode: int, v: Vm<V, M, P>, regs: Regs<V>)
    ensures Coherent(Decode(d, mode, v, regs).idEx.signals)
  {
    SignalsAreCoherent(v.ifId.inst);
    hide ControlSignals, ComputeSignals;
  }

  lemma TickKeepsWellFormed<V, M, P>(d: Datapath<V, M, P>, mode: int, v: Vm<V, M, P>)
    requires WellFormed(v)
    ensures WellFormed(Tick(d, mode, v))
  {
    hide Decode;
    DecodeIsCoherent(d, mode, v, WriteBack(v.regs, v.memWb));
  }

  lemma TextAt<V(!new), M(!new), P(!new)>(d: Datapath<V, M, P>, t: Text<V>, mem: M, pc: V)
    requires TextKept(d, t, mem) && t.covers(pc)
    ensures d.fetch(mem, pc) == t.word(pc)
  {
  }

  lemma StalledDecode<V, M, P>(d: Datapath<V, M, P>, mode: int, v: Vm<V, M, P>)
    ensures var o := DecodeStage(d, mode, v); o.stalled ==> o.pc == v.pc && o.bpu == v.bpu
  {
  }

  /** What fetch leaves in IF/ID is the word at its address, with a next address that is either
      the following one or the remembered target. */
  lemma FetchKeepsFrontEnd<V(!new), M(!new), P(!new)>(d: Datapath<V, M, P>, mode: int, t: Text<V>, v: Vm<V, M, P>)
    requires Lawful(d) && FrontEndOk(d, mode, t, v)
    requires var v' := Tick(d, mode, v); v'.ifId.valid ==> t.covers(v'.ifId.pc)
    requires TextKept(d, t, Tick(d, mode, v).mem)
    ensures FrontEndOk(d, mode, t, Tick(d, mode, v))
  {
    var o := DecodeStage(d, mode, v);
    StalledDecode(d, mode, v);
    hide Decode, Execute, MemLatch, WriteBack;
    if !o.flushFetch && !o.stalled {
      TextAt(d, t, Tick(d, mode, v).mem, o.pc);
    }
  }

  lemma TickKeepsInv<V(!new), M(!new), P(!new)>(d: Datapath<V, M, P>, mode: int, t: Text<V>, jt: V -> V, v: Vm<V, M, P>)
    requires Lawful(d) && mode >= 2 && Inv(d, mode, t, jt, v) && Good(d, mode, t, jt, Drained(d, v))
    requires t.covers(Drained(d, Tick(d, mode, v)).pc)
    ensures Inv(d, mode, t, jt, Tick(d, mode, v))
  {
    var v' := Tick(d, mode, v);
    TickKeepsWellFormed(d, mode, v);
    if mode >= 5 {
      DecodeKeepsTargets(d, mode, t, jt, v);
    }
    hide WellFormed, Decode, FrontEndOk;
    assert MemEffect(d, v'.mem, v'.exMem) == Drained(d, v).mem;
    FetchKeepsFrontEnd(d, mode, t, v);
  }

  /** One tick refines zero or one sequential steps. */
  lemma TickRefines<V(!new), M(!new), P(!new)>(d: Datapath<V, M, P>, mode: int, t: Text<V>, jt: V -> V, v: Vm<V, M, P>)
    requires Lawful(d) && mode >= 2 && Inv(d, mode, t, jt, v) && Good(d, mode, t, jt, Drained(d, v))
    requires Issues(mode, v) ==> t.covers(Step(d, Drained(d, v)).pc)
    ensures Inv(d, mode, t, jt, Tick(d, mode, v))
    ensures Drained(d, Tick(d, mode, v)) == if Issues(mode, v) then Step(d, Drained(d, v)) else Drained(d, v)
  {
    if Issues(mode, v) {
      DrainedStep(d, mode, t, jt, v);
    } else {
      NothingIssued(d, mode, v);
    }
    TickKeepsInv(d, mode, t, jt, v);
  }
}
