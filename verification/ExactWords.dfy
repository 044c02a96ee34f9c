/** Which integer words the pipeline executes as the single-cycle machine does: exactly those of
    ExactWord. */
module ExactWords {
  import opened Words
  import opened Alu
  import opened BranchPredictor
  import opened InstructionFields
  import opened HazardUnit
  import opened VmBase
  import opened SingleCycle
  import opened Pipeline
  import opened PipelineRefinement
  import opened Processor

  /** The pipeline with nothing but this instruction in it, about to be decoded. */
  function Holding<V, M, P>(d: Datapath<V, M, P>, s: Arch<V, M>, b: Bpu<V, P>, inst: bv32): Vm<V, M, P> {
    Vm(d.next(s.pc), s.regs, s.mem, IfId(s.pc, d.next(s.pc), inst, true, false),
       NoIdEx(d), NoExMem(d), NoMemWb(d), b, 0)
  }

  /** Registers and memory once the instruction has gone through. */
  function Alone<V, M, P>(d: Datapath<V, M, P>, mode: int, s: Arch<V, M>, b: Bpu<V, P>, inst: bv32): Arch<V, M> {
    Drained(d, Tick(d, mode, Holding(d, s, b, inst)))
  }

  ghost predicate SameEffect<V, M, P>(d: Datapath<V, M, P>, mode: int, s: Arch<V, M>, b: Bpu<V, P>, inst: bv32) {
    var a, e := Alone(d, mode, s, b, inst), ExecuteOne(d, inst, s);
    a.regs == e.regs && a.mem == e.mem
  }

  lemma HoldingIssues<V, M, P>(d: Datapath<V, M, P>, mode: int, s: Arch<V, M>, b: Bpu<V, P>, inst: bv32)
    ensures var v := Holding(d, s, b, inst); WellFormed(v) && Issues(mode, v) && Drained(d, v) == s
  {
  }

  lemma ExactWordsAgree<V(!new), M(!new), P(!new)>(
    d: Datapath<V, M, P>, mode: int, s: Arch<V, M>, b: Bpu<V, P>, inst: bv32)
    requires Lawful(d) && mode >= 2 && ExactWord(inst)
    ensures SameEffect(d, mode, s, b, inst)
  {
    HoldingIssues(d, mode, s, b, inst);
    hide Drained, Tick, Issues, WellFormed, Lawful, ExactWord, ExecuteOne;
    IssueExecutes(d, mode, Holding(d, s, b, inst));
  }

  /** lui and auipc write the register their unused field names plus the unshifted immediate. */
  lemma UpperAlone<V, M, P>(d: Datapath<V, M, P>, mode: int, s: Arch<V, M>, b: Bpu<V, P>, inst: bv32)
    requires mode >= 2 && (Opcode(inst) == 0x37 || Opcode(inst) == 0x17)
    ensures Alone(d, mode, s, b, inst).regs ==
      WriteGpr(s.regs, Rd(inst), d.alu(inst, d.ReadGpr(s.regs, Rs1(inst)), d.imm(inst)))
  {
    TickDrains(d, mode, Holding(d, s, b, inst));
    HoldingIssues(d, mode, s, b, inst);
  }

  /** A jump that was not predicted writes zero for its return address. */
  lemma JumpAlone<V, M, P>(d: Datapath<V, M, P>, mode: int, s: Arch<V, M>, b: Bpu<V, P>, inst: bv32)
    requires mode >= 2 && (Opcode(inst) == 0x6F || Opcode(inst) == 0x67)
    ensures Alone(d, mode, s, b, inst).regs == WriteGpr(s.regs, Rd(inst), d.zero)
  {
    TickDrains(d, mode, Holding(d, s, b, inst));
    HoldingIssues(d, mode, s, b, inst);
  }

  // ----- the simulated processor -----

  const START: Arch<Dword, Ram> := Arch(Dword(0), map[], Ram(map[], 0, false))

  function StartAt(pc: Dword): Arch<Dword, Ram> { START.(pc := pc) }

  lemma ZeroAdded(a: bv64)
    ensures Sum(Dword(0), Dword(a)) == Dword(a)
  {
    hide U64, Signed64, Bits64;
    SignedZero();
    SignedRange64(a);
  }

  lemma FourAdded()
    ensures Sum(Dword(0), Dword(4)) == Dword(4)
  {
    ZeroAdded(4);
  }

  lemma UpperDiffers(inst: bv32)
    requires Opcode(inst) == 0x37 && inst >> 12 != 0
    ensures ImmGenerator(inst) != ImmGenerator(inst) << 12
  {
  }

  lemma ExtensionIsInjective(b: bv32, c: bv32)
    requires SignExtend32(b) == SignExtend32(c)
    ensures b == c
  {
    hide SignExtend32, Low32;
    SignExtendKeepsBits(b);
    SignExtendKeepsBits(c);
  }

  /** Adding is injective. */
  lemma SumIsInjective(a: bv64, b: bv64, c: bv64)
    requires Sum(Dword(a), Dword(c)) == Sum(Dword(b), Dword(c))
    ensures a == b
  {
    hide U64, Signed64, Bits64;
    SignedRange64(a);
    SignedRange64(b);
    SignedRange64(c);
    Bits64Value(Signed64(a) + Signed64(c));
    Bits64Value(Signed64(b) + Signed64(c));
    SameResidue(Signed64(a), Signed64(b), Signed64(c));
  }

  lemma SameResidue(x: int, y: int, z: int)
    requires -TWO64 < x - y < TWO64 && (x + z) % TWO64 == (y + z) % TWO64
    ensures x == y
  {
  }

  /** Two addresses, on at least one of which auipc comes out wrong. */
  lemma AuipcDiffers(imm: Dword, upper: Dword) returns (pc: Dword)
    ensures Sum(pc, upper) != Sum(Dword(0), imm)
  {
    if Sum(Dword(0), upper) != Sum(Dword(0), imm) { return Dword(0); }
    if Sum(Dword(4), upper) == Sum(Dword(0), upper) { SumIsInjective(4, 0, upper.bits); }
    return Dword(4);
  }

  lemma InexactWordDiffers(mode: int, b: Bpu<Dword, Tables>, inst: bv32) returns (s: Arch<Dword, Ram>)
    requires mode >= 2 && IntegerOpcode(Opcode(inst)) && !ReusesOldResult(inst) && !ExactWord(inst)
    ensures !SameEffect(MACHINE, mode, s, b, inst)
  {
    var rd := Rd(inst);
    if Opcode(inst) == 0x37 {
      s := START;
      UpperAlone(MACHINE, mode, s, b, inst);
      LuiDiffers(inst);
    } else if Opcode(inst) == 0x17 {
      var pc := AuipcDiffers(ImmValue(inst), UpperValue(inst));
      s := StartAt(pc);
      UpperAlone(MACHINE, mode, s, b, inst);
      AuipcWrites(inst, s);
    } else {
      s := START;
      JumpAlone(MACHINE, mode, s, b, inst);
      FourAdded();
      JumpWrites(inst, s);
    }
    hide Alone, ExecuteOne;
    assert X(rd) in Alone(MACHINE, mode, s, b, inst).regs;
  }

  lemma LuiDiffers(inst: bv32)
    requires Opcode(inst) == 0x37 && inst >> 12 != 0 && Rd(inst) != 0
    ensures AluValue(inst, Dword(0), ImmValue(inst)) != UpperValue(inst)
    ensures ExecuteOne(MACHINE, inst, START).regs == map[X(Rd(inst)) := UpperValue(inst)]
  {
    hide Alu.Execute, ImmGenerator, SignExtend32;
    UpperDiffers(inst);
    ZeroAdded(SignExtend32(ImmGenerator(inst)));
    if SignExtend32(ImmGenerator(inst)) == SignExtend32(ImmGenerator(inst) << 12) {
      ExtensionIsInjective(ImmGenerator(inst), ImmGenerator(inst) << 12);
    }
  }

  lemma AuipcWrites(inst: bv32, s: Arch<Dword, Ram>)
    requires Opcode(inst) == 0x17 && Rd(inst) != 0 && s.regs == map[]
    ensures ExecuteOne(MACHINE, inst, s).regs == map[X(Rd(inst)) := Sum(s.pc, UpperValue(inst))]
    ensures AluValue(inst, Dword(0), ImmValue(inst)) == Sum(Dword(0), ImmValue(inst))
  {
    hide Alu.Execute, ImmValue, UpperValue;
  }

  lemma JumpWrites(inst: bv32, s: Arch<Dword, Ram>)
    requires (Opcode(inst) == 0x6F || Opcode(inst) == 0x67) && Rd(inst) != 0 && s.regs == map[]
    ensures ExecuteOne(MACHINE, inst, s).regs == map[X(Rd(inst)) := Sum(s.pc, Dword(4))]
  {
    hide Alu.Execute, ImmValue, UpperValue;
  }

  /** The pipelined modes get an integer word right in every state exactly when it is an ExactWord. */
  lemma ExactExactly(mode: int, b: Bpu<Dword, Tables>, inst: bv32)
    requires mode >= 2 && IntegerOpcode(Opcode(inst)) && !ReusesOldResult(inst)
    ensures (forall s {:trigger SameEffect(MACHINE, mode, s, b, inst)} :: SameEffect(MACHINE, mode, s, b, inst)) <==>
      ExactWord(inst)
  {
    hide SameEffect, ExactWord, IntegerOpcode, ReusesOldResult;
    if ExactWord(inst) {
      MachineIsLawful();
      forall s
        ensures SameEffect(MACHINE, mode, s, b, inst)
      {
        ExactWordsAgree(MACHINE, mode, s, b, inst);
      }
    } else {
      var s := InexactWordDiffers(mode, b, inst);
    }
  }
}
