/** Concrete states and a concrete program on which the pipeline goes wrong. */
module ControlExamples {
  import opened Words
  import opened Alu
  import opened FlatMemory
  import opened BranchPredictor
  import opened InstructionFields
  import opened HazardUnit
  import opened VmBase
  import opened SingleCycle
  import opened Pipeline
  import opened PipelineRefinement
  import opened PipelineRuns
  import opened MainLoop
  import opened LoopExit
  import opened Processor
  import opened MnemonicEffects
  import opened ExactWords
  import opened RvssVm
  import opened Programs
  import opened BranchingPrograms
  import Loader

  // ----- a taken branch that is not followed, a jalr that is not checked -----

  /** beq x0, x0, 8 */
  const BRANCH_8: bv32 := 0x0000_0463

  /** jalr x0, 0(x1) */
  const RETURN_X1: bv32 := 0x0000_8067

  lemma BranchFields()
    ensures Opcode(BRANCH_8) == 0x63 && Funct3(BRANCH_8) == 0 && Rs1(BRANCH_8) == 0 && Rs2(BRANCH_8) == 0
    ensures SignExtend32(ImmGenerator(BRANCH_8)) == 8
  {
  }

  lemma ReturnFields()
    ensures Opcode(RETURN_X1) == 0x67 && Rs1(RETURN_X1) == 1 && Rd(RETURN_X1) == 0
    ensures SignExtend32(ImmGenerator(RETURN_X1)) == 0
  {
  }

  /** A memory of 64 bytes with this word at address 0. */
  function Holds(w: bv32): Ram { Ram(Stored(map[], 0, Widen(w), 4), 64, false) }

  lemma HoldsWord(w: bv32)
    ensures FetchWord(Holds(w), Dword(0)) == w
  {
    hide Loaded, Stored, Widen, Low32, U64, Trim;
    UnsignedZero();
    LoadAfterStore(map[], 0, Widen(w), 4);
    Loader.WidenedFits(w);
    LowOfWidened(w);
  }

  const BRANCH_START := Arch(Dword(0), map[], Holds(BRANCH_8))

  /** One tick after the reset the branch is in decode. */
  lemma BranchIsFetched(mode: int)
    requires 2 <= mode < 4
    ensures
      Tick(MACHINE, mode, ResetState(Holds(BRANCH_8))) == Holding(MACHINE, BRANCH_START, NO_TARGETS, BRANCH_8)
  {
    HoldsWord(BRANCH_8);
    hide Opcode, FetchWord, Sum, Holds, UsesRs1, UsesRs2, UsesRs3, Reads;
  }

  /** A program with this branch at address 0, in modes 2 and 3, two ticks after the reset: the pipeline goes
      on at 4, the sequential machine at 8. */
  lemma BranchIsMissed(mode: int)
    requires 2 <= mode < 4
    ensures
      var v := ResetRun(mode, Holds(BRANCH_8))(1);
      && Drained(MACHINE, v) == BRANCH_START && Issues(mode, v)
      && PcOf(ResetRun(mode, Holds(BRANCH_8))(2)) == Dword(4)
      && Step(MACHINE, BRANCH_START).pc == Dword(8)
  {
    BranchRun(mode);
    BranchGoesTo8();
    HoldsWord(BRANCH_8);
    hide ResetRun, Drained, Issues, PcOf, ExecuteOne, FetchWord, Holds;
  }

  lemma BranchRun(mode: int)
    requires 2 <= mode < 4
    ensures
      var v := ResetRun(mode, Holds(BRANCH_8))(1);
      && Drained(MACHINE, v) == BRANCH_START && Issues(mode, v)
      && PcOf(ResetRun(mode, Holds(BRANCH_8))(2)) == Dword(4)
  {
    var v := Holding(MACHINE, BRANCH_START, NO_TARGETS, BRANCH_8);
    BranchFields();
    FourAdded();
    HeldWord(BRANCH_START, NO_TARGETS, BRANCH_8);
    FirstTicks(mode, Holds(BRANCH_8));
    hide Opcode, Holding, Sum, Issues, WellFormed, Drained, Tick, PcOf, ResetState, ResetRun, Holds;
    BranchIsFetched(mode);
    HoldingIssues(MACHINE, mode, BRANCH_START, NO_TARGETS, BRANCH_8);
    GoesOnBehind(mode, v);
  }

  lemma FirstTicks(mode: int, m: Ram)
    ensures ResetRun(mode, m)(1) == Tick(MACHINE, mode, ResetState(m))
    ensures ResetRun(mode, m)(2) == Tick(MACHINE, mode, ResetRun(mode, m)(1))
  {
    RunFromIsRun(MACHINE, mode, ResetState(m));
    hide Tick, ResetState, RunFrom;
    assert Ticks(MACHINE, mode, ResetRun(mode, m), 0) && Ticks(MACHINE, mode, ResetRun(mode, m), 1);
  }

  lemma HeldWord(s: Arch<Dword, Ram>, b: Bpu<Dword, Tables>, inst: bv32)
    ensures var v := Holding(MACHINE, s, b, inst); v.ifId.inst == inst && v.pc == Sum(s.pc, Dword(4))
  {
    hide Sum;
  }

  lemma BranchGoesTo8()
    ensures ExecuteOne(MACHINE, BRANCH_8, BRANCH_START).pc == Dword(8)
  {
    BranchFields();
    ZeroAdded(8);
    SubOfZero();
    hide Opcode, Rs1, Rs2, Funct3, Sum, ExecuteOne, ImmGenerator, SignExtend32, U64, Signed64, Holds;
    BranchWordEffect(BRANCH_8, BRANCH_START);
    hide Alu.Execute, BranchFlag;
    assert ImmValue(BRANCH_8) == Dword(8);
    assert MACHINE.ReadGpr(BRANCH_START.regs, 0) == Dword(0);
    assert AluSignal(BRANCH_8) == Alu.Sub;
  }

  lemma SubOfZero()
    ensures BranchFlag(0, Alu.Execute(Alu.Sub, 0, 0).value)
  {
    FlagIsTaken(0, 0, 0);
  }

  /** Below mode 4 decode goes on behind a branch that issues. */
  lemma GoesOnBehind(mode: int, v: Vm<Dword, Ram, Tables>)
    requires mode < 4 && Issues(mode, v) && Opcode(v.ifId.inst) == 0x63
    ensures PcOf(Tick(MACHINE, mode, v)) == v.pc
  {
    hide Opcode, Rd, Rs1, Rs2, Funct3, ControlSignals, UsesRs1, UsesRs2, Sum, Alu.Execute, BranchTaken, FetchWord;
  }

  /** The return was sent to 16 by an older target; register x1 says 32. */
  function Returning(m: Ram, b: Bpu<Dword, Tables>): Vm<Dword, Ram, Tables> {
    Vm(Dword(16), map[X(1) := Dword(32)], m, IfId(Dword(0), Dword(4), RETURN_X1, true, true),
       NoIdEx(MACHINE), NoExMem(MACHINE), NoMemWb(MACHINE), b, 0)
  }

  /** In mode 5 the pipeline goes on at 16, the sequential machine at 32. */
  lemma ReturnIsUnchecked(m: Ram, b: Bpu<Dword, Tables>)
    ensures
      var v := Returning(m, b);
      && WellFormed(v) && Issues(5, v) && Drained(MACHINE, v) == Arch(Dword(0), v.regs, m)
      && PcOf(Tick(MACHINE, 5, v)) == Dword(16)
      && ExecuteOne(MACHINE, RETURN_X1, Drained(MACHINE, v)).pc == Dword(32)
  {
    ReturnGoesTo32(m);
    ReturnFields();
    hide Opcode, Rd, Rs1, Rs2, Funct3, Sum, ExecuteOne, FetchWord, ImmGenerator, SignExtend32, U64, Signed64, AluValue;
  }

  lemma ReturnGoesTo32(m: Ram)
    ensures ExecuteOne(MACHINE, RETURN_X1, Arch(Dword(0), map[X(1) := Dword(32)], m)).pc == Dword(32)
  {
    ReturnFields();
    ZeroAddedRight(32);
    hide Opcode, Rd, Rs1, Rs2, Funct3, Sum, ExecuteOne, ImmGenerator, SignExtend32, U64, Signed64, Alu.Execute;
    var s := Arch(Dword(0), map[X(1) := Dword(32)], m);
    IndirectJumpEffect(RETURN_X1, s);
    AddSelected(RETURN_X1, Dword(32), ImmValue(RETURN_X1));
  }

  lemma AddSelected(w: bv32, a: Dword, b: Dword)
    requires Opcode(w) == 0x67 || (Opcode(w) == 0x13 && Funct3(w) == 0)
    ensures AluValue(w, a, b) == Sum(a, b)
  {
    hide Opcode, Funct3, Funct7, U64;
  }

  lemma ZeroAddedRight(a: bv64)
    ensures Sum(Dword(a), Dword(0)) == Dword(a)
  {
    hide U64, Bits64;
    SignedZero();
    SignedRange64(a);
  }

  // ----- a loop that is cut off -----

  /** addi x1, x0, 3; addi x1, x1, -1; bne x1, x0, -4 */
  const COUNT_DOWN: seq<bv32> := [0x0030_0093, 0xFFF0_8093, 0xFE00_9EE3]

  lemma SetFields()
    ensures var w := COUNT_DOWN[0]; Opcode(w) == 0x13 && Funct3(w) == 0 && Rd(w) == 1 && Rs1(w) == 0
    ensures SignExtend32(ImmGenerator(COUNT_DOWN[0])) == 3
  {
  }

  lemma CountFields()
    ensures var w := COUNT_DOWN[1]; Opcode(w) == 0x13 && Funct3(w) == 0 && Rd(w) == 1 && Rs1(w) == 1
    ensures SignExtend32(ImmGenerator(COUNT_DOWN[1])) == 0xFFFF_FFFF_FFFF_FFFF
  {
  }

  lemma AgainFields()
    ensures var w := COUNT_DOWN[2]; Opcode(w) == 0x63 && Funct3(w) == 1 && Rs1(w) == 1 && Rs2(w) == 0
    ensures SignExtend32(ImmGenerator(COUNT_DOWN[2])) == 0xFFFF_FFFF_FFFF_FFFC
  {
  }

  lemma ConstantValues()
    ensures Signed64(0) == 0 && Signed64(1) == 1 && Signed64(2) == 2 && Signed64(3) == 3 && Signed64(4) == 4
    ensures Signed64(8) == 8 && Signed64(12) == 12
    ensures Signed64(0xFFFF_FFFF_FFFF_FFFF) == -1 && Signed64(0xFFFF_FFFF_FFFF_FFFC) == -4
  {
  }

  /** A sum of words with known signed values. */
  lemma SumIs(a: bv64, b: bv64, c: bv64)
    requires Signed64(a) + Signed64(b) == Signed64(c)
    ensures Sum(Dword(a), Dword(b)) == Dword(c)
  {
    hide U64, Bits64, Signed64;
    SignedRange64(c);
  }

  function At(pc: bv64, x1: bv64, m: Ram): Arch<Dword, Ram> { Arch(Dword(pc), map[X(1) := Dword(x1)], m) }

  /** The words of the loop are fetched from their addresses. */
  ghost predicate HasCountDown(m: Ram) {
    && FetchWord(m, Dword(0)) == COUNT_DOWN[0] && FetchWord(m, Dword(4)) == COUNT_DOWN[1]
    && FetchWord(m, Dword(8)) == COUNT_DOWN[2]
  }

  lemma SetStep(m: Ram)
    requires HasCountDown(m)
    ensures Step(MACHINE, Arch(Dword(0), map[], m)) == At(4, 3, m)
  {
    var w, s := COUNT_DOWN[0], Arch(Dword(0), map[], m);
    SetFields();
    ConstantValues();
    SumIs(0, 3, 3);
    SumIs(0, 4, 4);
    hide Opcode, Rd, Rs1, Funct3, Sum, FetchWord, ImmGenerator, SignExtend32, Signed64, ExecuteOne, AluValue;
    ImmediateWordEffect(w, s);
    AddSelected(w, Dword(0), ImmValue(w));
  }

  lemma OnlyRegister(x1: bv64, value: bv64)
    ensures MACHINE.ReadGpr(map[X(1) := Dword(x1)], 1) == Dword(x1)
    ensures map[X(1) := Dword(x1)][X(1) := Dword(value)] == map[X(1) := Dword(value)]
  {
  }

  lemma FourAndFour()
    ensures Sum(Dword(4), Dword(4)) == Dword(8)
  {
    ConstantValues();
    SumIs(4, 4, 8);
  }

  lemma OneLess(a: bv64, b: bv64)
    requires Signed64(a) - 1 == Signed64(b)
    ensures Sum(Dword(a), Dword(0xFFFF_FFFF_FFFF_FFFF)) == Dword(b)
  {
    ConstantValues();
    SumIs(a, 0xFFFF_FFFF_FFFF_FFFF, b);
  }

  lemma CountEffect(s: Arch<Dword, Ram>)
    ensures
      var w := COUNT_DOWN[1];
      && ExecuteOne(MACHINE, w, s) ==
           Arch(Sum(s.pc, Dword(4)), s.regs[X(1) := AluValue(w, MACHINE.ReadGpr(s.regs, 1), ImmValue(w))], s.mem)
      && Opcode(w) == 0x13 && Funct3(w) == 0 && ImmValue(w) == Dword(0xFFFF_FFFF_FFFF_FFFF)
  {
    CountFields();
    hide Opcode, Rd, Rs1, Funct3, Sum, ImmGenerator, SignExtend32, ExecuteOne, AluValue;
    ImmediateWordEffect(COUNT_DOWN[1], s);
  }

  lemma CountStep(x1: bv64, less: bv64, m: Ram)
    requires HasCountDown(m) && Sum(Dword(x1), Dword(0xFFFF_FFFF_FFFF_FFFF)) == Dword(less)
    ensures Step(MACHINE, At(4, x1, m)) == At(8, less, m)
  {
    var w, s := COUNT_DOWN[1], At(4, x1, m);
    OnlyRegister(x1, less);
    FourAndFour();
    hide Opcode, Funct3, Sum, FetchWord, ImmValue, Signed64, ExecuteOne, AluValue, MACHINE.ReadGpr;
    CountEffect(s);
    AddSelected(w, Dword(x1), ImmValue(w));
  }

  lemma AgainStep(x1: bv64, m: Ram)
    requires HasCountDown(m)
    ensures Step(MACHINE, At(8, x1, m)) == At(if x1 != 0 then 4 else 12, x1, m)
  {
    var w, s := COUNT_DOWN[2], At(8, x1, m);
    AgainFields();
    ConstantValues();
    SumIs(8, 0xFFFF_FFFF_FFFF_FFFC, 4);
    SumIs(8, 4, 12);
    AgainFlag(x1);
    hide Opcode, Rs1, Rs2, Funct3, Sum, FetchWord, ImmGenerator, SignExtend32, Signed64, ExecuteOne, Alu.Execute,
         BranchFlag;
    BranchWordEffect(w, s);
    assert AluSignal(w) == Alu.Sub;
  }

  lemma AgainFlag(x1: bv64)
    ensures BranchFlag(1, Alu.Execute(Alu.Sub, x1, 0).value) == (x1 != 0)
  {
    hide Alu.Execute, BranchFlag;
    FlagIsTaken(1, x1, 0);
  }

  /** The sequential machine counts down to zero and leaves the program. */
  lemma CountsDown(m: Ram, arch: SeqRun<Dword, Ram>)
    requires HasCountDown(m) && IsSeqRun(MACHINE, arch) && arch(0) == Arch(Dword(0), map[], m)
    ensures arch(1) == At(4, 3, m) && arch(2) == At(8, 2, m) && arch(3) == At(4, 2, m) && arch(4) == At(8, 1, m)
    ensures arch(5) == At(4, 1, m) && arch(6) == At(8, 0, m) && arch(7) == At(12, 0, m)
  {
    assert Steps(MACHINE, arch, 0) && Steps(MACHINE, arch, 1) && Steps(MACHINE, arch, 2) && Steps(MACHINE, arch, 3);
    assert Steps(MACHINE, arch, 4) && Steps(MACHINE, arch, 5) && Steps(MACHINE, arch, 6);
    ConstantValues();
    hide Step, HasCountDown, Signed64, Sum;
    OneLess(3, 2);
    OneLess(2, 1);
    OneLess(1, 0);
    SetStep(m);
    CountStep(3, 2, m);
    AgainStep(2, m);
    CountStep(2, 1, m);
    AgainStep(1, m);
    CountStep(1, 0, m);
    AgainStep(0, m);
  }

  // ----- the pipeline on the same words -----

  lemma AddressesOfCountDown()
    ensures |COUNT_DOWN| == 3
    ensures Dword(0) == Addr(0) && Dword(4) == Addr(1) && Dword(8) == Addr(2) && Dword(12) == Addr(3)
    ensures U64(0) == 0 && U64(4) == 4 && U64(8) == 8 && U64(12) == 12
  {
    OfU64(0);
    OfU64(4);
    OfU64(8);
    OfU64(12);
  }

  lemma InstructionsOfCountDown()
    ensures InstAt(COUNT_DOWN, Dword(0)) == COUNT_DOWN[0] && InstAt(COUNT_DOWN, Dword(4)) == COUNT_DOWN[1]
    ensures InstAt(COUNT_DOWN, Dword(8)) == COUNT_DOWN[2]
    ensures Inside(COUNT_DOWN, Dword(0)) && Inside(COUNT_DOWN, Dword(4)) && Inside(COUNT_DOWN, Dword(8))
  {
    AddressesOfCountDown();
    hide U64;
  }

  lemma CountDownIsExact()
    ensures ExactWord(COUNT_DOWN[0]) && ExactWord(COUNT_DOWN[1]) && ExactWord(COUNT_DOWN[2])
    ensures forall i :: 0 <= i < 3 ==> Opcode(COUNT_DOWN[i]) != 0x67 && Opcode(COUNT_DOWN[i]) != 0x23
    ensures IsControlFlow(COUNT_DOWN[2])
  {
    SetFields();
    CountFields();
    AgainFields();
    hide Opcode, Funct3;
  }

  lemma FetchesCountDown(m: Ram)
    requires InMemory(m, COUNT_DOWN)
    ensures HasCountDown(m)
  {
    InstructionsOfCountDown();
    hide InMemory, InstAt, Inside, FetchWord, Covers;
    InsideIsCovered(COUNT_DOWN, Dword(0));
    InsideIsCovered(COUNT_DOWN, Dword(4));
    InsideIsCovered(COUNT_DOWN, Dword(8));
    FetchesInst(COUNT_DOWN, Arch(Dword(0), map[], m));
    FetchesInst(COUNT_DOWN, Arch(Dword(4), map[], m));
    FetchesInst(COUNT_DOWN, Arch(Dword(8), map[], m));
  }

  lemma CountStepInside(s: Arch<Dword, Ram>)
    requires s.pc == Dword(0) || s.pc == Dword(4) || s.pc == Dword(8)
    ensures StepInside(COUNT_DOWN, s) && Opcode(InstAt(COUNT_DOWN, s.pc)) != 0x67
  {
    InstructionsOfCountDown();
    CountDownIsExact();
    hide InstAt, Inside, Opcode, StoreAddress, ExactWord;
  }

  /** The countdown is a program that ends, after seven instructions. */
  lemma CountDownEnds(m: Ram, arch: SeqRun<Dword, Ram>)
    requires InMemory(m, COUNT_DOWN) && IsSeqRun(MACHINE, arch) && arch(0) == Arch(Dword(0), map[], m)
    ensures EndsAfter(m, COUNT_DOWN, arch, 7) && SameTargets(COUNT_DOWN, arch, 7)
    ensures arch(0).pc == Addr(0) && arch(1).pc == Addr(1) && arch(2).pc == Addr(2) && arch(3).regs == At(4, 2, m).regs
    ensures arch(7) == At(12, 0, m)
  {
    AddressesOfCountDown();
    CountDownIsExact();
    hide InMemory, ExactWord, StepInside, HasCountDown, Addr, InstAt, Opcode;
    FetchesCountDown(m);
    CountsDown(m, arch);
    forall k: nat | k < 7
      ensures StepInside(COUNT_DOWN, arch(k)) && Opcode(InstAt(COUNT_DOWN, arch(k).pc)) != 0x67
    {
      if k == 0 {} else if k == 1 {} else if k == 2 {} else if k == 3 {} else if k == 4 {} else if k == 5 {} else {
        assert k == 6;
      }
      CountStepInside(arch(k));
    }
  }

  /** In a program of three words, executed one after the other, the third is the first that leads back if it
      is a branch or jump. */
  lemma ThirdLeadsBack(m: Ram, w: seq<bv32>, arch: SeqRun<Dword, Ram>, kk: nat)
    requires EndsAfter(m, w, arch, kk) && |w| == 3 && kk > 3 && IsControlFlow(w[2])
    requires arch(0).pc == Addr(0) && arch(1).pc == Addr(1) && arch(2).pc == Addr(2)
    ensures FirstBack(MACHINE, TextOf(w), arch, Halted(w), 2)
  {
    hide EndsAfter, LeadsBack, IsControlFlow, Addr, U64;
    AddrValue(0);
    AddrValue(1);
    AddrValue(2);
    BackIsLastWord(m, w, arch, kk, 0);
    BackIsLastWord(m, w, arch, kk, 1);
    BackIsLastWord(m, w, arch, kk, 2);
  }

  /** With branches resolved in decode the run loop goes round once: it leaves 2 in x1, where the
      sequential machine counts down to 0 before it leaves the program. */
  lemma LoopIsCutOff(mode: int, m: Ram, arch: SeqRun<Dword, Ram>) returns (n: nat)
    requires mode >= 4 && InMemory(m, COUNT_DOWN)
    requires IsSeqRun(MACHINE, arch) && arch(0) == Arch(Dword(0), map[], m)
    ensures LoopEnds(ResetRun(mode, m), Halted(COUNT_DOWN), n)
    ensures ResetRun(mode, m)(n + 5).regs == map[X(1) := Dword(2)]
    ensures arch(7).regs == map[X(1) := Dword(0)] && PastEnd(COUNT_DOWN, arch(7).pc)
    ensures forall k :: 0 <= k < 7 ==> !PastEnd(COUNT_DOWN, arch(k).pc)
  {
    hide InMemory, EndsAfter, SameTargets, FirstBack, LoopRun, LoopEnds, ResetRun, TextOf, TargetsOf, IsSeqRun,
         PastEnd, Issued, IsControlFlow, Addr;
    CountDownEnds(m, arch);
    CountDownIsExact();
    ThirdLeadsBack(m, COUNT_DOWN, arch, 7);
    BranchingSetup(mode, m, COUNT_DOWN, arch, 7);
    n := CutOffRun(MACHINE, mode, TextOf(COUNT_DOWN), TargetsOf(arch, 7), ResetRun(mode, m), arch, Halted(COUNT_DOWN),
                   7, 2);
    forall k: nat | k <= 7
      ensures PastEnd(COUNT_DOWN, arch(k).pc) == (k >= 7)
    {
      hide *;
      CoveredAlong(m, COUNT_DOWN, arch, 7, k);
    }
  }
}
