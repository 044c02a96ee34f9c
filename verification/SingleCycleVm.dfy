/** The single-cycle machine as the simulator runs it, with the results it keeps between instructions. */
module SingleCycleVm {
  import opened Words
  import opened InstructionFields
  import opened HazardUnit
  import opened SingleCycle
  import opened PipelineRuns
  import opened Processor

  const MINUS_FOUR := Dword(0xFFFF_FFFF_FFFF_FFFC)

  lemma SumModulo(a: Dword, b: Dword)
    ensures U64(Sum(a, b).bits) == (U64(a.bits) + U64(b.bits)) % TWO64
  {
    hide U64, Bits64;
    Bits64Value(Signed64(a.bits) + Signed64(b.bits));
    U64Range(a.bits);
    U64Range(b.bits);
  }

  lemma FourBack()
    ensures U64(4) == 4 && U64(MINUS_FOUR.bits) == TWO64 - 4
  {
  }

  /** Four on and four back. */
  lemma BackToInstruction(at: Dword)
    ensures Sum(Sum(at, Dword(4)), MINUS_FOUR) == at
  {
    hide U64, W64, Sum, MINUS_FOUR;
    FourBack();
    var back := Sum(Sum(at, Dword(4)), MINUS_FOUR);
    SumModulo(at, Dword(4));
    SumModulo(Sum(at, Dword(4)), MINUS_FOUR);
    U64Range(at.bits);
    FourModulo(U64(at.bits));
    OfU64(at.bits);
    OfU64(back.bits);
  }

  lemma FourModulo(x: int)
    requires 0 <= x < TWO64
    ensures ((x + 4) % TWO64 + (TWO64 - 4)) % TWO64 == x
  {
  }

  /** A word the model covers, on which nothing old is reused. */
  predicate Regular(inst: bv32) { IntegerOpcode(Opcode(inst)) && !ReusesOldResult(inst) }

  /** The sequential machine meets only such words in its first n steps. */
  ghost predicate RegularUpTo(arch: SeqRun<Dword, Ram>, n: nat) {
    forall k: nat {:trigger arch(k)} :: k < n ==> Regular(FetchWord(arch(k).mem, arch(k).pc))
  }

  function ResultOf(inst: bv32, regs: Regs<Dword>): Dword {
    AluValue(inst, MACHINE.ReadGpr(regs, Rs1(inst)),
             if ControlSignals(inst).aluSrc then ImmValue(inst) else MACHINE.ReadGpr(regs, Rs2(inst)))
  }

  // What the three parts of an instruction leave behind, by the values they find.

  predicate Settles(inst: bv32, at: Dword, result: Dword, flag: bool, nextPc: Dword, pc: Dword) {
    && (Opcode(inst) == 0x67 || Opcode(inst) == 0x6F ==> nextPc == Sum(at, Dword(4)))
    && pc == if Opcode(inst) == 0x67 then result
             else if Opcode(inst) == 0x6F || (Opcode(inst) == 0x63 && flag) then Sum(at, ImmValue(inst))
             else Sum(at, Dword(4))
  }

  /** Only a branch with a comparison sets the flag. */
  predicate Computes(inst: bv32, at: Dword, regs: Regs<Dword>, oldFlag: bool, address: Dword, flag: bool,
                     nextPc: Dword, pc: Dword)
  {
    var result := ResultOf(inst, regs);
    && address == (if Opcode(inst) == 0x17 then Sum(at, UpperValue(inst)) else result)
    && flag == (if Opcode(inst) == 0x63 && !ReusesOldResult(inst) then BranchFlag(Funct3(inst), result.bits)
                else oldFlag)
    && Settles(inst, at, result, flag, nextPc, pc)
  }

  lemma SettlesBehind(inst: bv32, at: Dword, result: Dword, flag: bool, nextPc: Dword, pc: Dword)
    requires Settles(inst, at, result, flag, nextPc, pc) && Opcode(inst) == 0x17
    ensures pc == Sum(at, Dword(4))
  {
    hide Opcode, Sum, ImmValue;
  }

  predicate Accesses(inst: bv32, address: Dword, value: Dword, mem: Ram, loaded: Dword, mem': Ram, loaded': Dword) {
    var s, funct3 := ControlSignals(inst), Funct3(inst);
    && (s.memRead && funct3 != 7 ==>
        mem' == AfterLoad(mem, funct3, address) && loaded' == LoadValue(mem, funct3, address))
    && (s.memRead && funct3 == 7 ==> mem' == mem && loaded' == loaded)
    && (s.memWrite ==> mem' == StoreValue(mem, funct3, address, value))
    && (!s.memRead ==> loaded' == loaded)
    && (!s.memRead && !s.memWrite ==> mem' == mem)
  }

  function Written(inst: bv32, regs: Regs<Dword>, result: Dword, loaded: Dword, nextPc: Dword): Regs<Dword> {
    var opcode := Opcode(inst);
    if !ControlSignals(inst).regWrite then regs
    else if opcode == 0x33 || opcode == 0x13 || opcode == 0x17 then WriteGpr(regs, Rd(inst), result)
    else if opcode == 0x03 then WriteGpr(regs, Rd(inst), loaded)
    else if opcode == 0x67 || opcode == 0x6F then WriteGpr(regs, Rd(inst), nextPc)
    else if opcode == 0x37 then WriteGpr(regs, Rd(inst), UpperValue(inst))
    else regs
  }

  lemma PartsStep(inst: bv32, s: Arch<Dword, Ram>, s': Arch<Dword, Ram>, address: Dword, flag: bool, nextPc: Dword,
                  loaded: Dword, loaded': Dword)
    requires Regular(inst)
    requires address == if Opcode(inst) == 0x17 then Sum(s.pc, UpperValue(inst)) else ResultOf(inst, s.regs)
    requires Opcode(inst) == 0x63 ==> flag == BranchFlag(Funct3(inst), ResultOf(inst, s.regs).bits)
    requires Settles(inst, s.pc, ResultOf(inst, s.regs), flag, nextPc, s'.pc)
    requires Accesses(inst, address, MACHINE.ReadGpr(s.regs, Rs2(inst)), s.mem, loaded, s'.mem, loaded')
    requires s'.regs == Written(inst, s.regs, address, loaded', nextPc)
    ensures s' == ExecuteOne(MACHINE, inst, s)
  {
    hide Sum, AluValue, ImmValue, UpperValue, BranchFlag, Opcode, Funct3, Rd, Rs1, Rs2, LoadValue, StoreValue,
         AfterLoad, WriteGpr;
  }

  // ----- the whole state -----

  /** All that later instructions can depend on: besides the architectural state, the flag of the last
      branch and the value of the last load. */
  datatype Whole = Whole(arch: Arch<Dword, Ram>, flag: bool, loaded: Dword)

  /** A sequential step, unless the word reuses an old result. A branch word with no comparison goes
      where the last branch went, and a load word with no width loads what was loaded last. */
  function WholeStep(c: Whole): Whole {
    var s := c.arch;
    var inst := FetchWord(s.mem, s.pc);
    if ReusesOldResult(inst) && Opcode(inst) == 0x63 then
      c.(arch := s.(pc := Sum(s.pc, if c.flag then ImmValue(inst) else Dword(4))))
    else if ReusesOldResult(inst) then
      c.(arch := Arch(Sum(s.pc, Dword(4)), WriteGpr(s.regs, Rd(inst), c.loaded), s.mem))
    else
      Whole(Step(MACHINE, s),
            if Opcode(inst) == 0x63 then BranchFlag(Funct3(inst), ResultOf(inst, s.regs).bits) else c.flag,
            if Opcode(inst) == 0x03 then LoadValue(s.mem, Funct3(inst), ResultOf(inst, s.regs)) else c.loaded)
  }

  /** What the three parts of an instruction leave behind, together. */
  predicate Parts(inst: bv32, c: Whole, c': Whole, address: Dword, nextPc: Dword) {
    var s, s' := c.arch, c'.arch;
    && Computes(inst, s.pc, s.regs, c.flag, address, c'.flag, nextPc, s'.pc)
    && Accesses(inst, address, MACHINE.ReadGpr(s.regs, Rs2(inst)), s.mem, c.loaded, s'.mem, c'.loaded)
    && s'.regs == Written(inst, s.regs, address, c'.loaded, nextPc)
  }

  lemma PartsReuse(inst: bv32, c: Whole, c': Whole, address: Dword, nextPc: Dword)
    requires inst == FetchWord(c.arch.mem, c.arch.pc) && ReusesOldResult(inst) && Parts(inst, c, c', address, nextPc)
    ensures c' == WholeStep(c)
  {
    hide Sum, AluValue, ImmValue, UpperValue, BranchFlag, Opcode, Funct3, Rd, Rs1, Rs2, LoadValue, StoreValue,
         AfterLoad, WriteGpr, FetchWord, ResultOf, Step;
  }

  lemma PartsKeep(inst: bv32, c: Whole, c': Whole, address: Dword, nextPc: Dword)
    requires Regular(inst) && Parts(inst, c, c', address, nextPc)
    ensures c'.loaded ==
      if Opcode(inst) == 0x03 then LoadValue(c.arch.mem, Funct3(inst), ResultOf(inst, c.arch.regs)) else c.loaded
  {
    hide Sum, AluValue, ImmValue, UpperValue, BranchFlag, Opcode, Funct3, Rd, Rs1, Rs2, LoadValue, StoreValue,
         AfterLoad, WriteGpr, ResultOf, Settles, Written;
  }

  lemma PartsAreWhole(inst: bv32, c: Whole, c': Whole, address: Dword, nextPc: Dword)
    requires inst == FetchWord(c.arch.mem, c.arch.pc) && IntegerOpcode(Opcode(inst))
    requires Parts(inst, c, c', address, nextPc)
    ensures c' == WholeStep(c)
  {
    hide Sum, AluValue, ImmValue, UpperValue, BranchFlag, Opcode, Funct3, Rd, Rs1, Rs2, LoadValue, StoreValue,
         AfterLoad, WriteGpr, FetchWord, ResultOf, Settles, Accesses, Written, ExecuteOne, ReusesOldResult,
         IntegerOpcode;
    if ReusesOldResult(inst) {
      PartsReuse(inst, c, c', address, nextPc);
    } else {
      PartsStep(inst, c.arch, c'.arch, address, c'.flag, nextPc, c.loaded, c'.loaded);
      PartsKeep(inst, c, c', address, nextPc);
    }
  }

  ghost function WholeTimes(c: Whole, n: nat): Whole {
    if n == 0 then c else WholeStep(WholeTimes(c, n - 1))
  }

  /** Only words the model covers are met in the first n steps. */
  ghost predicate IntegerUpTo(c: Whole, n: nat) {
    forall k: nat {:trigger WholeTimes(c, k)} :: k < n ==>
      var s := WholeTimes(c, k).arch; IntegerOpcode(Opcode(FetchWord(s.mem, s.pc)))
  }

  lemma {:induction false} RegularIsSequential(c: Whole, arch: SeqRun<Dword, Ram>, n: nat)
    requires IsSeqRun(MACHINE, arch) && arch(0) == c.arch && RegularUpTo(arch, n)
    ensures WholeTimes(c, n).arch == arch(n) && IntegerUpTo(c, n)
  {
    hide FetchWord, Step, Sum, ImmValue, LoadValue, ResultOf, BranchFlag, Opcode, Funct3, Rd, WriteGpr;
    if n > 0 {
      RegularIsSequential(c, arch, n - 1);
      assert Steps(MACHINE, arch, n - 1) && Regular(FetchWord(arch(n - 1).mem, arch(n - 1).pc));
    }
  }

  class SingleCycleVm {
    const programSize: nat
    const executionLimit: nat
    var pc: Dword
    var regs: Regs<Dword>
    var mem: Ram
    var currentInstruction: bv32
    var signals: Signals
    var executionResult: Dword
    var memoryResult: Dword
    var nextPc: Dword
    var branchFlag: bool

    function Snapshot(): Arch<Dword, Ram>
      reads this
    {
      Arch(pc, regs, mem)
    }

    constructor (programSize: nat, executionLimit: nat, mem: Ram)
      ensures this.programSize == programSize && this.executionLimit == executionLimit
      ensures Snapshot() == Arch(Dword(0), map[], mem)
    {
      this.programSize, this.executionLimit := programSize, executionLimit;
      pc, regs, this.mem := Dword(0), map[], mem;
      currentInstruction, signals, branchFlag := 0, NO_SIGNALS, false;
      executionResult, memoryResult, nextPc := Dword(0), Dword(0), Dword(0);
    }

    method UpdateProgramCounter(value: Dword)
      modifies this`pc
      ensures pc == Sum(old(pc), value)
    {
      pc := Sum(pc, value);
    }

    method Fetch()
      modifies this`pc, this`currentInstruction
      ensures currentInstruction == FetchWord(mem, old(pc)) && pc == Sum(old(pc), Dword(4))
    {
      currentInstruction := FetchWord(mem, pc);
      UpdateProgramCounter(Dword(4));
    }

    method DecodeSignals()
      modifies this`signals
      ensures signals == ControlSignals(currentInstruction)
    {
      signals := ControlSignals(currentInstruction);
    }

    /** The branch flag keeps its old value on a branch word with another funct3. */
    method SetBranchFlag()
      modifies this`branchFlag
      ensures branchFlag ==
        if Funct3(currentInstruction) == 2 || Funct3(currentInstruction) == 3 then old(branchFlag)
        else BranchFlag(Funct3(currentInstruction), executionResult.bits)
    {
      hide Funct3;
      var funct3 := Funct3(currentInstruction);
      FieldRange(currentInstruction);
      if funct3 == 1 {
        branchFlag := executionResult.bits != 0;
      } else if funct3 == 4 || funct3 == 6 {
        branchFlag := executionResult.bits == 1;
      } else if funct3 == 0 || funct3 == 5 || funct3 == 7 {
        branchFlag := executionResult.bits == 0;
      }
    }

    /** Where the instruction at this address leads; the program counter is four past it. */
    method SettlePc(ghost at: Dword)
      requires pc == Sum(at, Dword(4))
      modifies this`pc, this`nextPc, this`branchFlag
      ensures
        var inst := currentInstruction;
        && (Opcode(inst) == 0x63 && !ReusesOldResult(inst) ==>
            branchFlag == BranchFlag(Funct3(inst), executionResult.bits))
        && (Opcode(inst) != 0x63 || ReusesOldResult(inst) ==> branchFlag == old(branchFlag))
        && Settles(inst, at, executionResult, branchFlag, nextPc, pc)
    {
      hide Sum, ImmValue, BranchFlag, Opcode, Funct3, MINUS_FOUR;
      BackToInstruction(at);
      var opcode := Opcode(currentInstruction);
      if opcode == 0x67 || opcode == 0x6F {
        nextPc := pc;
        UpdateProgramCounter(MINUS_FOUR);
        if opcode == 0x67 {
          pc := executionResult;
        } else {
          UpdateProgramCounter(ImmValue(currentInstruction));
        }
      } else if opcode == 0x63 {
        SetBranchFlag();
      }
      if branchFlag && opcode == 0x63 {
        UpdateProgramCounter(MINUS_FOUR);
        UpdateProgramCounter(ImmValue(currentInstruction));
      }
    }

    method Execute(ghost at: Dword)
      requires signals == ControlSignals(currentInstruction) && pc == Sum(at, Dword(4))
      modifies this`pc, this`executionResult, this`nextPc, this`branchFlag
      ensures Computes(currentInstruction, at, regs, old(branchFlag), executionResult, branchFlag, nextPc, pc)
    {
      hide Sum, AluValue, ImmValue, UpperValue, BranchFlag, Opcode, Funct3, ControlSignals, MINUS_FOUR, Settles,
           ReusesOldResult, ResultOf;
      executionResult := ResultOf(currentInstruction, regs);
      SettlePc(at);
      if Opcode(currentInstruction) == 0x17 {
        SettlesBehind(currentInstruction, at, executionResult, branchFlag, nextPc, pc);
        BackToInstruction(at);
        executionResult := Sum(Sum(pc, MINUS_FOUR), UpperValue(currentInstruction));
      }
    }

    /** The memory result keeps its old value on a load word with another funct3. */
    method WriteMemory()
      requires signals == ControlSignals(currentInstruction)
      modifies this`mem, this`memoryResult
      ensures Accesses(currentInstruction, executionResult, MACHINE.ReadGpr(regs, Rs2(currentInstruction)),
                       old(mem), old(memoryResult), mem, memoryResult)
    {
      hide Opcode, Funct3, AfterLoad, LoadValue, StoreValue;
      var funct3 := Funct3(currentInstruction);
      if signals.memRead && funct3 != 7 {
        memoryResult := LoadValue(mem, funct3, executionResult);
        mem := AfterLoad(mem, funct3, executionResult);
      }
      if signals.memWrite {
        mem := StoreValue(mem, funct3, executionResult, MACHINE.ReadGpr(regs, Rs2(currentInstruction)));
      }
    }

    method WriteGpr(r: bv32, value: Dword)
      modifies this`regs
      ensures regs == SingleCycle.WriteGpr(old(regs), r, value)
    {
      if r != 0 { regs := regs[X(r) := value]; }
    }

    method WriteBack()
      requires signals == ControlSignals(currentInstruction)
      modifies this`regs
      ensures regs == Written(currentInstruction, old(regs), executionResult, memoryResult, nextPc)
    {
      hide Opcode, Rd, UpperValue, SingleCycle.WriteGpr;
      if !signals.regWrite { return; }
      var opcode, rd := Opcode(currentInstruction), Rd(currentInstruction);
      if opcode == 0x33 || opcode == 0x13 || opcode == 0x17 {
        WriteGpr(rd, executionResult);
      } else if opcode == 0x03 {
        WriteGpr(rd, memoryResult);
      } else if opcode == 0x67 || opcode == 0x6F {
        WriteGpr(rd, nextPc);
      } else if opcode == 0x37 {
        WriteGpr(rd, UpperValue(currentInstruction));
      }
    }

    function State(): Whole
      reads this
    {
      Whole(Snapshot(), branchFlag, memoryResult)
    }

    /** One instruction. */
    method ExecuteNext()
      modifies this
      ensures IntegerOpcode(Opcode(old(FetchWord(mem, pc)))) ==> State() == WholeStep(old(State()))
    {
      hide Sum, AluValue, ImmValue, UpperValue, BranchFlag, Opcode, Funct3, Rd, Rs1, Rs2, FetchWord, LoadValue,
           StoreValue, AfterLoad, SingleCycle.WriteGpr, Settles, Accesses, Written, ResultOf, WholeStep, IntegerOpcode,
           ReusesOldResult;
      Fetch();
      DecodeSignals();
      Execute(old(pc));
      WriteMemory();
      WriteBack();
      if IntegerOpcode(Opcode(currentInstruction)) {
        PartsAreWhole(currentInstruction, old(State()), State(), executionResult, nextPc);
      }
    }

    /** Runs to the end of the program, or until the execution limit is passed. Another thread may ask
        to stop, here after a given number of instructions. */
    method RunSingle(stopAfter: nat) returns (n: nat)
      modifies this
      ensures n <= stopAfter && n <= executionLimit + 1
      ensures IntegerUpTo(old(State()), n) ==>
        && State() == WholeTimes(old(State()), n)
        && (n < stopAfter && n <= executionLimit ==> U64(pc.bits) >= programSize)
      ensures forall k: nat {:trigger WholeTimes(old(State()), k)} :: k < n && IntegerUpTo(old(State()), k) ==>
        U64(WholeTimes(old(State()), k).arch.pc.bits) < programSize
    {
      hide WholeStep, IntegerOpcode, U64, FetchWord;
      n := 0;
      while n < stopAfter && U64(pc.bits) < programSize
        invariant n <= stopAfter && n <= executionLimit + 1
        invariant IntegerUpTo(old(State()), n) ==> State() == WholeTimes(old(State()), n)
        invariant forall k: nat {:trigger WholeTimes(old(State()), k)} :: k < n && IntegerUpTo(old(State()), k) ==>
          U64(WholeTimes(old(State()), k).arch.pc.bits) < programSize
      {
        if n > executionLimit { break; }
        ExecuteNext();
        n := n + 1;
      }
    }
  }
}
