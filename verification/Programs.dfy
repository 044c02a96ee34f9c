/** Straight-line programs in the memory of the simulated processor, from reset to the end. */
module Programs {
  import opened Words
  import opened Alu
  import opened FlatMemory
  import opened BranchPredictor
  import opened InstructionFields
  import opened HazardUnit
  import opened SingleCycle
  import opened Pipeline
  import opened PipelineRefinement
  import opened PipelineRuns
  import opened MainLoop
  import opened Timing
  import opened StraightLine
  import opened NoHazards
  import opened Processor
  import opened SingleCycleVm
  import opened RvssVm

  /** Programs short enough for their addresses not to wrap. */
  predicate ShortEnough(w: seq<bv32>) { 4 * |w| + 16 < -MIN64 }

  function WordAt(w: seq<bv32>, i: int): bv32 { if 0 <= i < |w| then w[i] else 0 }

  function Addr(i: nat): Dword { Dword(Bits64(4 * i)) }

  predicate Covers(w: seq<bv32>, pc: Dword) { U64(pc.bits) % 4 == 0 && U64(pc.bits) / 4 <= |w| + 3 }

  function TextOf(w: seq<bv32>): Text<Dword> {
    Text((pc: Dword) => WordAt(w, U64(pc.bits) / 4), (pc: Dword) => Covers(w, pc))
  }

  /** The exit test of the run loop. */
  predicate PastEnd(w: seq<bv32>, pc: Dword) { U64(pc.bits) >= 4 * |w| }

  /** The words of the program lie in memory from address 0, followed by zero words. Fetches behind the end
      of memory would end the simulator. */
  ghost predicate InMemory(m: Ram, w: seq<bv32>) {
    4 * |w| + 16 <= m.size
    && forall i :: 0 <= i <= |w| + 3 ==> Loaded(m.bytes, 4 * i, 4) == Widen(WordAt(w, i))
  }

  /** The address a store would use. */
  function StoreAddress(s: Arch<Dword, Ram>, inst: bv32): int {
    U64(AluValue(inst, MACHINE.ReadGpr(s.regs, Rs1(inst)), ImmValue(inst)).bits)
  }

  /** No store of the program touches the program. */
  ghost predicate StoresAvoidText(w: seq<bv32>, arch: SeqRun<Dword, Ram>) {
    forall k: nat {:trigger arch(k)} :: k < |w| && Opcode(w[k]) == 0x23 ==> StoreAddress(arch(k), w[k]) >= 4 * |w| + 16
  }

  lemma AddrValue(i: nat)
    requires 4 * i < -MIN64
    ensures U64(Addr(i).bits) == 4 * i && Signed64(Addr(i).bits) == 4 * i
  {
    hide U64, Signed64, Bits64;
    Bits64Value(4 * i);
    SignedOfBits64(4 * i);
  }

  lemma NextAddr(i: nat)
    requires 4 * i + 4 < -MIN64
    ensures MACHINE.next(Addr(i)) == Addr(i + 1)
  {
    hide U64, Signed64, Bits64;
    AddrValue(i);
    AddrValue(1);
    assert Addr(1) == Dword(4) by { FourIsFour(); }
  }

  lemma FourIsFour()
    ensures Bits64(4) == 4
  {
    OfU64(4);
  }

  /** A memory with the program in it has it for the fetch stage. */
  lemma InMemoryIsText(m: Ram, w: seq<bv32>)
    requires InMemory(m, w)
    ensures TextKept(MACHINE, TextOf(w), m)
  {
    hide U64, Loaded, Low32, Widen, WordAt;
    forall pc: Dword | Covers(w, pc)
      ensures FetchWord(m, pc) == WordAt(w, U64(pc.bits) / 4)
    {
      var i := U64(pc.bits) / 4;
      U64Range(pc.bits);
      assert U64(pc.bits) == 4 * i;
      LowOfWidened(WordAt(w, i));
    }
  }

  lemma StoreKeeps(m: Ram, w: seq<bv32>, funct3: bv32, a: Dword, v: Dword)
    requires InMemory(m, w) && U64(a.bits) >= 4 * |w| + 16
    ensures InMemory(StoreValue(m, funct3, a, v), w)
  {
    hide U64, Loaded, Stored, Widen, WordAt;
    var n := WidthOf(funct3);
    forall i | 0 <= i <= |w| + 3
      ensures Loaded(StoreValue(m, funct3, a, v).bytes, 4 * i, 4) == Loaded(m.bytes, 4 * i, 4)
    {
      LoadElsewhere(m.bytes, U64(a.bits), v.bits, n, 4 * i, 4);
    }
  }

  /** What executing a word does to memory. */
  lemma MemoryAfter(inst: bv32, s: Arch<Dword, Ram>)
    requires IntegerOpcode(Opcode(inst))
    ensures
      var m := ExecuteOne(MACHINE, inst, s).mem;
      || m == s.mem
      || m == s.mem.(refused := true)
      || (Opcode(inst) == 0x23
          && exists funct3, a, v :: m == StoreValue(s.mem, funct3, a, v) && U64(a.bits) == StoreAddress(s, inst))
  {
    hide Alu.Execute, ImmValue, UpperValue, Opcode, Funct3, U64, StoreValue;
    if Opcode(inst) == 0x23 {
      var a := AluValue(inst, MACHINE.ReadGpr(s.regs, Rs1(inst)), ImmValue(inst));
      assert ExecuteOne(MACHINE, inst, s).mem == StoreValue(s.mem, Funct3(inst), a, MACHINE.ReadGpr(s.regs, Rs2(inst)));
    }
  }

  /** A step keeps the program in memory unless it stores over it. */
  lemma StepKeepsText(w: seq<bv32>, inst: bv32, s: Arch<Dword, Ram>)
    requires inst == FetchWord(s.mem, s.pc) && IntegerOpcode(Opcode(inst)) && InMemory(s.mem, w)
    requires Opcode(inst) == 0x23 ==> StoreAddress(s, inst) >= 4 * |w| + 16
    ensures InMemory(Step(MACHINE, s).mem, w)
  {
    hide ExecuteOne, InMemory, StoreValue, StoreAddress, IntegerOpcode, FetchWord, Opcode;
    MemoryAfter(inst, s);
    if Step(MACHINE, s).mem == s.mem.(refused := true) {
      SameBytes(s.mem, Step(MACHINE, s).mem, w);
    } else if Step(MACHINE, s).mem != s.mem {
      var funct3, a, v :| Step(MACHINE, s).mem == StoreValue(s.mem, funct3, a, v)
        && U64(a.bits) == StoreAddress(s, inst);
      StoreKeeps(s.mem, w, funct3, a, v);
    }
  }

  lemma StepKeepsProgram(w: seq<bv32>, k: nat, s: Arch<Dword, Ram>)
    requires ShortEnough(w) && k <= |w| + 2 && s.pc == Addr(k) && InMemory(s.mem, w)
    requires StraightWords(w)
    requires k < |w| && Opcode(w[k]) == 0x23 ==> StoreAddress(s, w[k]) >= 4 * |w| + 16
    ensures Step(MACHINE, s).pc == Addr(k + 1) && InMemory(Step(MACHINE, s).mem, w)
  {
    hide ExecuteOne, InMemory, StoreValue, StoreAddress, Addr, StraightWords, TextKept, IsControlFlow, IntegerOpcode;
    var inst := FetchedWord(w, k, s);
    StraightNext(MACHINE, inst, s);
    NextAddr(k);
    ZeroIsNoStore();
    StepKeepsText(w, inst, s);
  }

  lemma ZeroIsNoStore()
    ensures Opcode(0) == 0
  {
  }

  lemma SameBytes(m: Ram, m': Ram, w: seq<bv32>)
    requires m'.bytes == m.bytes && m'.size == m.size && InMemory(m, w)
    ensures InMemory(m', w)
  {
  }

  lemma FetchedWord(w: seq<bv32>, k: nat, s: Arch<Dword, Ram>) returns (inst: bv32)
    requires ShortEnough(w) && k <= |w| + 2 && s.pc == Addr(k) && InMemory(s.mem, w) && StraightWords(w)
    ensures inst == MACHINE.fetch(s.mem, s.pc) == WordAt(w, k) && (inst == 0 || !IsControlFlow(inst))
    ensures IntegerOpcode(Opcode(inst))
  {
    ZeroIsNoStore();
    hide Loaded, Low32, Widen, U64, Bits64, IsControlFlow, Opcode;
    AddrValue(k);
    LowOfWidened(WordAt(w, k));
    inst := MACHINE.fetch(s.mem, s.pc);
  }

  lemma ProgramAt(w: seq<bv32>, arch: SeqRun<Dword, Ram>, k: nat)
    requires IsSeqRun(MACHINE, arch) && StoresAvoidText(w, arch)
    ensures arch(k + 1) == Step(MACHINE, arch(k))
    ensures k < |w| && Opcode(w[k]) == 0x23 ==> StoreAddress(arch(k), w[k]) >= 4 * |w| + 16
  {
    hide Step, StoreAddress;
    assert Steps(MACHINE, arch, k);
  }

  lemma {:induction false} ProgramStays(w: seq<bv32>, arch: SeqRun<Dword, Ram>, k: nat)
    requires ShortEnough(w) && StraightWords(w) && IsSeqRun(MACHINE, arch) && StoresAvoidText(w, arch)
    requires arch(0).pc == Dword(0) && InMemory(arch(0).mem, w) && k <= |w| + 3
    ensures arch(k).pc == Addr(k) && InMemory(arch(k).mem, w)
  {
    hide Step, InMemory, StoreAddress, StraightWords, StoresAvoidText, IsSeqRun, ShortEnough, Addr, Opcode;
    if k == 0 {
      ZeroAddr();
    } else {
      ProgramStays(w, arch, k - 1);
      ProgramAt(w, arch, k - 1);
      StepKeepsProgram(w, k - 1, arch(k - 1));
    }
  }

  lemma ZeroAddr()
    ensures Addr(0) == Dword(0)
  {
    UnsignedZero();
    OfU64(0);
  }

  // ----- from reset to the end -----

  const NO_TARGETS: Bpu<Dword, Tables> := Bpu(FRESH.tables, map[])

  /** The processor after a reset, with this memory. */
  function ResetState(m: Ram): Vm<Dword, Ram, Tables> {
    Vm(Dword(0), map[], m, NoIfId(MACHINE), NoIdEx(MACHINE), NoExMem(MACHINE), NoMemWb(MACHINE), NO_TARGETS, 0)
  }

  function Addresses(): nat -> Dword { (i: nat) => Addr(i) }

  function Halted(w: seq<bv32>): Dword -> bool { (pc: Dword) => PastEnd(w, pc) }

  lemma LaidAt(w: seq<bv32>, i: nat)
    requires ShortEnough(w) && i <= |w| + 3
    ensures TextOf(w).covers(Addr(i)) && TextOf(w).word(Addr(i)) == (if i < |w| then w[i] else 0)
    ensures Halted(w)(Addr(i)) == (i >= |w|)
  {
    hide U64, Addr;
    AddrValue(i);
  }

  lemma ProgramIsLaid(w: seq<bv32>)
    requires ShortEnough(w)
    ensures Laid(MACHINE, TextOf(w), Halted(w), Addresses(), w)
    ensures forall i: nat :: i < |w| + 3 ==> Consecutive(MACHINE, Addresses(), i)
  {
    hide Addr, TextOf, Halted, ShortEnough;
    forall i: nat | i <= |w| + 3
      ensures TextOf(w).covers(Addr(i)) && TextOf(w).word(Addr(i)) == (if i < |w| then w[i] else 0)
      ensures Halted(w)(Addr(i)) == (i >= |w|)
    {
      LaidAt(w, i);
    }
    forall i: nat | i < |w| + 3
      ensures Consecutive(MACHINE, Addresses(), i)
    {
      ShortAddresses(w, i);
      NextAddr(i);
    }
  }

  lemma ShortAddresses(w: seq<bv32>, i: nat)
    requires ShortEnough(w) && i < |w| + 3
    ensures 4 * i + 4 < -MIN64
  {
  }

  /** The sequential machine after a reset, with a program whose stores leave the program alone. */
  ghost predicate ProgramRun(m: Ram, w: seq<bv32>, arch: SeqRun<Dword, Ram>) {
    && ShortEnough(w) && |w| > 0 && StraightWords(w) && InMemory(m, w)
    && IsSeqRun(MACHINE, arch) && arch(0) == Arch(Dword(0), map[], m) && StoresAvoidText(w, arch)
  }

  lemma ResetIsReady(mode: int, m: Ram, w: seq<bv32>, jt: Dword -> Dword)
    requires TextKept(MACHINE, TextOf(w), m)
    ensures Inv(MACHINE, mode, TextOf(w), jt, ResetState(m))
    ensures Drained(MACHINE, ResetState(m)) == Arch(Dword(0), map[], m)
    ensures !ResetState(m).ifId.valid && ResetState(m).pc == Dword(0)
  {
    hide TextKept, TextOf;
  }

  lemma ProgramSetup(mode: int, m: Ram, w: seq<bv32>, arch: SeqRun<Dword, Ram>)
    requires mode >= 2 && ProgramRun(m, w, arch)
    ensures StraightSetup(MACHINE, mode, TextOf(w), pc => pc, RunFrom(MACHINE, mode, ResetState(m)), arch, Halted(w),
                          Addresses(), w)
  {
    hide Inv, Drained, Lawful, Tick, Step, Laid, InMemory, StoresAvoidText, StraightWords, ResetState, TextOf, Halted,
         TextKept, ShortEnough;
    MachineIsLawful();
    ProgramIsLaid(w);
    InMemoryIsText(m, w);
    ResetIsReady(mode, m, w, pc => pc);
    ZeroAddr();
    forall k: nat | k <= |w| + 3
      ensures TextKept(MACHINE, TextOf(w), arch(k).mem)
    {
      ProgramStays(w, arch, k);
      InMemoryIsText(arch(k).mem, w);
    }
  }

  /** Running the simulator's pipeline on such a program, from reset, leaves the memory and the
      registers of the sequential machine; in mode 2 the last register write is missing if the last
      word reads the register its predecessor writes. */
  method RunProgram(vm: RvssVm<Dword, Ram, Tables>, stopAfter: nat, ghost m: Ram, ghost w: seq<bv32>,
                    ghost arch: SeqRun<Dword, Ram>) returns (n: nat)
    requires vm.Valid() && vm.mode >= 2 && vm.d == MACHINE && vm.pastEnd == Halted(w) && vm.Snapshot() == ResetState(m)
    requires ProgramRun(m, w, arch) && stopAfter >= 3 * |w| + 3 && vm.instructionsRetired == 0
    requires vm.executionLimit + 1 >= |w|
    modifies vm
    ensures vm.mem == arch(|w|).mem
    ensures vm.regs == if vm.mode == 2 && LastPairDepends(w) then arch(|w| - 1).regs else arch(|w|).regs
  {
    NotEmpty(m, w, arch);
    hide ProgramRun, StraightSetup, LastPairDepends, ResetState, Halted, TextOf;
    ProgramSetup(vm.mode, m, w, arch);
    n := RunStraightLine(vm, stopAfter, TextOf(w), pc => pc, arch, Addresses(), w);
  }

  lemma NotEmpty(m: Ram, w: seq<bv32>, arch: SeqRun<Dword, Ram>)
    requires ProgramRun(m, w, arch)
    ensures |w| > 0
  {
  }

  // ----- how long a program takes -----

  ghost function ResetRun(mode: int, m: Ram): Run<Dword, Ram, Tables> { RunFrom(MACHINE, mode, ResetState(m)) }

  ghost predicate Contains(m: Ram, w: seq<bv32>) {
    4 * |w| <= m.size
    && forall i :: 0 <= i < |w| ==> Loaded(m.bytes, 4 * i, 4) == Widen(w[i])
  }

  ghost predicate ContainsAt(mode: int, m: Ram, w: seq<bv32>, n: nat) {
    Issued(mode, ResetRun(mode, m), n) <= |w| ==> Contains(ResetRun(mode, m)(n).mem, w)
  }

  /** Until its words have issued, the pipeline does not store over them. */
  ghost predicate TextStays(mode: int, m: Ram, w: seq<bv32>) { forall n: nat :: ContainsAt(mode, m, w, n) }

  /** Words in a row, of which only the last may be a branch or jump. */
  predicate Row(w: seq<bv32>) { ShortEnough(w) && |w| > 0 && forall i :: 0 <= i < |w| - 1 ==> !IsControlFlow(w[i]) }

  lemma ContainsMeansLies(m: Ram, w: seq<bv32>)
    requires ShortEnough(w) && Contains(m, w)
    ensures Lie(MACHINE, m, Addresses(), w)
  {
    hide Loaded, Low32, Widen, Addr, U64;
    forall i: nat | i < |w|
      ensures FetchWord(m, Addr(i)) == w[i]
    {
      ShortAddress(w, i);
      AddrValue(i);
      LowOfWidened(w[i]);
    }
  }

  lemma ProgramInARow(w: seq<bv32>)
    requires Row(w)
    ensures InARow(MACHINE, Halted(w), Addresses(), w)
  {
    hide Addr, U64, IsControlFlow;
    forall i: nat | i < |w|
      ensures Consecutive(MACHINE, Addresses(), i)
    {
      ShortAddresses(w, i);
      NextAddr(i);
    }
    forall i: nat | i <= |w|
      ensures Halted(w)(Addr(i)) == (i == |w|)
    {
      ShortAddress(w, i);
      AddrValue(i);
    }
  }

  lemma ResetMeans(m: Ram)
    ensures
      var v := ResetState(m);
      WellFormed(v) && !v.ifId.valid && v.pc == Addresses()(0) && Unpredicted(v.bpu, Addresses(), [])
        && v.bpu.btb == map[]
  {
    ZeroAddr();
  }

  /** What is proved of the timing of words in a row holds of every such program from reset. */
  lemma ProgramIsTimed(mode: int, m: Ram, w: seq<bv32>)
    requires mode >= 2 && Row(w) && TextStays(mode, m, w)
    ensures Timed(MACHINE, mode, ResetRun(mode, m), Halted(w), Addresses(), w)
  {
    RunFromIsRun(MACHINE, mode, ResetState(m));
    ResetMeans(m);
    ProgramInARow(w);
    forall n: nat
      ensures LieDuring(MACHINE, mode, ResetRun(mode, m), Addresses(), w, n)
    {
      assert ContainsAt(mode, m, w, n);
      hide Issued, ResetRun, Contains, Lie, Addresses;
      if Issued(mode, ResetRun(mode, m), n) <= |w| { ContainsMeansLies(ResetRun(mode, m)(n).mem, w); }
    }
    hide ResetState, Addresses, Halted, InARow, LieDuring, IsRun;
  }

  /** The loop ends within three ticks a word, and with forwarding no later than without, whatever the
      words compute. */
  lemma ForwardingProgramIsNoLater(mode: int, m: Ram, w: seq<bv32>) returns (n2: nat, n: nat)
    requires mode >= 3 && Row(w) && TextStays(2, m, w) && TextStays(mode, m, w)
    ensures LoopEnds(ResetRun(2, m), Halted(w), n2) && LoopEnds(ResetRun(mode, m), Halted(w), n)
    ensures n <= n2 <= 3 * |w| - 2
  {
    hide Row, TextStays, ResetRun, Timed, LoopEnds, Halted, Addresses;
    ProgramIsTimed(2, m, w);
    ProgramIsTimed(mode, m, w);
    n2 := LoopEndsInTime(MACHINE, 2, ResetRun(2, m), Halted(w), Addresses(), w);
    n := LoopEndsInTime(MACHINE, mode, ResetRun(mode, m), Halted(w), Addresses(), w);
    Timing.ForwardingIsNoLater(MACHINE, mode, ResetRun(2, m), ResetRun(mode, m), Halted(w), Addresses(), w, n2, n);
  }

  /** So it is for straight-line programs whose stores leave them alone. */
  lemma StraightProgramIsNoLater(mode: int, m: Ram, w: seq<bv32>, arch: SeqRun<Dword, Ram>, n2: nat, n: nat)
    requires mode >= 3 && ProgramRun(m, w, arch)
    requires LoopEnds(ResetRun(2, m), Halted(w), n2) && LoopEnds(ResetRun(mode, m), Halted(w), n)
    ensures n <= n2
  {
    NotEmpty(m, w, arch);
    hide ProgramRun, StraightSetup, Timed, ResetState, Halted, TextOf, LoopEnds, RunFrom;
    ProgramSetup(2, m, w, arch);
    ProgramSetup(mode, m, w, arch);
    StraightIsTimed(MACHINE, 2, TextOf(w), pc => pc, ResetRun(2, m), arch, Halted(w), Addresses(), w);
    StraightIsTimed(MACHINE, mode, TextOf(w), pc => pc, ResetRun(mode, m), arch, Halted(w), Addresses(), w);
    Timing.ForwardingIsNoLater(MACHINE, mode, ResetRun(2, m), ResetRun(mode, m), Halted(w), Addresses(), w, n2, n);
  }

  // ----- mode 1 -----

  /** In mode 1, which knows no hazards, a straight-line program in which no word reads what one of the two
      before it writes takes one tick a word, and leaves what the sequential machine leaves. */
  lemma HazardFreeProgram(m: Ram, w: seq<bv32>, arch: SeqRun<Dword, Ram>)
    requires ProgramRun(m, w, arch) && Independent(w)
    ensures LoopEnds(ResetRun(1, m), Halted(w), |w|)
    ensures ResetRun(1, m)(|w| + 5).regs == arch(|w|).regs && ResetRun(1, m)(|w| + 5).mem == arch(|w|).mem
  {
    NotEmpty(m, w, arch);
    StartsIdle(m);
    RunFromIsRun(MACHINE, 1, ResetState(m));
    RunFromIsRun(MACHINE, 2, ResetState(m));
    hide ProgramRun, StraightSetup, ResetState, Halted, TextOf, LoopEnds, RunFrom, Independent, Addresses;
    ProgramSetup(2, m, w, arch);
    NoHazardRun(MACHINE, TextOf(w), pc => pc, ResetRun(1, m), ResetRun(2, m), arch, Halted(w), Addresses(), w);
  }

  lemma StartsIdle(m: Ram)
    ensures !ExWrites(ResetState(m).idEx)
  {
  }

  // ----- both machines -----

  lemma StraightIsRegular(m: Ram, w: seq<bv32>, arch: SeqRun<Dword, Ram>, n: nat)
    requires ProgramRun(m, w, arch) && n <= |w|
    ensures RegularUpTo(arch, n) && U64(arch(n).pc.bits) == 4 * n
  {
    hide InMemory, StoresAvoidText, IsSeqRun, Step, U64, FetchWord, Addr, Regular;
    ProgramStays(w, arch, n);
    ShortAddress(w, n);
    AddrValue(n);
    forall k: nat | k < n
      ensures Regular(FetchWord(arch(k).mem, arch(k).pc))
    {
      ProgramStays(w, arch, k);
      RegularWord(w, k, arch(k));
    }
  }

  lemma ShortAddress(w: seq<bv32>, n: nat)
    requires ShortEnough(w) && n <= |w|
    ensures 4 * n < -MIN64
  {
  }

  lemma RegularWord(w: seq<bv32>, k: nat, s: Arch<Dword, Ram>)
    requires ShortEnough(w) && k < |w| && s.pc == Addr(k) && InMemory(s.mem, w) && StraightWords(w)
    ensures Regular(FetchWord(s.mem, s.pc))
  {
    hide Loaded, Low32, Widen, U64, Bits64, Opcode, Funct3;
    AddrValue(k);
    LowOfWidened(w[k]);
  }

  /** The single-cycle machine runs such a program to its end. */
  method RunSequentially(single: SingleCycleVm, stopAfter: nat, ghost m: Ram, ghost w: seq<bv32>,
                         ghost arch: SeqRun<Dword, Ram>)
    requires ProgramRun(m, w, arch) && stopAfter > |w|
    requires single.Snapshot() == Arch(Dword(0), map[], m) && single.programSize == 4 * |w|
    requires single.executionLimit + 1 >= |w|
    modifies single
    ensures single.Snapshot() == arch(|w|) && U64(single.pc.bits) == 4 * |w|
  {
    hide U64, RegularUpTo, ShortEnough, StraightWords, InMemory, StoresAvoidText, IsSeqRun, WholeTimes, IntegerUpTo;
    ghost var c := single.State();
    var n := single.RunSingle(stopAfter);
    StraightIsRegular(m, w, arch, |w|);
    StraightIsRegular(m, w, arch, if n < |w| then n else |w|);
    RegularIsSequential(c, arch, |w|);
    RegularIsSequential(c, arch, if n < |w| then n else |w|);
  }

  /** The same straight-line program, run by the single-cycle machine and by the pipeline: both end,
      with the same memory and, but for that last write in mode 2, the same registers. */
  method RunBothWays(single: SingleCycleVm, piped: RvssVm<Dword, Ram, Tables>, stopAfter: nat, ghost m: Ram,
                     ghost w: seq<bv32>, ghost arch: SeqRun<Dword, Ram>)
    requires ProgramRun(m, w, arch) && stopAfter >= 3 * |w| + 3
    requires piped.Valid() && piped.mode >= 2 && piped.d == MACHINE && piped.pastEnd == Halted(w)
    requires piped.Snapshot() == ResetState(m)
    requires piped.instructionsRetired == 0 && piped.executionLimit + 1 >= |w|
    requires single.Snapshot() == Arch(Dword(0), map[], m) && single.programSize == 4 * |w|
    requires single.executionLimit + 1 >= |w|
    modifies single, piped
    ensures U64(single.pc.bits) == 4 * |w| && single.mem == piped.mem
    ensures !(piped.mode == 2 && LastPairDepends(w)) ==> single.regs == piped.regs
  {
    hide ResetState, Halted, LastPairDepends, U64, ProgramRun;
    RunSequentially(single, stopAfter, m, w, arch);
    var ticks := RunProgram(piped, stopAfter, m, w, arch);
  }
}
