/** Programs with branches and jumps in the memory of the simulated processor, from reset to the end. */
module BranchingPrograms {
  import opened Words
  import opened BranchPredictor
  import opened FlatMemory
  import opened InstructionFields
  import opened SingleCycle
  import opened Pipeline
  import opened PipelineRefinement
  import opened PipelineRuns
  import opened MainLoop
  import opened LoopExit
  import opened Processor
  import opened SingleCycleVm
  import opened RvssVm
  import opened Programs

  /** The word of the program at an address. */
  function InstAt(w: seq<bv32>, pc: Dword): bv32 { WordAt(w, U64(pc.bits) / 4) }

  predicate Inside(w: seq<bv32>, pc: Dword) { U64(pc.bits) % 4 == 0 && U64(pc.bits) / 4 < |w| }

  ghost predicate StepInside(w: seq<bv32>, s: Arch<Dword, Ram>) {
    && Inside(w, s.pc)
    && (Opcode(InstAt(w, s.pc)) == 0x23 ==> StoreAddress(s, InstAt(w, s.pc)) >= 4 * |w| + 16)
  }

  /** From reset, the sequential machine runs kk instructions of the program, all of them exact words
      and none a store over the program, and has then reached its end. */
  ghost predicate EndsAfter(m: Ram, w: seq<bv32>, arch: SeqRun<Dword, Ram>, kk: nat) {
    && ShortEnough(w) && InMemory(m, w)
    && (forall i :: 0 <= i < |w| ==> ExactWord(w[i]))
    && IsSeqRun(MACHINE, arch) && arch(0) == Arch(Dword(0), map[], m)
    && (forall k: nat {:trigger arch(k)} :: k < kk ==> StepInside(w, arch(k)))
    && arch(kk).pc == Addr(|w|)
  }

  ghost predicate SameTarget(w: seq<bv32>, arch: SeqRun<Dword, Ram>, j: nat, k: nat) {
    arch(j).pc == arch(k).pc && Opcode(InstAt(w, arch(k).pc)) == 0x67 ==> arch(j + 1).pc == arch(k + 1).pc
  }

  /** Each jalr always goes to the same address. */
  ghost predicate SameTargets(w: seq<bv32>, arch: SeqRun<Dword, Ram>, kk: nat) {
    forall j: nat, k: nat :: j < kk && k < kk ==> SameTarget(w, arch, j, k)
  }

  /** The last of the first kk instructions at an address. */
  ghost function LastAt(arch: SeqRun<Dword, Ram>, kk: nat, pc: Dword): nat {
    if kk == 0 then 0 else if arch(kk - 1).pc == pc then kk - 1 else LastAt(arch, kk - 1, pc)
  }

  lemma {:induction false} LastIsThere(arch: SeqRun<Dword, Ram>, kk: nat, k: nat)
    requires k < kk
    ensures var j := LastAt(arch, kk, arch(k).pc); j < kk && arch(j).pc == arch(k).pc
  {
    if k < kk - 1 { LastIsThere(arch, kk - 1, k); }
  }

  /** The address each instruction goes to. */
  ghost function TargetsOf(arch: SeqRun<Dword, Ram>, kk: nat): Dword -> Dword {
    (pc: Dword) => arch(LastAt(arch, kk, pc) + 1).pc
  }

  lemma TargetsFit(w: seq<bv32>, arch: SeqRun<Dword, Ram>, kk: nat, k: nat)
    requires SameTargets(w, arch, kk) && k < kk && Opcode(InstAt(w, arch(k).pc)) == 0x67
    ensures arch(k + 1).pc == TargetsOf(arch, kk)(arch(k).pc)
  {
    hide Opcode, InstAt, LastAt;
    LastIsThere(arch, kk, k);
    assert SameTarget(w, arch, LastAt(arch, kk, arch(k).pc), k);
  }

  // ----- the program stays in place -----

  lemma FetchesInst(w: seq<bv32>, s: Arch<Dword, Ram>)
    requires InMemory(s.mem, w) && Covers(w, s.pc)
    ensures FetchWord(s.mem, s.pc) == InstAt(w, s.pc)
  {
    hide U64, Loaded, Low32, Widen, WordAt;
    InMemoryIsText(s.mem, w);
    assert TextOf(w).covers(s.pc);
    assert MACHINE.fetch(s.mem, s.pc) == TextOf(w).word(s.pc);
  }

  lemma InsideIsCovered(w: seq<bv32>, pc: Dword)
    requires Inside(w, pc)
    ensures Covers(w, pc) && InstAt(w, pc) in w && !PastEnd(w, pc)
  {
    hide U64;
    U64Range(pc.bits);
  }

  lemma BehindIsCovered(w: seq<bv32>, j: nat)
    requires ShortEnough(w) && j <= 3
    ensures Covers(w, Addr(|w| + j)) && InstAt(w, Addr(|w| + j)) == 0 && PastEnd(w, Addr(|w| + j))
  {
    hide U64, Addr;
    AddrValue(|w| + j);
  }

  lemma EndsMeans(m: Ram, w: seq<bv32>, arch: SeqRun<Dword, Ram>, kk: nat, k: nat)
    requires EndsAfter(m, w, arch, kk)
    ensures arch(k + 1) == Step(MACHINE, arch(k)) && ShortEnough(w)
    ensures k < kk ==> StepInside(w, arch(k)) && ExactWord(InstAt(w, arch(k).pc))
    ensures k == kk ==> arch(k).pc == Addr(|w|)
    ensures k == 0 ==> InMemory(arch(k).mem, w)
  {
    assert Steps(MACHINE, arch, k);
    hide InMemory, Step, ExactWord, Addr, StoreAddress;
    if k < kk { InsideIsCovered(w, arch(k).pc); }
  }

  lemma ZeroWordGoesOn(s: Arch<Dword, Ram>)
    requires FetchWord(s.mem, s.pc) == 0
    ensures Step(MACHINE, s) == s.(pc := MACHINE.next(s.pc))
  {
    hide FetchWord, Sum, AluValue, ImmValue;
  }

  lemma InsideStep(w: seq<bv32>, s: Arch<Dword, Ram>)
    requires InMemory(s.mem, w) && StepInside(w, s) && ExactWord(InstAt(w, s.pc))
    ensures InMemory(Step(MACHINE, s).mem, w)
  {
    hide InMemory, Step, StoreAddress, ExactWord, IntegerOpcode, Opcode, InstAt, Inside, Covers;
    InsideIsCovered(w, s.pc);
    FetchesInst(w, s);
    ExactIsIntegerHere(InstAt(w, s.pc));
    StepKeepsText(w, InstAt(w, s.pc), s);
  }

  lemma StepBehind(w: seq<bv32>, s: Arch<Dword, Ram>, j: nat)
    requires InMemory(s.mem, w) && ShortEnough(w) && j < 3 && s.pc == Addr(|w| + j)
    ensures InMemory(Step(MACHINE, s).mem, w) && Step(MACHINE, s).pc == MACHINE.next(Addr(|w| + j))
  {
    hide InMemory, Step, InstAt, Covers, ShortEnough, Addr, PastEnd, Sum;
    BehindIsCovered(w, j);
    FetchesInst(w, s);
    ZeroWordGoesOn(s);
  }

  lemma NextBehind(w: seq<bv32>, i: nat)
    requires ShortEnough(w) && |w| <= i < |w| + 3
    ensures MACHINE.next(Addr(i)) == Addr(i + 1)
  {
    ShortAddresses(w, i);
    hide Addr, Sum, ShortEnough;
    NextAddr(i);
  }

  lemma OneBehind(w: seq<bv32>, s: Arch<Dword, Ram>, i: nat)
    requires InMemory(s.mem, w) && ShortEnough(w) && |w| <= i < |w| + 3 && s.pc == Addr(i)
    ensures InMemory(Step(MACHINE, s).mem, w) && Step(MACHINE, s).pc == Addr(i + 1)
  {
    hide *;
    StepBehind(w, s, i - |w|);
    NextBehind(w, i);
  }

  /** The program is in memory, and instruction k lies inside it, or as far behind it as it comes after the
      last one. */
  ghost predicate Lasts(w: seq<bv32>, s: Arch<Dword, Ram>, kk: nat, k: nat) {
    InMemory(s.mem, w) && if k < kk then Inside(w, s.pc) else s.pc == Addr(|w| + (k - kk))
  }

  lemma LastsAtEnd(w: seq<bv32>, s: Arch<Dword, Ram>, kk: nat)
    requires InMemory(s.mem, w) && s.pc == Addr(|w|)
    ensures Lasts(w, s, kk, kk)
  {
    assert |w| + (kk - kk) == |w|;
  }

  lemma LastsBehind(w: seq<bv32>, s: Arch<Dword, Ram>, kk: nat, k: nat)
    requires ShortEnough(w) && kk <= k < kk + 3 && Lasts(w, s, kk, k)
    ensures Lasts(w, Step(MACHINE, s), kk, k + 1)
  {
    hide InMemory, Step, ShortEnough, Addr;
    OneBehind(w, s, |w| + (k - kk));
    assert |w| + (k - kk) + 1 == |w| + (k + 1 - kk);
  }

  /** The program stays in memory; behind its end the sequential machine walks over zero words. */
  lemma {:induction false} TextLasts(m: Ram, w: seq<bv32>, arch: SeqRun<Dword, Ram>, kk: nat, k: nat)
    requires EndsAfter(m, w, arch, kk) && k <= kk + 3
    ensures Lasts(w, arch(k), kk, k)
  {
    hide EndsAfter, InMemory, Step, StepInside, Addr, ExactWord, InstAt, Inside, ShortEnough;
    EndsMeans(m, w, arch, kk, k);
    if k > 0 {
      TextLasts(m, w, arch, kk, k - 1);
      EndsMeans(m, w, arch, kk, k - 1);
      if k <= kk { InsideStep(w, arch(k - 1)); } else { LastsBehind(w, arch(k - 1), kk, k - 1); }
    }
    if k < kk {
      IsInside(w, arch(k));
    } else if k == kk {
      LastsAtEnd(w, arch(k), kk);
    }
  }

  lemma IsInside(w: seq<bv32>, s: Arch<Dword, Ram>)
    requires StepInside(w, s)
    ensures Inside(w, s.pc)
  {
  }

  lemma CoveredAlong(m: Ram, w: seq<bv32>, arch: SeqRun<Dword, Ram>, kk: nat, k: nat)
    requires EndsAfter(m, w, arch, kk) && k <= kk + 3
    ensures InMemory(arch(k).mem, w) && Covers(w, arch(k).pc)
    ensures FetchWord(arch(k).mem, arch(k).pc) == InstAt(w, arch(k).pc)
    ensures PastEnd(w, arch(k).pc) == (k >= kk)
    ensures k < kk ==> ExactWord(InstAt(w, arch(k).pc))
    ensures k >= kk ==> InstAt(w, arch(k).pc) == 0
  {
    hide EndsAfter, InMemory, Covers, FetchWord, InstAt, PastEnd, ExactWord, Addr, Inside, StepInside, Step,
         ShortEnough;
    TextLasts(m, w, arch, kk, k);
    EndsMeans(m, w, arch, kk, k);
    if k < kk { InsideIsCovered(w, arch(k).pc); } else { BehindIsCovered(w, k - kk); }
    FetchesInst(w, arch(k));
  }

  lemma ExactIsIntegerHere(inst: bv32)
    requires ExactWord(inst)
    ensures IntegerOpcode(Opcode(inst)) && !ReusesOldResult(inst)
  {
  }

  // ----- such programs suit the pipeline -----

  lemma JalrTarget(w: seq<bv32>, inst: bv32, s: Arch<Dword, Ram>)
    requires FetchWord(s.mem, s.pc) == inst && Opcode(inst) == 0x67
    ensures MACHINE.add(MACHINE.ReadGpr(s.regs, Rs1(inst)), MACHINE.imm(inst)) == Step(MACHINE, s).pc
  {
    MachineIsLawful();
    hide Opcode, Rs1, Funct3, FetchWord, ImmValue, AluValue, Sum;
  }

  lemma GoodAlong(mode: int, m: Ram, w: seq<bv32>, arch: SeqRun<Dword, Ram>, kk: nat, k: nat)
    requires mode >= 4 && EndsAfter(m, w, arch, kk) && (mode >= 5 ==> SameTargets(w, arch, kk)) && k <= kk + 3
    ensures Good(MACHINE, mode, TextOf(w), TargetsOf(arch, kk), arch(k))
  {
    hide InMemory, Step, StoreAddress, Addr, ExactWord, Opcode, ShortEnough, TextKept, PastEnd, Covers, Rs1, Sum,
         ImmValue, TargetsOf, SameTargets;
    CoveredAlong(m, w, arch, kk, k);
    EndsMeans(m, w, arch, kk, k);
    InMemoryIsText(arch(k).mem, w);
    ZeroIsExact();
    var inst := InstAt(w, arch(k).pc);
    if Opcode(inst) == 0x67 {
      JalrTarget(w, inst, arch(k));
      if mode >= 5 { TargetsFit(w, arch, kk, k); }
    }
  }

  lemma ZeroIsExact()
    ensures ExactWord(0) && Opcode(0) == 0
  {
  }

  lemma SequentialEnds(m: Ram, w: seq<bv32>, arch: SeqRun<Dword, Ram>, kk: nat)
    requires EndsAfter(m, w, arch, kk)
    ensures SeqEnds(TextOf(w), arch, Halted(w), kk)
  {
    hide EndsAfter, InMemory, Addr, U64, Covers, ExactWord, FetchWord, PastEnd;
    forall k: nat | k <= kk + 3
      ensures Halted(w)(arch(k).pc) == (k >= kk) && (k >= kk ==> TextOf(w).word(arch(k).pc) == 0)
    {
      CoveredAlong(m, w, arch, kk, k);
    }
  }

  lemma StartsThere(m: Ram, w: seq<bv32>, arch: SeqRun<Dword, Ram>, kk: nat)
    requires EndsAfter(m, w, arch, kk)
    ensures InMemory(m, w) && arch(0) == Arch(Dword(0), map[], m) && IsSeqRun(MACHINE, arch)
  {
  }

  lemma BranchingIsComparable(mode: int, m: Ram, w: seq<bv32>, arch: SeqRun<Dword, Ram>, kk: nat)
    requires mode >= 4 && EndsAfter(m, w, arch, kk) && (mode >= 5 ==> SameTargets(w, arch, kk))
    ensures Comparable(MACHINE, mode, TextOf(w), TargetsOf(arch, kk), ResetRun(mode, m), arch, kk + 3)
  {
    hide EndsAfter, Inv, Drained, Lawful, InMemory, ResetState, TextOf, TextKept, Good, IsRun, IsSeqRun, RunFrom,
         TargetsOf, SameTargets;
    StartsThere(m, w, arch, kk);
    MachineIsLawful();
    InMemoryIsText(m, w);
    ResetIsReady(mode, m, w, TargetsOf(arch, kk));
    RunFromIsRun(MACHINE, mode, ResetState(m));
    forall k: nat | k <= kk + 3
      ensures Good(MACHINE, mode, TextOf(w), TargetsOf(arch, kk), arch(k))
    {
      GoodAlong(mode, m, w, arch, kk, k);
    }
  }

  lemma ResetRunStarts(mode: int, m: Ram)
    ensures !ResetRun(mode, m)(0).ifId.valid && ResetRun(mode, m)(0).bpu.btb == map[]
  {
  }

  /** Every such program meets what is assumed of the run loop. */
  lemma BranchingSetup(mode: int, m: Ram, w: seq<bv32>, arch: SeqRun<Dword, Ram>, kk: nat)
    requires mode >= 4 && EndsAfter(m, w, arch, kk) && (mode >= 5 ==> SameTargets(w, arch, kk))
    ensures LoopRun(MACHINE, mode, TextOf(w), TargetsOf(arch, kk), ResetRun(mode, m), arch, Halted(w), kk)
  {
    hide EndsAfter, SeqEnds, Comparable, ResetRun, TextOf, TargetsOf, SameTargets, Halted;
    BranchingIsComparable(mode, m, w, arch, kk);
    SequentialEnds(m, w, arch, kk);
    ResetRunStarts(mode, m);
  }

  /** An instruction leads back exactly if it is the last word of the program, a branch or jump, and not
      the last one executed. */
  lemma BackIsLastWord(m: Ram, w: seq<bv32>, arch: SeqRun<Dword, Ram>, kk: nat, k: nat)
    requires EndsAfter(m, w, arch, kk) && k < kk
    ensures LeadsBack(MACHINE, TextOf(w), arch, Halted(w), k) <==>
      arch(k).pc == Addr(|w| - 1) && IsControlFlow(w[|w| - 1]) && k + 1 < kk
  {
    TextLasts(m, w, arch, kk, k);
    CoveredAlong(m, w, arch, kk, k + 1);
    EndsMeans(m, w, arch, kk, k);
    hide EndsAfter, InMemory, IsControlFlow, U64, Addr, Covers, FetchWord, ExactWord;
    NextPastEnd(w, arch(k).pc);
  }

  /** Only the last word has the end of the program behind it. */
  lemma NextPastEnd(w: seq<bv32>, pc: Dword)
    requires Inside(w, pc) && ShortEnough(w)
    ensures PastEnd(w, MACHINE.next(pc)) <==> pc == Addr(|w| - 1)
    ensures pc == Addr(|w| - 1) ==> InstAt(w, pc) == w[|w| - 1]
  {
    hide U64, Addr, Sum;
    var i := U64(pc.bits) / 4;
    U64Range(pc.bits);
    AddressOf(w, pc);
    ShortAddresses(w, i);
    NextAddr(i);
    AddrValue(i + 1);
    AddrValue(|w| - 1);
  }

  lemma SameBits(a: bv64)
    ensures Bits64(U64(a)) == a
  {
    hide U64, W64;
    U64Range(a);
    OfU64(a);
  }

  lemma AddressOf(w: seq<bv32>, pc: Dword)
    requires Inside(w, pc) && ShortEnough(w)
    ensures pc == Addr(U64(pc.bits) / 4)
  {
    hide U64, Bits64;
    U64Range(pc.bits);
    SameBits(pc.bits);
    assert 4 * (U64(pc.bits) / 4) == U64(pc.bits);
  }

  // ----- both machines -----

  lemma EndsRegularly(m: Ram, w: seq<bv32>, arch: SeqRun<Dword, Ram>, kk: nat, n: nat)
    requires EndsAfter(m, w, arch, kk) && n <= kk
    ensures RegularUpTo(arch, n)
  {
    hide EndsAfter, InMemory, Covers, PastEnd, FetchWord, Opcode, ExactWord, InstAt;
    forall k: nat | k < n
      ensures Regular(FetchWord(arch(k).mem, arch(k).pc))
    {
      CoveredAlong(m, w, arch, kk, k);
      ExactIsIntegerHere(InstAt(w, arch(k).pc));
    }
  }

  /** The single-cycle machine runs every such program to its end. */
  method RunSequentiallyToEnd(single: SingleCycleVm, stopAfter: nat, ghost m: Ram, ghost w: seq<bv32>,
                              ghost arch: SeqRun<Dword, Ram>, ghost kk: nat)
    requires EndsAfter(m, w, arch, kk) && stopAfter > kk
    requires single.Snapshot() == Arch(Dword(0), map[], m) && single.programSize == 4 * |w|
    requires single.executionLimit + 1 >= kk
    modifies single
    ensures single.Snapshot() == arch(kk) && U64(single.pc.bits) == 4 * |w|
  {
    hide U64, EndsAfter, WholeTimes, IntegerUpTo;
    StartsThere(m, w, arch, kk);
    ghost var c := single.State();
    var n := single.RunSingle(stopAfter);
    SingleStops(m, w, arch, kk, c, n);
  }

  /** The single-cycle loop stops neither before nor behind the end. */
  lemma SingleStops(m: Ram, w: seq<bv32>, arch: SeqRun<Dword, Ram>, kk: nat, c: Whole, n: nat)
    requires EndsAfter(m, w, arch, kk) && c.arch == arch(0)
    requires forall k: nat {:trigger WholeTimes(c, k)} :: k < n && IntegerUpTo(c, k) ==>
      U64(WholeTimes(c, k).arch.pc.bits) < 4 * |w|
    ensures n <= kk && IntegerUpTo(c, n) && WholeTimes(c, n).arch == arch(n)
    ensures U64(arch(n).pc.bits) < 4 * |w| <==> n < kk
    ensures U64(arch(kk).pc.bits) == 4 * |w|
  {
    ProgramEnd(m, w, arch, kk);
    StartsThere(m, w, arch, kk);
    hide U64, EndsAfter, WholeTimes, IntegerUpTo, RegularUpTo, IsSeqRun;
    EndsRegularly(m, w, arch, kk, kk);
    RegularIsSequential(c, arch, kk);
    assert n <= kk;
    EndsRegularly(m, w, arch, kk, n);
    RegularIsSequential(c, arch, n);
  }

  lemma ProgramEnd(m: Ram, w: seq<bv32>, arch: SeqRun<Dword, Ram>, kk: nat)
    requires EndsAfter(m, w, arch, kk)
    ensures U64(arch(kk).pc.bits) == 4 * |w|
    ensures forall k: nat {:trigger arch(k)} :: k < kk ==> U64(arch(k).pc.bits) < 4 * |w|
  {
    EndsMeans(m, w, arch, kk, kk);
    hide EndsAfter, U64, Addr, InMemory, Covers, FetchWord, ExactWord;
    AddrValue(|w|);
    forall k: nat | k < kk
      ensures U64(arch(k).pc.bits) < 4 * |w|
    {
      CoveredAlong(m, w, arch, kk, k);
    }
  }

  /** The same program, run by the single-cycle machine and, with branches resolved in decode, by the
      pipeline: both end, with the same registers and memory if no branch or jump at the end of the program
      leads back into it; otherwise the pipeline stops behind the first that does. */
  method RunBothToEnd(single: SingleCycleVm, piped: RvssVm<Dword, Ram, Tables>, stopAfter: nat, ghost m: Ram,
                      ghost w: seq<bv32>, ghost arch: SeqRun<Dword, Ram>, ghost kk: nat)
    requires EndsAfter(m, w, arch, kk) && stopAfter >= 4 * kk + 8
    requires piped.Valid() && piped.mode >= 4 && piped.d == MACHINE && piped.pastEnd == Halted(w)
    requires piped.mode >= 5 ==> SameTargets(w, arch, kk)
    requires piped.Snapshot() == ResetState(m) && piped.instructionsRetired == 0 && piped.executionLimit >= kk
    requires single.Snapshot() == Arch(Dword(0), map[], m) && single.programSize == 4 * |w|
    requires single.executionLimit + 1 >= kk
    modifies single, piped
    ensures single.Snapshot() == arch(kk) && U64(single.pc.bits) == 4 * |w|
    ensures NeverBack(MACHINE, TextOf(w), arch, Halted(w), kk) ==>
      piped.regs == single.regs && piped.mem == single.mem
    ensures forall k: nat :: k < kk && FirstBack(MACHINE, TextOf(w), arch, Halted(w), k) ==>
      piped.regs == arch(k + 1).regs
  {
    NothingInFlight(m);
    hide ResetState, Halted, U64, EndsAfter, SameTargets, LoopRun, NeverBack, FirstBack, TextOf, InFlight, TargetsOf;
    RunSequentiallyToEnd(single, stopAfter, m, w, arch, kk);
    BranchingSetup(piped.mode, m, w, arch, kk);
    var ticks := RunToEnd(piped, stopAfter, TextOf(w), TargetsOf(arch, kk), arch, kk);
  }

  lemma NothingInFlight(m: Ram)
    ensures InFlight(ResetState(m)) == 0
  {
  }
}
