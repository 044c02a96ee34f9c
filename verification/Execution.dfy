/** From tokens to registers: assembled, loaded and run. */
module Execution {
  import opened Words
  import opened FlatMemory
  import opened Memory
  import opened DataSection
  import opened Loader
  import opened SingleCycle
  import opened Pipeline
  import opened PipelineRuns
  import opened MainLoop
  import opened PipelineLoop
  import opened StraightLine
  import opened Processor
  import opened RvssVm
  import opened Programs
  import opened BranchingPrograms
  import DataLayout
  import TextMeaning
  import opened Parser
  import opened EndToEnd

  /** The sequential machine from a state on. */
  ghost function StepTimes(s: Arch<Dword, Ram>, n: nat): Arch<Dword, Ram> {
    if n == 0 then s else Step(MACHINE, StepTimes(s, n - 1))
  }

  ghost function StepsFrom(m: Ram): SeqRun<Dword, Ram> { (n: nat) => StepTimes(Arch(Dword(0), map[], m), n) }

  lemma StepsFromIsRun(m: Ram)
    ensures IsSeqRun(MACHINE, StepsFrom(m)) && StepsFrom(m)(0) == Arch(Dword(0), map[], m)
  {
    hide Step;
  }

  /** Text is stored below its end only. */
  lemma {:induction false} BehindText(f: Flat, w: seq<bv32>, k: nat, b: int)
    requires k <= |w| && b >= 4 * k
    ensures ByteAt(TextImage(f, w, k), b) == ByteAt(f, b)
  {
    hide ByteAt, Stored, Widen;
    if k > 0 {
      BehindText(f, w, k - 1, b);
      StoredBytes(TextImage(f, w, k - 1), 4 * (k - 1), Widen(w[k - 1]), 4, b);
    }
  }

  lemma NothingLoaded(f: Flat, a: int)
    requires forall b :: a <= b < a + 4 ==> ByteAt(f, b) == 0
    ensures Loaded(f, a, 4) == Widen(0)
  {
    LoadedDepends(f, map[], a, 4);
    NothingStored(a);
  }

  lemma NothingStored(a: int)
    ensures Loaded(map[], a, 4) == Widen(0)
  {
    assert Loaded(map[], a, 1) == 0 && Loaded(map[], a, 2) == 0 && Loaded(map[], a, 3) == 0;
  }

  /** A program loaded into empty memory, with its data at least four words behind, lies there followed
      by zero words. */
  lemma ImageIsProgram(w: seq<bv32>, base: nat, data: seq<DataItem>, size: nat)
    requires 4 * |w| + 16 <= base && 4 * |w| + 16 <= size
    ensures InMemory(Ram(Image(map[], w, base, data), size, false), w)
  {
    var f := Image(map[], w, base, data);
    forall i | 0 <= i <= |w| + 3
      ensures Loaded(f, 4 * i, 4) == Widen(WordAt(w, i))
    {
      hide Loaded, Widen, ByteAt, TextImage, DataImage;
      if i < |w| {
        TextReadsBack(map[], w, base, data, i);
      } else {
        forall b | 4 * i <= b < 4 * i + 4
          ensures ByteAt(f, b) == 0
        {
          BelowData(TextImage(map[], w, |w|), base, data, |data|, b);
          BehindText(map[], w, |w|, b);
          EmptyByte(b);
        }
        NothingLoaded(f, 4 * i);
      }
    }
  }

  lemma EmptyByte(b: int)
    ensures ByteAt(map[], b) == 0
  {
  }

  /** The run loop ends, and then the pipeline has computed what the sequential machine has after the
      whole program. */
  ghost predicate Computes(mode: int, m: Ram, w: seq<bv32>) {
    exists n: nat ::
      && LoopEnds(ResetRun(mode, m), Halted(w), n)
      && ResetRun(mode, m)(n + 5).mem == StepsFrom(m)(|w|).mem
      && ResetRun(mode, m)(n + 5).regs ==
           if mode == 2 && LastPairDepends(w) then StepsFrom(m)(|w| - 1).regs else StepsFrom(m)(|w|).regs
  }

  lemma ProgramComputes(mode: int, m: Ram, w: seq<bv32>)
    requires mode >= 2 && |w| > 0 && ProgramRun(m, w, StepsFrom(m))
    ensures Computes(mode, m, w)
  {
    hide ProgramRun, StraightSetup, ResetState, TextOf, LastPairDepends, LoopEnds, RunFrom, StepsFrom, Halted,
         Addresses;
    ProgramSetup(mode, m, w, StepsFrom(m));
    var n := StraightLineRun(MACHINE, mode, TextOf(w), pc => pc, ResetRun(mode, m), StepsFrom(m), Halted(w),
                             Addresses(), w);
  }

  /** With branches: the run loop ends, and then the pipeline has computed what the sequential machine has
      after kk instructions. */
  ghost predicate ComputesAfter(mode: int, m: Ram, w: seq<bv32>, kk: nat) {
    exists n: nat ::
      && LoopEnds(ResetRun(mode, m), Halted(w), n)
      && ResetRun(mode, m)(n + 5).mem == StepsFrom(m)(kk).mem
      && ResetRun(mode, m)(n + 5).regs == StepsFrom(m)(kk).regs
  }

  /** The sequential run ends after kk instructions, each jalr always goes to the same address, and the last
      word of the program, if it is a branch or jump, ends the run when it is executed. */
  ghost predicate Ends(m: Ram, w: seq<bv32>, kk: nat) {
    && |w| > 0 && EndsAfter(m, w, StepsFrom(m), kk) && SameTargets(w, StepsFrom(m), kk)
    && (IsControlFlow(w[|w| - 1]) ==>
          forall k: nat {:trigger StepsFrom(m)(k)} :: k + 1 < kk ==> StepsFrom(m)(k).pc != Addr(|w| - 1))
  }

  lemma EndedComputes(mode: int, m: Ram, w: seq<bv32>, kk: nat)
    requires mode >= 4 && Ends(m, w, kk)
    ensures ComputesAfter(mode, m, w, kk)
  {
    hide EndsAfter, SameTargets, LoopEnds, RunFrom, StepsFrom, Halted, TextOf, TargetsOf, LoopRun, LeadsBack,
         IsControlFlow, Addr;
    BranchingSetup(mode, m, w, StepsFrom(m), kk);
    forall k: nat | k < kk
      ensures !LeadsBack(MACHINE, TextOf(w), StepsFrom(m), Halted(w), k)
    {
      BackIsLastWord(m, w, StepsFrom(m), kk, k);
    }
    var n := ForwardingRunIsSequential(MACHINE, mode, TextOf(w), TargetsOf(StepsFrom(m), kk), ResetRun(mode, m),
                                       StepsFrom(m), Halted(w), kk);
  }

  /** The memory both machines start with. */
  ghost function Initial(m: Memory): Ram
    reads m
  {
    Ram(m.contents, m.memorySize, false)
  }

  /** Straight-line programs whose words the pipeline executes exactly and whose stores leave the
      program alone. */
  ghost predicate Straight(m: Ram, w: seq<bv32>) {
    0 < |w| && ShortEnough(w) && 4 * |w| + 16 <= m.size && StraightWords(w) && StoresAvoidText(w, StepsFrom(m))
  }

  /** A token list assembled into empty memory and run by the pipeline computes what the sequential machine
      computes: straight-line programs in any mode, and programs with branches in modes 4 and 5. */
  method AssembleForRun(p: Parser, m: Memory) returns (ends: bool, loaded: bool, w: seq<bv32>)
    requires p.Fresh() && TextMeaning.RegistersExist(p.tokens) && m.Valid() && IsAddress(p.setting.dataStart)
    requires m.contents == map[]
    modifies p, m
    ensures ends <==> DataLayout.Quiet(p.tokens, 0)
    ensures ends ==> (p.errorCount == 0 <==> TextMeaning.Assembles(p.setting, p.tokens))
    ensures ends && p.errorCount == 0 ==> WordsOf(w, TextMeaning.TextOf(p.setting, p.tokens))
    ensures
      var data, base := DataLayout.DataOf(p.tokens), p.setting.dataStart;
      && ends && p.errorCount == 0
      && ProgramFits(w, base, data.items, m.memorySize) && 4 * |w| + 16 <= base
      ==>
      && loaded
      && (Straight(Initial(m), w) ==> forall mode :: mode >= 2 ==> Computes(mode, Initial(m), w))
      && (forall mode, kk: nat :: mode >= 4 && Ends(Initial(m), w, kk) ==> ComputesAfter(mode, Initial(m), w, kk))
  {
    hide DataLayout.Quiet, DataLayout.DataOf, TextMeaning.Assembles, TextMeaning.TextOf, WordsOf, BranchesLead,
         CodeInPlace, DataInPlace, LabelsHold, DataFits, Image, InMemory, StepsFrom, StoresAvoidText, StraightWords,
         Computes, TextMeaning.RegistersExist, ResetRun, ComputesAfter, Ends;
    ends, loaded, w := AssembleAndLoad(p, m);
    ghost var data, base := DataLayout.DataOf(p.tokens), p.setting.dataStart;
    ghost var start := Initial(m);
    if ends && p.errorCount == 0 && ProgramFits(w, base, data.items, m.memorySize) && 4 * |w| + 16 <= base {
      forall mode | mode >= 2 && Straight(start, w)
        ensures Computes(mode, start, w)
      {
        ImageIsProgram(w, base, data.items, m.memorySize);
        StepsFromIsRun(start);
        ProgramComputes(mode, start, w);
      }
      forall mode, kk: nat | mode >= 4 && Ends(start, w, kk)
        ensures ComputesAfter(mode, start, w, kk)
      {
        EndedComputes(mode, start, w, kk);
      }
    }
  }
}
