/** Programs without branches or jumps: the run loop ends, and it ends with the sequential result. */
module StraightLine {
  import opened HazardUnit
  import opened InstructionFields
  import opened SingleCycle
  import opened Pipeline
  import opened PipelineRefinement
  import opened PipelineRuns
  import opened MainLoop
  import opened PipelineLoop
  import opened Timing

  /** Words w lie one after the other from addr(0), followed by zero words; the loop's exit test
      fires exactly past the last of them. */
  ghost predicate Laid<V, M, P>(d: Datapath<V, M, P>, t: Text<V>, halted: V -> bool, addr: nat -> V, w: seq<bv32>) {
    forall i: nat {:trigger addr(i)} :: i <= |w| + 3 ==>
      && t.covers(addr(i)) && t.word(addr(i)) == (if i < |w| then w[i] else 0)
      && halted(addr(i)) == (i >= |w|)
  }

  ghost predicate StraightWords(w: seq<bv32>) {
    forall i :: 0 <= i < |w| ==> ExactWord(w[i]) && !IsControlFlow(w[i])
  }

  /** A straight-line program, a pipeline with empty latches in front of it, and the sequential
      machine beside it, whose stores leave the program alone. */
  ghost predicate StraightSetup<V(!new), M(!new), P(!new)>(
    d: Datapath<V, M, P>, mode: int, t: Text<V>, jt: V -> V, run: Run<V, M, P>, arch: SeqRun<V, M>,
    halted: V -> bool, addr: nat -> V, w: seq<bv32>)
  {
    && Lawful(d) && mode >= 2
    && IsRun(d, mode, run) && IsSeqRun(d, arch)
    && Inv(d, mode, t, jt, run(0)) && Drained(d, run(0)) == arch(0)
    && !run(0).ifId.valid && run(0).pc == addr(0)
    && Laid(d, t, halted, addr, w) && StraightWords(w)
    && (forall i: nat :: i < |w| + 3 ==> Consecutive(d, addr, i))
    && (forall k: nat {:trigger arch(k)} :: k <= |w| + 3 ==> TextKept(d, t, arch(k).mem))
  }

  lemma {:induction false} StraightPc<V(!new), M(!new), P(!new)>(
    d: Datapath<V, M, P>, mode: int, t: Text<V>, jt: V -> V, run: Run<V, M, P>, arch: SeqRun<V, M>,
    halted: V -> bool, addr: nat -> V, w: seq<bv32>, k: nat)
    requires StraightSetup(d, mode, t, jt, run, arch, halted, addr, w) && k <= |w| + 3
    ensures arch(k).pc == addr(k)
  {
    hide Lawful, Inv, Step, ExactWord, IsControlFlow;
    if k == 0 {
      DrainedPc(d, run(0));
    } else {
      StraightPc(d, mode, t, jt, run, arch, halted, addr, w, k - 1);
      hide Drained;
      assert Steps(d, arch, k - 1) && Consecutive(d, addr, k - 1);
      TextAt(d, t, arch(k - 1).mem, addr(k - 1));
      StraightNext(d, t.word(addr(k - 1)), arch(k - 1));
    }
  }

  lemma StraightNext<V, M, P>(d: Datapath<V, M, P>, inst: bv32, s: Arch<V, M>)
    requires d.fetch(s.mem, s.pc) == inst && (inst == 0 || !IsControlFlow(inst))
    ensures Step(d, s).pc == d.next(s.pc)
  {
    hide ControlSignals;
  }

  /** Such a program is one the pipelined modes get right. */
  lemma StraightIsComparable<V(!new), M(!new), P(!new)>(
    d: Datapath<V, M, P>, mode: int, t: Text<V>, jt: V -> V, run: Run<V, M, P>, arch: SeqRun<V, M>,
    halted: V -> bool, addr: nat -> V, w: seq<bv32>)
    requires StraightSetup(d, mode, t, jt, run, arch, halted, addr, w)
    ensures Comparable(d, mode, t, jt, run, arch, |w| + 3)
    ensures SeqEnds(t, arch, halted, |w|)
  {
    hide Lawful, Inv, Step, Drained;
    forall k: nat | k <= |w| + 3
      ensures Good(d, mode, t, jt, arch(k)) && arch(k).pc == addr(k)
    {
      StraightPc(d, mode, t, jt, run, arch, halted, addr, w, k);
    }
  }

  // ----- the pipeline on such a program -----

  /** The words stay in place, and no target is remembered for them. */
  lemma StraightIsTimed<V(!new), M(!new), P(!new)>(
    d: Datapath<V, M, P>, mode: int, t: Text<V>, jt: V -> V, run: Run<V, M, P>, arch: SeqRun<V, M>,
    halted: V -> bool, addr: nat -> V, w: seq<bv32>)
    requires StraightSetup(d, mode, t, jt, run, arch, halted, addr, w) && |w| > 0
    ensures Timed(d, mode, run, halted, addr, w)
  {
    StraightInARow(d, mode, t, jt, run, arch, halted, addr, w);
    StraightIsComparable(d, mode, t, jt, run, arch, halted, addr, w);
    forall n: nat
      ensures LieDuring(d, mode, run, addr, w, n)
    {
      hide Lawful, Inv, Drained, Lie, StraightWords, IsRun, IsSeqRun, InARow, Issued, TextKept;
      if Issued(mode, run, n) <= |w| {
        RunRefines(d, mode, t, jt, run, arch, |w| + 3, n);
        KeptMeansLies(d, mode, t, jt, run, arch, halted, addr, w, run(n));
      }
    }
    hide Lawful, Drained, Lie, StraightWords, IsRun, IsSeqRun, InARow, LieDuring, TextKept, Unpredicted;
    if mode >= 5 { NoTargets(d, mode, t, jt, run, arch, halted, addr, w); }
  }

  lemma StraightInARow<V(!new), M(!new), P(!new)>(
    d: Datapath<V, M, P>, mode: int, t: Text<V>, jt: V -> V, run: Run<V, M, P>, arch: SeqRun<V, M>,
    halted: V -> bool, addr: nat -> V, w: seq<bv32>)
    requires StraightSetup(d, mode, t, jt, run, arch, halted, addr, w)
    ensures InARow(d, halted, addr, w)
  {
    hide Lawful, Inv, Drained, IsRun, IsSeqRun, ExactWord, IsControlFlow, TextKept, Consecutive;
  }

  lemma KeptMeansLies<V(!new), M(!new), P(!new)>(
    d: Datapath<V, M, P>, mode: int, t: Text<V>, jt: V -> V, run: Run<V, M, P>, arch: SeqRun<V, M>,
    halted: V -> bool, addr: nat -> V, w: seq<bv32>, v: Vm<V, M, P>)
    requires StraightSetup(d, mode, t, jt, run, arch, halted, addr, w) && Inv(d, mode, t, jt, v)
    ensures Lie(d, v.mem, addr, w)
  {
    hide Lawful, Drained, StraightWords, IsRun, IsSeqRun, WellFormed, FrontEndOk, TargetsOk;
  }

  lemma NoTargets<V(!new), M(!new), P(!new)>(
    d: Datapath<V, M, P>, mode: int, t: Text<V>, jt: V -> V, run: Run<V, M, P>, arch: SeqRun<V, M>,
    halted: V -> bool, addr: nat -> V, w: seq<bv32>)
    requires StraightSetup(d, mode, t, jt, run, arch, halted, addr, w) && mode >= 5
    ensures Unpredicted(run(0).bpu, addr, w)
  {
    hide Lawful, Drained, IsRun, IsSeqRun, WellFormed, FrontEndOk, TextKept, ExactWord, IsControlFlow, TargetOf;
    forall i: nat | i < |w|
      ensures addr(i) !in run(0).bpu.btb
    {
      assert t.word(addr(i)) == w[i];
    }
  }

  lemma SetupMeans<V(!new), M(!new), P(!new)>(
    d: Datapath<V, M, P>, mode: int, t: Text<V>, jt: V -> V, run: Run<V, M, P>, arch: SeqRun<V, M>,
    halted: V -> bool, addr: nat -> V, w: seq<bv32>)
    requires StraightSetup(d, mode, t, jt, run, arch, halted, addr, w)
    ensures mode >= 2 && !run(0).ifId.valid
  {
  }

  /** The last two words, when the second reads the register the first writes. */
  predicate LastPairDepends(w: seq<bv32>) {
    && |w| >= 2
    && ControlSignals(w[|w| - 2]).regWrite && Rd(w[|w| - 2]) != 0
    && Reads(w[|w| - 1], Rd(w[|w| - 2]))
  }

  /** The run loop ends, within three ticks a word and five more. With forwarding it leaves the
      sequential result; in mode 2 it does too unless the last word reads the register its
      predecessor writes, and then exactly the last register write is missing. */
  lemma StraightLineRun<V(!new), M(!new), P(!new)>(
    d: Datapath<V, M, P>, mode: int, t: Text<V>, jt: V -> V, run: Run<V, M, P>, arch: SeqRun<V, M>,
    halted: V -> bool, addr: nat -> V, w: seq<bv32>) returns (n: nat)
    requires StraightSetup(d, mode, t, jt, run, arch, halted, addr, w) && |w| > 0
    ensures LoopEnds(run, halted, n) && n <= 3 * |w| - 2
    ensures run(n + 5).mem == arch(|w|).mem
    ensures run(n + 5).regs == if mode == 2 && LastPairDepends(w) then arch(|w| - 1).regs else arch(|w|).regs
  {
    hide *;
    SetupMeans(d, mode, t, jt, run, arch, halted, addr, w);
    StraightLoopReady(d, mode, t, jt, run, arch, halted, addr, w);
    StraightIsTimed(d, mode, t, jt, run, arch, halted, addr, w);
    if mode == 2 {
      n := StallOnlyRun(d, t, jt, run, arch, halted, |w|);
    } else {
      n := ForwardingRunIsSequential(d, mode, t, jt, run, arch, halted, |w|);
    }
    EndMeansLast(d, mode, run, halted, addr, w, n);
  }

  lemma StraightLoopReady<V(!new), M(!new), P(!new)>(
    d: Datapath<V, M, P>, mode: int, t: Text<V>, jt: V -> V, run: Run<V, M, P>, arch: SeqRun<V, M>,
    halted: V -> bool, addr: nat -> V, w: seq<bv32>)
    requires StraightSetup(d, mode, t, jt, run, arch, halted, addr, w) && |w| > 0
    ensures LoopReady(d, mode, t, jt, run, arch, halted, |w|)
    ensures LastReadsWritten(t, arch, |w|) <==> LastPairDepends(w)
  {
    hide Comparable, SeqEnds, IsControlFlow, ControlSignals, Reads, Rd;
    SetupMeans(d, mode, t, jt, run, arch, halted, addr, w);
    StraightIsComparable(d, mode, t, jt, run, arch, halted, addr, w);
    if mode >= 5 { NoTargets(d, mode, t, jt, run, arch, halted, addr, w); }
    forall k: nat | k < |w|
      ensures arch(k).pc == addr(k) && t.word(arch(k).pc) == w[k] && !IsControlFlow(w[k])
    {
      StraightPc(d, mode, t, jt, run, arch, halted, addr, w, k);
      WordIsStraight(d, mode, t, jt, run, arch, halted, addr, w, k);
    }
    hide StraightSetup, LeadsBack;
    forall k: nat | k < |w|
      ensures !LeadsBack(d, t, arch, halted, k)
    {
      NotControlFlow(d, t, arch, halted, k);
    }
  }

  lemma NotControlFlow<V, M, P>(d: Datapath<V, M, P>, t: Text<V>, arch: SeqRun<V, M>, halted: V -> bool, k: nat)
    requires !IsControlFlow(t.word(arch(k).pc))
    ensures !LeadsBack(d, t, arch, halted, k)
  {
  }

  lemma WordIsStraight<V(!new), M(!new), P(!new)>(
    d: Datapath<V, M, P>, mode: int, t: Text<V>, jt: V -> V, run: Run<V, M, P>, arch: SeqRun<V, M>,
    halted: V -> bool, addr: nat -> V, w: seq<bv32>, k: nat)
    requires StraightSetup(d, mode, t, jt, run, arch, halted, addr, w) && k < |w|
    ensures t.word(addr(k)) == w[k] && !IsControlFlow(w[k])
  {
    hide Lawful, Inv, Drained, IsRun, IsSeqRun, ExactWord, IsControlFlow, TextKept;
  }

  // ----- words behind the program -----

  /** Whatever exact words lie behind the program, say of a longer one loaded before: only the first can
      still write a register, and does exactly if neither it nor the last word of the program waits; and
      only the first two can still access memory. */
  lemma WordsBehind<V(!new), M(!new), P(!new)>(
    d: Datapath<V, M, P>, mode: int, t: Text<V>, jt: V -> V, run: Run<V, M, P>, arch: SeqRun<V, M>,
    halted: V -> bool, addr: nat -> V, w: seq<bv32>) returns (n: nat)
    requires Timed(d, mode, run, halted, addr, w) && Comparable(d, mode, t, jt, run, arch, |w| + 2)
    ensures LoopEnds(run, halted, n) && n <= 3 * |w| - 2
    ensures
      var j := Issued(mode, run, n + 2);
      && |w| - 1 <= j <= |w| + 1 && run(n + 5).regs == arch(j).regs
      && (j == |w| + 1 <==> Issues(mode, run(n)) && Issues(mode, run(n + 1)))
    ensures
      var k := Issued(mode, run, n + 3);
      |w| <= k <= |w| + 2 && run(n + 5).mem == arch(k).mem
  {
    hide Timed, Comparable, LoopEnds, Issued, Issues, Front, Tick;
    NotEmpty(d, mode, run, halted, addr, w);
    n := LoopEndsInTime(d, mode, run, halted, addr, w);
    FrontAt(d, mode, run, halted, addr, w, n);
    FrontIsValid(mode, run(n), addr, w, |w| - 1);
    TimedTick(d, mode, run, halted, addr, w, n);
    TimedTick(d, mode, run, halted, addr, w, n + 1);
    TimedTick(d, mode, run, halted, addr, w, n + 2);
    IssuesWithinThree(d, mode, run(n));
    RegisterFileIsSequential(d, mode, t, jt, run, arch, |w| + 2, n + 2);
    RegisterFileIsSequential(d, mode, t, jt, run, arch, |w| + 2, n + 3);
  }
}
