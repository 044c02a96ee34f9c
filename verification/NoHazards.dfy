/** Mode 1 neither stalls nor forwards. It is right for programs in which no word reads a register that
    either of its two predecessors writes: then it does, tick for tick, what mode 2 does. */
module NoHazards {
  import opened HazardUnit
  import opened InstructionFields
  import opened SingleCycle
  import opened Pipeline
  import opened PipelineRefinement
  import opened PipelineRuns
  import opened MainLoop
  import opened Timing
  import opened StraightLine

  /** Where mode 2 does not wait, mode 1 does the same. */
  lemma TickWithoutHazard<V, M, P>(d: Datapath<V, M, P>, v: Vm<V, M, P>)
    requires !Stalls(2, v)
    ensures Tick(d, 1, v) == Tick(d, 2, v)
  {
    hide Reads, Execute, MemLatch, MemEffect, WriteBack, ControlSignals;
  }

  /** So a run of mode 1 is that of mode 2 for as long as the latter does not wait. */
  lemma {:induction false} RunsWithoutHazard<V, M, P>(
    d: Datapath<V, M, P>, run1: Run<V, M, P>, run2: Run<V, M, P>, n: nat)
    requires IsRun(d, 1, run1) && IsRun(d, 2, run2) && run1(0) == run2(0)
    requires forall i: nat {:trigger run2(i)} :: i < n ==> !Stalls(2, run2(i))
    ensures run1(n) == run2(n)
  {
    hide Tick, Stalls;
    if n > 0 {
      RunsWithoutHazard(d, run1, run2, n - 1);
      assert Ticks(d, 1, run1, n - 1) && Ticks(d, 2, run2, n - 1);
      TickWithoutHazard(d, run2(n - 1));
    }
  }

  // ----- programs without hazards -----

  predicate Writes(inst: bv32, r: bv32) { ControlSignals(inst).regWrite && Rd(inst) == r && r != 0 }

  predicate ReadsFrom(later: bv32, earlier: bv32) { Writes(earlier, Rd(earlier)) && Reads(later, Rd(earlier)) }

  /** No word reads a register that either of its two predecessors writes. */
  predicate Independent(w: seq<bv32>) {
    && (forall i :: 1 <= i < |w| ==> !ReadsFrom(w[i], w[i - 1]))
    && (forall i :: 2 <= i < |w| ==> !ReadsFrom(w[i], w[i - 2]))
  }

  /** What execute and memory write, they write for the k-th word and the one in front of it. */
  ghost predicate Behind<V, M, P>(v: Vm<V, M, P>, w: seq<bv32>, k: nat) {
    && k <= |w|
    && (ExWrites(v.idEx) ==> k >= 1 && Writes(w[k - 1], v.idEx.rd))
    && (MemWrites(v.exMem) ==> k >= 2 && Writes(w[k - 2], v.exMem.rd))
  }

  lemma NoStall<V, M, P>(v: Vm<V, M, P>, w: seq<bv32>, k: nat)
    requires Independent(w) && Behind(v, w, k) && k < |w| && v.ifId.inst == w[k]
    ensures !Stalls(2, v)
  {
    hide Reads, ControlSignals;
    if k >= 1 { assert !ReadsFrom(w[k], w[k - 1]); }
    if k >= 2 { assert !ReadsFrom(w[k], w[k - 2]); }
  }

  lemma LatchesMove<V, M, P>(d: Datapath<V, M, P>, v: Vm<V, M, P>)
    requires Issues(2, v) && !IsControlFlow(v.ifId.inst)
    ensures
      var v' := Tick(d, 2, v);
      && (ExWrites(v'.idEx) ==> Writes(v.ifId.inst, v'.idEx.rd))
      && (MemWrites(v'.exMem) <==> ExWrites(v.idEx)) && (MemWrites(v'.exMem) ==> v'.exMem.rd == v.idEx.rd)
  {
    hide MemLatch, MemEffect, WriteBack, ControlSignals, ComputeSignals, Operand;
  }

  lemma EmptyLatchesMove<V, M, P>(d: Datapath<V, M, P>, v: Vm<V, M, P>)
    requires !Issues(2, v) && !ExWrites(v.idEx)
    ensures !ExWrites(Tick(d, 2, v).idEx) && !MemWrites(Tick(d, 2, v).exMem)
  {
    hide MemLatch, MemEffect, WriteBack, ControlSignals, ComputeSignals, Operand;
  }

  /** On such a program mode 2 never waits: after the first tick a word issues at each. */
  lemma {:induction false} NeverWaits<V, M, P>(
    d: Datapath<V, M, P>, run: Run<V, M, P>, halted: V -> bool, addr: nat -> V, w: seq<bv32>, n: nat)
    requires Timed(d, 2, run, halted, addr, w) && Independent(w) && !ExWrites(run(0).idEx)
    requires forall i :: 0 <= i < |w| ==> !IsControlFlow(w[i])
    requires 1 <= n <= |w|
    ensures Issued(2, run, n) == n - 1 && Behind(run(n), w, n - 1)
    ensures run(n).ifId.valid && run(n).ifId.inst == w[n - 1] && !Stalls(2, run(n))
  {
    hide Tick, Issued, Front, Stalls, Writes, WellFormed, IsControlFlow, InARow, Lie, LieDuring, Unpredicted, IsRun,
         Independent, ExWrites, MemWrites;
    if n == 1 {
      TimedStart(d, 2, run, halted, addr, w);
      TimedTick(d, 2, run, halted, addr, w, 0);
      NoIssue(2, run(0));
      EmptyLatchesMove(d, run(0));
    } else {
      NeverWaits(d, run, halted, addr, w, n - 1);
      TimedTick(d, 2, run, halted, addr, w, n - 1);
      LatchesMove(d, run(n - 1));
    }
    FrontAt(d, 2, run, halted, addr, w, n);
    FrontIsValid(2, run(n), addr, w, n - 1);
    NoStall(run(n), w, n - 1);
  }

  lemma ZeroWaitsForNothing<V, M, P>(v: Vm<V, M, P>)
    requires v.ifId.inst == 0
    ensures !Stalls(2, v)
  {
  }

  /** Nor do the zero words behind it. */
  lemma NeverWaitsBehind<V(!new), M(!new), P(!new)>(
    d: Datapath<V, M, P>, t: Text<V>, jt: V -> V, run: Run<V, M, P>, arch: SeqRun<V, M>,
    halted: V -> bool, addr: nat -> V, w: seq<bv32>, n: nat)
    requires StraightSetup(d, 2, t, jt, run, arch, halted, addr, w)
    requires |w| <= Issued(2, run, n) <= |w| + 3
    ensures run(n).ifId.inst == 0 && !Stalls(2, run(n))
  {
    var k := Issued(2, run, n);
    StraightIsComparable(d, 2, t, jt, run, arch, halted, addr, w);
    StraightPc(d, 2, t, jt, run, arch, halted, addr, w, k);
    WordBehind(d, 2, t, jt, run, arch, halted, addr, w, k);
    hide StraightSetup, Comparable, Issued, Drained, Stalls, TextKept, TargetsOk, SeqEnds;
    RunRefines(d, 2, t, jt, run, arch, |w| + 3, n);
    DrainedPc(d, run(n));
    ZeroWaitsForNothing(run(n));
  }

  lemma WordBehind<V(!new), M(!new), P(!new)>(
    d: Datapath<V, M, P>, mode: int, t: Text<V>, jt: V -> V, run: Run<V, M, P>, arch: SeqRun<V, M>,
    halted: V -> bool, addr: nat -> V, w: seq<bv32>, k: nat)
    requires StraightSetup(d, mode, t, jt, run, arch, halted, addr, w) && |w| <= k <= |w| + 3
    ensures t.word(addr(k)) == 0
  {
    hide Lawful, Inv, Drained, IsRun, IsSeqRun, ExactWord, IsControlFlow, TextKept;
  }

  lemma WordsAreStraight<V(!new), M(!new), P(!new)>(
    d: Datapath<V, M, P>, mode: int, t: Text<V>, jt: V -> V, run: Run<V, M, P>, arch: SeqRun<V, M>,
    halted: V -> bool, addr: nat -> V, w: seq<bv32>)
    requires StraightSetup(d, mode, t, jt, run, arch, halted, addr, w)
    ensures IsRun(d, mode, run) && forall i :: 0 <= i < |w| ==> !IsControlFlow(w[i])
  {
    hide Lawful, Inv, Drained, IsSeqRun, ExactWord, IsControlFlow, TextKept;
  }

  lemma {:induction false} NoWaitAt<V(!new), M(!new), P(!new)>(
    d: Datapath<V, M, P>, t: Text<V>, jt: V -> V, run: Run<V, M, P>, arch: SeqRun<V, M>,
    halted: V -> bool, addr: nat -> V, w: seq<bv32>, n: nat)
    requires StraightSetup(d, 2, t, jt, run, arch, halted, addr, w) && |w| > 0 && Independent(w)
    requires !ExWrites(run(0).idEx) && n <= |w| + 4
    ensures !Stalls(2, run(n))
    ensures n > |w| ==> |w| <= Issued(2, run, n) < n
  {
    hide StraightSetup, Timed, Independent, Issued, Stalls, ExWrites, IsControlFlow, Tick, IsRun;
    StraightIsTimed(d, 2, t, jt, run, arch, halted, addr, w);
    WordsAreStraight(d, 2, t, jt, run, arch, halted, addr, w);
    if n == 0 {
      EmptyAtFirst(d, run, halted, addr, w);
    } else if n <= |w| {
      NeverWaits(d, run, halted, addr, w, n);
    } else {
      NoWaitAt(d, t, jt, run, arch, halted, addr, w, n - 1);
      IssuedNext(2, run, n - 1);
      if n == |w| + 1 { NeverWaits(d, run, halted, addr, w, |w|); }
      NeverWaitsBehind(d, t, jt, run, arch, halted, addr, w, n);
    }
  }

  lemma EmptyAtFirst<V, M, P>(
    d: Datapath<V, M, P>, run: Run<V, M, P>, halted: V -> bool, addr: nat -> V, w: seq<bv32>)
    requires Timed(d, 2, run, halted, addr, w)
    ensures !Stalls(2, run(0))
  {
    hide Lie, LieDuring, Unpredicted, IsRun, InARow;
    ZeroWaitsForNothing(run(0));
  }

  lemma IndependentPair(w: seq<bv32>)
    requires Independent(w)
    ensures !LastPairDepends(w)
  {
    hide Reads, ControlSignals;
    if |w| >= 2 { assert !ReadsFrom(w[|w| - 1], w[|w| - 2]); }
  }

  /** Straight-line programs without hazards, in mode 1: the loop ends after one tick for each word, and five
      ticks later registers and memory are those of the sequential machine. */
  lemma NoHazardRun<V(!new), M(!new), P(!new)>(
    d: Datapath<V, M, P>, t: Text<V>, jt: V -> V, run1: Run<V, M, P>, run2: Run<V, M, P>, arch: SeqRun<V, M>,
    halted: V -> bool, addr: nat -> V, w: seq<bv32>)
    requires StraightSetup(d, 2, t, jt, run2, arch, halted, addr, w) && |w| > 0 && Independent(w)
    requires IsRun(d, 1, run1) && run1(0) == run2(0) && !ExWrites(run2(0).idEx)
    ensures LoopEnds(run1, halted, |w|)
    ensures run1(|w| + 5).regs == arch(|w|).regs && run1(|w| + 5).mem == arch(|w|).mem
  {
    hide StraightSetup, Timed, Independent, Issued, Stalls, ExWrites, IsControlFlow, Tick, LastPairDepends, IsRun;
    WordsAreStraight(d, 2, t, jt, run2, arch, halted, addr, w);
    StraightIsTimed(d, 2, t, jt, run2, arch, halted, addr, w);
    forall i: nat | i < |w| + 5
      ensures !Stalls(2, run2(i))
    {
      NoWaitAt(d, t, jt, run2, arch, halted, addr, w, i);
    }
    forall i: nat | i <= |w| + 5
      ensures run1(i) == run2(i)
    {
      RunsWithoutHazard(d, run1, run2, i);
    }
    IndependentPair(w);
    var n := StraightLineRun(d, 2, t, jt, run2, arch, halted, addr, w);
    NeverWaits(d, run2, halted, addr, w, |w|);
    HaltsExactlyThen(d, 2, run2, halted, addr, w, |w|);
    EndMeansLast(d, 2, run2, halted, addr, w, n);
    if n < |w| { NeverWaits(d, run2, halted, addr, w, n); }
  }
}
