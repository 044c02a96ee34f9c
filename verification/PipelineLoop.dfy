/** The run loop: the main loop, then five ticks more. Says exactly what that leaves in the register file
    and in memory. */
module PipelineLoop {
  import opened InstructionFields
  import opened HazardUnit
  import opened SingleCycle
  import opened Pipeline
  import opened PipelineRefinement
  import opened PipelineRuns
  import opened MainLoop

  /** The sequential run ends, and no branch or jump at the end of the program leads back into it. */
  ghost predicate LoopReady<V(!new), M(!new), P(!new)>(
    d: Datapath<V, M, P>, mode: int, t: Text<V>, jt: V -> V, run: Run<V, M, P>, arch: SeqRun<V, M>,
    halted: V -> bool, kk: nat)
  {
    LoopRun(d, mode, t, jt, run, arch, halted, kk) && NeverBack(d, t, arch, halted, kk)
  }

  /** Zero words change neither registers nor memory. */
  lemma ZeroWordIsNop<V, M, P>(d: Datapath<V, M, P>, s: Arch<V, M>)
    ensures ExecuteOne(d, 0, s).regs == s.regs && ExecuteOne(d, 0, s).mem == s.mem
  {
  }

  lemma {:induction false} NothingAfterTheEnd<V(!new), M(!new), P(!new)>(
    d: Datapath<V, M, P>, mode: int, t: Text<V>, jt: V -> V, run: Run<V, M, P>, arch: SeqRun<V, M>,
    halted: V -> bool, kk: nat, k: nat)
    requires Comparable(d, mode, t, jt, run, arch, kk + 3) && SeqEnds(t, arch, halted, kk) && kk <= k <= kk + 3
    ensures arch(k).regs == arch(kk).regs && arch(k).mem == arch(kk).mem
  {
    hide Inv, Drained, ExecuteOne, Lawful, ExactWord;
    if k > kk {
      NothingAfterTheEnd(d, mode, t, jt, run, arch, halted, kk, k - 1);
      assert Good(d, mode, t, jt, arch(k - 1)) && Steps(d, arch, k - 1);
      ZeroWordIsNop(d, arch(k - 1));
    }
  }

  // ----- what the run leaves behind -----

  lemma ReadyMeans<V(!new), M(!new), P(!new)>(
    d: Datapath<V, M, P>, mode: int, t: Text<V>, jt: V -> V, run: Run<V, M, P>, arch: SeqRun<V, M>,
    halted: V -> bool, n: nat, kk: nat)
    requires LoopReady(d, mode, t, jt, run, arch, halted, kk) && LoopEnds(run, halted, n)
    ensures Comparable(d, mode, t, jt, run, arch, kk + 3) && SeqEnds(t, arch, halted, kk) && mode >= 2
    ensures Issued(mode, run, n) == if run(n).ifId.valid then kk - 1 else kk
  {
    hide LoopRun, Comparable, SeqEnds, NeverBack, Issued, LoopEnds;
    RunMeans(d, mode, t, jt, run, arch, halted, kk);
    IssuedAtEnd(d, mode, t, jt, run, arch, halted, kk, n);
  }

  /** In every mode memory is right after the five ticks once the last instruction has issued in
      the first three, and the registers are once it has issued in the first two. */
  lemma FiveTicksMore<V(!new), M(!new), P(!new)>(
    d: Datapath<V, M, P>, mode: int, t: Text<V>, jt: V -> V, run: Run<V, M, P>, arch: SeqRun<V, M>,
    halted: V -> bool, kk: nat) returns (n: nat)
    requires LoopReady(d, mode, t, jt, run, arch, halted, kk)
    ensures LoopEnds(run, halted, n) && n < 4 * (kk + 1)
    ensures kk - 1 <= Issued(mode, run, n + 2)
    ensures run(n + 5).regs == if Issued(mode, run, n + 2) < kk then arch(kk - 1).regs else arch(kk).regs
    ensures Issued(mode, run, n + 3) >= kk ==> run(n + 5).mem == arch(kk).mem
  {
    hide LoopRun, NeverBack, LoopEnds, Comparable, SeqEnds, Issued;
    n := LoopTerminates(d, mode, t, jt, run, arch, halted, kk);
    hide LoopReady;
    ReadyMeans(d, mode, t, jt, run, arch, halted, n, kk);
    IssuedGrows(mode, run, n, n + 2);
    IssuedGrows(mode, run, n, n + 3);
    var k2, k3 := Issued(mode, run, n + 2), Issued(mode, run, n + 3);
    RegisterFileIsSequential(d, mode, t, jt, run, arch, kk + 3, n + 2);
    RegisterFileIsSequential(d, mode, t, jt, run, arch, kk + 3, n + 3);
    if k2 >= kk { NothingAfterTheEnd(d, mode, t, jt, run, arch, halted, kk, k2); }
    if k3 >= kk { NothingAfterTheEnd(d, mode, t, jt, run, arch, halted, kk, k3); }
  }

  lemma WaitsOnce<V, M, P>(d: Datapath<V, M, P>, mode: int, v: Vm<V, M, P>)
    requires mode >= 3 && v.ifId.valid && !IsControlFlow(v.ifId.inst)
    ensures Issues(mode, v) || Issues(mode, Tick(d, mode, v))
  {
    if Stalls(mode, v) && Stalls(mode, Tick(d, mode, v)) {
      ForwardingWaitsOnce(d, mode, v);
    }
    hide Execute, MemLatch, MemEffect, WriteBack, ControlSignals, ComputeSignals;
  }

  /** A branch or jump in decode changes neither registers nor memory, whenever it issues. */
  lemma ControlFlowChangesNothing<V(!new), M(!new), P(!new)>(
    d: Datapath<V, M, P>, mode: int, t: Text<V>, jt: V -> V, run: Run<V, M, P>, arch: SeqRun<V, M>, m: nat, n: nat)
    requires Comparable(d, mode, t, jt, run, arch, m) && Issued(mode, run, n) <= m && HoldsControlFlow(run(n))
    ensures
      var k := Issued(mode, run, n);
      arch(k + 1).regs == arch(k).regs && arch(k + 1).mem == arch(k).mem && arch(k).pc == run(n).ifId.pc
  {
    var v, k := run(n), Issued(mode, run, n);
    RunRefines(d, mode, t, jt, run, arch, m, n);
    assert Good(d, mode, t, jt, arch(k)) && Steps(d, arch, k);
    DrainedPc(d, v);
    hide Inv, Drained, Lawful, ExecuteOne, Issued;
    FetchedIs(d, mode, t, v, arch(k).mem, arch(k).pc);
    ControlFlowIsPure(d, v.ifId.inst, arch(k));
  }

  lemma FetchedIs<V(!new), M(!new), P(!new)>(
    d: Datapath<V, M, P>, mode: int, t: Text<V>, v: Vm<V, M, P>, mem: M, pc: V)
    requires FrontEndOk(d, mode, t, v) && v.ifId.valid && v.ifId.pc == pc && TextKept(d, t, mem)
    ensures d.fetch(mem, pc) == v.ifId.inst == t.word(pc)
  {
  }

  /** With forwarding, five ticks more are enough: the loop ends, and then registers and memory are those
      of the sequential run of the whole program. */
  lemma ForwardingRunIsSequential<V(!new), M(!new), P(!new)>(
    d: Datapath<V, M, P>, mode: int, t: Text<V>, jt: V -> V, run: Run<V, M, P>, arch: SeqRun<V, M>,
    halted: V -> bool, kk: nat) returns (n: nat)
    requires LoopReady(d, mode, t, jt, run, arch, halted, kk) && mode >= 3
    ensures LoopEnds(run, halted, n) && n < 4 * (kk + 1)
    ensures run(n + 5).regs == arch(kk).regs && run(n + 5).mem == arch(kk).mem
  {
    hide Comparable, SeqEnds, LoopReady, LoopEnds, Tick, Issues, Issued, IsControlFlow;
    n := FiveTicksMore(d, mode, t, jt, run, arch, halted, kk);
    ReadyMeans(d, mode, t, jt, run, arch, halted, n, kk);
    RunTicks(d, mode, t, jt, run, arch, kk + 3, n);
    RunTicks(d, mode, t, jt, run, arch, kk + 3, n + 1);
    if HoldsControlFlow(run(n)) {
      ControlFlowChangesNothing(d, mode, t, jt, run, arch, kk + 3, n);
      IssuesWithinThree(d, mode, run(n));
    } else if run(n).ifId.valid {
      WaitsOnce(d, mode, run(n));
    }
    IssuedNext(mode, run, n);
    IssuedNext(mode, run, n + 1);
    IssuedNext(mode, run, n + 2);
  }

  /** Without forwarding the last instruction may wait two ticks, and then the five ticks end
      before its write-back. It does exactly when it reads the register its predecessor writes. */
  predicate LastReadsPredecessor<V, M, P>(v: Vm<V, M, P>) {
    v.ifId.valid && ExWrites(v.idEx) && Reads(v.ifId.inst, v.idEx.rd)
  }

  lemma TwoWaits<V, M, P>(d: Datapath<V, M, P>, v: Vm<V, M, P>)
    requires v.ifId.valid
    ensures !Issues(2, v) && !Issues(2, Tick(d, 2, v)) <==> LastReadsPredecessor(v)
    ensures Issues(2, v) || Issues(2, Tick(d, 2, v)) || Issues(2, Tick(d, 2, Tick(d, 2, v)))
  {
    hide MemLatch, MemEffect, WriteBack, ControlSignals, Reads;
  }

  // ----- what is in execute when the last instruction arrives in decode -----

  /** The last instruction reads the register that the one before it writes. */
  ghost predicate LastReadsWritten<V, M>(t: Text<V>, arch: SeqRun<V, M>, kk: nat) {
    && kk >= 2
    && var first, second := t.word(arch(kk - 2).pc), t.word(arch(kk - 1).pc);
       ControlSignals(first).regWrite && Rd(first) != 0 && Reads(second, Rd(first))
  }

  lemma IssueFills<V, M, P>(d: Datapath<V, M, P>, mode: int, v: Vm<V, M, P>)
    requires Issues(mode, v) && !IsControlFlow(v.ifId.inst)
    ensures
      var x := Tick(d, mode, v).idEx;
      x.valid && x.rd == Rd(v.ifId.inst) && x.signals == ControlSignals(v.ifId.inst)
  {
    hide Execute, MemLatch, MemEffect, WriteBack, ControlSignals;
  }

  lemma StallBubbles<V, M, P>(d: Datapath<V, M, P>, mode: int, v: Vm<V, M, P>)
    requires !Issues(mode, v)
    ensures !Tick(d, mode, v).idEx.valid
  {
    hide Execute, MemLatch, MemEffect, WriteBack, ControlSignals, ComputeSignals;
  }

  lemma StallHolds<V, M, P>(d: Datapath<V, M, P>, mode: int, v: Vm<V, M, P>)
    requires v.ifId.valid && !Issues(mode, v)
    ensures Tick(d, mode, v).pc == v.pc && Tick(d, mode, v).ifId == v.ifId
  {
    hide Execute, MemLatch, MemEffect, WriteBack, ControlSignals, ComputeSignals;
  }

  /** An exact branch or jump writes no register. */
  lemma ControlFlowWritesNothing<V, M, P>(d: Datapath<V, M, P>, mode: int, v: Vm<V, M, P>)
    requires Issues(mode, v) && IsControlFlow(v.ifId.inst) && ExactWord(v.ifId.inst)
    ensures !ExWrites(Tick(d, mode, v).idEx)
    ensures !(ControlSignals(v.ifId.inst).regWrite && Rd(v.ifId.inst) != 0)
  {
    hide Execute, MemLatch, MemEffect, WriteBack, ComputeSignals;
  }

  /** Only behind a branch or jump decode is empty. */
  lemma EmptyBehind<V, M, P>(d: Datapath<V, M, P>, mode: int, v: Vm<V, M, P>)
    requires mode >= 2 && WellFormed(v) && !Tick(d, mode, v).ifId.valid
    ensures Issues(mode, v) && IsControlFlow(v.ifId.inst)
  {
    hide Execute, MemLatch, MemEffect, WriteBack, ControlSignals;
  }

  lemma ExactAt<V(!new), M(!new), P(!new)>(
    d: Datapath<V, M, P>, mode: int, t: Text<V>, jt: V -> V, run: Run<V, M, P>, arch: SeqRun<V, M>, m: nat, k: nat)
    requires Comparable(d, mode, t, jt, run, arch, m) && k <= m
    ensures ExactWord(t.word(arch(k).pc))
  {
    hide Inv, Lawful, Drained, ExactWord;
    assert Good(d, mode, t, jt, arch(k));
  }

  /** When the last instruction arrives in decode, execute holds a writer it waits for exactly if it reads
      what the instruction before it writes. */
  lemma LastPairInLatches<V(!new), M(!new), P(!new)>(
    d: Datapath<V, M, P>, mode: int, t: Text<V>, jt: V -> V, run: Run<V, M, P>, arch: SeqRun<V, M>,
    halted: V -> bool, kk: nat, n: nat)
    requires LoopReady(d, mode, t, jt, run, arch, halted, kk) && LoopEnds(run, halted, n) && run(n).ifId.valid
    ensures LastReadsPredecessor(run(n)) <==> LastReadsWritten(t, arch, kk)
  {
    hide LoopRun, NeverBack, Comparable, SeqEnds, Issued, Issues, Tick, IsControlFlow, ExactWord, Inv, Drained, Reads,
         ControlSignals, WellFormed;
    ReadyMeans(d, mode, t, jt, run, arch, halted, n, kk);
    HeldIsNext(d, mode, t, jt, run, arch, halted, kk, n);
    StartsEmpty(d, mode, t, jt, run, arch, halted, kk);
    var u := run(n - 1);
    RunTicks(d, mode, t, jt, run, arch, kk + 3, n - 1);
    IssuedNext(mode, run, n - 1);
    if Issues(mode, u) {
      NoIssue(mode, u);
      HeldIsNext(d, mode, t, jt, run, arch, halted, kk, n - 1);
      if IsControlFlow(u.ifId.inst) {
        ExactAt(d, mode, t, jt, run, arch, kk + 3, kk - 2);
        ControlFlowWritesNothing(d, mode, u);
      } else {
        IssueFills(d, mode, u);
      }
    } else {
      StallBubbles(d, mode, u);
      if u.ifId.valid { StallHolds(d, mode, u); }
      if kk >= 2 { BehindABranch(d, mode, t, jt, run, arch, halted, kk, n); }
    }
  }

  lemma StartsEmpty<V(!new), M(!new), P(!new)>(
    d: Datapath<V, M, P>, mode: int, t: Text<V>, jt: V -> V, run: Run<V, M, P>, arch: SeqRun<V, M>,
    halted: V -> bool, kk: nat)
    requires LoopRun(d, mode, t, jt, run, arch, halted, kk)
    ensures !run(0).ifId.valid && Issued(mode, run, 0) == 0
  {
    hide Comparable, SeqEnds, Untrained;
  }

  /** If decode was empty before the last instruction arrived, the one before it was a branch or jump. */
  lemma BehindABranch<V(!new), M(!new), P(!new)>(
    d: Datapath<V, M, P>, mode: int, t: Text<V>, jt: V -> V, run: Run<V, M, P>, arch: SeqRun<V, M>,
    halted: V -> bool, kk: nat, n: nat)
    requires LoopRun(d, mode, t, jt, run, arch, halted, kk) && Running(run, halted, n) && n > 0 && kk >= 2
    requires !run(n - 1).ifId.valid && Issued(mode, run, n - 1) == kk - 1
    ensures !LastReadsWritten(t, arch, kk)
  {
    hide LoopRun, Comparable, SeqEnds, Issued, Issues, Tick, IsControlFlow, ExactWord, Inv, Drained, Reads,
         ControlSignals, WellFormed;
    RunMeans(d, mode, t, jt, run, arch, halted, kk);
    StartsEmpty(d, mode, t, jt, run, arch, halted, kk);
    var u := run(n - 2);
    RunTicks(d, mode, t, jt, run, arch, kk + 3, n - 2);
    IssuedNext(mode, run, n - 2);
    WellFormedAt(d, mode, t, jt, run, arch, kk + 3, n - 2);
    EmptyBehind(d, mode, u);
    NoIssue(mode, u);
    HeldIsNext(d, mode, t, jt, run, arch, halted, kk, n - 2);
    ExactAt(d, mode, t, jt, run, arch, kk + 3, kk - 2);
    ControlFlowWritesNothing(d, mode, u);
  }

  /** Mode 2 leaves the sequential result, except that the last instruction's register write is
      lost exactly when it reads what its predecessor writes. */
  lemma StallOnlyRun<V(!new), M(!new), P(!new)>(
    d: Datapath<V, M, P>, t: Text<V>, jt: V -> V, run: Run<V, M, P>, arch: SeqRun<V, M>,
    halted: V -> bool, kk: nat) returns (n: nat)
    requires LoopReady(d, 2, t, jt, run, arch, halted, kk)
    ensures LoopEnds(run, halted, n) && n < 4 * (kk + 1)
    ensures run(n + 5).mem == arch(kk).mem
    ensures run(n + 5).regs == if LastReadsWritten(t, arch, kk) then arch(kk - 1).regs else arch(kk).regs
  {
    hide Comparable, SeqEnds, LoopReady, LoopEnds, Tick, Issues, Issued, LastReadsPredecessor, Reads, ControlSignals;
    n := FiveTicksMore(d, 2, t, jt, run, arch, halted, kk);
    ReadyMeans(d, 2, t, jt, run, arch, halted, n, kk);
    RunTicks(d, 2, t, jt, run, arch, kk + 3, n);
    RunTicks(d, 2, t, jt, run, arch, kk + 3, n + 1);
    IssuedNext(2, run, n);
    IssuedNext(2, run, n + 1);
    IssuedNext(2, run, n + 2);
    if run(n).ifId.valid {
      TwoWaits(d, run(n));
      LastPairInLatches(d, 2, t, jt, run, arch, halted, kk, n);
    } else if LastReadsWritten(t, arch, kk) {
      LastWasControlFlow(d, 2, t, jt, run, arch, halted, kk, n);
    }
  }

  /** If decode is empty when the loop ends, the last instruction was a branch or jump, and changed
      nothing. */
  lemma LastWasControlFlow<V(!new), M(!new), P(!new)>(
    d: Datapath<V, M, P>, mode: int, t: Text<V>, jt: V -> V, run: Run<V, M, P>, arch: SeqRun<V, M>,
    halted: V -> bool, kk: nat, n: nat)
    requires LoopReady(d, mode, t, jt, run, arch, halted, kk) && LoopEnds(run, halted, n) && !run(n).ifId.valid
    requires kk > 0
    ensures arch(kk - 1).regs == arch(kk).regs
  {
    hide LoopRun, NeverBack, Comparable, SeqEnds, Issued, Issues, Tick, IsControlFlow, Inv, Drained, WellFormed;
    ReadyMeans(d, mode, t, jt, run, arch, halted, n, kk);
    StartsEmpty(d, mode, t, jt, run, arch, halted, kk);
    var u := run(n - 1);
    RunTicks(d, mode, t, jt, run, arch, kk + 3, n - 1);
    IssuedNext(mode, run, n - 1);
    IssuedGrows(mode, run, n - 1, n);
    WellFormedAt(d, mode, t, jt, run, arch, kk + 3, n - 1);
    EmptyBehind(d, mode, u);
    NoIssue(mode, u);
    ControlFlowChangesNothing(d, mode, t, jt, run, arch, kk + 3, n - 1);
  }
}
