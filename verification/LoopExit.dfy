/** The run loop stops as soon as the program counter is past the program, even with a branch or jump
    still in decode that leads back into it. Says exactly what such a run leaves behind. */
module LoopExit {
  import opened HazardUnit
  import opened SingleCycle
  import opened Pipeline
  import opened PipelineRefinement
  import opened PipelineRuns
  import opened MainLoop
  import opened PipelineLoop

  /** A tick that goes on elsewhere drops the word fetched meanwhile. */
  lemma RedirectDrops<V, M, P>(d: Datapath<V, M, P>, mode: int, v: Vm<V, M, P>)
    requires Issues(mode, v) && PcOf(Tick(d, mode, v)) != v.pc
    ensures !Tick(d, mode, v).ifId.valid
  {
    hide Execute, MemLatch, MemEffect, WriteBack, ControlSignals;
  }

  /** Behind a branch or jump that was redirected comes one bubble, and then the target, which does not
      wait. */
  lemma TargetIssues<V, M, P>(d: Datapath<V, M, P>, mode: int, v: Vm<V, M, P>)
    requires mode >= 2 && Issues(mode, v) && IsControlFlow(v.ifId.inst) && ExactWord(v.ifId.inst)
    requires !Tick(d, mode, v).ifId.valid
    ensures !Issues(mode, Tick(d, mode, v)) && Issues(mode, Tick(d, mode, Tick(d, mode, v)))
  {
    var v1 := Tick(d, mode, v);
    RedirectedLatch(d, mode, v);
    AfterBubble(d, mode, v1);
  }

  lemma RedirectedLatch<V, M, P>(d: Datapath<V, M, P>, mode: int, v: Vm<V, M, P>)
    requires Issues(mode, v) && IsControlFlow(v.ifId.inst) && ExactWord(v.ifId.inst) && !Tick(d, mode, v).ifId.valid
    ensures !ExWrites(Tick(d, mode, v).idEx) && Tick(d, mode, v).ifId == NoIfId(d)
  {
    hide Execute, MemLatch, MemEffect, WriteBack, ControlSignals, ComputeSignals;
  }

  lemma AfterBubble<V, M, P>(d: Datapath<V, M, P>, mode: int, v: Vm<V, M, P>)
    requires mode >= 2 && v.ifId == NoIfId(d) && !ExWrites(v.idEx)
    ensures !Issues(mode, v) && Issues(mode, Tick(d, mode, v))
  {
    hide MemLatch, MemEffect, WriteBack, ControlSignals, UsesRs1, UsesRs2, UsesRs3;
    assert !ComputeSignals(mode, 0, v.idEx, v.exMem).stallFetch by { ZeroNeverStalls(mode, v.idEx, v.exMem); }
  }

  lemma ZeroNeverStalls<V>(mode: int, idEx: IdEx<V>, exMem: ExMem<V>)
    ensures ComputeSignals(mode, 0, idEx, exMem) == NO_ACTION
  {
  }

  /** A branch or jump is in decode with the program counter past the program, and leads back into it. */
  ghost predicate CutOff<V(!new), M(!new), P(!new)>(
    d: Datapath<V, M, P>, mode: int, t: Text<V>, jt: V -> V, run: Run<V, M, P>, arch: SeqRun<V, M>,
    halted: V -> bool, n: nat)
  {
    && Comparable(d, mode, t, jt, run, arch, Issued(mode, run, n) + 2)
    && halted(run(n).pc) && HoldsControlFlow(run(n)) && !halted(arch(Issued(mode, run, n) + 1).pc)
  }

  lemma AddressIs<V, M, P>(d: Datapath<V, M, P>, v: Vm<V, M, P>)
    ensures Drained(d, v).pc == PcOf(v)
  {
  }

  /** Where decode goes on when the k-th instruction issues at tick i. */
  lemma GoesOnAt<V(!new), M(!new), P(!new)>(
    d: Datapath<V, M, P>, mode: int, t: Text<V>, jt: V -> V, run: Run<V, M, P>, arch: SeqRun<V, M>, k: nat, i: nat)
    requires Comparable(d, mode, t, jt, run, arch, k + 2) && Issued(mode, run, i) == k && Issues(mode, run(i))
    ensures PcOf(run(i + 1)) == arch(k + 1).pc && ExactWord(run(i).ifId.inst) && mode >= 2
    ensures run(i + 1) == Tick(d, mode, run(i)) && run(i + 2) == Tick(d, mode, run(i + 1))
  {
    hide Comparable, Inv, Drained, Tick, Issues, Issued, ExactWord, Good, PcOf;
    ComparableMode(d, mode, t, jt, run, arch, k + 2);
    GoodAt(d, mode, t, jt, run, arch, k + 2, k);
    IssuedNext(mode, run, i);
    RunRefines(d, mode, t, jt, run, arch, k + 2, i);
    RunRefines(d, mode, t, jt, run, arch, k + 2, i + 1);
    RunTicks(d, mode, t, jt, run, arch, k + 2, i);
    RunTicks(d, mode, t, jt, run, arch, k + 2, i + 1);
    AddressIs(d, run(i + 1));
    OnlyValidIssues(mode, run(i));
    ExactHere(d, mode, t, jt, run(i), arch(k));
  }

  lemma OnlyValidIssues<V, M, P>(mode: int, v: Vm<V, M, P>)
    requires Issues(mode, v)
    ensures v.ifId.valid
  {
  }

  lemma GoodAt<V(!new), M(!new), P(!new)>(
    d: Datapath<V, M, P>, mode: int, t: Text<V>, jt: V -> V, run: Run<V, M, P>, arch: SeqRun<V, M>, m: nat, k: nat)
    requires Comparable(d, mode, t, jt, run, arch, m) && k <= m
    ensures Good(d, mode, t, jt, arch(k))
  {
    hide Inv, Good, Lawful, Drained;
  }

  /** The branch issues at tick i, with the program counter still past the program. */
  lemma Redirects<V(!new), M(!new), P(!new)>(
    d: Datapath<V, M, P>, mode: int, t: Text<V>, jt: V -> V, run: Run<V, M, P>, arch: SeqRun<V, M>, halted: V -> bool,
    k: nat, i: nat)
    requires Comparable(d, mode, t, jt, run, arch, k + 2) && Issued(mode, run, i) == k
    requires halted(run(i).pc) && HoldsControlFlow(run(i)) && !halted(arch(k + 1).pc) && Issues(mode, run(i))
    ensures !Issues(mode, run(i + 1)) && Issues(mode, run(i + 2))
  {
    hide Tick, Issues, Issued, ExactWord, IsControlFlow, Comparable, PcOf;
    GoesOnAt(d, mode, t, jt, run, arch, k, i);
    RedirectDrops(d, mode, run(i));
    TargetIssues(d, mode, run(i));
  }

  lemma ExactHere<V(!new), M(!new), P(!new)>(
    d: Datapath<V, M, P>, mode: int, t: Text<V>, jt: V -> V, v: Vm<V, M, P>, s: Arch<V, M>)
    requires Inv(d, mode, t, jt, v) && v.ifId.valid && Drained(d, v) == s && Good(d, mode, t, jt, s)
    ensures ExactWord(v.ifId.inst)
  {
    hide ExactWord;
  }

  /** When each of the last three decodes happens. */
  lemma CutOffSchedule<V(!new), M(!new), P(!new)>(
    d: Datapath<V, M, P>, mode: int, t: Text<V>, jt: V -> V, run: Run<V, M, P>, arch: SeqRun<V, M>,
    halted: V -> bool, n: nat)
    requires CutOff(d, mode, t, jt, run, arch, halted, n)
    ensures
      var k := Issued(mode, run, n);
      && Issued(mode, run, n + 2) <= k + 1
      && Issued(mode, run, n + 3) == if Issues(mode, run(n)) then k + 2 else k + 1
  {
    var k := Issued(mode, run, n);
    hide Comparable, Tick, Issues, Issued, IsControlFlow;
    ComparableMode(d, mode, t, jt, run, arch, k + 2);
    IssuedNext(mode, run, n);
    IssuedNext(mode, run, n + 1);
    IssuedNext(mode, run, n + 2);
    RunTicks(d, mode, t, jt, run, arch, k + 2, n);
    RunTicks(d, mode, t, jt, run, arch, k + 2, n + 1);
    IssuesWithinThree(d, mode, run(n));
    if Issues(mode, run(n)) {
      Redirects(d, mode, t, jt, run, arch, halted, k, n);
    } else {
      StallHolds(d, mode, run(n));
      if Issues(mode, run(n + 1)) {
        Redirects(d, mode, t, jt, run, arch, halted, k, n + 1);
      }
    }
  }

  lemma ComparableMode<V(!new), M(!new), P(!new)>(
    d: Datapath<V, M, P>, mode: int, t: Text<V>, jt: V -> V, run: Run<V, M, P>, arch: SeqRun<V, M>, m: nat)
    requires Comparable(d, mode, t, jt, run, arch, m)
    ensures mode >= 2
  {
  }

  lemma CutOffLeaves<V(!new), M(!new), P(!new)>(
    d: Datapath<V, M, P>, mode: int, t: Text<V>, jt: V -> V, run: Run<V, M, P>, arch: SeqRun<V, M>,
    halted: V -> bool, n: nat)
    requires CutOff(d, mode, t, jt, run, arch, halted, n)
    ensures
      var k := Issued(mode, run, n);
      && run(n + 5).regs == arch(k + 1).regs
      && run(n + 5).mem == arch(if Issues(mode, run(n)) then k + 2 else k + 1).mem
  {
    hide Comparable, Tick, Issues, Issued, HoldsControlFlow;
    var k := Issued(mode, run, n);
    CutOffSchedule(d, mode, t, jt, run, arch, halted, n);
    ControlFlowChangesNothing(d, mode, t, jt, run, arch, k + 2, n);
    IssuedGrows(mode, run, n, n + 2);
    RegisterFileIsSequential(d, mode, t, jt, run, arch, k + 2, n + 2);
    RegisterFileIsSequential(d, mode, t, jt, run, arch, k + 2, n + 3);
  }

  lemma FewerSteps<V(!new), M(!new), P(!new)>(
    d: Datapath<V, M, P>, mode: int, t: Text<V>, jt: V -> V, run: Run<V, M, P>, arch: SeqRun<V, M>, m: nat, n: nat)
    requires Comparable(d, mode, t, jt, run, arch, m) && n <= m
    ensures Comparable(d, mode, t, jt, run, arch, n)
  {
    hide Inv, Good, Lawful, Drained;
  }

  /** Of the instructions that lead back into the program, the k-th is the first. */
  ghost predicate FirstBack<V, M, P>(
    d: Datapath<V, M, P>, t: Text<V>, arch: SeqRun<V, M>, halted: V -> bool, k: nat)
  {
    LeadsBack(d, t, arch, halted, k) && NeverBack(d, t, arch, halted, k)
  }

  /** If an instruction at the end of the program leads back, the run stops behind the first that does: its
      registers are those of the sequential machine there, and so is memory, but for a store at the target
      when the branch did not wait. */
  lemma CutOffRun<V(!new), M(!new), P(!new)>(
    d: Datapath<V, M, P>, mode: int, t: Text<V>, jt: V -> V, run: Run<V, M, P>, arch: SeqRun<V, M>,
    halted: V -> bool, kk: nat, k: nat) returns (n: nat)
    requires LoopRun(d, mode, t, jt, run, arch, halted, kk) && FirstBack(d, t, arch, halted, k) && k < kk
    ensures LoopEnds(run, halted, n) && n < 4 * (kk + 1) && Issued(mode, run, n) == k
    ensures run(n + 5).regs == arch(k + 1).regs
    ensures run(n + 5).mem == arch(if Issues(mode, run(n)) then k + 2 else k + 1).mem
  {
    hide LoopRun, Comparable, SeqEnds, Issued, Issues, LeadsBack, HoldsControlFlow;
    n := LoopTerminates(d, mode, t, jt, run, arch, halted, kk);
    IssuedAtEnd(d, mode, t, jt, run, arch, halted, kk, n);
    RunMeans(d, mode, t, jt, run, arch, halted, kk);
    assert Issued(mode, run, n) == k;
    FewerSteps(d, mode, t, jt, run, arch, kk + 3, k + 2);
    assert !halted(arch(k + 1).pc) by { BackMeans(d, t, arch, halted, k); }
    CutOffLeaves(d, mode, t, jt, run, arch, halted, n);
  }

  lemma BackMeans<V, M, P>(d: Datapath<V, M, P>, t: Text<V>, arch: SeqRun<V, M>, halted: V -> bool, k: nat)
    requires LeadsBack(d, t, arch, halted, k)
    ensures !halted(arch(k + 1).pc)
  {
  }

  /** There is a first instruction that leads back if there is one at all. */
  lemma {:induction false} FindBack<V, M, P>(
    d: Datapath<V, M, P>, t: Text<V>, arch: SeqRun<V, M>, halted: V -> bool, kk: nat) returns (k: nat)
    ensures k <= kk && (NeverBack(d, t, arch, halted, kk) <==> k == kk)
    ensures k < kk ==> FirstBack(d, t, arch, halted, k)
  {
    hide LeadsBack;
    if kk == 0 {
      k := 0;
    } else {
      k := FindBack(d, t, arch, halted, kk - 1);
      if k == kk - 1 && !LeadsBack(d, t, arch, halted, k) { k := kk; }
    }
  }

  /** With forwarding, every program whose sequential run ends: the main loop ends, having issued all of
      it but at most its last instruction exactly if no instruction at the end of the program leads back.
      Then the run leaves the sequential result; otherwise it is cut off behind the first that does. */
  lemma WholeProgramExactly<V(!new), M(!new), P(!new)>(
    d: Datapath<V, M, P>, mode: int, t: Text<V>, jt: V -> V, run: Run<V, M, P>, arch: SeqRun<V, M>,
    halted: V -> bool, kk: nat) returns (n: nat)
    requires LoopRun(d, mode, t, jt, run, arch, halted, kk) && mode >= 3
    ensures LoopEnds(run, halted, n) && n < 4 * (kk + 1)
    ensures kk <= Issued(mode, run, n) + 1 <==> NeverBack(d, t, arch, halted, kk)
    ensures NeverBack(d, t, arch, halted, kk) ==> run(n + 5).regs == arch(kk).regs && run(n + 5).mem == arch(kk).mem
    ensures !NeverBack(d, t, arch, halted, kk) ==>
      var k := Issued(mode, run, n);
      && FirstBack(d, t, arch, halted, k) && k + 1 < kk
      && run(n + 5).regs == arch(k + 1).regs
      && run(n + 5).mem == arch(if Issues(mode, run(n)) then k + 2 else k + 1).mem
  {
    hide *;
    var k := FindBack(d, t, arch, halted, kk);
    if k == kk {
      ReadyIs(d, mode, t, jt, run, arch, halted, kk);
      n := ForwardingRunIsSequential(d, mode, t, jt, run, arch, halted, kk);
    } else {
      n := CutOffRun(d, mode, t, jt, run, arch, halted, kk, k);
    }
    IssuedAllExactly(d, mode, t, jt, run, arch, halted, kk, n);
  }

  lemma ReadyIs<V(!new), M(!new), P(!new)>(
    d: Datapath<V, M, P>, mode: int, t: Text<V>, jt: V -> V, run: Run<V, M, P>, arch: SeqRun<V, M>,
    halted: V -> bool, kk: nat)
    requires LoopRun(d, mode, t, jt, run, arch, halted, kk) && NeverBack(d, t, arch, halted, kk)
    ensures LoopReady(d, mode, t, jt, run, arch, halted, kk)
  {
    hide LoopRun, NeverBack;
  }

  lemma IssuedAllExactly<V(!new), M(!new), P(!new)>(
    d: Datapath<V, M, P>, mode: int, t: Text<V>, jt: V -> V, run: Run<V, M, P>, arch: SeqRun<V, M>,
    halted: V -> bool, kk: nat, n: nat)
    requires LoopRun(d, mode, t, jt, run, arch, halted, kk) && LoopEnds(run, halted, n)
    ensures kk <= Issued(mode, run, n) + 1 <==> NeverBack(d, t, arch, halted, kk)
  {
    hide *;
    IssuedAtEnd(d, mode, t, jt, run, arch, halted, kk, n);
  }
}
