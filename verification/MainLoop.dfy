/** The main loop: it ticks until the program counter has passed the program. Says that it ends, and what
    has issued by then. */
module MainLoop {
  import opened InstructionFields
  import opened HazardUnit
  import opened SingleCycle
  import opened Pipeline
  import opened PipelineRefinement
  import opened PipelineRuns
  import opened ControlFlow

  ghost predicate Running<V, M, P>(run: Run<V, M, P>, halted: V -> bool, n: nat) {
    forall k: nat {:trigger run(k)} :: k < n ==> !halted(run(k).pc)
  }

  /** The main loop ends after n ticks. */
  ghost predicate LoopEnds<V, M, P>(run: Run<V, M, P>, halted: V -> bool, n: nat) {
    Running(run, halted, n) && halted(run(n).pc)
  }

  /** The sequential machine leaves the program after kk instructions and finds zero words there. */
  ghost predicate SeqEnds<V, M>(t: Text<V>, arch: SeqRun<V, M>, halted: V -> bool, kk: nat) {
    && (forall k: nat {:trigger arch(k)} :: k < kk ==> !halted(arch(k).pc))
    && (forall k: nat {:trigger arch(k)} :: kk <= k <= kk + 3 ==> halted(arch(k).pc) && t.word(arch(k).pc) == 0)
  }

  /** No target is remembered for an instruction of the program. */
  ghost predicate Untrained<V, M, P>(b: Bpu<V, P>, arch: SeqRun<V, M>, kk: nat) {
    forall k: nat {:trigger arch(k)} :: k < kk ==> arch(k).pc !in b.btb
  }

  /** What the loop needs: comparable runs, the sequential one of which ends, and a pipeline that starts
      with empty latches and an untrained predictor. */
  ghost predicate LoopRun<V(!new), M(!new), P(!new)>(
    d: Datapath<V, M, P>, mode: int, t: Text<V>, jt: V -> V, run: Run<V, M, P>, arch: SeqRun<V, M>,
    halted: V -> bool, kk: nat)
  {
    && Comparable(d, mode, t, jt, run, arch, kk + 3)
    && !run(0).ifId.valid
    && (mode >= 5 ==> Untrained(run(0).bpu, arch, kk))
    && SeqEnds(t, arch, halted, kk)
  }

  lemma RunMeans<V(!new), M(!new), P(!new)>(
    d: Datapath<V, M, P>, mode: int, t: Text<V>, jt: V -> V, run: Run<V, M, P>, arch: SeqRun<V, M>,
    halted: V -> bool, kk: nat)
    requires LoopRun(d, mode, t, jt, run, arch, halted, kk)
    ensures Comparable(d, mode, t, jt, run, arch, kk + 3) && SeqEnds(t, arch, halted, kk) && mode >= 2
  {
    hide SeqEnds, Inv, GoodUpTo, Lawful, Drained;
  }

  // ----- inside the program -----

  /** A word in IF/ID during the main loop was fetched from inside the program. */
  ghost predicate FetchedInside<V, M, P>(v: Vm<V, M, P>, halted: V -> bool) {
    v.ifId.valid ==> !halted(v.ifId.pc)
  }

  lemma TickFetchesInside<V, M, P>(d: Datapath<V, M, P>, mode: int, v: Vm<V, M, P>, halted: V -> bool)
    requires FetchedInside(v, halted) && !halted(v.pc)
    ensures FetchedInside(Tick(d, mode, v), halted)
  {
    hide Execute, MemLatch, MemEffect, WriteBack, ControlSignals, ComputeSignals;
  }

  /** During the main loop every issued instruction lies inside the program. */
  lemma {:induction false} LoopStaysInside<V(!new), M(!new), P(!new)>(
    d: Datapath<V, M, P>, mode: int, t: Text<V>, jt: V -> V, run: Run<V, M, P>, arch: SeqRun<V, M>,
    halted: V -> bool, kk: nat, i: nat)
    requires LoopRun(d, mode, t, jt, run, arch, halted, kk) && Running(run, halted, i)
    ensures FetchedInside(run(i), halted)
    ensures Issued(mode, run, i) <= kk
  {
    hide Comparable, Inv, Tick, Issues, Drained, SeqEnds, Untrained;
    if i == 0 {
      assert FetchedInside(run(0), halted);
    } else {
      LoopStaysInside(d, mode, t, jt, run, arch, halted, kk, i - 1);
      RunRefines(d, mode, t, jt, run, arch, kk + 3, i - 1);
      RunTicks(d, mode, t, jt, run, arch, kk + 3, i - 1);
      TickFetchesInside(d, mode, run(i - 1), halted);
      if Issues(mode, run(i - 1)) {
        InsideBeforeEnd(mode, t, run(i - 1), arch, halted, kk, Issued(mode, run, i - 1), d);
      }
    }
  }

  /** An instruction about to issue inside the program is not the one after the last. */
  lemma InsideBeforeEnd<V, M, P>(mode: int, t: Text<V>, u: Vm<V, M, P>, arch: SeqRun<V, M>,
                                 halted: V -> bool, kk: nat, k: nat, d: Datapath<V, M, P>)
    requires SeqEnds(t, arch, halted, kk) && FetchedInside(u, halted) && k <= kk
    requires Drained(d, u) == arch(k) && Issues(mode, u)
    ensures k < kk
  {
    hide Execute, MemLatch, MemEffect, WriteBack, Stalls;
    assert halted(arch(kk).pc);
  }

  lemma DrainedPc<V, M, P>(d: Datapath<V, M, P>, v: Vm<V, M, P>)
    ensures Drained(d, v).pc == if v.ifId.valid then v.ifId.pc else v.pc
  {
  }

  // ----- the loop ends -----

  lemma {:induction false} IssuesOften<V(!new), M(!new), P(!new)>(
    d: Datapath<V, M, P>, mode: int, t: Text<V>, jt: V -> V, run: Run<V, M, P>, arch: SeqRun<V, M>,
    halted: V -> bool, kk: nat, j: nat)
    requires LoopRun(d, mode, t, jt, run, arch, halted, kk) && Running(run, halted, 4 * j)
    ensures Issued(mode, run, 4 * j) >= j
  {
    hide LoopRun, Issues, Tick, Issued, FetchedInside, Comparable, SeqEnds;
    if j > 0 {
      var i := 4 * (j - 1);
      IssuesOften(d, mode, t, jt, run, arch, halted, kk, j - 1);
      RunMeans(d, mode, t, jt, run, arch, halted, kk);
      LoopStaysInside(d, mode, t, jt, run, arch, halted, kk, i);
      WellFormedAt(d, mode, t, jt, run, arch, kk + 3, i);
      SomethingIssues(d, mode, run(i));
      FourTicks(d, mode, t, jt, run, arch, kk + 3, i);
    }
  }

  lemma WellFormedAt<V(!new), M(!new), P(!new)>(
    d: Datapath<V, M, P>, mode: int, t: Text<V>, jt: V -> V, run: Run<V, M, P>, arch: SeqRun<V, M>, m: nat, i: nat)
    requires Comparable(d, mode, t, jt, run, arch, m) && Issued(mode, run, i) <= m
    ensures WellFormed(run(i))
  {
    hide Comparable, WellFormed, TextKept, FrontEndOk, TargetsOk, Drained;
    RunRefines(d, mode, t, jt, run, arch, m, i);
  }

  lemma FourTicks<V(!new), M(!new), P(!new)>(
    d: Datapath<V, M, P>, mode: int, t: Text<V>, jt: V -> V, run: Run<V, M, P>, arch: SeqRun<V, M>, m: nat, i: nat)
    requires Comparable(d, mode, t, jt, run, arch, m)
    requires
      var v1 := Tick(d, mode, run(i));
      var v2 := Tick(d, mode, v1);
      Issues(mode, run(i)) || Issues(mode, v1) || Issues(mode, v2) || Issues(mode, Tick(d, mode, v2))
    ensures Issued(mode, run, i + 4) > Issued(mode, run, i)
  {
    hide Comparable, Tick, Issues, Issued;
    RunTicks(d, mode, t, jt, run, arch, m, i);
    RunTicks(d, mode, t, jt, run, arch, m, i + 1);
    RunTicks(d, mode, t, jt, run, arch, m, i + 2);
    IssuedNext(mode, run, i);
    IssuedNext(mode, run, i + 1);
    IssuedNext(mode, run, i + 2);
    IssuedNext(mode, run, i + 3);
  }

  /** The first of some ticks at which the program counter is past the program, if there is one. */
  lemma {:induction false} FirstHalt<V, M, P>(run: Run<V, M, P>, halted: V -> bool, m: nat) returns (n: nat)
    ensures n <= m && Running(run, halted, n)
    ensures n < m ==> halted(run(n).pc)
  {
    if m == 0 {
      n := 0;
    } else {
      n := FirstHalt(run, halted, m - 1);
      if n == m - 1 && !halted(run(n).pc) { n := m; }
    }
  }

  /** If the sequential machine leaves the program after kk instructions, the main loop ends within four
      ticks for each of them and four more. */
  lemma LoopTerminates<V(!new), M(!new), P(!new)>(
    d: Datapath<V, M, P>, mode: int, t: Text<V>, jt: V -> V, run: Run<V, M, P>, arch: SeqRun<V, M>,
    halted: V -> bool, kk: nat) returns (n: nat)
    requires LoopRun(d, mode, t, jt, run, arch, halted, kk)
    ensures LoopEnds(run, halted, n) && n < 4 * (kk + 1)
  {
    hide LoopRun, Running, Issued;
    n := FirstHalt(run, halted, 4 * (kk + 1));
    if n == 4 * (kk + 1) {
      IssuesOften(d, mode, t, jt, run, arch, halted, kk, kk + 1);
      LoopStaysInside(d, mode, t, jt, run, arch, halted, kk, n);
      assert false;
    }
  }

  lemma LoopEndsOnce<V, M, P>(run: Run<V, M, P>, halted: V -> bool, m: nat, n: nat)
    requires LoopEnds(run, halted, m) && LoopEnds(run, halted, n)
    ensures m == n
  {
  }

  // ----- what is in decode -----

  /** What is in decode during the main loop is the next instruction of the sequential run. */
  lemma HeldIsNext<V(!new), M(!new), P(!new)>(
    d: Datapath<V, M, P>, mode: int, t: Text<V>, jt: V -> V, run: Run<V, M, P>, arch: SeqRun<V, M>,
    halted: V -> bool, kk: nat, i: nat)
    requires LoopRun(d, mode, t, jt, run, arch, halted, kk) && Running(run, halted, i) && run(i).ifId.valid
    ensures
      var k, v := Issued(mode, run, i), run(i);
      && k < kk && arch(k).pc == v.ifId.pc && t.word(arch(k).pc) == v.ifId.inst
      && Inv(d, mode, t, jt, v) && Drained(d, v) == arch(k)
      && (if v.ifId.predictedTaken then mode >= 5 && v.ifId.pc in v.bpu.btb && v.bpu.btb[v.ifId.pc] == v.pc
          else v.pc == d.next(arch(k).pc))
  {
    var v := run(i);
    RunMeans(d, mode, t, jt, run, arch, halted, kk);
    LoopStaysInside(d, mode, t, jt, run, arch, halted, kk, i);
    hide LoopRun, Comparable, Issued, Drained, TextKept, WellFormed, TargetsOk;
    RunRefines(d, mode, t, jt, run, arch, kk + 3, i);
    DrainedPc(d, v);
    assert halted(arch(kk).pc);
  }

  /** The tick at which instruction k issues. */
  lemma {:induction false} IssueTick<V, M, P>(mode: int, run: Run<V, M, P>, k: nat, n: nat) returns (i: nat)
    requires k < Issued(mode, run, n)
    ensures i < n && Issued(mode, run, i) == k && Issues(mode, run(i))
  {
    hide Issues;
    if k < Issued(mode, run, n - 1) {
      i := IssueTick(mode, run, k, n - 1);
    } else {
      i := n - 1;
    }
  }

  // ----- what the predictor remembers -----

  ghost predicate Went<V, M>(arch: SeqRun<V, M>, j: nat, pc: V, target: V) {
    arch(j).pc == pc && arch(j + 1).pc == target
  }

  /** Every remembered target, but for those remembered at first, is one an earlier instruction went to. */
  ghost predicate WentThere<V, M, P>(b: Bpu<V, P>, first: Bpu<V, P>, arch: SeqRun<V, M>, k: nat) {
    forall pc :: pc in b.btb ==> pc in first.btb || exists j: nat :: j < k && Went(arch, j, pc, b.btb[pc])
  }

  /** Only a branch or jump that issues is remembered, with the address it goes to. */
  lemma TickRemembers<V, M, P>(d: Datapath<V, M, P>, mode: int, v: Vm<V, M, P>)
    ensures
      var b, b' := v.bpu.btb, Tick(d, mode, v).bpu.btb;
      || b' == b
      || (Issues(mode, v) && b' == b[v.ifId.pc := NextPc(d, v.ifId.inst, v.ifId.pc, WriteBack(v.regs, v.memWb))])
  {
    hide Execute, MemLatch, MemEffect, WriteBack, ControlSignals, ComputeSignals;
  }

  lemma NextPcIsSequential<V(!new), M(!new), P(!new)>(
    d: Datapath<V, M, P>, mode: int, t: Text<V>, jt: V -> V, v: Vm<V, M, P>)
    requires Lawful(d) && mode >= 2 && Inv(d, mode, t, jt, v) && Good(d, mode, t, jt, Drained(d, v)) && Issues(mode, v)
    ensures NextPc(d, v.ifId.inst, v.ifId.pc, WriteBack(v.regs, v.memWb)) == Step(d, Drained(d, v)).pc
    ensures Drained(d, v).pc == v.ifId.pc
  {
    var inst, s := v.ifId.inst, Drained(d, v);
    assert d.fetch(s.mem, s.pc) == inst && s.pc == v.ifId.pc && WellFormed(v) && !Stalls(mode, v);
    assert IntegerOpcode(Opcode(inst)) && !ReusesOldResult(inst);
    hide Drained, Inv, Good, NextPc, GoesAstray, IntegerOpcode, ReusesOldResult, Lawful, WriteBack, ExecuteOne,
         WellFormed, Stalls, Issues, Opcode;
    ExecuteOnePc(d, inst, s);
    OperandsAreCurrent(d, mode, v);
    SameOperandsSameWay(d, mode, v, WriteBack(v.regs, v.memWb), s.regs);
  }

  lemma OneMoreWent<V, M, P>(b: Bpu<V, P>, b': Bpu<V, P>, first: Bpu<V, P>, arch: SeqRun<V, M>, k: nat, pc: V)
    requires WentThere(b, first, arch, k)
    requires b'.btb == b.btb || (b'.btb == b.btb[pc := arch(k + 1).pc] && arch(k).pc == pc)
    ensures WentThere(b', first, arch, k + 1)
    ensures b'.btb == b.btb ==> WentThere(b', first, arch, k)
  {
    forall q | q in b'.btb && q !in first.btb
      ensures exists j: nat :: j < k + 1 && Went(arch, j, q, b'.btb[q])
    {
      if b'.btb != b.btb && q == pc {
        assert Went(arch, k, q, b'.btb[q]);
      } else {
        assert q in b.btb;
      }
    }
    if b'.btb == b.btb {
      forall q | q in b'.btb && q !in first.btb
        ensures exists j: nat :: j < k && Went(arch, j, q, b'.btb[q])
      {
        assert q in b.btb;
      }
    }
  }

  lemma {:induction false} RemembersWhatWent<V(!new), M(!new), P(!new)>(
    d: Datapath<V, M, P>, mode: int, t: Text<V>, jt: V -> V, run: Run<V, M, P>, arch: SeqRun<V, M>, m: nat, i: nat)
    requires Comparable(d, mode, t, jt, run, arch, m) && Issued(mode, run, i) <= m
    ensures WentThere(run(i).bpu, run(0).bpu, arch, Issued(mode, run, i))
  {
    hide Comparable, Inv, Good, Drained, Tick, Issues, Issued, NextPc, Step, Lawful, WriteBack;
    if i == 0 {
    } else {
      hide WentThere;
      var v, k := run(i - 1), Issued(mode, run, i - 1);
      IssuedNext(mode, run, i - 1);
      RemembersWhatWent(d, mode, t, jt, run, arch, m, i - 1);
      RunTicks(d, mode, t, jt, run, arch, m, i - 1);
      TickRemembers(d, mode, v);
      if Issues(mode, v) {
        GoodStep(d, mode, t, jt, run, arch, m, k);
        RunRefines(d, mode, t, jt, run, arch, m, i - 1);
        NextPcIsSequential(d, mode, t, jt, v);
      }
      OneMoreWent(v.bpu, run(i).bpu, run(0).bpu, arch, k, v.ifId.pc);
    }
  }

  lemma GoodStep<V(!new), M(!new), P(!new)>(
    d: Datapath<V, M, P>, mode: int, t: Text<V>, jt: V -> V, run: Run<V, M, P>, arch: SeqRun<V, M>, m: nat, k: nat)
    requires Comparable(d, mode, t, jt, run, arch, m) && k <= m
    ensures Lawful(d) && mode >= 2 && Good(d, mode, t, jt, arch(k)) && arch(k + 1) == Step(d, arch(k))
  {
    hide Inv, Good, Lawful, Drained, Step;
    assert Steps(d, arch, k);
  }

  /** A prediction followed during the main loop goes where an earlier instruction went from the same
      place. */
  lemma PredictionRepeats<V(!new), M(!new), P(!new)>(
    d: Datapath<V, M, P>, mode: int, t: Text<V>, jt: V -> V, run: Run<V, M, P>, arch: SeqRun<V, M>,
    halted: V -> bool, kk: nat, i: nat) returns (j: nat)
    requires LoopRun(d, mode, t, jt, run, arch, halted, kk) && Running(run, halted, i)
    requires run(i).ifId.valid && run(i).ifId.predictedTaken
    ensures j < Issued(mode, run, i) < kk
    ensures arch(j).pc == arch(Issued(mode, run, i)).pc && arch(j + 1).pc == run(i).pc && !halted(run(i).pc)
  {
    HeldIsNext(d, mode, t, jt, run, arch, halted, kk, i);
    assert Untrained(run(0).bpu, arch, kk);
    RunMeans(d, mode, t, jt, run, arch, halted, kk);
    hide LoopRun, Comparable, Inv, Issued, Drained;
    var k, v := Issued(mode, run, i), run(i);
    RemembersWhatWent(d, mode, t, jt, run, arch, kk + 3, i);
    assert arch(k).pc !in run(0).bpu.btb;
    j :| j < k && Went(arch, j, v.ifId.pc, v.bpu.btb[v.ifId.pc]);
  }

  // ----- branches that lead back -----

  /** Instruction k lies at the end of the program, and goes back into it. */
  ghost predicate LeadsBack<V, M, P>(
    d: Datapath<V, M, P>, t: Text<V>, arch: SeqRun<V, M>, halted: V -> bool, k: nat)
  {
    IsControlFlow(t.word(arch(k).pc)) && halted(d.next(arch(k).pc)) && !halted(arch(k + 1).pc)
  }

  /** No instruction of the program does. */
  ghost predicate NeverBack<V, M, P>(
    d: Datapath<V, M, P>, t: Text<V>, arch: SeqRun<V, M>, halted: V -> bool, kk: nat)
  {
    forall k: nat :: k < kk ==> !LeadsBack(d, t, arch, halted, k)
  }

  /** A branch or jump that is in decode. */
  predicate HoldsControlFlow<V, M, P>(v: Vm<V, M, P>) { v.ifId.valid && IsControlFlow(v.ifId.inst) }

  /** None of the instructions issued during the main loop leads back: it would have ended the loop. */
  lemma {:induction false} NoneIssuedBack<V(!new), M(!new), P(!new)>(
    d: Datapath<V, M, P>, mode: int, t: Text<V>, jt: V -> V, run: Run<V, M, P>, arch: SeqRun<V, M>,
    halted: V -> bool, kk: nat, n: nat, k: nat)
    requires LoopRun(d, mode, t, jt, run, arch, halted, kk) && Running(run, halted, n) && k < Issued(mode, run, n)
    ensures !LeadsBack(d, t, arch, halted, k)
    decreases k
  {
    hide LoopRun, Issued, Inv, Drained, IsControlFlow;
    var i := IssueTick(mode, run, k, n);
    NoIssue(mode, run(i));
    hide Issues;
    HeldIsNext(d, mode, t, jt, run, arch, halted, kk, i);
    if run(i).ifId.predictedTaken {
      var j := PredictionRepeats(d, mode, t, jt, run, arch, halted, kk, i);
      NoneIssuedBack(d, mode, t, jt, run, arch, halted, kk, n, j);
    }
  }

  lemma NoIssue<V, M, P>(mode: int, v: Vm<V, M, P>)
    ensures !v.ifId.valid ==> !Issues(mode, v)
  {
  }

  /** A branch or jump in decode when the main loop ends was fetched without a prediction, from the end
      of the program. */
  lemma HeldAtEnd<V(!new), M(!new), P(!new)>(
    d: Datapath<V, M, P>, mode: int, t: Text<V>, jt: V -> V, run: Run<V, M, P>, arch: SeqRun<V, M>,
    halted: V -> bool, kk: nat, n: nat)
    requires LoopRun(d, mode, t, jt, run, arch, halted, kk) && LoopEnds(run, halted, n) && run(n).ifId.valid
    ensures
      var k := Issued(mode, run, n);
      && k < kk && run(n).pc == d.next(arch(k).pc) && halted(d.next(arch(k).pc))
      && t.word(arch(k).pc) == run(n).ifId.inst && arch(k).pc == run(n).ifId.pc
      && (LeadsBack(d, t, arch, halted, k) <==> HoldsControlFlow(run(n)) && !halted(arch(k + 1).pc))
  {
    hide LoopRun, Issued, Inv, Drained, IsControlFlow;
    HeldIsNext(d, mode, t, jt, run, arch, halted, kk, n);
    if run(n).ifId.predictedTaken {
      var j := PredictionRepeats(d, mode, t, jt, run, arch, halted, kk, n);
    }
  }

  lemma NextIsFollowing<V(!new), M(!new), P(!new)>(
    d: Datapath<V, M, P>, mode: int, t: Text<V>, jt: V -> V, v: Vm<V, M, P>)
    requires Inv(d, mode, t, jt, v) && v.ifId.valid && !IsControlFlow(v.ifId.inst)
    requires Good(d, mode, t, jt, Drained(d, v)) && Lawful(d)
    ensures v.pc == Step(d, Drained(d, v)).pc && Drained(d, v).pc == v.ifId.pc
  {
    hide Execute, MemLatch, MemEffect, WriteBack, ExactWord, Lawful;
    var s := Drained(d, v);
    assert d.fetch(s.mem, s.pc) == v.ifId.inst;
  }

  /** What the main loop has issued when it ends: everything except possibly the last instruction, if
      no instruction leads back, and otherwise everything in front of the first that does. */
  lemma IssuedAtEnd<V(!new), M(!new), P(!new)>(
    d: Datapath<V, M, P>, mode: int, t: Text<V>, jt: V -> V, run: Run<V, M, P>, arch: SeqRun<V, M>,
    halted: V -> bool, kk: nat, n: nat)
    requires LoopRun(d, mode, t, jt, run, arch, halted, kk) && LoopEnds(run, halted, n)
    ensures
      var k := Issued(mode, run, n);
      && (kk <= k + 1 <==> NeverBack(d, t, arch, halted, kk))
      && (kk <= k + 1 ==> k == if run(n).ifId.valid then kk - 1 else kk)
      && (kk > k + 1 ==> LeadsBack(d, t, arch, halted, k) && HoldsControlFlow(run(n)))
      && (forall j: nat :: j < k ==> !LeadsBack(d, t, arch, halted, j))
  {
    var v, k := run(n), Issued(mode, run, n);
    RunMeans(d, mode, t, jt, run, arch, halted, kk);
    LoopStaysInside(d, mode, t, jt, run, arch, halted, kk, n);
    RunRefines(d, mode, t, jt, run, arch, kk + 3, n);
    GoodStep(d, mode, t, jt, run, arch, kk + 3, k);
    DrainedPc(d, v);
    hide LoopRun, Comparable, Inv, Good, Drained, Issued, IsControlFlow, Lawful, Step, Tick;
    forall j: nat | j < k
      ensures !LeadsBack(d, t, arch, halted, j)
    {
      NoneIssuedBack(d, mode, t, jt, run, arch, halted, kk, n, j);
    }
    assert halted(arch(kk).pc);
    if v.ifId.valid {
      HeldAtEnd(d, mode, t, jt, run, arch, halted, kk, n);
      if !IsControlFlow(v.ifId.inst) { NextIsFollowing(d, mode, t, jt, v); }
      assert halted(arch(k + 1).pc) <==> k + 1 >= kk;
    }
  }
}
