/** Exactly which runs of the pipeline refine the sequential machine: those in which decode never goes
    astray. Nothing is asked of branches or of where a jalr goes. */
module OnCourse {
  import opened InstructionFields
  import opened SingleCycle
  import opened Pipeline
  import opened PipelineRefinement
  import opened PipelineRuns
  import opened ControlFlow

  /** The predictor remembers targets of control-flow words only, and of branches and jal the right ones. */
  ghost predicate FixedTargetsOk<V, M, P>(d: Datapath<V, M, P>, t: Text<V>, b: Bpu<V, P>) {
    forall pc :: pc in b.btb ==>
      IsControlFlow(t.word(pc)) && (Opcode(t.word(pc)) != 0x67 ==> b.btb[pc] == d.add(pc, d.imm(t.word(pc))))
  }

  ghost predicate Sane<V(!new), M(!new), P(!new)>(d: Datapath<V, M, P>, mode: int, t: Text<V>, v: Vm<V, M, P>) {
    && WellFormed(v)
    && TextKept(d, t, v.mem) && TextKept(d, t, MemEffect(d, v.mem, v.exMem))
    && FrontEndOk(d, mode, t, v)
    && (mode >= 5 ==> FixedTargetsOk(d, t, v.bpu))
  }

  /** Where the predictor would send a jalr. */
  ghost function Remembered<V, M, P>(d: Datapath<V, M, P>, b: Bpu<V, P>): V -> V {
    (pc: V) => if pc in b.btb then b.btb[pc] else d.zero
  }

  lemma SaneIsInv<V(!new), M(!new), P(!new)>(d: Datapath<V, M, P>, mode: int, t: Text<V>, v: Vm<V, M, P>)
    requires Sane(d, mode, t, v)
    ensures Inv(d, mode, t, Remembered(d, v.bpu), v)
  {
    hide WellFormed, TextKept, FrontEndOk, IsControlFlow;
  }

  ghost predicate Astray<V, M, P>(d: Datapath<V, M, P>, mode: int, v: Vm<V, M, P>) {
    GoesAstray(d, mode, v, Drained(d, v).regs)
  }

  lemma FetchedHere<V(!new), M(!new), P(!new)>(d: Datapath<V, M, P>, mode: int, t: Text<V>, v: Vm<V, M, P>)
    requires Sane(d, mode, t, v) && Issues(mode, v) && TextKept(d, t, Drained(d, v).mem)
    ensures d.fetch(Drained(d, v).mem, Drained(d, v).pc) == v.ifId.inst == t.word(Drained(d, v).pc)
  {
    hide Execute, MemLatch, MemEffect, WriteBack, WellFormed, FixedTargetsOk;
  }

  lemma DrainedAddress<V, M, P>(d: Datapath<V, M, P>, v: Vm<V, M, P>)
    ensures Drained(d, v).pc == PcOf(v)
  {
  }

  lemma ExactIsInteger(inst: bv32)
    requires ExactWord(inst)
    ensures IntegerOpcode(Opcode(inst)) && !ReusesOldResult(inst)
  {
  }

  /** A tick in which an exact word issues is a step of the sequential machine exactly if it does not go
      astray. */
  lemma TickExactly<V(!new), M(!new), P(!new)>(d: Datapath<V, M, P>, mode: int, t: Text<V>, v: Vm<V, M, P>)
    requires Lawful(d) && mode >= 2 && Sane(d, mode, t, v) && Issues(mode, v) && ExactWord(v.ifId.inst)
    requires TextKept(d, t, Drained(d, v).mem)
    ensures Drained(d, Tick(d, mode, v)) == Step(d, Drained(d, v)) <==> !Astray(d, mode, v)
  {
    SaneIsInv(d, mode, t, v);
    SaneIsWellFormed(d, mode, t, v);
    FetchedHere(d, mode, t, v);
    ExactIsInteger(v.ifId.inst);
    DrainedAddress(d, Tick(d, mode, v));
    hide Lawful, Inv, Sane, TextKept, Drained, Tick, Issues, GoesAstray, ExactWord, IntegerOpcode, ReusesOldResult,
         ExecuteOne, WellFormed, PcOf;
    IssueExecutes(d, mode, v);
    RightAddressExactly(d, mode, t, Remembered(d, v.bpu), v);
  }

  lemma SaneIsWellFormed<V(!new), M(!new), P(!new)>(d: Datapath<V, M, P>, mode: int, t: Text<V>, v: Vm<V, M, P>)
    requires Sane(d, mode, t, v)
    ensures WellFormed(v)
  {
  }

  /** Whatever a branch or jump trains, the fixed targets stay right. */
  lemma DecodeKeepsFixedTargets<V(!new), M(!new), P(!new)>(
    d: Datapath<V, M, P>, mode: int, t: Text<V>, v: Vm<V, M, P>, regs: Regs<V>)
    requires mode >= 5 && FrontEndOk(d, mode, t, v) && FixedTargetsOk(d, t, v.bpu)
    ensures FixedTargetsOk(d, t, Decode(d, mode, v, regs).bpu)
  {
  }

  lemma TickKeepsSane<V(!new), M(!new), P(!new)>(d: Datapath<V, M, P>, mode: int, t: Text<V>, v: Vm<V, M, P>)
    requires Lawful(d) && mode >= 2 && Sane(d, mode, t, v) && TextKept(d, t, Drained(d, v).mem)
    requires t.covers(Drained(d, Tick(d, mode, v)).pc)
    ensures Sane(d, mode, t, Tick(d, mode, v))
  {
    var v' := Tick(d, mode, v);
    TickKeepsWellFormed(d, mode, v);
    if mode >= 5 { DecodeKeepsFixedTargets(d, mode, t, v, WriteBack(v.regs, v.memWb)); }
    hide WellFormed, Decode, FrontEndOk;
    assert MemEffect(d, v'.mem, v'.exMem) == Drained(d, v).mem;
    FetchKeepsFrontEnd(d, mode, t, v);
  }

  // ----- runs -----

  /** In front of this instruction the program is in place, and its word is exact. */
  ghost predicate Proper<V(!new), M(!new), P(!new)>(d: Datapath<V, M, P>, t: Text<V>, s: Arch<V, M>) {
    t.covers(s.pc) && TextKept(d, t, s.mem) && ExactWord(t.word(s.pc))
  }

  ghost predicate ProperUpTo<V(!new), M(!new), P(!new)>(d: Datapath<V, M, P>, t: Text<V>, arch: SeqRun<V, M>, m: nat) {
    forall k: nat {:trigger arch(k)} :: k <= m ==> Proper(d, t, arch(k))
  }

  ghost predicate SideBySide<V(!new), M(!new), P(!new)>(
    d: Datapath<V, M, P>, mode: int, t: Text<V>, run: Run<V, M, P>, arch: SeqRun<V, M>, m: nat)
  {
    && Lawful(d) && mode >= 2
    && IsRun(d, mode, run) && IsSeqRun(d, arch)
    && Sane(d, mode, t, run(0)) && Drained(d, run(0)) == arch(0)
    && ProperUpTo(d, t, arch, m)
  }

  /** No instruction that issued in the first n ticks went astray. */
  ghost predicate StaysOnCourse<V, M, P>(d: Datapath<V, M, P>, mode: int, run: Run<V, M, P>, n: nat) {
    forall i: nat {:trigger run(i)} :: i < n && Issues(mode, run(i)) ==> !Astray(d, mode, run(i))
  }

  ghost predicate Agrees<V, M, P>(d: Datapath<V, M, P>, mode: int, run: Run<V, M, P>, arch: SeqRun<V, M>, i: nat) {
    Drained(d, run(i)) == arch(Issued(mode, run, i))
  }

  /** The pipeline and the sequential machine agree after each of the first n ticks. */
  ghost predicate AgreesUpTo<V, M, P>(
    d: Datapath<V, M, P>, mode: int, run: Run<V, M, P>, arch: SeqRun<V, M>, n: nat)
  {
    forall i: nat :: i <= n ==> Agrees(d, mode, run, arch, i)
  }

  lemma ProperAt<V(!new), M(!new), P(!new)>(
    d: Datapath<V, M, P>, mode: int, t: Text<V>, run: Run<V, M, P>, arch: SeqRun<V, M>, m: nat, k: nat, n: nat)
    requires SideBySide(d, mode, t, run, arch, m) && k <= m
    ensures Proper(d, t, arch(k)) && Lawful(d) && mode >= 2
    ensures run(n + 1) == Tick(d, mode, run(n)) && arch(k + 1) == Step(d, arch(k))
  {
    hide Proper, Lawful, Sane, Drained, Tick, Step;
    assert Ticks(d, mode, run, n) && Steps(d, arch, k);
  }

  lemma OneTick<V(!new), M(!new), P(!new)>(
    d: Datapath<V, M, P>, mode: int, t: Text<V>, v: Vm<V, M, P>, s: Arch<V, M>)
    requires Lawful(d) && mode >= 2 && Sane(d, mode, t, v) && Drained(d, v) == s && Proper(d, t, s)
    ensures
      var s' := if Issues(mode, v) then Step(d, s) else s;
      && (Drained(d, Tick(d, mode, v)) == s' <==> (Issues(mode, v) ==> !Astray(d, mode, v)))
      && (Drained(d, Tick(d, mode, v)) == s' && Proper(d, t, s') ==> Sane(d, mode, t, Tick(d, mode, v)))
  {
    hide Lawful, Sane, Drained, Tick, Step, Issues, Astray, TextKept, ExactWord;
    if Issues(mode, v) {
      FetchedHere(d, mode, t, v);
      TickExactly(d, mode, t, v);
    } else {
      NothingIssued(d, mode, v);
    }
    if t.covers(Drained(d, Tick(d, mode, v)).pc) { TickKeepsSane(d, mode, t, v); }
  }

  /** One more tick, from a state in which the machines agree. */
  lemma NextTick<V(!new), M(!new), P(!new)>(
    d: Datapath<V, M, P>, mode: int, t: Text<V>, run: Run<V, M, P>, arch: SeqRun<V, M>, m: nat, n: nat)
    requires SideBySide(d, mode, t, run, arch, m) && Issued(mode, run, n + 1) <= m
    requires Sane(d, mode, t, run(n)) && Agrees(d, mode, run, arch, n)
    ensures Agrees(d, mode, run, arch, n + 1) <==> (Issues(mode, run(n)) ==> !Astray(d, mode, run(n)))
    ensures Agrees(d, mode, run, arch, n + 1) ==> Sane(d, mode, t, run(n + 1))
  {
    hide SideBySide, Issued, Lawful, Sane, Drained, Tick, Step, Issues, Astray, Proper;
    var k := Issued(mode, run, n);
    IssuedNext(mode, run, n);
    ProperAt(d, mode, t, run, arch, m, k, n);
    ProperAt(d, mode, t, run, arch, m, Issued(mode, run, n + 1), n);
    OneTick(d, mode, t, run(n), arch(k));
  }

  lemma AgreesAtFirst<V(!new), M(!new), P(!new)>(
    d: Datapath<V, M, P>, mode: int, t: Text<V>, run: Run<V, M, P>, arch: SeqRun<V, M>, m: nat)
    requires SideBySide(d, mode, t, run, arch, m)
    ensures Agrees(d, mode, run, arch, 0) && Sane(d, mode, t, run(0))
  {
    hide Lawful, Sane, Drained, Proper;
  }

  /** A run agrees with the sequential machine, tick for tick, exactly as long as it stays on course. */
  lemma {:induction false} RunRefinesExactly<V(!new), M(!new), P(!new)>(
    d: Datapath<V, M, P>, mode: int, t: Text<V>, run: Run<V, M, P>, arch: SeqRun<V, M>, m: nat, n: nat)
    requires SideBySide(d, mode, t, run, arch, m) && Issued(mode, run, n) <= m
    ensures AgreesUpTo(d, mode, run, arch, n) <==> StaysOnCourse(d, mode, run, n)
    ensures AgreesUpTo(d, mode, run, arch, n) ==> Sane(d, mode, t, run(n))
  {
    hide SideBySide, Issued, Sane, Issues, Astray, Agrees;
    if n == 0 {
      AgreesAtFirst(d, mode, t, run, arch, m);
    } else {
      IssuedGrows(mode, run, n - 1, n);
      RunRefinesExactly(d, mode, t, run, arch, m, n - 1);
      if AgreesUpTo(d, mode, run, arch, n - 1) {
        assert Agrees(d, mode, run, arch, n - 1);
        NextTick(d, mode, t, run, arch, m, n - 1);
      }
    }
  }

  /** Then the register file and memory are the sequential ones, three and two ticks late. */
  lemma FilesOnCourse<V(!new), M(!new), P(!new)>(
    d: Datapath<V, M, P>, mode: int, t: Text<V>, run: Run<V, M, P>, arch: SeqRun<V, M>, m: nat, n: nat)
    requires SideBySide(d, mode, t, run, arch, m) && Issued(mode, run, n) <= m && StaysOnCourse(d, mode, run, n)
    ensures run(n + 3).regs == arch(Issued(mode, run, n)).regs
    ensures run(n + 2).mem == arch(Issued(mode, run, n)).mem
  {
    hide Proper, Lawful, Sane, Drained, Issued, Issues, Astray;
    RunRefinesExactly(d, mode, t, run, arch, m, n);
    assert Agrees(d, mode, run, arch, n);
    DrainedIsWhatRetires(d, mode, run, n);
  }

  /** In mode 4 every run does. */
  lemma NeverAstray<V(!new), M(!new), P(!new)>(
    d: Datapath<V, M, P>, t: Text<V>, run: Run<V, M, P>, arch: SeqRun<V, M>, m: nat, n: nat)
    requires SideBySide(d, 4, t, run, arch, m) && Issued(4, run, n) <= m
    ensures AgreesUpTo(d, 4, run, arch, n)
  {
    forall i: nat | i < n && Issues(4, run(i))
      ensures !Astray(d, 4, run(i))
    {
    }
    hide SideBySide, Issued, Issues, Astray, AgreesUpTo;
    RunRefinesExactly(d, 4, t, run, arch, m, n);
  }

  // ----- without prediction -----

  /** A conditional branch of the sequential run that does not go on behind itself. */
  ghost predicate BranchesAway<V, M, P>(d: Datapath<V, M, P>, t: Text<V>, arch: SeqRun<V, M>, k: nat) {
    Opcode(t.word(arch(k).pc)) == 0x63 && arch(k + 1).pc != d.next(arch(k).pc)
  }

  lemma AstrayIsAway<V(!new), M(!new), P(!new)>(
    d: Datapath<V, M, P>, mode: int, t: Text<V>, run: Run<V, M, P>, arch: SeqRun<V, M>, m: nat, n: nat)
    requires SideBySide(d, mode, t, run, arch, m) && mode < 4 && Issued(mode, run, n) <= m
    requires Sane(d, mode, t, run(n)) && Agrees(d, mode, run, arch, n) && Issues(mode, run(n))
    ensures Astray(d, mode, run(n)) <==> BranchesAway(d, t, arch, Issued(mode, run, n))
  {
    var v, k := run(n), Issued(mode, run, n);
    hide SideBySide, Issued, Sane, Tick, Issues, TextKept;
    ProperAt(d, mode, t, run, arch, m, k, n);
    FetchedHere(d, mode, t, v);
    DrainedAddress(d, v);
    NoIssue(mode, v);
    hide Drained, Lawful, ExecuteOne;
    ExactIsInteger(v.ifId.inst);
    hide ExactWord, IntegerOpcode, ReusesOldResult;
    ExecuteOnePc(d, v.ifId.inst, arch(k));
  }

  lemma NoIssue<V, M, P>(mode: int, v: Vm<V, M, P>)
    ensures !v.ifId.valid ==> !Issues(mode, v)
  {
  }

  /** In modes 2 and 3 the sequential run alone decides: the machines agree exactly as long as none of the
      instructions issued is a branch that does not go on behind itself. */
  lemma {:induction false} WithoutPredictionExactly<V(!new), M(!new), P(!new)>(
    d: Datapath<V, M, P>, mode: int, t: Text<V>, run: Run<V, M, P>, arch: SeqRun<V, M>, m: nat, n: nat)
    requires SideBySide(d, mode, t, run, arch, m) && mode < 4 && Issued(mode, run, n) <= m
    ensures AgreesUpTo(d, mode, run, arch, n) <==>
      forall k: nat :: k < Issued(mode, run, n) ==> !BranchesAway(d, t, arch, k)
  {
    hide SideBySide, Sane, Issues, Astray, Agrees, BranchesAway;
    if n == 0 {
      AgreesAtFirst(d, mode, t, run, arch, m);
    } else {
      IssuedGrows(mode, run, n - 1, n);
      WithoutPredictionExactly(d, mode, t, run, arch, m, n - 1);
      RunRefinesExactly(d, mode, t, run, arch, m, n - 1);
      hide Issued, StaysOnCourse;
      IssuedNext(mode, run, n - 1);
      if AgreesUpTo(d, mode, run, arch, n - 1) {
        assert Agrees(d, mode, run, arch, n - 1);
        NextTick(d, mode, t, run, arch, m, n - 1);
        if Issues(mode, run(n - 1)) { AstrayIsAway(d, mode, t, run, arch, m, n - 1); }
      }
    }
  }
}
