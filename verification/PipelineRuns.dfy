/** Whole runs of the pipeline: what the register file and memory hold after any number of
    ticks, how long an instruction can wait, and what a refused memory access leaves behind. */
module PipelineRuns {
  import opened HazardUnit
  import opened SingleCycle
  import opened Pipeline
  import opened PipelineRefinement

  /** The states of the pipeline, and of the sequential machine, one after the other. */
  type Run<V, M, P> = nat -> Vm<V, M, P>
  type SeqRun<V, M> = nat -> Arch<V, M>

  ghost predicate Ticks<V, M, P>(d: Datapath<V, M, P>, mode: int, run: Run<V, M, P>, n: nat) {
    run(n + 1) == Tick(d, mode, run(n))
  }

  ghost predicate IsRun<V, M, P>(d: Datapath<V, M, P>, mode: int, run: Run<V, M, P>) {
    forall n: nat :: Ticks(d, mode, run, n)
  }

  ghost predicate Steps<V, M, P>(d: Datapath<V, M, P>, arch: SeqRun<V, M>, n: nat) {
    arch(n + 1) == Step(d, arch(n))
  }

  ghost predicate IsSeqRun<V, M, P>(d: Datapath<V, M, P>, arch: SeqRun<V, M>) {
    forall n: nat :: Steps(d, arch, n)
  }

  /** How many of the first n ticks let an instruction leave decode. */
  ghost function Issued<V, M, P>(mode: int, run: Run<V, M, P>, n: nat): (k: nat)
    ensures k <= n
  {
    if n == 0 then 0 else Issued(mode, run, n - 1) + (if Issues(mode, run(n - 1)) then 1 else 0)
  }

  /** Every state of the sequential run up to step n suits the pipeline. */
  ghost predicate GoodUpTo<V(!new), M(!new), P(!new)>(d: Datapath<V, M, P>, mode: int, t: Text<V>, jt: V -> V,
                                                      arch: SeqRun<V, M>, n: nat) {
    forall k: nat {:trigger Good(d, mode, t, jt, arch(k))} :: k <= n ==> Good(d, mode, t, jt, arch(k))
  }

  /** Both machines start in the same place and the sequential one stays well behaved. */
  ghost predicate Comparable<V(!new), M(!new), P(!new)>(
    d: Datapath<V, M, P>, mode: int, t: Text<V>, jt: V -> V, run: Run<V, M, P>, arch: SeqRun<V, M>, n: nat)
  {
    && Lawful(d) && mode >= 2
    && IsRun(d, mode, run) && IsSeqRun(d, arch)
    && Inv(d, mode, t, jt, run(0)) && Drained(d, run(0)) == arch(0)
    && GoodUpTo(d, mode, t, jt, arch, n)
  }

  lemma RunTicks<V(!new), M(!new), P(!new)>(
    d: Datapath<V, M, P>, mode: int, t: Text<V>, jt: V -> V, run: Run<V, M, P>, arch: SeqRun<V, M>, m: nat, n: nat)
    requires Comparable(d, mode, t, jt, run, arch, m)
    ensures run(n + 1) == Tick(d, mode, run(n))
  {
    hide Inv, Good, Lawful, Drained, Tick;
    assert Ticks(d, mode, run, n);
  }

  lemma RunStep<V(!new), M(!new), P(!new)>(
    d: Datapath<V, M, P>, mode: int, t: Text<V>, jt: V -> V, u: Vm<V, M, P>, s: Arch<V, M>, s': Arch<V, M>)
    requires Lawful(d) && mode >= 2 && Inv(d, mode, t, jt, u)
    requires Drained(d, u) == s && Good(d, mode, t, jt, s) && s' == Step(d, s)
    requires Issues(mode, u) ==> Good(d, mode, t, jt, s')
    ensures Inv(d, mode, t, jt, Tick(d, mode, u))
    ensures Drained(d, Tick(d, mode, u)) == if Issues(mode, u) then s' else s
  {
    TickRefines(d, mode, t, jt, u);
  }

  lemma RunStarts<V(!new), M(!new), P(!new)>(
    d: Datapath<V, M, P>, mode: int, t: Text<V>, jt: V -> V, run: Run<V, M, P>, arch: SeqRun<V, M>, m: nat)
    requires Comparable(d, mode, t, jt, run, arch, m)
    ensures Inv(d, mode, t, jt, run(0)) && Drained(d, run(0)) == arch(Issued(mode, run, 0))
  {
  }

  lemma RunExtends<V(!new), M(!new), P(!new)>(
    d: Datapath<V, M, P>, mode: int, t: Text<V>, jt: V -> V, run: Run<V, M, P>, arch: SeqRun<V, M>, m: nat, n: nat)
    requires Comparable(d, mode, t, jt, run, arch, m) && Issued(mode, run, n + 1) <= m
    requires Inv(d, mode, t, jt, run(n)) && Drained(d, run(n)) == arch(Issued(mode, run, n))
    ensures Inv(d, mode, t, jt, run(n + 1)) && Drained(d, run(n + 1)) == arch(Issued(mode, run, n + 1))
  {
    hide Lawful, Inv, Good, Drained, Tick, Step, Issues;
    var k := Issued(mode, run, n);
    assert Ticks(d, mode, run, n) && Steps(d, arch, k);
    assert Good(d, mode, t, jt, arch(k));
    if Issues(mode, run(n)) { assert Good(d, mode, t, jt, arch(k + 1)); }
    RunStep(d, mode, t, jt, run(n), arch(k), arch(k + 1));
  }

  /** After n ticks the drained state is the sequential state after as many instructions as
      have left decode. */
  lemma {:induction false} RunRefines<V(!new), M(!new), P(!new)>(
    d: Datapath<V, M, P>, mode: int, t: Text<V>, jt: V -> V, run: Run<V, M, P>, arch: SeqRun<V, M>, m: nat, n: nat)
    requires Comparable(d, mode, t, jt, run, arch, m) && Issued(mode, run, n) <= m
    ensures Inv(d, mode, t, jt, run(n)) && Drained(d, run(n)) == arch(Issued(mode, run, n))
  {
    hide *;
    if n == 0 {
      RunStarts(d, mode, t, jt, run, arch, m);
    } else {
      IssuedGrows(mode, run, n - 1, n);
      RunRefines(d, mode, t, jt, run, arch, m, n - 1);
      RunExtends(d, mode, t, jt, run, arch, m, n - 1);
    }
  }

  lemma IssuedNext<V, M, P>(mode: int, run: Run<V, M, P>, n: nat)
    ensures Issued(mode, run, n + 1) == Issued(mode, run, n) + if Issues(mode, run(n)) then 1 else 0
  {
  }

  lemma {:induction false} IssuedGrows<V, M, P>(mode: int, run: Run<V, M, P>, m: nat, n: nat)
    requires m <= n
    ensures Issued(mode, run, m) <= Issued(mode, run, n) <= Issued(mode, run, m) + (n - m)
  {
    hide Issues;
    if m < n {
      IssuedGrows(mode, run, m, n - 1);
    }
  }

  /** Whatever the mode: two ticks on, memory is the drained memory; three ticks on, the
      register file is the drained register file. */
  lemma DrainedIsWhatRetires<V, M, P>(d: Datapath<V, M, P>, mode: int, run: Run<V, M, P>, n: nat)
    requires IsRun(d, mode, run)
    ensures run(n + 2).mem == Drained(d, run(n)).mem
    ensures run(n + 3).regs == Drained(d, run(n)).regs
  {
    assert Ticks(d, mode, run, n) && Ticks(d, mode, run, n + 1) && Ticks(d, mode, run, n + 2);
  }

  /** The register file after n + 3 ticks and the memory after n + 2 ticks are those of the
      sequential machine after the instructions issued in the first n ticks. */
  lemma RegisterFileIsSequential<V(!new), M(!new), P(!new)>(
    d: Datapath<V, M, P>, mode: int, t: Text<V>, jt: V -> V, run: Run<V, M, P>, arch: SeqRun<V, M>, m: nat, n: nat)
    requires Comparable(d, mode, t, jt, run, arch, m) && Issued(mode, run, n) <= m
    ensures run(n + 3).regs == arch(Issued(mode, run, n)).regs
    ensures run(n + 2).mem == arch(Issued(mode, run, n)).mem
  {
    hide Inv, Good, Drained, Issues;
    RunRefines(d, mode, t, jt, run, arch, m, n);
    DrainedIsWhatRetires(d, mode, run, n);
  }

  /** A refused memory access is precise: at the tick it shows, the register file is that of the
      sequential machine in front of the refused instruction. */
  lemma RefusalIsPrecise<V(!new), M(!new), P(!new)>(
    d: Datapath<V, M, P>, mode: int, t: Text<V>, jt: V -> V, run: Run<V, M, P>, arch: SeqRun<V, M>,
    refused: M -> bool, m: nat, n: nat)
    requires Comparable(d, mode, t, jt, run, arch, m) && Issued(mode, run, n + 1) <= m
    requires !refused(run(n + 2).mem) && refused(run(n + 3).mem)
    ensures
      var k := Issued(mode, run, n);
      && !refused(arch(k).mem) && refused(arch(k + 1).mem)
      && run(n + 3).regs == arch(k).regs
  {
    hide Comparable, Issues;
    RegisterFileIsSequential(d, mode, t, jt, run, arch, m, n);
    RegisterFileIsSequential(d, mode, t, jt, run, arch, m, n + 1);
  }

  // ----- how long an instruction waits -----

  /** Without forwarding an instruction waits at most twice. */
  lemma StallOnlyWaitsTwice<V, M, P>(d: Datapath<V, M, P>, v: Vm<V, M, P>)
    requires Stalls(2, v) && Stalls(2, Tick(d, 2, v))
    ensures !Stalls(2, Tick(d, 2, Tick(d, 2, v)))
  {
  }

  /** With forwarding an instruction waits at most once, a branch or jalr at most twice. */
  lemma ForwardingWaitsOnce<V, M, P>(d: Datapath<V, M, P>, mode: int, v: Vm<V, M, P>)
    requires mode >= 3 && Stalls(mode, v) && Stalls(mode, Tick(d, mode, v))
    ensures IsBranchOrJalr(v.ifId.inst) && !Stalls(mode, Tick(d, mode, Tick(d, mode, v)))
  {
  }

  /** In every run at least one of any four consecutive ticks issues an instruction. */
  lemma SomethingIssues<V, M, P>(d: Datapath<V, M, P>, mode: int, v: Vm<V, M, P>)
    requires mode >= 2 && WellFormed(v)
    ensures
      var v1 := Tick(d, mode, v);
      var v2 := Tick(d, mode, v1);
      Issues(mode, v) || Issues(mode, v1) || Issues(mode, v2) || Issues(mode, Tick(d, mode, v2))
  {
  }

  /** Three ticks with an instruction in decode issue at least one. */
  lemma IssuesWithinThree<V, M, P>(d: Datapath<V, M, P>, mode: int, v: Vm<V, M, P>)
    requires mode >= 2 && v.ifId.valid
    ensures Issues(mode, v) || Issues(mode, Tick(d, mode, v)) || Issues(mode, Tick(d, mode, Tick(d, mode, v)))
  {
    hide MemLatch, MemEffect, WriteBack, ControlSignals, UsesRs1, UsesRs2, UsesRs3;
  }

  // ----- retired instructions -----

  /** The pipeline counts an instruction as retired when it writes its register back. */
  predicate Retires<V, M, P>(v: Vm<V, M, P>) { v.memWb.valid && v.memWb.signals.regWrite }

  ghost function Retired<V, M, P>(run: Run<V, M, P>, n: nat): nat {
    if n == 0 then 0 else Retired(run, n - 1) + if Retires(run(n - 1)) then 1 else 0
  }

  /** Instructions past decode. */
  function InFlight<V, M, P>(v: Vm<V, M, P>): nat {
    (if v.idEx.valid then 1 else 0) + (if v.exMem.valid then 1 else 0) + (if v.memWb.valid then 1 else 0)
  }

  lemma TickMoves<V, M, P>(d: Datapath<V, M, P>, mode: int, v: Vm<V, M, P>)
    ensures
      var v' := Tick(d, mode, v);
      && v'.memWb.valid == v.exMem.valid && v'.exMem.valid == v.idEx.valid
      && (v'.idEx.valid ==> Issues(mode, v))
  {
  }

  /** Nothing is retired that was not issued: what has retired and what is on its way come to no more
      than what has issued and what was on its way at first. */
  lemma {:induction false} RetiredWereIssued<V, M, P>(d: Datapath<V, M, P>, mode: int, run: Run<V, M, P>, n: nat)
    requires IsRun(d, mode, run)
    ensures Retired(run, n) + InFlight(run(n)) <= Issued(mode, run, n) + InFlight(run(0))
  {
    hide Tick, Issues;
    if n > 0 {
      RetiredWereIssued(d, mode, run, n - 1);
      assert Ticks(d, mode, run, n - 1);
      TickMoves(d, mode, run(n - 1));
    }
  }
}
