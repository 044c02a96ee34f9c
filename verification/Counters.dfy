/** The two counters of the pipeline: retired instructions, and stalls. */
module Counters {
  import opened HazardUnit
  import opened SingleCycle
  import opened Pipeline
  import opened PipelineRefinement
  import opened PipelineRuns

  // ----- retired instructions -----

  /** Issues an instruction that writes a register. */
  predicate IssuesWriter<V, M, P>(mode: int, v: Vm<V, M, P>) {
    Issues(mode, v) && ControlSignals(v.ifId.inst).regWrite
  }

  lemma WriterIntoExecute<V, M, P>(d: Datapath<V, M, P>, mode: int, v: Vm<V, M, P>)
    ensures
      var x := Tick(d, mode, v).idEx;
      x.valid && x.signals.regWrite <==> IssuesWriter(mode, v)
  {
    hide Execute, MemLatch, MemEffect, WriteBack, Reads, ReadsFirstTwo;
  }

  lemma IntoWriteBack<V, M, P>(d: Datapath<V, M, P>, mode: int, v: Vm<V, M, P>)
    ensures
      var v' := Tick(d, mode, v);
      && (Retires(v') <==> v.exMem.valid && v.exMem.signals.regWrite)
      && (v'.exMem.valid && v'.exMem.signals.regWrite <==> v.idEx.valid && v.idEx.signals.regWrite)
  {
    hide MemEffect, WriteBack, ControlSignals, ComputeSignals, Decode, Operand;
  }

  /** What retires three ticks on is the writer that issues now. */
  lemma RetiresWhatIssued<V, M, P>(d: Datapath<V, M, P>, mode: int, v: Vm<V, M, P>)
    ensures Retires(Tick(d, mode, Tick(d, mode, Tick(d, mode, v)))) <==> IssuesWriter(mode, v)
  {
    hide Tick, Retires, IssuesWriter;
    var v1 := Tick(d, mode, v);
    WriterIntoExecute(d, mode, v);
    IntoWriteBack(d, mode, v1);
    IntoWriteBack(d, mode, Tick(d, mode, v1));
  }

  ghost function Writers<V, M, P>(mode: int, run: Run<V, M, P>, n: nat): nat {
    if n == 0 then 0 else Writers(mode, run, n - 1) + if IssuesWriter(mode, run(n - 1)) then 1 else 0
  }

  /** Three ticks after the n-th exactly the writers among what the first n ticks issued have been counted,
      besides what was under way at the start. */
  lemma {:induction false} RetiredExactly<V, M, P>(d: Datapath<V, M, P>, mode: int, run: Run<V, M, P>, n: nat)
    requires IsRun(d, mode, run)
    ensures Retired(run, n + 3) == Retired(run, 3) + Writers(mode, run, n)
  {
    hide Tick, Retires, IssuesWriter;
    if n > 0 {
      RetiredExactly(d, mode, run, n - 1);
      assert Ticks(d, mode, run, n - 1) && Ticks(d, mode, run, n) && Ticks(d, mode, run, n + 1);
      RetiresWhatIssued(d, mode, run(n - 1));
    }
  }

  lemma NothingUnderWay<V, M, P>(d: Datapath<V, M, P>, mode: int, run: Run<V, M, P>)
    requires IsRun(d, mode, run) && InFlight(run(0)) == 0
    ensures Retired(run, 3) == 0
  {
    hide Tick;
    assert Ticks(d, mode, run, 0) && Ticks(d, mode, run, 1);
    IntoWriteBack(d, mode, run(0));
    IntoWriteBack(d, mode, run(1));
    assert Retired(run, 1) == 0 && Retired(run, 2) == 0;
  }

  // ----- stalls -----

  function Empty<V, M, P>(v: Vm<V, M, P>): nat { if v.ifId.valid then 0 else 1 }

  /** A tick issues an instruction, finds nothing in decode, or adds to the stall count; a redirect does
      both and leaves nothing in decode. */
  lemma TickAccounts<V, M, P>(d: Datapath<V, M, P>, mode: int, v: Vm<V, M, P>)
    requires WellFormed(v)
    ensures
      var v' := Tick(d, mode, v);
      v'.stallCount + Empty(v) + (if Issues(mode, v) then 1 else 0) == v.stallCount + 1 + Empty(v')
  {
    hide Execute, MemLatch, MemEffect, WriteBack, Reads, ReadsFirstTwo, ControlSignals;
  }

  /** So the stall count says exactly how many ticks issued nothing, but for the ticks at the start and
      the end that have nothing in decode. */
  lemma {:induction false} StallsExactlyCounted<V, M, P>(d: Datapath<V, M, P>, mode: int, run: Run<V, M, P>, n: nat)
    requires IsRun(d, mode, run) && mode >= 2 && WellFormed(run(0))
    ensures WellFormed(run(n))
    ensures run(n).stallCount + Issued(mode, run, n) + Empty(run(0)) == run(0).stallCount + n + Empty(run(n))
  {
    hide Tick, Issues, WellFormed;
    if n > 0 {
      StallsExactlyCounted(d, mode, run, n - 1);
      assert Ticks(d, mode, run, n - 1);
      TickAccounts(d, mode, run(n - 1));
      TickKeepsWellFormed(d, mode, run(n - 1));
    }
  }
}
