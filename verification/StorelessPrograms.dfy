/** Programs without stores stay in memory whatever they compute, so what is known of how long a program
    takes holds of them without further assumptions. */
module StorelessPrograms {
  import opened Words
  import opened FlatMemory
  import opened BranchPredictor
  import opened HazardUnit
  import opened SingleCycle
  import opened Pipeline
  import opened PipelineRefinement
  import opened PipelineRuns
  import opened MainLoop
  import opened Timing
  import opened Processor
  import opened RvssVm
  import opened Programs

  predicate Storeless(w: seq<bv32>) { forall i :: 0 <= i < |w| ==> !ControlSignals(w[i]).memWrite }

  /** No store is on its way to memory. */
  predicate NothingToStore<V, M, P>(v: Vm<V, M, P>) {
    !(v.idEx.valid && v.idEx.signals.memWrite) && !(v.exMem.valid && v.exMem.signals.memWrite)
  }

  lemma TickStoresNothing<V, M, P>(d: Datapath<V, M, P>, mode: int, v: Vm<V, M, P>)
    requires NothingToStore(v) && (Issues(mode, v) ==> !ControlSignals(v.ifId.inst).memWrite)
    ensures NothingToStore(Tick(d, mode, v))
  {
    hide MemLatch, MemEffect, WriteBack, ControlSignals, ComputeSignals, Operand;
  }

  /** A load may be refused, but changes no byte. */
  lemma LoadKeepsText(mode: int, v: Vm<Dword, Ram, Tables>, w: seq<bv32>)
    requires NothingToStore(v) && Contains(v.mem, w)
    ensures Contains(Tick(MACHINE, mode, v).mem, w)
  {
    hide Execute, MemLatch, WriteBack, ControlSignals, Decode, Loaded, Widen;
    assert Tick(MACHINE, mode, v).mem.bytes == v.mem.bytes && Tick(MACHINE, mode, v).mem.size == v.mem.size;
  }

  /** The program is in place, no store is under way, and decode holds the next word. */
  ghost predicate Undisturbed(mode: int, v: Vm<Dword, Ram, Tables>, w: seq<bv32>, k: nat, n: nat) {
    && Contains(v.mem, w) && NothingToStore(v)
    && (0 < n && k < |w| ==> Front(mode, v, Addresses(), w, k))
  }

  lemma RowMeans(w: seq<bv32>, k: nat)
    requires Row(w) && k < |w|
    ensures ShortEnough(w) && Consecutive(MACHINE, Addresses(), k)
    ensures k < |w| - 1 ==> !IsControlFlow(w[k]) && Consecutive(MACHINE, Addresses(), k + 1)
  {
    hide InARow, Addresses, IsControlFlow;
    ProgramInARow(w);
    hide Row;
    InARowAt(w, k);
    if k < |w| - 1 { InARowAt(w, k + 1); }
  }

  lemma InARowAt(w: seq<bv32>, k: nat)
    requires InARow(MACHINE, Halted(w), Addresses(), w) && k < |w|
    ensures Consecutive(MACHINE, Addresses(), k)
  {
    hide Consecutive, Addresses, Halted;
  }

  /** One tick more. */
  lemma StaysUndisturbed(mode: int, v: Vm<Dword, Ram, Tables>, w: seq<bv32>, k: nat, n: nat)
    requires mode >= 2 && Row(w) && Storeless(w) && 0 < n && k <= |w| && Undisturbed(mode, v, w, k, n)
    requires k == |w| ==> !Issues(mode, v)
    ensures Undisturbed(mode, Tick(MACHINE, mode, v), w, k + if Issues(mode, v) then 1 else 0, n + 1)
  {
    hide Contains, NothingToStore, Front, Row, Tick, Issues, Consecutive, IsControlFlow, ControlSignals;
    LoadKeepsText(mode, v, w);
    if k < |w| {
      FrontIsValid(mode, v, Addresses(), w, k);
      RowMeans(w, k);
      ContainsMeansLies(Tick(MACHINE, mode, v).mem, w);
      if k < |w| - 1 {
        NextFetch(MACHINE, mode, v, Addresses(), w, k);
      } else if !Issues(mode, v) {
        LastHeld(MACHINE, mode, v, Addresses(), w);
      }
    }
    TickStoresNothing(MACHINE, mode, v);
  }

  lemma FirstTick(mode: int, m: Ram, w: seq<bv32>)
    requires mode >= 2 && Row(w) && Contains(m, w)
    ensures Undisturbed(mode, ResetState(m), w, 0, 0)
    ensures Undisturbed(mode, Tick(MACHINE, mode, ResetState(m)), w, 0, 1) && !Issues(mode, ResetState(m))
  {
    ResetMeans(m);
    ResetStoresNothing(m);
    hide Contains, NothingToStore, Front, Tick, Issues, Consecutive, IsControlFlow, ControlSignals, ResetState,
         Addresses, WellFormed;
    RowMeans(w, 0);
    LoadKeepsText(mode, ResetState(m), w);
    ContainsMeansLies(Tick(MACHINE, mode, ResetState(m)).mem, w);
    NoIssue(mode, ResetState(m));
    TickStoresNothing(MACHINE, mode, ResetState(m));
    FirstFetch(MACHINE, mode, ResetState(m), Addresses(), w);
  }

  lemma ResetStoresNothing(m: Ram)
    ensures NothingToStore(ResetState(m)) && ResetState(m).mem == m
    ensures forall w :: Unpredicted(ResetState(m).bpu, Addresses(), w)
  {
  }

  lemma {:induction false} UndisturbedAt(mode: int, m: Ram, w: seq<bv32>, n: nat)
    requires mode >= 2 && Row(w) && Storeless(w) && Contains(m, w) && Issued(mode, ResetRun(mode, m), n) <= |w|
    ensures Undisturbed(mode, ResetRun(mode, m)(n), w, Issued(mode, ResetRun(mode, m), n), n)
  {
    var run := ResetRun(mode, m);
    RunFromIsRun(MACHINE, mode, ResetState(m));
    NothingYet(mode, run);
    hide Undisturbed, Row, Storeless, Contains, ResetState, RunFrom, Tick, Issues, Issued;
    if n == 0 {
      FirstTick(mode, m, w);
    } else {
      assert Ticks(MACHINE, mode, run, n - 1);
      IssuedNext(mode, run, n - 1);
      if n == 1 {
        FirstTick(mode, m, w);
      } else {
        UndisturbedAt(mode, m, w, n - 1);
        StaysUndisturbed(mode, run(n - 1), w, Issued(mode, run, n - 1), n - 1);
      }
    }
  }

  /** A program without stores stays where it is. */
  lemma StorelessStays(mode: int, m: Ram, w: seq<bv32>)
    requires mode >= 2 && Row(w) && Storeless(w) && Contains(m, w)
    ensures TextStays(mode, m, w)
  {
    hide Row, Storeless, Contains, ResetRun, Issued, Front;
    forall n: nat
      ensures ContainsAt(mode, m, w, n)
    {
      if Issued(mode, ResetRun(mode, m), n) <= |w| { UndisturbedAt(mode, m, w, n); }
    }
  }

  /** For words in a row without stores, lui and auipc included: the loop ends within three ticks a word, and
      with forwarding no later than without, whatever the words compute. */
  lemma StorelessIsNoLater(mode: int, m: Ram, w: seq<bv32>) returns (n2: nat, n: nat)
    requires mode >= 3 && Row(w) && Storeless(w) && Contains(m, w)
    ensures LoopEnds(ResetRun(2, m), Halted(w), n2) && LoopEnds(ResetRun(mode, m), Halted(w), n)
    ensures n <= n2 <= 3 * |w| - 2
  {
    hide Row, Storeless, Contains, TextStays, ResetRun, LoopEnds;
    StorelessStays(2, m, w);
    StorelessStays(mode, m, w);
    n2, n := ForwardingProgramIsNoLater(mode, m, w);
  }
}
