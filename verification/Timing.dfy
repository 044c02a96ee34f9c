/** How long the run loop takes on words in a row, of which only the last may be a branch or jump. What
    the words compute does not matter. */
module Timing {
  import opened HazardUnit
  import opened SingleCycle
  import opened Pipeline
  import opened PipelineRefinement
  import opened PipelineRuns
  import opened MainLoop
  import opened PipelineLoop

  ghost predicate Consecutive<V, M, P>(d: Datapath<V, M, P>, addr: nat -> V, i: nat) {
    addr(i + 1) == d.next(addr(i))
  }

  /** The words lie one after the other from addr(0); the exit test fires exactly past the last. */
  ghost predicate InARow<V, M, P>(d: Datapath<V, M, P>, halted: V -> bool, addr: nat -> V, w: seq<bv32>) {
    && (forall i: nat :: i < |w| ==> Consecutive(d, addr, i))
    && (forall i: nat {:trigger addr(i)} :: i <= |w| ==> halted(addr(i)) == (i == |w|))
    && (forall i :: 0 <= i < |w| - 1 ==> !IsControlFlow(w[i]))
  }

  /** The words are in memory. */
  ghost predicate Lie<V, M, P>(d: Datapath<V, M, P>, mem: M, addr: nat -> V, w: seq<bv32>) {
    forall i: nat {:trigger addr(i)} :: i < |w| ==> d.fetch(mem, addr(i)) == w[i]
  }

  /** The predictor remembers no target for these addresses. */
  ghost predicate Unpredicted<V, P>(b: Bpu<V, P>, addr: nat -> V, w: seq<bv32>) {
    forall i: nat {:trigger addr(i)} :: i < |w| ==> addr(i) !in b.btb
  }

  ghost predicate LieDuring<V, M, P>(
    d: Datapath<V, M, P>, mode: int, run: Run<V, M, P>, addr: nat -> V, w: seq<bv32>, n: nat)
  {
    Issued(mode, run, n) <= |w| ==> Lie(d, run(n).mem, addr, w)
  }

  /** A run from empty latches over such words, which stay in place until they have issued. */
  ghost predicate Timed<V, M, P>(
    d: Datapath<V, M, P>, mode: int, run: Run<V, M, P>, halted: V -> bool, addr: nat -> V, w: seq<bv32>)
  {
    && mode >= 2 && |w| > 0 && IsRun(d, mode, run)
    && WellFormed(run(0)) && !run(0).ifId.valid && run(0).pc == addr(0)
    && (mode >= 5 ==> Unpredicted(run(0).bpu, addr, w))
    && InARow(d, halted, addr, w)
    && (forall n: nat :: LieDuring(d, mode, run, addr, w, n))
  }

  /** Decode holds word k, and fetch goes on behind it. */
  ghost predicate Front<V, M, P>(mode: int, v: Vm<V, M, P>, addr: nat -> V, w: seq<bv32>, k: nat) {
    && k < |w| && WellFormed(v)
    && v.ifId.valid && v.ifId.inst == w[k] && v.pc == addr(k + 1)
    && (mode >= 5 ==> Unpredicted(v.bpu, addr, w))
  }

  lemma FirstFetch<V, M, P>(d: Datapath<V, M, P>, mode: int, v: Vm<V, M, P>, addr: nat -> V, w: seq<bv32>)
    requires mode >= 2 && |w| > 0 && WellFormed(v) && !v.ifId.valid && v.pc == addr(0) && Consecutive(d, addr, 0)
    requires (mode >= 5 ==> Unpredicted(v.bpu, addr, w)) && Lie(d, Tick(d, mode, v).mem, addr, w)
    ensures !Issues(mode, v) && !Tick(d, mode, v).idEx.valid && Front(mode, Tick(d, mode, v), addr, w, 0)
  {
    TickKeepsWellFormed(d, mode, v);
    hide Execute, MemLatch, MemEffect, WriteBack, ControlSignals;
    assert addr(0) == v.pc;
  }

  lemma NextFetch<V, M, P>(d: Datapath<V, M, P>, mode: int, v: Vm<V, M, P>, addr: nat -> V, w: seq<bv32>, k: nat)
    requires mode >= 2 && Front(mode, v, addr, w, k) && k < |w| - 1 && !IsControlFlow(w[k])
    requires Consecutive(d, addr, k + 1)
    requires Lie(d, Tick(d, mode, v).mem, addr, w)
    ensures Front(mode, Tick(d, mode, v), addr, w, k + if Issues(mode, v) then 1 else 0)
  {
    TickKeepsWellFormed(d, mode, v);
    hide Execute, MemLatch, MemEffect, WriteBack, ControlSignals, WellFormed, ComputeSignals, IsControlFlow;
    assert addr(k + 1) == v.pc;
  }

  lemma TimedTick<V, M, P>(
    d: Datapath<V, M, P>, mode: int, run: Run<V, M, P>, halted: V -> bool, addr: nat -> V, w: seq<bv32>, n: nat)
    requires Timed(d, mode, run, halted, addr, w)
    ensures run(n + 1) == Tick(d, mode, run(n)) && mode >= 2
    ensures Issued(mode, run, n + 1) <= |w| ==> Lie(d, run(n + 1).mem, addr, w)
    ensures Issued(mode, run, n + 1) == Issued(mode, run, n) + if Issues(mode, run(n)) then 1 else 0
  {
    hide Tick, Issues, Lie, InARow, WellFormed;
    assert Ticks(d, mode, run, n) && LieDuring(d, mode, run, addr, w, n + 1);
  }

  lemma TimedStart<V, M, P>(
    d: Datapath<V, M, P>, mode: int, run: Run<V, M, P>, halted: V -> bool, addr: nat -> V, w: seq<bv32>)
    requires Timed(d, mode, run, halted, addr, w)
    ensures Issued(mode, run, 0) == 0 && Issued(mode, run, 1) == 0 && !run(1).idEx.valid
    ensures Front(mode, run(1), addr, w, 0)
  {
    NothingYet(mode, run);
    TimedTick(d, mode, run, halted, addr, w, 0);
    NoIssue(mode, run(0));
    hide Tick, Lie, WellFormed, Issued, Issues;
    assert Consecutive(d, addr, 0);
    FirstFetch(d, mode, run(0), addr, w);
  }

  lemma NothingYet<V, M, P>(mode: int, run: Run<V, M, P>)
    ensures Issued(mode, run, 0) == 0
  {
  }

  /** After the first tick decode always holds the next word. */
  lemma {:induction false} FrontAt<V, M, P>(
    d: Datapath<V, M, P>, mode: int, run: Run<V, M, P>, halted: V -> bool, addr: nat -> V, w: seq<bv32>, n: nat)
    requires Timed(d, mode, run, halted, addr, w) && n > 0 && Issued(mode, run, n) < |w|
    ensures Front(mode, run(n), addr, w, Issued(mode, run, n))
  {
    hide Tick, Issues, Lie, WellFormed, Front, Unpredicted, Issued;
    if n == 1 {
      TimedStart(d, mode, run, halted, addr, w);
    } else {
      IssuedGrows(mode, run, n - 1, n);
      FrontAt(d, mode, run, halted, addr, w, n - 1);
      TimedTick(d, mode, run, halted, addr, w, n - 1);
      var k := Issued(mode, run, n - 1);
      if k < |w| - 1 {
        assert Consecutive(d, addr, k + 1);
        NextFetch(d, mode, run(n - 1), addr, w, k);
      } else {
        LastHeld(d, mode, run(n - 1), addr, w);
      }
    }
  }

  /** A last word that does not issue stays in decode. */
  lemma LastHeld<V, M, P>(d: Datapath<V, M, P>, mode: int, v: Vm<V, M, P>, addr: nat -> V, w: seq<bv32>)
    requires mode >= 2 && |w| > 0 && Front(mode, v, addr, w, |w| - 1) && !Issues(mode, v)
    ensures Front(mode, Tick(d, mode, v), addr, w, |w| - 1)
  {
    TickKeepsWellFormed(d, mode, v);
    hide Execute, MemLatch, MemEffect, WriteBack, ControlSignals, WellFormed, ComputeSignals, IsControlFlow;
  }

  // ----- the loop ends -----

  lemma HaltsExactlyThen<V, M, P>(
    d: Datapath<V, M, P>, mode: int, run: Run<V, M, P>, halted: V -> bool, addr: nat -> V, w: seq<bv32>, n: nat)
    requires Timed(d, mode, run, halted, addr, w) && Issued(mode, run, n) < |w|
    ensures halted(run(n).pc) == (n > 0 && Issued(mode, run, n) == |w| - 1)
  {
    hide WellFormed, Lie, Unpredicted, IsRun;
    if n > 0 { FrontAt(d, mode, run, halted, addr, w, n); }
  }

  /** Word k is in decode after at most three ticks a word. */
  lemma {:induction false} ReachesWord<V, M, P>(
    d: Datapath<V, M, P>, mode: int, run: Run<V, M, P>, halted: V -> bool, addr: nat -> V, w: seq<bv32>, k: nat)
    returns (n: nat)
    requires Timed(d, mode, run, halted, addr, w) && k < |w|
    ensures k < n <= 3 * k + 1 && Issued(mode, run, n) == k
    ensures n > 1 ==> Issued(mode, run, n - 1) < k
  {
    hide Timed, Issued, Issues, Front, Tick, WellFormed;
    if k == 0 {
      n := 1;
      TimedStart(d, mode, run, halted, addr, w);
    } else {
      var m := ReachesWord(d, mode, run, halted, addr, w, k - 1);
      FrontAt(d, mode, run, halted, addr, w, m);
      FrontIsValid(mode, run(m), addr, w, k - 1);
      TimedTick(d, mode, run, halted, addr, w, m);
      TimedTick(d, mode, run, halted, addr, w, m + 1);
      TimedTick(d, mode, run, halted, addr, w, m + 2);
      IssuesWithinThree(d, mode, run(m));
      n := if Issues(mode, run(m)) then m + 1 else if Issues(mode, run(m + 1)) then m + 2 else m + 3;
    }
  }

  lemma FrontIsValid<V, M, P>(mode: int, v: Vm<V, M, P>, addr: nat -> V, w: seq<bv32>, k: nat)
    requires Front(mode, v, addr, w, k)
    ensures v.ifId.valid && k < |w| && v.ifId.inst == w[k] && WellFormed(v)
  {
  }

  /** The main loop ends, within three ticks a word, with the last word in decode. */
  lemma LoopEndsInTime<V, M, P>(
    d: Datapath<V, M, P>, mode: int, run: Run<V, M, P>, halted: V -> bool, addr: nat -> V, w: seq<bv32>)
      returns (n: nat)
    requires Timed(d, mode, run, halted, addr, w)
    ensures LoopEnds(run, halted, n) && 0 < n <= 3 * |w| - 2 && Issued(mode, run, n) == |w| - 1
    ensures n > 1 ==> Issued(mode, run, n - 1) < |w| - 1
  {
    NotEmpty(d, mode, run, halted, addr, w);
    hide Timed, Issued, Issues;
    n := ReachesWord(d, mode, run, halted, addr, w, |w| - 1);
    forall m: nat | m <= n
      ensures halted(run(m).pc) == (m == n)
    {
      IssuedGrows(mode, run, m, n);
      if 0 < m < n { IssuedGrows(mode, run, m, n - 1); }
      HaltsExactlyThen(d, mode, run, halted, addr, w, m);
    }
  }

  lemma NotEmpty<V, M, P>(
    d: Datapath<V, M, P>, mode: int, run: Run<V, M, P>, halted: V -> bool, addr: nat -> V, w: seq<bv32>)
    requires Timed(d, mode, run, halted, addr, w)
    ensures |w| > 0
  {
  }

  /** At its end the loop has issued every word but the last. */
  lemma EndMeansLast<V, M, P>(
    d: Datapath<V, M, P>, mode: int, run: Run<V, M, P>, halted: V -> bool, addr: nat -> V, w: seq<bv32>, n: nat)
    requires Timed(d, mode, run, halted, addr, w) && LoopEnds(run, halted, n)
    ensures 0 < n <= 3 * |w| - 2 && Issued(mode, run, n) == |w| - 1
    ensures n > 1 ==> Issued(mode, run, n - 1) < |w| - 1
  {
    hide *;
    var n' := LoopEndsInTime(d, mode, run, halted, addr, w);
    LoopEndsOnce(run, halted, n, n');
  }

  // ----- forwarding is never later -----

  /** The forwarding machine u is at least as far as the stalling machine v; when they are level,
      v still has in execute whatever u has there. */
  ghost predicate Ahead<V, M, P>(v: Vm<V, M, P>, j: nat, u: Vm<V, M, P>, k: nat) {
    && j <= k
    && (j == k && u.idEx.valid ==> v.idEx.valid && v.idEx.rd == u.idEx.rd && v.idEx.signals == u.idEx.signals)
  }

  lemma LevelStall<V, M, P>(mode: int, v: Vm<V, M, P>, u: Vm<V, M, P>, k: nat)
    requires mode >= 3 && WellFormed(v) && WellFormed(u) && Ahead(v, k, u, k)
    requires v.ifId.inst == u.ifId.inst && !IsControlFlow(u.ifId.inst)
    ensures Stalls(mode, u) ==> Stalls(2, v)
  {
    hide Reads, Forward;
  }

  lemma AheadKept<V, M, P>(d: Datapath<V, M, P>, mode: int, v: Vm<V, M, P>, j: nat, u: Vm<V, M, P>, k: nat)
    requires mode >= 3 && WellFormed(v) && WellFormed(u) && Ahead(v, j, u, k)
    requires v.ifId.valid && u.ifId.valid && !IsControlFlow(v.ifId.inst) && !IsControlFlow(u.ifId.inst)
    requires j == k ==> v.ifId.inst == u.ifId.inst
    ensures Ahead(Tick(d, 2, v), j + if Issues(2, v) then 1 else 0,
                  Tick(d, mode, u), k + if Issues(mode, u) then 1 else 0)
  {
    hide Tick, ComputeSignals, WellFormed, ControlSignals;
    if j == k { LevelStall(mode, v, u, k); }
    if Issues(2, v) { IssueFills(d, 2, v); } else { StallBubbles(d, 2, v); }
    if Issues(mode, u) { IssueFills(d, mode, u); } else { StallBubbles(d, mode, u); }
  }

  lemma AheadAtFirst<V, M, P>(v: Vm<V, M, P>, u: Vm<V, M, P>)
    requires !u.idEx.valid
    ensures Ahead(v, 0, u, 0)
  {
  }

  lemma AheadMeans<V, M, P>(v: Vm<V, M, P>, j: nat, u: Vm<V, M, P>, k: nat)
    requires Ahead(v, j, u, k)
    ensures j <= k
  {
  }

  lemma {:induction false} StaysAhead<V, M, P>(
    d: Datapath<V, M, P>, mode: int, run2: Run<V, M, P>, run: Run<V, M, P>, halted: V -> bool, addr: nat -> V,
    w: seq<bv32>, n: nat)
    requires mode >= 3 && Timed(d, 2, run2, halted, addr, w) && Timed(d, mode, run, halted, addr, w)
    requires n > 0 && Issued(mode, run, n) < |w| - 1
    ensures Ahead(run2(n), Issued(2, run2, n), run(n), Issued(mode, run, n))
  {
    hide Tick, Issues, Ahead, WellFormed, Lie, LieDuring, Issued, Front, IsRun, Unpredicted, IsControlFlow;
    if n == 1 {
      TimedStart(d, 2, run2, halted, addr, w);
      TimedStart(d, mode, run, halted, addr, w);
      AheadAtFirst(run2(1), run(1));
    } else {
      IssuedGrows(mode, run, n - 1, n);
      StaysAhead(d, mode, run2, run, halted, addr, w, n - 1);
      TimedTick(d, 2, run2, halted, addr, w, n - 1);
      TimedTick(d, mode, run, halted, addr, w, n - 1);
      var j, k := Issued(2, run2, n - 1), Issued(mode, run, n - 1);
      AheadMeans(run2(n - 1), j, run(n - 1), k);
      FrontAt(d, 2, run2, halted, addr, w, n - 1);
      FrontAt(d, mode, run, halted, addr, w, n - 1);
      FrontIsValid(2, run2(n - 1), addr, w, j);
      FrontIsValid(mode, run(n - 1), addr, w, k);
      AheadKept(d, mode, run2(n - 1), j, run(n - 1), k);
    }
  }

  /** The run loop of a forwarding mode ends no later than that of mode 2, whatever the words compute. */
  lemma ForwardingIsNoLater<V, M, P>(
    d: Datapath<V, M, P>, mode: int, run2: Run<V, M, P>, run: Run<V, M, P>, halted: V -> bool, addr: nat -> V,
    w: seq<bv32>, n2: nat, n: nat)
    requires mode >= 3 && Timed(d, 2, run2, halted, addr, w) && Timed(d, mode, run, halted, addr, w)
    requires LoopEnds(run2, halted, n2) && LoopEnds(run, halted, n)
    ensures n <= n2
  {
    hide LoopEnds, Timed, Issued, Ahead;
    EndMeansLast(d, 2, run2, halted, addr, w, n2);
    EndMeansLast(d, mode, run, halted, addr, w, n);
    if n2 < n {
      IssuedGrows(mode, run, n2, n - 1);
      StaysAhead(d, mode, run2, run, halted, addr, w, n2);
      AheadMeans(run2(n2), Issued(2, run2, n2), run(n2), Issued(mode, run, n2));
    }
  }
}
