/** How many ticks the main loop takes over words in a row: exactly, and from the words alone. */
module LoopLength {
  import opened HazardUnit
  import opened SingleCycle
  import opened Pipeline
  import opened PipelineRefinement
  import opened PipelineRuns
  import opened MainLoop
  import opened Timing
  import opened IssueGaps

  /** The ticks word k waits in decode. */
  function WaitOf(mode: int, w: seq<bv32>, k: nat): nat
    requires k < |w|
  {
    if k == 0 then 0
    else if k == 1 then Wait(mode, 0, false, w[0], w[1])
    else Wait(mode, w[k - 2], WaitOf(mode, w, k - 1) == 0, w[k - 1], w[k])
  }

  /** The tick after which word k is in decode. */
  function Arrives(mode: int, w: seq<bv32>, k: nat): (n: nat)
    requires k < |w|
    ensures n > k
  {
    if k == 0 then 1 else Arrives(mode, w, k - 1) + WaitOf(mode, w, k - 1) + 1
  }

  /** Word k arrives at its tick, waits as said, and issues. */
  ghost predicate OnTime<V, M, P>(mode: int, run: Run<V, M, P>, w: seq<bv32>, k: nat)
    requires k < |w|
  {
    var a := Arrives(mode, w, k);
    var e := a + WaitOf(mode, w, k);
    && Issued(mode, run, a) == k && Issued(mode, run, e) == k
    && Issues(mode, run(e)) && run(e).ifId.inst == w[k]
    && (k > 0 ==> Issues(mode, run(a - 1)) && run(a - 1).ifId.inst == w[k - 1])
    && (k == 0 ==> !Issues(mode, run(a - 1)))
    && (e > a ==> !Issues(mode, run(e - 1)))
  }

  lemma FirstOnTime<V, M, P>(
    d: Datapath<V, M, P>, mode: int, run: Run<V, M, P>, halted: V -> bool, addr: nat -> V, w: seq<bv32>)
    requires Timed(d, mode, run, halted, addr, w) && !ExWrites(run(0).idEx)
    ensures |w| > 0 && OnTime(mode, run, w, 0)
  {
    hide Timed, Tick, Front, WellFormed, Issues, Issued, ExWrites, MemWrites;
    NotEmpty(d, mode, run, halted, addr, w);
    TimedStart(d, mode, run, halted, addr, w);
    TimedTick(d, mode, run, halted, addr, w, 0);
    FrontIsValid(mode, run(1), addr, w, 0);
    StartsInvalid(d, mode, run, halted, addr, w);
    NoIssue(mode, run(0));
    BubbleIntoExecute(d, mode, run(0));
    IntoMemory(d, mode, run(0));
    NothingAhead(mode, run(1));
  }

  lemma StartsInvalid<V, M, P>(
    d: Datapath<V, M, P>, mode: int, run: Run<V, M, P>, halted: V -> bool, addr: nat -> V, w: seq<bv32>)
    requires Timed(d, mode, run, halted, addr, w)
    ensures !run(0).ifId.valid && WellFormed(run(0)) && mode >= 2
  {
    hide Lie, LieDuring, InARow, Unpredicted, IsRun;
  }

  lemma WellFormedDuring<V, M, P>(
    d: Datapath<V, M, P>, mode: int, run: Run<V, M, P>, halted: V -> bool, addr: nat -> V, w: seq<bv32>, n: nat)
    requires Timed(d, mode, run, halted, addr, w) && Issued(mode, run, n) < |w|
    ensures WellFormed(run(n))
  {
    hide Timed, WellFormed, Issued, Front;
    if n == 0 {
      StartsInvalid(d, mode, run, halted, addr, w);
    } else {
      FrontAt(d, mode, run, halted, addr, w, n);
      FrontIsValid(mode, run(n), addr, w, Issued(mode, run, n));
    }
  }

  lemma NotDirect(mode: int, a: bv32, b: bv32, last: bv32, next: bv32)
    ensures Wait(mode, a, false, last, next) == Wait(mode, b, false, last, next)
  {
  }

  /** The wait of word k + 1, from what the latches hold when word k issues. */
  lemma WaitIs(mode: int, w: seq<bv32>, k: nat, before: bv32, direct: bool)
    requires k + 1 < |w|
    requires direct <==> k > 0 && WaitOf(mode, w, k) == 0
    requires direct ==> before == w[k - 1]
    ensures Wait(mode, before, direct, w[k], w[k + 1]) == WaitOf(mode, w, k + 1)
  {
    hide Wait;
    if !direct { NotDirect(mode, before, if k == 0 then 0 else w[k - 1], w[k], w[k + 1]); }
  }

  lemma NextOnTime<V, M, P>(
    d: Datapath<V, M, P>, mode: int, run: Run<V, M, P>, halted: V -> bool, addr: nat -> V, w: seq<bv32>, k: nat)
    requires Timed(d, mode, run, halted, addr, w) && k + 1 < |w| && OnTime(mode, run, w, k)
    ensures OnTime(mode, run, w, k + 1)
  {
    hide Timed, Tick, Front, WellFormed, Issues, Issued, Wait, WaitOf;
    var e := Arrives(mode, w, k) + WaitOf(mode, w, k);
    assert Arrives(mode, w, k + 1) == e + 1;
    var v0, v1 := run(e - 1), run(e);
    TimedTick(d, mode, run, halted, addr, w, e - 1);
    TimedTick(d, mode, run, halted, addr, w, e);
    TimedTick(d, mode, run, halted, addr, w, e + 1);
    TimedTick(d, mode, run, halted, addr, w, e + 2);
    TimedTick(d, mode, run, halted, addr, w, e + 3);
    FrontAt(d, mode, run, halted, addr, w, e + 1);
    FrontIsValid(mode, run(e + 1), addr, w, k + 1);
    WellFormedDuring(d, mode, run, halted, addr, w, e - 1);
    WaitExactly(d, mode, v0);
    WaitIs(mode, w, k, v0.ifId.inst, Issues(mode, v0));
    WaitAtMostTwo(mode, v0.ifId.inst, Issues(mode, v0), w[k], w[k + 1]);
  }

  lemma WaitAtMostTwo(mode: int, before: bv32, direct: bool, last: bv32, next: bv32)
    ensures Wait(mode, before, direct, last, next) <= 2
  {
  }

  /** Every word arrives, waits and issues exactly on time. */
  lemma {:induction false} AllOnTime<V, M, P>(
    d: Datapath<V, M, P>, mode: int, run: Run<V, M, P>, halted: V -> bool, addr: nat -> V, w: seq<bv32>, k: nat)
    requires Timed(d, mode, run, halted, addr, w) && !ExWrites(run(0).idEx) && k < |w|
    ensures OnTime(mode, run, w, k)
  {
    hide Timed, OnTime, ExWrites;
    if k == 0 {
      FirstOnTime(d, mode, run, halted, addr, w);
    } else {
      AllOnTime(d, mode, run, halted, addr, w, k - 1);
      NextOnTime(d, mode, run, halted, addr, w, k - 1);
    }
  }

  /** The main loop ends exactly when the last word arrives. */
  lemma LoopLengthExactly<V, M, P>(
    d: Datapath<V, M, P>, mode: int, run: Run<V, M, P>, halted: V -> bool, addr: nat -> V, w: seq<bv32>)
    requires Timed(d, mode, run, halted, addr, w) && !ExWrites(run(0).idEx)
    ensures |w| > 0 && LoopEnds(run, halted, Arrives(mode, w, |w| - 1))
  {
    hide Timed, Issued, Issues, ExWrites, OnTime, Arrives;
    NotEmpty(d, mode, run, halted, addr, w);
    var n := Arrives(mode, w, |w| - 1);
    LastArrival(d, mode, run, halted, addr, w);
    HaltsExactlyThen(d, mode, run, halted, addr, w, n);
    forall m: nat | m < n
      ensures !halted(run(m).pc)
    {
      NotHaltedBefore(d, mode, run, halted, addr, w, m, n);
    }
  }

  lemma NotHaltedBefore<V, M, P>(
    d: Datapath<V, M, P>, mode: int, run: Run<V, M, P>, halted: V -> bool, addr: nat -> V, w: seq<bv32>, m: nat, n: nat)
    requires Timed(d, mode, run, halted, addr, w) && |w| > 0 && m < n
    requires n > 1 ==> Issued(mode, run, n - 1) < |w| - 1
    ensures !halted(run(m).pc)
  {
    hide *;
    if m > 0 { IssuedGrows(mode, run, m, n - 1); } else { NothingYet(mode, run); }
    HaltsExactlyThen(d, mode, run, halted, addr, w, m);
  }

  lemma LastArrival<V, M, P>(
    d: Datapath<V, M, P>, mode: int, run: Run<V, M, P>, halted: V -> bool, addr: nat -> V, w: seq<bv32>)
    requires Timed(d, mode, run, halted, addr, w) && !ExWrites(run(0).idEx) && |w| > 0
    ensures
      var n := Arrives(mode, w, |w| - 1);
      Issued(mode, run, n) == |w| - 1 && (n > 1 ==> Issued(mode, run, n - 1) < |w| - 1)
  {
    hide Timed, Issued, Issues, ExWrites, WaitOf;
    AllOnTime(d, mode, run, halted, addr, w, |w| - 1);
    if |w| > 1 { AllOnTime(d, mode, run, halted, addr, w, |w| - 2); }
  }

  // ----- with forwarding only loads make a word wait -----

  /** In a forwarding mode a word that is no branch and no jalr waits one tick behind a load it reads from,
      and not otherwise; without forwarding it waits two ticks for its predecessor, and one for the word
      before if that one was directly in front. */
  lemma WaitsMean(mode: int, w: seq<bv32>, k: nat)
    requires 0 < k < |w| && !IsBranchOrJalr(w[k])
    ensures mode != 2 ==>
      WaitOf(mode, w, k) == if IsLoadWord(w[k - 1]) && DependsOn(w[k], w[k - 1]) then 1 else 0
    ensures mode == 2 && DependsOn(w[k], w[k - 1]) ==> WaitOf(mode, w, k) == 2
    ensures mode == 2 && !DependsOn(w[k], w[k - 1]) ==>
      WaitOf(mode, w, k) == if k > 1 && WaitOf(mode, w, k - 1) == 0 && DependsOn(w[k], w[k - 2]) then 1 else 0
  {
    hide DependsOn, IsLoadWord, IsBranchOrJalr;
  }

  /** The words among the first k that read what a load directly in front of them writes. */
  function LoadUses(w: seq<bv32>, k: nat): nat
    requires k <= |w|
  {
    if k <= 1 then 0
    else LoadUses(w, k - 1) + if IsLoadWord(w[k - 2]) && DependsOn(w[k - 1], w[k - 2]) then 1 else 0
  }

  /** So the loop of a forwarding mode takes one tick a word, and one more for each word in front of the last
      that reads what a load directly in front of it writes. */
  lemma {:induction false} ForwardingLength(mode: int, w: seq<bv32>, k: nat)
    requires mode != 2 && k < |w| && forall i :: 0 <= i < k ==> !IsBranchOrJalr(w[i])
    ensures Arrives(mode, w, k) == k + 1 + LoadUses(w, k)
  {
    hide Wait, WaitOf, DependsOn, IsLoadWord, IsBranchOrJalr;
    if k > 0 {
      ForwardingLength(mode, w, k - 1);
      if k > 1 { WaitsMean(mode, w, k - 1); } else { FirstDoesNotWait(mode, w); }
    }
  }

  lemma FirstDoesNotWait(mode: int, w: seq<bv32>)
    requires |w| > 0
    ensures WaitOf(mode, w, 0) == 0
  {
  }
}
