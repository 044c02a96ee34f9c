/** The gshare branch predictor: two-bit counters indexed by address and history, and a buffer of
    branch targets. */
module BranchPredictor {
  import opened Words

  datatype Tables = Tables(bht: map<Dword, int>, history: bv64)

  datatype Gshare = Gshare(tables: Tables, btb: map<Dword, Dword>)

  datatype Prediction = Prediction(isTaken: bool, targetPc: Dword)

  const FRESH := Gshare(Tables(map[], 0), map[])

  /** The address and the history are mixed into one index. */
  function Hash(pc: Dword, history: bv64): Dword { Dword(pc.bits ^ history) }

  function Shifted(history: bv64, taken: bool): bv64 { (history << 1) | (if taken then 1 else 0) }

  function Index(t: Tables, pc: Dword): Dword { Hash(pc, t.history) }

  /** The counter for pc under the current history favours taken. */
  predicate Favours(t: Tables, pc: Dword) {
    Index(t, pc) in t.bht && t.bht[Index(t, pc)] >= 2
  }

  /** Asking for a prediction installs a missing counter at 1. */
  function AfterLookup(t: Tables, pc: Dword): Tables {
    if Index(t, pc) in t.bht then t else t.(bht := t.bht[Index(t, pc) := 1])
  }

  /** A resolved branch moves its counter, a missing one starting from 0, and enters the history. */
  function Train(t: Tables, pc: Dword, taken: bool): Tables {
    var c := if Index(t, pc) in t.bht then t.bht[Index(t, pc)] else 0;
    var c' := if taken then (if c < 3 then c + 1 else c) else (if c > 0 then c - 1 else c);
    Tables(t.bht[Index(t, pc) := c'], Shifted(t.history, taken))
  }

  function Lookup(g: Gshare, pc: Dword): Gshare { g.(tables := AfterLookup(g.tables, pc)) }

  function Predicted(g: Gshare, pc: Dword, other: Dword): Prediction {
    if Favours(g.tables, pc) && pc in g.btb then Prediction(true, g.btb[pc]) else Prediction(false, other)
  }

  function Updated(g: Gshare, pc: Dword, taken: bool, target: Dword): Gshare {
    Gshare(Train(g.tables, pc, taken), if taken then g.btb[pc := target] else g.btb)
  }

  class BranchPredictionUnit {
    var bht: map<Dword, int>
    var btb: map<Dword, Dword>
    var globalHistory: bv64
    var totalPredictions: nat
    var correctPredictions: nat

    ghost function State(): Gshare
      reads this
    {
      Gshare(Tables(bht, globalHistory), btb)
    }

    constructor ()
      ensures State() == FRESH && totalPredictions == 0 && correctPredictions == 0
    {
      bht, btb, globalHistory, totalPredictions, correctPredictions := map[], map[], 0, 0, 0;
    }

    method Predict(pc: Dword, defaultTarget: Dword) returns (prediction: Prediction)
      modifies this`bht
      ensures prediction == Predicted(old(State()), pc, defaultTarget)
      ensures State() == Lookup(old(State()), pc)
    {
      hide Hash, Shifted;
      var index := Hash(pc, globalHistory);
      var isTaken;
      if index !in bht {
        isTaken := false;
        bht := bht[index := 1];
      } else {
        isTaken := bht[index] >= 2;
      }
      if isTaken {
        if pc !in btb {
          prediction := Prediction(false, defaultTarget);
        } else {
          prediction := Prediction(true, btb[pc]);
        }
      } else {
        prediction := Prediction(false, defaultTarget);
      }
    }

    method Update(pc: Dword, actualOutcome: bool, actualTarget: Dword)
      modifies this`bht, this`btb, this`globalHistory
      ensures State() == Updated(old(State()), pc, actualOutcome, actualTarget)
    {
      hide Hash, Shifted;
      var index := Hash(pc, globalHistory);
      if index !in bht { bht := bht[index := 0]; }
      if actualOutcome {
        if bht[index] < 3 { bht := bht[index := bht[index] + 1]; }
      } else {
        if bht[index] > 0 { bht := bht[index := bht[index] - 1]; }
      }
      if actualOutcome { btb := btb[pc := actualTarget]; }
      globalHistory := Shifted(globalHistory, actualOutcome);
    }

    method RecordPrediction(isCorrect: bool)
      requires correctPredictions <= totalPredictions
      modifies this`totalPredictions, this`correctPredictions
      ensures correctPredictions <= totalPredictions == old(totalPredictions) + 1
      ensures correctPredictions == old(correctPredictions) + if isCorrect then 1 else 0
    {
      totalPredictions := totalPredictions + 1;
      if isCorrect { correctPredictions := correctPredictions + 1; }
    }

    method Reset()
      modifies this
      ensures State() == FRESH && totalPredictions == 0 && correctPredictions == 0
    {
      bht, btb, globalHistory, totalPredictions, correctPredictions := map[], map[], 0, 0, 0;
    }
  }

  // ----- whole runs since a reset -----

  datatype Event = Ask(pc: Dword) | Resolve(pc: Dword, taken: bool, target: Dword)

  function Next(g: Gshare, e: Event): Gshare {
    match e
    case Ask(pc) => Lookup(g, pc)
    case Resolve(pc, taken, target) => Updated(g, pc, taken, target)
  }

  /** The state after the first n events. */
  function After(g: Gshare, es: seq<Event>, n: nat): Gshare
    requires n <= |es|
  {
    if n == 0 then g else Next(After(g, es, n - 1), es[n - 1])
  }

  predicate CountersInRange(g: Gshare) {
    forall i :: i in g.tables.bht ==> 0 <= g.tables.bht[i] <= 3
  }

  lemma {:induction false} CountersStayInRange(g: Gshare, es: seq<Event>, n: nat)
    requires n <= |es| && CountersInRange(g)
    ensures CountersInRange(After(g, es, n))
  {
    if n > 0 { CountersStayInRange(g, es, n - 1); }
  }

  /** Asking twice changes nothing and answers the same. */
  lemma AskingTwice(g: Gshare, pc: Dword, other: Dword)
    ensures Lookup(Lookup(g, pc), pc) == Lookup(g, pc)
    ensures Predicted(Lookup(g, pc), pc, other) == Predicted(g, pc, other)
  {
  }

  /** The outcomes among the first n events, oldest first. */
  function Outcomes(es: seq<Event>, n: nat): seq<bool>
    requires n <= |es|
  {
    if n == 0 then [] else Outcomes(es, n - 1) + (if es[n - 1].Resolve? then [es[n - 1].taken] else [])
  }

  lemma BitShifts(h: bv64, i: bv64, b: bool)
    requires 0 < i < 64
    ensures Bit(Shifted(h, b), i) == Bit(h, i - 1)
  {
  }

  lemma BitZero(h: bv64, b: bool)
    ensures Bit(Shifted(h, b), 0) == b
  {
  }

  lemma ZeroHasNoBits(i: bv64)
    requires i < 64
    ensures !Bit(0, i)
  {
  }

  /** The i-th outcome from the end, counting from 0; false before the first. */
  predicate OutcomeFromEnd(os: seq<bool>, i: bv64)
    decreases i
  {
    if os == [] then false else if i == 0 then os[|os| - 1] else OutcomeFromEnd(os[..|os| - 1], i - 1)
  }

  /** The history register holds the last 64 outcomes, the latest in bit 0. */
  lemma {:induction false} HistoryIsLastOutcomes(es: seq<Event>, n: nat, i: bv64)
    requires n <= |es| && i < 64
    ensures Bit(After(FRESH, es, n).tables.history, i) == OutcomeFromEnd(Outcomes(es, n), i)
    decreases n
  {
    hide Bit, Shifted, Hash;
    if n == 0 {
      ZeroHasNoBits(i);
    } else if es[n - 1].Resolve? {
      var h, b := After(FRESH, es, n - 1).tables.history, es[n - 1].taken;
      assert Outcomes(es, n)[..|Outcomes(es, n)| - 1] == Outcomes(es, n - 1);
      if i == 0 {
        BitZero(h, b);
      } else {
        BitShifts(h, i, b);
        HistoryIsLastOutcomes(es, n - 1, i - 1);
      }
    } else {
      assert Outcomes(es, n) == Outcomes(es, n - 1);
      HistoryIsLastOutcomes(es, n - 1, i);
    }
  }

  /** Event k is the latest taken resolution of pc among the first n. */
  predicate LatestTaken(es: seq<Event>, n: nat, pc: Dword, k: nat)
    requires n <= |es|
  {
    && k < n && es[k].Resolve? && es[k].taken && es[k].pc == pc
    && forall j :: k < j < n ==> !(es[j].Resolve? && es[j].taken && es[j].pc == pc)
  }

  /** A remembered target is the one of the latest taken resolution, and there is one. */
  lemma {:induction false} TargetIsLatest(es: seq<Event>, n: nat, pc: Dword) returns (k: nat)
    requires n <= |es| && pc in After(FRESH, es, n).btb
    ensures LatestTaken(es, n, pc, k) && After(FRESH, es, n).btb[pc] == es[k].target
  {
    assert n > 0;
    var e := es[n - 1];
    if e.Resolve? && e.taken && e.pc == pc {
      k := n - 1;
    } else {
      k := TargetIsLatest(es, n - 1, pc);
    }
  }

  /** So a taken prediction sends the fetch to the latest target of that branch. */
  lemma TakenPredictionTarget(es: seq<Event>, n: nat, pc: Dword, other: Dword) returns (k: nat)
    requires n <= |es| && Predicted(After(FRESH, es, n), pc, other).isTaken
    ensures LatestTaken(es, n, pc, k) && Predicted(After(FRESH, es, n), pc, other).targetPc == es[k].target
  {
    k := TargetIsLatest(es, n, pc);
  }

  // ----- convergence -----

  /** Every resolution is of pc, with this outcome and target; any addresses may be asked about. */
  predicate Steady(es: seq<Event>, pc: Dword, taken: bool, target: Dword) {
    forall i :: 0 <= i < |es| && es[i].Resolve? ==> es[i] == Resolve(pc, taken, target)
  }

  function Resolutions(es: seq<Event>, n: nat): nat
    requires n <= |es|
  {
    if n == 0 then 0 else Resolutions(es, n - 1) + if es[n - 1].Resolve? then 1 else 0
  }

  /** A block of low ones, one longer. */
  function Longer(m: bv64): bv64 { (m << 1) | 1 }

  function Ones(k: nat): bv64 {
    if k == 0 then 0 else Longer(Ones(k - 1))
  }

  lemma FourLonger(m: bv64)
    ensures Longer(Longer(Longer(Longer(m)))) == (m << 4) | 0xF
  {
  }

  lemma OnesBy4(k: nat)
    ensures Ones(k + 4) == (Ones(k) << 4) | 0xF
  {
    FourLonger(Ones(k));
    hide Longer;
    assert Ones(k + 2) == Longer(Longer(Ones(k)));
    assert Ones(k + 4) == Longer(Longer(Ones(k + 2)));
  }

  lemma OnesBy16(k: nat)
    ensures Ones(k + 16) == (Ones(k) << 16) | 0xFFFF
  {
    hide Ones;
    OnesBy4(k);
    OnesBy4(k + 4);
    OnesBy4(k + 8);
    OnesBy4(k + 12);
  }

  lemma AllOnes64()
    ensures Ones(64) == 0xFFFF_FFFF_FFFF_FFFF
  {
    assert Ones(0) == 0;
    hide Ones;
    OnesBy16(0);
    OnesBy16(16);
    OnesBy16(32);
    OnesBy16(48);
  }

  /** Under the mask m the history holds nothing but this outcome. */
  predicate Uniform(h: bv64, taken: bool, m: bv64) { h & m == if taken then m else 0 }

  /** The last k outcomes were all this one. */
  predicate LastOutcomes(h: bv64, taken: bool, k: nat) { Uniform(h, taken, Ones(k)) }

  lemma OneMoreBit(h: bv64, taken: bool, m: bv64)
    requires Uniform(h, taken, m)
    ensures Uniform(Shifted(h, taken), taken, Longer(m))
  {
  }

  lemma OneMoreOutcome(h: bv64, taken: bool, k: nat)
    requires LastOutcomes(h, taken, k)
    ensures LastOutcomes(Shifted(h, taken), taken, k + 1)
  {
    hide Shifted, Uniform, Longer;
    OneMoreBit(h, taken, Ones(k));
  }

  function FullHistory(taken: bool): bv64 { if taken then 0xFFFF_FFFF_FFFF_FFFF else 0 }

  lemma HistoryFills(h: bv64, taken: bool)
    requires LastOutcomes(h, taken, 64)
    ensures h == FullHistory(taken)
  {
    AllOnes64();
    hide Ones;
  }

  lemma FullHistoryStays(taken: bool)
    ensures Shifted(FullHistory(taken), taken) == FullHistory(taken)
  {
  }

  /** How far the predictor has come after k resolutions with the same outcome: the history fills up
      in 64, then the counter it selects moves twice. */
  ghost predicate Settling(g: Gshare, pc: Dword, taken: bool, target: Dword, k: nat) {
    var i := Hash(pc, FullHistory(taken));
    && CountersInRange(g)
    && (if k < 64 then LastOutcomes(g.tables.history, taken, k) else g.tables.history == FullHistory(taken))
    && (k > 0 && taken ==> pc in g.btb && g.btb[pc] == target)
    && (k >= 65 ==> i in g.tables.bht && if taken then g.tables.bht[i] >= 1 else g.tables.bht[i] <= 2)
    && (k >= 66 ==> if taken then g.tables.bht[i] >= 2 else g.tables.bht[i] <= 1)
  }

  lemma SettlingSteps(g: Gshare, pc: Dword, taken: bool, target: Dword, k: nat)
    requires Settling(g, pc, taken, target, k)
    ensures Settling(Updated(g, pc, taken, target), pc, taken, target, k + 1)
  {
    hide Hash, Shifted, FullHistory, LastOutcomes;
    var h := g.tables.history;
    if k < 64 {
      OneMoreOutcome(h, taken, k);
      if k == 63 { HistoryFills(Shifted(h, taken), taken); }
    } else {
      FullHistoryStays(taken);
    }
  }

  lemma AskingKeepsSettling(g: Gshare, pc: Dword, taken: bool, target: Dword, k: nat, asked: Dword)
    requires Settling(g, pc, taken, target, k)
    ensures Settling(Lookup(g, asked), pc, taken, target, k)
  {
    hide Hash, Shifted, FullHistory, LastOutcomes;
  }

  lemma {:induction false} SettlesInStep(g: Gshare, es: seq<Event>, pc: Dword, taken: bool, target: Dword, n: nat)
    requires CountersInRange(g) && Steady(es, pc, taken, target) && n <= |es|
    ensures Settling(After(g, es, n), pc, taken, target, Resolutions(es, n))
  {
    if n == 0 {
      hide Hash, Shifted;
      assert LastOutcomes(g.tables.history, taken, 0);
    } else {
      hide Settling, CountersInRange, Updated, Lookup;
      SettlesInStep(g, es, pc, taken, target, n - 1);
      var g', k := After(g, es, n - 1), Resolutions(es, n - 1);
      match es[n - 1]
      case Ask(asked) => AskingKeepsSettling(g', pc, taken, target, k, asked);
      case Resolve(_, _, _) => SettlingSteps(g', pc, taken, target, k);
    }
  }

  /** From any state with sound counters, 66 resolutions of a branch with the same outcome, mixed with
      any questions, make the predictor answer that outcome, with the right target, from then on. */
  lemma Converges(g: Gshare, es: seq<Event>, pc: Dword, taken: bool, target: Dword, other: Dword, n: nat)
    requires CountersInRange(g) && Steady(es, pc, taken, target) && n <= |es| && Resolutions(es, n) >= 66
    ensures Predicted(After(g, es, n), pc, other) ==
      if taken then Prediction(true, target) else Prediction(false, other)
  {
    hide Hash, FullHistory;
    SettlesInStep(g, es, pc, taken, target, n);
  }
}
