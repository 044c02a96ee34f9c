/** What the gshare index is for: the same branch under different histories has different counters, and
    training one counter leaves all others alone. */
module GshareLaws {
  import opened Words
  import opened BranchPredictor

  // ----- the index -----

  predicate Mixed(a: bv64, b: bv64, c: bv64) { c == a ^ b }

  lemma MixedBit(a: bv64, b: bv64, c: bv64, i: bv64)
    requires Mixed(a, b, c) && i < 64
    ensures Bit(c, i) <==> Bit(a, i) != Bit(b, i)
  {
    hide Bit;
    XorBit(a, b, i);
  }

  lemma HashMixes(pc: Dword, history: bv64)
    ensures Mixed(pc.bits, history, Hash(pc, history).bits)
  {
  }

  /** Bit i of the index is the bit of the address, turned over where the history has a one. */
  lemma IndexBit(pc: Dword, history: bv64, i: bv64)
    requires i < 64
    ensures Bit(Hash(pc, history).bits, i) <==> Bit(pc.bits, i) != Bit(history, i)
  {
    hide *;
    HashMixes(pc, history);
    MixedBit(pc.bits, history, Hash(pc, history).bits, i);
  }

  /** Bits decide words. */
  lemma BitsDecide(a: bv64, b: bv64)
    requires forall i: bv64 {:trigger Bit(a, i)} :: i < 64 ==> Bit(a, i) == Bit(b, i)
    ensures a == b
  {
    if a != b {
      var i := DifferentBit(a, b);
      assert false;
    }
  }

  /** Two branches under two histories share a counter exactly if at every bit their addresses differ as
      their histories do. */
  lemma SharesCounterExactly(pc: Dword, h: bv64, pc': Dword, h': bv64)
    ensures Hash(pc, h) == Hash(pc', h') <==>
      forall i: bv64 {:trigger Bit(pc.bits, i)} :: i < 64 ==>
        ((Bit(pc.bits, i) != Bit(pc'.bits, i)) <==> (Bit(h, i) != Bit(h', i)))
  {
    hide Hash, Bit;
    forall i: bv64 | i < 64
      ensures Bit(Hash(pc, h).bits, i) <==> Bit(pc.bits, i) != Bit(h, i)
      ensures Bit(Hash(pc', h').bits, i) <==> Bit(pc'.bits, i) != Bit(h', i)
    {
      IndexBit(pc, h, i);
      IndexBit(pc', h', i);
    }
    if forall i: bv64 {:trigger Bit(pc.bits, i)} :: i < 64 ==>
        ((Bit(pc.bits, i) != Bit(pc'.bits, i)) <==> (Bit(h, i) != Bit(h', i))) {
      forall i: bv64 | i < 64
        ensures Bit(Hash(pc, h).bits, i) == Bit(Hash(pc', h').bits, i)
      {
        assert Bit(pc.bits, i) == Bit(pc.bits, i);
      }
      BitsDecide(Hash(pc, h).bits, Hash(pc', h').bits);
    }
  }

  /** One branch under two histories: two counters. */
  lemma HistoriesSeparate(pc: Dword, h: bv64, h': bv64)
    ensures Hash(pc, h) == Hash(pc, h') <==> h == h'
  {
    hide Hash, Bit;
    if h != h' {
      var i := DifferentBit(h, h');
      IndexBit(pc, h, i);
      IndexBit(pc, h', i);
    }
  }

  // ----- training -----

  /** The same counters, with another history. */
  function Under(t: Tables, history: bv64): Tables { t.(history := history) }

  /** Training a branch leaves every answer alone that reads another counter. */
  lemma TrainingIsLocal(t: Tables, pc: Dword, taken: bool, pc': Dword, h': bv64)
    requires Hash(pc', h') != Hash(pc, t.history)
    ensures Favours(Under(Train(t, pc, taken), h'), pc') == Favours(Under(t, h'), pc')
    ensures Favours(Under(AfterLookup(t, pc), h'), pc') == Favours(Under(t, h'), pc')
  {
    hide Hash, Shifted;
  }

  /** So what a branch learns under one history says nothing about it under another. */
  lemma LearnsPerHistory(t: Tables, pc: Dword, taken: bool, h': bv64)
    requires h' != t.history
    ensures Favours(Under(Train(t, pc, taken), h'), pc) == Favours(Under(t, h'), pc)
  {
    hide Hash, Shifted, Favours, Train;
    HistoriesSeparate(pc, h', t.history);
    TrainingIsLocal(t, pc, taken, pc, h');
  }

  /** Two addresses and histories that meet at one counter are answered alike. */
  lemma SharedCounterAnswersAlike(t: Tables, pc: Dword, h: bv64, pc': Dword, h': bv64)
    requires Hash(pc, h) == Hash(pc', h')
    ensures Favours(Under(t, h), pc) == Favours(Under(t, h'), pc')
  {
    hide Hash;
  }

  // ----- what one counter learns -----

  predicate Sound(t: Tables) { forall i :: i in t.bht ==> 0 <= t.bht[i] <= 3 }

  /** The tables after training pc, put back under the history it was trained with. */
  function Trained(t: Tables, pc: Dword, taken: bool): Tables { Under(Train(t, pc, taken), t.history) }

  /** A counter nobody has asked for or trained answers not taken, and so does one only asked for; after one
      taken outcome the first still does, the second does not. */
  lemma FirstAnswers(t: Tables, pc: Dword)
    requires Index(t, pc) !in t.bht
    ensures !Favours(t, pc) && !Favours(AfterLookup(t, pc), pc)
    ensures !Favours(Trained(t, pc, true), pc) && Favours(Trained(AfterLookup(t, pc), pc, true), pc)
  {
    hide Hash, Shifted;
  }

  /** Two equal outcomes in a row decide a counter, whatever it was before. */
  lemma TwoDecide(t: Tables, pc: Dword, taken: bool)
    requires Sound(t)
    ensures Favours(Trained(Trained(t, pc, taken), pc, taken), pc) == taken
  {
    hide Hash, Shifted;
  }

  /** After three equal outcomes a single contrary one does not change the answer, and two do. */
  lemma OneDoesNotUndo(t: Tables, pc: Dword, taken: bool)
    requires Sound(t)
    ensures
      var settled := Trained(Trained(Trained(t, pc, taken), pc, taken), pc, taken);
      && Favours(Trained(settled, pc, !taken), pc) == taken
      && Favours(Trained(Trained(settled, pc, !taken), pc, !taken), pc) == !taken
  {
    hide Hash, Shifted;
  }

  // ----- an example -----

  lemma HistoryOfTwo()
    ensures Shifted(Shifted(0, true), true) == 3
  {
  }

  lemma HistoryOfOne()
    ensures Shifted(0, true) == 1
  {
  }

  /** A branch taken twice is still not predicted: it was trained under two other histories. */
  method TakenTwice() returns (prediction: Prediction)
    ensures prediction == Prediction(false, Dword(20))
  {
    hide Favours, Hash, Shifted;
    var unit := new BranchPredictionUnit();
    unit.Update(Dword(16), true, Dword(8));
    unit.Update(Dword(16), true, Dword(8));
    HistoryOfTwo();
    NotYetFavoured();
    prediction := unit.Predict(Dword(16), Dword(20));
  }

  lemma NotYetFavoured()
    ensures !Favours(Train(Train(FRESH.tables, Dword(16), true), Dword(16), true), Dword(16))
  {
    hide Hash, Shifted;
    HistoryOfOne();
    HistoryOfTwo();
    HistoriesSeparate(Dword(16), 3, 0);
    HistoriesSeparate(Dword(16), 3, 1);
  }
}
