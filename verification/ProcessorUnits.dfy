/** The processor's memory path and predictor are those of the simulator's own objects. */
module ProcessorUnits {
  import opened Words
  import opened FlatMemory
  import Memory
  import BranchPredictor
  import opened Processor
  import Pipeline

  /** A store of the processor is a sized store of the simulated memory. */
  lemma StoreIsMemoryStore(m: Ram, funct3: bv32, a: Dword, v: Dword)
    requires !m.refused && funct3 <= 3
    ensures
      var x := Memory.Store(U64(a.bits), v.bits, WidthOf(funct3));
      && Memory.IsAccess(x)
      && StoreValue(m, funct3, a, v).bytes == Memory.Effect(m.bytes, m.size, x)
      && (StoreValue(m, funct3, a, v).refused <==> Memory.Reply(m.bytes, m.size, x).Refused?)
  {
    U64Range(a.bits);
    hide U64, Stored;
  }

  /** So is a load, whose answer is then widened. */
  lemma LoadIsMemoryLoad(m: Ram, funct3: bv32, a: Dword)
    requires !m.refused
    ensures
      var x := Memory.Load(U64(a.bits), WidthOf(funct3));
      && Memory.IsAccess(x)
      && (AfterLoad(m, funct3, a).refused <==> Memory.Reply(m.bytes, m.size, x).Refused?)
      && (!AfterLoad(m, funct3, a).refused ==>
            LoadValue(m, funct3, a) == Dword(Widened(funct3, Memory.Reply(m.bytes, m.size, x).value)))
  {
    U64Range(a.bits);
    hide U64, Loaded, Widened;
  }

  /** The pipeline asks and trains the predictor object. */
  lemma PredictorIsGshare(g: BranchPredictor.Gshare, pc: Dword, other: Dword, taken: bool, target: Dword)
    ensures
      var b := Pipeline.Bpu(g.tables, g.btb);
      var p := Pipeline.Predict(MACHINE, b, pc, other);
      var u := Pipeline.Update(MACHINE, b, pc, taken, target);
      && BranchPredictor.Prediction(p.isTaken, p.targetPc) == BranchPredictor.Predicted(g, pc, other)
      && BranchPredictor.Gshare(p.bpu.tables, p.bpu.btb) == BranchPredictor.Lookup(g, pc)
      && BranchPredictor.Gshare(u.tables, u.btb) == BranchPredictor.Updated(g, pc, taken, target)
  {
    hide BranchPredictor.Favours, BranchPredictor.AfterLookup, BranchPredictor.Train;
  }
}
