/** When the pipeline drops what it fetched, where it fetches on, and what its predictor learns: judged by the
    sequential machine. */
module FrontEnd {
  import opened HazardUnit
  import opened InstructionFields
  import opened SingleCycle
  import opened Pipeline
  import opened PipelineRefinement

  /** The sequential machine goes to the target of the instruction. */
  predicate Goes<V, M, P>(d: Datapath<V, M, P>, inst: bv32, s: Arch<V, M>) {
    || IsJump(inst)
    || (Opcode(inst) == 0x63 && d.taken(Funct3(inst), d.ReadGpr(s.regs, Rs1(inst)), d.ReadGpr(s.regs, Rs2(inst))))
  }

  lemma OperandsAreCurrent<V, M, P>(d: Datapath<V, M, P>, mode: int, v: Vm<V, M, P>)
    requires mode >= 2 && WellFormed(v) && Issues(mode, v)
    ensures
      var inst := v.ifId.inst;
      && (IsBranchOrJalr(inst) ==>
            d.ReadGpr(WriteBack(v.regs, v.memWb), Rs1(inst)) == d.ReadGpr(Drained(d, v).regs, Rs1(inst)))
      && (Opcode(inst) == 0x63 ==>
            d.ReadGpr(WriteBack(v.regs, v.memWb), Rs2(inst)) == d.ReadGpr(Drained(d, v).regs, Rs2(inst)))
  {
    hide Drained, WriteBack, Stalls;
    if IsBranchOrJalr(v.ifId.inst) { BranchOperandIsCurrent(d, mode, v, Rs1(v.ifId.inst)); }
    if Opcode(v.ifId.inst) == 0x63 { BranchOperandIsCurrent(d, mode, v, Rs2(v.ifId.inst)); }
  }

  lemma DecodeRedirects<V, M, P>(d: Datapath<V, M, P>, mode: int, v: Vm<V, M, P>, regs: Regs<V>)
    requires mode >= 2 && Issues(mode, v) && (v.ifId.predictedTaken ==> mode >= 5)
    ensures
      var inst := v.ifId.inst;
      var taken := IsJump(inst) || d.taken(Funct3(inst), d.ReadGpr(regs, Rs1(inst)), d.ReadGpr(regs, Rs2(inst)));
      Decode(d, mode, v, regs).flushFetch <==>
        IsControlFlow(inst) && taken != v.ifId.predictedTaken && (mode >= 4 || IsJump(inst))
  {
    hide Reads, ReadsFirstTwo, ControlSignals;
  }

  /** In modes 4 and 5 the instruction fetched behind a branch or jump is dropped exactly if its direction was
      not predicted; in modes 2 and 3 behind every jump, and never behind a branch. */
  lemma RedirectsExactly<V, M, P>(d: Datapath<V, M, P>, mode: int, v: Vm<V, M, P>)
    requires mode >= 2 && WellFormed(v) && Issues(mode, v) && (v.ifId.predictedTaken ==> mode >= 5)
    ensures
      var inst := v.ifId.inst;
      !Tick(d, mode, v).ifId.valid <==>
        && IsControlFlow(inst) && Goes(d, inst, Drained(d, v)) != v.ifId.predictedTaken
        && (mode >= 4 || IsJump(inst))
  {
    OperandsAreCurrent(d, mode, v);
    DecodeRedirects(d, mode, v, WriteBack(v.regs, v.memWb));
    hide Drained, WriteBack, Decode, Execute, MemLatch, MemEffect, WellFormed;
  }

  /** The predictor learns what the sequential machine does, once an instruction and in its order: in mode 5
      each branch and jump that issues, and nothing else. */
  function Learnt<V, M, P>(d: Datapath<V, M, P>, mode: int, v: Vm<V, M, P>): P {
    if mode >= 5 && Issues(mode, v) && IsControlFlow(v.ifId.inst) then
      d.train(v.bpu.tables, v.ifId.pc, Goes(d, v.ifId.inst, Drained(d, v)))
    else v.bpu.tables
  }

  /** And it remembers where each of them that is taken goes. */
  function Targets<V(==), M, P>(d: Datapath<V, M, P>, mode: int, v: Vm<V, M, P>): map<V, V> {
    var inst, s := v.ifId.inst, Drained(d, v);
    if mode >= 5 && Issues(mode, v) && IsControlFlow(inst) && Goes(d, inst, s) then
      v.bpu.btb[v.ifId.pc := NextPc(d, inst, v.ifId.pc, s.regs)]
    else v.bpu.btb
  }

  lemma DecodeRemembers<V, M, P>(d: Datapath<V, M, P>, mode: int, v: Vm<V, M, P>)
    requires mode >= 2 && WellFormed(v)
    ensures DecodeStage(d, mode, v).bpu.btb == Targets(d, mode, v)
  {
    if Issues(mode, v) { OperandsAreCurrent(d, mode, v); }
    hide Drained, WriteBack, Reads, ReadsFirstTwo, ControlSignals;
  }

  /** No tick learns anything else. */
  lemma LearnsExactly<V, M, P>(d: Datapath<V, M, P>, mode: int, v: Vm<V, M, P>)
    requires mode >= 2 && WellFormed(v)
    ensures
      var v' := Tick(d, mode, v);
      && v'.bpu.btb == Targets(d, mode, v)
      && (v'.bpu.tables == Learnt(d, mode, v)
          || (mode >= 5 && v'.bpu.tables == d.afterLookup(Learnt(d, mode, v), v.pc)))
  {
    DecodeLearns(d, mode, v);
    DecodeRemembers(d, mode, v);
    if !Stalls(mode, v) { KeepsPc(d, mode, v); }
    hide Drained, Decode, Execute, MemLatch, MemEffect, WellFormed, Learnt, Targets, WriteBack;
  }

  lemma DecodeLearns<V, M, P>(d: Datapath<V, M, P>, mode: int, v: Vm<V, M, P>)
    requires mode >= 2 && WellFormed(v)
    ensures DecodeStage(d, mode, v).bpu.tables == Learnt(d, mode, v)
  {
    if Issues(mode, v) { OperandsAreCurrent(d, mode, v); }
    hide Drained, WriteBack, Reads, ReadsFirstTwo, ControlSignals;
  }

  /** What is fetched if nothing waits and nothing is dropped: the word at the program counter; and fetching
      goes on at the remembered target if the predictor, with what it has learnt, favours taken, and at the
      next word otherwise. */
  lemma FetchesExactly<V, M, P>(d: Datapath<V, M, P>, mode: int, v: Vm<V, M, P>)
    requires mode >= 2 && WellFormed(v) && !Stalls(mode, v) && Tick(d, mode, v).ifId.valid
    ensures
      var v' := Tick(d, mode, v);
      var f, learnt := v'.ifId, Learnt(d, mode, v);
      && f.pc == v.pc && f.pcPlus4 == d.next(v.pc) && f.inst == d.fetch(v'.mem, v.pc)
      && (f.predictedTaken <==> mode >= 5 && v.pc in Targets(d, mode, v) && d.direction(learnt, v.pc))
      && v'.pc == (if f.predictedTaken then Targets(d, mode, v)[v.pc] else d.next(v.pc))
      && v'.bpu.tables == if mode >= 5 then d.afterLookup(learnt, v.pc) else learnt
  {
    DecodeLearns(d, mode, v);
    DecodeRemembers(d, mode, v);
    KeepsPc(d, mode, v);
    hide Drained, Decode, Execute, MemLatch, MemEffect, WellFormed, Learnt, Targets, WriteBack;
  }

  lemma KeepsPc<V, M, P>(d: Datapath<V, M, P>, mode: int, v: Vm<V, M, P>)
    requires !Stalls(mode, v)
    ensures
      var o := DecodeStage(d, mode, v);
      !o.stalled && (!o.flushFetch ==> o.pc == v.pc)
  {
    hide WriteBack, ComputeSignals;
  }
}
