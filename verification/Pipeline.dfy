/** The five-stage machine: one clock tick as a function of the latches. */
module Pipeline {
  import opened HazardUnit
  import opened InstructionFields
  import opened SingleCycle

  /** The branch predictor: its direction tables, and the target of the latest taken update of
      each address. */
  datatype Bpu<V, P> = Bpu(tables: P, btb: map<V, V>)

  datatype Prediction<V, P> = Prediction(isTaken: bool, targetPc: V, bpu: Bpu<V, P>)

  /** Taken needs both a favourable counter and a remembered target. */
  function Predict<V(==), M, P>(d: Datapath<V, M, P>, b: Bpu<V, P>, pc: V, other: V): Prediction<V, P> {
    var b' := b.(tables := d.afterLookup(b.tables, pc));
    if d.direction(b.tables, pc) && pc in b.btb then Prediction(true, b.btb[pc], b')
    else Prediction(false, other, b')
  }

  function Update<V(==), M, P>(d: Datapath<V, M, P>, b: Bpu<V, P>, pc: V, taken: bool, target: V): Bpu<V, P> {
    Bpu(d.train(b.tables, pc, taken), if taken then b.btb[pc := target] else b.btb)
  }

  datatype Vm<V, M, P> = Vm(
    pc: V, regs: Regs<V>, mem: M,
    ifId: IfId<V>, idEx: IdEx<V>, exMem: ExMem<V>, memWb: MemWb<V>,
    bpu: Bpu<V, P>, stallCount: nat)

  // The latches after a reset.

  function NoIfId<V, M, P>(d: Datapath<V, M, P>): IfId<V> {
    IfId(d.zero, d.zero, 0, false, false)
  }

  function NoIdEx<V, M, P>(d: Datapath<V, M, P>): IdEx<V> {
    IdEx(d.zero, d.zero, d.zero, d.zero, d.zero, 0, 0, 0, false, NO_SIGNALS, FromDecode, FromDecode)
  }

  function NoExMem<V, M, P>(d: Datapath<V, M, P>): ExMem<V> {
    ExMem(d.zero, d.zero, 0, 0, 0, false, NO_SIGNALS)
  }

  function NoMemWb<V, M, P>(d: Datapath<V, M, P>): MemWb<V> {
    MemWb(d.zero, d.zero, 0, 0, false, NO_SIGNALS)
  }

  // ----- write-back -----

  function WbValue<V>(w: MemWb<V>): V {
    if w.signals.memToReg then w.memData else w.aluAns
  }

  function WriteBack<V>(regs: Regs<V>, w: MemWb<V>): Regs<V> {
    if w.valid && w.signals.regWrite then WriteGpr(regs, w.rd, WbValue(w)) else regs
  }

  // ----- memory -----

  function MemLatch<V, M, P>(d: Datapath<V, M, P>, mem: M, e: ExMem<V>): MemWb<V> {
    if !e.valid then NoMemWb(d)
    else MemWb(e.aluAns, if e.signals.memRead then d.load(mem, e.funct3, e.aluAns) else d.zero,
               e.rd, e.inst, true, e.signals)
  }

  function MemEffect<V, M, P>(d: Datapath<V, M, P>, mem: M, e: ExMem<V>): M {
    if !e.valid then mem
    else if e.signals.memRead then d.afterLoad(mem, e.funct3, e.aluAns)
    else if e.signals.memWrite then d.store(mem, e.funct3, e.aluAns, e.data)
    else mem
  }

  // ----- execute -----

  function Operand<V>(source: ForwardSource, decoded: V, exMem: ExMem<V>, memWb: MemWb<V>): V {
    match source
    case FromDecode => decoded
    case FromExecute => exMem.aluAns
    case FromMemory => WbValue(memWb)
  }

  function Execute<V, M, P>(d: Datapath<V, M, P>, x: IdEx<V>, exMem: ExMem<V>, memWb: MemWb<V>): ExMem<V> {
    if !x.valid then NoExMem(d)
    else
      var reg1 := Operand(x.forwardA, x.rs1Data, exMem, memWb);
      var reg2 := Operand(x.forwardB, x.rs2Data, exMem, memWb);
      var opcode := Opcode(x.inst);
      var result :=
        if opcode == 0x6F || opcode == 0x67 then x.pcPlus4
        else d.alu(x.inst, reg1, if x.signals.aluSrc then x.imm else reg2);
      ExMem(result, reg2, x.rd, x.funct3, x.inst, true, x.signals)
  }

  // ----- decode -----

  /** What the decode stage leaves behind: the next ID/EX latch, the program counter, and
      whether the fetch stage of the same tick must hold or drop its instruction. */
  datatype Decoded<V, P> = Decoded(
    idEx: IdEx<V>, pc: V, bpu: Bpu<V, P>, stalled: bool, flushFetch: bool, stallCount: nat)

  predicate IsJump(inst: bv32) {
    Opcode(inst) == 0x6F || Opcode(inst) == 0x67
  }

  predicate IsControlFlow(inst: bv32) {
    IsJump(inst) || Opcode(inst) == 0x63
  }

  function FilledIdEx<V, M, P>(d: Datapath<V, M, P>, f: IfId<V>, regs: Regs<V>, c: PipelineControl): IdEx<V> {
    IdEx(d.zero, f.pcPlus4, d.ReadGpr(regs, Rs1(f.inst)), d.ReadGpr(regs, Rs2(f.inst)), d.imm(f.inst),
         f.inst, Rd(f.inst), Funct3(f.inst), true, ControlSignals(f.inst), c.forwardA, c.forwardB)
  }

  /** The latch of a jump that was not predicted: its return address is parked in aluAns. */
  function JumpIdEx<V, M, P>(d: Datapath<V, M, P>, f: IfId<V>): IdEx<V> {
    NoIdEx(d).(valid := true, signals := NO_SIGNALS.(regWrite := true),
               aluAns := f.pcPlus4, rd := Rd(f.inst), inst := f.inst)
  }

  function Decode<V(==), M, P>(d: Datapath<V, M, P>, mode: int, v: Vm<V, M, P>, regs: Regs<V>): Decoded<V, P> {
    var f := v.ifId;
    var c := ComputeSignals(mode, f.inst, v.idEx, v.exMem);
    if c.stallFetch then Decoded(NoIdEx(d), v.pc, v.bpu, true, false, v.stallCount + 1)
    else if c.flushDecode || !f.valid then Decoded(NoIdEx(d), v.pc, v.bpu, false, false, v.stallCount)
    else if !IsControlFlow(f.inst) then
      Decoded(FilledIdEx(d, f, regs, c), v.pc, v.bpu, false, false, v.stallCount)
    else
      var reg1, reg2 := d.ReadGpr(regs, Rs1(f.inst)), d.ReadGpr(regs, Rs2(f.inst));
      var taken := IsJump(f.inst) || d.taken(Funct3(f.inst), reg1, reg2);
      var target := d.add(if Opcode(f.inst) == 0x67 then reg1 else f.pc, d.imm(f.inst));
      var bpu' := if mode >= 5 then Update(d, v.bpu, f.pc, taken, target) else v.bpu;
      var rightDirection :=
        if mode == 4 then !taken
        else if mode >= 5 then taken == f.predictedTaken
        else true;
      if rightDirection && (!IsJump(f.inst) || f.predictedTaken) then
        Decoded(FilledIdEx(d, f, regs, c), v.pc, bpu', false, false, v.stallCount)
      else
        Decoded(if IsJump(f.inst) then JumpIdEx(d, f) else NoIdEx(d),
                if taken then target else f.pcPlus4, bpu', false, true, v.stallCount + 1)
  }

  // ----- fetch -----

  datatype Fetched<V, P> = Fetched(ifId: IfId<V>, pc: V, bpu: Bpu<V, P>)

  function Fetch<V(==), M, P>(d: Datapath<V, M, P>, mode: int, mem: M, f: IfId<V>, o: Decoded<V, P>): Fetched<V, P> {
    if o.flushFetch then Fetched(NoIfId(d), o.pc, o.bpu)
    else if o.stalled then Fetched(f, o.pc, o.bpu)
    else
      var next := d.next(o.pc);
      var r := if mode >= 5 then Predict(d, o.bpu, o.pc, next) else Prediction(false, next, o.bpu);
      Fetched(IfId(o.pc, next, d.fetch(mem, o.pc), true, r.isTaken), r.targetPc, r.bpu)
  }

  // ----- one clock tick -----

  function Tick<V(==), M, P>(d: Datapath<V, M, P>, mode: int, v: Vm<V, M, P>): Vm<V, M, P> {
    var regs := WriteBack(v.regs, v.memWb);
    var memWb, mem := MemLatch(d, v.mem, v.exMem), MemEffect(d, v.mem, v.exMem);
    var exMem := Execute(d, v.idEx, v.exMem, v.memWb);
    var o := Decode(d, mode, v, regs);
    var f := Fetch(d, mode, mem, v.ifId, o);
    Vm(f.pc, regs, mem, f.ifId, o.idEx, exMem, memWb, f.bpu, o.stallCount)
  }
}
