/** The latches between the five stages, and the unit that compares the instruction in
    decode with the two latches ahead of it. */
module HazardUnit {
  import opened InstructionFields

  /** Where an operand of the execute stage comes from. */
  datatype ForwardSource = FromDecode | FromExecute | FromMemory

  /** The control bits an instruction carries along the pipeline. */
  datatype Signals = Signals(
    aluSrc: bool, memRead: bool, memWrite: bool, regWrite: bool, memToReg: bool)

  const NO_SIGNALS := Signals(false, false, false, false, false)

  // The latches; V is the type of a register value or address.

  datatype IfId<V> = IfId(pc: V, pcPlus4: V, inst: bv32, valid: bool, predictedTaken: bool)

  datatype IdEx<V> = IdEx(
    aluAns: V, pcPlus4: V, rs1Data: V, rs2Data: V, imm: V, inst: bv32, rd: bv32, funct3: bv32,
    valid: bool, signals: Signals, forwardA: ForwardSource, forwardB: ForwardSource)

  datatype ExMem<V> = ExMem(
    aluAns: V, data: V, rd: bv32, funct3: bv32, inst: bv32, valid: bool, signals: Signals)

  datatype MemWb<V> = MemWb(
    aluAns: V, memData: V, rd: bv32, inst: bv32, valid: bool, signals: Signals)

  /** What the unit tells the other stages. */
  datatype PipelineControl = PipelineControl(
    stallFetch: bool, flushDecode: bool, forwardA: ForwardSource, forwardB: ForwardSource)

  const NO_ACTION := PipelineControl(false, false, FromDecode, FromDecode)
  const STALL := PipelineControl(true, true, FromDecode, FromDecode)

  predicate IsFInstruction(inst: bv32) {
    var opcode, funct3, funct7 := Opcode(inst), Funct3(inst), Funct7(inst);
    if opcode == 0x07 || opcode == 0x27 then funct3 == 2
    else if opcode == 0x53 then funct7 & 1 == 0 && funct7 != 0x20
    else false
  }

  predicate IsDInstruction(inst: bv32) {
    var opcode, funct3, funct7 := Opcode(inst), Funct3(inst), Funct7(inst);
    if opcode == 0x07 || opcode == 0x27 then funct3 == 3
    else if opcode == 0x53 then funct7 & 1 == 1 || funct7 == 0x20
    else false
  }

  predicate IsFloat(inst: bv32) {
    IsFInstruction(inst) || IsDInstruction(inst)
  }

  /** Which register fields the unit believes the instruction reads. */
  predicate UsesRs1(inst: bv32) {
    var opcode := Opcode(inst);
    if IsFloat(inst) then opcode == 0x07 || opcode == 0x27 || opcode == 0x53 || opcode & 0xCF == 0x43
    else opcode == 0x13 || opcode == 0x03 || opcode == 0x1B || opcode == 0x33 || opcode == 0x3B
         || opcode == 0x23 || opcode == 0x63 || opcode == 0x67
  }

  predicate UsesRs2(inst: bv32) {
    var opcode := Opcode(inst);
    if IsFloat(inst) then opcode != 0x07 && (opcode == 0x27 || opcode == 0x53 || opcode & 0xCF == 0x43)
    else opcode == 0x33 || opcode == 0x3B || opcode == 0x23 || opcode == 0x63
  }

  predicate UsesRs3(inst: bv32) {
    var opcode := Opcode(inst);
    IsFloat(inst) && opcode != 0x07 && opcode != 0x27 && opcode != 0x53 && opcode & 0xCF == 0x43
  }

  /** True when register rd is one of the first two or three operands of the instruction. */
  predicate Reads(inst: bv32, rd: bv32) {
    (UsesRs1(inst) && rd == Rs1(inst)) || (UsesRs2(inst) && rd == Rs2(inst)) || (UsesRs3(inst) && rd == Rs3(inst))
  }

  predicate ReadsFirstTwo(inst: bv32, rd: bv32) {
    (UsesRs1(inst) && rd == Rs1(inst)) || (UsesRs2(inst) && rd == Rs2(inst))
  }

  predicate ExWrites<V>(idEx: IdEx<V>) {
    idEx.valid && idEx.signals.regWrite && idEx.rd != 0
  }

  predicate MemWrites<V>(exMem: ExMem<V>) {
    exMem.valid && exMem.signals.regWrite && exMem.rd != 0
  }

  function Forward<V>(used: bool, rs: bv32, idEx: IdEx<V>, exMem: ExMem<V>): ForwardSource {
    if !used then FromDecode
    else if ExWrites(idEx) && idEx.rd == rs then FromExecute
    else if MemWrites(exMem) && exMem.rd == rs then FromMemory
    else FromDecode
  }

  predicate IsBranchOrJalr(inst: bv32) {
    Opcode(inst) == 0x63 || Opcode(inst) == 0x67
  }

  /** The control word for the instruction in decode. The MEM/WB latch takes no part:
      write-back happens before the register read of the same cycle. */
  function ComputeSignals<V>(mode: int, inst: bv32, idEx: IdEx<V>, exMem: ExMem<V>): PipelineControl {
    if mode == 1 then NO_ACTION
    else if mode == 2 then
      if (ExWrites(idEx) && Reads(inst, idEx.rd)) || (MemWrites(exMem) && Reads(inst, exMem.rd))
      then STALL else NO_ACTION
    else if mode >= 3 then
      if idEx.valid && idEx.signals.memRead && idEx.rd != 0 && Reads(inst, idEx.rd) then STALL
      else if IsBranchOrJalr(inst)
           && ((ExWrites(idEx) && ReadsFirstTwo(inst, idEx.rd)) || (MemWrites(exMem) && ReadsFirstTwo(inst, exMem.rd)))
      then STALL
      else PipelineControl(false, false,
                           Forward(UsesRs1(inst), Rs1(inst), idEx, exMem),
                           Forward(UsesRs2(inst), Rs2(inst), idEx, exMem))
    else NO_ACTION
  }

  /** An instruction ahead of decode: the register it will write, if any, and the latch its result can
      be taken from. */
  datatype Ahead = Ahead(writes: bool, rd: bv32, source: ForwardSource)

  /** The instructions ahead, the youngest first. */
  function InstructionsAhead<V>(idEx: IdEx<V>, exMem: ExMem<V>): seq<Ahead> {
    [Ahead(idEx.valid && idEx.signals.regWrite, idEx.rd, FromExecute),
     Ahead(exMem.valid && exMem.signals.regWrite, exMem.rd, FromMemory)]
  }

  /** Register x0 is never written. */
  predicate WritesTo(a: Ahead, rs: bv32) { a.writes && a.rd == rs && rs != 0 }

  /** Of all instructions ahead that write the register, the k-th comes last in program order. */
  predicate IsYoungestWriter(ahead: seq<Ahead>, k: nat, rs: bv32) {
    k < |ahead| && WritesTo(ahead[k], rs) && forall j :: 0 <= j < k ==> !WritesTo(ahead[j], rs)
  }

  /** With forwarding, an instruction let through gets every operand it reads from the youngest writer
      ahead, and from the register file if there is none; the writer is never a load still in execute,
      and x0 is never forwarded. */
  lemma ForwardingPicksYoungest<V>(mode: int, inst: bv32, idEx: IdEx<V>, exMem: ExMem<V>, rs: bv32,
                                   source: ForwardSource)
    requires mode >= 3 && !ComputeSignals(mode, inst, idEx, exMem).stallFetch
    requires
      var c := ComputeSignals(mode, inst, idEx, exMem);
      (UsesRs1(inst) && rs == Rs1(inst) && source == c.forwardA)
        || (UsesRs2(inst) && rs == Rs2(inst) && source == c.forwardB)
    ensures
      var ahead := InstructionsAhead(idEx, exMem);
      && (forall k: nat :: IsYoungestWriter(ahead, k, rs) ==> source == ahead[k].source)
      && (source == FromDecode <==> forall j :: 0 <= j < |ahead| ==> !WritesTo(ahead[j], rs))
    ensures source == FromExecute ==> !idEx.signals.memRead
    ensures rs == 0 ==> source == FromDecode
  {
    hide Opcode, Rs1, Rs2, UsesRs1, UsesRs2;
    var ahead := InstructionsAhead(idEx, exMem);
    assert source == Forward(true, rs, idEx, exMem);
    assert WritesTo(ahead[0], rs) <==> ExWrites(idEx) && idEx.rd == rs;
    assert WritesTo(ahead[1], rs) <==> MemWrites(exMem) && exMem.rd == rs;
  }
}
