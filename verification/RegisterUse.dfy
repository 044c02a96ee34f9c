/** The registers an instruction reads and writes, by its mnemonic, are those the hazard unit believes. */
module RegisterUse {
  import opened InstructionFields
  import opened HazardUnit
  import opened Instructions
  import opened CodeGenerator
  import opened SingleCycle
  import opened MnemonicMeaning
  import opened MnemonicEffects
  import opened IssueGaps

  predicate IsInteger(m: Mnemonic) { m.R? || m.I1? || m.I2? || m.S? || m.B? || m.U? || m.J? }

  /** The registers the format reads. */
  function Sources(m: Mnemonic, o: Operands): set<bv32> {
    if m.R? || m.S? || m.B? then {o.rs1, o.rs2} else if m.I1? || m.I2? then {o.rs1} else {}
  }

  /** The formats with a destination, but for the word operations, which have no control signals. */
  predicate HasDestination(m: Mnemonic) {
    || (m.R? && !IsWordOp(m.r)) || (m.I1? && m.i1 != ADDIW) || (m.I2? && m.i2 !in {SLLIW, SRLIW, SRAIW})
    || m.U? || m.J?
  }

  lemma OpcodeOf(m: Mnemonic)
    requires IsInteger(m)
    ensures
      var op := EncodingOf(m).opcode;
      match m
      case R(r) => op == if IsWordOp(r) then 0x3B else 0x33
      case I1(i) => op == if IsLoad(i) then 0x03 else if i == JALR then 0x67 else if i == ADDIW then 0x1B else 0x13
      case I2(i) => op == if i in {SLLIW, SRLIW, SRAIW} then 0x1B else 0x13
      case S(_) => op == 0x23
      case B(_) => op == 0x63
      case U(u) => op == if u == LUI then 0x37 else 0x17
      case J(_) => op == 0x6F
      case _ => false
  {
    match m
    case R(r) => RegisterOpcode(r);
    case I1(i) => ImmediateOpcode(i);
    case I2(i) => ShiftOpcode(i);
    case S(s) => OtherOpcodes(s, JAL, LUI);
    case B(b) => BranchTableDecides(b, 0, 0);
    case U(u) => OtherOpcodes(SB, JAL, u);
    case J(j) => OtherOpcodes(SB, j, LUI);
  }

  /** The fields of the word that the format has. */
  lemma FieldsOf(m: Mnemonic, o: Operands)
    requires IsInteger(m) && Encodable(EncodingOf(m), o)
    ensures
      var w := Encode(EncodingOf(m), o);
      && Opcode(w) == EncodingOf(m).opcode
      && (HasDestination(m) ==> Rd(w) == o.rd)
      && (m.R? || m.I1? || m.I2? || m.S? || m.B? ==> Rs1(w) == o.rs1)
      && (m.R? || m.S? || m.B? ==> Rs2(w) == o.rs2)
  {
    hide RTable, I1Table, I2Table, STable, BTable, UTable, JTable, Opcode, Rd, Rs1, Rs2, Encode, IsWordOp, Encodable;
    match m
    case R(r) => RegisterFormReadsBack(RTable(r), o);
    case I1(i) => ImmediateFormReadsBack(I1Table(i), o);
    case I2(i) => ShiftFormReadsBack(I2Table(i), o);
    case S(s) => StoreFormReadsBack(STable(s), o);
    case B(b) => BranchFormReadsBack(BTable(b), o);
    case U(u) => UpperFormReadsBack(UTable(u), o);
    case J(j) => JumpFormReadsBack(JTable(j), o);
  }

  lemma UsesByOpcode(w: bv32, op: bv32)
    requires op == Opcode(w) && IntegerOpcode(op) && op != 0
    ensures UsesRs1(w) <==> op != 0x37 && op != 0x17 && op != 0x6F
    ensures UsesRs2(w) <==> op == 0x33 || op == 0x3B || op == 0x23 || op == 0x63
    ensures !UsesRs3(w)
  {
    hide Opcode, Funct3, Funct7;
  }

  /** The hazard unit takes exactly the registers of the format for read. */
  lemma ReadsExactlySources(m: Mnemonic, o: Operands, r: bv32)
    requires IsInteger(m) && Encodable(EncodingOf(m), o)
    ensures Reads(Encode(EncodingOf(m), o), r) <==> r in Sources(m, o)
  {
    hide EncodingOf, Opcode, Rd, Rs1, Rs2, Encode, IsWordOp, IsLoad, Encodable, UsesRs1, UsesRs2, UsesRs3;
    OpcodeOf(m);
    FieldsOf(m, o);
    UsesByOpcode(Encode(EncodingOf(m), o), EncodingOf(m).opcode);
  }

  lemma WritesByOpcode(w: bv32)
    ensures
      var op := Opcode(w);
      IntegerOpcode(op) && op != 0 ==>
        (ControlSignals(w).regWrite <==> op != 0x3B && op != 0x1B && op != 0x23 && op != 0x63)
  {
    hide Opcode;
  }

  /** And a later instruction depends on an earlier one exactly if that one has a destination it reads. */
  lemma DependsExactly(m: Mnemonic, o: Operands, earlier: Mnemonic, e: Operands)
    requires IsInteger(m) && Encodable(EncodingOf(m), o) && IsInteger(earlier) && Encodable(EncodingOf(earlier), e)
    ensures
      DependsOn(Encode(EncodingOf(m), o), Encode(EncodingOf(earlier), e)) <==>
        HasDestination(earlier) && e.rd != 0 && e.rd in Sources(m, o)
  {
    hide EncodingOf, Opcode, Rd, Encode, IsWordOp, Encodable, Reads, Sources, ControlSignals;
    var w := Encode(EncodingOf(earlier), e);
    OpcodeOf(earlier);
    FieldsOf(earlier, e);
    WritesByOpcode(w);
    ReadsExactlySources(m, o, Rd(w));
  }

  /** The loads are those with a load mnemonic. */
  lemma LoadWordsExactly(m: Mnemonic, o: Operands)
    requires IsInteger(m) && Encodable(EncodingOf(m), o)
    ensures IsLoadWord(Encode(EncodingOf(m), o)) <==> m.I1? && IsLoad(m.i1)
    ensures IsBranchOrJalr(Encode(EncodingOf(m), o)) <==> m.B? || (m.I1? && m.i1 == JALR)
  {
    hide EncodingOf, Opcode, Encode, Encodable;
    OpcodeOf(m);
    FieldsOf(m, o);
  }
}
