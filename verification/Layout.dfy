/** Where the parts of an instruction lie in its word: the base formats of the RISC-V instruction set, and the
    fixed bits of the integer mnemonics. */
module Layout {
  import opened Instructions
  import opened CodeGenerator
  import opened RegisterUse

  // ----- the parts of a word, by format -----

  /** opcode in bits 0 to 6, rd from 7, funct3 from 12, rs1 from 15, rs2 from 20 and funct7 from 25. */
  predicate RegisterParts(w: bv32, opcode: bv32, rd: bv32, funct3: bv32, rs1: bv32, rs2: bv32, funct7: bv32) {
    && w & 0x7F == opcode && (w >> 7) & 0x1F == rd && (w >> 12) & 7 == funct3 && (w >> 15) & 0x1F == rs1
    && (w >> 20) & 0x1F == rs2 && w >> 25 == funct7
  }

  /** The immediate in bits 20 to 31. */
  predicate ImmediateParts(w: bv32, opcode: bv32, rd: bv32, funct3: bv32, rs1: bv32, imm: bv32) {
    && w & 0x7F == opcode && (w >> 7) & 0x1F == rd && (w >> 12) & 7 == funct3 && (w >> 15) & 0x1F == rs1
    && w >> 20 == imm & 0xFFF
  }

  /** The amount in bits 20 to 25. */
  predicate ShiftParts(w: bv32, opcode: bv32, rd: bv32, funct3: bv32, rs1: bv32, funct6: bv32, amount: bv32) {
    && w & 0x7F == opcode && (w >> 7) & 0x1F == rd && (w >> 12) & 7 == funct3 && (w >> 15) & 0x1F == rs1
    && (w >> 20) & 0x3F == amount && w >> 26 == funct6
  }

  /** Immediate bits 0 to 4 from bit 7, and 5 to 11 from bit 25. */
  predicate StoreParts(w: bv32, opcode: bv32, funct3: bv32, rs1: bv32, rs2: bv32, imm: bv32) {
    && w & 0x7F == opcode && (w >> 12) & 7 == funct3 && (w >> 15) & 0x1F == rs1 && (w >> 20) & 0x1F == rs2
    && (w >> 7) & 0x1F == imm & 0x1F && w >> 25 == (imm >> 5) & 0x7F
  }

  /** Immediate bit 11 in bit 7, 1 to 4 from bit 8, 5 to 10 from bit 25, and 12 in bit 31. */
  predicate BranchParts(w: bv32, opcode: bv32, funct3: bv32, rs1: bv32, rs2: bv32, imm: bv32) {
    && w & 0x7F == opcode && (w >> 12) & 7 == funct3 && (w >> 15) & 0x1F == rs1 && (w >> 20) & 0x1F == rs2
    && (w >> 7) & 1 == (imm >> 11) & 1 && (w >> 8) & 0xF == (imm >> 1) & 0xF
    && (w >> 25) & 0x3F == (imm >> 5) & 0x3F && w >> 31 == (imm >> 12) & 1
  }

  /** The low twenty bits of the immediate from bit 12. */
  predicate UpperParts(w: bv32, opcode: bv32, rd: bv32, imm: bv32) {
    w & 0x7F == opcode && (w >> 7) & 0x1F == rd && w >> 12 == imm & 0xFFFFF
  }

  /** Immediate bits 12 to 19 from bit 12, 11 in bit 20, 1 to 10 from bit 21, and 20 in bit 31. */
  predicate JumpParts(w: bv32, opcode: bv32, rd: bv32, imm: bv32) {
    && w & 0x7F == opcode && (w >> 7) & 0x1F == rd && (w >> 12) & 0xFF == (imm >> 12) & 0xFF
    && (w >> 20) & 1 == (imm >> 11) & 1 && (w >> 21) & 0x3FF == (imm >> 1) & 0x3FF && w >> 31 == (imm >> 20) & 1
  }

  /** The fixed bits of the mnemonic and the operands are where the format has them. */
  predicate Parts(w: bv32, e: Encoding, o: Operands) {
    match e
    case REncoding(op, f3, f7) => RegisterParts(w, op, o.rd, f3, o.rs1, o.rs2, f7)
    case I1Encoding(op, f3) => ImmediateParts(w, op, o.rd, f3, o.rs1, o.imm)
    case I2Encoding(op, f3, f6) => ShiftParts(w, op, o.rd, f3, o.rs1, f6, o.imm)
    case SEncoding(op, f3) => StoreParts(w, op, f3, o.rs1, o.rs2, o.imm)
    case BEncoding(op, f3) => BranchParts(w, op, f3, o.rs1, o.rs2, o.imm)
    case UEncoding(op) => UpperParts(w, op, o.rd, o.imm)
    case JEncoding(op) => JumpParts(w, op, o.rd, o.imm)
    case _ => false
  }

  lemma RegisterPlaces(opcode: bv32, rd: bv32, funct3: bv32, rs1: bv32, rs2: bv32, funct7: bv32)
    requires opcode < 128 && rd < 32 && funct3 < 8 && rs1 < 32 && rs2 < 32 && funct7 < 128
    ensures RegisterParts(PackR(opcode, rd, funct3, rs1, rs2, funct7), opcode, rd, funct3, rs1, rs2, funct7)
  {
  }

  lemma ImmediatePlaces(opcode: bv32, rd: bv32, funct3: bv32, rs1: bv32, imm: bv32)
    requires opcode < 128 && rd < 32 && funct3 < 8 && rs1 < 32
    ensures ImmediateParts(PackI(opcode, rd, funct3, rs1, imm), opcode, rd, funct3, rs1, imm)
  {
  }

  lemma ShiftPlaces(opcode: bv32, rd: bv32, funct3: bv32, rs1: bv32, funct6: bv32, amount: bv32)
    requires opcode < 128 && rd < 32 && funct3 < 8 && rs1 < 32 && funct6 < 64 && amount < 64
    ensures ShiftParts(PackShift(opcode, rd, funct3, rs1, funct6, amount), opcode, rd, funct3, rs1, funct6, amount)
  {
  }

  lemma StorePlaces(opcode: bv32, funct3: bv32, rs1: bv32, rs2: bv32, imm: bv32)
    requires opcode < 128 && funct3 < 8 && rs1 < 32 && rs2 < 32
    ensures StoreParts(PackS(opcode, funct3, rs1, rs2, imm), opcode, funct3, rs1, rs2, imm)
  {
  }

  lemma BranchPlaces(opcode: bv32, funct3: bv32, rs1: bv32, rs2: bv32, imm: bv32)
    requires opcode < 128 && funct3 < 8 && rs1 < 32 && rs2 < 32
    ensures BranchParts(PackB(opcode, funct3, rs1, rs2, imm), opcode, funct3, rs1, rs2, imm)
  {
  }

  lemma UpperPlaces(opcode: bv32, rd: bv32, imm: bv32)
    requires opcode < 128 && rd < 32
    ensures UpperParts(PackU(opcode, rd, imm), opcode, rd, imm)
  {
  }

  lemma JumpPlaces(opcode: bv32, rd: bv32, imm: bv32)
    requires opcode < 128 && rd < 32
    ensures JumpParts(PackJ(opcode, rd, imm), opcode, rd, imm)
  {
  }

  lemma RegisterFormHasParts(e: Encoding, o: Operands)
    requires e.REncoding? && WellSized(e) && Encodable(e, o)
    ensures Parts(Encode(e, o), e, o)
  {
    hide PackR, FitsSigned, RegisterParts;
    RegisterPlaces(e.opcode, o.rd, e.funct3, o.rs1, o.rs2, e.funct7);
  }

  lemma ImmediateFormHasParts(e: Encoding, o: Operands)
    requires e.I1Encoding? && WellSized(e) && Encodable(e, o)
    ensures Parts(Encode(e, o), e, o)
  {
    hide PackI, FitsSigned, ImmediateParts;
    ImmediatePlaces(e.opcode, o.rd, e.funct3, o.rs1, o.imm);
  }

  lemma ShiftFormHasParts(e: Encoding, o: Operands)
    requires e.I2Encoding? && WellSized(e) && Encodable(e, o)
    ensures Parts(Encode(e, o), e, o)
  {
    hide PackShift, FitsSigned, ShiftParts;
    ShiftPlaces(e.opcode, o.rd, e.funct3, o.rs1, e.funct6, o.imm);
  }

  lemma StoreFormHasParts(e: Encoding, o: Operands)
    requires e.SEncoding? && WellSized(e) && Encodable(e, o)
    ensures Parts(Encode(e, o), e, o)
  {
    hide PackS, FitsSigned, StoreParts;
    StorePlaces(e.opcode, e.funct3, o.rs1, o.rs2, o.imm);
  }

  lemma BranchFormHasParts(e: Encoding, o: Operands)
    requires e.BEncoding? && WellSized(e) && Encodable(e, o)
    ensures Parts(Encode(e, o), e, o)
  {
    hide PackB, FitsSigned, BranchParts;
    BranchPlaces(e.opcode, e.funct3, o.rs1, o.rs2, o.imm);
  }

  lemma UpperFormHasParts(e: Encoding, o: Operands)
    requires e.UEncoding? && WellSized(e) && Encodable(e, o)
    ensures Parts(Encode(e, o), e, o)
  {
    hide PackU, FitsSigned, UpperParts;
    UpperPlaces(e.opcode, o.rd, o.imm);
  }

  lemma JumpFormHasParts(e: Encoding, o: Operands)
    requires e.JEncoding? && WellSized(e) && Encodable(e, o)
    ensures Parts(Encode(e, o), e, o)
  {
    hide PackJ, FitsSigned, JumpParts;
    JumpPlaces(e.opcode, o.rd, o.imm);
  }

  lemma FormatHasParts(e: Encoding, o: Operands)
    requires
      || e.REncoding? || e.I1Encoding? || e.I2Encoding? || e.SEncoding? || e.BEncoding? || e.UEncoding? || e.JEncoding?
    requires WellSized(e) && Encodable(e, o)
    ensures Parts(Encode(e, o), e, o)
  {
    hide *;
    if e.REncoding? { RegisterFormHasParts(e, o); } else if e.I1Encoding? { ImmediateFormHasParts(e, o); }
    else if e.I2Encoding? { ShiftFormHasParts(e, o); } else if e.SEncoding? { StoreFormHasParts(e, o); }
    else if e.BEncoding? { BranchFormHasParts(e, o); } else if e.UEncoding? { UpperFormHasParts(e, o); }
    else { JumpFormHasParts(e, o); }
  }

  lemma IntegersHaveFormats(m: Mnemonic)
    requires IsInteger(m)
    ensures WellSized(EncodingOf(m))
    ensures
      var e := EncodingOf(m);
      e.REncoding? || e.I1Encoding? || e.I2Encoding? || e.SEncoding? || e.BEncoding? || e.UEncoding? || e.JEncoding?
  {
    TablesAreWellSized(m);
    hide WellSized;
  }

  /** Every word is laid out so. */
  lemma WordHasParts(m: Mnemonic, o: Operands)
    requires IsInteger(m) && Encodable(EncodingOf(m), o)
    ensures Parts(Encode(EncodingOf(m), o), EncodingOf(m), o)
  {
    hide EncodingOf, WellSized, Encodable, Encode, Parts;
    IntegersHaveFormats(m);
    FormatHasParts(EncodingOf(m), o);
  }

  // ----- the fixed bits of the mnemonics -----

  /** The words with every operand zero, as the instruction set lists them. */
  function BaseWord(m: Mnemonic): bv32
    requires IsInteger(m)
  {
    match m
    case R(op) => RegisterWord(op)
    case I1(op) => ImmediateWord(op)
    case I2(op) => ShiftWord(op)
    case S(op) => StoreWord(op)
    case B(op) => BranchWord(op)
    case U(op) => if op == LUI then 0x37 else 0x17
    case J(_) => 0x6F
  }

  function RegisterWord(op: ROp): bv32 {
    match op
    case ADD => 0x33 case SUB => 0x4000_0033 case SLL => 0x1033 case SLT => 0x2033 case SLTU => 0x3033
    case XOR => 0x4033 case SRL => 0x5033 case SRA => 0x4000_5033 case OR => 0x6033 case AND => 0x7033
    case ADDW => 0x3B case SUBW => 0x4000_003B case SLLW => 0x103B case SRLW => 0x503B case SRAW => 0x4000_503B
    case MUL => 0x200_0033 case MULH => 0x200_1033 case MULHSU => 0x200_2033 case MULHU => 0x200_3033
    case DIV => 0x200_4033 case DIVU => 0x200_5033 case REM => 0x200_6033 case REMU => 0x200_7033
    case MULW => 0x200_003B case DIVW => 0x200_403B case DIVUW => 0x200_503B case REMW => 0x200_603B
    case REMUW => 0x200_703B
  }

  function ImmediateWord(op: I1Op): bv32 {
    match op
    case ADDI => 0x13 case SLTI => 0x2013 case SLTIU => 0x3013 case XORI => 0x4013 case ORI => 0x6013
    case ANDI => 0x7013 case ADDIW => 0x1B case JALR => 0x67
    case LB => 0x3 case LH => 0x1003 case LW => 0x2003 case LD => 0x3003 case LBU => 0x4003 case LHU => 0x5003
    case LWU => 0x6003
  }

  function ShiftWord(op: I2Op): bv32 {
    match op
    case SLLI => 0x1013 case SRLI => 0x5013 case SRAI => 0x4000_5013
    case SLLIW => 0x101B case SRLIW => 0x501B case SRAIW => 0x4000_501B
  }

  function StoreWord(op: SOp): bv32 {
    match op
    case SB => 0x23 case SH => 0x1023 case SW => 0x2023 case SD => 0x3023
  }

  function BranchWord(op: BOp): bv32 {
    match op
    case BEQ => 0x63 case BNE => 0x1063 case BLT => 0x4063 case BGE => 0x5063 case BLTU => 0x6063 case BGEU => 0x7063
  }

  const NO_OPERANDS := Operands(0, 0, 0, 0, 0, 0, 0)

  lemma RegisterBase(op: ROp)
    ensures var e := RTable(op); PackR(e.opcode, 0, e.funct3, 0, 0, e.funct7) == RegisterWord(op)
  {
    match op
    case ADD => case SUB => case SLL => case SLT => case SLTU => case XOR => case SRL => case SRA => case OR =>
    case AND => case ADDW => case SUBW => case SLLW => case SRLW => case SRAW => case MUL => case MULH =>
    case MULHSU => case MULHU => case DIV => case DIVU => case REM => case REMU => case MULW => case DIVW =>
    case DIVUW => case REMW => case REMUW =>
  }

  lemma ImmediateBase(op: I1Op)
    ensures var e := I1Table(op); PackI(e.opcode, 0, e.funct3, 0, 0) == ImmediateWord(op)
  {
    match op
    case ADDI => case SLTI => case SLTIU => case XORI => case ORI => case ANDI => case ADDIW => case JALR =>
    case LB => case LH => case LW => case LD => case LBU => case LHU => case LWU =>
  }

  lemma ShiftBase(op: I2Op)
    ensures var e := I2Table(op); PackShift(e.opcode, 0, e.funct3, 0, e.funct6, 0) == ShiftWord(op)
  {
    match op
    case SLLI => case SRLI => case SRAI => case SLLIW => case SRLIW => case SRAIW =>
  }

  lemma StoreBase(op: SOp)
    ensures var e := STable(op); PackS(e.opcode, e.funct3, 0, 0, 0) == StoreWord(op)
  {
    match op
    case SB => case SH => case SW => case SD =>
  }

  lemma BranchBase(op: BOp)
    ensures var e := BTable(op); PackB(e.opcode, e.funct3, 0, 0, 0) == BranchWord(op)
  {
    match op
    case BEQ => case BNE => case BLT => case BGE => case BLTU => case BGEU =>
  }

  lemma UpperBase(op: UOp)
    ensures PackU(UTable(op).opcode, 0, 0) == if op == LUI then 0x37 else 0x17
  {
    match op
    case LUI => case AUIPC =>
  }

  lemma JumpBase(op: JOp)
    ensures PackJ(JTable(op).opcode, 0, 0) == 0x6F
  {
  }

  /** Each mnemonic has the fixed bits of its instruction. */
  lemma BaseWordExactly(m: Mnemonic)
    requires IsInteger(m)
    ensures Encode(EncodingOf(m), NO_OPERANDS) == BaseWord(m)
  {
    hide RTable, I1Table, I2Table, STable, BTable, UTable, JTable, PackR, PackI, PackShift, PackS, PackB, PackU, PackJ,
         RegisterWord, ImmediateWord, ShiftWord, StoreWord, BranchWord;
    match m
    case R(op) => RegisterBase(op);
    case I1(op) => ImmediateBase(op);
    case I2(op) => ShiftBase(op);
    case S(op) => StoreBase(op);
    case B(op) => BranchBase(op);
    case U(op) => UpperBase(op);
    case J(op) => JumpBase(op);
  }
}
