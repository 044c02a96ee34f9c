/** The assembler and the processor mean the same by a mnemonic: the word the assembler writes makes
    the control unit select the operation the mnemonic names. */
module MnemonicMeaning {
  import opened Words
  import opened Masks
  import opened Alu
  import opened FlatMemory
  import opened InstructionFields
  import opened Instructions
  import opened CodeGenerator
  import opened Processor

  function NamedOp(op: ROp): AluOp {
    match op
    case ADD => Add
    case SUB => Sub
    case XOR => Xor
    case OR => Or
    case AND => And
    case SLL => Sll
    case SRL => Srl
    case SRA => Sra
    case SLT => Slt
    case SLTU => Sltu
    case ADDW => Addw
    case SUBW => Subw
    case SLLW => Sllw
    case SRLW => Srlw
    case SRAW => Sraw
    case MUL => Mul
    case MULH => Mulh
    case MULHSU => Mulhsu
    case MULHU => Mulhu
    case DIV => Div
    case DIVU => Divu
    case REM => Rem
    case REMU => Remu
    case MULW => Mulw
    case DIVW => Divw
    case DIVUW => Divuw
    case REMW => Remw
    case REMUW => Remuw
  }

  lemma RegisterTableSelects(op: ROp)
    ensures var e := RTable(op); Select(e.opcode, e.funct3, e.funct7) == NamedOp(op)
  {
    match op
    case ADD => case SUB => case XOR => case OR => case AND => case SLL => case SRL => case SRA => case SLT =>
    case SLTU => case ADDW => case SUBW => case SLLW => case SRLW => case SRAW => case MUL => case MULH =>
    case MULHSU => case MULHU => case DIV => case DIVU => case REM => case REMU => case MULW => case DIVW =>
    case DIVUW => case REMW => case REMUW =>
  }

  /** Register-register operations. */
  lemma RegisterWordSelects(op: ROp, o: Operands)
    requires Encodable(RTable(op), o)
    ensures AluSignal(Encode(RTable(op), o)) == NamedOp(op)
  {
    hide RTable, NamedOp, Select, Opcode, Rd, Rs1, Rs2, Funct3, Funct7, PackR;
    RegisterTableSelects(op);
    RegisterFormReadsBack(RTable(op), o);
  }

  /** Operations with an immediate; loads and jalr add. */
  function NamedImmediateOp(op: I1Op): AluOp {
    match op
    case XORI => Xor
    case ORI => Or
    case ANDI => And
    case SLTI => Slt
    case SLTIU => Sltu
    case ADDIW => Addw
    case _ => Add
  }

  lemma ImmediateTableSelects(op: I1Op, funct7: bv32)
    ensures var e := I1Table(op); Select(e.opcode, e.funct3, funct7) == NamedImmediateOp(op)
  {
    match op
    case ADDI => case XORI => case ORI => case ANDI => case SLTIU => case SLTI => case ADDIW => case LB =>
    case LH => case LW => case LD => case LBU => case LHU => case LWU => case JALR =>
  }

  lemma ImmediateWordSelects(op: I1Op, o: Operands)
    requires Encodable(I1Table(op), o)
    ensures AluSignal(Encode(I1Table(op), o)) == NamedImmediateOp(op)
  {
    hide I1Table, NamedImmediateOp, Select, Opcode, Rd, Rs1, Rs2, Funct3, Funct7, PackI;
    ImmediateTableSelects(op, Funct7(Encode(I1Table(op), o)));
    ImmediateFormReadsBack(I1Table(op), o);
  }

  function NamedShiftOp(op: I2Op): AluOp {
    match op
    case SLLI => Sll
    case SRLI => Srl
    case SRAI => Sra
    case SLLIW => Sllw
    case SRLIW => Srlw
    case SRAIW => Sraw
  }

  lemma ShiftTableSelects(op: I2Op, funct7: bv32)
    requires funct7 >> 1 == I2Table(op).funct6
    ensures
      var e := I2Table(op);
      Select(e.opcode, e.funct3, funct7) ==
        (if funct7 & 1 == 0 || op == SLLI || op == SLLIW then NamedShiftOp(op) else NoOp)
  {
    match op
    case SLLI => case SRLI => case SRAI => case SLLIW => case SRLIW => case SRAIW =>
  }

  lemma ShiftBit(w: bv32)
    ensures Funct7(w) & 1 == 0 <==> Shamt(w) < 32
  {
  }

  /** A right shift by 32 or more fits the encoding, but the control unit does not know its word: it
      selects the named operation exactly for smaller amounts, and for every left shift. */
  lemma ShiftWordSelects(op: I2Op, o: Operands)
    requires Encodable(I2Table(op), o)
    ensures AluSignal(Encode(I2Table(op), o)) == NamedShiftOp(op) <==> o.imm < 32 || op == SLLI || op == SLLIW
  {
    hide I2Table, Select, Opcode, Rd, Rs1, Rs2, Funct3, Funct7, PackShift, Shamt;
    var w := Encode(I2Table(op), o);
    ShiftFormReadsBack(I2Table(op), o);
    ShiftTableSelects(op, Funct7(w));
    ShiftBit(w);
  }

  /** What a branch mnemonic compares. */
  predicate NamedBranch(op: BOp, a: bv64, b: bv64) {
    match op
    case BEQ => a == b
    case BNE => a != b
    case BLT => Signed64(a) < Signed64(b)
    case BGE => Signed64(a) >= Signed64(b)
    case BLTU => U64(a) < U64(b)
    case BGEU => U64(a) >= U64(b)
  }

  /** The comparator, and the flag of the single-cycle machine, decide what the mnemonic says. */
  lemma BranchWordDecides(op: BOp, o: Operands, a: bv64, b: bv64)
    requires Encodable(BTable(op), o)
    ensures
      var w := Encode(BTable(op), o);
      && BranchTaken(Funct3(w), a, b) == NamedBranch(op, a, b)
      && BranchFlag(Funct3(w), Execute(AluSignal(w), a, b).value) == NamedBranch(op, a, b)
  {
    hide BTable, Opcode, Rd, Rs1, Rs2, Funct3, Funct7, PackB, BranchTaken, BranchFlag, BranchOp, NamedBranch, Execute;
    BranchFormReadsBack(BTable(op), o);
    BranchTableDecides(op, a, b);
  }

  lemma BranchTableDecides(op: BOp, a: bv64, b: bv64)
    ensures BTable(op).opcode == 0x63
    ensures BranchTaken(BTable(op).funct3, a, b) == NamedBranch(op, a, b)
    ensures BranchFlag(BTable(op).funct3, Execute(BranchOp(BTable(op).funct3), a, b).value) == NamedBranch(op, a, b)
  {
    hide Signed64, U64, Execute, BranchFlag, BranchOp;
    FlagIsTaken(BTable(op).funct3, a, b);
  }

  // ----- loads -----

  /** The number a load puts in the register, from the n bytes it reads: signed or unsigned. */
  function NamedLoad(op: I1Op, v: int): int {
    match op
    case LB => (v + 0x80) % 0x100 - 0x80
    case LH => (v + 0x8000) % 0x1_0000 - 0x8000
    case LW => (v + 0x8000_0000) % TWO32 - 0x8000_0000
    case LD => (v + 0x8000_0000_0000_0000) % TWO64 - 0x8000_0000_0000_0000
    case _ => v
  }

  function NamedWidth(op: I1Op): nat {
    match op
    case LB => 1
    case LBU => 1
    case LH => 2
    case LHU => 2
    case LW => 4
    case LWU => 4
    case _ => 8
  }

  lemma PutStaysSmall(b0: bv8, b1: bv8, b2: bv8, b3: bv8)
    ensures
      var w1 := Put(0, b0, 0);
      var w2 := Put(w1, b1, 1);
      w1 <= 0xFF && w2 <= 0xFFFF && Put(Put(w2, b2, 2), b3, 3) <= 0xFFFF_FFFF
  {
  }

  lemma LoadedIsSmall(f: Flat, a: int)
    ensures Loaded(f, a, 1) <= 0xFF && Loaded(f, a, 2) <= 0xFFFF && Loaded(f, a, 4) <= 0xFFFF_FFFF
  {
    PutStaysSmall(ByteAt(f, a), ByteAt(f, a + 1), ByteAt(f, a + 2), ByteAt(f, a + 3));
    hide Put, ByteAt;
    assert Loaded(f, a, 1) == Put(0, ByteAt(f, a), 0);
    assert Loaded(f, a, 2) == Put(Loaded(f, a, 1), ByteAt(f, a + 1), 1);
    assert Loaded(f, a, 4) == Put(Put(Loaded(f, a, 2), ByteAt(f, a + 2), 2), ByteAt(f, a + 3), 3);
  }

  lemma ByteSign(v: bv64)
    requires v <= 0xFF
    ensures U64(v) < 0x100 && (v & 0x80 != 0 <==> U64(v) >= 0x80)
    ensures U64(v | 0xFFFF_FFFF_FFFF_FF00) == U64(v) + 0xFFFF_FFFF_FFFF_FF00
  {
  }

  lemma HalfSign(v: bv64)
    requires v <= 0xFFFF
    ensures v & 0x8000 != 0 <==> U64(v) >= 0x8000
  {
  }

  lemma HalfExtended(v: bv64)
    requires v <= 0xFFFF
    ensures U64(v | 0xFFFF_FFFF_FFFF_0000) == U64(v) + 0xFFFF_FFFF_FFFF_0000
  {
  }

  lemma HalfIsSmall(v: bv64)
    ensures U64(v) < 0x1_0000 <==> v < 0x1_0000
  {
  }

  lemma WordIsLow(v: bv64)
    requires v <= 0xFFFF_FFFF
    ensures Widen(Low32(v)) == v
  {
  }

  lemma LoadByteMeans(v: bv64)
    requires v <= 0xFF
    ensures Signed64(Widened(0, v)) == NamedLoad(LB, U64(v))
  {
    hide U64;
    U64Range(v);
    ByteSign(v);
  }

  lemma LoadHalfMeans(v: bv64)
    requires v <= 0xFFFF
    ensures Signed64(Widened(1, v)) == NamedLoad(LH, U64(v))
  {
    hide U64;
    U64Range(v);
    HalfSign(v);
    HalfIsSmall(v);
    HalfExtended(v);
  }

  lemma LoadWordMeans(v: bv64)
    requires v <= 0xFFFF_FFFF
    ensures Signed64(Widened(2, v)) == NamedLoad(LW, U64(v))
  {
    hide U32, U64, Low32, SignExtend32, Widen;
    WordIsLow(v);
    WidenedComplement(Low32(v));
    U32Range(Low32(v));
    SignExtendKeepsValue(Low32(v));
  }

  lemma LoadDoubleMeans(v: bv64)
    ensures Signed64(v) == NamedLoad(LD, U64(v))
  {
    hide U64;
    U64Range(v);
  }

  lemma LoadTable(op: I1Op)
    requires op in {LB, LH, LW, LD, LBU, LHU, LWU}
    ensures
      I1Table(op).funct3 ==
        if op == LB then 0 else if op == LH then 1 else if op == LW then 2 else if op == LD then 3
        else if op == LBU then 4 else if op == LHU then 5 else 6
  {
  }

  lemma UnsignedLoad(funct3: bv32, v: bv64)
    requires funct3 == 4 || funct3 == 5 || funct3 == 6
    ensures Widened(funct3, v) == v
  {
  }

  lemma DoubleLoad(v: bv64)
    ensures Widened(3, v) == v
  {
  }

  lemma NamedWidths(op: I1Op)
    requires op in {LB, LH, LW, LD, LBU, LHU, LWU}
    ensures WidthOf(I1Table(op).funct3) == NamedWidth(op)
  {
    LoadTable(op);
    hide I1Table;
  }

  /** A load reads as many bytes as its mnemonic says and extends them with or without sign. */
  lemma LoadMeans(op: I1Op, f: Flat, a: int)
    requires op in {LB, LH, LW, LD, LBU, LHU, LWU}
    ensures
      var funct3 := I1Table(op).funct3;
      var v := Loaded(f, a, NamedWidth(op));
      && WidthOf(funct3) == NamedWidth(op)
      && (if op in {LBU, LHU, LWU} then U64(Widened(funct3, v)) else Signed64(Widened(funct3, v))) ==
        NamedLoad(op, U64(v))
  {
    hide U64, Signed64, Loaded, I1Table, Widened, WidthOf;
    LoadTable(op);
    NamedWidths(op);
    LoadedIsSmall(f, a);
    var v := Loaded(f, a, NamedWidth(op));
    if op == LB { LoadByteMeans(v); }
    else if op == LH { LoadHalfMeans(v); }
    else if op == LW { LoadWordMeans(v); }
    else if op == LD { DoubleLoad(v); LoadDoubleMeans(v); }
    else { UnsignedLoad(I1Table(op).funct3, v); }
  }

  // ----- stores -----

  function StoredWidth(op: SOp): nat {
    match op
    case SB => 1
    case SH => 2
    case SW => 4
    case SD => 8
  }

  /** 256 to the n. */
  function Bytes(n: nat): (p: nat)
    ensures p > 0
  {
    if n == 0 then 1 else 0x100 * Bytes(n - 1)
  }

  lemma WidthRanges()
    ensures Bytes(1) == 0x100 && Bytes(2) == 0x1_0000 && Bytes(4) == TWO32 && Bytes(8) == TWO64
  {
    assert Bytes(3) == 0x100_0000 && Bytes(5) == 0x100_0000_0000 && Bytes(6) == 0x1_0000_0000_0000;
    assert Bytes(7) == 0x100_0000_0000_0000;
  }

  lemma TrimMasks(v: bv64)
    ensures Trim(v, 1) == MaskedBy(v, 0xFF) && LowOnes(0xFF) && U64(0xFF) == 0xFF
    ensures Trim(v, 2) == MaskedBy(v, 0xFFFF) && LowOnes(0xFFFF) && U64(0xFFFF) == 0xFFFF
    ensures Trim(v, 4) == MaskedBy(v, 0xFFFF_FFFF) && LowOnes(0xFFFF_FFFF) && U64(0xFFFF_FFFF) == 0xFFFF_FFFF
    ensures Trim(v, 8) == v
  {
  }

  lemma TrimmedValue(v: bv64, n: nat)
    requires n in {1, 2, 4, 8}
    ensures U64(Trim(v, n)) == U64(v) % Bytes(n)
  {
    hide U64, Trim, MaskedBy, LowOnes;
    TrimMasks(v);
    WidthRanges();
    U64Range(v);
    if n == 1 { MaskedValue(v, 0xFF); } else if n == 2 { MaskedValue(v, 0xFFFF); }
    else if n == 4 { MaskedValue(v, 0xFFFF_FFFF); }
  }

  lemma StoreTable(op: SOp)
    ensures STable(op).funct3 <= 3 && WidthOf(STable(op).funct3) == StoredWidth(op)
  {
  }

  /** A store inside memory leaves the number of its source, modulo its width, and no other byte changes;
      outside it is refused and changes nothing. */
  lemma StoreMeans(op: SOp, m: Ram, a: Dword, v: Dword)
    requires !m.refused
    ensures
      var after, w := StoreValue(m, STable(op).funct3, a, v), StoredWidth(op);
      if U64(a.bits) + w <= m.size then
        && after == m.(bytes := after.bytes)
        && U64(Loaded(after.bytes, U64(a.bits), w)) == U64(v.bits) % Bytes(w)
        && forall b :: b < U64(a.bits) || b >= U64(a.bits) + w ==> ByteAt(after.bytes, b) == ByteAt(m.bytes, b)
      else after == m.(refused := true)
  {
    hide U64, STable, WidthOf, Loaded, Stored, Trim, ByteAt, Bytes, Slice;
    StoreTable(op);
    var w := StoredWidth(op);
    LoadAfterStore(m.bytes, U64(a.bits), v.bits, w);
    TrimmedValue(v.bits, w);
    forall b | b < U64(a.bits) || b >= U64(a.bits) + w
      ensures ByteAt(Stored(m.bytes, U64(a.bits), v.bits, w), b) == ByteAt(m.bytes, b)
    {
      StoredBytes(m.bytes, U64(a.bits), v.bits, w, b);
    }
  }
}
