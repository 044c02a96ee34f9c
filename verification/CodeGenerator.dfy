/** Machine words from intermediate code, and back. */
module CodeGenerator {
  import opened Options
  import opened Words
  import opened DecimalText
  import opened InstructionFields
  import opened Instructions

  /** An instruction as the parser leaves it; registers and the immediate are text. */
  datatype ICUnit = ICUnit(
    opcode: Mnemonic, rd: string, rs1: string, rs2: string, rs3: string, csr: bv32, imm: string,
    target: string, rm: bv32, line: nat)

  /** The operands of an instruction as numbers. */
  datatype Operands = Operands(
    rd: bv32, rs1: bv32, rs2: bv32, rs3: bv32, imm: bv32, csr: bv32, rm: bv32)

  // ----- packing fields -----

  function PackR(opcode: bv32, rd: bv32, funct3: bv32, rs1: bv32, rs2: bv32, funct7: bv32): bv32 {
    (funct7 << 25) | (rs2 << 20) | (rs1 << 15) | (funct3 << 12) | (rd << 7) | opcode
  }

  function PackR4(opcode: bv32, rd: bv32, rm: bv32, rs1: bv32, rs2: bv32, funct2: bv32, rs3: bv32): bv32 {
    (rs3 << 27) | (funct2 << 25) | (rs2 << 20) | (rs1 << 15) | (rm << 12) | (rd << 7) | opcode
  }

  function PackI(opcode: bv32, rd: bv32, funct3: bv32, rs1: bv32, imm: bv32): bv32 {
    (imm << 20) | (rs1 << 15) | (funct3 << 12) | (rd << 7) | opcode
  }

  function PackShift(opcode: bv32, rd: bv32, funct3: bv32, rs1: bv32, funct6: bv32, imm: bv32): bv32 {
    (funct6 << 26) | (imm << 20) | (rs1 << 15) | (funct3 << 12) | (rd << 7) | opcode
  }

  function PackS(opcode: bv32, funct3: bv32, rs1: bv32, rs2: bv32, imm: bv32): bv32 {
    (((imm >> 5) & 0x7F) << 25) | (rs2 << 20) | (rs1 << 15) | (funct3 << 12) | ((imm & 0x1F) << 7) | opcode
  }

  function PackB(opcode: bv32, funct3: bv32, rs1: bv32, rs2: bv32, imm: bv32): bv32 {
    (((imm >> 12) & 1) << 31) | (((imm >> 5) & 0x3F) << 25) | (rs2 << 20) | (rs1 << 15) | (funct3 << 12)
    | (((imm >> 1) & 0xF) << 8) | (((imm >> 11) & 1) << 7) | opcode
  }

  function PackU(opcode: bv32, rd: bv32, imm: bv32): bv32 {
    ((imm & 0xFFFFF) << 12) | (rd << 7) | opcode
  }

  function PackJ(opcode: bv32, rd: bv32, imm: bv32): bv32 {
    ((imm & 0x100000) << 11) | ((imm & 0x7FE) << 20) | ((imm & 0x800) << 9) | (imm & 0xFF000) | (rd << 7) | opcode
  }

  function Low3(v: bv32): bv32 { v & 7 }
  function Low5(v: bv32): bv32 { v & 0x1F }
  function Low12(v: bv32): bv32 { v & 0xFFF }

  /** The word of an instruction with constant fields e and operands o. */
  function Encode(e: Encoding, o: Operands): bv32 {
    match e
    case REncoding(op, f3, f7) => PackR(op, o.rd, f3, o.rs1, o.rs2, f7)
    case I1Encoding(op, f3) => PackI(op, o.rd, f3, o.rs1, o.imm)
    case I2Encoding(op, f3, f6) => PackShift(op, o.rd, f3, o.rs1, f6, o.imm)
    case I3Encoding(op, f3) => PackI(op, 0, f3, 0, 0)
    case SEncoding(op, f3) => PackS(op, f3, o.rs1, o.rs2, o.imm)
    case BEncoding(op, f3) => PackB(op, f3, o.rs1, o.rs2, o.imm)
    case UEncoding(op) => PackU(op, o.rd, o.imm)
    case JEncoding(op) => PackJ(op, o.rd, o.imm)
    case CsrREncoding(op, f3) => PackI(op, o.rd, f3, o.rs1, Low12(o.csr))
    case CsrIEncoding(op, f3) => PackI(op, o.rd, f3, Low5(o.imm), Low12(o.csr))
    case FdREncoding(op, f3, f7) => PackR(op, o.rd, f3, o.rs1, o.rs2, f7)
    case FdR1Encoding(op, f7) => PackR(op, o.rd, Low3(o.rm), o.rs1, o.rs2, f7)
    case FdR2Encoding(op, f5, f7) => PackR(op, o.rd, Low3(o.rm), o.rs1, f5, f7)
    case FdR3Encoding(op, f3, f5, f7) => PackR(op, o.rd, f3, o.rs1, f5, f7)
    case FdR4Encoding(op, f2) => PackR4(op, o.rd, Low3(o.rm), o.rs1, o.rs2, f2, o.rs3)
    case FdIEncoding(op, f3) => PackI(op, o.rd, f3, o.rs1, o.imm)
    case FdSEncoding(op, f3) => PackS(op, f3, o.rs1, o.rs2, o.imm)
  }

  // ----- reading the text of a unit -----

  predicate HasRd(e: Encoding) {
    !(e.I3Encoding? || e.SEncoding? || e.BEncoding? || e.FdSEncoding?)
  }

  predicate HasRs1(e: Encoding) {
    !(e.I3Encoding? || e.UEncoding? || e.JEncoding? || e.CsrIEncoding?)
  }

  predicate HasRs2(e: Encoding) {
    e.REncoding? || e.SEncoding? || e.BEncoding? || e.FdREncoding? || e.FdR1Encoding? || e.FdR4Encoding?
      || e.FdSEncoding?
  }

  predicate HasImm(e: Encoding) {
    e.I1Encoding? || e.I2Encoding? || e.SEncoding? || e.BEncoding? || e.UEncoding? || e.JEncoding?
    || e.CsrIEncoding? || e.FdIEncoding? || e.FdSEncoding?
  }

  predicate HasCsr(e: Encoding) { e.CsrREncoding? || e.CsrIEncoding? }

  predicate HasRm(e: Encoding) { e.FdR1Encoding? || e.FdR2Encoding? || e.FdR4Encoding? }

  /** The number after the register letter. */
  function RegisterIndex(reg: string): Result<bv32> {
    if reg == "" then Err(OutOfRange)
    else
      var n :- Stoi(reg[1..]);
      Ok(Bits32(n))
  }

  function Immediate(text: string): Result<bv32> {
    var n :- Stoi(text);
    Ok(Bits32(n))
  }

  function When(used: bool, r: Result<bv32>): Result<bv32> {
    if used then r else Ok(0)
  }

  /** Only the operands the format has are read, so only their text can be refused. */
  function ReadOperands(e: Encoding, u: ICUnit): Result<Operands> {
    var rd :- When(HasRd(e), RegisterIndex(u.rd));
    var rs1 :- When(HasRs1(e), RegisterIndex(u.rs1));
    var rs2 :- When(HasRs2(e), RegisterIndex(u.rs2));
    var rs3 :- When(e.FdR4Encoding?, RegisterIndex(u.rs3));
    var imm :- When(HasImm(e), Immediate(u.imm));
    Ok(Operands(rd, rs1, rs2, rs3, imm, if HasCsr(e) then u.csr else 0, if HasRm(e) then u.rm else 0))
  }

  function GenerateUnit(u: ICUnit): Result<bv32> {
    if u.opcode.Pseudo? then Err(NoEncoding)
    else
      var o :- ReadOperands(EncodingOf(u.opcode), u);
      Ok(Encode(EncodingOf(u.opcode), o))
  }

  /** The words of a program; the first unit that cannot be encoded stops the assembler. */
  method GenerateMachineCode(code: seq<ICUnit>) returns (r: Result<seq<bv32>>)
    ensures r.Ok? <==> forall i :: 0 <= i < |code| ==> GenerateUnit(code[i]).Ok?
    ensures r.Ok? ==> |r.value| == |code|
    ensures r.Ok? ==> forall i :: 0 <= i < |code| ==> GenerateUnit(code[i]) == Ok(r.value[i])
  {
    hide GenerateUnit;
    var words: seq<bv32> := [];
    for i := 0 to |code|
      invariant |words| == i
      invariant forall k :: 0 <= k < i ==> GenerateUnit(code[k]) == Ok(words[k])
    {
      var w := GenerateUnit(code[i]);
      if w.Err? { return Err(w.error); }
      words := words + [w.value];
    }
    return Ok(words);
  }

  // ----- decoding -----

  function Csr(w: bv32): bv32 { w >> 20 }
  function Shamt(w: bv32): bv32 { (w >> 20) & 0x3F }

  /** The value with all bits from place n on set to the sign. */
  function Extend(v: bv32, negative: bool, n: bv32): bv32
    requires n <= 31
  {
    if negative then v | (0xFFFF_FFFF << n) else v
  }

  function ImmI(w: bv32): bv32 { Extend(w >> 20, w >= 0x8000_0000, 12) }

  function ImmS(w: bv32): bv32 { Extend(((w >> 25) << 5) | Rd(w), w >= 0x8000_0000, 12) }

  function ImmB(w: bv32): bv32 {
    Extend((((w >> 7) & 1) << 11) | (((w >> 25) & 0x3F) << 5) | (((w >> 8) & 0xF) << 1), w >= 0x8000_0000, 12)
  }

  function ImmU(w: bv32): bv32 { w >> 12 }

  function ImmJ(w: bv32): bv32 {
    Extend((w & 0xFF000) | (((w >> 20) & 1) << 11) | (((w >> 21) & 0x3FF) << 1), w >= 0x8000_0000, 20)
  }

  function DecodeImm(e: Encoding, w: bv32): bv32 {
    match e
    case I1Encoding(_, _) => ImmI(w)
    case FdIEncoding(_, _) => ImmI(w)
    case I2Encoding(_, _, _) => Shamt(w)
    case SEncoding(_, _) => ImmS(w)
    case FdSEncoding(_, _) => ImmS(w)
    case BEncoding(_, _) => ImmB(w)
    case UEncoding(_) => ImmU(w)
    case JEncoding(_) => ImmJ(w)
    case CsrIEncoding(_, _) => Rs1(w)
    case _ => 0
  }

  function DecodeOperands(e: Encoding, w: bv32): Operands {
    Operands(
      if HasRd(e) then Rd(w) else 0,
      if HasRs1(e) then Rs1(w) else 0,
      if HasRs2(e) then Rs2(w) else 0,
      if e.FdR4Encoding? then Rs3(w) else 0,
      DecodeImm(e, w),
      if HasCsr(e) then Csr(w) else 0,
      if HasRm(e) then Funct3(w) else 0)
  }

  function DecodeMnemonic(w: bv32): Option<Mnemonic> {
    MnemonicOf(Opcode(w), Funct3(w), Rs2(w), Funct7(w))
  }

  // ----- what can be encoded -----

  /** A two's complement number of n bits. */
  predicate FitsSigned(v: bv32, n: bv32)
    requires 1 <= n <= 31
  {
    v + (1 << (n - 1)) < 1 << n
  }

  predicate ImmInRange(e: Encoding, imm: bv32) {
    match e
    case I1Encoding(_, _) => FitsSigned(imm, 12)
    case FdIEncoding(_, _) => FitsSigned(imm, 12)
    case I2Encoding(_, _, _) => imm < 64
    case SEncoding(_, _) => FitsSigned(imm, 12)
    case FdSEncoding(_, _) => FitsSigned(imm, 12)
    case BEncoding(_, _) => FitsSigned(imm, 13) && imm & 1 == 0
    case UEncoding(_) => imm < 0x100000
    case JEncoding(_) => FitsSigned(imm, 21) && imm & 1 == 0
    case CsrIEncoding(_, _) => imm < 32
    case _ => imm == 0
  }

  /** Operands the format can hold; those it does not have are zero. */
  predicate Encodable(e: Encoding, o: Operands) {
    && o.rd < (if HasRd(e) then 32 else 1)
    && o.rs1 < (if HasRs1(e) then 32 else 1)
    && o.rs2 < (if HasRs2(e) then 32 else 1)
    && o.rs3 < (if e.FdR4Encoding? then 32 else 1)
    && o.csr < (if HasCsr(e) then 0x1000 else 1)
    && o.rm < (if HasRm(e) then 8 else 1)
    && ImmInRange(e, o.imm)
  }

  // ----- fields of packed words -----

  lemma PackRFields(opcode: bv32, rd: bv32, funct3: bv32, rs1: bv32, rs2: bv32, funct7: bv32)
    requires opcode < 128 && rd < 32 && funct3 < 8 && rs1 < 32 && rs2 < 32 && funct7 < 128
    ensures
      var w := PackR(opcode, rd, funct3, rs1, rs2, funct7);
      Opcode(w) == opcode && Rd(w) == rd && Funct3(w) == funct3 && Rs1(w) == rs1 && Rs2(w) == rs2 && Funct7(w) == funct7
  {
  }

  lemma PackR4Fields(opcode: bv32, rd: bv32, rm: bv32, rs1: bv32, rs2: bv32, funct2: bv32, rs3: bv32)
    requires opcode < 128 && rd < 32 && rm < 8 && rs1 < 32 && rs2 < 32 && funct2 < 4 && rs3 < 32
    ensures
      var w := PackR4(opcode, rd, rm, rs1, rs2, funct2, rs3);
      && Opcode(w) == opcode && Rd(w) == rd && Funct3(w) == rm && Rs1(w) == rs1 && Rs2(w) == rs2
      && Funct7(w) & 3 == funct2 && Rs3(w) == rs3
  {
  }

  lemma PackIFields(opcode: bv32, rd: bv32, funct3: bv32, rs1: bv32, imm: bv32)
    requires opcode < 128 && rd < 32 && funct3 < 8 && rs1 < 32
    ensures
      var w := PackI(opcode, rd, funct3, rs1, imm);
      Opcode(w) == opcode && Rd(w) == rd && Funct3(w) == funct3 && Rs1(w) == rs1 && Csr(w) == Low12(imm)
  {
  }

  lemma PackIImm(opcode: bv32, rd: bv32, funct3: bv32, rs1: bv32, imm: bv32)
    requires opcode < 128 && rd < 32 && funct3 < 8 && rs1 < 32 && FitsSigned(imm, 12)
    ensures ImmI(PackI(opcode, rd, funct3, rs1, imm)) == imm
  {
  }

  lemma PackShiftFields(opcode: bv32, rd: bv32, funct3: bv32, rs1: bv32, funct6: bv32, imm: bv32)
    requires opcode < 128 && rd < 32 && funct3 < 8 && rs1 < 32 && funct6 < 64 && imm < 64
    ensures
      var w := PackShift(opcode, rd, funct3, rs1, funct6, imm);
      && Opcode(w) == opcode && Rd(w) == rd && Funct3(w) == funct3 && Rs1(w) == rs1
      && Funct7(w) >> 1 == funct6 && Shamt(w) == imm
  {
  }

  lemma PackSFields(opcode: bv32, funct3: bv32, rs1: bv32, rs2: bv32, imm: bv32)
    requires opcode < 128 && funct3 < 8 && rs1 < 32 && rs2 < 32 && FitsSigned(imm, 12)
    ensures
      var w := PackS(opcode, funct3, rs1, rs2, imm);
      Opcode(w) == opcode && Funct3(w) == funct3 && Rs1(w) == rs1 && Rs2(w) == rs2 && ImmS(w) == imm
  {
  }

  lemma PackBFields(opcode: bv32, funct3: bv32, rs1: bv32, rs2: bv32, imm: bv32)
    requires opcode < 128 && funct3 < 8 && rs1 < 32 && rs2 < 32 && FitsSigned(imm, 13) && imm & 1 == 0
    ensures
      var w := PackB(opcode, funct3, rs1, rs2, imm);
      Opcode(w) == opcode && Funct3(w) == funct3 && Rs1(w) == rs1 && Rs2(w) == rs2 && ImmB(w) == imm
  {
  }

  lemma PackUFields(opcode: bv32, rd: bv32, imm: bv32)
    requires opcode < 128 && rd < 32
    ensures var w := PackU(opcode, rd, imm); Opcode(w) == opcode && Rd(w) == rd && (imm < 0x100000 ==> ImmU(w) == imm)
  {
  }

  lemma PackJFields(opcode: bv32, rd: bv32, imm: bv32)
    requires opcode < 128 && rd < 32
    ensures var w := PackJ(opcode, rd, imm); Opcode(w) == opcode && Rd(w) == rd
  {
  }

  lemma PackJParts(opcode: bv32, rd: bv32, imm: bv32)
    requires opcode < 128 && rd < 32
    ensures
      var w := PackJ(opcode, rd, imm);
      && (w & 0xFF000) | (((w >> 20) & 1) << 11) | (((w >> 21) & 0x3FF) << 1) == imm & 0xFFFFE
      && (w >= 0x8000_0000 <==> imm & 0x100000 != 0)
  {
  }

  lemma SignedParts(imm: bv32)
    requires FitsSigned(imm, 21) && imm & 1 == 0
    ensures Extend(imm & 0xFFFFE, imm & 0x100000 != 0, 20) == imm
  {
  }

  lemma PackJImm(opcode: bv32, rd: bv32, imm: bv32)
    requires opcode < 128 && rd < 32 && FitsSigned(imm, 21) && imm & 1 == 0
    ensures ImmJ(PackJ(opcode, rd, imm)) == imm
  {
    hide PackJ, FitsSigned, Extend;
    PackJParts(opcode, rd, imm);
    SignedParts(imm);
  }

  // ----- decoding undoes encoding -----

  /** The constant fields fit their places. */
  predicate WellSized(e: Encoding) {
    && e.opcode < 128
    && match e
       case REncoding(_, f3, f7) => f3 < 8 && f7 < 128
       case FdREncoding(_, f3, f7) => f3 < 8 && f7 < 128
       case I2Encoding(_, f3, f6) => f3 < 8 && f6 < 64
       case FdR1Encoding(_, f7) => f7 < 128
       case FdR2Encoding(_, f5, f7) => f5 < 32 && f7 < 128
       case FdR3Encoding(_, f3, f5, f7) => f3 < 8 && f5 < 32 && f7 < 128
       case FdR4Encoding(_, f2) => f2 < 4
       case UEncoding(_) => true
       case JEncoding(_) => true
       case _ => e.funct3 < 8
  }

  lemma TablesAreWellSized(m: Mnemonic)
    requires !m.Pseudo?
    ensures WellSized(EncodingOf(m))
  {
    hide RTable, I1Table, I2Table, I3Table, STable, BTable, UTable, JTable, CsrRTable, CsrITable, FdRTable, FdR1Table,
         FdR2Table, FdR3Table, FdR4Table, FdITable, FdSTable;
  }

  lemma Masked(v: bv32)
    ensures v < 8 ==> Low3(v) == v
    ensures v < 32 ==> Low5(v) == v
    ensures v < 0x1000 ==> Low12(v) == v
  {
  }

  /** What the packed word says: its fields match the encoding, and the operands come back. */
  ghost predicate ReadsBack(e: Encoding, o: Operands) {
    var w := Encode(e, o);
    Matches(e, Opcode(w), Funct3(w), Rs2(w), Funct7(w)) && DecodeOperands(e, w) == o
  }

  lemma RegisterFormReadsBack(e: Encoding, o: Operands)
    requires WellSized(e) && Encodable(e, o) && (e.REncoding? || e.FdREncoding?)
    ensures ReadsBack(e, o)
  {
    hide PackR, PackR4, PackI, PackShift, PackS, PackB, PackU, PackJ, Opcode, Rd, Funct3, Rs1, Rs2, Rs3, Funct7, Csr,
         Shamt, ImmI, ImmS, ImmB, ImmU, ImmJ, Low3, Low5, Low12, FitsSigned;
    PackRFields(e.opcode, o.rd, e.funct3, o.rs1, o.rs2, e.funct7);
  }

  lemma RoundedFormReadsBack(e: Encoding, o: Operands)
    requires WellSized(e) && Encodable(e, o) && (e.FdR1Encoding? || e.FdR2Encoding?)
    ensures ReadsBack(e, o)
  {
    hide PackR, PackR4, PackI, PackShift, PackS, PackB, PackU, PackJ, Opcode, Rd, Funct3, Rs1, Rs2, Rs3, Funct7, Csr,
         Shamt, ImmI, ImmS, ImmB, ImmU, ImmJ, Low3, Low5, Low12, FitsSigned;
    Masked(o.rm);
    PackRFields(e.opcode, o.rd, o.rm, o.rs1, if e.FdR1Encoding? then o.rs2 else e.funct5, e.funct7);
  }

  lemma MoveFormReadsBack(e: Encoding, o: Operands)
    requires WellSized(e) && Encodable(e, o) && (e.FdR3Encoding?)
    ensures ReadsBack(e, o)
  {
    hide PackR, PackR4, PackI, PackShift, PackS, PackB, PackU, PackJ, Opcode, Rd, Funct3, Rs1, Rs2, Rs3, Funct7, Csr,
         Shamt, ImmI, ImmS, ImmB, ImmU, ImmJ, Low3, Low5, Low12, FitsSigned;
    PackRFields(e.opcode, o.rd, e.funct3, o.rs1, e.funct5, e.funct7);
  }

  lemma FusedFormReadsBack(e: Encoding, o: Operands)
    requires WellSized(e) && Encodable(e, o) && (e.FdR4Encoding?)
    ensures ReadsBack(e, o)
  {
    hide PackR, PackR4, PackI, PackShift, PackS, PackB, PackU, PackJ, Opcode, Rd, Funct3, Rs1, Rs2, Rs3, Funct7, Csr,
         Shamt, ImmI, ImmS, ImmB, ImmU, ImmJ, Low3, Low5, Low12, FitsSigned;
    Masked(o.rm);
    PackR4Fields(e.opcode, o.rd, o.rm, o.rs1, o.rs2, e.funct2, o.rs3);
  }

  lemma ImmediateFormReadsBack(e: Encoding, o: Operands)
    requires WellSized(e) && Encodable(e, o) && (e.I1Encoding? || e.FdIEncoding? || e.I3Encoding?)
    ensures ReadsBack(e, o)
  {
    hide PackR, PackR4, PackI, PackShift, PackS, PackB, PackU, PackJ, Opcode, Rd, Funct3, Rs1, Rs2, Rs3, Funct7, Csr,
         Shamt, ImmI, ImmS, ImmB, ImmU, ImmJ, Low3, Low5, Low12, FitsSigned;
    PackIFields(e.opcode, o.rd, e.funct3, o.rs1, o.imm);
    if !e.I3Encoding? { PackIImm(e.opcode, o.rd, e.funct3, o.rs1, o.imm); }
  }

  lemma CsrFormReadsBack(e: Encoding, o: Operands)
    requires WellSized(e) && Encodable(e, o) && (e.CsrREncoding? || e.CsrIEncoding?)
    ensures ReadsBack(e, o)
  {
    hide PackR, PackR4, PackI, PackShift, PackS, PackB, PackU, PackJ, Opcode, Rd, Funct3, Rs1, Rs2, Rs3, Funct7, Csr,
         Shamt, ImmI, ImmS, ImmB, ImmU, ImmJ, Low3, Low5, Low12, FitsSigned;
    Masked(o.csr);
    Masked(o.imm);
    PackIFields(e.opcode, o.rd, e.funct3, if e.CsrREncoding? then o.rs1 else o.imm, o.csr);
  }

  lemma ShiftFormReadsBack(e: Encoding, o: Operands)
    requires WellSized(e) && Encodable(e, o) && (e.I2Encoding?)
    ensures ReadsBack(e, o)
  {
    hide PackR, PackR4, PackI, PackShift, PackS, PackB, PackU, PackJ, Opcode, Rd, Funct3, Rs1, Rs2, Rs3, Funct7, Csr,
         Shamt, ImmI, ImmS, ImmB, ImmU, ImmJ, Low3, Low5, Low12, FitsSigned;
    PackShiftFields(e.opcode, o.rd, e.funct3, o.rs1, e.funct6, o.imm);
  }

  lemma StoreFormReadsBack(e: Encoding, o: Operands)
    requires WellSized(e) && Encodable(e, o) && (e.SEncoding? || e.FdSEncoding?)
    ensures ReadsBack(e, o)
  {
    hide PackR, PackR4, PackI, PackShift, PackS, PackB, PackU, PackJ, Opcode, Rd, Funct3, Rs1, Rs2, Rs3, Funct7, Csr,
         Shamt, ImmI, ImmS, ImmB, ImmU, ImmJ, Low3, Low5, Low12, FitsSigned;
    PackSFields(e.opcode, e.funct3, o.rs1, o.rs2, o.imm);
  }

  lemma BranchFormReadsBack(e: Encoding, o: Operands)
    requires WellSized(e) && Encodable(e, o) && (e.BEncoding?)
    ensures ReadsBack(e, o)
  {
    hide PackR, PackR4, PackI, PackShift, PackS, PackB, PackU, PackJ, Opcode, Rd, Funct3, Rs1, Rs2, Rs3, Funct7, Csr,
         Shamt, ImmI, ImmS, ImmB, ImmU, ImmJ, Low3, Low5, Low12, FitsSigned;
    PackBFields(e.opcode, e.funct3, o.rs1, o.rs2, o.imm);
  }

  lemma UpperFormReadsBack(e: Encoding, o: Operands)
    requires WellSized(e) && Encodable(e, o) && (e.UEncoding?)
    ensures ReadsBack(e, o)
  {
    hide PackR, PackR4, PackI, PackShift, PackS, PackB, PackU, PackJ, Opcode, Rd, Funct3, Rs1, Rs2, Rs3, Funct7, Csr,
         Shamt, ImmI, ImmS, ImmB, ImmU, ImmJ, Low3, Low5, Low12, FitsSigned;
    PackUFields(e.opcode, o.rd, o.imm);
  }

  lemma JumpFormReadsBack(e: Encoding, o: Operands)
    requires WellSized(e) && Encodable(e, o) && (e.JEncoding?)
    ensures ReadsBack(e, o)
  {
    hide PackR, PackR4, PackI, PackShift, PackS, PackB, PackU, PackJ, Opcode, Rd, Funct3, Rs1, Rs2, Rs3, Funct7, Csr,
         Shamt, ImmI, ImmS, ImmB, ImmU, ImmJ, Low3, Low5, Low12, FitsSigned;
    PackJFields(e.opcode, o.rd, o.imm);
    PackJImm(e.opcode, o.rd, o.imm);
  }

  lemma FormReadsBack(e: Encoding, o: Operands)
    requires WellSized(e) && Encodable(e, o)
    ensures ReadsBack(e, o)
  {
    hide *;
    if e.REncoding? || e.FdREncoding? { RegisterFormReadsBack(e, o); }
    else if e.FdR1Encoding? || e.FdR2Encoding? { RoundedFormReadsBack(e, o); }
    else if e.FdR3Encoding? { MoveFormReadsBack(e, o); }
    else if e.FdR4Encoding? { FusedFormReadsBack(e, o); }
    else if e.I2Encoding? { ShiftFormReadsBack(e, o); }
    else if e.SEncoding? || e.FdSEncoding? { StoreFormReadsBack(e, o); }
    else if e.BEncoding? { BranchFormReadsBack(e, o); }
    else if e.UEncoding? { UpperFormReadsBack(e, o); }
    else if e.JEncoding? { JumpFormReadsBack(e, o); }
    else if e.CsrREncoding? || e.CsrIEncoding? { CsrFormReadsBack(e, o); }
    else { ImmediateFormReadsBack(e, o); }
  }

  /** The instruction a word stands for. */
  function Decode(w: bv32): Option<(Mnemonic, Operands)> {
    match DecodeMnemonic(w)
    case None => None
    case Some(m) => if m.Pseudo? then None else Some((m, DecodeOperands(EncodingOf(m), w)))
  }

  /** Decoding recovers every instruction from its word, so fields never overlap. */
  lemma DecodeEncode(m: Mnemonic, o: Operands)
    requires !m.Pseudo? && Encodable(EncodingOf(m), o)
    ensures Decode(Encode(EncodingOf(m), o)) == Some((m, o))
  {
    hide EncodingOf, Encodable, WellSized, Matches, Encode, DecodeOperands, MnemonicOf, Opcode, Funct3, Rs2, Funct7;
    var w := Encode(EncodingOf(m), o);
    TablesAreWellSized(m);
    FormReadsBack(EncodingOf(m), o);
    FieldsNameTheMnemonic(m, Opcode(w), Funct3(w), Rs2(w), Funct7(w));
  }

  /** Different instructions have different words. */
  lemma EncodeIsInjective(m: Mnemonic, o: Operands, m': Mnemonic, o': Operands)
    requires !m.Pseudo? && Encodable(EncodingOf(m), o) && !m'.Pseudo? && Encodable(EncodingOf(m'), o')
    requires Encode(EncodingOf(m), o) == Encode(EncodingOf(m'), o')
    ensures m == m' && o == o'
  {
    hide EncodingOf, Encodable, Encode, Decode;
    DecodeEncode(m, o);
    DecodeEncode(m', o');
  }

  // ----- through the text of a unit -----

  predicate NamesRegister(text: string, r: bv32) {
    text == "x" + ToString(U32(r)) || text == "f" + ToString(U32(r))
  }

  /** The text of unit u says operands o; text the format does not use is free. */
  predicate Describes(u: ICUnit, o: Operands)
    requires !u.opcode.Pseudo?
  {
    var e := EncodingOf(u.opcode);
    && (HasRd(e) ==> NamesRegister(u.rd, o.rd))
    && (HasRs1(e) ==> NamesRegister(u.rs1, o.rs1))
    && (HasRs2(e) ==> NamesRegister(u.rs2, o.rs2))
    && (e.FdR4Encoding? ==> NamesRegister(u.rs3, o.rs3))
    && (HasImm(e) ==> u.imm == ToString(Signed32(o.imm)))
    && (HasCsr(e) ==> u.csr == o.csr)
    && (HasRm(e) ==> u.rm == o.rm)
  }

  lemma SmallRegister(r: bv32)
    requires r < 32
    ensures 0 <= U32(r) < -MIN32 && Bits32(U32(r)) == r
  {
    Below32(r);
    U32Range(r);
    OfU32(r);
  }

  lemma RegisterReads(text: string, r: bv32)
    requires NamesRegister(text, r) && r < 32
    ensures RegisterIndex(text) == Ok(r)
  {
    SmallRegister(r);
    hide U32, Bits32, ToString, Stoi;
    PrintedNumberReads(U32(r));
    assert text[1..] == ToString(U32(r));
  }

  lemma ImmediateReads(imm: bv32)
    ensures Immediate(ToString(Signed32(imm))) == Ok(imm)
  {
    hide ToString, Stoi, Signed32, Bits32;
    SignedRange32(imm);
    PrintedNumberReads(Signed32(imm));
  }

  lemma UnusedIsZero(e: Encoding, o: Operands)
    requires Encodable(e, o)
    ensures !HasRd(e) ==> o.rd == 0
    ensures !HasRs1(e) ==> o.rs1 == 0
    ensures !HasRs2(e) ==> o.rs2 == 0
    ensures !e.FdR4Encoding? ==> o.rs3 == 0
    ensures !HasImm(e) ==> o.imm == 0
    ensures !HasCsr(e) ==> o.csr == 0
    ensures !HasRm(e) ==> o.rm == 0
    ensures o.rd < 32 && o.rs1 < 32 && o.rs2 < 32 && o.rs3 < 32
  {
    hide FitsSigned;
  }

  lemma OperandsRead(e: Encoding, u: ICUnit, o: Operands)
    requires if HasRd(e) then RegisterIndex(u.rd) == Ok(o.rd) else o.rd == 0
    requires if HasRs1(e) then RegisterIndex(u.rs1) == Ok(o.rs1) else o.rs1 == 0
    requires if HasRs2(e) then RegisterIndex(u.rs2) == Ok(o.rs2) else o.rs2 == 0
    requires if e.FdR4Encoding? then RegisterIndex(u.rs3) == Ok(o.rs3) else o.rs3 == 0
    requires if HasImm(e) then Immediate(u.imm) == Ok(o.imm) else o.imm == 0
    requires o.csr == (if HasCsr(e) then u.csr else 0) && o.rm == (if HasRm(e) then u.rm else 0)
    ensures ReadOperands(e, u) == Ok(o)
  {
    hide RegisterIndex, Immediate, HasRd, HasRs1, HasRs2, HasImm, HasCsr, HasRm;
  }

  lemma DescribedOperandsRead(u: ICUnit, o: Operands)
    requires !u.opcode.Pseudo? && Encodable(EncodingOf(u.opcode), o) && Describes(u, o)
    ensures ReadOperands(EncodingOf(u.opcode), u) == Ok(o)
  {
    hide EncodingOf, Encodable, NamesRegister, ToString, RegisterIndex, Immediate, ReadOperands, HasRd, HasRs1,
         HasRs2, HasImm, HasCsr, HasRm;
    var e := EncodingOf(u.opcode);
    UnusedIsZero(e, o);
    if HasRd(e) { RegisterReads(u.rd, o.rd); }
    if HasRs1(e) { RegisterReads(u.rs1, o.rs1); }
    if HasRs2(e) { RegisterReads(u.rs2, o.rs2); }
    if e.FdR4Encoding? { RegisterReads(u.rs3, o.rs3); }
    if HasImm(e) { ImmediateReads(o.imm); }
    OperandsRead(e, u, o);
  }

  /** A unit whose text says encodable operands gets exactly their word, and the word gives back
      mnemonic and operands. */
  lemma UnitRoundTrip(u: ICUnit, o: Operands)
    requires !u.opcode.Pseudo? && Encodable(EncodingOf(u.opcode), o) && Describes(u, o)
    ensures GenerateUnit(u) == Ok(Encode(EncodingOf(u.opcode), o))
    ensures Decode(GenerateUnit(u).value) == Some((u.opcode, o))
  {
    hide EncodingOf, Encodable, Encode, Decode, Describes, ReadOperands;
    DescribedOperandsRead(u, o);
    DecodeEncode(u.opcode, o);
  }
}
