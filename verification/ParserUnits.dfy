/** The units the parser emits, and what it means for one to refer to its label. */
module ParserUnits {
  import opened Words
  import opened DecimalText
  import opened Instructions
  import opened CodeGenerator
  import opened VmBase
  import opened ParserData

  function RegName(n: nat): string { "x" + ToString(n) }

  const BLANK := ICUnit(I3(ECALL), "", "", "", "", 0, "", "", 0, 0)

  // One constructor a format; fields a format does not have stay empty.

  function UnitO(m: Mnemonic, line: nat): ICUnit { BLANK.(opcode := m, line := line) }

  function UnitR(m: Mnemonic, rd: nat, rs1: nat, rs2: nat, line: nat): ICUnit {
    UnitO(m, line).(rd := RegName(rd), rs1 := RegName(rs1), rs2 := RegName(rs2))
  }

  function UnitI(m: Mnemonic, rd: nat, rs1: nat, imm: int, line: nat): ICUnit {
    UnitO(m, line).(rd := RegName(rd), rs1 := RegName(rs1), imm := ToString(imm))
  }

  function UnitS(m: Mnemonic, rs1: nat, rs2: nat, imm: int, line: nat): ICUnit {
    UnitO(m, line).(rs1 := RegName(rs1), rs2 := RegName(rs2), imm := ToString(imm))
  }

  function UnitU(m: Mnemonic, rd: nat, imm: int, line: nat): ICUnit {
    UnitO(m, line).(rd := RegName(rd), imm := ToString(imm))
  }

  /** Branches and jumps that name a label; the offset is filled in now or later. */
  function UnitB(m: Mnemonic, rs1: nat, rs2: nat, label_: string, line: nat): ICUnit {
    UnitO(m, line).(rs1 := RegName(rs1), rs2 := RegName(rs2), target := label_)
  }

  function UnitJ(m: Mnemonic, rd: nat, label_: string, line: nat): ICUnit {
    UnitO(m, line).(rd := RegName(rd), target := label_)
  }

  /** The code generator accepts the unit. */
  predicate Ready(u: ICUnit) { GenerateUnit(u).Ok? }

  lemma NameReads(n: nat)
    requires n < -MIN32
    ensures RegisterIndex(RegName(n)) == Ok(Bits32(n))
  {
    hide ToString, Stoi, Bits32;
    PrintedNumberReads(n);
    assert RegName(n)[1..] == ToString(n);
  }

  lemma TextReads(v: int)
    requires MIN32 <= v < -MIN32
    ensures Immediate(ToString(v)) == Ok(Bits32(v))
  {
    hide ToString, Stoi, Bits32;
    PrintedNumberReads(v);
  }

  lemma RegisterUnitReady(m: Mnemonic, rd: nat, rs1: nat, rs2: nat, line: nat)
    requires m.R? && rd < 32 && rs1 < 32 && rs2 < 32
    ensures Ready(UnitR(m, rd, rs1, rs2, line))
  {
    hide RegisterIndex, RegName, RTable, Encode;
    NameReads(rd);
    NameReads(rs1);
    NameReads(rs2);
  }

  lemma ImmediateUnitReady(m: Mnemonic, rd: nat, rs1: nat, imm: int, line: nat)
    requires (m.I1? || m.I2?) && rd < 32 && rs1 < 32 && MIN32 <= imm < -MIN32
    ensures Ready(UnitI(m, rd, rs1, imm, line))
  {
    hide RegisterIndex, Immediate, RegName, ToString, I1Table, I2Table, Encode;
    NameReads(rd);
    NameReads(rs1);
    TextReads(imm);
  }

  lemma StoreUnitReady(m: Mnemonic, rs1: nat, rs2: nat, imm: int, line: nat)
    requires (m.S? || m.B?) && rs1 < 32 && rs2 < 32 && MIN32 <= imm < -MIN32
    ensures Ready(UnitS(m, rs1, rs2, imm, line))
  {
    hide RegisterIndex, Immediate, RegName, ToString, STable, BTable, Encode;
    NameReads(rs1);
    NameReads(rs2);
    TextReads(imm);
  }

  lemma UpperUnitReady(m: Mnemonic, rd: nat, imm: int, line: nat)
    requires (m.U? || m.J?) && rd < 32 && MIN32 <= imm < -MIN32
    ensures Ready(UnitU(m, rd, imm, line))
  {
    hide RegisterIndex, Immediate, RegName, ToString, UTable, JTable, Encode;
    NameReads(rd);
    TextReads(imm);
  }

  lemma SystemUnitReady(m: Mnemonic, line: nat)
    requires m.I3?
    ensures Ready(UnitO(m, line))
  {
    hide I3Table, Encode;
  }

  // ----- distances -----

  /** A value in a signed 32-bit variable. */
  function Int32(v: int): (r: int)
    ensures MIN32 <= r < -MIN32
  {
    (v + 0x8000_0000) % TWO32 - 0x8000_0000
  }

  // The distance to a label, split for auipc and a signed 12-bit immediate.

  function Upper(offset: int): (r: int)
    ensures MIN32 <= r < -MIN32
  {
    Int32((offset + 0x800) / 4096)
  }

  function Lower(offset: int): (r: int)
    ensures MIN32 <= r < -MIN32
  {
    Int32(offset - Int32(Upper(offset) * 4096))
  }

  // ----- units that name a label -----

  /** The offset from instruction i to an address, both in 32-bit unsigned arithmetic. */
  function Offset(address: nat, i: nat): int { address - (4 * i) % TWO32 }

  predicate OffsetInRange(m: Mnemonic, offset: int) {
    if m.B? then -4096 <= offset <= 4095 else -1048576 <= offset <= 1048575
  }

  /** A branch or jump whose immediate is still open. */
  predicate NeedsLabel(u: ICUnit) { (u.opcode.B? || u.opcode.J?) && u.imm == "" }

  /** Unit i can be given the offset of its label. */
  predicate CanFill(u: ICUnit, i: nat, symbols: Symbols) {
    && u.target in symbols
    && (u.opcode.B? ==> !symbols[u.target].isData)
    && OffsetInRange(u.opcode, Offset(symbols[u.target].address, i))
  }

  /** The unit with its offset filled in. */
  function Resolved(u: ICUnit, i: nat, symbols: Symbols): ICUnit {
    if NeedsLabel(u) && u.target in symbols then u.(imm := ToString(Offset(symbols[u.target].address, i))) else u
  }

  /** A branch or jump with its registers in place. */
  ghost predicate NamesLabel(u: ICUnit) {
    || (u.opcode.B?
        && exists rs1: nat, rs2: nat :: rs1 < 32 && rs2 < 32 && u.rs1 == RegName(rs1) && u.rs2 == RegName(rs2))
    || (u.opcode.J? && exists rd: nat :: rd < 32 && u.rd == RegName(rd))
  }

  /** Unit i goes to its label: the immediate is the offset of the label's address. */
  ghost predicate Linked(u: ICUnit, i: nat, symbols: Symbols) {
    NamesLabel(u) && CanFill(u, i, symbols) && u.imm == ToString(Offset(symbols[u.target].address, i))
  }

  lemma ResolvedIsLinked(u: ICUnit, i: nat, symbols: Symbols)
    requires NeedsLabel(u) && NamesLabel(u) && CanFill(u, i, symbols)
    ensures Linked(Resolved(u, i, symbols), i, symbols)
  {
    hide RegName, ToString, Offset, OffsetInRange;
  }

  lemma PrintedIsNotEmpty(v: int)
    ensures ToString(v) != ""
  {
    hide Digits;
    DigitsAreDigits(if v < 0 then -v else v);
  }

  lemma LinkedReady(u: ICUnit, i: nat, symbols: Symbols)
    requires Linked(u, i, symbols)
    ensures Ready(u)
  {
    hide RegisterIndex, Immediate, RegName, ToString, Offset, BTable, JTable, Encode;
    TextReads(Offset(symbols[u.target].address, i));
    if u.opcode.B? {
      var rs1: nat, rs2: nat :| rs1 < 32 && rs2 < 32 && u.rs1 == RegName(rs1) && u.rs2 == RegName(rs2);
      NameReads(rs1);
      NameReads(rs2);
    } else {
      var rd: nat :| rd < 32 && u.rd == RegName(rd);
      NameReads(rd);
    }
  }

  lemma RegisterOperand(n: nat)
    requires n < 32
    ensures Bits32(n) < 32 && NamesRegister(RegName(n), Bits32(n))
  {
    hide U32, W32, ToString;
    ValueOfW32(n);
    SmallWords(Bits32(n));
  }

  /** An even offset in the range of the format can be encoded. */
  lemma OffsetEncodable(m: Mnemonic, offset: int)
    requires m.B? || m.J?
    requires OffsetInRange(m, offset) && offset % 2 == 0
    ensures ImmInRange(EncodingOf(m), Bits32(offset)) && Signed32(Bits32(offset)) == offset
  {
    hide Signed32, Bits32, BTable, JTable;
    var b := Bits32(offset);
    SignedOfBits32(offset);
    SignedRanges(b);
    Parity(b);
    FitsRanges(b);
    hide FitsSigned;
  }

  /** And no other even offset can. */
  lemma OffsetRangeExactly(m: Mnemonic, offset: int)
    requires (m.B? || m.J?) && MIN32 <= offset < -MIN32 && offset % 2 == 0
    ensures OffsetInRange(m, offset) <==> ImmInRange(EncodingOf(m), Bits32(offset))
  {
    hide Signed32, Bits32, BTable, JTable;
    if OffsetInRange(m, offset) { OffsetEncodable(m, offset); }
    SignedOfBits32(offset);
    SignedRanges(Bits32(offset));
    FitsRanges(Bits32(offset));
    hide FitsSigned;
  }

  lemma FitsRanges(b: bv32)
    ensures FitsSigned(b, 13) <==> b < 0x1000 || b >= 0xFFFF_F000
    ensures FitsSigned(b, 21) <==> b < 0x10_0000 || b >= 0xFFF0_0000
    ensures b & 1 == 0 || b & 1 == 1
  {
  }

  /** The word of a linked unit, read back by the immediate generator, is the offset. */
  lemma LinkedWord(u: ICUnit, i: nat, symbols: Symbols)
    requires Linked(u, i, symbols) && Offset(symbols[u.target].address, i) % 2 == 0
    ensures
      && GenerateUnit(u).Ok?
      && Signed32(ImmGenerator(GenerateUnit(u).value)) == Offset(symbols[u.target].address, i)
  {
    hide GenerateUnit, Offset, OffsetInRange, RegName, ToString, NamesRegister, EncodingOf, Encode, ImmGenerator,
         Signed32, Bits32, ImmInRange;
    var offset := Offset(symbols[u.target].address, i);
    OffsetEncodable(u.opcode, offset);
    var o := Operands(0, 0, 0, 0, Bits32(offset), 0, 0);
    if u.opcode.B? {
      var rs1: nat, rs2: nat :| rs1 < 32 && rs2 < 32 && u.rs1 == RegName(rs1) && u.rs2 == RegName(rs2);
      RegisterOperand(rs1);
      RegisterOperand(rs2);
      BranchOperands(u, o.(rs1 := Bits32(rs1), rs2 := Bits32(rs2)));
    } else {
      var rd: nat :| rd < 32 && u.rd == RegName(rd);
      RegisterOperand(rd);
      JumpOperands(u, o.(rd := Bits32(rd)));
    }
  }

  lemma BranchOperands(u: ICUnit, o: Operands)
    requires u.opcode.B? && o.rd == 0 && o.rs3 == 0 && o.csr == 0 && o.rm == 0 && o.rs1 < 32 && o.rs2 < 32
    requires NamesRegister(u.rs1, o.rs1) && NamesRegister(u.rs2, o.rs2)
    requires ImmInRange(EncodingOf(u.opcode), o.imm) && u.imm == ToString(Signed32(o.imm))
    ensures GenerateUnit(u).Ok? && ImmGenerator(GenerateUnit(u).value) == o.imm
  {
    hide GenerateUnit, BTable, Encode, ImmGenerator, NamesRegister, ToString, Signed32, Decode, ImmInRange;
    ImmediateOpcodes(u.opcode);
    UnitRoundTrip(u, o);
    ImmediateRoundTrip(u.opcode, o);
  }

  lemma JumpOperands(u: ICUnit, o: Operands)
    requires u.opcode.J? && o.rs1 == 0 && o.rs2 == 0 && o.rs3 == 0 && o.csr == 0 && o.rm == 0 && o.rd < 32
    requires NamesRegister(u.rd, o.rd)
    requires ImmInRange(EncodingOf(u.opcode), o.imm) && u.imm == ToString(Signed32(o.imm))
    ensures GenerateUnit(u).Ok? && ImmGenerator(GenerateUnit(u).value) == o.imm
  {
    hide GenerateUnit, JTable, Encode, ImmGenerator, NamesRegister, ToString, Signed32, Decode, ImmInRange;
    ImmediateOpcodes(u.opcode);
    UnitRoundTrip(u, o);
    ImmediateRoundTrip(u.opcode, o);
  }
}
