/** What the instructions that li and la stand for compute when they are executed one at a time. */
module PseudoMeaning {
  import opened Arithmetic
  import opened Words
  import opened Masks
  import opened DecimalText
  import opened InstructionFields
  import opened Instructions
  import opened CodeGenerator
  import opened VmBase
  import opened SingleCycle
  import opened Processor
  import opened ParserUnits

  // ----- the upper part of a number -----

  function Low20(b: bv32): bv32 { b & 0xFFFFF }

  function Shift12(b: bv32): bv32 { b << 12 }

  lemma TwentyBits(b: bv32)
    ensures Widen(Low20(b)) == MaskedBy(Widen(b), 0xFFFFF) && LowOnes(0xFFFFF) && U64(0xFFFFF) == 0xFFFFF
    ensures Low20(b) < 0x100000
  {
  }

  lemma ShiftedValue(b: bv32)
    requires b < 0x100000
    ensures U32(Shift12(b)) == 4096 * U32(b)
  {
  }

  lemma Upper20Value(b: bv32)
    ensures U32(Shift12(Low20(b))) == 4096 * (U32(b) % 0x100000)
  {
    hide U32, U64, Widen, MaskedBy, LowOnes, Complement, Under, Others, Low20, Shift12;
    TwentyBits(b);
    ShiftedValue(Low20(b));
    MaskedValue(Widen(b), 0xFFFFF);
    WidenedComplement(b);
    WidenedComplement(Low20(b));
  }

  /** A number and its 32-bit wrap differ by a multiple of 2^32. */
  lemma WrapsBy(v: int) returns (k: int)
    ensures Int32(v) == v - TWO32 * k && (k == 0 <==> MIN32 <= v < -MIN32)
  {
    k := (v + 0x8000_0000) / TWO32;
    DivMod(v + 0x8000_0000, TWO32);
  }

  lemma SameWrap(v: int, k: int)
    ensures Int32(v + TWO32 * k) == Int32(v)
  {
    var x := v + 0x8000_0000;
    DivMod(x, TWO32);
    UniqueQuotient(x + TWO32 * k, TWO32, x / TWO32 + k, x % TWO32);
  }

  /** What lui and auipc see of a number: 4096 times it, wrapped to 32 bits. */
  lemma UpperPart(u: int)
    ensures Signed32(Shift12(Low20(Bits32(u)))) == Int32(4096 * u)
  {
    hide U32, Shift12, Low20, Bits32;
    Upper20Value(Bits32(u));
    Bits32Value(u);
    DivMod(u, 0x100000);
    assert (u % TWO32) % 0x100000 == u % 0x100000 by {
      UniqueQuotient(u, 0x100000, (u / TWO32) * 4096 + (u % TWO32) / 0x100000, (u % TWO32) % 0x100000);
    }
    SameWrap(4096 * (u % 0x100000), u / 0x100000);
  }

  // ----- the words of the units -----

  lemma PackedUpperImm(opcode: bv32, rd: bv32, imm: bv32)
    requires opcode < 128 && rd < 32
    ensures ImmU(PackU(opcode, rd, imm)) == Low20(imm)
  {
  }

  lemma UpperIsShifted(w: bv32)
    ensures UpperValue(w) == Dword(SignExtend32(Shift12(ImmGenerator(w))))
  {
    hide SignExtend32, ImmGenerator;
  }

  /** What lui and auipc make of their word. */
  lemma UpperWord(op: UOp, rd: nat, u: int) returns (w: bv32)
    requires rd < 32
    ensures w == PackU(UTable(op).opcode, Bits32(rd), Bits32(u))
    ensures Opcode(w) == UTable(op).opcode && Rd(w) == Bits32(rd)
    ensures Signed64(UpperValue(w).bits) == Int32(4096 * u)
  {
    UopOpcode(op);
    hide Opcode, Rd, PackU, ImmGenerator, ImmU, Low20, Shift12, Bits32, Signed32, Signed64, SignExtend32, UTable,
         UpperValue, RegName, Int32;
    RegisterOperand(rd);
    w := PackU(UTable(op).opcode, Bits32(rd), Bits32(u));
    PackUFields(UTable(op).opcode, Bits32(rd), Bits32(u));
    PackedUpperImm(UTable(op).opcode, Bits32(rd), Bits32(u));
    ImmGeneratorU(w);
    UpperIsShifted(w);
    UpperPart(u);
    SignExtendKeepsValue(Shift12(Low20(Bits32(u))));
  }

  lemma UopOpcode(op: UOp)
    ensures UTable(op).opcode == if op == LUI then 0x37 else 0x17
  {
  }

  /** What addi makes of its word. */
  lemma AddiWord(rd: nat, rs: nat, imm: int) returns (w: bv32)
    requires rd < 32 && rs < 32 && -2048 <= imm <= 2047
    ensures w == PackI(0x13, Bits32(rd), 0, Bits32(rs), Bits32(imm))
    ensures Opcode(w) == 0x13 && Funct3(w) == 0 && Rd(w) == Bits32(rd) && Rs1(w) == Bits32(rs)
    ensures Signed64(ImmValue(w).bits) == imm
  {
    hide Opcode, Rd, Rs1, Funct3, PackI, ImmGenerator, ImmI, Bits32, Signed32, Signed64, SignExtend32, FitsSigned,
         RegName, Csr, Low12;
    RegisterOperand(rd);
    RegisterOperand(rs);
    var i := Bits32(imm);
    SignedOfBits32(imm);
    SignedRanges(i);
    TwelveBits(i);
    w := PackI(0x13, Bits32(rd), 0, Bits32(rs), i);
    PackIFields(0x13, Bits32(rd), 0, Bits32(rs), i);
    PackIImm(0x13, Bits32(rd), 0, Bits32(rs), i);
    ImmGeneratorI(w);
    SignExtendKeepsValue(i);
  }

  lemma TwelveBits(b: bv32)
    ensures FitsSigned(b, 12) <==> b < 0x800 || b >= 0xFFFF_F800
  {
  }

  lemma UpperUnitWord(op: UOp, rd: nat, u: int, line: nat)
    requires rd < 32 && MIN32 <= u < -MIN32
    ensures GenerateUnit(UnitU(U(op), rd, u, line)) == Ok(PackU(UTable(op).opcode, Bits32(rd), Bits32(u)))
  {
    hide RegisterIndex, Immediate, RegName, ToString, PackU, Bits32, ReadOperands, UTable;
    NameReads(rd);
    TextReads(u);
    OperandsRead(UTable(op), UnitU(U(op), rd, u, line), Operands(Bits32(rd), 0, 0, 0, Bits32(u), 0, 0));
  }

  lemma AddiUnitWord(rd: nat, rs: nat, imm: int, line: nat)
    requires rd < 32 && rs < 32 && MIN32 <= imm < -MIN32
    ensures GenerateUnit(UnitI(I1(ADDI), rd, rs, imm, line)) == Ok(PackI(0x13, Bits32(rd), 0, Bits32(rs), Bits32(imm)))
  {
    hide RegisterIndex, Immediate, RegName, ToString, PackI, Bits32, ReadOperands;
    NameReads(rd);
    NameReads(rs);
    TextReads(imm);
    OperandsRead(I1Table(ADDI), UnitI(I1(ADDI), rd, rs, imm, line),
                 Operands(Bits32(rd), Bits32(rs), 0, 0, Bits32(imm), 0, 0));
  }

  // ----- executing the words -----

  lemma LuiEffect(w: bv32, s: Arch<Dword, Ram>)
    requires Opcode(w) == 0x37
    ensures ExecuteOne(MACHINE, w, s) == Arch(MACHINE.next(s.pc), WriteGpr(s.regs, Rd(w), UpperValue(w)), s.mem)
  {
    hide Opcode, Rd, Rs1, Rs2, Funct3, UpperValue, ImmValue, AluValue, LoadValue, StoreValue, AfterLoad;
  }

  lemma AuipcEffect(w: bv32, s: Arch<Dword, Ram>)
    requires Opcode(w) == 0x17
    ensures ExecuteOne(MACHINE, w, s) ==
      Arch(MACHINE.next(s.pc), WriteGpr(s.regs, Rd(w), Sum(s.pc, UpperValue(w))), s.mem)
  {
    hide Opcode, Rd, Rs1, Rs2, Funct3, UpperValue, ImmValue, AluValue, LoadValue, StoreValue, AfterLoad, Sum;
  }

  lemma AddiEffect(w: bv32, s: Arch<Dword, Ram>)
    requires Opcode(w) == 0x13 && Funct3(w) == 0
    ensures ExecuteOne(MACHINE, w, s) ==
      Arch(MACHINE.next(s.pc), WriteGpr(s.regs, Rd(w), Sum(MACHINE.ReadGpr(s.regs, Rs1(w)), ImmValue(w))), s.mem)
  {
    hide Opcode, Rd, Rs1, Rs2, Funct3, UpperValue, ImmValue, LoadValue, StoreValue, AfterLoad, Alu.Execute;
  }

  lemma RegisterNumber(rd: nat)
    requires 0 < rd < 32
    ensures Bits32(rd) != 0
  {
    hide U32, W32;
    ValueOfW32(rd);
    ZeroWord32();
  }

  lemma ZeroWord32()
    ensures U32(0) == 0
  {
  }

  /** The state after running the units one after the other from s. */
  function RunUnits(units: seq<ICUnit>, s: Arch<Dword, Ram>): Arch<Dword, Ram>
    requires forall i :: 0 <= i < |units| ==> GenerateUnit(units[i]).Ok?
    decreases |units|
  {
    if units == [] then s else RunUnits(units[1..], ExecuteOne(MACHINE, GenerateUnit(units[0]).value, s))
  }

  /** The number in register rd after that. */
  function AfterUnits(units: seq<ICUnit>, rd: nat, s: Arch<Dword, Ram>): int
    requires forall i :: 0 <= i < |units| ==> GenerateUnit(units[i]).Ok?
  {
    Signed64(MACHINE.ReadGpr(RunUnits(units, s).regs, Bits32(rd)).bits)
  }

  lemma OneUnit(u: ICUnit, s: Arch<Dword, Ram>)
    requires GenerateUnit(u).Ok?
    ensures RunUnits([u], s) == ExecuteOne(MACHINE, GenerateUnit(u).value, s)
  {
    hide GenerateUnit, ExecuteOne;
    assert [u][1..] == [];
  }

  lemma TwoUnits(u: ICUnit, v: ICUnit, s: Arch<Dword, Ram>)
    requires GenerateUnit(u).Ok? && GenerateUnit(v).Ok?
    ensures RunUnits([u, v], s) ==
      ExecuteOne(MACHINE, GenerateUnit(v).value, ExecuteOne(MACHINE, GenerateUnit(u).value, s))
  {
    hide GenerateUnit, ExecuteOne;
    assert [u, v][1..] == [v];
    OneUnit(v, ExecuteOne(MACHINE, GenerateUnit(u).value, s));
  }

  /** The value of a number in a register. */
  function OfInt(v: int): Dword { Dword(Bits64(v)) }

  lemma OfSigned(a: Dword)
    ensures a == OfInt(Signed64(a.bits))
  {
    hide Bits64, Signed64;
    SignedRange64(a.bits);
  }

  lemma SumOfInts(x: int, y: int)
    requires MIN64 <= x < -MIN64 && MIN64 <= y < -MIN64
    ensures Sum(OfInt(x), OfInt(y)) == OfInt(x + y)
  {
    hide Signed64, Bits64;
    SignedOfBits64(x);
    SignedOfBits64(y);
  }

  /** lui or auipc leaves this, and changes nothing else. */
  lemma UpperRuns(op: UOp, rd: nat, upper: int, line: nat, s: Arch<Dword, Ram>)
    requires rd < 32 && MIN32 <= upper < -MIN32
    ensures
      var u := UnitU(U(op), rd, upper, line);
      var part := OfInt(Int32(4096 * upper));
      && GenerateUnit(u).Ok?
      && RunUnits([u], s) ==
           Arch(MACHINE.next(s.pc), WriteGpr(s.regs, Bits32(rd), if op == LUI then part else Sum(s.pc, part)), s.mem)
  {
    hide RunUnits, GenerateUnit, ExecuteOne, Opcode, Rd, Bits32, Signed64, Bits64, Sum, UpperValue, UTable, PackU,
         Int32, WriteGpr;
    var u := UnitU(U(op), rd, upper, line);
    UopOpcode(op);
    var w := UpperWord(op, rd, upper);
    UpperUnitWord(op, rd, upper, line);
    if op == LUI { LuiEffect(w, s); } else { AuipcEffect(w, s); }
    OfSigned(UpperValue(w));
    OneUnit(u, s);
  }

  /** addi adds a number of twelve bits. */
  lemma AddiRuns(rd: nat, rs: nat, imm: int, line: nat, s: Arch<Dword, Ram>)
    requires rd < 32 && rs < 32 && -2048 <= imm <= 2047
    ensures
      var u := UnitI(I1(ADDI), rd, rs, imm, line);
      && GenerateUnit(u).Ok?
      && RunUnits([u], s) ==
           Arch(MACHINE.next(s.pc),
                WriteGpr(s.regs, Bits32(rd), Sum(MACHINE.ReadGpr(s.regs, Bits32(rs)), OfInt(imm))), s.mem)
  {
    hide RunUnits, GenerateUnit, ExecuteOne, Opcode, Rd, Rs1, Funct3, Bits32, Signed64, Bits64, Sum, ImmValue, PackI,
         WriteGpr;
    var u := UnitI(I1(ADDI), rd, rs, imm, line);
    var w := AddiWord(rd, rs, imm);
    AddiUnitWord(rd, rs, imm, line);
    AddiEffect(w, s);
    OfSigned(ImmValue(w));
    OneUnit(u, s);
  }

  lemma WrittenReads(regs: Regs<Dword>, rd: nat, v: Dword)
    requires 0 < rd < 32
    ensures MACHINE.ReadGpr(WriteGpr(regs, Bits32(rd), v), Bits32(rd)) == v
  {
    hide Bits32;
    RegisterNumber(rd);
  }

  lemma OverwrittenAt0(regs: Regs<Dword>, v: Dword)
    ensures WriteGpr(regs, Bits32(0), v) == regs
  {
    hide U32, W32;
    ZeroWord32();
    OfU32(0);
  }

  lemma Overwritten(regs: Regs<Dword>, r: bv32, v: Dword, w: Dword)
    ensures WriteGpr(WriteGpr(regs, r, v), r, w) == WriteGpr(regs, r, w)
  {
  }

  /** The upper instruction and then addi to the same register: the sum of the two parts. */
  lemma UpperThenAddi(op: UOp, rd: nat, upper: int, lower: int, line: nat, s: Arch<Dword, Ram>)
    requires rd < 32 && MIN32 <= upper < -MIN32 && -2048 <= lower <= 2047
    requires op == AUIPC ==> MIN64 / 2 <= Signed64(s.pc.bits) < -MIN64 / 2
    ensures
      var first, second := UnitU(U(op), rd, upper, line), UnitI(I1(ADDI), rd, rd, lower, line);
      var total := (if op == LUI then 0 else Signed64(s.pc.bits)) + Int32(4096 * upper) + lower;
      && GenerateUnit(first).Ok? && GenerateUnit(second).Ok?
      && RunUnits([first, second], s) ==
           Arch(MACHINE.next(MACHINE.next(s.pc)), WriteGpr(s.regs, Bits32(rd), OfInt(total)), s.mem)
  {
    hide RunUnits, GenerateUnit, ExecuteOne, UnitU, UnitI, Bits32, Bits64, Signed64, Sum, Int32, WriteGpr;
    var first, second := UnitU(U(op), rd, upper, line), UnitI(I1(ADDI), rd, rd, lower, line);
    var base := if op == LUI then 0 else Signed64(s.pc.bits);
    UpperRuns(op, rd, upper, line, s);
    OneUnit(first, s);
    var s1 := RunUnits([first], s);
    AddiRuns(rd, rd, lower, line, s1);
    OneUnit(second, s1);
    TwoUnits(first, second, s);
    OfSigned(s.pc);
    if op == AUIPC { SumOfInts(base, Int32(4096 * upper)); }
    var v := OfInt(base + Int32(4096 * upper));
    SumOfInts(base + Int32(4096 * upper), lower);
    if rd == 0 {
      OverwrittenAt0(s.regs, v);
      OverwrittenAt0(s1.regs, Sum(MACHINE.ReadGpr(s1.regs, Bits32(rd)), OfInt(lower)));
      OverwrittenAt0(s.regs, OfInt(base + Int32(4096 * upper) + lower));
    } else {
      WrittenReads(s.regs, rd, v);
      Overwritten(s.regs, Bits32(rd), v, OfInt(base + Int32(4096 * upper) + lower));
    }
  }

  lemma SplitNumber(imm: int)
    requires MIN32 <= imm < -MIN32
    ensures
      var upper := (imm + 2048) / 4096;
      && MIN32 <= upper < -MIN32 && -2048 <= imm - 4096 * upper <= 2047
      && Int32(4096 * upper) == 4096 * upper - (if imm < 0x7FFF_F800 then 0 else TWO32)
  {
    hide Int32;
    var k := WrapsBy(4096 * ((imm + 2048) / 4096));
  }

  /** li leaves this number in the register. */
  function LiValue(imm: int): int { if imm < 0x7FFF_F800 then imm else imm - TWO32 }

  /** li of a number that does not fit twelve bits: the register has the number afterwards if it lies below
      2^31 - 2048; above, lui turns negative. Nothing else changes. */
  lemma LiRuns(rd: nat, imm: int, line: nat, s: Arch<Dword, Ram>)
    requires rd < 32 && MIN32 <= imm < -MIN32
    ensures
      var upper := (imm + 2048) / 4096;
      var first, second := UnitU(U(LUI), rd, upper, line), UnitI(I1(ADDI), rd, rd, imm - 4096 * upper, line);
      var regs := WriteGpr(s.regs, Bits32(rd), OfInt(LiValue(imm)));
      && GenerateUnit(first).Ok? && GenerateUnit(second).Ok?
      && (imm == 4096 * upper ==> RunUnits([first], s) == Arch(MACHINE.next(s.pc), regs, s.mem))
      && RunUnits([first, second], s) == Arch(MACHINE.next(MACHINE.next(s.pc)), regs, s.mem)
  {
    hide RunUnits, GenerateUnit, Bits64, UnitU, UnitI, Int32, WriteGpr, Bits32;
    var upper := (imm + 2048) / 4096;
    SplitNumber(imm);
    UpperRuns(LUI, rd, upper, line, s);
    UpperThenAddi(LUI, rd, upper, imm - 4096 * upper, line, s);
  }

  lemma RegisterHolds(rd: nat, v: int, s: Arch<Dword, Ram>, pc: Dword, mem: Ram)
    requires 0 < rd < 32 && MIN64 <= v < -MIN64
    ensures
      Signed64(MACHINE.ReadGpr(Arch(pc, WriteGpr(s.regs, Bits32(rd), OfInt(v)), mem).regs, Bits32(rd)).bits) == v
  {
    hide Signed64, Bits64, Bits32, WriteGpr;
    WrittenReads(s.regs, rd, OfInt(v));
    SignedOfBits64(v);
  }

  /** So it is the number exactly below that bound. */
  lemma LiExactly(rd: nat, imm: int, line: nat, s: Arch<Dword, Ram>)
    requires 0 < rd < 32 && MIN32 <= imm < -MIN32
    ensures
      var upper := (imm + 2048) / 4096;
      var first, second := UnitU(U(LUI), rd, upper, line), UnitI(I1(ADDI), rd, rd, imm - 4096 * upper, line);
      var units := if imm == 4096 * upper then [first] else [first, second];
      && GenerateUnit(first).Ok? && GenerateUnit(second).Ok?
      && (AfterUnits(units, rd, s) == imm <==> imm < 0x7FFF_F800)
  {
    hide RunUnits, GenerateUnit, Signed64, UnitU, UnitI, OfInt, WriteGpr, Bits32;
    LiRuns(rd, imm, line, s);
    RegisterHolds(rd, LiValue(imm), s, MACHINE.next(s.pc), s.mem);
    RegisterHolds(rd, LiValue(imm), s, MACHINE.next(MACHINE.next(s.pc)), s.mem);
  }

  /** la leaves this number: the distance, wrapped if it does not fit. */
  function LaValue(offset: int): int { Int32(4096 * Upper(offset)) + Lower(offset) }

  lemma LaRuns(rd: nat, offset: int, line: nat, s: Arch<Dword, Ram>)
    requires rd < 32 && MIN64 / 2 <= Signed64(s.pc.bits) < -MIN64 / 2
    ensures
      var units := [UnitU(U(AUIPC), rd, Upper(offset), line), UnitI(I1(ADDI), rd, rd, Lower(offset), line)];
      && (forall i :: 0 <= i < |units| ==> GenerateUnit(units[i]).Ok?)
      && RunUnits(units, s) ==
           Arch(MACHINE.next(MACHINE.next(s.pc)),
                WriteGpr(s.regs, Bits32(rd), OfInt(Signed64(s.pc.bits) + LaValue(offset))), s.mem)
  {
    hide RunUnits, GenerateUnit, Signed64, Upper, Lower, Int32, WriteGpr, Bits32, Bits64, UnitU, UnitI;
    SplitOffset(offset);
    UpperThenAddi(AUIPC, rd, Upper(offset), Lower(offset), line, s);
  }

  /** la: the two instructions leave the address of the label in the register exactly when its
      distance, rounded to a multiple of 4096, fits a signed 32-bit number. */
  lemma LaExactly(rd: nat, offset: int, line: nat, s: Arch<Dword, Ram>)
    requires 0 < rd < 32 && MIN64 / 2 <= Signed64(s.pc.bits) < -MIN64 / 2
    ensures
      var units := [UnitU(U(AUIPC), rd, Upper(offset), line), UnitI(I1(ADDI), rd, rd, Lower(offset), line)];
      && (forall i :: 0 <= i < |units| ==> GenerateUnit(units[i]).Ok?)
      && (AfterUnits(units, rd, s) == Signed64(s.pc.bits) + offset <==> -0x8000_0800 <= offset < 0x7FFF_F800)
  {
    hide RunUnits, GenerateUnit, Signed64, Upper, Lower, Int32, OfInt, WriteGpr, Bits32, UnitU, UnitI;
    SplitOffset(offset);
    LaRuns(rd, offset, line, s);
    RegisterHolds(rd, Signed64(s.pc.bits) + LaValue(offset), s, MACHINE.next(MACHINE.next(s.pc)), s.mem);
  }

  /** Adding up the two parts of a distance gives it back exactly in this range. */
  lemma SplitOffset(offset: int)
    ensures -2048 <= Lower(offset) <= 2047
    ensures Int32(4096 * Upper(offset)) + Lower(offset) == offset <==> -0x8000_0800 <= offset < 0x7FFF_F800
  {
    hide Int32;
    var q := (offset + 0x800) / 4096;
    var m := WrapsBy(q);
    var k := WrapsBy(4096 * q);
    SameWrap(4096 * q, -4096 * m);
    assert 4096 * Upper(offset) == 4096 * q + TWO32 * (-4096 * m);
    SameWrap(offset - 4096 * q, k);
    var z := WrapsBy(offset - 4096 * q);
  }
}
