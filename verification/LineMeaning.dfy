/** What a line of text does when the units it stands for are encoded and executed. */
module LineMeaning {
  import opened Options
  import opened Words
  import opened DecimalText
  import opened Instructions
  import opened CodeGenerator
  import Alu
  import opened AluMeaning
  import opened SingleCycle
  import opened Processor
  import opened Tokens
  import opened LineShapes
  import opened ParserData
  import opened ParserUnits
  import opened TextMeaning
  import opened MnemonicMeaning
  import opened MnemonicEffects
  import opened PseudoMeaning
  import opened RegisterUse
  import opened InstructionEffects

  // ----- operands -----

  /** The number of the register that is the n-th token behind the mnemonic. */
  function RegisterAt(s: seq<Token>, i: nat, n: nat): bv32
    requires IsRegister(s, i, n)
  {
    Bits32(At(s, i + n).kind.n)
  }

  /** The operands of a line, with this immediate: the destination comes first, but a store names its source
      first, and a branch what it compares. */
  function LineOperands(s: seq<Token>, i: nat, m: Mnemonic, imm: int): Operands
    requires IsInteger(m) && HasSyntax(s, i, m)
  {
    var o := Operands(0, 0, 0, 0, Bits32(imm), 0, 0);
    match m
    case R(_) => Operands(RegisterAt(s, i, 1), RegisterAt(s, i, 3), RegisterAt(s, i, 5), 0, 0, 0, 0)
    case I1(_) =>
      o.(rd := RegisterAt(s, i, 1),
         rs1 := if TwoRegistersAndNumber(s, i) then RegisterAt(s, i, 3)
                else if RegisterAndBase(s, i) then RegisterAt(s, i, 5) else RegisterAt(s, i, 1))
    case I2(_) => o.(rd := RegisterAt(s, i, 1), rs1 := RegisterAt(s, i, 3))
    case S(_) => o.(rs2 := RegisterAt(s, i, 1), rs1 := RegisterAt(s, i, 5))
    case B(_) => o.(rs1 := RegisterAt(s, i, 1), rs2 := RegisterAt(s, i, 3))
    case U(_) => o.(rd := RegisterAt(s, i, 1))
    case J(_) => o.(rd := RegisterAt(s, i, 1))
  }

  predicate NamesALabel(s: seq<Token>, i: nat) { RegisterAndLabel(s, i) || TwoRegistersAndLabel(s, i) }

  /** The number on a line that names no label. */
  function LineNumber(s: seq<Token>, i: nat, m: Mnemonic): int
    requires IsInteger(m) && HasSyntax(s, i, m) && !NamesALabel(s, i)
  {
    if m.R? then 0
    else if TwoRegistersAndNumber(s, i) then At(s, i + 5).kind.v
    else At(s, i + 3).kind.v
  }

  /** The numbers a line may have. */
  predicate Accepts(m: Mnemonic, imm: int) {
    if m.I1? || m.S? then -0x800 <= imm < 0x800
    else if m.I2? then 0 <= imm < 32
    else if m.B? then -0x1000 <= imm < 0x1000 && imm % 4 == 0
    else if m.U? then 0 <= imm < 0x10_0000
    else if m.J? then -0x10_0000 <= imm < 0x10_0000 && imm % 2 == 0
    else imm == 0
  }

  lemma AcceptedInRange(m: Mnemonic, imm: int)
    requires IsInteger(m) && !m.R? && Accepts(m, imm)
    ensures MIN32 <= imm < -MIN32
    ensures ImmInRange(EncodingOf(m), Bits32(imm)) && ToString(Signed32(Bits32(imm))) == ToString(imm)
  {
    hide ToString, Signed32, Bits32, U32, I1Table, I2Table, STable, BTable, UTable, JTable, FitsSigned;
    var b := Bits32(imm);
    SignedOfBits32(imm);
    SignedRanges(b);
    TwelveBits(b);
    Bits32Value(imm);
    SmallWords(b);
    if m.B? || m.J? { OffsetEncodable(m, imm); }
  }

  lemma RegisterIsNamed(s: seq<Token>, i: nat, n: nat)
    requires RegistersExist(s) && IsRegister(s, i, n)
    ensures RegisterAt(s, i, n) < 32 && NamesRegister(RegName(Reg(s, i, n)), RegisterAt(s, i, n))
  {
    hide RegName, NamesRegister, Bits32, RegistersExist;
    RegisterExists(s, i, n);
    RegisterOperand(Reg(s, i, n));
  }

  // ----- the word of a line -----

  /** Unit u stands for the instruction. */
  ghost predicate StandsFor(u: ICUnit, m: Mnemonic, o: Operands)
    requires IsInteger(m)
  {
    Encodable(EncodingOf(m), o) && GenerateUnit(u) == Ok(Encode(EncodingOf(m), o))
  }

  lemma FormatHas(m: Mnemonic)
    requires IsInteger(m)
    ensures
      var e := EncodingOf(m);
      && (HasRd(e) <==> !m.S? && !m.B?) && (HasRs1(e) <==> !m.U? && !m.J?) && (HasRs2(e) <==> m.R? || m.S? || m.B?)
      && (HasImm(e) <==> !m.R?) && !e.FdR4Encoding? && !HasCsr(e) && !HasRm(e)
      && (m.R? ==> ImmInRange(e, 0))
  {
    hide FitsSigned;
  }

  lemma DescribedStandsFor(u: ICUnit, o: Operands)
    requires IsInteger(u.opcode) && o.rs3 == 0 && o.csr == 0 && o.rm == 0
    requires !u.opcode.S? && !u.opcode.B? ==> o.rd < 32 && NamesRegister(u.rd, o.rd)
    requires u.opcode.S? || u.opcode.B? ==> o.rd == 0
    requires !u.opcode.U? && !u.opcode.J? ==> o.rs1 < 32 && NamesRegister(u.rs1, o.rs1)
    requires u.opcode.U? || u.opcode.J? ==> o.rs1 == 0
    requires u.opcode.R? || u.opcode.S? || u.opcode.B? ==> o.rs2 < 32 && NamesRegister(u.rs2, o.rs2)
    requires !(u.opcode.R? || u.opcode.S? || u.opcode.B?) ==> o.rs2 == 0
    requires
      if u.opcode.R? then o.imm == 0
      else ImmInRange(EncodingOf(u.opcode), o.imm) && u.imm == ToString(Signed32(o.imm))
    ensures StandsFor(u, u.opcode, o)
  {
    hide NamesRegister, ToString, Signed32, EncodingOf, HasRd, HasRs1, HasRs2, HasImm, HasCsr, HasRm, ImmInRange,
         GenerateUnit, Encode;
    FormatHas(u.opcode);
    UnitRoundTrip(u, o);
  }

  /** The units of a line that names no label: one, exactly if the number is accepted, and it stands for the
      mnemonic with the operands of the line. */
  lemma NumericLine(cfg: Setting, s: seq<Token>, i: nat, m: Mnemonic, symbols: Symbols, n: nat)
    requires RegistersExist(s) && IsInteger(m) && HasSyntax(s, i, m) && !NamesALabel(s, i)
    ensures
      var us, imm := LineUnits(cfg, s, i, m, symbols, n), LineNumber(s, i, m);
      && (us.Some? <==> Accepts(m, imm))
      && (us.Some? ==> |us.value| == 1 && StandsFor(us.value[0], m, LineOperands(s, i, m, imm)))
  {
    hide NamesRegister, ToString, Signed32, EncodingOf, RegName, Bits32, RegistersExist, StandsFor, ImmInRange;
    var us, imm := LineUnits(cfg, s, i, m, symbols, n), LineNumber(s, i, m);
    RegisterIsNamed(s, i, 1);
    if IsRegister(s, i, 3) { RegisterIsNamed(s, i, 3); }
    if IsRegister(s, i, 5) { RegisterIsNamed(s, i, 5); }
    if us.Some? {
      if !m.R? { AcceptedInRange(m, imm); }
      DescribedStandsFor(us.value[0], LineOperands(s, i, m, imm));
    }
  }

  lemma UnitRuns(u: ICUnit, m: Mnemonic, o: Operands, st: Arch<Dword, Ram>)
    requires IsInteger(m) && StandsFor(u, m, o)
    ensures RunUnits([u], st) == EffectOf(m, o, st)
  {
    hide GenerateUnit, Encode, Encodable, EncodingOf, EffectOf, ExecuteOne, RunUnits;
    EffectExactly(m, o, st);
    OneUnit(u, st);
  }

  /** So a line that names no label does what its mnemonic does with the registers and the number on it. */
  lemma NumericLineRuns(cfg: Setting, s: seq<Token>, i: nat, m: Mnemonic, symbols: Symbols, n: nat,
                        st: Arch<Dword, Ram>)
    requires RegistersExist(s) && IsInteger(m) && HasSyntax(s, i, m) && !NamesALabel(s, i)
    requires Accepts(m, LineNumber(s, i, m))
    ensures
      var us := LineUnits(cfg, s, i, m, symbols, n);
      && us.Some? && (forall k :: 0 <= k < |us.value| ==> GenerateUnit(us.value[k]).Ok?)
      && RunUnits(us.value, st) == EffectOf(m, LineOperands(s, i, m, LineNumber(s, i, m)), st)
  {
    hide GenerateUnit, EffectOf, RunUnits, RegistersExist, Accepts, LineUnits, LineOperands, Encode, Encodable,
         EncodingOf;
    NumericLine(cfg, s, i, m, symbols, n);
    var us := LineUnits(cfg, s, i, m, symbols, n).value;
    UnitRuns(us[0], m, LineOperands(s, i, m, LineNumber(s, i, m)), st);
    assert us == [us[0]];
  }

  // ----- lines that name a code label -----

  lemma ExtendedNumber(v: int)
    requires MIN32 <= v < -MIN32
    ensures Extended(Bits32(v)) == OfInt(v)
  {
    hide Bits32, Bits64, Signed32, Signed64, SignExtend32;
    SignedOfBits32(v);
    SignExtendKeepsValue(Bits32(v));
    OfSigned(Extended(Bits32(v)));
  }

  lemma EvenOffset(address: nat, n: nat)
    requires address % 4 == 0
    ensures Offset(address, n) % 2 == 0
  {
    var k := (4 * n) / TWO32;
    assert Offset(address, n) == 2 * (2 * (address / 4 - n) + k * (TWO32 / 2));
  }

  /** The unit of a branch or jump by label, if the label is in range: with the offset filled in it stands for
      the mnemonic with the registers of the line. */
  lemma LabelLine(cfg: Setting, s: seq<Token>, i: nat, m: Mnemonic, symbols: Symbols, n: nat)
    requires RegistersExist(s) && (if m.B? then TwoRegistersAndLabel(s, i) else m.J? && RegisterAndLabel(s, i))
    requires
      var l := At(s, i + if m.B? then 5 else 3).value;
      KnowsCodeLabel(symbols, l) && symbols[l].address % 4 == 0
    ensures
      var us := LineUnits(cfg, s, i, m, symbols, n);
      var offset := Offset(symbols[At(s, i + if m.B? then 5 else 3).value].address, n);
      && (us.Some? <==> OffsetInRange(m, offset))
      && (us.Some? ==>
            |us.value| == 1 && StandsFor(Resolved(us.value[0], n, symbols), m, LineOperands(s, i, m, offset)))
  {
    hide NamesRegister, ToString, Signed32, EncodingOf, RegName, Bits32, RegistersExist, StandsFor, ImmInRange, Offset,
         OffsetInRange;
    var us := LineUnits(cfg, s, i, m, symbols, n);
    var address := symbols[At(s, i + if m.B? then 5 else 3).value].address;
    RegisterIsNamed(s, i, 1);
    if m.B? { RegisterIsNamed(s, i, 3); }
    EvenOffset(address, n);
    if us.Some? {
      OffsetEncodable(m, Offset(address, n));
      DescribedStandsFor(Resolved(us.value[0], n, symbols), LineOperands(s, i, m, Offset(address, n)));
    }
  }

  lemma GoesThere(address: nat, n: nat, pc: Dword)
    requires 4 * n < TWO32 && pc == OfInt(4 * n) && -0x8000_0000 <= Offset(address, n) < 0x8000_0000
    ensures Sum(pc, Extended(Bits32(Offset(address, n)))) == OfInt(address)
  {
    hide Bits32, Bits64, Sum, Extended;
    assert (4 * n) % TWO32 == 4 * n;
    ExtendedNumber(Offset(address, n));
    SumOfInts(4 * n, Offset(address, n));
  }

  /** A branch at its own address goes to its label if the comparison of its two registers, in the order of the
      line, holds; a jump goes there and links. */
  lemma LabelLineRuns(cfg: Setting, s: seq<Token>, i: nat, m: Mnemonic, symbols: Symbols, n: nat, st: Arch<Dword, Ram>)
    requires RegistersExist(s) && (if m.B? then TwoRegistersAndLabel(s, i) else m.J? && RegisterAndLabel(s, i))
    requires
      var l := At(s, i + if m.B? then 5 else 3).value;
      KnowsCodeLabel(symbols, l) && symbols[l].address % 4 == 0
    requires LineUnits(cfg, s, i, m, symbols, n).Some? && 4 * n < TWO32 && st.pc == OfInt(4 * n)
    ensures
      var u := LineUnits(cfg, s, i, m, symbols, n).value[0];
      var target := OfInt(symbols[At(s, i + if m.B? then 5 else 3).value].address);
      && GenerateUnit(Resolved(u, n, symbols)).Ok?
      && RunUnits([Resolved(u, n, symbols)], st) ==
        if m.B? then
          var a, b := MACHINE.ReadGpr(st.regs, RegisterAt(s, i, 1)), MACHINE.ReadGpr(st.regs, RegisterAt(s, i, 3));
          Arch(if NamedBranch(m.b, a.bits, b.bits) then target else MACHINE.next(st.pc), st.regs, st.mem)
        else Arch(target, WriteGpr(st.regs, RegisterAt(s, i, 1), MACHINE.next(st.pc)), st.mem)
  {
    hide GenerateUnit, RunUnits, RegistersExist, LineUnits, Encode, Encodable, EncodingOf, Resolved, Offset, Bits32,
         NamedBranch, Sum, Extended, OfInt, WriteGpr, MACHINE;
    LabelLine(cfg, s, i, m, symbols, n);
    var address := symbols[At(s, i + if m.B? then 5 else 3).value].address;
    var u := LineUnits(cfg, s, i, m, symbols, n).value[0];
    UnitRuns(Resolved(u, n, symbols), m, LineOperands(s, i, m, Offset(address, n)), st);
    GoesThere(address, n, st.pc);
  }

  // ----- shorthands -----

  lemma Ones()
    ensures U32(0xFFFF_FFFF) == TWO32 - 1 && SignExtend32(0xFFFF_FFFF) == 0xFFFF_FFFF_FFFF_FFFF
  {
  }

  lemma MinusOne()
    ensures Bits32(-1) == 0xFFFF_FFFF
  {
    Ones();
    hide U32, W32, SignExtend32;
    OfU32(0xFFFF_FFFF);
  }

  lemma XorOnes(a: bv64)
    ensures a ^ 0xFFFF_FFFF_FFFF_FFFF == !a
  {
  }

  lemma Complemented(a: Dword)
    ensures Value(Alu.Xor, a, Extended(Bits32(-1))) == Dword(!a.bits)
  {
    hide SignExtend32, Bits32, Alu.Execute;
    MinusOne();
    Ones();
    XorOnes(a.bits);
    ExecuteCombines(Alu.Xor, a.bits, SignExtend32(Bits32(-1)));
  }

  lemma PlusZero(a: Dword)
    ensures Value(Alu.Add, a, Dword(0)) == a && Extended(0) == Dword(0)
  {
    ZeroWordOperands();
    hide Bits64, Signed64, SignExtend32;
    SignedRange64(a.bits);
  }

  /** What the shorthands mean: mv leaves the other register, not its complement; nop only goes on; and ret goes
      where x1 says and writes nothing. */
  function ShorthandOf(s: seq<Token>, i: nat, p: PseudoOp, st: Arch<Dword, Ram>): Arch<Dword, Ram>
    requires HasSyntax(s, i, Pseudo(p)) && p != LA && p != LI
  {
    var next := MACHINE.next(st.pc);
    if p == MV then
      Arch(next, WriteGpr(st.regs, RegisterAt(s, i, 1), MACHINE.ReadGpr(st.regs, RegisterAt(s, i, 3))), st.mem)
    else if p == NOT then
      Arch(next, WriteGpr(st.regs, RegisterAt(s, i, 1), Dword(!MACHINE.ReadGpr(st.regs, RegisterAt(s, i, 3)).bits)),
           st.mem)
    else if p == NOP then Arch(next, st.regs, st.mem)
    else Arch(MACHINE.ReadGpr(st.regs, 1), st.regs, st.mem)
  }

  /** The instruction a shorthand is for. */
  function ShorthandMnemonic(p: PseudoOp): Mnemonic {
    if p == MV then R(ADD) else if p == NOT then I1(XORI) else if p == NOP then I1(ADDI) else I1(JALR)
  }

  function ShorthandOperands(s: seq<Token>, i: nat, p: PseudoOp): Operands
    requires HasSyntax(s, i, Pseudo(p)) && p != LA && p != LI
  {
    var o := Operands(0, 0, 0, 0, 0, 0, 0);
    if p == MV then o.(rd := RegisterAt(s, i, 1), rs1 := RegisterAt(s, i, 3))
    else if p == NOT then o.(rd := RegisterAt(s, i, 1), rs1 := RegisterAt(s, i, 3), imm := Bits32(-1))
    else if p == NOP then o
    else o.(rs1 := 1)
  }

  lemma ShorthandStandsFor(s: seq<Token>, i: nat, p: PseudoOp)
    requires RegistersExist(s) && HasSyntax(s, i, Pseudo(p)) && p != LA && p != LI
    ensures ShorthandUnits(s, i, p).Some? && |ShorthandUnits(s, i, p).value| == 1
    ensures StandsFor(ShorthandUnits(s, i, p).value[0], ShorthandMnemonic(p), ShorthandOperands(s, i, p))
  {
    ConstantRegisters();
    hide NamesRegister, ToString, Signed32, EncodingOf, RegName, Bits32, RegistersExist, StandsFor, ImmInRange;
    if p == MV || p == NOT {
      RegisterIsNamed(s, i, 1);
      RegisterIsNamed(s, i, 3);
    }
    if p != MV { AcceptedInRange(ShorthandMnemonic(p), if p == NOT then -1 else 0); }
    DescribedStandsFor(ShorthandUnits(s, i, p).value[0], ShorthandOperands(s, i, p));
  }

  lemma ConstantRegisters()
    ensures Bits32(0) == 0 && Bits32(1) == 1
    ensures NamesRegister(RegName(0), 0) && NamesRegister(RegName(1), 1)
  {
    ZeroWordOperands();
    OneWord();
    hide Bits32, RegName, NamesRegister;
    RegisterOperand(0);
    RegisterOperand(1);
  }

  lemma OneWord()
    ensures Bits32(1) == 1
  {
    OfU32(1);
  }

  lemma MvEffect(s: seq<Token>, i: nat, st: Arch<Dword, Ram>)
    requires HasSyntax(s, i, Pseudo(MV))
    ensures EffectOf(R(ADD), ShorthandOperands(s, i, MV), st) == ShorthandOf(s, i, MV, st)
  {
    hide Bits32, Value, WriteGpr, RegisterAt;
    PlusZero(MACHINE.ReadGpr(st.regs, RegisterAt(s, i, 3)));
  }

  lemma NotEffect(s: seq<Token>, i: nat, st: Arch<Dword, Ram>)
    requires HasSyntax(s, i, Pseudo(NOT))
    ensures EffectOf(I1(XORI), ShorthandOperands(s, i, NOT), st) == ShorthandOf(s, i, NOT, st)
  {
    hide Bits32, Value, WriteGpr, Extended, MACHINE, RegisterAt, MACHINE.ReadGpr;
    Complemented(MACHINE.ReadGpr(st.regs, RegisterAt(s, i, 3)));
  }

  lemma NopEffect(s: seq<Token>, i: nat, st: Arch<Dword, Ram>)
    requires HasSyntax(s, i, Pseudo(NOP))
    ensures EffectOf(I1(ADDI), ShorthandOperands(s, i, NOP), st) == ShorthandOf(s, i, NOP, st)
  {
    hide Value, Extended;
  }

  lemma RetEffect(s: seq<Token>, i: nat, st: Arch<Dword, Ram>)
    requires HasSyntax(s, i, Pseudo(RET))
    ensures EffectOf(I1(JALR), ShorthandOperands(s, i, RET), st) == ShorthandOf(s, i, RET, st)
  {
    hide Value, Extended, MACHINE;
    PlusZero(MACHINE.ReadGpr(st.regs, 1));
  }

  lemma ShorthandEffect(s: seq<Token>, i: nat, p: PseudoOp, st: Arch<Dword, Ram>)
    requires HasSyntax(s, i, Pseudo(p)) && p != LA && p != LI
    ensures EffectOf(ShorthandMnemonic(p), ShorthandOperands(s, i, p), st) == ShorthandOf(s, i, p, st)
  {
    hide EffectOf, ShorthandOperands, ShorthandOf;
    if p == MV { MvEffect(s, i, st); } else if p == NOT { NotEffect(s, i, st); }
    else if p == NOP { NopEffect(s, i, st); } else { RetEffect(s, i, st); }
  }

  /** A shorthand is one instruction, and that does what the shorthand means. */
  lemma ShorthandRuns(cfg: Setting, s: seq<Token>, i: nat, p: PseudoOp, symbols: Symbols, n: nat,
                      st: Arch<Dword, Ram>)
    requires RegistersExist(s) && HasSyntax(s, i, Pseudo(p)) && p != LA && p != LI
    ensures
      var us := LineUnits(cfg, s, i, Pseudo(p), symbols, n);
      && us.Some? && |us.value| == 1 && GenerateUnit(us.value[0]).Ok?
      && RunUnits(us.value, st) == ShorthandOf(s, i, p, st)
  {
    hide GenerateUnit, EffectOf, RunUnits, RegistersExist, ShorthandUnits, ShorthandOperands, ShorthandOf, Encode,
         Encodable, EncodingOf, MACHINE;
    ShorthandStandsFor(s, i, p);
    var us := ShorthandUnits(s, i, p).value;
    UnitRuns(us[0], ShorthandMnemonic(p), ShorthandOperands(s, i, p), st);
    ShorthandEffect(s, i, p, st);
    assert us == [us[0]];
  }

  // ----- li, la and loads by label -----

  /** The program counter behind one or two units. */
  function Behind(units: seq<ICUnit>, pc: Dword): Dword {
    if |units| == 1 then MACHINE.next(pc) else MACHINE.next(MACHINE.next(pc))
  }

  /** li takes the numbers of 32 bits, and leaves them in the register, or 2^32 less at the upper end. */
  lemma LiLineRuns(cfg: Setting, s: seq<Token>, i: nat, symbols: Symbols, n: nat, st: Arch<Dword, Ram>)
    requires RegistersExist(s) && HasSyntax(s, i, Pseudo(LI))
    ensures
      var us, imm := LineUnits(cfg, s, i, Pseudo(LI), symbols, n), At(s, i + 3).kind.v;
      && (us.Some? <==> MIN32 <= imm < -MIN32)
      && (us.Some? ==>
            && (forall k :: 0 <= k < |us.value| ==> GenerateUnit(us.value[k]).Ok?)
            && RunUnits(us.value, st) ==
                 Arch(Behind(us.value, st.pc), WriteGpr(st.regs, RegisterAt(s, i, 1), OfInt(LiValue(imm))), st.mem))
  {
    hide GenerateUnit, RunUnits, UnitU, UnitI, OfInt, WriteGpr, Bits32, RegistersExist, EndsAt, MACHINE;
    var imm := At(s, i + 3).kind.v;
    RegisterExists(s, i, 1);
    if -2048 <= imm <= 2047 {
      SmallLi(Reg(s, i, 1), imm, Line(s, i), st);
    } else if MIN32 <= imm < -MIN32 {
      LiRuns(Reg(s, i, 1), imm, Line(s, i), st);
    }
  }

  lemma SmallLi(rd: nat, imm: int, line: nat, st: Arch<Dword, Ram>)
    requires rd < 32 && -2048 <= imm <= 2047
    ensures
      var u := UnitI(I1(ADDI), rd, 0, imm, line);
      && GenerateUnit(u).Ok?
      && RunUnits([u], st) == Arch(MACHINE.next(st.pc), WriteGpr(st.regs, Bits32(rd), OfInt(imm)), st.mem)
  {
    ConstantRegisters();
    ZeroWordOperands();
    hide GenerateUnit, RunUnits, UnitI, WriteGpr, Bits32, Bits64, Signed64;
    AddiRuns(rd, 0, imm, line, st);
    ZeroPlus(imm);
  }

  lemma ZeroPlus(v: int)
    requires MIN64 <= v < -MIN64
    ensures Sum(Dword(0), OfInt(v)) == OfInt(v)
  {
    hide Bits64, Signed64, U64;
    Alu.SignedZero();
    SignedOfBits64(v);
  }

  /** The distance from unit n to a data label. */
  function Distance(cfg: Setting, s: seq<Token>, i: nat, symbols: Symbols, n: nat): int
    requires RegisterAndLabel(s, i) && At(s, i + 3).value in symbols
  {
    cfg.dataStart + symbols[At(s, i + 3).value].address - 4 * n
  }

  predicate NamesData(s: seq<Token>, i: nat, symbols: Symbols) {
    RegisterAndLabel(s, i) && At(s, i + 3).value in symbols && symbols[At(s, i + 3).value].isData
  }

  /** A label that is no data label is an error. */
  lemma NeedsData(cfg: Setting, s: seq<Token>, i: nat, m: Mnemonic, symbols: Symbols, n: nat)
    requires HasSyntax(s, i, m) && (m == Pseudo(LA) || (m.I1? && RegisterAndLabel(s, i)))
    ensures LineUnits(cfg, s, i, m, symbols, n).Some? <==> NamesData(s, i, symbols)
  {
    hide UnitU, UnitI, Upper, Lower, EndsAt;
  }

  /** la leaves this address in the register; it is that of the label exactly for these distances. */
  lemma LaLineRuns(cfg: Setting, s: seq<Token>, i: nat, symbols: Symbols, n: nat, st: Arch<Dword, Ram>)
    requires RegistersExist(s) && NamesData(s, i, symbols) && 4 * n < TWO32 && st.pc == OfInt(4 * n)
    ensures
      var us, offset := LineUnits(cfg, s, i, Pseudo(LA), symbols, n), Distance(cfg, s, i, symbols, n);
      var place := 4 * n + LaValue(offset);
      && us.Some? && (forall k :: 0 <= k < |us.value| ==> GenerateUnit(us.value[k]).Ok?)
      && RunUnits(us.value, st) ==
           Arch(Behind(us.value, st.pc), WriteGpr(st.regs, RegisterAt(s, i, 1), OfInt(place)), st.mem)
      && (place == cfg.dataStart + symbols[At(s, i + 3).value].address <==> -0x8000_0800 <= offset < 0x7FFF_F800)
  {
    hide GenerateUnit, RunUnits, UnitU, UnitI, Bits64, Signed64, WriteGpr, Bits32, RegistersExist, EndsAt, Upper,
         Lower, Int32, MACHINE;
    var offset := Distance(cfg, s, i, symbols, n);
    RegisterExists(s, i, 1);
    SignedOfBits64(4 * n);
    assert (4 * n) % TWO32 == 4 * n;
    SplitOffset(offset);
    LaRuns(Reg(s, i, 1), offset, Line(s, i), st);
  }

  /** A load by label reads from that address, unless its destination is x0, which it also uses as its base. */
  lemma LoadLineRuns(cfg: Setting, s: seq<Token>, i: nat, op: I1Op, symbols: Symbols, n: nat, st: Arch<Dword, Ram>)
    requires RegistersExist(s) && NamesData(s, i, symbols) && 4 * n < TWO32 && st.pc == OfInt(4 * n)
    requires op in {LB, LH, LW, LD} && RegisterAt(s, i, 1) != 0
    ensures
      var us, offset := LineUnits(cfg, s, i, I1(op), symbols, n), Distance(cfg, s, i, symbols, n);
      var place, funct3 := OfInt(4 * n + LaValue(offset)), I1Table(op).funct3;
      && us.Some? && (forall k :: 0 <= k < |us.value| ==> GenerateUnit(us.value[k]).Ok?)
      && RunUnits(us.value, st) ==
           Arch(Behind(us.value, st.pc),
                WriteGpr(st.regs, RegisterAt(s, i, 1), LoadValue(st.mem, funct3, place)),
                AfterLoad(st.mem, funct3, place))
  {
    hide GenerateUnit, RunUnits, UnitU, UnitI, Bits64, Signed64, WriteGpr, Bits32, RegistersExist, EndsAt, Upper,
         Lower, Int32, LoadValue, AfterLoad, MACHINE, I1Table, Sum;
    var offset, rd := Distance(cfg, s, i, symbols, n), Reg(s, i, 1);
    RegisterExists(s, i, 1);
    assert (4 * n) % TWO32 == 4 * n;
    LoadUnits(op, rd, offset, Line(s, i), 4 * n, st);
    NotBySyntax(s, i);
  }

  /** Into x0 it reads from the lower part of the distance alone. */
  lemma LoadIntoZeroRuns(cfg: Setting, s: seq<Token>, i: nat, op: I1Op, symbols: Symbols, n: nat, st: Arch<Dword, Ram>)
    requires RegistersExist(s) && NamesData(s, i, symbols) && 4 * n < TWO32
    requires op in {LB, LH, LW, LD} && At(s, i + 1).kind.n == 0
    ensures
      var us, offset := LineUnits(cfg, s, i, I1(op), symbols, n), Distance(cfg, s, i, symbols, n);
      && us.Some? && (forall k :: 0 <= k < |us.value| ==> GenerateUnit(us.value[k]).Ok?)
      && RunUnits(us.value, st) ==
           Arch(Behind(us.value, st.pc), st.regs, AfterLoad(st.mem, I1Table(op).funct3, OfInt(Lower(offset))))
  {
    hide GenerateUnit, RunUnits, UnitU, UnitI, Bits64, Signed64, WriteGpr, Bits32, RegistersExist, EndsAt, Upper,
         Lower, Int32, LoadValue, AfterLoad, MACHINE, I1Table, Sum;
    assert (4 * n) % TWO32 == 4 * n;
    ZeroLoadUnits(op, Distance(cfg, s, i, symbols, n), Line(s, i), st);
    NotBySyntax(s, i);
  }

  lemma ZeroLoadUnits(op: I1Op, offset: int, line: nat, st: Arch<Dword, Ram>)
    requires op in {LB, LH, LW, LD}
    ensures
      var first, second := UnitU(U(AUIPC), 0, Upper(offset), line), UnitI(I1(op), 0, 0, Lower(offset), line);
      && GenerateUnit(first).Ok? && GenerateUnit(second).Ok?
      && RunUnits([first, second], st) ==
           Arch(MACHINE.next(MACHINE.next(st.pc)), st.regs,
                AfterLoad(st.mem, I1Table(op).funct3, OfInt(Lower(offset))))
  {
    ConstantRegisters();
    hide GenerateUnit, RunUnits, UnitU, UnitI, Bits64, Bits32, Upper, Lower, Int32, LoadValue, AfterLoad, MACHINE,
         I1Table, Sum, ExecuteOne, Encode, Encodable, EncodingOf, SignExtend32;
    var first, second := UnitU(U(AUIPC), 0, Upper(offset), line), UnitI(I1(op), 0, 0, Lower(offset), line);
    WholeDistance(offset);
    UpperRuns(AUIPC, 0, Upper(offset), line, st);
    OneUnit(first, st);
    var s1 := RunUnits([first], st);
    BaseUnitStandsFor(op, 0, 0, Lower(offset), line);
    var o := Operands(Bits32(0), Bits32(0), 0, 0, Bits32(Lower(offset)), 0, 0);
    UnitRuns(second, I1(op), o, s1);
    OneUnit(second, s1);
    TwoUnits(first, second, st);
    ExtendedNumber(Lower(offset));
    LoadFromZero(op, o, s1);
    ZeroPlus(Lower(offset));
  }

  lemma LoadFromZero(op: I1Op, o: Operands, st: Arch<Dword, Ram>)
    requires op in {LB, LH, LW, LD} && o.rd == 0 && o.rs1 == 0
    ensures EffectOf(I1(op), o, st) ==
      Arch(MACHINE.next(st.pc), st.regs, AfterLoad(st.mem, I1Table(op).funct3, Sum(Dword(0), Extended(o.imm))))
  {
    hide LoadValue, AfterLoad, I1Table, Extended, Alu.Execute;
  }

  lemma NotBySyntax(s: seq<Token>, i: nat)
    requires RegisterAndLabel(s, i)
    ensures !TwoRegistersAndNumber(s, i) && !RegisterAndBase(s, i)
  {
  }

  lemma BaseUnitStandsFor(op: I1Op, rd: nat, rs: nat, imm: int, line: nat)
    requires IsLoad(op) && rd < 32 && rs < 32 && -2048 <= imm <= 2047
    ensures
      StandsFor(UnitI(I1(op), rd, rs, imm, line), I1(op), Operands(Bits32(rd), Bits32(rs), 0, 0, Bits32(imm), 0, 0))
  {
    hide NamesRegister, ToString, Signed32, EncodingOf, RegName, Bits32, StandsFor, ImmInRange;
    RegisterOperand(rd);
    RegisterOperand(rs);
    AcceptedInRange(I1(op), imm);
    DescribedStandsFor(UnitI(I1(op), rd, rs, imm, line), Operands(Bits32(rd), Bits32(rs), 0, 0, Bits32(imm), 0, 0));
  }

  lemma WholeDistance(offset: int)
    ensures -2048 <= Lower(offset) <= 2047 && -0x8000_0000 <= Int32(4096 * Upper(offset)) < 0x8000_0000
  {
    hide Lower, Upper;
    SplitOffset(offset);
  }

  /** auipc and the load it goes with. */
  lemma LoadUnits(op: I1Op, rd: nat, offset: int, line: nat, pc: int, st: Arch<Dword, Ram>)
    requires op in {LB, LH, LW, LD} && 0 <= pc < TWO32 && st.pc == OfInt(pc) && rd < 32 && Bits32(rd) != 0
    ensures
      var first, second := UnitU(U(AUIPC), rd, Upper(offset), line), UnitI(I1(op), rd, rd, Lower(offset), line);
      var place, funct3 := OfInt(pc + LaValue(offset)), I1Table(op).funct3;
      && GenerateUnit(first).Ok? && GenerateUnit(second).Ok?
      && RunUnits([first, second], st) ==
           Arch(MACHINE.next(MACHINE.next(st.pc)),
                WriteGpr(st.regs, Bits32(rd), LoadValue(st.mem, funct3, place)), AfterLoad(st.mem, funct3, place))
  {
    hide GenerateUnit, RunUnits, UnitU, UnitI, Bits64, Bits32, Upper, Lower, Int32, LoadValue, AfterLoad, MACHINE,
         I1Table, Sum, ExecuteOne, Encode, Encodable, EncodingOf, SignExtend32;
    var first, second := UnitU(U(AUIPC), rd, Upper(offset), line), UnitI(I1(op), rd, rd, Lower(offset), line);
    WholeDistance(offset);
    UpperRuns(AUIPC, rd, Upper(offset), line, st);
    OneUnit(first, st);
    var s1 := RunUnits([first], st);
    BaseUnitStandsFor(op, rd, rd, Lower(offset), line);
    var o := Operands(Bits32(rd), Bits32(rd), 0, 0, Bits32(Lower(offset)), 0, 0);
    UnitRuns(second, I1(op), o, s1);
    OneUnit(second, s1);
    TwoUnits(first, second, st);
    SumOfInts(pc, Int32(4096 * Upper(offset)));
    ExtendedNumber(Lower(offset));
    SumOfInts(pc + Int32(4096 * Upper(offset)), Lower(offset));
    LoadAfterUpper(op, o, s1, OfInt(pc + Int32(4096 * Upper(offset))), st);
  }

  lemma LoadAfterUpper(op: I1Op, o: Operands, s1: Arch<Dword, Ram>, base: Dword, st: Arch<Dword, Ram>)
    requires op in {LB, LH, LW, LD} && o.rd == o.rs1 && o.rd != 0
    requires s1.regs == WriteGpr(st.regs, o.rd, base)
    ensures
      var place, funct3 := Sum(base, Extended(o.imm)), I1Table(op).funct3;
      EffectOf(I1(op), o, s1) ==
        Arch(MACHINE.next(s1.pc), WriteGpr(st.regs, o.rd, LoadValue(s1.mem, funct3, place)),
             AfterLoad(s1.mem, funct3, place))
  {
    hide LoadValue, AfterLoad, I1Table, Extended, Alu.Execute, MACHINE;
  }
}
