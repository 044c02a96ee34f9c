/** What every integer mnemonic does when its word is executed by the single-cycle machine. */
module MnemonicEffects {
  import opened Words
  import Alu
  import opened InstructionFields
  import opened Instructions
  import opened CodeGenerator
  import opened VmBase
  import opened SingleCycle
  import opened Processor
  import opened MnemonicMeaning

  function Value(op: Alu.AluOp, a: Dword, b: Dword): Dword { Dword(Alu.Execute(op, a.bits, b.bits).value) }

  function Extended(imm: bv32): Dword { Dword(SignExtend32(imm)) }

  // ----- what a word does, by its opcode -----

  lemma RegisterWordEffect(w: bv32, s: Arch<Dword, Ram>)
    requires Opcode(w) == 0x33
    ensures ExecuteOne(MACHINE, w, s) ==
      Arch(MACHINE.next(s.pc),
           WriteGpr(s.regs, Rd(w), AluValue(w, MACHINE.ReadGpr(s.regs, Rs1(w)), MACHINE.ReadGpr(s.regs, Rs2(w)))),
           s.mem)
  {
    hide Opcode, Rd, Rs1, Rs2, Funct3, UpperValue, ImmValue, AluValue, LoadValue, StoreValue, AfterLoad, Sum;
  }

  lemma ImmediateWordEffect(w: bv32, s: Arch<Dword, Ram>)
    requires Opcode(w) == 0x13
    ensures ExecuteOne(MACHINE, w, s) ==
      Arch(MACHINE.next(s.pc), WriteGpr(s.regs, Rd(w), AluValue(w, MACHINE.ReadGpr(s.regs, Rs1(w)), ImmValue(w))),
           s.mem)
  {
    hide Opcode, Rd, Rs1, Rs2, Funct3, UpperValue, ImmValue, AluValue, LoadValue, StoreValue, AfterLoad, Sum;
  }

  lemma LoadWordEffect(w: bv32, s: Arch<Dword, Ram>)
    requires Opcode(w) == 0x03
    ensures
      var a := AluValue(w, MACHINE.ReadGpr(s.regs, Rs1(w)), ImmValue(w));
      ExecuteOne(MACHINE, w, s) ==
        Arch(MACHINE.next(s.pc), WriteGpr(s.regs, Rd(w), LoadValue(s.mem, Funct3(w), a)),
             AfterLoad(s.mem, Funct3(w), a))
  {
    hide Opcode, Rd, Rs1, Rs2, Funct3, UpperValue, ImmValue, AluValue, LoadValue, StoreValue, AfterLoad, Sum;
  }

  lemma StoreWordEffect(w: bv32, s: Arch<Dword, Ram>)
    requires Opcode(w) == 0x23
    ensures
      var a := AluValue(w, MACHINE.ReadGpr(s.regs, Rs1(w)), ImmValue(w));
      ExecuteOne(MACHINE, w, s) ==
        Arch(MACHINE.next(s.pc), s.regs, StoreValue(s.mem, Funct3(w), a, MACHINE.ReadGpr(s.regs, Rs2(w))))
  {
    hide Opcode, Rd, Rs1, Rs2, Funct3, UpperValue, ImmValue, AluValue, LoadValue, StoreValue, AfterLoad, Sum;
  }

  lemma IndirectJumpEffect(w: bv32, s: Arch<Dword, Ram>)
    requires Opcode(w) == 0x67
    ensures ExecuteOne(MACHINE, w, s) ==
      Arch(AluValue(w, MACHINE.ReadGpr(s.regs, Rs1(w)), ImmValue(w)), WriteGpr(s.regs, Rd(w), MACHINE.next(s.pc)),
           s.mem)
  {
    hide Opcode, Rd, Rs1, Rs2, Funct3, UpperValue, ImmValue, AluValue, LoadValue, StoreValue, AfterLoad, Sum;
  }

  lemma JumpWordEffect(w: bv32, s: Arch<Dword, Ram>)
    requires Opcode(w) == 0x6F
    ensures ExecuteOne(MACHINE, w, s) ==
      Arch(Sum(s.pc, ImmValue(w)), WriteGpr(s.regs, Rd(w), MACHINE.next(s.pc)), s.mem)
  {
    hide Opcode, Rd, Rs1, Rs2, Funct3, UpperValue, ImmValue, AluValue, LoadValue, StoreValue, AfterLoad, Sum;
  }

  lemma BranchWordEffect(w: bv32, s: Arch<Dword, Ram>)
    requires Opcode(w) == 0x63
    ensures
      var flag := AluValue(w, MACHINE.ReadGpr(s.regs, Rs1(w)), MACHINE.ReadGpr(s.regs, Rs2(w))).bits;
      ExecuteOne(MACHINE, w, s) ==
        Arch(if BranchFlag(Funct3(w), flag) then Sum(s.pc, ImmValue(w)) else MACHINE.next(s.pc), s.regs, s.mem)
  {
    hide Opcode, Rd, Rs1, Rs2, Funct3, UpperValue, ImmValue, AluValue, LoadValue, StoreValue, AfterLoad, Sum,
         BranchFlag;
  }

  /** The word operations have no control signals: nothing is written. */
  lemma SilentWordEffect(w: bv32, s: Arch<Dword, Ram>)
    requires Opcode(w) == 0x3B || Opcode(w) == 0x1B
    ensures ExecuteOne(MACHINE, w, s) == Arch(MACHINE.next(s.pc), s.regs, s.mem)
  {
    hide Opcode, Rd, Rs1, Rs2, Funct3, UpperValue, ImmValue, AluValue, LoadValue, StoreValue, AfterLoad, Sum;
  }

  // ----- register mnemonics -----

  predicate IsWordOp(op: ROp) { op in {ADDW, SUBW, SLLW, SRLW, SRAW, MULW, DIVW, DIVUW, REMW, REMUW} }

  lemma RegisterOpcode(op: ROp)
    ensures RTable(op).opcode == if IsWordOp(op) then 0x3B else 0x33
  {
  }

  /** The state after a register mnemonic; the word operations have no control signals. */
  function RegisterOf(op: ROp, o: Operands, s: Arch<Dword, Ram>): Arch<Dword, Ram> {
    var value := Value(NamedOp(op), MACHINE.ReadGpr(s.regs, o.rs1), MACHINE.ReadGpr(s.regs, o.rs2));
    Arch(MACHINE.next(s.pc), if IsWordOp(op) then s.regs else WriteGpr(s.regs, o.rd, value), s.mem)
  }

  /** The named operation of the two registers goes to the destination, but of the word operations
      nothing. */
  lemma RegisterMnemonic(op: ROp, o: Operands, s: Arch<Dword, Ram>)
    requires Encodable(RTable(op), o)
    ensures ExecuteOne(MACHINE, Encode(RTable(op), o), s) == RegisterOf(op, o, s)
  {
    hide RTable, NamedOp, AluSignal, Opcode, Rd, Rs1, Rs2, Funct3, Funct7, PackR, Alu.Execute, ExecuteOne, IsWordOp,
         Sum;
    var w := Encode(RTable(op), o);
    RegisterWordSelects(op, o);
    RegisterFormReadsBack(RTable(op), o);
    RegisterOpcode(op);
    if IsWordOp(op) { SilentWordEffect(w, s); } else { RegisterWordEffect(w, s); }
  }

  /** In every state the destination reads the named value afterwards. */
  ghost predicate RegisterDelivers(op: ROp) {
    forall o: Operands, s: Arch<Dword, Ram> {:trigger ExecuteOne(MACHINE, Encode(RTable(op), o), s)} ::
      Encodable(RTable(op), o) && o.rd != 0 ==>
        MACHINE.ReadGpr(ExecuteOne(MACHINE, Encode(RTable(op), o), s).regs, o.rd) ==
          Value(NamedOp(op), MACHINE.ReadGpr(s.regs, o.rs1), MACHINE.ReadGpr(s.regs, o.rs2))
  }

  const INTO_X1 := Operands(1, 0, 0, 0, 0, 0, 0)
  const ONE_IN_X1: Arch<Dword, Ram> := Arch(Dword(0), map[X(1) := Dword(1)], Ram(map[], 0, false))

  lemma IntoX1(op: ROp)
    ensures Encodable(RTable(op), INTO_X1)
  {
    hide RTable;
  }

  lemma SumsOfZero(op: Alu.AluOp)
    requires op == Alu.Addw || op == Alu.Subw || op == Alu.Mulw
    ensures Value(op, Dword(0), Dword(0)) == Dword(0)
  {
    ZeroWordOperands();
    hide U32, Signed32, Bits32, Low32, SignExtend32;
  }

  lemma DivisionsOfZero(op: Alu.AluOp)
    requires op == Alu.Divw || op == Alu.Divuw || op == Alu.Remw || op == Alu.Remuw
    ensures Value(op, Dword(0), Dword(0)) == Dword(0)
  {
    ZeroWordOperands();
    hide U32, Signed32, Signed64, U64, Bits32, Bits64, Low32, SignExtend32;
  }

  lemma ShiftsOfZero(op: Alu.AluOp)
    requires op == Alu.Sllw || op == Alu.Srlw || op == Alu.Sraw
    ensures Value(op, Dword(0), Dword(0)) == Dword(0)
  {
    ZeroWordOperands();
    hide Low32, SignExtend32, Alu.ShiftLeft32, Alu.ShiftRight32, Alu.ArithmeticShiftRight32;
  }

  lemma WordOpsOfZero(op: ROp)
    requires IsWordOp(op)
    ensures Value(NamedOp(op), Dword(0), Dword(0)) == Dword(0)
  {
    hide Value;
    match op
    case ADDW => SumsOfZero(Alu.Addw);
    case SUBW => SumsOfZero(Alu.Subw);
    case MULW => SumsOfZero(Alu.Mulw);
    case SLLW => ShiftsOfZero(Alu.Sllw);
    case SRLW => ShiftsOfZero(Alu.Srlw);
    case SRAW => ShiftsOfZero(Alu.Sraw);
    case DIVW => DivisionsOfZero(Alu.Divw);
    case DIVUW => DivisionsOfZero(Alu.Divuw);
    case REMW => DivisionsOfZero(Alu.Remw);
    case REMUW => DivisionsOfZero(Alu.Remuw);
  }

  lemma ZeroWordOperands()
    ensures Signed64(0) == 0 && U64(0) == 0 && Low32(0) == 0 && U32(0) == 0 && Signed32(0) == 0 && SignExtend32(0) == 0
    ensures Bits32(0) == 0
    ensures Alu.ShiftLeft32(0, 0) == 0 && Alu.ShiftRight32(0, 0) == 0 && Alu.ArithmeticShiftRight32(0, 0) == 0
  {
    OfU32(0);
  }

  /** That is so for exactly the mnemonics that are not word operations. */
  lemma RegisterDeliversExactly(op: ROp)
    ensures RegisterDelivers(op) <==> !IsWordOp(op)
  {
    hide Alu.Execute, Encode, RTable, NamedOp, ExecuteOne, IsWordOp, Encodable;
    if IsWordOp(op) {
      IntoX1(op);
      RegisterMnemonic(op, INTO_X1, ONE_IN_X1);
      WordOpsOfZero(op);
      assert MACHINE.ReadGpr(ONE_IN_X1.regs, 1) == Dword(1) && MACHINE.ReadGpr(ONE_IN_X1.regs, 0) == Dword(0);
      assert MACHINE.ReadGpr(ExecuteOne(MACHINE, Encode(RTable(op), INTO_X1), ONE_IN_X1).regs, 1) == Dword(1);
    } else {
      forall o: Operands, s: Arch<Dword, Ram> | Encodable(RTable(op), o) && o.rd != 0
        ensures
          MACHINE.ReadGpr(ExecuteOne(MACHINE, Encode(RTable(op), o), s).regs, o.rd) ==
            Value(NamedOp(op), MACHINE.ReadGpr(s.regs, o.rs1), MACHINE.ReadGpr(s.regs, o.rs2))
      {
        RegisterMnemonic(op, o, s);
      }
    }
  }

  // ----- immediate mnemonics -----

  predicate IsLoad(op: I1Op) { op in {LB, LH, LW, LD, LBU, LHU, LWU} }

  lemma ImmediateOpcode(op: I1Op)
    ensures I1Table(op).opcode ==
      if IsLoad(op) then 0x03 else if op == JALR then 0x67 else if op == ADDIW then 0x1B else 0x13
    ensures IsLoad(op) || op == JALR ==> NamedImmediateOp(op) == Alu.Add
  {
  }

  lemma ImmediateFields(op: I1Op, o: Operands)
    requires Encodable(I1Table(op), o)
    ensures
      var w := Encode(I1Table(op), o);
      && Opcode(w) == I1Table(op).opcode && Rd(w) == o.rd && Rs1(w) == o.rs1 && Funct3(w) == I1Table(op).funct3
      && AluSignal(w) == NamedImmediateOp(op)
      && (op != ADDIW ==> ImmValue(w) == Extended(o.imm))
  {
    hide I1Table, NamedImmediateOp, AluSignal, Opcode, Rd, Rs1, Rs2, Funct3, Funct7, PackI, ImmGenerator, ImmI,
         SignExtend32, IsLoad;
    ImmediateWordSelects(op, o);
    ImmediateFormReadsBack(I1Table(op), o);
    ImmediateOpcode(op);
    ImmediateRoundTrip(I1(op), o);
  }

  /** The state after an operation with an immediate, a load or jalr. */
  function ImmediateOf(op: I1Op, o: Operands, s: Arch<Dword, Ram>): Arch<Dword, Ram> {
    var value := Value(NamedImmediateOp(op), MACHINE.ReadGpr(s.regs, o.rs1), Extended(o.imm));
    var next, funct3 := MACHINE.next(s.pc), I1Table(op).funct3;
    if op == ADDIW then Arch(next, s.regs, s.mem)
    else if op == JALR then Arch(value, WriteGpr(s.regs, o.rd, next), s.mem)
    else if IsLoad(op) then
      Arch(next, WriteGpr(s.regs, o.rd, LoadValue(s.mem, funct3, value)), AfterLoad(s.mem, funct3, value))
    else Arch(next, WriteGpr(s.regs, o.rd, value), s.mem)
  }

  /** An operation with an immediate, a load and an indirect jump do what their mnemonics say with the
      sign-extended immediate; addiw does nothing. */
  lemma ImmediateMnemonic(op: I1Op, o: Operands, s: Arch<Dword, Ram>)
    requires Encodable(I1Table(op), o)
    ensures ExecuteOne(MACHINE, Encode(I1Table(op), o), s) == ImmediateOf(op, o, s)
  {
    NotALoad();
    hide I1Table, NamedImmediateOp, AluSignal, Opcode, Rd, Rs1, Rs2, Funct3, Funct7, Encode, Encodable, Alu.Execute,
         ExecuteOne, IsLoad, ImmValue, Extended, LoadValue, AfterLoad, Sum, WriteGpr;
    var w := Encode(I1Table(op), o);
    ImmediateFields(op, o);
    ImmediateOpcode(op);
    if op == ADDIW { SilentWordEffect(w, s); }
    else if op == JALR { IndirectJumpEffect(w, s); }
    else if IsLoad(op) { LoadWordEffect(w, s); }
    else { ImmediateWordEffect(w, s); }
  }

  lemma NotALoad()
    ensures !IsLoad(JALR) && !IsLoad(ADDIW)
  {
  }

  /** In every state the destination reads the named value afterwards. */
  ghost predicate ImmediateDelivers(op: I1Op) {
    forall o: Operands, s: Arch<Dword, Ram> {:trigger ExecuteOne(MACHINE, Encode(I1Table(op), o), s)} ::
      Encodable(I1Table(op), o) && o.rd != 0 ==>
        MACHINE.ReadGpr(ExecuteOne(MACHINE, Encode(I1Table(op), o), s).regs, o.rd) ==
          Value(NamedImmediateOp(op), MACHINE.ReadGpr(s.regs, o.rs1), Extended(o.imm))
  }

  lemma AddiwOfZero()
    ensures Value(NamedImmediateOp(ADDIW), Dword(0), Extended(0)) == Dword(0)
  {
    SumsOfZero(Alu.Addw);
    ZeroWordOperands();
    hide Value, SignExtend32;
  }

  lemma AddiwIntoX1()
    ensures Encodable(I1Table(ADDIW), INTO_X1)
  {
  }

  /** Of the operations with an immediate all deliver but addiw. */
  lemma ImmediateDeliversExactly(op: I1Op)
    requires !IsLoad(op) && op != JALR
    ensures ImmediateDelivers(op) <==> op != ADDIW
  {
    hide Alu.Execute, Encode, I1Table, NamedImmediateOp, ExecuteOne, Encodable, Extended;
    if op == ADDIW {
      AddiwOfZero();
      AddiwIntoX1();
      ImmediateMnemonic(op, INTO_X1, ONE_IN_X1);
      assert MACHINE.ReadGpr(ONE_IN_X1.regs, 1) == Dword(1) && MACHINE.ReadGpr(ONE_IN_X1.regs, 0) == Dword(0);
      assert MACHINE.ReadGpr(ExecuteOne(MACHINE, Encode(I1Table(op), INTO_X1), ONE_IN_X1).regs, 1) == Dword(1);
    } else {
      forall o: Operands, s: Arch<Dword, Ram> | Encodable(I1Table(op), o) && o.rd != 0
        ensures
          MACHINE.ReadGpr(ExecuteOne(MACHINE, Encode(I1Table(op), o), s).regs, o.rd) ==
            Value(NamedImmediateOp(op), MACHINE.ReadGpr(s.regs, o.rs1), Extended(o.imm))
      {
        ImmediateMnemonic(op, o, s);
      }
    }
  }

  // ----- shifts by an immediate -----

  lemma ShiftOpcode(op: I2Op)
    ensures I2Table(op).opcode == if op in {SLLIW, SRLIW, SRAIW} then 0x1B else 0x13
  {
  }

  lemma ShiftAmount(imm: bv32, shamt: bv32)
    requires imm & 0x3F == shamt
    ensures SignExtend32(imm) & 63 == Widen(shamt) & 63
  {
  }

  lemma LeftLowBits(a: bv64, b: bv64)
    ensures Alu.ShiftLeft64(a, b) == Alu.ShiftLeft64(a, b & 63)
  {
  }

  lemma RightLowBits(a: bv64, b: bv64)
    ensures Alu.ShiftRight64(a, b) == Alu.ShiftRight64(a, b & 63)
  {
  }

  lemma ArithmeticParts(a: bv64, b: bv64)
    ensures Alu.ArithmeticShiftRight64(a, b) ==
      if a < 0x8000_0000_0000_0000 then Alu.ShiftRight64(a, b) else !Alu.ShiftRight64(!a, b)
  {
  }

  lemma ArithmeticLowBits(a: bv64, b: bv64)
    ensures Alu.ArithmeticShiftRight64(a, b) == Alu.ArithmeticShiftRight64(a, b & 63)
  {
    hide Alu.ArithmeticShiftRight64, Alu.ShiftRight64;
    ArithmeticParts(a, b);
    ArithmeticParts(a, b & 63);
    RightLowBits(a, b);
    RightLowBits(!a, b);
  }

  lemma OnlyLowBits(op: Alu.AluOp, a: Dword, b: Dword, c: Dword)
    requires op == Alu.Sll || op == Alu.Srl || op == Alu.Sra
    requires b.bits & 63 == c.bits & 63
    ensures Value(op, a, b) == Value(op, a, c)
  {
    hide Alu.ShiftLeft64, Alu.ShiftRight64, Alu.ArithmeticShiftRight64;
    if op == Alu.Sll {
      LeftLowBits(a.bits, b.bits);
      LeftLowBits(a.bits, c.bits);
    } else if op == Alu.Srl {
      RightLowBits(a.bits, b.bits);
      RightLowBits(a.bits, c.bits);
    } else {
      ArithmeticLowBits(a.bits, b.bits);
      ArithmeticLowBits(a.bits, c.bits);
    }
  }

  lemma ShiftFields(op: I2Op, o: Operands)
    requires Encodable(I2Table(op), o)
    ensures
      var w := Encode(I2Table(op), o);
      && Opcode(w) == I2Table(op).opcode && Rd(w) == o.rd && Rs1(w) == o.rs1
      && (op in {SLLI, SRLI, SRAI} ==> ImmValue(w).bits & 63 == Widen(o.imm) & 63)
  {
    hide I2Table, Opcode, Rd, Rs1, Rs2, Funct3, Funct7, PackShift, Shamt, ImmGenerator, SignExtend32, Widen;
    var w := Encode(I2Table(op), o);
    ShiftFormReadsBack(I2Table(op), o);
    ShiftOpcode(op);
    ImmediateRoundTrip(I2(op), o);
    if op in {SLLI, SRLI, SRAI} { ShiftAmount(ImmGenerator(w), o.imm); }
  }

  /** The state after a shift by an immediate. */
  function ShiftOf(op: I2Op, o: Operands, s: Arch<Dword, Ram>): Arch<Dword, Ram> {
    var value := Value(NamedShiftOp(op), MACHINE.ReadGpr(s.regs, o.rs1), Dword(Widen(o.imm)));
    if op in {SLLIW, SRLIW, SRAIW} then Arch(MACHINE.next(s.pc), s.regs, s.mem)
    else
      Arch(MACHINE.next(s.pc), WriteGpr(s.regs, o.rd, if op == SLLI || o.imm < 32 then value else Dword(0)), s.mem)
  }

  /** A shift shifts by its amount, but to the right only below 32: above, the result is zero. The word
      shifts do nothing. */
  lemma ShiftMnemonic(op: I2Op, o: Operands, s: Arch<Dword, Ram>)
    requires Encodable(I2Table(op), o)
    ensures ExecuteOne(MACHINE, Encode(I2Table(op), o), s) == ShiftOf(op, o, s)
  {
    hide I2Table, Opcode, Rd, Rs1, Rs2, Encode, Encodable, Alu.Execute, ExecuteOne, ImmValue, Widen, Sum, AluSignal,
         NamedShiftOp, WriteGpr;
    var w := Encode(I2Table(op), o);
    ShiftFields(op, o);
    ShiftOpcode(op);
    ShiftWordSelects(op, o);
    if op in {SLLIW, SRLIW, SRAIW} {
      SilentWordEffect(w, s);
    } else {
      ImmediateWordEffect(w, s);
      ShiftNames(op);
      OnlyLowBits(NamedShiftOp(op), MACHINE.ReadGpr(s.regs, o.rs1), ImmValue(w), Dword(Widen(o.imm)));
      if op != SLLI && o.imm >= 32 {
        LongShiftSelects(op, o);
        NoOperation(MACHINE.ReadGpr(s.regs, o.rs1), ImmValue(w));
      }
    }
  }

  lemma ShiftNames(op: I2Op)
    requires op in {SLLI, SRLI, SRAI}
    ensures NamedShiftOp(op) == Alu.Sll || NamedShiftOp(op) == Alu.Srl || NamedShiftOp(op) == Alu.Sra
  {
  }

  lemma NoOperation(a: Dword, b: Dword)
    ensures Value(Alu.NoOp, a, b) == Dword(0)
  {
  }

  lemma LongShiftSelects(op: I2Op, o: Operands)
    requires Encodable(I2Table(op), o) && op in {SRLI, SRAI} && o.imm >= 32
    ensures AluSignal(Encode(I2Table(op), o)) == Alu.NoOp
  {
    hide I2Table, Select, Opcode, Rd, Rs1, Rs2, Funct3, Funct7, PackShift, Shamt;
    var w := Encode(I2Table(op), o);
    ShiftFormReadsBack(I2Table(op), o);
    ShiftTableSelects(op, Funct7(w));
    ShiftBit(w);
  }

  // ----- stores, jumps and upper immediates -----

  lemma OtherOpcodes(s: SOp, j: JOp, u: UOp)
    ensures STable(s).opcode == 0x23 && JTable(j).opcode == 0x6F
    ensures UTable(u).opcode == if u == LUI then 0x37 else 0x17
  {
  }

  /** The state after a store. */
  function StoreOf(op: SOp, o: Operands, s: Arch<Dword, Ram>): Arch<Dword, Ram> {
    var address := Sum(MACHINE.ReadGpr(s.regs, o.rs1), Extended(o.imm));
    Arch(MACHINE.next(s.pc), s.regs, StoreValue(s.mem, STable(op).funct3, address, MACHINE.ReadGpr(s.regs, o.rs2)))
  }

  /** A store writes the second register at the first one plus the immediate. */
  lemma StoreMnemonic(op: SOp, o: Operands, s: Arch<Dword, Ram>)
    requires Encodable(STable(op), o)
    ensures ExecuteOne(MACHINE, Encode(STable(op), o), s) == StoreOf(op, o, s)
  {
    hide STable, JTable, UTable, Opcode, Rd, Rs1, Rs2, Funct3, Funct7, PackS, Alu.Execute, ExecuteOne, ImmGenerator,
         ImmS, SignExtend32, StoreValue;
    var w := Encode(STable(op), o);
    OtherOpcodes(op, JAL, LUI);
    StoreFormReadsBack(STable(op), o);
    ImmediateRoundTrip(S(op), o);
    StoreWordEffect(w, s);
  }

  /** The state after a branch. */
  function BranchOf(op: BOp, o: Operands, s: Arch<Dword, Ram>): Arch<Dword, Ram> {
    var a, b := MACHINE.ReadGpr(s.regs, o.rs1), MACHINE.ReadGpr(s.regs, o.rs2);
    Arch(if NamedBranch(op, a.bits, b.bits) then Sum(s.pc, Extended(o.imm)) else MACHINE.next(s.pc), s.regs, s.mem)
  }

  /** A branch goes the distance when the named comparison of the two registers holds. */
  lemma BranchMnemonic(op: BOp, o: Operands, s: Arch<Dword, Ram>)
    requires Encodable(BTable(op), o)
    ensures ExecuteOne(MACHINE, Encode(BTable(op), o), s) == BranchOf(op, o, s)
  {
    hide BTable, Opcode, Rd, Rs1, Rs2, Funct3, Funct7, PackB, ExecuteOne, ImmGenerator, ImmB, SignExtend32, Sum,
         BranchFlag, NamedBranch, Alu.Execute, AluSignal, BranchTaken, BranchOp;
    var w := Encode(BTable(op), o);
    BranchFormReadsBack(BTable(op), o);
    ImmediateRoundTrip(B(op), o);
    BranchTableDecides(op, 0, 0);
    BranchWordDecides(op, o, MACHINE.ReadGpr(s.regs, o.rs1).bits, MACHINE.ReadGpr(s.regs, o.rs2).bits);
    BranchWordEffect(w, s);
  }

  /** The state after jal. */
  function JumpOf(o: Operands, s: Arch<Dword, Ram>): Arch<Dword, Ram> {
    Arch(Sum(s.pc, Extended(o.imm)), WriteGpr(s.regs, o.rd, MACHINE.next(s.pc)), s.mem)
  }

  /** jal saves the next address and goes the distance. */
  lemma JumpMnemonic(op: JOp, o: Operands, s: Arch<Dword, Ram>)
    requires Encodable(JTable(op), o)
    ensures ExecuteOne(MACHINE, Encode(JTable(op), o), s) == JumpOf(o, s)
  {
    hide STable, JTable, UTable, Opcode, Rd, Rs1, Rs2, Funct3, Funct7, PackJ, ExecuteOne, ImmGenerator, ImmJ,
         SignExtend32, Sum;
    var w := Encode(JTable(op), o);
    OtherOpcodes(SB, op, LUI);
    JumpFormReadsBack(JTable(op), o);
    ImmediateRoundTrip(J(op), o);
    JumpWordEffect(w, s);
  }
}
