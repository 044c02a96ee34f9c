/** What every integer instruction does, by its mnemonic and operands. */
module InstructionEffects {
  import opened Words
  import Alu
  import opened InstructionFields
  import opened Instructions
  import opened CodeGenerator
  import opened VmBase
  import opened SingleCycle
  import opened Processor
  import opened ParserUnits
  import opened MnemonicMeaning
  import opened MnemonicEffects
  import opened PseudoMeaning
  import opened RegisterUse

  lemma Low20Small(b: bv32)
    requires b < 0x100000
    ensures Low20(b) == b
  {
  }

  /** The state after lui or auipc. */
  function UpperOf(op: UOp, o: Operands, s: Arch<Dword, Ram>): Arch<Dword, Ram> {
    var part := OfInt(Int32(4096 * U32(o.imm)));
    Arch(MACHINE.next(s.pc), WriteGpr(s.regs, o.rd, if op == LUI then part else Sum(s.pc, part)), s.mem)
  }

  /** lui and auipc. */
  lemma UpperMnemonic(op: UOp, o: Operands, s: Arch<Dword, Ram>)
    requires Encodable(UTable(op), o)
    ensures ExecuteOne(MACHINE, Encode(UTable(op), o), s) == UpperOf(op, o, s)
  {
    hide UTable, Opcode, Rd, Rs1, Rs2, Funct3, PackU, ExecuteOne, ImmGenerator, ImmU, SignExtend32, Sum, UpperValue,
         Shift12, Low20, Bits64, U32, W32, Signed32, Signed64, Int32, WriteGpr;
    var w := Encode(UTable(op), o);
    UopOpcode(op);
    UpperFormReadsBack(UTable(op), o);
    ImmediateRoundTrip(U(op), o);
    if op == LUI { LuiEffect(w, s); } else { AuipcEffect(w, s); }
    UpperIsShifted(w);
    Low20Small(o.imm);
    U32Range(o.imm);
    OfU32(o.imm);
    UpperPart(U32(o.imm));
    SignExtendKeepsValue(Shift12(o.imm));
    OfSigned(UpperValue(w));
  }

  /** The state after one integer instruction. */
  function EffectOf(m: Mnemonic, o: Operands, s: Arch<Dword, Ram>): Arch<Dword, Ram>
    requires IsInteger(m)
  {
    match m
    case R(op) => RegisterOf(op, o, s)
    case I1(op) => ImmediateOf(op, o, s)
    case I2(op) => ShiftOf(op, o, s)
    case S(op) => StoreOf(op, o, s)
    case B(op) => BranchOf(op, o, s)
    case U(op) => UpperOf(op, o, s)
    case J(_) => JumpOf(o, s)
  }

  /** The word of an integer instruction does that. */
  lemma EffectExactly(m: Mnemonic, o: Operands, s: Arch<Dword, Ram>)
    requires IsInteger(m) && Encodable(EncodingOf(m), o)
    ensures ExecuteOne(MACHINE, Encode(EncodingOf(m), o), s) == EffectOf(m, o, s)
  {
    hide ExecuteOne, Encode, Encodable, Alu.Execute, Sum, WriteGpr, SignExtend32, NamedBranch, Value, Extended, RTable,
         I1Table, I2Table, STable, BTable, UTable, JTable, Int32, Bits64, U32, RegisterOf, ImmediateOf, ShiftOf,
         StoreOf, BranchOf, JumpOf, UpperOf;
    match m
    case R(op) => MnemonicEffects.RegisterMnemonic(op, o, s);
    case I1(op) => MnemonicEffects.ImmediateMnemonic(op, o, s);
    case I2(op) => ShiftMnemonic(op, o, s);
    case S(op) => MnemonicEffects.StoreMnemonic(op, o, s);
    case B(op) => MnemonicEffects.BranchMnemonic(op, o, s);
    case U(op) => UpperMnemonic(op, o, s);
    case J(op) => JumpMnemonic(op, o, s);
  }
}
