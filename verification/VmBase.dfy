/** The immediate generator shared by both machines. */
module VmBase {
  import opened InstructionFields
  import opened Instructions
  import opened CodeGenerator

  /** Two's complement extension of a number of the given width. */
  function SignExtend(value: bv32, bits: bv32): bv32
    requires 1 <= bits <= 31
  {
    var mask := 1 << (bits - 1);
    (value ^ mask) - mask
  }

  /** The immediate field of a word, as a signed 32-bit number. There is no case for the word
      immediates (opcode 0x1B). */
  function ImmGenerator(inst: bv32): bv32 {
    var opcode := inst & 0x7F;
    if opcode == 0x13 || opcode == 0x03 || opcode == 0x67 || opcode == 0x0F || opcode == 0x07 then
      SignExtend((inst >> 20) & 0xFFF, 12)
    else if opcode == 0x23 || opcode == 0x27 then
      SignExtend(((inst >> 7) & 0x1F) | (((inst >> 25) & 0x7F) << 5), 12)
    else if opcode == 0x63 then
      SignExtend((((inst >> 8) & 0xF) | (((inst >> 25) & 0x3F) << 4) | (((inst >> 7) & 1) << 10)
                  | (((inst >> 31) & 1) << 11)) << 1, 13)
    else if opcode == 0x37 || opcode == 0x17 then
      (inst & 0xFFFF_F000) >> 12
    else if opcode == 0x6F then
      SignExtend((((inst >> 21) & 0x3FF) | (((inst >> 20) & 1) << 10) | (((inst >> 12) & 0xFF) << 11)
                  | (((inst >> 31) & 1) << 19)) << 1, 21)
    else 0
  }

  lemma ImmGeneratorI(w: bv32)
    requires Opcode(w) == 0x13 || Opcode(w) == 0x03 || Opcode(w) == 0x67 || Opcode(w) == 0x07
    ensures ImmGenerator(w) == ImmI(w)
  {
  }

  lemma ImmGeneratorS(w: bv32)
    requires Opcode(w) == 0x23 || Opcode(w) == 0x27
    ensures ImmGenerator(w) == ImmS(w)
  {
  }

  lemma ImmGeneratorB(w: bv32)
    requires Opcode(w) == 0x63
    ensures ImmGenerator(w) == ImmB(w)
  {
  }

  lemma ImmGeneratorU(w: bv32)
    requires Opcode(w) == 0x37 || Opcode(w) == 0x17
    ensures ImmGenerator(w) == ImmU(w)
  {
  }

  /** The jump field of a word, sign included, one place to the left. */
  function JumpField(w: bv32): bv32 {
    (((w >> 21) & 0x3FF) | (((w >> 20) & 1) << 10) | (((w >> 12) & 0xFF) << 11) | (((w >> 31) & 1) << 19)) << 1
  }

  lemma JumpFieldParts(w: bv32)
    ensures JumpField(w) & 0xFFFFF == (w & 0xFF000) | (((w >> 20) & 1) << 11) | (((w >> 21) & 0x3FF) << 1)
    ensures JumpField(w) & 0x100000 != 0 <==> w >= 0x8000_0000
    ensures JumpField(w) < 0x200000
  {
  }

  lemma SignClear(v: bv32)
    requires v < 0x200000 && v & 0x100000 == 0
    ensures SignExtend(v, 21) == v & 0xFFFFF
  {
  }

  lemma SignSet(v: bv32)
    requires v < 0x200000 && v & 0x100000 != 0
    ensures SignExtend(v, 21) == (v & 0xFFFFF) | 0xFFF0_0000
  {
  }

  lemma SignExtendParts(v: bv32)
    requires v < 0x200000
    ensures SignExtend(v, 21) == Extend(v & 0xFFFFF, v & 0x100000 != 0, 20)
  {
    hide SignExtend;
    if v & 0x100000 == 0 { SignClear(v); } else { SignSet(v); }
  }

  lemma ImmGeneratorIsJump(w: bv32)
    requires Opcode(w) == 0x6F
    ensures ImmGenerator(w) == SignExtend(JumpField(w), 21)
  {
    hide SignExtend;
  }

  lemma ImmGeneratorJ(w: bv32)
    requires Opcode(w) == 0x6F
    ensures ImmGenerator(w) == ImmJ(w)
  {
    hide ImmGenerator, SignExtend, JumpField, Extend;
    ImmGeneratorIsJump(w);
    JumpFieldParts(w);
    SignExtendParts(JumpField(w));
  }

  lemma ImmGeneratorOther(w: bv32)
    requires Opcode(w) !in {0x13, 0x03, 0x67, 0x0F, 0x07, 0x23, 0x27, 0x63, 0x37, 0x17, 0x6F}
    ensures ImmGenerator(w) == 0
  {
  }

  // ----- immediate round trips -----

  lemma ImmediateOpcodes(m: Mnemonic)
    requires m.I1? || m.I2? || m.S? || m.B? || m.U? || m.J? || m.FdI? || m.FdS?
    ensures
      var op := EncodingOf(m).opcode;
      && (m.I1? ==> op == 0x13 || op == 0x1B || op == 0x03 || op == 0x67)
      && (m.I2? ==> op == 0x13 || op == 0x1B)
      && (m.S? ==> op == 0x23) && (m.FdS? ==> op == 0x27) && (m.B? ==> op == 0x63)
      && (m.U? ==> op == 0x37 || op == 0x17) && (m.J? ==> op == 0x6F) && (m.FdI? ==> op == 0x07)
  {
    match m
    case I1(op) => I1Inverts(op);
    case I2(op) => I2Inverts(op);
    case S(op) => SInverts(op);
    case B(op) => BInverts(op);
    case _ =>
    hide I1Table, I2Table, STable, BTable, ImmediateMnemonic, WordImmediateMnemonic, LoadMnemonic, StoreMnemonic,
         BranchMnemonic;
  }

  lemma ShiftAmountBits(w: bv32)
    ensures ImmI(w) & 0x3F == Shamt(w)
  {
  }

  lemma EncodedImm(e: Encoding, o: Operands)
    requires WellSized(e) && Encodable(e, o)
    ensures Opcode(Encode(e, o)) == e.opcode && DecodeImm(e, Encode(e, o)) == o.imm
  {
    hide Encode, Encodable, WellSized, Opcode, DecodeImm;
    FormReadsBack(e, o);
  }

  /** The word immediates are lost: the generator answers 0 for them. Every other immediate comes
      back, and of a shift the amount in the low six bits. */
  lemma ImmediateRoundTrip(m: Mnemonic, o: Operands)
    requires m.I1? || m.I2? || m.S? || m.B? || m.U? || m.J? || m.FdI? || m.FdS?
    requires Encodable(EncodingOf(m), o)
    ensures
      var e := EncodingOf(m);
      var imm := ImmGenerator(Encode(e, o));
      && (e.opcode == 0x1B ==> imm == 0)
      && (e.opcode != 0x1B ==> if m.I2? then imm & 0x3F == o.imm else imm == o.imm)
  {
    hide ImmGenerator, Encode, Encodable, WellSized, Opcode, ImmI, ImmS, ImmB, ImmU, ImmJ, Shamt, RTable, I1Table,
         I2Table, I3Table, STable, BTable, UTable, JTable, CsrRTable, CsrITable, FdRTable, FdR1Table, FdR2Table,
         FdR3Table, FdR4Table, FdITable, FdSTable;
    var e := EncodingOf(m);
    var w := Encode(e, o);
    ImmediateOpcodes(m);
    TablesAreWellSized(m);
    EncodedImm(e, o);
    if e.opcode == 0x1B { ImmGeneratorOther(w); }
    else if m.I2? { ImmGeneratorI(w); ShiftAmountBits(w); }
    else if m.I1? || m.FdI? { ImmGeneratorI(w); }
    else if m.S? || m.FdS? { ImmGeneratorS(w); }
    else if m.B? { ImmGeneratorB(w); }
    else if m.U? { ImmGeneratorU(w); }
    else { ImmGeneratorJ(w); }
  }
}
