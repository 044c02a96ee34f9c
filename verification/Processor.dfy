/** The units of the simulated processor, and the proof that they are lawful. */
module Processor {
  import opened Words
  import opened Alu
  import opened FlatMemory
  import opened BranchPredictor
  import opened InstructionFields
  import opened VmBase
  import opened SingleCycle

  // ----- the arithmetic operation of a word -----

  function RegisterOp(funct3: bv32, funct7: bv32): AluOp {
    if funct7 == 0x00 then
      (if funct3 == 0 then Add else if funct3 == 1 then Sll else if funct3 == 2 then Slt else if funct3 == 3 then Sltu
       else if funct3 == 4 then Xor else if funct3 == 5 then Srl else if funct3 == 6 then Or else And)
    else if funct7 == 0x01 then
      (if funct3 == 0 then Mul else if funct3 == 1 then Mulh else if funct3 == 2 then Mulhsu
       else if funct3 == 3 then Mulhu
       else if funct3 == 4 then Div else if funct3 == 5 then Divu else if funct3 == 6 then Rem else Remu)
    else if funct7 == 0x20 && funct3 == 0 then Sub
    else if funct7 == 0x20 && funct3 == 5 then Sra
    else NoOp
  }

  function ImmediateOp(funct3: bv32, funct7: bv32): AluOp {
    if funct3 == 0 then Add else if funct3 == 1 then Sll else if funct3 == 2 then Slt else if funct3 == 3 then Sltu
    else if funct3 == 4 then Xor
    else if funct3 == 5 then (if funct7 == 0x00 then Srl else if funct7 == 0x20 then Sra else NoOp)
    else if funct3 == 6 then Or
    else And
  }

  function BranchOp(funct3: bv32): AluOp {
    if funct3 == 0 || funct3 == 1 then Sub
    else if funct3 == 4 || funct3 == 5 then Slt
    else if funct3 == 6 || funct3 == 7 then Sltu
    else NoOp
  }

  function WordImmediateOp(funct3: bv32, funct7: bv32): AluOp {
    if funct3 == 0 then Addw
    else if funct3 == 1 then Sllw
    else if funct3 == 5 then (if funct7 == 0x00 then Srlw else if funct7 == 0x20 then Sraw else NoOp)
    else NoOp
  }

  function WordOp(funct3: bv32, funct7: bv32): AluOp {
    if funct3 == 1 then Sllw
    else if funct7 == 0x00 then (if funct3 == 0 then Addw else if funct3 == 5 then Srlw else NoOp)
    else if funct7 == 0x20 then (if funct3 == 0 then Subw else if funct3 == 5 then Sraw else NoOp)
    else if funct7 == 0x01 then
      (if funct3 == 0 then Mulw else if funct3 == 4 then Divw else if funct3 == 5 then Divuw
       else if funct3 == 6 then Remw
       else if funct3 == 7 then Remuw else NoOp)
    else NoOp
  }

  /** The operation the control unit selects for an integer word. */
  function Select(opcode: bv32, funct3: bv32, funct7: bv32): AluOp {
    if opcode == 0x33 then RegisterOp(funct3, funct7)
    else if opcode == 0x13 then ImmediateOp(funct3, funct7)
    else if opcode == 0x63 then BranchOp(funct3)
    else if opcode == 0x03 || opcode == 0x23 || opcode == 0x67 || opcode == 0x6F then Add
    else if opcode == 0x37 || opcode == 0x17 then Add
    else if opcode == 0x1B then WordImmediateOp(funct3, funct7)
    else if opcode == 0x3B then WordOp(funct3, funct7)
    else NoOp
  }

  function AluSignal(inst: bv32): AluOp { Select(Opcode(inst), Funct3(inst), Funct7(inst)) }

  // ----- branches -----

  /** The comparator of the pipeline's decode stage. */
  predicate BranchTaken(funct3: bv32, a: bv64, b: bv64) {
    if funct3 == 0 then a == b
    else if funct3 == 1 then a != b
    else if funct3 == 4 then Signed64(a) < Signed64(b)
    else if funct3 == 5 then Signed64(a) >= Signed64(b)
    else if funct3 == 6 then U64(a) < U64(b)
    else if funct3 == 7 then U64(a) >= U64(b)
    else false
  }

  /** The branch flag the single-cycle machine reads off the arithmetic result. */
  predicate BranchFlag(funct3: bv32, result: bv64) {
    if funct3 == 1 then result != 0
    else if funct3 == 4 || funct3 == 6 then result == 1
    else if funct3 == 0 || funct3 == 5 || funct3 == 7 then result == 0
    else false
  }

  lemma DifferenceIsZero(a: bv64, b: bv64)
    ensures Execute(Sub, a, b).value == 0 <==> a == b
  {
    hide U64, Signed64, Bits64;
    var d := Signed64(a) - Signed64(b);
    SignedRange64(a);
    SignedRange64(b);
    Bits64Value(d);
    ZeroValue(Bits64(d));
    if d % TWO64 == 0 { assert d == 0; }
  }

  lemma ZeroValue(a: bv64)
    ensures U64(a) == 0 <==> a == 0
  {
    U64Range(a);
    OfU64(a);
  }

  /** The single-cycle machine and the pipeline's comparator take the same branches. */
  lemma FlagIsTaken(funct3: bv32, a: bv64, b: bv64)
    requires funct3 < 8 && funct3 != 2 && funct3 != 3
    ensures BranchFlag(funct3, Execute(BranchOp(funct3), a, b).value) == BranchTaken(funct3, a, b)
  {
    hide U64, Signed64, Bits64;
    DifferenceIsZero(a, b);
  }

  // ----- memory -----

  /** Memory behind the load-store path. Once an access is refused the source stops with an exception;
      here the flag stays set and memory no longer changes. */
  datatype Ram = Ram(bytes: Flat, size: nat, refused: bool)

  /** The width of a load or store; a load word no mnemonic stands for reads a double word. */
  function WidthOf(funct3: bv32): nat {
    if funct3 == 0 || funct3 == 4 then 1
    else if funct3 == 1 || funct3 == 5 then 2
    else if funct3 == 2 || funct3 == 6 then 4
    else 8
  }

  /** The value of a load: lb, lh and lw extend the sign. */
  function Widened(funct3: bv32, v: bv64): bv64 {
    if funct3 == 0 then (if v & 0x80 != 0 then v | 0xFFFF_FFFF_FFFF_FF00 else v)
    else if funct3 == 1 then (if v & 0x8000 != 0 then v | 0xFFFF_FFFF_FFFF_0000 else v)
    else if funct3 == 2 then SignExtend32(Low32(v))
    else v
  }

  predicate InRam(m: Ram, a: Dword, n: nat) { U64(a.bits) + n <= m.size }

  function LoadValue(m: Ram, funct3: bv32, a: Dword): Dword {
    if InRam(m, a, WidthOf(funct3)) then Dword(Widened(funct3, Loaded(m.bytes, U64(a.bits), WidthOf(funct3))))
    else Dword(0)
  }

  function AfterLoad(m: Ram, funct3: bv32, a: Dword): Ram {
    if InRam(m, a, WidthOf(funct3)) then m else m.(refused := true)
  }

  /** Stores have four widths; other words store nothing. */
  function StoreValue(m: Ram, funct3: bv32, a: Dword, v: Dword): Ram {
    if m.refused || funct3 > 3 then m
    else if InRam(m, a, WidthOf(funct3)) then m.(bytes := Stored(m.bytes, U64(a.bits), v.bits, WidthOf(funct3)))
    else m.(refused := true)
  }

  function FetchWord(m: Ram, pc: Dword): bv32 { Low32(Loaded(m.bytes, U64(pc.bits), 4)) }

  // ----- the processor -----

  function Sum(a: Dword, b: Dword): Dword { Dword(Execute(Add, a.bits, b.bits).value) }

  function AluValue(inst: bv32, a: Dword, b: Dword): Dword { Dword(Execute(AluSignal(inst), a.bits, b.bits).value) }

  function ImmValue(inst: bv32): Dword { Dword(SignExtend32(ImmGenerator(inst))) }

  function UpperValue(inst: bv32): Dword { Dword(SignExtend32(ImmGenerator(inst) << 12)) }

  const MACHINE: Datapath<Dword, Ram, Tables> := Datapath(
    Dword(0),
    a => Sum(a, Dword(4)),
    (a, b) => Sum(a, b),
    (inst, a, b) => AluValue(inst, a, b),
    inst => ImmValue(inst),
    inst => UpperValue(inst),
    (funct3, a: Dword, b: Dword) => BranchTaken(funct3, a.bits, b.bits),
    (funct3, result: Dword) => BranchFlag(funct3, result.bits),
    (m, pc) => FetchWord(m, pc),
    (m, funct3, a) => LoadValue(m, funct3, a),
    (m, funct3, a) => AfterLoad(m, funct3, a),
    (m, funct3, a, v) => StoreValue(m, funct3, a, v),
    (t, pc) => Favours(t, pc),
    (t, pc) => BranchPredictor.AfterLookup(t, pc),
    (t, pc, taken) => Train(t, pc, taken))

  lemma UpperZero(inst: bv32)
    requires Opcode(inst) == 0x37 && inst >> 12 == 0
    ensures ImmValue(inst) == Dword(0) == UpperValue(inst)
  {
    ZeroUpper(inst);
    ZeroIsExtended();
  }

  lemma ZeroUpper(inst: bv32)
    requires Opcode(inst) == 0x37 && inst >> 12 == 0
    ensures ImmGenerator(inst) == 0 && ImmGenerator(inst) << 12 == 0
  {
  }

  lemma ZeroSum()
    ensures Sum(Dword(0), Dword(0)) == Dword(0)
  {
    hide U64, Signed64, Bits64;
    SignedZero();
    SignedRange64(0);
  }

  lemma FieldRange(inst: bv32)
    ensures Funct3(inst) < 8
  {
  }

  /** What is proved of the pipeline for all lawful units holds of this processor. */
  lemma MachineIsLawful()
    ensures Lawful(MACHINE)
  {
    hide Execute, BranchFlag, BranchTaken, UpperValue, ImmValue, Opcode, Funct3, Funct7, BranchOp;
    forall inst, a: Dword, b: Dword | Opcode(inst) == 0x67 || Opcode(inst) == 0x37 || Opcode(inst) == 0x17
      ensures AluValue(inst, a, b) == Sum(a, b)
    {
    }
    forall inst, a: Dword, b: Dword | Opcode(inst) == 0x63 && Funct3(inst) != 2 && Funct3(inst) != 3
      ensures BranchFlag(Funct3(inst), AluValue(inst, a, b).bits) == BranchTaken(Funct3(inst), a.bits, b.bits)
    {
      FieldRange(inst);
      FlagIsTaken(Funct3(inst), a.bits, b.bits);
    }
    forall inst | Opcode(inst) == 0x37 && inst >> 12 == 0
      ensures ImmValue(inst) == Dword(0) == UpperValue(inst)
    {
      UpperZero(inst);
    }
    ZeroSum();
  }
}
