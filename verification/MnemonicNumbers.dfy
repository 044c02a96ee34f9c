/** What the register mnemonics compute, as numbers and bit by bit. */
module MnemonicNumbers {
  import opened Arithmetic
  import opened Words
  import opened Alu
  import opened AluMeaning
  import opened Instructions
  import opened MnemonicMeaning
  import opened MnemonicEffects

  /** Every bit of r is that of a and b taken together. */
  ghost predicate EachBit(op: ROp, a: bv64, b: bv64, r: bv64) {
    forall i: bv64 {:trigger Bit(r, i)} :: i < 64 ==>
      (Bit(r, i) <==> if op == AND then Bit(a, i) && Bit(b, i) else if op == OR then Bit(a, i) || Bit(b, i)
                      else Bit(a, i) != Bit(b, i))
  }

  /** r is what the mnemonic says of a and b. Division by zero gives 0 for quotient and remainder, and the
      least number divided by -1 gives the greatest one. */
  ghost predicate Means(op: ROp, a: bv64, b: bv64, r: bv64) {
    var x, y := Signed64(a), Signed64(b);
    match op
    case ADD => U64(r) == (x + y) % TWO64
    case SUB => U64(r) == (x - y) % TWO64
    case MUL => U64(r) == (x * y) % TWO64
    case MULH => Signed64(r) == (x * y) / TWO64
    case MULHSU => Signed64(r) == (x * U64(b)) / TWO64
    case MULHU => U64(r) == (U64(a) * U64(b)) / TWO64
    case SLL => U64(r) == (U64(a) * Power2(b & 63)) % TWO64
    case SRL => U64(r) == U64(a) / Power2(b & 63)
    case SRA => Signed64(r) == x / Power2(b & 63)
    case SLT => U64(r) == if x < y then 1 else 0
    case SLTU => U64(r) == if U64(a) < U64(b) then 1 else 0
    case DIV =>
      if y == 0 then Signed64(r) == 0
      else if x == MIN64 && y == -1 then Signed64(r) == -MIN64 - 1
      else exists z :: Fits(x, y, Signed64(r), z)
    case REM =>
      if y == 0 || (x == MIN64 && y == -1) then Signed64(r) == 0
      else exists q :: Fits(x, y, q, Signed64(r))
    case DIVU => if U64(b) == 0 then U64(r) == 0 else exists z :: Fits(U64(a), U64(b), U64(r), z)
    case REMU => if U64(b) == 0 then U64(r) == 0 else exists q :: Fits(U64(a), U64(b), q, U64(r))
    case AND => EachBit(op, a, b, r)
    case OR => EachBit(op, a, b, r)
    case XOR => EachBit(op, a, b, r)
    case _ => false
  }

  lemma SumsMean(op: ROp, a: bv64, b: bv64)
    requires op == ADD || op == SUB
    ensures Means(op, a, b, Value(NamedOp(op), Dword(a), Dword(b)).bits)
  {
    hide U64, Signed64, Bits64;
    Bits64Value(Signed64(a) + Signed64(b));
    Bits64Value(Signed64(a) - Signed64(b));
  }

  lemma SplitProduct(p: int, high: int, low: int)
    requires high * TWO64 + low == p && 0 <= low < TWO64
    ensures p / TWO64 == high && p % TWO64 == low
  {
    UniqueQuotient(p, TWO64, high, low);
  }

  lemma ProductsMean(op: ROp, a: bv64, b: bv64)
    requires op == MUL || op == MULH || op == MULHSU || op == MULHU
    ensures Means(op, a, b, Value(NamedOp(op), Dword(a), Dword(b)).bits)
  {
    hide U64, Signed64, Execute;
    var low := Execute(Mul, a, b).value;
    U64Range(low);
    MulhIsExact(a, b);
    MulhsuIsExact(a, b);
    MulhuIsExact(a, b);
    SplitProduct(Signed64(a) * Signed64(b), Signed64(Execute(Mulh, a, b).value), U64(low));
    SplitProduct(Signed64(a) * U64(b), Signed64(Execute(Mulhsu, a, b).value), U64(low));
    SplitProduct(U64(a) * U64(b), U64(Execute(Mulhu, a, b).value), U64(low));
  }

  lemma ShiftsMean(op: ROp, a: bv64, b: bv64)
    requires op == SLL || op == SRL || op == SRA
    ensures Means(op, a, b, Value(NamedOp(op), Dword(a), Dword(b)).bits)
  {
    hide U64, Signed64, Execute, Power2;
    ShiftLeftMultiplies(a, b);
    LogicalShiftDivides(a, b);
    ArithmeticShiftDivides(a, b);
  }

  lemma ComparisonsMean(op: ROp, a: bv64, b: bv64)
    requires op == SLT || op == SLTU
    ensures Means(op, a, b, Value(NamedOp(op), Dword(a), Dword(b)).bits)
  {
    hide U64, Signed64, Execute;
    ComparisonsAreNumbers(a, b);
  }

  lemma BitwiseMeans(op: ROp, a: bv64, b: bv64)
    requires op == AND || op == OR || op == XOR
    ensures Means(op, a, b, Value(NamedOp(op), Dword(a), Dword(b)).bits)
  {
    hide U64, Signed64, Execute, Bit;
    forall i: bv64 | i < 64
      ensures
        var r := Value(NamedOp(op), Dword(a), Dword(b)).bits;
        Bit(r, i) <==> if op == AND then Bit(a, i) && Bit(b, i) else if op == OR then Bit(a, i) || Bit(b, i)
                       else Bit(a, i) != Bit(b, i)
    {
      BitByBit(NamedOp(op), a, b, i);
    }
  }

  lemma DivisionsMean(op: ROp, a: bv64, b: bv64)
    requires op == DIV || op == REM
    ensures Means(op, a, b, Value(NamedOp(op), Dword(a), Dword(b)).bits)
  {
    hide U64, Signed64, Execute, Fits;
    if Signed64(a) == MIN64 && Signed64(b) == -1 { LeastByMinusOne(a, b); } else { DivisionFits(a, b); }
  }

  lemma LeastByMinusOne(a: bv64, b: bv64)
    requires Signed64(a) == MIN64 && Signed64(b) == -1
    ensures Signed64(Execute(Div, a, b).value) == -MIN64 - 1 && Signed64(Execute(Rem, a, b).value) == 0
  {
    SignedZero();
    hide Signed64, Bits64;
    SignedOfBits64(-MIN64 - 1);
  }

  lemma UnsignedDivisionsMean(op: ROp, a: bv64, b: bv64)
    requires op == DIVU || op == REMU
    ensures Means(op, a, b, Value(NamedOp(op), Dword(a), Dword(b)).bits)
  {
    hide U64, Signed64, Execute, Fits;
    UnsignedDivisionFits(a, b);
  }

  /** What RegisterMnemonic leaves in the destination is what the mnemonic says of the two registers. */
  lemma RegisterMeans(op: ROp, a: bv64, b: bv64)
    requires !IsWordOp(op)
    ensures Means(op, a, b, Value(NamedOp(op), Dword(a), Dword(b)).bits)
  {
    hide Means, Execute;
    match op
    case ADD => SumsMean(op, a, b);
    case SUB => SumsMean(op, a, b);
    case MUL => ProductsMean(op, a, b);
    case MULH => ProductsMean(op, a, b);
    case MULHSU => ProductsMean(op, a, b);
    case MULHU => ProductsMean(op, a, b);
    case SLL => ShiftsMean(op, a, b);
    case SRL => ShiftsMean(op, a, b);
    case SRA => ShiftsMean(op, a, b);
    case SLT => ComparisonsMean(op, a, b);
    case SLTU => ComparisonsMean(op, a, b);
    case AND => BitwiseMeans(op, a, b);
    case OR => BitwiseMeans(op, a, b);
    case XOR => BitwiseMeans(op, a, b);
    case DIV => DivisionsMean(op, a, b);
    case REM => DivisionsMean(op, a, b);
    case DIVU => UnsignedDivisionsMean(op, a, b);
    case REMU => UnsignedDivisionsMean(op, a, b);
    case _ =>
  }

  /** The register mnemonic an operation with an immediate, or a shift by one, stands beside. */
  function RegisterForm(op: I1Op): ROp {
    match op
    case XORI => XOR
    case ORI => OR
    case ANDI => AND
    case SLTI => SLT
    case SLTIU => SLTU
    case _ => ADD
  }

  lemma ImmediateMeans(op: I1Op, a: bv64, imm: bv32)
    requires op != ADDIW
    ensures Means(RegisterForm(op), a, SignExtend32(imm), Value(NamedImmediateOp(op), Dword(a), Extended(imm)).bits)
  {
    hide Means, Execute;
    RegisterMeans(RegisterForm(op), a, SignExtend32(imm));
  }

  function ShiftForm(op: I2Op): ROp {
    match op
    case SLLI => SLL
    case SRLI => SRL
    case SRAI => SRA
    case SLLIW => SLL
    case SRLIW => SRL
    case SRAIW => SRA
  }

  lemma ShiftMeans(op: I2Op, a: bv64, amount: bv64)
    requires op in {SLLI, SRLI, SRAI}
    ensures Means(ShiftForm(op), a, amount, Value(NamedShiftOp(op), Dword(a), Dword(amount)).bits)
  {
    hide Means, Execute;
    RegisterMeans(ShiftForm(op), a, amount);
  }
}
