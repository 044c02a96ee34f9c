/** The integer operations of the arithmetic unit. Signed overflow wraps in two's complement. */
module Alu {
  import opened Arithmetic
  import opened Words

  datatype AluOp =
    | Add | Addw | Sub | Subw | Mul | Mulh | Mulhsu | Mulhu | Mulw
    | Div | Divw | Divu | Divuw | Rem | Remw | Remu | Remuw
    | And | Or | Xor | Sll | Sllw | Srl | Srlw | Sra | Sraw | Slt | Sltu | NoOp

  datatype AluResult = AluResult(value: bv64, overflow: bool)

  /** Division rounded toward zero, and the remainder that goes with it. */
  function Quotient(x: int, y: int): int
    requires y != 0
  {
    if x >= 0 then x / y else -((-x) / y)
  }

  function Remainder(x: int, y: int): int
    requires y != 0
  {
    if x >= 0 then x % y else -((-x) % y)
  }

  const TWO127 := 0x8000_0000_0000_0000_0000_0000_0000_0000
  const TWO128 := 0x1_0000_0000_0000_0000_0000_0000_0000_0000

  /** The value of v in a signed 128-bit variable. */
  function Wrap128(v: int): int { (v + TWO127) % TWO128 - TWO127 }

  /** A signed 64-bit result; the flag says that the exact value did not fit. */
  function Wrapped64(v: int): AluResult { AluResult(Bits64(v), !(MIN64 <= v < -MIN64)) }

  function Wrapped32(v: int): AluResult { AluResult(SignExtend32(Bits32(v)), !(MIN32 <= v < -MIN32)) }

  function Plain(a: bv64): AluResult { AluResult(a, false) }

  function Word32(a: bv64): int { Signed32(Low32(a)) }

  // Shifts; the amount is taken modulo the width.

  function ShiftLeft64(a: bv64, b: bv64): bv64 { a << (b & 63) }

  function Left32(a: bv32, n: bv32): bv32
    requires n < 32
  {
    a << n
  }

  function Right32(a: bv32, n: bv32): bv32
    requires n < 32
  {
    a >> n
  }

  function ShiftLeft32(a: bv32, b: bv32): bv32 { Left32(a, b & 31) }

  function ShiftRight64(a: bv64, b: bv64): bv64 { a >> (b & 63) }

  function ShiftRight32(a: bv32, b: bv32): bv32 { Right32(a, b & 31) }

  function ArithmeticShiftRight64(a: bv64, b: bv64): bv64 {
    if a < 0x8000_0000_0000_0000 then ShiftRight64(a, b) else !ShiftRight64(!a, b)
  }

  function ArithmeticShiftRight32(a: bv32, b: bv32): bv32 {
    if a < 0x8000_0000 then ShiftRight32(a, b) else !ShiftRight32(!a, b)
  }

  // Division and remainder; x and y are the operands as numbers.

  function Divide64(x: int, y: int): AluResult {
    if y == 0 then Plain(0)
    else if x == MIN64 && y == -1 then AluResult(Bits64(-MIN64 - 1), true)
    else Plain(Bits64(Quotient(x, y)))
  }

  function Divide32(x: int, y: int): AluResult {
    if y == 0 then Plain(0)
    else if x == MIN32 && y == -1 then AluResult(SignExtend32(Bits32(MIN32)), true)
    else Plain(SignExtend32(Bits32(Quotient(x, y))))
  }

  function DivideUnsigned(x: int, y: int): AluResult {
    if y == 0 then Plain(0) else Plain(Bits64(x / y))
  }

  function Remainder64(x: int, y: int): AluResult {
    if y == 0 || (x == MIN64 && y == -1) then Plain(0) else Plain(Bits64(Remainder(x, y)))
  }

  function Remainder32(x: int, y: int): AluResult {
    if y == 0 || (x == MIN32 && y == -1) then Plain(0) else Plain(SignExtend32(Bits32(Remainder(x, y))))
  }

  function RemainderUnsigned(x: int, y: int): AluResult {
    if y == 0 then Plain(0) else Plain(Bits64(x % y))
  }

  // Multiplication; the high word is that of a signed 128-bit variable.

  function Multiply64(x: int, y: int): AluResult { Wrapped64(x * y) }

  function Multiply32(x: int, y: int): AluResult { Wrapped32(x * y) }

  function MultiplyHigh(x: int, y: int): AluResult { Plain(Bits64(Wrap128(x * y) / TWO64)) }

  /** The source leaves two cases undefined, for which this answers 0: the remainder of the least
      value by -1, and an unsigned or remainder word division whose divisor is not zero but has a
      zero low word. */
  function Execute(op: AluOp, a: bv64, b: bv64): AluResult {
    match op
    case Add => Wrapped64(Signed64(a) + Signed64(b))
    case Addw => Wrapped32(Word32(a) + Word32(b))
    case Sub => Wrapped64(Signed64(a) - Signed64(b))
    case Subw => Wrapped32(Word32(a) - Word32(b))
    case Mul => Multiply64(Signed64(a), Signed64(b))
    case Mulh => MultiplyHigh(Signed64(a), Signed64(b))
    case Mulhsu => MultiplyHigh(Signed64(a), U64(b))
    case Mulhu => MultiplyHigh(U64(a), U64(b))
    case Mulw => Multiply32(Word32(a), Word32(b))
    case Div => Divide64(Signed64(a), Signed64(b))
    case Divw => Divide32(Word32(a), Word32(b))
    case Divu => DivideUnsigned(U64(a), U64(b))
    case Divuw => DivideUnsigned(U32(Low32(a)), U32(Low32(b)))
    case Rem => Remainder64(Signed64(a), Signed64(b))
    case Remw => Remainder32(Word32(a), Word32(b))
    case Remu => RemainderUnsigned(U64(a), U64(b))
    case Remuw => RemainderUnsigned(U32(Low32(a)), U32(Low32(b)))
    case And => Plain(a & b)
    case Or => Plain(a | b)
    case Xor => Plain(a ^ b)
    case Sll => Plain(ShiftLeft64(a, b))
    case Sllw => Plain(SignExtend32(ShiftLeft32(Low32(a), Low32(b))))
    case Srl => Plain(ShiftRight64(a, b))
    case Srlw => Plain(SignExtend32(ShiftRight32(Low32(a), Low32(b))))
    case Sra => Plain(ArithmeticShiftRight64(a, b))
    case Sraw => Plain(SignExtend32(ArithmeticShiftRight32(Low32(a), Low32(b))))
    case Slt => Plain(if Signed64(a) < Signed64(b) then 1 else 0)
    case Sltu => Plain(if U64(a) < U64(b) then 1 else 0)
    case NoOp => Plain(0)
  }

  // ----- wrapping -----

  /** The overflow flag tells exactly whether the result is the exact sum, difference or product. */
  lemma OverflowIsExact(op: AluOp, a: bv64, b: bv64)
    requires op == Add || op == Sub || op == Mul
    ensures
      var exact :=
        if op == Add then Signed64(a) + Signed64(b)
        else if op == Sub then Signed64(a) - Signed64(b)
        else Signed64(a) * Signed64(b);
      Execute(op, a, b).overflow <==> Signed64(Execute(op, a, b).value) != exact
  {
    hide Signed64, Wrapped64;
    WrapIsExact64(if op == Add then Signed64(a) + Signed64(b)
                  else if op == Sub then Signed64(a) - Signed64(b)
                  else Signed64(a) * Signed64(b));
  }

  lemma WrapIsExact64(v: int)
    ensures Wrapped64(v).overflow <==> Signed64(Wrapped64(v).value) != v
  {
    hide Signed64, Bits64;
    SignedRange64(Bits64(v));
    if MIN64 <= v < -MIN64 { SignedOfBits64(v); }
  }

  lemma WordOverflowIsExact(op: AluOp, a: bv64, b: bv64)
    requires op == Addw || op == Subw || op == Mulw
    ensures
      var exact :=
        if op == Addw then Word32(a) + Word32(b)
        else if op == Subw then Word32(a) - Word32(b)
        else Word32(a) * Word32(b);
      Execute(op, a, b).overflow <==> Signed64(Execute(op, a, b).value) != exact
  {
    hide Word32, Wrapped32, U64;
    WrapIsExact32(if op == Addw then Word32(a) + Word32(b)
                  else if op == Subw then Word32(a) - Word32(b)
                  else Word32(a) * Word32(b));
  }

  lemma WrapIsExact32(v: int)
    ensures Wrapped32(v).overflow <==> Signed64(Wrapped32(v).value) != v
  {
    hide SignExtend32, Signed32, Bits32, Signed64;
    SignedRange32(Bits32(v));
    SignExtendKeepsValue(Bits32(v));
    if MIN32 <= v < -MIN32 { SignedOfBits32(v); }
  }

  // ----- multiplication halves -----

  /** Signed and unsigned readings of the operands have the same product modulo 2^64. */
  lemma ProductsAgree(a: bv64, b: bv64)
    ensures (Signed64(a) * Signed64(b)) % TWO64 == (U64(a) * U64(b)) % TWO64
    ensures (Signed64(a) * Signed64(b)) % TWO64 == (Signed64(a) * U64(b)) % TWO64
  {
    hide U64;
    var x, y, k, l := U64(a), U64(b), Borrow(a), Borrow(b);
    ShiftedProduct(x, y, k);
    ShiftedProduct(y, x - TWO64 * k, l);
    ShiftedProduct(y, x, l);
    assert y * x == x * y;
  }

  /** What the signed reading takes off the unsigned one, in multiples of 2^64. */
  function Borrow(a: bv64): (k: int)
    ensures Signed64(a) == U64(a) - TWO64 * k
  {
    if U64(a) < 0x8000_0000_0000_0000 then 0 else 1
  }

  lemma ShiftedProduct(x: int, y: int, k: int)
    ensures ((x - TWO64 * k) * y) % TWO64 == (x * y) % TWO64 == (y * (x - TWO64 * k)) % TWO64
  {
    var p, m := x * y, k * y;
    assert (x - TWO64 * k) * y == p - TWO64 * m == y * (x - TWO64 * k);
    AddMultiple(p, -m);
  }

  lemma AddMultiple(x: int, k: int)
    ensures (x + TWO64 * k) % TWO64 == x % TWO64
  {
    UniqueQuotient(x + TWO64 * k, TWO64, x / TWO64 + k, x % TWO64);
  }

  /** The two words a product is split into, when it fits the signed 128-bit variable. */
  lemma HalvesOf(p: int)
    requires -TWO127 <= p < TWO127
    ensures MIN64 <= p / TWO64 < -MIN64
    ensures Signed64(Bits64(Wrap128(p) / TWO64)) * TWO64 + p % TWO64 == p
  {
    hide Signed64, Bits64;
    assert Wrap128(p) == p;
    SignedOfBits64(p / TWO64);
  }

  /** Both halves of a signed product together are the exact product. */
  lemma MulhIsExact(a: bv64, b: bv64)
    ensures Signed64(Execute(Mulh, a, b).value) * TWO64 + U64(Execute(Mul, a, b).value) == Signed64(a) * Signed64(b)
  {
    hide U64, Bits64, Signed64, Wrap128;
    SignedRange64(a);
    SignedRange64(b);
    SignedProductBounds(Signed64(a), Signed64(b), -MIN64, -MIN64);
    HalvesOf(Signed64(a) * Signed64(b));
    Bits64Value(Signed64(a) * Signed64(b));
  }

  lemma MulhsuIsExact(a: bv64, b: bv64)
    ensures Signed64(Execute(Mulhsu, a, b).value) * TWO64 + U64(Execute(Mul, a, b).value) == Signed64(a) * U64(b)
  {
    hide U64, Bits64, Signed64, Wrap128;
    ProductsAgree(a, b);
    SignedRange64(a);
    U64Range(b);
    SignedProductBounds(Signed64(a), U64(b), -MIN64, TWO64 - 1);
    HalvesOf(Signed64(a) * U64(b));
    Bits64Value(Signed64(a) * Signed64(b));
  }

  /** The unsigned product may exceed the signed 128-bit variable it is computed in; the high half
      is right all the same. */
  lemma MulhuIsExact(a: bv64, b: bv64)
    ensures U64(Execute(Mulhu, a, b).value) * TWO64 + U64(Execute(Mul, a, b).value) == U64(a) * U64(b)
  {
    hide U64, Bits64, Signed64, Wrap128;
    ProductsAgree(a, b);
    U64Range(a);
    U64Range(b);
    ProductBounds(U64(a), U64(b), TWO64 - 1, TWO64 - 1);
    HighHalfSurvives(U64(a) * U64(b));
    Bits64Value(Wrap128(U64(a) * U64(b)) / TWO64);
    Bits64Value(Signed64(a) * Signed64(b));
  }

  lemma HighHalfSurvives(p: int)
    requires 0 <= p < TWO128
    ensures (Wrap128(p) / TWO64) % TWO64 == p / TWO64
  {
    assert Wrap128(p) == if p < TWO127 then p else p - TWO128;
    assert (p - TWO128) / TWO64 == p / TWO64 - TWO64;
  }

  // ----- division -----

  /** q and r are a quotient and remainder of x by y, r being no larger than y and of x's sign. */
  predicate Fits(x: int, y: int, q: int, r: int) {
    x == q * y + r && Abs(r) < Abs(y) && (r == 0 || (r < 0 <==> x < 0))
  }

  function Abs(x: int): nat { if x < 0 then -x else x }

  lemma QuotientFits(x: int, y: int)
    requires y != 0
    ensures Fits(x, y, Quotient(x, y), Remainder(x, y))
  {
    var m := if x < 0 then -x else x;
    DivMod(m, y);
    assert -((m / y) * y) == -(m / y) * y;
  }

  lemma QuotientInRange(x: int, y: int, limit: int)
    requires y != 0 && -limit <= x < limit && !(x == -limit && y == -1)
    ensures -limit <= Quotient(x, y) < limit && -limit <= Remainder(x, y) < limit
  {
    var m := if x < 0 then -x else x;
    DivMod(m, y);
    var q, r := m / y, m % y;
    if y > 0 {
      QuotientBounds(m, y, q, r);
      NonNegativeProduct(q, y);
    } else {
      assert (-q) * (-y) == q * y;
      QuotientBounds(m, -y, -q, r);
      NonNegativeProduct(-q, -y);
    }
  }

  /** Signed division and remainder fit together. Dividing by zero answers 0 and 0, which fits only
      a zero dividend. */
  lemma DivisionFits(a: bv64, b: bv64)
    requires !(Signed64(a) == MIN64 && Signed64(b) == -1)
    ensures
      var x, y := Signed64(a), Signed64(b);
      var q, r := Signed64(Execute(Div, a, b).value), Signed64(Execute(Rem, a, b).value);
      && (y != 0 ==> Fits(x, y, q, r))
      && (y == 0 ==> q == 0 && r == 0)
  {
    SignedZero();
    hide Signed64, Bits64, Quotient, Remainder, Fits;
    var x, y := Signed64(a), Signed64(b);
    SignedRange64(a);
    if y != 0 {
      QuotientFits(x, y);
      QuotientInRange(x, y, -MIN64);
      SignedOfBits64(Quotient(x, y));
      SignedOfBits64(Remainder(x, y));
    }
  }

  lemma SignedZero()
    ensures Signed64(0) == 0
  {
  }

  lemma UnsignedDivisionFits(a: bv64, b: bv64)
    ensures
      var x, y := U64(a), U64(b);
      var q, r := U64(Execute(Divu, a, b).value), U64(Execute(Remu, a, b).value);
      && (y != 0 ==> Fits(x, y, q, r))
      && (y == 0 ==> q == 0 && r == 0)
  {
    UnsignedZero();
    hide U64, Bits64, Fits;
    U64Range(a);
    U64Range(b);
    if U64(b) != 0 { UnsignedQuotient(U64(a), U64(b)); }
  }

  lemma UnsignedZero()
    ensures U64(0) == 0
  {
  }

  lemma UnsignedQuotient(x: int, y: int)
    requires 0 <= x < TWO64 && 0 < y < TWO64
    ensures U64(Bits64(x / y)) == x / y <= x && U64(Bits64(x % y)) == x % y && Fits(x, y, x / y, x % y)
  {
    hide U64, Bits64;
    DivMod(x, y);
    QuotientBounds(x, y, x / y, x % y);
    Bits64Value(x / y);
    Bits64Value(x % y);
  }

  lemma WordDivisionFits(a: bv64, b: bv64)
    requires !(Word32(a) == MIN32 && Word32(b) == -1)
    ensures
      var x, y := Word32(a), Word32(b);
      var q, r := Signed64(Execute(Divw, a, b).value), Signed64(Execute(Remw, a, b).value);
      && (y != 0 ==> Fits(x, y, q, r))
      && (y == 0 ==> q == 0 && r == 0)
  {
    SignedZero();
    hide Signed32, Bits32, Low32, SignExtend32, Signed64, Quotient, Remainder, Fits;
    var x, y := Word32(a), Word32(b);
    SignedRange32(Low32(a));
    if y != 0 {
      QuotientFits(x, y);
      QuotientInRange(x, y, -MIN32);
      SignedOfBits32(Quotient(x, y));
      SignedOfBits32(Remainder(x, y));
      SignExtendKeepsValue(Bits32(Quotient(x, y)));
      SignExtendKeepsValue(Bits32(Remainder(x, y)));
    }
  }

  lemma UnsignedWordDivisionFits(a: bv64, b: bv64)
    ensures
      var x, y := U32(Low32(a)), U32(Low32(b));
      var q, r := U64(Execute(Divuw, a, b).value), U64(Execute(Remuw, a, b).value);
      && (y != 0 ==> Fits(x, y, q, r))
      && (y == 0 ==> q == 0 && r == 0)
  {
    UnsignedZero();
    hide U32, U64, Bits64, Low32, Fits;
    U32Range(Low32(a));
    U32Range(Low32(b));
    if U32(Low32(b)) != 0 { UnsignedQuotient(U32(Low32(a)), U32(Low32(b))); }
  }

  /** The least value divided by -1 overflows: the 64-bit division answers the greatest value, the
      word division the least one. */
  lemma DivisionOverflow(a: bv64, b: bv64)
    ensures Execute(Div, a, b).overflow <==> Signed64(a) == MIN64 && Signed64(b) == -1
    ensures Execute(Divw, a, b).overflow <==> Word32(a) == MIN32 && Word32(b) == -1
    ensures Execute(Div, a, b).overflow ==> Signed64(Execute(Div, a, b).value) == -MIN64 - 1
    ensures Execute(Divw, a, b).overflow ==> Signed64(Execute(Divw, a, b).value) == MIN32
  {
    hide Signed64, Bits64, Signed32, Bits32, Low32, SignExtend32, Quotient, Remainder;
    SignedOfBits64(-MIN64 - 1);
    SignedOfBits32(MIN32);
    SignExtendKeepsValue(Bits32(MIN32));
  }

  // ----- word operations -----

  predicate IsSignedWordOp(op: AluOp) {
    op.Addw? || op.Subw? || op.Mulw? || op.Divw? || op.Remw? || op.Sllw? || op.Srlw? || op.Sraw?
  }

  predicate IsUnsignedWordOp(op: AluOp) {
    op.Divuw? || op.Remuw?
  }

  lemma SumReadsWords(op: AluOp, a: bv64, b: bv64, a': bv64, b': bv64)
    requires op.Addw? || op.Subw? || op.Mulw?
    requires Low32(a) == Low32(a') && Low32(b) == Low32(b')
    ensures Execute(op, a, b) == Execute(op, a', b')
  {
    hide SignExtend32, Low32, Signed32, U32, Plain, Wrapped32, Multiply32, Multiply64, MultiplyHigh, Divide32,
         Divide64, DivideUnsigned, Remainder32, Remainder64, RemainderUnsigned, ShiftLeft32, ShiftRight32,
         ArithmeticShiftRight32;
  }

  lemma DivisionReadsWords(op: AluOp, a: bv64, b: bv64, a': bv64, b': bv64)
    requires op.Divw? || op.Remw?
    requires Low32(a) == Low32(a') && Low32(b) == Low32(b')
    ensures Execute(op, a, b) == Execute(op, a', b')
  {
    hide SignExtend32, Low32, Signed32, U32, Plain, Wrapped32, Multiply32, Multiply64, MultiplyHigh, Divide32,
         Divide64, DivideUnsigned, Remainder32, Remainder64, RemainderUnsigned, ShiftLeft32, ShiftRight32,
         ArithmeticShiftRight32;
  }

  lemma UnsignedDivisionReadsWords(op: AluOp, a: bv64, b: bv64, a': bv64, b': bv64)
    requires op.Divuw? || op.Remuw?
    requires Low32(a) == Low32(a') && Low32(b) == Low32(b')
    ensures Execute(op, a, b) == Execute(op, a', b')
  {
    hide SignExtend32, Low32, Signed32, U32, Plain, Wrapped32, Multiply32, Multiply64, MultiplyHigh, Divide32,
         Divide64, DivideUnsigned, Remainder32, Remainder64, RemainderUnsigned, ShiftLeft32, ShiftRight32,
         ArithmeticShiftRight32;
  }

  lemma ShiftReadsWords(op: AluOp, a: bv64, b: bv64, a': bv64, b': bv64)
    requires op.Sllw? || op.Srlw? || op.Sraw?
    requires Low32(a) == Low32(a') && Low32(b) == Low32(b')
    ensures Execute(op, a, b) == Execute(op, a', b')
  {
    hide SignExtend32, Low32, Signed32, U32, Plain, Wrapped32, Multiply32, Multiply64, MultiplyHigh, Divide32,
         Divide64, DivideUnsigned, Remainder32, Remainder64, RemainderUnsigned, ShiftLeft32, ShiftRight32,
         ArithmeticShiftRight32;
  }

  /** A word operation looks at the low words of its operands only. */
  lemma WordOperationReadsWords(op: AluOp, a: bv64, b: bv64, a': bv64, b': bv64)
    requires IsSignedWordOp(op) || IsUnsignedWordOp(op)
    requires Low32(a) == Low32(a') && Low32(b) == Low32(b')
    ensures Execute(op, a, b) == Execute(op, a', b')
  {
    hide Execute, Low32;
    if op.Divw? || op.Remw? { DivisionReadsWords(op, a, b, a', b'); }
    else if op.Divuw? || op.Remuw? { UnsignedDivisionReadsWords(op, a, b, a', b'); }
    else if op.Sllw? || op.Srlw? || op.Sraw? { ShiftReadsWords(op, a, b, a', b'); }
    else { SumReadsWords(op, a, b, a', b'); }
  }

  /** What it answers is a sign-extended word. */
  lemma WordOperationSignExtends(op: AluOp, a: bv64, b: bv64)
    requires IsSignedWordOp(op)
    ensures var r := Execute(op, a, b).value; r == SignExtend32(Low32(r))
  {
    hide Execute, SignExtend32, Low32;
    var w;
    if op.Divw? || op.Remw? { w := DivisionResult(op, a, b); }
    else if op.Sllw? || op.Srlw? || op.Sraw? { w := ShiftResult(op, a, b); }
    else { w := SumResult(op, a, b); }
    SignExtendKeepsBits(w);
  }

  /** Except that divuw and remuw zero-extend; their result is right only when its top bit is clear. */
  lemma UnsignedWordOperationZeroExtends(op: AluOp, a: bv64, b: bv64)
    requires IsUnsignedWordOp(op)
    ensures
      var r := Execute(op, a, b).value;
      && r <= 0xFFFF_FFFF
      && (r == SignExtend32(Low32(r)) <==> r < 0x8000_0000)
  {
    hide Execute, SignExtend32, Low32;
    UnsignedWordResult(op, a, b);
    SmallIsExtended(Execute(op, a, b).value);
  }

  lemma SumResult(op: AluOp, a: bv64, b: bv64) returns (w: bv32)
    requires op.Addw? || op.Subw? || op.Mulw?
    ensures Execute(op, a, b).value == SignExtend32(w)
  {
    hide SignExtend32, Low32, Bits32, Word32, Quotient, Remainder, Multiply64, MultiplyHigh, Divide64, DivideUnsigned,
         Remainder64, RemainderUnsigned, ShiftLeft32, ShiftRight32, ArithmeticShiftRight32;
    var x, y := Word32(a), Word32(b);
    w := Bits32(if op.Addw? then x + y else if op.Subw? then x - y else x * y);
  }

  lemma DivisionResult(op: AluOp, a: bv64, b: bv64) returns (w: bv32)
    requires op.Divw? || op.Remw?
    ensures Execute(op, a, b).value == SignExtend32(w)
  {
    ZeroIsExtended();
    hide SignExtend32, Low32, Bits32, Word32, Quotient, Remainder, Multiply64, MultiplyHigh, Divide64, DivideUnsigned,
         Remainder64, RemainderUnsigned, ShiftLeft32, ShiftRight32, ArithmeticShiftRight32;
    var x, y := Word32(a), Word32(b);
    w := if y == 0 || (op.Remw? && x == MIN32 && y == -1) then 0
         else if x == MIN32 && y == -1 then Bits32(MIN32)
         else Bits32(if op.Divw? then Quotient(x, y) else Remainder(x, y));
  }

  lemma ShiftResult(op: AluOp, a: bv64, b: bv64) returns (w: bv32)
    requires op.Sllw? || op.Srlw? || op.Sraw?
    ensures Execute(op, a, b).value == SignExtend32(w)
  {
    hide SignExtend32, Low32, Bits32, Word32, Quotient, Remainder, Multiply64, MultiplyHigh, Divide64, DivideUnsigned,
         Remainder64, RemainderUnsigned, ShiftLeft32, ShiftRight32, ArithmeticShiftRight32;
    w := if op.Sllw? then ShiftLeft32(Low32(a), Low32(b))
         else if op.Srlw? then ShiftRight32(Low32(a), Low32(b))
         else ArithmeticShiftRight32(Low32(a), Low32(b));
  }

  lemma ZeroIsExtended()
    ensures SignExtend32(0) == 0
  {
  }

  lemma SmallIsExtended(r: bv64)
    requires r <= 0xFFFF_FFFF
    ensures r == SignExtend32(Low32(r)) <==> r < 0x8000_0000
  {
    if r < 0x8000_0000 { SmallWord(r); } else { LargeWord(r); }
    hide Low32;
  }

  lemma SmallWord(r: bv64)
    requires r < 0x8000_0000
    ensures Low32(r) < 0x8000_0000 && (Low32(r) as bv64) == r
  {
  }

  lemma LargeWord(r: bv64)
    requires 0x8000_0000 <= r <= 0xFFFF_FFFF
    ensures Low32(r) >= 0x8000_0000 && r != 0xFFFF_FFFF_0000_0000 | (Low32(r) as bv64)
  {
  }

  lemma UnsignedWordResult(op: AluOp, a: bv64, b: bv64)
    requires IsUnsignedWordOp(op)
    ensures Execute(op, a, b).value <= 0xFFFF_FFFF
  {
    hide U32, U64, Bits64, Low32;
    U32Range(Low32(a));
    U32Range(Low32(b));
    if U32(Low32(b)) != 0 {
      UnsignedQuotient(U32(Low32(a)), U32(Low32(b)));
      FitsWord(Execute(op, a, b).value);
    }
  }

  lemma FitsWord(r: bv64)
    requires U64(r) < TWO32
    ensures r <= 0xFFFF_FFFF
  {
    hide U32, U64;
    JoinParts(r);
    JoinValue(High32(r), Low32(r));
    U32Range(Low32(r));
    U32Range(High32(r));
    ZeroWord(High32(r));
    ZeroHigh(r);
    hide Low32, High32, Join;
  }

  lemma ZeroWord(h: bv32)
    ensures U32(h) == 0 ==> h == 0
  {
    OfU32(h);
  }

  lemma ZeroHigh(r: bv64)
    ensures High32(r) == 0 ==> r <= 0xFFFF_FFFF
  {
  }

  lemma SumIsLowWord(a: bv64, b: bv64)
    ensures Execute(Addw, a, b).value == SignExtend32(Low32(Execute(Add, a, b).value))
    ensures Execute(Subw, a, b).value == SignExtend32(Low32(Execute(Sub, a, b).value))
  {
    hide SignExtend32, Low32, Signed64, Word32, Bits32, Bits64;
    var k := WordMatches(a);
    var l := WordMatches(b);
    LowWordOfBits(Word32(a) + Word32(b), k + l);
    LowWordOfBits(Word32(a) - Word32(b), k - l);
  }

  lemma ProductIsLowWord(a: bv64, b: bv64)
    ensures Execute(Mulw, a, b).value == SignExtend32(Low32(Execute(Mul, a, b).value))
  {
    hide SignExtend32, Low32, Signed64, Word32, Bits32, Bits64;
    var k := WordMatches(a);
    var l := WordMatches(b);
    var v, w := Word32(a), Word32(b);
    LowWordOfBits(v * w, k * w + v * l + TWO32 * (k * l));
    ProductOfShifted(v, w, k, l);
  }

  /** addw, subw and mulw are the sign-extended low words of add, sub and mul. */
  lemma WordOperationIsLowWord(op: AluOp, wide: AluOp, a: bv64, b: bv64)
    requires (op == Addw && wide == Add) || (op == Subw && wide == Sub) || (op == Mulw && wide == Mul)
    ensures Execute(op, a, b).value == SignExtend32(Low32(Execute(wide, a, b).value))
  {
    SumIsLowWord(a, b);
    ProductIsLowWord(a, b);
    hide Execute, SignExtend32, Low32;
  }

  lemma ProductOfShifted(v: int, w: int, k: int, l: int)
    ensures (v + TWO32 * k) * (w + TWO32 * l) == v * w + TWO32 * (k * w + v * l + TWO32 * (k * l))
  {
  }

  lemma WordMatches(a: bv64) returns (k: int)
    ensures Signed64(a) == Word32(a) + TWO32 * k
  {
    hide U32, U64, Low32, High32, Join;
    JoinParts(a);
    JoinValue(High32(a), Low32(a));
    k := U32(High32(a)) - (if Signed64(a) == U64(a) then 0 else TWO32) + (if Word32(a) == U32(Low32(a)) then 0 else 1);
  }

  lemma LowWordOfBits(w: int, k: int)
    ensures Low32(Bits64(w + TWO32 * k)) == Bits32(w)
  {
    hide U32, W32, U64, Low32, Bits64;
    var v := w + TWO32 * k;
    LowWordValue(Bits64(v));
    Bits64Value(v);
    OfU32Again(Low32(Bits64(v)));
    assert (v % TWO64) % TWO32 == v % TWO32;
    UniqueQuotient(v, TWO32, w / TWO32 + k, w % TWO32);
  }

  lemma OfU32Again(b: bv32)
    ensures 0 <= U32(b) < TWO32 && W32(U32(b)) == b
  {
    U32Range(b);
    OfU32(b);
  }

  // ----- shifts -----

  function Power2(n: bv64): (p: nat)
    ensures p > 0
    decreases n
  {
    if n == 0 then 1 else 2 * Power2(n - 1)
  }

  lemma HalfIsShift(a: bv64)
    ensures ShiftRight64(a, 1) == Half(a)
  {
  }

  lemma HalfValue(a: bv64)
    ensures U64(ShiftRight64(a, 1)) == U64(a) / 2
  {
    hide U64, Half, ShiftRight64;
    HalfIsShift(a);
    PartsValue(a);
  }

  lemma ShiftRightOnce(a: bv64, n: bv64)
    requires 0 < n <= 63
    ensures ShiftRight64(a, n) == ShiftRight64(ShiftRight64(a, n - 1), 1)
  {
    if n <= 15 {
      ShiftRightOnceLow(a, n);
    } else if n <= 31 {
      ShiftRightOnceMiddle(a, n);
    } else {
      ShiftRightOnceHigh(a, n);
    }
    hide ShiftRight64;
  }

  lemma ShiftRightOnceLow(a: bv64, n: bv64)
    requires 0 < n <= 15
    ensures ShiftRight64(a, n) == ShiftRight64(ShiftRight64(a, n - 1), 1)
  {
  }

  lemma ShiftRightOnceMiddle(a: bv64, n: bv64)
    requires 15 < n <= 31
    ensures ShiftRight64(a, n) == ShiftRight64(ShiftRight64(a, n - 1), 1)
  {
  }

  lemma ShiftRightOnceHigh(a: bv64, n: bv64)
    requires 31 < n <= 63
    ensures ShiftRight64(a, n) == ShiftRight64(ShiftRight64(a, n - 1), 1)
  {
  }

  function Halved(x: nat, n: bv64): (h: nat)
    decreases n
  {
    if n == 0 then x else Halved(x, n - 1) / 2
  }

  lemma {:induction false} HalvedDivides(x: nat, n: bv64)
    ensures Halved(x, n) == x / Power2(n)
    decreases n
  {
    if n > 0 {
      HalvedDivides(x, n - 1);
      DivideTwice(x, Power2(n - 1));
    }
  }

  lemma NoShift(a: bv64)
    ensures ShiftRight64(a, 0) == a
  {
  }

  lemma {:induction false} ShiftRightHalves(a: bv64, n: bv64)
    requires n <= 63
    ensures U64(a) >= 0 && U64(ShiftRight64(a, n)) == Halved(U64(a), n)
    decreases n
  {
    U64Range(a);
    hide U64, ShiftRight64;
    if n == 0 {
      NoShift(a);
    } else {
      ShiftRightHalves(a, n - 1);
      ShiftRightOnce(a, n);
      HalfValue(ShiftRight64(a, n - 1));
    }
  }

  lemma AmountInRange(a: bv64, b: bv64)
    ensures b & 63 <= 63 && ShiftRight64(a, b) == ShiftRight64(a, b & 63)
  {
  }

  lemma ShiftRightDivides(a: bv64, b: bv64)
    ensures U64(ShiftRight64(a, b)) == U64(a) / Power2(b & 63)
  {
    hide U64, Power2, ShiftRight64;
    AmountInRange(a, b);
    ShiftRightHalves(a, b & 63);
    HalvedDivides(U64(a), b & 63);
  }

  /** srl divides by a power of two. */
  lemma LogicalShiftDivides(a: bv64, b: bv64)
    ensures U64(Execute(Srl, a, b).value) == U64(a) / Power2(b & 63)
  {
    hide U64, Power2, ShiftRight64;
    ShiftRightDivides(a, b);
  }

  lemma NonNegativeShift(a: bv64, b: bv64)
    requires a < 0x8000_0000_0000_0000
    ensures Signed64(ArithmeticShiftRight64(a, b)) == Signed64(a) / Power2(b & 63)
  {
    hide U64, Power2, ShiftRight64;
    ShiftRightDivides(a, b);
    Below64(a);
    U64Range(a);
    DivideShrinks(U64(a), Power2(b & 63));
  }

  lemma NegativeShiftParts(a: bv64, b: bv64) returns (c: bv64, s: bv64)
    requires a >= 0x8000_0000_0000_0000
    ensures c == !a && s == ShiftRight64(c, b) && ArithmeticShiftRight64(a, b) == !s
  {
    hide ShiftRight64;
    c, s := !a, ShiftRight64(!a, b);
  }

  lemma NegativeShift(a: bv64, b: bv64)
    requires a >= 0x8000_0000_0000_0000
    ensures Signed64(ArithmeticShiftRight64(a, b)) == Signed64(a) / Power2(b & 63)
  {
    var c, s := NegativeShiftParts(a, b);
    hide U64, Power2, ShiftRight64, ArithmeticShiftRight64;
    ShiftRightDivides(c, b);
    Below64(a);
    U64Range(a);
    ComplementValue(a);
    ComplementValue(s);
    DivideShrinks(U64(c), Power2(b & 63));
    DivideComplement(U64(c), Power2(b & 63));
  }

  /** sra divides the signed value, rounding down. */
  lemma ArithmeticShiftDivides(a: bv64, b: bv64)
    ensures Signed64(Execute(Sra, a, b).value) == Signed64(a) / Power2(b & 63)
  {
    hide Signed64, ArithmeticShiftRight64;
    if a < 0x8000_0000_0000_0000 { NonNegativeShift(a, b); } else { NegativeShift(a, b); }
  }

  lemma DivideShrinks(x: int, d: int)
    requires x >= 0 && d > 0
    ensures 0 <= x / d <= x
  {
    DivMod(x, d);
    QuotientBounds(x, d, x / d, x % d);
  }

  // Shifting left, one place at a time.

  lemma TopBit(a: bv64)
    requires a >= 0x8000_0000_0000_0000
    ensures a << 1 == (a & 0x7FFF_FFFF_FFFF_FFFF) << 1 && a & 0x7FFF_FFFF_FFFF_FFFF < 0x8000_0000_0000_0000
  {
  }

  lemma TopBitValue(a: bv64)
    requires a >= 0x8000_0000_0000_0000
    ensures U64(a) == U64(a & 0x7FFF_FFFF_FFFF_FFFF) + 0x8000_0000_0000_0000
  {
  }

  lemma DoubleIsShift(a: bv64)
    ensures ShiftLeft64(a, 1) == a << 1
  {
  }

  lemma DoubleValue(a: bv64)
    ensures U64(ShiftLeft64(a, 1)) == (2 * U64(a)) % TWO64
  {
    hide U64, ShiftLeft64;
    U64Range(a);
    DoubleIsShift(a);
    Below64(a);
    if a < 0x8000_0000_0000_0000 {
      AppendZero64(a);
    } else {
      var h := a & 0x7FFF_FFFF_FFFF_FFFF;
      TopBit(a);
      TopBitValue(a);
      AppendZero64(h);
    }
  }

  lemma ShiftLeftOnce(a: bv64, n: bv64)
    requires 0 < n <= 63
    ensures ShiftLeft64(a, n) == ShiftLeft64(ShiftLeft64(a, n - 1), 1)
  {
    if n <= 15 {
      ShiftLeftOnceLow(a, n);
    } else if n <= 31 {
      ShiftLeftOnceMiddle(a, n);
    } else {
      ShiftLeftOnceHigh(a, n);
    }
    hide ShiftLeft64;
  }

  lemma ShiftLeftOnceLow(a: bv64, n: bv64)
    requires 0 < n <= 15
    ensures ShiftLeft64(a, n) == ShiftLeft64(ShiftLeft64(a, n - 1), 1)
  {
  }

  lemma ShiftLeftOnceMiddle(a: bv64, n: bv64)
    requires 15 < n <= 31
    ensures ShiftLeft64(a, n) == ShiftLeft64(ShiftLeft64(a, n - 1), 1)
  {
  }

  lemma ShiftLeftOnceHigh(a: bv64, n: bv64)
    requires 31 < n <= 63
    ensures ShiftLeft64(a, n) == ShiftLeft64(ShiftLeft64(a, n - 1), 1)
  {
  }

  lemma NoShiftLeft(a: bv64)
    ensures ShiftLeft64(a, 0) == a
  {
  }

  lemma {:induction false} ShiftLeftDoubles(a: bv64, n: bv64)
    requires n <= 63
    ensures U64(ShiftLeft64(a, n)) == (U64(a) * Power2(n)) % TWO64
    decreases n
  {
    hide U64, ShiftLeft64;
    U64Range(a);
    if n == 0 {
      NoShiftLeft(a);
    } else {
      ShiftLeftDoubles(a, n - 1);
      ShiftLeftOnce(a, n);
      DoubleValue(ShiftLeft64(a, n - 1));
      DoubleModulo(U64(a), Power2(n - 1));
    }
  }

  lemma DoubleModulo(x: int, p: int)
    ensures (2 * ((x * p) % TWO64)) % TWO64 == (x * (2 * p)) % TWO64
  {
    var y := x * p;
    assert x * (2 * p) == 2 * y;
    UniqueQuotient(y, TWO64, y / TWO64, y % TWO64);
    AddMultiple(2 * (y % TWO64), 2 * (y / TWO64));
  }

  lemma LeftAmount(a: bv64, b: bv64)
    ensures b & 63 <= 63 && ShiftLeft64(a, b) == ShiftLeft64(a, b & 63)
  {
  }

  /** sll multiplies by a power of two, modulo 2^64. */
  lemma ShiftLeftMultiplies(a: bv64, b: bv64)
    ensures U64(Execute(Sll, a, b).value) == (U64(a) * Power2(b & 63)) % TWO64
  {
    LeftAmount(a, b);
    ShiftLeftDoubles(a, b & 63);
    hide U64, Power2, ShiftLeft64;
  }
}
