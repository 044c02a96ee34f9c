/** What the bitwise operations, the comparisons and the word shifts compute. */
module AluMeaning {
  import opened Words
  import opened Alu

  // ----- bit by bit -----

  lemma AndBit(a: bv64, b: bv64, i: bv64)
    requires i < 64
    ensures Bit(a & b, i) <==> Bit(a, i) && Bit(b, i)
  {
  }

  lemma OrBit(a: bv64, b: bv64, i: bv64)
    requires i < 64
    ensures Bit(a | b, i) <==> Bit(a, i) || Bit(b, i)
  {
  }

  predicate IsBitwise(op: AluOp) { op == And || op == Or || op == Xor }

  predicate Combined(op: AluOp, a: bv64, b: bv64, c: bv64) {
    c == if op == And then a & b else if op == Or then a | b else a ^ b
  }

  lemma ExecuteCombines(op: AluOp, a: bv64, b: bv64)
    requires IsBitwise(op)
    ensures Combined(op, a, b, Execute(op, a, b).value)
  {
    hide U64, Signed64, Bits64, Word32, ShiftLeft64, ShiftRight64, ArithmeticShiftRight64, ShiftLeft32, ShiftRight32,
         ArithmeticShiftRight32, Low32, SignExtend32;
  }

  lemma CombinedBit(op: AluOp, a: bv64, b: bv64, c: bv64, i: bv64)
    requires IsBitwise(op) && i < 64 && Combined(op, a, b, c)
    ensures
      Bit(c, i) <==> if op == And then Bit(a, i) && Bit(b, i) else if op == Or then Bit(a, i) || Bit(b, i)
                     else Bit(a, i) != Bit(b, i)
  {
    hide Bit;
    if op == And {
      AndBit(a, b, i);
    } else if op == Or {
      OrBit(a, b, i);
    } else {
      XorBit(a, b, i);
    }
  }

  /** Each bit of the result is the conjunction, disjunction or exclusive or of the bits of the operands. */
  lemma BitByBit(op: AluOp, a: bv64, b: bv64, i: bv64)
    requires IsBitwise(op) && i < 64
    ensures
      Bit(Execute(op, a, b).value, i) <==>
        if op == And then Bit(a, i) && Bit(b, i) else if op == Or then Bit(a, i) || Bit(b, i)
        else Bit(a, i) != Bit(b, i)
  {
    hide *;
    ExecuteCombines(op, a, b);
    CombinedBit(op, a, b, Execute(op, a, b).value, i);
  }

  /** The comparisons write one or zero. */
  lemma ComparisonsAreNumbers(a: bv64, b: bv64)
    ensures U64(Execute(Slt, a, b).value) == if Signed64(a) < Signed64(b) then 1 else 0
    ensures U64(Execute(Sltu, a, b).value) == if U64(a) < U64(b) then 1 else 0
    ensures !Execute(Slt, a, b).overflow && !Execute(Sltu, a, b).overflow
  {
    OneAndZero();
    hide U64, Signed64, Bits64, Word32, ShiftLeft64, ShiftRight64, ArithmeticShiftRight64, ShiftLeft32, ShiftRight32,
         ArithmeticShiftRight32, Low32, SignExtend32;
  }

  lemma OneAndZero()
    ensures U64(0) == 0 && U64(1) == 1
  {
  }

  // ----- shifts of words -----

  lemma PlainLeft(x: bv32, n: bv32)
    requires n < 32
    ensures x << n == Low32(ShiftLeft64(x as bv64, n as bv64))
  {
  }

  lemma WideLeft(x: bv32, n: bv32)
    requires n < 32
    ensures Left32(x, n) == Low32(ShiftLeft64(x as bv64, n as bv64))
  {
    hide Low32, ShiftLeft64;
    PlainLeft(x, n);
  }

  lemma PlainRight(x: bv32, n: bv32)
    requires n < 32
    ensures x >> n == Low32(ShiftRight64(x as bv64, n as bv64)) && ShiftRight64(x as bv64, n as bv64) <= 0xFFFF_FFFF
  {
  }

  lemma WideRight(x: bv32, n: bv32)
    requires n < 32
    ensures Right32(x, n) == Low32(ShiftRight64(x as bv64, n as bv64))
    ensures ShiftRight64(x as bv64, n as bv64) <= 0xFFFF_FFFF
  {
    hide Low32, ShiftRight64;
    PlainRight(x, n);
  }

  lemma WideAmount(n: bv32)
    requires n < 32
    ensures (n as bv64) & 63 == n as bv64
  {
  }

  lemma NoUpperWord(r: bv64)
    requires r <= 0xFFFF_FFFF
    ensures High32(r) == 0
  {
  }

  lemma ZeroWordValue()
    ensures U32(0) == 0
  {
  }

  lemma SmallWide(r: bv64)
    requires r <= 0xFFFF_FFFF
    ensures U32(Low32(r)) == U64(r)
  {
    hide U64, U32, Low32, High32, Join;
    NoUpperWord(r);
    ZeroWordValue();
    JoinParts(r);
    JoinValue(High32(r), Low32(r));
  }

  /** A left shift of a word multiplies it modulo 2^32. */
  lemma WordLeft(x: bv32, n: bv32)
    requires n < 32
    ensures U32(Left32(x, n)) == (U32(x) * Power2(n as bv64)) % TWO32
  {
    hide U64, U32, Low32, ShiftLeft64, Left32, Power2;
    var y := ShiftLeft64(x as bv64, n as bv64);
    WideLeft(x, n);
    WideAmount(n);
    LowWordValue(y);
    WidenedValue(x);
    ShiftLeftMultiplies(x as bv64, n as bv64);
    ModuloWord(U32(x) * Power2(n as bv64));
  }

  lemma ModuloWord(v: int)
    ensures (v % TWO64) % TWO32 == v % TWO32
  {
  }

  /** A logical right shift of a word divides it. */
  lemma WordRight(x: bv32, n: bv32)
    requires n < 32
    ensures U32(Right32(x, n)) == U32(x) / Power2(n as bv64)
  {
    hide U64, U32, Low32, ShiftRight64, Right32, Power2;
    WideRight(x, n);
    WideAmount(n);
    SmallWide(ShiftRight64(x as bv64, n as bv64));
    WidenedValue(x);
    LogicalShiftDivides(x as bv64, n as bv64);
  }

  lemma ExtendsComplement(x: bv32)
    requires x >= 0x8000_0000
    ensures !SignExtend32(x) == (!x as bv64) && !x < 0x8000_0000 && SignExtend32(x) >= 0x8000_0000_0000_0000
  {
  }

  lemma ComplementExtends(s: bv32)
    requires s < 0x8000_0000
    ensures SignExtend32(!s) == !(s as bv64)
  {
  }

  lemma PlainShrinks(x: bv32, n: bv32)
    requires n < 32 && x < 0x8000_0000
    ensures x >> n < 0x8000_0000
  {
  }

  lemma RightStaysSmall(x: bv32, n: bv32)
    requires n < 32 && x < 0x8000_0000
    ensures Right32(x, n) < 0x8000_0000
  {
    PlainShrinks(x, n);
  }

  lemma RightWidens(x: bv32, n: bv32)
    requires n < 32
    ensures (Right32(x, n) as bv64) == ShiftRight64(x as bv64, n as bv64)
  {
    hide Right32, ShiftRight64, Low32;
    WideRight(x, n);
    WideOfLow(ShiftRight64(x as bv64, n as bv64));
  }

  lemma WideOfLow(r: bv64)
    requires r <= 0xFFFF_FFFF
    ensures (Low32(r) as bv64) == r
  {
  }

  lemma SmallExtends(x: bv32)
    requires x < 0x8000_0000
    ensures SignExtend32(x) == x as bv64 && SignExtend32(x) < 0x8000_0000_0000_0000
  {
  }

  lemma NegativeWord(x: bv32, n: bv32) returns (c: bv32, s: bv32)
    requires x >= 0x8000_0000 && n < 32 && n & 31 == n
    ensures c == !x && s == Right32(c, n) && ArithmeticShiftRight32(x, n) == !s
  {
    hide Right32;
    c := !x;
    s := Right32(c, n);
  }

  lemma PositiveWord(x: bv32, n: bv32)
    requires x < 0x8000_0000 && n < 32 && n & 31 == n
    ensures ArithmeticShiftRight32(x, n) == Right32(x, n)
  {
    hide Right32;
  }

  lemma PositiveWide(y: bv64, m: bv64)
    requires y < 0x8000_0000_0000_0000
    ensures ArithmeticShiftRight64(y, m) == ShiftRight64(y, m)
  {
    hide ShiftRight64;
  }

  /** The arithmetic shift of a word is the wide one of its sign extension. */
  lemma ArithmeticWide(x: bv32, n: bv32)
    requires n < 32 && n & 31 == n
    ensures SignExtend32(ArithmeticShiftRight32(x, n)) == ArithmeticShiftRight64(SignExtend32(x), n as bv64)
  {
    hide Right32, ShiftRight64, SignExtend32, ArithmeticShiftRight32, ArithmeticShiftRight64;
    if x < 0x8000_0000 {
      SmallExtends(x);
      PositiveWord(x, n);
      PositiveWide(SignExtend32(x), n as bv64);
      RightStaysSmall(x, n);
      RightWidens(x, n);
      SmallExtends(Right32(x, n));
    } else {
      NegativeWide(x, n);
    }
  }

  lemma NegativeWide(x: bv32, n: bv32)
    requires x >= 0x8000_0000 && n < 32 && n & 31 == n
    ensures SignExtend32(ArithmeticShiftRight32(x, n)) == ArithmeticShiftRight64(SignExtend32(x), n as bv64)
  {
    ExtendsComplement(x);
    hide Right32, ShiftRight64, SignExtend32, ArithmeticShiftRight32, ArithmeticShiftRight64;
    var c, s := NegativeWord(x, n);
    var c', s' := NegativeShiftParts(SignExtend32(x), n as bv64);
    RightStaysSmall(c, n);
    RightWidens(c, n);
    ComplementExtends(s);
  }

  lemma WordAmount(b: bv64)
    ensures
      var n := Low32(b) & 31;
      n < 32 && n & 31 == n && (n as bv64) == b & 31 && (n as bv64) & 63 == n as bv64
  {
  }

  /** sllw and srlw multiply and divide the low word, sraw divides the signed low word rounding down, all
      by a power of two below 2^32. */
  lemma WordShiftsDivide(a: bv64, b: bv64)
    ensures U32(Low32(Execute(Sllw, a, b).value)) == (U32(Low32(a)) * Power2(b & 31)) % TWO32
    ensures U32(Low32(Execute(Srlw, a, b).value)) == U32(Low32(a)) / Power2(b & 31)
    ensures Signed64(Execute(Sraw, a, b).value) == Word32(a) / Power2(b & 31)
  {
    WordAmount(b);
    var n, x := Low32(b) & 31, Low32(a);
    ShiftWords(a, b, n);
    hide Execute, Low32, U32, Signed32, Signed64, SignExtend32, Left32, Right32, Power2, ArithmeticShiftRight32,
         ArithmeticShiftRight64;
    WordLeft(x, n);
    WordRight(x, n);
    LowOfExtended(Left32(x, n));
    LowOfExtended(Right32(x, n));
    ArithmeticWide(x, n);
    WideArithmetic(SignExtend32(x), n as bv64);
    SignExtendKeepsValue(x);
  }

  lemma MaskedWord(x: bv32, y: bv32, n: bv32)
    requires n == y & 31 && n < 32 && n & 31 == n
    ensures ShiftLeft32(x, y) == Left32(x, n) && ShiftRight32(x, y) == Right32(x, n)
    ensures ArithmeticShiftRight32(x, y) == ArithmeticShiftRight32(x, n)
  {
    hide Left32, Right32;
  }

  lemma ShiftWords(a: bv64, b: bv64, n: bv32)
    requires n == Low32(b) & 31 && n < 32 && n & 31 == n
    ensures Execute(Sllw, a, b).value == SignExtend32(Left32(Low32(a), n))
    ensures Execute(Srlw, a, b).value == SignExtend32(Right32(Low32(a), n))
    ensures Execute(Sraw, a, b).value == SignExtend32(ArithmeticShiftRight32(Low32(a), n))
  {
    hide Left32, Right32, ShiftLeft32, ShiftRight32, ArithmeticShiftRight32, Low32, SignExtend32;
    MaskedWord(Low32(a), Low32(b), n);
  }

  lemma WideArithmetic(a: bv64, b: bv64)
    requires b & 63 == b
    ensures Signed64(ArithmeticShiftRight64(a, b)) == Signed64(a) / Power2(b)
  {
    hide ArithmeticShiftRight64, Signed64, Power2;
    ArithmeticShiftDivides(a, b);
  }

  lemma LowOfExtended(w: bv32)
    ensures Low32(SignExtend32(w)) == w
  {
    hide Low32;
    if w >= 0x8000_0000 { UpperOnesLow(w); } else { WidenedLow(w); }
  }
}
