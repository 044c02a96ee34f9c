/** Machine words as numbers. */
module Words {
  const TWO32 := 0x1_0000_0000
  const TWO64 := 0x1_0000_0000_0000_0000
  const MIN32 := -0x8000_0000
  const MIN64 := -0x8000_0000_0000_0000

  /** A 64-bit word as a key or an address. */
  datatype Dword = Dword(bits: bv64)

  // Unsigned values, and the word with a given one.

  function U32(b: bv32): int { b as int }

  function U64(a: bv64): int { a as int }

  function W32(x: int): bv32
    requires 0 <= x < TWO32
  {
    x as bv32
  }

  function W64(x: int): bv64
    requires 0 <= x < TWO64
  {
    x as bv64
  }

  // Signed values, and two's complement truncation.

  function Signed32(b: bv32): int {
    if U32(b) < 0x8000_0000 then U32(b) else U32(b) - TWO32
  }

  function Signed64(a: bv64): int {
    if U64(a) < 0x8000_0000_0000_0000 then U64(a) else U64(a) - TWO64
  }

  function Bits32(v: int): bv32 { W32(v % TWO32) }

  function Bits64(v: int): bv64 { W64(v % TWO64) }

  // Narrowing and widening.

  function Low32(a: bv64): bv32 { (a & 0xFFFF_FFFF) as bv32 }

  function High32(a: bv64): bv32 { (a >> 32) as bv32 }

  function Join(h: bv32, l: bv32): bv64 { ((h as bv64) << 32) | (l as bv64) }

  /** A 32-bit value read as int32_t and widened to 64 bits. */
  function SignExtend32(b: bv32): bv64 {
    if b >= 0x8000_0000 then 0xFFFF_FFFF_0000_0000 | (b as bv64) else b as bv64
  }

  /** Bit i of the word. */
  predicate Bit(a: bv64, i: bv64)
    requires i < 64
  {
    (a >> i) & 1 == 1
  }

  // ----- unsigned values -----

  lemma U32Range(b: bv32)
    ensures 0 <= U32(b) < TWO32
  {
  }

  lemma U64Range(a: bv64)
    ensures 0 <= U64(a) < TWO64
  {
  }

  lemma OfU32(b: bv32)
    requires 0 <= U32(b) < TWO32
    ensures W32(U32(b)) == b
  {
  }

  lemma OfU64(a: bv64)
    requires 0 <= U64(a) < TWO64
    ensures W64(U64(a)) == a
  {
  }

  function Append32(h: bv32, bit: bool): bv32 { if bit then (h << 1) | 1 else h << 1 }

  function Append64(h: bv64, bit: bool): bv64 { if bit then (h << 1) | 1 else h << 1 }

  lemma Below32(h: bv32)
    ensures U32(h) < 0x8000_0000 <==> h < 0x8000_0000
  {
  }

  lemma AppendZero32(h: bv32)
    requires h < 0x8000_0000
    ensures U32(h << 1) == 2 * U32(h)
  {
  }

  lemma AppendOne32(h: bv32)
    requires h < 0x8000_0000
    ensures U32((h << 1) | 1) == 2 * U32(h) + 1
  {
  }

  lemma Append32Value(h: bv32, bit: bool)
    requires U32(h) < 0x8000_0000
    ensures U32(Append32(h, bit)) == 2 * U32(h) + if bit then 1 else 0
  {
    hide U32;
    Below32(h);
    if bit { AppendOne32(h); } else { AppendZero32(h); }
  }

  lemma Below64(h: bv64)
    ensures U64(h) < 0x8000_0000_0000_0000 <==> h < 0x8000_0000_0000_0000
  {
  }

  lemma AppendZero64(h: bv64)
    requires h < 0x8000_0000_0000_0000
    ensures U64(h << 1) == 2 * U64(h)
  {
  }

  lemma AppendOne64(h: bv64)
    requires h < 0x8000_0000_0000_0000
    ensures U64((h << 1) | 1) == 2 * U64(h) + 1
  {
  }

  lemma Append64Value(h: bv64, bit: bool)
    requires U64(h) < 0x8000_0000_0000_0000
    ensures U64(Append64(h, bit)) == 2 * U64(h) + if bit then 1 else 0
  {
    hide U64;
    Below64(h);
    if bit { AppendOne64(h); } else { AppendZero64(h); }
  }

  function Half(a: bv64): bv64 { a >> 1 }

  function Odd(a: bv64): bool { a & 1 == 1 }

  lemma HalfParts(a: bv64)
    ensures Half(a) < 0x8000_0000_0000_0000 && Append64(Half(a), Odd(a)) == a
  {
  }

  lemma PartsValue(a: bv64)
    ensures U64(a) == 2 * U64(Half(a)) + if Odd(a) then 1 else 0
  {
    hide U64, Half, Odd, Append64;
    HalfParts(a);
    Below64(Half(a));
    Append64Value(Half(a), Odd(a));
  }

  lemma {:induction false} WordOf32(x: int) returns (b: bv32)
    requires 0 <= x < TWO32
    ensures U32(b) == x
  {
    hide Append32;
    if x == 0 {
      b := 0;
    } else {
      var h := WordOf32(x / 2);
      b := Append32(h, x % 2 == 1);
      hide U32;
      Append32Value(h, x % 2 == 1);
    }
  }

  lemma {:induction false} WordOf64(x: int) returns (b: bv64)
    requires 0 <= x < TWO64
    ensures U64(b) == x
  {
    hide Append64;
    if x == 0 {
      b := 0;
    } else {
      var h := WordOf64(x / 2);
      b := Append64(h, x % 2 == 1);
      hide U64;
      Append64Value(h, x % 2 == 1);
    }
  }

  /** Every integer in range is the value of its word. */
  lemma ValueOfW32(x: int)
    requires 0 <= x < TWO32
    ensures U32(W32(x)) == x
  {
    var b := WordOf32(x);
    OfU32(b);
  }

  lemma ValueOfW64(x: int)
    requires 0 <= x < TWO64
    ensures U64(W64(x)) == x
  {
    var b := WordOf64(x);
    OfU64(b);
  }

  // ----- joining and splitting -----

  lemma JoinParts(a: bv64)
    ensures Join(High32(a), Low32(a)) == a
  {
  }

  lemma JoinValue(h: bv32, l: bv32)
    ensures U64(Join(h, l)) == U32(h) * TWO32 + U32(l)
  {
  }

  /** The low word is the value modulo 2^32. */
  lemma LowWordValue(a: bv64)
    ensures U32(Low32(a)) == U64(a) % TWO32
  {
    JoinParts(a);
    JoinValue(High32(a), Low32(a));
    U32Range(Low32(a));
    U32Range(High32(a));
    hide U32, U64, Low32, High32, Join;
  }

  lemma UpperOnesValue(b: bv32)
    requires b >= 0x8000_0000
    ensures U64(0xFFFF_FFFF_0000_0000 | (b as bv64)) == U32(b) + 0xFFFF_FFFF_0000_0000
  {
  }

  lemma WidenedValue(b: bv32)
    ensures U64(b as bv64) == U32(b)
  {
  }

  /** The sign-extended word denotes the same signed number. */
  lemma SignExtendKeepsValue(b: bv32)
    ensures Signed64(SignExtend32(b)) == Signed32(b)
  {
    hide U32, U64;
    Below32(b);
    U32Range(b);
    if b < 0x8000_0000 { WidenedValue(b); } else { UpperOnesValue(b); }
  }

  lemma UpperOnesLow(b: bv32)
    ensures Low32(0xFFFF_FFFF_0000_0000 | (b as bv64)) == b
  {
  }

  lemma WidenedLow(b: bv32)
    ensures Low32(b as bv64) == b
  {
  }

  lemma SignExtendKeepsBits(b: bv32)
    ensures Low32(SignExtend32(b)) == b
  {
    hide Low32;
    UpperOnesLow(b);
    WidenedLow(b);
  }

  // ----- signed values -----

  lemma SignedOfBits32(v: int)
    requires MIN32 <= v < -MIN32
    ensures Signed32(Bits32(v)) == v
  {
    hide U32, W32;
    ValueOfW32(v % TWO32);
  }

  lemma SignedOfBits64(v: int)
    requires MIN64 <= v < -MIN64
    ensures Signed64(Bits64(v)) == v
  {
    hide U64, W64;
    ValueOfW64(v % TWO64);
  }

  lemma Bits64Value(v: int)
    ensures U64(Bits64(v)) == v % TWO64
  {
    hide U64, W64;
    ValueOfW64(v % TWO64);
  }

  lemma Bits32Value(v: int)
    ensures U32(Bits32(v)) == v % TWO32
  {
    hide U32, W32;
    ValueOfW32(v % TWO32);
  }

  lemma SignedRange32(b: bv32)
    ensures MIN32 <= Signed32(b) < -MIN32 && Bits32(Signed32(b)) == b
  {
    hide U32, W32;
    U32Range(b);
    OfU32(b);
  }

  lemma SignedRange64(a: bv64)
    ensures MIN64 <= Signed64(a) < -MIN64 && Bits64(Signed64(a)) == a
  {
    hide U64, W64;
    U64Range(a);
    OfU64(a);
  }

  // ----- complements and ranges -----

  /** m is a block of low ones and a lies under it. */
  predicate Under(a: bv64, m: bv64) { m & (m >> 1) == m >> 1 && a & m == a }

  function Others(a: bv64, m: bv64): bv64 { !a & m }

  lemma UnderHalves(a: bv64, m: bv64)
    requires Under(a, m)
    ensures Under(Half(a), Half(m)) && (m != 0 ==> Odd(m))
  {
  }

  lemma HalfIsSmaller(m: bv64)
    requires m != 0
    ensures Half(m) < m
  {
  }

  lemma OthersHalve(a: bv64, m: bv64)
    requires Odd(m)
    ensures Odd(Others(a, m)) == !Odd(a) && Half(Others(a, m)) == Others(Half(a), Half(m))
  {
  }

  lemma {:induction false} ComplementUnder(a: bv64, m: bv64)
    requires Under(a, m)
    ensures U64(Others(a, m)) == U64(m) - U64(a)
    decreases m
  {
    if m == 0 {
      ZeroUnder(a);
    } else {
      hide U64, Under, Half, Odd, Others;
      UnderHalves(a, m);
      HalfIsSmaller(m);
      OthersHalve(a, m);
      ComplementUnder(Half(a), Half(m));
      PartsValue(a);
      PartsValue(m);
      PartsValue(Others(a, m));
    }
  }

  lemma ZeroUnder(a: bv64)
    requires Under(a, 0)
    ensures U64(Others(a, 0)) == U64(0) - U64(a)
  {
  }

  lemma AllOnes(a: bv64)
    ensures Under(a, 0xFFFF_FFFF_FFFF_FFFF) && Others(a, 0xFFFF_FFFF_FFFF_FFFF) == !a
    ensures U64(0xFFFF_FFFF_FFFF_FFFF) == TWO64 - 1
  {
  }

  lemma ComplementValue(a: bv64)
    ensures U64(!a) == TWO64 - 1 - U64(a)
  {
    hide U64, Under, Others;
    AllOnes(a);
    ComplementUnder(a, 0xFFFF_FFFF_FFFF_FFFF);
  }

  function Widen(b: bv32): bv64 { b as bv64 }

  lemma LowOfWidened(w: bv32)
    ensures Low32(Widen(w)) == w
  {
  }

  function Complement(b: bv32): bv32 { !b }

  lemma WidenedComplement(b: bv32)
    ensures Under(Widen(b), 0xFFFF_FFFF) && Others(Widen(b), 0xFFFF_FFFF) == Widen(Complement(b))
    ensures U64(0xFFFF_FFFF) == TWO32 - 1 && U64(Widen(b)) == U32(b)
  {
  }

  lemma ComplementValue32(b: bv32)
    ensures U32(Complement(b)) == TWO32 - 1 - U32(b)
  {
    hide U32, U64, Under, Others, Widen, Complement;
    WidenedComplement(b);
    WidenedComplement(Complement(b));
    ComplementUnder(Widen(b), 0xFFFF_FFFF);
  }

  lemma SmallWords(b: bv32)
    ensures U32(b) < 0x20 <==> b < 0x20
    ensures U32(b) < 0x40 <==> b < 0x40
    ensures U32(b) < 0x800 <==> b < 0x800
    ensures U32(b) < 0x1000 <==> b < 0x1000
    ensures U32(b) < 0x10_0000 <==> b < 0x10_0000
  {
  }

  lemma ComplementsOf(b: bv32)
    ensures b >= 0xFFFF_F800 <==> Complement(b) < 0x800
    ensures b >= 0xFFFF_F000 <==> Complement(b) < 0x1000
    ensures b >= 0xFFF0_0000 <==> Complement(b) < 0x10_0000
  {
  }

  /** Ranges of two's complement numbers, on words and on their values. */
  lemma SignedRanges(b: bv32)
    ensures -0x800 <= Signed32(b) < 0x800 <==> b < 0x800 || b >= 0xFFFF_F800
    ensures -0x1000 <= Signed32(b) < 0x1000 <==> b < 0x1000 || b >= 0xFFFF_F000
    ensures -0x10_0000 <= Signed32(b) < 0x10_0000 <==> b < 0x10_0000 || b >= 0xFFF0_0000
  {
    hide U32, Complement;
    U32Range(b);
    ComplementValue32(b);
    SmallWords(b);
    SmallWords(Complement(b));
    ComplementsOf(b);
  }

  lemma WidenedOdd(b: bv32)
    ensures Odd(Widen(b)) <==> b & 1 == 1
  {
  }

  lemma Parity(b: bv32)
    ensures b & 1 == 1 <==> Signed32(b) % 2 == 1
  {
    hide U32, U64, Odd, Half, Widen;
    WidenedOdd(b);
    WidenedComplement(b);
    PartsValue(Widen(b));
  }

  // ----- bits -----

  /** Some bit from i on is set. */
  predicate BitsFrom(x: bv64, i: bv64)
    requires i < 64
  {
    x >> i != 0
  }

  lemma NextBits(x: bv64, i: bv64)
    requires i < 63 && BitsFrom(x, i) && !Bit(x, i)
    ensures BitsFrom(x, i + 1)
  {
  }

  lemma LastBits(x: bv64)
    requires BitsFrom(x, 63)
    ensures Bit(x, 63)
  {
  }

  lemma NextIndex(i: bv64)
    requires i < 63
    ensures i + 1 < 64 && 63 - (i + 1) < 63 - i
  {
  }

  lemma {:induction false} FindBit(x: bv64, i: bv64) returns (j: bv64)
    requires i < 64 && BitsFrom(x, i)
    ensures j < 64 && Bit(x, j)
    decreases 63 - i
  {
    hide Bit, BitsFrom;
    if Bit(x, i) {
      j := i;
    } else if i == 63 {
      LastBits(x);
      j := i;
    } else {
      NextBits(x, i);
      NextIndex(i);
      j := FindBit(x, i + 1);
    }
  }

  lemma XorBit(a: bv64, b: bv64, i: bv64)
    requires i < 64
    ensures Bit(a ^ b, i) <==> Bit(a, i) != Bit(b, i)
  {
  }

  lemma XorBits(a: bv64, b: bv64)
    ensures BitsFrom(a ^ b, 0) <==> a != b
  {
  }

  /** Different words differ in some bit. */
  lemma DifferentBit(a: bv64, b: bv64) returns (i: bv64)
    requires a != b
    ensures i < 64 && Bit(a, i) != Bit(b, i)
  {
    hide Bit, BitsFrom;
    XorBits(a, b);
    i := FindBit(a ^ b, 0);
    XorBit(a, b, i);
  }
}
