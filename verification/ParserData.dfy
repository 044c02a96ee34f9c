/** The parser's side of the data section: what it appends to the data buffer, and the offsets it
    gives to labels. */
module ParserData {
  import opened Arithmetic
  import opened Words
  import opened Masks
  import opened DataSection
  import opened Tokens

  datatype SymbolData = SymbolData(address: nat, line: nat, isData: bool)

  type Symbols = map<string, SymbolData>

  /** The literals one token stands for. */
  function LiteralsOf(d: DataDirective, k: Kind): seq<DataItem>
    requires Takes(d, k)
  {
    match d
    case DWord => [DoubleItem(Bits64(k.v))]
    case Word => [WordItem(Low32(Bits64(k.v)))]
    case HalfWord => [HalfItem((Bits64(k.v) & 0xFFFF) as bv16)]
    case Byte => [ByteItem((Bits64(k.v) & 0xFF) as bv8)]
    case Float => [FloatItem(k.floatBits)]
    case Double => [DoubleFloatItem(k.doubleBits)]
    case Zero => seq(k.v % TWO64, _ => ByteItem(0))
    case Text => [TextItem(Unescape(k.raw) + [0])]
  }

  lemma LiteralsAligned(d: DataDirective, k: Kind)
    requires Takes(d, k)
    ensures forall i :: 0 <= i < |LiteralsOf(d, k)| ==> Alignment(LiteralsOf(d, k)[i]) == AlignmentOf(d)
    ensures d.Zero? ==> forall i :: 0 <= i < |LiteralsOf(d, k)| ==> LiteralsOf(d, k)[i] == ByteItem(0)
    ensures !d.Zero? ==> |LiteralsOf(d, k)| == 1
  {
  }

  lemma LowParts(w: bv64)
    ensures ((w & 0xFF) as bv8) as bv64 == MaskedBy(w, 0xFF) && LowOnes(0xFF) && U64(0xFF) == 0xFF
    ensures ((w & 0xFFFF) as bv16) as bv64 == MaskedBy(w, 0xFFFF) && LowOnes(0xFFFF) && U64(0xFFFF) == 0xFFFF
    ensures Low32(w) as bv64 == Widen(Low32(w))
  {
  }

  lemma SmallerModulus(v: int, p: int, q: int)
    requires p > 0 && q > 0
    ensures (v % (p * q)) % p == v % p
  {
    DivMod(v, p * q);
    DivMod(v % (p * q), p);
    UniqueQuotient(v, p, (v / (p * q)) * q + (v % (p * q)) / p, (v % (p * q)) % p);
  }

  /** An integer literal keeps its number modulo the range of its directive. */
  lemma LiteralDenotes(d: DataDirective, k: Kind)
    requires d in {DWord, Word, HalfWord, Byte} && Takes(d, k)
    ensures
      var range := if d == DWord then TWO64 else if d == Word then TWO32 else if d == HalfWord then 0x1_0000 else 0x100;
      U64(Bits(LiteralsOf(d, k)[0])) == k.v % range
  {
    hide U32, U64, MaskedBy, LowOnes, Bits64, Low32, Widen, Complement, Under, Others;
    var w := Bits64(k.v);
    Bits64Value(k.v);
    LowParts(w);
    match d
    case DWord =>
    case Word =>
      LowWordValue(w);
      WidenedComplement(Low32(w));
      SmallerModulus(k.v, TWO32, TWO32);
    case HalfWord =>
      MaskedValue(w, 0xFFFF);
      SmallerModulus(k.v, 0x1_0000, 0x1_0000_0000_0000);
    case Byte =>
      MaskedValue(w, 0xFF);
      SmallerModulus(k.v, 0x100, 0x100_0000_0000_0000);
  }

  /** It takes the bytes its range needs, and is aligned to as many. */
  lemma LiteralTakes(d: DataDirective, k: Kind)
    requires d in {DWord, Word, HalfWord, Byte} && Takes(d, k)
    ensures
      var bytes := if d == DWord then 8 else if d == Word then 4 else if d == HalfWord then 2 else 1;
      |LiteralsOf(d, k)| == 1 && Size(LiteralsOf(d, k)[0]) == bytes && AlignmentOf(d) == bytes
  {
    hide Bits64, Low32;
  }

  /** zero stands for as many zero bytes as it says, and a string for its bytes and a zero. */
  lemma OtherLiterals(k: Kind)
    ensures k.Num? && 0 <= k.v < TWO64 ==>
      |LiteralsOf(Zero, k)| == k.v && forall i :: 0 <= i < k.v ==> LiteralsOf(Zero, k)[i] == ByteItem(0)
    ensures k.Str? && (exists text :: k.raw == Escape(text)) ==>
      exists text :: k.raw == Escape(text) && LiteralsOf(Text, k) == [TextItem(text + [0])]
    ensures k.FloatNum? ==> Bits(LiteralsOf(Double, k)[0]) == k.doubleBits && Size(LiteralsOf(Double, k)[0]) == 8
    ensures k.FloatNum? ==> Bits(LiteralsOf(Float, k)[0]) == k.floatBits as bv64 && Size(LiteralsOf(Float, k)[0]) == 4
  {
    if k.Str? && (exists text :: k.raw == Escape(text)) {
      var text :| k.raw == Escape(text);
      UnescapeEscape(text);
    }
  }

  lemma {:induction false} EndOfPrefix(a: seq<DataItem>, b: seq<DataItem>, k: nat)
    requires k <= |a|
    ensures End(a + b, k) == End(a, k)
    ensures k < |a| ==> Start(a + b, k) == Start(a, k)
  {
    if k > 0 { EndOfPrefix(a, b, k - 1); }
  }

  lemma AlignTwice(offset: nat, a: nat)
    requires a > 0
    ensures AlignUp(AlignUp(offset, a), a) == AlignUp(offset, a)
  {
    AlignedIsMultiple(offset, a);
  }
}
