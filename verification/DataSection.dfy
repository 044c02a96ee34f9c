/** Data literals and where they lie in the data section. */
module DataSection {
  import opened Arithmetic
  import opened FlatMemory

  /** A literal of the data buffer; floating-point literals are their bit patterns, and a string
      is the bytes it takes, terminator included. */
  datatype DataItem =
    | ByteItem(b: bv8)
    | HalfItem(h: bv16)
    | WordItem(w: bv32)
    | DoubleItem(d: bv64)
    | FloatItem(floatBits: bv32)
    | DoubleFloatItem(doubleBits: bv64)
    | TextItem(bytes: seq<bv8>)

  function Alignment(x: DataItem): nat {
    match x
    case ByteItem(_) => 1
    case HalfItem(_) => 2
    case WordItem(_) => 4
    case DoubleItem(_) => 8
    case FloatItem(_) => 4
    case DoubleFloatItem(_) => 8
    case TextItem(_) => 1
  }

  function Size(x: DataItem): nat {
    if x.TextItem? then |x.bytes| else Alignment(x)
  }

  /** The next offset divisible by a. */
  function AlignUp(offset: nat, a: nat): nat
    requires a > 0
  {
    if offset % a != 0 then offset + (a - offset % a) else offset
  }

  // Where the first k literals end, and where literal k starts.

  function End(items: seq<DataItem>, k: nat): nat
    requires k <= |items|
    decreases k, 0
  {
    if k == 0 then 0 else Start(items, k - 1) + Size(items[k - 1])
  }

  function Start(items: seq<DataItem>, k: nat): nat
    requires k < |items|
    decreases k, 1
  {
    AlignUp(End(items, k), Alignment(items[k]))
  }

  lemma AlignedIsMultiple(offset: nat, a: nat)
    requires a > 0
    ensures offset <= AlignUp(offset, a) && AlignUp(offset, a) % a == 0
  {
    var q, r := offset / a, offset % a;
    DivMod(offset, a);
    if r != 0 {
      assert offset + (a - r) == (q + 1) * a + 0;
      UniqueQuotient(offset + (a - r), a, q + 1, 0);
    }
  }

  /** AlignUp is the least multiple of a at or after the offset. */
  lemma AlignedIsLeast(offset: nat, a: nat, o: nat)
    requires a > 0 && offset <= o && o % a == 0
    ensures AlignUp(offset, a) <= o
  {
    var q, p := offset / a, o / a;
    DivMod(offset, a);
    DivMod(o, a);
    if p <= q { NonNegativeProduct(q - p, a); } else { NonNegativeProduct(p - q - 1, a); }
  }

  /** The numeric value of a literal that is not a string. */
  function Bits(x: DataItem): bv64
    requires !x.TextItem?
  {
    match x
    case ByteItem(b) => b as bv64
    case HalfItem(h) => h as bv64
    case WordItem(w) => w as bv64
    case DoubleItem(d) => d
    case FloatItem(f) => f as bv64
    case DoubleFloatItem(d) => d
  }

  function StoredText(f: Flat, a: int, bytes: seq<bv8>, n: nat): Flat
    requires n <= |bytes|
  {
    if n == 0 then f else StoredText(f, a, bytes, n - 1)[a + n - 1 := bytes[n - 1]]
  }

  function StoredItem(f: Flat, a: int, x: DataItem): Flat {
    if x.TextItem? then StoredText(f, a, x.bytes, |x.bytes|) else Stored(f, a, Bits(x), Size(x))
  }

  /** Reading memory at a gives literal x back. */
  ghost predicate Holds(f: Flat, a: int, x: DataItem) {
    if x.TextItem? then forall i :: 0 <= i < |x.bytes| ==> ByteAt(f, a + i) == x.bytes[i]
    else Loaded(f, a, Size(x)) == Bits(x)
  }

  lemma {:induction false} StoredTextBytes(f: Flat, a: int, bytes: seq<bv8>, n: nat, b: int)
    requires n <= |bytes|
    ensures ByteAt(StoredText(f, a, bytes, n), b) == if a <= b < a + n then bytes[b - a] else ByteAt(f, b)
  {
    if n > 0 { StoredTextBytes(f, a, bytes, n - 1, b); }
  }

  /** A literal changes only its own bytes. */
  lemma StoredItemElsewhere(f: Flat, a: int, x: DataItem, b: int)
    requires !(a <= b < a + Size(x))
    ensures ByteAt(StoredItem(f, a, x), b) == ByteAt(f, b)
  {
    hide ByteAt, Bits;
    if x.TextItem? { StoredTextBytes(f, a, x.bytes, |x.bytes|, b); } else { StoredBytes(f, a, Bits(x), Size(x), b); }
  }

  lemma ByteFits(b: bv8)
    ensures Trim(b as bv64, 1) == b as bv64
  {
  }

  lemma HalfFits(h: bv16)
    ensures Trim(h as bv64, 2) == h as bv64
  {
  }

  lemma WordFits(w: bv32)
    ensures Trim(w as bv64, 4) == w as bv64
  {
  }

  lemma DoubleFits(d: bv64)
    ensures Trim(d, 8) == d
  {
  }

  lemma BitsFit(x: DataItem)
    requires !x.TextItem?
    ensures Trim(Bits(x), Size(x)) == Bits(x)
  {
    hide Trim;
    match x
    case ByteItem(b) => ByteFits(b);
    case HalfItem(h) => HalfFits(h);
    case WordItem(w) => WordFits(w);
    case DoubleItem(d) => DoubleFits(d);
    case FloatItem(f) => WordFits(f);
    case DoubleFloatItem(d) => DoubleFits(d);
  }

  lemma StoredItemHolds(f: Flat, a: int, x: DataItem)
    ensures Holds(StoredItem(f, a, x), a, x)
  {
    hide ByteAt, Bits, Trim;
    if x.TextItem? {
      forall i | 0 <= i < |x.bytes|
        ensures ByteAt(StoredItem(f, a, x), a + i) == x.bytes[i]
      {
        StoredTextBytes(f, a, x.bytes, |x.bytes|, a + i);
      }
    } else {
      LoadAfterStore(f, a, Bits(x), Size(x));
      BitsFit(x);
    }
  }

  lemma HoldsDepends(f: Flat, g: Flat, a: int, x: DataItem)
    requires Holds(f, a, x) && forall b :: a <= b < a + Size(x) ==> ByteAt(g, b) == ByteAt(f, b)
    ensures Holds(g, a, x)
  {
    hide ByteAt, Bits;
    if !x.TextItem? { LoadedDepends(f, g, a, Size(x)); }
  }
}
