/** Loading an assembled program: text from address 0, data from the data section on. */
module Loader {
  import opened Words
  import opened FlatMemory
  import opened DataSection
  import opened Memory

  function TextImage(f: Flat, text: seq<bv32>, k: nat): Flat
    requires k <= |text|
  {
    if k == 0 then f else Stored(TextImage(f, text, k - 1), 4 * (k - 1), Widen(text[k - 1]), 4)
  }

  function DataImage(f: Flat, base: int, data: seq<DataItem>, k: nat): Flat
    requires k <= |data|
  {
    if k == 0 then f else StoredItem(DataImage(f, base, data, k - 1), base + Start(data, k - 1), data[k - 1])
  }

  function Image(f: Flat, text: seq<bv32>, base: int, data: seq<DataItem>): Flat {
    DataImage(TextImage(f, text, |text|), base, data, |data|)
  }

  /** The program fits the memory, and its counters fit 32 bits. */
  predicate ProgramFits(text: seq<bv32>, base: nat, data: seq<DataItem>, size: nat) {
    && 4 * |text| < TWO32 && 4 * |text| <= size
    && DataFits(base, data, size)
  }

  lemma {:induction false} EndsGrow(data: seq<DataItem>, j: nat, k: nat)
    requires j <= k <= |data|
    ensures End(data, j) <= End(data, k)
    ensures j < k ==> Start(data, j) + Size(data[j]) <= End(data, k)
  {
    if j < k {
      EndsGrow(data, j, k - 1);
      AlignedGrows(End(data, k - 1), Alignment(data[k - 1]));
    }
  }

  lemma AlignedGrows(offset: nat, a: nat)
    requires a > 0
    ensures offset <= AlignUp(offset, a) < offset + a
  {
  }

  method StoreText(m: Memory, base: nat, offset: nat, bytes: seq<bv8>) returns (ok: bool, offset': nat)
    requires m.Valid() && IsAddress(base) && offset < TWO32
    modifies m
    ensures m.Valid() && offset' < TWO32
    ensures offset + |bytes| < TWO32 && base + offset + |bytes| <= m.memorySize ==>
      && ok && offset' == offset + |bytes|
      && m.contents == StoredText(old(m.contents), base + offset, bytes, |bytes|)
  {
    hide m.Valid;
    offset' := offset;
    for i := 0 to |bytes|
      invariant m.Valid() && offset' == (offset + i) % TWO32
      invariant offset + |bytes| < TWO32 && base + offset + |bytes| <= m.memorySize ==>
        m.contents == StoredText(old(m.contents), base + offset, bytes, i)
    {
      ok := m.Write((base + offset') % TWO64, bytes[i]);
      if !ok { return; }
      offset' := (offset' + 1) % TWO32;
    }
    ok := true;
  }

  /** Writes one literal at a 32-bit offset from the base. */
  method StoreItem(m: Memory, base: nat, offset: nat, x: DataItem) returns (ok: bool, offset': nat)
    requires m.Valid() && IsAddress(base) && offset < TWO32
    modifies m
    ensures m.Valid() && offset' < TWO32
    ensures offset + Size(x) < TWO32 && base + offset + Size(x) <= m.memorySize ==>
      && ok && offset' == offset + Size(x)
      && m.contents == StoredItem(old(m.contents), base + offset, x)
  {
    hide Bits, Stored, StoredText, m.Valid;
    if x.TextItem? {
      ok, offset' := StoreText(m, base, offset, x.bytes);
    } else {
      ok := m.WriteSized((base + offset) % TWO64, Bits(x), Size(x));
      offset' := (offset + Size(x)) % TWO32;
    }
  }

  method LoadText(m: Memory, text: seq<bv32>) returns (ok: bool)
    requires m.Valid()
    modifies m
    ensures m.Valid()
    ensures 4 * |text| < TWO32 && 4 * |text| <= m.memorySize ==>
      ok && m.contents == TextImage(old(m.contents), text, |text|)
  {
    hide Widen, Stored, m.Valid;
    var counter := 0;
    for k := 0 to |text|
      invariant m.Valid() && counter == (4 * k) % TWO32
      invariant 4 * |text| < TWO32 && 4 * |text| <= m.memorySize ==> m.contents == TextImage(old(m.contents), text, k)
    {
      ok := m.WriteSized(counter, Widen(text[k]), 4);
      if !ok { return; }
      counter := (counter + 4) % TWO32;
    }
    ok := true;
  }

  predicate DataFits(base: nat, data: seq<DataItem>, size: nat) {
    End(data, |data|) < TWO32 && base + End(data, |data|) <= size
  }

  method LoadData(m: Memory, base: nat, data: seq<DataItem>) returns (ok: bool)
    requires m.Valid() && IsAddress(base)
    modifies m
    ensures m.Valid()
    ensures DataFits(base, data, m.memorySize) ==> ok && m.contents == DataImage(old(m.contents), base, data, |data|)
  {
    hide StoredItem, Alignment, AlignUp, m.Valid;
    var offset: nat := 0;
    for k := 0 to |data|
      invariant m.Valid() && offset < TWO32
      invariant DataFits(base, data, m.memorySize) ==>
        offset == End(data, k) && m.contents == DataImage(old(m.contents), base, data, k)
    {
      EndsGrow(data, k + 1, |data|);
      AlignmentIsPositive(data[k]);
      var aligned: nat := AlignUp(offset, Alignment(data[k])) % TWO32;
      ok, offset := StoreItem(m, base, aligned, data[k]);
      if !ok { return; }
    }
    ok := true;
  }

  lemma AlignmentIsPositive(x: DataItem)
    ensures Alignment(x) > 0
  {
  }

  /** A program that fits is loaded completely; one that does not may be refused half way. */
  method LoadProgram(m: Memory, text: seq<bv32>, base: nat, data: seq<DataItem>) returns (ok: bool)
    requires m.Valid() && IsAddress(base)
    modifies m
    ensures m.Valid()
    ensures ProgramFits(text, base, data, m.memorySize) ==>
      ok && m.contents == Image(old(m.contents), text, base, data)
  {
    ok := LoadText(m, text);
    if !ok { return; }
    ok := LoadData(m, base, data);
  }

  // ----- what was loaded reads back -----

  lemma WidenedFits(w: bv32)
    ensures Trim(Widen(w), 4) == Widen(w)
  {
  }

  lemma {:induction false} TextKept(f: Flat, text: seq<bv32>, i: nat, k: nat)
    requires i < k <= |text|
    ensures Loaded(TextImage(f, text, k), 4 * i, 4) == Widen(text[i])
  {
    hide Loaded, Stored, Widen, Trim;
    var g := TextImage(f, text, k - 1);
    if i == k - 1 {
      LoadAfterStore(g, 4 * i, Widen(text[i]), 4);
      WidenedFits(text[i]);
    } else {
      TextKept(f, text, i, k - 1);
      LoadElsewhere(g, 4 * (k - 1), Widen(text[k - 1]), 4, 4 * i, 4);
    }
  }

  /** The data of a program changes no byte below the data section. */
  lemma {:induction false} BelowData(f: Flat, base: int, data: seq<DataItem>, k: nat, b: int)
    requires k <= |data| && b < base
    ensures ByteAt(DataImage(f, base, data, k), b) == ByteAt(f, b)
  {
    hide ByteAt, StoredItem;
    if k > 0 {
      BelowData(f, base, data, k - 1, b);
      StoredItemElsewhere(DataImage(f, base, data, k - 1), base + Start(data, k - 1), data[k - 1], b);
    }
  }

  /** Every text word reads back from its address. */
  lemma TextReadsBack(f: Flat, text: seq<bv32>, base: int, data: seq<DataItem>, i: nat)
    requires i < |text| && 4 * |text| <= base
    ensures Loaded(Image(f, text, base, data), 4 * i, 4) == Widen(text[i])
  {
    var g := TextImage(f, text, |text|);
    TextKept(f, text, i, |text|);
    forall b | 4 * i <= b < 4 * i + 4
      ensures ByteAt(Image(f, text, base, data), b) == ByteAt(g, b)
    {
      BelowData(g, base, data, |data|, b);
    }
    hide Loaded, ByteAt, TextImage, DataImage;
    LoadedDepends(Image(f, text, base, data), g, 4 * i, 4);
  }

  lemma {:induction false} ItemKept(f: Flat, base: int, data: seq<DataItem>, i: nat, k: nat)
    requires i < k <= |data|
    ensures Holds(DataImage(f, base, data, k), base + Start(data, i), data[i])
  {
    hide Holds, StoredItem, ByteAt;
    var g := DataImage(f, base, data, k - 1);
    var a := base + Start(data, k - 1);
    if i == k - 1 {
      StoredItemHolds(g, a, data[i]);
    } else {
      ItemKept(f, base, data, i, k - 1);
      EndsGrow(data, i, k - 1);
      AlignedGrows(End(data, k - 1), Alignment(data[k - 1]));
      forall b | base + Start(data, i) <= b < base + Start(data, i) + Size(data[i])
        ensures ByteAt(StoredItem(g, a, data[k - 1]), b) == ByteAt(g, b)
      {
        StoredItemElsewhere(g, a, data[k - 1], b);
      }
      HoldsDepends(g, StoredItem(g, a, data[k - 1]), base + Start(data, i), data[i]);
    }
  }

  /** Every literal reads back from its aligned offset. */
  lemma DataReadsBack(f: Flat, text: seq<bv32>, base: int, data: seq<DataItem>, i: nat)
    requires i < |data|
    ensures Holds(Image(f, text, base, data), base + Start(data, i), data[i])
  {
    ItemKept(TextImage(f, text, |text|), base, data, i, |data|);
  }
}
