/** From tokens to memory: what assembling and loading together guarantee. */
module EndToEnd {
  import opened Words
  import opened FlatMemory
  import opened Memory
  import opened DecimalText
  import opened CodeGenerator
  import opened VmBase
  import opened DataSection
  import opened Tokens
  import opened ParserData
  import opened DataLayout
  import opened DataPlaces
  import opened DataItems
  import opened TextMeaning
  import opened TextPlaces
  import opened Emission
  import opened ParserUnits
  import opened Parser
  import opened Loader

  /** The word at address 4 * i, read by the immediate generator, leads from there to the address. */
  ghost predicate LeadsTo(f: Flat, i: nat, address: nat) {
    4 * i + Signed32(ImmGenerator(Low32(Loaded(f, 4 * i, 4)))) == address
  }

  /** The unit's word is in memory, at four times its index. */
  ghost predicate UnitInPlace(f: Flat, unit: ICUnit, i: nat) {
    GenerateUnit(unit) == Ok(Low32(Loaded(f, 4 * i, 4)))
  }

  ghost predicate CodeInPlace(f: Flat, text: Text) {
    forall i :: 0 <= i < |text.units| ==> UnitInPlace(f, UnitOf(text, i), i)
  }

  /** Word n is that of the first unit of the line at token q. */
  ghost predicate StartsLine(f: Flat, cfg: Setting, tokens: seq<Token>, text: Text, q: nat, n: nat)
    requires IsCodeLine(tokens, q)
  {
    var us := LineUnits(cfg, tokens, q, tokens[q].kind.mnemonic, text.symbols, n);
    us.Some? && us.value != [] && UnitInPlace(f, Resolved(us.value[0], n, text.symbols), n)
  }

  /** Word j leads behind the label at token i: to the address that counting gives, where the first line
      behind the label starts. */
  ghost predicate LeadsBehind(f: Flat, cfg: Setting, tokens: seq<Token>, text: Text, j: nat, i: nat)
    requires i <= |tokens|
  {
    && LeadsTo(f, j, 4 * SizeBefore(tokens, i))
    && forall q: nat :: FirstBehind(tokens, i, q) ==> StartsLine(f, cfg, tokens, text, q, SizeBefore(tokens, i))
  }

  /** Every branch and jump that names a code label leads to the first line behind the label. */
  ghost predicate BranchesLead(f: Flat, cfg: Setting, tokens: seq<Token>, text: Text) {
    forall j :: 0 <= j < |text.units| && NeedsLabel(text.units[j])
                && KnowsCodeLabel(text.symbols, text.units[j].target) ==>
      exists i :: 0 <= i < |tokens| && IsCodeLabel(tokens, i) && tokens[i].value == text.units[j].target
                  && LeadsBehind(f, cfg, tokens, text, j, i)
  }

  ghost predicate DataInPlace(f: Flat, base: nat, data: seq<DataItem>) {
    forall k :: 0 <= k < |data| ==> Holds(f, base + Start(data, k), data[k])
  }

  /** Every data label that names a literal is its address, from the start of the data section. */
  ghost predicate LabelsHold(f: Flat, base: nat, data: Data, symbols: Symbols) {
    forall l :: l in data.names ==>
      && l in symbols && symbols[l].isData
      && (data.names[l] < |data.items| ==> Holds(f, base + symbols[l].address, data.items[data.names[l]]))
  }

  function Units(code: seq<Entry>): (units: seq<ICUnit>)
    ensures |units| == |code| && forall i :: 0 <= i < |code| ==> units[i] == code[i].unit
  {
    seq(|code|, i requires 0 <= i < |code| => code[i].unit)
  }

  lemma SmallModulus(x: int)
    requires 0 <= x < TWO32
    ensures x % TWO32 == x
  {
  }

  lemma DoubleIsEven(k: int)
    ensures (2 * k) % 2 == 0
  {
  }

  lemma OffsetIsExact(address: nat, i: nat)
    requires 4 * i < TWO32 && address % 4 == 0
    ensures Offset(address, i) == address - 4 * i && Offset(address, i) % 2 == 0
  {
    SmallModulus(4 * i);
    DoubleIsEven(2 * (address / 4 - i));
  }

  lemma LinkedLeads(f: Flat, u: ICUnit, i: nat, symbols: Symbols, w: bv32)
    requires Linked(u, i, symbols) && symbols[u.target].address % 4 == 0 && 4 * i < TWO32
    requires GenerateUnit(u) == Ok(w) && Loaded(f, 4 * i, 4) == Widen(w)
    ensures LeadsTo(f, i, symbols[u.target].address)
  {
    OffsetIsExact(symbols[u.target].address, i);
    hide Linked, Offset, GenerateUnit, Loaded, ImmGenerator, Low32, Widen, Signed32;
    TargetKnown(u, i, symbols);
    LinkedWord(u, i, symbols);
    LowOfWidened(w);
  }

  lemma TargetKnown(u: ICUnit, i: nat, symbols: Symbols)
    requires Linked(u, i, symbols)
    ensures u.target in symbols
  {
  }

  /** The words are those of the program's units. */
  ghost predicate WordsOf(words: seq<bv32>, text: Text) {
    |words| == |text.units| && forall i :: 0 <= i < |words| ==> GenerateUnit(UnitOf(text, i)) == Ok(words[i])
  }

  lemma LoadedLeads(f: Flat, text: Text, words: seq<bv32>, base: nat, data: seq<DataItem>, j: nat)
    requires WordsOf(words, text) && 4 * |words| <= base && 4 * |words| < TWO32 && Sound(text) && Linkable(text)
    requires j < |text.units| && NeedsLabel(text.units[j]) && KnowsCodeLabel(text.symbols, text.units[j].target)
    ensures LeadsTo(Image(f, words, base, data), j, text.symbols[text.units[j].target].address)
  {
    hide GenerateUnit, Image, LeadsTo, CanFill, NamesLabel, ToString, Ready;
    var u := text.units[j];
    assert Usable(u);
    ResolvedIsLinked(u, j, text.symbols);
    TextReadsBack(f, words, base, data, j);
    hide Linked;
    LinkedLeads(Image(f, words, base, data), UnitOf(text, j), j, text.symbols, words[j]);
  }

  lemma LineStarts(f: Flat, cfg: Setting, tokens: seq<Token>, text: Text, i: nat, q: nat)
    requires Described(cfg, tokens, text) && CodeInPlace(f, text)
    requires IsCodeLabel(tokens, i) && FirstBehind(tokens, i, q)
    ensures StartsLine(f, cfg, tokens, text, q, SizeBefore(tokens, i))
  {
    hide Described, UnitInPlace, LineUnits, SizeBefore, InCode;
    LabelNamesLine(cfg, tokens, text, i, q);
    assert UnitInPlace(f, UnitOf(text, SizeBefore(tokens, i)), SizeBefore(tokens, i));
  }

  lemma LoadedLeadsBehind(f: Flat, cfg: Setting, tokens: seq<Token>, text: Text, j: nat)
    requires Described(cfg, tokens, text) && CodeInPlace(f, text) && 4 * |text.units| < TWO32
    requires j < |text.units| && KnowsCodeLabel(text.symbols, text.units[j].target)
    requires LeadsTo(f, j, text.symbols[text.units[j].target].address)
    ensures exists i :: 0 <= i < |tokens| && IsCodeLabel(tokens, i) && tokens[i].value == text.units[j].target
                        && LeadsBehind(f, cfg, tokens, text, j, i)
  {
    hide LeadsTo, CodeInPlace, StartsLine, SizeBefore, LinePlaced, InCode;
    assert FromCode(tokens, text.units[j].target);
    var i: nat :| i < |tokens| && IsCodeLabel(tokens, i) && tokens[i].value == text.units[j].target;
    assert LabelPlaced(tokens, i, text.symbols);
    SizeGrows(tokens, i, |tokens|);
    SmallModulus(4 * SizeBefore(tokens, i));
    forall q: nat | FirstBehind(tokens, i, q)
      ensures StartsLine(f, cfg, tokens, text, q, SizeBefore(tokens, i))
    {
      LineStarts(f, cfg, tokens, text, i, q);
    }
    assert LeadsBehind(f, cfg, tokens, text, j, i);
  }

  lemma LoadedBranchesLead(f: Flat, cfg: Setting, tokens: seq<Token>, words: seq<bv32>, base: nat, data: seq<DataItem>)
    requires
      var text := TextOf(cfg, tokens);
      WordsOf(words, text) && text.ok && Sound(text) && Linkable(text)
    requires 4 * |words| <= base && 4 * |words| < TWO32
    ensures BranchesLead(Image(f, words, base, data), cfg, tokens, TextOf(cfg, tokens))
  {
    hide Image, LeadsTo, TextOf, Sound, Linkable, GenerateUnit, Described, CodeInPlace, DataInPlace, LeadsBehind,
         IsCodeLabel;
    var text, loaded := TextOf(cfg, tokens), Image(f, words, base, data);
    TextIsDescribed(cfg, tokens);
    LoadedInPlace(f, text, words, base, data);
    forall j | 0 <= j < |text.units| && NeedsLabel(text.units[j]) && KnowsCodeLabel(text.symbols, text.units[j].target)
      ensures exists i :: 0 <= i < |tokens| && IsCodeLabel(tokens, i) && tokens[i].value == text.units[j].target
                          && LeadsBehind(loaded, cfg, tokens, text, j, i)
    {
      LoadedLeads(f, text, words, base, data, j);
      LoadedLeadsBehind(loaded, cfg, tokens, text, j);
    }
  }

  lemma LoadedInPlace(f: Flat, text: Text, words: seq<bv32>, base: nat, data: seq<DataItem>)
    requires WordsOf(words, text) && 4 * |words| <= base
    ensures CodeInPlace(Image(f, words, base, data), text) && DataInPlace(Image(f, words, base, data), base, data)
  {
    hide Image, Holds, GenerateUnit, Low32, Loaded, Widen, UnitOf;
    forall i | 0 <= i < |words|
      ensures UnitInPlace(Image(f, words, base, data), UnitOf(text, i), i)
    {
      TextReadsBack(f, words, base, data, i);
      LowOfWidened(words[i]);
    }
    forall k | 0 <= k < |data|
      ensures Holds(Image(f, words, base, data), base + Start(data, k), data[k])
    {
      DataReadsBack(f, words, base, data, k);
    }
  }

  lemma LoadedLabelsHold(f: Flat, symbols: Symbols, words: seq<bv32>, base: nat, data: Data)
    requires Named(data) && LabelsPlaced(data) && forall l :: l in data.symbols ==>
      l in symbols && symbols[l] == data.symbols[l]
    ensures LabelsHold(Image(f, words, base, data.items), base, data, symbols)
  {
    hide Image, Holds;
    forall l | l in data.names && data.names[l] < |data.items|
      ensures Holds(Image(f, words, base, data.items), base + symbols[l].address, data.items[data.names[l]])
    {
      DataReadsBack(f, words, base, data.items, data.names[l]);
    }
  }

  /** The units of a program that assembles can all be encoded. */
  lemma UnitsEncode(text: Text, j: nat)
    requires Sound(text) && Linkable(text) && j < |text.units|
    ensures GenerateUnit(UnitOf(text, j)).Ok?
  {
    hide GenerateUnit, CanFill, NamesLabel, ToString;
    var u := text.units[j];
    assert Usable(u);
    if NeedsLabel(u) {
      ResolvedIsLinked(u, j, text.symbols);
      hide Linked;
      LinkedReady(UnitOf(text, j), j, text.symbols);
    }
  }

  lemma EmptyIsSound(symbols: Symbols)
    requires forall l :: l in symbols ==> symbols[l].isData
    ensures Sound(Text.Text([], symbols, true))
  {
  }

  /** What the tokens say of the whole program. */
  lemma ProgramIsSound(cfg: Setting, tokens: seq<Token>)
    requires RegistersExist(tokens)
    ensures Named(DataOf(tokens)) && Sound(TextOf(cfg, tokens))
    ensures forall l :: l in DataOf(tokens).symbols ==>
      l in TextOf(cfg, tokens).symbols && TextOf(cfg, tokens).symbols[l] == DataOf(tokens).symbols[l]
  {
    hide DataFrom, TextFrom, RegistersExist, Sound;
    NamesAreKnown(tokens, 0, Outside, NO_DATA);
    EmptyIsSound(DataOf(tokens).symbols);
    TextIsSound(cfg, tokens, 0, Main, Text.Text([], DataOf(tokens).symbols, true));
    TextExtends(cfg, tokens, 0, Main, Text.Text([], DataOf(tokens).symbols, true));
  }

  lemma FitsInside(base: nat, data: seq<DataItem>, size: nat)
    requires DataFits(base, data, size)
    ensures End(data, |data|) < TWO32
  {
  }

  /** Assembling and loading. Parsing ends exactly if the program is quiet, without errors exactly if it
      assembles, and the code generator then accepts every unit. A program that fits is in memory
      afterwards: with its text below its data, the word of each unit and each literal is in its place,
      every branch leads to its label, and, if the counters of parser and loader meet, every data label
      names its literal. */
  method AssembleAndLoad(p: Parser, m: Memory) returns (ends: bool, loaded: bool, words: seq<bv32>)
    requires p.Fresh() && RegistersExist(p.tokens) && m.Valid() && IsAddress(p.setting.dataStart)
    modifies p, m
    ensures m.Valid()
    ensures ends <==> Quiet(p.tokens, 0)
    ensures ends ==> (p.errorCount == 0 <==> Assembles(p.setting, p.tokens))
    ensures
      var text := TextOf(p.setting, p.tokens);
      ends && p.errorCount == 0 ==> WordsOf(words, text) && Described(p.setting, p.tokens, text)
    ensures
      var data, n := DataOf(p.tokens), |p.tokens|;
      data.items == ItemsBefore(p.tokens, n) && data.names == NamesBefore(p.tokens, n)
    ensures
      var data, text, base := DataOf(p.tokens), TextOf(p.setting, p.tokens), p.setting.dataStart;
      && ends && p.errorCount == 0
      && ProgramFits(words, base, data.items, m.memorySize) && 4 * |words| <= base
      ==>
      && loaded
      && m.contents == Image(old(m.contents), words, base, data.items)
      && CodeInPlace(m.contents, text)
      && DataInPlace(m.contents, base, data.items)
      && BranchesLead(m.contents, p.setting, p.tokens, text)
      && (CountersMeet(p.tokens) ==> LabelsHold(m.contents, base, data, text.symbols))
  {
    hide GenerateUnit, BranchesLead, CodeInPlace, DataInPlace, LabelsHold, LabelsPlaced, Image, DataFits, DataOf,
         TextOf, Sound, Linkable, Named, UnitOf, CountersMeet, Quiet, Described, ItemsBefore, NamesBefore;
    loaded, words := false, [];
    DataIsDescribed(p.tokens);
    ends := p.Parse();
    if !ends || p.errorCount != 0 { return; }
    ghost var data, text := DataOf(p.tokens), TextOf(p.setting, p.tokens);
    var base := p.setting.dataStart;
    ProgramIsSound(p.setting, p.tokens);
    TextIsDescribed(p.setting, p.tokens);
    forall j | 0 <= j < |p.code|
      ensures GenerateUnit(p.code[j].unit).Ok?
    {
      UnitsEncode(text, j);
    }
    var r := GenerateMachineCode(Units(p.code));
    words := r.value;
    ghost var before := m.contents;
    loaded := LoadProgram(m, words, base, p.dataBuffer);
    if 4 * |words| <= base && 4 * |words| < TWO32 {
      LoadedBranchesLead(before, p.setting, p.tokens, words, base, data.items);
      LoadedInPlace(before, text, words, base, data.items);
    }
    PlacedExactly(p.tokens);
    if DataFits(base, data.items, m.memorySize) { FitsInside(base, data.items, m.memorySize); }
    if LabelsPlaced(data) { LoadedLabelsHold(before, text.symbols, words, base, data); }
  }
}
