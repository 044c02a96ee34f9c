/** What the data sections of a program hold and where, read off its tokens alone: once with the
    parser's counter, once with the loader's. */
module DataLayout {
  import opened Words
  import opened DataSection
  import opened Tokens
  import opened ParserData

  // ----- sections -----

  /** Where the first pass is: Passed is text, which it skips. */
  datatype Section = Outside | Passed | InBss | InData

  predicate StopsSkipping(value: string) {
    value == "data" || value == "section" || value == "bss"
  }

  /** The word ends the section, and is read again outside. */
  predicate Leaves(section: Section, value: string) {
    match section
    case Outside => true
    case Passed => StopsSkipping(value)
    case InBss => EndsSection(value)
    case InData => EndsSection(value)
  }

  predicate IsDirective(t: Token, value: string) { t.kind.Directive? && t.value == value }

  function Entered(t: Token): Section {
    if IsDirective(t, "data") then InData
    else if IsDirective(t, "bss") then InBss
    else if IsDirective(t, "text") || t.kind.Label? || t.kind.Opcode? then Passed
    else Outside
  }

  predicate Expected(t: Token) { Entered(t) != Outside || IsDirective(t, "section") }

  /** A label or mnemonic that reads like a section name. The first pass neither skips it nor moves on. */
  predicate Spins(t: Token) { (t.kind.Label? || t.kind.Opcode?) && StopsSkipping(t.value) }

  /** No such token stands before the end, from token i on. */
  predicate Quiet(tokens: seq<Token>, i: nat)
    decreases |tokens| - i
  {
    i >= |tokens| || tokens[i].kind.Eof? || (!Spins(tokens[i]) && Quiet(tokens, i + 1))
  }

  // ----- the run of literals and commas behind a directive -----

  function RunEnd(tokens: seq<Token>, i: nat, d: DataDirective): (end: nat)
    ensures i <= end
    decreases |tokens| - i
  {
    if i < |tokens| && (Takes(d, tokens[i].kind) || tokens[i].kind.Comma?) then RunEnd(tokens, i + 1, d) else i
  }

  function RunItems(tokens: seq<Token>, i: nat, d: DataDirective): seq<DataItem>
    decreases |tokens| - i
  {
    if i < |tokens| && Takes(d, tokens[i].kind) then LiteralsOf(d, tokens[i].kind) + RunItems(tokens, i + 1, d)
    else if i < |tokens| && tokens[i].kind.Comma? then RunItems(tokens, i + 1, d)
    else []
  }

  /** No count of zero bytes in the run. */
  predicate RunOk(tokens: seq<Token>, i: nat, d: DataDirective)
    decreases |tokens| - i
  {
    if i < |tokens| && Takes(d, tokens[i].kind) then LiteralsOf(d, tokens[i].kind) != [] && RunOk(tokens, i + 1, d)
    else if i < |tokens| && tokens[i].kind.Comma? then RunOk(tokens, i + 1, d)
    else true
  }

  lemma RunStep(tokens: seq<Token>, i: nat, d: DataDirective)
    requires i < |tokens| && (Takes(d, tokens[i].kind) || tokens[i].kind.Comma?)
    ensures
      var x := if Takes(d, tokens[i].kind) then LiteralsOf(d, tokens[i].kind) else [];
      && RunEnd(tokens, i, d) == RunEnd(tokens, i + 1, d)
      && RunItems(tokens, i, d) == x + RunItems(tokens, i + 1, d)
      && (RunOk(tokens, i, d) <==> (Takes(d, tokens[i].kind) ==> x != []) && RunOk(tokens, i + 1, d))
  {
  }

  lemma RunStops(tokens: seq<Token>, i: nat, d: DataDirective)
    requires i < |tokens| ==> !Takes(d, tokens[i].kind) && !tokens[i].kind.Comma?
    ensures RunEnd(tokens, i, d) == i && RunItems(tokens, i, d) == [] && RunOk(tokens, i, d)
  {
  }

  /** A counter after these literals, aligning each. */
  function Advance(index: nat, items: seq<DataItem>): nat {
    if items == [] then index
    else
      var n := |items| - 1;
      AlignUp(Advance(index, items[..n]), Alignment(items[n])) + Size(items[n])
  }

  lemma NothingAdvances(index: nat)
    ensures Advance(index, []) == index
  {
  }

  lemma {:induction false} AdvanceFurther(index: nat, a: seq<DataItem>, b: seq<DataItem>)
    ensures Advance(Advance(index, a), b) == Advance(index, a + b)
  {
    hide AlignUp, Alignment, Size;
    if b == [] {
      assert a + b == a;
    } else {
      var n := |b| - 1;
      AdvanceFurther(index, a, b[..n]);
      assert (a + b)[..|a| + n] == a + b[..n];
    }
  }

  lemma PositiveAlignment(d: DataDirective)
    ensures AlignmentOf(d) > 0
  {
  }

  // ----- the data as the parser lays it out -----

  /** The literals, the parser's counter, the data labels, and for each label the number of the
      literal that comes next; ok if nothing is an error. */
  datatype Data = Data(items: seq<DataItem>, index: nat, symbols: Symbols, names: map<string, nat>, ok: bool)

  /** A label in front of the token next is aligned for its directive. */
  function Labelled(known: Data, l: Token, next: Token): Data {
    var d := DirectiveOf(next.value);
    var index := if d.Some? then AlignUp(known.index, AlignmentOf(d.value)) else known.index;
    Data(known.items, index, known.symbols[l.value := SymbolData(index, l.line, true)],
         known.names[l.value := |known.items|], known.ok && d.Some?)
  }

  function Extended(known: Data, run: seq<DataItem>, ok: bool): Data {
    known.(items := known.items + run, index := Advance(known.index, run), ok := known.ok && ok)
  }

  function Next(tokens: seq<Token>, i: nat): Token { if i + 1 < |tokens| then tokens[i + 1] else END }

  /** The data from token i on, behind what is known already. */
  function DataFrom(tokens: seq<Token>, i: nat, section: Section, known: Data): Data
    decreases |tokens| - i
  {
    if i >= |tokens| || tokens[i].kind.Eof? then known
    else if Leaves(section, tokens[i].value) then
      DataFrom(tokens, i + 1, Entered(tokens[i]), known.(ok := known.ok && Expected(tokens[i])))
    else if section != InData then DataFrom(tokens, i + 1, section, known)
    else if tokens[i].kind.Label? then DataFrom(tokens, i + 1, InData, Labelled(known, tokens[i], Next(tokens, i)))
    else
      match DirectiveOf(tokens[i].value)
      case Some(d) =>
        DataFrom(tokens, RunEnd(tokens, i + 1, d), InData,
                 Extended(known, RunItems(tokens, i + 1, d), RunOk(tokens, i + 1, d)))
      case None => DataFrom(tokens, i + 1, InData, known.(ok := false))
  }

  const NO_DATA := Data([], 0, map[], map[], true)

  function DataOf(tokens: seq<Token>): Data { DataFrom(tokens, 0, Outside, NO_DATA) }

  // ----- where the loader will put what the labels name -----

  /** The loader's counter, which has 32 bits, the offsets of the literals that labels name, and the labels
      whose literal is still to come. */
  datatype Load = Load(counter: nat, offsets: map<string, nat>, waiting: set<string>)

  /** The loader's counter after these literals, aligning each. */
  function Loading(counter: nat, items: seq<DataItem>): nat {
    if items == [] then counter
    else
      var n := |items| - 1;
      (AlignUp(Loading(counter, items[..n]), Alignment(items[n])) % TWO32 + Size(items[n])) % TWO32
  }

  function LoadedRun(known: Load, a: nat, run: seq<DataItem>): Load
    requires a > 0
  {
    if run == [] then known
    else
      var here := AlignUp(known.counter, a) % TWO32;
      Load(Loading(known.counter, run), known.offsets + (map l | l in known.waiting :: here), {})
  }

  function LoadFrom(tokens: seq<Token>, i: nat, section: Section, known: Load): Load
    decreases |tokens| - i
  {
    if i >= |tokens| || tokens[i].kind.Eof? then known
    else if Leaves(section, tokens[i].value) then LoadFrom(tokens, i + 1, Entered(tokens[i]), known)
    else if section != InData then LoadFrom(tokens, i + 1, section, known)
    else if tokens[i].kind.Label? then
      var l := tokens[i].value;
      LoadFrom(tokens, i + 1, InData, known.(offsets := known.offsets - {l}, waiting := known.waiting + {l}))
    else
      match DirectiveOf(tokens[i].value)
      case Some(d) =>
        LoadFrom(tokens, RunEnd(tokens, i + 1, d), InData, LoadedRun(known, AlignmentOf(d), RunItems(tokens, i + 1, d)))
      case None => LoadFrom(tokens, i + 1, InData, known)
  }

  const NO_LOAD := Load(0, map[], {})

  /** The parser's address of every label is the loader's offset of the literal it names. */
  ghost predicate CountersMeet(tokens: seq<Token>) {
    var load := LoadFrom(tokens, 0, Outside, NO_LOAD);
    forall l :: l in load.offsets ==>
      l in DataOf(tokens).symbols && DataOf(tokens).symbols[l].address == load.offsets[l]
  }

  // ----- labels and literals -----

  ghost predicate Named(d: Data) {
    && d.symbols.Keys == d.names.Keys
    && (forall l :: l in d.symbols ==> d.symbols[l].isData)
    && (forall l :: l in d.names ==> d.names[l] <= |d.items|)
  }

  lemma {:induction false} NamesAreKnown(tokens: seq<Token>, i: nat, section: Section, known: Data)
    requires Named(known)
    ensures Named(DataFrom(tokens, i, section, known))
    decreases |tokens| - i
  {
    hide Entered, Leaves, Expected, RunItems, RunOk, AlignUp, AlignmentOf, Advance;
    if i >= |tokens| || tokens[i].kind.Eof? {
    } else if Leaves(section, tokens[i].value) {
      NamesAreKnown(tokens, i + 1, Entered(tokens[i]), known.(ok := known.ok && Expected(tokens[i])));
    } else if section != InData {
      NamesAreKnown(tokens, i + 1, section, known);
    } else if tokens[i].kind.Label? {
      NamesAreKnown(tokens, i + 1, InData, Labelled(known, tokens[i], Next(tokens, i)));
    } else {
      match DirectiveOf(tokens[i].value)
      case Some(d) =>
        NamesAreKnown(tokens, RunEnd(tokens, i + 1, d), InData,
                      Extended(known, RunItems(tokens, i + 1, d), RunOk(tokens, i + 1, d)));
      case None =>
        NamesAreKnown(tokens, i + 1, InData, known.(ok := false));
    }
  }

  /** Every label that names a literal has the offset the loader gives that literal. */
  ghost predicate LabelsPlaced(d: Data) {
    forall l :: l in d.names && l in d.symbols && d.names[l] < |d.items| ==>
      d.symbols[l].address == Start(d.items, d.names[l])
  }

  /** Every label that names a literal has the offset at which the loader's 32-bit counter arrives there. */
  ghost predicate LabelsFound(d: Data) {
    forall l :: l in d.names && l in d.symbols && d.names[l] < |d.items| ==>
      d.symbols[l].address == Start(d.items, d.names[l]) % TWO32
  }

  /** Every label names a literal. */
  ghost predicate LabelsName(d: Data) {
    forall l :: l in d.names ==> d.names[l] < |d.items|
  }
}
