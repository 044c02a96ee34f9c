/** Two programs the parser gets wrong, as it reads them. */
module ParserExamples {
  import opened Options
  import opened Words
  import opened Instructions
  import opened DataSection
  import opened Tokens
  import opened ParserData
  import opened DataLayout
  import opened DataPlaces
  import opened TextMeaning
  import opened Parser

  /** A text with a label called data, in front of a nop. */
  const SPINNING: seq<Token> :=
    [OnFirstLine(Directive, "text"), OnFirstLine(Label, "data"), OnFirstLine(Opcode(Pseudo(NOP)), "nop")]

  /** The parser never ends on it. */
  method ParseSpinning(setting: Setting) returns (ends: bool)
    ensures !ends
  {
    SpinningIsNotQuiet();
    hide Quiet;
    var p := new Parser(SPINNING, setting);
    ends := p.Parse();
  }

  lemma SpinningIsNotQuiet()
    ensures !Quiet(SPINNING, 0)
  {
    assert Spins(SPINNING[1]);
    assert !Quiet(SPINNING, 1);
  }

  // ----- a program with a misplaced label -----

  function OnFirstLine(kind: Kind, value: string): Token { Token(kind, value, 1) }

  /** A byte, a labelled double-word directive without a literal, and a labelled byte. */
  const DRIFTING: seq<Token> := [
    OnFirstLine(Directive, "data"), OnFirstLine(Directive, "byte"), OnFirstLine(Num(1), "1"), OnFirstLine(Label, "a"),
    OnFirstLine(Directive, "dword"),
    OnFirstLine(Label, "b"), OnFirstLine(Directive, "byte"), OnFirstLine(Num(2), "2")]

  lemma EnterStep(tokens: seq<Token>, i: nat, d: Data)
    requires i < |tokens| && !tokens[i].kind.Eof? && Expected(tokens[i])
    ensures DataFrom(tokens, i, Outside, d) == DataFrom(tokens, i + 1, Entered(tokens[i]), d)
  {
    assert d.(ok := d.ok && Expected(tokens[i])) == d;
  }

  lemma LabelStep(tokens: seq<Token>, i: nat, d: Data)
    requires i < |tokens| && tokens[i].kind.Label? && !EndsSection(tokens[i].value)
    ensures DataFrom(tokens, i, InData, d) == DataFrom(tokens, i + 1, InData, Labelled(d, tokens[i], Next(tokens, i)))
  {
  }

  lemma DirectiveStep(tokens: seq<Token>, i: nat, d: Data, x: DataDirective)
    requires i < |tokens| && tokens[i].kind.Directive? && DirectiveOf(tokens[i].value) == Some(x)
    ensures DataFrom(tokens, i, InData, d) ==
      DataFrom(tokens, RunEnd(tokens, i + 1, x), InData,
               Extended(d, RunItems(tokens, i + 1, x), RunOk(tokens, i + 1, x)))
  {
    SectionWords(tokens[i].value);
  }

  /** A single literal, and then no literal or comma. */
  lemma OneLiteral(tokens: seq<Token>, i: nat, d: DataDirective)
    requires i < |tokens| && Takes(d, tokens[i].kind) && LiteralsOf(d, tokens[i].kind) != []
    requires i + 1 < |tokens| ==> !Takes(d, tokens[i + 1].kind) && !tokens[i + 1].kind.Comma?
    ensures RunEnd(tokens, i, d) == i + 1 && RunItems(tokens, i, d) == LiteralsOf(d, tokens[i].kind)
    ensures RunOk(tokens, i, d)
  {
    RunStep(tokens, i, d);
    RunStops(tokens, i + 1, d);
  }

  lemma ByteLiteral(v: int)
    ensures exists b: bv8 :: LiteralsOf(Byte, Num(v)) == [ByteItem(b)]
  {
    assert LiteralsOf(Byte, Num(v)) == [ByteItem((Bits64(v) & 0xFF) as bv8)];
  }

  lemma BytesAdvance(b: bv8, index: nat)
    ensures Advance(index, [ByteItem(b)]) == index + 1 && Advance(index, []) == index
  {
    assert [ByteItem(b)][..0] == [];
  }

  lemma SecondByteStart(b: bv8, c: bv8)
    ensures Start([ByteItem(b), ByteItem(c)], 1) == 1
  {
  }

  /** The data of the program, literal by literal. */
  function DriftingData(one: bv8, two: bv8): Data {
    var t := DRIFTING;
    var first := Labelled(Extended(NO_DATA, [ByteItem(one)], true), t[3], t[4]);
    Extended(Labelled(Extended(first, [], true), t[5], t[6]), [ByteItem(two)], true)
  }

  lemma DriftingRuns(one: bv8, two: bv8)
    requires LiteralsOf(Byte, Num(1)) == [ByteItem(one)] && LiteralsOf(Byte, Num(2)) == [ByteItem(two)]
    ensures RunEnd(DRIFTING, 2, Byte) == 3 && RunItems(DRIFTING, 2, Byte) == [ByteItem(one)] && RunOk(DRIFTING, 2, Byte)
    ensures RunEnd(DRIFTING, 5, DWord) == 5 && RunItems(DRIFTING, 5, DWord) == [] && RunOk(DRIFTING, 5, DWord)
    ensures RunEnd(DRIFTING, 7, Byte) == 8 && RunItems(DRIFTING, 7, Byte) == [ByteItem(two)] && RunOk(DRIFTING, 7, Byte)
  {
    hide LiteralsOf, RunEnd, RunItems, RunOk;
    OneLiteral(DRIFTING, 2, Byte);
    RunStops(DRIFTING, 5, DWord);
    OneLiteral(DRIFTING, 7, Byte);
  }

  lemma DriftingIsRead(one: bv8, two: bv8)
    requires LiteralsOf(Byte, Num(1)) == [ByteItem(one)] && LiteralsOf(Byte, Num(2)) == [ByteItem(two)]
    ensures DataOf(DRIFTING) == DriftingData(one, two)
  {
    hide LiteralsOf, RunEnd, RunItems, RunOk, Labelled, Extended, DataFrom;
    DriftingRuns(one, two);
    var t := DRIFTING;
    EnterStep(t, 0, NO_DATA);
    var d1 := Extended(NO_DATA, [ByteItem(one)], true);
    DirectiveStep(t, 1, NO_DATA, Byte);
    var d2 := Labelled(d1, t[3], t[4]);
    LabelStep(t, 3, d1);
    DirectiveStep(t, 4, d2, DWord);
    var d3 := Extended(d2, [], true);
    LabelStep(t, 5, d3);
    DirectiveStep(t, 6, Labelled(d3, t[5], t[6]), Byte);
    AtTheEnd(t, DriftingData(one, two));
  }

  lemma AtTheEnd(tokens: seq<Token>, d: Data)
    ensures DataFrom(tokens, |tokens|, InData, d) == d
  {
  }

  lemma DriftingPlaces(one: bv8, two: bv8)
    ensures
      var data := DriftingData(one, two);
      && data.ok && data.items == [ByteItem(one), ByteItem(two)] && "b" in data.symbols
      && data.symbols["b"].address == 8
      && "b" in data.names && data.names["b"] == 1
  {
    BytesAdvance(one, 0);
    BytesAdvance(two, 8);
    assert Advance(8, []) == 8;
    hide Advance;
  }

  /** The program is laid out without an error; label b has address 8, and the loader puts the byte it
      names at offset 1. */
  lemma LabelDrifts()
    ensures
      var data := DataOf(DRIFTING);
      && data.ok && |data.items| == 2 && "b" in data.symbols && data.symbols["b"].address == 8
      && "b" in data.names && data.names["b"] == 1 && Start(data.items, 1) == 1
    ensures !CountersMeet(DRIFTING)
  {
    hide DataOf, CountersMeet, DriftingData, LiteralsOf, Start;
    ByteLiteral(1);
    ByteLiteral(2);
    var one: bv8 :| LiteralsOf(Byte, Num(1)) == [ByteItem(one)];
    var two: bv8 :| LiteralsOf(Byte, Num(2)) == [ByteItem(two)];
    DriftingIsRead(one, two);
    DriftingPlaces(one, two);
    SecondByteStart(one, two);
    PlacedExactly(DRIFTING);
  }

  lemma {:induction false} NothingButData(cfg: Setting, tokens: seq<Token>, i: nat, known: Text)
    requires forall j :: i <= j < |tokens| ==> tokens[j].value != "text"
    ensures TextFrom(cfg, tokens, i, Skipping, known) == known
    decreases |tokens| - i
  {
    if i < |tokens| && !tokens[i].kind.Eof? { NothingButData(cfg, tokens, i + 1, known); }
  }

  lemma {:induction false} NoStopIsQuiet(tokens: seq<Token>, i: nat)
    requires forall j :: i <= j < |tokens| ==> !Spins(tokens[j])
    ensures Quiet(tokens, i)
    decreases |tokens| - i
  {
    hide Spins;
    if i < |tokens| { NoStopIsQuiet(tokens, i + 1); }
  }

  lemma DataFirst(cfg: Setting, tokens: seq<Token>, known: Text)
    requires tokens != [] && IsDirective(tokens[0], "data")
    ensures TextFrom(cfg, tokens, 0, Main, known) == TextFrom(cfg, tokens, 1, Skipping, known)
  {
  }

  lemma DriftingWords()
    ensures forall j :: 0 <= j < |DRIFTING| ==> !Spins(DRIFTING[j])
    ensures forall j :: 0 <= j < |DRIFTING| ==> DRIFTING[j].value != "text"
  {
  }

  lemma DriftingAssembles(cfg: Setting)
    ensures Quiet(DRIFTING, 0) && Assembles(cfg, DRIFTING) && TextOf(cfg, DRIFTING).symbols == DataOf(DRIFTING).symbols
  {
    var t := DRIFTING;
    var known := Text.Text([], DataOf(t).symbols, true);
    DriftingWords();
    hide DataFrom, TextFrom, Quiet, Spins;
    LabelDrifts();
    NoStopIsQuiet(t, 0);
    DataFirst(cfg, t, known);
    NothingButData(cfg, t, 1, known);
  }

  /** A program without errors whose label b the parser puts at 8, while the loader will put the byte
      it names at offset 1. */
  method ParseDrifting(setting: Setting) returns (errors: nat, address: nat, offset: nat)
    ensures errors == 0 && address == 8 && offset == 1
  {
    DriftingAssembles(setting);
    LabelDrifts();
    hide DataOf, TextOf, Assembles, Quiet, Start;
    var p := new Parser(DRIFTING, setting);
    var ends := p.Parse();
    errors, address, offset := p.errorCount, p.symbols["b"].address, Start(p.dataBuffer, 1);
  }
}
