/** Where the lines and labels of a program lie: read off the tokens by counting, without the passes. */
module TextPlaces {
  import opened Options
  import opened Words
  import opened DecimalText
  import opened Instructions
  import opened Tokens
  import opened LineShapes
  import opened ParserData
  import opened DataLayout
  import opened ParserUnits
  import opened TextMeaning

  /** The part of the program a token lies in; nothing behind the end of the file is read. */
  datatype Region = Code | Elsewhere | Over

  predicate OpensData(t: Token) { t.kind.Directive? && (t.value == "data" || t.value == "bss") }

  /** The part that token i is in. */
  function RegionAt(tokens: seq<Token>, i: nat): Region
    requires i <= |tokens|
  {
    if i == 0 then Code
    else
      var t := tokens[i - 1];
      if RegionAt(tokens, i - 1) == Over || t.kind.Eof? then Over
      else if t.value == "text" then Code
      else if OpensData(t) then Elsewhere
      else RegionAt(tokens, i - 1)
  }

  /** A token with the word text is not skipped. */
  predicate InCode(tokens: seq<Token>, i: nat)
    requires i < |tokens|
  {
    RegionAt(tokens, i) == Code || (RegionAt(tokens, i) == Elsewhere && tokens[i].value == "text")
  }

  predicate IsCodeLabel(tokens: seq<Token>, i: nat) {
    i < |tokens| && tokens[i].kind.Label? && InCode(tokens, i)
  }

  predicate IsCodeLine(tokens: seq<Token>, i: nat) {
    i < |tokens| && tokens[i].kind.Opcode? && InCode(tokens, i)
  }

  /** The instructions a number takes for li, and any line for its mnemonic and operands. */
  function LiSize(imm: int): nat { if -2048 <= imm <= 2047 || imm % 4096 == 0 then 1 else 2 }

  function LineSize(s: seq<Token>, i: nat, m: Mnemonic): nat {
    match m
    case Pseudo(p) => if p == LA then 2 else if p == LI && IsNumber(s, i, 3) then LiSize(Number(s, i, 3)) else 1
    case I1(_) => if RegisterAndLabel(s, i) then 2 else 1
    case _ => 1
  }

  /** The instructions in front of token i. */
  function SizeBefore(tokens: seq<Token>, i: nat): nat
    requires i <= |tokens|
  {
    if i == 0 then 0
    else if IsCodeLine(tokens, i - 1) then
      SizeBefore(tokens, i - 1) + LineSize(tokens, i - 1, tokens[i - 1].kind.mnemonic)
    else SizeBefore(tokens, i - 1)
  }

  // ----- the operands of a line -----

  predicate IsOperand(t: Token) {
    t.kind.GpRegister? || t.kind.Comma? || t.kind.Num? || t.kind.LabelRef? || t.kind.LParen? || t.kind.RParen?
  }

  lemma {:induction false} EndsBy(s: seq<Token>, j: nat, line: nat, e: nat)
    requires j <= e && (At(s, e).kind.Eof? || At(s, e).line != line)
    ensures LineEndFrom(s, j, line) <= e
    decreases e - j
  {
    if j < e { EndsBy(s, j + 1, line, e); }
  }

  lemma {:induction false} EndsInside(s: seq<Token>, j: nat, line: nat)
    requires j <= |s|
    ensures LineEndFrom(s, j, line) <= |s|
    decreases |s| - j
  {
    if j < |s| { EndsInside(s, j + 1, line); }
  }

  /** The tokens on the line of an instruction with a right syntax are all operands. */
  predicate OperandsOnly(s: seq<Token>, i: nat, end: nat) {
    i < end <= |s| && forall k :: i < k < end ==> IsOperand(s[k])
  }

  lemma ShapeEnds(s: seq<Token>, i: nat, n: nat)
    requires i < |s| && !s[i].kind.Eof? && EndsAt(s, i, n) && n <= 7
    requires forall k: nat :: i < k < i + n ==> IsOperand(At(s, k))
    ensures OperandsOnly(s, i, LineEnd(s, i))
  {
    hide IsOperand;
    EndsBy(s, i, At(s, i).line, i + n);
    EndsInside(s, i, At(s, i).line);
    forall k | i < k < LineEnd(s, i)
      ensures IsOperand(s[k])
    {
      assert IsOperand(At(s, k));
    }
  }

  lemma SyntaxIsOperands(s: seq<Token>, i: nat, m: Mnemonic)
    requires i < |s| && !s[i].kind.Eof? && HasSyntax(s, i, m)
    ensures OperandsOnly(s, i, LineEnd(s, i))
  {
    hide OperandsOnly, LineEndFrom;
    if ThreeRegisters(s, i) || TwoRegistersAndNumber(s, i) || TwoRegistersAndLabel(s, i) {
      ShapeEnds(s, i, 6);
    } else if RegisterAndRegister(s, i) || RegisterAndNumber(s, i) || RegisterAndLabel(s, i) {
      ShapeEnds(s, i, 4);
    } else if RegisterAndBase(s, i) {
      ShapeEnds(s, i, 7);
    } else {
      ShapeEnds(s, i, 1);
    }
  }

  // ----- counting behind a token or a line -----

  lemma OperandChangesNothing(tokens: seq<Token>, k: nat)
    requires k < |tokens| && IsOperand(tokens[k]) && RegionAt(tokens, k) == Code
    ensures RegionAt(tokens, k + 1) == Code && SizeBefore(tokens, k + 1) == SizeBefore(tokens, k)
  {
  }

  lemma {:induction false} BehindOperands(tokens: seq<Token>, i: nat, end: nat)
    requires OperandsOnly(tokens, i, end) && RegionAt(tokens, i + 1) == Code
    ensures RegionAt(tokens, end) == Code && SizeBefore(tokens, end) == SizeBefore(tokens, i + 1)
    decreases end - i
  {
    hide IsOperand, SizeBefore, RegionAt;
    if i + 1 < end {
      BehindOperands(tokens, i, end - 1);
      OperandChangesNothing(tokens, end - 1);
    }
  }

  /** A line takes as many units as counted. */
  lemma LiTakes(s: seq<Token>, i: nat)
    requires RegisterAndNumber(s, i)
    ensures LiUnits(s, i).Some? ==> |LiUnits(s, i).value| == LiSize(Number(s, i, 3))
  {
    hide RegName, ToString;
  }

  lemma LineTakes(cfg: Setting, s: seq<Token>, i: nat, m: Mnemonic, symbols: Symbols, n: nat)
    ensures
      var us := LineUnits(cfg, s, i, m, symbols, n);
      us.Some? ==> HasSyntax(s, i, m) && |us.value| == LineSize(s, i, m)
  {
    hide RegName, ToString, Offset, OffsetInRange, Upper, Lower, LiUnits, LiSize, EndsAt;
    if m == Pseudo(LI) && HasSyntax(s, i, m) { LiTakes(s, i); }
  }

  // ----- the walk of the second pass -----

  /** The pass has as many units as counted. */
  predicate Counted(tokens: seq<Token>, w: Walk) {
    && w.i <= |tokens| && |w.known.units| == SizeBefore(tokens, w.i)
    && RegionAt(tokens, w.i) == (if w.place == Skipping then Elsewhere else Code)
  }

  lemma StepCounts(cfg: Setting, tokens: seq<Token>, w: Walk)
    requires Counted(tokens, w) && !AtEnd(tokens, w.i) && PassOn(cfg, tokens, w).known.ok
    ensures
      && Counted(tokens, PassOn(cfg, tokens, w)) && w.known.ok
      && OperandsOnly(tokens, w.i, PassOn(cfg, tokens, w).i)
  {
    hide LineUnits, LineSize, LineEndFrom, HasSyntax, IsOperand, IsMExtension;
    var t := tokens[w.i];
    if t.kind.Opcode? && !(w.place == Skipping && t.value != "text") {
      LineTakes(cfg, tokens, w.i, t.kind.mnemonic, w.known.symbols, |w.known.units|);
      SyntaxIsOperands(tokens, w.i, t.kind.mnemonic);
      BehindOperands(tokens, w.i, LineEnd(tokens, w.i));
    }
  }

  function Rest(cfg: Setting, tokens: seq<Token>, w: Walk): Text { TextFrom(cfg, tokens, w.i, w.place, w.known) }

  /** An error made at a step is in the result. */
  lemma StepIsRight(cfg: Setting, tokens: seq<Token>, w: Walk)
    requires Rest(cfg, tokens, w).ok && !AtEnd(tokens, w.i)
    ensures
      var next := PassOn(cfg, tokens, w);
      next.known.ok && Rest(cfg, tokens, next).ok && Rest(cfg, tokens, next) == Rest(cfg, tokens, w)
  {
    hide PassOn;
    var next := PassOn(cfg, tokens, w);
    assert !next.known.ok ==> next.known.(ok := false) == next.known;
    ErrorsRemain(cfg, tokens, next.i, next.place, next.known);
  }

  lemma {:induction false} NothingBehindEnd(tokens: seq<Token>, i: nat, j: nat)
    requires i < j <= |tokens| && tokens[i].kind.Eof?
    ensures RegionAt(tokens, j) == Over && SizeBefore(tokens, j) == SizeBefore(tokens, i)
  {
    if i + 1 < j { NothingBehindEnd(tokens, i, j - 1); }
  }

  predicate IsCodeItem(tokens: seq<Token>, j: nat) { IsCodeLabel(tokens, j) || IsCodeLine(tokens, j) }

  /** The pass comes to every label and line of the code. */
  lemma {:induction false} Reaches(cfg: Setting, tokens: seq<Token>, w: Walk, j: nat) returns (at: Walk)
    requires Counted(tokens, w) && Rest(cfg, tokens, w).ok && w.i <= j && IsCodeItem(tokens, j)
    ensures at.i == j && Counted(tokens, at) && Rest(cfg, tokens, at).ok
    ensures Rest(cfg, tokens, at) == Rest(cfg, tokens, w)
    decreases j - w.i
  {
    hide Rest, PassOn, RegionAt, SizeBefore;
    if w.i == j { return w; }
    if tokens[w.i].kind.Eof? { NothingBehindEnd(tokens, w.i, j); }
    StepIsRight(cfg, tokens, w);
    StepCounts(cfg, tokens, w);
    at := Reaches(cfg, tokens, PassOn(cfg, tokens, w), j);
  }

  /** A label is the address of what is counted in front of it. */
  predicate LabelPlaced(tokens: seq<Token>, j: nat, symbols: Symbols)
    requires j <= |tokens|
  {
    IsCodeLabel(tokens, j) ==>
      && tokens[j].value in symbols
      && symbols[tokens[j].value] == SymbolData((4 * SizeBefore(tokens, j)) % TWO32, tokens[j].line, false)
  }

  lemma LabelIsPlaced(cfg: Setting, tokens: seq<Token>, w: Walk, j: nat)
    requires Counted(tokens, w) && Rest(cfg, tokens, w).ok && w.i <= j && IsCodeLabel(tokens, j)
    ensures LabelPlaced(tokens, j, Rest(cfg, tokens, w).symbols)
  {
    hide SizeBefore, TextFrom;
    var at := Reaches(cfg, tokens, w, j);
    StepIsRight(cfg, tokens, at);
    var next := PassOn(cfg, tokens, at);
    TextExtends(cfg, tokens, next.i, next.place, next.known);
  }

  /** The units of a line, which come behind what is counted in front of it. */
  predicate LinePlaced(cfg: Setting, tokens: seq<Token>, j: nat, text: Text)
    requires j < |tokens|
  {
    IsCodeLine(tokens, j) ==>
      var m, n := tokens[j].kind.mnemonic, SizeBefore(tokens, j);
      && (IsMExtension(m) ==> cfg.mExtension)
      && n + LineSize(tokens, j, m) <= |text.units|
      && LineUnits(cfg, tokens, j, m, text.symbols, n) == Some(text.units[n..n + LineSize(tokens, j, m)])
  }

  lemma LaterUnits(cfg: Setting, s: seq<Token>, i: nat, m: Mnemonic, symbols: Symbols, later: Symbols, n: nat)
    requires LineUnits(cfg, s, i, m, symbols, n).Some? && KeepsSymbols(symbols, later)
    requires
      var us := LineUnits(cfg, s, i, m, symbols, n).value;
      forall k :: 0 <= k < |us| && NeedsLabel(us[k]) ==> CanFill(us[k], n + k, later)
    ensures LineUnits(cfg, s, i, m, later, n) == LineUnits(cfg, s, i, m, symbols, n)
  {
    hide RegName, ToString, Offset, OffsetInRange, Upper, Lower, LiUnits, EndsAt;
    var us := LineUnits(cfg, s, i, m, symbols, n).value;
    if |us| > 0 && NeedsLabel(us[0]) { assert CanFill(us[0], n + 0, later); }
  }

  lemma LineIsPlaced(cfg: Setting, tokens: seq<Token>, w: Walk, j: nat)
    requires Counted(tokens, w) && Rest(cfg, tokens, w).ok && w.i <= j && IsCodeLine(tokens, j)
    requires Linkable(Rest(cfg, tokens, w))
    ensures LinePlaced(cfg, tokens, j, Rest(cfg, tokens, w))
  {
    hide SizeBefore, TextFrom, LineUnits, LineSize, CanFill, IsMExtension;
    var at := Reaches(cfg, tokens, w, j);
    StepIsRight(cfg, tokens, at);
    var next, text := PassOn(cfg, tokens, at), Rest(cfg, tokens, w);
    TextExtends(cfg, tokens, next.i, next.place, next.known);
    var m, n := tokens[j].kind.mnemonic, SizeBefore(tokens, j);
    LineTakes(cfg, tokens, j, m, at.known.symbols, n);
    var us := LineUnits(cfg, tokens, j, m, at.known.symbols, n).value;
    assert next.known.units == at.known.units + us;
    forall k | 0 <= k < |us|
      ensures us[k] == text.units[n + k]
    {
      assert next.known.units[n + k] == us[k];
    }
    LaterUnits(cfg, tokens, j, m, at.known.symbols, text.symbols, n);
    assert us == text.units[n..n + |us|];
  }

  /** There are no other units and no other labels. */
  predicate FromCode(tokens: seq<Token>, l: string) {
    exists j :: 0 <= j < |tokens| && IsCodeLabel(tokens, j) && tokens[j].value == l
  }

  predicate Complete(tokens: seq<Token>, known: Symbols, text: Text) {
    && |text.units| == SizeBefore(tokens, |tokens|)
    && forall l :: l in text.symbols ==> l in known || FromCode(tokens, l)
  }

  lemma StepLabels(cfg: Setting, tokens: seq<Token>, w: Walk)
    requires Counted(tokens, w) && !AtEnd(tokens, w.i)
    ensures forall l :: l in PassOn(cfg, tokens, w).known.symbols ==> l in w.known.symbols || FromCode(tokens, l)
  {
    hide LineUnits, LineEnd, IsMExtension, SizeBefore, RegionAt;
    if tokens[w.i].kind.Label? && !(w.place == Skipping && tokens[w.i].value != "text") {
      assert IsCodeLabel(tokens, w.i);
    }
  }

  lemma {:induction false} TextIsComplete(cfg: Setting, tokens: seq<Token>, w: Walk)
    requires Counted(tokens, w) && Rest(cfg, tokens, w).ok
    ensures Complete(tokens, w.known.symbols, Rest(cfg, tokens, w))
    decreases |tokens| - w.i
  {
    hide PassOn, RegionAt, SizeBefore, FromCode;
    if AtEnd(tokens, w.i) {
      if w.i < |tokens| { NothingBehindEnd(tokens, w.i, |tokens|); }
    } else {
      StepIsRight(cfg, tokens, w);
      StepCounts(cfg, tokens, w);
      StepLabels(cfg, tokens, w);
      TextIsComplete(cfg, tokens, PassOn(cfg, tokens, w));
    }
  }

  /** A program that assembles is the one its tokens describe: every line of the code is there as the units
      it stands for, behind as many as are counted in front of it; every label of the code is the address
      of the next line; and there are no other units and no other code labels. */
  ghost predicate Described(cfg: Setting, tokens: seq<Token>, text: Text) {
    && (forall j: nat :: j < |tokens| ==> LinePlaced(cfg, tokens, j, text))
    && (forall j: nat :: j < |tokens| ==> LabelPlaced(tokens, j, text.symbols))
    && |text.units| == SizeBefore(tokens, |tokens|)
    && forall l :: l in text.symbols && !text.symbols[l].isData ==> FromCode(tokens, l)
  }

  lemma TextIsDescribed(cfg: Setting, tokens: seq<Token>)
    requires TextOf(cfg, tokens).ok && Linkable(TextOf(cfg, tokens))
    ensures Described(cfg, tokens, TextOf(cfg, tokens))
  {
    NamesAreKnown(tokens, 0, Outside, NO_DATA);
    hide TextFrom, DataFrom, Linkable, LinePlaced, LabelPlaced, FromCode, RegionAt, SizeBefore;
    var text := TextOf(cfg, tokens);
    var start := Walk(0, Main, Text.Text([], DataOf(tokens).symbols, true));
    StartIsCounted(tokens, DataOf(tokens).symbols);
    forall j: nat | j < |tokens|
      ensures LinePlaced(cfg, tokens, j, text) && LabelPlaced(tokens, j, text.symbols)
    {
      Places(cfg, tokens, start, j);
    }
    TextIsComplete(cfg, tokens, start);
    TextExtends(cfg, tokens, 0, Main, start.known);
  }

  lemma StartIsCounted(tokens: seq<Token>, symbols: Symbols)
    ensures Counted(tokens, Walk(0, Main, Text.Text([], symbols, true)))
  {
  }

  lemma Places(cfg: Setting, tokens: seq<Token>, w: Walk, j: nat)
    requires Counted(tokens, w) && Rest(cfg, tokens, w).ok && w.i <= j < |tokens| && Linkable(Rest(cfg, tokens, w))
    ensures LinePlaced(cfg, tokens, j, Rest(cfg, tokens, w))
    ensures LabelPlaced(tokens, j, Rest(cfg, tokens, w).symbols)
  {
    hide TextFrom, Linkable, LineUnits, LineSize, InCode;
    if IsCodeLine(tokens, j) { LineIsPlaced(cfg, tokens, w, j); }
    if IsCodeLabel(tokens, j) { LabelIsPlaced(cfg, tokens, w, j); }
  }

  // ----- the line behind a label -----

  /** Line j is the first one behind token i. */
  predicate FirstBehind(tokens: seq<Token>, i: nat, j: nat) {
    i <= j && IsCodeLine(tokens, j) && forall k :: i <= k < j ==> !IsCodeLine(tokens, k)
  }

  lemma {:induction false} NothingBetween(tokens: seq<Token>, i: nat, j: nat)
    requires i <= j <= |tokens| && forall k :: i <= k < j ==> !IsCodeLine(tokens, k)
    ensures SizeBefore(tokens, j) == SizeBefore(tokens, i)
  {
    hide IsCodeLine;
    if i < j { NothingBetween(tokens, i, j - 1); }
  }

  lemma {:induction false} SizeGrows(tokens: seq<Token>, i: nat, j: nat)
    requires i <= j <= |tokens|
    ensures SizeBefore(tokens, i) <= SizeBefore(tokens, j)
  {
    hide IsCodeLine, LineSize;
    if i < j { SizeGrows(tokens, i, j - 1); }
  }

  /** The unit at a quarter of a label's address is the first one of the next line. */
  lemma LabelNamesLine(cfg: Setting, tokens: seq<Token>, text: Text, i: nat, j: nat)
    requires Described(cfg, tokens, text) && IsCodeLabel(tokens, i) && FirstBehind(tokens, i, j)
    ensures
      var n := SizeBefore(tokens, i);
      var us := LineUnits(cfg, tokens, j, tokens[j].kind.mnemonic, text.symbols, n);
      && tokens[i].value in text.symbols
      && text.symbols[tokens[i].value] == SymbolData((4 * n) % TWO32, tokens[i].line, false)
      && us.Some? && us.value != [] && n < |text.units| && text.units[n] == us.value[0]
  {
    hide LineUnits, InCode, LineSize, SizeBefore, IsMExtension;
    NothingBetween(tokens, i, j);
    assert LabelPlaced(tokens, i, text.symbols) && LinePlaced(cfg, tokens, j, text);
    SizeIsPositive(tokens, j, tokens[j].kind.mnemonic);
  }

  lemma SizeIsPositive(s: seq<Token>, i: nat, m: Mnemonic)
    ensures LineSize(s, i, m) > 0
  {
    hide IsNumber, RegisterAndLabel;
  }
}
