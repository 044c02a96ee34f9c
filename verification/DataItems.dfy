/** Which literals the data sections hold, in which order, and which of them each label names: token by token. */
module DataItems {
  import opened DataSection
  import opened Tokens
  import opened ParserData
  import opened DataLayout

  /** Where a token stands: in a section, behind a data directive whose literals it may continue, or behind the
      end. */
  datatype Mode = In(section: Section) | Behind(directive: DataDirective) | Over

  predicate Continues(m: Mode, t: Token) { m.Behind? && (Takes(m.directive, t.kind) || t.kind.Comma?) }

  function SectionOf(m: Mode): Section
    requires !m.Over?
  {
    if m.Behind? then InData else m.section
  }

  function ModeAfter(m: Mode, t: Token): Mode {
    if m.Over? || t.kind.Eof? then Over
    else if Continues(m, t) then m
    else if Leaves(SectionOf(m), t.value) then In(Entered(t))
    else if SectionOf(m) == InData && !t.kind.Label? && DirectiveOf(t.value).Some? then
      Behind(DirectiveOf(t.value).value)
    else In(SectionOf(m))
  }

  function ModeAt(tokens: seq<Token>, i: nat): Mode
    requires i <= |tokens|
  {
    if i == 0 then In(Outside) else ModeAfter(ModeAt(tokens, i - 1), tokens[i - 1])
  }

  /** The literals token i stands for: it has to be of the kind its directive takes. */
  function LiteralsAt(tokens: seq<Token>, i: nat): seq<DataItem>
    requires i < |tokens|
  {
    var m := ModeAt(tokens, i);
    if m.Behind? && Takes(m.directive, tokens[i].kind) then LiteralsOf(m.directive, tokens[i].kind) else []
  }

  function ItemsBefore(tokens: seq<Token>, i: nat): seq<DataItem>
    requires i <= |tokens|
  {
    if i == 0 then [] else ItemsBefore(tokens, i - 1) + LiteralsAt(tokens, i - 1)
  }

  predicate IsDataLabel(tokens: seq<Token>, i: nat)
    requires i < |tokens|
  {
    var m := ModeAt(tokens, i);
    !m.Over? && SectionOf(m) == InData && tokens[i].kind.Label? && !EndsSection(tokens[i].value)
  }

  /** A label names the literal behind as many as stand in front of it; the last of equal labels counts. */
  function NamesBefore(tokens: seq<Token>, i: nat): map<string, nat>
    requires i <= |tokens|
  {
    if i == 0 then map[]
    else if IsDataLabel(tokens, i - 1) then
      NamesBefore(tokens, i - 1)[tokens[i - 1].value := |ItemsBefore(tokens, i - 1)|]
    else NamesBefore(tokens, i - 1)
  }

  // ----- which tokens are in a data section -----

  /** The last word in front of token i that is the name of a section, strings among the literals apart, opens a
      data section. */
  predicate InDataAt(tokens: seq<Token>, i: nat)
    requires i <= |tokens|
  {
    && i > 0 && !tokens[i - 1].kind.Eof?
    && var t := tokens[i - 1];
       if t.value in {"text", "data", "bss", "section"} && !Continues(ModeAt(tokens, i - 1), t) then
         t.kind.Directive? && t.value == "data" && EndNotReached(tokens, i - 1)
       else InDataAt(tokens, i - 1)
  }

  predicate EndNotReached(tokens: seq<Token>, i: nat)
    requires i <= |tokens|
  {
    forall k :: 0 <= k < i ==> !tokens[k].kind.Eof?
  }

  /** A token is read as data exactly then. */
  lemma {:induction false} DataRegionExactly(tokens: seq<Token>, i: nat)
    requires i <= |tokens|
    ensures ModeAt(tokens, i).Over? <==> !EndNotReached(tokens, i)
    ensures !ModeAt(tokens, i).Over? && SectionOf(ModeAt(tokens, i)) == InData <==> InDataAt(tokens, i)
  {
    hide DirectiveOf, Takes;
    if i > 0 { DataRegionExactly(tokens, i - 1); }
  }

  // ----- the first pass counts alike -----

  predicate Follows(tokens: seq<Token>, i: nat, section: Section, d: Data) {
    && i <= |tokens| && d.items == ItemsBefore(tokens, i) && d.names == NamesBefore(tokens, i)
    && var m := ModeAt(tokens, i);
       !m.Over? && SectionOf(m) == section && (i < |tokens| ==> !Continues(m, tokens[i]))
  }

  lemma {:induction false} NothingBehindEnd(tokens: seq<Token>, i: nat, j: nat)
    requires i < j <= |tokens| && tokens[i].kind.Eof?
    ensures ModeAt(tokens, j).Over?
    ensures ItemsBefore(tokens, j) == ItemsBefore(tokens, i) && NamesBefore(tokens, j) == NamesBefore(tokens, i)
  {
    hide LiteralsOf, DirectiveOf, Leaves, Entered;
    if i + 1 < j { NothingBehindEnd(tokens, i, j - 1); }
  }

  lemma LiteralToken(tokens: seq<Token>, i: nat, d: DataDirective)
    requires i < |tokens| && ModeAt(tokens, i) == Behind(d) && Continues(Behind(d), tokens[i])
    ensures ModeAt(tokens, i + 1) == Behind(d) && NamesBefore(tokens, i + 1) == NamesBefore(tokens, i)
    ensures
      var x := if Takes(d, tokens[i].kind) then LiteralsOf(d, tokens[i].kind) else [];
      ItemsBefore(tokens, i + 1) == ItemsBefore(tokens, i) + x
  {
    hide LiteralsOf, DirectiveOf, Leaves, Entered;
  }

  /** A run of literals and commas behind its directive. */
  lemma {:induction false} RunCounts(tokens: seq<Token>, i: nat, d: DataDirective)
    requires i <= |tokens| && ModeAt(tokens, i) == Behind(d)
    ensures
      var end := RunEnd(tokens, i, d);
      && end <= |tokens| && ModeAt(tokens, end) == Behind(d)
      && ItemsBefore(tokens, end) == ItemsBefore(tokens, i) + RunItems(tokens, i, d)
      && NamesBefore(tokens, end) == NamesBefore(tokens, i)
      && (end < |tokens| ==> !Continues(Behind(d), tokens[end]))
    decreases |tokens| - i
  {
    hide LiteralsOf, ModeAt, ItemsBefore, NamesBefore, RunEnd, RunItems, Takes;
    if i < |tokens| && Continues(Behind(d), tokens[i]) {
      RunStep(tokens, i, d);
      LiteralToken(tokens, i, d);
      RunCounts(tokens, i + 1, d);
    } else {
      RunStops(tokens, i, d);
    }
  }

  /** One token that is no literal. */
  lemma PlainToken(tokens: seq<Token>, i: nat)
    requires i < |tokens| && !Continues(ModeAt(tokens, i), tokens[i])
    ensures ItemsBefore(tokens, i + 1) == ItemsBefore(tokens, i)
    ensures !IsDataLabel(tokens, i) ==> NamesBefore(tokens, i + 1) == NamesBefore(tokens, i)
  {
    hide LiteralsOf;
    assert ItemsBefore(tokens, i) + [] == ItemsBefore(tokens, i);
  }

  lemma {:induction false} PassFollows(tokens: seq<Token>, i: nat, section: Section, d: Data)
    requires Follows(tokens, i, section, d)
    ensures DataFrom(tokens, i, section, d).items == ItemsBefore(tokens, |tokens|)
    ensures DataFrom(tokens, i, section, d).names == NamesBefore(tokens, |tokens|)
    decreases |tokens| - i
  {
    hide LiteralsOf, DirectiveOf, Entered, Expected, RunItems, RunOk, Labelled, Extended, ItemsBefore, NamesBefore,
         Takes;
    if i >= |tokens| {
    } else if tokens[i].kind.Eof? {
      NothingBehindEnd(tokens, i, |tokens|);
    } else {
      PlainToken(tokens, i);
      if Leaves(section, tokens[i].value) {
        PassFollows(tokens, i + 1, Entered(tokens[i]), d.(ok := d.ok && Expected(tokens[i])));
      } else if section != InData {
        PassFollows(tokens, i + 1, section, d);
      } else if tokens[i].kind.Label? {
        LabelFollows(tokens, i, d);
        PassFollows(tokens, i + 1, InData, Labelled(d, tokens[i], Next(tokens, i)));
      } else {
        match DirectiveOf(tokens[i].value)
        case Some(x) =>
          RunFollows(tokens, i, d, x);
          PassFollows(tokens, RunEnd(tokens, i + 1, x), InData,
                      Extended(d, RunItems(tokens, i + 1, x), RunOk(tokens, i + 1, x)));
        case None =>
          PassFollows(tokens, i + 1, InData, d.(ok := false));
      }
    }
  }

  lemma LabelFollows(tokens: seq<Token>, i: nat, d: Data)
    requires Follows(tokens, i, InData, d) && i < |tokens| && tokens[i].kind.Label? && !EndsSection(tokens[i].value)
    ensures Follows(tokens, i + 1, InData, Labelled(d, tokens[i], Next(tokens, i)))
  {
    hide LiteralsOf, DirectiveOf, Takes, AlignUp;
    PlainToken(tokens, i);
  }

  lemma RunFollows(tokens: seq<Token>, i: nat, d: Data, x: DataDirective)
    requires Follows(tokens, i, InData, d) && i < |tokens| && !tokens[i].kind.Eof? && !tokens[i].kind.Label?
    requires !EndsSection(tokens[i].value) && DirectiveOf(tokens[i].value).Some?
    requires DirectiveOf(tokens[i].value).value == x
    ensures Follows(tokens, RunEnd(tokens, i + 1, x), InData,
                    Extended(d, RunItems(tokens, i + 1, x), RunOk(tokens, i + 1, x)))
  {
    hide LiteralsOf, DirectiveOf, Takes, RunItems, RunOk, ItemsBefore, NamesBefore, EndsSection, Advance;
    PlainToken(tokens, i);
    RunCounts(tokens, i + 1, x);
  }

  /** The data of a program are its literals in order, and every label names the one that comes next. */
  lemma DataIsDescribed(tokens: seq<Token>)
    ensures DataOf(tokens).items == ItemsBefore(tokens, |tokens|)
    ensures DataOf(tokens).names == NamesBefore(tokens, |tokens|)
  {
    hide DataFrom;
    PassFollows(tokens, 0, Outside, NO_DATA);
  }
}
