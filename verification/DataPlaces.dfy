/** When the parser's addresses of data labels are where the loader puts their literals. */
module DataPlaces {
  import opened Words
  import opened Arithmetic
  import opened Options
  import opened DataSection
  import opened Tokens
  import opened ParserData
  import opened DataLayout

  // ----- the two counters on one run -----

  /** All literals of a run have the alignment of its directive. */
  lemma {:induction false} RunAligned(tokens: seq<Token>, i: nat, d: DataDirective)
    ensures forall k :: 0 <= k < |RunItems(tokens, i, d)| ==> Alignment(RunItems(tokens, i, d)[k]) == AlignmentOf(d)
    decreases |tokens| - i
  {
    hide LiteralsOf, Alignment, AlignmentOf;
    if i < |tokens| && (Takes(d, tokens[i].kind) || tokens[i].kind.Comma?) {
      RunAligned(tokens, i + 1, d);
      if Takes(d, tokens[i].kind) { LiteralsAligned(d, tokens[i].kind); }
    }
  }

  lemma {:induction false} AdvanceIsEnd(items: seq<DataItem>, run: seq<DataItem>)
    ensures Advance(End(items, |items|), run) == End(items + run, |items| + |run|)
  {
    hide AlignUp, Alignment, Size;
    if run == [] {
      assert items + run == items;
    } else {
      var n := |run| - 1;
      AdvanceIsEnd(items, run[..n]);
      assert items + run == (items + run[..n]) + [run[n]];
      EndOfPrefix(items + run[..n], [run[n]], |items| + n);
    }
  }

  /** Aligning in front of a literal of that alignment changes nothing. */
  lemma {:induction false} AlignedAdvance(index: nat, run: seq<DataItem>)
    requires run != [] && Alignment(run[0]) > 0
    ensures Advance(AlignUp(index, Alignment(run[0])), run) == Advance(index, run)
  {
    hide AlignUp, Alignment, Size;
    var n := |run| - 1;
    if n == 0 {
      AlignTwice(index, Alignment(run[0]));
    } else {
      AlignedAdvance(index, run[..n]);
    }
  }

  // ----- the loader's counter wraps -----

  lemma WrapsAway(x: nat, q: nat)
    ensures (x + TWO32 * q) % TWO32 == x % TWO32
  {
    UniqueQuotient(x + TWO32 * q, TWO32, x / TWO32 + q, x % TWO32);
  }

  lemma SameRemainder(r: nat, q: nat, a: nat, n: nat)
    requires a > 0 && a * n == TWO32
    ensures (r + TWO32 * q) % a == r % a
  {
    DivMod(r, a);
    assert r + TWO32 * q == (r / a + n * q) * a + r % a;
    UniqueQuotient(r + TWO32 * q, a, r / a + n * q, r % a);
  }

  /** Aligning commutes with wrapping, because the alignments are small powers of two. */
  lemma AlignWraps(c: nat, a: nat)
    requires a == 1 || a == 2 || a == 4 || a == 8
    ensures AlignUp(c % TWO32, a) % TWO32 == AlignUp(c, a) % TWO32
  {
    var q, r: nat := c / TWO32, c % TWO32;
    assert c == r + TWO32 * q;
    SameRemainder(r, q, a, if a == 1 then TWO32 else if a == 2 then 0x8000_0000 else if a == 4 then 0x4000_0000
                           else 0x2000_0000);
    WrapsAway(AlignUp(r, a), q);
  }

  lemma SumWraps(x: nat, y: nat)
    ensures (x % TWO32 + y) % TWO32 == (x + y) % TWO32
  {
  }

  lemma SmallAlignments(x: DataItem)
    ensures Alignment(x) == 1 || Alignment(x) == 2 || Alignment(x) == 4 || Alignment(x) == 8
  {
  }

  lemma {:induction false} LoadingWraps(c: nat, items: seq<DataItem>)
    ensures Loading(c % TWO32, items) == Advance(c, items) % TWO32
  {
    hide AlignUp, Alignment, Size;
    if items != [] {
      var n := |items| - 1;
      SmallAlignments(items[n]);
      LoadingWraps(c, items[..n]);
      AlignWraps(Advance(c, items[..n]), Alignment(items[n]));
      SumWraps(AlignUp(Advance(c, items[..n]), Alignment(items[n])), Size(items[n]));
    }
  }

  // ----- the loader's walk -----

  /** The loader's counter is at the end of the literals so far, and it knows where the literals lie
      that labels name. */
  ghost predicate Follows(load: Load, d: Data) {
    && load.counter == End(d.items, |d.items|) % TWO32
    && (forall l :: l in load.offsets <==> l in d.names && d.names[l] < |d.items|)
    && (forall l :: l in load.offsets ==> load.offsets[l] == Start(d.items, d.names[l]) % TWO32)
    && (forall l :: l in load.waiting <==> l in d.names && d.names[l] >= |d.items|)
    && (forall l :: l in d.names ==> d.names[l] <= |d.items|)
  }

  lemma LabelFollows(load: Load, d: Data, t: Token, next: Token)
    requires Follows(load, d)
    ensures Follows(load.(offsets := load.offsets - {t.value}, waiting := load.waiting + {t.value}),
                    Labelled(d, t, next))
  {
    hide AlignUp, AlignmentOf, DirectiveOf, End, Start;
  }

  lemma StartsKept(d: Data, run: seq<DataItem>)
    ensures |d.items + run| == |d.items| + |run|
    ensures forall k: nat {:trigger Start(d.items, k)} :: k < |d.items| ==> Start(d.items + run, k) == Start(d.items, k)
    ensures run != [] ==> Start(d.items + run, |d.items|) == AlignUp(End(d.items, |d.items|), Alignment(run[0]))
  {
    hide AlignUp, Alignment;
    forall k: nat | k < |d.items|
      ensures Start(d.items + run, k) == Start(d.items, k)
    {
      EndOfPrefix(d.items, run, k);
    }
    if run != [] { EndOfPrefix(d.items, run, |d.items|); }
  }

  lemma RunFollows(load: Load, d: Data, a: nat, run: seq<DataItem>, ok: bool)
    requires Follows(load, d) && a > 0 && forall k :: 0 <= k < |run| ==> Alignment(run[k]) == a
    ensures Follows(LoadedRun(load, a, run), Extended(d, run, ok))
  {
    hide AlignUp, Advance, Loading, End, Start, Alignment;
    AdvanceIsEnd(d.items, run);
    StartsKept(d, run);
    LoadingWraps(End(d.items, |d.items|), run);
    if run == [] {
      assert d.items + run == d.items;
    } else {
      SmallAlignments(run[0]);
      AlignWraps(End(d.items, |d.items|), a);
    }
  }

  lemma {:induction false} LoaderFollows(tokens: seq<Token>, i: nat, section: Section, load: Load, d: Data)
    requires Follows(load, d)
    ensures Follows(LoadFrom(tokens, i, section, load), DataFrom(tokens, i, section, d))
    decreases |tokens| - i
  {
    hide Follows, Entered, Leaves, Expected, RunItems, RunOk, Labelled, Extended, LoadedRun, AlignmentOf;
    if i >= |tokens| || tokens[i].kind.Eof? {
    } else if Leaves(section, tokens[i].value) {
      var ok := d.ok && Expected(tokens[i]);
      OkIsFree(load, d, ok);
      LoaderFollows(tokens, i + 1, Entered(tokens[i]), load, d.(ok := ok));
    } else if section != InData {
      LoaderFollows(tokens, i + 1, section, load, d);
    } else if tokens[i].kind.Label? {
      LabelFollows(load, d, tokens[i], Next(tokens, i));
      var l := tokens[i].value;
      LoaderFollows(tokens, i + 1, InData, load.(offsets := load.offsets - {l}, waiting := load.waiting + {l}),
                    Labelled(d, tokens[i], Next(tokens, i)));
    } else {
      match DirectiveOf(tokens[i].value)
      case Some(x) =>
        var run, ok := RunItems(tokens, i + 1, x), RunOk(tokens, i + 1, x);
        PositiveAlignment(x);
        RunAligned(tokens, i + 1, x);
        RunFollows(load, d, AlignmentOf(x), run, ok);
        LoaderFollows(tokens, RunEnd(tokens, i + 1, x), InData, LoadedRun(load, AlignmentOf(x), run),
                      Extended(d, run, ok));
      case None =>
        OkIsFree(load, d, false);
        LoaderFollows(tokens, i + 1, InData, load, d.(ok := false));
    }
  }

  lemma OkIsFree(load: Load, d: Data, ok: bool)
    requires Follows(load, d)
    ensures Follows(load, d.(ok := ok))
  {
  }

  /** The data labels are where the loader arrives at their literals exactly when the two counters meet
      wherever a label names a literal, as two walks over the tokens tell; in data of less than 2^32 bytes
      they are then placed right. */
  lemma PlacedExactly(tokens: seq<Token>)
    ensures LabelsFound(DataOf(tokens)) <==> CountersMeet(tokens)
    ensures
      var items := DataOf(tokens).items;
      End(items, |items|) < TWO32 ==> (LabelsPlaced(DataOf(tokens)) <==> CountersMeet(tokens))
  {
    hide LoadFrom, DataFrom;
    LoaderFollows(tokens, 0, Outside, NO_LOAD, NO_DATA);
    NamesAreKnown(tokens, 0, Outside, NO_DATA);
    hide Start, End;
    var items := DataOf(tokens).items;
    forall k: nat | k < |items| && End(items, |items|) < TWO32
      ensures Start(items, k) % TWO32 == Start(items, k)
    {
      StartsBeforeEnd(items, k, |items|);
    }
  }

  lemma {:induction false} StartsBeforeEnd(items: seq<DataItem>, k: nat, n: nat)
    requires k < n <= |items|
    ensures Start(items, k) <= End(items, n)
  {
    hide Alignment, Size;
    SmallAlignments(items[n - 1]);
    if k < n - 1 { StartsBeforeEnd(items, k, n - 1); }
  }

  // ----- labels in front of literals -----

  lemma {:induction false} ErrorsStay(tokens: seq<Token>, i: nat, section: Section, d: Data)
    requires !d.ok
    ensures !DataFrom(tokens, i, section, d).ok
    decreases |tokens| - i
  {
    hide Entered, Leaves, Expected, RunItems, RunOk, AlignUp, AlignmentOf, Advance;
    if i >= |tokens| || tokens[i].kind.Eof? {
    } else if Leaves(section, tokens[i].value) {
      ErrorsStay(tokens, i + 1, Entered(tokens[i]), d);
    } else if section != InData {
      ErrorsStay(tokens, i + 1, section, d);
    } else if tokens[i].kind.Label? {
      ErrorsStay(tokens, i + 1, InData, Labelled(d, tokens[i], Next(tokens, i)));
    } else {
      match DirectiveOf(tokens[i].value)
      case Some(x) =>
        ErrorsStay(tokens, RunEnd(tokens, i + 1, x), InData,
                   Extended(d, RunItems(tokens, i + 1, x), RunOk(tokens, i + 1, x)));
      case None =>
        ErrorsStay(tokens, i + 1, InData, d.(ok := false));
    }
  }

  /** Both counters agree, and so do they on every label. */
  ghost predicate Settled(d: Data) {
    && d.index == End(d.items, |d.items|) && d.symbols.Keys == d.names.Keys
    && LabelsName(d) && LabelsPlaced(d)
  }

  /** A label has just been read; its literal comes with the next token. */
  ghost predicate Waits(d: Data, a: nat)
    requires a > 0
  {
    var here := AlignUp(End(d.items, |d.items|), a);
    && d.index == here && d.symbols.Keys == d.names.Keys && LabelsPlaced(d)
    && forall l :: l in d.names ==> d.names[l] < |d.items| || (d.names[l] == |d.items| && d.symbols[l].address == here)
  }

  lemma LabelWaits(d: Data, t: Token, next: Token, x: DataDirective)
    requires Settled(d) && DirectiveOf(next.value) == Some(x)
    ensures AlignmentOf(x) > 0 && Waits(Labelled(d, t, next), AlignmentOf(x))
  {
    PositiveAlignment(x);
    hide AlignUp, AlignmentOf, DirectiveOf, End, Start;
  }

  lemma RunSettles(d: Data, a: nat, run: seq<DataItem>, ok: bool)
    requires a > 0 && forall k :: 0 <= k < |run| ==> Alignment(run[k]) == a
    requires Settled(d) || (run != [] && Waits(d, a))
    ensures Settled(Extended(d, run, ok))
  {
    hide AlignUp, Advance, Size, Alignment;
    var items := d.items + run;
    AdvanceIsEnd(d.items, run);
    if run != [] {
      AlignedAdvance(End(d.items, |d.items|), run);
      EndOfPrefix(d.items, run, |d.items|);
    } else {
      assert items == d.items;
    }
    forall l | l in d.names && d.names[l] < |d.items|
      ensures Start(items, d.names[l]) == Start(d.items, d.names[l])
    {
      EndOfPrefix(d.items, run, d.names[l]);
    }
  }

  lemma {:induction false} CarriedItems(tokens: seq<Token>, i: nat, d: DataDirective)
    requires CarriesLiteral(tokens, i, d) && RunOk(tokens, i, d)
    ensures RunItems(tokens, i, d) != []
    decreases |tokens| - i
  {
    hide LiteralsOf, Takes;
    if !Takes(d, tokens[i].kind) { CarriedItems(tokens, i + 1, d); }
  }

  lemma SectionWords(value: string)
    requires DirectiveOf(value).Some?
    ensures !EndsSection(value)
  {
  }

  lemma {:induction false} LiteralsSettle(tokens: seq<Token>, i: nat, section: Section, d: Data,
                                          waiting: Option<DataDirective>)
    requires LabelsCarryLiterals(tokens) && DataFrom(tokens, i, section, d).ok
    requires waiting.None? ==> Settled(d)
    requires waiting.Some? ==>
      && section == InData && AlignmentOf(waiting.value) > 0 && Waits(d, AlignmentOf(waiting.value))
      && i < |tokens| && tokens[i].kind.Directive? && DirectiveOf(tokens[i].value) == waiting
      && CarriesLiteral(tokens, i + 1, waiting.value)
    ensures Settled(DataFrom(tokens, i, section, d))
    decreases |tokens| - i
  {
    hide Settled, Waits, Entered, Expected, EndsSection, DirectiveOf, RunItems, RunOk, Labelled, Extended,
         AlignmentOf, CarriesLiteral;
    if waiting.Some? { SectionWords(tokens[i].value); }
    if i >= |tokens| || tokens[i].kind.Eof? {
    } else if Leaves(section, tokens[i].value) {
      var ok := d.ok && Expected(tokens[i]);
      OkIsFreeHere(d, ok);
      LiteralsSettle(tokens, i + 1, Entered(tokens[i]), d.(ok := ok), None);
    } else if section != InData {
      LiteralsSettle(tokens, i + 1, section, d, None);
    } else if tokens[i].kind.Label? {
      var l := Labelled(d, tokens[i], Next(tokens, i));
      if !l.ok { ErrorsStay(tokens, i + 1, InData, l); }
      LabelIsFollowed(tokens, i, d);
      var x := DirectiveOf(Next(tokens, i).value);
      LabelWaits(d, tokens[i], Next(tokens, i), x.value);
      LiteralsSettle(tokens, i + 1, InData, l, x);
    } else {
      match DirectiveOf(tokens[i].value)
      case Some(x) =>
        var run, ok := RunItems(tokens, i + 1, x), RunOk(tokens, i + 1, x);
        var e := Extended(d, run, ok);
        if !e.ok { ErrorsStay(tokens, RunEnd(tokens, i + 1, x), InData, e); }
        OkOfExtended(d, run, ok);
        PositiveAlignment(x);
        RunAligned(tokens, i + 1, x);
        if waiting.Some? { CarriedItems(tokens, i + 1, x); }
        RunSettles(d, AlignmentOf(x), run, ok);
        LiteralsSettle(tokens, RunEnd(tokens, i + 1, x), InData, e, None);
      case None =>
        ErrorsStay(tokens, i + 1, InData, d.(ok := false));
    }
  }

  lemma OkIsFreeHere(d: Data, ok: bool)
    requires Settled(d)
    ensures Settled(d.(ok := ok))
  {
  }

  lemma OkOfExtended(d: Data, run: seq<DataItem>, ok: bool)
    ensures Extended(d, run, ok).ok == (d.ok && ok)
  {
  }

  lemma NoDirectiveAtEnd()
    ensures DirectiveOf(END.value).None?
  {
  }

  lemma LabelIsFollowed(tokens: seq<Token>, i: nat, d: Data)
    requires LabelsCarryLiterals(tokens) && i < |tokens| && tokens[i].kind.Label?
    requires Labelled(d, tokens[i], Next(tokens, i)).ok
    ensures
      && DirectiveOf(Next(tokens, i).value).Some? && i + 1 < |tokens| && tokens[i + 1].kind.Directive?
      && CarriesLiteral(tokens, i + 2, DirectiveOf(tokens[i + 1].value).value)
  {
    hide CarriesLiteral;
    NoDirectiveAtEnd();
  }

  /** It is enough that every label stands in front of a directive with a literal. */
  lemma LiteralsSuffice(tokens: seq<Token>)
    requires LabelsCarryLiterals(tokens) && DataOf(tokens).ok
    ensures LabelsPlaced(DataOf(tokens)) && LabelsName(DataOf(tokens))
  {
    hide LabelsCarryLiterals, DataFrom;
    LiteralsSettle(tokens, 0, Outside, NO_DATA, None);
  }
}
