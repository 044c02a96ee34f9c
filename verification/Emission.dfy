/** How the parser's intermediate code stands for the units of the program while labels are still
    open, and what filling them in makes of it. */
module Emission {
  import opened Options
  import opened DecimalText
  import opened Instructions
  import opened CodeGenerator
  import opened Tokens
  import opened LineShapes
  import opened ParserData
  import opened ParserUnits
  import opened TextMeaning

  datatype Entry = Entry(unit: ICUnit, resolved: bool)

  // ----- emitting units -----

  /** Unit j as it is emitted: with its offset, if it needs one and the code label is known. */
  function Emitted(u: ICUnit, j: nat, symbols: Symbols): Entry {
    if NeedsLabel(u) && !KnowsCodeLabel(symbols, u.target) then Entry(u, false)
    else Entry(Resolved(u, j, symbols), true)
  }

  function Entries(us: seq<ICUnit>, n: nat, symbols: Symbols): seq<Entry>
    decreases |us|
  {
    if us == [] then [] else [Emitted(us[0], n, symbols)] + Entries(us[1..], n + 1, symbols)
  }

  /** The numbers of the units whose label is open. */
  function Open(us: seq<ICUnit>, n: nat, symbols: Symbols): seq<nat>
    decreases |us|
  {
    if us == [] then [] else (if Emitted(us[0], n, symbols).resolved then [] else [n]) + Open(us[1..], n + 1, symbols)
  }

  lemma OneEntry(u: ICUnit, n: nat, symbols: Symbols)
    ensures Entries([u], n, symbols) == [Emitted(u, n, symbols)]
    ensures Open([u], n, symbols) == if Emitted(u, n, symbols).resolved then [] else [n]
  {
    hide Emitted;
    assert [u][1..] == [];
  }

  lemma TwoEntries(u: ICUnit, v: ICUnit, n: nat, symbols: Symbols)
    requires !NeedsLabel(u) && !NeedsLabel(v)
    ensures Entries([u, v], n, symbols) == [Entry(u, true), Entry(v, true)] && Open([u, v], n, symbols) == []
  {
    hide NeedsLabel;
    OneEntry(v, n + 1, symbols);
    assert [u, v][1..] == [v];
  }

  // ----- code and units -----

  ghost predicate ReflectsAt(e: Entry, j: nat, u: ICUnit, symbols: Symbols) {
    if NeedsLabel(u) && !e.resolved then e.unit == u
    else e == Entry(Resolved(u, j, symbols), true) && (NeedsLabel(u) ==> CanFill(u, j, symbols))
  }

  /** The code stands for these units; the open ones are queued. */
  ghost predicate Reflects(code: seq<Entry>, backPatch: seq<nat>, units: seq<ICUnit>, symbols: Symbols) {
    && |code| == |units|
    && (forall j :: 0 <= j < |code| ==> ReflectsAt(code[j], j, units[j], symbols))
    && (forall j :: j in backPatch ==> j < |code| && NeedsLabel(units[j]))
    && (forall j :: 0 <= j < |code| && !code[j].resolved ==> j in backPatch)
  }

  /** A known code label is in range. */
  predicate Emittable(us: seq<ICUnit>, n: nat, symbols: Symbols) {
    forall k :: 0 <= k < |us| && NeedsLabel(us[k]) && KnowsCodeLabel(symbols, us[k].target) ==>
      OffsetInRange(us[k].opcode, Offset(symbols[us[k].target].address, n + k))
  }

  lemma EmittedReflects(u: ICUnit, j: nat, symbols: Symbols)
    requires NeedsLabel(u) && KnowsCodeLabel(symbols, u.target) ==>
      OffsetInRange(u.opcode, Offset(symbols[u.target].address, j))
    ensures ReflectsAt(Emitted(u, j, symbols), j, u, symbols)
    ensures !Emitted(u, j, symbols).resolved ==> NeedsLabel(u)
  {
    hide Offset, OffsetInRange, ToString;
  }

  lemma OneMore(code: seq<Entry>, backPatch: seq<nat>, units: seq<ICUnit>, symbols: Symbols, u: ICUnit)
    requires Reflects(code, backPatch, units, symbols) && Emittable([u], |units|, symbols)
    ensures
      var e := Emitted(u, |units|, symbols);
      Reflects(code + [e], backPatch + (if e.resolved then [] else [|units|]), units + [u], symbols)
  {
    hide ReflectsAt, Emitted, OffsetInRange, Offset;
    assert [u][0] == u;
    EmittedReflects(u, |units|, symbols);
  }

  lemma {:induction false} EntriesReflect(code: seq<Entry>, backPatch: seq<nat>, units: seq<ICUnit>, symbols: Symbols,
                                          us: seq<ICUnit>)
    requires Reflects(code, backPatch, units, symbols) && Emittable(us, |units|, symbols)
    ensures Reflects(code + Entries(us, |units|, symbols), backPatch + Open(us, |units|, symbols), units + us, symbols)
    decreases |us|
  {
    hide Reflects, Emitted, OffsetInRange, Offset;
    var n := |units|;
    if us == [] {
      assert code + [] == code && backPatch + [] == backPatch && units + [] == units;
    } else {
      var e := Emitted(us[0], n, symbols);
      var queue := backPatch + (if e.resolved then [] else [n]);
      OneMore(code, backPatch, units, symbols, us[0]);
      RestEmittable(us, n, symbols);
      EntriesReflect(code + [e], queue, units + [us[0]], symbols, us[1..]);
      assert code + Entries(us, n, symbols) == (code + [e]) + Entries(us[1..], n + 1, symbols);
      assert backPatch + Open(us, n, symbols) == queue + Open(us[1..], n + 1, symbols);
      assert units + us == (units + [us[0]]) + us[1..];
    }
  }

  lemma RestEmittable(us: seq<ICUnit>, n: nat, symbols: Symbols)
    requires us != [] && Emittable(us, n, symbols)
    ensures Emittable([us[0]], n, symbols) && Emittable(us[1..], n + 1, symbols)
  {
    hide OffsetInRange, Offset, NeedsLabel;
    forall k | 0 <= k < |us| - 1 && NeedsLabel(us[1..][k]) && KnowsCodeLabel(symbols, us[1..][k].target)
      ensures OffsetInRange(us[1..][k].opcode, Offset(symbols[us[1..][k].target].address, n + 1 + k))
    {
      assert us[1..][k] == us[k + 1];
    }
  }

  /** A new label changes no offset that is known. */
  lemma LabelReflects(code: seq<Entry>, backPatch: seq<nat>, units: seq<ICUnit>, symbols: Symbols, l: string,
                      s: SymbolData)
    requires Reflects(code, backPatch, units, symbols) && l !in symbols
    ensures Reflects(code, backPatch, units, symbols[l := s])
  {
    hide Offset, OffsetInRange, ToString;
    forall j | 0 <= j < |code|
      ensures ReflectsAt(code[j], j, units[j], symbols[l := s])
    {
      assert ReflectsAt(code[j], j, units[j], symbols);
    }
  }

  // ----- filling in -----

  /** The unit's offset is filled in, right or wrong: nothing else has changed. */
  predicate OnlyFilled(e: Entry, u: ICUnit) { e.unit == u.(imm := e.unit.imm) }

  /** A queued unit, filled in before or not, still says what the program says. */
  lemma QueuedUnit(before: seq<Entry>, backPatch: seq<nat>, text: Text, code: seq<Entry>, j: nat)
    requires Reflects(before, backPatch, text.units, text.symbols) && j in backPatch && |code| == |before|
    requires OnlyFilled(code[j], before[j].unit)
    ensures
      var u, v := code[j].unit, text.units[j];
      && (u.opcode.B? || u.opcode.J?)
      && (CanFill(u, j, text.symbols) <==> CanFill(v, j, text.symbols))
      && (CanFill(v, j, text.symbols) ==>
            u.(imm := ToString(Offset(text.symbols[u.target].address, j))) == UnitOf(text, j))
  {
    hide Offset, OffsetInRange, ToString;
    assert ReflectsAt(before[j], j, text.units[j], text.symbols);
  }

  /** Once every queued unit is filled in, the code is the program. */
  lemma FilledIsProgram(before: seq<Entry>, after: seq<Entry>, backPatch: seq<nat>, text: Text)
    requires Reflects(before, backPatch, text.units, text.symbols) && |after| == |before|
    requires forall j :: 0 <= j < |after| && j !in backPatch ==> after[j] == before[j]
    requires AllFilled(backPatch, after, text)
    ensures forall j :: 0 <= j < |after| ==> after[j] == Entry(UnitOf(text, j), true)
  {
    hide Resolved, CanFill;
    forall j | 0 <= j < |after|
      ensures after[j] == Entry(UnitOf(text, j), true)
    {
      if j !in backPatch { assert ReflectsAt(before[j], j, text.units[j], text.symbols); }
    }
  }

  predicate AllFillable(queue: seq<nat>, text: Text) {
    forall j :: j in queue ==> j < |text.units| && CanFill(text.units[j], j, text.symbols)
  }

  ghost predicate AllFilled(queue: seq<nat>, code: seq<Entry>, text: Text) {
    forall j :: j in queue ==> j < |code| == |text.units| && code[j] == Entry(UnitOf(text, j), true)
  }

  lemma NothingQueued(code: seq<Entry>, text: Text)
    ensures AllFillable([], text) && AllFilled([], code, text)
  {
  }

  lemma QueueIsInCode(code: seq<Entry>, backPatch: seq<nat>, text: Text)
    requires Reflects(code, backPatch, text.units, text.symbols)
    ensures |code| == |text.units| && forall j :: j in backPatch ==> j < |code|
  {
  }

  lemma OneMoreQueued(queue: seq<nat>, j: nat, text: Text)
    requires j < |text.units|
    ensures AllFillable(queue + [j], text) <==> AllFillable(queue, text) && CanFill(text.units[j], j, text.symbols)
  {
    hide CanFill;
    if AllFillable(queue + [j], text) {
      assert j in queue + [j];
      forall k | k in queue
        ensures k < |text.units| && CanFill(text.units[k], k, text.symbols)
      {
        assert k in queue + [j];
      }
    }
  }

  lemma OneMoreFilled(queue: seq<nat>, before: seq<Entry>, after: seq<Entry>, j: nat, text: Text)
    requires AllFilled(queue, before, text) && |after| == |before| == |text.units| && j < |after|
    requires forall i :: 0 <= i < |after| && i != j ==> after[i] == before[i]
    requires after[j] == Entry(UnitOf(text, j), true)
    ensures AllFilled(queue + [j], after, text)
  {
    hide UnitOf;
  }

  /** The program is linkable exactly when the queued units are. */
  lemma QueueDecides(code: seq<Entry>, backPatch: seq<nat>, text: Text)
    requires Reflects(code, backPatch, text.units, text.symbols)
    ensures Linkable(text) <==> AllFillable(backPatch, text)
  {
    hide Resolved, CanFill, NeedsLabel;
    if AllFillable(backPatch, text) {
      forall j | 0 <= j < |text.units| && NeedsLabel(text.units[j])
        ensures CanFill(text.units[j], j, text.symbols)
      {
        assert ReflectsAt(code[j], j, text.units[j], text.symbols);
      }
    }
  }

  // ----- lines -----

  lemma NumberUnitsClosed(s: seq<Token>, i: nat, m: Mnemonic)
    requires TwoRegistersAndNumber(s, i)
    ensures NumberUnits(s, i, m).Some? ==>
      |NumberUnits(s, i, m).value| == 1 && !NeedsLabel(NumberUnits(s, i, m).value[0])
  {
    PrintedIsNotEmpty(Number(s, i, 5));
    hide ToString, RegName, EndsAt;
  }

  lemma UpperUnitsClosed(s: seq<Token>, i: nat, m: Mnemonic)
    requires RegisterAndNumber(s, i)
    ensures UpperUnits(s, i, m).Some? ==> |UpperUnits(s, i, m).value| == 1 && !NeedsLabel(UpperUnits(s, i, m).value[0])
  {
    PrintedIsNotEmpty(Number(s, i, 3));
    hide ToString, RegName, EndsAt;
  }

  /** The units of a line are in range of the code labels known. */
  lemma LineIsEmittable(cfg: Setting, s: seq<Token>, i: nat, m: Mnemonic, symbols: Symbols, n: nat)
    requires LineUnits(cfg, s, i, m, symbols, n).Some?
    ensures Emittable(LineUnits(cfg, s, i, m, symbols, n).value, n, symbols)
  {
    hide ThreeRegisters, TwoRegistersAndNumber, TwoRegistersAndLabel, RegisterAndNumber, RegisterAndLabel,
         RegisterAndBase, RegisterAndRegister, EndsAt, RegName, ToString, Upper, Lower, Offset, OffsetInRange,
         NumberUnits, UpperUnits;
    if HasSyntax(s, i, m) && (m.B? || m.I1? || m.I2?) && TwoRegistersAndNumber(s, i) { NumberUnitsClosed(s, i, m); }
    if HasSyntax(s, i, m) && (m.J? || m.U?) && RegisterAndNumber(s, i) { UpperUnitsClosed(s, i, m); }
  }

  lemma NoSyntaxNoUnits(cfg: Setting, s: seq<Token>, i: nat, m: Mnemonic, symbols: Symbols, n: nat)
    requires !HasSyntax(s, i, m)
    ensures LineUnits(cfg, s, i, m, symbols, n) == None
  {
    hide HasSyntax;
  }

  /** A line has only one of these shapes. */
  lemma LoadsAndNumbers(s: seq<Token>, i: nat)
    ensures TwoRegistersAndNumber(s, i) ==> !RegisterAndBase(s, i) && !RegisterAndLabel(s, i)
    ensures RegisterAndBase(s, i) ==> !RegisterAndLabel(s, i)
  {
  }
}
