/** What the text sections of a program mean, read off its tokens alone: the units with their operands
    and the addresses of the labels. */
module TextMeaning {
  import opened Options
  import opened Words
  import opened DecimalText
  import opened Instructions
  import opened CodeGenerator
  import opened Tokens
  import opened LineShapes
  import opened ParserData
  import opened DataLayout
  import opened ParserUnits

  /** What the configuration says. */
  datatype Setting = Setting(mExtension: bool, dataStart: nat)

  predicate IsMExtension(m: Mnemonic) {
    m.R? && m.r in {MUL, MULH, MULHSU, MULHU, DIV, DIVU, REM, REMU, MULW, DIVW, DIVUW, REMW, REMUW}
  }

  // ----- the units of one line: n units are in front of it; None is an error -----

  function Reg(s: seq<Token>, i: nat, n: nat): nat
    requires IsRegister(s, i, n)
  {
    At(s, i + n).kind.n
  }

  function Number(s: seq<Token>, i: nat, n: nat): int
    requires IsNumber(s, i, n)
  {
    At(s, i + n).kind.v
  }

  function Line(s: seq<Token>, i: nat): nat { At(s, i).line }

  function RegisterUnits(s: seq<Token>, i: nat, m: Mnemonic): Option<seq<ICUnit>>
    requires ThreeRegisters(s, i)
  {
    Some([UnitR(m, Reg(s, i, 1), Reg(s, i, 3), Reg(s, i, 5), Line(s, i))])
  }

  /** Two registers and a number: an immediate, a shift amount, or the distance of a branch. */
  function NumberUnits(s: seq<Token>, i: nat, m: Mnemonic): Option<seq<ICUnit>>
    requires TwoRegistersAndNumber(s, i)
  {
    var r1, r2, imm := Reg(s, i, 1), Reg(s, i, 3), Number(s, i, 5);
    var fits :=
      if m.I2? then 0 <= imm <= 31
      else if m.I1? then -2048 <= imm <= 2047
      else -4096 <= imm <= 4095 && imm % 4 == 0;
    if !fits then None
    else Some([if m.B? then UnitS(m, r1, r2, imm, Line(s, i)) else UnitI(m, r1, r2, imm, Line(s, i))])
  }

  /** lui, auipc, and jal by a distance. */
  function UpperUnits(s: seq<Token>, i: nat, m: Mnemonic): Option<seq<ICUnit>>
    requires RegisterAndNumber(s, i)
  {
    var imm := Number(s, i, 3);
    if !(if m.U? then 0 <= imm <= 1048575 else -1048576 <= imm <= 1048575 && imm % 2 == 0) then None
    else Some([UnitU(m, Reg(s, i, 1), imm, Line(s, i))])
  }

  /** Loads, stores and jalr: offset and base. */
  function BaseUnits(s: seq<Token>, i: nat, m: Mnemonic): Option<seq<ICUnit>>
    requires RegisterAndBase(s, i)
  {
    var r, imm, base := Reg(s, i, 1), Number(s, i, 3), Reg(s, i, 5);
    if !(-2048 <= imm <= 2047) then None
    else Some([if m.S? then UnitS(m, base, r, imm, Line(s, i)) else UnitI(m, r, base, imm, Line(s, i))])
  }

  predicate KnowsCodeLabel(symbols: Symbols, l: string) { l in symbols && !symbols[l].isData }

  /** A unit that names a label; a code label already known has to be in range. */
  function LabelUnits(u: ICUnit, symbols: Symbols, n: nat): Option<seq<ICUnit>> {
    if KnowsCodeLabel(symbols, u.target) && !OffsetInRange(u.opcode, Offset(symbols[u.target].address, n)) then None
    else Some([u])
  }

  function BranchUnit(s: seq<Token>, i: nat, m: Mnemonic): ICUnit
    requires TwoRegistersAndLabel(s, i)
  {
    UnitB(m, Reg(s, i, 1), Reg(s, i, 3), At(s, i + 5).value, Line(s, i))
  }

  function JumpUnit(s: seq<Token>, i: nat, m: Mnemonic): ICUnit
    requires RegisterAndLabel(s, i)
  {
    UnitJ(m, Reg(s, i, 1), At(s, i + 3).value, Line(s, i))
  }

  /** la, and a load of a data label: the distance in two parts. */
  function AddressUnits(cfg: Setting, s: seq<Token>, i: nat, second: Mnemonic, symbols: Symbols,
                        n: nat): Option<seq<ICUnit>>
    requires RegisterAndLabel(s, i)
  {
    var rd, l := Reg(s, i, 1), At(s, i + 3).value;
    if !(l in symbols && symbols[l].isData) then None
    else
      var offset := cfg.dataStart + symbols[l].address - (4 * n) % TWO32;
      Some([UnitU(U(AUIPC), rd, Upper(offset), Line(s, i)), UnitI(second, rd, rd, Lower(offset), Line(s, i))])
  }

  function LiUnits(s: seq<Token>, i: nat): Option<seq<ICUnit>>
    requires RegisterAndNumber(s, i)
  {
    var rd, imm, line := Reg(s, i, 1), Number(s, i, 3), Line(s, i);
    var upper := (imm + 2048) / 4096;
    if -2048 <= imm <= 2047 then Some([UnitI(I1(ADDI), rd, 0, imm, line)])
    else if !(MIN32 <= imm < -MIN32) then None
    else if imm == 4096 * upper then Some([UnitU(U(LUI), rd, upper, line)])
    else Some([UnitU(U(LUI), rd, upper, line), UnitI(I1(ADDI), rd, rd, imm - 4096 * upper, line)])
  }

  function ShorthandUnits(s: seq<Token>, i: nat, p: PseudoOp): Option<seq<ICUnit>>
    requires p == MV || p == NOT ==> RegisterAndRegister(s, i)
  {
    var line := Line(s, i);
    if p == MV then Some([UnitR(R(ADD), Reg(s, i, 1), Reg(s, i, 3), 0, line)])
    else if p == NOT then Some([UnitI(I1(XORI), Reg(s, i, 1), Reg(s, i, 3), -1, line)])
    else if p == NOP then Some([UnitI(I1(ADDI), 0, 0, 0, line)])
    else Some([UnitI(I1(JALR), 0, 1, 0, line)])
  }

  function PseudoUnits(cfg: Setting, s: seq<Token>, i: nat, p: PseudoOp, symbols: Symbols,
                       n: nat): Option<seq<ICUnit>> {
    if !HasSyntax(s, i, Pseudo(p)) then None
    else if p == LA then AddressUnits(cfg, s, i, I1(ADDI), symbols, n)
    else if p == LI then LiUnits(s, i)
    else ShorthandUnits(s, i, p)
  }

  function LineUnits(cfg: Setting, s: seq<Token>, i: nat, m: Mnemonic, symbols: Symbols, n: nat): Option<seq<ICUnit>> {
    if !HasSyntax(s, i, m) then None
    else
      match m
      case R(_) => RegisterUnits(s, i, m)
      case I1(_) =>
        if TwoRegistersAndNumber(s, i) then NumberUnits(s, i, m)
        else if RegisterAndBase(s, i) then BaseUnits(s, i, m)
        else AddressUnits(cfg, s, i, m, symbols, n)
      case I2(_) => NumberUnits(s, i, m)
      case I3(_) => Some([UnitO(m, Line(s, i))])
      case S(_) => BaseUnits(s, i, m)
      case B(_) =>
        if TwoRegistersAndNumber(s, i) then NumberUnits(s, i, m) else LabelUnits(BranchUnit(s, i, m), symbols, n)
      case U(_) => UpperUnits(s, i, m)
      case J(_) => if RegisterAndNumber(s, i) then UpperUnits(s, i, m) else LabelUnits(JumpUnit(s, i, m), symbols, n)
      case Pseudo(p) => PseudoUnits(cfg, s, i, p, symbols, n)
      case _ => None
  }

  // ----- the whole text -----

  /** The units in order, those that name a label with an open immediate; all labels; ok if nothing
      is an error. */
  datatype Text = Text(units: seq<ICUnit>, symbols: Symbols, ok: bool)

  /** A label names the next instruction; it may not be named before. */
  function WithLabel(known: Text, l: Token): Text {
    if l.value in known.symbols then known.(ok := false)
    else known.(symbols := known.symbols[l.value := SymbolData((4 * |known.units|) % TWO32, l.line, false)])
  }

  function WithUnits(known: Text, units: Option<seq<ICUnit>>): Text {
    match units
    case Some(us) => known.(units := known.units + us)
    case None => known.(ok := false)
  }

  /** The line at token i, which bears the mnemonic m. */
  function LineOf(cfg: Setting, tokens: seq<Token>, i: nat, m: Mnemonic, known: Text): Text {
    WithUnits(known, if IsMExtension(m) && !cfg.mExtension then None
                     else LineUnits(cfg, tokens, i, m, known.symbols, |known.units|))
  }

  /** Where the second pass is; Skipping goes on to the next word that reads text. */
  datatype Place = Main | Skipping | InText

  /** The second pass in front of token i, behind what is known already. */
  datatype Walk = Walk(i: nat, place: Place, known: Text)

  /** Past the token, or past its line. */
  function PassOn(cfg: Setting, tokens: seq<Token>, w: Walk): (next: Walk)
    requires w.i < |tokens| && !tokens[w.i].kind.Eof?
    ensures next.i > w.i
  {
    var i, t, known := w.i, tokens[w.i], w.known;
    if w.place == Skipping && t.value != "text" then Walk(i + 1, Skipping, known)
    else if t.kind.Label? then Walk(i + 1, InText, WithLabel(known, t))
    else if t.kind.Opcode? then Walk(LineEnd(tokens, i), InText, LineOf(cfg, tokens, i, t.kind.mnemonic, known))
    else if t.kind.Directive? then
      if t.value == "text" then Walk(i + 1, InText, known)
      else if t.value == "data" || t.value == "bss" then Walk(i + 1, Skipping, known)
      else Walk(i + 1, Main, known.(ok := known.ok && t.value == "section"))
    else if w.place == InText then Walk(LineEnd(tokens, i), InText, known.(ok := false))
    else Walk(i + 1, Main, known.(ok := false))
  }

  predicate AtEnd(tokens: seq<Token>, i: nat) { i >= |tokens| || tokens[i].kind.Eof? }

  /** The text from token i on. */
  function TextFrom(cfg: Setting, tokens: seq<Token>, i: nat, place: Place, known: Text): Text
    decreases |tokens| - i
  {
    if AtEnd(tokens, i) then known
    else
      var next := PassOn(cfg, tokens, Walk(i, place, known));
      TextFrom(cfg, tokens, next.i, next.place, next.known)
  }

  function TextOf(cfg: Setting, tokens: seq<Token>): Text {
    TextFrom(cfg, tokens, 0, Main, Text.Text([], DataOf(tokens).symbols, true))
  }

  /** Every unit that names a label can be given its offset. */
  predicate Linkable(text: Text) {
    forall j :: 0 <= j < |text.units| && NeedsLabel(text.units[j]) ==> CanFill(text.units[j], j, text.symbols)
  }

  /** No error anywhere in the program. */
  predicate Assembles(cfg: Setting, tokens: seq<Token>) {
    DataOf(tokens).ok && TextOf(cfg, tokens).ok && Linkable(TextOf(cfg, tokens))
  }

  /** Unit j of the program, with its offset filled in. */
  function UnitOf(text: Text, j: nat): ICUnit
    requires j < |text.units|
  {
    Resolved(text.units[j], j, text.symbols)
  }

  // ----- errors -----

  lemma ErrorStays(cfg: Setting, tokens: seq<Token>, w: Walk)
    requires !AtEnd(tokens, w.i)
    ensures
      var next := PassOn(cfg, tokens, w);
      PassOn(cfg, tokens, w.(known := w.known.(ok := false))) == next.(known := next.known.(ok := false))
  {
    hide LineUnits, IsMExtension, LineEnd;
  }

  /** An error is never taken back, and changes nothing else. */
  lemma {:induction false} ErrorsRemain(cfg: Setting, tokens: seq<Token>, i: nat, place: Place, known: Text)
    ensures
      TextFrom(cfg, tokens, i, place, known.(ok := false)) == TextFrom(cfg, tokens, i, place, known).(ok := false)
    decreases |tokens| - i
  {
    hide PassOn;
    if !AtEnd(tokens, i) {
      var next := PassOn(cfg, tokens, Walk(i, place, known));
      ErrorStays(cfg, tokens, Walk(i, place, known));
      ErrorsRemain(cfg, tokens, next.i, next.place, next.known);
    }
  }

  // ----- which units there are -----

  /** A unit the code generator accepts, or will once its label is filled in. */
  ghost predicate Usable(u: ICUnit) { if NeedsLabel(u) then NamesLabel(u) else Ready(u) }

  ghost predicate AllUsable(us: seq<ICUnit>) { forall k :: 0 <= k < |us| ==> Usable(us[k]) }

  /** Register numbers are those of the 32 registers. */
  predicate RegistersExist(tokens: seq<Token>) {
    forall i :: 0 <= i < |tokens| && tokens[i].kind.GpRegister? ==> tokens[i].kind.n < 32
  }

  lemma RegisterExists(s: seq<Token>, i: nat, n: nat)
    requires RegistersExist(s) && IsRegister(s, i, n)
    ensures Reg(s, i, n) < 32
  {
  }

  lemma NumberUnitsUsable(s: seq<Token>, i: nat, m: Mnemonic)
    requires RegistersExist(s) && TwoRegistersAndNumber(s, i) && (m.I1? || m.I2? || m.B?)
    ensures NumberUnits(s, i, m).Some? ==> AllUsable(NumberUnits(s, i, m).value)
  {
    hide Ready, RegName, ToString, RegistersExist, EndsAt;
    var r1, r2, imm := Reg(s, i, 1), Reg(s, i, 3), Number(s, i, 5);
    RegisterExists(s, i, 1);
    RegisterExists(s, i, 3);
    if NumberUnits(s, i, m).Some? {
      PrintedIsNotEmpty(imm);
      if m.B? { StoreUnitReady(m, r1, r2, imm, Line(s, i)); } else { ImmediateUnitReady(m, r1, r2, imm, Line(s, i)); }
    }
  }

  lemma UpperUnitsUsable(s: seq<Token>, i: nat, m: Mnemonic)
    requires RegistersExist(s) && RegisterAndNumber(s, i) && (m.U? || m.J?)
    ensures UpperUnits(s, i, m).Some? ==> AllUsable(UpperUnits(s, i, m).value)
  {
    hide Ready, RegName, ToString, RegistersExist, EndsAt;
    RegisterExists(s, i, 1);
    if UpperUnits(s, i, m).Some? {
      PrintedIsNotEmpty(Number(s, i, 3));
      UpperUnitReady(m, Reg(s, i, 1), Number(s, i, 3), Line(s, i));
    }
  }

  lemma BaseUnitsUsable(s: seq<Token>, i: nat, m: Mnemonic)
    requires RegistersExist(s) && RegisterAndBase(s, i) && (m.I1? || m.S?)
    ensures BaseUnits(s, i, m).Some? ==> AllUsable(BaseUnits(s, i, m).value)
  {
    hide Ready, RegName, ToString, RegistersExist, EndsAt;
    var r, imm, base := Reg(s, i, 1), Number(s, i, 3), Reg(s, i, 5);
    RegisterExists(s, i, 1);
    RegisterExists(s, i, 5);
    if BaseUnits(s, i, m).Some? {
      if m.S? { StoreUnitReady(m, base, r, imm, Line(s, i)); } else { ImmediateUnitReady(m, r, base, imm, Line(s, i)); }
    }
  }

  lemma LabelUnitsUsable(u: ICUnit, symbols: Symbols, n: nat)
    requires NeedsLabel(u) && NamesLabel(u)
    ensures LabelUnits(u, symbols, n).Some? ==> AllUsable(LabelUnits(u, symbols, n).value)
  {
    hide Ready, NamesLabel, Offset, OffsetInRange;
  }

  lemma AddressUnitsUsable(cfg: Setting, s: seq<Token>, i: nat, second: Mnemonic, symbols: Symbols, n: nat)
    requires RegistersExist(s) && RegisterAndLabel(s, i) && second.I1?
    ensures AddressUnits(cfg, s, i, second, symbols, n).Some? ==>
      AllUsable(AddressUnits(cfg, s, i, second, symbols, n).value)
  {
    hide Ready, RegName, ToString, RegistersExist, EndsAt, Upper, Lower;
    RegisterExists(s, i, 1);
    if AddressUnits(cfg, s, i, second, symbols, n).Some? {
      var offset := cfg.dataStart + symbols[At(s, i + 3).value].address - (4 * n) % TWO32;
      UpperUnitReady(U(AUIPC), Reg(s, i, 1), Upper(offset), Line(s, i));
      ImmediateUnitReady(second, Reg(s, i, 1), Reg(s, i, 1), Lower(offset), Line(s, i));
    }
  }

  lemma LiUnitsUsable(s: seq<Token>, i: nat)
    requires RegistersExist(s) && RegisterAndNumber(s, i)
    ensures LiUnits(s, i).Some? ==> AllUsable(LiUnits(s, i).value)
  {
    hide Ready, RegName, ToString, RegistersExist, EndsAt;
    var rd, imm, line := Reg(s, i, 1), Number(s, i, 3), Line(s, i);
    var upper := (imm + 2048) / 4096;
    RegisterExists(s, i, 1);
    if -2048 <= imm <= 2047 {
      ImmediateUnitReady(I1(ADDI), rd, 0, imm, line);
    } else if MIN32 <= imm < -MIN32 {
      UpperUnitReady(U(LUI), rd, upper, line);
      ImmediateUnitReady(I1(ADDI), rd, rd, imm - 4096 * upper, line);
    }
  }

  lemma PseudoUnitsUsable(cfg: Setting, s: seq<Token>, i: nat, p: PseudoOp, symbols: Symbols, n: nat)
    requires RegistersExist(s)
    ensures PseudoUnits(cfg, s, i, p, symbols, n).Some? ==> AllUsable(PseudoUnits(cfg, s, i, p, symbols, n).value)
  {
    hide Ready, RegName, ToString, RegistersExist, EndsAt, AddressUnits, LiUnits, NamesLabel;
    if HasSyntax(s, i, Pseudo(p)) {
      if p == LA {
        AddressUnitsUsable(cfg, s, i, I1(ADDI), symbols, n);
      } else if p == LI {
        LiUnitsUsable(s, i);
      } else {
        var line := Line(s, i);
        if p == MV || p == NOT {
          RegisterExists(s, i, 1);
          RegisterExists(s, i, 3);
          RegisterUnitReady(R(ADD), Reg(s, i, 1), Reg(s, i, 3), 0, line);
          ImmediateUnitReady(I1(XORI), Reg(s, i, 1), Reg(s, i, 3), -1, line);
        }
        ImmediateUnitReady(I1(ADDI), 0, 0, 0, line);
        ImmediateUnitReady(I1(JALR), 0, 1, 0, line);
      }
    }
  }

  lemma RegisterUnitsUsable(s: seq<Token>, i: nat, m: Mnemonic)
    requires RegistersExist(s) && ThreeRegisters(s, i) && m.R?
    ensures AllUsable(RegisterUnits(s, i, m).value)
  {
    hide Ready, RegName, RegistersExist, EndsAt;
    RegisterExists(s, i, 1);
    RegisterExists(s, i, 3);
    RegisterExists(s, i, 5);
    RegisterUnitReady(m, Reg(s, i, 1), Reg(s, i, 3), Reg(s, i, 5), Line(s, i));
  }

  lemma BranchNames(s: seq<Token>, i: nat, m: Mnemonic)
    requires RegistersExist(s) && TwoRegistersAndLabel(s, i) && m.B?
    ensures NeedsLabel(BranchUnit(s, i, m)) && NamesLabel(BranchUnit(s, i, m))
  {
    hide RegName, RegistersExist, EndsAt;
    RegisterExists(s, i, 1);
    RegisterExists(s, i, 3);
  }

  lemma JumpNames(s: seq<Token>, i: nat, m: Mnemonic)
    requires RegistersExist(s) && RegisterAndLabel(s, i) && m.J?
    ensures NeedsLabel(JumpUnit(s, i, m)) && NamesLabel(JumpUnit(s, i, m))
  {
    hide RegName, RegistersExist, EndsAt;
    RegisterExists(s, i, 1);
  }

  lemma LineUnitsUsable(cfg: Setting, s: seq<Token>, i: nat, m: Mnemonic, symbols: Symbols, n: nat)
    requires RegistersExist(s)
    ensures LineUnits(cfg, s, i, m, symbols, n).Some? ==> AllUsable(LineUnits(cfg, s, i, m, symbols, n).value)
  {
    hide Ready, RegistersExist, NamesLabel, ThreeRegisters, TwoRegistersAndNumber, TwoRegistersAndLabel,
         RegisterAndNumber, RegisterAndLabel, RegisterAndBase, RegisterAndRegister, EndsAt, RegisterUnits,
         NumberUnits, UpperUnits, BaseUnits, LabelUnits, BranchUnit, JumpUnit, AddressUnits, PseudoUnits, AllUsable;
    if HasSyntax(s, i, m) {
      match m
      case R(_) => RegisterUnitsUsable(s, i, m);
      case I1(_) =>
        if TwoRegistersAndNumber(s, i) { NumberUnitsUsable(s, i, m); }
        else if RegisterAndBase(s, i) { BaseUnitsUsable(s, i, m); }
        else { AddressUnitsUsable(cfg, s, i, m, symbols, n); }
      case I2(_) => NumberUnitsUsable(s, i, m);
      case I3(_) => SystemUsable(m, Line(s, i));
      case S(_) => BaseUnitsUsable(s, i, m);
      case B(_) =>
        if TwoRegistersAndNumber(s, i) {
          NumberUnitsUsable(s, i, m);
        } else {
          BranchNames(s, i, m);
          LabelUnitsUsable(BranchUnit(s, i, m), symbols, n);
        }
      case U(_) => UpperUnitsUsable(s, i, m);
      case J(_) =>
        if RegisterAndNumber(s, i) {
          UpperUnitsUsable(s, i, m);
        } else {
          JumpNames(s, i, m);
          LabelUnitsUsable(JumpUnit(s, i, m), symbols, n);
        }
      case Pseudo(p) => PseudoUnitsUsable(cfg, s, i, p, symbols, n);
      case _ =>
    }
  }

  lemma SystemUsable(m: Mnemonic, line: nat)
    requires m.I3?
    ensures AllUsable([UnitO(m, line)])
  {
    hide Ready;
    SystemUnitReady(m, line);
  }

  /** What is kept of the text all through: usable units, and code labels at multiples of four. */
  ghost predicate Sound(text: Text) {
    && AllUsable(text.units)
    && forall l :: l in text.symbols && !text.symbols[l].isData ==> text.symbols[l].address % 4 == 0
  }

  lemma StepIsSound(cfg: Setting, tokens: seq<Token>, w: Walk)
    requires RegistersExist(tokens) && Sound(w.known) && !AtEnd(tokens, w.i)
    ensures Sound(PassOn(cfg, tokens, w).known)
  {
    hide LineUnits, IsMExtension, LineEnd, Usable, RegistersExist;
    var t := tokens[w.i];
    if t.kind.Opcode? { LineUnitsUsable(cfg, tokens, w.i, t.kind.mnemonic, w.known.symbols, |w.known.units|); }
  }

  lemma {:induction false} TextIsSound(cfg: Setting, tokens: seq<Token>, i: nat, place: Place, known: Text)
    requires RegistersExist(tokens) && Sound(known)
    ensures Sound(TextFrom(cfg, tokens, i, place, known))
    decreases |tokens| - i
  {
    hide PassOn, Sound, RegistersExist;
    if !AtEnd(tokens, i) {
      var next := PassOn(cfg, tokens, Walk(i, place, known));
      StepIsSound(cfg, tokens, Walk(i, place, known));
      TextIsSound(cfg, tokens, next.i, next.place, next.known);
    }
  }

  // ----- nothing is forgotten -----

  predicate Extends(known: Text, more: Text) { known.units <= more.units && KeepsSymbols(known.symbols, more.symbols) }

  predicate KeepsSymbols(known: Symbols, more: Symbols) {
    forall l :: l in known ==> l in more && more[l] == known[l]
  }

  lemma StepExtends(cfg: Setting, tokens: seq<Token>, w: Walk)
    requires !AtEnd(tokens, w.i)
    ensures Extends(w.known, PassOn(cfg, tokens, w).known)
  {
    hide LineUnits, IsMExtension, LineEnd;
  }

  lemma {:induction false} TextExtends(cfg: Setting, tokens: seq<Token>, i: nat, place: Place, known: Text)
    ensures Extends(known, TextFrom(cfg, tokens, i, place, known))
    decreases |tokens| - i
  {
    hide PassOn;
    if !AtEnd(tokens, i) {
      var next := PassOn(cfg, tokens, Walk(i, place, known));
      StepExtends(cfg, tokens, Walk(i, place, known));
      TextExtends(cfg, tokens, next.i, next.place, next.known);
    }
  }
}
