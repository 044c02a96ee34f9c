/** The two passes of the assembler over the tokens, and the back-patching of labels. */
module Parser {
  import opened Options
  import opened Words
  import opened DecimalText
  import opened Instructions
  import opened CodeGenerator
  import opened DataSection
  import opened Tokens
  import opened ParserData
  import opened DataLayout
  import opened LineShapes
  import opened ParserUnits
  import opened TextMeaning
  import opened Emission

  class Parser {
    const tokens: seq<Token>
    const setting: Setting
    var pos: nat
    var instructionIndex: nat
    var errorCount: nat
    var dataBuffer: seq<DataItem>
    var dataIndex: nat
    var symbols: Symbols
    var backPatch: seq<nat>
    var code: seq<Entry>
    var lineOf: map<nat, nat>
    /** For each data label the number of the literal it names, and the units emitted so far. */
    ghost var names: map<string, nat>
    ghost var emitted: seq<ICUnit>

    constructor (tokens: seq<Token>, setting: Setting)
      ensures this.tokens == tokens && this.setting == setting && Fresh()
    {
      this.tokens, this.setting := tokens, setting;
      pos, instructionIndex, errorCount, dataIndex := 0, 0, 0, 0;
      dataBuffer, symbols, backPatch, code, lineOf, names, emitted := [], map[], [], [], map[], map[], [];
    }

    ghost predicate Fresh()
      reads this
    {
      && pos == 0 && errorCount == 0 && instructionIndex == 0 && code == [] && backPatch == [] && lineOf == map[]
      && symbols == map[] && dataBuffer == [] && dataIndex == 0 && names == map[] && emitted == []
    }

    function Current(): Token
      reads this
    {
      At(tokens, pos)
    }

    function Peek(n: nat): Token
      reads this
    {
      At(tokens, pos + n)
    }

    method NextToken()
      modifies this`pos
      ensures pos == if old(pos) < |tokens| then old(pos) + 1 else old(pos)
    {
      if pos < |tokens| { pos := pos + 1; }
    }

    /** To the next line. */
    method SkipCurrentLine()
      modifies this`pos
      ensures pos == LineEnd(tokens, old(pos))
    {
      var currLine := Current().line;
      while Current().line == currLine && !Current().kind.Eof?
        invariant LineEndFrom(tokens, pos, currLine) == LineEnd(tokens, old(pos))
        decreases |tokens| - pos
      {
        NextToken();
      }
    }

    method RecordError()
      modifies this`errorCount
      ensures errorCount == old(errorCount) + 2
    {
      errorCount := errorCount + 2;
    }

    // ----- the data section -----

    /** The data read so far. */
    ghost function Known(): Data
      reads this
    {
      Data(dataBuffer, dataIndex, symbols, names, errorCount == 0)
    }

    /** Aligns and appends the literals of one token. */
    method AppendItems(items: seq<DataItem>)
      requires forall i :: 0 <= i < |items| ==> Alignment(items[i]) > 0
      modifies this`dataBuffer, this`dataIndex
      ensures dataBuffer == old(dataBuffer) + items && dataIndex == Advance(old(dataIndex), items)
    {
      hide Alignment, AlignUp, Size;
      for i := 0 to |items|
        invariant dataBuffer == old(dataBuffer) + items[..i] && dataIndex == Advance(old(dataIndex), items[..i])
      {
        assert items[..i + 1][..i] == items[..i];
        dataIndex := AlignUp(dataIndex, Alignment(items[i])) + Size(items[i]);
        dataBuffer := dataBuffer + [items[i]];
      }
      assert items[..|items|] == items;
    }

    /** The literals of the current token; a count of zero is an error. */
    method AppendLiteral(d: DataDirective)
      requires Takes(d, Current().kind)
      modifies this`errorCount, this`dataBuffer, this`dataIndex
      ensures
        var items := LiteralsOf(d, Current().kind);
        && dataBuffer == old(dataBuffer) + items && dataIndex == Advance(old(dataIndex), items)
        && errorCount == old(errorCount) + if items == [] then 2 else 0
    {
      hide LiteralsOf;
      LiteralsAligned(d, Current().kind);
      var items := LiteralsOf(d, Current().kind);
      if items == [] {
        RecordError();
      } else {
        AppendItems(items);
      }
    }

    /** The literals of one directive; the directive itself has been passed. */
    method ParseLiterals(d: DataDirective)
      modifies this`pos, this`errorCount, this`dataBuffer, this`dataIndex
      ensures pos == RunEnd(tokens, old(pos), d) && errorCount >= old(errorCount)
      ensures dataBuffer == old(dataBuffer) + RunItems(tokens, old(pos), d)
      ensures dataIndex == Advance(old(dataIndex), RunItems(tokens, old(pos), d))
      ensures errorCount == old(errorCount) <==> RunOk(tokens, old(pos), d)
      ensures Quiet(tokens, old(pos)) == Quiet(tokens, pos)
    {
      hide LiteralsOf, DirectiveOf, RunEnd, RunItems, RunOk, Advance, AlignUp;
      ghost var start := pos;
      ghost var read: seq<DataItem> := [];
      NothingAdvances(dataIndex);
      while !Current().kind.Eof? && (Takes(d, Current().kind) || Current().kind.Comma?)
        invariant RunEnd(tokens, pos, d) == RunEnd(tokens, start, d) && errorCount >= old(errorCount)
        invariant read + RunItems(tokens, pos, d) == RunItems(tokens, start, d)
        invariant dataBuffer == old(dataBuffer) + read && dataIndex == Advance(old(dataIndex), read)
        invariant errorCount == old(errorCount) && RunOk(tokens, pos, d) <==> RunOk(tokens, start, d)
        invariant Quiet(tokens, old(pos)) == Quiet(tokens, pos)
        decreases |tokens| - pos
      {
        RunStep(tokens, pos, d);
        if Takes(d, Current().kind) {
          ghost var items := LiteralsOf(d, Current().kind);
          AppendLiteral(d);
          AdvanceFurther(old(dataIndex), read, items);
          read := read + items;
        }
        NextToken();
      }
      RunStops(tokens, pos, d);
      assert read + [] == read;
    }

    /** The label is aligned for the directive behind it, and names the next literal. */
    method ParseDataLabel()
      requires Current().kind.Label?
      modifies this`pos, this`errorCount, this`dataIndex, this`symbols, this`names
      ensures pos == old(pos) + 1 && errorCount >= old(errorCount)
      ensures Known() == Labelled(old(Known()), old(Current()), Next(tokens, old(pos)))
    {
      hide AlignUp, DirectiveOf, AlignmentOf;
      var next := DirectiveOf(Peek(1).value);
      if next.Some? {
        PositiveAlignment(next.value);
        dataIndex := AlignUp(dataIndex, AlignmentOf(next.value));
      } else {
        RecordError();
      }
      symbols := symbols[Current().value := SymbolData(dataIndex, Current().line, true)];
      names := names[Current().value := |dataBuffer|];
      NextToken();
    }

    method ParseDataDirective()
      modifies this`pos, this`errorCount, this`dataBuffer, this`dataIndex, this`symbols, this`names
      ensures pos >= old(pos) && errorCount >= old(errorCount)
      ensures DataFrom(tokens, pos, Outside, Known()) == old(DataFrom(tokens, pos, InData, Known()))
      ensures Quiet(tokens, old(pos)) == Quiet(tokens, pos)
    {
      hide RunEnd, RunItems, RunOk, Labelled, LiteralsOf;
      while !EndsSection(Current().value) && !Current().kind.Eof?
        invariant pos >= old(pos) && errorCount >= old(errorCount)
        invariant DataFrom(tokens, pos, InData, Known()) == old(DataFrom(tokens, pos, InData, Known()))
        invariant Quiet(tokens, old(pos)) == Quiet(tokens, pos)
        decreases |tokens| - pos
      {
        if Current().kind.Label? {
          ParseDataLabel();
        } else {
          var d := DirectiveOf(Current().value);
          NextToken();
          if d.Some? {
            ParseLiterals(d.value);
          } else {
            RecordError();
          }
        }
      }
    }

    // ----- the text section -----

    /** The lines of the instructions are recorded. */
    ghost predicate TextOk()
      reads this
    {
      && |code| == instructionIndex == |emitted|
      && (forall i :: i in lineOf <==> 0 <= i < |code|)
      && (forall i :: 0 <= i < |code| ==> lineOf[i] == code[i].unit.line)
    }

    /** The text read so far. */
    ghost function KnownText(): Text
      reads this
    {
      Text.Text(emitted, symbols, errorCount == 0)
    }

    /** Emits a unit; what it stands for is u. */
    method Emit(e: Entry, ghost u: ICUnit)
      requires TextOk()
      modifies this`code, this`lineOf, this`instructionIndex, this`emitted
      ensures TextOk() && code == old(code) + [e] && emitted == old(emitted) + [u]
    {
      code := code + [e];
      emitted := emitted + [u];
      lineOf := lineOf[instructionIndex := e.unit.line];
      instructionIndex := instructionIndex + 1;
    }

    /** The line is answered with these units, or with an error. */
    twostate predicate Yields(us: Option<seq<ICUnit>>)
      reads this
    {
      && pos == LineEnd(tokens, old(pos))
      && match us
         case None => Refused()
         case Some(x) =>
           && errorCount == old(errorCount) && emitted == old(emitted) + x
           && code == old(code) + Entries(x, |old(code)|, symbols)
           && backPatch == old(backPatch) + Open(x, |old(code)|, symbols)
    }

    twostate predicate Refused()
      reads this
    {
      errorCount == old(errorCount) + 2 && code == old(code) && backPatch == old(backPatch) && emitted == old(emitted)
    }

    twostate predicate Kept()
      reads this
    {
      && pos == old(pos) && errorCount == old(errorCount)
      && code == old(code) && backPatch == old(backPatch) && emitted == old(emitted)
    }

    method RefuseLine()
      requires TextOk()
      modifies this`pos, this`errorCount
      ensures TextOk() && Yields(None)
    {
      hide LineEnd;
      RecordError();
      SkipCurrentLine();
    }

    method EmitLine(u: ICUnit)
      requires TextOk() && !NeedsLabel(u)
      modifies this`pos, this`errorCount, this`code, this`lineOf, this`instructionIndex, this`emitted
      ensures TextOk() && Yields(Some([u]))
    {
      hide LineEnd, Entries, Open;
      OneEntry(u, |code|, symbols);
      Emit(Entry(u, true), u);
      SkipCurrentLine();
    }

    method EmitTwo(u: ICUnit, v: ICUnit)
      requires TextOk() && !NeedsLabel(u) && !NeedsLabel(v)
      modifies this`pos, this`errorCount, this`code, this`lineOf, this`instructionIndex, this`emitted
      ensures TextOk() && Yields(Some([u, v]))
    {
      hide LineEnd, Entries, Open, NeedsLabel;
      TwoEntries(u, v, |code|, symbols);
      Emit(Entry(u, true), u);
      Emit(Entry(v, true), v);
      SkipCurrentLine();
    }

    // Each format method answers whether the line has its shape; if not, nothing has changed.

    method ParseO(m: Mnemonic) returns (ok: bool)
      requires TextOk() && m.I3?
      modifies this`pos, this`errorCount, this`code, this`lineOf, this`instructionIndex, this`emitted
      ensures TextOk() && ok == old(EndsAt(tokens, pos, 1)) && (!ok ==> Kept())
      ensures ok ==> Yields(old(Some([UnitO(m, Line(tokens, pos))])))
    {
      hide TextOk, LineEnd;
      ok := EndsAt(tokens, pos, 1);
      if ok { EmitLine(UnitO(m, Current().line)); }
    }

    method ParseGprGprGpr(m: Mnemonic) returns (ok: bool)
      requires TextOk() && m.R?
      modifies this`pos, this`errorCount, this`code, this`lineOf, this`instructionIndex, this`emitted
      ensures TextOk() && ok == old(ThreeRegisters(tokens, pos)) && (!ok ==> Kept())
      ensures ok ==> Yields(old(RegisterUnits(tokens, pos, m)))
    {
      hide TextOk, LineEnd, RegName, ToString;
      ok := ThreeRegisters(tokens, pos);
      if ok { EmitLine(UnitR(m, Peek(1).kind.n, Peek(3).kind.n, Peek(5).kind.n, Current().line)); }
    }

    /** Register-immediate operations and branches by a number. */
    method ParseGprGprImm(m: Mnemonic) returns (ok: bool)
      requires TextOk() && (m.I1? || m.I2? || m.B?)
      modifies this`pos, this`errorCount, this`code, this`lineOf, this`instructionIndex, this`emitted
      ensures TextOk() && ok == old(TwoRegistersAndNumber(tokens, pos)) && (!ok ==> Kept())
      ensures ok ==> Yields(old(NumberUnits(tokens, pos, m)))
    {
      hide TextOk, LineEnd, RegName, ToString;
      ok := TwoRegistersAndNumber(tokens, pos);
      if !ok { return; }
      var r1, r2, imm, line := Peek(1).kind.n, Peek(3).kind.n, Peek(5).kind.v, Current().line;
      PrintedIsNotEmpty(imm);
      if m.B? {
        if -4096 <= imm <= 4095 && imm % 4 == 0 {
          EmitLine(UnitS(m, r1, r2, imm, line));
        } else {
          RefuseLine();
        }
      } else if (m.I2? && 0 <= imm <= 31) || (m.I1? && -2048 <= imm <= 2047) {
        EmitLine(UnitI(m, r1, r2, imm, line));
      } else {
        RefuseLine();
      }
    }

    /** lui, auipc, and jal by a number. */
    method ParseGprImm(m: Mnemonic) returns (ok: bool)
      requires TextOk() && (m.U? || m.J?)
      modifies this`pos, this`errorCount, this`code, this`lineOf, this`instructionIndex, this`emitted
      ensures TextOk() && ok == old(RegisterAndNumber(tokens, pos)) && (!ok ==> Kept())
      ensures ok ==> Yields(old(UpperUnits(tokens, pos, m)))
    {
      hide TextOk, LineEnd, RegName, ToString;
      ok := RegisterAndNumber(tokens, pos);
      if !ok { return; }
      var rd, imm := Peek(1).kind.n, Peek(3).kind.v;
      PrintedIsNotEmpty(imm);
      if (m.U? && 0 <= imm <= 1048575) || (m.J? && -1048576 <= imm <= 1048575 && imm % 2 == 0) {
        EmitLine(UnitU(m, rd, imm, Current().line));
      } else {
        RefuseLine();
      }
    }

    /** Loads, stores and jalr: a register, then an offset and a base register. */
    method ParseGprImmBase(m: Mnemonic) returns (ok: bool)
      requires TextOk() && (m.I1? || m.S?)
      modifies this`pos, this`errorCount, this`code, this`lineOf, this`instructionIndex, this`emitted
      ensures TextOk() && ok == old(RegisterAndBase(tokens, pos)) && (!ok ==> Kept())
      ensures ok ==> Yields(old(BaseUnits(tokens, pos, m)))
    {
      hide TextOk, LineEnd, RegName, ToString;
      ok := RegisterAndBase(tokens, pos);
      if !ok { return; }
      var r, imm, base, line := Peek(1).kind.n, Peek(3).kind.v, Peek(5).kind.n, Current().line;
      if !(-2048 <= imm <= 2047) {
        RefuseLine();
      } else if m.S? {
        EmitLine(UnitS(m, base, r, imm, line));
      } else {
        EmitLine(UnitI(m, r, base, imm, line));
      }
    }

    /** A unit that names a label: its offset is filled in if the code label is known and in range, an
        error if it is out of range, and the unit is queued if the label is not known. */
    method EmitToLabel(u: ICUnit)
      requires TextOk() && NeedsLabel(u)
      modifies this`pos, this`errorCount, this`code, this`lineOf, this`instructionIndex, this`emitted,
               this`backPatch
      ensures TextOk() && Yields(old(LabelUnits(u, symbols, |code|)))
    {
      hide LineEnd, Entries, Open, ToString, Offset, OffsetInRange;
      OneEntry(u, |code|, symbols);
      if KnowsCodeLabel(symbols, u.target) {
        var offset := Offset(symbols[u.target].address, instructionIndex);
        if OffsetInRange(u.opcode, offset) {
          Emit(Entry(u.(imm := ToString(offset)), true), u);
          SkipCurrentLine();
        } else {
          RefuseLine();
        }
      } else {
        backPatch := backPatch + [instructionIndex];
        Emit(Entry(u, false), u);
        SkipCurrentLine();
      }
    }

    method ParseGprGprLabel(m: Mnemonic) returns (ok: bool)
      requires TextOk() && m.B?
      modifies this`pos, this`errorCount, this`code, this`lineOf, this`instructionIndex, this`emitted,
               this`backPatch
      ensures TextOk() && ok == old(TwoRegistersAndLabel(tokens, pos)) && (!ok ==> Kept())
      ensures ok ==> Yields(old(LabelUnits(BranchUnit(tokens, pos, m), symbols, |code|)))
    {
      hide TextOk, LineEnd, RegName, LabelUnits;
      ok := TwoRegistersAndLabel(tokens, pos);
      if ok { EmitToLabel(UnitB(m, Peek(1).kind.n, Peek(3).kind.n, Peek(5).value, Current().line)); }
    }

    method ParseGprLabel(m: Mnemonic) returns (ok: bool)
      requires TextOk() && m.J?
      modifies this`pos, this`errorCount, this`code, this`lineOf, this`instructionIndex, this`emitted,
               this`backPatch
      ensures TextOk() && ok == old(RegisterAndLabel(tokens, pos)) && (!ok ==> Kept())
      ensures ok ==> Yields(old(LabelUnits(JumpUnit(tokens, pos, m), symbols, |code|)))
    {
      hide TextOk, LineEnd, RegName, LabelUnits;
      ok := RegisterAndLabel(tokens, pos);
      if ok { EmitToLabel(UnitJ(m, Peek(1).kind.n, Peek(3).value, Current().line)); }
    }

    // ----- addresses of data labels, and pseudo-instructions -----

    /** la, and the loads that name a data label: auipc with the upper part of the distance to the
        label, then the lower part in the second instruction. */
    method EmitAddress(second: Mnemonic) returns (ok: bool)
      requires TextOk() && second.I1?
      modifies this`pos, this`errorCount, this`code, this`lineOf, this`instructionIndex, this`emitted
      ensures TextOk() && ok == old(RegisterAndLabel(tokens, pos)) && (!ok ==> Kept())
      ensures ok ==> Yields(old(AddressUnits(setting, tokens, pos, second, symbols, |code|)))
    {
      var index := instructionIndex;
      assert index == |code|;
      hide TextOk, LineEnd, RegName, ToString, Upper, Lower, EndsAt, Entries, Open;
      ok := RegisterAndLabel(tokens, pos);
      if !ok { return; }
      var rd, l, line := Peek(1).kind.n, Peek(3).value, Current().line;
      ghost var us := AddressUnits(setting, tokens, pos, second, symbols, |code|);
      if l in symbols && symbols[l].isData {
        var offset := setting.dataStart + symbols[l].address - (4 * index) % TWO32;
        var first, next := UnitU(U(AUIPC), rd, Upper(offset), line), UnitI(second, rd, rd, Lower(offset), line);
        assert us == Some([first, next]);
        hide AddressUnits;
        EmitTwo(first, next);
      } else {
        RefuseLine();
      }
    }

    /** li: one addi for a 12-bit number, else lui and, for a nonzero lower part, addi. */
    method ParseLi() returns (ok: bool)
      requires TextOk()
      modifies this`pos, this`errorCount, this`code, this`lineOf, this`instructionIndex, this`emitted
      ensures TextOk() && ok == old(RegisterAndNumber(tokens, pos)) && (!ok ==> Kept())
      ensures ok ==> Yields(old(LiUnits(tokens, pos)))
    {
      hide TextOk, LineEnd, RegName, ToString;
      ok := RegisterAndNumber(tokens, pos);
      if !ok { return; }
      var rd, imm, line := Peek(1).kind.n, Peek(3).kind.v, Current().line;
      if -2048 <= imm <= 2047 {
        EmitLine(UnitI(I1(ADDI), rd, 0, imm, line));
      } else if MIN32 <= imm < -MIN32 {
        var upper := (imm + 2048) / 4096;
        var lower := imm - 4096 * upper;
        if lower != 0 {
          EmitTwo(UnitU(U(LUI), rd, upper, line), UnitI(I1(ADDI), rd, rd, lower, line));
        } else {
          EmitLine(UnitU(U(LUI), rd, upper, line));
        }
      } else {
        RefuseLine();
      }
    }

    /** mv, not, nop and ret stand for one instruction each. */
    method ParseShorthand(p: PseudoOp) returns (ok: bool)
      requires TextOk() && p in {MV, NOT, NOP, RET}
      modifies this`pos, this`errorCount, this`code, this`lineOf, this`instructionIndex, this`emitted
      ensures TextOk() && (!ok ==> Kept())
      ensures ok == old(if p == MV || p == NOT then RegisterAndRegister(tokens, pos) else EndsAt(tokens, pos, 1))
      ensures ok ==> Yields(old(ShorthandUnits(tokens, pos, p)))
    {
      hide TextOk, LineEnd, RegName, ToString;
      var line := Current().line;
      if p == MV || p == NOT {
        ok := RegisterAndRegister(tokens, pos);
        if !ok { return; }
        var rd, rs := Peek(1).kind.n, Peek(3).kind.n;
        EmitLine(if p == MV then UnitR(R(ADD), rd, rs, 0, line) else UnitI(I1(XORI), rd, rs, -1, line));
      } else {
        ok := EndsAt(tokens, pos, 1);
        if !ok { return; }
        EmitLine(if p == NOP then UnitI(I1(ADDI), 0, 0, 0, line) else UnitI(I1(JALR), 0, 1, 0, line));
      }
    }

    method ParsePseudo(p: PseudoOp) returns (ok: bool)
      requires TextOk()
      modifies this`pos, this`errorCount, this`code, this`lineOf, this`instructionIndex, this`emitted
      ensures TextOk() && ok == old(HasSyntax(tokens, pos, Pseudo(p))) && (!ok ==> Kept())
      ensures ok ==> Yields(old(PseudoUnits(setting, tokens, pos, p, symbols, |code|)))
    {
      hide TextOk, LineEnd, ThreeRegisters, TwoRegistersAndNumber, TwoRegistersAndLabel, RegisterAndRegister,
           RegisterAndNumber, RegisterAndLabel, RegisterAndBase, EndsAt, RegisterUnits, NumberUnits, UpperUnits,
           BaseUnits, LabelUnits, BranchUnit, JumpUnit, AddressUnits, LiUnits, ShorthandUnits, UnitO, Entries, Open;
      if p == LA {
        ok := EmitAddress(I1(ADDI));
      } else if p == LI {
        ok := ParseLi();
      } else if p in {MV, NOT, NOP, RET} {
        ok := ParseShorthand(p);
      } else {
        ok := false;
      }
    }

    method ParseImmediate(m: Mnemonic) returns (ok: bool)
      requires TextOk() && m.I1?
      modifies this`pos, this`errorCount, this`code, this`lineOf, this`instructionIndex, this`emitted
      ensures TextOk() && ok == old(HasSyntax(tokens, pos, m)) && (!ok ==> Kept())
      ensures ok ==> Yields(old(LineUnits(setting, tokens, pos, m, symbols, |code|)))
    {
      LoadsAndNumbers(tokens, pos);
      hide TextOk, LineEnd, ThreeRegisters, TwoRegistersAndNumber, TwoRegistersAndLabel, RegisterAndRegister,
           RegisterAndNumber, RegisterAndLabel, RegisterAndBase, EndsAt, RegisterUnits, NumberUnits, UpperUnits,
           BaseUnits, LabelUnits, BranchUnit, JumpUnit, AddressUnits, LiUnits, ShorthandUnits, UnitO, Entries, Open;
      ok := false;
      if m.i1 in {LB, LH, LW, LD} {
        ok := ParseGprImmBase(m);
        if !ok { ok := EmitAddress(m); }
      } else if m.i1 in {LBU, LHU, LWU, JALR} {
        ok := ParseGprImmBase(m);
      } else if m.i1 != ADDIW {
        ok := ParseGprGprImm(m);
      }
    }

    /** Tries the syntaxes of a mnemonic in turn. */
    method ParseInstruction(m: Mnemonic) returns (ok: bool)
      requires TextOk()
      modifies this`pos, this`errorCount, this`code, this`lineOf, this`instructionIndex, this`emitted,
               this`backPatch
      ensures TextOk() && ok == old(HasSyntax(tokens, pos, m)) && (!ok ==> Kept())
      ensures ok ==> Yields(old(LineUnits(setting, tokens, pos, m, symbols, |code|)))
    {
      hide TextOk, LineEnd, ThreeRegisters, TwoRegistersAndNumber, TwoRegistersAndLabel, RegisterAndRegister,
           RegisterAndNumber, RegisterAndLabel, RegisterAndBase, EndsAt, RegisterUnits, NumberUnits, UpperUnits,
           BaseUnits, LabelUnits, BranchUnit, JumpUnit, AddressUnits, PseudoUnits, UnitO, Entries, Open;
      ok := false;
      match m
      case R(op) =>
        if op !in {ADDW, SUBW, SLLW, SRLW, SRAW} { ok := ParseGprGprGpr(m); }
      case I1(_) =>
        ok := ParseImmediate(m);
      case I2(op) =>
        if op in {SLLI, SRLI, SRAI} { ok := ParseGprGprImm(m); }
      case I3(_) =>
        ok := ParseO(m);
      case S(_) =>
        ok := ParseGprImmBase(m);
      case B(_) =>
        ok := ParseGprGprImm(m);
        if !ok { ok := ParseGprGprLabel(m); }
      case U(_) =>
        ok := ParseGprImm(m);
      case J(_) =>
        ok := ParseGprImm(m);
        if !ok { ok := ParseGprLabel(m); }
      case Pseudo(p) =>
        ok := ParsePseudo(p);
      case _ =>
    }

    /** The code stands for the units read so far. */
    ghost predicate Mirrors()
      reads this
    {
      Reflects(code, backPatch, emitted, symbols)
    }

    /** One line with a mnemonic: its units, or an error. */
    method ReadInstruction()
      requires TextOk() && Mirrors() && Current().kind.Opcode?
      modifies this`pos, this`errorCount, this`code, this`lineOf, this`instructionIndex, this`emitted,
               this`backPatch
      ensures TextOk() && Mirrors() && errorCount >= old(errorCount) && pos == LineEnd(tokens, old(pos))
      ensures KnownText() == LineOf(setting, tokens, old(pos), old(Current().kind.mnemonic), old(KnownText()))
    {
      assert |code| == |emitted|;
      hide TextOk, Reflects, LineEnd, LineUnits, HasSyntax, IsMExtension, Entries, Open;
      var m := Current().kind.mnemonic;
      if IsMExtension(m) && !setting.mExtension {
        RefuseLine();
      } else {
        ghost var us := LineUnits(setting, tokens, pos, m, symbols, |code|);
        if us.Some? {
          LineIsEmittable(setting, tokens, pos, m, symbols, |code|);
          EntriesReflect(code, backPatch, emitted, symbols, us.value);
        }
        var ok := ParseInstruction(m);
        if !ok {
          NoSyntaxNoUnits(setting, tokens, pos, m, symbols, |code|);
          RefuseLine();
        }
      }
    }

    /** A label of the text section names the next instruction; naming it twice is an error. */
    method ParseTextLabel()
      requires TextOk() && Mirrors() && Current().kind.Label?
      modifies this`pos, this`errorCount, this`symbols
      ensures TextOk() && Mirrors() && pos == old(pos) + 1 && errorCount >= old(errorCount)
      ensures KnownText() == WithLabel(old(KnownText()), old(Current()))
    {
      hide Reflects;
      var l := Current().value;
      if l in symbols {
        RecordError();
      } else {
        LabelReflects(code, backPatch, emitted, symbols, l,
                      SymbolData((4 * instructionIndex) % TWO32, Current().line, false));
        symbols := symbols[l := SymbolData((4 * instructionIndex) % TWO32, Current().line, false)];
      }
      NextToken();
    }

    method ParseTextDirective()
      requires TextOk() && Mirrors()
      modifies this`pos, this`errorCount, this`code, this`lineOf, this`instructionIndex, this`emitted,
               this`backPatch, this`symbols
      ensures TextOk() && Mirrors() && errorCount >= old(errorCount) && pos >= old(pos)
      ensures !old(Current()).kind.Directive? && !old(Current()).kind.Eof? ==> pos > old(pos)
      ensures Current().kind.Directive? || Current().kind.Eof?
      ensures TextFrom(setting, tokens, pos, Main, KnownText()) ==
        old(TextFrom(setting, tokens, pos, InText, KnownText()))
    {
      hide TextOk, Reflects, LineOf, WithLabel, LineEnd;
      while !Current().kind.Directive? && !Current().kind.Eof?
        invariant TextOk() && Mirrors() && errorCount >= old(errorCount) && pos >= old(pos)
        invariant pos == old(pos) ==> Current() == old(Current())
        invariant TextFrom(setting, tokens, pos, InText, KnownText()) ==
          old(TextFrom(setting, tokens, pos, InText, KnownText()))
        decreases |tokens| - pos
      {
        if Current().kind.Label? {
          ParseTextLabel();
        } else if Current().kind.Opcode? {
          ReadInstruction();
        } else {
          RefuseLine();
        }
      }
    }

    // ----- the two passes -----

    /** The first pass skips text. */
    method SkipText()
      modifies this`pos
      ensures pos >= old(pos) && (Current().kind.Eof? || StopsSkipping(Current().value))
      ensures old(!Current().kind.Eof? && !StopsSkipping(Current().value)) ==> pos > old(pos)
      ensures forall known :: DataFrom(tokens, pos, Outside, known) == DataFrom(tokens, old(pos), Passed, known)
      ensures Quiet(tokens, old(pos)) == Quiet(tokens, pos)
    {
      while !Current().kind.Eof? && !StopsSkipping(Current().value)
        invariant pos >= old(pos)
        invariant pos == old(pos) ==> Current() == old(Current())
        invariant forall known :: DataFrom(tokens, pos, Passed, known) == DataFrom(tokens, old(pos), Passed, known)
        invariant Quiet(tokens, old(pos)) == Quiet(tokens, pos)
        decreases |tokens| - pos
      {
        NextToken();
      }
    }

    /** The second pass skips to the next word that reads text. */
    method SkipToText()
      modifies this`pos
      ensures pos >= old(pos) && (old(!Current().kind.Eof? && Current().value != "text") ==> pos > old(pos))
      ensures forall known ::
        TextFrom(setting, tokens, pos, Main, known) == TextFrom(setting, tokens, old(pos), Skipping, known)
    {
      hide LineOf, WithLabel, LineEnd;
      while !Current().kind.Eof? && Current().value != "text"
        invariant pos >= old(pos)
        invariant pos == old(pos) ==> Current() == old(Current())
        invariant forall known ::
          TextFrom(setting, tokens, pos, Skipping, known) == TextFrom(setting, tokens, old(pos), Skipping, known)
        decreases |tokens| - pos
      {
        NextToken();
      }
    }

    method ParseBssDirective()
      modifies this`pos
      ensures pos >= old(pos)
      ensures forall known :: DataFrom(tokens, pos, Outside, known) == DataFrom(tokens, old(pos), InBss, known)
      ensures Quiet(tokens, old(pos)) == Quiet(tokens, pos)
    {
      while !EndsSection(Current().value) && !Current().kind.Eof?
        invariant pos >= old(pos)
        invariant forall known :: DataFrom(tokens, pos, InBss, known) == DataFrom(tokens, old(pos), InBss, known)
        invariant Quiet(tokens, old(pos)) == Quiet(tokens, pos)
        decreases |tokens| - pos
      {
        NextToken();
      }
    }

    /** The first pass lays out the data sections. It ends exactly if no label or mnemonic in front of
        the end reads like a section name; at the first that does, the source spins. */
    method FirstPass() returns (ends: bool)
      modifies this`pos, this`errorCount, this`dataBuffer, this`dataIndex, this`symbols, this`names
      ensures ends <==> Quiet(tokens, old(pos))
      ensures ends <==> Current().kind.Eof?
      ensures !ends ==> Spins(Current())
      ensures errorCount >= old(errorCount)
      ensures ends ==> Known() == old(DataFrom(tokens, pos, Outside, Known()))
    {
      while !Current().kind.Eof?
        invariant errorCount >= old(errorCount)
        invariant Quiet(tokens, old(pos)) == Quiet(tokens, pos)
        invariant DataFrom(tokens, pos, Outside, Known()) == old(DataFrom(tokens, pos, Outside, Known()))
        decreases |tokens| - pos
      {
        var t := Current();
        if t.kind.Directive? && t.value == "section" {
          NextToken();
        } else if t.kind.Directive? && t.value == "data" {
          NextToken();
          ParseDataDirective();
        } else if t.kind.Directive? && t.value == "bss" {
          NextToken();
          ParseBssDirective();
        } else if (t.kind.Directive? && t.value == "text") || t.kind.Label? || t.kind.Opcode? {
          if StopsSkipping(t.value) { return false; }
          SkipText();
        } else {
          RecordError();
          NextToken();
        }
      }
      ends := true;
    }

    /** The second pass emits the text sections. */
    method SecondPass()
      requires TextOk() && Mirrors()
      modifies this`pos, this`errorCount, this`code, this`lineOf, this`instructionIndex, this`emitted,
               this`backPatch, this`symbols
      ensures TextOk() && Mirrors() && Current().kind.Eof? && errorCount >= old(errorCount)
      ensures KnownText() == old(TextFrom(setting, tokens, pos, Main, KnownText()))
    {
      hide Reflects, LineOf, WithLabel, LineEnd;
      while !Current().kind.Eof?
        invariant TextOk() && Mirrors() && errorCount >= old(errorCount)
        invariant TextFrom(setting, tokens, pos, Main, KnownText()) ==
          old(TextFrom(setting, tokens, pos, Main, KnownText()))
        decreases |tokens| - pos
      {
        var t := Current();
        if t.kind.Directive? && t.value == "section" {
          NextToken();
        } else if t.kind.Directive? && (t.value == "data" || t.value == "bss") {
          SkipToText();
        } else if t.kind.Directive? && t.value == "text" {
          NextToken();
          ParseTextDirective();
        } else if t.kind.Label? || t.kind.Opcode? {
          ParseTextDirective();
        } else {
          RecordError();
          NextToken();
        }
      }
    }

    // ----- back-patching -----

    /** Gives one queued unit its offset, or records an error exactly if it cannot be given one. A
        branch to a data label is an error that leaves the immediate empty; a jump to one is not. */
    method PatchUnit(index: nat)
      requires index < |code| && (code[index].unit.opcode.B? || code[index].unit.opcode.J?)
      modifies this`code, this`errorCount
      ensures |code| == |old(code)| && forall i :: 0 <= i < |code| && i != index ==> code[i] == old(code)[i]
      ensures OnlyFilled(code[index], old(code)[index].unit)
      ensures errorCount == old(errorCount) + if CanFill(old(code)[index].unit, index, symbols) then 0 else 2
      ensures CanFill(old(code)[index].unit, index, symbols) ==>
        code[index] ==
          Entry(old(code)[index].unit.(imm := ToString(Offset(symbols[old(code)[index].unit.target].address, index))),
                true)
    {
      hide Offset, OffsetInRange, ToString;
      var block := code[index].unit;
      if block.target in symbols {
        if block.opcode.B? && symbols[block.target].isData {
          RecordError();
        } else {
          var offset := Offset(symbols[block.target].address, index);
          if !OffsetInRange(block.opcode, offset) {
            RecordError();
            return;
          }
          block := block.(imm := ToString(offset));
        }
        code := code[index := Entry(block, true)];
      } else {
        RecordError();
      }
    }

    /** Fills in the queued units: without an error exactly if the program is linkable, and then the
        code is the program. */
    method BackPatch()
      requires TextOk() && Mirrors()
      modifies this`code, this`errorCount
      ensures TextOk() && errorCount >= old(errorCount)
      ensures errorCount == old(errorCount) <==> Linkable(old(KnownText()))
      ensures errorCount == old(errorCount) ==>
        forall j :: 0 <= j < |code| ==> code[j] == Entry(UnitOf(old(KnownText()), j), true)
    {
      hide CanFill, Offset, ToString, Reflects, UnitOf, Linkable, AllFillable, AllFilled;
      ghost var text := KnownText();
      ghost var before := code;
      NothingQueued(code, text);
      QueueDecides(code, backPatch, text);
      QueueIsInCode(code, backPatch, text);
      for k := 0 to |backPatch|
        invariant |code| == |before| && errorCount >= old(errorCount)
        invariant forall j :: 0 <= j < |code| && j !in backPatch[..k] ==> code[j] == before[j]
        invariant forall j :: 0 <= j < |code| ==> OnlyFilled(code[j], before[j].unit)
        invariant errorCount == old(errorCount) <==> AllFillable(backPatch[..k], text)
        invariant errorCount == old(errorCount) ==> AllFilled(backPatch[..k], code, text)
      {
        assert backPatch[k] in backPatch;
        var index := backPatch[k];
        QueuedUnit(before, backPatch, text, code, index);
        ghost var now := code;
        PatchUnit(index);
        assert backPatch[..k + 1] == backPatch[..k] + [index];
        OneMoreQueued(backPatch[..k], index, text);
        if errorCount == old(errorCount) { OneMoreFilled(backPatch[..k], now, code, index, text); }
      }
      assert backPatch[..|backPatch|] == backPatch;
      if errorCount == old(errorCount) { FilledIsProgram(before, code, backPatch, text); }
    }

    /** The second pass, from the first token, and the back-patching behind it. */
    method EmitText()
      requires TextOk() && Mirrors()
      modifies this`pos, this`errorCount, this`code, this`lineOf, this`instructionIndex, this`emitted,
               this`backPatch, this`symbols
      ensures TextOk() && errorCount >= old(errorCount)
      ensures
        var text := old(TextFrom(setting, tokens, pos, Main, KnownText()));
        && symbols == text.symbols && |code| == |text.units|
        && (errorCount == 0 <==> text.ok && Linkable(text))
        && (errorCount == 0 ==> forall j :: 0 <= j < |code| ==> code[j] == Entry(UnitOf(text, j), true))
    {
      assert |code| == |emitted|;
      hide Linkable, TextFrom, UnitOf, Reflects;
      SecondPass();
      BackPatch();
    }

    /** Parsing ends exactly if the program is quiet, and then without errors exactly if it assembles.
        The data is then that of the tokens, and the code and the symbols are the program's. */
    method Parse() returns (ends: bool)
      requires Fresh()
      modifies this
      ensures ends <==> Quiet(tokens, 0)
      ensures ends ==>
        && dataBuffer == DataOf(tokens).items && dataIndex == DataOf(tokens).index
        && symbols == TextOf(setting, tokens).symbols && |code| == |TextOf(setting, tokens).units|
      ensures ends ==> (errorCount == 0 <==> Assembles(setting, tokens))
      ensures ends && errorCount == 0 ==>
        forall j :: 0 <= j < |code| ==> code[j] == Entry(UnitOf(TextOf(setting, tokens), j), true)
      ensures TextOk()
    {
      hide DataFrom, TextFrom, Linkable, UnitOf, Quiet;
      ends := FirstPass();
      if !ends { return; }
      ghost var data := Known();
      pos := 0;
      instructionIndex := 0;
      ErrorsRemain(setting, tokens, 0, Main, Text.Text([], symbols, true));
      EmitText();
    }
  }
}
