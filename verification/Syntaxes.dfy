/** The table of syntaxes: what may follow each mnemonic on its line, spelled out. */
module Syntaxes {
  import opened Instructions
  import opened Tokens
  import opened LineShapes

  /** A letter for each kind of operand token. */
  function Letter(k: Kind): char {
    match k
    case GpRegister(_) => 'r'
    case Num(_) => 'n'
    case LabelRef => 'l'
    case Comma => ','
    case LParen => '('
    case RParen => ')'
    case _ => '?'
  }

  /** The rest of the line from token j on. */
  function SpelledFrom(s: seq<Token>, j: nat, line: nat): string
    decreases |s| - j
  {
    if At(s, j).kind.Eof? || At(s, j).line != line then "" else [Letter(At(s, j).kind)] + SpelledFrom(s, j + 1, line)
  }

  /** What follows the mnemonic on its line. */
  function Spelled(s: seq<Token>, i: nat): string { SpelledFrom(s, i + 1, At(s, i).line) }

  function SyntaxesOf(m: Mnemonic): set<string> {
    match m
    case R(op) => if op in {ADDW, SUBW, SLLW, SRLW, SRAW} then {} else {"r,r,r"}
    case I1(op) =>
      if op in {ADDI, XORI, ORI, ANDI, SLTI, SLTIU} then {"r,r,n"}
      else if op in {LB, LH, LW, LD} then {"r,n(r)", "r,l"}
      else if op in {LBU, LHU, LWU, JALR} then {"r,n(r)"}
      else {}
    case I2(op) => if op in {SLLI, SRLI, SRAI} then {"r,r,n"} else {}
    case I3(_) => {""}
    case S(_) => {"r,n(r)"}
    case B(_) => {"r,r,n", "r,r,l"}
    case U(_) => {"r,n"}
    case J(_) => {"r,n", "r,l"}
    case Pseudo(p) =>
      if p == LA then {"r,l"} else if p == LI then {"r,n"} else if p == MV || p == NOT then {"r,r"}
      else if p == NOP || p == RET then {""} else {}
    case _ => {}
  }

  /** Each letter is there, and then the line ends. */
  predicate Matches(s: seq<Token>, j: nat, line: nat, text: string)
    decreases |text|
  {
    if text == "" then At(s, j).kind.Eof? || At(s, j).line != line
    else At(s, j).line == line && Letter(At(s, j).kind) == text[0] && Matches(s, j + 1, line, text[1..])
  }

  lemma {:induction false} SpelledMatches(s: seq<Token>, j: nat, line: nat, text: string)
    requires '?' !in text
    ensures SpelledFrom(s, j, line) == text <==> Matches(s, j, line, text)
    decreases |text|
  {
    hide Letter;
    if At(s, j).kind.Eof? { EofIsNoLetter(s, j); }
    if text != "" {
      SpelledMatches(s, j + 1, line, text[1..]);
      if SpelledFrom(s, j, line) == text { assert SpelledFrom(s, j, line)[1..] == text[1..]; }
      assert text == [text[0]] + text[1..];
    }
  }

  lemma EofIsNoLetter(s: seq<Token>, j: nat)
    requires At(s, j).kind.Eof?
    ensures Letter(At(s, j).kind) == '?'
  {
  }

  lemma ThreeRegistersSpelled(s: seq<Token>, i: nat)
    ensures ThreeRegisters(s, i) <==> Spelled(s, i) == "r,r,r"
  {
    hide SpelledFrom;
    SpelledMatches(s, i + 1, At(s, i).line, "r,r,r");
  }

  lemma TwoRegistersAndNumberSpelled(s: seq<Token>, i: nat)
    ensures TwoRegistersAndNumber(s, i) <==> Spelled(s, i) == "r,r,n"
  {
    hide SpelledFrom;
    SpelledMatches(s, i + 1, At(s, i).line, "r,r,n");
  }

  lemma TwoRegistersAndLabelSpelled(s: seq<Token>, i: nat)
    ensures TwoRegistersAndLabel(s, i) <==> Spelled(s, i) == "r,r,l"
  {
    hide SpelledFrom;
    SpelledMatches(s, i + 1, At(s, i).line, "r,r,l");
  }

  lemma RegisterAndRegisterSpelled(s: seq<Token>, i: nat)
    ensures RegisterAndRegister(s, i) <==> Spelled(s, i) == "r,r"
  {
    hide SpelledFrom;
    SpelledMatches(s, i + 1, At(s, i).line, "r,r");
  }

  lemma RegisterAndNumberSpelled(s: seq<Token>, i: nat)
    ensures RegisterAndNumber(s, i) <==> Spelled(s, i) == "r,n"
  {
    hide SpelledFrom;
    SpelledMatches(s, i + 1, At(s, i).line, "r,n");
  }

  lemma RegisterAndLabelSpelled(s: seq<Token>, i: nat)
    ensures RegisterAndLabel(s, i) <==> Spelled(s, i) == "r,l"
  {
    hide SpelledFrom;
    SpelledMatches(s, i + 1, At(s, i).line, "r,l");
  }

  lemma RegisterAndBaseSpelled(s: seq<Token>, i: nat)
    ensures RegisterAndBase(s, i) <==> Spelled(s, i) == "r,n(r)"
  {
    hide SpelledFrom;
    SpelledMatches(s, i + 1, At(s, i).line, "r,n(r)");
  }

  lemma NothingSpelled(s: seq<Token>, i: nat)
    ensures EndsAt(s, i, 1) <==> Spelled(s, i) == ""
  {
  }

  /** A line is accepted exactly if it is spelled as the table says. */
  lemma SyntaxExactly(s: seq<Token>, i: nat, m: Mnemonic)
    ensures HasSyntax(s, i, m) <==> Spelled(s, i) in SyntaxesOf(m)
  {
    hide Spelled, ThreeRegisters, TwoRegistersAndNumber, TwoRegistersAndLabel, RegisterAndRegister, RegisterAndNumber,
         RegisterAndLabel, RegisterAndBase, EndsAt;
    ThreeRegistersSpelled(s, i);
    TwoRegistersAndNumberSpelled(s, i);
    TwoRegistersAndLabelSpelled(s, i);
    RegisterAndRegisterSpelled(s, i);
    RegisterAndNumberSpelled(s, i);
    RegisterAndLabelSpelled(s, i);
    RegisterAndBaseSpelled(s, i);
    NothingSpelled(s, i);
  }
}
