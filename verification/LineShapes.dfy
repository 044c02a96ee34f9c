/** The shapes of an instruction line: what may follow the mnemonic, which is the i-th token. */
module LineShapes {
  import opened Instructions
  import opened Tokens

  function At(s: seq<Token>, i: nat): Token { if i < |s| then s[i] else END }

  /** The first token from j on that is not on this line, or the end. */
  function LineEndFrom(s: seq<Token>, j: nat, line: nat): (end: nat)
    ensures j <= end
    decreases |s| - j
  {
    if At(s, j).kind.Eof? || At(s, j).line != line then j else LineEndFrom(s, j + 1, line)
  }

  function LineEnd(s: seq<Token>, i: nat): (end: nat)
    ensures i <= end && (!At(s, i).kind.Eof? ==> i < end)
  {
    LineEndFrom(s, i, At(s, i).line)
  }

  predicate OnLine(s: seq<Token>, i: nat, n: nat) { At(s, i + n).line == At(s, i).line }

  predicate IsRegister(s: seq<Token>, i: nat, n: nat) { OnLine(s, i, n) && At(s, i + n).kind.GpRegister? }

  predicate IsComma(s: seq<Token>, i: nat, n: nat) { OnLine(s, i, n) && At(s, i + n).kind.Comma? }

  predicate IsNumber(s: seq<Token>, i: nat, n: nat) { OnLine(s, i, n) && At(s, i + n).kind.Num? }

  predicate IsLabelRef(s: seq<Token>, i: nat, n: nat) { OnLine(s, i, n) && At(s, i + n).kind.LabelRef? }

  /** The line ends before the n-th token from here. */
  predicate EndsAt(s: seq<Token>, i: nat, n: nat) { At(s, i + n).kind.Eof? || !OnLine(s, i, n) }

  predicate TwoRegisters(s: seq<Token>, i: nat) { IsRegister(s, i, 1) && IsComma(s, i, 2) && IsRegister(s, i, 3) }

  predicate ThreeRegisters(s: seq<Token>, i: nat) {
    TwoRegisters(s, i) && IsComma(s, i, 4) && IsRegister(s, i, 5) && EndsAt(s, i, 6)
  }

  predicate TwoRegistersAndNumber(s: seq<Token>, i: nat) {
    TwoRegisters(s, i) && IsComma(s, i, 4) && IsNumber(s, i, 5) && EndsAt(s, i, 6)
  }

  predicate TwoRegistersAndLabel(s: seq<Token>, i: nat) {
    TwoRegisters(s, i) && IsComma(s, i, 4) && IsLabelRef(s, i, 5) && EndsAt(s, i, 6)
  }

  predicate RegisterAndRegister(s: seq<Token>, i: nat) { TwoRegisters(s, i) && EndsAt(s, i, 4) }

  predicate RegisterAndNumber(s: seq<Token>, i: nat) {
    IsRegister(s, i, 1) && IsComma(s, i, 2) && IsNumber(s, i, 3) && EndsAt(s, i, 4)
  }

  predicate RegisterAndLabel(s: seq<Token>, i: nat) {
    IsRegister(s, i, 1) && IsComma(s, i, 2) && IsLabelRef(s, i, 3) && EndsAt(s, i, 4)
  }

  predicate RegisterAndBase(s: seq<Token>, i: nat) {
    && IsRegister(s, i, 1) && IsComma(s, i, 2) && IsNumber(s, i, 3)
    && OnLine(s, i, 4) && At(s, i + 4).kind.LParen? && IsRegister(s, i, 5)
    && OnLine(s, i, 6) && At(s, i + 6).kind.RParen? && EndsAt(s, i, 7)
  }

  /** The rest of the line has one of the syntaxes of the mnemonic. The word operations without a
      multiplication have none; those of CSR and floating-point instructions are not modelled. */
  predicate HasSyntax(s: seq<Token>, i: nat, m: Mnemonic) {
    match m
    case R(op) => op !in {ADDW, SUBW, SLLW, SRLW, SRAW} && ThreeRegisters(s, i)
    case I1(op) =>
      if op in {LB, LH, LW, LD} then RegisterAndBase(s, i) || RegisterAndLabel(s, i)
      else if op in {LBU, LHU, LWU, JALR} then RegisterAndBase(s, i)
      else op != ADDIW && TwoRegistersAndNumber(s, i)
    case I2(op) => op in {SLLI, SRLI, SRAI} && TwoRegistersAndNumber(s, i)
    case I3(_) => EndsAt(s, i, 1)
    case S(_) => RegisterAndBase(s, i)
    case B(_) => TwoRegistersAndNumber(s, i) || TwoRegistersAndLabel(s, i)
    case U(_) => RegisterAndNumber(s, i)
    case J(_) => RegisterAndNumber(s, i) || RegisterAndLabel(s, i)
    case Pseudo(p) =>
      if p == LA then RegisterAndLabel(s, i)
      else if p == LI then RegisterAndNumber(s, i)
      else if p == MV || p == NOT then RegisterAndRegister(s, i)
      else (p == NOP || p == RET) && EndsAt(s, i, 1)
    case _ => false
  }
}
