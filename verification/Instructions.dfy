/** Mnemonics and the constant fields of their encodings, one table a format as the assembler
    keeps them. */
module Instructions {
  import opened Options

  datatype ROp =
    | ADD | SUB | XOR | OR | AND | SLL | SRL | SRA | SLT | SLTU | ADDW | SUBW | SLLW | SRLW | SRAW | MUL | MULH
    | MULHSU | MULHU | DIV | DIVU | REM | REMU | MULW | DIVW | DIVUW | REMW | REMUW

  datatype I1Op = ADDI | XORI | ORI | ANDI | SLTIU | SLTI | ADDIW | LB | LH | LW | LD | LBU | LHU | LWU | JALR

  datatype I2Op = SLLI | SRLI | SRAI | SLLIW | SRLIW | SRAIW

  datatype I3Op = ECALL

  datatype SOp = SB | SH | SW | SD

  datatype BOp = BEQ | BNE | BLT | BGE | BLTU | BGEU

  datatype UOp = LUI | AUIPC

  datatype JOp = JAL

  datatype CsrROp = CSRRW | CSRRS | CSRRC

  datatype CsrIOp = CSRRWI | CSRRSI | CSRRCI

  datatype FdROp =
    | FSGNJ_S | FSGNJN_S | FSGNJX_S | FMIN_S | FMAX_S | FEQ_S | FLT_S | FLE_S | FEQ_D | FLT_D | FLE_D | FSGNJ_D
    | FSGNJN_D | FSGNJX_D | FMIN_D | FMAX_D

  datatype FdR1Op = FADD_S | FSUB_S | FMUL_S | FDIV_S | FADD_D | FSUB_D | FMUL_D | FDIV_D

  datatype FdR2Op =
    | FSQRT_S | FCVT_W_S | FCVT_WU_S | FCVT_L_S | FCVT_LU_S | FCVT_S_W | FCVT_S_WU | FCVT_S_L | FCVT_S_LU
    | FSQRT_D | FCVT_W_D | FCVT_WU_D | FCVT_L_D | FCVT_LU_D | FCVT_D_W | FCVT_D_WU | FCVT_D_L | FCVT_D_LU
    | FCVT_S_D | FCVT_D_S

  datatype FdR3Op = FMV_W_X | FMV_X_W | FCLASS_S | FMV_D_X | FMV_X_D | FCLASS_D

  datatype FdR4Op = FMADD_S | FMSUB_S | FNMSUB_S | FNMADD_S | FMADD_D | FMSUB_D | FNMSUB_D | FNMADD_D

  datatype FdIOp = FLW | FLD

  datatype FdSOp = FSW | FSD

  datatype PseudoOp = LA | NOP | LI | MV | NOT | RET | OTHER_PSEUDO

  datatype Mnemonic =
    | R(r: ROp) | I1(i1: I1Op) | I2(i2: I2Op) | I3(i3: I3Op) | S(s: SOp) | B(b: BOp) | U(u: UOp) | J(j: JOp)
    | CsrR(csrR: CsrROp) | CsrI(csrI: CsrIOp) | FdR(fdR: FdROp) | FdR1(fdR1: FdR1Op) | FdR2(fdR2: FdR2Op)
    | FdR3(fdR3: FdR3Op) | FdR4(fdR4: FdR4Op) | FdI(fdI: FdIOp) | FdS(fdS: FdSOp) | Pseudo(pseudo: PseudoOp)

  /** The constant fields of a format, after section 2.2 of the RISC-V manual, volume I. */
  datatype Encoding =
    | REncoding(opcode: bv32, funct3: bv32, funct7: bv32)
    | I1Encoding(opcode: bv32, funct3: bv32)
    | I2Encoding(opcode: bv32, funct3: bv32, funct6: bv32)
    | I3Encoding(opcode: bv32, funct3: bv32)
    | SEncoding(opcode: bv32, funct3: bv32)
    | BEncoding(opcode: bv32, funct3: bv32)
    | UEncoding(opcode: bv32)
    | JEncoding(opcode: bv32)
    | CsrREncoding(opcode: bv32, funct3: bv32)
    | CsrIEncoding(opcode: bv32, funct3: bv32)
    | FdREncoding(opcode: bv32, funct3: bv32, funct7: bv32)
    | FdR1Encoding(opcode: bv32, funct7: bv32)
    | FdR2Encoding(opcode: bv32, funct5: bv32, funct7: bv32)
    | FdR3Encoding(opcode: bv32, funct3: bv32, funct5: bv32, funct7: bv32)
    | FdR4Encoding(opcode: bv32, funct2: bv32)
    | FdIEncoding(opcode: bv32, funct3: bv32)
    | FdSEncoding(opcode: bv32, funct3: bv32)

  function RTable(op: ROp): (e: Encoding)
    ensures e.REncoding? && e.opcode < 128 && e.funct3 < 8 && e.funct7 < 128
  {
    match op
    case ADD => REncoding(0x33, 0, 0)
    case SUB => REncoding(0x33, 0, 0x20)
    case XOR => REncoding(0x33, 4, 0)
    case OR => REncoding(0x33, 6, 0)
    case AND => REncoding(0x33, 7, 0)
    case SLL => REncoding(0x33, 1, 0)
    case SRL => REncoding(0x33, 5, 0)
    case SRA => REncoding(0x33, 5, 0x20)
    case SLT => REncoding(0x33, 2, 0)
    case SLTU => REncoding(0x33, 3, 0)
    case ADDW => REncoding(0x3B, 0, 0)
    case SUBW => REncoding(0x3B, 0, 0x20)
    case SLLW => REncoding(0x3B, 1, 0)
    case SRLW => REncoding(0x3B, 5, 0)
    case SRAW => REncoding(0x3B, 5, 0x20)
    case MUL => REncoding(0x33, 0, 1)
    case MULH => REncoding(0x33, 1, 1)
    case MULHSU => REncoding(0x33, 2, 1)
    case MULHU => REncoding(0x33, 3, 1)
    case DIV => REncoding(0x33, 4, 1)
    case DIVU => REncoding(0x33, 5, 1)
    case REM => REncoding(0x33, 6, 1)
    case REMU => REncoding(0x33, 7, 1)
    case MULW => REncoding(0x3B, 0, 1)
    case DIVW => REncoding(0x3B, 4, 1)
    case DIVUW => REncoding(0x3B, 5, 1)
    case REMW => REncoding(0x3B, 6, 1)
    case REMUW => REncoding(0x3B, 7, 1)
  }

  function I1Table(op: I1Op): (e: Encoding)
    ensures e.I1Encoding? && e.opcode < 128 && e.funct3 < 8
  {
    match op
    case ADDI => I1Encoding(0x13, 0)
    case XORI => I1Encoding(0x13, 4)
    case ORI => I1Encoding(0x13, 6)
    case ANDI => I1Encoding(0x13, 7)
    case SLTIU => I1Encoding(0x13, 3)
    case SLTI => I1Encoding(0x13, 2)
    case ADDIW => I1Encoding(0x1B, 0)
    case LB => I1Encoding(3, 0)
    case LH => I1Encoding(3, 1)
    case LW => I1Encoding(3, 2)
    case LD => I1Encoding(3, 3)
    case LBU => I1Encoding(3, 4)
    case LHU => I1Encoding(3, 5)
    case LWU => I1Encoding(3, 6)
    case JALR => I1Encoding(0x67, 0)
  }

  function I2Table(op: I2Op): (e: Encoding)
    ensures e.I2Encoding? && e.opcode < 128 && e.funct3 < 8 && e.funct6 < 64
  {
    match op
    case SLLI => I2Encoding(0x13, 1, 0)
    case SRLI => I2Encoding(0x13, 5, 0)
    case SRAI => I2Encoding(0x13, 5, 0x10)
    case SLLIW => I2Encoding(0x1B, 1, 0)
    case SRLIW => I2Encoding(0x1B, 5, 0)
    case SRAIW => I2Encoding(0x1B, 5, 0x10)
  }

  function I3Table(op: I3Op): (e: Encoding)
    ensures e.I3Encoding? && e.opcode < 128 && e.funct3 < 8
  {
    match op
    case ECALL => I3Encoding(0x73, 0)
  }

  function STable(op: SOp): (e: Encoding)
    ensures e.SEncoding? && e.opcode < 128 && e.funct3 < 8
  {
    match op
    case SB => SEncoding(0x23, 0)
    case SH => SEncoding(0x23, 1)
    case SW => SEncoding(0x23, 2)
    case SD => SEncoding(0x23, 3)
  }

  function BTable(op: BOp): (e: Encoding)
    ensures e.BEncoding? && e.opcode < 128 && e.funct3 < 8
  {
    match op
    case BEQ => BEncoding(0x63, 0)
    case BNE => BEncoding(0x63, 1)
    case BLT => BEncoding(0x63, 4)
    case BGE => BEncoding(0x63, 5)
    case BLTU => BEncoding(0x63, 6)
    case BGEU => BEncoding(0x63, 7)
  }

  function UTable(op: UOp): (e: Encoding)
    ensures e.UEncoding? && e.opcode < 128
  {
    match op
    case LUI => UEncoding(0x37)
    case AUIPC => UEncoding(0x17)
  }

  function JTable(op: JOp): (e: Encoding)
    ensures e.JEncoding? && e.opcode < 128
  {
    match op
    case JAL => JEncoding(0x6F)
  }

  function CsrRTable(op: CsrROp): (e: Encoding)
    ensures e.CsrREncoding? && e.opcode < 128 && e.funct3 < 8
  {
    match op
    case CSRRW => CsrREncoding(0x73, 1)
    case CSRRS => CsrREncoding(0x73, 2)
    case CSRRC => CsrREncoding(0x73, 3)
  }

  function CsrITable(op: CsrIOp): (e: Encoding)
    ensures e.CsrIEncoding? && e.opcode < 128 && e.funct3 < 8
  {
    match op
    case CSRRWI => CsrIEncoding(0x73, 5)
    case CSRRSI => CsrIEncoding(0x73, 6)
    case CSRRCI => CsrIEncoding(0x73, 7)
  }

  function FdRTable(op: FdROp): (e: Encoding)
    ensures e.FdREncoding? && e.opcode < 128 && e.funct3 < 8 && e.funct7 < 128
  {
    match op
    case FSGNJ_S => FdREncoding(0x53, 0, 0x10)
    case FSGNJN_S => FdREncoding(0x53, 1, 0x10)
    case FSGNJX_S => FdREncoding(0x53, 2, 0x10)
    case FMIN_S => FdREncoding(0x53, 0, 0x14)
    case FMAX_S => FdREncoding(0x53, 1, 0x14)
    case FEQ_S => FdREncoding(0x53, 2, 0x50)
    case FLT_S => FdREncoding(0x53, 1, 0x50)
    case FLE_S => FdREncoding(0x53, 0, 0x50)
    case FEQ_D => FdREncoding(0x53, 2, 0x51)
    case FLT_D => FdREncoding(0x53, 1, 0x51)
    case FLE_D => FdREncoding(0x53, 0, 0x51)
    case FSGNJ_D => FdREncoding(0x53, 0, 0x11)
    case FSGNJN_D => FdREncoding(0x53, 1, 0x11)
    case FSGNJX_D => FdREncoding(0x53, 2, 0x11)
    case FMIN_D => FdREncoding(0x53, 0, 0x15)
    case FMAX_D => FdREncoding(0x53, 1, 0x15)
  }

  function FdR1Table(op: FdR1Op): (e: Encoding)
    ensures e.FdR1Encoding? && e.opcode < 128 && e.funct7 < 128
  {
    match op
    case FADD_S => FdR1Encoding(0x53, 0)
    case FSUB_S => FdR1Encoding(0x53, 4)
    case FMUL_S => FdR1Encoding(0x53, 8)
    case FDIV_S => FdR1Encoding(0x53, 0x0C)
    case FADD_D => FdR1Encoding(0x53, 1)
    case FSUB_D => FdR1Encoding(0x53, 5)
    case FMUL_D => FdR1Encoding(0x53, 9)
    case FDIV_D => FdR1Encoding(0x53, 0x0D)
  }

  function FdR2Table(op: FdR2Op): (e: Encoding)
    ensures e.FdR2Encoding? && e.opcode < 128 && e.funct5 < 32 && e.funct7 < 128
  {
    match op
    case FSQRT_S => FdR2Encoding(0x53, 0, 0x2C)
    case FCVT_W_S => FdR2Encoding(0x53, 0, 0x60)
    case FCVT_WU_S => FdR2Encoding(0x53, 1, 0x60)
    case FCVT_L_S => FdR2Encoding(0x53, 2, 0x60)
    case FCVT_LU_S => FdR2Encoding(0x53, 3, 0x60)
    case FCVT_S_W => FdR2Encoding(0x53, 0, 0x68)
    case FCVT_S_WU => FdR2Encoding(0x53, 1, 0x68)
    case FCVT_S_L => FdR2Encoding(0x53, 2, 0x68)
    case FCVT_S_LU => FdR2Encoding(0x53, 3, 0x68)
    case FSQRT_D => FdR2Encoding(0x53, 0, 0x2D)
    case FCVT_W_D => FdR2Encoding(0x53, 0, 0x61)
    case FCVT_WU_D => FdR2Encoding(0x53, 1, 0x61)
    case FCVT_L_D => FdR2Encoding(0x53, 2, 0x61)
    case FCVT_LU_D => FdR2Encoding(0x53, 3, 0x61)
    case FCVT_D_W => FdR2Encoding(0x53, 0, 0x69)
    case FCVT_D_WU => FdR2Encoding(0x53, 1, 0x69)
    case FCVT_D_L => FdR2Encoding(0x53, 2, 0x69)
    case FCVT_D_LU => FdR2Encoding(0x53, 3, 0x69)
    case FCVT_S_D => FdR2Encoding(0x53, 1, 0x20)
    case FCVT_D_S => FdR2Encoding(0x53, 0, 0x21)
  }

  function FdR3Table(op: FdR3Op): (e: Encoding)
    ensures e.FdR3Encoding? && e.opcode < 128 && e.funct3 < 8 && e.funct5 < 32 && e.funct7 < 128
  {
    match op
    case FMV_W_X => FdR3Encoding(0x53, 0, 0, 0x78)
    case FMV_X_W => FdR3Encoding(0x53, 0, 0, 0x70)
    case FCLASS_S => FdR3Encoding(0x53, 1, 0, 0x70)
    case FMV_D_X => FdR3Encoding(0x53, 0, 0, 0x79)
    case FMV_X_D => FdR3Encoding(0x53, 0, 0, 0x71)
    case FCLASS_D => FdR3Encoding(0x53, 1, 0, 0x71)
  }

  function FdR4Table(op: FdR4Op): (e: Encoding)
    ensures e.FdR4Encoding? && e.opcode < 128 && e.funct2 < 4
  {
    match op
    case FMADD_S => FdR4Encoding(0x43, 0)
    case FMSUB_S => FdR4Encoding(0x47, 0)
    case FNMSUB_S => FdR4Encoding(0x4B, 0)
    case FNMADD_S => FdR4Encoding(0x4F, 0)
    case FMADD_D => FdR4Encoding(0x43, 1)
    case FMSUB_D => FdR4Encoding(0x47, 1)
    case FNMSUB_D => FdR4Encoding(0x4B, 1)
    case FNMADD_D => FdR4Encoding(0x4F, 1)
  }

  function FdITable(op: FdIOp): (e: Encoding)
    ensures e.FdIEncoding? && e.opcode < 128 && e.funct3 < 8
  {
    match op
    case FLW => FdIEncoding(7, 2)
    case FLD => FdIEncoding(7, 3)
  }

  function FdSTable(op: FdSOp): (e: Encoding)
    ensures e.FdSEncoding? && e.opcode < 128 && e.funct3 < 8
  {
    match op
    case FSW => FdSEncoding(0x27, 2)
    case FSD => FdSEncoding(0x27, 3)
  }

  function EncodingOf(m: Mnemonic): Encoding
    requires !m.Pseudo?
  {
    match m
    case R(op) => RTable(op)
    case I1(op) => I1Table(op)
    case I2(op) => I2Table(op)
    case I3(op) => I3Table(op)
    case S(op) => STable(op)
    case B(op) => BTable(op)
    case U(op) => UTable(op)
    case J(op) => JTable(op)
    case CsrR(op) => CsrRTable(op)
    case CsrI(op) => CsrITable(op)
    case FdR(op) => FdRTable(op)
    case FdR1(op) => FdR1Table(op)
    case FdR2(op) => FdR2Table(op)
    case FdR3(op) => FdR3Table(op)
    case FdR4(op) => FdR4Table(op)
    case FdI(op) => FdITable(op)
    case FdS(op) => FdSTable(op)
  }

  // The mnemonic of a word, from its fields.

  function RegisterMnemonic(funct3: bv32, funct7: bv32): Option<ROp> {
    if funct7 == 0 && funct3 == 0 then Some(ADD)
    else if funct7 == 0x20 && funct3 == 0 then Some(SUB)
    else if funct7 == 0 && funct3 == 4 then Some(XOR)
    else if funct7 == 0 && funct3 == 6 then Some(OR)
    else if funct7 == 0 && funct3 == 7 then Some(AND)
    else if funct7 == 0 && funct3 == 1 then Some(SLL)
    else if funct7 == 0 && funct3 == 5 then Some(SRL)
    else if funct7 == 0x20 && funct3 == 5 then Some(SRA)
    else if funct7 == 0 && funct3 == 2 then Some(SLT)
    else if funct7 == 0 && funct3 == 3 then Some(SLTU)
    else if funct7 == 1 && funct3 == 0 then Some(MUL)
    else if funct7 == 1 && funct3 == 1 then Some(MULH)
    else if funct7 == 1 && funct3 == 2 then Some(MULHSU)
    else if funct7 == 1 && funct3 == 3 then Some(MULHU)
    else if funct7 == 1 && funct3 == 4 then Some(DIV)
    else if funct7 == 1 && funct3 == 5 then Some(DIVU)
    else if funct7 == 1 && funct3 == 6 then Some(REM)
    else if funct7 == 1 && funct3 == 7 then Some(REMU)
    else None
  }

  function WordMnemonic(funct3: bv32, funct7: bv32): Option<ROp> {
    if funct7 == 0 && funct3 == 0 then Some(ADDW)
    else if funct7 == 0x20 && funct3 == 0 then Some(SUBW)
    else if funct7 == 0 && funct3 == 1 then Some(SLLW)
    else if funct7 == 0 && funct3 == 5 then Some(SRLW)
    else if funct7 == 0x20 && funct3 == 5 then Some(SRAW)
    else if funct7 == 1 && funct3 == 0 then Some(MULW)
    else if funct7 == 1 && funct3 == 4 then Some(DIVW)
    else if funct7 == 1 && funct3 == 5 then Some(DIVUW)
    else if funct7 == 1 && funct3 == 6 then Some(REMW)
    else if funct7 == 1 && funct3 == 7 then Some(REMUW)
    else None
  }

  function ImmediateMnemonic(funct3: bv32, funct6: bv32): Option<Mnemonic> {
    if funct3 == 0 then Some(I1(ADDI))
    else if funct3 == 4 then Some(I1(XORI))
    else if funct3 == 6 then Some(I1(ORI))
    else if funct3 == 7 then Some(I1(ANDI))
    else if funct3 == 3 then Some(I1(SLTIU))
    else if funct3 == 2 then Some(I1(SLTI))
    else if funct6 == 0 && funct3 == 1 then Some(I2(SLLI))
    else if funct6 == 0 && funct3 == 5 then Some(I2(SRLI))
    else if funct6 == 0x10 && funct3 == 5 then Some(I2(SRAI))
    else None
  }

  function WordImmediateMnemonic(funct3: bv32, funct6: bv32): Option<Mnemonic> {
    if funct3 == 0 then Some(I1(ADDIW))
    else if funct6 == 0 && funct3 == 1 then Some(I2(SLLIW))
    else if funct6 == 0 && funct3 == 5 then Some(I2(SRLIW))
    else if funct6 == 0x10 && funct3 == 5 then Some(I2(SRAIW))
    else None
  }

  function LoadMnemonic(funct3: bv32): Option<I1Op> {
    if funct3 == 0 then Some(LB)
    else if funct3 == 1 then Some(LH)
    else if funct3 == 2 then Some(LW)
    else if funct3 == 3 then Some(LD)
    else if funct3 == 4 then Some(LBU)
    else if funct3 == 5 then Some(LHU)
    else if funct3 == 6 then Some(LWU)
    else None
  }

  function StoreMnemonic(funct3: bv32): Option<SOp> {
    if funct3 == 0 then Some(SB)
    else if funct3 == 1 then Some(SH)
    else if funct3 == 2 then Some(SW)
    else if funct3 == 3 then Some(SD)
    else None
  }

  function BranchMnemonic(funct3: bv32): Option<BOp> {
    if funct3 == 0 then Some(BEQ)
    else if funct3 == 1 then Some(BNE)
    else if funct3 == 4 then Some(BLT)
    else if funct3 == 5 then Some(BGE)
    else if funct3 == 6 then Some(BLTU)
    else if funct3 == 7 then Some(BGEU)
    else None
  }

  function SystemMnemonic(funct3: bv32): Option<Mnemonic> {
    if funct3 == 0 then Some(I3(ECALL))
    else if funct3 == 1 then Some(CsrR(CSRRW))
    else if funct3 == 2 then Some(CsrR(CSRRS))
    else if funct3 == 3 then Some(CsrR(CSRRC))
    else if funct3 == 5 then Some(CsrI(CSRRWI))
    else if funct3 == 6 then Some(CsrI(CSRRSI))
    else if funct3 == 7 then Some(CsrI(CSRRCI))
    else None
  }

  function FloatMnemonic(funct3: bv32, funct7: bv32): Option<FdROp> {
    if funct7 == 0x10 && funct3 == 0 then Some(FSGNJ_S)
    else if funct7 == 0x10 && funct3 == 1 then Some(FSGNJN_S)
    else if funct7 == 0x10 && funct3 == 2 then Some(FSGNJX_S)
    else if funct7 == 0x14 && funct3 == 0 then Some(FMIN_S)
    else if funct7 == 0x14 && funct3 == 1 then Some(FMAX_S)
    else if funct7 == 0x50 && funct3 == 2 then Some(FEQ_S)
    else if funct7 == 0x50 && funct3 == 1 then Some(FLT_S)
    else if funct7 == 0x50 && funct3 == 0 then Some(FLE_S)
    else if funct7 == 0x51 && funct3 == 2 then Some(FEQ_D)
    else if funct7 == 0x51 && funct3 == 1 then Some(FLT_D)
    else if funct7 == 0x51 && funct3 == 0 then Some(FLE_D)
    else if funct7 == 0x11 && funct3 == 0 then Some(FSGNJ_D)
    else if funct7 == 0x11 && funct3 == 1 then Some(FSGNJN_D)
    else if funct7 == 0x11 && funct3 == 2 then Some(FSGNJX_D)
    else if funct7 == 0x15 && funct3 == 0 then Some(FMIN_D)
    else if funct7 == 0x15 && funct3 == 1 then Some(FMAX_D)
    else None
  }

  function RoundedMnemonic(funct7: bv32): Option<FdR1Op> {
    if funct7 == 0 then Some(FADD_S)
    else if funct7 == 4 then Some(FSUB_S)
    else if funct7 == 8 then Some(FMUL_S)
    else if funct7 == 0x0C then Some(FDIV_S)
    else if funct7 == 1 then Some(FADD_D)
    else if funct7 == 5 then Some(FSUB_D)
    else if funct7 == 9 then Some(FMUL_D)
    else if funct7 == 0x0D then Some(FDIV_D)
    else None
  }

  function ConversionMnemonic(funct5: bv32, funct7: bv32): Option<FdR2Op> {
    if funct7 == 0x2C && funct5 == 0 then Some(FSQRT_S)
    else if funct7 == 0x60 && funct5 == 0 then Some(FCVT_W_S)
    else if funct7 == 0x60 && funct5 == 1 then Some(FCVT_WU_S)
    else if funct7 == 0x60 && funct5 == 2 then Some(FCVT_L_S)
    else if funct7 == 0x60 && funct5 == 3 then Some(FCVT_LU_S)
    else if funct7 == 0x68 && funct5 == 0 then Some(FCVT_S_W)
    else if funct7 == 0x68 && funct5 == 1 then Some(FCVT_S_WU)
    else if funct7 == 0x68 && funct5 == 2 then Some(FCVT_S_L)
    else if funct7 == 0x68 && funct5 == 3 then Some(FCVT_S_LU)
    else if funct7 == 0x2D && funct5 == 0 then Some(FSQRT_D)
    else if funct7 == 0x61 && funct5 == 0 then Some(FCVT_W_D)
    else if funct7 == 0x61 && funct5 == 1 then Some(FCVT_WU_D)
    else if funct7 == 0x61 && funct5 == 2 then Some(FCVT_L_D)
    else if funct7 == 0x61 && funct5 == 3 then Some(FCVT_LU_D)
    else if funct7 == 0x69 && funct5 == 0 then Some(FCVT_D_W)
    else if funct7 == 0x69 && funct5 == 1 then Some(FCVT_D_WU)
    else if funct7 == 0x69 && funct5 == 2 then Some(FCVT_D_L)
    else if funct7 == 0x69 && funct5 == 3 then Some(FCVT_D_LU)
    else if funct7 == 0x20 && funct5 == 1 then Some(FCVT_S_D)
    else if funct7 == 0x21 && funct5 == 0 then Some(FCVT_D_S)
    else None
  }

  function MoveMnemonic(funct3: bv32, funct5: bv32, funct7: bv32): Option<FdR3Op> {
    if funct7 == 0x78 && funct5 == 0 && funct3 == 0 then Some(FMV_W_X)
    else if funct7 == 0x70 && funct5 == 0 && funct3 == 0 then Some(FMV_X_W)
    else if funct7 == 0x70 && funct5 == 0 && funct3 == 1 then Some(FCLASS_S)
    else if funct7 == 0x79 && funct5 == 0 && funct3 == 0 then Some(FMV_D_X)
    else if funct7 == 0x71 && funct5 == 0 && funct3 == 0 then Some(FMV_X_D)
    else if funct7 == 0x71 && funct5 == 0 && funct3 == 1 then Some(FCLASS_D)
    else None
  }

  function FusedMnemonic(opcode: bv32, funct2: bv32): Option<FdR4Op> {
    if opcode == 0x43 && funct2 == 0 then Some(FMADD_S)
    else if opcode == 0x47 && funct2 == 0 then Some(FMSUB_S)
    else if opcode == 0x4B && funct2 == 0 then Some(FNMSUB_S)
    else if opcode == 0x4F && funct2 == 0 then Some(FNMADD_S)
    else if opcode == 0x43 && funct2 == 1 then Some(FMADD_D)
    else if opcode == 0x47 && funct2 == 1 then Some(FMSUB_D)
    else if opcode == 0x4B && funct2 == 1 then Some(FNMSUB_D)
    else if opcode == 0x4F && funct2 == 1 then Some(FNMADD_D)
    else None
  }

  function Map<T, U>(x: Option<T>, f: T -> U): Option<U> {
    match x case None => None case Some(v) => Some(f(v))
  }

  function FloatingMnemonic(funct3: bv32, funct5: bv32, funct7: bv32): Option<Mnemonic> {
    if FloatMnemonic(funct3, funct7).Some? then Some(FdR(FloatMnemonic(funct3, funct7).value))
    else if RoundedMnemonic(funct7).Some? then Some(FdR1(RoundedMnemonic(funct7).value))
    else if ConversionMnemonic(funct5, funct7).Some? then Some(FdR2(ConversionMnemonic(funct5, funct7).value))
    else Map(MoveMnemonic(funct3, funct5, funct7), x => FdR3(x))
  }

  function MnemonicOf(opcode: bv32, funct3: bv32, funct5: bv32, funct7: bv32): Option<Mnemonic> {
    if opcode == 0x33 then Map(RegisterMnemonic(funct3, funct7), x => R(x))
    else if opcode == 0x3B then Map(WordMnemonic(funct3, funct7), x => R(x))
    else if opcode == 0x13 then ImmediateMnemonic(funct3, funct7 >> 1)
    else if opcode == 0x1B then WordImmediateMnemonic(funct3, funct7 >> 1)
    else if opcode == 0x03 then Map(LoadMnemonic(funct3), x => I1(x))
    else if opcode == 0x67 then if funct3 == 0 then Some(I1(JALR)) else None
    else if opcode == 0x23 then Map(StoreMnemonic(funct3), x => S(x))
    else if opcode == 0x63 then Map(BranchMnemonic(funct3), x => B(x))
    else if opcode == 0x37 then Some(U(LUI))
    else if opcode == 0x17 then Some(U(AUIPC))
    else if opcode == 0x6F then Some(J(JAL))
    else if opcode == 0x73 then SystemMnemonic(funct3)
    else if opcode == 0x53 then FloatingMnemonic(funct3, funct5, funct7)
    else if opcode == 0x07 then if funct3 == 2 then Some(FdI(FLW)) else if funct3 == 3 then Some(FdI(FLD)) else None
    else if opcode == 0x27 then if funct3 == 2 then Some(FdS(FSW)) else if funct3 == 3 then Some(FdS(FSD)) else None
    else Map(FusedMnemonic(opcode, funct7 & 3), x => FdR4(x))
  }

  /** The field values agree with the constant fields of the encoding. */
  predicate Matches(e: Encoding, opcode: bv32, funct3: bv32, funct5: bv32, funct7: bv32) {
    && opcode == e.opcode
    && match e
       case REncoding(_, f3, f7) => funct3 == f3 && funct7 == f7
       case I1Encoding(_, f3) => funct3 == f3
       case I2Encoding(_, f3, f6) => funct3 == f3 && funct7 >> 1 == f6
       case I3Encoding(_, f3) => funct3 == f3
       case SEncoding(_, f3) => funct3 == f3
       case BEncoding(_, f3) => funct3 == f3
       case UEncoding(_) => true
       case JEncoding(_) => true
       case CsrREncoding(_, f3) => funct3 == f3
       case CsrIEncoding(_, f3) => funct3 == f3
       case FdREncoding(_, f3, f7) => funct3 == f3 && funct7 == f7
       case FdR1Encoding(_, f7) => funct7 == f7
       case FdR2Encoding(_, f5, f7) => funct5 == f5 && funct7 == f7
       case FdR3Encoding(_, f3, f5, f7) => funct3 == f3 && funct5 == f5 && funct7 == f7
       case FdR4Encoding(_, f2) => funct7 & 3 == f2
       case FdIEncoding(_, f3) => funct3 == f3
       case FdSEncoding(_, f3) => funct3 == f3
  }

  // Each table is undone by its lookups.

  lemma RInverts(op: ROp)
    ensures
      var e := RTable(op);
      && (|| (e.opcode == 0x33 && RegisterMnemonic(e.funct3, e.funct7) == Some(op))
         || (e.opcode == 0x3B && WordMnemonic(e.funct3, e.funct7) == Some(op)))
  {
    match op
    case ADD => case SUB => case XOR => case OR => case AND => case SLL => case SRL => case SRA => case SLT =>
    case SLTU => case ADDW => case SUBW => case SLLW => case SRLW => case SRAW => case MUL => case MULH =>
    case MULHSU => case MULHU => case DIV => case DIVU => case REM => case REMU => case MULW => case DIVW =>
    case DIVUW => case REMW => case REMUW =>
  }

  lemma I1Inverts(op: I1Op)
    ensures
      var e := I1Table(op);
      && (|| (e.opcode == 0x13 && (forall f6 :: ImmediateMnemonic(e.funct3, f6) == Some(I1(op))))
         || (e.opcode == 0x1B && (forall f6 :: WordImmediateMnemonic(e.funct3, f6) == Some(I1(op))))
         || (e.opcode == 0x03 && LoadMnemonic(e.funct3) == Some(op))
         || (e.opcode == 0x67 && e.funct3 == 0 && op == JALR))
  {
    match op
    case ADDI => case XORI => case ORI => case ANDI => case SLTIU => case SLTI => case ADDIW => case LB =>
    case LH => case LW => case LD => case LBU => case LHU => case LWU => case JALR =>
  }

  lemma I2Inverts(op: I2Op)
    ensures
      var e := I2Table(op);
      && (|| (e.opcode == 0x13 && ImmediateMnemonic(e.funct3, e.funct6) == Some(I2(op)))
         || (e.opcode == 0x1B && WordImmediateMnemonic(e.funct3, e.funct6) == Some(I2(op))))
  {
    match op
    case SLLI => case SRLI => case SRAI => case SLLIW => case SRLIW => case SRAIW =>
  }

  lemma SInverts(op: SOp)
    ensures
      var e := STable(op);
      && e.opcode == 0x23 && StoreMnemonic(e.funct3) == Some(op)
  {
    match op
    case SB => case SH => case SW => case SD =>
  }

  lemma BInverts(op: BOp)
    ensures
      var e := BTable(op);
      && e.opcode == 0x63 && BranchMnemonic(e.funct3) == Some(op)
  {
    match op
    case BEQ => case BNE => case BLT => case BGE => case BLTU => case BGEU =>
  }

  lemma FdRInverts(op: FdROp)
    ensures
      var e := FdRTable(op);
      && e.opcode == 0x53 && FloatMnemonic(e.funct3, e.funct7) == Some(op)
  {
    match op
    case FSGNJ_S => case FSGNJN_S => case FSGNJX_S => case FMIN_S => case FMAX_S => case FEQ_S => case FLT_S =>
    case FLE_S => case FEQ_D => case FLT_D => case FLE_D => case FSGNJ_D => case FSGNJN_D => case FSGNJX_D =>
    case FMIN_D => case FMAX_D =>
  }

  lemma FdR1Inverts(op: FdR1Op)
    ensures
      var e := FdR1Table(op);
      && e.opcode == 0x53 && RoundedMnemonic(e.funct7) == Some(op) && (forall f3 :: FloatMnemonic(f3, e.funct7) == None)
  {
    match op
    case FADD_S => case FSUB_S => case FMUL_S => case FDIV_S => case FADD_D => case FSUB_D => case FMUL_D =>
    case FDIV_D =>
  }

  lemma FdR2Inverts(op: FdR2Op)
    ensures
      var e := FdR2Table(op);
      && e.opcode == 0x53 && ConversionMnemonic(e.funct5, e.funct7) == Some(op)
      && (forall f3 :: FloatMnemonic(f3, e.funct7) == None) && RoundedMnemonic(e.funct7) == None
  {
    match op
    case FSQRT_S => case FCVT_W_S => case FCVT_WU_S => case FCVT_L_S => case FCVT_LU_S => case FCVT_S_W =>
    case FCVT_S_WU => case FCVT_S_L => case FCVT_S_LU => case FSQRT_D => case FCVT_W_D => case FCVT_WU_D =>
    case FCVT_L_D => case FCVT_LU_D => case FCVT_D_W => case FCVT_D_WU => case FCVT_D_L => case FCVT_D_LU =>
    case FCVT_S_D => case FCVT_D_S =>
  }

  lemma FdR3Inverts(op: FdR3Op)
    ensures
      var e := FdR3Table(op);
      && e.opcode == 0x53 && MoveMnemonic(e.funct3, e.funct5, e.funct7) == Some(op)
      && FloatMnemonic(e.funct3, e.funct7) == None && RoundedMnemonic(e.funct7) == None
      && ConversionMnemonic(e.funct5, e.funct7) == None
  {
    match op
    case FMV_W_X => case FMV_X_W => case FCLASS_S => case FMV_D_X => case FMV_X_D => case FCLASS_D =>
  }

  lemma FdR4Inverts(op: FdR4Op)
    ensures
      var e := FdR4Table(op);
      && e.opcode in {0x43, 0x47, 0x4B, 0x4F} && FusedMnemonic(e.opcode, e.funct2) == Some(op)
  {
    match op
    case FMADD_S => case FMSUB_S => case FNMSUB_S => case FNMADD_S => case FMADD_D => case FMSUB_D =>
    case FNMSUB_D => case FNMADD_D =>
  }

  lemma RNamed(op: ROp, opcode: bv32, funct3: bv32, funct5: bv32, funct7: bv32)
    requires Matches(RTable(op), opcode, funct3, funct5, funct7)
    ensures MnemonicOf(opcode, funct3, funct5, funct7) == Some(R(op))
  {
    RInverts(op);
    hide RTable, RegisterMnemonic, WordMnemonic;
  }

  lemma I1Named(op: I1Op, opcode: bv32, funct3: bv32, funct5: bv32, funct7: bv32)
    requires Matches(I1Table(op), opcode, funct3, funct5, funct7)
    ensures MnemonicOf(opcode, funct3, funct5, funct7) == Some(I1(op))
  {
    I1Inverts(op);
    hide I1Table, ImmediateMnemonic, WordImmediateMnemonic, LoadMnemonic;
  }

  lemma I2Named(op: I2Op, opcode: bv32, funct3: bv32, funct5: bv32, funct7: bv32)
    requires Matches(I2Table(op), opcode, funct3, funct5, funct7)
    ensures MnemonicOf(opcode, funct3, funct5, funct7) == Some(I2(op))
  {
    I2Inverts(op);
    hide I2Table, ImmediateMnemonic, WordImmediateMnemonic;
  }

  lemma I3Named(op: I3Op, opcode: bv32, funct3: bv32, funct5: bv32, funct7: bv32)
    requires Matches(I3Table(op), opcode, funct3, funct5, funct7)
    ensures MnemonicOf(opcode, funct3, funct5, funct7) == Some(I3(op))
  {
  }

  lemma SNamed(op: SOp, opcode: bv32, funct3: bv32, funct5: bv32, funct7: bv32)
    requires Matches(STable(op), opcode, funct3, funct5, funct7)
    ensures MnemonicOf(opcode, funct3, funct5, funct7) == Some(S(op))
  {
    SInverts(op);
    hide STable, StoreMnemonic;
  }

  lemma BNamed(op: BOp, opcode: bv32, funct3: bv32, funct5: bv32, funct7: bv32)
    requires Matches(BTable(op), opcode, funct3, funct5, funct7)
    ensures MnemonicOf(opcode, funct3, funct5, funct7) == Some(B(op))
  {
    BInverts(op);
    hide BTable, BranchMnemonic;
  }

  lemma UNamed(op: UOp, opcode: bv32, funct3: bv32, funct5: bv32, funct7: bv32)
    requires Matches(UTable(op), opcode, funct3, funct5, funct7)
    ensures MnemonicOf(opcode, funct3, funct5, funct7) == Some(U(op))
  {
  }

  lemma JNamed(op: JOp, opcode: bv32, funct3: bv32, funct5: bv32, funct7: bv32)
    requires Matches(JTable(op), opcode, funct3, funct5, funct7)
    ensures MnemonicOf(opcode, funct3, funct5, funct7) == Some(J(op))
  {
  }

  lemma CsrRNamed(op: CsrROp, opcode: bv32, funct3: bv32, funct5: bv32, funct7: bv32)
    requires Matches(CsrRTable(op), opcode, funct3, funct5, funct7)
    ensures MnemonicOf(opcode, funct3, funct5, funct7) == Some(CsrR(op))
  {
  }

  lemma CsrINamed(op: CsrIOp, opcode: bv32, funct3: bv32, funct5: bv32, funct7: bv32)
    requires Matches(CsrITable(op), opcode, funct3, funct5, funct7)
    ensures MnemonicOf(opcode, funct3, funct5, funct7) == Some(CsrI(op))
  {
  }

  lemma FdRNamed(op: FdROp, opcode: bv32, funct3: bv32, funct5: bv32, funct7: bv32)
    requires Matches(FdRTable(op), opcode, funct3, funct5, funct7)
    ensures MnemonicOf(opcode, funct3, funct5, funct7) == Some(FdR(op))
  {
    FdRInverts(op);
    hide FdRTable, FloatMnemonic;
  }

  lemma FdR1Named(op: FdR1Op, opcode: bv32, funct3: bv32, funct5: bv32, funct7: bv32)
    requires Matches(FdR1Table(op), opcode, funct3, funct5, funct7)
    ensures MnemonicOf(opcode, funct3, funct5, funct7) == Some(FdR1(op))
  {
    FdR1Inverts(op);
    hide FdR1Table, FloatMnemonic, RoundedMnemonic;
  }

  lemma FdR2Named(op: FdR2Op, opcode: bv32, funct3: bv32, funct5: bv32, funct7: bv32)
    requires Matches(FdR2Table(op), opcode, funct3, funct5, funct7)
    ensures MnemonicOf(opcode, funct3, funct5, funct7) == Some(FdR2(op))
  {
    FdR2Inverts(op);
    hide FdR2Table, FloatMnemonic, RoundedMnemonic, ConversionMnemonic;
  }

  lemma FdR3Named(op: FdR3Op, opcode: bv32, funct3: bv32, funct5: bv32, funct7: bv32)
    requires Matches(FdR3Table(op), opcode, funct3, funct5, funct7)
    ensures MnemonicOf(opcode, funct3, funct5, funct7) == Some(FdR3(op))
  {
    FdR3Inverts(op);
    hide FdR3Table, FloatMnemonic, RoundedMnemonic, ConversionMnemonic, MoveMnemonic;
  }

  lemma FdR4Named(op: FdR4Op, opcode: bv32, funct3: bv32, funct5: bv32, funct7: bv32)
    requires Matches(FdR4Table(op), opcode, funct3, funct5, funct7)
    ensures MnemonicOf(opcode, funct3, funct5, funct7) == Some(FdR4(op))
  {
    FdR4Inverts(op);
    hide FdR4Table, FusedMnemonic;
  }

  lemma FdINamed(op: FdIOp, opcode: bv32, funct3: bv32, funct5: bv32, funct7: bv32)
    requires Matches(FdITable(op), opcode, funct3, funct5, funct7)
    ensures MnemonicOf(opcode, funct3, funct5, funct7) == Some(FdI(op))
  {
  }

  lemma FdSNamed(op: FdSOp, opcode: bv32, funct3: bv32, funct5: bv32, funct7: bv32)
    requires Matches(FdSTable(op), opcode, funct3, funct5, funct7)
    ensures MnemonicOf(opcode, funct3, funct5, funct7) == Some(FdS(op))
  {
  }

  /** No two mnemonics share a word: the fields that match one encoding name its mnemonic. */
  lemma FieldsNameTheMnemonic(m: Mnemonic, opcode: bv32, funct3: bv32, funct5: bv32, funct7: bv32)
    requires !m.Pseudo? && Matches(EncodingOf(m), opcode, funct3, funct5, funct7)
    ensures MnemonicOf(opcode, funct3, funct5, funct7) == Some(m)
  {
    hide MnemonicOf, Matches;
    match m
    case R(op) => RNamed(op, opcode, funct3, funct5, funct7);
    case I1(op) => I1Named(op, opcode, funct3, funct5, funct7);
    case I2(op) => I2Named(op, opcode, funct3, funct5, funct7);
    case I3(op) => I3Named(op, opcode, funct3, funct5, funct7);
    case S(op) => SNamed(op, opcode, funct3, funct5, funct7);
    case B(op) => BNamed(op, opcode, funct3, funct5, funct7);
    case U(op) => UNamed(op, opcode, funct3, funct5, funct7);
    case J(op) => JNamed(op, opcode, funct3, funct5, funct7);
    case CsrR(op) => CsrRNamed(op, opcode, funct3, funct5, funct7);
    case CsrI(op) => CsrINamed(op, opcode, funct3, funct5, funct7);
    case FdR(op) => FdRNamed(op, opcode, funct3, funct5, funct7);
    case FdR1(op) => FdR1Named(op, opcode, funct3, funct5, funct7);
    case FdR2(op) => FdR2Named(op, opcode, funct3, funct5, funct7);
    case FdR3(op) => FdR3Named(op, opcode, funct3, funct5, funct7);
    case FdR4(op) => FdR4Named(op, opcode, funct3, funct5, funct7);
    case FdI(op) => FdINamed(op, opcode, funct3, funct5, funct7);
    case FdS(op) => FdSNamed(op, opcode, funct3, funct5, funct7);
  }
}
