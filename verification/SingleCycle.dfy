/** The one-instruction-at-a-time machine (mode 0). It is written over the units it drives,
    so that what is proved holds for every arithmetic unit, memory and predictor. */
module SingleCycle {
  import opened HazardUnit
  import opened InstructionFields

  /** The name of a general purpose register; a register never written holds zero. */
  datatype Gpr = X(n: bv32)

  type Regs<V> = map<Gpr, V>

  /** The units both machines drive. V is the type of a register value or address, M of memory
      and P of the branch predictor's history and counters.
      zero, next, add:   the value 0, the address four bytes on, wrapping addition
      alu, imm:          the arithmetic unit and the sign-extended immediate of a word
      upperImm:          that immediate shifted left by twelve, for lui and auipc
      taken, flag:       the comparator in the pipeline's decode stage, and the branch flag
                         the single-cycle machine reads off the arithmetic result
      fetch, load, store: memory; afterLoad is memory after a load, which may be refused
      direction:         whether the counters favour taken at pc
      afterLookup, train: the counters after such a question, and after a resolved branch */
  datatype Datapath<!V, !M, !P> = Datapath(
    zero: V,
    next: V -> V,
    add: (V, V) -> V,
    alu: (bv32, V, V) -> V,
    imm: bv32 -> V,
    upperImm: bv32 -> V,
    taken: (bv32, V, V) -> bool,
    flag: (bv32, V) -> bool,
    fetch: (M, V) -> bv32,
    load: (M, bv32, V) -> V,
    afterLoad: (M, bv32, V) -> M,
    store: (M, bv32, V, V) -> M,
    direction: (P, V) -> bool,
    afterLookup: (P, V) -> P,
    train: (P, V, bool) -> P)
  {
    function ReadGpr(regs: Regs<V>, r: bv32): V {
      if r == 0 || X(r) !in regs then zero else regs[X(r)]
    }
  }

  function WriteGpr<V>(regs: Regs<V>, r: bv32, value: V): Regs<V> {
    if r == 0 then regs else regs[X(r) := value]
  }

  function ControlSignals(inst: bv32): Signals {
    var opcode := Opcode(inst);
    if opcode == 0x33 then NO_SIGNALS.(regWrite := true)
    else if opcode == 0x03 then Signals(true, true, false, true, true)
    else if opcode == 0x23 then NO_SIGNALS.(aluSrc := true, memWrite := true)
    else if opcode == 0x13 || opcode == 0x37 || opcode == 0x17 then NO_SIGNALS.(aluSrc := true, regWrite := true)
    else if opcode == 0x6F then NO_SIGNALS.(regWrite := true)
    else if opcode == 0x67 then NO_SIGNALS.(aluSrc := true, regWrite := true)
    else if opcode == 0x01 then NO_SIGNALS.(regWrite := true)
    else if opcode == 0x07 then Signals(true, true, false, true, true)
    else if opcode == 0x27 then NO_SIGNALS.(aluSrc := true, memWrite := true)
    else if opcode == 0x53 then NO_SIGNALS.(regWrite := true)
    else NO_SIGNALS
  }

  /** What the two machines rely on: the arithmetic unit adds for jalr, lui and auipc; its
      result decides a branch as the comparator does; a zero immediate field of lui means zero. */
  ghost predicate Lawful<V(!new), M(!new), P(!new)>(d: Datapath<V, M, P>) {
    && (forall inst, a, b {:trigger d.alu(inst, a, b)} ::
          Opcode(inst) == 0x67 || Opcode(inst) == 0x37 || Opcode(inst) == 0x17 ==> d.alu(inst, a, b) == d.add(a, b))
    && (forall inst, a, b {:trigger d.alu(inst, a, b)} ::
          Opcode(inst) == 0x63 && Funct3(inst) != 2 && Funct3(inst) != 3 ==>
            d.flag(Funct3(inst), d.alu(inst, a, b)) == d.taken(Funct3(inst), a, b))
    && (forall inst {:trigger d.imm(inst)} ::
          Opcode(inst) == 0x37 && inst >> 12 == 0 ==> d.imm(inst) == d.zero == d.upperImm(inst))
    && d.add(d.zero, d.zero) == d.zero
  }

  datatype Arch<V, M> = Arch(pc: V, regs: Regs<V>, mem: M)

  /** Execute, WriteMemory and WriteBack for one integer instruction. */
  function ExecuteOne<V, M, P>(d: Datapath<V, M, P>, inst: bv32, s: Arch<V, M>): Arch<V, M> {
    var opcode, funct3 := Opcode(inst), Funct3(inst);
    var signals := ControlSignals(inst);
    var reg1, reg2 := d.ReadGpr(s.regs, Rs1(inst)), d.ReadGpr(s.regs, Rs2(inst));
    var result := d.alu(inst, reg1, if signals.aluSrc then d.imm(inst) else reg2);
    var nextPc := d.next(s.pc);
    var pc' :=
      if opcode == 0x67 then result
      else if opcode == 0x6F then d.add(s.pc, d.imm(inst))
      else if opcode == 0x63 && d.flag(funct3, result) then d.add(s.pc, d.imm(inst))
      else nextPc;
    var result' := if opcode == 0x17 then d.add(s.pc, d.upperImm(inst)) else result;
    var loaded := if signals.memRead then d.load(s.mem, funct3, result') else d.zero;
    var mem' :=
      if signals.memRead then d.afterLoad(s.mem, funct3, result')
      else if signals.memWrite then d.store(s.mem, funct3, result', reg2)
      else s.mem;
    var regs' :=
      if !signals.regWrite then s.regs
      else if opcode == 0x33 || opcode == 0x13 || opcode == 0x17 then WriteGpr(s.regs, Rd(inst), result')
      else if opcode == 0x03 then WriteGpr(s.regs, Rd(inst), loaded)
      else if opcode == 0x67 || opcode == 0x6F then WriteGpr(s.regs, Rd(inst), nextPc)
      else if opcode == 0x37 then WriteGpr(s.regs, Rd(inst), d.upperImm(inst))
      else s.regs;
    Arch(pc', regs', mem')
  }

  function Step<V, M, P>(d: Datapath<V, M, P>, s: Arch<V, M>): Arch<V, M> {
    ExecuteOne(d, d.fetch(s.mem, s.pc), s)
  }

  predicate IntegerOpcode(op: bv32) {
    op == 0x33 || op == 0x13 || op == 0x03 || op == 0x23 || op == 0x63 || op == 0x6F || op == 0x67
    || op == 0x37 || op == 0x17 || op == 0x3B || op == 0x1B || op == 0
  }

  /** The word stands for a branch or load, but no mnemonic has its funct3; the single-cycle machine
      then reuses the flag or the memory result of an earlier instruction. */
  predicate ReusesOldResult(inst: bv32) {
    || (Opcode(inst) == 0x63 && (Funct3(inst) == 2 || Funct3(inst) == 3))
    || (Opcode(inst) == 0x03 && Funct3(inst) == 7)
  }
}
