/** The fixed fields of a 32-bit instruction word. */
module InstructionFields {
  function Opcode(inst: bv32): bv32 { inst & 0x7F }
  function Rd(inst: bv32): bv32 { (inst >> 7) & 0x1F }
  function Funct3(inst: bv32): bv32 { (inst >> 12) & 0x7 }
  function Rs1(inst: bv32): bv32 { (inst >> 15) & 0x1F }
  function Rs2(inst: bv32): bv32 { (inst >> 20) & 0x1F }
  function Rs3(inst: bv32): bv32 { (inst >> 27) & 0x1F }
  function Funct7(inst: bv32): bv32 { (inst >> 25) & 0x7F }
}
