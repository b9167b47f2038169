/** The registers of the machine, as register allocation and the frame code name them, and the
    immediates that its instructions hold. */
module BackendRegisters {

  /** `index` is the number of the register in its class. */
  datatype Register = General(index: nat) | Float(index: nat)

  predicate CalleeSaved(r: Register) {
    match r
    case General(i) => 1 <= i <= 4 || i == 8 || i == 9 || 18 <= i <= 27
    case Float(i) => i == 8 || i == 9 || 18 <= i <= 27
  }

  /** Values with room in the twelve bits of an I-type instruction. */
  predicate ItypeImmediate(value: int) {
    -0x800 <= value <= 0x7ff
  }
}
