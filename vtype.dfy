/** The scalar types a variable may be declared with, and a scope entry
    (runtime/vtype.ts). */
module VTypes {

  datatype VType = NumberType | StringType | PointerType

  /** A declared variable: its type and its frame address. */
  datatype Variable = Variable(vtype: VType, addr: nat)
}
