/** 64-bit register values and the arithmetic that emitted host code relies on. */
module Words {

  /** The content of a 64-bit register or slot. */
  datatype Value = Value(bits: bv64)

  const ZERO := Value(0)
  const ONE := Value(1)

  function Sum64(x: bv64, y: bv64): bv64 { x + y }

  function Difference64(x: bv64, y: bv64): bv64 { x - y }

  function Plus(x: Value, y: Value): Value { Value(Sum64(x.bits, y.bits)) }

  function Minus(x: Value, y: Value): Value { Value(Difference64(x.bits, y.bits)) }

  function Times(x: bv64, y: bv64): bv64 { x * y }

  function And(x: Value, y: Value): Value { Value(x.bits & y.bits) }

  function Or(x: Value, y: Value): Value { Value(x.bits | y.bits) }

  function Xor(x: Value, y: Value): Value { Value(x.bits ^ y.bits) }

  function ShiftLeft32(x: Value): Value { Value(x.bits << 32) }

  function ShiftRight32(x: Value): Value { Value(x.bits >> 32) }

  /** An immediate field as 16 bits. */
  function Half(imm: int): bv16 {
    if 0 <= imm < 0x1_0000 then imm as bv16 else 0
  }

  function SignExtend16(x: bv16): bv64 {
    (x as bv64) | ((0 - ((x >> 15) as bv64)) << 16)
  }

  /** Sign extension of an immediate field (ADDI, DADDIU, load and store offsets). */
  function SX16(imm: int): Value {
    Value(SignExtend16(Half(imm)))
  }

  /** Zero extension of an immediate field (ANDI, ORI, XORI). */
  function ZX16(imm: int): Value {
    Value(Half(imm) as bv64)
  }

  /** A jump's target field, as a byte offset within its 256 MB region. */
  function JumpOffset(addr: int): bv64 {
    if 0 <= addr < 0x400_0000 then ((addr as bv26) as bv64) << 2 else 0
  }

  function Low32(x: bv64): bv64 { x & 0xFFFF_FFFF }

  // 0 - s is all ones when the sign bit s is 1.
  function SignExtend32(x: bv64): bv64 {
    (x & 0xFFFF_FFFF) | ((0 - ((x >> 31) & 1)) << 32)
  }

  /** The low word of a value, sign-extended: the result of every 32-bit operation. */
  function SX32(x: Value): Value {
    Value(SignExtend32(x.bits))
  }

  /** Arithmetic shift right by 32 places. */
  function Sra32(x: Value): Value {
    Value((x.bits >> 32) | ((0 - (x.bits >> 63)) << 32))
  }

  /** The sign bit. */
  predicate Negative(x: Value) {
    x.bits >> 63 != 0
  }

  /** Bit n of a value; positions outside the word read as 0. */
  function Bit(x: Value, n: int): bv64 {
    if 0 <= n < 64 then (x.bits >> n) & 1 else 0
  }
}
