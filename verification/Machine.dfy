/** What host and guest share: the instruction set they both execute, the environment behind the C label,
    and the layout of the guest data area. */
module Machine {
  import opened Words
  import opened Instructions

  datatype Option<T> = None | Some(value: T)

  /** Memory contents, byte by byte. */
  datatype Mem = Mem(bytes: map<bv64, bv8>)

  /** An interpretation of the operations the translator passes through unchanged. Guest and host are the same
      architecture, so one interpretation serves both; the simulation holds for every one of them. */
  datatype Isa = Isa(
    three: (int, int, int, Value, Value, Value) -> Value, // op, func, sa, rs, rt, old rd
    shift: (int, int, int, Value) -> Value,             // func, rs field, sa, rt
    mulHi: (int, Value, Value) -> Value,                 // func, rs, rt
    mulLo: (int, Value, Value) -> Value,
    ext: (int, int, int, int, Value) -> Value,          // op, func, rd field, sa field, rs
    ins: (int, int, int, int, Value, Value) -> Value,    // op, func, rd field, sa field, rs, old rt
    imm: (int, Value, int) -> Value,                    // op, rs, imm
    load: (int, Mem, Value, Value) -> Value,             // op, memory, address, old rt
    store: (int, Mem, Value, Value) -> Mem,             // op, memory, address, rt
    cLabel: Value,                                     // address of the AssemblyToC label
    hostLink: Value)                                   // what a host link branch leaves in $31

  // Operations whose exact result the emitted code depends on are fixed; overflow traps are not modelled.

  function ThreeReg(isa: Isa, op: int, func: int, sa: int, x: Value, y: Value, z: Value): Value {
    if op != 0 then isa.three(op, func, sa, x, y, z)
    else if func == 32 then SX32(Plus(x, y))
    else if func == 36 then And(x, y)
    else if func == 37 then Or(x, y)
    else if func == 44 || func == 45 then Plus(x, y)
    else if func == 46 || func == 47 then Minus(x, y)
    else isa.three(op, func, sa, x, y, z)
  }

  function Shift(isa: Isa, func: int, rs: int, sa: int, y: Value): Value {
    if rs != 0 || sa != 0 then isa.shift(func, rs, sa, y)
    else if func == 60 then ShiftLeft32(y)
    else if func == 62 then ShiftRight32(y)
    else if func == 63 then Sra32(y)
    else isa.shift(func, rs, sa, y)
  }

  /** The 64-bit product of two sign-extended words. */
  function Product(x: Value, y: Value): Value {
    Value(Times(SX32(x).bits, SX32(y).bits))
  }

  /** The 64-bit product of two words taken as unsigned numbers. */
  function UnsignedProduct(x: Value, y: Value): Value {
    Value(Times(Low32(x.bits), Low32(y.bits)))
  }

  function MulHi(isa: Isa, func: int, x: Value, y: Value): Value {
    if func == 24 then Sra32(Product(x, y)) else isa.mulHi(func, x, y)
  }

  function MulLo(isa: Isa, func: int, x: Value, y: Value): Value {
    if func == 24 then SX32(Product(x, y)) else isa.mulLo(func, x, y)
  }

  function Immediate(isa: Isa, op: int, x: Value, imm: int): Value {
    if op == 8 || op == 9 then SX32(Plus(x, SX16(imm)))
    else if op == 24 || op == 25 then Plus(x, SX16(imm))
    else if op == 15 then SX32(Value(ZX16(imm).bits << 16))
    else if op == 12 then And(x, ZX16(imm))
    else if op == 13 then Or(x, ZX16(imm))
    else if op == 14 then Xor(x, ZX16(imm))
    else isa.imm(op, x, imm)
  }

  /** Only the unaligned loads (lwl, lwr, ldl, ldr) merge with the old register value. */
  function LoadValue(isa: Isa, op: int, mem: Mem, address: Value, z: Value): Value {
    isa.load(op, mem, address, if op == 34 || op == 38 || op == 26 || op == 27 then z else ZERO)
  }

  predicate IsBranch(op: int) {
    op == 1 || 4 <= op <= 7 || 20 <= op <= 23 || op == 50 || op == 54 || op == 58 || op == 62
  }

  /** Whether a branch with these register values is taken. rt is the field, y the register it names. */
  predicate Taken(op: int, rt: int, x: Value, y: Value) {
    if op == 4 || op == 20 then x == y
    else if op == 5 || op == 21 then x != y
    else if op == 6 || op == 22 then Negative(x) || x == ZERO
    else if op == 7 || op == 23 then !Negative(x) && x != ZERO
    else if op == 1 then (if rt % 2 == 0 then Negative(x) else !Negative(x))
    else if op == 50 then Bit(x, rt) == 0
    else if op == 54 then Bit(x, rt + 32) == 0
    else if op == 58 then Bit(x, rt) != 0
    else Bit(x, rt + 32) != 0
  }

  /** Branches that nullify their delay slot when not taken. */
  predicate IsLikely(op: int, rt: int) {
    20 <= op <= 23 || (op == 1 && (rt == 2 || rt == 3 || rt == 18 || rt == 19))
  }

  predicate IsLinkBranch(op: int, rt: int) {
    op == 1 && 16 <= rt <= 19
  }

  // Control marks (Processor_IPE.h).
  const CHECK_TLB_DATA := 0
  const FETCH_NEXT_BLOCK := 1
  const SYSCALL_INT := 2
  const TLB_PROBE := 3
  const TLB_READ := 4
  const TLB_WRITEI := 5
  const TLB_WRITE := 6
  const HANDLE_BR := 12
  const TRAP_INT := 13
  const EXP_RI := 14

  /** What the C++ side sees at a call-out; registers are the guest's 32 registers, HI and LO. */
  datatype Call =
    | Access(pc: Value, va: Value, store: Value, data: Value, registers: seq<Value>)
    | Request(mark: Value, pc: Value, registers: seq<Value>)

  /** The call-outs so far. */
  datatype Trace = Start | After(past: Trace, last: Call)

  /** A successful address translation: host address, page protection, and memory as devices and other cores
      may have left it. */
  datatype Mapping = Mapping(hva: Value, prot: Value, mem: Mem)

  /** The C++ side. It answers each call-out from the whole history of call-outs, so every behaviour of the TLB,
      the caches and the devices is one such environment. */
  datatype Env = Env(
    translate: (Trace, Mem) -> Option<Mapping>,
    cp0After: (Trace, int) -> Value,
    hostRegs: (Trace, int) -> Value) // what a call-out that comes back leaves in the host's own registers

  // Byte offsets in the guest data area (Processor_IPE.h).
  const PC := 0
  const LLBIT := 32
  const LL_DATA := 40
  const TRANS_ADDR := 48
  const LDST_ADDR := 56
  const LDST_DATA := 64
  const TEMP_SLOT4 := 72
  const TEMP_SLOT5 := 80
  const C_LABEL := 88
  const CONTROL_MARK := 104
  const LDST_OP := 168
  const BLOCK_END_PC := 184

  /** Register r of the guest; 32 and 33 are HI and LO. */
  function Gp(r: int): int {
    200 + 8 * r
  }

  /** CP0 register and select, numbered reg * 8 + sel. */
  function Cp(i: int): int {
    520 + 8 * i
  }

  const HI := Gp(32)
  const LO := Gp(33)
  const STATUS := 96
  const EPC := 112
  const ERROR_EPC := 240
}
