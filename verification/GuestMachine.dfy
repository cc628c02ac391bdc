/** The reference: what the guest's instructions mean, one at a time, on the guest's own registers. */
module GuestMachine {
  import opened Words
  import opened Instructions
  import opened Machine
  import opened HostMachine

  /** llBit, llData, va, hva: the link monitor of LL/SC; prot: the protection the last access was told, or its direction
      if it was refused; data: the last value offered to a store. */
  datatype Guest = Guest(
    gpr: int -> Value, hi: Value, lo: Value, pc: Value, cp0: int -> Value, mem: Mem,
    llBit: Value, llData: Value, va: Value, hva: Value, prot: Value, data: Value, trace: Trace)

  /** After one instruction: go on, or leave to the C++ side with a control mark. */
  datatype Result = Next(guest: Guest) | Exit(mark: int, guest: Guest)

  function SetGpr(g: Guest, r: int, v: Value): Guest {
    if r == 0 then g else g.(gpr := (x: int) => if x == r then v else g.gpr(x))
  }

  function SetCp0(g: Guest, i: int, v: Value): Guest {
    g.(cp0 := (x: int) => if x == i then v else g.cp0(x))
  }

  predicate IsThreeReg(op: int, func: int) {
    || (op == 0 && (func == 4 || func == 6 || func == 7 || func == 10 || func == 11 || func == 20 || func == 22
                    || func == 23
                    || 32 <= func <= 39 || 42 <= func <= 47))
    || (op == 28 && (func == 2 || func == 3 || func == 32 || func == 33 || func == 36 || func == 37 || func == 40
                     || 42 <= func <= 45))
    || (op == 31 && (func == 32 || func == 36))
  }

  predicate IsImmediate(op: int) {
    8 <= op <= 15 || op == 24 || op == 25
  }

  /** The guest's registers, HI and LO. */
  function Registers(g: Guest): (s: seq<Value>)
    ensures |s| == 34 && s[32] == g.hi && s[33] == g.lo && forall r :: 0 <= r < 32 ==> s[r] == g.gpr(r)
  {
    seq(34, (r: int) => if r == 32 then g.hi else if r == 33 then g.lo else g.gpr(r))
  }

  /** A data access: the address is translated first, and a refused translation ends the block here. */
  function Translate(env: Env, g: Guest, va: Value, store: Value): Result {
    var t := After(g.trace, Access(g.pc, va, store, g.data, Registers(g)));
    match env.translate(t, g.mem)
    case Some(m) => Next(g.(va := va, hva := m.hva, prot := m.prot, mem := m.mem, trace := t))
    case None => Exit(CHECK_TLB_DATA, g.(va := va, llBit := ZERO, prot := store, trace := t))
  }

  function LoadStep(isa: Isa, env: Env, i: Ins, g: Guest): Result
    requires i.I?
  {
    match Translate(env, g, AddressOf(i, g), ZERO)
    case Next(g1) => Next(SetGpr(g1, i.rt, LoadValue(isa, i.op, g1.mem, g1.hva, g1.gpr(i.rt))))
    case e => e
  }

  function StoreStep(isa: Isa, env: Env, i: Ins, g: Guest): Result
    requires i.I?
  {
    match StoreCheck(env, i, g)
    case Next(g1) => Next(g1.(mem := isa.store(i.op, g1.mem, g1.hva, g1.gpr(i.rt))))
    case e => e
  }

  /** ll and lld: a load that opens the link. */
  function LinkedStep(isa: Isa, env: Env, i: Ins, g: Guest): Result
    requires i.I?
  {
    match Translate(env, g.(llBit := ONE), AddressOf(i, g), ZERO)
    case Next(g1) =>
      var v := LoadValue(isa, if i.op == 48 then 35 else 55, g1.mem, g1.hva, ZERO);
      Next(SetGpr(g1, i.rt, v).(llData := v))
    case e => e
  }

  function AddressOf(i: Ins, g: Guest): Value
    requires i.I?
  {
    Plus(g.gpr(i.rs), SX16(i.imm))
  }

  /** Whether sc or scd may write: the link is open, it was this address, and the word has not changed. */
  predicate LinkHolds(isa: Isa, i: Ins, g: Guest)
    requires i.I?
  {
    g.llBit != ZERO && AddressOf(i, g) == g.va
    && g.llData == LoadValue(isa, if i.op == 56 then 35 else 55, g.mem, g.hva, ZERO)
  }

  /** Memory after the store of an sc or scd to a host address. */
  function ConditionalStore(isa: Isa, i: Ins, g: Guest, hva: Value): Mem
    requires i.I?
  {
    isa.store(if i.op == 56 then 43 else 63, g.mem, hva, g.gpr(i.rt))
  }

  /** The effect of sc or scd once its address has been translated to hva. */
  function Conditional(isa: Isa, i: Ins, g: Guest, hva: Value): Guest
    requires i.I?
  {
    if LinkHolds(isa, i, g) then
      SetGpr(g.(mem := ConditionalStore(isa, i, g, hva)), i.rt, ONE).(llBit := ZERO)
    else
      SetGpr(g, i.rt, ZERO).(llBit := ZERO)
  }

  /** The translation of an address for a store, before the store. */
  function StoreCheck(env: Env, i: Ins, g: Guest): Result
    requires i.I?
  {
    Translate(env, g.(data := g.gpr(i.rt)), AddressOf(i, g), ONE)
  }

  /** Whether a store to the address of i would be let through now. */
  predicate MayStore(env: Env, i: Ins, g: Guest)
    requires i.I?
  {
    StoreCheck(env, i, g).Next?
  }

  /** sc and scd: the address is translated for a store, as for any store, and the store goes where the translation
      says; apart from that a translation that succeeds is not seen. */
  function ConditionalStep(isa: Isa, env: Env, i: Ins, g: Guest): Result
    requires i.I?
  {
    match StoreCheck(env, i, g)
    case Next(g1) => Next(Conditional(isa, i, g, g1.hva))
    case e => e
  }

  /** HI:LO as one 64-bit accumulator. */
  function Accumulator(g: Guest): Value { Value((g.hi.bits << 32) | (g.lo.bits & 0xFFFF_FFFF)) }

  function SetAccumulator(g: Guest, a: Value): Guest { g.(hi := Sra32(a), lo := SX32(a)) }

  /** User mode with neither EXL nor ERL set may not run privileged instructions. */
  predicate InUserMode(status: Value) {
    status.bits & 0x18 == 0x10 && status.bits & 6 == 0
  }

  function TlbStep(env: Env, mark: Value, g: Guest): Result {
    if InUserMode(g.cp0(STATUS)) then Exit(EXP_RI, g)
    else
      var t := After(g.trace, Request(mark, g.pc, Registers(g)));
      Next(g.(cp0 := (x: int) => env.cp0After(t, x), trace := t))
  }

  function TlbMark(func: int): Value {
    Value(if func == 1 then 4 else if func == 2 then 5 else if func == 6 then 6 else 3)
  }

  predicate ErlSet(status: Value) { status.bits & 4 != 0 }

  /** Status after eret: ERL is cleared if it is set, else EXL. */
  function EretStatus(status: Value): Value {
    if ErlSet(status) then Value(status.bits & 0xFFFF_FFFF_FFFF_FFFB) else Value(status.bits & 0xFFFF_FFFF_FFFF_FFFD)
  }

  /** eret, a privileged instruction: ERL selects which saved PC to return to and which Status bit to clear; the link is
      broken. */
  function EretStep(g: Guest): Result {
    var status := g.cp0(STATUS);
    if InUserMode(status) then Exit(EXP_RI, g)
    else
      var from := if ErlSet(status) then ERROR_EPC else EPC;
      Exit(FETCH_NEXT_BLOCK, SetCp0(g.(pc := g.cp0(from), llBit := ZERO), STATUS, EretStatus(status)))
  }

  function StepR(isa: Isa, env: Env, i: Ins, g: Guest): Result
    requires i.R?
  {
    var x, y := g.gpr(i.rs), g.gpr(i.rt);
    if i.op == 0 && IsShift(i.func) then Next(SetGpr(g, i.rd, Shift(isa, i.func, i.rs, i.sa, y)))
    else if i.op == 0 && 24 <= i.func <= 31 then Next(g.(hi := MulHi(isa, i.func, x, y),
                                                         lo := MulLo(isa, i.func, x, y)))
    else if i.op == 0 && i.func == 16 then Next(SetGpr(g, i.rd, g.hi))
    else if i.op == 0 && i.func == 18 then Next(SetGpr(g, i.rd, g.lo))
    else if i.op == 0 && i.func == 12 then Exit(SYSCALL_INT, g)
    else if i.op == 0 && i.func == 13 then Exit(HANDLE_BR, g)
    else if i.op == 0 && i.func == 52 then (if x == y then Exit(TRAP_INT, g) else Next(g))
    else if i.op == 0 && i.func == 54 then (if x != y then Exit(TRAP_INT, g) else Next(g))
    else if i.op == 28 && i.func == 0 then Next(SetAccumulator(g, Plus(Accumulator(g), Product(x, y))))
    else if i.op == 28 && i.func == 1 then Next(SetAccumulator(g, Plus(Accumulator(g), UnsignedProduct(x, y))))
    else if i.op == 28 && i.func == 4 then Next(SetAccumulator(g, Minus(Accumulator(g), Product(x, y))))
    else if i.op == 28 && i.func == 5 then Next(SetAccumulator(g, Minus(Accumulator(g), UnsignedProduct(x, y))))
    else if IsThreeReg(i.op, i.func) then Next(SetGpr(g, i.rd, ThreeReg(isa, i.op, i.func, i.sa, x, y, g.gpr(i.rd))))
    else if IsExt(i.op, i.func) then Next(SetGpr(g, i.rt, isa.ext(i.op, i.func, i.rd, i.sa, x)))
    else if IsIns(i.op, i.func) then Next(SetGpr(g, i.rt, isa.ins(i.op, i.func, i.rd, i.sa, x, y)))
    else if i.op == 16 && i.rs == 16 && i.func == 24 then EretStep(g)
    else if i.op == 16 && i.rs == 16 then TlbStep(env, TlbMark(i.func), g)
    else Next(g) // sync and the hints
  }

  function StepI(isa: Isa, env: Env, i: Ins, g: Guest): Result
    requires i.I?
  {
    if IsImmediate(i.op) then
      Next(SetGpr(g, i.rt, Immediate(isa, i.op, if i.op == 15 then ZERO else g.gpr(i.rs), i.imm)))
    else if IsLoad(i.op) then LoadStep(isa, env, i, g)
    else if IsStore(i.op) then StoreStep(isa, env, i, g)
    else if i.op == 48 || i.op == 52 then LinkedStep(isa, env, i, g)
    else if i.op == 56 || i.op == 60 then ConditionalStep(isa, env, i, g)
    else if i.op == 1 && i.rt == 12 then (if g.gpr(i.rs) == SX32(SX16(i.imm)) then Exit(TRAP_INT, g) else Next(g))
    else if i.op == 1 && i.rt == 14 then (if g.gpr(i.rs) != SX32(SX16(i.imm)) then Exit(TRAP_INT, g) else Next(g))
    else if i.op == 59 then Exit(FETCH_NEXT_BLOCK, g) // the block terminator fixBlock inserts
    else Next(g) // cache and pref
  }

  /** One instruction outside control position. */
  function Step(isa: Isa, env: Env, i: Ins, g: Guest): Result {
    match i
    case R(_, _, _, _, _, _) => StepR(isa, env, i, g)
    case I(_, _, _, _) => StepI(isa, env, i, g)
    case J(_, _) => Next(g)
  }

  /** The register a control instruction links, if any. */
  function LinkRegister(c: Ins): int {
    match c
    case R(_, _, _, rd, _, func) => if func == 9 then rd else 0
    case I(op, _, rt, _) => if IsLinkBranch(op, rt) then 31 else 0
    case J(op, _) => if op == 3 then 31 else 0
  }

  /** A branch offset counts words from the delay slot. */
  function BranchOffset(imm: int): Value {
    Value((SX16(imm).bits << 2) + 4)
  }

  /** A jump stays in the 256 MB region of its delay slot. */
  function RegionTarget(pc: bv64, addr: int): bv64 {
    ((pc + 4) & 0xFFFF_FFFF_F000_0000) | JumpOffset(addr)
  }

  /** Where control goes when the instruction at pc transfers it. */
  function Target(c: Ins, pc: Value, g: Guest): Value {
    match c
    case R(_, rs, _, _, _, _) => g.gpr(rs)
    case I(_, _, _, imm) => Plus(pc, BranchOffset(imm))
    case J(_, addr) => Value(RegionTarget(pc.bits, addr))
  }

  /** A control instruction and its delay slot. The decision and the target use the register values from before
      the slot, and an exit from within the slot happens with the PC still at the branch. */
  function Control(isa: Isa, env: Env, c: Ins, slot: Ins, g: Guest): Result {
    var taken := !c.I? || Taken(c.op, c.rt, g.gpr(c.rs), g.gpr(c.rt));
    var target := if taken then Target(c, g.pc, g) else Plus(g.pc, Value(8));
    var linked := SetGpr(g, LinkRegister(c), Plus(g.pc, Value(8)));
    if !taken && c.I? && IsLikely(c.op, c.rt) then Exit(FETCH_NEXT_BLOCK, linked.(pc := target))
    else
      match Step(isa, env, slot, linked)
      case Next(g1) => Exit(FETCH_NEXT_BLOCK, g1.(pc := target))
      case e => e
  }

  /** A whole block: its last two words are a control instruction and its delay slot, or the terminator. */
  function RunBlock(isa: Isa, env: Env, b: seq<Ins>, g: Guest): Result
    requires |b| >= 2
  {
    if |b| == 2 then
      if b[0].I? && b[0].op == 59 then Step(isa, env, b[0], g) else Control(isa, env, b[0], b[1], g)
    else
      match Step(isa, env, b[0], g)
      case Next(g1) => RunBlock(isa, env, b[1..], g1.(pc := Plus(g1.pc, Value(4))))
      case e => e
  }
}
