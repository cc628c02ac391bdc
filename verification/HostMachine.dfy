/** The host processor while it runs translated code. */
module HostMachine {
  import opened Words
  import opened Instructions
  import opened Machine

  /** Register $12 holds the base of the guest data area, so loads and stores through it reach slots;
      every other base register reaches host memory. */
  const BASE := 12
  const T1 := 13
  const T2 := 14
  const T3 := 15
  const CREG := 24
  const RETREG := 25

  datatype Host = Host(regs: int -> Value, hi: Value, lo: Value, slots: int -> Value, mem: Mem, trace: Trace)

  /** Control is back in C++ for good: the block is over. Broken covers code no emitter produces. */
  datatype Outcome = Leave(host: Host) | Broken

  function SetReg(h: Host, r: int, v: Value): Host {
    if r == 0 then h else h.(regs := (x: int) => if x == r then v else h.regs(x))
  }

  function SetSlot(h: Host, o: int, v: Value): Host {
    h.(slots := (x: int) => if x == o then v else h.slots(x))
  }

  predicate IsPlain(i: Ins) {
    match i
    case R(op, _, _, _, _, func) => op != 0 || (func != 8 && func != 9)
    case I(op, _, _, _) => !IsBranch(op)
    case J(_, _) => false
  }

  predicate IsLoad(op: int) {
    op == 26 || op == 27 || 32 <= op <= 39 || op == 55
  }

  predicate IsStore(op: int) {
    40 <= op <= 46 || op == 63
  }

  predicate IsShift(func: int) {
    func == 0 || func == 2 || func == 3 || func == 56 || func == 58 || func == 59 || func == 60 || func == 62
        || func == 63
  }

  predicate IsExt(op: int, func: int) {
    (op == 31 && 0 <= func <= 3) || (op == 28 && (func == 58 || func == 59 || func == 46 || func == 47))
  }

  predicate IsIns(op: int, func: int) {
    (op == 31 && 4 <= func <= 7) || (op == 28 && (func == 50 || func == 51))
  }

  function PlainI(isa: Isa, op: int, rs: int, rt: int, imm: int, h: Host): Host {
    if op == 55 && rs == BASE then SetReg(h, rt, h.slots(imm))
    else if op == 63 && rs == BASE then SetSlot(h, imm, h.regs(rt))
    else if IsLoad(op) then SetReg(h, rt, LoadValue(isa, op, h.mem, Plus(h.regs(rs), SX16(imm)), h.regs(rt)))
    else if IsStore(op) then h.(mem := isa.store(op, h.mem, Plus(h.regs(rs), SX16(imm)), h.regs(rt)))
    else SetReg(h, rt, Immediate(isa, op, h.regs(rs), imm))
  }

  function PlainR(isa: Isa, op: int, rs: int, rt: int, rd: int, sa: int, func: int, h: Host): Host {
    if op == 0 then
      if IsShift(func) then SetReg(h, rd, Shift(isa, func, rs, sa, h.regs(rt)))
      else if 24 <= func <= 31 then
        h.(hi := MulHi(isa, func, h.regs(rs), h.regs(rt)), lo := MulLo(isa, func, h.regs(rs), h.regs(rt)))
      else if func == 16 then SetReg(h, rd, h.hi)
      else if func == 18 then SetReg(h, rd, h.lo)
      else SetReg(h, rd, ThreeReg(isa, op, func, sa, h.regs(rs), h.regs(rt), h.regs(rd)))
    else if op == 28 && func == 25 && rs == BASE then SetSlot(h, 0, Plus(h.slots(0), h.regs(rt))) // saad
    else if IsExt(op, func) then SetReg(h, rt, isa.ext(op, func, rd, sa, h.regs(rs)))
    else if IsIns(op, func) then SetReg(h, rt, isa.ins(op, func, rd, sa, h.regs(rs), h.regs(rt)))
    else SetReg(h, rd, ThreeReg(isa, op, func, sa, h.regs(rs), h.regs(rt), h.regs(rd)))
  }

  /** An instruction that only moves data. */
  function Plain(isa: Isa, i: Ins, h: Host): Host
    requires IsPlain(i)
  {
    match i
    case R(op, rs, rt, rd, sa, func) => PlainR(isa, op, rs, rt, rd, sa, func, h)
    case I(op, rs, rt, imm) => PlainI(isa, op, rs, rt, imm, h)
  }

  datatype Answer = Resume(host: Host) | Quit(host: Host)

  /** The guest registers, HI and LO, as the slots hold them. */
  function SavedRegisters(h: Host): (s: seq<Value>)
    ensures |s| == 34 && forall r :: 0 <= r < 34 ==> s[r] == h.slots(Gp(r))
  {
    seq(34, (r: int) => h.slots(Gp(r)))
  }

  /** The call-out may clobber every host register but $0. */
  function Clobbered(env: Env, t: Trace, h: Host): Host {
    h.(regs := (x: int) => if x == 0 then h.regs(0) else env.hostRegs(t, x), trace := t)
  }

  /** The request handlers of Processor_IPE behind the C label, for a call that may come back. */
  function Service(env: Env, h: Host): Answer {
    var mark := h.slots(CONTROL_MARK);
    if mark == ZERO then
      var t := After(h.trace, Access(h.slots(PC), h.slots(LDST_ADDR), h.slots(LDST_OP), h.slots(LDST_DATA),
                                     SavedRegisters(h)));
      match env.translate(t, h.mem)
      case Some(m) =>
        Resume(Clobbered(env, t, SetSlot(SetSlot(h, TRANS_ADDR, m.hva), LDST_OP, m.prot)).(mem := m.mem))
      case None =>
        Quit(SetSlot(h, LLBIT, ZERO).(trace := t))
    else if mark == Value(3) || mark == Value(4) || mark == Value(5) || mark == Value(6) then
      var t := After(h.trace, Request(mark, h.slots(PC), SavedRegisters(h)));
      Resume(Clobbered(env, t, h.(slots := (x: int) =>
        if Cp(0) <= x < Cp(256) then env.cp0After(t, (x - Cp(0)) / 8) else h.slots(x))))
    else
      Quit(h)
  }

  /** Runs code from its first word. Every branch in emitted code goes forward, so the rest of the code is the
      program counter: a branch with offset n continues n words after its delay slot's position. */
  function Exec(isa: Isa, env: Env, code: seq<Ins>, h: Host): Outcome {
    if code == [] then Broken
    else if IsPlain(code[0]) then Exec(isa, env, code[1..], Plain(isa, code[0], h))
    else if |code| == 1 || !IsPlain(code[1]) then Broken
    else
      match code[0]
      case I(op, rs, rt, imm) =>
        var linked := if IsLinkBranch(op, rt) then SetReg(h, 31, isa.hostLink) else h;
        if Taken(op, rt, h.regs(rs), h.regs(rt)) then
          if 0 <= imm && 1 + imm <= |code| then Exec(isa, env, code[1 + imm..], Plain(isa, code[1], linked)) else Broken
        else if IsLikely(op, rt) then Exec(isa, env, code[2..], linked)
        else Exec(isa, env, code[2..], Plain(isa, code[1], linked))
      case R(_, rs, _, _, _, func) =>
        if h.regs(rs) != isa.cLabel then Broken
        else if func == 8 then Leave(Plain(isa, code[1], h))
        else
          (match Service(env, Plain(isa, code[1], h))
           case Resume(h1) => Exec(isa, env, code[2..], h1)
           case Quit(h1) => Leave(h1))
      case J(_, _) => Broken
  }
}
