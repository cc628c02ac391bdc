/** One-step facts about the host: what each kind of emitted word does, and how straight-line code composes. */
module HostSteps {
  import opened Words
  import opened Instructions
  import opened Machine
  import opened HostMachine
  import opened Emitters
  import GuestMachine

  // ---- straight-line host code

  lemma Line1(isa: Isa, env: Env, a: Ins, k: seq<Ins>, h: Host)
    requires IsPlain(a)
    ensures Exec(isa, env, [a] + k, h) == Exec(isa, env, k, Plain(isa, a, h))
  {
    assert ([a] + k)[1..] == k;
  }

  lemma Line2(isa: Isa, env: Env, a: Ins, b: Ins, k: seq<Ins>, h: Host)
    requires IsPlain(a) && IsPlain(b)
    ensures Exec(isa, env, [a, b] + k, h) == Exec(isa, env, k, Plain(isa, b, Plain(isa, a, h)))
  {
    assert [a, b] + k == [a] + ([b] + k);
    Line1(isa, env, a, [b] + k, h);
    Line1(isa, env, b, k, Plain(isa, a, h));
  }

  lemma Line3(isa: Isa, env: Env, a: Ins, b: Ins, c: Ins, k: seq<Ins>, h: Host)
    requires IsPlain(a) && IsPlain(b) && IsPlain(c)
    ensures Exec(isa, env, [a, b, c] + k, h) == Exec(isa, env, k, Plain(isa, c, Plain(isa, b, Plain(isa, a, h))))
  {
    assert [a, b, c] + k == [a, b] + ([c] + k);
    Line2(isa, env, a, b, [c] + k, h);
    Line1(isa, env, c, k, Plain(isa, b, Plain(isa, a, h)));
  }

  lemma Line4(isa: Isa, env: Env, a: Ins, b: Ins, c: Ins, d: Ins, k: seq<Ins>, h: Host)
    requires IsPlain(a) && IsPlain(b) && IsPlain(c) && IsPlain(d)
    ensures Exec(isa, env, [a, b, c, d] + k, h)
            == Exec(isa, env, k, Plain(isa, d, Plain(isa, c, Plain(isa, b, Plain(isa, a, h)))))
  {
    assert [a, b, c, d] + k == [a, b] + ([c, d] + k);
    Line2(isa, env, a, b, [c, d] + k, h);
    Line2(isa, env, c, d, k, Plain(isa, b, Plain(isa, a, h)));
  }

  lemma Line5(isa: Isa, env: Env, a: Ins, b: Ins, c: Ins, d: Ins, e: Ins, k: seq<Ins>, h: Host)
    requires IsPlain(a) && IsPlain(b) && IsPlain(c) && IsPlain(d) && IsPlain(e)
    ensures Exec(isa, env, [a, b, c, d, e] + k, h)
            == Exec(isa, env, k, Plain(isa, e, Plain(isa, d, Plain(isa, c, Plain(isa, b, Plain(isa, a, h))))))
  {
    assert [a, b, c, d, e] + k == [a, b, c, d] + ([e] + k);
    Line4(isa, env, a, b, c, d, [e] + k, h);
    Line1(isa, env, e, k, Plain(isa, d, Plain(isa, c, Plain(isa, b, Plain(isa, a, h)))));
  }

  lemma Assoc(a: seq<Ins>, b: seq<Ins>, k: seq<Ins>)
    ensures (a + b) + k == a + (b + k)
  {
  }

  // ---- single instructions

  lemma PlainFetch(isa: Isa, t: int, o: int, h: Host)
    ensures IsPlain(Fetch(t, o)) && Plain(isa, Fetch(t, o), h) == SetReg(h, t, h.slots(o))
  {
    hide SetReg;
  }

  lemma PlainPut(isa: Isa, t: int, o: int, h: Host)
    ensures IsPlain(Put(t, o)) && Plain(isa, Put(t, o), h) == SetSlot(h, o, h.regs(t))
  {
    hide SetSlot;
  }

  lemma PlainImmediate(isa: Isa, op: int, rs: int, rt: int, imm: int, h: Host)
    requires 8 <= op <= 15 || op == 24 || op == 25
    ensures IsPlain(I(op, rs, rt, imm))
    ensures Plain(isa, I(op, rs, rt, imm), h) == SetReg(h, rt, Immediate(isa, op, h.regs(rs), imm))
  {
    hide SetReg, Immediate;
  }

  lemma PlainThree(isa: Isa, op: int, rs: int, rt: int, rd: int, sa: int, func: int, h: Host)
    requires GuestMachine.IsThreeReg(op, func)
    ensures IsPlain(R(op, rs, rt, rd, sa, func))
    ensures Plain(isa, R(op, rs, rt, rd, sa, func), h)
            == SetReg(h, rd, ThreeReg(isa, op, func, sa, h.regs(rs), h.regs(rt), h.regs(rd)))
  {
    hide ThreeReg, SetReg;
  }

  lemma PlainShift(isa: Isa, rs: int, rt: int, rd: int, sa: int, func: int, h: Host)
    requires IsShift(func)
    ensures IsPlain(R(0, rs, rt, rd, sa, func))
    ensures Plain(isa, R(0, rs, rt, rd, sa, func), h) == SetReg(h, rd, Shift(isa, func, rs, sa, h.regs(rt)))
  {
    hide Shift, SetReg;
  }

  lemma PlainMul(isa: Isa, rs: int, rt: int, rd: int, sa: int, func: int, h: Host)
    requires 24 <= func <= 31
    ensures IsPlain(R(0, rs, rt, rd, sa, func))
    ensures Plain(isa, R(0, rs, rt, rd, sa, func), h)
            == h.(hi := MulHi(isa, func, h.regs(rs), h.regs(rt)), lo := MulLo(isa, func, h.regs(rs), h.regs(rt)))
  {
    hide MulHi, MulLo;
  }

  lemma PlainMoveHiLo(isa: Isa, rd: int, h: Host)
    ensures IsPlain(R(0, 0, 0, rd, 0, 16)) && Plain(isa, R(0, 0, 0, rd, 0, 16), h) == SetReg(h, rd, h.hi)
    ensures IsPlain(R(0, 0, 0, rd, 0, 18)) && Plain(isa, R(0, 0, 0, rd, 0, 18), h) == SetReg(h, rd, h.lo)
  {
    hide SetReg;
  }

  lemma PlainExt(isa: Isa, op: int, rs: int, rt: int, rd: int, sa: int, func: int, h: Host)
    requires IsExt(op, func)
    ensures IsPlain(R(op, rs, rt, rd, sa, func))
    ensures Plain(isa, R(op, rs, rt, rd, sa, func), h) == SetReg(h, rt, isa.ext(op, func, rd, sa, h.regs(rs)))
  {
    hide SetReg;
  }

  lemma PlainIns(isa: Isa, op: int, rs: int, rt: int, rd: int, sa: int, func: int, h: Host)
    requires IsIns(op, func)
    ensures IsPlain(R(op, rs, rt, rd, sa, func))
    ensures Plain(isa, R(op, rs, rt, rd, sa, func), h)
            == SetReg(h, rt, isa.ins(op, func, rd, sa, h.regs(rs), h.regs(rt)))
  {
    hide SetReg;
  }

  lemma PlainLoad(isa: Isa, op: int, rs: int, rt: int, h: Host)
    requires IsLoad(op) && rs != BASE
    ensures IsPlain(I(op, rs, rt, 0))
    ensures Plain(isa, I(op, rs, rt, 0), h) == SetReg(h, rt, LoadValue(isa, op, h.mem, h.regs(rs), h.regs(rt)))
  {
    hide SetReg, LoadValue;
    assert Plus(h.regs(rs), SX16(0)) == h.regs(rs);
  }

  lemma PlainStore(isa: Isa, op: int, rs: int, rt: int, h: Host)
    requires IsStore(op) && rs != BASE
    ensures IsPlain(I(op, rs, rt, 0))
    ensures Plain(isa, I(op, rs, rt, 0), h) == h.(mem := isa.store(op, h.mem, h.regs(rs), h.regs(rt)))
  {
    assert Plus(h.regs(rs), SX16(0)) == h.regs(rs);
  }

  /** add $13, $0, $0. */
  lemma PlainClear(isa: Isa, h: Host)
    requires h.regs(0) == ZERO
    ensures IsPlain(R(0, 0, 0, T1, 0, 32)) && Plain(isa, R(0, 0, 0, T1, 0, 32), h) == SetReg(h, T1, ZERO)
  {
    hide SetReg, Plain, PlainR;
    PlainThree(isa, 0, 0, 0, T1, 0, 32, h);
  }

  lemma PlainNop(isa: Isa, h: Host)
    ensures IsPlain(NOP) && Plain(isa, NOP, h) == h
  {
    hide Shift;
  }

  lemma SmallWord(b: bv64)
    requires b < 16
    ensures SX32(Plus(ZERO, Value(b))) == Value(b)
  {
  }

  predicate KnownMark(m: int) {
    m == 0 || m == 1 || m == 2 || m == 3 || m == 4 || m == 5 || m == 6 || m == 12 || m == 13 || m == 14
  }

  /** The number the C++ side reads for a control mark. */
  function MarkValue(m: int): Value
    requires KnownMark(m)
  {
    Value(if m == 0 then 0 else if m == 1 then 1 else if m == 2 then 2 else if m == 3 then 3 else if m == 4 then 4
          else if m == 5 then 5 else if m == 6 then 6 else if m == 12 then 12 else if m == 13 then 13 else 14)
  }

  lemma SmallConstant(m: int)
    requires KnownMark(m)
    ensures (m as bv64) < 16 && MarkValue(m) == Value(m as bv64)
  {
  }

  /** The constants the emitters load with addiu are the numbers they name. */
  lemma ConstValue(isa: Isa, m: int)
    requires KnownMark(m)
    ensures Immediate(isa, 9, ZERO, m) == MarkValue(m)
  {
    hide SX32;
    SmallConstant(m);
    SmallWord(m as bv64);
  }

  lemma PlusZero(x: Value)
    ensures Plus(ZERO, x) == x
  {
  }

  predicate LeavingMark(m: int) { m == SYSCALL_INT || m == HANDLE_BR || m == TRAP_INT || m == EXP_RI }

  predicate TlbMarkNumber(m: int) { m == TLB_PROBE || m == TLB_READ || m == TLB_WRITEI || m == TLB_WRITE }

  lemma LeavingMarkValue(m: int)
    requires LeavingMark(m)
    ensures var v := MarkValue(m);
      v != ZERO && v != Value(3) && v != Value(4) && v != Value(5) && v != Value(6)
  {
  }

  lemma TlbMarkValue(m: int)
    requires TlbMarkNumber(m)
    ensures var v := MarkValue(m);
      v != ZERO && (v == Value(3) || v == Value(4) || v == Value(5) || v == Value(6))
  {
  }

  lemma RequestLength(m: int)
    ensures |RequestC(m)| == 5
  {
  }

  // ---- the idioms: mark and call, mark and exit, branch

  function Marked(h: Host, t: int, m: int): Host
    requires KnownMark(m)
  {
    SetSlot(SetReg(h, t, MarkValue(m)), CONTROL_MARK, MarkValue(m))
  }

  lemma RunSetMark(isa: Isa, env: Env, t: int, m: int, k: seq<Ins>, h: Host)
    requires KnownMark(m) && h.regs(0) == ZERO && t != 0
    ensures Exec(isa, env, SetMark(t, m) + k, h) == Exec(isa, env, k, Marked(h, t, m))
  {
    hide Plain, PlainI, PlainR, Immediate, Exec, MarkValue;
    ConstValue(isa, m);
    PlainImmediate(isa, 9, 0, t, m, h);
    PlainPut(isa, t, CONTROL_MARK, SetReg(h, t, MarkValue(m)));
    Line2(isa, env, Const(t, m), Put(t, CONTROL_MARK), k, h);
  }

  function AfterCall(isa: Isa, env: Env, k: seq<Ins>, a: Answer): Outcome {
    match a
    case Resume(h) => Exec(isa, env, k, h)
    case Quit(h) => Leave(h)
  }

  lemma RunCallC(isa: Isa, env: Env, k: seq<Ins>, h: Host)
    requires h.slots(C_LABEL) == isa.cLabel
    ensures Exec(isa, env, CallC() + k, h) == AfterCall(isa, env, k, Service(env, SetReg(h, CREG, isa.cLabel)))
  {
    hide Plain, PlainI, PlainR, Service;
    PlainFetch(isa, CREG, C_LABEL, h);
    var h1 := SetReg(h, CREG, isa.cLabel);
    PlainNop(isa, h1);
    var rest := [R(0, CREG, 0, RETREG, 0, 9), NOP] + k;
    assert CallC() + k == [Fetch(CREG, C_LABEL)] + rest;
    Line1(isa, env, Fetch(CREG, C_LABEL), rest, h);
    assert rest[2..] == k;
  }

  lemma RunExitC(isa: Isa, env: Env, k: seq<Ins>, h: Host)
    requires h.slots(C_LABEL) == isa.cLabel
    ensures Exec(isa, env, ExitC() + k, h) == Leave(SetReg(h, CREG, isa.cLabel))
  {
    hide Plain, PlainI, PlainR;
    PlainFetch(isa, CREG, C_LABEL, h);
    var h1 := SetReg(h, CREG, isa.cLabel);
    PlainNop(isa, h1);
    var rest := [R(0, CREG, 0, 0, 0, 8), NOP] + k;
    assert ExitC() + k == [Fetch(CREG, C_LABEL)] + rest;
    Line1(isa, env, Fetch(CREG, C_LABEL), rest, h);
  }

  /** A branch over a path: taken continues after the path, not taken runs it. The skip count is exact. */
  lemma RunBranch(isa: Isa, env: Env, op: int, rs: int, rt: int, delay: Ins, path: seq<Ins>, k: seq<Ins>, h: Host)
    requires IsBranch(op) && IsPlain(delay)
    ensures var b := [I(op, rs, rt, |path| + 1), delay];
      var linked := if IsLinkBranch(op, rt) then SetReg(h, 31, isa.hostLink) else h;
      Exec(isa, env, b + (path + k), h)
      == if Taken(op, rt, h.regs(rs), h.regs(rt)) then Exec(isa, env, k, Plain(isa, delay, linked))
         else if IsLikely(op, rt) then Exec(isa, env, path + k, linked)
         else Exec(isa, env, path + k, Plain(isa, delay, linked))
  {
    hide Plain, Taken, IsLikely, IsLinkBranch;
    var code := [I(op, rs, rt, |path| + 1), delay] + (path + k);
    assert code[2..] == path + k;
    assert code[1 + (|path| + 1)..] == k;
  }
}
