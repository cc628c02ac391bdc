/** Running what an emitter appends does to the slots what the guest instruction does to the guest. */
module Simulation {
  import opened Words
  import opened Instructions
  import opened Machine
  import opened HostMachine
  import opened GuestMachine
  import opened Emitters
  import opened HostSteps

  /** The slots hold the guest's state. */
  ghost predicate Rel(isa: Isa, end: Value, g: Guest, h: Host) {
    && h.regs(0) == ZERO && g.gpr(0) == ZERO
    && (forall r :: 0 <= r < 32 ==> h.slots(Gp(r)) == g.gpr(r))
    && (forall i :: 0 <= i < 256 ==> h.slots(Cp(i)) == g.cp0(i))
    && h.slots(HI) == g.hi && h.slots(LO) == g.lo && h.slots(PC) == g.pc
    && h.mem == g.mem && h.trace == g.trace
    && h.slots(LLBIT) == g.llBit && h.slots(LL_DATA) == g.llData
    && h.slots(TRANS_ADDR) == g.hva && h.slots(LDST_ADDR) == g.va && h.slots(LDST_DATA) == g.data
       && h.slots(LDST_OP) == g.prot
    && h.slots(C_LABEL) == isa.cLabel && h.slots(BLOCK_END_PC) == end
  }

  /** What a delay slot must leave alone. */
  ghost predicate KeepsTemps(h: Host, h1: Host) {
    h1.slots(TEMP_SLOT4) == h.slots(TEMP_SLOT4) && h1.slots(TEMP_SLOT5) == h.slots(TEMP_SLOT5)
  }

  /** The host runs code and reaches k, or leaves, in a state h1 that holds the guest's result r. */
  ghost predicate Simulates(isa: Isa, env: Env, end: Value, r: Result, code: seq<Ins>, k: seq<Ins>, h: Host, h1: Host) {
    match r
    case Next(g1) =>
      Exec(isa, env, code + k, h) == Exec(isa, env, k, h1) && Rel(isa, end, g1, h1) && KeepsTemps(h, h1)
    case Exit(m, g1) =>
      KnownMark(m) && Exec(isa, env, code + k, h) == Leave(h1) && Rel(isa, end, g1, h1)
      && h1.slots(CONTROL_MARK) == MarkValue(m)
  }

  // ---- effects on the relation

  /** One slot changed, and host registers other than $0. */
  ghost predicate Wrote(h: Host, h1: Host, o: int, v: Value) {
    && (forall x :: h1.slots(x) == if x == o then v else h.slots(x))
    && h1.mem == h.mem && h1.trace == h.trace && h1.regs(0) == h.regs(0)
  }

  ghost predicate Wrote2(h: Host, h1: Host, o: int, v: Value, p: int, w: Value) {
    && (forall x :: h1.slots(x) == if x == o then v else if x == p then w else h.slots(x))
    && h1.mem == h.mem && h1.trace == h.trace && h1.regs(0) == h.regs(0)
  }

  lemma RelGpr(isa: Isa, end: Value, g: Guest, h: Host, r: int, v: Value, h1: Host)
    requires Rel(isa, end, g, h) && 0 < r < 32 && Wrote(h, h1, Gp(r), v)
    ensures Rel(isa, end, SetGpr(g, r, v), h1) && KeepsTemps(h, h1)
  {
  }

  lemma RelHiLo(isa: Isa, end: Value, g: Guest, h: Host, hi: Value, lo: Value, h1: Host)
    requires Rel(isa, end, g, h) && Wrote2(h, h1, HI, hi, LO, lo)
    ensures Rel(isa, end, g.(hi := hi, lo := lo), h1) && KeepsTemps(h, h1)
  {
  }

  // ---- straight-line emitters

  lemma RunUnprevR(isa: Isa, env: Env, i: Ins, k: seq<Ins>, h: Host) returns (h1: Host)
    requires i.R? && IsThreeReg(i.op, i.func) && i.rd != 0
    ensures Exec(isa, env, UnprevR(i) + k, h) == Exec(isa, env, k, h1)
    ensures Wrote(h, h1, Gp(i.rd), ThreeReg(isa, i.op, i.func, i.sa, h.slots(Gp(i.rs)), h.slots(Gp(i.rt)),
                                            h.slots(Gp(i.rd))))
  {
    hide Plain, PlainI, PlainR, ThreeReg, Exec;
    PlainFetch(isa, T1, Gp(i.rs), h);
    h1 := SetReg(h, T1, h.slots(Gp(i.rs)));
    PlainFetch(isa, T2, Gp(i.rt), h1);
    h1 := SetReg(h1, T2, h.slots(Gp(i.rt)));
    PlainFetch(isa, T3, Gp(i.rd), h1);
    h1 := SetReg(h1, T3, h.slots(Gp(i.rd)));
    PlainThree(isa, i.op, T1, T2, T3, i.sa, i.func, h1);
    h1 := SetReg(h1, T3, ThreeReg(isa, i.op, i.func, i.sa, h1.regs(T1), h1.regs(T2), h1.regs(T3)));
    PlainPut(isa, T3, Gp(i.rd), h1);
    h1 := SetSlot(h1, Gp(i.rd), h1.regs(T3));
    Line5(isa, env, Fetch(T1, Gp(i.rs)), Fetch(T2, Gp(i.rt)), Fetch(T3, Gp(i.rd)),
          R(i.op, T1, T2, T3, i.sa, i.func), Put(T3, Gp(i.rd)), k, h);
  }

  lemma RunShiftR(isa: Isa, env: Env, i: Ins, k: seq<Ins>, h: Host) returns (h1: Host)
    requires i.R? && i.op == 0 && IsShift(i.func)
    ensures Exec(isa, env, ShiftR(i) + k, h) == Exec(isa, env, k, h1)
    ensures Wrote(h, h1, Gp(i.rd), Shift(isa, i.func, i.rs, i.sa, h.slots(Gp(i.rt))))
  {
    hide Plain, PlainI, PlainR, Shift, Exec;
    PlainFetch(isa, T1, Gp(i.rt), h);
    h1 := SetReg(h, T1, h.slots(Gp(i.rt)));
    PlainShift(isa, i.rs, T1, T2, i.sa, i.func, h1);
    h1 := SetReg(h1, T2, Shift(isa, i.func, i.rs, i.sa, h1.regs(T1)));
    PlainPut(isa, T2, Gp(i.rd), h1);
    h1 := SetSlot(h1, Gp(i.rd), h1.regs(T2));
    Line3(isa, env, Fetch(T1, Gp(i.rt)), R(0, i.rs, T1, T2, i.sa, i.func), Put(T2, Gp(i.rd)), k, h);
  }

  lemma RunMulDivR(isa: Isa, env: Env, i: Ins, k: seq<Ins>, h: Host) returns (h1: Host)
    requires i.R? && i.op == 0 && 24 <= i.func <= 31
    ensures Exec(isa, env, MulDivR(i) + k, h) == Exec(isa, env, k, h1)
    ensures Wrote2(h, h1, HI, MulHi(isa, i.func, h.slots(Gp(i.rs)), h.slots(Gp(i.rt))),
                   LO, MulLo(isa, i.func, h.slots(Gp(i.rs)), h.slots(Gp(i.rt))))
  {
    hide Plain, PlainI, PlainR, MulHi, MulLo, Exec;
    PlainFetch(isa, T1, Gp(i.rs), h);
    var a := SetReg(h, T1, h.slots(Gp(i.rs)));
    PlainFetch(isa, T2, Gp(i.rt), a);
    a := SetReg(a, T2, h.slots(Gp(i.rt)));
    PlainMul(isa, T1, T2, i.rd, i.sa, i.func, a);
    a := a.(hi := MulHi(isa, i.func, a.regs(T1), a.regs(T2)), lo := MulLo(isa, i.func, a.regs(T1), a.regs(T2)));
    PlainMoveHiLo(isa, T2, a);
    h1 := SetReg(a, T2, a.lo);
    PlainMoveHiLo(isa, T1, h1);
    h1 := SetReg(h1, T1, a.hi);
    PlainPut(isa, T2, LO, h1);
    h1 := SetSlot(h1, LO, h1.regs(T2));
    PlainPut(isa, T1, HI, h1);
    h1 := SetSlot(h1, HI, h1.regs(T1));
    var rest := [R(0, 0, 0, T2, 0, 18), R(0, 0, 0, T1, 0, 16), Put(T2, LO), Put(T1, HI)];
    Assoc([Fetch(T1, Gp(i.rs)), Fetch(T2, Gp(i.rt)), R(0, T1, T2, i.rd, i.sa, i.func)], rest, k);
    Line3(isa, env, Fetch(T1, Gp(i.rs)), Fetch(T2, Gp(i.rt)), R(0, T1, T2, i.rd, i.sa, i.func), rest + k, h);
    Line4(isa, env, R(0, 0, 0, T2, 0, 18), R(0, 0, 0, T1, 0, 16), Put(T2, LO), Put(T1, HI), k, a);
  }

  lemma RunMoveFrom(isa: Isa, env: Env, source: int, dest: int, k: seq<Ins>, h: Host) returns (h1: Host)
    ensures Exec(isa, env, [Fetch(T1, source), Put(T1, dest)] + k, h) == Exec(isa, env, k, h1)
    ensures Wrote(h, h1, dest, h.slots(source))
  {
    hide Plain, PlainI, PlainR, Exec;
    PlainFetch(isa, T1, source, h);
    h1 := SetReg(h, T1, h.slots(source));
    PlainPut(isa, T1, dest, h1);
    h1 := SetSlot(h1, dest, h1.regs(T1));
    Line2(isa, env, Fetch(T1, source), Put(T1, dest), k, h);
  }

  lemma RunExtR(isa: Isa, env: Env, i: Ins, k: seq<Ins>, h: Host) returns (h1: Host)
    requires i.R? && IsExt(i.op, i.func)
    ensures Exec(isa, env, ExtR(i) + k, h) == Exec(isa, env, k, h1)
    ensures Wrote(h, h1, Gp(i.rt), isa.ext(i.op, i.func, i.rd, i.sa, h.slots(Gp(i.rs))))
  {
    hide Plain, PlainI, PlainR, Exec;
    PlainFetch(isa, T1, Gp(i.rs), h);
    h1 := SetReg(h, T1, h.slots(Gp(i.rs)));
    PlainExt(isa, i.op, T1, T2, i.rd, i.sa, i.func, h1);
    h1 := SetReg(h1, T2, isa.ext(i.op, i.func, i.rd, i.sa, h1.regs(T1)));
    PlainPut(isa, T2, Gp(i.rt), h1);
    h1 := SetSlot(h1, Gp(i.rt), h1.regs(T2));
    Line3(isa, env, Fetch(T1, Gp(i.rs)), R(i.op, T1, T2, i.rd, i.sa, i.func), Put(T2, Gp(i.rt)), k, h);
  }

  lemma RunInsR(isa: Isa, env: Env, i: Ins, k: seq<Ins>, h: Host) returns (h1: Host)
    requires i.R? && IsIns(i.op, i.func)
    ensures Exec(isa, env, InsR(i) + k, h) == Exec(isa, env, k, h1)
    ensures Wrote(h, h1, Gp(i.rt), isa.ins(i.op, i.func, i.rd, i.sa, h.slots(Gp(i.rs)), h.slots(Gp(i.rt))))
  {
    hide Plain, PlainI, PlainR, Exec;
    PlainFetch(isa, T1, Gp(i.rs), h);
    h1 := SetReg(h, T1, h.slots(Gp(i.rs)));
    PlainFetch(isa, T2, Gp(i.rt), h1);
    h1 := SetReg(h1, T2, h.slots(Gp(i.rt)));
    PlainIns(isa, i.op, T1, T2, i.rd, i.sa, i.func, h1);
    h1 := SetReg(h1, T2, isa.ins(i.op, i.func, i.rd, i.sa, h1.regs(T1), h1.regs(T2)));
    PlainPut(isa, T2, Gp(i.rt), h1);
    h1 := SetSlot(h1, Gp(i.rt), h1.regs(T2));
    Line4(isa, env, Fetch(T1, Gp(i.rs)), Fetch(T2, Gp(i.rt)), R(i.op, T1, T2, i.rd, i.sa, i.func), Put(T2, Gp(i.rt)),
          k, h);
  }

  lemma RunUnprevI(isa: Isa, env: Env, i: Ins, k: seq<Ins>, h: Host) returns (h1: Host)
    requires i.I? && IsImmediate(i.op) && h.regs(0) == ZERO
    ensures Exec(isa, env, UnprevI(i) + k, h) == Exec(isa, env, k, h1)
    ensures Wrote(h, h1, Gp(i.rt), Immediate(isa, i.op, if i.op == 15 then ZERO else h.slots(Gp(i.rs)), i.imm))
  {
    hide Plain, PlainI, PlainR, Immediate, Exec;
    var rs := if i.op != LUI then T1 else 0;
    PlainFetch(isa, T1, Gp(i.rs), h);
    h1 := SetReg(h, T1, h.slots(Gp(i.rs)));
    PlainImmediate(isa, i.op, rs, T2, i.imm, h1);
    h1 := SetReg(h1, T2, Immediate(isa, i.op, h1.regs(rs), i.imm));
    PlainPut(isa, T2, Gp(i.rt), h1);
    h1 := SetSlot(h1, Gp(i.rt), h1.regs(T2));
    Line3(isa, env, Fetch(T1, Gp(i.rs)), I(i.op, rs, T2, i.imm), Put(T2, Gp(i.rt)), k, h);
  }

  lemma UnprevRRuns(isa: Isa, env: Env, end: Value, i: Ins, k: seq<Ins>, g: Guest, h: Host) returns (h1: Host)
    requires i.R? && WellFormed(i) && IsThreeReg(i.op, i.func) && Rel(isa, end, g, h)
    ensures Simulates(isa, env, end,
              Next(SetGpr(g, i.rd, ThreeReg(isa, i.op, i.func, i.sa, g.gpr(i.rs), g.gpr(i.rt), g.gpr(i.rd)))),
                  UnprevR(i), k, h, h1)
  {
    hide Exec, ThreeReg, Plain;
    if i.rd != 0 {
      h1 := RunUnprevR(isa, env, i, k, h);
      RelGpr(isa, end, g, h, i.rd, h1.slots(Gp(i.rd)), h1);
    } else {
      PlainNop(isa, h);
      Line1(isa, env, NOP, k, h);
      h1 := h;
    }
  }

  lemma MoveFromRuns(isa: Isa, env: Env, end: Value, i: Ins, k: seq<Ins>, g: Guest, h: Host) returns (h1: Host)
    requires i.R? && 0 <= i.rd < 32 && Rel(isa, end, g, h)
    ensures Simulates(isa, env, end, Next(SetGpr(g, i.rd, if i.func == 16 then g.hi else g.lo)), MoveFromLoHi(i), k, h,
                      h1)
  {
    hide Exec, Plain;
    var source := if i.func == 16 then HI else LO;
    if i.rd != 0 {
      h1 := RunMoveFrom(isa, env, source, Gp(i.rd), k, h);
      RelGpr(isa, end, g, h, i.rd, h.slots(source), h1);
    } else {
      PlainFetch(isa, T1, source, h);
      Line1(isa, env, Fetch(T1, source), k, h);
      h1 := SetReg(h, T1, h.slots(source));
      RelSame(isa, end, g, h, h1);
    }
  }

  // ---- call-outs

  /** The slots after a call-out that was answered with a mapping. */
  ghost predicate Mapped(h: Host, h1: Host, m: Mapping) {
    && (forall x :: h1.slots(x) == if x == TRANS_ADDR then m.hva else if x == LDST_OP then m.prot else h.slots(x))
    && h1.mem == m.mem && h1.regs(0) == h.regs(0)
  }

  ghost predicate Refused(h: Host, h1: Host) {
    && (forall x :: h1.slots(x) == if x == LLBIT then ZERO else h.slots(x))
    && h1.mem == h.mem && h1.regs(0) == h.regs(0)
  }

  /** The call a translated access makes: the PC slot, the pending store data and the registers travel with it. */
  function AccessCall(h: Host, va: Value): Call {
    Access(h.slots(PC), va, h.slots(LDST_OP), h.slots(LDST_DATA), SavedRegisters(h))
  }

  lemma SameRegisters(h: Host, h1: Host)
    requires forall r :: 0 <= r < 34 ==> h1.slots(Gp(r)) == h.slots(Gp(r))
    ensures SavedRegisters(h1) == SavedRegisters(h)
  {
  }

  lemma RelRegisters(isa: Isa, end: Value, g: Guest, h: Host)
    requires Rel(isa, end, g, h)
    ensures SavedRegisters(h) == Registers(g)
  {
    forall r | 0 <= r < 34 ensures SavedRegisters(h)[r] == Registers(g)[r] {
      if r < 32 { assert h.slots(Gp(r)) == g.gpr(r); }
    }
  }

  lemma RunAddress(isa: Isa, env: Env, rs: int, imm: int, k: seq<Ins>, h: Host) returns (h1: Host)
    ensures Exec(isa, env, [Fetch(T1, Gp(rs)), I(DADDIU, T1, T1, imm), Put(T1, LDST_ADDR)] + k, h)
            == Exec(isa, env, k, h1)
    ensures Wrote(h, h1, LDST_ADDR, Plus(h.slots(Gp(rs)), SX16(imm)))
  {
    hide Plain, PlainI, PlainR, Exec, SX16, Plus;
    PlainFetch(isa, T1, Gp(rs), h);
    h1 := SetReg(h, T1, h.slots(Gp(rs)));
    PlainImmediate(isa, DADDIU, T1, T1, imm, h1);
    h1 := SetReg(h1, T1, Plus(h1.regs(T1), SX16(imm)));
    PlainPut(isa, T1, LDST_ADDR, h1);
    h1 := SetSlot(h1, LDST_ADDR, h1.regs(T1));
    Line3(isa, env, Fetch(T1, Gp(rs)), I(DADDIU, T1, T1, imm), Put(T1, LDST_ADDR), k, h);
  }

  /** A mapping lets the code go on with k; a refusal ends it. */
  ghost predicate Answered(isa: Isa, env: Env, answer: Option<Mapping>, code: seq<Ins>, k: seq<Ins>, h: Host, a: Host,
                           h1: Host) {
    match answer
    case Some(m) => Exec(isa, env, code, h) == Exec(isa, env, k, h1) && Mapped(a, h1, m)
    case None => Exec(isa, env, code, h) == Leave(h1) && Refused(a, h1)
  }

  /** a is the state at the call, h1 the state after the answer. */
  lemma RunAddressCall(isa: Isa, env: Env, rs: int, imm: int, k: seq<Ins>, h: Host) returns (a: Host, h1: Host)
    requires h.regs(0) == ZERO && h.slots(C_LABEL) == isa.cLabel
    ensures var va := Plus(h.slots(Gp(rs)), SX16(imm));
      Wrote2(h, a, LDST_ADDR, va, CONTROL_MARK, ZERO)
      && h1.trace == After(h.trace, AccessCall(h, va))
      && Answered(isa, env, env.translate(h1.trace, h.mem), AddressCall(rs, imm) + k, k, h, a, h1)
  {
    hide Exec, SX16, Plus;
    var setUp := [Fetch(T1, Gp(rs)), I(DADDIU, T1, T1, imm), Put(T1, LDST_ADDR)];
    Assoc(setUp, SetMark(T2, 0) + CallC(), k);
    Assoc(SetMark(T2, 0), CallC(), k);
    a := RunAddress(isa, env, rs, imm, SetMark(T2, 0) + (CallC() + k), h);
    RunSetMark(isa, env, T2, 0, CallC() + k, a);
    a := Marked(a, T2, 0);
    RunCallC(isa, env, k, a);
    a := SetReg(a, CREG, isa.cLabel);
    SameRegisters(h, a);
    hide SavedRegisters;
    h1 := Service(env, a).host;
  }

  lemma RelCalling(isa: Isa, end: Value, g: Guest, h: Host, va: Value, a: Host)
    requires Rel(isa, end, g, h) && Wrote2(h, a, LDST_ADDR, va, CONTROL_MARK, ZERO)
    ensures Rel(isa, end, g.(va := va), a) && KeepsTemps(h, a)
  {
  }

  lemma RelMapped(isa: Isa, end: Value, g: Guest, h: Host, m: Mapping, h1: Host)
    requires Rel(isa, end, g, h) && Mapped(h, h1, m)
    ensures Rel(isa, end, g.(hva := m.hva, prot := m.prot, mem := m.mem, trace := h1.trace), h1) && KeepsTemps(h, h1)
  {
  }

  lemma RelRefused(isa: Isa, end: Value, g: Guest, h: Host, h1: Host)
    requires Rel(isa, end, g, h) && Refused(h, h1)
    ensures Rel(isa, end, g.(llBit := ZERO, trace := h1.trace), h1)
  {
  }

  /** The whole call-out against the guest's Translate. */
  lemma AddressCallRuns(isa: Isa, env: Env, end: Value, rs: int, imm: int, k: seq<Ins>, g: Guest, h: Host)
    returns (h1: Host)
    requires Rel(isa, end, g, h) && 0 <= rs < 32
    ensures Simulates(isa, env, end, Translate(env, g, Plus(g.gpr(rs), SX16(imm)), g.prot), AddressCall(rs, imm), k, h,
                      h1)
  {
    hide Exec, SX16, Plus, AddressCall, SavedRegisters, Registers;
    RelRegisters(isa, end, g, h);
    var va := Plus(g.gpr(rs), SX16(imm));
    var a;
    a, h1 := RunAddressCall(isa, env, rs, imm, k, h);
    RelCalling(isa, end, g, h, va, a);
    match env.translate(h1.trace, g.mem) {
      case Some(m) => RelMapped(isa, end, g.(va := va), a, m, h1);
      case None => RelRefused(isa, end, g.(va := va), a, h1);
    }
  }

  /** The direction of an access is told with it; what the slot said before does not matter. */
  lemma DirectionBefore(env: Env, g: Guest, prot: Value, va: Value, store: Value)
    ensures Translate(env, g.(prot := prot), va, store) == Translate(env, g, va, store)
  {
    hide Registers;
    assert Registers(g.(prot := prot)) == Registers(g);
  }

  lemma RelScratch(isa: Isa, end: Value, g: Guest, h: Host, o: int, v: Value, h1: Host)
    requires Rel(isa, end, g, h) && Wrote(h, h1, o, v) && o == CONTROL_MARK
    ensures Rel(isa, end, g, h1) && KeepsTemps(h, h1)
  {
  }

  lemma RelDirection(isa: Isa, end: Value, g: Guest, h: Host, v: Value, h1: Host)
    requires Rel(isa, end, g, h) && Wrote(h, h1, LDST_OP, v)
    ensures Rel(isa, end, g.(prot := v), h1) && KeepsTemps(h, h1)
  {
  }

  lemma RelStoreData(isa: Isa, end: Value, g: Guest, h: Host, v: Value, data: Value, h1: Host)
    requires Rel(isa, end, g, h) && Wrote2(h, h1, LDST_OP, v, LDST_DATA, data)
    ensures Rel(isa, end, g.(data := data, prot := v), h1) && KeepsTemps(h, h1)
  {
  }

  lemma RunSetOp(isa: Isa, env: Env, c: int, k: seq<Ins>, h: Host) returns (h1: Host)
    requires KnownMark(c) && h.regs(0) == ZERO
    ensures Exec(isa, env, [Const(T2, c), Put(T2, LDST_OP)] + k, h) == Exec(isa, env, k, h1)
    ensures Wrote(h, h1, LDST_OP, MarkValue(c))
  {
    hide Plain, PlainI, PlainR, Immediate, Exec, MarkValue;
    ConstValue(isa, c);
    PlainImmediate(isa, 9, 0, T2, c, h);
    h1 := SetReg(h, T2, MarkValue(c));
    PlainPut(isa, T2, LDST_OP, h1);
    h1 := SetSlot(h1, LDST_OP, h1.regs(T2));
    Line2(isa, env, Const(T2, c), Put(T2, LDST_OP), k, h);
  }

  lemma RunFinishLoad(isa: Isa, env: Env, op: int, rt: int, k: seq<Ins>, h: Host) returns (h1: Host)
    requires IsLoad(op)
    ensures Exec(isa, env, [Fetch(T1, TRANS_ADDR), Fetch(T2, Gp(rt)), I(op, T1, T2, 0), Put(T2, Gp(rt))] + k, h)
            == Exec(isa, env, k, h1)
    ensures Wrote(h, h1, Gp(rt), LoadValue(isa, op, h.mem, h.slots(TRANS_ADDR), h.slots(Gp(rt))))
  {
    hide Plain, PlainI, PlainR, LoadValue, Exec;
    PlainFetch(isa, T1, TRANS_ADDR, h);
    h1 := SetReg(h, T1, h.slots(TRANS_ADDR));
    PlainFetch(isa, T2, Gp(rt), h1);
    h1 := SetReg(h1, T2, h.slots(Gp(rt)));
    PlainLoad(isa, op, T1, T2, h1);
    h1 := SetReg(h1, T2, LoadValue(isa, op, h1.mem, h1.regs(T1), h1.regs(T2)));
    PlainPut(isa, T2, Gp(rt), h1);
    h1 := SetSlot(h1, Gp(rt), h1.regs(T2));
    Line4(isa, env, Fetch(T1, TRANS_ADDR), Fetch(T2, Gp(rt)), I(op, T1, T2, 0), Put(T2, Gp(rt)), k, h);
  }

  lemma LoadRuns(isa: Isa, env: Env, end: Value, i: Ins, k: seq<Ins>, g: Guest, h: Host) returns (h1: Host)
    requires i.I? && 0 <= i.rs < 32 && 0 < i.rt < 32 && IsLoad(i.op) && Rel(isa, end, g, h)
    ensures Simulates(isa, env, end, LoadStep(isa, env, i, g), Load(i), k, h, h1)
  {
    hide Exec, LoadValue, SX16, Plus, AddressCall, Translate;
    var finish := [Fetch(T1, TRANS_ADDR), Fetch(T2, Gp(i.rt)), I(i.op, T1, T2, 0), Put(T2, Gp(i.rt))];
    Assoc([Const(T2, 0), Put(T2, LDST_OP)], AddressCall(i.rs, i.imm) + finish, k);
    Assoc(AddressCall(i.rs, i.imm), finish, k);
    var a := RunSetOp(isa, env, 0, AddressCall(i.rs, i.imm) + (finish + k), h);
    var g0 := g.(prot := ZERO);
    RelDirection(isa, end, g, h, ZERO, a);
    h1 := AddressCallRuns(isa, env, end, i.rs, i.imm, finish + k, g0, a);
    DirectionBefore(env, g, ZERO, AddressOf(i, g), ZERO);
    match Translate(env, g, AddressOf(i, g), ZERO) {
      case Next(g1) =>
        var b := h1;
        h1 := RunFinishLoad(isa, env, i.op, i.rt, k, b);
        RelGpr(isa, end, g1, b, i.rt, h1.slots(Gp(i.rt)), h1);
      case _ =>
    }
  }

  lemma RunStoreData(isa: Isa, env: Env, rt: int, k: seq<Ins>, h: Host) returns (h1: Host)
    requires h.regs(0) == ZERO && rt >= 0
    ensures Exec(isa, env, [Const(T2, 1), Put(T2, LDST_OP), Fetch(T1, Gp(rt)), Put(T1, LDST_DATA)] + k, h)
            == Exec(isa, env, k, h1)
    ensures Wrote2(h, h1, LDST_OP, ONE, LDST_DATA, h.slots(Gp(rt)))
  {
    hide Plain, PlainI, PlainR, Immediate, Exec;
    ConstValue(isa, 1);
    PlainImmediate(isa, 9, 0, T2, 1, h);
    h1 := SetReg(h, T2, ONE);
    PlainPut(isa, T2, LDST_OP, h1);
    h1 := SetSlot(h1, LDST_OP, h1.regs(T2));
    PlainFetch(isa, T1, Gp(rt), h1);
    h1 := SetReg(h1, T1, h1.slots(Gp(rt)));
    PlainPut(isa, T1, LDST_DATA, h1);
    h1 := SetSlot(h1, LDST_DATA, h1.regs(T1));
    Line4(isa, env, Const(T2, 1), Put(T2, LDST_OP), Fetch(T1, Gp(rt)), Put(T1, LDST_DATA), k, h);
  }

  /** Memory changed and nothing else the guest can see. */
  ghost predicate Stored(h: Host, h1: Host, mem: Mem) {
    (forall x :: h1.slots(x) == h.slots(x)) && h1.mem == mem && h1.trace == h.trace && h1.regs(0) == h.regs(0)
  }

  lemma RelStored(isa: Isa, end: Value, g: Guest, h: Host, mem: Mem, h1: Host)
    requires Rel(isa, end, g, h) && Stored(h, h1, mem)
    ensures Rel(isa, end, g.(mem := mem), h1) && KeepsTemps(h, h1)
  {
  }

  lemma RunFinishStore(isa: Isa, env: Env, op: int, rt: int, k: seq<Ins>, h: Host) returns (h1: Host)
    requires IsStore(op)
    ensures Exec(isa, env, [Fetch(T1, TRANS_ADDR), Fetch(T2, Gp(rt)), I(op, T1, T2, 0)] + k, h) == Exec(isa, env, k, h1)
    ensures Stored(h, h1, isa.store(op, h.mem, h.slots(TRANS_ADDR), h.slots(Gp(rt))))
  {
    hide Plain, PlainI, PlainR, Exec;
    PlainFetch(isa, T1, TRANS_ADDR, h);
    h1 := SetReg(h, T1, h.slots(TRANS_ADDR));
    PlainFetch(isa, T2, Gp(rt), h1);
    h1 := SetReg(h1, T2, h.slots(Gp(rt)));
    PlainStore(isa, op, T1, T2, h1);
    h1 := h1.(mem := isa.store(op, h1.mem, h1.regs(T1), h1.regs(T2)));
    Line3(isa, env, Fetch(T1, TRANS_ADDR), Fetch(T2, Gp(rt)), I(op, T1, T2, 0), k, h);
  }

  lemma StoreRuns(isa: Isa, env: Env, end: Value, i: Ins, k: seq<Ins>, g: Guest, h: Host) returns (h1: Host)
    requires i.I? && 0 <= i.rs < 32 && 0 <= i.rt < 32 && IsStore(i.op) && Rel(isa, end, g, h)
    ensures Simulates(isa, env, end, StoreStep(isa, env, i, g), Store(i), k, h, h1)
  {
    hide Exec, SX16, Plus, AddressCall, Translate;
    var setUp := [Const(T2, 1), Put(T2, LDST_OP), Fetch(T1, Gp(i.rt)), Put(T1, LDST_DATA)];
    var finish := [Fetch(T1, TRANS_ADDR), Fetch(T2, Gp(i.rt)), I(i.op, T1, T2, 0)];
    Assoc(setUp, AddressCall(i.rs, i.imm) + finish, k);
    Assoc(AddressCall(i.rs, i.imm), finish, k);
    var a := RunStoreData(isa, env, i.rt, AddressCall(i.rs, i.imm) + (finish + k), h);
    var g0 := g.(data := g.gpr(i.rt));
    RelStoreData(isa, end, g, h, ONE, g.gpr(i.rt), a);
    h1 := AddressCallRuns(isa, env, end, i.rs, i.imm, finish + k, g0.(prot := ONE), a);
    DirectionBefore(env, g0, ONE, AddressOf(i, g), ONE);
    match Translate(env, g0, AddressOf(i, g), ONE) {
      case Next(g1) =>
        var b := h1;
        h1 := RunFinishStore(isa, env, i.op, i.rt, k, b);
        RelStored(isa, end, g1, b, h1.mem, h1);
      case _ =>
    }
  }

  // ---- load linked, store conditional

  lemma RelLinkBit(isa: Isa, end: Value, g: Guest, h: Host, v: Value, h1: Host)
    requires Rel(isa, end, g, h) && Wrote(h, h1, LLBIT, v)
    ensures Rel(isa, end, g.(llBit := v), h1) && KeepsTemps(h, h1)
  {
  }

  lemma RelLinked(isa: Isa, end: Value, g: Guest, h: Host, r: int, v: Value, h1: Host)
    requires Rel(isa, end, g, h) && 0 < r < 32 && Wrote2(h, h1, Gp(r), v, LL_DATA, v)
    ensures Rel(isa, end, SetGpr(g, r, v).(llData := v), h1) && KeepsTemps(h, h1)
  {
  }

  lemma RunLinkBit(isa: Isa, env: Env, k: seq<Ins>, h: Host) returns (h1: Host)
    requires h.regs(0) == ZERO
    ensures Exec(isa, env, [I(ADDI, 0, T3, 1), Put(T3, LLBIT)] + k, h) == Exec(isa, env, k, h1)
    ensures Wrote(h, h1, LLBIT, ONE)
  {
    hide Plain, PlainI, PlainR, Exec, SX16;
    ConstValue(isa, 1);
    PlainImmediate(isa, ADDI, 0, T3, 1, h);
    h1 := SetReg(h, T3, ONE);
    PlainPut(isa, T3, LLBIT, h1);
    h1 := SetSlot(h1, LLBIT, h1.regs(T3));
    Line2(isa, env, I(ADDI, 0, T3, 1), Put(T3, LLBIT), k, h);
  }

  lemma RunFinishLinked(isa: Isa, env: Env, op: int, rt: int, k: seq<Ins>, h: Host) returns (h1: Host)
    requires op == LW || op == LD
    ensures Exec(isa, env, [Fetch(T1, TRANS_ADDR), I(op, T1, T2, 0), Put(T2, Gp(rt)), Put(T2, LL_DATA)] + k, h)
            == Exec(isa, env, k, h1)
    ensures var v := LoadValue(isa, op, h.mem, h.slots(TRANS_ADDR), ZERO); Wrote2(h, h1, Gp(rt), v, LL_DATA, v)
  {
    hide Plain, PlainI, PlainR, Exec;
    PlainFetch(isa, T1, TRANS_ADDR, h);
    h1 := SetReg(h, T1, h.slots(TRANS_ADDR));
    PlainLoad(isa, op, T1, T2, h1);
    h1 := SetReg(h1, T2, LoadValue(isa, op, h1.mem, h1.regs(T1), h1.regs(T2)));
    PlainPut(isa, T2, Gp(rt), h1);
    h1 := SetSlot(h1, Gp(rt), h1.regs(T2));
    PlainPut(isa, T2, LL_DATA, h1);
    h1 := SetSlot(h1, LL_DATA, h1.regs(T2));
    Line4(isa, env, Fetch(T1, TRANS_ADDR), I(op, T1, T2, 0), Put(T2, Gp(rt)), Put(T2, LL_DATA), k, h);
  }

  lemma LinkedRuns(isa: Isa, env: Env, end: Value, i: Ins, k: seq<Ins>, g: Guest, h: Host) returns (h1: Host)
    requires i.I? && 0 <= i.rs < 32 && 0 < i.rt < 32 && (i.op == 48 || i.op == 52) && Rel(isa, end, g, h)
    ensures Simulates(isa, env, end, LinkedStep(isa, env, i, g), LoadLinked(i), k, h, h1)
  {
    hide Exec, LoadValue, SX16, Plus, AddressCall, Translate;
    var op := if i.op == 48 then LW else LD;
    var call := AddressCall(i.rs, i.imm);
    var finish := [Fetch(T1, TRANS_ADDR), I(op, T1, T2, 0), Put(T2, Gp(i.rt)), Put(T2, LL_DATA)];
    var setOp := [Const(T2, 0), Put(T2, LDST_OP)];
    Assoc([I(ADDI, 0, T3, 1), Put(T3, LLBIT)], setOp + (call + finish), k);
    Assoc(setOp, call + finish, k);
    Assoc(call, finish, k);
    var b := RunLinkBit(isa, env, setOp + (call + (finish + k)), h);
    var g0 := g.(llBit := ONE);
    RelLinkBit(isa, end, g, h, ONE, b);
    var a := RunSetOp(isa, env, 0, call + (finish + k), b);
    RelDirection(isa, end, g0, b, ZERO, a);
    h1 := AddressCallRuns(isa, env, end, i.rs, i.imm, finish + k, g0.(prot := ZERO), a);
    DirectionBefore(env, g0, ZERO, AddressOf(i, g), ZERO);
    match Translate(env, g0, AddressOf(i, g), ZERO) {
      case Next(g1) =>
        var c := h1;
        h1 := RunFinishLinked(isa, env, op, i.rt, k, c);
        RelLinked(isa, end, g1, c, i.rt, h1.slots(Gp(i.rt)), h1);
      case _ =>
    }
  }

  // The common tail of sc and scd.
  lemma RunScTail(isa: Isa, env: Env, rt: int, k: seq<Ins>, h: Host) returns (h1: Host)
    requires h.regs(0) == ZERO && 0 <= rt < 32
    ensures Exec(isa, env, [Put(T1, Gp(rt)), Put(0, LLBIT)] + k, h) == Exec(isa, env, k, h1)
    ensures Wrote2(h, h1, Gp(rt), h.regs(T1), LLBIT, ZERO)
  {
    hide Plain, PlainI, PlainR, Exec;
    PlainPut(isa, T1, Gp(rt), h);
    h1 := SetSlot(h, Gp(rt), h.regs(T1));
    PlainPut(isa, 0, LLBIT, h1);
    h1 := SetSlot(h1, LLBIT, h1.regs(0));
    Line2(isa, env, Put(T1, Gp(rt)), Put(0, LLBIT), k, h);
  }

  // The path that stores; T3 holds the host address.
  lemma RunScStore(isa: Isa, env: Env, store: int, rt: int, k: seq<Ins>, h: Host) returns (h1: Host)
    requires h.regs(0) == ZERO && (store == SW || store == SD)
    ensures Exec(isa, env, [Fetch(T2, Gp(rt)), I(store, T3, T2, 0), Const(T1, 1)] + k, h) == Exec(isa, env, k, h1)
    ensures Stored(h, h1, isa.store(store, h.mem, h.regs(T3), h.slots(Gp(rt)))) && h1.regs(T1) == ONE
  {
    hide Plain, PlainI, PlainR, Exec, Immediate;
    PlainFetch(isa, T2, Gp(rt), h);
    h1 := SetReg(h, T2, h.slots(Gp(rt)));
    PlainStore(isa, store, T3, T2, h1);
    h1 := h1.(mem := isa.store(store, h1.mem, h1.regs(T3), h1.regs(T2)));
    ConstValue(isa, 1);
    PlainImmediate(isa, 9, 0, T1, 1, h1);
    h1 := SetReg(h1, T1, ONE);
    Line3(isa, env, Fetch(T2, Gp(rt)), I(store, T3, T2, 0), Const(T1, 1), k, h);
  }

  /** sc is over: rt and the link bit are written, memory is mem. */
  ghost predicate Finished(h: Host, h1: Host, rt: int, v: Value, mem: Mem) {
    && (forall x :: h1.slots(x) == if x == Gp(rt) then v else if x == LLBIT then ZERO else h.slots(x))
    && h1.mem == mem && h1.trace == h.trace && h1.regs(0) == h.regs(0)
  }

  const CLEAR := R(0, 0, 0, T1, 0, 32)

  function ScTail(rt: int): seq<Ins> { [Put(T1, Gp(rt)), Put(0, LLBIT)] }

  function ScStore(store: int, rt: int): seq<Ins> { [Fetch(T2, Gp(rt)), I(store, T3, T2, 0), Const(T1, 1)] }

  function ScCheck(load: int): seq<Ins> { [Fetch(T3, TRANS_ADDR), Fetch(T1, LL_DATA), I(load, T3, T2, 0)] }

  function ScAddress(rs: int, imm: int): seq<Ins> { [Fetch(T1, Gp(rs)), Fetch(T2, LDST_ADDR), I(DADDIU, T1, T1, imm)] }

  // Third test, T1 against T2, and the store it guards.
  lemma RunScWord(isa: Isa, env: Env, store: int, rt: int, k: seq<Ins>, h: Host) returns (h1: Host)
    requires h.regs(0) == ZERO && 0 <= rt < 32 && (store == SW || store == SD)
    ensures Exec(isa, env, [I(BNE, T1, T2, 4), CLEAR] + (ScStore(store, rt) + (ScTail(rt) + k)), h)
            == Exec(isa, env, k, h1)
    ensures if h.regs(T1) != h.regs(T2) then Finished(h, h1, rt, ZERO, h.mem)
            else Finished(h, h1, rt, ONE, isa.store(store, h.mem, h.regs(T3), h.slots(Gp(rt))))
  {
    hide Plain, PlainI, PlainR, Exec;
    PlainClear(isa, h);
    RunBranch(isa, env, BNE, T1, T2, CLEAR, ScStore(store, rt), ScTail(rt) + k, h);
    var a := SetReg(h, T1, ZERO);
    if h.regs(T1) == h.regs(T2) {
      a := RunScStore(isa, env, store, rt, ScTail(rt) + k, a);
    }
    h1 := RunScTail(isa, env, rt, k, a);
  }

  // Second test, the address, around the third.
  lemma RunScAddress(isa: Isa, env: Env, load: int, store: int, rt: int, k: seq<Ins>, h: Host) returns (h1: Host)
    requires h.regs(0) == ZERO && 0 <= rt < 32 && (store == SW || store == SD) && (load == LW || load == LD)
    ensures Exec(isa, env, [I(BNE, T1, T2, 9), CLEAR]
                           + ((ScCheck(load) + ([I(BNE, T1, T2, 4), CLEAR] + ScStore(store, rt))) + (ScTail(rt) + k)),
                               h)
            == Exec(isa, env, k, h1)
    ensures if h.regs(T1) == h.regs(T2) && h.slots(LL_DATA) == LoadValue(isa, load, h.mem, h.slots(TRANS_ADDR), ZERO)
            then Finished(h, h1, rt, ONE, isa.store(store, h.mem, h.slots(TRANS_ADDR), h.slots(Gp(rt))))
            else Finished(h, h1, rt, ZERO, h.mem)
  {
    hide Plain, PlainI, PlainR, Exec;
    PlainClear(isa, h);
    var guarded := [I(BNE, T1, T2, 4), CLEAR] + ScStore(store, rt);
    RunBranch(isa, env, BNE, T1, T2, CLEAR, ScCheck(load) + guarded, ScTail(rt) + k, h);
    var a := SetReg(h, T1, ZERO);
    if h.regs(T1) != h.regs(T2) {
      h1 := RunScTail(isa, env, rt, k, a);
    } else {
      Assoc(ScCheck(load), guarded, ScTail(rt) + k);
      Assoc([I(BNE, T1, T2, 4), CLEAR], ScStore(store, rt), ScTail(rt) + k);
      a := RunScCheck(isa, env, load, guarded + (ScTail(rt) + k), a);
      h1 := RunScWord(isa, env, store, rt, k, a);
    }
  }

  lemma RunScCheck(isa: Isa, env: Env, load: int, k: seq<Ins>, h: Host) returns (h1: Host)
    requires load == LW || load == LD
    ensures Exec(isa, env, ScCheck(load) + k, h) == Exec(isa, env, k, h1)
    ensures Stored(h, h1, h.mem) && h1.regs(T3) == h.slots(TRANS_ADDR) && h1.regs(T1) == h.slots(LL_DATA)
    ensures h1.regs(T2) == LoadValue(isa, load, h.mem, h.slots(TRANS_ADDR), ZERO)
  {
    hide Plain, PlainI, PlainR, Exec;
    PlainFetch(isa, T3, TRANS_ADDR, h);
    h1 := SetReg(h, T3, h.slots(TRANS_ADDR));
    PlainFetch(isa, T1, LL_DATA, h1);
    h1 := SetReg(h1, T1, h.slots(LL_DATA));
    PlainLoad(isa, load, T3, T2, h1);
    h1 := SetReg(h1, T2, LoadValue(isa, load, h1.mem, h1.regs(T3), h1.regs(T2)));
    Line3(isa, env, Fetch(T3, TRANS_ADDR), Fetch(T1, LL_DATA), I(load, T3, T2, 0), k, h);
  }

  lemma RunScLoadAddress(isa: Isa, env: Env, rs: int, imm: int, k: seq<Ins>, h: Host) returns (h1: Host)
    ensures Exec(isa, env, ScAddress(rs, imm) + k, h) == Exec(isa, env, k, h1)
    ensures Stored(h, h1, h.mem) && h1.regs(T1) == Plus(h.slots(Gp(rs)), SX16(imm)) && h1.regs(T2) == h.slots(LDST_ADDR)
  {
    hide Plain, PlainI, PlainR, Exec, SX16, Plus;
    PlainFetch(isa, T1, Gp(rs), h);
    h1 := SetReg(h, T1, h.slots(Gp(rs)));
    PlainFetch(isa, T2, LDST_ADDR, h1);
    h1 := SetReg(h1, T2, h.slots(LDST_ADDR));
    PlainImmediate(isa, DADDIU, T1, T1, imm, h1);
    h1 := SetReg(h1, T1, Plus(h1.regs(T1), SX16(imm)));
    Line3(isa, env, Fetch(T1, Gp(rs)), Fetch(T2, LDST_ADDR), I(DADDIU, T1, T1, imm), k, h);
  }

  lemma ScShape(i: Ins, k: seq<Ins>)
    requires i.I?
    ensures var load, store := if i.op == 56 then LW else LD, if i.op == 56 then SW else SD;
      var inner := [I(BNE, T1, T2, 9), CLEAR] + (ScCheck(load) + ([I(BNE, T1, T2, 4), CLEAR] + ScStore(store, i.rt)));
      StoreConditional(i) + k
      == [Fetch(T3, LLBIT)] + ([I(BEQ, 0, T3, 14), CLEAR] + ((ScAddress(i.rs, i.imm) + inner) + (ScTail(i.rt) + k)))
      && |ScAddress(i.rs, i.imm) + inner| == 13
  {
  }

  /** sc and scd: every path reaches the tail; memory is written iff the link holds, and rt says which. */
  lemma RunSc(isa: Isa, env: Env, i: Ins, k: seq<Ins>, h: Host) returns (h1: Host)
    requires i.I? && h.regs(0) == ZERO && 0 <= i.rt < 32
    ensures Exec(isa, env, StoreConditional(i) + k, h) == Exec(isa, env, k, h1)
    ensures var load, store := if i.op == 56 then LW else LD, if i.op == 56 then SW else SD;
      if h.slots(LLBIT) != ZERO && Plus(h.slots(Gp(i.rs)), SX16(i.imm)) == h.slots(LDST_ADDR)
         && h.slots(LL_DATA) == LoadValue(isa, load, h.mem, h.slots(TRANS_ADDR), ZERO)
      then Finished(h, h1, i.rt, ONE, isa.store(store, h.mem, h.slots(TRANS_ADDR), h.slots(Gp(i.rt))))
      else Finished(h, h1, i.rt, ZERO, h.mem)
  {
    hide Plain, PlainI, PlainR, Exec, SX16, Plus, LoadValue, StoreConditional;
    var load, store := if i.op == 56 then LW else LD, if i.op == 56 then SW else SD;
    var second := [I(BNE, T1, T2, 9), CLEAR];
    var rest := ScCheck(load) + ([I(BNE, T1, T2, 4), CLEAR] + ScStore(store, i.rt));
    var first := [I(BEQ, 0, T3, 14), CLEAR];
    ScShape(i, k);
    PlainFetch(isa, T3, LLBIT, h);
    Line1(isa, env, Fetch(T3, LLBIT), first + ((ScAddress(i.rs, i.imm) + (second + rest)) + (ScTail(i.rt) + k)), h);
    var a := SetReg(h, T3, h.slots(LLBIT));
    PlainClear(isa, a);
    RunBranch(isa, env, BEQ, 0, T3, CLEAR, ScAddress(i.rs, i.imm) + (second + rest), ScTail(i.rt) + k, a);
    a := SetReg(a, T1, ZERO);
    if h.slots(LLBIT) == ZERO {
      h1 := RunScTail(isa, env, i.rt, k, a);
    } else {
      Assoc(ScAddress(i.rs, i.imm), second + rest, ScTail(i.rt) + k);
      Assoc(second, rest, ScTail(i.rt) + k);
      a := RunScLoadAddress(isa, env, i.rs, i.imm, second + (rest + (ScTail(i.rt) + k)), a);
      h1 := RunScAddress(isa, env, load, store, i.rt, k, a);
    }
  }

  /** rt of an sc that reports v: register $0 takes only zero. */
  predicate ReportFits(rt: int, v: Value) { rt != 0 || v == ZERO }

  lemma RelFinished(isa: Isa, end: Value, g: Guest, h: Host, r: int, v: Value, mem: Mem, h1: Host)
    requires Rel(isa, end, g, h) && 0 <= r < 32 && ReportFits(r, v) && Finished(h, h1, r, v, mem)
    ensures Rel(isa, end, SetGpr(g.(mem := mem), r, v).(llBit := ZERO), h1) && KeepsTemps(h, h1)
  {
  }

  /** The store the emitted code makes, to the host address of the last access, is the one to where sc's own address is
      mapped now. */
  predicate SameStore(isa: Isa, env: Env, i: Ins, g: Guest)
    requires i.I? && MayStore(env, i, g)
  {
    ConditionalStore(isa, i, g, g.hva) == ConditionalStore(isa, i, g, StoreCheck(env, i, g).guest.hva)
  }

  /** Where the emitted sc and scd are right: a store to the page would be let through, and if the link holds, it would
      go to the same place, and the report 1 is not written to $0. */
  predicate ConditionalExact(isa: Isa, env: Env, i: Ins, g: Guest)
    requires i.I?
  {
    MayStore(env, i, g) && (LinkHolds(isa, i, g) ==> i.rt != 0 && SameStore(isa, env, i, g))
  }

  lemma ConditionalRuns(isa: Isa, env: Env, end: Value, i: Ins, k: seq<Ins>, g: Guest, h: Host) returns (h1: Host)
    requires i.I? && 0 <= i.rs < 32 && 0 <= i.rt < 32 && Rel(isa, end, g, h) && ConditionalExact(isa, env, i, g)
    ensures Simulates(isa, env, end, ConditionalStep(isa, env, i, g), StoreConditional(i), k, h, h1)
  {
    hide Exec, LoadValue, StoreConditional, Finished, Rel, LinkHolds, StoreCheck, ConditionalStore;
    h1 := RunScGuest(isa, env, end, i, k, g, h);
    if LinkHolds(isa, i, g) {
      RelFinished(isa, end, g, h, i.rt, ONE, ConditionalStore(isa, i, g, g.hva), h1);
    } else {
      RelFinished(isa, end, g, h, i.rt, ZERO, g.mem, h1);
    }
  }

  /** What the emitted sc and scd do in every state, in the guest's terms: no translation takes place. */
  lemma RunScGuest(isa: Isa, env: Env, end: Value, i: Ins, k: seq<Ins>, g: Guest, h: Host) returns (h1: Host)
    requires i.I? && 0 <= i.rs < 32 && 0 <= i.rt < 32 && Rel(isa, end, g, h)
    ensures Exec(isa, env, StoreConditional(i) + k, h) == Exec(isa, env, k, h1)
    ensures if LinkHolds(isa, i, g)
            then Finished(h, h1, i.rt, ONE, ConditionalStore(isa, i, g, g.hva))
            else Finished(h, h1, i.rt, ZERO, g.mem)
  {
    hide Exec, LoadValue, SX16, Plus, StoreConditional, Finished;
    h1 := RunSc(isa, env, i, k, h);
  }

  // ---- requests, traps, privileged instructions

  /** A request the C++ side answers by leaving the block: syscall, break, trap, reserved instruction. */
  lemma RunRequest(isa: Isa, env: Env, mark: int, k: seq<Ins>, h: Host) returns (h1: Host)
    requires h.regs(0) == ZERO && h.slots(C_LABEL) == isa.cLabel
    requires LeavingMark(mark)
    ensures Exec(isa, env, RequestC(mark) + k, h) == Leave(h1)
    ensures Wrote(h, h1, CONTROL_MARK, MarkValue(mark))
  {
    hide Exec, MarkValue;
    LeavingMarkValue(mark);
    Assoc(SetMark(T3, mark), CallC(), k);
    RunSetMark(isa, env, T3, mark, CallC() + k, h);
    h1 := Marked(h, T3, mark);
    RunCallC(isa, env, k, h1);
    h1 := SetReg(h1, CREG, isa.cLabel);
  }

  lemma RequestRuns(isa: Isa, env: Env, end: Value, mark: int, k: seq<Ins>, g: Guest, h: Host) returns (h1: Host)
    requires Rel(isa, end, g, h) && LeavingMark(mark)
    ensures Simulates(isa, env, end, Exit(mark, g), RequestC(mark), k, h, h1)
  {
    hide Exec, MarkValue;
    h1 := RunRequest(isa, env, mark, k, h);
    RelScratch(isa, end, g, h, CONTROL_MARK, MarkValue(mark), h1);
  }

  /** The guest sees the same slots in both states. */
  ghost predicate SameSlots(h: Host, h1: Host) {
    (forall x :: h1.slots(x) == h.slots(x)) && h1.mem == h.mem && h1.trace == h.trace && h1.regs(0) == h.regs(0)
  }

  lemma RelSame(isa: Isa, end: Value, g: Guest, h: Host, h1: Host)
    requires Rel(isa, end, g, h) && SameSlots(h, h1)
    ensures Rel(isa, end, g, h1) && KeepsTemps(h, h1)
  {
  }

  /** A conditional trap: taken calls out, not taken skips the five words of the call. */
  lemma TrapRuns(isa: Isa, env: Env, end: Value, op: int, k: seq<Ins>, g: Guest, h: Host) returns (h1: Host)
    requires Rel(isa, end, g, h) && (op == BEQ || op == BNE)
    ensures Simulates(isa, env, end,
              if Taken(op, T2, h.regs(T1), h.regs(T2)) then Exit(TRAP_INT, g) else Next(g),
              Trap(I(op, T1, T2, 3)), k, h, h1)
  {
    hide Exec, RequestC, MarkValue, Plain;
    var over := [I(BEQ, 0, 0, 6), NOP];
    var call := RequestC(TRAP_INT);
    RequestLength(TRAP_INT);
    assert Trap(I(op, T1, T2, 3)) + k == [I(op, T1, T2, 3), NOP] + (over + (call + k));
    PlainNop(isa, h);
    RunBranch(isa, env, op, T1, T2, NOP, over, call + k, h);
    RunBranch(isa, env, BEQ, 0, 0, NOP, call, k, h);
    if Taken(op, T2, h.regs(T1), h.regs(T2)) {
      h1 := RequestRuns(isa, env, end, TRAP_INT, k, g, h);
    } else {
      h1 := h;
    }
  }

  lemma TeqTneRuns(isa: Isa, env: Env, end: Value, i: Ins, k: seq<Ins>, g: Guest, h: Host) returns (h1: Host)
    requires i.R? && 0 <= i.rs < 32 && 0 <= i.rt < 32 && (i.func == 52 || i.func == 54) && Rel(isa, end, g, h)
    ensures Simulates(isa, env, end,
              if (g.gpr(i.rs) == g.gpr(i.rt)) == (i.func == 52) then Exit(TRAP_INT, g)
                  else Next(g), TeqTne(i), k, h, h1)
  {
    hide Exec, Plain, PlainI, PlainR, Trap;
    var op := if i.func == 52 then BEQ else BNE;
    var trap := Trap(I(op, T1, T2, 3));
    Assoc([Fetch(T1, Gp(i.rs)), Fetch(T2, Gp(i.rt))], trap, k);
    PlainFetch(isa, T1, Gp(i.rs), h);
    var a := SetReg(h, T1, h.slots(Gp(i.rs)));
    PlainFetch(isa, T2, Gp(i.rt), a);
    a := SetReg(a, T2, h.slots(Gp(i.rt)));
    Line2(isa, env, Fetch(T1, Gp(i.rs)), Fetch(T2, Gp(i.rt)), trap + k, h);
    RelSame(isa, end, g, h, a);
    h1 := TrapRuns(isa, env, end, op, k, g, a);
  }

  lemma TeqiTneiRuns(isa: Isa, env: Env, end: Value, i: Ins, k: seq<Ins>, g: Guest, h: Host) returns (h1: Host)
    requires i.I? && 0 <= i.rs < 32 && (i.rt == 12 || i.rt == 14) && Rel(isa, end, g, h)
    ensures Simulates(isa, env, end,
              if (g.gpr(i.rs) == SX32(SX16(i.imm))) == (i.rt == 12) then Exit(TRAP_INT, g)
                  else Next(g), TeqiTnei(i), k, h, h1)
  {
    hide Exec, Plain, PlainI, PlainR, Trap, SX16, SX32, Plus;
    var op := if i.rt == 12 then BEQ else BNE;
    var trap := Trap(I(op, T1, T2, 3));
    Assoc([Fetch(T1, Gp(i.rs)), I(ADDI, 0, T2, i.imm)], trap, k);
    PlainFetch(isa, T1, Gp(i.rs), h);
    var a := SetReg(h, T1, h.slots(Gp(i.rs)));
    PlainImmediate(isa, ADDI, 0, T2, i.imm, a);
    PlusZero(SX16(i.imm));
    a := SetReg(a, T2, SX32(SX16(i.imm)));
    Line2(isa, env, Fetch(T1, Gp(i.rs)), I(ADDI, 0, T2, i.imm), trap + k, h);
    RelSame(isa, end, g, h, a);
    h1 := TrapRuns(isa, env, end, op, k, g, a);
  }

  lemma UserModeBits(b: bv64)
    ensures Xor(And(Value(b), Value(0x1E)), Value(0x10)) == ZERO <==> InUserMode(Value(b))
  {
    assert (b & 0x1E) ^ 0x10 == 0 <==> b & 0x18 == 0x10 && b & 6 == 0;
  }

  lemma StatusImmediates(isa: Isa, x: Value)
    ensures Immediate(isa, ANDI, x, 0x1E) == And(x, Value(0x1E)) && Immediate(isa, XORI, x, 0x10) == Xor(x, Value(0x10))
    ensures Immediate(isa, ANDI, x, 4) == And(x, Value(4))
  {
    hide And, Xor;
  }

  lemma RunStatusTest(isa: Isa, env: Env, k: seq<Ins>, h: Host) returns (h1: Host)
    ensures Exec(isa, env, [Fetch(T1, Cp(STATUS)), I(ANDI, T1, T2, 0x1E), I(XORI, T2, T2, 0x10)] + k, h)
            == Exec(isa, env, k, h1)
    ensures SameSlots(h, h1) && (h1.regs(T2) == ZERO <==> InUserMode(h.slots(Cp(STATUS))))
  {
    hide Exec, Plain, PlainI, PlainR, And, Xor, InUserMode, Immediate;
    var status := h.slots(Cp(STATUS));
    UserModeBits(status.bits);
    PlainFetch(isa, T1, Cp(STATUS), h);
    h1 := SetReg(h, T1, status);
    StatusImmediates(isa, status);
    PlainImmediate(isa, ANDI, T1, T2, 0x1E, h1);
    h1 := SetReg(h1, T2, And(status, Value(0x1E)));
    StatusImmediates(isa, h1.regs(T2));
    PlainImmediate(isa, XORI, T2, T2, 0x10, h1);
    h1 := SetReg(h1, T2, Xor(h1.regs(T2), Value(0x10)));
    Line3(isa, env, Fetch(T1, Cp(STATUS)), I(ANDI, T1, T2, 0x1E), I(XORI, T2, T2, 0x10), k, h);
  }

  /** checking_previlige raises the reserved-instruction request exactly in user mode. */
  lemma PrivilegeRuns(isa: Isa, env: Env, end: Value, k: seq<Ins>, g: Guest, h: Host) returns (h1: Host)
    requires Rel(isa, end, g, h)
    ensures Simulates(isa, env, end, if InUserMode(g.cp0(STATUS)) then Exit(EXP_RI, g)
                      else Next(g), CheckPrivilege(), k, h, h1)
  {
    hide Exec, RequestC, MarkValue, Plain, InUserMode;
    var call := RequestC(EXP_RI);
    RequestLength(EXP_RI);
    var skip := [I(BNE, 0, T2, 6), NOP];
    Assoc([Fetch(T1, Cp(STATUS)), I(ANDI, T1, T2, 0x1E), I(XORI, T2, T2, 0x10)], skip + call, k);
    Assoc(skip, call, k);
    h1 := RunStatusTest(isa, env, skip + (call + k), h);
    RelSame(isa, end, g, h, h1);
    PlainNop(isa, h1);
    RunBranch(isa, env, BNE, 0, T2, NOP, call, k, h1);
    if InUserMode(g.cp0(STATUS)) {
      h1 := RequestRuns(isa, env, end, EXP_RI, k, g, h1);
    }
  }

  lemma RelTlb(isa: Isa, end: Value, env: Env, g: Guest, h: Host, t: Trace, h1: Host)
    requires Rel(isa, end, g, h) && h1.mem == h.mem && h1.trace == t && h1.regs(0) == h.regs(0)
    requires forall x :: h1.slots(x) == if 520 <= x < 2568 then env.cp0After(t, (x - 520) / 8) else h.slots(x)
    ensures Rel(isa, end, g.(cp0 := (x: int) => env.cp0After(t, x), trace := t), h1) && KeepsTemps(h, h1)
  {
  }

  /** a is the state at the call, h1 the state after it. */
  lemma RunTlbCall(isa: Isa, env: Env, mark: int, k: seq<Ins>, h: Host) returns (a: Host, h1: Host)
    requires h.regs(0) == ZERO && h.slots(C_LABEL) == isa.cLabel && TlbMarkNumber(mark)
    ensures Exec(isa, env, RequestC(mark) + k, h) == Exec(isa, env, k, h1)
    ensures Wrote(h, a, CONTROL_MARK, MarkValue(mark))
    ensures h1.mem == a.mem && h1.trace == After(a.trace, Request(MarkValue(mark), a.slots(PC), SavedRegisters(a)))
    ensures h1.regs(0) == a.regs(0)
    ensures forall x :: h1.slots(x) == if 520 <= x < 2568 then env.cp0After(h1.trace, (x - 520) / 8) else a.slots(x)
  {
    hide Exec, MarkValue, SavedRegisters;
    TlbMarkValue(mark);
    Assoc(SetMark(T3, mark), CallC(), k);
    RunSetMark(isa, env, T3, mark, CallC() + k, h);
    a := Marked(h, T3, mark);
    RunCallC(isa, env, k, a);
    a := SetReg(a, CREG, isa.cLabel);
    h1 := Service(env, a).host;
  }

  lemma TlbRequestRuns(isa: Isa, env: Env, end: Value, mark: int, k: seq<Ins>, g: Guest, h: Host) returns (h1: Host)
    requires Rel(isa, end, g, h) && TlbMarkNumber(mark)
    ensures var t := After(g.trace, Request(MarkValue(mark), g.pc, Registers(g)));
      Simulates(isa, env, end, Next(g.(cp0 := (x: int) => env.cp0After(t, x), trace := t)), RequestC(mark), k, h, h1)
  {
    hide Exec, MarkValue, SavedRegisters, Registers;
    TlbMarkValue(mark);
    var a;
    a, h1 := RunTlbCall(isa, env, mark, k, h);
    RelScratch(isa, end, g, h, CONTROL_MARK, MarkValue(mark), a);
    RelRegisters(isa, end, g, a);
    RelTlb(isa, end, env, g, a, h1.trace, h1);
  }

  lemma TlbOpRuns(isa: Isa, env: Env, end: Value, i: Ins, k: seq<Ins>, g: Guest, h: Host) returns (h1: Host)
    requires i.R? && (i.func == 1 || i.func == 2 || i.func == 6 || i.func == 8) && Rel(isa, end, g, h)
    ensures Simulates(isa, env, end, TlbStep(env, TlbMark(i.func), g), TlbOp(i), k, h, h1)
  {
    hide Exec, RequestC, CheckPrivilege, InUserMode;
    var mark := if i.func == 1 then TLB_READ else if i.func == 2 then TLB_WRITEI else if i.func == 6 then TLB_WRITE
        else TLB_PROBE;
    Assoc(CheckPrivilege(), RequestC(mark), k);
    h1 := PrivilegeRuns(isa, env, end, RequestC(mark) + k, g, h);
    if !InUserMode(g.cp0(STATUS)) {
      h1 := TlbRequestRuns(isa, env, end, mark, k, g, h1);
    }
  }

  lemma RelPc(isa: Isa, end: Value, g: Guest, h: Host, v: Value, h1: Host)
    requires Rel(isa, end, g, h) && Wrote(h, h1, PC, v)
    ensures Rel(isa, end, g.(pc := v), h1) && KeepsTemps(h, h1)
  {
  }

  lemma RelCp0(isa: Isa, end: Value, g: Guest, h: Host, i: int, v: Value, h1: Host)
    requires Rel(isa, end, g, h) && 0 <= i < 256 && Wrote(h, h1, Cp(i), v)
    ensures Rel(isa, end, SetCp0(g, i, v), h1) && KeepsTemps(h, h1)
  {
  }

  /** Mark the end of the block and go back to C++. */
  lemma ExitRuns(isa: Isa, env: Env, end: Value, t: int, k: seq<Ins>, g: Guest, h: Host) returns (h1: Host)
    requires Rel(isa, end, g, h) && t != 0
    ensures Simulates(isa, env, end, Exit(FETCH_NEXT_BLOCK, g), SetMark(t, FETCH_NEXT_BLOCK) + ExitC(), k, h, h1)
  {
    hide Exec, MarkValue;
    Assoc(SetMark(t, FETCH_NEXT_BLOCK), ExitC(), k);
    RunSetMark(isa, env, t, FETCH_NEXT_BLOCK, ExitC() + k, h);
    var a := Marked(h, t, FETCH_NEXT_BLOCK);
    RunExitC(isa, env, k, a);
    h1 := SetReg(a, CREG, isa.cLabel);
    RelScratch(isa, end, g, h, CONTROL_MARK, MarkValue(FETCH_NEXT_BLOCK), h1);
  }

  lemma EretMaskBits()
    ensures SX32(Value((0xFFFF as bv64) << 16)) == Value(0xFFFF_FFFF_FFFF_0000)
    ensures SX32(Plus(Value(0xFFFF_FFFF_FFFF_0000), Value(0xFFFF_FFFF_FFFF_FFFB))) == Value(0xFFFF_FFFF_FFFE_FFFB)
    ensures SX32(Plus(Value(0xFFFF_FFFF_FFFF_0000), Value(0xFFFF_FFFF_FFFF_FFFD))) == Value(0xFFFF_FFFF_FFFE_FFFD)
  {
  }

  // lui 0xffff; addi: the masks that clear ERL or EXL, and bit 16 with them.
  lemma EretMask(isa: Isa)
    ensures var upper := Immediate(isa, LUI, ZERO, 0xFFFF);
      Immediate(isa, ADDI, upper, 0xFFFB) == Value(0xFFFF_FFFF_FFFE_FFFB)
      && Immediate(isa, ADDI, upper, 0xFFFD) == Value(0xFFFF_FFFF_FFFE_FFFD)
  {
    hide SX32, Plus;
    EretMaskBits();
    assert SX16(0xFFFB) == Value(0xFFFF_FFFF_FFFF_FFFB);
    assert SX16(0xFFFD) == Value(0xFFFF_FFFF_FFFF_FFFD);
  }

  function EretMaskValue(mask: int): Value {
    Value(if mask == 0xFFFB then 0xFFFF_FFFF_FFFE_FFFB else 0xFFFF_FFFF_FFFE_FFFD)
  }

  lemma RunEretState(isa: Isa, env: Env, pcSlot: int, mask: int, k: seq<Ins>, h: Host) returns (a: Host, h1: Host)
    requires h.regs(0) == ZERO && (mask == 0xFFFB || mask == 0xFFFD) && h.regs(T1) == h.slots(Cp(STATUS))
    ensures Exec(isa, env, [Fetch(T2, pcSlot), Put(T2, PC), I(LUI, 0, T2, 0xFFFF), I(ADDI, T2, T2, mask)]
                           + ([R(0, T2, T1, T1, 0, 36), Put(T1, Cp(STATUS))] + k), h) == Exec(isa, env, k, h1)
    ensures Wrote(h, a, PC, h.slots(pcSlot))
    ensures Wrote(a, h1, Cp(STATUS), And(EretMaskValue(mask), h.slots(Cp(STATUS))))
  {
    hide Exec, Plain, PlainI, PlainR, Immediate, And;
    EretMask(isa);
    var upper := Immediate(isa, LUI, ZERO, 0xFFFF);
    PlainFetch(isa, T2, pcSlot, h);
    a := SetReg(h, T2, h.slots(pcSlot));
    PlainPut(isa, T2, PC, a);
    a := SetSlot(a, PC, h.slots(pcSlot));
    PlainImmediate(isa, LUI, 0, T2, 0xFFFF, a);
    h1 := SetReg(a, T2, upper);
    PlainImmediate(isa, ADDI, T2, T2, mask, h1);
    h1 := SetReg(h1, T2, EretMaskValue(mask));
    Line4(isa, env, Fetch(T2, pcSlot), Put(T2, PC), I(LUI, 0, T2, 0xFFFF), I(ADDI, T2, T2, mask),
          [R(0, T2, T1, T1, 0, 36), Put(T1, Cp(STATUS))] + k, h);
    PlainThree(isa, 0, T2, T1, T1, 0, 36, h1);
    var b := SetReg(h1, T1, And(EretMaskValue(mask), h.slots(Cp(STATUS))));
    PlainPut(isa, T1, Cp(STATUS), b);
    Line2(isa, env, R(0, T2, T1, T1, 0, 36), Put(T1, Cp(STATUS)), k, h1);
    h1 := SetSlot(b, Cp(STATUS), b.regs(T1));
  }

  lemma EretPathRuns(isa: Isa, env: Env, end: Value, from: int, mask: int, k: seq<Ins>, g: Guest, h: Host)
    returns (h1: Host)
    requires Rel(isa, end, g, h) && 0 <= from < 256 && (mask == 0xFFFB || mask == 0xFFFD) && h.regs(T1) == g.cp0(STATUS)
    ensures Simulates(isa, env, end,
              Exit(FETCH_NEXT_BLOCK, SetCp0(g.(pc := g.cp0(from)), STATUS, And(EretMaskValue(mask), g.cp0(STATUS)))),
              EretPath(Cp(from), mask), k, h, h1)
  {
    hide Exec, And, MarkValue;
    var leave := SetMark(T1, FETCH_NEXT_BLOCK) + ExitC();
    var setUp := [Fetch(T2, Cp(from)), Put(T2, PC), I(LUI, 0, T2, 0xFFFF), I(ADDI, T2, T2, mask)];
    var clear := [R(0, T2, T1, T1, 0, 36), Put(T1, Cp(STATUS))];
    Assoc(setUp, clear + leave, k);
    Assoc(clear, leave, k);
    var a, b := RunEretState(isa, env, Cp(from), mask, leave + k, h);
    var g1 := g.(pc := g.cp0(from));
    RelPc(isa, end, g, h, g.cp0(from), a);
    var s := And(EretMaskValue(mask), g.cp0(STATUS));
    RelCp0(isa, end, g1, a, STATUS, s, b);
    h1 := ExitRuns(isa, env, end, T1, k, SetCp0(g1, STATUS, s), b);
  }

  lemma ErlBits(b: bv64)
    ensures And(Value(b), Value(4)) != ZERO <==> ErlSet(Value(b))
  {
  }

  lemma RunErlTest(isa: Isa, env: Env, k: seq<Ins>, h: Host) returns (h1: Host)
    ensures Exec(isa, env, [Fetch(T1, Cp(STATUS)), I(ANDI, T1, T2, 4)] + k, h) == Exec(isa, env, k, h1)
    ensures SameSlots(h, h1) && h1.regs(T1) == h.slots(Cp(STATUS))
    ensures h1.regs(T2) != ZERO <==> ErlSet(h.slots(Cp(STATUS)))
  {
    hide Exec, Plain, PlainI, PlainR, And, Immediate, ErlSet;
    var status := h.slots(Cp(STATUS));
    ErlBits(status.bits);
    PlainFetch(isa, T1, Cp(STATUS), h);
    h1 := SetReg(h, T1, status);
    StatusImmediates(isa, status);
    PlainImmediate(isa, ANDI, T1, T2, 4, h1);
    h1 := SetReg(h1, T2, And(status, Value(4)));
    Line2(isa, env, Fetch(T1, Cp(STATUS)), I(ANDI, T1, T2, 4), k, h);
  }

  function SavedPc(status: Value): int { if ErlSet(status) then ERROR_EPC else EPC }

  /** What the words emitted for eret do in the guest's terms: no privilege check, bit 16 of Status cleared with ERL or
      EXL, the link left as it is. */
  function EmittedEret(g: Guest): Guest {
    var status := g.cp0(STATUS);
    SetCp0(g.(pc := g.cp0(SavedPc(status))), STATUS,
           And(EretMaskValue(if ErlSet(status) then 0xFFFB else 0xFFFD), status))
  }

  /** The emitted eret, in every state. */
  lemma RunEret(isa: Isa, env: Env, end: Value, k: seq<Ins>, g: Guest, h: Host) returns (h1: Host)
    requires Rel(isa, end, g, h)
    ensures Simulates(isa, env, end, Exit(FETCH_NEXT_BLOCK, EmittedEret(g)), Eret(), k, h, h1)
  {
    hide Exec, EretPath, MarkValue, Plain, SetCp0, And, EretMaskValue, ErlSet, Rel, Taken;
    var test := [I(BEQ, T2, 0, 12), NOP];
    var erl, exl := EretPath(Cp(ERROR_EPC), 0xFFFB), EretPath(Cp(EPC), 0xFFFD);
    EretPathLength(Cp(ERROR_EPC), 0xFFFB);
    Assoc([Fetch(T1, Cp(STATUS)), I(ANDI, T1, T2, 4)], test + (erl + exl), k);
    Assoc(test, erl + exl, k);
    Assoc(erl, exl, k);
    RelStatus(isa, end, g, h);
    var a := RunErlTest(isa, env, test + (erl + (exl + k)), h);
    RelSame(isa, end, g, h, a);
    PlainNop(isa, a);
    RunBranch(isa, env, BEQ, T2, 0, NOP, erl, exl + k, a);
    TakenOnZero(a.regs(T2), a.regs(0));
    if ErlSet(g.cp0(STATUS)) {
      h1 := EretPathRuns(isa, env, end, ERROR_EPC, 0xFFFB, exl + k, g, a);
    } else {
      h1 := EretPathRuns(isa, env, end, EPC, 0xFFFD, k, g, a);
    }
  }

  lemma RelStatus(isa: Isa, end: Value, g: Guest, h: Host)
    requires Rel(isa, end, g, h)
    ensures h.slots(Cp(STATUS)) == g.cp0(STATUS) && h.regs(0) == ZERO
  {
  }

  lemma TakenOnZero(x: Value, y: Value)
    ensures Taken(BEQ, 0, x, y) == (x == y) && !IsLikely(BEQ, 0) && !IsLinkBranch(BEQ, 0)
  {
  }

  lemma EretPathLength(pcSlot: int, mask: int)
    ensures |EretPath(pcSlot, mask)| == 11
  {
  }
}
