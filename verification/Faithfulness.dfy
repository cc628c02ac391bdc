/** When emitted code is right whatever follows it, and how to tell that it is not. */
module Faithfulness {
  import opened Words
  import opened Instructions
  import opened Machine
  import opened HostMachine
  import opened GuestMachine
  import opened Emitters
  import opened HostSteps
  import opened Simulation

  ghost predicate Reaches(isa: Isa, env: Env, end: Value, r: Result, code: seq<Ins>, k: seq<Ins>, h: Host) {
    exists h1 :: Simulates(isa, env, end, r, code, k, h, h1)
  }

  /** Whatever code comes next, running this code on h has the guest's result r. */
  ghost predicate Faithful(isa: Isa, env: Env, end: Value, r: Result, code: seq<Ins>, h: Host) {
    forall k :: Reaches(isa, env, end, r, code, k, h)
  }

  /** Code that ran to its end shows its state to the C++ side when the next thing is an exit: for the code to be
      faithful, that state must be the guest's. */
  lemma Observed(isa: Isa, env: Env, end: Value, r: Result, code: seq<Ins>, h: Host, h1: Host)
    requires Faithful(isa, env, end, r, code, h) && h1.slots(C_LABEL) == isa.cLabel && h1.regs(0) == ZERO
    requires Exec(isa, env, code + ExitC(), h) == Exec(isa, env, ExitC(), h1)
    ensures Rel(isa, end, r.guest, h1)
  {
    hide Exec, ExitC, Faithful, MarkValue;
    Observe(isa, env, end, r, code, h, ExitC());
    var h2: Host :| Simulates(isa, env, end, r, code, ExitC(), h, h2);
    Exits(isa, env, h1);
    if r.Next? {
      SameLabel(isa, end, r.guest, h2);
      Exits(isa, env, h2);
    }
    SameSlotsRel(isa, end, r.guest, h2, h1);
  }

  lemma Observe(isa: Isa, env: Env, end: Value, r: Result, code: seq<Ins>, h: Host, k: seq<Ins>)
    requires Faithful(isa, env, end, r, code, h)
    ensures exists h1 :: Simulates(isa, env, end, r, code, k, h, h1)
  {
    hide Simulates;
    assert Reaches(isa, env, end, r, code, k, h);
  }

  lemma Exits(isa: Isa, env: Env, h: Host)
    requires h.slots(C_LABEL) == isa.cLabel
    ensures Exec(isa, env, ExitC(), h) == Leave(SetReg(h, CREG, isa.cLabel))
  {
    hide Exec, ExitC;
    assert ExitC() + [] == ExitC();
    RunExitC(isa, env, [], h);
  }

  lemma SameLabel(isa: Isa, end: Value, g: Guest, h: Host)
    requires Rel(isa, end, g, h)
    ensures h.slots(C_LABEL) == isa.cLabel
  {
  }

  lemma SameSlotsRel(isa: Isa, end: Value, g: Guest, h: Host, h1: Host)
    requires Rel(isa, end, g, h) && h1.slots == h.slots && h1.mem == h.mem && h1.trace == h.trace && h1.regs(0) == ZERO
    ensures Rel(isa, end, g, h1)
  {
  }

  /** A state that holds a guest's is one the C++ side can be shown. */
  lemma Reached(isa: Isa, env: Env, end: Value, g1: Guest, code: seq<Ins>, h: Host, h1: Host)
    requires Simulates(isa, env, end, Next(g1), code, ExitC(), h, h1)
    ensures Rel(isa, end, g1, h1) && h1.slots(C_LABEL) == isa.cLabel && h1.regs(0) == ZERO
    ensures Exec(isa, env, code + ExitC(), h) == Exec(isa, env, ExitC(), h1)
  {
    hide Exec, ExitC;
  }

  /** Code that ran to its end in a state the guest's instruction does not lead to. */
  lemma NotFaithful(isa: Isa, env: Env, end: Value, r: Result, code: seq<Ins>, h: Host, h1: Host)
    requires h1.slots(C_LABEL) == isa.cLabel && h1.regs(0) == ZERO && !Rel(isa, end, r.guest, h1)
    requires Exec(isa, env, code + ExitC(), h) == Exec(isa, env, ExitC(), h1)
    ensures !Faithful(isa, env, end, r, code, h)
  {
    hide Exec, Faithful, Rel, ExitC;
    if Faithful(isa, env, end, r, code, h) {
      Observed(isa, env, end, r, code, h, h1);
    }
  }

  /** A value other than zero in the slot of register $0. */
  lemma ZeroSlotWritten(isa: Isa, env: Env, end: Value, g: Guest, code: seq<Ins>, h: Host, v: Value, h1: Host)
    requires Rel(isa, end, g, h) && Wrote(h, h1, Gp(0), v) && v != ZERO
    requires Exec(isa, env, code + ExitC(), h) == Exec(isa, env, ExitC(), h1)
    ensures !Faithful(isa, env, end, Next(g), code, h)
  {
    hide Exec, Faithful, ExitC;
    assert h1.slots(Gp(0)) == v;
    NotFaithful(isa, env, end, Next(g), code, h, h1);
  }

  // ---- a host for every guest

  function SlotFor(isa: Isa, end: Value, g: Guest, o: int): Value {
    if o == PC then g.pc
    else if o == LLBIT then g.llBit
    else if o == LL_DATA then g.llData
    else if o == TRANS_ADDR then g.hva
    else if o == LDST_ADDR then g.va
    else if o == LDST_DATA then g.data
    else if o == LDST_OP then g.prot
    else if o == C_LABEL then isa.cLabel
    else if o == BLOCK_END_PC then end
    else if o == HI then g.hi
    else if o == LO then g.lo
    else if 200 <= o < 456 then g.gpr((o - 200) / 8)
    else if 520 <= o < 2568 then g.cp0((o - 520) / 8)
    else ZERO
  }

  /** A host that holds g. */
  function HostFor(isa: Isa, end: Value, g: Guest): Host {
    Host((x: int) => ZERO, ZERO, ZERO, (o: int) => SlotFor(isa, end, g, o), g.mem, g.trace)
  }

  lemma HostForRel(isa: Isa, end: Value, g: Guest)
    requires g.gpr(0) == ZERO
    ensures Rel(isa, end, g, HostFor(isa, end, g))
  {
    forall r | 0 <= r < 32 ensures SlotFor(isa, end, g, Gp(r)) == g.gpr(r) {
      RegisterSlot(isa, end, g, r);
    }
    forall i | 0 <= i < 256 ensures SlotFor(isa, end, g, Cp(i)) == g.cp0(i) {
      Cp0Slot(isa, end, g, i);
    }
    NamedSlots(isa, end, g);
    hide SlotFor;
  }

  lemma RegisterSlot(isa: Isa, end: Value, g: Guest, r: int)
    requires 0 <= r < 32
    ensures SlotFor(isa, end, g, Gp(r)) == g.gpr(r)
  {
  }

  lemma Cp0Slot(isa: Isa, end: Value, g: Guest, i: int)
    requires 0 <= i < 256
    ensures SlotFor(isa, end, g, Cp(i)) == g.cp0(i)
  {
  }

  lemma NamedSlots(isa: Isa, end: Value, g: Guest)
    ensures SlotFor(isa, end, g, PC) == g.pc && SlotFor(isa, end, g, HI) == g.hi && SlotFor(isa, end, g, LO) == g.lo
    ensures SlotFor(isa, end, g, LLBIT) == g.llBit && SlotFor(isa, end, g, LL_DATA) == g.llData
    ensures SlotFor(isa, end, g, TRANS_ADDR) == g.hva && SlotFor(isa, end, g, LDST_ADDR) == g.va
    ensures SlotFor(isa, end, g, LDST_DATA) == g.data && SlotFor(isa, end, g, LDST_OP) == g.prot
    ensures SlotFor(isa, end, g, C_LABEL) == isa.cLabel && SlotFor(isa, end, g, BLOCK_END_PC) == end
  {
  }

  /** A guest with x in every register but $0 and the given Status, everything else zero. */
  function PlainGuest(x: Value, status: Value, llBit: Value): Guest {
    Guest((r: int) => if r == 0 then ZERO else x, ZERO, ZERO, ZERO, (i: int) => if i == STATUS then status else ZERO,
          Mem(map[]), llBit, ZERO, ZERO, ZERO, ZERO, ZERO, Start)
  }

  /** An instruction set in which every operation left open yields 1, and a store leaves one byte at its address. */
  function OneIsa(): Isa {
    Isa((op, func, sa, x, y, z) => ONE, (func, rs, sa, y) => ONE, (func, x, y) => ONE, (func, x, y) => ONE,
        (op, func, rd, sa, x) => ONE, (op, func, rd, sa, x, y) => ONE, (op, x, imm) => ONE, (op, mem, a, z) => ONE,
        (op: int, mem: Mem, a: Value, x: Value) => Mem(map[a.bits := 1]), ZERO, ZERO)
  }

  /** An environment that refuses every access. */
  function RefusingEnv(): Env {
    Env((t, mem) => None, (t, i) => ZERO, (t, r) => ZERO)
  }

  /** An environment that lets every load through, without a word on stores, and refuses every store. */
  function ReadOnlyEnv(): Env {
    Env((t: Trace, mem: Mem) =>
          if t.After? && t.last.Access? && t.last.store == ZERO then Some(Mapping(ZERO, ZERO, mem)) else None,
        (t, i) => ZERO, (t, r) => ZERO)
  }

  /** An environment that lets every access through, stores to another place than loads: a page remapped in between. */
  function RemappedEnv(): Env {
    Env((t: Trace, mem: Mem) =>
          if t.After? && t.last.Access? then Some(Mapping(t.last.store, ONE, mem)) else None,
        (t, i) => ZERO, (t, r) => ZERO)
  }

  // ---- eret

  /** Where the emitted eret is right: in a privileged mode, with bit 16 of Status clear and no link open. */
  predicate EretExact(g: Guest) {
    !InUserMode(g.cp0(STATUS)) && g.cp0(STATUS).bits & 0x1_0000 == 0 && g.llBit == ZERO
  }

  lemma EretBits(s: Value)
    ensures And(EretMaskValue(if ErlSet(s) then 0xFFFB else 0xFFFD), s) == EretStatus(s) <==> s.bits & 0x1_0000 == 0
  {
    if s.bits & 0x1_0000 == 0 {
      EretBitsKept(s);
    } else {
      EretBitLost(s);
    }
  }

  lemma EretBitsKept(s: Value)
    requires s.bits & 0x1_0000 == 0
    ensures And(EretMaskValue(if ErlSet(s) then 0xFFFB else 0xFFFD), s) == EretStatus(s)
  {
  }

  lemma EretBitLost(s: Value)
    requires s.bits & 0x1_0000 != 0
    ensures And(EretMaskValue(if ErlSet(s) then 0xFFFB else 0xFFFD), s) != EretStatus(s)
  {
  }

  lemma EretSame(g: Guest)
    requires EretExact(g)
    ensures EretStep(g) == Exit(FETCH_NEXT_BLOCK, EmittedEret(g))
  {
    EretBits(g.cp0(STATUS));
    hide And, EretStatus, EretMaskValue, ErlSet, InUserMode;
  }

  lemma EretRuns(isa: Isa, env: Env, end: Value, k: seq<Ins>, g: Guest, h: Host) returns (h1: Host)
    requires Rel(isa, end, g, h) && EretExact(g)
    ensures Simulates(isa, env, end, EretStep(g), Eret(), k, h, h1)
  {
    hide Simulates, EretExact, EretStep, EmittedEret, Rel;
    EretSame(g);
    h1 := RunEret(isa, env, end, k, g, h);
  }

  /** The guest's eret leaves as the emitted one does only under EretExact. */
  lemma EretDiffers(isa: Isa, env: Env, end: Value, g: Guest, h: Host, h1: Host, h2: Host)
    requires Simulates(isa, env, end, Exit(FETCH_NEXT_BLOCK, EmittedEret(g)), Eret(), [], h, h1)
    requires Simulates(isa, env, end, EretStep(g), Eret(), [], h, h2)
    ensures EretExact(g)
  {
    EretBits(g.cp0(STATUS));
    hide Exec, And, EretStatus, EretMaskValue, ErlSet, InUserMode;
    assert h1 == h2;
    assert h1.slots(Cp(STATUS)) == EmittedEret(g).cp0(STATUS);
  }

  /** The emitted eret does what eret means exactly in the states EretExact describes. */
  lemma EretExactly(isa: Isa, env: Env, end: Value, g: Guest, h: Host)
    requires Rel(isa, end, g, h)
    ensures Faithful(isa, env, end, EretStep(g), Eret(), h) <==> EretExact(g)
  {
    hide Simulates, EretExact, EretStep, EmittedEret, Rel;
    if EretExact(g) {
      forall k ensures Reaches(isa, env, end, EretStep(g), Eret(), k, h) {
        var h1 := EretRuns(isa, env, end, k, g, h);
      }
    }
    if Faithful(isa, env, end, EretStep(g), Eret(), h) {
      assert Reaches(isa, env, end, EretStep(g), Eret(), [], h);
      var h2: Host :| Simulates(isa, env, end, EretStep(g), Eret(), [], h, h2);
      var h1 := RunEret(isa, env, end, [], g, h);
      EretDiffers(isa, env, end, g, h, h1, h2);
    }
  }

  lemma UserStatus()
    ensures InUserMode(Value(0x10)) && !InUserMode(ZERO) && !InUserMode(Value(0x1_0000))
    ensures Value(0x1_0000).bits & 0x1_0000 != 0
  {
  }

  /** Three states in which the emitted eret is wrong: a program in user mode (Status 0x10), a link that is open, and
      bit 16 of Status set. */
  lemma EretFails(isa: Isa, env: Env, end: Value)
    ensures var g := PlainGuest(ZERO, Value(0x10), ZERO);
      !Faithful(isa, env, end, EretStep(g), Eret(), HostFor(isa, end, g))
    ensures var g := PlainGuest(ZERO, ZERO, ONE);
      !Faithful(isa, env, end, EretStep(g), Eret(), HostFor(isa, end, g))
    ensures var g := PlainGuest(ZERO, Value(0x1_0000), ZERO);
      !Faithful(isa, env, end, EretStep(g), Eret(), HostFor(isa, end, g))
  {
    UserStatus();
    hide Faithful, InUserMode, Rel, EretStep, HostFor;
    var user, open, bit16 := PlainGuest(ZERO, Value(0x10), ZERO), PlainGuest(ZERO, ZERO, ONE),
        PlainGuest(ZERO, Value(0x1_0000), ZERO);
    HostForRel(isa, end, user);
    HostForRel(isa, end, open);
    HostForRel(isa, end, bit16);
    EretExactly(isa, env, end, user, HostFor(isa, end, user));
    EretExactly(isa, env, end, open, HostFor(isa, end, open));
    EretExactly(isa, env, end, bit16, HostFor(isa, end, bit16));
  }

  lemma {:induction false} TraceGrows(t: Trace, c: Call)
    ensures After(t, c) != t
  {
    match t
    case Start =>
    case After(past, last) => TraceGrows(past, last);
  }

  // ---- sc and scd

  /** The emitted sc and scd do what the instructions mean exactly in the states ConditionalExact describes. */
  lemma ConditionalExactly(isa: Isa, env: Env, end: Value, i: Ins, g: Guest, h: Host)
    requires i.I? && 0 <= i.rs < 32 && 0 <= i.rt < 32 && Rel(isa, end, g, h)
    ensures Faithful(isa, env, end, ConditionalStep(isa, env, i, g), StoreConditional(i), h)
            <==> ConditionalExact(isa, env, i, g)
  {
    hide Simulates, Rel, ConditionalStep, ConditionalExact, StoreConditional, Faithful;
    if ConditionalExact(isa, env, i, g) {
      assert Faithful(isa, env, end, ConditionalStep(isa, env, i, g), StoreConditional(i), h) by {
        ConditionalFaithful(isa, env, end, i, g, h);
      }
    } else {
      ConditionalUnfaithful(isa, env, end, i, g, h);
    }
  }

  lemma ConditionalFaithful(isa: Isa, env: Env, end: Value, i: Ins, g: Guest, h: Host)
    requires i.I? && 0 <= i.rs < 32 && 0 <= i.rt < 32 && Rel(isa, end, g, h) && ConditionalExact(isa, env, i, g)
    ensures Faithful(isa, env, end, ConditionalStep(isa, env, i, g), StoreConditional(i), h)
  {
    hide Simulates, Rel, ConditionalStep, ConditionalExact, StoreConditional;
    forall k ensures Reaches(isa, env, end, ConditionalStep(isa, env, i, g), StoreConditional(i), k, h) {
      var h1 := ConditionalRuns(isa, env, end, i, k, g, h);
    }
  }

  lemma ConditionalUnfaithful(isa: Isa, env: Env, end: Value, i: Ins, g: Guest, h: Host)
    requires i.I? && 0 <= i.rs < 32 && 0 <= i.rt < 32 && Rel(isa, end, g, h) && !ConditionalExact(isa, env, i, g)
    ensures !Faithful(isa, env, end, ConditionalStep(isa, env, i, g), StoreConditional(i), h)
  {
    hide Exec, Faithful, LinkHolds, StoreConditional, Registers, Plus, SX16, ExitC, ConditionalStore;
    var h1 := RunScGuest(isa, env, end, i, ExitC(), g, h);
    SameLabel(isa, end, g, h);
    var r := ConditionalStep(isa, env, i, g);
    if MayStore(env, i, g) {
      if i.rt == 0 {
        assert h1.slots(Gp(0)) == ONE;
      } else {
        assert h1.mem != r.guest.mem;
      }
    } else {
      TraceGrows(g.trace, r.guest.trace.last);
      assert h1.trace == g.trace;
    }
    assert !Rel(isa, end, r.guest, h1);
    NotFaithful(isa, env, end, r, StoreConditional(i), h, h1);
  }
}
