/** Precise state: what the slots hold whenever translated code hands over to the C++ side. */
module PreciseState {
  import opened Words
  import opened Instructions
  import opened Machine
  import opened HostMachine
  import opened GuestMachine
  import opened Emitters
  import opened HostSteps
  import opened Simulation
  import opened Faithfulness
  import opened BlockSimulation
  import opened ControlSimulation
  import opened BlockTranslation
  import opened TranslatedCode
  import Decoder

  /** The state in which instruction n of a block runs, gn being the state n instructions lead to: a delay slot runs
      after its branch has linked. */
  function AtInstruction(b: seq<Ins>, n: nat, gn: Guest): Guest
    requires n < |b|
  {
    if n + 2 == |b| then SetGpr(gn, LinkRegister(b[n]), Plus(gn.pc, Value(8))) else gn
  }

  /** The slots and memory hold a guest's registers and memory. */
  ghost predicate HoldsState(g: Guest, h: Host) {
    && (forall r :: 0 <= r < 32 ==> h.slots(Gp(r)) == g.gpr(r))
    && (forall i :: 0 <= i < 256 ==> h.slots(Cp(i)) == g.cp0(i))
    && h.slots(HI) == g.hi && h.slots(LO) == g.lo && h.slots(PC) == g.pc && h.mem == g.mem
  }

  lemma RecordsHeld(isa: Isa, end: Value, g: Guest, g1: Guest, h: Host)
    requires Rel(isa, end, g1, h) && OnlyRecords(g, g1)
    ensures HoldsState(g, h)
  {
  }

  lemma LinkKeepsPc(b: seq<Ins>, n: nat, gn: Guest)
    requires n < |b|
    ensures AtInstruction(b, n, gn).pc == gn.pc
  {
    hide Plus;
  }

  /** Translated code that leaves because of an access, a trap or a system call has run some number n of guest
      instructions completely: the PC slot is the address of instruction n (for a delay slot: of its branch), and the
      register, CP0, HI and LO slots and memory are those after n instructions, with the link of that branch. */
  lemma HostLeavesPrecisely(isa: Isa, env: Env, b: seq<Ins>, end: Value, words: seq<Word>, g: Guest, h: Host)
    returns (n: nat, gn: Guest, h1: Host)
    requires SupportedBlock(b, g.pc) && AllWellFormed(b) && BlockExact(isa, env, b, g) && Rel(isa, end, g, h)
    requires Decoder.Dispatch(b[|b| - 2]).Terminate? || end == Advance(g.pc, |b| - 2)
    requires ModelledBlock(b) && words == Encoded(BlockCode(b, end))
    requires RunBlock(isa, env, b, g).Exit? && RunBlock(isa, env, b, g).mark != FETCH_NEXT_BLOCK
    ensures n <= |b| - 2 && RunPrefix(isa, env, b, n, g) == Next(gn)
    ensures Exec(isa, env, Parsed(words), h) == Leave(h1)
    ensures h1.slots(PC) == Advance(g.pc, n) && HoldsState(AtInstruction(b, n, gn), h1)
  {
    assert |b| >= 2;
    hide Rel, Exec, RunBlock, SupportedBlock, ModelledBlock, BlockExact, Decoder.Dispatch, MarkValue, OnlyRecords, Plus,
      Advance, RunPrefix, AllWellFormed, BlockCode, AtInstruction, HoldsState;
    var m, g1 := RunBlock(isa, env, b, g).mark, RunBlock(isa, env, b, g).guest;
    n, gn := PreciseLeave(isa, env, b, g, m, g1);
    h1 := TranslatedBlockRuns(isa, env, b, end, words, g, h);
    AtInstructionIs(b, n, gn);
    RecordsHeld(isa, end, AtInstruction(b, n, gn), g1, h1);
    LinkKeepsPc(b, n, gn);
    HeldPc(AtInstruction(b, n, gn), h1);
  }

  lemma AtInstructionIs(b: seq<Ins>, n: nat, gn: Guest)
    requires n + 2 <= |b|
    ensures AtInstruction(b, n, gn) == if n == |b| - 2 then SetGpr(gn, LinkRegister(b[n]), Plus(gn.pc, Value(8)))
            else gn
  {
    hide Plus, SetGpr, LinkRegister;
  }

  lemma HeldPc(g: Guest, h: Host)
    requires HoldsState(g, h)
    ensures h.slots(PC) == g.pc
  {
  }

  // ---- call-outs that come back

  function CallPc(c: Call): Value {
    match c
    case Access(pc, _, _, _, _) => pc
    case Request(_, pc, _) => pc
  }

  /** A call made in state g: its PC, and all registers as they are. */
  predicate MadeIn(c: Call, g: Guest) { CallPc(c) == g.pc && c.registers == Registers(g) }

  /** At most one new call-out, made in state g. */
  predicate CallsIn(before: Trace, after: Trace, g: Guest) {
    after == before || (after.After? && after.past == before && MadeIn(after.last, g))
  }

  lemma SameRegisterFile(g: Guest, g1: Guest)
    requires g1.gpr == g.gpr && g1.hi == g.hi && g1.lo == g.lo
    ensures Registers(g1) == Registers(g)
  {
  }

  lemma TranslateCalls(env: Env, g: Guest, g0: Guest, va: Value, store: Value)
    requires g0 == g.(data := g0.data, llBit := g0.llBit)
    ensures CallsIn(g.trace, Translate(env, g0, va, store).guest.trace, g)
  {
    SameRegisterFile(g, g0);
    hide Registers;
  }

  lemma TlbCalls(env: Env, mark: Value, g: Guest)
    ensures CallsIn(g.trace, TlbStep(env, mark, g).guest.trace, g)
  {
    hide Registers, InUserMode;
  }

  lemma EretCallsNothing(g: Guest)
    ensures EretStep(g).guest.trace == g.trace
  {
    hide EretStatus, InUserMode, ErlSet;
  }

  lemma AccessCalls(isa: Isa, env: Env, i: Ins, g: Guest)
    requires i.I?
    ensures CallsIn(g.trace, LoadStep(isa, env, i, g).guest.trace, g)
    ensures CallsIn(g.trace, StoreStep(isa, env, i, g).guest.trace, g)
    ensures CallsIn(g.trace, LinkedStep(isa, env, i, g).guest.trace, g)
    ensures CallsIn(g.trace, ConditionalStep(isa, env, i, g).guest.trace, g)
  {
    TranslateCalls(env, g, g, AddressOf(i, g), ZERO);
    TranslateCalls(env, g, g.(data := g.gpr(i.rt)), AddressOf(i, g), ONE);
    TranslateCalls(env, g, g.(llBit := ONE), AddressOf(i, g), ZERO);
    hide Translate, Registers, AddressOf, LoadValue, LinkHolds, CallsIn;
    NoCall(g.trace, g);
  }

  lemma NoCall(t: Trace, g: Guest)
    ensures CallsIn(t, t, g)
  {
  }

  lemma RegisterStepCalls(isa: Isa, env: Env, i: Ins, g: Guest)
    requires i.R?
    ensures CallsIn(g.trace, StepR(isa, env, i, g).guest.trace, g)
  {
    EretCallsNothing(g);
    NoCall(g.trace, g);
    TlbCalls(env, TlbMark(i.func), g);
    hide ThreeReg, Shift, MulHi, MulLo, Product, UnsignedProduct, Accumulator, Plus, Minus, SX32, Sra32, IsThreeReg,
      TlbMark, InUserMode, EretStep, TlbStep, IsExt, IsIns, IsShift, CallsIn;
  }

  lemma ImmediateStepCalls(isa: Isa, env: Env, i: Ins, g: Guest)
    requires i.I?
    ensures CallsIn(g.trace, StepI(isa, env, i, g).guest.trace, g)
  {
    NoCall(g.trace, g);
    AccessCalls(isa, env, i, g);
    hide Immediate, SX32, SX16, LoadStep, StoreStep, LinkedStep, ConditionalStep, IsLoad, IsStore, IsImmediate, CallsIn;
  }

  /** Every instruction calls out at most once, and with the state it started in. */
  lemma StepCallsIn(isa: Isa, env: Env, i: Ins, g: Guest)
    ensures CallsIn(g.trace, Step(isa, env, i, g).guest.trace, g)
  {
    NoCall(g.trace, g);
    if i.R? {
      RegisterStepCalls(isa, env, i, g);
    } else if i.I? {
      ImmediateStepCalls(isa, env, i, g);
    }
    hide StepR, StepI, CallsIn;
  }

  /** The call was made by instruction n of the block, in the state the instructions before it lead to. */
  ghost predicate MadeAt(isa: Isa, env: Env, b: seq<Ins>, g: Guest, n: nat, c: Call)
    requires n < |b|
  {
    match RunPrefix(isa, env, b, n, g)
    case Next(gn) => CallPc(c) == Advance(g.pc, n) && c.registers == Registers(AtInstruction(b, n, gn))
    case Exit(_, _) => false
  }

  ghost predicate IsPrecise(isa: Isa, env: Env, b: seq<Ins>, g: Guest, c: Call) {
    exists n :: 0 <= n <= |b| - 2 && MadeAt(isa, env, b, g, n, c)
  }

  /** Every call-out since the block started in g carries the PC and the registers of the instruction that made it. */
  ghost predicate CallsPrecise(isa: Isa, env: Env, b: seq<Ins>, g: Guest, t: Trace)
    decreases t
  {
    t == g.trace || (t.After? && CallsPrecise(isa, env, b, g, t.past) && IsPrecise(isa, env, b, g, t.last))
  }

  lemma OneCallPrecise(isa: Isa, env: Env, b: seq<Ins>, g: Guest, t: Trace)
    requires |b| >= 2 && CallsIn(g.trace, t, AtInstruction(b, 0, g))
    ensures CallsPrecise(isa, env, b, g, t)
  {
    LinkKeepsPc(b, 0, g);
    if t != g.trace {
      assert MadeAt(isa, env, b, g, 0, t.last) by {
        assert RunPrefix(isa, env, b, 0, g) == Next(g);
        hide Registers, Plus, AtInstruction;
      }
      assert CallsPrecise(isa, env, b, g, t.past);
    }
  }

  /** A call made by instruction n of the rest is made by instruction n + 1 of the block. */
  lemma LaterCall(isa: Isa, env: Env, b: seq<Ins>, g: Guest, g1: Guest, n: nat, c: Call)
    requires |b| > 2 && Step(isa, env, b[0], g) == Next(g1) && n + 1 < |b|
    requires MadeAt(isa, env, b[1..], g1.(pc := Plus(g.pc, Value(4))), n, c)
    ensures MadeAt(isa, env, b, g, n + 1, c)
  {
    StepKeepsPc(isa, env, b[0], g);
    hide Step, Registers, Plus, SetGpr, LinkRegister;
    assert b[1..][n] == b[n + 1];
  }

  lemma LaterPrecise(isa: Isa, env: Env, b: seq<Ins>, g: Guest, g1: Guest, c: Call)
    requires |b| > 2 && Step(isa, env, b[0], g) == Next(g1)
    requires IsPrecise(isa, env, b[1..], g1.(pc := Plus(g.pc, Value(4))), c)
    ensures IsPrecise(isa, env, b, g, c)
  {
    hide Step, Plus, MadeAt;
    var n :| 0 <= n <= |b[1..]| - 2 && MadeAt(isa, env, b[1..], g1.(pc := Plus(g.pc, Value(4))), n, c);
    LaterCall(isa, env, b, g, g1, n, c);
  }

  lemma {:induction false} LaterCallsPrecise(isa: Isa, env: Env, b: seq<Ins>, g: Guest, g1: Guest, t: Trace)
    requires |b| > 2 && Step(isa, env, b[0], g) == Next(g1) && CallsPrecise(isa, env, b, g, g1.trace)
    requires CallsPrecise(isa, env, b[1..], g1.(pc := Plus(g.pc, Value(4))), t)
    ensures CallsPrecise(isa, env, b, g, t)
    decreases t
  {
    hide Step, Plus, IsPrecise;
    if t != g1.trace {
      LaterPrecise(isa, env, b, g, g1, t.last);
      LaterCallsPrecise(isa, env, b, g, g1, t.past);
    }
  }

  lemma ControlCalls(isa: Isa, env: Env, c: Ins, slot: Ins, g: Guest)
    ensures CallsIn(g.trace, Control(isa, env, c, slot, g).guest.trace,
                    SetGpr(g, LinkRegister(c), Plus(g.pc, Value(8))))
  {
    var linked := SetGpr(g, LinkRegister(c), Plus(g.pc, Value(8)));
    StepCallsIn(isa, env, slot, linked);
    NoCall(g.trace, linked);
    hide Step, CallsIn, Plus, Taken, Target, LinkRegister;
  }

  lemma LastCalls(isa: Isa, env: Env, b: seq<Ins>, g: Guest)
    requires |b| == 2
    ensures CallsIn(g.trace, RunBlock(isa, env, b, g).guest.trace, AtInstruction(b, 0, g))
  {
    if b[0].I? && b[0].op == 59 {
      assert Decoder.Dispatch(b[0]).Terminate?;
      TerminateStep(isa, env, b[0], g);
      NoCall(g.trace, AtInstruction(b, 0, g));
    } else {
      ControlCalls(isa, env, b[0], b[1], g);
    }
    hide Step, Control, CallsIn, Plus, SetGpr, LinkRegister;
  }

  lemma {:induction false} BlockCallsPrecise(isa: Isa, env: Env, b: seq<Ins>, g: Guest)
    requires |b| >= 2
    ensures CallsPrecise(isa, env, b, g, RunBlock(isa, env, b, g).guest.trace)
    decreases |b|
  {
    hide CallsPrecise, CallsIn, Step, Plus, Control;
    if |b| == 2 {
      LastCalls(isa, env, b, g);
      OneCallPrecise(isa, env, b, g, RunBlock(isa, env, b, g).guest.trace);
    } else {
      RunBlockStep(isa, env, b, g);
      StepKeepsPc(isa, env, b[0], g);
      StepCallsIn(isa, env, b[0], g);
      var r := Step(isa, env, b[0], g);
      OneCallPrecise(isa, env, b, g, r.guest.trace);
      if r.Next? {
        var g2 := r.guest.(pc := Plus(g.pc, Value(4)));
        BlockCallsPrecise(isa, env, b[1..], g2);
        LaterCallsPrecise(isa, env, b, g, r.guest, RunBlock(isa, env, b[1..], g2).guest.trace);
      }
    }
  }

  /** Every call-out translated code makes, whether or not it comes back, finds in the slots the PC of the guest
      instruction that makes it and all 34 registers as the instructions before it have left them. */
  lemma HostCallsPrecise(isa: Isa, env: Env, b: seq<Ins>, end: Value, words: seq<Word>, g: Guest, h: Host)
    returns (h1: Host)
    requires SupportedBlock(b, g.pc) && AllWellFormed(b) && BlockExact(isa, env, b, g) && Rel(isa, end, g, h)
    requires Decoder.Dispatch(b[|b| - 2]).Terminate? || end == Advance(g.pc, |b| - 2)
    requires ModelledBlock(b) && words == Encoded(BlockCode(b, end))
    ensures Exec(isa, env, Parsed(words), h) == Leave(h1) && CallsPrecise(isa, env, b, g, h1.trace)
  {
    BlockLeaves(isa, env, b, g);
    hide Rel, Exec, RunBlock, SupportedBlock, ModelledBlock, BlockExact, Decoder.Dispatch, MarkValue, Advance,
      AllWellFormed, BlockCode, CallsPrecise;
    BlockCallsPrecise(isa, env, b, g);
    h1 := TranslatedBlockRuns(isa, env, b, end, words, g, h);
    SameTrace(isa, end, RunBlock(isa, env, b, g).guest, h1);
  }

  lemma SameTrace(isa: Isa, end: Value, g: Guest, h: Host)
    requires Rel(isa, end, g, h)
    ensures h.trace == g.trace
  {
  }
}
