/** BlockTranslation_IPE: a whole guest block, its program counter, and where it stops. */
module BlockTranslation {
  import opened Words
  import opened Instructions
  import opened Machine
  import opened HostMachine
  import opened GuestMachine
  import opened Emitters
  import opened HostSteps
  import opened Simulation
  import opened Faithfulness
  import opened BlockSimulation
  import opened ControlSimulation
  import Decoder

  /** The address n words after pc. */
  function Advance(pc: Value, n: nat): Value
    decreases n
  {
    if n == 0 then pc else Advance(Plus(pc, Value(4)), n - 1)
  }

  /** An instruction whose translation is modelled. */
  predicate Modelled(i: Ins) {
    IsModelled(Decoder.Dispatch(i)) && !Decoder.RotatePattern(i)
  }

  /** The last two words of a block: a control instruction and its delay slot, or the terminator and a nop. */
  predicate ModelledEnd(c: Ins, slot: Ins) {
    WellFormed(c) && (Decoder.Dispatch(c).Terminate? || (Decoder.NeedsSlot(Decoder.Dispatch(c)) && Modelled(slot)))
  }

  predicate ModelledBlock(b: seq<Ins>) {
    |b| >= 2 && ModelledEnd(b[|b| - 2], b[|b| - 1]) && forall k :: 0 <= k < |b| - 2 ==> Modelled(b[k])
  }

  function LastCode(c: Ins, slot: Ins, end: Value): seq<Ins>
    requires ModelledEnd(c, slot)
  {
    if Decoder.Dispatch(c).Terminate? then Terminate() else EmitControl(c, Emit(slot), end)
  }

  /** What doBlockTranslation appends. */
  function BlockCode(b: seq<Ins>, end: Value): seq<Ins>
    requires ModelledBlock(b)
  {
    if |b| == 2 then LastCode(b[0], b[1], end)
    else Emit(b[0]) + (UpdatePc() + BlockCode(b[1..], end))
  }

  /** Blocks that are translated faithfully when they start at pc. */
  predicate SupportedBlock(b: seq<Ins>, pc: Value) {
    |b| >= 2
    && if |b| == 2 then
         (WellFormed(b[0]) && Decoder.Dispatch(b[0]).Terminate?) || (SupportedControl(b[0], pc) && Supported(b[1]))
       else Supported(b[0]) && SupportedBlock(b[1..], Plus(pc, Value(4)))
  }

  /** The emitted code of the block is right from here on: every instruction it comes to, and its end, stands in a state
      in which the code is exact. */
  predicate BlockExact(isa: Isa, env: Env, b: seq<Ins>, g: Guest)
    requires |b| >= 2
    decreases |b|
  {
    if |b| == 2 then (b[0].I? && b[0].op == 59) || ControlExact(isa, env, b[0], b[1], g)
    else
      Exact(isa, env, b[0], g)
      && match Step(isa, env, b[0], g)
         case Next(g1) => BlockExact(isa, env, b[1..], g1.(pc := Plus(g1.pc, Value(4))))
         case Exit(_, _) => true
  }

  lemma {:induction false} SupportedIsModelledBlock(b: seq<Ins>, pc: Value)
    requires SupportedBlock(b, pc)
    ensures ModelledBlock(b)
    decreases |b|
  {
    hide Decoder.Dispatch, Supported, SupportedControl, IsModelled, Plus, Decoder.RotatePattern;
    if |b| == 2 {
      if SupportedControl(b[0], pc) && Supported(b[1]) {
        ControlRange(b[0], pc);
        SupportedIsModelled(b[1]);
      }
    } else {
      SupportedIsModelled(b[0]);
      SupportedIsModelledBlock(b[1..], Plus(pc, Value(4)));
      forall k | 0 <= k < |b| - 2 ensures Modelled(b[k]) {
        assert k > 0 ==> b[k] == b[1..][k - 1];
      }
    }
  }

  // ---- the program counter between instructions

  lemma FourIsFour(isa: Isa)
    ensures Immediate(isa, ADDI, ZERO, 4) == Value(4)
  {
  }

  /** addi and saad move the PC slot on by one instruction and touch nothing else. */
  lemma UpdatePcRuns(isa: Isa, env: Env, end: Value, k: seq<Ins>, g: Guest, h: Host) returns (h1: Host)
    requires Rel(isa, end, g, h)
    ensures Simulates(isa, env, end, Next(g.(pc := Plus(g.pc, Value(4)))), UpdatePc(), k, h, h1)
  {
    hide Exec, Plus, Immediate, Plain;
    FourIsFour(isa);
    PlainImmediate(isa, ADDI, 0, T1, 4, h);
    var a := SetReg(h, T1, Value(4));
    PlainSaad(isa, a);
    h1 := SetSlot(a, PC, Plus(a.slots(PC), Value(4)));
    Line2(isa, env, I(ADDI, 0, T1, 4), R(28, BASE, T1, 0, 0, 25), k, h);
    RelPc(isa, end, g, h, Plus(g.pc, Value(4)), h1);
  }

  lemma PlainSaad(isa: Isa, h: Host)
    ensures IsPlain(R(28, BASE, T1, 0, 0, 25))
    ensures Plain(isa, R(28, BASE, T1, 0, 0, 25), h) == SetSlot(h, PC, Plus(h.slots(PC), h.regs(T1)))
  {
    hide SetSlot, Plus;
  }

  // ---- the whole block

  lemma TerminateStep(isa: Isa, env: Env, c: Ins, g: Guest)
    requires Decoder.Dispatch(c).Terminate?
    ensures c.I? && c.op == 59 && Step(isa, env, c, g) == Exit(FETCH_NEXT_BLOCK, g)
  {
    hide Immediate, LoadStep, StoreStep, LinkedStep, ConditionalStep;
  }

  lemma TerminateRuns(isa: Isa, env: Env, end: Value, c: Ins, k: seq<Ins>, g: Guest, h: Host) returns (h1: Host)
    requires Decoder.Dispatch(c).Terminate? && Rel(isa, end, g, h)
    ensures Simulates(isa, env, end, Step(isa, env, c, g), Terminate(), k, h, h1)
  {
    TerminateStep(isa, env, c, g);
    hide Exec, MarkValue, Step, Decoder.Dispatch;
    Assoc(SetMark(T3, FETCH_NEXT_BLOCK), ExitC(), k);
    RunSetMark(isa, env, T3, FETCH_NEXT_BLOCK, ExitC() + k, h);
    var a := Marked(h, T3, FETCH_NEXT_BLOCK);
    RelScratch(isa, end, g, h, CONTROL_MARK, MarkValue(FETCH_NEXT_BLOCK), a);
    RunExitC(isa, env, k, a);
    h1 := SetReg(a, CREG, isa.cLabel);
    RelSame(isa, end, g, a, h1);
  }

  lemma EretLeaves(g: Guest)
    ensures !EretStep(g).Next?
  {
    hide EretStatus;
  }

  lemma StepKeepsPc(isa: Isa, env: Env, i: Ins, g: Guest)
    ensures match Step(isa, env, i, g)
            case Next(g1) => g1.pc == g.pc
            case Exit(_, _) => true
  {
    EretLeaves(g);
    hide ThreeReg, Shift, MulHi, MulLo, Immediate, Product, UnsignedProduct, Accumulator, Plus, Minus, SX32, SX16,
      LinkHolds, IsThreeReg, LoadValue, InUserMode, EretStep, IsExt, IsIns, IsShift, IsLoad, IsStore, IsImmediate,
      Registers;
  }

  /** The last two words of a block. */
  lemma LastSimulated(isa: Isa, env: Env, end: Value, b: seq<Ins>, k: seq<Ins>, g: Guest, h: Host) returns (h1: Host)
    requires |b| == 2 && SupportedBlock(b, g.pc) && ModelledBlock(b) && BlockExact(isa, env, b, g)
            && Rel(isa, end, g, h)
    requires Decoder.Dispatch(b[0]).Terminate? || end == g.pc
    ensures Simulates(isa, env, end, RunBlock(isa, env, b, g), LastCode(b[0], b[1], end), k, h, h1)
  {
    hide Simulates, Rel, Exec, Step, Control, ControlExact, Supported, SupportedControl, Decoder.Dispatch, EmitControl,
      Emit;
    if Decoder.Dispatch(b[0]).Terminate? {
      TerminateStep(isa, env, b[0], g);
      h1 := TerminateRuns(isa, env, end, b[0], k, g, h);
    } else {
      ControlFields(b[0], g.pc);
      h1 := ControlSimulated(isa, env, b[0], b[1], k, g, h);
    }
  }

  /** The rest of a block after the result of its first instruction. */
  function Continue(isa: Isa, env: Env, b: seq<Ins>, r: Result, pc: Value): Result
    requires |b| > 2
  {
    match r
    case Next(g1) => RunBlock(isa, env, b[1..], g1.(pc := Plus(pc, Value(4))))
    case e => e
  }

  lemma RunBlockStep(isa: Isa, env: Env, b: seq<Ins>, g: Guest)
    requires |b| > 2
    ensures RunBlock(isa, env, b, g) == Continue(isa, env, b, Step(isa, env, b[0], g), g.pc)
  {
    StepKeepsPc(isa, env, b[0], g);
    hide Step, Control, Plus;
  }

  /** What is exact for a block is exact for its first instruction and for the rest. */
  lemma ExactStep(isa: Isa, env: Env, b: seq<Ins>, g: Guest)
    requires |b| > 2 && BlockExact(isa, env, b, g)
    ensures Exact(isa, env, b[0], g)
    ensures Step(isa, env, b[0], g).Next? ==>
              BlockExact(isa, env, b[1..], Step(isa, env, b[0], g).guest.(pc := Plus(g.pc, Value(4))))
  {
    StepKeepsPc(isa, env, b[0], g);
    hide Step, Exact, ControlExact, Plus;
  }

  /** Block simulation: running the emitted words from the first one leaves for the C++ side exactly where, and with
      exactly the state, the reference guest leaves the block. */
  lemma {:induction false} BlockSimulated(isa: Isa, env: Env, end: Value, b: seq<Ins>, k: seq<Ins>, g: Guest, h: Host)
    returns (h1: Host)
    requires SupportedBlock(b, g.pc) && ModelledBlock(b) && BlockExact(isa, env, b, g) && Rel(isa, end, g, h)
    requires Decoder.Dispatch(b[|b| - 2]).Terminate? || end == Advance(g.pc, |b| - 2)
    ensures Simulates(isa, env, end, RunBlock(isa, env, b, g), BlockCode(b, end), k, h, h1)
    decreases |b|
  {
    hide Simulates, Rel, Step, Supported, SupportedControl, Exact, BlockExact, Decoder.Dispatch, Emit, LastCode,
      RunBlock, UpdatePc, Plus, ModelledEnd, IsModelled, Decoder.RotatePattern;
    if |b| == 2 {
      h1 := LastSimulated(isa, env, end, b, k, g, h);
    } else {
      RunBlockStep(isa, env, b, g);
      ExactStep(isa, env, b, g);
      StepKeepsPc(isa, env, b[0], g);
      var rest := BlockCode(b[1..], end);
      var r := RunBlock(isa, env, b, g);
      var a := StepSimulated(isa, env, end, b[0], (UpdatePc() + rest) + k, g, h);
      h1 := a;
      match Step(isa, env, b[0], g) {
        case Next(g1) =>
          RelNext(isa, env, end, g1, Emit(b[0]), (UpdatePc() + rest) + k, h, a);
          var g2 := g1.(pc := Plus(g.pc, Value(4)));
          var c := UpdatePcRuns(isa, env, end, rest + k, g1, a);
          RelNext(isa, env, end, g2, UpdatePc(), rest + k, a, c);
          h1 := BlockSimulated(isa, env, end, b[1..], k, g2, c);
          Sequenced(isa, env, end, Next(g2), r, UpdatePc(), rest, k, a, c, h1);
        case _ =>
      }
      Sequenced(isa, env, end, Step(isa, env, b[0], g), r, Emit(b[0]), UpdatePc() + rest, k, h, a, h1);
    }
  }

  lemma ControlLeaves(isa: Isa, env: Env, c: Ins, slot: Ins, g: Guest)
    ensures !Control(isa, env, c, slot, g).Next?
  {
    hide Step, Target, Taken, Plus;
  }

  /** A block always leaves. */
  lemma {:induction false} BlockLeaves(isa: Isa, env: Env, b: seq<Ins>, g: Guest)
    requires |b| >= 2
    ensures !RunBlock(isa, env, b, g).Next?
    decreases |b|
  {
    hide Step, Control, Plus;
    if |b| == 2 {
      if b[0].I? && b[0].op == 59 {
        assert Decoder.Dispatch(b[0]).Terminate?;
        TerminateStep(isa, env, b[0], g);
      } else {
        ControlLeaves(isa, env, b[0], b[1], g);
      }
    } else {
      match Step(isa, env, b[0], g) {
        case Next(g1) => BlockLeaves(isa, env, b[1..], g1.(pc := Plus(g1.pc, Value(4))));
        case Exit(_, _) =>
      }
    }
  }

  // ---- precise exits

  /** The first n instructions of a block. */
  function RunPrefix(isa: Isa, env: Env, b: seq<Ins>, n: nat, g: Guest): Result
    requires n <= |b|
    decreases n
  {
    if n == 0 then Next(g)
    else
      match Step(isa, env, b[0], g)
      case Next(g1) => RunPrefix(isa, env, b[1..], n - 1, g1.(pc := Plus(g1.pc, Value(4))))
      case e => e
  }

  /** What a faulting access may have recorded: the address and the direction, the pending store data, the broken link,
      the call-out. */
  ghost predicate OnlyRecords(g: Guest, g1: Guest) {
    g1 == g.(va := g1.va, llBit := g1.llBit, prot := g1.prot, data := g1.data, trace := g1.trace)
  }

  /** An instruction that leaves the block, other than eret and the terminator, has changed no register, no memory
      and not the PC. */
  lemma ExitKeepsState(isa: Isa, env: Env, i: Ins, g: Guest, m: int, g1: Guest)
    requires Step(isa, env, i, g) == Exit(m, g1) && m != FETCH_NEXT_BLOCK
    ensures OnlyRecords(g, g1)
  {
    EretLeavesForGood(g);
    hide ThreeReg, Shift, MulHi, MulLo, Immediate, Product, UnsignedProduct, Accumulator, Plus, Minus, SX32, SX16,
      LinkHolds, IsThreeReg, LoadValue, InUserMode, EretStep, IsExt, IsIns, IsShift, IsLoad, IsStore, IsImmediate,
      Registers;
  }

  lemma EretLeavesForGood(g: Guest)
    ensures EretStep(g).Exit? && (EretStep(g).mark == FETCH_NEXT_BLOCK || EretStep(g) == Exit(EXP_RI, g))
  {
    hide EretStatus;
  }

  /** Precise exits: when a block leaves because of an access, a trap or a system call, some number n of instructions
      ran completely, the PC is the address of instruction n (for a delay slot: of its branch), and nothing of the
      instruction that left is visible, except that a branch may already have linked. */
  lemma {:induction false} PreciseLeave(isa: Isa, env: Env, b: seq<Ins>, g: Guest, m: int, g1: Guest)
    returns (n: nat, gn: Guest)
    requires |b| >= 2 && RunBlock(isa, env, b, g) == Exit(m, g1) && m != FETCH_NEXT_BLOCK
    ensures n <= |b| - 2 && RunPrefix(isa, env, b, n, g) == Next(gn) && gn.pc == Advance(g.pc, n)
    ensures OnlyRecords(if n == |b| - 2 then SetGpr(gn, LinkRegister(b[n]), Plus(gn.pc, Value(8))) else gn, g1)
    decreases |b|
  {
    hide Step, Target, Taken, OnlyRecords, Plus;
    if |b| == 2 {
      n, gn := 0, g;
      if b[0].I? && b[0].op == 59 {
        assert Decoder.Dispatch(b[0]).Terminate?;
        TerminateStep(isa, env, b[0], g);
      } else {
        var linked := SetGpr(g, LinkRegister(b[0]), Plus(g.pc, Value(8)));
        ExitKeepsState(isa, env, b[1], linked, m, g1);
      }
    } else {
      StepKeepsPc(isa, env, b[0], g);
      n, gn := 0, g;
      match Step(isa, env, b[0], g) {
        case Next(next) =>
          n, gn := PreciseLeave(isa, env, b[1..], next.(pc := Plus(g.pc, Value(4))), m, g1);
          n := n + 1;
        case Exit(_, _) => ExitKeepsState(isa, env, b[0], g, m, g1);
      }
    }
  }
}
