/** From single instructions to whole blocks. */
module BlockSimulation {
  import opened Words
  import opened Instructions
  import opened Machine
  import opened HostMachine
  import opened GuestMachine
  import opened Emitters
  import opened HostSteps
  import opened Simulation
  import opened Faithfulness
  import opened MaddSimulation
  import Decoder

  // Shifts and immediates whose result is zero in every state.

  predicate ZeroShift(rs: int, rt: int, sa: int, func: int) {
    rs == 0 && rt == 0 && sa == 0 && (func == 60 || func == 62 || func == 63)
  }

  predicate ZeroImmediate(op: int, rs: int, imm: int) {
    (op == 12 && (rs == 0 || Half(imm) == 0)) || (op == 15 && Half(imm) == 0)
    || ((op == 8 || op == 9 || op == 13 || op == 14 || op == 24 || op == 25) && rs == 0 && Half(imm) == 0)
  }

  /** The instructions outside control position that are translated faithfully wherever Exact holds. Where a destination
      must not be $0, the emitter does not test for it. */
  predicate Supported(i: Ins) {
    WellFormed(i) && !Decoder.RotatePattern(i)
    && match Decoder.Dispatch(i)
       case UnprevR => IsThreeReg(i.op, i.func)
       case ShiftR => i.rd != 0 || ZeroShift(i.rs, i.rt, i.sa, i.func)
       case ExtR | SeqiSnei | InsR | Load | LoadLinked => i.rt != 0
       case UnprevI => i.rt != 0 || ZeroImmediate(i.op, i.rs, i.imm)
       case OneNop | NoCode => i.op == 47 || (i.R? && i.op == 0 && (i.func == 0 || i.func == 15))
       case MulDivR | Madd | MoveFromLoHi | Store | StoreConditional => true
       case TwoNops | TeqTne | TeqiTnei | Syscall | Break | TlbOp | Eret => true
       case _ => false
  }

  /** The states in which the emitted code is right: always, but for eret, sc and scd, maddu and msubu. */
  predicate Exact(isa: Isa, env: Env, i: Ins, g: Guest) {
    match i
    case R(op, rs, rt, _, _, func) =>
      if op == 16 then rs == 16 && func == 24 ==> EretExact(g)
      else op == 28 && (func == 1 || func == 5) ==> ProductsAgree(g.gpr(rs), g.gpr(rt))
    case I(op, _, _, _) => op == 56 || op == 60 ==> ConditionalExact(isa, env, i, g)
    case J(_, _) => true
  }

  lemma SupportedIsModelled(i: Ins)
    requires Supported(i)
    ensures WellFormed(i) && IsModelled(Decoder.Dispatch(i)) && !Decoder.RotatePattern(i)
  {
  }

  // ---- what Step does in each class

  lemma StepShift(isa: Isa, env: Env, i: Ins, g: Guest)
    requires Supported(i) && Decoder.Dispatch(i).ShiftR?
    ensures i.R? && i.op == 0 && IsShift(i.func)
    ensures Step(isa, env, i, g) == Next(SetGpr(g, i.rd, Shift(isa, i.func, i.rs, i.sa, g.gpr(i.rt))))
  {
    hide Shift, SetGpr;
  }

  lemma StepMulDiv(isa: Isa, env: Env, i: Ins, g: Guest)
    requires Supported(i) && Decoder.Dispatch(i).MulDivR?
    ensures i.R? && i.op == 0 && 24 <= i.func <= 31
    ensures Step(isa, env, i, g)
            == Next(g.(hi := MulHi(isa, i.func, g.gpr(i.rs), g.gpr(i.rt)),
                       lo := MulLo(isa, i.func, g.gpr(i.rs), g.gpr(i.rt))))
  {
    hide MulHi, MulLo;
  }

  lemma StepMove(isa: Isa, env: Env, i: Ins, g: Guest)
    requires Supported(i) && Decoder.Dispatch(i).MoveFromLoHi?
    ensures i.R? && (i.func == 16 || i.func == 18)
    ensures Step(isa, env, i, g) == Next(SetGpr(g, i.rd, if i.func == 16 then g.hi else g.lo))
  {
    hide SetGpr;
  }

  lemma StepThreeReg(isa: Isa, env: Env, i: Ins, g: Guest)
    requires Supported(i) && Decoder.Dispatch(i).UnprevR?
    ensures i.R? && IsThreeReg(i.op, i.func)
    ensures Step(isa, env, i, g)
            == Next(SetGpr(g, i.rd, ThreeReg(isa, i.op, i.func, i.sa, g.gpr(i.rs), g.gpr(i.rt), g.gpr(i.rd))))
  {
    hide ThreeReg, SetGpr;
  }

  lemma StepMadd(isa: Isa, env: Env, i: Ins, g: Guest)
    requires Supported(i) && Decoder.Dispatch(i).Madd?
    ensures i.R? && i.op == 28 && (i.func == 0 || i.func == 1 || i.func == 4 || i.func == 5)
    ensures var x, y := g.gpr(i.rs), g.gpr(i.rt);
      var p := if i.func == 0 || i.func == 4 then Product(x, y) else UnsignedProduct(x, y);
      Step(isa, env, i, g) == Next(SetAccumulator(g, Accumulated(i.func, Accumulator(g), p)))
  {
    hide Product, UnsignedProduct, Accumulator, SetAccumulator, Plus, Minus;
  }

  lemma StepExt(isa: Isa, env: Env, i: Ins, g: Guest)
    requires Supported(i) && (Decoder.Dispatch(i).ExtR? || Decoder.Dispatch(i).SeqiSnei?)
    ensures i.R? && IsExt(i.op, i.func)
    ensures Step(isa, env, i, g) == Next(SetGpr(g, i.rt, isa.ext(i.op, i.func, i.rd, i.sa, g.gpr(i.rs))))
  {
    hide SetGpr;
  }

  lemma StepIns(isa: Isa, env: Env, i: Ins, g: Guest)
    requires Supported(i) && Decoder.Dispatch(i).InsR?
    ensures i.R? && IsIns(i.op, i.func)
    ensures Step(isa, env, i, g) == Next(SetGpr(g, i.rt, isa.ins(i.op, i.func, i.rd, i.sa, g.gpr(i.rs), g.gpr(i.rt))))
  {
    hide SetGpr;
  }

  lemma StepImmediate(isa: Isa, env: Env, i: Ins, g: Guest)
    requires Supported(i) && Decoder.Dispatch(i).UnprevI?
    ensures i.I? && IsImmediate(i.op)
    ensures Step(isa, env, i, g)
            == Next(SetGpr(g, i.rt, Immediate(isa, i.op, if i.op == 15 then ZERO else g.gpr(i.rs), i.imm)))
  {
    hide SetGpr, Immediate;
  }

  lemma StepAccess(isa: Isa, env: Env, i: Ins, g: Guest)
    requires Supported(i)
    ensures Decoder.Dispatch(i).Load? ==> i.I? && IsLoad(i.op) && Step(isa, env, i, g) == LoadStep(isa, env, i, g)
    ensures Decoder.Dispatch(i).Store? ==> i.I? && IsStore(i.op) && Step(isa, env, i, g) == StoreStep(isa, env, i, g)
    ensures Decoder.Dispatch(i).LoadLinked? ==>
              i.I? && (i.op == 48 || i.op == 52) && Step(isa, env, i, g) == LinkedStep(isa, env, i, g)
    ensures Decoder.Dispatch(i).StoreConditional? ==>
              i.I? && (i.op == 56 || i.op == 60) && Step(isa, env, i, g) == ConditionalStep(isa, env, i, g)
  {
    hide LoadStep, StoreStep, LinkedStep, ConditionalStep;
  }

  lemma StepTraps(isa: Isa, env: Env, i: Ins, g: Guest)
    requires Supported(i)
    ensures Decoder.Dispatch(i).TeqTne? ==>
              i.R? && (i.func == 52 || i.func == 54)
              && Step(isa, env, i, g) == if (g.gpr(i.rs) == g.gpr(i.rt)) == (i.func == 52) then Exit(TRAP_INT, g)
                 else Next(g)
    ensures Decoder.Dispatch(i).TeqiTnei? ==>
              i.I? && (i.rt == 12 || i.rt == 14)
              && Step(isa, env, i, g) == if (g.gpr(i.rs) == SX32(SX16(i.imm))) == (i.rt == 12) then Exit(TRAP_INT, g)
                 else Next(g)
  {
    hide SX32, SX16, TlbStep, EretStep, Shift, SetGpr, ThreeReg, Product, UnsignedProduct, Accumulator, SetAccumulator,
      Plus, Minus, MulHi, MulLo, Immediate, LoadStep, StoreStep, LinkedStep, ConditionalStep;
  }

  lemma StepRequest(isa: Isa, env: Env, i: Ins, g: Guest)
    requires Supported(i)
    ensures Decoder.Dispatch(i).Syscall? ==> Step(isa, env, i, g) == Exit(SYSCALL_INT, g)
    ensures Decoder.Dispatch(i).Break? ==> Step(isa, env, i, g) == Exit(HANDLE_BR, g)
  {
    hide TlbStep, EretStep, Shift, SetGpr, ThreeReg, Product, UnsignedProduct, Accumulator, SetAccumulator, Plus, Minus,
      MulHi, MulLo, Immediate, LoadStep, StoreStep, LinkedStep, ConditionalStep;
  }

  lemma StepPrivileged(isa: Isa, env: Env, i: Ins, g: Guest)
    requires Supported(i)
    ensures Decoder.Dispatch(i).TlbOp? ==>
              i.R? && (i.func == 1 || i.func == 2 || i.func == 6 || i.func == 8)
              && Step(isa, env, i, g) == TlbStep(env, TlbMark(i.func), g)
    ensures Decoder.Dispatch(i).Eret? ==> Step(isa, env, i, g) == EretStep(g)
  {
    hide TlbStep, EretStep, Shift, SetGpr, ThreeReg, Product, UnsignedProduct, Accumulator, SetAccumulator, Plus, Minus,
      MulHi, MulLo, Immediate, LoadStep, StoreStep, LinkedStep, ConditionalStep;
  }

  lemma NothingFields(i: Ins)
    requires Supported(i) && (Decoder.Dispatch(i).OneNop? || Decoder.Dispatch(i).NoCode?
                              || Decoder.Dispatch(i).TwoNops?)
    ensures match i
            case R(op, _, _, rd, _, func) => op == 0 && ((func == 0 && rd == 0) || func == 15)
            case I(op, _, _, _) => op == 47 || op == 51
            case J(_, _) => false
  {
  }

  lemma StepNothing(isa: Isa, env: Env, i: Ins, g: Guest)
    requires Supported(i) && (Decoder.Dispatch(i).OneNop? || Decoder.Dispatch(i).NoCode?
                              || Decoder.Dispatch(i).TwoNops?)
    ensures Step(isa, env, i, g) == Next(g)
  {
    hide Shift, TlbStep, EretStep, Supported, Decoder.Dispatch;
    NothingFields(i);
  }

  // ---- one instruction

  lemma NopsRun(isa: Isa, env: Env, end: Value, code: seq<Ins>, k: seq<Ins>, g: Guest, h: Host) returns (h1: Host)
    requires (code == [] || code == [NOP] || code == [NOP, NOP]) && Rel(isa, end, g, h)
    ensures Simulates(isa, env, end, Next(g), code, k, h, h1)
  {
    hide Exec, Plain;
    h1 := h;
    PlainNop(isa, h);
    if code == [] {
      assert [] + k == k;
    } else if code == [NOP] {
      Line1(isa, env, NOP, k, h);
    } else {
      Line2(isa, env, NOP, NOP, k, h);
    }
  }

  // ---- a result for $0 that is zero in every state

  lemma ZeroBits(imm: int)
    ensures ShiftLeft32(ZERO) == ZERO && ShiftRight32(ZERO) == ZERO && Sra32(ZERO) == ZERO
            && SX32(Value(0 << 16)) == ZERO
    ensures And(ZERO, ZX16(imm)) == ZERO
  {
  }

  lemma ZeroHalf(imm: int)
    requires Half(imm) == 0
    ensures ZX16(imm) == ZERO && SX16(imm) == ZERO
  {
  }

  lemma ZeroArithmetic(x: Value)
    ensures And(x, ZERO) == ZERO && Or(ZERO, ZERO) == ZERO && Xor(ZERO, ZERO) == ZERO && Plus(ZERO, ZERO) == ZERO
    ensures SX32(ZERO) == ZERO
  {
  }

  lemma ZeroShiftValue(isa: Isa, rs: int, rt: int, sa: int, func: int)
    requires ZeroShift(rs, rt, sa, func)
    ensures Shift(isa, func, rs, sa, ZERO) == ZERO
  {
    ZeroBits(0);
    hide ShiftLeft32, ShiftRight32, Sra32;
  }

  lemma ZeroImmediateValue(isa: Isa, op: int, rs: int, imm: int, x: Value)
    requires ZeroImmediate(op, rs, imm) && (rs == 0 ==> x == ZERO)
    ensures Immediate(isa, op, if op == 15 then ZERO else x, imm) == ZERO
  {
    ZeroBits(imm);
    if Half(imm) == 0 { ZeroHalf(imm); }
    ZeroArithmetic(x);
    hide And, Or, Xor, Plus, SX32, SX16, ZX16, Half;
  }

  /** The destination of a result v: register $0 takes only zero. */
  lemma RelResult(isa: Isa, end: Value, g: Guest, h: Host, r: int, v: Value, h1: Host)
    requires Rel(isa, end, g, h) && 0 <= r < 32 && ReportFits(r, v) && Wrote(h, h1, Gp(r), v)
    ensures Rel(isa, end, SetGpr(g, r, v), h1) && KeepsTemps(h, h1)
  {
    if r > 0 {
      RelGpr(isa, end, g, h, r, v, h1);
    }
  }

  lemma ShiftSimulated(isa: Isa, env: Env, end: Value, i: Ins, k: seq<Ins>, g: Guest, h: Host) returns (h1: Host)
    requires Supported(i) && Rel(isa, end, g, h) && Decoder.Dispatch(i).ShiftR?
    ensures Simulates(isa, env, end, Step(isa, env, i, g), Emit(i), k, h, h1)
  {
    StepShift(isa, env, i, g);
    ShiftFields(i);
    hide Exec, Step, Shift, Emitters.ShiftR, SetGpr, Decoder.Dispatch, Supported;
    if i.rd == 0 {
      ZeroShiftValue(isa, i.rs, i.rt, i.sa, i.func);
    }
    h1 := RunShiftR(isa, env, i, k, h);
    RelResult(isa, end, g, h, i.rd, h1.slots(Gp(i.rd)), h1);
  }

  lemma ShiftFields(i: Ins)
    requires Supported(i) && Decoder.Dispatch(i).ShiftR?
    ensures i.R? && 0 <= i.rd < 32 && 0 <= i.rt < 32 && (i.rd != 0 || ZeroShift(i.rs, i.rt, i.sa, i.func))
  {
    hide ZeroShift;
  }

  lemma ImmediateFields(i: Ins)
    requires Supported(i) && Decoder.Dispatch(i).UnprevI?
    ensures i.I? && 0 <= i.rs < 32 && 0 <= i.rt < 32 && (i.rt != 0 || ZeroImmediate(i.op, i.rs, i.imm))
  {
    hide ZeroImmediate;
  }

  lemma ImmediateSimulated(isa: Isa, env: Env, end: Value, i: Ins, k: seq<Ins>, g: Guest, h: Host) returns (h1: Host)
    requires Supported(i) && Rel(isa, end, g, h) && Decoder.Dispatch(i).UnprevI?
    ensures Simulates(isa, env, end, Step(isa, env, i, g), Emit(i), k, h, h1)
  {
    StepImmediate(isa, env, i, g);
    ImmediateFields(i);
    hide Exec, Step, Immediate, Emitters.UnprevI, SetGpr, Decoder.Dispatch, Supported, ZeroImmediate;
    if i.rt == 0 {
      ZeroImmediateValue(isa, i.op, i.rs, i.imm, g.gpr(i.rs));
    }
    h1 := RunUnprevI(isa, env, i, k, h);
    RelResult(isa, end, g, h, i.rt, h1.slots(Gp(i.rt)), h1);
  }

  lemma MaddSimulated(isa: Isa, env: Env, end: Value, i: Ins, k: seq<Ins>, g: Guest, h: Host) returns (h1: Host)
    requires Supported(i) && Rel(isa, end, g, h) && Decoder.Dispatch(i).Madd? && Exact(isa, env, i, g)
    ensures Simulates(isa, env, end, Step(isa, env, i, g), Emit(i), k, h, h1)
  {
    StepMadd(isa, env, i, g);
    hide Exec, Step, Accumulator, SetAccumulator, Accumulated, Product, UnsignedProduct, ProductsAgree, Emitters.Madd;
    ProductExact(g.gpr(i.rs), g.gpr(i.rt));
    h1 := MaddRuns(isa, env, end, i, k, g, h);
  }

  lemma RegisterStepSimulated(isa: Isa, env: Env, end: Value, i: Ins, k: seq<Ins>, g: Guest, h: Host) returns (h1: Host)
    requires Supported(i) && Rel(isa, end, g, h) && Exact(isa, env, i, g)
    requires var d := Decoder.Dispatch(i);
      d.UnprevR? || d.ShiftR? || d.MulDivR? || d.Madd? || d.MoveFromLoHi? || d.ExtR? || d.SeqiSnei? || d.InsR?
          || d.UnprevI?
    ensures Simulates(isa, env, end, Step(isa, env, i, g), Emit(i), k, h, h1)
  {
    hide Exec, Step, Exact, ThreeReg, MulHi, MulLo, Emitters.UnprevR, Emitters.MulDivR, Emitters.ExtR, Emitters.InsR,
      SetGpr, Decoder.Dispatch;
    var d := Decoder.Dispatch(i);
    if d.UnprevR? {
      StepThreeReg(isa, env, i, g);
      h1 := UnprevRRuns(isa, env, end, i, k, g, h);
    } else if d.ShiftR? {
      h1 := ShiftSimulated(isa, env, end, i, k, g, h);
    } else if d.MulDivR? {
      StepMulDiv(isa, env, i, g);
      h1 := RunMulDivR(isa, env, i, k, h);
      RelHiLo(isa, end, g, h, h1.slots(HI), h1.slots(LO), h1);
    } else if d.Madd? {
      h1 := MaddSimulated(isa, env, end, i, k, g, h);
    } else if d.MoveFromLoHi? {
      StepMove(isa, env, i, g);
      h1 := MoveFromRuns(isa, env, end, i, k, g, h);
    } else if d.ExtR? || d.SeqiSnei? {
      StepExt(isa, env, i, g);
      h1 := RunExtR(isa, env, i, k, h);
      RelGpr(isa, end, g, h, i.rt, h1.slots(Gp(i.rt)), h1);
    } else if d.InsR? {
      StepIns(isa, env, i, g);
      h1 := RunInsR(isa, env, i, k, h);
      RelGpr(isa, end, g, h, i.rt, h1.slots(Gp(i.rt)), h1);
    } else {
      h1 := ImmediateSimulated(isa, env, end, i, k, g, h);
    }
  }

  lemma ExactConditional(isa: Isa, env: Env, i: Ins, g: Guest)
    requires Exact(isa, env, i, g) && Decoder.Dispatch(i).StoreConditional?
    ensures i.I? && ConditionalExact(isa, env, i, g)
  {
    hide ConditionalExact;
  }

  lemma ExactEret(isa: Isa, env: Env, i: Ins, g: Guest)
    requires Exact(isa, env, i, g) && Decoder.Dispatch(i).Eret?
    ensures EretExact(g)
  {
    hide EretExact;
  }

  lemma AccessStepSimulated(isa: Isa, env: Env, end: Value, i: Ins, k: seq<Ins>, g: Guest, h: Host) returns (h1: Host)
    requires Supported(i) && Rel(isa, end, g, h) && Exact(isa, env, i, g)
    requires var d := Decoder.Dispatch(i); d.Load? || d.Store? || d.LoadLinked? || d.StoreConditional?
    ensures Simulates(isa, env, end, Step(isa, env, i, g), Emit(i), k, h, h1)
  {
    hide Simulates, Rel, Exec, Step, Exact, LoadStep, StoreStep, LinkedStep, ConditionalStep, ConditionalExact,
      Emitters.Load, Emitters.Store, Emitters.LoadLinked, Emitters.StoreConditional, Decoder.Dispatch;
    StepAccess(isa, env, i, g);
    var d := Decoder.Dispatch(i);
    if d.Load? {
      h1 := LoadRuns(isa, env, end, i, k, g, h);
    } else if d.Store? {
      h1 := StoreRuns(isa, env, end, i, k, g, h);
    } else if d.LoadLinked? {
      h1 := LinkedRuns(isa, env, end, i, k, g, h);
    } else {
      ExactConditional(isa, env, i, g);
      h1 := ConditionalRuns(isa, env, end, i, k, g, h);
    }
  }

  lemma SystemStepSimulated(isa: Isa, env: Env, end: Value, i: Ins, k: seq<Ins>, g: Guest, h: Host) returns (h1: Host)
    requires Supported(i) && Rel(isa, end, g, h) && Exact(isa, env, i, g)
    requires var d := Decoder.Dispatch(i);
      d.OneNop? || d.TwoNops? || d.NoCode? || d.TeqTne? || d.TeqiTnei? || d.Syscall? || d.Break? || d.TlbOp? || d.Eret?
    ensures Simulates(isa, env, end, Step(isa, env, i, g), Emit(i), k, h, h1)
  {
    hide Simulates, Rel, Exec, Step, Exact, TlbStep, EretStep, EretExact, SX32, SX16, MarkValue, Emitters.TeqTne,
      Emitters.TeqiTnei, RequestC, Emitters.TlbOp, Emitters.Eret, Decoder.Dispatch;
    var d := Decoder.Dispatch(i);
    if d.TeqTne? {
      StepTraps(isa, env, i, g);
      h1 := TeqTneRuns(isa, env, end, i, k, g, h);
    } else if d.TeqiTnei? {
      StepTraps(isa, env, i, g);
      h1 := TeqiTneiRuns(isa, env, end, i, k, g, h);
    } else if d.Syscall? {
      StepRequest(isa, env, i, g);
      h1 := RequestRuns(isa, env, end, SYSCALL_INT, k, g, h);
    } else if d.Break? {
      StepRequest(isa, env, i, g);
      h1 := RequestRuns(isa, env, end, HANDLE_BR, k, g, h);
    } else if d.TlbOp? {
      StepPrivileged(isa, env, i, g);
      h1 := TlbOpRuns(isa, env, end, i, k, g, h);
    } else if d.Eret? {
      StepPrivileged(isa, env, i, g);
      ExactEret(isa, env, i, g);
      h1 := EretRuns(isa, env, end, k, g, h);
    } else {
      StepNothing(isa, env, i, g);
      h1 := NopsRun(isa, env, end, Emit(i), k, g, h);
    }
  }

  /** Instruction simulation: for every supported instruction where Exact holds, the emitted words take related states
      to related states, and leave for the C++ side exactly when the guest does, with the guest's state in the slots. */
  lemma StepSimulated(isa: Isa, env: Env, end: Value, i: Ins, k: seq<Ins>, g: Guest, h: Host) returns (h1: Host)
    requires Supported(i) && Exact(isa, env, i, g) && Rel(isa, end, g, h)
    ensures Simulates(isa, env, end, Step(isa, env, i, g), Emit(i), k, h, h1)
  {
    hide Simulates, Step, Emit, Rel, Exact, Decoder.Dispatch;
    var d := Decoder.Dispatch(i);
    if d.UnprevR? || d.ShiftR? || d.MulDivR? || d.Madd? || d.MoveFromLoHi? || d.ExtR? || d.SeqiSnei? || d.InsR?
        || d.UnprevI? {
      h1 := RegisterStepSimulated(isa, env, end, i, k, g, h);
    } else if d.Load? || d.Store? || d.LoadLinked? || d.StoreConditional? {
      h1 := AccessStepSimulated(isa, env, end, i, k, g, h);
    } else {
      h1 := SystemStepSimulated(isa, env, end, i, k, g, h);
    }
  }
}
