/** The supported instructions and the states in which they are translated faithfully are exactly the right ones. */
module Exactness {
  import opened Words
  import opened Instructions
  import opened Machine
  import opened HostMachine
  import opened GuestMachine
  import opened Emitters
  import opened HostSteps
  import opened Simulation
  import opened Faithfulness
  import opened MaddSimulation
  import opened BlockSimulation
  import Decoder

  /** The instructions the reference gives a meaning, by opcode and function, whose emitters are modelled. */
  predicate Described(i: Ins) {
    WellFormed(i) && IsModelled(Decoder.Dispatch(i)) && !Decoder.RotatePattern(i)
    && match i
       case R(op, rs, _, _, _, func) =>
         if op == 0 then
           IsThreeReg(0, func) || IsShift(func) || 24 <= func <= 31 || func == 16 || func == 18 // mult, div, mfhi, mflo
           || func == 12 || func == 13 || func == 15 || func == 52 || func == 54 // syscall, break, sync, teq, tne
         else if op == 28 then
           IsThreeReg(28, func) || func == 0 || func == 1 || func == 4 || func == 5 || IsExt(28, func)
               || IsIns(28, func)
         else if op == 31 then func <= 7 || IsThreeReg(31, func)
         else op == 16 && rs == 16 && (func == 1 || func == 2 || func == 6 || func == 8 || func == 24) // TLB, eret
       case I(op, _, rt, _) =>
         IsImmediate(op) || IsLoad(op) || IsStore(op) || op == 48 || op == 52 || op == 56 || op == 60
         || op == 47 || op == 51 || (op == 1 && (rt == 12 || rt == 14)) // cache, pref, teqi, tnei
       case J(_, _) => false
  }

  lemma SupportedIsDescribed(i: Ins)
    requires Supported(i)
    ensures Described(i)
  {
    SupportedIsModelled(i);
    if i.R? {
      SupportedRegister(i);
    } else if i.I? {
      SupportedImmediate(i);
    }
  }

  lemma SupportedRegister(i: Ins)
    requires Supported(i) && i.R?
    ensures Described(i)
  {
    SupportedIsModelled(i);
    hide ZeroShift;
  }

  lemma SupportedImmediate(i: Ins)
    requires Supported(i) && i.I?
    ensures Described(i)
  {
    SupportedIsModelled(i);
    hide ZeroImmediate;
  }

  /** The emitted code does what the instruction means in every state where Exact holds, under every instruction set
      interpretation and in every environment. */
  ghost predicate AlwaysFaithful(i: Ins)
    requires Described(i)
  {
    forall isa, env, end, g, h :: Rel(isa, end, g, h) && Exact(isa, env, i, g) ==>
      Faithful(isa, env, end, Step(isa, env, i, g), Emit(i), h)
  }

  lemma StepFaithful(isa: Isa, env: Env, end: Value, i: Ins, g: Guest, h: Host)
    requires Supported(i) && Rel(isa, end, g, h) && Exact(isa, env, i, g) && Described(i)
    ensures Faithful(isa, env, end, Step(isa, env, i, g), Emit(i), h)
  {
    hide Simulates, Step, Emit, Rel, Exact, Supported, Decoder.Dispatch, IsModelled, Decoder.RotatePattern;
    forall k ensures Reaches(isa, env, end, Step(isa, env, i, g), Emit(i), k, h) {
      var h1 := StepSimulated(isa, env, end, i, k, g, h);
    }
  }

  // ---- in the states Exact excludes, the code is wrong

  lemma InexactKind(isa: Isa, env: Env, i: Ins, g: Guest)
    requires Supported(i) && !Exact(isa, env, i, g)
    ensures Decoder.Dispatch(i).Eret? || Decoder.Dispatch(i).StoreConditional? || Decoder.Dispatch(i).Madd?
    ensures Decoder.Dispatch(i).Eret? ==> !EretExact(g)
    ensures Decoder.Dispatch(i).StoreConditional? ==>
              i.I? && 0 <= i.rs < 32 && 0 <= i.rt < 32 && !ConditionalExact(isa, env, i, g)
    ensures Decoder.Dispatch(i).Madd? ==>
              i.R? && 0 <= i.rs < 32 && 0 <= i.rt < 32 && (i.func == 1 || i.func == 5)
              && !ProductsAgree(g.gpr(i.rs), g.gpr(i.rt))
  {
    hide EretExact, ConditionalExact, ProductsAgree;
  }

  /** The emitted code of a supported instruction is right in a state if and only if Exact holds there. */
  lemma StepExactly(isa: Isa, env: Env, end: Value, i: Ins, g: Guest, h: Host)
    requires Supported(i) && Rel(isa, end, g, h)
    ensures Described(i)
    ensures Faithful(isa, env, end, Step(isa, env, i, g), Emit(i), h) <==> Exact(isa, env, i, g)
  {
    SupportedIsDescribed(i);
    hide Step, Rel, Exact, Supported, Decoder.Dispatch, Faithful, EretExact, ConditionalExact, ProductsAgree, EretStep,
      ConditionalStep, SetAccumulator, Accumulated, Accumulator, UnsignedProduct, Product, Emitters.Eret, Emitters.Madd,
      Emitters.StoreConditional, Decoder.RotatePattern;
    if Exact(isa, env, i, g) {
      StepFaithful(isa, env, end, i, g, h);
      return;
    }
    InexactKind(isa, env, i, g);
    if Decoder.Dispatch(i).Eret? {
      StepPrivileged(isa, env, i, g);
      EretExactly(isa, env, end, g, h);
    } else if Decoder.Dispatch(i).StoreConditional? {
      StepAccess(isa, env, i, g);
      ConditionalExactly(isa, env, end, i, g, h);
    } else {
      StepMadd(isa, env, i, g);
      UnsignedExact(isa, env, end, i, g, h);
    }
  }

  // ---- the described instructions that are not supported

  /** A register value no described instruction turns into zero by accident. */
  function Pattern(): Value { Value(0x0001_FFFF_0001_FFFF) }

  lemma XShifted()
    ensures ShiftLeft32(Pattern()) != ZERO && ShiftRight32(Pattern()) != ZERO && Sra32(Pattern()) != ZERO
  {
  }

  lemma XSum(v: bv16)
    ensures SX32(Plus(Pattern(), Value(SignExtend16(v)))) != ZERO && Plus(Pattern(), Value(SignExtend16(v))) != ZERO
  {
  }

  lemma XLogical(v: bv16)
    ensures Or(Pattern(), Value(v as bv64)) != ZERO && Xor(Pattern(), Value(v as bv64)) != ZERO
  {
  }

  lemma XMasked(v: bv16)
    requires v != 0
    ensures And(Pattern(), Value(v as bv64)) != ZERO
  {
  }

  lemma NonzeroSum(v: bv16)
    requires v != 0
    ensures SX32(Value(SignExtend16(v))) != ZERO && Value(SignExtend16(v)) != ZERO
  {
  }

  lemma NonzeroLogical(v: bv16)
    requires v != 0
    ensures Or(ZERO, Value(v as bv64)) != ZERO && Xor(ZERO, Value(v as bv64)) != ZERO
  {
  }

  lemma NonzeroUpper(v: bv16)
    requires v != 0
    ensures SX32(Value((v as bv64) << 16)) != ZERO
  {
  }

  lemma SumFieldNotZero(imm: int)
    requires Half(imm) != 0
    ensures SX32(SX16(imm)) != ZERO && SX16(imm) != ZERO
  {
    NonzeroSum(Half(imm));
    hide SX32, SignExtend16, Half;
  }

  lemma LogicalFieldNotZero(imm: int)
    requires Half(imm) != 0
    ensures Or(ZERO, ZX16(imm)) != ZERO && Xor(ZERO, ZX16(imm)) != ZERO
  {
    NonzeroLogical(Half(imm));
    hide Or, Xor, Half;
  }

  lemma MaskedFieldNotZero(imm: int)
    requires Half(imm) != 0
    ensures And(Pattern(), ZX16(imm)) != ZERO
  {
    XMasked(Half(imm));
    hide And, Half;
  }

  lemma UpperFieldNotZero(imm: int)
    requires Half(imm) != 0
    ensures SX32(Value(ZX16(imm).bits << 16)) != ZERO
  {
    NonzeroUpper(Half(imm));
    hide SX32, Half;
  }

  lemma SumNotZero(op: int, x: Value, imm: int)
    requires op == 8 || op == 9 || op == 24 || op == 25
    requires x == Pattern() || (x == ZERO && Half(imm) != 0)
    ensures Immediate(OneIsa(), op, x, imm) != ZERO
  {
    if x == ZERO {
      SumFieldNotZero(imm);
      PlusZero(SX16(imm));
    }
    XSum(Half(imm));
    assert SX16(imm) == Value(SignExtend16(Half(imm)));
    hide Plus, SX32, SX16, SignExtend16, Half, Pattern;
  }

  lemma LogicalNotZero(op: int, x: Value, imm: int)
    requires op == 13 || op == 14
    requires x == Pattern() || (x == ZERO && Half(imm) != 0)
    ensures Immediate(OneIsa(), op, x, imm) != ZERO
  {
    if x == ZERO {
      LogicalFieldNotZero(imm);
    }
    XLogical(Half(imm));
    assert ZX16(imm) == Value(Half(imm) as bv64);
    hide Or, Xor, ZX16, Half, Pattern;
  }

  lemma MaskNotZero(imm: int)
    requires Half(imm) != 0
    ensures Immediate(OneIsa(), 12, Pattern(), imm) != ZERO && Immediate(OneIsa(), 15, ZERO, imm) != ZERO
  {
    MaskedFieldNotZero(imm);
    UpperFieldNotZero(imm);
    hide And, SX32, ZX16, Half, Pattern;
  }

  /** Every immediate instruction but those of ZeroImmediate gives something else than zero on zero or Pattern. */
  lemma ImmediateNotZero(op: int, rs: int, imm: int)
    requires IsImmediate(op) && !ZeroImmediate(op, rs, imm)
    ensures Immediate(OneIsa(), op, if op == 15 || rs == 0 then ZERO else Pattern(), imm) != ZERO
  {
    if op == 10 || op == 11 {
      return;
    }
    hide Immediate, Half, Pattern, OneIsa;
    var x := if op == 15 || rs == 0 then ZERO else Pattern();
    if op == 12 || op == 15 {
      MaskNotZero(imm);
    } else if op == 13 || op == 14 {
      LogicalNotZero(op, x, imm);
    } else {
      SumNotZero(op, x, imm);
    }
  }

  lemma ShiftNotZero(rs: int, rt: int, sa: int, func: int)
    requires IsShift(func) && !ZeroShift(rs, rt, sa, func)
    ensures Shift(OneIsa(), func, rs, sa, if rt == 0 then ZERO else Pattern()) != ZERO
  {
    XShifted();
    hide ShiftLeft32, ShiftRight32, Sra32;
  }

  lemma ShiftFails(i: Ins, g: Guest, h: Host)
    requires i.R? && i.op == 0 && IsShift(i.func) && 0 <= i.rt < 32 && i.rd == 0 && !ZeroShift(i.rs, i.rt, i.sa, i.func)
    requires Rel(OneIsa(), ZERO, g, h) && g.gpr(i.rt) == if i.rt == 0 then ZERO else Pattern()
    ensures !Faithful(OneIsa(), RefusingEnv(), ZERO, Next(g), Emitters.ShiftR(i), h)
  {
    hide Exec, Shift, ZeroShift, Faithful, ExitC, Emitters.ShiftR, IsShift;
    var h1 := RunShiftR(OneIsa(), RefusingEnv(), i, ExitC(), h);
    ShiftNotZero(i.rs, i.rt, i.sa, i.func);
    assert h.slots(Gp(i.rt)) == g.gpr(i.rt);
    hide Rel, OneIsa;
    ZeroSlotWritten(OneIsa(), RefusingEnv(), ZERO, g, Emitters.ShiftR(i), h, h1.slots(Gp(0)), h1);
  }

  lemma ImmediateFails(i: Ins, g: Guest, h: Host)
    requires i.I? && WellFormed(i) && IsImmediate(i.op) && i.rt == 0 && !ZeroImmediate(i.op, i.rs, i.imm)
    requires Rel(OneIsa(), ZERO, g, h) && g.gpr(i.rs) == if i.rs == 0 then ZERO else Pattern()
    ensures !Faithful(OneIsa(), RefusingEnv(), ZERO, Next(g), Emitters.UnprevI(i), h)
  {
    hide Exec, Immediate, ZeroImmediate, Faithful, ExitC, Emitters.UnprevI, IsImmediate;
    var h1 := RunUnprevI(OneIsa(), RefusingEnv(), i, ExitC(), h);
    ImmediateNotZero(i.op, i.rs, i.imm);
    assert h.slots(Gp(i.rs)) == g.gpr(i.rs);
    hide Rel, OneIsa;
    ZeroSlotWritten(OneIsa(), RefusingEnv(), ZERO, g, Emitters.UnprevI(i), h, h1.slots(Gp(0)), h1);
  }

  lemma FieldFails(i: Ins, g: Guest, h: Host)
    requires i.R? && i.rt == 0 && Rel(OneIsa(), ZERO, g, h)
    ensures IsExt(i.op, i.func) ==> !Faithful(OneIsa(), RefusingEnv(), ZERO, Next(g), Emitters.ExtR(i), h)
    ensures IsIns(i.op, i.func) ==> !Faithful(OneIsa(), RefusingEnv(), ZERO, Next(g), Emitters.InsR(i), h)
  {
    hide Exec, Faithful, ExitC, Emitters.ExtR, Emitters.InsR, Rel;
    if IsExt(i.op, i.func) {
      var h1 := RunExtR(OneIsa(), RefusingEnv(), i, ExitC(), h);
      ZeroSlotWritten(OneIsa(), RefusingEnv(), ZERO, g, Emitters.ExtR(i), h, ONE, h1);
    }
    if IsIns(i.op, i.func) {
      var h1 := RunInsR(OneIsa(), RefusingEnv(), i, ExitC(), h);
      ZeroSlotWritten(OneIsa(), RefusingEnv(), ZERO, g, Emitters.InsR(i), h, ONE, h1);
    }
  }

  /** A load to $0 skips the translation, and with it the fault, in every state. */
  lemma LoadFails(isa: Isa, env: Env, end: Value, i: Ins, g: Guest, h: Host)
    requires i.I? && i.rt == 0 && Rel(isa, end, g, h)
    ensures !Faithful(isa, env, end, LoadStep(isa, env, i, g), Emitters.Load(i), h)
  {
    hide Exec, Faithful, ExitC, Plain, LoadValue, Plus, SX16, Registers;
    PlainNop(isa, h);
    Line1(isa, env, NOP, ExitC(), h);
    var r := LoadStep(isa, env, i, g);
    TraceGrows(g.trace, r.guest.trace.last);
    assert !Rel(isa, end, r.guest, h);
    NotFaithful(isa, env, end, r, Emitters.Load(i), h, h);
  }

  // ll and lld to $0: the load goes through whatever address the host register happens to hold.
  lemma RunLinkedZero(isa: Isa, env: Env, i: Ins, k: seq<Ins>, h: Host) returns (h1: Host)
    requires i.I? && i.rt == 0 && h.regs(0) == ZERO
    ensures Exec(isa, env, Emitters.LoadLinked(i) + k, h) == Exec(isa, env, k, h1)
    ensures h1.trace == h.trace && h1.regs(0) == ZERO && h1.slots(C_LABEL) == h.slots(C_LABEL)
  {
    hide Plain, PlainI, PlainR, Exec, LoadValue;
    var op := if i.op == 48 then LW else LD;
    var rest := [NOP, I(op, T1, T2, 0), Put(T2, Gp(i.rt)), Put(T2, LL_DATA)];
    Assoc([I(ADDI, 0, T3, 1), Put(T3, LLBIT)], rest, k);
    var a := RunLinkBit(isa, env, rest + k, h);
    PlainNop(isa, a);
    PlainLoad(isa, op, T1, T2, a);
    h1 := SetReg(a, T2, LoadValue(isa, op, a.mem, a.regs(T1), a.regs(T2)));
    PlainPut(isa, T2, Gp(i.rt), h1);
    h1 := SetSlot(h1, Gp(i.rt), h1.regs(T2));
    PlainPut(isa, T2, LL_DATA, h1);
    h1 := SetSlot(h1, LL_DATA, h1.regs(T2));
    Line4(isa, env, NOP, I(op, T1, T2, 0), Put(T2, Gp(i.rt)), Put(T2, LL_DATA), k, a);
  }

  lemma LinkedFails(isa: Isa, env: Env, end: Value, i: Ins, g: Guest, h: Host)
    requires i.I? && i.rt == 0 && Rel(isa, end, g, h)
    ensures !Faithful(isa, env, end, LinkedStep(isa, env, i, g), Emitters.LoadLinked(i), h)
  {
    hide Exec, Faithful, ExitC, LoadValue, Plus, SX16, Registers, Emitters.LoadLinked;
    var h1 := RunLinkedZero(isa, env, i, ExitC(), h);
    var r := LinkedStep(isa, env, i, g);
    TraceGrows(g.trace, r.guest.trace.last);
    assert !Rel(isa, end, r.guest, h1);
    NotFaithful(isa, env, end, r, Emitters.LoadLinked(i), h, h1);
  }

  lemma UnsupportedKind(i: Ins)
    requires Described(i) && !Supported(i)
    ensures Exact(OneIsa(), RefusingEnv(), i, PlainGuest(Pattern(), ZERO, ZERO))
    ensures var d := Decoder.Dispatch(i);
      || (d.ShiftR? && i.R? && i.op == 0 && IsShift(i.func) && i.rd == 0 && !ZeroShift(i.rs, i.rt, i.sa, i.func))
      || ((d.ExtR? || d.SeqiSnei?) && i.R? && i.rt == 0 && IsExt(i.op, i.func))
      || (d.InsR? && i.R? && i.rt == 0 && IsIns(i.op, i.func))
      || (d.UnprevI? && i.I? && IsImmediate(i.op) && i.rt == 0 && !ZeroImmediate(i.op, i.rs, i.imm))
      || (d.Load? && i.I? && i.rt == 0 && IsLoad(i.op))
      || (d.LoadLinked? && i.I? && i.rt == 0 && (i.op == 48 || i.op == 52))
  {
    hide EretExact, ConditionalExact, ProductsAgree, OneIsa, RefusingEnv, PlainGuest;
  }

  /** Step on the unsupported instructions. */
  lemma UnsupportedStep(isa: Isa, env: Env, i: Ins, g: Guest)
    requires Described(i)
    ensures var d := Decoder.Dispatch(i);
      && (d.ShiftR? && i.R? && i.op == 0 && IsShift(i.func) && i.rd == 0 ==> Step(isa, env, i, g) == Next(g))
      && (i.R? && (IsExt(i.op, i.func) || IsIns(i.op, i.func)) && i.rt == 0 ==> Step(isa, env, i, g) == Next(g))
      && (i.I? && IsImmediate(i.op) && i.rt == 0 ==> Step(isa, env, i, g) == Next(g))
      && (i.I? && IsLoad(i.op) ==> Step(isa, env, i, g) == LoadStep(isa, env, i, g))
      && (i.I? && (i.op == 48 || i.op == 52) ==> Step(isa, env, i, g) == LinkedStep(isa, env, i, g))
  {
    hide TlbStep, EretStep, Shift, ThreeReg, Product, UnsignedProduct, Accumulator, SetAccumulator, Plus, Minus, MulHi,
      MulLo, Immediate, LoadStep, StoreStep, LinkedStep, ConditionalStep, Decoder.Dispatch;
  }

  lemma EmittedUnsupported(i: Ins)
    requires Described(i)
    ensures var d := Decoder.Dispatch(i);
      && (d.ShiftR? && i.R? ==> Emit(i) == Emitters.ShiftR(i))
      && ((d.ExtR? || d.SeqiSnei?) && i.R? ==> Emit(i) == Emitters.ExtR(i))
      && (d.InsR? && i.R? ==> Emit(i) == Emitters.InsR(i))
      && (d.UnprevI? && i.I? ==> Emit(i) == Emitters.UnprevI(i))
      && (d.Load? && i.I? ==> Emit(i) == Emitters.Load(i))
      && (d.LoadLinked? && i.I? ==> Emit(i) == Emitters.LoadLinked(i))
  {
    hide Decoder.Dispatch, Emitters.ShiftR, Emitters.ExtR, Emitters.InsR, Emitters.UnprevI, Emitters.Load,
      Emitters.LoadLinked;
  }

  lemma UnsupportedFails(i: Ins)
    requires Described(i) && !Supported(i)
    ensures !AlwaysFaithful(i)
  {
    UnsupportedKind(i);
    var isa, env, g := OneIsa(), RefusingEnv(), PlainGuest(Pattern(), ZERO, ZERO);
    var h := HostFor(isa, ZERO, g);
    HostForRel(isa, ZERO, g);
    UnsupportedStep(isa, env, i, g);
    EmittedUnsupported(i);
    assert WellFormed(i);
    hide Supported, Described, Rel, Faithful, Exact, Step, Emit, LoadStep, LinkedStep, Decoder.Dispatch,
      Emitters.ShiftR, Emitters.ExtR, Emitters.InsR, Emitters.UnprevI, Emitters.Load, Emitters.LoadLinked, HostFor,
      OneIsa, RefusingEnv, Pattern, ZeroShift, ZeroImmediate, IsShift, IsExt, IsIns, IsImmediate, IsLoad;
    var d := Decoder.Dispatch(i);
    if d.ShiftR? {
      ShiftFails(i, g, h);
    } else if d.ExtR? || d.SeqiSnei? || d.InsR? {
      FieldFails(i, g, h);
    } else if d.UnprevI? {
      ImmediateFails(i, g, h);
    } else if d.Load? {
      LoadFails(isa, env, ZERO, i, g, h);
    } else {
      LinkedFails(isa, env, ZERO, i, g, h);
    }
    assert !Faithful(isa, env, ZERO, Step(isa, env, i, g), Emit(i), h);
  }

  /** Of the instructions the reference describes, the supported ones are exactly those whose emitted code does what
      they mean in every state where Exact holds. */
  lemma SupportedExactly(i: Ins)
    requires Described(i)
    ensures Supported(i) <==> AlwaysFaithful(i)
  {
    assert IsModelled(Decoder.Dispatch(i)) && !Decoder.RotatePattern(i);
    hide Supported, Described, Rel, Faithful, Exact, Step, Emit, Decoder.Dispatch, IsModelled, Decoder.RotatePattern;
    if Supported(i) {
      forall isa, env, end, g, h | Rel(isa, end, g, h) && Exact(isa, env, i, g)
        ensures Faithful(isa, env, end, Step(isa, env, i, g), Emit(i), h) {
        StepFaithful(isa, env, end, i, g, h);
      }
    } else {
      UnsupportedFails(i);
    }
  }

  /** One instruction of each kind whose destination $0 the emitter does not test for: sll $0, $1, 4; ext $0, $1, 2, 4;
      ins $0, $1, 2, 4; andi $0, $1, 1; lw $0, 0($1); ll $0, 0($1). */
  lemma ZeroRegisterFails()
    ensures var i := R(0, 0, 1, 0, 4, 0); Described(i) && !AlwaysFaithful(i)
    ensures var i := R(31, 1, 0, 3, 2, 0); Described(i) && !AlwaysFaithful(i)
    ensures var i := R(31, 1, 0, 5, 2, 4); Described(i) && !AlwaysFaithful(i)
    ensures var i := I(12, 1, 0, 1); Described(i) && !AlwaysFaithful(i)
    ensures var i := I(35, 1, 0, 0); Described(i) && !AlwaysFaithful(i)
    ensures var i := I(48, 1, 0, 0); Described(i) && !AlwaysFaithful(i)
  {
    ZeroRegisterKinds();
    hide Described, Supported, AlwaysFaithful;
    UnsupportedFails(R(0, 0, 1, 0, 4, 0));
    UnsupportedFails(R(31, 1, 0, 3, 2, 0));
    UnsupportedFails(R(31, 1, 0, 5, 2, 4));
    UnsupportedFails(I(12, 1, 0, 1));
    UnsupportedFails(I(35, 1, 0, 0));
    UnsupportedFails(I(48, 1, 0, 0));
  }

  lemma ZeroRegisterKinds()
    ensures Described(R(0, 0, 1, 0, 4, 0)) && !Supported(R(0, 0, 1, 0, 4, 0))
    ensures Described(R(31, 1, 0, 3, 2, 0)) && !Supported(R(31, 1, 0, 3, 2, 0))
    ensures Described(R(31, 1, 0, 5, 2, 4)) && !Supported(R(31, 1, 0, 5, 2, 4))
    ensures Described(I(12, 1, 0, 1)) && !Supported(I(12, 1, 0, 1))
    ensures Described(I(35, 1, 0, 0)) && !Supported(I(35, 1, 0, 0))
    ensures Described(I(48, 1, 0, 0)) && !Supported(I(48, 1, 0, 0))
  {
    OneIsOdd();
  }

  lemma OneIsOdd()
    ensures Half(1) != 0
  {
  }

  /** sc $0: in a state in which the link holds and the page may be written, the report 1 goes to the slot of $0. */
  lemma ConditionalZeroFails(isa: Isa, env: Env, end: Value, sc: Ins, g: Guest, h: Host)
    requires sc.I? && WellFormed(sc) && sc.rt == 0 && Rel(isa, end, g, h) && MayStore(env, sc, g)
    ensures Faithful(isa, env, end, ConditionalStep(isa, env, sc, g), StoreConditional(sc), h)
            <==> !LinkHolds(isa, sc, g)
  {
    hide Rel, Faithful, ConditionalStep, StoreConditional, MayStore, LinkHolds;
    ConditionalExactly(isa, env, end, sc, g, h);
  }
}
