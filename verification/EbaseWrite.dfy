/** The emitted mtc0 to EBase, from its words to the vectors. */
module EbaseWrite {
  import opened Words
  import opened Instructions
  import opened Machine
  import opened HostMachine
  import opened Emitters
  import opened HostSteps
  import opened Simulation
  import opened MaddSimulation
  import opened Exceptions

  function EbaseMask(): Value { Value(0xFFFF_FFFF_BFFE_F3FF) }

  function EbaseTop(): Value { Value(0xFFFF_FFFF_8000_0000) }

  /** What the words make of v, the register with the core number put in. */
  function EmittedEbase(v: Value): Value { SX32(Or(EbaseTop(), And(EbaseMask(), v))) }

  lemma EbaseConstantBits()
    ensures SX32(Value((0xBFFF as bv64) << 16)) == Value(0xFFFF_FFFF_BFFF_0000)
    ensures SX32(Value((0x8000 as bv64) << 16)) == EbaseTop()
    ensures SX32(Plus(Value(0xFFFF_FFFF_BFFF_0000), Value(0xFFFF_FFFF_FFFF_F3FF))) == EbaseMask()
    ensures SX32(Plus(EbaseTop(), ZERO)) == EbaseTop()
  {
  }

  // lui and addi: the mask loses bit 16 to the borrow.
  lemma EbaseConstants(isa: Isa)
    ensures Immediate(isa, ADDI, Immediate(isa, LUI, ZERO, 0xBFFF), 0xF3FF) == EbaseMask()
    ensures Immediate(isa, ADDI, Immediate(isa, LUI, ZERO, 0x8000), 0) == EbaseTop()
  {
    hide SX32, Plus, EbaseMask, EbaseTop;
    EbaseConstantBits();
    assert SX16(0xF3FF) == Value(0xFFFF_FFFF_FFFF_F3FF);
    assert SX16(0) == ZERO;
  }

  lemma RunInsertCore(isa: Isa, env: Env, source: int, k: seq<Ins>, h: Host) returns (h1: Host)
    ensures Exec(isa, env, [Fetch(T1, Gp(source)), Fetch(T2, EBASE_SLOT), R(31, T2, T1, 9, 0, 4)] + k, h)
            == Exec(isa, env, k, h1)
    ensures SameSlots(h, h1) && h1.regs(T1) == isa.ins(31, 4, 9, 0, h.slots(EBASE_SLOT), h.slots(Gp(source)))
  {
    hide Plain, PlainI, PlainR, Exec;
    PlainFetch(isa, T1, Gp(source), h);
    h1 := SetReg(h, T1, h.slots(Gp(source)));
    PlainFetch(isa, T2, EBASE_SLOT, h1);
    h1 := SetReg(h1, T2, h1.slots(EBASE_SLOT));
    PlainIns(isa, 31, T2, T1, 9, 0, 4, h1);
    h1 := SetReg(h1, T1, isa.ins(31, 4, 9, 0, h1.regs(T2), h1.regs(T1)));
    Line3(isa, env, Fetch(T1, Gp(source)), Fetch(T2, EBASE_SLOT), R(31, T2, T1, 9, 0, 4), k, h);
  }

  // lui, addi and a logical operation (36: and, 37: or) with the constant.
  lemma RunConstant(isa: Isa, env: Env, upper: int, lower: int, func: int, k: seq<Ins>, h: Host) returns (h1: Host)
    requires h.regs(0) == ZERO && (func == 36 || func == 37)
    ensures Exec(isa, env, [I(LUI, 0, T2, upper), I(ADDI, T2, T2, lower), R(0, T2, T1, T1, 0, func)] + k, h)
            == Exec(isa, env, k, h1)
    ensures var c := Immediate(isa, ADDI, Immediate(isa, LUI, ZERO, upper), lower);
      SameSlots(h, h1) && h1.regs(T1) == if func == 36 then And(c, h.regs(T1)) else Or(c, h.regs(T1))
  {
    hide Plain, PlainI, PlainR, Exec, Immediate, And, Or;
    PlainImmediate(isa, LUI, 0, T2, upper, h);
    h1 := SetReg(h, T2, Immediate(isa, LUI, ZERO, upper));
    PlainImmediate(isa, ADDI, T2, T2, lower, h1);
    h1 := SetReg(h1, T2, Immediate(isa, ADDI, h1.regs(T2), lower));
    PlainThree(isa, 0, T2, T1, T1, 0, func, h1);
    h1 := SetReg(h1, T1, if func == 36 then And(h1.regs(T2), h1.regs(T1)) else Or(h1.regs(T2), h1.regs(T1)));
    Line3(isa, env, I(LUI, 0, T2, upper), I(ADDI, T2, T2, lower), R(0, T2, T1, T1, 0, func), k, h);
  }

  lemma RunExtendAndPut(isa: Isa, env: Env, o: int, k: seq<Ins>, h: Host) returns (h1: Host)
    ensures Exec(isa, env, [R(0, 0, T1, T1, 0, 60), R(0, 0, T1, T1, 0, 63), Put(T1, o)] + k, h) == Exec(isa, env, k, h1)
    ensures Wrote(h, h1, o, SX32(h.regs(T1)))
  {
    hide Plain, PlainI, PlainR, Exec, ShiftLeft32, Sra32, SX32;
    RunShift32(isa, T1, T1, 60, h);
    h1 := SetReg(h, T1, ShiftLeft32(h.regs(T1)));
    RunShift32(isa, T1, T1, 63, h1);
    SignExtendByShifts(h.regs(T1));
    h1 := SetReg(h1, T1, SX32(h.regs(T1)));
    PlainPut(isa, T1, o, h1);
    h1 := SetSlot(h1, o, h1.regs(T1));
    Line3(isa, env, R(0, 0, T1, T1, 0, 60), R(0, 0, T1, T1, 0, 63), Put(T1, o), k, h);
  }

  lemma EbaseBits(v: bv64)
    ensures EbaseOk(EmittedEbase(Value(v)).bits)
  {
  }

  /** The emitted mtc0 changes the slot of EBase and nothing else, and whatever was written and whatever the insertion
      of the core number makes of it, the new EBase is one whose vectors can be fetched. */
  lemma RunWriteEbase(isa: Isa, env: Env, source: int, k: seq<Ins>, h: Host) returns (h1: Host)
    requires h.regs(0) == ZERO
    ensures Exec(isa, env, WriteEbase(source) + k, h) == Exec(isa, env, k, h1)
    ensures Wrote(h, h1, EBASE_SLOT, EmittedEbase(isa.ins(31, 4, 9, 0, h.slots(EBASE_SLOT), h.slots(Gp(source)))))
    ensures EbaseOk(h1.slots(EBASE_SLOT).bits)
  {
    hide Exec, Immediate, And, Or, SX32, EbaseOk, EbaseMask, EbaseTop;
    var c1 := [Fetch(T1, Gp(source)), Fetch(T2, EBASE_SLOT), R(31, T2, T1, 9, 0, 4)];
    var c2 := [I(LUI, 0, T2, 0xBFFF), I(ADDI, T2, T2, 0xF3FF), R(0, T2, T1, T1, 0, 36)];
    var c3 := [I(LUI, 0, T2, 0x8000), I(ADDI, T2, T2, 0), R(0, T2, T1, T1, 0, 37)];
    var c4 := [R(0, 0, T1, T1, 0, 60), R(0, 0, T1, T1, 0, 63), Put(T1, EBASE_SLOT)];
    Assoc(c1, c2 + (c3 + c4), k);
    Assoc(c2, c3 + c4, k);
    Assoc(c3, c4, k);
    EbaseConstants(isa);
    var a := RunInsertCore(isa, env, source, c2 + (c3 + (c4 + k)), h);
    EbaseBits(a.regs(T1).bits);
    var b := RunConstant(isa, env, 0xBFFF, 0xF3FF, 36, c3 + (c4 + k), a);
    var c := RunConstant(isa, env, 0x8000, 0, 37, c4 + k, b);
    h1 := RunExtendAndPut(isa, env, EBASE_SLOT, k, c);
  }

  /** EBase as the architecture keeps what is written: bits 29 to 12 and the core number. */
  function ArchitecturalEbase(v: Value): Value { Value((v.bits & 0x3FFF_F3FF) | 0xFFFF_FFFF_8000_0000) }

  lemma EbaseKept(v: Value)
    requires v.bits & 0x1_0000 == 0
    ensures EmittedEbase(v) == ArchitecturalEbase(v)
  {
  }

  lemma EbaseLost(v: Value)
    requires v.bits & 0x1_0000 != 0
    ensures EmittedEbase(v) != ArchitecturalEbase(v)
  {
  }

  /** The emitted words keep the base address exactly when its bit 16 is 0. */
  lemma EbaseExact(v: Value)
    ensures EmittedEbase(v) == ArchitecturalEbase(v) <==> v.bits & 0x1_0000 == 0
  {
    hide EmittedEbase, ArchitecturalEbase;
    if v.bits & 0x1_0000 == 0 {
      EbaseKept(v);
    } else {
      EbaseLost(v);
    }
  }

  /** Writing 0x8001_0000 leaves 0x8000_0000: the handlers are looked for 64 KB too low. */
  lemma EbaseFails()
    ensures EmittedEbase(Value(0xFFFF_FFFF_8001_0000)) == Value(0xFFFF_FFFF_8000_0000)
  {
  }
}
