/** Control instructions with their delay slots: both ends of every branch, jumps, links. */
module ControlSimulation {
  import opened Words
  import opened Instructions
  import opened Machine
  import opened HostMachine
  import opened GuestMachine
  import opened Emitters
  import opened HostSteps
  import opened Simulation
  import opened Faithfulness
  import opened MaddSimulation
  import opened BlockSimulation
  import Decoder

  /** The 16-bit field survives being multiplied by 4: between -8193 and 8190 words. */
  predicate BranchInRange(imm: int) {
    Half(imm) <= 0x1FFE || Half(imm) >= 0xDFFF
  }

  lemma BranchBitsForward(h: bv16)
    requires h <= 0x1FFE
    ensures SignExtend16((h << 2) + 4) == (SignExtend16(h) << 2) + 4
  {
  }

  lemma BranchBitsBack(h: bv16)
    requires h >= 0xDFFF
    ensures SignExtend16((h << 2) + 4) == (SignExtend16(h) << 2) + 4
  {
  }

  lemma BranchBitsFar(h: bv16)
    requires 0x1FFE < h < 0xDFFF
    ensures SignExtend16((h << 2) + 4) != (SignExtend16(h) << 2) + 4
  {
  }

  lemma HalfRoundTrip(v: bv16)
    ensures Half(v as int) == v
  {
    assert (v as int) as bv16 == v;
  }

  lemma BranchBits(h: bv16, a: bv64, b: bv64)
    requires a == SignExtend16((h << 2) + 4) && b == (SignExtend16(h) << 2) + 4
    ensures a == b <==> h <= 0x1FFE || h >= 0xDFFF
  {
    hide SignExtend16;
    if h <= 0x1FFE {
      BranchBitsForward(h);
    } else if h >= 0xDFFF {
      BranchBitsBack(h);
    } else {
      BranchBitsFar(h);
    }
  }

  lemma BranchField(imm: int)
    ensures SX16(BranchImm(imm)).bits == SignExtend16((Half(imm) << 2) + 4)
    ensures BranchOffset(imm).bits == (SignExtend16(Half(imm)) << 2) + 4
  {
    hide SignExtend16;
    HalfRoundTrip(BranchHalf(imm));
    hide Half;
  }

  lemma BranchFieldExact(imm: int)
    ensures SX16(BranchImm(imm)) == BranchOffset(imm) <==> BranchInRange(imm)
  {
    BranchField(imm);
    hide SX16, BranchImm, SignExtend16, Half, BranchOffset;
    BranchBits(Half(imm), SX16(BranchImm(imm)).bits, BranchOffset(imm).bits);
  }

  /** The displacement the taken end adds is the architectural one exactly when the offset is in range; the stored PC is
      then the branch target. */
  lemma BranchExact(c: Ins, pc: Value, g: Guest)
    requires c.I?
    ensures SX16(BranchImm(c.imm)) == BranchOffset(c.imm) <==> BranchInRange(c.imm)
    ensures BranchInRange(c.imm) ==> Plus(pc, SX16(BranchImm(c.imm))) == Target(c, pc, g)
  {
    hide Plus, SX16, BranchImm, BranchOffset, BranchInRange;
    BranchFieldExact(c.imm);
  }

  /** Host states that differ in the temporaries only. */
  lemma RelTemps(isa: Isa, end: Value, g: Guest, h: Host, v: Value, w: Value, h1: Host)
    requires Rel(isa, end, g, h) && Wrote2(h, h1, TEMP_SLOT4, v, TEMP_SLOT5, w)
    ensures Rel(isa, end, g, h1)
  {
  }

  lemma RelTemp(isa: Isa, end: Value, g: Guest, h: Host, v: Value, h1: Host)
    requires Rel(isa, end, g, h) && Wrote(h, h1, TEMP_SLOT4, v)
    ensures Rel(isa, end, g, h1)
  {
  }

  lemma SmallOffsets()
    ensures SX16(8) == Value(8)
  {
  }

  // ---- pieces

  lemma RunPlusPc(isa: Isa, env: Env, t: int, imm: int, dest: int, k: seq<Ins>, h: Host) returns (h1: Host)
    requires t == T1 || t == T3
    ensures Exec(isa, env, [Fetch(t, BLOCK_END_PC), I(DADDI, t, t, imm), Put(t, dest)] + k, h) == Exec(isa, env, k, h1)
    ensures Wrote(h, h1, dest, Plus(h.slots(BLOCK_END_PC), SX16(imm)))
  {
    hide Plain, PlainI, PlainR, Exec, SX16, Plus;
    PlainFetch(isa, t, BLOCK_END_PC, h);
    h1 := SetReg(h, t, h.slots(BLOCK_END_PC));
    PlainImmediate(isa, DADDI, t, t, imm, h1);
    h1 := SetReg(h1, t, Plus(h1.regs(t), SX16(imm)));
    PlainPut(isa, t, dest, h1);
    h1 := SetSlot(h1, dest, h1.regs(t));
    Line3(isa, env, Fetch(t, BLOCK_END_PC), I(DADDI, t, t, imm), Put(t, dest), k, h);
  }

  /** One end of a branch: the PC slot becomes the block end plus a displacement, and the block is over. */
  lemma StorePcRuns(isa: Isa, env: Env, end: Value, imm: int, k: seq<Ins>, g: Guest, h: Host) returns (h1: Host)
    requires Rel(isa, end, g, h) && h.slots(CONTROL_MARK) == MarkValue(FETCH_NEXT_BLOCK)
    ensures Simulates(isa, env, end, Exit(FETCH_NEXT_BLOCK, g.(pc := Plus(end, SX16(imm)))), StorePc(imm), k, h, h1)
  {
    hide Exec, SX16, Plus, MarkValue;
    Assoc([Fetch(T3, BLOCK_END_PC), I(DADDI, T3, T3, imm), Put(T3, PC)], ExitC(), k);
    var a := RunPlusPc(isa, env, T3, imm, PC, ExitC() + k, h);
    RelPc(isa, end, g, h, Plus(end, SX16(imm)), a);
    RunExitC(isa, env, k, a);
    h1 := SetReg(a, CREG, isa.cLabel);
    RelSame(isa, end, g.(pc := Plus(end, SX16(imm))), a, h1);
  }

  lemma StorePcLength(imm: int)
    ensures |StorePc(imm)| == 6
  {
  }

  lemma MarkedStorePcRuns(isa: Isa, env: Env, end: Value, imm: int, k: seq<Ins>, g: Guest, h: Host) returns (h1: Host)
    requires Rel(isa, end, g, h)
    ensures Simulates(isa, env, end, Exit(FETCH_NEXT_BLOCK, g.(pc := Plus(end, SX16(imm)))),
              SetMark(T3, FETCH_NEXT_BLOCK) + StorePc(imm), k, h, h1)
  {
    hide Exec, SX16, Plus, MarkValue, StorePc;
    Assoc(SetMark(T3, FETCH_NEXT_BLOCK), StorePc(imm), k);
    RunSetMark(isa, env, T3, FETCH_NEXT_BLOCK, StorePc(imm) + k, h);
    var a := Marked(h, T3, FETCH_NEXT_BLOCK);
    RelScratch(isa, end, g, h, CONTROL_MARK, MarkValue(FETCH_NEXT_BLOCK), a);
    h1 := StorePcRuns(isa, env, end, imm, k, g, a);
  }

  /** The link step: register 31 gets the address after the delay slot. */
  lemma LinkRuns(isa: Isa, env: Env, end: Value, b: bool, k: seq<Ins>, g: Guest, h: Host) returns (h1: Host)
    requires Rel(isa, end, g, h)
    ensures Simulates(isa, env, end, Next(SetGpr(g, if b then 31 else 0, Plus(end, Value(8)))), LinkIf(b), k, h, h1)
  {
    hide Exec, SX16, Plus;
    if b {
      SmallOffsets();
      h1 := RunPlusPc(isa, env, T1, 8, Gp(31), k, h);
      RelGpr(isa, end, g, h, 31, Plus(end, Value(8)), h1);
    } else {
      assert [] + k == k;
      h1 := h;
    }
  }

  /** What a control instruction makes of its delay slot's result. */
  function AfterSlot(r: Result, target: Value): Result {
    match r
    case Next(g1) => Exit(FETCH_NEXT_BLOCK, g1.(pc := target))
    case e => e
  }

  function BranchTarget(end: Value, imm: int, taken: bool): Value {
    if taken then Plus(end, SX16(BranchImm(imm))) else Plus(end, SX16(8))
  }

  /** Code after code: the second part runs only when the first did not leave. */
  lemma Sequenced(isa: Isa, env: Env, end: Value, r1: Result, r2: Result, c1: seq<Ins>, c2: seq<Ins>, k: seq<Ins>,
                  h: Host,
                  a: Host, h1: Host)
    requires Simulates(isa, env, end, r1, c1, c2 + k, h, a)
    requires if r1.Next? then Simulates(isa, env, end, r2, c2, k, a, h1) else h1 == a && r2 == r1
    ensures Simulates(isa, env, end, r2, c1 + c2, k, h, h1)
  {
    hide Exec, Rel;
    Assoc(c1, c2, k);
  }

  lemma RelNext(isa: Isa, env: Env, end: Value, g: Guest, code: seq<Ins>, k: seq<Ins>, h: Host, h1: Host)
    requires Simulates(isa, env, end, Next(g), code, k, h, h1)
    ensures Rel(isa, end, g, h1) && KeepsTemps(h, h1)
  {
  }

  /** A delay slot, then code that ends the block. */
  lemma SlotThen(isa: Isa, env: Env, end: Value, slot: Ins, target: Value, tail: seq<Ins>, k: seq<Ins>, g: Guest,
                 h: Host,
                 a: Host, h1: Host)
    requires Supported(slot)
    requires Simulates(isa, env, end, Step(isa, env, slot, g), Emit(slot), tail + k, h, a)
    requires match Step(isa, env, slot, g)
             case Next(g1) => Simulates(isa, env, end, Exit(FETCH_NEXT_BLOCK, g1.(pc := target)), tail, k, a, h1)
             case _ => h1 == a
    ensures Simulates(isa, env, end, AfterSlot(Step(isa, env, slot, g), target), Emit(slot) + tail, k, h, h1)
  {
    SupportedIsModelled(slot);
    hide Simulates, Emit, Step, Supported, Exact, IsModelled, Decoder.Dispatch, Decoder.RotatePattern;
    Sequenced(isa, env, end, Step(isa, env, slot, g), AfterSlot(Step(isa, env, slot, g), target), Emit(slot), tail, k,
              h, a, h1);
  }

  /** Code in front that only prepares the host. */
  lemma Prepend(isa: Isa, env: Env, end: Value, r: Result, c1: seq<Ins>, c2: seq<Ins>, k: seq<Ins>, h: Host, a: Host,
                h1: Host)
    requires Exec(isa, env, c1 + (c2 + k), h) == Exec(isa, env, c2 + k, a)
    requires Simulates(isa, env, end, r, c2, k, a, h1) && !r.Next?
    ensures Simulates(isa, env, end, r, c1 + c2, k, h, h1)
  {
    hide Exec, Rel;
    Assoc(c1, c2, k);
  }

  lemma AfterSlotLeaves(isa: Isa, env: Env, slot: Ins, g: Guest, target: Value)
    ensures !AfterSlot(Step(isa, env, slot, g), target).Next?
  {
    hide Step;
  }

  lemma TakenOnRegisters(op: int, rt: int, t: int, x: Value, y: Value)
    requires op == 4 || op == 5 || op == 20 || op == 21
    ensures Taken(op, rt, x, y) == Taken(op, t, x, y)
  {
  }

  // ---- the decision at the end of beq, bne, bltz, bbit, ...

  /** The skip of 7 lands on the taken end, whatever came before. */
  lemma DecisionRuns(isa: Isa, env: Env, end: Value, op: int, rt: int, imm: int, k: seq<Ins>, g: Guest, h: Host)
    returns (h1: Host)
    requires Rel(isa, end, g, h) && h.slots(CONTROL_MARK) == MarkValue(FETCH_NEXT_BLOCK) && IsBranch(op)
            && !IsLikely(op, rt)
    ensures Simulates(isa, env, end,
              Exit(FETCH_NEXT_BLOCK, g.(pc := BranchTarget(end, imm, Taken(op, rt, h.regs(T3), h.regs(rt))))),
              [I(op, T3, rt, 7), NOP] + (StorePc(8) + StorePc(BranchImm(imm))), k, h, h1)
  {
    hide Exec, SX16, Plus, MarkValue, StorePc, Taken, Plain, BranchImm;
    var fall, taken := StorePc(8), StorePc(BranchImm(imm));
    Assoc([I(op, T3, rt, 7), NOP], fall + taken, k);
    Assoc(fall, taken, k);
    StorePcLength(8);
    RunBranch(isa, env, op, T3, rt, NOP, fall, taken + k, h);
    var a := if IsLinkBranch(op, rt) then SetReg(h, 31, isa.hostLink) else h;
    PlainNop(isa, a);
    RelSame(isa, end, g, h, a);
    if Taken(op, rt, h.regs(T3), h.regs(rt)) {
      h1 := StorePcRuns(isa, env, end, BranchImm(imm), k, g, a);
    } else {
      h1 := StorePcRuns(isa, env, end, 8, taken + k, g, a);
    }
  }

  lemma RunSaveTwo(isa: Isa, env: Env, rs: int, rt: int, k: seq<Ins>, h: Host) returns (h1: Host)
    ensures Exec(isa, env, [Fetch(T3, Gp(rs)), Fetch(T2, Gp(rt)), Put(T3, TEMP_SLOT4), Put(T2, TEMP_SLOT5)] + k, h)
            == Exec(isa, env, k, h1)
    ensures Wrote2(h, h1, TEMP_SLOT4, h.slots(Gp(rs)), TEMP_SLOT5, h.slots(Gp(rt)))
  {
    hide Plain, PlainI, PlainR, Exec;
    PlainFetch(isa, T3, Gp(rs), h);
    h1 := SetReg(h, T3, h.slots(Gp(rs)));
    PlainFetch(isa, T2, Gp(rt), h1);
    h1 := SetReg(h1, T2, h.slots(Gp(rt)));
    PlainPut(isa, T3, TEMP_SLOT4, h1);
    h1 := SetSlot(h1, TEMP_SLOT4, h1.regs(T3));
    PlainPut(isa, T2, TEMP_SLOT5, h1);
    h1 := SetSlot(h1, TEMP_SLOT5, h1.regs(T2));
    Line4(isa, env, Fetch(T3, Gp(rs)), Fetch(T2, Gp(rt)), Put(T3, TEMP_SLOT4), Put(T2, TEMP_SLOT5), k, h);
  }

  lemma RunMarkTwo(isa: Isa, env: Env, k: seq<Ins>, h: Host) returns (h1: Host)
    requires h.regs(0) == ZERO
    ensures Exec(isa, env, [Const(T1, FETCH_NEXT_BLOCK), Put(T1, CONTROL_MARK), Fetch(T3, TEMP_SLOT4),
                            Fetch(T2, TEMP_SLOT5)] + k, h)
            == Exec(isa, env, k, h1)
    ensures Wrote(h, h1, CONTROL_MARK, MarkValue(FETCH_NEXT_BLOCK))
    ensures h1.regs(T3) == h.slots(TEMP_SLOT4) && h1.regs(T2) == h.slots(TEMP_SLOT5)
  {
    hide Plain, PlainI, PlainR, Exec, Immediate, MarkValue;
    ConstValue(isa, FETCH_NEXT_BLOCK);
    PlainImmediate(isa, 9, 0, T1, FETCH_NEXT_BLOCK, h);
    h1 := SetReg(h, T1, MarkValue(FETCH_NEXT_BLOCK));
    PlainPut(isa, T1, CONTROL_MARK, h1);
    h1 := SetSlot(h1, CONTROL_MARK, h1.regs(T1));
    PlainFetch(isa, T3, TEMP_SLOT4, h1);
    h1 := SetReg(h1, T3, h1.slots(TEMP_SLOT4));
    PlainFetch(isa, T2, TEMP_SLOT5, h1);
    h1 := SetReg(h1, T2, h1.slots(TEMP_SLOT5));
    Line4(isa, env, Const(T1, FETCH_NEXT_BLOCK), Put(T1, CONTROL_MARK), Fetch(T3, TEMP_SLOT4), Fetch(T2, TEMP_SLOT5),
          k, h);
  }

  /** The tail of beq and bne compares what was saved before the delay slot. */
  lemma CompareSavedRuns(isa: Isa, env: Env, end: Value, op: int, imm: int, k: seq<Ins>, g: Guest, h: Host)
    returns (h1: Host)
    requires Rel(isa, end, g, h) && (op == 4 || op == 5)
    ensures Simulates(isa, env, end,
              Exit(FETCH_NEXT_BLOCK, g.(pc := BranchTarget(end, imm,
                                                           Taken(op, T2, h.slots(TEMP_SLOT4), h.slots(TEMP_SLOT5))))),
              [Const(T1, FETCH_NEXT_BLOCK), Put(T1, CONTROL_MARK), Fetch(T3, TEMP_SLOT4), Fetch(T2, TEMP_SLOT5)]
              + ([I(op, T3, T2, 7), NOP] + (StorePc(8) + StorePc(BranchImm(imm)))), k, h, h1)
  {
    hide Exec, Plus, MarkValue, StorePc, BranchTarget, Taken, BranchImm;
    var mark := [Const(T1, FETCH_NEXT_BLOCK), Put(T1, CONTROL_MARK), Fetch(T3, TEMP_SLOT4), Fetch(T2, TEMP_SLOT5)];
    var ends := [I(op, T3, T2, 7), NOP] + (StorePc(8) + StorePc(BranchImm(imm)));
    Assoc(mark, ends, k);
    var a := RunMarkTwo(isa, env, ends + k, h);
    RelScratch(isa, end, g, h, CONTROL_MARK, MarkValue(FETCH_NEXT_BLOCK), a);
    h1 := DecisionRuns(isa, env, end, op, T2, imm, k, g, a);
  }

  /** beq and bne: the registers are compared as they were before the delay slot. */
  lemma BneBeqRuns(isa: Isa, env: Env, end: Value, c: Ins, slot: Ins, k: seq<Ins>, g: Guest, h: Host) returns (h1: Host)
    requires c.I? && WellFormed(c) && (c.op == 4 || c.op == 5) && Supported(slot) && Rel(isa, end, g, h)
    requires Exact(isa, env, slot, g)
    ensures Simulates(isa, env, end,
              AfterSlot(Step(isa, env, slot, g), BranchTarget(end, c.imm, Taken(c.op, c.rt, g.gpr(c.rs), g.gpr(c.rt)))),
              BneBeq(c, Emit(slot)), k, h, h1)
  {
    SupportedIsModelled(slot);
    var save := [Fetch(T3, Gp(c.rs)), Fetch(T2, Gp(c.rt)), Put(T3, TEMP_SLOT4), Put(T2, TEMP_SLOT5)];
    var tail := [Const(T1, FETCH_NEXT_BLOCK), Put(T1, CONTROL_MARK), Fetch(T3, TEMP_SLOT4), Fetch(T2, TEMP_SLOT5)]
                + ([I(c.op, T3, T2, 7), NOP] + (StorePc(8) + StorePc(BranchImm(c.imm))));
    var target := BranchTarget(end, c.imm, Taken(c.op, c.rt, g.gpr(c.rs), g.gpr(c.rt)));
    hide Simulates, Step, Emit, Supported, Exact, BranchTarget, StorePc, Taken, AfterSlot, Decoder.Dispatch, IsModelled,
      Decoder.RotatePattern;
    var a := RunSaveTwo(isa, env, c.rs, c.rt, (Emit(slot) + tail) + k, h);
    RelTemps(isa, end, g, h, h.slots(Gp(c.rs)), h.slots(Gp(c.rt)), a);
    var b := StepSimulated(isa, env, end, slot, tail + k, g, a);
    h1 := b;
    match Step(isa, env, slot, g) {
      case Next(g1) =>
        RelNext(isa, env, end, g1, Emit(slot), tail + k, a, b);
        TakenOnRegisters(c.op, c.rt, T2, g.gpr(c.rs), g.gpr(c.rt));
        h1 := CompareSavedRuns(isa, env, end, c.op, c.imm, k, g1, b);
      case _ =>
    }
    SlotThen(isa, env, end, slot, target, tail, k, g, a, b, h1);
    AfterSlotLeaves(isa, env, slot, g, target);
    Prepend(isa, env, end, AfterSlot(Step(isa, env, slot, g), target), save, Emit(slot) + tail, k, h, a, h1);
  }

  lemma RunSaveOne(isa: Isa, env: Env, t: int, rs: int, k: seq<Ins>, h: Host) returns (h1: Host)
    requires t == T1 || t == T3
    ensures Exec(isa, env, [Fetch(t, Gp(rs)), Put(t, TEMP_SLOT4)] + k, h) == Exec(isa, env, k, h1)
    ensures Wrote(h, h1, TEMP_SLOT4, h.slots(Gp(rs)))
  {
    hide Plain, PlainI, PlainR, Exec;
    PlainFetch(isa, t, Gp(rs), h);
    h1 := SetReg(h, t, h.slots(Gp(rs)));
    PlainPut(isa, t, TEMP_SLOT4, h1);
    h1 := SetSlot(h1, TEMP_SLOT4, h1.regs(t));
    Line2(isa, env, Fetch(t, Gp(rs)), Put(t, TEMP_SLOT4), k, h);
  }

  lemma RunMarkOne(isa: Isa, env: Env, k: seq<Ins>, h: Host) returns (h1: Host)
    requires h.regs(0) == ZERO
    ensures Exec(isa, env, [Const(T1, FETCH_NEXT_BLOCK), Put(T1, CONTROL_MARK), Fetch(T3, TEMP_SLOT4)] + k, h)
            == Exec(isa, env, k, h1)
    ensures Wrote(h, h1, CONTROL_MARK, MarkValue(FETCH_NEXT_BLOCK)) && h1.regs(T3) == h.slots(TEMP_SLOT4)
  {
    hide Plain, PlainI, PlainR, Exec, Immediate, MarkValue;
    ConstValue(isa, FETCH_NEXT_BLOCK);
    PlainImmediate(isa, 9, 0, T1, FETCH_NEXT_BLOCK, h);
    h1 := SetReg(h, T1, MarkValue(FETCH_NEXT_BLOCK));
    PlainPut(isa, T1, CONTROL_MARK, h1);
    h1 := SetSlot(h1, CONTROL_MARK, h1.regs(T1));
    PlainFetch(isa, T3, TEMP_SLOT4, h1);
    h1 := SetReg(h1, T3, h1.slots(TEMP_SLOT4));
    Line3(isa, env, Const(T1, FETCH_NEXT_BLOCK), Put(T1, CONTROL_MARK), Fetch(T3, TEMP_SLOT4), k, h);
  }

  /** Branches on one register: the rt field selects the test and names no register. */
  predicate OneRegisterBranch(op: int, rt: int) {
    op == 6 || op == 7 || op == 50 || op == 54 || op == 58 || op == 62 || (op == 1 && !IsLikely(op, rt))
  }

  lemma TakenIgnoresRt(op: int, rt: int, x: Value, y: Value, z: Value)
    requires op != 4 && op != 5 && op != 20 && op != 21
    ensures Taken(op, rt, x, y) == Taken(op, rt, x, z)
  {
  }

  /** The tail of the one-register branches tests what was saved before the delay slot. */
  lemma TestSavedRuns(isa: Isa, env: Env, end: Value, op: int, rt: int, imm: int, k: seq<Ins>, g: Guest, h: Host)
    returns (h1: Host)
    requires Rel(isa, end, g, h) && OneRegisterBranch(op, rt)
    ensures Simulates(isa, env, end,
              Exit(FETCH_NEXT_BLOCK, g.(pc := BranchTarget(end, imm, Taken(op, rt, h.slots(TEMP_SLOT4), ZERO)))),
              [Const(T1, FETCH_NEXT_BLOCK), Put(T1, CONTROL_MARK), Fetch(T3, TEMP_SLOT4)]
              + ([I(op, T3, rt, 7), NOP] + (StorePc(8) + StorePc(BranchImm(imm)))), k, h, h1)
  {
    hide Exec, Plus, MarkValue, StorePc, BranchTarget, Taken, BranchImm;
    var mark := [Const(T1, FETCH_NEXT_BLOCK), Put(T1, CONTROL_MARK), Fetch(T3, TEMP_SLOT4)];
    var ends := [I(op, T3, rt, 7), NOP] + (StorePc(8) + StorePc(BranchImm(imm)));
    Assoc(mark, ends, k);
    var a := RunMarkOne(isa, env, ends + k, h);
    RelScratch(isa, end, g, h, CONTROL_MARK, MarkValue(FETCH_NEXT_BLOCK), a);
    TakenIgnoresRt(op, rt, a.regs(T3), a.regs(rt), ZERO);
    h1 := DecisionRuns(isa, env, end, op, rt, imm, k, g, a);
  }

  /** The front of the one-register branches: link, and save the register before the delay slot can change it. */
  lemma LinkAndTestRuns(isa: Isa, env: Env, end: Value, link: bool, rs: int, k: seq<Ins>, g: Guest, h: Host)
    returns (h1: Host)
    requires 0 <= rs < 32 && Rel(isa, end, g, h)
    ensures Exec(isa, env, (LinkIf(link) + [Fetch(T3, Gp(rs)), Put(T3, TEMP_SLOT4)]) + k, h) == Exec(isa, env, k, h1)
    ensures Rel(isa, end, SetGpr(g, if link then 31 else 0, Plus(end, Value(8))), h1)
    ensures h1.slots(TEMP_SLOT4) == SetGpr(g, if link then 31 else 0, Plus(end, Value(8))).gpr(rs)
  {
    hide Exec, Plus, LinkIf;
    var save := [Fetch(T3, Gp(rs)), Put(T3, TEMP_SLOT4)];
    var linked := SetGpr(g, if link then 31 else 0, Plus(end, Value(8)));
    Assoc(LinkIf(link), save, k);
    var l := LinkRuns(isa, env, end, link, save + k, g, h);
    h1 := RunSaveOne(isa, env, T3, rs, k, l);
    RelTemp(isa, end, linked, l, l.slots(Gp(rs)), h1);
  }

  /** Branches on one register, with or without link. The link is written before the register is read. */
  lemma BranchRuns(isa: Isa, env: Env, end: Value, c: Ins, link: bool, slot: Ins, k: seq<Ins>, g: Guest, h: Host)
    returns (h1: Host)
    requires c.I? && WellFormed(c) && OneRegisterBranch(c.op, c.rt) && Supported(slot) && Rel(isa, end, g, h)
    requires Exact(isa, env, slot, SetGpr(g, if link then 31 else 0, Plus(end, Value(8))))
    ensures var linked := SetGpr(g, if link then 31 else 0, Plus(end, Value(8)));
      Simulates(isa, env, end,
        AfterSlot(Step(isa, env, slot, linked), BranchTarget(end, c.imm, Taken(c.op, c.rt, linked.gpr(c.rs), ZERO))),
        Emitters.Branch(c, link, Emit(slot)), k, h, h1)
  {
    SupportedIsModelled(slot);
    var front := LinkIf(link) + [Fetch(T3, Gp(c.rs)), Put(T3, TEMP_SLOT4)];
    var tail := [Const(T1, FETCH_NEXT_BLOCK), Put(T1, CONTROL_MARK), Fetch(T3, TEMP_SLOT4)]
                + ([I(c.op, T3, c.rt, 7), NOP] + (StorePc(8) + StorePc(BranchImm(c.imm))));
    var linked := SetGpr(g, if link then 31 else 0, Plus(end, Value(8)));
    var target := BranchTarget(end, c.imm, Taken(c.op, c.rt, linked.gpr(c.rs), ZERO));
    hide Simulates, Rel, Step, Emit, Supported, Exact, BranchTarget, StorePc, Taken, AfterSlot, LinkIf, Plus, SetGpr,
      OneRegisterBranch, Decoder.Dispatch, IsModelled, Decoder.RotatePattern;
    var a := LinkAndTestRuns(isa, env, end, link, c.rs, (Emit(slot) + tail) + k, g, h);
    var b := StepSimulated(isa, env, end, slot, tail + k, linked, a);
    h1 := b;
    match Step(isa, env, slot, linked) {
      case Next(g1) =>
        RelNext(isa, env, end, g1, Emit(slot), tail + k, a, b);
        h1 := TestSavedRuns(isa, env, end, c.op, c.rt, c.imm, k, g1, b);
      case _ =>
    }
    SlotThen(isa, env, end, slot, target, tail, k, linked, a, b, h1);
    AfterSlotLeaves(isa, env, slot, linked, target);
    Prepend(isa, env, end, AfterSlot(Step(isa, env, slot, linked), target), front, Emit(slot) + tail, k, h, a, h1);
  }

  // ---- likely branches

  function LikelyResult(isa: Isa, env: Env, end: Value, c: Ins, slot: Ins, taken: bool, g: Guest): Result
    requires c.I?
  {
    if taken then AfterSlot(Step(isa, env, slot, g), BranchTarget(end, c.imm, true))
    else Exit(FETCH_NEXT_BLOCK, g.(pc := BranchTarget(end, c.imm, false)))
  }

  lemma LikelyLeaves(isa: Isa, env: Env, end: Value, c: Ins, slot: Ins, taken: bool, g: Guest)
    requires c.I?
    ensures !LikelyResult(isa, env, end, c, slot, taken, g).Next?
  {
    hide Step, BranchTarget;
  }

  /** The taken path of a likely branch: the delay slot, then the taken end. */
  lemma LikelyTakenRuns(isa: Isa, env: Env, end: Value, imm: int, slot: Ins, k: seq<Ins>, g: Guest, h: Host)
    returns (h1: Host)
    requires Supported(slot) && Exact(isa, env, slot, g) && Rel(isa, end, g, h)
    ensures Simulates(isa, env, end, AfterSlot(Step(isa, env, slot, g), BranchTarget(end, imm, true)),
              Emit(slot) + (SetMark(T3, FETCH_NEXT_BLOCK) + StorePc(BranchImm(imm))), k, h, h1)
  {
    SupportedIsModelled(slot);
    hide Simulates, Step, Emit, Supported, Exact, SX16, Plus, BranchImm, StorePc, SetMark, Decoder.Dispatch, IsModelled,
      Decoder.RotatePattern, SetGpr;
    var tail := SetMark(T3, FETCH_NEXT_BLOCK) + StorePc(BranchImm(imm));
    var a := StepSimulated(isa, env, end, slot, tail + k, g, h);
    h1 := a;
    match Step(isa, env, slot, g) {
      case Next(g1) =>
        RelNext(isa, env, end, g1, Emit(slot), tail + k, h, a);
        h1 := MarkedStorePcRuns(isa, env, end, BranchImm(imm), k, g1, a);
      case _ =>
    }
    SlotThen(isa, env, end, slot, BranchTarget(end, imm, true), tail, k, g, h, a, h1);
  }

  lemma LikelyChoice(isa: Isa, env: Env, op: int, rt: int, fall: seq<Ins>, taken: seq<Ins>, k: seq<Ins>, h: Host)
    returns (a: Host)
    requires IsBranch(op) && IsLikely(op, rt) && |fall| == 8
    ensures Exec(isa, env, ([I(op, T1, rt, 9), NOP] + (fall + taken)) + k, h)
            == if Taken(op, rt, h.regs(T1), h.regs(rt)) then Exec(isa, env, taken + k, a)
                else Exec(isa, env, fall + (taken + k), a)
    ensures forall isa1: Isa, end, g :: Rel(isa1, end, g, h) ==> Rel(isa1, end, g, a)
    ensures KeepsTemps(h, a)
  {
    hide Exec, Taken, Plain;
    var b := [I(op, T1, rt, 9), NOP];
    Assoc(b, fall + taken, k);
    Assoc(fall, taken, k);
    RunBranch(isa, env, op, T1, rt, NOP, fall, taken + k, h);
    a := if IsLinkBranch(op, rt) then SetReg(h, 31, isa.hostLink) else h;
    PlainNop(isa, a);
    forall isa1: Isa, end, g | Rel(isa1, end, g, h) ensures Rel(isa1, end, g, a) {
      RelSame(isa1, end, g, h, a);
    }
  }

  /** The skip of 9 lands on the delay slot, which runs only when the branch is taken. */
  lemma LikelyRuns(isa: Isa, env: Env, end: Value, c: Ins, rt: int, slot: Ins, k: seq<Ins>, g: Guest, h: Host)
    returns (h1: Host)
    requires c.I? && IsBranch(c.op) && IsLikely(c.op, rt) && Supported(slot) && Rel(isa, end, g, h)
    requires Taken(c.op, rt, h.regs(T1), h.regs(rt)) ==> Exact(isa, env, slot, g)
    ensures Simulates(isa, env, end, LikelyResult(isa, env, end, c, slot, Taken(c.op, rt, h.regs(T1), h.regs(rt)), g),
              [I(c.op, T1, rt, 9), NOP] + LikelyPaths(c, Emit(slot)), k, h, h1)
  {
    SupportedIsModelled(slot);
    StorePcLength(8);
    hide Exec, SX16, Plus, MarkValue, StorePc, Step, Emit, Supported, Exact, Taken, Plain, Rel, IsBranch, IsLikely,
      IsModelled, WellFormed, Decoder.RotatePattern, AfterSlot, IsModelled, Decoder.RotatePattern, Decoder.Dispatch;
    var fall := SetMark(T3, FETCH_NEXT_BLOCK) + StorePc(8);
    var taken := Emit(slot) + (SetMark(T3, FETCH_NEXT_BLOCK) + StorePc(BranchImm(c.imm)));
    var a := LikelyChoice(isa, env, c.op, rt, fall, taken, k, h);
    var r := LikelyResult(isa, env, end, c, slot, Taken(c.op, rt, h.regs(T1), h.regs(rt)), g);
    LikelyLeaves(isa, env, end, c, slot, Taken(c.op, rt, h.regs(T1), h.regs(rt)), g);
    if Taken(c.op, rt, h.regs(T1), h.regs(rt)) {
      h1 := LikelyTakenRuns(isa, env, end, c.imm, slot, k, g, a);
    } else {
      h1 := MarkedStorePcRuns(isa, env, end, 8, taken + k, g, a);
    }
  }

  /** Loads into host registers leave the relation alone. */
  lemma RunFetchTwo(isa: Isa, env: Env, end: Value, rs: int, rt: int, k: seq<Ins>, g: Guest, h: Host) returns (a: Host)
    requires Rel(isa, end, g, h) && 0 <= rs < 32 && 0 <= rt < 32
    ensures Exec(isa, env, [Fetch(T1, Gp(rs)), Fetch(T2, Gp(rt))] + k, h) == Exec(isa, env, k, a)
    ensures Rel(isa, end, g, a) && KeepsTemps(h, a) && a.regs(T1) == g.gpr(rs) && a.regs(T2) == g.gpr(rt)
  {
    hide Exec, Plain;
    PlainFetch(isa, T1, Gp(rs), h);
    var b := SetReg(h, T1, h.slots(Gp(rs)));
    PlainFetch(isa, T2, Gp(rt), b);
    a := SetReg(b, T2, b.slots(Gp(rt)));
    Line2(isa, env, Fetch(T1, Gp(rs)), Fetch(T2, Gp(rt)), k, h);
    RelSame(isa, end, g, h, a);
  }

  lemma RunFetchOne(isa: Isa, env: Env, end: Value, rs: int, k: seq<Ins>, g: Guest, h: Host) returns (a: Host)
    requires Rel(isa, end, g, h) && 0 <= rs < 32
    ensures Exec(isa, env, [Fetch(T1, Gp(rs))] + k, h) == Exec(isa, env, k, a)
    ensures Rel(isa, end, g, a) && KeepsTemps(h, a) && a.regs(T1) == g.gpr(rs)
  {
    hide Exec, Plain;
    PlainFetch(isa, T1, Gp(rs), h);
    a := SetReg(h, T1, h.slots(Gp(rs)));
    Line1(isa, env, Fetch(T1, Gp(rs)), k, h);
    RelSame(isa, end, g, h, a);
  }

  lemma BneBeqLikelyRuns(isa: Isa, env: Env, end: Value, c: Ins, slot: Ins, k: seq<Ins>, g: Guest, h: Host)
    returns (h1: Host)
    requires c.I? && WellFormed(c) && (c.op == 20 || c.op == 21) && Supported(slot) && Rel(isa, end, g, h)
    requires Taken(c.op, c.rt, g.gpr(c.rs), g.gpr(c.rt)) ==> Exact(isa, env, slot, g)
    ensures Simulates(isa, env, end,
                      LikelyResult(isa, env, end, c, slot, Taken(c.op, c.rt, g.gpr(c.rs), g.gpr(c.rt)), g),
              BneBeqLikely(c, Emit(slot)), k, h, h1)
  {
    SupportedIsModelled(slot);
    hide Exec, Simulates, Rel, LikelyResult, Step, Emit, Supported, Exact, LikelyPaths, Taken, IsModelled,
      Decoder.RotatePattern, Decoder.Dispatch;
    var rest := [I(c.op, T1, T2, 9), NOP] + LikelyPaths(c, Emit(slot));
    var a := RunFetchTwo(isa, env, end, c.rs, c.rt, rest + k, g, h);
    TakenOnRegisters(c.op, c.rt, T2, g.gpr(c.rs), g.gpr(c.rt));
    h1 := LikelyRuns(isa, env, end, c, T2, slot, k, g, a);
    var r := LikelyResult(isa, env, end, c, slot, Taken(c.op, c.rt, g.gpr(c.rs), g.gpr(c.rt)), g);
    LikelyLeaves(isa, env, end, c, slot, Taken(c.op, c.rt, g.gpr(c.rs), g.gpr(c.rt)), g);
    Prepend(isa, env, end, r, [Fetch(T1, Gp(c.rs)), Fetch(T2, Gp(c.rt))], rest, k, h, a, h1);
  }

  lemma BranchLikelyRuns(isa: Isa, env: Env, end: Value, c: Ins, link: bool, slot: Ins, k: seq<Ins>, g: Guest, h: Host)
    returns (h1: Host)
    requires c.I? && WellFormed(c) && (c.op == 22 || c.op == 23 || c.op == 1) && IsLikely(c.op, c.rt)
    requires link == (c.rt == 18 || c.rt == 19) && Supported(slot) && Rel(isa, end, g, h)
    requires var linked := SetGpr(g, if link then 31 else 0, Plus(end, Value(8)));
      Taken(c.op, c.rt, linked.gpr(c.rs), ZERO) ==> Exact(isa, env, slot, linked)
    ensures var linked := SetGpr(g, if link then 31 else 0, Plus(end, Value(8)));
      Simulates(isa, env, end, LikelyResult(isa, env, end, c, slot, Taken(c.op, c.rt, linked.gpr(c.rs), ZERO), linked),
        Emitters.BranchLikely(c, Emit(slot)), k, h, h1)
  {
    SupportedIsModelled(slot);
    hide Exec, LikelyResult, Step, Emit, Supported, Exact, LikelyPaths, LinkIf, Plus, Taken, IsModelled,
      Decoder.RotatePattern, Decoder.Dispatch;
    var rest := [I(c.op, T1, c.rt, 9), NOP] + LikelyPaths(c, Emit(slot));
    var linked := SetGpr(g, if link then 31 else 0, Plus(end, Value(8)));
    var l := LinkRuns(isa, env, end, link, [Fetch(T1, Gp(c.rs))] + (rest + k), g, h);
    var a := RunFetchOne(isa, env, end, c.rs, rest + k, linked, l);
    TakenIgnoresRt(c.op, c.rt, linked.gpr(c.rs), a.regs(c.rt), ZERO);
    h1 := LikelyRuns(isa, env, end, c, c.rt, slot, k, linked, a);
    var taken := Taken(c.op, c.rt, linked.gpr(c.rs), ZERO);
    LikelyLeaves(isa, env, end, c, slot, taken, linked);
    var r := LikelyResult(isa, env, end, c, slot, taken, linked);
    Prepend(isa, env, end, r, [Fetch(T1, Gp(c.rs))], rest, k, l, a, h1);
    Assoc([Fetch(T1, Gp(c.rs))], rest, k);
    Prepend(isa, env, end, r, LinkIf(link), [Fetch(T1, Gp(c.rs))] + rest, k, h, l, h1);
  }

  // ---- jumps

  lemma UpperBits(b: bv64)
    ensures UpperHalf(b) as bv64 == (b >> 16) & 0xFFFF
  {
  }

  lemma LowerBits(b: bv64)
    ensures LowerHalf(b) as bv64 == b & 0xFFFF
  {
  }

  lemma JumpBits(b: bv64)
    ensures Or(SX32(Value(((b >> 16) & 0xFFFF) << 16)), Value(b & 0xFFFF)) == SX32(Value(b))
  {
  }

  lemma HalfWordField(v: bv16)
    ensures ZX16(v as int) == Value(v as bv64)
  {
    HalfRoundTrip(v);
    hide Half;
  }

  /** lui and ori rebuild the low word of the target, sign-extended. */
  lemma JumpImmediates(isa: Isa, b: bv64)
    ensures Immediate(isa, ORI, Immediate(isa, LUI, ZERO, UpperHalf(b) as int), LowerHalf(b) as int) == SX32(Value(b))
  {
    hide SX32, Or, ZX16, UpperHalf, LowerHalf;
    HalfWordField(UpperHalf(b));
    HalfWordField(LowerHalf(b));
    UpperBits(b);
    LowerBits(b);
    JumpBits(b);
  }

  /** The branch delay slot lies in the sign-extended 32-bit region the jump's own low word names. */
  predicate JumpInRange(pc: Value) {
    (pc.bits + 4) & 0xFFFF_FFFF_F000_0000 == SignExtend32(pc.bits) & 0xFFFF_FFFF_F000_0000
  }

  lemma JumpRegion(pc: bv64, t: bv64)
    requires t & 0x0FFF_FFFF == t
    ensures SignExtend32((pc & 0xF000_0000) | t) == (SignExtend32(pc) & 0xFFFF_FFFF_F000_0000) | t
  {
  }

  lemma SameRegion(a: bv64, b: bv64, t: bv64)
    requires t & 0x0FFF_FFFF == t
    ensures (a & 0xFFFF_FFFF_F000_0000) | t == (b & 0xFFFF_FFFF_F000_0000) | t
            <==> a & 0xFFFF_FFFF_F000_0000 == b & 0xFFFF_FFFF_F000_0000
  {
  }

  lemma JumpOffsetBits(addr: int)
    ensures JumpOffset(addr) & 0x0FFF_FFFF == JumpOffset(addr)
  {
  }

  lemma JumpWordExact(pc: bv64, t: bv64, w: bv64, r: bv64)
    requires t & 0x0FFF_FFFF == t
    requires w == (pc & 0xF000_0000) | t && r == ((pc + 4) & 0xFFFF_FFFF_F000_0000) | t
    ensures SignExtend32(w) == r <==> JumpInRange(Value(pc))
  {
    JumpRegion(pc, t);
    SameRegion(SignExtend32(pc), pc + 4, t);
    hide SignExtend32;
  }

  lemma JumpWordBits(pc: bv64, addr: int)
    ensures JumpWord(Value(pc), addr) == (pc & 0xF000_0000) | JumpOffset(addr)
    ensures RegionTarget(pc, addr) == ((pc + 4) & 0xFFFF_FFFF_F000_0000) | JumpOffset(addr)
  {
    hide JumpOffset;
  }

  lemma JumpTargetExact(pc: bv64, addr: int)
    ensures SignExtend32(JumpWord(Value(pc), addr)) == RegionTarget(pc, addr) <==> JumpInRange(Value(pc))
  {
    JumpOffsetBits(addr);
    JumpWordBits(pc, addr);
    hide SignExtend32, JumpOffset, JumpInRange, JumpWord, RegionTarget;
    JumpWordExact(pc, JumpOffset(addr), JumpWord(Value(pc), addr), RegionTarget(pc, addr));
  }

  /** The emitted jump goes to the architectural target exactly when the jump lies in range. */
  lemma JumpExact(c: Ins, pc: Value, g: Guest)
    requires c.J? && WellFormed(c)
    ensures SX32(Value(JumpWord(pc, c.addr))) == Target(c, pc, g) <==> JumpInRange(pc)
  {
    hide SignExtend32, JumpInRange, Plus, JumpWord, RegionTarget, WellFormed;
    JumpTargetExact(pc.bits, c.addr);
  }

  lemma RunJumpTail(isa: Isa, env: Env, target: bv64, k: seq<Ins>, h: Host) returns (h1: Host)
    requires h.regs(0) == ZERO
    ensures Exec(isa, env, [I(LUI, 0, T1, UpperHalf(target) as int), I(ORI, T1, T1, LowerHalf(target) as int),
                            Put(T1, PC)] + k, h)
            == Exec(isa, env, k, h1)
    ensures Wrote(h, h1, PC, SX32(Value(target)))
  {
    hide Plain, Exec, SX32, Immediate, UpperHalf, LowerHalf;
    var upper, lower := UpperHalf(target) as int, LowerHalf(target) as int;
    PlainImmediate(isa, LUI, 0, T1, upper, h);
    h1 := SetReg(h, T1, Immediate(isa, LUI, ZERO, upper));
    PlainImmediate(isa, ORI, T1, T1, lower, h1);
    h1 := SetReg(h1, T1, Immediate(isa, ORI, h1.regs(T1), lower));
    PlainPut(isa, T1, PC, h1);
    h1 := SetSlot(h1, PC, h1.regs(T1));
    JumpImmediates(isa, target);
    Line3(isa, env, I(LUI, 0, T1, upper), I(ORI, T1, T1, lower), Put(T1, PC), k, h);
  }

  /** Set the mark and leave: the end of every jump. */
  lemma MarkedExitRuns(isa: Isa, env: Env, end: Value, k: seq<Ins>, g: Guest, h: Host) returns (h1: Host)
    requires Rel(isa, end, g, h)
    ensures Simulates(isa, env, end, Exit(FETCH_NEXT_BLOCK, g), SetMark(T1, FETCH_NEXT_BLOCK) + ExitC(), k, h, h1)
  {
    hide Exec, MarkValue;
    Assoc(SetMark(T1, FETCH_NEXT_BLOCK), ExitC(), k);
    RunSetMark(isa, env, T1, FETCH_NEXT_BLOCK, ExitC() + k, h);
    var a := Marked(h, T1, FETCH_NEXT_BLOCK);
    RelScratch(isa, end, g, h, CONTROL_MARK, MarkValue(FETCH_NEXT_BLOCK), a);
    RunExitC(isa, env, k, a);
    h1 := SetReg(a, CREG, isa.cLabel);
    RelSame(isa, end, g, a, h1);
  }

  lemma JumpTailRuns(isa: Isa, env: Env, end: Value, target: bv64, k: seq<Ins>, g: Guest, h: Host) returns (h1: Host)
    requires Rel(isa, end, g, h)
    ensures Simulates(isa, env, end, Exit(FETCH_NEXT_BLOCK, g.(pc := SX32(Value(target)))), JumpTail(target), k, h, h1)
  {
    hide Exec, SX32, MarkValue, SetMark, ExitC;
    var build := [I(LUI, 0, T1, UpperHalf(target) as int), I(ORI, T1, T1, LowerHalf(target) as int), Put(T1, PC)];
    var leave := SetMark(T1, FETCH_NEXT_BLOCK) + ExitC();
    Assoc(build, leave, k);
    var a := RunJumpTail(isa, env, target, leave + k, h);
    RelPc(isa, end, g, h, SX32(Value(target)), a);
    h1 := MarkedExitRuns(isa, env, end, k, g.(pc := SX32(Value(target))), a);
  }

  /** j and jal. */
  lemma JumpRuns(isa: Isa, env: Env, end: Value, c: Ins, slot: Ins, k: seq<Ins>, g: Guest, h: Host) returns (h1: Host)
    requires c.J? && WellFormed(c) && Supported(slot) && Rel(isa, end, g, h)
    requires Exact(isa, env, slot, SetGpr(g, if c.op == 3 then 31 else 0, Plus(end, Value(8))))
    ensures var linked := SetGpr(g, if c.op == 3 then 31 else 0, Plus(end, Value(8)));
      Simulates(isa, env, end, AfterSlot(Step(isa, env, slot, linked), SX32(Value(JumpWord(end, c.addr)))),
        Emitters.Jump(c, Emit(slot), end), k, h, h1)
  {
    SupportedIsModelled(slot);
    hide Simulates, Rel, SX32, JumpTail, JumpWord, Step, Emit, Supported, Exact, Plus, LinkIf, Decoder.Dispatch,
      IsModelled, Decoder.RotatePattern, SetGpr;
    var target := SX32(Value(JumpWord(end, c.addr)));
    var tail := JumpTail(JumpWord(end, c.addr));
    var linked := SetGpr(g, if c.op == 3 then 31 else 0, Plus(end, Value(8)));
    var l := LinkRuns(isa, env, end, c.op == 3, (Emit(slot) + tail) + k, g, h);
    RelNext(isa, env, end, linked, LinkIf(c.op == 3), (Emit(slot) + tail) + k, h, l);
    var a := StepSimulated(isa, env, end, slot, tail + k, linked, l);
    h1 := a;
    match Step(isa, env, slot, linked) {
      case Next(g1) =>
        RelNext(isa, env, end, g1, Emit(slot), tail + k, l, a);
        h1 := JumpTailRuns(isa, env, end, JumpWord(end, c.addr), k, g1, a);
      case _ =>
    }
    SlotThen(isa, env, end, slot, target, tail, k, linked, l, a, h1);
    Sequenced(isa, env, end, Next(linked), AfterSlot(Step(isa, env, slot, linked), target),
              LinkIf(c.op == 3), Emit(slot) + tail, k, h, l, h1);
  }

  // ---- jr and jalr

  lemma LinkToRuns(isa: Isa, env: Env, end: Value, c: Ins, k: seq<Ins>, g: Guest, h: Host) returns (h1: Host)
    requires c.R? && WellFormed(c) && (c.func == 9 ==> c.rd != 0) && Rel(isa, end, g, h)
    ensures Simulates(isa, env, end, Next(SetGpr(g, if c.func == 9 then c.rd else 0, Plus(end, Value(8)))), LinkTo(c),
                      k, h, h1)
  {
    hide Exec, SX16, Plus;
    if c.func == 9 {
      SmallOffsets();
      h1 := RunPlusPc(isa, env, T1, 8, Gp(c.rd), k, h);
      RelGpr(isa, end, g, h, c.rd, Plus(end, Value(8)), h1);
    } else {
      assert [] + k == k;
      h1 := h;
    }
  }

  /** The front of jr and jalr: link, and save the target before the delay slot can change it. */
  lemma LinkAndSaveRuns(isa: Isa, env: Env, end: Value, c: Ins, k: seq<Ins>, g: Guest, h: Host) returns (h1: Host)
    requires c.R? && WellFormed(c) && (c.func == 9 ==> c.rd != 0) && Rel(isa, end, g, h)
    ensures Exec(isa, env, LinkAndSave(c) + k, h) == Exec(isa, env, k, h1)
    ensures Rel(isa, end, SetGpr(g, if c.func == 9 then c.rd else 0, Plus(end, Value(8))), h1)
    ensures h1.slots(TEMP_SLOT4) == SetGpr(g, if c.func == 9 then c.rd else 0, Plus(end, Value(8))).gpr(c.rs)
  {
    hide Exec, Plus;
    var save := [Fetch(T1, Gp(c.rs)), Put(T1, TEMP_SLOT4)];
    var linked := SetGpr(g, if c.func == 9 then c.rd else 0, Plus(end, Value(8)));
    Assoc(LinkTo(c), save, k);
    var l := LinkToRuns(isa, env, end, c, save + k, g, h);
    h1 := RunSaveOne(isa, env, T1, c.rs, k, l);
    RelTemp(isa, end, linked, l, l.slots(Gp(c.rs)), h1);
  }

  lemma JumpRegTailRuns(isa: Isa, env: Env, end: Value, k: seq<Ins>, g: Guest, h: Host) returns (h1: Host)
    requires Rel(isa, end, g, h)
    ensures Simulates(isa, env, end, Exit(FETCH_NEXT_BLOCK, g.(pc := h.slots(TEMP_SLOT4))),
              [Fetch(T1, TEMP_SLOT4), Put(T1, PC)] + (SetMark(T1, FETCH_NEXT_BLOCK) + ExitC()), k, h, h1)
  {
    hide Exec, MarkValue, SetMark, ExitC;
    var leave := SetMark(T1, FETCH_NEXT_BLOCK) + ExitC();
    Assoc([Fetch(T1, TEMP_SLOT4), Put(T1, PC)], leave, k);
    var a := RunMoveFrom(isa, env, TEMP_SLOT4, PC, leave + k, h);
    RelPc(isa, end, g, h, h.slots(TEMP_SLOT4), a);
    h1 := MarkedExitRuns(isa, env, end, k, g.(pc := h.slots(TEMP_SLOT4)), a);
  }

  /** jr and jalr: the target is the register as it was before the delay slot, but after the link. */
  lemma JumpRegRuns(isa: Isa, env: Env, end: Value, c: Ins, slot: Ins, k: seq<Ins>, g: Guest, h: Host)
    returns (h1: Host)
    requires c.R? && WellFormed(c) && (c.func == 9 ==> c.rd != 0) && Supported(slot) && Rel(isa, end, g, h)
    requires Exact(isa, env, slot, SetGpr(g, if c.func == 9 then c.rd else 0, Plus(end, Value(8))))
    ensures var linked := SetGpr(g, if c.func == 9 then c.rd else 0, Plus(end, Value(8)));
      Simulates(isa, env, end, AfterSlot(Step(isa, env, slot, linked), linked.gpr(c.rs)),
                Emitters.JumpReg(c, Emit(slot)), k, h, h1)
  {
    SupportedIsModelled(slot);
    hide Simulates, Rel, SetMark, ExitC, Step, Emit, Supported, Exact, Plus, Decoder.Dispatch, IsModelled,
      Decoder.RotatePattern, SetGpr;
    var front := LinkAndSave(c);
    var tail := [Fetch(T1, TEMP_SLOT4), Put(T1, PC)] + (SetMark(T1, FETCH_NEXT_BLOCK) + ExitC());
    var linked := SetGpr(g, if c.func == 9 then c.rd else 0, Plus(end, Value(8)));
    var l := LinkAndSaveRuns(isa, env, end, c, (Emit(slot) + tail) + k, g, h);
    var a := StepSimulated(isa, env, end, slot, tail + k, linked, l);
    h1 := a;
    match Step(isa, env, slot, linked) {
      case Next(g1) =>
        RelNext(isa, env, end, g1, Emit(slot), tail + k, l, a);
        h1 := JumpRegTailRuns(isa, env, end, k, g1, a);
      case _ =>
    }
    SlotThen(isa, env, end, slot, linked.gpr(c.rs), tail, k, linked, l, a, h1);
    AfterSlotLeaves(isa, env, slot, linked, linked.gpr(c.rs));
    Prepend(isa, env, end, AfterSlot(Step(isa, env, slot, linked), linked.gpr(c.rs)), front, Emit(slot) + tail, k, h,
            l, h1);
  }

  // ---- every control instruction

  /** The decision or the target is read after the link has been written: that makes no difference to an instruction
      that reads another register, decides the same either way, or jumps to the link address itself. */
  predicate LinkExact(c: Ins, g: Guest) {
    var v := Plus(g.pc, Value(8));
    match c
    case R(_, rs, _, rd, _, func) => func != 9 || rd != rs || g.gpr(rs) == v
    case I(op, rs, rt, _) => !IsLinkBranch(op, rt) || rs != 31
        || Taken(op, rt, g.gpr(31), ZERO) == Taken(op, rt, v, ZERO)
    case J(_, _) => true
  }

  function LinkedState(c: Ins, g: Guest): Guest { SetGpr(g, LinkRegister(c), Plus(g.pc, Value(8))) }

  predicate SlotRuns(c: Ins, g: Guest) {
    !c.I? || !IsLikely(c.op, c.rt) || Taken(c.op, c.rt, g.gpr(c.rs), g.gpr(c.rt))
  }

  /** The states in which the code of a supported control instruction and its delay slot is right. */
  predicate ControlExact(isa: Isa, env: Env, c: Ins, slot: Ins, g: Guest) {
    LinkExact(c, g) && (SlotRuns(c, g) ==> Exact(isa, env, slot, LinkedState(c, g)))
  }

  /** The control instructions that are translated faithfully at address pc. */
  predicate SupportedControl(c: Ins, pc: Value) {
    WellFormed(c) && Decoder.NeedsSlot(Decoder.Dispatch(c))
    && match c
       case R(_, _, _, rd, _, func) => func == 9 ==> rd != 0
       case I(op, _, rt, imm) =>
         BranchInRange(imm) && (op == 6 || op == 7 || op == 22 || op == 23 ==> rt == 0) // as blez, bgtz are encoded
       case J(_, _) => JumpInRange(pc)
  }

  lemma ControlOfBranch(isa: Isa, env: Env, c: Ins, slot: Ins, g: Guest)
    requires c.I? && !IsLikely(c.op, c.rt) && BranchInRange(c.imm)
    ensures var linked := SetGpr(g, if IsLinkBranch(c.op, c.rt) then 31 else 0, Plus(g.pc, Value(8)));
      Control(isa, env, c, slot, g)
      == AfterSlot(Step(isa, env, slot, linked), BranchTarget(g.pc, c.imm, Taken(c.op, c.rt, g.gpr(c.rs), g.gpr(c.rt))))
  {
    BranchExact(c, g.pc, g);
    SmallOffsets();
    hide Step, Plus, SX16, Target, Taken, BranchImm, SetGpr;
  }

  lemma ControlOfLikely(isa: Isa, env: Env, c: Ins, slot: Ins, g: Guest)
    requires c.I? && IsLikely(c.op, c.rt) && BranchInRange(c.imm)
    ensures var linked := SetGpr(g, if IsLinkBranch(c.op, c.rt) then 31 else 0, Plus(g.pc, Value(8)));
      Control(isa, env, c, slot, g)
      == LikelyResult(isa, env, g.pc, c, slot, Taken(c.op, c.rt, g.gpr(c.rs), g.gpr(c.rt)), linked)
  {
    BranchExact(c, g.pc, g);
    SmallOffsets();
    hide Step, Plus, SX16, Target, Taken, BranchImm, SetGpr;
  }

  lemma ControlOfJump(isa: Isa, env: Env, c: Ins, slot: Ins, g: Guest)
    requires c.J? && WellFormed(c) && JumpInRange(g.pc)
    ensures var linked := SetGpr(g, if c.op == 3 then 31 else 0, Plus(g.pc, Value(8)));
      Control(isa, env, c, slot, g) == AfterSlot(Step(isa, env, slot, linked), SX32(Value(JumpWord(g.pc, c.addr))))
  {
    JumpExact(c, g.pc, g);
    hide Step, Plus, Target, SX32, JumpWord, SetGpr;
  }

  lemma ControlOfJumpReg(isa: Isa, env: Env, c: Ins, slot: Ins, g: Guest)
    requires c.R?
    ensures var linked := SetGpr(g, if c.func == 9 then c.rd else 0, Plus(g.pc, Value(8)));
      Control(isa, env, c, slot, g) == AfterSlot(Step(isa, env, slot, linked), g.gpr(c.rs))
  {
    hide Step, Plus, SetGpr;
  }

  lemma ControlFields(c: Ins, pc: Value)
    requires SupportedControl(c, pc)
    ensures WellFormed(c)
    ensures c.R? ==> (Decoder.Dispatch(c).JumpReg? || Decoder.Dispatch(c).JumpLinkReg?) && (c.func == 8 || c.func == 9)
    ensures c.J? ==> Decoder.Dispatch(c).Jump? || Decoder.Dispatch(c).JumpLink?
    ensures c.I? ==>
      (Decoder.Dispatch(c).BneBeq? && (c.op == 4 || c.op == 5))
      || (Decoder.Dispatch(c).BneBeqLikely? && (c.op == 20 || c.op == 21))
      || ((Decoder.Dispatch(c).Branch? || Decoder.Dispatch(c).BBit?) && OneRegisterBranch(c.op, c.rt)
          && (IsLinkBranch(c.op, c.rt) <==> Decoder.Dispatch(c).Branch? && (c.rt == 16 || c.rt == 17) && c.op == 1))
      || (Decoder.Dispatch(c).BranchLikely? && (c.op == 22 || c.op == 23 || c.op == 1) && IsLikely(c.op, c.rt)
          && (IsLinkBranch(c.op, c.rt) <==> c.rt == 18 || c.rt == 19))
  {
    hide JumpInRange, BranchInRange;
  }

  lemma EmittedBranch(c: Ins, s: seq<Ins>, pc: Value)
    requires c.I? && SupportedControl(c, pc)
    ensures Decoder.Dispatch(c).BneBeq? ==> EmitControl(c, s, pc) == BneBeq(c, s)
    ensures Decoder.Dispatch(c).BneBeqLikely? ==> EmitControl(c, s, pc) == BneBeqLikely(c, s)
    ensures Decoder.Dispatch(c).BranchLikely? ==> EmitControl(c, s, pc) == Emitters.BranchLikely(c, s)
    ensures Decoder.Dispatch(c).Branch? || Decoder.Dispatch(c).BBit? ==>
              EmitControl(c, s, pc) == Emitters.Branch(c, IsLinkBranch(c.op, c.rt), s)
  {
    ControlFields(c, pc);
    hide SupportedControl, WellFormed, Decoder.Dispatch, Emitters.Branch, Emitters.BranchLikely, Emitters.BneBeq,
      Emitters.BneBeqLikely, Emitters.Jump, Emitters.JumpReg;
  }

  lemma EmittedJump(c: Ins, s: seq<Ins>, pc: Value)
    requires SupportedControl(c, pc)
    ensures c.J? ==> EmitControl(c, s, pc) == Emitters.Jump(c, s, pc)
    ensures c.R? ==> EmitControl(c, s, pc) == Emitters.JumpReg(c, s)
  {
    hide SupportedControl, WellFormed, OneRegisterBranch, IsLikely, Decoder.NeedsSlot, Decoder.Dispatch,
      Emitters.Branch, Emitters.BranchLikely, Emitters.BneBeq, Emitters.BneBeqLikely, Emitters.Jump, Emitters.JumpReg;
    ControlFields(c, pc);
    ControlRange(c, pc);
  }

  lemma ControlRange(c: Ins, pc: Value)
    requires SupportedControl(c, pc)
    ensures Decoder.NeedsSlot(Decoder.Dispatch(c)) && WellFormed(c)
    ensures match c
            case R(_, _, _, rd, _, func) => func == 9 ==> rd != 0
            case I(_, _, _, imm) => BranchInRange(imm)
            case J(_, _) => JumpInRange(pc)
  {
  }

  lemma NoLink(g: Guest, v: Value)
    ensures SetGpr(g, 0, v) == g
  {
  }

  /** A link branch that decides before or after the link. */
  lemma SameDecision(c: Ins, g: Guest)
    requires c.I? && LinkExact(c, g)
    requires c.op != 4 && c.op != 5 && c.op != 20 && c.op != 21
    ensures Taken(c.op, c.rt, LinkedState(c, g).gpr(c.rs), ZERO) == Taken(c.op, c.rt, g.gpr(c.rs), g.gpr(c.rt))
  {
    TakenIgnoresRt(c.op, c.rt, g.gpr(c.rs), g.gpr(c.rt), ZERO);
    hide Taken, Plus;
  }

  lemma BranchControlSimulated(isa: Isa, env: Env, c: Ins, slot: Ins, k: seq<Ins>, g: Guest, h: Host) returns (h1: Host)
    requires c.I? && SupportedControl(c, g.pc) && Supported(slot) && ControlExact(isa, env, c, slot, g)
    requires Rel(isa, g.pc, g, h)
    ensures Simulates(isa, env, g.pc, Control(isa, env, c, slot, g), EmitControl(c, Emit(slot), g.pc), k, h, h1)
  {
    hide Simulates, Rel, Control, Emit, EmitControl, Supported, Exact, SupportedControl, BranchInRange, Emitters.Branch,
      Emitters.BranchLikely, Emitters.BneBeq, Emitters.BneBeqLikely, AfterSlot, LikelyResult, BranchTarget, Step, Taken,
      SetGpr, Plus, WellFormed, Decoder.Dispatch, IsModelled, Decoder.RotatePattern, Decoder.NeedsSlot, LinkExact;
    SupportedIsModelled(slot);
    ControlFields(c, g.pc);
    ControlRange(c, g.pc);
    EmittedBranch(c, Emit(slot), g.pc);
    NoLink(g, Plus(g.pc, Value(8)));
    if Decoder.Dispatch(c).BneBeq? {
      ControlOfBranch(isa, env, c, slot, g);
      h1 := BneBeqRuns(isa, env, g.pc, c, slot, k, g, h);
    } else if Decoder.Dispatch(c).BneBeqLikely? {
      ControlOfLikely(isa, env, c, slot, g);
      h1 := BneBeqLikelyRuns(isa, env, g.pc, c, slot, k, g, h);
    } else if Decoder.Dispatch(c).BranchLikely? {
      ControlOfLikely(isa, env, c, slot, g);
      SameDecision(c, g);
      h1 := BranchLikelyRuns(isa, env, g.pc, c, c.rt == 18 || c.rt == 19, slot, k, g, h);
    } else {
      ControlOfBranch(isa, env, c, slot, g);
      SameDecision(c, g);
      h1 := BranchRuns(isa, env, g.pc, c, IsLinkBranch(c.op, c.rt), slot, k, g, h);
    }
  }

  lemma SameTarget(c: Ins, g: Guest)
    requires c.R? && LinkExact(c, g)
    ensures LinkedState(c, g).gpr(c.rs) == g.gpr(c.rs)
  {
    hide Plus;
  }

  /** A control instruction with its delay slot: whatever the slot translates to, the host leaves where the guest
      goes, with the slot executed exactly when the guest executes it and the decision taken before it. */
  lemma ControlSimulated(isa: Isa, env: Env, c: Ins, slot: Ins, k: seq<Ins>, g: Guest, h: Host) returns (h1: Host)
    requires SupportedControl(c, g.pc) && Supported(slot) && ControlExact(isa, env, c, slot, g) && Rel(isa, g.pc, g, h)
    ensures Simulates(isa, env, g.pc, Control(isa, env, c, slot, g), EmitControl(c, Emit(slot), g.pc), k, h, h1)
  {
    hide Simulates, Rel, Control, Emit, EmitControl, Supported, Exact, SupportedControl, JumpInRange, Emitters.Jump,
      Emitters.JumpReg, AfterSlot, Step, SetGpr, Plus, WellFormed, Decoder.Dispatch, IsModelled, Decoder.RotatePattern,
      Decoder.NeedsSlot, SX32, JumpWord, LinkExact;
    SupportedIsModelled(slot);
    if c.I? {
      h1 := BranchControlSimulated(isa, env, c, slot, k, g, h);
      return;
    }
    ControlFields(c, g.pc);
    ControlRange(c, g.pc);
    EmittedJump(c, Emit(slot), g.pc);
    if c.J? {
      ControlOfJump(isa, env, c, slot, g);
      h1 := JumpRuns(isa, env, g.pc, c, slot, k, g, h);
    } else {
      ControlOfJumpReg(isa, env, c, slot, g);
      SameTarget(c, g);
      h1 := JumpRegRuns(isa, env, g.pc, c, slot, k, g, h);
    }
  }
}
