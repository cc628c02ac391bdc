/** Where the code of control instructions goes wrong: the link written too early, a link to $0, a target too far. */
module ControlExactness {
  import opened Words
  import opened Instructions
  import opened Machine
  import opened HostMachine
  import opened GuestMachine
  import opened Emitters
  import opened HostSteps
  import opened Simulation
  import opened Faithfulness
  import opened MaddSimulation
  import opened BlockSimulation
  import opened ControlSimulation
  import Decoder

  // ---- code that leaves somewhere else

  /** Code that leaves at another address than the guest is not faithful. */
  lemma ElsewhereFails(isa: Isa, env: Env, end: Value, code: seq<Ins>, g1: Guest, g2: Guest, h: Host, h1: Host)
    requires Simulates(isa, env, end, Exit(FETCH_NEXT_BLOCK, g1), code, [], h, h1) && g1.pc != g2.pc
    ensures !Faithful(isa, env, end, Exit(FETCH_NEXT_BLOCK, g2), code, h)
  {
    hide Faithful, Simulates;
    if Faithful(isa, env, end, Exit(FETCH_NEXT_BLOCK, g2), code, h) {
      Observe(isa, env, end, Exit(FETCH_NEXT_BLOCK, g2), code, h, []);
      var h2: Host :| Simulates(isa, env, end, Exit(FETCH_NEXT_BLOCK, g2), code, [], h, h2);
      SameExit(isa, env, end, code, g1, g2, h, h1, h2);
    }
  }

  lemma SameExit(isa: Isa, env: Env, end: Value, code: seq<Ins>, g1: Guest, g2: Guest, h: Host, h1: Host, h2: Host)
    requires Simulates(isa, env, end, Exit(FETCH_NEXT_BLOCK, g1), code, [], h, h1)
    requires Simulates(isa, env, end, Exit(FETCH_NEXT_BLOCK, g2), code, [], h, h2)
    ensures g1.pc == g2.pc
  {
    hide Exec, MarkValue;
    assert h1 == h2;
  }

  lemma TargetsApart(v: bv16)
    requires (v <= 0x1FFE || v >= 0xDFFF) && v != 1
    ensures SignExtend16((v << 2) + 4) != 8
  {
  }

  /** A branch in range reaches its fall-through address only with offset 1. */
  lemma EndsApart(end: Value, imm: int)
    requires BranchInRange(imm) && Half(imm) != 1
    ensures BranchTarget(end, imm, true) != BranchTarget(end, imm, false)
  {
    BranchField(imm);
    SmallOffsets();
    TargetsApart(Half(imm));
    hide SignExtend16, Half, Plus, SX16, BranchImm, BranchOffset;
    SameAccumulated(0, end, SX16(BranchImm(imm)), SX16(8));
  }

  // ---- the link comes first

  /** The emitted result: as Control, but with decision and target taken after the link. */
  function LinkFirst(isa: Isa, env: Env, c: Ins, slot: Ins, g: Guest): Result {
    var linked := LinkedState(c, g);
    match c
    case R(_, rs, _, _, _, _) => AfterSlot(Step(isa, env, slot, linked), linked.gpr(rs))
    case I(op, rs, rt, imm) =>
      if IsLikely(op, rt) then LikelyResult(isa, env, g.pc, c, slot, Taken(op, rt, linked.gpr(rs), ZERO), linked)
      else AfterSlot(Step(isa, env, slot, linked), BranchTarget(g.pc, imm, Taken(op, rt, linked.gpr(rs), ZERO)))
    case J(_, _) => Control(isa, env, c, slot, g)
  }

  /** A control instruction that links through a register. */
  predicate LinksThroughRegister(c: Ins) {
    match c
    case R(_, _, _, _, _, func) => func == 9
    case I(op, _, rt, _) => IsLinkBranch(op, rt)
    case J(_, _) => false
  }

  lemma LinkFields(c: Ins, pc: Value)
    requires SupportedControl(c, pc) && LinksThroughRegister(c)
    ensures WellFormed(c) && !c.J?
    ensures c.R? ==> (Decoder.Dispatch(c).JumpLinkReg? || Decoder.Dispatch(c).JumpReg?) && c.rd != 0
    ensures c.I? ==> c.op == 1 && BranchInRange(c.imm)
    ensures c.I? && IsLikely(c.op, c.rt) ==> Decoder.Dispatch(c).BranchLikely? && (c.rt == 18 || c.rt == 19)
    ensures c.I? && !IsLikely(c.op, c.rt) ==> Decoder.Dispatch(c).Branch? && OneRegisterBranch(c.op, c.rt)
  {
    hide BranchInRange, JumpInRange;
  }

  /** What the emitted link branches and jalr do, whatever register they read. */
  lemma LinkFirstRuns(isa: Isa, env: Env, c: Ins, slot: Ins, k: seq<Ins>, g: Guest, h: Host) returns (h1: Host)
    requires SupportedControl(c, g.pc) && LinksThroughRegister(c) && Supported(slot) && Rel(isa, g.pc, g, h)
    requires Exact(isa, env, slot, LinkedState(c, g))
    ensures Simulates(isa, env, g.pc, LinkFirst(isa, env, c, slot, g), EmitControl(c, Emit(slot), g.pc), k, h, h1)
  {
    SupportedIsModelled(slot);
    LinkFields(c, g.pc);
    if c.R? {
      EmittedJump(c, Emit(slot), g.pc);
      hide Simulates, Rel, Emit, EmitControl, Supported, Exact, SupportedControl, Emitters.JumpReg, AfterSlot, Step,
        SetGpr, Plus, WellFormed, Decoder.Dispatch, IsModelled, Decoder.RotatePattern;
      h1 := JumpRegRuns(isa, env, g.pc, c, slot, k, g, h);
    } else {
      EmittedBranch(c, Emit(slot), g.pc);
      hide Simulates, Rel, Emit, EmitControl, Supported, Exact, SupportedControl, Emitters.Branch,
        Emitters.BranchLikely, AfterSlot, LikelyResult, BranchTarget, Step, SetGpr, Plus, Taken, WellFormed,
        Decoder.Dispatch, IsModelled, Decoder.RotatePattern, OneRegisterBranch;
      if IsLikely(c.op, c.rt) {
        h1 := BranchLikelyRuns(isa, env, g.pc, c, true, slot, k, g, h);
      } else {
        h1 := BranchRuns(isa, env, g.pc, c, true, slot, k, g, h);
      }
    }
  }

  /** The reference, for the same instructions. */
  lemma ControlOfLink(isa: Isa, env: Env, c: Ins, slot: Ins, g: Guest)
    requires SupportedControl(c, g.pc) && LinksThroughRegister(c)
    ensures var linked := LinkedState(c, g);
      Control(isa, env, c, slot, g)
      == match c
         case R(_, rs, _, _, _, _) => AfterSlot(Step(isa, env, slot, linked), g.gpr(rs))
         case I(op, rs, rt, imm) =>
           if IsLikely(op, rt) then LikelyResult(isa, env, g.pc, c, slot, Taken(op, rt, g.gpr(rs), ZERO), linked)
           else AfterSlot(Step(isa, env, slot, linked), BranchTarget(g.pc, imm, Taken(op, rt, g.gpr(rs), ZERO)))
         case J(_, _) => Control(isa, env, c, slot, g)
  {
    LinkFields(c, g.pc);
    if c.R? {
      ControlOfJumpReg(isa, env, c, slot, g);
    } else if IsLikely(c.op, c.rt) {
      ControlOfLikely(isa, env, c, slot, g);
      TakenIgnoresRt(c.op, c.rt, g.gpr(c.rs), g.gpr(c.rt), ZERO);
    } else {
      ControlOfBranch(isa, env, c, slot, g);
      TakenIgnoresRt(c.op, c.rt, g.gpr(c.rs), g.gpr(c.rt), ZERO);
    }
    hide Control, AfterSlot, LikelyResult, BranchTarget, Step, Taken, Plus, SetGpr, SupportedControl, Decoder.Dispatch;
  }

  /** The offset of a branch to its own fall-through address. */
  predicate ToNext(c: Ins) { c.I? && Half(c.imm) == 1 }

  lemma LinkOrderMatters(isa: Isa, env: Env, c: Ins, slot: Ins, g: Guest)
    requires SupportedControl(c, g.pc) && LinksThroughRegister(c) && Step(isa, env, slot, LinkedState(c, g)).Next?
    requires !LinkExact(c, g) && !ToNext(c)
    ensures Control(isa, env, c, slot, g).Exit? && LinkFirst(isa, env, c, slot, g).Exit?
    ensures Control(isa, env, c, slot, g).mark == FETCH_NEXT_BLOCK
            && LinkFirst(isa, env, c, slot, g).mark == FETCH_NEXT_BLOCK
    ensures Control(isa, env, c, slot, g).guest.pc != LinkFirst(isa, env, c, slot, g).guest.pc
  {
    ControlOfLink(isa, env, c, slot, g);
    LinkFields(c, g.pc);
    if c.I? {
      EndsApart(g.pc, c.imm);
    }
    hide Control, Step, Plus, Taken, BranchTarget, SupportedControl, Decoder.Dispatch, WellFormed, IsLikely,
      BranchInRange;
  }

  lemma LinkOrderFree(isa: Isa, env: Env, c: Ins, slot: Ins, g: Guest)
    requires SupportedControl(c, g.pc) && LinksThroughRegister(c)
    requires LinkExact(c, g) || (ToNext(c) && !IsLikely(c.op, c.rt))
    ensures Control(isa, env, c, slot, g) == LinkFirst(isa, env, c, slot, g)
  {
    ControlOfLink(isa, env, c, slot, g);
    LinkFields(c, g.pc);
    if ToNext(c) {
      NextIsNext(g.pc, c.imm);
    }
    hide Control, Step, Plus, Taken, BranchTarget, SupportedControl, Decoder.Dispatch, WellFormed, IsLikely,
      BranchInRange, LikelyResult, AfterSlot;
  }

  lemma NextIsNext(end: Value, imm: int)
    requires Half(imm) == 1
    ensures BranchTarget(end, imm, true) == BranchTarget(end, imm, false)
  {
    BranchField(imm);
    SmallOffsets();
    assert SignExtend16((1 << 2) + 4) == 8;
    hide SignExtend16, Half, Plus, SX16, BranchImm, BranchOffset;
  }

  /** The emitted bltzal, bgezal, their likely forms and jalr write the link before they read the register: that is
      right exactly where LinkExact holds, or (but for the likely forms) where the branch goes to the next block
      anyway. */
  lemma LinkExactly(isa: Isa, env: Env, c: Ins, slot: Ins, g: Guest, h: Host)
    requires SupportedControl(c, g.pc) && LinksThroughRegister(c) && Supported(slot) && Rel(isa, g.pc, g, h)
    requires Exact(isa, env, slot, LinkedState(c, g)) && Step(isa, env, slot, LinkedState(c, g)).Next?
    requires c.I? && IsLikely(c.op, c.rt) ==> !ToNext(c)
    ensures IsModelled(Decoder.Dispatch(slot)) && Decoder.NeedsSlot(Decoder.Dispatch(c))
    ensures Faithful(isa, env, g.pc, Control(isa, env, c, slot, g), EmitControl(c, Emit(slot), g.pc), h)
            <==> LinkExact(c, g) || ToNext(c)
  {
    SupportedIsModelled(slot);
    ControlRange(c, g.pc);
    hide Simulates, Rel, Control, LinkFirst, Emit, EmitControl, Supported, SupportedControl, Exact, Step, LinkExact,
      ToNext, Decoder.Dispatch, IsModelled, Decoder.RotatePattern, WellFormed, LinksThroughRegister, IsLikely,
      LinkedState;
    if LinkExact(c, g) || ToNext(c) {
      LinkOrderFree(isa, env, c, slot, g);
      forall k ensures Reaches(isa, env, g.pc, Control(isa, env, c, slot, g), EmitControl(c, Emit(slot), g.pc), k, h) {
        var h1 := LinkFirstRuns(isa, env, c, slot, k, g, h);
      }
    } else {
      LinkOrderMatters(isa, env, c, slot, g);
      var h1 := LinkFirstRuns(isa, env, c, slot, [], g, h);
      hide Faithful;
      ElsewhereFails(isa, env, g.pc, EmitControl(c, Emit(slot), g.pc), LinkFirst(isa, env, c, slot, g).guest,
                     Control(isa, env, c, slot, g).guest, h, h1);
    }
  }

  // ---- one failing instruction each, in every state at one address

  lemma NopSlot(isa: Isa, env: Env, g: Guest)
    ensures Supported(NOP) && Exact(isa, env, NOP, g) && Step(isa, env, NOP, g) == Next(g)
    ensures IsModelled(Decoder.Dispatch(NOP)) && !Decoder.RotatePattern(NOP)
  {
    assert Decoder.Dispatch(NOP).OneNop?;
    StepNothing(isa, env, NOP, g);
    hide Step;
  }

  /** A jump, or a branch that is taken, over a nop, without link. */
  lemma NopControl(isa: Isa, env: Env, c: Ins, g: Guest)
    requires LinkRegister(c) == 0 && (c.I? ==> Taken(c.op, c.rt, g.gpr(c.rs), g.gpr(c.rt)))
    ensures Control(isa, env, c, NOP, g) == Exit(FETCH_NEXT_BLOCK, g.(pc := Target(c, g.pc, g)))
  {
    NopSlot(isa, env, g);
    NoLink(g, Plus(g.pc, Value(8)));
    hide Step, Target, Plus, SetGpr, Taken;
  }

  const KERNEL_START := Value(0xFFFF_FFFF_8000_0000)

  lemma KernelLink()
    ensures Negative(Plus(KERNEL_START, Value(8))) && !Negative(ZERO)
    ensures BranchInRange(5) && Half(5) != 1
  {
  }

  lemma LinkingBranch(g: Guest)
    requires g.pc == KERNEL_START && g.gpr(31) == ZERO
    ensures var c := I(1, 31, 16, 5);
      SupportedControl(c, g.pc) && LinksThroughRegister(c) && !LinkExact(c, g) && !ToNext(c)
  {
    KernelLink();
    hide Negative, Plus, BranchInRange, Half;
  }

  /** A link branch that reads $31: bltzal $31, .+24 at the start of kseg0, with $31 = 0. The branch is not taken; the
      emitted code finds the link address there, which is negative, and takes it. */
  lemma LinkFirstFails(isa: Isa, env: Env, g: Guest, h: Host)
    requires Rel(isa, g.pc, g, h) && g.pc == KERNEL_START && g.gpr(31) == ZERO
    ensures IsModelled(Decoder.Dispatch(NOP)) && !Decoder.RotatePattern(NOP)
    ensures WellFormed(I(1, 31, 16, 5)) && Decoder.NeedsSlot(Decoder.Dispatch(I(1, 31, 16, 5)))
    ensures var c := I(1, 31, 16, 5);
      !Faithful(isa, env, g.pc, Control(isa, env, c, NOP, g), EmitControl(c, Emit(NOP), g.pc), h)
  {
    var c := I(1, 31, 16, 5);
    LinkingBranch(g);
    NopSlot(isa, env, LinkedState(c, g));
    ControlRange(c, g.pc);
    hide Faithful, Rel, Control, Emit, EmitControl, SupportedControl, Exact, Step, LinkExact, Supported, ToNext,
      Decoder.Dispatch, LinksThroughRegister, LinkedState, IsModelled, Decoder.RotatePattern;
    LinkExactly(isa, env, c, NOP, g, h);
  }

  lemma FarOffset()
    ensures SX16(BranchImm(8191)) == Value(0xFFFF_FFFF_FFFF_8000) && BranchOffset(8191) == Value(0x8000)
  {
    BranchField(8191);
    assert Half(8191) == 0x1FFF;
  }

  lemma FarTargets(g: Guest)
    requires g.pc == Value(0x1_0000)
    ensures Target(I(4, 0, 0, 8191), g.pc, g) == Value(0x1_8000) && BranchTarget(g.pc, 8191, true) == Value(0x8000)
  {
    FarOffset();
    assert Plus(Value(0x1_0000), Value(0xFFFF_FFFF_FFFF_8000)) == Value(0x8000);
    assert Plus(Value(0x1_0000), Value(0x8000)) == Value(0x1_8000);
    hide Plus, SX16, BranchImm, BranchOffset;
  }

  lemma FarBranchCode(end: Value)
    ensures IsModelled(Decoder.Dispatch(NOP)) && !Decoder.RotatePattern(NOP)
    ensures WellFormed(I(4, 0, 0, 8191)) && Decoder.NeedsSlot(Decoder.Dispatch(I(4, 0, 0, 8191)))
    ensures EmitControl(I(4, 0, 0, 8191), Emit(NOP), end) == BneBeq(I(4, 0, 0, 8191), Emit(NOP))
  {
    hide BneBeq, Emit;
  }

  /** A branch too far: beq $0, $0 with offset 8191 at address 0x10000 goes back to 0x8000 instead of on to 0x18000. */
  lemma FarBranchFails(isa: Isa, env: Env, g: Guest, h: Host)
    requires Rel(isa, g.pc, g, h) && g.pc == Value(0x1_0000)
    ensures IsModelled(Decoder.Dispatch(NOP)) && !Decoder.RotatePattern(NOP)
    ensures WellFormed(I(4, 0, 0, 8191)) && Decoder.NeedsSlot(Decoder.Dispatch(I(4, 0, 0, 8191)))
    ensures var c := I(4, 0, 0, 8191);
      !Faithful(isa, env, g.pc, Control(isa, env, c, NOP, g), EmitControl(c, Emit(NOP), g.pc), h)
  {
    var c := I(4, 0, 0, 8191);
    FarBranchCode(g.pc);
    NopSlot(isa, env, g);
    NopControl(isa, env, c, g);
    FarTargets(g);
    hide Faithful, Rel, Control, Emit, EmitControl, BneBeq, Exact, Step, Supported, Target, BranchTarget, Simulates,
      Decoder.Dispatch, IsModelled, Decoder.RotatePattern;
    var h1 := BneBeqRuns(isa, env, g.pc, c, NOP, [], g, h);
    ElsewhereFails(isa, env, g.pc, EmitControl(c, Emit(NOP), g.pc), g.(pc := Value(0x8000)), g.(pc := Value(0x1_8000)),
                   h, h1);
  }

  lemma LastOfRegion()
    ensures SX32(Value(JumpWord(Value(0x0FFF_FFFC), 0))) == ZERO && RegionTarget(0x0FFF_FFFC, 0) == 0x1000_0000
  {
  }

  lemma RegionJumpCode(end: Value)
    ensures IsModelled(Decoder.Dispatch(NOP)) && !Decoder.RotatePattern(NOP)
    ensures WellFormed(J(2, 0)) && Decoder.NeedsSlot(Decoder.Dispatch(J(2, 0)))
    ensures EmitControl(J(2, 0), Emit(NOP), end) == Emitters.Jump(J(2, 0), Emit(NOP), end)
  {
    hide Emitters.Jump, Emit;
  }

  /** A jump whose delay slot is in the next 256 MB region: j 0 at 0x0FFF_FFFC goes to 0 instead of 0x1000_0000. */
  lemma RegionJumpFails(isa: Isa, env: Env, g: Guest, h: Host)
    requires Rel(isa, g.pc, g, h) && g.pc == Value(0x0FFF_FFFC)
    ensures IsModelled(Decoder.Dispatch(NOP)) && !Decoder.RotatePattern(NOP)
    ensures WellFormed(J(2, 0)) && Decoder.NeedsSlot(Decoder.Dispatch(J(2, 0)))
    ensures !Faithful(isa, env, g.pc, Control(isa, env, J(2, 0), NOP, g), EmitControl(J(2, 0), Emit(NOP), g.pc), h)
  {
    var c := J(2, 0);
    RegionJumpCode(g.pc);
    NopSlot(isa, env, g);
    NopControl(isa, env, c, g);
    LastOfRegion();
    NoLink(g, Plus(g.pc, Value(8)));
    assert Target(c, g.pc, g) == Value(0x1000_0000);
    hide Faithful, Rel, Control, Emit, EmitControl, Emitters.Jump, Exact, Step, Supported, Plus, Target, JumpWord, SX32,
      Simulates, Decoder.Dispatch, IsModelled, Decoder.RotatePattern, RegionTarget, SetGpr;
    var h1 := JumpRuns(isa, env, g.pc, c, NOP, [], g, h);
    ElsewhereFails(isa, env, g.pc, EmitControl(c, Emit(NOP), g.pc), g.(pc := ZERO), g.(pc := Value(0x1000_0000)), h,
                   h1);
  }

  // ---- jalr to $0

  /** The link step of jalr is right exactly when it does not put a link address into the slot of $0. */
  lemma LinkToExactly(isa: Isa, env: Env, end: Value, c: Ins, g: Guest, h: Host)
    requires c.R? && 0 <= c.rd < 32 && Rel(isa, end, g, h)
    ensures Faithful(isa, env, end, Next(SetGpr(g, if c.func == 9 then c.rd else 0, Plus(end, Value(8)))), LinkTo(c), h)
            <==> c.func == 9 ==> c.rd != 0 || Plus(end, Value(8)) == ZERO
  {
    hide Simulates, Rel, Plus, LinkTo, ExitC, Exec, SX16, Faithful;
    var v := Plus(end, Value(8));
    var r := Next(SetGpr(g, if c.func == 9 then c.rd else 0, v));
    if c.func == 9 && c.rd == 0 && v != ZERO {
      var h1 := RunLinkZero(isa, env, end, c, ExitC(), g, h);
      NoLink(g, v);
      ZeroSlotWritten(isa, env, end, g, LinkTo(c), h, v, h1);
    } else {
      assert Faithful(isa, env, end, r, LinkTo(c), h) by {
        LinkToFaithful(isa, env, end, c, g, h);
      }
    }
  }

  lemma RunLinkZero(isa: Isa, env: Env, end: Value, c: Ins, k: seq<Ins>, g: Guest, h: Host) returns (h1: Host)
    requires c.R? && c.func == 9 && Rel(isa, end, g, h)
    ensures Exec(isa, env, LinkTo(c) + k, h) == Exec(isa, env, k, h1) && Wrote(h, h1, Gp(c.rd), Plus(end, Value(8)))
  {
    hide Exec, SX16, Plus;
    SmallOffsets();
    h1 := RunPlusPc(isa, env, T1, 8, Gp(c.rd), k, h);
  }

  lemma LinkToFaithful(isa: Isa, env: Env, end: Value, c: Ins, g: Guest, h: Host)
    requires c.R? && 0 <= c.rd < 32 && Rel(isa, end, g, h)
    requires c.func == 9 ==> c.rd != 0 || Plus(end, Value(8)) == ZERO
    ensures Faithful(isa, env, end, Next(SetGpr(g, if c.func == 9 then c.rd else 0, Plus(end, Value(8)))), LinkTo(c), h)
  {
    var r := Next(SetGpr(g, if c.func == 9 then c.rd else 0, Plus(end, Value(8))));
    forall k ensures Reaches(isa, env, end, r, LinkTo(c), k, h) {
      hide Plus, Exec, Rel;
      if c.func == 9 {
        var h1 := RunLinkZero(isa, env, end, c, k, g, h);
        RelResult(isa, end, g, h, c.rd, Plus(end, Value(8)), h1);
        assert Simulates(isa, env, end, r, LinkTo(c), k, h, h1);
      } else {
        assert [] + k == k;
        assert Simulates(isa, env, end, r, LinkTo(c), k, h, h);
      }
    }
  }

  /** jalr $0, $5 at address 0 writes its link into the slot of $0. */
  lemma LinkToZeroFails(isa: Isa, env: Env, g: Guest, h: Host)
    requires Rel(isa, ZERO, g, h)
    ensures !Faithful(isa, env, ZERO, Next(g), LinkTo(R(0, 5, 0, 0, 0, 9)), h)
  {
    assert Plus(ZERO, Value(8)) == Value(8);
    NoLink(g, Value(8));
    hide Faithful, Rel, LinkTo, Plus, SetGpr;
    LinkToExactly(isa, env, ZERO, R(0, 5, 0, 0, 0, 9), g, h);
  }
}
