/** From instructions to the words in the code buffer. */
module TranslatedCode {
  import opened Words
  import opened Instructions
  import opened Machine
  import opened HostMachine
  import opened GuestMachine
  import opened Emitters
  import opened HostSteps
  import opened Simulation
  import opened BlockSimulation
  import opened ControlSimulation
  import opened BlockTranslation
  import Decoder

  function Encoded(code: seq<Ins>): (w: seq<Word>)
    ensures |w| == |code| && forall k :: 0 <= k < |code| ==> w[k] == Encode(code[k])
  {
    if code == [] then [] else [Encode(code[0])] + Encoded(code[1..])
  }

  function Parsed(words: seq<Word>): (c: seq<Ins>)
    ensures |c| == |words| && forall k :: 0 <= k < |words| ==> c[k] == Parse(words[k])
  {
    if words == [] then [] else [Parse(words[0])] + Parsed(words[1..])
  }

  predicate AllWellFormed(code: seq<Ins>) {
    forall k :: 0 <= k < |code| ==> WellFormed(code[k])
  }

  /** Words written by the emitters read back as the instructions they were meant to be. */
  lemma ParsedEncoded(code: seq<Ins>)
    requires AllWellFormed(code)
    ensures Parsed(Encoded(code)) == code
  {
    forall k | 0 <= k < |code| ensures Parsed(Encoded(code))[k] == code[k] {
      ParseEncode(code[k]);
    }
  }

  lemma EncodedAppend(a: seq<Ins>, b: seq<Ins>)
    ensures Encoded(a + b) == Encoded(a) + Encoded(b)
  {
  }

  // ---- every emitted instruction fits its encoding

  lemma Append(a: seq<Ins>, b: seq<Ins>)
    requires AllWellFormed(a) && AllWellFormed(b)
    ensures AllWellFormed(a + b)
  {
    hide WellFormed;
  }

  lemma CallsWellFormed(mark: int)
    requires KnownMark(mark)
    ensures AllWellFormed(CallC()) && AllWellFormed(ExitC())
    ensures AllWellFormed(RequestC(mark))
    ensures AllWellFormed(SetMark(T1, mark)) && AllWellFormed(SetMark(T2, mark)) && AllWellFormed(SetMark(T3, mark))
  {
    Append(SetMark(T3, mark), CallC());
  }

  lemma RegisterCodeWellFormed(i: Ins)
    requires i.R? && WellFormed(i)
    ensures AllWellFormed(Emitters.UnprevR(i)) && AllWellFormed(Emitters.ExtR(i)) && AllWellFormed(Emitters.InsR(i))
    ensures AllWellFormed(Emitters.MoveFromLoHi(i)) && AllWellFormed(Emitters.MulDivR(i))
            && (i.op == 0 ==> AllWellFormed(Emitters.ShiftR(i)))
  {
  }

  lemma MaddWellFormed(i: Ins)
    requires i.R? && WellFormed(i)
    ensures AllWellFormed(Emitters.Madd(i))
  {
    var combine := if i.func == 0 then 44 else if i.func == 1 then 45 else if i.func == 4 then 46 else 47;
    var a := [Fetch(T1, LO), R(0, 0, T1, T1, 0, 60), R(0, 0, T1, T1, 0, 62), Fetch(T2, HI)];
    var b := [R(0, 0, T2, T2, 0, 60), R(0, T2, T1, T3, 0, 37), Fetch(T1, Gp(i.rs)), Fetch(T2, Gp(i.rt)),
              R(0, T2, T1, 0, 0, 24)];
    var c := [R(0, 0, 0, T1, 0, 18), R(0, 0, T1, T1, 0, 60), R(0, 0, T1, T1, 0, 62), R(0, 0, 0, T2, 0, 16)];
    var d := [R(0, 0, T2, T2, 0, 60), R(0, T2, T1, T1, 0, 37), R(0, T3, T1, T1, 0, combine), R(0, 0, T1, T2, 0, 63)];
    var e := [Put(T2, HI), R(0, 0, T1, T1, 0, 60), R(0, 0, T1, T1, 0, 63), Put(T1, LO)];
    Append(d, e);
    Append(c, d + e);
    Append(b, c + (d + e));
    Append(a, b + (c + (d + e)));
  }

  lemma AddressCallWellFormed(rs: int, imm: int)
    requires 0 <= rs < 32 && 0 <= imm < 0x1_0000
    ensures AllWellFormed(AddressCall(rs, imm))
  {
    CallsWellFormed(CHECK_TLB_DATA);
    Append(SetMark(T2, CHECK_TLB_DATA), CallC());
    Append([Fetch(T1, Gp(rs)), I(DADDIU, T1, T1, imm), Put(T1, LDST_ADDR)], SetMark(T2, CHECK_TLB_DATA) + CallC());
  }

  lemma AccessWellFormed(i: Ins)
    requires i.I? && WellFormed(i)
    ensures AllWellFormed(Emitters.UnprevI(i)) && AllWellFormed(Emitters.Load(i)) && AllWellFormed(Emitters.Store(i))
  {
    AddressCallWellFormed(i.rs, i.imm);
    hide AddressCall;
    var load := [Fetch(T1, TRANS_ADDR), Fetch(T2, Gp(i.rt)), I(i.op, T1, T2, 0), Put(T2, Gp(i.rt))];
    var store := [Fetch(T1, TRANS_ADDR), Fetch(T2, Gp(i.rt)), I(i.op, T1, T2, 0)];
    Append(AddressCall(i.rs, i.imm), load);
    Append(AddressCall(i.rs, i.imm), store);
    Append([Const(T2, 0), Put(T2, LDST_OP)], AddressCall(i.rs, i.imm) + load);
    Append([Const(T2, 1), Put(T2, LDST_OP), Fetch(T1, Gp(i.rt)), Put(T1, LDST_DATA)], AddressCall(i.rs, i.imm) + store);
  }

  lemma LinkedWellFormed(i: Ins)
    requires i.I? && WellFormed(i)
    ensures AllWellFormed(Emitters.LoadLinked(i))
  {
    AddressCallWellFormed(i.rs, i.imm);
    hide AddressCall;
    var op := if i.op == 48 then LW else LD;
    var start := [I(ADDI, 0, T3, 1), Put(T3, LLBIT)];
    var finish := [Fetch(T1, TRANS_ADDR), I(op, T1, T2, 0), Put(T2, Gp(i.rt)), Put(T2, LL_DATA)];
    Append(AddressCall(i.rs, i.imm), finish);
    Append([Const(T2, 0), Put(T2, LDST_OP)], AddressCall(i.rs, i.imm) + finish);
    Append(start, [Const(T2, 0), Put(T2, LDST_OP)] + (AddressCall(i.rs, i.imm) + finish));
    Append(start, [NOP, I(op, T1, T2, 0), Put(T2, Gp(i.rt)), Put(T2, LL_DATA)]);
  }

  lemma ConditionalWellFormed(i: Ins)
    requires i.I? && WellFormed(i)
    ensures AllWellFormed(Emitters.StoreConditional(i))
  {
    var load := if i.op == 56 then LW else LD;
    var store := if i.op == 56 then SW else SD;
    var clear := R(0, 0, 0, T1, 0, 32);
    var a := [I(BEQ, 0, T3, 14), clear];
    var b := [Fetch(T1, Gp(i.rs)), Fetch(T2, LDST_ADDR), I(DADDIU, T1, T1, i.imm)];
    var c := [I(BNE, T1, T2, 9), clear];
    var d := [Fetch(T3, TRANS_ADDR), Fetch(T1, LL_DATA), I(load, T3, T2, 0)];
    var e := [I(BNE, T1, T2, 4), clear];
    var f := [Fetch(T2, Gp(i.rt)), I(store, T3, T2, 0), Const(T1, 1)];
    var tail := [Put(T1, Gp(i.rt)), Put(0, LLBIT)];
    Append(f, tail);
    Append(e, f + tail);
    Append(d, e + (f + tail));
    Append(c, d + (e + (f + tail)));
    Append(b, c + (d + (e + (f + tail))));
    Append(a, b + (c + (d + (e + (f + tail)))));
    Append([Fetch(T3, LLBIT)], a + (b + (c + (d + (e + (f + tail))))));
  }

  lemma TrapWellFormed(branch: Ins)
    requires WellFormed(branch)
    ensures AllWellFormed(Trap(branch))
  {
    CallsWellFormed(TRAP_INT);
    hide RequestC;
    Append([I(BEQ, 0, 0, 6), NOP], RequestC(TRAP_INT));
    Append([branch, NOP], [I(BEQ, 0, 0, 6), NOP] + RequestC(TRAP_INT));
  }

  lemma TrapsWellFormed(i: Ins)
    requires WellFormed(i)
    ensures i.R? ==> AllWellFormed(Emitters.TeqTne(i))
    ensures i.I? ==> AllWellFormed(Emitters.TeqiTnei(i))
  {
    hide Trap;
    if i.R? {
      var branch := I(if i.func == 52 then BEQ else BNE, T1, T2, 3);
      TrapWellFormed(branch);
      Append([Fetch(T1, Gp(i.rs)), Fetch(T2, Gp(i.rt))], Trap(branch));
    } else if i.I? {
      var branch := I(if i.rt == 12 then BEQ else BNE, T1, T2, 3);
      TrapWellFormed(branch);
      Append([Fetch(T1, Gp(i.rs)), I(ADDI, 0, T2, i.imm)], Trap(branch));
    }
  }

  lemma TlbOpWellFormed(i: Ins)
    requires i.R?
    ensures AllWellFormed(Emitters.TlbOp(i))
  {
    var mark := if i.func == 1 then TLB_READ else if i.func == 2 then TLB_WRITEI else if i.func == 6 then TLB_WRITE
        else TLB_PROBE;
    CallsWellFormed(mark);
    CallsWellFormed(EXP_RI);
    hide RequestC;
    var a := [Fetch(T1, Cp(STATUS)), I(ANDI, T1, T2, 0x1E), I(XORI, T2, T2, 0x10)];
    Append([I(BNE, 0, T2, 6), NOP], RequestC(EXP_RI));
    Append(a, [I(BNE, 0, T2, 6), NOP] + RequestC(EXP_RI));
    Append(CheckPrivilege(), RequestC(mark));
  }

  lemma EretPathWellFormed(slot: int, mask: int)
    requires 0 <= slot < 0x1_0000 && 0 <= mask < 0x1_0000
    ensures AllWellFormed(EretPath(slot, mask))
  {
    CallsWellFormed(FETCH_NEXT_BLOCK);
    Append(SetMark(T1, FETCH_NEXT_BLOCK), ExitC());
    Append([R(0, T2, T1, T1, 0, 36), Put(T1, Cp(STATUS))], SetMark(T1, FETCH_NEXT_BLOCK) + ExitC());
    Append([Fetch(T2, slot), Put(T2, PC), I(LUI, 0, T2, 0xFFFF), I(ADDI, T2, T2, mask)],
           [R(0, T2, T1, T1, 0, 36), Put(T1, Cp(STATUS))] + (SetMark(T1, FETCH_NEXT_BLOCK) + ExitC()));
  }

  lemma EretWellFormed()
    ensures AllWellFormed(Emitters.Eret()) && AllWellFormed(Emitters.Terminate())
  {
    EretPathWellFormed(Cp(ERROR_EPC), 0xFFFB);
    EretPathWellFormed(Cp(EPC), 0xFFFD);
    CallsWellFormed(FETCH_NEXT_BLOCK);
    Append(SetMark(T3, FETCH_NEXT_BLOCK), ExitC());
    hide EretPath;
    var exits := EretPath(Cp(ERROR_EPC), 0xFFFB) + EretPath(Cp(EPC), 0xFFFD);
    Append(EretPath(Cp(ERROR_EPC), 0xFFFB), EretPath(Cp(EPC), 0xFFFD));
    Append([I(BEQ, T2, 0, 12), NOP], exits);
    Append([Fetch(T1, Cp(STATUS)), I(ANDI, T1, T2, 4)], [I(BEQ, T2, 0, 12), NOP] + exits);
  }

  lemma HandlerFormat(i: Ins)
    requires WellFormed(i) && Modelled(i)
    ensures var d := Decoder.Dispatch(i);
      if d.UnprevR? || d.ExtR? || d.SeqiSnei? || d.InsR? || d.MoveFromLoHi? || d.MulDivR? || d.Madd? || d.TeqTne?
          || d.TlbOp? then i.R?
      else if d.ShiftR? then i.R? && i.op == 0
      else if d.UnprevI? || d.Load? || d.Store? || d.LoadLinked? || d.StoreConditional? || d.TeqiTnei? then i.I?
      else true
  {
  }

  lemma EmitWellFormed(i: Ins)
    requires WellFormed(i) && Modelled(i)
    ensures AllWellFormed(Emit(i))
  {
    HandlerFormat(i);
    hide Decoder.Dispatch, WellFormed, AllWellFormed;
    assert AllWellFormed([]) && AllWellFormed([NOP]) && AllWellFormed([NOP, NOP]) by {
      NopsWellFormed();
    }
    hide Emitters.UnprevR, Emitters.ExtR, Emitters.InsR, Emitters.MoveFromLoHi, Emitters.MulDivR, Emitters.ShiftR,
      Emitters.Madd, Emitters.UnprevI, Emitters.Load, Emitters.Store, Emitters.LoadLinked, Emitters.StoreConditional,
      Emitters.TeqTne, Emitters.TeqiTnei, RequestC, Emitters.TlbOp, Emitters.Eret, Emitters.Terminate;
    TrapsWellFormed(i);
    CallsWellFormed(SYSCALL_INT);
    CallsWellFormed(HANDLE_BR);
    EretWellFormed();
    if i.R? {
      RegisterCodeWellFormed(i);
      MaddWellFormed(i);
      TlbOpWellFormed(i);
    } else if i.I? {
      AccessWellFormed(i);
      LinkedWellFormed(i);
      ConditionalWellFormed(i);
    }
  }

  lemma NopsWellFormed()
    ensures AllWellFormed([]) && AllWellFormed([NOP]) && AllWellFormed([NOP, NOP])
  {
  }

  lemma StorePcWellFormed(imm: int)
    requires 0 <= imm < 0x1_0000
    ensures AllWellFormed(StorePc(imm)) && AllWellFormed(SetMark(T3, FETCH_NEXT_BLOCK) + StorePc(imm))
  {
    CallsWellFormed(FETCH_NEXT_BLOCK);
    Append([Fetch(T3, BLOCK_END_PC), I(DADDI, T3, T3, imm), Put(T3, PC)], ExitC());
    Append(SetMark(T3, FETCH_NEXT_BLOCK), StorePc(imm));
  }

  lemma LinkWellFormed(b: bool)
    ensures AllWellFormed(LinkIf(b))
  {
  }

  lemma BneBeqWellFormed(c: Ins, slot: seq<Ins>)
    requires c.I? && WellFormed(c) && AllWellFormed(slot)
    ensures AllWellFormed(Emitters.BneBeq(c, slot))
  {
    StorePcWellFormed(8);
    StorePcWellFormed(BranchImm(c.imm));
    hide StorePc;
    var ends := StorePc(8) + StorePc(BranchImm(c.imm));
    var mark := [Const(T1, FETCH_NEXT_BLOCK), Put(T1, CONTROL_MARK), Fetch(T3, TEMP_SLOT4), Fetch(T2, TEMP_SLOT5)];
    Append(StorePc(8), StorePc(BranchImm(c.imm)));
    Append([I(c.op, T3, T2, 7), NOP], ends);
    Append(mark, [I(c.op, T3, T2, 7), NOP] + ends);
    Append(slot, mark + ([I(c.op, T3, T2, 7), NOP] + ends));
    Append([Fetch(T3, Gp(c.rs)), Fetch(T2, Gp(c.rt)), Put(T3, TEMP_SLOT4), Put(T2, TEMP_SLOT5)],
           slot + (mark + ([I(c.op, T3, T2, 7), NOP] + ends)));
  }

  lemma BranchWellFormed(c: Ins, link: bool, slot: seq<Ins>)
    requires c.I? && WellFormed(c) && AllWellFormed(slot)
    ensures AllWellFormed(Emitters.Branch(c, link, slot))
  {
    StorePcWellFormed(8);
    StorePcWellFormed(BranchImm(c.imm));
    LinkWellFormed(link);
    hide StorePc, LinkIf;
    var ends := StorePc(8) + StorePc(BranchImm(c.imm));
    var mark := [Const(T1, FETCH_NEXT_BLOCK), Put(T1, CONTROL_MARK), Fetch(T3, TEMP_SLOT4)];
    Append(StorePc(8), StorePc(BranchImm(c.imm)));
    Append([I(c.op, T3, c.rt, 7), NOP], ends);
    Append(mark, [I(c.op, T3, c.rt, 7), NOP] + ends);
    Append(slot, mark + ([I(c.op, T3, c.rt, 7), NOP] + ends));
    Append(LinkIf(link), [Fetch(T3, Gp(c.rs)), Put(T3, TEMP_SLOT4)]);
    Append(LinkIf(link) + [Fetch(T3, Gp(c.rs)), Put(T3, TEMP_SLOT4)],
           slot + (mark + ([I(c.op, T3, c.rt, 7), NOP] + ends)));
  }

  lemma LikelyPathsWellFormed(c: Ins, slot: seq<Ins>)
    requires c.I? && WellFormed(c) && AllWellFormed(slot)
    ensures AllWellFormed(LikelyPaths(c, slot))
  {
    StorePcWellFormed(8);
    StorePcWellFormed(BranchImm(c.imm));
    hide StorePc, SetMark;
    var mark := SetMark(T3, FETCH_NEXT_BLOCK);
    Append(slot, mark + StorePc(BranchImm(c.imm)));
    Append(mark + StorePc(8), slot + (mark + StorePc(BranchImm(c.imm))));
  }

  lemma LikelyWellFormed(c: Ins, slot: seq<Ins>)
    requires c.I? && WellFormed(c) && AllWellFormed(slot)
    ensures AllWellFormed(Emitters.BneBeqLikely(c, slot)) && AllWellFormed(Emitters.BranchLikely(c, slot))
  {
    LikelyPathsWellFormed(c, slot);
    LinkWellFormed(c.rt == 18 || c.rt == 19);
    hide LikelyPaths, LinkIf;
    var paths := LikelyPaths(c, slot);
    Append([I(c.op, T1, T2, 9), NOP], paths);
    Append([Fetch(T1, Gp(c.rs)), Fetch(T2, Gp(c.rt))], [I(c.op, T1, T2, 9), NOP] + paths);
    Append([I(c.op, T1, c.rt, 9), NOP], paths);
    Append([Fetch(T1, Gp(c.rs))], [I(c.op, T1, c.rt, 9), NOP] + paths);
    Append(LinkIf(c.rt == 18 || c.rt == 19), [Fetch(T1, Gp(c.rs))] + ([I(c.op, T1, c.rt, 9), NOP] + paths));
  }

  lemma JumpWellFormed(c: Ins, slot: seq<Ins>, end: Value)
    requires c.J? && WellFormed(c) && AllWellFormed(slot)
    ensures AllWellFormed(Emitters.Jump(c, slot, end))
  {
    var target := JumpWord(end, c.addr);
    CallsWellFormed(FETCH_NEXT_BLOCK);
    LinkWellFormed(c.op == 3);
    hide LinkIf, UpperHalf, LowerHalf, JumpWord, SetMark, ExitC;
    HalfInRange(UpperHalf(target));
    HalfInRange(LowerHalf(target));
    Append(SetMark(T1, FETCH_NEXT_BLOCK), ExitC());
    Append([I(LUI, 0, T1, UpperHalf(target) as int), I(ORI, T1, T1, LowerHalf(target) as int), Put(T1, PC)],
           SetMark(T1, FETCH_NEXT_BLOCK) + ExitC());
    Append(slot, JumpTail(target));
    Append(LinkIf(c.op == 3), slot + JumpTail(target));
  }

  lemma HalfInRange(v: bv16)
    ensures 0 <= v as int < 0x1_0000
  {
  }

  lemma JumpRegWellFormed(c: Ins, slot: seq<Ins>)
    requires c.R? && WellFormed(c) && AllWellFormed(slot)
    ensures AllWellFormed(Emitters.JumpReg(c, slot))
  {
    CallsWellFormed(FETCH_NEXT_BLOCK);
    hide SetMark, ExitC;
    var tail := SetMark(T1, FETCH_NEXT_BLOCK) + ExitC();
    Append(SetMark(T1, FETCH_NEXT_BLOCK), ExitC());
    Append([Fetch(T1, TEMP_SLOT4), Put(T1, PC)], tail);
    Append(slot, [Fetch(T1, TEMP_SLOT4), Put(T1, PC)] + tail);
    Append(LinkTo(c), [Fetch(T1, Gp(c.rs)), Put(T1, TEMP_SLOT4)]);
    Append(LinkAndSave(c), slot + ([Fetch(T1, TEMP_SLOT4), Put(T1, PC)] + tail));
  }

  lemma ControlFormat(c: Ins)
    requires WellFormed(c) && Decoder.NeedsSlot(Decoder.Dispatch(c))
    ensures var d := Decoder.Dispatch(c);
      if d.BneBeq? || d.Branch? || d.BBit? || d.BneBeqLikely? || d.BranchLikely? then c.I?
      else if d.Jump? || d.JumpLink? then c.J?
      else c.R?
  {
  }

  lemma EmitControlWellFormed(c: Ins, slot: seq<Ins>, end: Value)
    requires WellFormed(c) && Decoder.NeedsSlot(Decoder.Dispatch(c)) && AllWellFormed(slot)
    ensures AllWellFormed(EmitControl(c, slot, end))
  {
    ControlFormat(c);
    hide Decoder.Dispatch, WellFormed, AllWellFormed, Emitters.BneBeq, Emitters.Branch, Emitters.BneBeqLikely,
      Emitters.BranchLikely, Emitters.Jump, Emitters.JumpReg;
    NopsWellFormed();
    if c.I? {
      BneBeqWellFormed(c, slot);
      BranchWellFormed(c, c.rt == 16 || c.rt == 17, slot);
      BranchWellFormed(c, false, slot);
      LikelyWellFormed(c, slot);
    } else if c.J? {
      JumpWellFormed(c, slot, end);
    } else {
      JumpRegWellFormed(c, slot);
    }
  }

  lemma {:induction false} BlockCodeWellFormed(b: seq<Ins>, end: Value)
    requires ModelledBlock(b) && AllWellFormed(b)
    ensures AllWellFormed(BlockCode(b, end))
    decreases |b|
  {
    hide Decoder.Dispatch, IsModelled, Decoder.RotatePattern, Decoder.NeedsSlot, EmitControl, Emit, Emitters.Terminate,
      WellFormed;
    if |b| == 2 {
      if Decoder.Dispatch(b[0]).Terminate? {
        EretWellFormed();
      } else {
        EmitWellFormed(b[1]);
        EmitControlWellFormed(b[0], Emit(b[1]), end);
      }
    } else {
      UpdateWellFormed();
      EmitWellFormed(b[0]);
      BlockCodeWellFormed(b[1..], end);
      Append(UpdatePc(), BlockCode(b[1..], end));
      Append(Emit(b[0]), UpdatePc() + BlockCode(b[1..], end));
    }
  }

  lemma UpdateWellFormed()
    ensures AllWellFormed(UpdatePc())
  {
  }

  // ---- what the buffer ends up with

  /** The host runs code from its first word and leaves in h1, which holds the guest's result. */
  ghost predicate LeavesAs(isa: Isa, env: Env, end: Value, r: Result, code: seq<Ins>, h: Host, h1: Host) {
    match r
    case Exit(m, g1) =>
      KnownMark(m) && Exec(isa, env, code, h) == Leave(h1) && Rel(isa, end, g1, h1)
          && h1.slots(CONTROL_MARK) == MarkValue(m)
    case Next(_) => false
  }

  /** Code with nothing behind it. */
  lemma LeavesAlone(isa: Isa, env: Env, end: Value, r: Result, code: seq<Ins>, h: Host, h1: Host)
    requires Simulates(isa, env, end, r, code, [], h, h1) && !r.Next?
    ensures LeavesAs(isa, env, end, r, code, h, h1)
  {
    hide Exec, Rel, MarkValue;
    assert code + [] == code;
  }

  /** The words in the buffer, run as the host reads them, do what the guest block does. */
  lemma TranslatedBlockRuns(isa: Isa, env: Env, b: seq<Ins>, end: Value, words: seq<Word>, g: Guest, h: Host)
    returns (h1: Host)
    requires SupportedBlock(b, g.pc) && AllWellFormed(b) && BlockExact(isa, env, b, g) && Rel(isa, end, g, h)
    requires Decoder.Dispatch(b[|b| - 2]).Terminate? || end == Advance(g.pc, |b| - 2)
    requires ModelledBlock(b) && words == Encoded(BlockCode(b, end))
    ensures LeavesAs(isa, env, end, RunBlock(isa, env, b, g), Parsed(words), h, h1)
  {
    BlockLeaves(isa, env, b, g);
    hide Simulates, LeavesAs, Rel, RunBlock, SupportedBlock, ModelledBlock, BlockExact, Decoder.Dispatch, BlockCode,
      AllWellFormed, Encoded, Parsed, Advance;
    BlockCodeWellFormed(b, end);
    ParsedEncoded(BlockCode(b, end));
    h1 := BlockSimulated(isa, env, end, b, [], g, h);
    LeavesAlone(isa, env, end, RunBlock(isa, env, b, g), BlockCode(b, end), h, h1);
  }
}
