/** Translation_IPE, InsDecoding and BlockTranslation_IPE at work: the handlers append to the code buffer, a control
    handler with the delay slot's translation in the middle. */
module Translator {
  import opened Words
  import opened Instructions
  import opened Machine
  import opened HostMachine
  import opened Emitters
  import opened HostSteps
  import opened BlockTranslation
  import opened TranslatedCode
  import opened CodeBuffer
  import Decoder

  method PushAll(buffer: TranslationBlock, code: seq<Ins>)
    requires buffer.Valid()
    modifies buffer, buffer.container
    ensures buffer.Valid() && buffer.Contents() == old(buffer.Contents()) + Encoded(code)
    ensures buffer.container == old(buffer.container) || fresh(buffer.container)
  {
    hide Encoded, Encode, IsCapacity;
    for n := 0 to |code|
      invariant buffer.Valid() && (buffer.container == old(buffer.container) || fresh(buffer.container))
      invariant buffer.Contents() == old(buffer.Contents()) + Encoded(code)[..n]
    {
      assert Encoded(code)[..n + 1] == Encoded(code)[..n] + [Encode(code[n])];
      buffer.PushBack(Encode(code[n]));
    }
    assert Encoded(code)[..|code|] == Encoded(code);
  }

  // ---- straight-line handlers

  /** update_pc. */
  method PushUpdatePc(buffer: TranslationBlock)
    requires buffer.Valid()
    modifies buffer, buffer.container
    ensures buffer.Valid() && buffer.Contents() == old(buffer.Contents()) + Encoded(UpdatePc())
    ensures buffer.container == old(buffer.container) || fresh(buffer.container)
  {
    PushAll(buffer, [I(ADDI, 0, T1, 4), R(28, BASE, T1, 0, 0, 25)]);
  }

  method PushUnprevR(buffer: TranslationBlock, i: Ins)
    requires buffer.Valid() && i.R?
    modifies buffer, buffer.container
    ensures buffer.Valid() && buffer.Contents() == old(buffer.Contents()) + Encoded(UnprevR(i))
    ensures buffer.container == old(buffer.container) || fresh(buffer.container)
  {
    hide Encoded;
    if i.rd != 0 {
      PushAll(buffer, [Fetch(T1, Gp(i.rs)), Fetch(T2, Gp(i.rt)), Fetch(T3, Gp(i.rd)),
                       R(i.op, T1, T2, T3, i.sa, i.func), Put(T3, Gp(i.rd))]);
    } else {
      PushAll(buffer, [NOP]);
    }
  }

  method PushMulDivR(buffer: TranslationBlock, i: Ins)
    requires buffer.Valid() && i.R?
    modifies buffer, buffer.container
    ensures buffer.Valid() && buffer.Contents() == old(buffer.Contents()) + Encoded(MulDivR(i))
    ensures buffer.container == old(buffer.container) || fresh(buffer.container)
  {
    hide Encoded;
    EncodedAppend([Fetch(T1, Gp(i.rs)), Fetch(T2, Gp(i.rt)), R(i.op, T1, T2, i.rd, i.sa, i.func)],
                  [R(0, 0, 0, T2, 0, 18), R(0, 0, 0, T1, 0, 16), Put(T2, LO), Put(T1, HI)]);
    PushAll(buffer, [Fetch(T1, Gp(i.rs)), Fetch(T2, Gp(i.rt)), R(i.op, T1, T2, i.rd, i.sa, i.func)]);
    PushAll(buffer, [R(0, 0, 0, T2, 0, 18), R(0, 0, 0, T1, 0, 16), Put(T2, LO), Put(T1, HI)]);
  }

  /** The call-out every translated access makes. */
  method PushAddressCall(buffer: TranslationBlock, rs: int, imm: int)
    requires buffer.Valid()
    modifies buffer, buffer.container
    ensures buffer.Valid() && buffer.Contents() == old(buffer.Contents()) + Encoded(AddressCall(rs, imm))
    ensures buffer.container == old(buffer.container) || fresh(buffer.container)
  {
    hide Encoded, SetMark, CallC;
    EncodedAppend([Fetch(T1, Gp(rs)), I(DADDIU, T1, T1, imm), Put(T1, LDST_ADDR)],
                  SetMark(T2, CHECK_TLB_DATA) + CallC());
    EncodedAppend(SetMark(T2, CHECK_TLB_DATA), CallC());
    PushAll(buffer, [Fetch(T1, Gp(rs)), I(DADDIU, T1, T1, imm), Put(T1, LDST_ADDR)]);
    PushAll(buffer, SetMark(T2, CHECK_TLB_DATA));
    PushAll(buffer, CallC());
  }

  lemma EncodedAround(a: seq<Ins>, s: seq<Ins>, b: seq<Ins>)
    ensures Encoded(a + (s + b)) == Encoded(a) + Encoded(s) + Encoded(b)
  {
    EncodedAppend(a, s + b);
    EncodedAppend(s, b);
  }

  method PushAccess(buffer: TranslationBlock, front: seq<Ins>, rs: int, imm: int, tail: seq<Ins>)
    requires buffer.Valid()
    modifies buffer, buffer.container
    ensures buffer.Valid()
    ensures buffer.Contents() == old(buffer.Contents()) + Encoded(front + (AddressCall(rs, imm) + tail))
    ensures buffer.container == old(buffer.container) || fresh(buffer.container)
  {
    hide Encoded, AddressCall;
    EncodedAround(front, AddressCall(rs, imm), tail);
    PushAll(buffer, front);
    PushAddressCall(buffer, rs, imm);
    PushAll(buffer, tail);
  }

  method PushLoad(buffer: TranslationBlock, i: Ins)
    requires buffer.Valid() && i.I?
    modifies buffer, buffer.container
    ensures buffer.Valid() && buffer.Contents() == old(buffer.Contents()) + Encoded(Load(i))
    ensures buffer.container == old(buffer.container) || fresh(buffer.container)
  {
    hide AddressCall, Encoded;
    if i.rt == 0 {
      PushAll(buffer, [NOP]);
      return;
    }
    PushAccess(buffer, [Const(T2, 0), Put(T2, LDST_OP)], i.rs, i.imm,
               [Fetch(T1, TRANS_ADDR), Fetch(T2, Gp(i.rt)), I(i.op, T1, T2, 0), Put(T2, Gp(i.rt))]);
  }

  method PushStore(buffer: TranslationBlock, i: Ins)
    requires buffer.Valid() && i.I?
    modifies buffer, buffer.container
    ensures buffer.Valid() && buffer.Contents() == old(buffer.Contents()) + Encoded(Store(i))
    ensures buffer.container == old(buffer.container) || fresh(buffer.container)
  {
    hide AddressCall, Encoded;
    PushAccess(buffer, [Const(T2, 1), Put(T2, LDST_OP), Fetch(T1, Gp(i.rt)), Put(T1, LDST_DATA)], i.rs, i.imm,
               [Fetch(T1, TRANS_ADDR), Fetch(T2, Gp(i.rt)), I(i.op, T1, T2, 0)]);
  }

  /** ll and lld; with $0 as destination the address is never computed. */
  method PushLoadLinked(buffer: TranslationBlock, i: Ins)
    requires buffer.Valid() && i.I?
    modifies buffer, buffer.container
    ensures buffer.Valid() && buffer.Contents() == old(buffer.Contents()) + Encoded(LoadLinked(i))
    ensures buffer.container == old(buffer.container) || fresh(buffer.container)
  {
    hide AddressCall, Encoded;
    var op := if i.op == 48 then LW else LD;
    var start, cell := [I(ADDI, 0, T3, 1), Put(T3, LLBIT)], [Const(T2, 0), Put(T2, LDST_OP)];
    if i.rt == 0 {
      PushAll(buffer, start + [NOP, I(op, T1, T2, 0), Put(T2, Gp(i.rt)), Put(T2, LL_DATA)]);
      return;
    }
    var finish := [Fetch(T1, TRANS_ADDR), I(op, T1, T2, 0), Put(T2, Gp(i.rt)), Put(T2, LL_DATA)];
    Assoc(start, cell, AddressCall(i.rs, i.imm) + finish);
    PushAccess(buffer, start + cell, i.rs, i.imm, finish);
  }

  /** The handlers without a delay slot. */
  method PushStraight(buffer: TranslationBlock, i: Ins)
    requires buffer.Valid() && Modelled(i)
    modifies buffer, buffer.container
    ensures buffer.Valid() && buffer.Contents() == old(buffer.Contents()) + Encoded(Emit(i))
    ensures buffer.container == old(buffer.container) || fresh(buffer.container)
  {
    hide Encoded, Emitters.UnprevR, Emitters.MulDivR, Emitters.Load, Emitters.Store, Emitters.LoadLinked,
      Decoder.RotatePattern;
    match Decoder.Dispatch(i)
    case UnprevR => PushUnprevR(buffer, i);
    case MulDivR => PushMulDivR(buffer, i);
    case Load => PushLoad(buffer, i);
    case Store => PushStore(buffer, i);
    case LoadLinked => PushLoadLinked(buffer, i);
    case _ => PushAll(buffer, Emit(i));
  }

  // ---- handlers that place the delay slot's translation

  /** What findInstrCase needs: a delay slot for the handlers that read one; never for the others. */
  predicate CanTranslate(b: Ins, d: Option<Ins>) {
    if Decoder.NeedsSlot(Decoder.Dispatch(b)) then WellFormed(b) && d.Some? && Modelled(d.value) else Modelled(b)
  }

  function CodeOf(b: Ins, d: Option<Ins>, blockEnd: Value): seq<Ins>
    requires CanTranslate(b, d)
  {
    if Decoder.NeedsSlot(Decoder.Dispatch(b)) then EmitControl(b, Emit(d.value), blockEnd) else Emit(b)
  }

  lemma ModelledNeedsNoSlot(d: Ins, end: Value)
    requires Modelled(d)
    ensures !Decoder.NeedsSlot(Decoder.Dispatch(d)) && CanTranslate(d, None) && CodeOf(d, None, end) == Emit(d)
  {
    hide Emit, EmitControl;
  }

  method PushSlot(buffer: TranslationBlock, d: Ins, blockEnd: Value)
    requires buffer.Valid() && Modelled(d)
    modifies buffer, buffer.container
    ensures buffer.Valid() && buffer.Contents() == old(buffer.Contents()) + Encoded(Emit(d))
    ensures buffer.container == old(buffer.container) || fresh(buffer.container)
    decreases 1
  {
    ModelledNeedsNoSlot(d, blockEnd);
    hide Encoded, Emit, CodeOf, CanTranslate, IsModelled, Decoder.RotatePattern, Decoder.NeedsSlot, Decoder.Dispatch;
    FindInstrCase(buffer, d, None, blockEnd);
  }

  method PushAround(buffer: TranslationBlock, front: seq<Ins>, d: Ins, tail: seq<Ins>, blockEnd: Value)
    requires buffer.Valid() && Modelled(d)
    modifies buffer, buffer.container
    ensures buffer.Valid() && buffer.Contents() == old(buffer.Contents()) + Encoded(front + (Emit(d) + tail))
    ensures buffer.container == old(buffer.container) || fresh(buffer.container)
    decreases 2
  {
    hide Encoded, Emit, IsModelled, Decoder.RotatePattern, Decoder.Dispatch;
    EncodedAround(front, Emit(d), tail);
    PushAll(buffer, front);
    PushSlot(buffer, d, blockEnd);
    PushAll(buffer, tail);
  }

  /** bne and beq: save both registers, translate the delay slot, decide on what was saved. */
  method PushBneBeq(buffer: TranslationBlock, c: Ins, d: Ins, blockEnd: Value)
    requires buffer.Valid() && c.I? && Modelled(d)
    modifies buffer, buffer.container
    ensures buffer.Valid() && buffer.Contents() == old(buffer.Contents()) + Encoded(BneBeq(c, Emit(d)))
    ensures buffer.container == old(buffer.container) || fresh(buffer.container)
    decreases 3
  {
    hide Encoded, Emit, IsModelled, Decoder.RotatePattern, Decoder.Dispatch;
    PushAround(buffer, [Fetch(T3, Gp(c.rs)), Fetch(T2, Gp(c.rt)), Put(T3, TEMP_SLOT4), Put(T2, TEMP_SLOT5)], d,
               [Const(T1, FETCH_NEXT_BLOCK), Put(T1, CONTROL_MARK), Fetch(T3, TEMP_SLOT4), Fetch(T2, TEMP_SLOT5)]
               + ([I(c.op, T3, T2, 7), NOP] + (StorePc(8) + StorePc(BranchImm(c.imm)))), blockEnd);
  }

  /** branch and bbit. */
  method PushBranch(buffer: TranslationBlock, c: Ins, link: bool, d: Ins, blockEnd: Value)
    requires buffer.Valid() && c.I? && Modelled(d)
    modifies buffer, buffer.container
    ensures buffer.Valid() && buffer.Contents() == old(buffer.Contents()) + Encoded(Emitters.Branch(c, link, Emit(d)))
    ensures buffer.container == old(buffer.container) || fresh(buffer.container)
    decreases 3
  {
    hide Encoded, Emit, IsModelled, Decoder.RotatePattern, Decoder.Dispatch;
    PushAround(buffer, LinkIf(link) + [Fetch(T3, Gp(c.rs)), Put(T3, TEMP_SLOT4)], d,
               [Const(T1, FETCH_NEXT_BLOCK), Put(T1, CONTROL_MARK), Fetch(T3, TEMP_SLOT4)]
               + ([I(c.op, T3, c.rt, 7), NOP] + (StorePc(8) + StorePc(BranchImm(c.imm)))), blockEnd);
  }

  /** bne_beq_likely: the delay slot lies on the taken path only. */
  method PushBneBeqLikely(buffer: TranslationBlock, c: Ins, d: Ins, blockEnd: Value)
    requires buffer.Valid() && c.I? && Modelled(d)
    modifies buffer, buffer.container
    ensures buffer.Valid() && buffer.Contents() == old(buffer.Contents()) + Encoded(BneBeqLikely(c, Emit(d)))
    ensures buffer.container == old(buffer.container) || fresh(buffer.container)
    decreases 3
  {
    ghost var s := Emit(d);
    hide Encoded, Emit, IsModelled, Decoder.RotatePattern, Decoder.Dispatch;
    var fall, tail := SetMark(T3, FETCH_NEXT_BLOCK) + StorePc(8),
        SetMark(T3, FETCH_NEXT_BLOCK) + StorePc(BranchImm(c.imm));
    var a, b := [Fetch(T1, Gp(c.rs)), Fetch(T2, Gp(c.rt))], [I(c.op, T1, T2, 9), NOP];
    assert (a + (b + fall)) + (s + tail) == a + (b + (fall + (s + tail)));
    PushAround(buffer, a + (b + fall), d, tail, blockEnd);
  }

  /** branch_likely. */
  method PushBranchLikely(buffer: TranslationBlock, c: Ins, d: Ins, blockEnd: Value)
    requires buffer.Valid() && c.I? && Modelled(d)
    modifies buffer, buffer.container
    ensures buffer.Valid() && buffer.Contents() == old(buffer.Contents()) + Encoded(Emitters.BranchLikely(c, Emit(d)))
    ensures buffer.container == old(buffer.container) || fresh(buffer.container)
    decreases 3
  {
    ghost var s := Emit(d);
    hide Encoded, Emit, IsModelled, Decoder.RotatePattern, Decoder.Dispatch;
    var fall, tail := SetMark(T3, FETCH_NEXT_BLOCK) + StorePc(8),
        SetMark(T3, FETCH_NEXT_BLOCK) + StorePc(BranchImm(c.imm));
    var l, a, b := LinkIf(c.rt == 18 || c.rt == 19), [Fetch(T1, Gp(c.rs))], [I(c.op, T1, c.rt, 9), NOP];
    assert (l + (a + (b + fall))) + (s + tail) == l + (a + (b + (fall + (s + tail))));
    PushAround(buffer, l + (a + (b + fall)), d, tail, blockEnd);
  }

  /** j and jal: the target is computed now, from the block end. */
  method PushJump(buffer: TranslationBlock, c: Ins, d: Ins, blockEnd: Value)
    requires buffer.Valid() && c.J? && WellFormed(c) && Modelled(d)
    modifies buffer, buffer.container
    ensures buffer.Valid() && buffer.Contents() == old(buffer.Contents()) + Encoded(Emitters.Jump(c, Emit(d), blockEnd))
    ensures buffer.container == old(buffer.container) || fresh(buffer.container)
    decreases 3
  {
    hide Encoded, Emit, IsModelled, Decoder.RotatePattern, Decoder.Dispatch;
    PushAround(buffer, LinkIf(c.op == 3), d, JumpTail(JumpWord(blockEnd, c.addr)), blockEnd);
  }

  /** jr and jalr: link, save the target, translate the delay slot, jump to what was saved. */
  method PushJumpReg(buffer: TranslationBlock, c: Ins, d: Ins, blockEnd: Value)
    requires buffer.Valid() && c.R? && Modelled(d)
    modifies buffer, buffer.container
    ensures buffer.Valid() && buffer.Contents() == old(buffer.Contents()) + Encoded(Emitters.JumpReg(c, Emit(d)))
    ensures buffer.container == old(buffer.container) || fresh(buffer.container)
    decreases 3
  {
    hide Encoded, Emit, IsModelled, Decoder.RotatePattern, Decoder.Dispatch;
    PushAround(buffer, LinkAndSave(c), d, [Fetch(T1, TEMP_SLOT4), Put(T1, PC)]
               + (SetMark(T1, FETCH_NEXT_BLOCK) + ExitC()), blockEnd);
  }

  lemma ControlCode(c: Ins, s: seq<Ins>, end: Value)
    requires WellFormed(c) && Decoder.NeedsSlot(Decoder.Dispatch(c))
    ensures c.I? ==> match Decoder.Dispatch(c)
                     case BneBeq => EmitControl(c, s, end) == BneBeq(c, s)
                     case Branch => EmitControl(c, s, end) == Emitters.Branch(c, c.rt == 16 || c.rt == 17, s)
                     case BBit => EmitControl(c, s, end) == Emitters.Branch(c, false, s)
                     case BneBeqLikely => EmitControl(c, s, end) == BneBeqLikely(c, s)
                     case BranchLikely => EmitControl(c, s, end) == Emitters.BranchLikely(c, s)
                     case _ => false
    ensures !c.I? ==> match Decoder.Dispatch(c)
                      case Jump | JumpLink => c.J? && EmitControl(c, s, end) == Emitters.Jump(c, s, end)
                      case JumpReg | JumpLinkReg => c.R? && EmitControl(c, s, end) == Emitters.JumpReg(c, s)
                      case _ => false
  {
    ControlFormat(c);
    hide Decoder.Dispatch, Emitters.BneBeq, Emitters.Branch, Emitters.BneBeqLikely, Emitters.BranchLikely,
      Emitters.Jump, Emitters.JumpReg;
  }

  method PushControlBranch(buffer: TranslationBlock, c: Ins, d: Ins, blockEnd: Value)
    requires buffer.Valid() && c.I? && WellFormed(c) && Decoder.NeedsSlot(Decoder.Dispatch(c)) && Modelled(d)
    modifies buffer, buffer.container
    ensures buffer.Valid() && buffer.Contents() == old(buffer.Contents()) + Encoded(EmitControl(c, Emit(d), blockEnd))
    ensures buffer.container == old(buffer.container) || fresh(buffer.container)
    decreases 4
  {
    ControlCode(c, Emit(d), blockEnd);
    hide Encoded, Emit, EmitControl, IsModelled, Decoder.RotatePattern, Decoder.Dispatch, WellFormed, Decoder.NeedsSlot,
      Emitters.BneBeq, Emitters.Branch, Emitters.BneBeqLikely, Emitters.BranchLikely;
    match Decoder.Dispatch(c)
    case BneBeq => PushBneBeq(buffer, c, d, blockEnd);
    case Branch => PushBranch(buffer, c, c.rt == 16 || c.rt == 17, d, blockEnd);
    case BBit => PushBranch(buffer, c, false, d, blockEnd);
    case BneBeqLikely => PushBneBeqLikely(buffer, c, d, blockEnd);
    case BranchLikely => PushBranchLikely(buffer, c, d, blockEnd);
  }

  method PushControlJump(buffer: TranslationBlock, c: Ins, d: Ins, blockEnd: Value)
    requires buffer.Valid() && !c.I? && WellFormed(c) && Decoder.NeedsSlot(Decoder.Dispatch(c)) && Modelled(d)
    modifies buffer, buffer.container
    ensures buffer.Valid() && buffer.Contents() == old(buffer.Contents()) + Encoded(EmitControl(c, Emit(d), blockEnd))
    ensures buffer.container == old(buffer.container) || fresh(buffer.container)
    decreases 4
  {
    ControlCode(c, Emit(d), blockEnd);
    hide Encoded, Emit, EmitControl, IsModelled, Decoder.RotatePattern, Decoder.Dispatch, WellFormed, Decoder.NeedsSlot,
      Emitters.Jump, Emitters.JumpReg;
    match Decoder.Dispatch(c)
    case Jump => PushJump(buffer, c, d, blockEnd);
    case JumpLink => PushJump(buffer, c, d, blockEnd);
    case JumpReg => PushJumpReg(buffer, c, d, blockEnd);
    case JumpLinkReg => PushJumpReg(buffer, c, d, blockEnd);
  }

  /** findInstrCase. Without a delay slot (None) it is only ever given instructions whose handlers read none. */
  method FindInstrCase(buffer: TranslationBlock, b: Ins, d: Option<Ins>, blockEnd: Value)
    requires buffer.Valid() && CanTranslate(b, d)
    modifies buffer, buffer.container
    ensures buffer.Valid() && buffer.Contents() == old(buffer.Contents()) + Encoded(CodeOf(b, d, blockEnd))
    ensures buffer.container == old(buffer.container) || fresh(buffer.container)
    decreases if Decoder.NeedsSlot(Decoder.Dispatch(b)) then 5 else 0
  {
    hide Encoded, Emit, EmitControl, IsModelled, Decoder.RotatePattern, Decoder.Dispatch, Decoder.NeedsSlot, WellFormed;
    if !Decoder.NeedsSlot(Decoder.Dispatch(b)) {
      PushStraight(buffer, b);
    } else if b.I? {
      PushControlBranch(buffer, b, d.value, blockEnd);
    } else {
      PushControlJump(buffer, b, d.value, blockEnd);
    }
  }

  // ---- doBlockTranslation

  /** What is left to append before and after one round of the loop. */
  lemma CodeLeft(b: seq<Ins>, i: nat, end: Value)
    requires i < |b| - 2 && ModelledBlock(b[i..])
    ensures Modelled(b[i]) && ModelledBlock(b[i + 1..])
    ensures Encoded(BlockCode(b[i..], end)) == Encoded(Emit(b[i])) + Encoded(UpdatePc())
            + Encoded(BlockCode(b[i + 1..], end))
  {
    hide Decoder.Dispatch, IsModelled, Decoder.RotatePattern, Decoder.NeedsSlot, Emit, LastCode, Encoded, WellFormed,
      UpdatePc;
    assert b[i..][1..] == b[i + 1..] && b[i..][0] == b[i];
    EncodedAround(Emit(b[i]), UpdatePc(), BlockCode(b[i + 1..], end));
  }

  lemma LastLeft(b: seq<Ins>, end: Value)
    requires ModelledBlock(b)
    ensures var last := b[|b| - 2..];
      ModelledBlock(last) && BlockCode(last, end) == LastCode(b[|b| - 2], b[|b| - 1], end)
  {
    hide Decoder.Dispatch, IsModelled, Decoder.RotatePattern, Decoder.NeedsSlot, LastCode, WellFormed;
  }

  lemma LastIsCode(c: Ins, d: Ins, end: Value)
    requires ModelledEnd(c, d)
    ensures CanTranslate(c, Some(d)) && CodeOf(c, Some(d), end) == LastCode(c, d, end)
  {
    hide EmitControl;
  }

  /** Translates a block: every instruction but the last two with a PC step after it and no delay slot, then the control
      instruction together with its delay slot. */
  method DoBlockTranslation(buffer: TranslationBlock, b: seq<Ins>, blockEnd: Value)
    requires buffer.Valid() && ModelledBlock(b)
    modifies buffer, buffer.container
    ensures buffer.Valid() && buffer.Contents() == old(buffer.Contents()) + Encoded(BlockCode(b, blockEnd))
    ensures buffer.container == old(buffer.container) || fresh(buffer.container)
  {
    hide Decoder.Dispatch, IsModelled, Decoder.RotatePattern, Decoder.NeedsSlot, Emit, LastCode, Encoded, BlockCode,
      WellFormed, UpdatePc, CodeOf, CanTranslate, Modelled, ModelledEnd;
    ghost var all := old(buffer.Contents()) + Encoded(BlockCode(b, blockEnd));
    assert b[0..] == b;
    for i := 0 to |b| - 2
      invariant buffer.Valid() && (buffer.container == old(buffer.container) || fresh(buffer.container))
      invariant ModelledBlock(b[i..])
      invariant buffer.Contents() + Encoded(BlockCode(b[i..], blockEnd)) == all
    {
      CodeLeft(b, i, blockEnd);
      ModelledNeedsNoSlot(b[i], blockEnd);
      FindInstrCase(buffer, b[i], None, blockEnd);
      PushUpdatePc(buffer);
    }
    LastLeft(b, blockEnd);
    LastIsCode(b[|b| - 2], b[|b| - 1], blockEnd);
    FindInstrCase(buffer, b[|b| - 2], Some(b[|b| - 1]), blockEnd);
  }
}
