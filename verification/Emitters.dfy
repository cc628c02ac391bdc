/** The host code each handler of Translation_IPE appends, as a function of the guest instruction. */
module Emitters {
  import opened Words
  import opened Instructions
  import opened Machine
  import opened HostMachine
  import Decoder

  const LD := 55
  const SD := 63
  const LW := 35
  const SW := 43
  const ADDI := 8
  const ADDIU := 9
  const ANDI := 12
  const ORI := 13
  const XORI := 14
  const LUI := 15
  const DADDI := 24
  const DADDIU := 25
  const BEQ := 4
  const BNE := 5

  function Fetch(t: int, slot: int): Ins { I(LD, BASE, t, slot) }

  function Put(t: int, slot: int): Ins { I(SD, BASE, t, slot) }

  function Const(t: int, c: int): Ins { I(ADDIU, 0, t, c) }

  // jalr $25, $24 and jr $24, each with its nop.
  function CallC(): seq<Ins> { [Fetch(CREG, C_LABEL), R(0, CREG, 0, RETREG, 0, 9), NOP] }

  function ExitC(): seq<Ins> { [Fetch(CREG, C_LABEL), R(0, CREG, 0, 0, 0, 8), NOP] }

  function SetMark(t: int, mark: int): seq<Ins> { [Const(t, mark), Put(t, CONTROL_MARK)] }

  function UpdatePc(): seq<Ins> { [I(ADDI, 0, T1, 4), R(28, BASE, T1, 0, 0, 25)] }

  function UnprevR(i: Ins): seq<Ins>
    requires i.R?
  {
    if i.rd != 0 then
      [Fetch(T1, Gp(i.rs)), Fetch(T2, Gp(i.rt)), Fetch(T3, Gp(i.rd)), R(i.op, T1, T2, T3, i.sa, i.func),
       Put(T3, Gp(i.rd))]
    else [NOP]
  }

  function ShiftR(i: Ins): seq<Ins>
    requires i.R?
  {
    [Fetch(T1, Gp(i.rt)), R(i.op, i.rs, T1, T2, i.sa, i.func), Put(T2, Gp(i.rd))]
  }

  function MulDivR(i: Ins): seq<Ins>
    requires i.R?
  {
    [Fetch(T1, Gp(i.rs)), Fetch(T2, Gp(i.rt)), R(i.op, T1, T2, i.rd, i.sa, i.func)]
    + [R(0, 0, 0, T2, 0, 18), R(0, 0, 0, T1, 0, 16), Put(T2, LO), Put(T1, HI)]
  }

  function Madd(i: Ins): seq<Ins>
    requires i.R?
  {
    var combine := if i.func == 0 then 44 else if i.func == 1 then 45 else if i.func == 4 then 46 else 47;
    [Fetch(T1, LO), R(0, 0, T1, T1, 0, 60), R(0, 0, T1, T1, 0, 62), Fetch(T2, HI)]
    + ([R(0, 0, T2, T2, 0, 60), R(0, T2, T1, T3, 0, 37), Fetch(T1, Gp(i.rs)), Fetch(T2, Gp(i.rt)),
        R(0, T2, T1, 0, 0, 24)]
    + ([R(0, 0, 0, T1, 0, 18), R(0, 0, T1, T1, 0, 60), R(0, 0, T1, T1, 0, 62), R(0, 0, 0, T2, 0, 16)]
    + ([R(0, 0, T2, T2, 0, 60), R(0, T2, T1, T1, 0, 37), R(0, T3, T1, T1, 0, combine), R(0, 0, T1, T2, 0, 63)]
    + [Put(T2, HI), R(0, 0, T1, T1, 0, 60), R(0, 0, T1, T1, 0, 63), Put(T1, LO)])))
  }

  function MoveFromLoHi(i: Ins): seq<Ins>
    requires i.R?
  {
    var source := if i.func == 16 then HI else LO;
    if i.rd != 0 then [Fetch(T1, source), Put(T1, Gp(i.rd))] else [Fetch(T1, source)]
  }

  function ExtR(i: Ins): seq<Ins>
    requires i.R?
  {
    [Fetch(T1, Gp(i.rs)), R(i.op, T1, T2, i.rd, i.sa, i.func), Put(T2, Gp(i.rt))]
  }

  function InsR(i: Ins): seq<Ins>
    requires i.R?
  {
    [Fetch(T1, Gp(i.rs)), Fetch(T2, Gp(i.rt)), R(i.op, T1, T2, i.rd, i.sa, i.func), Put(T2, Gp(i.rt))]
  }

  function UnprevI(i: Ins): seq<Ins>
    requires i.I?
  {
    [Fetch(T1, Gp(i.rs)), I(i.op, if i.op != LUI then T1 else 0, T2, i.imm), Put(T2, Gp(i.rt))]
  }

  function AddressCall(rs: int, imm: int): seq<Ins> {
    [Fetch(T1, Gp(rs)), I(DADDIU, T1, T1, imm), Put(T1, LDST_ADDR)] + (SetMark(T2, CHECK_TLB_DATA) + CallC())
  }

  function Load(i: Ins): seq<Ins>
    requires i.I?
  {
    if i.rt == 0 then [NOP]
    else
      [Const(T2, 0), Put(T2, LDST_OP)]
      + (AddressCall(i.rs, i.imm)
      + [Fetch(T1, TRANS_ADDR), Fetch(T2, Gp(i.rt)), I(i.op, T1, T2, 0), Put(T2, Gp(i.rt))])
  }

  function Store(i: Ins): seq<Ins>
    requires i.I?
  {
    [Const(T2, 1), Put(T2, LDST_OP), Fetch(T1, Gp(i.rt)), Put(T1, LDST_DATA)]
    + (AddressCall(i.rs, i.imm)
    + [Fetch(T1, TRANS_ADDR), Fetch(T2, Gp(i.rt)), I(i.op, T1, T2, 0)])
  }

  function LoadLinked(i: Ins): seq<Ins>
    requires i.I?
  {
    var op := if i.op == 48 then LW else LD;
    [I(ADDI, 0, T3, 1), Put(T3, LLBIT)]
    + (if i.rt == 0 then [NOP, I(op, T1, T2, 0), Put(T2, Gp(i.rt)), Put(T2, LL_DATA)]
       else
         [Const(T2, 0), Put(T2, LDST_OP)]
         + (AddressCall(i.rs, i.imm)
         + [Fetch(T1, TRANS_ADDR), I(op, T1, T2, 0), Put(T2, Gp(i.rt)), Put(T2, LL_DATA)]))
  }

  // All three failure branches go to the common tail that writes rt and clears LLbit.
  function StoreConditional(i: Ins): seq<Ins>
    requires i.I?
  {
    var load := if i.op == 56 then LW else LD;
    var store := if i.op == 56 then SW else SD;
    var clear := R(0, 0, 0, T1, 0, 32);
    [Fetch(T3, LLBIT)]
    + ([I(BEQ, 0, T3, 14), clear]
    + ([Fetch(T1, Gp(i.rs)), Fetch(T2, LDST_ADDR), I(DADDIU, T1, T1, i.imm)]
    + ([I(BNE, T1, T2, 9), clear]
    + ([Fetch(T3, TRANS_ADDR), Fetch(T1, LL_DATA), I(load, T3, T2, 0)]
    + ([I(BNE, T1, T2, 4), clear]
    + ([Fetch(T2, Gp(i.rt)), I(store, T3, T2, 0), Const(T1, 1)]
    + [Put(T1, Gp(i.rt)), Put(0, LLBIT)]))))))
  }

  // Call out with a control mark.
  function RequestC(mark: int): seq<Ins> { SetMark(T3, mark) + CallC() }

  function Trap(branch: Ins): seq<Ins> {
    [branch, NOP] + ([I(BEQ, 0, 0, 6), NOP] + RequestC(TRAP_INT))
  }

  function TeqTne(i: Ins): seq<Ins>
    requires i.R?
  {
    [Fetch(T1, Gp(i.rs)), Fetch(T2, Gp(i.rt))] + Trap(I(if i.func == 52 then BEQ else BNE, T1, T2, 3))
  }

  function TeqiTnei(i: Ins): seq<Ins>
    requires i.I?
  {
    [Fetch(T1, Gp(i.rs)), I(ADDI, 0, T2, i.imm)] + Trap(I(if i.rt == 12 then BEQ else BNE, T1, T2, 3))
  }

  function CheckPrivilege(): seq<Ins> {
    [Fetch(T1, Cp(STATUS)), I(ANDI, T1, T2, 0x1E), I(XORI, T2, T2, 0x10)]
    + ([I(BNE, 0, T2, 6), NOP] + RequestC(EXP_RI))
  }

  function TlbOp(i: Ins): seq<Ins>
    requires i.R?
  {
    CheckPrivilege()
    + RequestC(if i.func == 1 then TLB_READ else if i.func == 2 then TLB_WRITEI else if i.func == 6 then TLB_WRITE
               else TLB_PROBE)
  }

  // One of the two exits of eret: restore the PC and clear a Status bit.
  function EretPath(pcSlot: int, mask: int): seq<Ins> {
    [Fetch(T2, pcSlot), Put(T2, PC), I(LUI, 0, T2, 0xFFFF), I(ADDI, T2, T2, mask)]
    + ([R(0, T2, T1, T1, 0, 36), Put(T1, Cp(STATUS))] + (SetMark(T1, FETCH_NEXT_BLOCK) + ExitC()))
  }

  function Eret(): seq<Ins> {
    [Fetch(T1, Cp(STATUS)), I(ANDI, T1, T2, 4)]
    + ([I(BEQ, T2, 0, 12), NOP] + (EretPath(Cp(ERROR_EPC), 0xFFFB) + EretPath(Cp(EPC), 0xFFFD)))
  }

  const EBASE_SLOT := Cp(121)

  /** mtc0 to EBase after the privilege check: the core number goes in, then a mask, bit 31 and the sign extension. */
  function WriteEbase(source: int): seq<Ins> {
    [Fetch(T1, Gp(source)), Fetch(T2, EBASE_SLOT), R(31, T2, T1, 9, 0, 4)]
    + ([I(LUI, 0, T2, 0xBFFF), I(ADDI, T2, T2, 0xF3FF), R(0, T2, T1, T1, 0, 36)]
    + ([I(LUI, 0, T2, 0x8000), I(ADDI, T2, T2, 0), R(0, T2, T1, T1, 0, 37)]
    + [R(0, 0, T1, T1, 0, 60), R(0, 0, T1, T1, 0, 63), Put(T1, EBASE_SLOT)]))
  }

  function Terminate(): seq<Ins> { SetMark(T3, FETCH_NEXT_BLOCK) + ExitC() }

  /** The handlers whose output is modelled for instructions outside control position. */
  predicate IsModelled(h: Decoder.Handler) {
    h.UnprevR? || h.ShiftR? || h.MulDivR? || h.Madd? || h.MoveFromLoHi? || h.ExtR? || h.InsR? || h.SeqiSnei?
    || h.UnprevI? || h.Load? || h.Store? || h.LoadLinked? || h.StoreConditional? || h.OneNop? || h.TwoNops? || h.NoCode?
    || h.TeqTne? || h.TeqiTnei? || h.Syscall? || h.Break? || h.TlbOp? || h.Eret? || h.Terminate?
  }

  /** findInstrCase without a delay slot. */
  function Emit(i: Ins): seq<Ins>
    requires IsModelled(Decoder.Dispatch(i)) && !Decoder.RotatePattern(i)
  {
    match Decoder.Dispatch(i)
    case UnprevR => UnprevR(i)
    case ShiftR => ShiftR(i)
    case MulDivR => MulDivR(i)
    case Madd => Madd(i)
    case MoveFromLoHi => MoveFromLoHi(i)
    case ExtR | SeqiSnei => ExtR(i)
    case InsR => InsR(i)
    case UnprevI => UnprevI(i)
    case Load => Load(i)
    case Store => Store(i)
    case LoadLinked => LoadLinked(i)
    case StoreConditional => StoreConditional(i)
    case TwoNops => [NOP, NOP]
    case NoCode => []
    case TeqTne => TeqTne(i)
    case TeqiTnei => TeqiTnei(i)
    case Syscall => RequestC(SYSCALL_INT)
    case Break => RequestC(HANDLE_BR)
    case TlbOp => TlbOp(i)
    case Eret => Eret()
    case Terminate => Terminate()
    case _ => [NOP]
  }

  // The two ends of a branch: 6 words fall through, 6 words taken (8 words each when likely).
  function StorePc(imm: int): seq<Ins> {
    [Fetch(T3, BLOCK_END_PC), I(DADDI, T3, T3, imm), Put(T3, PC)] + ExitC()
  }

  /** The 16-bit displacement field the emitter computes from the branch offset. */
  function BranchImm(imm: int): int { BranchHalf(imm) as int }

  function BranchHalf(imm: int): bv16 { (Half(imm) << 2) + 4 }

  function AndLink(): seq<Ins> { [Fetch(T1, BLOCK_END_PC), I(DADDI, T1, T1, 8), Put(T1, Gp(31))] }

  function LinkIf(b: bool): seq<Ins> { if b then AndLink() else [] }

  function BneBeq(c: Ins, slot: seq<Ins>): seq<Ins>
    requires c.I?
  {
    [Fetch(T3, Gp(c.rs)), Fetch(T2, Gp(c.rt)), Put(T3, TEMP_SLOT4), Put(T2, TEMP_SLOT5)]
    + (slot
    + ([Const(T1, FETCH_NEXT_BLOCK), Put(T1, CONTROL_MARK), Fetch(T3, TEMP_SLOT4), Fetch(T2, TEMP_SLOT5)]
    + ([I(c.op, T3, T2, 7), NOP] + (StorePc(8) + StorePc(BranchImm(c.imm))))))
  }

  // branch and bbit differ in the link only.
  function Branch(c: Ins, link: bool, slot: seq<Ins>): seq<Ins>
    requires c.I?
  {
    (LinkIf(link) + [Fetch(T3, Gp(c.rs)), Put(T3, TEMP_SLOT4)])
    + (slot
    + ([Const(T1, FETCH_NEXT_BLOCK), Put(T1, CONTROL_MARK), Fetch(T3, TEMP_SLOT4)]
    + ([I(c.op, T3, c.rt, 7), NOP] + (StorePc(8) + StorePc(BranchImm(c.imm))))))
  }

  function LikelyPaths(c: Ins, slot: seq<Ins>): seq<Ins>
    requires c.I?
  {
    (SetMark(T3, FETCH_NEXT_BLOCK) + StorePc(8)) + (slot + (SetMark(T3, FETCH_NEXT_BLOCK) + StorePc(BranchImm(c.imm))))
  }

  function BneBeqLikely(c: Ins, slot: seq<Ins>): seq<Ins>
    requires c.I?
  {
    [Fetch(T1, Gp(c.rs)), Fetch(T2, Gp(c.rt))] + ([I(c.op, T1, T2, 9), NOP] + LikelyPaths(c, slot))
  }

  function BranchLikely(c: Ins, slot: seq<Ins>): seq<Ins>
    requires c.I?
  {
    LinkIf(c.rt == 18 || c.rt == 19)
    + ([Fetch(T1, Gp(c.rs))] + ([I(c.op, T1, c.rt, 9), NOP] + LikelyPaths(c, slot)))
  }

  /** The address j and jal build from the block end and the target field. */
  function JumpWord(blockEnd: Value, addr: int): bv64 {
    (blockEnd.bits & 0xF000_0000) | JumpOffset(addr)
  }

  function UpperHalf(target: bv64): bv16 { ((target >> 16) & 0xFFFF) as bv16 }

  function LowerHalf(target: bv64): bv16 { (target & 0xFFFF) as bv16 }

  function JumpTail(target: bv64): seq<Ins> {
    [I(LUI, 0, T1, UpperHalf(target) as int), I(ORI, T1, T1, LowerHalf(target) as int), Put(T1, PC)]
    + (SetMark(T1, FETCH_NEXT_BLOCK) + ExitC())
  }

  function Jump(c: Ins, slot: seq<Ins>, blockEnd: Value): seq<Ins>
    requires c.J? && WellFormed(c)
  {
    LinkIf(c.op == 3) + (slot + JumpTail(JumpWord(blockEnd, c.addr)))
  }

  function LinkTo(c: Ins): seq<Ins>
    requires c.R?
  {
    if c.func == 9 then [Fetch(T1, BLOCK_END_PC), I(DADDI, T1, T1, 8), Put(T1, Gp(c.rd))] else []
  }

  function LinkAndSave(c: Ins): seq<Ins>
    requires c.R?
  {
    LinkTo(c) + [Fetch(T1, Gp(c.rs)), Put(T1, TEMP_SLOT4)]
  }

  function JumpReg(c: Ins, slot: seq<Ins>): seq<Ins>
    requires c.R?
  {
    LinkAndSave(c) + (slot + ([Fetch(T1, TEMP_SLOT4), Put(T1, PC)] + (SetMark(T1, FETCH_NEXT_BLOCK) + ExitC())))
  }

  /** findInstrCase for the control instruction of a block; slot is what it emits for the delay slot. */
  function EmitControl(c: Ins, slot: seq<Ins>, blockEnd: Value): seq<Ins>
    requires WellFormed(c) && Decoder.NeedsSlot(Decoder.Dispatch(c))
  {
    match Decoder.Dispatch(c)
    case BneBeq => BneBeq(c, slot)
    case Branch => Branch(c, c.rt == 16 || c.rt == 17, slot)
    case BBit => Branch(c, false, slot)
    case BneBeqLikely => BneBeqLikely(c, slot)
    case BranchLikely => BranchLikely(c, slot)
    case Jump | JumpLink => Jump(c, slot, blockEnd)
    case JumpReg | JumpLinkReg => JumpReg(c, slot)
    case _ => [] // not reached: every other handler ignores the slot
  }
}
