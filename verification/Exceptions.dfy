/** ExceptionHandler_IPE: entering an exception, and what eret later undoes. */
module Exceptions {
  import opened Words
  import opened Machine
  import opened Cp0
  import opened Mmu
  import opened GuestMachine
  import opened Simulation
  import opened Faithfulness

  // Exception types; INT to TRAP are also the Cause codes.
  const INT: bv64 := 0
  const TLB_MOD: bv64 := 1
  const TLBL: bv64 := 2
  const TLBS: bv64 := 3
  const ADEL: bv64 := 4
  const TRAP: bv64 := 13
  const TLB_INV: bv64 := 14

  const BOOT_VECTOR: bv64 := 0xBFC0_0200
  const CAUSE_IV: bv64 := 0x80_0000
  const SEG_MASK: bv64 := 0x1_FFFF_FFFF_FFFF

  /** Context_IPE. The page protection is stored in the cell that also tells loads from stores. */
  class Context {
    var loadStore: bv64
    var pc: bv64

    method SetProt(prot: bv64)
      modifies this
      ensures loadStore == prot && pc == old(pc)
    {
      loadStore := prot;
    }
  }

  /** The Cause code of an exception type. */
  function CauseCode(expType: bv64, ldst: bv64): Option<bv64> {
    if expType <= ADEL + 1 || 8 <= expType <= TRAP then Some(expType)
    else if expType == TLB_INV then Some(TLBL + ldst)
    else None
  }

  predicate HasExl(status: bv64) { status & STATUS_EXL != 0 }

  function SetExl(status: bv64): bv64 { status | STATUS_EXL }

  function SetErl(status: bv64): bv64 { status | STATUS_ERL }

  function NewCause(cause: bv64, code: bv64): bv64 { (cause & 0xFFFF_FFFF_FFFF_FF83) | (code << 2) }

  function VectorOffset(expType: bv64, status: bv64, cause: bv64): bv64 {
    if (expType == TLBL || expType == TLBS) && !HasExl(status) then 0x80
    else if expType == INT && cause & CAUSE_IV != 0 then 0x200
    else 0x180
  }

  /** Only the exception code of Cause changes, and it is the code. */
  lemma CauseHoldsCode(cause: bv64, code: bv64)
    requires code < 32
    ensures (NewCause(cause, code) >> 2) & 0x1F == code
    ensures NewCause(cause, code) & 0xFFFF_FFFF_FFFF_FF83 == cause & 0xFFFF_FFFF_FFFF_FF83
  {
  }

  predicate Booting(status: bv64) { status & STATUS_BEV != 0 }

  function BootVector(offset: bv64): bv64 { SignExtend32(BOOT_VECTOR + offset) }

  function TableVector(ebase: bv64, offset: bv64): bv64 { SignExtend32((ebase & 0xFFFF_FFFF_FFFF_FC00) + offset) }

  function Vector(expType: bv64, status: bv64, cause: bv64, ebase: bv64): bv64 {
    if Booting(status) then BootVector(VectorOffset(expType, status, cause))
    else TableVector(ebase, VectorOffset(expType, status, cause))
  }

  datatype Entry = Entry(regs: Regs, pc: bv64)

  /** Registers and PC after an exception, or None where the program gives up. The first level saves the PC in EPC
      and sets EXL; with EXL set already, the PC goes to ErrorEPC and ERL is set. */
  function Entered(r: Regs, gva: bv64, expType: bv64, ldst: bv64, pc: bv64): Option<Entry> {
    match CauseCode(expType, ldst)
    case None => None
    case Some(code) =>
      var status := r[STATUS].bits;
      var cause := NewCause(r[CAUSE].bits, code);
      var r1 := Written(Written(r, BADVADDR, gva), CAUSE, cause);
      var r2 :=
        if !HasExl(status) then Written(Written(r1, EPC, pc), STATUS, SetExl(status))
        else Written(Written(r1, ERROR_EPC, pc), STATUS, SetErl(status));
      Some(Entry(r2, Vector(expType, status, cause, r[EBASE].bits)))
  }

  // ---- the entry in numbers

  /** Where the handlers start: at 0xBFC0_0200 while booting, else at EBase without its low ten bits; both
      sign-extended. */
  function HandlerBase(status: bv64, ebase: bv64): bv64 {
    if status & 0x40_0000 != 0 then 0xFFFF_FFFF_BFC0_0200 else TableBase(ebase)
  }

  function TableBase(ebase: bv64): bv64 {
    (if ebase % 0x1_0000_0000 < 0x8000_0000 then 0 else 0xFFFF_FFFF_0000_0000) + ebase / 0x400 % 0x40_0000 * 0x400
  }

  function Behind(base: bv64, offset: bv64): bv64 { base + offset }

  /** A refill with EXL clear enters at 0x80, an interrupt with IV set at 0x200, everything else at 0x180. */
  function HandlerOffset(expType: bv64, status: bv64, cause: bv64): bv64 {
    if (expType == 2 || expType == 3) && status & 2 == 0 then 0x80
    else if expType == 0 && cause & 0x80_0000 != 0 then 0x200
    else 0x180
  }

  /** Cause as it is written back: the code in bits 6 to 2, and bits 31 to 26, 23, 22 and 15 to 8 as they were. */
  function CauseWith(cause: bv64, code: bv64): bv64 {
    cause / 0x400_0000 % 64 * 0x400_0000 + cause / 0x40_0000 % 4 * 0x40_0000 + cause / 0x100 % 0x100 * 0x100 + code * 4
  }

  /** Only an invalid page asks whether the access was a load (0) or a store (1). */
  predicate FlagKnown(expType: bv64, ldst: bv64) { expType == 14 ==> ldst <= 1 }

  predicate FirstLevel(status: bv64) { status & 2 == 0 }

  function StatusWith(status: bv64, level: bv64): bv64 { (status | level) & 0x50F8_FFFF }

  /** The exception types that are handled. */
  predicate KnownType(expType: bv64) { expType <= 5 || 8 <= expType <= 14 }

  /** From r to r1 and newPc by an exception: the handler by type; BadVAddr (64) holds gva, Cause (104) the type
      itself, or 2 + ldst for an invalid page (14); the PC goes to EPC (112) and EXL is set, or with EXL set already
      to ErrorEPC (240) and ERL is set; every other register is kept. */
  predicate EntersBy(r: Regs, gva: bv64, expType: bv64, ldst: bv64, pc: bv64, r1: Regs, newPc: bv64) {
    var status, cause := r[96].bits, r[104].bits;
    var code := if expType == 14 then 2 + ldst else expType;
    newPc == Behind(HandlerBase(status, r[121].bits), HandlerOffset(expType, status, cause))
    && var r0 := r[64 := Value(gva)][104 := Value(CauseWith(cause, code))];
       r1 == if FirstLevel(status) then r0[112 := Value(pc)][96 := Value(StatusWith(status, 2))]
             else r0[240 := Value(pc)][96 := Value(StatusWith(status, 4))]
  }

  lemma LowRefill(ebase: bv64)
    requires ebase & 0x8000_0000 == 0
    ensures TableVector(ebase, 0x80) == Behind(TableBase(ebase), 0x80)
  {
  }

  lemma LowGeneral(ebase: bv64)
    requires ebase & 0x8000_0000 == 0
    ensures TableVector(ebase, 0x180) == Behind(TableBase(ebase), 0x180)
  {
  }

  lemma LowInterrupt(ebase: bv64)
    requires ebase & 0x8000_0000 == 0
    ensures TableVector(ebase, 0x200) == Behind(TableBase(ebase), 0x200)
  {
  }

  lemma HighRefill(ebase: bv64)
    requires ebase & 0x8000_0000 != 0
    ensures TableVector(ebase, 0x80) == Behind(TableBase(ebase), 0x80)
  {
  }

  lemma HighGeneral(ebase: bv64)
    requires ebase & 0x8000_0000 != 0
    ensures TableVector(ebase, 0x180) == Behind(TableBase(ebase), 0x180)
  {
  }

  lemma HighInterrupt(ebase: bv64)
    requires ebase & 0x8000_0000 != 0
    ensures TableVector(ebase, 0x200) == Behind(TableBase(ebase), 0x200)
  {
  }

  lemma TableOffset(ebase: bv64, offset: bv64)
    requires IsOffset(offset)
    ensures TableVector(ebase, offset) == Behind(TableBase(ebase), offset)
  {
    hide TableVector, TableBase, Behind;
    if ebase & 0x8000_0000 == 0 {
      LowRefill(ebase);
      LowGeneral(ebase);
      LowInterrupt(ebase);
    } else {
      HighRefill(ebase);
      HighGeneral(ebase);
      HighInterrupt(ebase);
    }
  }

  lemma BootOffset(offset: bv64)
    requires IsOffset(offset)
    ensures BootVector(offset) == Behind(0xFFFF_FFFF_BFC0_0200, offset)
  {
  }

  lemma WhichOffset(expType: bv64, status: bv64, cause: bv64, code: bv64)
    requires code < 32
    ensures VectorOffset(expType, status, NewCause(cause, code)) == HandlerOffset(expType, status, cause)
  {
  }

  lemma VectorIs(expType: bv64, status: bv64, cause: bv64, code: bv64, ebase: bv64)
    requires code < 32
    ensures Vector(expType, status, NewCause(cause, code), ebase)
            == Behind(HandlerBase(status, ebase), HandlerOffset(expType, status, cause))
  {
    assert Booting(status) <==> status & 0x40_0000 != 0;
    hide VectorOffset, HandlerOffset, NewCause, TableVector, TableBase, BootVector, Booting, Behind, IsOffset;
    WhichOffset(expType, status, cause, code);
    OffsetBits(expType, status, NewCause(cause, code));
    TableOffset(ebase, HandlerOffset(expType, status, cause));
    BootOffset(HandlerOffset(expType, status, cause));
  }

  lemma CauseKept(cause: bv64, code: bv64)
    requires code < 32
    ensures Keep(NewCause(cause, code), 0xFCC0_FF7C) == CauseWith(cause, code)
  {
  }

  lemma CauseIs(cause: bv64, code: bv64)
    requires code < 32
    ensures ReservedBits(CAUSE, NewCause(cause, code)) == CauseWith(cause, code)
  {
    hide Keep, KeepAndSet, KeepLong, NewCause, CauseWith;
    CauseKept(cause, code);
  }

  lemma CodeIs(expType: bv64, ldst: bv64)
    ensures CauseCode(expType, ldst).Some? <==> KnownType(expType)
    ensures KnownType(expType) && FlagKnown(expType, ldst) ==>
              CauseCode(expType, ldst).value == (if expType == 14 then 2 + ldst else expType)
              && CauseCode(expType, ldst).value < 32
  {
  }

  lemma LevelSet(status: bv64)
    ensures WrittenStatus(SetExl(status)) == StatusWith(status, 2)
    ensures WrittenStatus(SetErl(status)) == StatusWith(status, 4)
  {
  }

  lemma LevelIs(status: bv64)
    ensures HasExl(status) <==> !FirstLevel(status)
    ensures ReservedBits(STATUS, SetExl(status)) == StatusWith(status, 2)
    ensures ReservedBits(STATUS, SetErl(status)) == StatusWith(status, 4)
  {
    assert HasExl(status) <==> !FirstLevel(status);
    hide ReservedBits, WrittenStatus, SetExl, SetErl, StatusWith, HasExl, FirstLevel;
    StatusWrite(SetExl(status));
    StatusWrite(SetErl(status));
    LevelSet(status);
  }

  lemma PlainRegisters(v: bv64)
    ensures ReservedBits(BADVADDR, v) == v && ReservedBits(EPC, v) == v && ReservedBits(ERROR_EPC, v) == v
  {
    hide Keep, KeepAndSet, KeepLong;
  }

  lemma EnteredIs(r: Regs, gva: bv64, expType: bv64, ldst: bv64, pc: bv64)
    requires KnownType(expType) && FlagKnown(expType, ldst)
    ensures Entered(r, gva, expType, ldst, pc).Some?
    ensures var e := Entered(r, gva, expType, ldst, pc).value; EntersBy(r, gva, expType, ldst, pc, e.regs, e.pc)
  {
    CodeIs(expType, ldst);
    hide ReservedBits, Vector, NewCause, HasExl, SetExl, SetErl, CauseCode, KnownType, CauseWith, HandlerBase,
      HandlerOffset, Behind, FirstLevel, StatusWith;
    LevelIs(r[STATUS].bits);
    PlainRegisters(gva);
    PlainRegisters(pc);
    var code := CauseCode(expType, ldst).value;
    CauseIs(r[CAUSE].bits, code);
    VectorIs(expType, r[STATUS].bits, r[CAUSE].bits, code, r[EBASE].bits);
  }

  /** Every exception is entered by these numbers; ldst is 0 or 1 where it takes part. */
  lemma EnteredExactly(r: Regs, gva: bv64, expType: bv64, ldst: bv64, pc: bv64)
    ensures match Entered(r, gva, expType, ldst, pc)
            case Some(e) => KnownType(expType)
                            && (FlagKnown(expType, ldst) ==> EntersBy(r, gva, expType, ldst, pc, e.regs, e.pc))
            case None => !KnownType(expType)
  {
    CodeIs(expType, ldst);
    hide Entered, KnownType, EntersBy, FlagKnown, CauseCode;
    EnteredRegs(r, gva, expType, ldst, pc);
    if KnownType(expType) && FlagKnown(expType, ldst) { EnteredIs(r, gva, expType, ldst, pc); }
  }

  method PerformException(cp0: CP0, gva: bv64, expType: bv64, context: Context) returns (newPc: Option<bv64>)
    requires cp0.Valid()
    modifies cp0.reg
    ensures match Entered(old(cp0.Contents()), gva, expType, context.loadStore, context.pc)
            case Some(e) => newPc == Some(e.pc) && cp0.Contents() == e.regs
            case None => newPc == None && cp0.Contents() == old(cp0.Contents())
    ensures newPc.Some? <==> KnownType(expType)
    ensures newPc.Some? && FlagKnown(expType, context.loadStore) ==>
              EntersBy(old(cp0.Contents()), gva, expType, context.loadStore, context.pc, cp0.Contents(), newPc.value)
  {
    hide ReservedBits, Vector, NewCause, HasExl, SetExl, SetErl, CauseCode, KnownType, EntersBy, FlagKnown;
    EnteredExactly(cp0.Contents(), gva, expType, context.loadStore, context.pc);
    var cause := cp0.Read(CAUSE);
    var status := cp0.Read(STATUS);
    var ebase := cp0.Read(EBASE);
    var code := CauseCode(expType, context.loadStore);
    if code == None {
      newPc := None;
      return;
    }
    cp0.Write(gva, BADVADDR);
    cause := NewCause(cause, code.value);
    cp0.Write(cause, CAUSE);
    newPc := Some(Vector(expType, status, cause, ebase));
    if !HasExl(status) {
      cp0.Write(context.pc, EPC);
      status := SetExl(status);
    } else {
      status := SetErl(status);
      cp0.Write(context.pc, ERROR_EPC);
    }
    cp0.Write(status, STATUS);
  }

  // The faulting page, as TLB_Excep files it in three registers.
  function Region(gva: bv64): bv64 { gva & 0xC000_0000_0000_0000 }

  function Vpn(gva: bv64): bv64 { gva & 0xFFFF_FFFF_FFFF_E000 & SEG_MASK }

  function NewEntryHi(entryHi: bv64, gva: bv64): bv64 { (entryHi & ENTRYHI_ASID) | Vpn(gva) | Region(gva) }

  function NewXContext(xContext: bv64, gva: bv64): bv64 {
    (xContext & 0xFFFF_FC00_0000_0000) | (Region(gva) >> 22) | (Vpn(gva) >> 9)
  }

  function NewContext(context: bv64, gva: bv64): bv64 {
    (context & 0xFFFF_FFFF_FF80_0000) | ((Vpn(gva) >> 9) & 0x7F_FFF0)
  }

  function Located(r: Regs, gva: bv64): Regs {
    Written(Written(Written(r, ENTRYHI, NewEntryHi(r[ENTRYHI].bits, gva)), XCONTEXT,
                    NewXContext(r[XCONTEXT].bits, gva)),
            CONTEXT, NewContext(r[CONTEXT].bits, gva))
  }

  // The three registers in numbers.
  function PageInHi(entryHi: bv64, gva: bv64): bv64 {
    (entryHi % 0x100) | (gva / 0x2000 % 0x10_0000_0000 * 0x2000)
    | (gva / 0x4000_0000_0000_0000 * 0x4000_0000_0000_0000)
  }

  function PageInXContext(xContext: bv64, gva: bv64): bv64 {
    (xContext / 0x400_0000_0000 * 0x400_0000_0000) | (gva / 0x4000_0000_0000_0000 * 0x100_0000_0000)
    | (gva / 0x2000 % 0x10_0000_0000 * 0x10)
  }

  function PageInContext(context: bv64, gva: bv64): bv64 {
    (context / 0x80_0000 * 0x80_0000) | (gva / 0x2000 % 0x8_0000 * 0x10)
  }

  /** The faulting page in EntryHi (80), beside the ASID and with its region; in XContext (160), 36 bits of page pair
      number and the region below the table base; and in Context (32), 19 bits of it. */
  function FiledPage(r: Regs, gva: bv64): Regs {
    r[80 := Value(PageInHi(r[80].bits, gva))][160 := Value(PageInXContext(r[160].bits, gva))]
     [32 := Value(PageInContext(r[32].bits, gva))]
  }

  lemma HiIs(entryHi: bv64, gva: bv64)
    ensures NewEntryHi(entryHi, gva) == PageInHi(entryHi, gva)
  {
  }

  lemma XContextIs(xContext: bv64, gva: bv64)
    ensures NewXContext(xContext, gva) == PageInXContext(xContext, gva)
  {
  }

  lemma ContextIs(context: bv64, gva: bv64)
    ensures NewContext(context, gva) == PageInContext(context, gva)
  {
  }

  predicate LowFourClear(x: bv64) { x & 0xF == 0 }

  lemma XContextRound(xContext: bv64, gva: bv64)
    ensures LowFourClear(PageInXContext(xContext, gva))
  {
  }

  lemma ContextRound(context: bv64, gva: bv64)
    ensures LowFourClear(PageInContext(context, gva))
  {
  }

  lemma RoundKept(x: bv64)
    requires LowFourClear(x)
    ensures KeepLong(x, 0xFFFF_FFFF_FFFF_FFF0) == x
  {
  }

  lemma PageRegisters(v: bv64)
    ensures ReservedBits(ENTRYHI, v) == v
    ensures LowFourClear(v) ==> ReservedBits(XCONTEXT, v) == v && ReservedBits(CONTEXT, v) == v
  {
    hide Keep, KeepAndSet, KeepLong, LowFourClear;
    if LowFourClear(v) { RoundKept(v); }
  }

  /** A TLB exception files its page by these numbers. */
  lemma LocatedExactly(r: Regs, gva: bv64)
    ensures Located(r, gva) == FiledPage(r, gva)
  {
    hide ReservedBits, NewEntryHi, NewXContext, NewContext, PageInHi, PageInXContext, PageInContext, LowFourClear;
    HiIs(r[ENTRYHI].bits, gva);
    XContextIs(r[XCONTEXT].bits, gva);
    ContextIs(r[CONTEXT].bits, gva);
    XContextRound(r[XCONTEXT].bits, gva);
    ContextRound(r[CONTEXT].bits, gva);
    PageRegisters(NewEntryHi(r[ENTRYHI].bits, gva));
    PageRegisters(NewXContext(r[XCONTEXT].bits, gva));
    PageRegisters(NewContext(r[CONTEXT].bits, gva));
  }

  method TlbExcep(cp0: CP0, gva: bv64, expType: bv64, context: Context) returns (newPc: Option<bv64>)
    requires cp0.Valid()
    modifies cp0.reg
    ensures match Entered(Located(old(cp0.Contents()), gva), gva, expType, context.loadStore, context.pc)
            case Some(e) => newPc == Some(e.pc) && cp0.Contents() == e.regs
            case None => newPc == None && cp0.Contents() == Located(old(cp0.Contents()), gva)
    ensures newPc.Some? <==> KnownType(expType)
    ensures newPc.Some? && FlagKnown(expType, context.loadStore) ==>
              EntersBy(FiledPage(old(cp0.Contents()), gva), gva, expType, context.loadStore, context.pc,
                       cp0.Contents(), newPc.value)
  {
    hide ReservedBits, Entered, NewEntryHi, NewXContext, NewContext, KnownType, EntersBy, FiledPage, FlagKnown;
    LocatedExactly(cp0.Contents(), gva);
    var xContext, ctx, entryHi := cp0.Read(XCONTEXT), cp0.Read(CONTEXT), cp0.Read(ENTRYHI);
    cp0.Write(NewEntryHi(entryHi, gva), ENTRYHI);
    cp0.Write(NewXContext(xContext, gva), XCONTEXT);
    cp0.Write(NewContext(ctx, gva), CONTEXT);
    newPc := PerformException(cp0, gva, expType, context);
  }

  // ---- the exception vector is always fetchable

  /** Bit 31 set, bits 30, 11 and 10 clear: what every way of writing EBase leaves. */
  predicate EbaseOk(ebase: bv64) { ebase & 0xC000_0C00 == 0x8000_0000 }

  const INITIAL_EBASE: bv64 := 0xFFFF_FFFF_8000_0000

  /** The value EBase starts with and every value the C++ side writes. */
  lemma EbaseAlwaysOk(x: bv64)
    ensures EbaseOk(INITIAL_EBASE) && EbaseOk(ReservedBits(EBASE, x))
  {
  }

  predicate Fetchable(v: bv64, erl: bool) {
    Aligned4(v) && Is32Bit(v) && (Segment32(v) == KSEG0 || Segment32(v) == KSEG1) && !InCvmseg(v)
    && Allowed(0, v) && StaticGpa(v, erl) == Some(v & 0x1FFF_FFFF)
  }

  predicate Aligned4(v: bv64) { v & 3 == 0 }

  /** The sign-extended addresses of kseg0 and kseg1. */
  predicate Unmapped(v: bv64) { v >> 30 == 0x3_FFFF_FFFE }

  predicate IsOffset(offset: bv64) { offset == 0x80 || offset == 0x180 || offset == 0x200 }

  lemma TableBits(ebase: bv64, offset: bv64)
    requires EbaseOk(ebase) && IsOffset(offset)
    ensures Unmapped(TableVector(ebase, offset)) && Aligned4(TableVector(ebase, offset))
  {
  }

  lemma BootBits(offset: bv64)
    requires IsOffset(offset)
    ensures Unmapped(BootVector(offset)) && Aligned4(BootVector(offset))
  {
  }

  lemma OffsetBits(expType: bv64, status: bv64, cause: bv64)
    ensures IsOffset(VectorOffset(expType, status, cause))
  {
    hide HasExl;
  }

  lemma VectorBits(expType: bv64, status: bv64, cause: bv64, ebase: bv64)
    requires EbaseOk(ebase)
    ensures Unmapped(Vector(expType, status, cause, ebase)) && Aligned4(Vector(expType, status, cause, ebase))
  {
    hide EbaseOk, IsOffset, VectorOffset, TableVector, BootVector, Booting, Unmapped, Aligned4;
    OffsetBits(expType, status, cause);
    TableBits(ebase, VectorOffset(expType, status, cause));
    BootBits(VectorOffset(expType, status, cause));
  }

  lemma UnmappedBits(v: bv64)
    requires Unmapped(v)
    ensures Is32Bit(v) && !InCvmseg(v) && (Segment32(v) == KSEG0 || Segment32(v) == KSEG1)
  {
  }

  lemma UnmappedStatic(v: bv64, erl: bool)
    requires Is32Bit(v) && (Segment32(v) == KSEG0 || Segment32(v) == KSEG1)
    ensures Allowed(0, v) && StaticGpa(v, erl) == Some(v & 0x1FFF_FFFF)
  {
    hide Is32Bit, Segment32, Segment64;
  }

  lemma UnmappedFetchable(v: bv64, erl: bool)
    requires Unmapped(v) && Aligned4(v)
    ensures Fetchable(v, erl)
  {
    hide Unmapped, Aligned4, InCvmseg, Is32Bit, Segment32, Allowed, StaticGpa;
    UnmappedBits(v);
    UnmappedStatic(v, erl);
  }

  /** Whatever the exception, the mode and EBase: the vector is an aligned unmapped kernel address. */
  lemma VectorFetchable(expType: bv64, status: bv64, cause: bv64, ebase: bv64, erl: bool)
    requires EbaseOk(ebase)
    ensures Fetchable(Vector(expType, status, cause, ebase), erl)
  {
    hide EbaseOk, Vector, Unmapped, Aligned4, Fetchable;
    VectorBits(expType, status, cause, ebase);
    UnmappedFetchable(Vector(expType, status, cause, ebase), erl);
  }

  // ---- eret undoes an entry

  /** Status as a write leaves it. */
  function WrittenStatus(s: bv64): bv64 { s & 0x50F8_FFFF }

  lemma StatusWrite(s: bv64)
    ensures ReservedBits(STATUS, s) == WrittenStatus(s)
  {
  }

  function EnteredStatus(s: bv64): bv64 {
    if !HasExl(s) then WrittenStatus(SetExl(s)) else WrittenStatus(SetErl(s))
  }

  predicate HasErl(s: bv64) { s & STATUS_ERL != 0 }

  /** The Status bits a write keeps. */
  predicate InMask(s: bv64) { s & 0x50F8_FFFF == s }

  function Returned(s: bv64): bv64 { EretStatus(Value(EnteredStatus(s))).bits }

  lemma FirstLevelBits(s: bv64)
    requires !HasExl(s) && !HasErl(s) && InMask(s)
    ensures Returned(s) == s
  {
  }

  lemma SecondLevelBits(s: bv64)
    requires HasExl(s) && !HasErl(s) && InMask(s)
    ensures Returned(s) == s
  {
  }

  lemma LostErl(s: bv64)
    requires HasErl(s)
    ensures Returned(s) != s
  {
  }

  lemma LostReserved(s: bv64)
    requires !InMask(s)
    ensures Returned(s) != s
  {
  }

  lemma EnteredBits(s: bv64)
    ensures var t := EnteredStatus(s);
      HasExl(t) && (HasErl(t) <==> HasErl(s) || HasExl(s)) && t & 0x1_0000 == 0
  {
  }

  lemma ErlSame(s: bv64)
    ensures ErlSet(Value(s)) == HasErl(s)
  {
  }

  /** Status survives an exception and its eret exactly when ERL was clear and only writable bits were set. */
  lemma ReturnedExact(s: bv64)
    ensures Returned(s) == s <==> !HasErl(s) && InMask(s)
  {
    hide Returned, HasExl, HasErl, InMask;
    if HasErl(s) {
      LostErl(s);
    } else if !InMask(s) {
      LostReserved(s);
    } else if HasExl(s) {
      SecondLevelBits(s);
    } else {
      FirstLevelBits(s);
    }
  }

  /** What an exception leaves in the registers eret reads. */
  lemma EnteredRegs(r: Regs, gva: bv64, expType: bv64, ldst: bv64, pc: bv64)
    ensures match Entered(r, gva, expType, ldst, pc)
            case Some(e) =>
              CauseCode(expType, ldst).Some? && e.regs[STATUS] == Value(EnteredStatus(r[STATUS].bits))
                  && e.regs[EBASE] == r[EBASE]
              && e.pc == Vector(expType, r[STATUS].bits, NewCause(r[CAUSE].bits, CauseCode(expType, ldst).value),
                                r[EBASE].bits)
              && if HasExl(r[STATUS].bits) then e.regs[ERROR_EPC] == Value(pc) && e.regs[EPC] == r[EPC]
                 else e.regs[EPC] == Value(pc) && e.regs[ERROR_EPC] == r[ERROR_EPC]
            case None => CauseCode(expType, ldst) == None
  {
    hide HasExl, SetExl, SetErl, CauseCode, NewCause, Vector, ReservedBits, WrittenStatus;
    AddressRegister(pc);
    StatusWrite(SetExl(r[STATUS].bits));
    StatusWrite(SetErl(r[STATUS].bits));
  }

  lemma AddressRegister(v: bv64)
    ensures ReservedBits(EPC, v) == v && ReservedBits(ERROR_EPC, v) == v
  {
    hide Keep, KeepAndSet, KeepLong;
  }

  /** The guest's registers, seen as the CP0 register file. */
  function RegsOf(g: Guest): Regs {
    var r: seq<Value> := seq(256, i => g.cp0(i));
    assert |r| == 256;
    r
  }

  function GuestAt(g: Guest, e: Entry): Guest {
    g.(cp0 := (i: int) => if 0 <= i < 256 then e.regs[i] else g.cp0(i), pc := Value(e.pc))
  }

  /** The guest after an exception at its current PC. */
  function Raise(g: Guest, gva: bv64, expType: bv64, ldst: bv64): Guest {
    match Entered(RegsOf(g), gva, expType, ldst, g.pc.bits)
    case Some(e) => GuestAt(g, e)
    case None => g
  }

  /** The handler may do anything but change the three registers its eret depends on. */
  predicate Handled(g: Guest, h: Guest) {
    h.cp0(STATUS) == g.cp0(STATUS) && h.cp0(EPC) == g.cp0(EPC) && h.cp0(ERROR_EPC) == g.cp0(ERROR_EPC)
  }

  lemma RaisedRegs(g: Guest, gva: bv64, expType: bv64, ldst: bv64)
    requires CauseCode(expType, ldst).Some?
    ensures var e, s := Raise(g, gva, expType, ldst), g.cp0(STATUS).bits;
      e.cp0(STATUS) == Value(EnteredStatus(s))
      && if HasExl(s) then e.cp0(ERROR_EPC) == g.pc && e.cp0(EPC) == g.cp0(EPC)
         else e.cp0(EPC) == g.pc && e.cp0(ERROR_EPC) == g.cp0(ERROR_EPC)
  {
    EnteredRegs(RegsOf(g), gva, expType, ldst, g.pc.bits);
    hide CauseCode, Entered, HasExl, EnteredStatus, Vector, NewCause;
  }

  /** The emitted eret returns as the architecture's does: same PC, same CP0 registers. */
  predicate ReturnsAlike(g: Guest) {
    EretStep(g).Exit? && EretStep(g).mark == FETCH_NEXT_BLOCK && EmittedEret(g).pc == EretStep(g).guest.pc
    && EmittedEret(g).cp0(STATUS) == EretStep(g).guest.cp0(STATUS)
    && EmittedEret(g).cp0(EPC) == EretStep(g).guest.cp0(EPC)
       && EmittedEret(g).cp0(ERROR_EPC) == EretStep(g).guest.cp0(ERROR_EPC)
  }

  lemma ExlNotUser(s: bv64)
    requires HasExl(s)
    ensures !InUserMode(Value(s))
  {
  }

  lemma EnteredReturns(g: Guest, s: bv64)
    requires g.cp0(STATUS) == Value(EnteredStatus(s))
    ensures ReturnsAlike(g)
  {
    EnteredBits(s);
    ExlNotUser(EnteredStatus(s));
    EretBits(Value(EnteredStatus(s)));
    hide EnteredStatus, HasErl, HasExl, InUserMode, And, EretMaskValue, EretStatus, ErlSet;
  }

  lemma EretSteps(g: Guest, s: bv64)
    requires g.cp0(STATUS) == Value(EnteredStatus(s))
    ensures ReturnsAlike(g)
    ensures var g1 := EretStep(g).guest;
      g1.cp0(STATUS) == Value(Returned(s)) && g1.cp0(EPC) == g.cp0(EPC) && g1.cp0(ERROR_EPC) == g.cp0(ERROR_EPC)
      && g1.pc == if HasErl(s) || HasExl(s) then g.cp0(ERROR_EPC) else g.cp0(EPC)
  {
    EnteredReturns(g, s);
    EnteredBits(s);
    ErlSame(EnteredStatus(s));
    hide EnteredStatus, HasErl, HasExl, EretStatus, ErlSet, InUserMode, EmittedEret;
  }

  /** An exception and the eret of its handler, the architecture's or the emitted one, return to the interrupted PC with
      Status restored exactly when ERL was clear and Status held only bits that a write keeps. */
  lemma EretUndoesException(g: Guest, gva: bv64, expType: bv64, ldst: bv64, h: Guest)
    requires CauseCode(expType, ldst).Some? && Handled(Raise(g, gva, expType, ldst), h)
    ensures ReturnsAlike(h)
    ensures var g1 := EmittedEret(h);
      (g1.pc == g.pc && g1.cp0(STATUS) == g.cp0(STATUS))
          <==> (!HasErl(g.cp0(STATUS).bits) && InMask(g.cp0(STATUS).bits))
  {
    hide CauseCode, Raise, HasErl, HasExl, InMask, EnteredStatus, Returned, EretStep, EmittedEret;
    var s := g.cp0(STATUS).bits;
    RaisedRegs(g, gva, expType, ldst);
    EretSteps(h, s);
    ReturnedExact(s);
  }

  /** Two nested exceptions unwind in last-in-first-out order: the inner eret returns to the outer handler where it was
      interrupted, the outer one to the program, and both restore Status. */
  lemma NestedExceptionsUnwind(g: Guest, gva: bv64, expType: bv64, ldst: bv64, outer: Guest,
                               gva2: bv64, expType2: bv64, ldst2: bv64, inner: Guest, resumed: Guest)
    requires CauseCode(expType, ldst).Some? && CauseCode(expType2, ldst2).Some?
    requires var s := g.cp0(STATUS).bits; !HasExl(s) && !HasErl(s) && InMask(s)
    requires Handled(Raise(g, gva, expType, ldst), outer)
    requires Handled(Raise(outer, gva2, expType2, ldst2), inner)
    requires EretStep(inner).Exit? ==> Handled(EretStep(inner).guest, resumed)
    ensures ReturnsAlike(inner) && ReturnsAlike(resumed)
    ensures var back := EretStep(inner).guest; back.pc == outer.pc && back.cp0(STATUS) == outer.cp0(STATUS)
    ensures var done := EretStep(resumed).guest; done.pc == g.pc && done.cp0(STATUS) == g.cp0(STATUS)
  {
    hide CauseCode, Raise, HasErl, HasExl, InMask, EnteredStatus, Returned, EretStep, EmittedEret;
    var s := g.cp0(STATUS).bits;
    var t := EnteredStatus(s);
    EnteredBits(s);
    EnteredInMask(s);
    RaisedRegs(g, gva, expType, ldst);
    RaisedRegs(outer, gva2, expType2, ldst2);
    EretSteps(inner, t);
    ReturnedExact(t);
    EretSteps(resumed, s);
    ReturnedExact(s);
  }

  /** An exception taken with ERL set and EXL clear, as after an NMI: eret goes to the ErrorEPC of before instead of the
      interrupted instruction, and leaves EXL set in place of ERL. */
  lemma ErlIsLost(g: Guest, gva: bv64, expType: bv64, ldst: bv64, h: Guest)
    requires g.cp0(STATUS) == Value(4) && CauseCode(expType, ldst).Some? && Handled(Raise(g, gva, expType, ldst), h)
    ensures EmittedEret(h).pc == g.cp0(ERROR_EPC) && EmittedEret(h).cp0(STATUS) == Value(2)
  {
    hide CauseCode, Raise, HasErl, HasExl, InMask, EnteredStatus, Returned, EretStep, EmittedEret;
    RaisedRegs(g, gva, expType, ldst);
    EretSteps(h, 4);
    ErlReturned();
  }

  lemma ErlReturned()
    ensures Returned(4) == 2 && !HasExl(4) && HasErl(4)
  {
  }

  lemma EnteredInMask(s: bv64)
    ensures InMask(EnteredStatus(s))
  {
  }

  /** Between an exception and the eret that undoes it, the guest is in kernel mode and takes no interrupt. */
  lemma HandlerIsKernel(g: Guest, gva: bv64, expType: bv64, ldst: bv64, h: Guest)
    requires CauseCode(expType, ldst).Some? && h.cp0(STATUS) == Raise(g, gva, expType, ldst).cp0(STATUS)
    ensures Mode(h.cp0(STATUS).bits) == 0 && !InterruptPending(h.cp0(STATUS).bits, h.cp0(CAUSE).bits)
  {
    hide CauseCode, Raise, HasErl, EnteredStatus, Mode, InterruptPending;
    var s := g.cp0(STATUS).bits;
    RaisedRegs(g, gva, expType, ldst);
    EnteredBits(s);
    ExlIsKernel(EnteredStatus(s), h.cp0(CAUSE).bits);
  }

  lemma ExlIsKernel(s: bv64, cause: bv64)
    requires HasExl(s)
    ensures Mode(s) == 0 && !InterruptPending(s, cause)
  {
  }

  /** A third exception is one too many: it overwrites ErrorEPC, and the first eret already clears ERL for both. */
  lemma ThreeLevelsDoNotUnwind(g: Guest, pc2: Value, pc3: Value)
    requires g.cp0(STATUS) == ZERO && pc2 != pc3
    ensures var e1 := Raise(g, 0, TRAP, 0);
      var e2 := Raise(e1.(pc := pc2), 0, TRAP, 0);
      var e3 := Raise(e2.(pc := pc3), 0, TRAP, 0);
      EretStep(e3).Exit? && EretStep(e3).guest.pc == pc3 && EretStep(e3).guest.cp0(STATUS) != e2.cp0(STATUS)
      && EretStep(EretStep(e3).guest).Exit? && EretStep(EretStep(e3).guest).guest.pc == g.pc
  {
    LevelBits();
    hide Raise, EnteredStatus, EretStep, Returned, HasExl, HasErl;
    var e1 := Raise(g, 0, TRAP, 0);
    var e2 := Raise(e1.(pc := pc2), 0, TRAP, 0);
    var e3 := Raise(e2.(pc := pc3), 0, TRAP, 0);
    RaisedRegs(g, 0, TRAP, 0);
    RaisedRegs(e1.(pc := pc2), 0, TRAP, 0);
    RaisedRegs(e2.(pc := pc3), 0, TRAP, 0);
    EretSteps(e3, 6);
    EretSteps(EretStep(e3).guest, 0);
  }

  lemma LevelBits()
    ensures EnteredStatus(0) == 2 && EnteredStatus(2) == 6 && EnteredStatus(6) == 6 && Returned(6) == 2
    ensures !HasExl(0) && HasExl(2) && HasExl(6) && !HasErl(0) && HasErl(6)
  {
  }
}
