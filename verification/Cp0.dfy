/** CP0_IPE: the system control registers of one guest core. */
module Cp0 {
  import opened Words
  import opened Machine

  // Register * 8 + select; STATUS, EPC and ERROR_EPC are numbered the same way.
  const INDEX := 0
  const RANDOM := 8
  const ENTRYLO0 := 16
  const ENTRYLO1 := 24
  const CONTEXT := 32
  const PAGEMASK := 40
  const PAGEGRAIN := 41
  const WIRED := 48
  const HWRENA := 56
  const BADVADDR := 64
  const COUNT := 72
  const ENTRYHI := 80
  const COMPARE := 88
  const INTCTL := 97
  const SRSCTL := 98
  const CAUSE := 104
  const EBASE := 121
  const CONFIG := 128
  const XCONTEXT := 160

  const STATUS_IE: bv64 := 0x1
  const STATUS_EXL: bv64 := 0x2
  const STATUS_ERL: bv64 := 0x4
  const STATUS_KSU: bv64 := 0x18
  const STATUS_IMASK: bv64 := 0xFF00
  const STATUS_BEV: bv64 := 0x40_0000

  const ENTRYHI_ASID: bv64 := 0xFF

  /** The contents of the register file. */
  type Regs = r: seq<Value> | |r| == 256 witness seq(256, _ => ZERO)

  // Shifting up and down again does not sign-extend an unsigned value: it clears the upper half.
  function LowWord(a: bv64): bv64 { (a << 32) >> 32 }

  function Keep(a: bv64, mask: bv64): bv64 { LowWord(a & mask) }

  function KeepAndSet(a: bv64, mask: bv64, ones: bv64): bv64 { LowWord((a & mask) | ones) }

  function KeepLong(a: bv64, mask: bv64): bv64 { a & mask }

  /** What a write leaves in register i. */
  function ReservedBits(i: int, a: bv64): bv64 {
    if i == RANDOM || i == WIRED then Keep(a, 0x3F)
    else if i == CONTEXT || i == XCONTEXT then KeepLong(a, 0xFFFF_FFFF_FFFF_FFF0)
    else if i == PAGEGRAIN then Keep(a, 0xE000_0000)
    else if i == HWRENA then Keep(a, 0xC000_000F)
    else if i == COUNT || i == COMPARE then KeepLong(a, 0xFFFF_FFFF)
    else if i == STATUS then Keep(a, 0x50F8_FFFF)
    else if i == INTCTL then Keep(a, 0xFC00_0000)
    else if i == SRSCTL then 0
    else if i == CAUSE then Keep(a, 0xFCC0_FF7C)
    else if i == EBASE then KeepAndSet(a, 0xBFFF_F3FF, 0x8000_0000)
    else if i == CONFIG then KeepAndSet(a, 0x8000_C48F, 0x8000_4488)
    else a
  }

  lemma KeepTwice(a: bv64, mask: bv64)
    ensures Keep(Keep(a, mask), mask) == Keep(a, mask) && KeepLong(KeepLong(a, mask), mask) == KeepLong(a, mask)
  {
  }

  lemma KeepAndSetTwice(a: bv64, mask: bv64, ones: bv64)
    ensures KeepAndSet(KeepAndSet(a, mask, ones), mask, ones) == KeepAndSet(a, mask, ones)
  {
  }

  /** Writing back what a write left changes nothing. */
  lemma ReservedBitsTwice(i: int, a: bv64)
    ensures ReservedBits(i, ReservedBits(i, a)) == ReservedBits(i, a)
  {
    hide Keep, KeepAndSet, KeepLong;
    KeepTwice(a, 0x3F);
    KeepTwice(a, 0xFFFF_FFFF_FFFF_FFF0);
    KeepTwice(a, 0xE000_0000);
    KeepTwice(a, 0xC000_000F);
    KeepTwice(a, 0xFFFF_FFFF);
    KeepTwice(a, 0x50F8_FFFF);
    KeepTwice(a, 0xFC00_0000);
    KeepTwice(a, 0xFCC0_FF7C);
    KeepAndSetTwice(a, 0xBFFF_F3FF, 0x8000_0000);
    KeepAndSetTwice(a, 0x8000_C48F, 0x8000_4488);
  }

  lemma LowSix(a: bv64)
    ensures Keep(a, 0x3F) == a % 64
  {
  }

  lemma AllButFour(a: bv64)
    ensures KeepLong(a, 0xFFFF_FFFF_FFFF_FFF0) == a / 16 * 16
  {
  }

  lemma LowWordOnly(a: bv64)
    ensures KeepLong(a, 0xFFFF_FFFF) == a % 0x1_0000_0000
  {
  }

  lemma TopThree(a: bv64)
    ensures Keep(a, 0xE000_0000) == a / 0x2000_0000 % 8 * 0x2000_0000
  {
  }

  lemma TopSix(a: bv64)
    ensures Keep(a, 0xFC00_0000) == a / 0x400_0000 % 64 * 0x400_0000
  {
  }

  lemma TopTwoAndFour(a: bv64)
    ensures Keep(a, 0xC000_000F) == a / 0x4000_0000 % 4 * 0x4000_0000 + a % 16
  {
  }

  lemma StatusFields(a: bv64)
    ensures Keep(a, 0x50F8_FFFF) == a / 0x4000_0000 % 2 * 0x4000_0000 + a / 0x1000_0000 % 2 * 0x1000_0000
                                    + a / 0x8_0000 % 32 * 0x8_0000 + a % 0x1_0000
  {
  }

  lemma CauseFields(a: bv64)
    ensures Keep(a, 0xFCC0_FF7C) == a / 0x400_0000 % 64 * 0x400_0000 + a / 0x40_0000 % 4 * 0x40_0000
                                    + a / 0x100 % 0x100 * 0x100 + a / 4 % 32 * 4
  {
  }

  lemma EbaseFields(a: bv64)
    ensures KeepAndSet(a, 0xBFFF_F3FF, 0x8000_0000) == 0x8000_0000 + a / 0x1000 % 0x4_0000 * 0x1000 + a % 0x400
  {
  }

  lemma ConfigFields(a: bv64)
    ensures KeepAndSet(a, 0x8000_C48F, 0x8000_4488) == 0x8000_4488 + a / 0x8000 % 2 * 0x8000 + a % 8
  {
  }

  /** What a write leaves, by register number and as arithmetic: the low six bits of Random and Wired, Context without
      its low four bits, the low word of Count, the top three bits of PageGrain, and so on. SrsCtl always reads 0,
      EBase has bit 31 set and bits 30, 11 and 10 clear, and every register not listed keeps all 64 bits. */
  lemma WriteLeaves(i: int, a: bv64)
    ensures ReservedBits(i, a)
            == match i
               case 8 => a % 64
               case 48 => a % 64
               case 32 => a / 16 * 16
               case 160 => a / 16 * 16
               case 41 => a / 0x2000_0000 % 8 * 0x2000_0000
               case 56 => a / 0x4000_0000 % 4 * 0x4000_0000 + a % 16
               case 72 => a % 0x1_0000_0000
               case 88 => a % 0x1_0000_0000
               case 96 => a / 0x4000_0000 % 2 * 0x4000_0000 + a / 0x1000_0000 % 2 * 0x1000_0000
                          + a / 0x8_0000 % 32 * 0x8_0000 + a % 0x1_0000
               case 97 => a / 0x400_0000 % 64 * 0x400_0000
               case 98 => 0
               case 104 => a / 0x400_0000 % 64 * 0x400_0000 + a / 0x40_0000 % 4 * 0x40_0000
                           + a / 0x100 % 0x100 * 0x100 + a / 4 % 32 * 4
               case 121 => 0x8000_0000 + a / 0x1000 % 0x4_0000 * 0x1000 + a % 0x400
               case 128 => 0x8000_4488 + a / 0x8000 % 2 * 0x8000 + a % 8
               case _ => a
  {
    hide Keep, KeepAndSet, KeepLong;
    LowSix(a);
    AllButFour(a);
    LowWordOnly(a);
    TopThree(a);
    TopSix(a);
    TopTwoAndFour(a);
    StatusFields(a);
    CauseFields(a);
    EbaseFields(a);
    ConfigFields(a);
  }

  /** The register file after a write. */
  function Written(r: Regs, i: int, v: bv64): Regs
    requires 0 <= i < 256
  {
    r[i := Value(ReservedBits(i, v))]
  }

  /** The operating mode: 0 is kernel, 2 is user. Exception and error level force kernel mode. */
  function Mode(status: bv64): bv64 {
    if status & (STATUS_ERL | STATUS_EXL) != 0 then 0 else (status & STATUS_KSU) >> 3
  }

  predicate InterruptPending(status: bv64, cause: bv64) {
    cause & status & STATUS_IMASK != 0 && status & (STATUS_IE | STATUS_EXL | STATUS_ERL) == STATUS_IE
  }

  /** The mode in bits: kernel with ERL or EXL set or KSU 0, supervisor with KSU 1, user with KSU 2. */
  lemma ModeBits(status: bv64)
    ensures Mode(status) == 0 <==> status & 6 != 0 || status & 0x18 == 0
    ensures Mode(status) == 1 <==> status & 6 == 0 && status & 0x18 == 8
    ensures Mode(status) == 2 <==> status & 6 == 0 && status & 0x18 == 0x10
  {
  }

  function Both(status: bv64, cause: bv64): bv64 { status & cause }

  predicate HasBit(x: bv64, bit: bv64) { x & bit != 0 }

  lemma EightBits(x: bv64)
    ensures HasBit(x, 0xFF00) <==>
              HasBit(x, 0x100) || HasBit(x, 0x200) || HasBit(x, 0x400) || HasBit(x, 0x800)
              || HasBit(x, 0x1000) || HasBit(x, 0x2000) || HasBit(x, 0x4000) || HasBit(x, 0x8000)
  {
  }

  predicate MayInterrupt(status: bv64) { status & 1 != 0 && status & 2 == 0 && status & 4 == 0 }

  lemma PendingParts(status: bv64, cause: bv64)
    ensures InterruptPending(status, cause) <==> HasBit(Both(status, cause), 0xFF00) && MayInterrupt(status)
  {
  }

  /** An interrupt is pending exactly when one of the bits 15 to 8 is set in both Status and Cause, IE is set, and EXL
      and ERL are clear. */
  lemma PendingExactly(status: bv64, cause: bv64)
    ensures InterruptPending(status, cause) <==>
              status & 1 != 0 && status & 2 == 0 && status & 4 == 0
              && var x := status & cause;
                 HasBit(x, 0x100) || HasBit(x, 0x200) || HasBit(x, 0x400) || HasBit(x, 0x800)
                 || HasBit(x, 0x1000) || HasBit(x, 0x2000) || HasBit(x, 0x4000) || HasBit(x, 0x8000)
  {
    assert MayInterrupt(status) <==> status & 1 != 0 && status & 2 == 0 && status & 4 == 0;
    assert Both(status, cause) == status & cause;
    hide InterruptPending, HasBit, Both, MayInterrupt;
    PendingParts(status, cause);
    EightBits(Both(status, cause));
  }

  class CP0 {
    const reg: array<Value>

    ghost predicate Valid() { reg.Length == 256 }

    ghost function Contents(): Regs
      reads reg
      requires Valid()
    {
      reg[..]
    }

    function Read(i: int): (v: bv64)
      reads reg
      requires Valid() && 0 <= i < 256
      ensures Value(v) == Contents()[i]
    {
      reg[i].bits
    }

    method Write(val: bv64, i: int)
      requires Valid() && 0 <= i < 256
      modifies reg
      ensures Contents() == Written(old(Contents()), i, val)
    {
      reg[i] := Value(ReservedBits(i, val));
    }

    method GetKSU() returns (mode: bv64)
      requires Valid()
      ensures mode == Mode(Contents()[STATUS].bits)
    {
      var status := reg[STATUS].bits & 0xFFFF_FFFF;
      mode := (status & STATUS_KSU) >> 3;
      if mode != 0 {
        if status & (STATUS_ERL | STATUS_EXL) != 0 {
          mode := 0;
        }
      }
    }

    method IsInterruptPending() returns (pending: bool)
      requires Valid()
      ensures pending == InterruptPending(Contents()[STATUS].bits, Contents()[CAUSE].bits)
    {
      var status, cause := reg[STATUS].bits, reg[CAUSE].bits;
      cause := cause & (status & STATUS_IMASK);
      var ie := status & (STATUS_IE | STATUS_EXL | STATUS_ERL) == STATUS_IE;
      pending := cause > 0 && ie;
    }
  }
}
