/** MMU_IPE: which segment an address lies in, who may use it, and where it is mapped without the TLB. */
module Mmu {
  import opened Words
  import opened Machine
  import opened Cp0

  const PAGE: bv64 := 0xFFFF_FFFF_FFFF_F000 // GVA_BASE_MASK
  const CVMSEG_MASK: bv64 := 0xFFFF_FFFF_FFFF_C000
  const CVMSEG_BASE: bv64 := 0xFFFF_FFFF_FFFF_8000

  /** The start of the 4 KB page an address lies in, and the distance from there. */
  function PageOf(addr: bv64): bv64 { addr & PAGE }

  function InPage(addr: bv64): bv64 { addr & 0xFFF }

  function Add(x: bv64, y: bv64): bv64 { x + y }

  /** Core-local scratch memory, outside the segments. */
  predicate InCvmseg(addr: bv64) { addr & CVMSEG_MASK == CVMSEG_BASE }

  const USEG: bv64 := 0
  const KSEG0: bv64 := 4
  const KSEG1: bv64 := 5
  const XUSEG: bv64 := 0
  const XSSEG: bv64 := 1
  const XKPHYS: bv64 := 2
  const XKSEG: bv64 := 3

  /** The 32-bit compatibility space: the upper half is all zeros or all ones. */
  predicate Is32Bit(addr: bv64) {
    addr >> 32 == 0xFFFF_FFFF || addr >> 32 == 0
  }

  function Segment32(addr: bv64): bv64 {
    if (addr >> 29) & 7 < KSEG0 then USEG else (addr >> 29) & 7
  }

  function Segment64(addr: bv64): bv64 { addr >> 62 }

  /** verify_priviliges. The supervisor tests compare a number with two others by "or", so they always refuse. */
  predicate Allowed(mode: bv64, addr: bv64) {
    if Is32Bit(addr) then !(mode == 2 && Segment32(addr) != USEG) && mode != 1
    else
      !(mode == 2 && Segment64(addr) != XUSEG) && mode != 1
      && !(Segment64(addr) == XUSEG && addr > 0xFF_FFFF_FFFF)
      && !(Segment64(addr) == XSSEG && addr > 0x4000_00FF_FFFF_FFFF)
      && !(Segment64(addr) == XKSEG && addr > 0xC000_00FF_7FFF_FFFF)
  }

  /** The addresses user mode may use: useg, xuseg up to 2^40, and, as the test looks at the low word, the sign-extended
      image of useg. */
  predicate UserMay(gva: bv64) {
    gva < 0x8000_0000 || 0x1_0000_0000 <= gva <= 0xFF_FFFF_FFFF
    || 0xFFFF_FFFF_0000_0000 <= gva < 0xFFFF_FFFF_8000_0000
  }

  /** The addresses kernel mode may use: all but the three holes above xuseg, xsseg and xkseg. */
  predicate KernelMay(gva: bv64) {
    !(0x100_0000_0000 <= gva < 0x4000_0000_0000_0000)
    && !(0x4000_0100_0000_0000 <= gva < 0x8000_0000_0000_0000)
    && !(0xC000_00FF_8000_0000 <= gva < 0xFFFF_FFFF_0000_0000)
  }

  /** Who may use an address, by the bits of Status: KSU 2 (user) the user's addresses and KSU 1 (supervisor) none,
      unless EXL or ERL is set; everyone else the kernel's. */
  predicate MayAccess(status: bv64, gva: bv64) {
    if status & 6 == 0 && status & 0x18 == 0x10 then UserMay(gva)
    else if status & 6 == 0 && status & 0x18 == 8 then false
    else KernelMay(gva)
  }

  /** verify_priviliges lets through exactly these. */
  lemma AllowedExactly(status: bv64, gva: bv64)
    ensures Allowed(Mode(status), gva) <==> MayAccess(status, gva)
  {
  }

  /** The segments that bypass the TLB, and the address bits that survive. With ERL set the user segments do too. */
  function StaticMask(addr: bv64, erl: bool): (m: Option<bv64>)
    ensures m.Some? ==> m.value & 0xFFF == 0xFFF
  {
    if Is32Bit(addr) then
      if Segment32(addr) == KSEG0 || Segment32(addr) == KSEG1 then Some(0x1FFF_FFFF)
      else if Segment32(addr) == USEG && erl then Some(0xFFFF_FFFF)
      else None
    else
      if Segment64(addr) == XKPHYS || (Segment64(addr) == XUSEG && erl) then Some(0x1_FFFF_FFFF_FFFF)
      else None
  }

  function Kept(addr: bv64, mask: bv64): bv64 { addr & mask }

  /** look_staic_translation: the physical address, unless the TLB is required. */
  function StaticGpa(addr: bv64, erl: bool): Option<bv64> {
    match StaticMask(addr, erl)
    case Some(mask) => Some(Kept(addr, mask))
    case None => None
  }

  predicate InKseg0Or1(gva: bv64) {
    0xFFFF_FFFF_8000_0000 <= gva < 0xFFFF_FFFF_C000_0000 || 0x8000_0000 <= gva < 0xC000_0000
  }

  predicate InXkphys(gva: bv64) { 0x8000_0000_0000_0000 <= gva < 0xC000_0000_0000_0000 }

  predicate InUseg(gva: bv64) { gva < 0x8000_0000 || 0xFFFF_FFFF_0000_0000 <= gva < 0xFFFF_FFFF_8000_0000 }

  predicate InXuseg(gva: bv64) { 0x1_0000_0000 <= gva < 0x4000_0000_0000_0000 }

  lemma KsegRange(gva: bv64)
    ensures InKseg0Or1(gva) <==> Is32Bit(gva) && (Segment32(gva) == KSEG0 || Segment32(gva) == KSEG1)
  {
  }

  lemma UsegRange(gva: bv64)
    ensures InUseg(gva) <==> Is32Bit(gva) && Segment32(gva) == USEG
  {
  }

  lemma LongRanges(gva: bv64)
    ensures InXkphys(gva) <==> !Is32Bit(gva) && Segment64(gva) == XKPHYS
    ensures InXuseg(gva) <==> !Is32Bit(gva) && Segment64(gva) == XUSEG
  {
  }

  lemma KeptIsRest(gva: bv64)
    ensures Kept(gva, 0x1FFF_FFFF) == gva % 0x2000_0000 && Kept(gva, 0xFFFF_FFFF) == gva % 0x1_0000_0000
    ensures Kept(gva, 0x1_FFFF_FFFF_FFFF) == gva % 0x2_0000_0000_0000
  {
  }

  /** What bypasses the TLB, by address: kseg0 and kseg1 keep 29 bits, xkphys 49; with ERL set useg keeps 32 bits and
      xuseg 49; everything else needs the TLB. */
  lemma StaticExactly(gva: bv64, erl: bool)
    ensures StaticGpa(gva, erl)
            == if InKseg0Or1(gva) then Some(gva % 0x2000_0000)
               else if InXkphys(gva) || (erl && InXuseg(gva)) then Some(gva % 0x2_0000_0000_0000)
               else if erl && InUseg(gva) then Some(gva % 0x1_0000_0000)
               else None
  {
    KsegRange(gva);
    UsegRange(gva);
    LongRanges(gva);
    KeptIsRest(gva);
    hide Is32Bit, Segment32, Segment64, Kept, InKseg0Or1, InXkphys, InUseg, InXuseg;
  }

  lemma CvmsegRange(addr: bv64)
    ensures InCvmseg(addr) <==> 0xFFFF_FFFF_FFFF_8000 <= addr < 0xFFFF_FFFF_FFFF_C000
  {
  }

  lemma SamePageSpace(addr: bv64)
    ensures Is32Bit(PageOf(addr)) == Is32Bit(addr) && Segment64(PageOf(addr)) == Segment64(addr)
  {
  }

  lemma SamePageSegment(addr: bv64)
    ensures Segment32(PageOf(addr)) == Segment32(addr)
  {
  }

  lemma SameMask(addr: bv64, erl: bool)
    ensures StaticMask(PageOf(addr), erl) == StaticMask(addr, erl)
  {
    SamePageSpace(addr);
    SamePageSegment(addr);
    hide Is32Bit, Segment32, Segment64, PageOf;
  }

  lemma MaskOffset(addr: bv64, mask: bv64)
    requires mask & 0xFFF == 0xFFF
    ensures Kept(addr, mask) == Add(Kept(PageOf(addr), mask), InPage(addr)) && InPage(Kept(PageOf(addr), mask)) == 0
  {
  }

  /** An address and the start of its 4 KB page bypass the TLB together, at the same distance. */
  lemma StaticLinear(addr: bv64, erl: bool)
    ensures match StaticGpa(PageOf(addr), erl)
            case Some(base) => StaticGpa(addr, erl) == Some(Add(base, InPage(addr))) && InPage(base) == 0
            case None => StaticGpa(addr, erl) == None
  {
    hide StaticMask, PageOf, InPage, Add, Kept;
    SameMask(addr, erl);
    match StaticMask(addr, erl) {
      case Some(mask) => MaskOffset(addr, mask);
      case None =>
    }
  }
}
