/** TLB_IPE: the entries of the software TLB of one guest core, and how an address is looked up in them. */
module Tlb {
  import opened Words
  import opened Machine
  import opened Cp0
  import opened Exceptions

  const TLB_ENTRIES := 64

  /** TLB_Entry_IPE, without the coherency fields, which nothing reads. */
  datatype TlbEntry = TlbEntry(
    pagemask: bv64, entryLo0: bv64, entryLo1: bv64, vpn: bv64, asid: bv64, region: bv64,
    global: bool, valid: bool, v0: bool, v1: bool, d0: bool, d1: bool, pfn0: bv64, pfn1: bv64)

  // ---- fields

  function Asid(entryHi: bv64): bv64 { entryHi & ENTRYHI_ASID }

  function RegionNumber(address: bv64): bv64 { address >> 62 }

  predicate ValidBit(lo: bv64) { lo & 2 != 0 }

  predicate DirtyBit(lo: bv64) { lo & 4 != 0 }

  predicate BothGlobal(lo0: bv64, lo1: bv64) { lo0 & lo1 & 1 != 0 }

  function Frame(lo: bv64, pagemask: bv64): bv64 { ((lo >> 6) << 12) & !(pagemask >> 1) }

  /** set_Entry. */
  function EntryOf(r: Regs): TlbEntry {
    var hi, lo0, lo1, mask := r[ENTRYHI].bits, r[ENTRYLO0].bits, r[ENTRYLO1].bits, r[PAGEMASK].bits;
    TlbEntry(mask, lo0, lo1, Vpn(hi), Asid(hi), RegionNumber(hi), BothGlobal(lo0, lo1), true,
             ValidBit(lo0), ValidBit(lo1), DirtyBit(lo0), DirtyBit(lo1), Frame(lo0, mask), Frame(lo1, mask))
  }

  // ---- lookup

  /** The address bits inside the page pair. */
  function PairMask(e: TlbEntry): bv64 { PairBits(e.pagemask) }

  function PairBits(pagemask: bv64): bv64 { pagemask | 0x1FFF }

  /** The address bits inside one page. */
  function PageOffsetMask(e: TlbEntry): bv64 { PageOffsetBits(e.pagemask) }

  function PageOffsetBits(pagemask: bv64): bv64 { PairBits(pagemask) >> 1 }

  function Tag(gva: bv64, mask: bv64): bv64 { gva & !mask & SEG_MASK }

  function Masked(vpn: bv64, mask: bv64): bv64 { vpn & !mask }

  predicate Matches(e: TlbEntry, gva: bv64, asid: bv64) {
    (e.global || e.asid == asid) && e.region == RegionNumber(gva)
    && Masked(e.vpn, PairMask(e)) == Tag(gva, PairMask(e)) && e.valid
  }

  /** The first matching entry from index i on, or the number of entries. */
  function Find(entries: seq<TlbEntry>, gva: bv64, asid: bv64, i: nat): (k: nat)
    requires i <= |entries|
    ensures i <= k <= |entries|
    ensures k < |entries| ==> Matches(entries[k], gva, asid)
    ensures forall j :: i <= j < k ==> !Matches(entries[j], gva, asid)
    decreases |entries| - i
  {
    if i == |entries| || Matches(entries[i], gva, asid) then i else Find(entries, gva, asid, i + 1)
  }

  /** The number of ones among the low n bits: __builtin_popcount sees 32. */
  function Ones(x: bv64, n: nat): nat
    decreases n
  {
    if n == 0 then 0 else (if x & 1 != 0 then 1 else 0) + Ones(x >> 1, n - 1)
  }

  function ShiftedRight(x: bv64, n: nat): bv64
    decreases n
  {
    if n == 0 then x else ShiftedRight(x >> 1, n - 1)
  }

  /** Which page of the pair: the address bit just above the offset. */
  predicate Odd(e: TlbEntry, gva: bv64) {
    ShiftedRight(gva, Ones(PageOffsetMask(e), 32)) & 1 != 0
  }

  function OffsetIn(e: TlbEntry, gva: bv64): bv64 { gva & PageOffsetMask(e) }

  function FrameOf(e: TlbEntry, gva: bv64): bv64 { if Odd(e, gva) then e.pfn1 else e.pfn0 }

  function Gpa(e: TlbEntry, gva: bv64): bv64 { FrameOf(e, gva) | OffsetIn(e, gva) }

  predicate ValidFor(e: TlbEntry, gva: bv64) { if Odd(e, gva) then e.v1 else e.v0 }

  predicate DirtyFor(e: TlbEntry, gva: bv64) { if Odd(e, gva) then e.d1 else e.d0 }

  function Flag(b: bool): bv64 { if b then 1 else 0 }

  function MissCode(ldst: bv64): bv64 { TLBL + ldst }

  predicate IsBit(x: bv64) { x == 0 || x == 1 }

  function FaultOf(e: TlbEntry, gva: bv64, ldst: bv64): Option<bv64> {
    if !ValidFor(e, gva) then Some(TLB_INV) else if ldst == 1 && !DirtyFor(e, gva) then Some(TLB_MOD) else None
  }

  datatype Lookup = Hit(gpa: bv64, dirty: bool) | Fault(expType: bv64)

  /** The answer for a load (ldst 0) or store (ldst 1). */
  function Translate(entries: seq<TlbEntry>, asid: bv64, gva: bv64, ldst: bv64): Lookup {
    var k := Find(entries, gva, asid, 0);
    if k == |entries| then Fault(MissCode(ldst))
    else if FaultOf(entries[k], gva, ldst).Some? then Fault(FaultOf(entries[k], gva, ldst).value)
    else Hit(Gpa(entries[k], gva), DirtyFor(entries[k], gva))
  }

  /** The load/store cell after a lookup: the D bit of the page, if an entry matched. */
  function ProtAfter(entries: seq<TlbEntry>, asid: bv64, gva: bv64, ldst: bv64): bv64 {
    var k := Find(entries, gva, asid, 0);
    if k < |entries| then Flag(DirtyFor(entries[k], gva)) else ldst
  }

  lemma LookupCases(entries: seq<TlbEntry>, asid: bv64, gva: bv64, ldst: bv64)
    ensures var k := Find(entries, gva, asid, 0);
      if k < |entries| then
        ProtAfter(entries, asid, gva, ldst) == Flag(DirtyFor(entries[k], gva))
        && Translate(entries, asid, gva, ldst)
           == if FaultOf(entries[k], gva, ldst).Some? then Fault(FaultOf(entries[k], gva, ldst).value)
              else Hit(Gpa(entries[k], gva), DirtyFor(entries[k], gva))
      else ProtAfter(entries, asid, gva, ldst) == ldst && Translate(entries, asid, gva, ldst) == Fault(MissCode(ldst))
  {
    hide Matches, DirtyFor, Gpa, FaultOf, Flag, MissCode;
  }

  /** tlb_random: a random entry, moved past the wired ones. */
  function RandomIndex(r: nat, wired: nat): nat {
    if r % TLB_ENTRIES < wired then r % TLB_ENTRIES + wired else r % TLB_ENTRIES
  }

  function LowSixBits(x: bv64): bv6 { (x & 0x3F) as bv6 }

  function SixBits(x: bv64): (n: nat)
    ensures n < 64
  {
    LowSixBits(x) as int
  }

  lemma SixBitNumber(x: bv6)
    ensures (x as int) as bv6 == x
  {
  }

  lemma LowSixIs(x: bv64)
    ensures LowSixBits(x) as bv64 == x % 64
  {
  }

  /** An index or the number of wired entries is the register modulo 64. */
  lemma SixBitsExactly(x: bv64)
    ensures (SixBits(x) as bv6) as bv64 == x % 64
  {
    SixBitNumber(LowSixBits(x));
    LowSixIs(x);
    hide LowSixBits;
  }

  /** The exceptions the TLB raises are all known. */
  lemma TlbCodes(expType: bv64, ldst: bv64)
    requires expType == TLB_MOD || expType == TLBL || expType == TLBS || (expType == TLB_INV && IsBit(ldst))
    ensures CauseCode(expType, ldst).Some?
  {
  }

  lemma MissIsKnown(ldst: bv64)
    requires IsBit(ldst)
    ensures CauseCode(MissCode(ldst), ldst).Some?
  {
  }

  lemma KnownEnters(r: Regs, gva: bv64, expType: bv64, ldst: bv64, pc: bv64)
    requires CauseCode(expType, ldst).Some?
    ensures Entered(Located(r, gva), gva, expType, ldst, pc).Some?
  {
    hide CauseCode, Located;
  }

  lemma FlagIsBit(b: bool)
    ensures IsBit(Flag(b))
  {
  }

  lemma FaultIsKnown(e: TlbEntry, gva: bv64, ldst: bv64, prot: bv64)
    requires FaultOf(e, gva, ldst).Some? && IsBit(prot)
    ensures CauseCode(FaultOf(e, gva, ldst).value, prot).Some?
  {
    hide ValidFor, DirtyFor, CauseCode;
    if !ValidFor(e, gva) { TlbCodes(TLB_INV, prot); } else { TlbCodes(TLB_MOD, prot); }
  }

  /** reset_Entry. */
  function Reset(e: TlbEntry): TlbEntry {
    e.(pagemask := 0, entryLo0 := 0, entryLo1 := 0, vpn := 0, asid := 0, valid := false, pfn0 := 0, pfn1 := 0)
  }

  /** A reset entry is found for no address. */
  lemma ResetMatchesNothing(e: TlbEntry, gva: bv64, asid: bv64)
    ensures !Matches(Reset(e), gva, asid)
  {
    hide Masked, Tag, PairBits, RegionNumber;
  }

  /** get_entryHi: the region is not read back. */
  function HiOf(e: TlbEntry): bv64 { e.vpn | e.asid }

  function ReadBack(r: Regs, e: TlbEntry): Regs {
    Written(Written(Written(Written(r, PAGEMASK, e.pagemask), ENTRYHI, HiOf(e)), ENTRYLO0, e.entryLo0), ENTRYLO1,
            e.entryLo1)
  }

  // ---- the random index

  lemma RandomIndexInTable(wired: nat)
    ensures (forall r: nat :: RandomIndex(r, wired) < TLB_ENTRIES) <==> wired <= 32
    ensures forall r: nat :: RandomIndex(r, wired) >= wired || wired > TLB_ENTRIES
  {
    if wired > 32 {
      assert RandomIndex(if wired <= 64 then wired - 1 else 63, wired) >= TLB_ENTRIES;
    }
  }
}
