/** What the TLB guarantees: page arithmetic, refill, read-back. */
module TlbProperties {
  import opened Words
  import opened Machine
  import opened Cp0
  import opened Mmu
  import opened Exceptions
  import opened Tlb

  // ---- page arithmetic

  /** A mask of the form 2^k - 1. */
  predicate LowOnes(x: bv64) { x & (x + 1) == 0 }

  /** Page masks the architecture allows: the pair mask is 2^m - 1, and m is at most 33. */
  predicate Canonical(e: TlbEntry) { LowOnes(PairMask(e)) && PairMask(e) >> 33 == 0 }

  /** What set_Entry guarantees of the frames: nothing below the page size. */
  predicate FramesClear(e: TlbEntry) {
    e.pfn0 & PageOffsetMask(e) == 0 && e.pfn1 & PageOffsetMask(e) == 0
  }

  lemma FrameBits(lo: bv64, mask: bv64)
    ensures Frame(lo, mask) & ((mask | 0x1FFF) >> 1) == 0
  {
  }

  lemma EntryFramesClear(r: Regs)
    ensures FramesClear(EntryOf(r))
  {
    FrameBits(r[ENTRYLO0].bits, r[PAGEMASK].bits);
    FrameBits(r[ENTRYLO1].bits, r[PAGEMASK].bits);
    hide Frame;
  }

  function Below(x: bv64, mask: bv64): bv64 { x & mask }

  function Above(x: bv64, mask: bv64): bv64 { x & !mask }

  function Sum(x: bv64, y: bv64): bv64 { x + y }

  function Joined(x: bv64, y: bv64): bv64 { x | y }

  lemma DisjointParts(frame: bv64, offset: bv64, mask: bv64)
    requires Below(frame, mask) == 0 && Below(offset, mask) == offset
    ensures frame & offset == 0
  {
  }

  lemma DisjointBits(x: bv64, y: bv64)
    requires x & y == 0
    ensures x | y == x + y
  {
  }

  lemma DisjointSum(x: bv64, y: bv64)
    requires x & y == 0
    ensures Joined(x, y) == Sum(x, y)
  {
    DisjointBits(x, y);
  }

  lemma OrBelow(frame: bv64, offset: bv64, mask: bv64)
    requires Below(frame, mask) == 0 && Below(offset, mask) == offset
    ensures Below(Joined(frame, offset), mask) == offset
  {
  }

  lemma OrAbove(frame: bv64, offset: bv64, mask: bv64)
    requires Below(frame, mask) == 0 && Below(offset, mask) == offset
    ensures Above(Joined(frame, offset), mask) == frame
  {
  }

  lemma BelowTwice(x: bv64, mask: bv64)
    ensures Below(Below(x, mask), mask) == Below(x, mask)
  {
  }

  lemma GpaParts(e: TlbEntry, gva: bv64)
    requires FramesClear(e)
    ensures Gpa(e, gva) == Joined(FrameOf(e, gva), OffsetIn(e, gva))
            && OffsetIn(e, gva) == Below(gva, PageOffsetMask(e))
    ensures Below(FrameOf(e, gva), PageOffsetMask(e)) == 0
  {
    hide Odd, PageOffsetMask;
  }

  /** A translated address is the frame plus the page offset of the virtual one: the offset bits are kept, the bits
      above are the frame's. */
  lemma PageArithmetic(e: TlbEntry, gva: bv64)
    requires FramesClear(e)
    ensures Gpa(e, gva) == Sum(FrameOf(e, gva), OffsetIn(e, gva))
    ensures Below(Gpa(e, gva), PageOffsetMask(e)) == Below(gva, PageOffsetMask(e))
    ensures Above(Gpa(e, gva), PageOffsetMask(e)) == FrameOf(e, gva)
  {
    hide Odd, PageOffsetMask, Below, Above, Sum, Joined, FrameOf, OffsetIn, Gpa, FramesClear;
    GpaParts(e, gva);
    BelowTwice(gva, PageOffsetMask(e));
    DisjointParts(FrameOf(e, gva), OffsetIn(e, gva), PageOffsetMask(e));
    DisjointSum(FrameOf(e, gva), OffsetIn(e, gva));
    OrBelow(FrameOf(e, gva), OffsetIn(e, gva), PageOffsetMask(e));
    OrAbove(FrameOf(e, gva), OffsetIn(e, gva), PageOffsetMask(e));
  }

  /** Within one page of an entry, different offsets have different physical addresses. */
  lemma PageInjective(e: TlbEntry, gva: bv64, gva2: bv64)
    requires FramesClear(e) && Odd(e, gva) == Odd(e, gva2)
    ensures Gpa(e, gva) == Gpa(e, gva2) <==> OffsetIn(e, gva) == OffsetIn(e, gva2)
  {
    hide Odd, PageOffsetMask, Below, Above, Sum, Joined, OffsetIn, Gpa, FramesClear;
    GpaParts(e, gva);
    GpaParts(e, gva2);
    PageArithmetic(e, gva);
    PageArithmetic(e, gva2);
  }

  lemma EvenIsZero(x: bv64)
    requires LowOnes(x) && x & 1 == 0
    ensures x == 0
  {
  }

  lemma HalfStep(g: bv64, x: bv64)
    requires LowOnes(x) && x & 1 != 0 && x >> 63 == 0
    ensures LowOnes(x >> 1) && ((g >> 1) & ((x >> 1) + 1) != 0 <==> g & (x + 1) != 0)
  {
  }

  /** Shifting by the number of ones reaches the bit just above a mask 2^k - 1. */
  lemma {:induction false} ShiftByOnes(g: bv64, x: bv64, n: nat)
    requires LowOnes(x) && ShiftedRight(x, n) == 0 && x >> 63 == 0
    ensures ShiftedRight(g, Ones(x, n)) & 1 != 0 <==> g & (x + 1) != 0
    decreases n
  {
    if x & 1 == 0 {
      EvenIsZero(x);
      NoOnes(n);
    } else {
      HalfStep(g, x);
      assert x >> 1 >> 63 == 0;
      ShiftByOnes(g >> 1, x >> 1, n - 1);
    }
  }

  lemma NoOnes(n: nat)
    ensures Ones(0, n) == 0
  {
  }

  lemma HalfMask(pair: bv64)
    requires LowOnes(pair) && pair >> 33 == 0
    ensures LowOnes(pair >> 1) && (pair >> 1) >> 32 == 0 && (pair >> 1) >> 63 == 0
  {
  }

  lemma ShiftSplit(x: bv64, m: nat, n: nat)
    ensures ShiftedRight(x, m + n) == ShiftedRight(ShiftedRight(x, m), n)
    decreases m
  {
    if m > 0 {
      ShiftSplit(x >> 1, m - 1, n);
    }
  }

  lemma Shift4(x: bv64)
    ensures ShiftedRight(x, 4) == x >> 4
  {
    assert ShiftedRight(x, 2) == x >> 2;
    assert ShiftedRight(x >> 2, 2) == x >> 2 >> 2;
    ShiftSplit(x, 2, 2);
  }

  lemma Shift12(x: bv64)
    ensures ShiftedRight(x, 12) == x >> 12
  {
    Shift4(x);
    Shift4(x >> 4);
    Shift4(x >> 8);
    ShiftSplit(x, 4, 4);
    ShiftSplit(x, 8, 4);
  }

  lemma Shift32(x: bv64)
    ensures ShiftedRight(x, 32) == x >> 32
  {
    Shift12(x);
    Shift12(x >> 12);
    Shift4(x >> 24);
    Shift4(x >> 28);
    ShiftSplit(x, 12, 12);
    ShiftSplit(x, 24, 4);
    ShiftSplit(x, 28, 4);
  }

  /** For an architectural page mask, the page of the pair is chosen by the address bit of the page size. */
  lemma OddIsPageSizeBit(e: TlbEntry, gva: bv64)
    requires Canonical(e)
    ensures Odd(e, gva) <==> gva & (PageOffsetMask(e) + 1) != 0
  {
    HalfMask(PairMask(e));
    Shift32(PageOffsetMask(e));
    ShiftByOnes(gva, PageOffsetMask(e), 32);
  }

  // ---- refill

  lemma RefillHiBits(hi: bv64, gva: bv64)
    ensures Asid(NewEntryHi(hi, gva)) == Asid(hi) && RegionNumber(NewEntryHi(hi, gva)) == RegionNumber(gva)
    ensures Vpn(NewEntryHi(hi, gva)) == Vpn(gva)
  {
  }

  lemma VpnIsTag(gva: bv64, pagemask: bv64)
    ensures Masked(Vpn(gva), PairBits(pagemask)) == Tag(gva, PairBits(pagemask))
  {
  }

  /** The entry a refill handler writes matches the address that missed, whatever page size it chose. */
  lemma RefilledMatches(r0: Regs, gva: bv64, r: Regs)
    requires r[ENTRYHI].bits == NewEntryHi(r0[ENTRYHI].bits, gva)
    ensures Matches(EntryOf(r), gva, Asid(r0[ENTRYHI].bits)) && Asid(r[ENTRYHI].bits) == Asid(r0[ENTRYHI].bits)
  {
    hide Asid, RegionNumber, Vpn, NewEntryHi, Masked, Tag, Frame, BothGlobal, ValidBit, DirtyBit, PairBits;
    RefillHiBits(r0[ENTRYHI].bits, gva);
    VpnIsTag(gva, r[PAGEMASK].bits);
  }

  lemma LocatedHi(r: Regs, gva: bv64)
    ensures Located(r, gva)[ENTRYHI] == Value(NewEntryHi(r[ENTRYHI].bits, gva))
  {
    hide NewEntryHi, NewXContext, NewContext;
  }

  lemma {:induction false} FindOnly(entries: seq<TlbEntry>, gva: bv64, asid: bv64, idx: nat, i: nat)
    requires i <= idx < |entries| && Matches(entries[idx], gva, asid)
    requires forall k :: 0 <= k < |entries| && k != idx ==> !Matches(entries[k], gva, asid)
    ensures Find(entries, gva, asid, i) == idx
    decreases idx - i
  {
    hide Matches;
  }

  /** Refill makes progress: r0 are the registers at the fault, r those at the TLB write. If no other valid entry
      matches, the same access now succeeds exactly when the handler set V (and, for a store, D) in the half the
      address selects; whatever the other entries hold. */
  lemma RefillProgress(entries: seq<TlbEntry>, r0: Regs, gva: bv64, ldst: bv64, r: Regs, idx: nat)
    requires |entries| == TLB_ENTRIES && idx < TLB_ENTRIES
    requires r[ENTRYHI] == Located(r0, gva)[ENTRYHI]
    requires forall k :: 0 <= k < TLB_ENTRIES && k != idx ==> !Matches(entries[k], gva, Asid(r0[ENTRYHI].bits))
    ensures var after := Translate(entries[idx := EntryOf(r)], Asid(r[ENTRYHI].bits), gva, ldst);
      if ValidFor(EntryOf(r), gva) && (ldst == 1 ==> DirtyFor(EntryOf(r), gva))
      then after == Hit(Gpa(EntryOf(r), gva), DirtyFor(EntryOf(r), gva))
      else after.Fault?
  {
    hide Matches, EntryOf, NewEntryHi, Asid, Gpa, ValidFor, DirtyFor, Translate, Located;
    LocatedHi(r0, gva);
    RefilledMatches(r0, gva, r);
    var after := entries[idx := EntryOf(r)];
    FindOnly(after, gva, Asid(r0[ENTRYHI].bits), idx, 0);
    LookupCases(after, Asid(r0[ENTRYHI].bits), gva, ldst);
  }

  // ---- what the registers of a TLB write say, in numbers

  /** Page masks the architecture allows: with its low 13 bits the mask is 2^m - 1, and m is at most 33. */
  predicate CanonicalMask(pagemask: bv64) {
    (pagemask | 0x1FFF) & ((pagemask | 0x1FFF) + 1) == 0 && pagemask < 0x2_0000_0000
  }

  /** gva lies in the page pair EntryHi names: same region (bits 63, 62), and bits 48 to 13 agree where PageMask is
      0. */
  predicate InPair(entryHi: bv64, pagemask: bv64, gva: bv64) {
    SameRegion(entryHi, gva) && SameTag(entryHi, pagemask, gva)
  }

  predicate SameRegion(entryHi: bv64, gva: bv64) { entryHi >> 62 == gva >> 62 }

  predicate SameTag(entryHi: bv64, pagemask: bv64, gva: bv64) { (entryHi ^ gva) & 0x1_FFFF_FFFF_E000 & !pagemask == 0 }

  /** The address bits inside one page. */
  function InsidePage(pagemask: bv64): bv64 { (pagemask | 0x1FFF) >> 1 }

  /** The bit just above them is set: the odd page of the pair. */
  predicate OddPage(pagemask: bv64, gva: bv64) { gva & (InsidePage(pagemask) + 1) != 0 }

  /** The frame number times 4096, with the bits inside a page cleared. */
  function FrameStart(lo: bv64, pagemask: bv64): bv64 { (lo / 64 * 4096) & !InsidePage(pagemask) }

  predicate HasAsid(entryHi: bv64, asid: bv64) { entryHi & 0xFF == asid }

  predicate GlobalPair(lo0: bv64, lo1: bv64) { lo0 & 1 != 0 && lo1 & 1 != 0 }

  predicate IsValid(lo: bv64) { lo & 2 != 0 }

  predicate IsDirty(lo: bv64) { lo & 4 != 0 }

  /** The EntryLo of the page gva lies in. */
  function PageWord(r: Regs, gva: bv64): bv64 { if OddPage(r[40].bits, gva) then r[24].bits else r[16].bits }

  function MissType(ldst: bv64): bv64 { 2 + ldst }

  /** Where PageMask and the EntryLo of the page put gva: the frame start plus the address inside the page. */
  function InFrame(r: Regs, gva: bv64): bv64 {
    Sum(FrameStart(PageWord(r, gva), r[40].bits), gva & InsidePage(r[40].bits))
  }

  /** The answer for an address of the pair after tlbwi or tlbwr, from PageMask (40), EntryHi (80) and the two EntryLo
      (16, 24) alone: found for its own ASID, or for every one if both EntryLo have bit 0 set; a load needs bit 1 of
      the EntryLo of the page, a store bits 1 and 2; then the frame start plus the address inside the page. */
  function WrittenLookup(r: Regs, asid: bv64, gva: bv64, ldst: bv64): Lookup {
    if !HasAsid(r[80].bits, asid) && !GlobalPair(r[16].bits, r[24].bits) then Fault(MissType(ldst))
    else PageLookup(r, gva, ldst)
  }

  function PageLookup(r: Regs, gva: bv64, ldst: bv64): Lookup {
    var lo := PageWord(r, gva);
    if !IsValid(lo) then Fault(14)
    else if ldst == 1 && !IsDirty(lo) then Fault(1)
    else Hit(InFrame(r, gva), IsDirty(lo))
  }

  lemma TagAgrees(hi: bv64, pagemask: bv64, gva: bv64)
    requires SameTag(hi, pagemask, gva)
    ensures Masked(Vpn(hi), PairBits(pagemask)) == Tag(gva, PairBits(pagemask))
  {
  }

  lemma TagDiffers(hi: bv64, pagemask: bv64, gva: bv64)
    requires Masked(Vpn(hi), PairBits(pagemask)) == Tag(gva, PairBits(pagemask))
    ensures SameTag(hi, pagemask, gva)
  {
  }

  function Number(lo: bv64): bv64 { lo / 64 * 4096 }

  function PlainFrame(lo: bv64): bv64 { (lo >> 6) << 12 }

  lemma NumberIs(lo: bv64)
    ensures Number(lo) == PlainFrame(lo) && Number(lo) & 0xFFF == 0
  {
  }

  lemma ClearInside(frame: bv64, pagemask: bv64)
    requires frame & 0xFFF == 0
    ensures frame & !(pagemask >> 1) == frame & !InsidePage(pagemask)
  {
  }

  lemma FrameIs(lo: bv64, pagemask: bv64)
    ensures Frame(lo, pagemask) == FrameStart(lo, pagemask)
  {
    NumberIs(lo);
    ClearInside(PlainFrame(lo), pagemask);
  }

  lemma GlobalIs(lo0: bv64, lo1: bv64)
    ensures BothGlobal(lo0, lo1) <==> GlobalPair(lo0, lo1)
  {
  }

  lemma RegionIs(hi: bv64, gva: bv64)
    ensures SameRegion(hi, gva) <==> RegionNumber(hi) == RegionNumber(gva)
  {
  }

  lemma PairIs(hi: bv64, pagemask: bv64, gva: bv64)
    ensures InPair(hi, pagemask, gva) <==>
              RegionNumber(hi) == RegionNumber(gva)
              && Masked(Vpn(hi), PairBits(pagemask)) == Tag(gva, PairBits(pagemask))
  {
    RegionIs(hi, gva);
    hide Masked, Vpn, PairBits, Tag, SameTag, RegionNumber, SameRegion;
    if SameTag(hi, pagemask, gva) {
      TagAgrees(hi, pagemask, gva);
    } else if Masked(Vpn(hi), PairBits(pagemask)) == Tag(gva, PairBits(pagemask)) {
      TagDiffers(hi, pagemask, gva);
    }
  }

  lemma AsidIs(hi: bv64, asid: bv64)
    ensures HasAsid(hi, asid) <==> Asid(hi) == asid
  {
  }

  /** A written entry is found exactly for the addresses of its pair, under its ASID or any if both EntryLo are
      global. */
  lemma SelectsExactly(r: Regs, gva: bv64, asid: bv64)
    ensures Matches(EntryOf(r), gva, asid) <==>
              InPair(r[80].bits, r[40].bits, gva) && (HasAsid(r[80].bits, asid) || GlobalPair(r[16].bits, r[24].bits))
  {
    AsidIs(r[80].bits, asid);
    hide Masked, Vpn, PairBits, Tag, RegionNumber, InPair, BothGlobal, GlobalPair, Frame, ValidBit, DirtyBit, Asid,
      HasAsid;
    PairIs(r[80].bits, r[40].bits, gva);
    GlobalIs(r[16].bits, r[24].bits);
  }

  lemma CanonicalIs(pagemask: bv64)
    requires CanonicalMask(pagemask)
    ensures LowOnes(PairBits(pagemask)) && PairBits(pagemask) >> 33 == 0
  {
  }

  lemma WrittenOdd(r: Regs, gva: bv64)
    requires CanonicalMask(r[40].bits)
    ensures Odd(EntryOf(r), gva) <==> OddPage(r[40].bits, gva)
  {
    CanonicalIs(r[40].bits);
    hide CanonicalMask, LowOnes, Frame, ShiftedRight, Ones, Vpn, Asid, RegionNumber, BothGlobal, ValidBit, DirtyBit;
    OddIsPageSizeBit(EntryOf(r), gva);
  }

  lemma WrittenGpa(r: Regs, gva: bv64)
    requires CanonicalMask(r[40].bits)
    ensures var lo := PageWord(r, gva);
      Gpa(EntryOf(r), gva) == InFrame(r, gva) && ValidFor(EntryOf(r), gva) == IsValid(lo)
      && DirtyFor(EntryOf(r), gva) == IsDirty(lo)
  {
    EntryFramesClear(r);
    WrittenOdd(r, gva);
    FrameIs(r[16].bits, r[40].bits);
    FrameIs(r[24].bits, r[40].bits);
    PageArithmetic(EntryOf(r), gva);
  }

  lemma WrittenAnswer(r: Regs, gva: bv64, ldst: bv64)
    requires CanonicalMask(r[40].bits)
    ensures var e := EntryOf(r);
      PageLookup(r, gva, ldst) == if FaultOf(e, gva, ldst).Some? then Fault(FaultOf(e, gva, ldst).value)
                                  else Hit(Gpa(e, gva), DirtyFor(e, gva))
  {
    WrittenGpa(r, gva);
    hide EntryOf, ValidFor, DirtyFor, IsValid, IsDirty, PageWord, CanonicalMask, Gpa, InFrame;
  }

  lemma MissIs(ldst: bv64)
    ensures MissCode(ldst) == MissType(ldst)
  {
  }

  /** If no other entry matches, the TLB answers for an address of the pair as the registers say. */
  lemma WrittenTranslates(entries: seq<TlbEntry>, r: Regs, idx: nat, gva: bv64, asid: bv64, ldst: bv64)
    requires |entries| == TLB_ENTRIES && idx < TLB_ENTRIES && CanonicalMask(r[40].bits)
    requires InPair(r[80].bits, r[40].bits, gva)
    requires forall k :: 0 <= k < TLB_ENTRIES && k != idx ==> !Matches(entries[k], gva, asid)
    ensures Translate(entries[idx := EntryOf(r)], asid, gva, ldst) == WrittenLookup(r, asid, gva, ldst)
  {
    var after := entries[idx := EntryOf(r)];
    hide Matches, EntryOf, Gpa, ValidFor, DirtyFor, Translate, InPair, CanonicalMask, HasAsid, GlobalPair, PageLookup,
      FaultOf, MissCode, MissType;
    SelectsExactly(r, gva, asid);
    WrittenAnswer(r, gva, ldst);
    MissIs(ldst);
    if Matches(EntryOf(r), gva, asid) {
      FindOnly(after, gva, asid, idx, 0);
    } else {
      NoneFound(after, gva, asid);
    }
    LookupCases(after, asid, gva, ldst);
  }

  /** gva matches no entry but idx. */
  predicate NoOther(entries: seq<TlbEntry>, idx: nat, gva: bv64, asid: bv64) {
    forall k :: 0 <= k < |entries| && k != idx ==> !Matches(entries[k], gva, asid)
  }

  /** Entry idx answers as the registers of its TLB write say, for every address of its pair that no other entry
      matches. */
  ghost predicate MapsAsWritten(entries: seq<TlbEntry>, idx: nat, r: Regs) {
    CanonicalMask(r[40].bits) ==>
      forall gva, asid, ldst :: InPair(r[80].bits, r[40].bits, gva) && NoOther(entries, idx, gva, asid) ==>
        Translate(entries, asid, gva, ldst) == WrittenLookup(r, asid, gva, ldst)
  }

  lemma WrittenMaps(entries: seq<TlbEntry>, idx: nat, r: Regs)
    requires |entries| == TLB_ENTRIES && idx < TLB_ENTRIES
    ensures MapsAsWritten(entries[idx := EntryOf(r)], idx, r)
  {
    hide EntryOf, Matches, Translate, WrittenLookup, InPair, CanonicalMask;
    var after := entries[idx := EntryOf(r)];
    if CanonicalMask(r[40].bits) {
      forall gva, asid, ldst | InPair(r[80].bits, r[40].bits, gva) && NoOther(after, idx, gva, asid)
        ensures Translate(after, asid, gva, ldst) == WrittenLookup(r, asid, gva, ldst)
      {
        assert forall k :: 0 <= k < TLB_ENTRIES && k != idx ==> entries[k] == after[k];
        WrittenTranslates(entries, r, idx, gva, asid, ldst);
      }
    }
  }

  lemma NoneFound(entries: seq<TlbEntry>, gva: bv64, asid: bv64)
    requires forall k :: 0 <= k < |entries| ==> !Matches(entries[k], gva, asid)
    ensures Find(entries, gva, asid, 0) == |entries|
  {
    hide Matches;
  }

  // ---- the shared load/store cell

  lemma CodeBits(b: bool, ldst: bv64)
    requires IsBit(ldst)
    ensures CauseCode(TLB_INV, Flag(b)) == Some(MissCode(ldst)) <==> b == (ldst == 1)
  {
  }

  /** An access to an invalid page is reported as the kind of access it was exactly when the page's D bit happens to
      say so: the protection overwrites the flag the Cause code is made from. */
  lemma InvalidPageCause(entries: seq<TlbEntry>, asid: bv64, gva: bv64, ldst: bv64)
    requires IsBit(ldst) && Translate(entries, asid, gva, ldst) == Fault(TLB_INV)
    requires Find(entries, gva, asid, 0) < |entries|
    ensures CauseCode(TLB_INV, ProtAfter(entries, asid, gva, ldst)) == Some(MissCode(ldst))
            <==> DirtyFor(entries[Find(entries, gva, asid, 0)], gva) == (ldst == 1)
  {
    hide Matches, DirtyFor, ValidFor, Gpa, CauseCode, MissCode, Flag, IsBit, Translate, ProtAfter;
    LookupCases(entries, asid, gva, ldst);
    CodeBits(DirtyFor(entries[Find(entries, gva, asid, 0)], gva), ldst);
  }

  /** An invalid page with D set, as tlbwi leaves it for EntryLo 4. */
  const INVALID_DIRTY := TlbEntry(0, 4, 4, 0, 0, 0, false, true, false, false, true, true, 0, 0)

  lemma InvalidDirtyMatches()
    ensures Matches(INVALID_DIRTY, 0x1000, 0) && !ValidFor(INVALID_DIRTY, 0x1000) && DirtyFor(INVALID_DIRTY, 0x1000)
  {
    hide ShiftedRight, Ones;
  }

  /** A load from an invalid page with D set enters the exception with the code of a store. */
  lemma LoadReportedAsStore(entries: seq<TlbEntry>)
    requires |entries| == TLB_ENTRIES && entries[0] == INVALID_DIRTY
    ensures Translate(entries, 0, 0x1000, 0) == Fault(TLB_INV)
    ensures CauseCode(TLB_INV, ProtAfter(entries, 0, 0x1000, 0)) == Some(TLBS) && MissCode(0) == TLBL
  {
    InvalidDirtyMatches();
    hide Matches, ValidFor, DirtyFor, Gpa;
    LookupCases(entries, 0, 0x1000, 0);
  }

  // ---- read-back

  lemma ReadBackPlain(v: bv64)
    ensures ReservedBits(PAGEMASK, v) == v && ReservedBits(ENTRYHI, v) == v
    ensures ReservedBits(ENTRYLO0, v) == v && ReservedBits(ENTRYLO1, v) == v
  {
    hide Keep, KeepAndSet, KeepLong;
  }

  /** EntryHi without the region and the reserved bits. */
  function ReadableHi(hi: bv64): bv64 { hi & 0x1_FFFF_FFFF_E0FF }

  lemma HiBits(hi: bv64)
    ensures Vpn(hi) | Asid(hi) == ReadableHi(hi)
  {
  }

  /** tlbwi (or tlbwr) and tlbr of the same entry give PageMask and both EntryLo back exactly, and EntryHi without
      its region and its reserved bits. */
  lemma WriteThenRead(w: Regs, r: Regs)
    ensures var back := ReadBack(r, EntryOf(w));
      back[PAGEMASK] == w[PAGEMASK] && back[ENTRYLO0] == w[ENTRYLO0] && back[ENTRYLO1] == w[ENTRYLO1]
      && back[ENTRYHI] == Value(ReadableHi(w[ENTRYHI].bits))
  {
    hide ReservedBits, Vpn, Asid, RegionNumber, Frame, BothGlobal, ValidBit, DirtyBit;
    ReadBackPlain(w[PAGEMASK].bits);
    ReadBackPlain(HiOf(EntryOf(w)));
    ReadBackPlain(w[ENTRYLO0].bits);
    ReadBackPlain(w[ENTRYLO1].bits);
    HiBits(w[ENTRYHI].bits);
  }

  lemma ReadableVpn(hi: bv64)
    ensures Vpn(ReadableHi(hi)) == Vpn(hi)
  {
  }

  lemma ReadableAsid(hi: bv64)
    ensures Asid(ReadableHi(hi)) == Asid(hi)
  {
  }

  lemma ReadableRegion(hi: bv64)
    ensures RegionNumber(ReadableHi(hi)) == 0
  {
  }

  /** Writing a read entry back keeps it exactly when it lies in region 0. */
  lemma ReadThenWrite(w: Regs, r: Regs)
    ensures EntryOf(ReadBack(r, EntryOf(w))) == EntryOf(w) <==> RegionNumber(w[ENTRYHI].bits) == 0
  {
    hide ReadBack, Vpn, Asid, RegionNumber, Frame, BothGlobal, ValidBit, DirtyBit, ReadableHi;
    WriteThenRead(w, r);
    ReadableVpn(w[ENTRYHI].bits);
    ReadableAsid(w[ENTRYHI].bits);
    ReadableRegion(w[ENTRYHI].bits);
  }

  /** Region 3 is lost on the way: an entry of the kernel's mapped segment comes back as one of the user's. */
  lemma RegionThreeIsLost(w: Regs, r: Regs)
    requires w[ENTRYHI] == Value(0xC000_0000_0000_0000)
    ensures EntryOf(ReadBack(r, EntryOf(w))).region == 0 && EntryOf(w).region == 3
  {
    hide ReadBack, Vpn, Asid, RegionNumber, Frame, BothGlobal, ValidBit, DirtyBit, ReadableHi;
    WriteThenRead(w, r);
    ReadableRegion(w[ENTRYHI].bits);
    RegionThree();
  }

  lemma RegionThree()
    ensures RegionNumber(0xC000_0000_0000_0000) == 3
  {
  }

  // ---- addresses within 4 KB go together

  lemma PageTag(gva: bv64, pagemask: bv64)
    ensures Tag(PageOf(gva), PairBits(pagemask)) == Tag(gva, PairBits(pagemask))
            && RegionNumber(PageOf(gva)) == RegionNumber(gva)
  {
  }

  lemma SamePageMatches(e: TlbEntry, gva: bv64, asid: bv64)
    ensures Matches(e, PageOf(gva), asid) == Matches(e, gva, asid)
  {
    hide Tag, Masked, RegionNumber, PageOf, PairBits;
    PageTag(gva, e.pagemask);
  }

  lemma {:induction false} SamePageFind(entries: seq<TlbEntry>, gva: bv64, asid: bv64, i: nat)
    requires i <= |entries|
    ensures Find(entries, PageOf(gva), asid, i) == Find(entries, gva, asid, i)
    decreases |entries| - i
  {
    hide Matches;
    if i < |entries| {
      SamePageMatches(entries[i], gva, asid);
      SamePageFind(entries, gva, asid, i + 1);
    }
  }

  lemma OnesSplit(x: bv64, m: nat, n: nat)
    ensures Ones(x, m + n) == Ones(x, m) + Ones(ShiftedRight(x, m), n)
    decreases m
  {
    if m > 0 {
      OnesSplit(x >> 1, m - 1, n);
    }
  }

  lemma Ones4(x: bv64)
    requires x & 0xF == 0xF
    ensures Ones(x, 4) == 4
  {
    assert x & 1 != 0 && (x >> 1) & 1 != 0 && (x >> 1 >> 1) & 1 != 0 && (x >> 1 >> 1 >> 1) & 1 != 0;
    assert Ones(x >> 1 >> 1, 2) == 2;
  }

  lemma Ones12(x: bv64)
    requires x & 0xFFF == 0xFFF
    ensures Ones(x, 32) >= 12
  {
    Ones4(x);
    Ones4(x >> 4);
    Ones4(x >> 8);
    Shift4(x);
    Shift4(x >> 4);
    Shift4(x >> 8);
    OnesSplit(x, 4, 28);
    OnesSplit(x >> 4, 4, 24);
    OnesSplit(x >> 8, 4, 20);
  }

  lemma SamePageShift(gva: bv64, n: nat)
    requires n >= 12
    ensures ShiftedRight(PageOf(gva), n) == ShiftedRight(gva, n)
  {
    hide PageOf;
    ShiftSplit(gva, 12, n - 12);
    ShiftSplit(PageOf(gva), 12, n - 12);
    Shift12(gva);
    Shift12(PageOf(gva));
    PageShift(gva);
  }

  lemma SamePageOdd(e: TlbEntry, gva: bv64)
    ensures Odd(e, PageOf(gva)) == Odd(e, gva)
  {
    hide PageOf, PageOffsetBits;
    OffsetMaskBits(e.pagemask);
    Ones12(PageOffsetMask(e));
    SamePageShift(gva, Ones(PageOffsetMask(e), 32));
  }

  lemma OffsetMaskBits(pagemask: bv64)
    ensures PageOffsetBits(pagemask) & 0xFFF == 0xFFF
  {
  }

  lemma PageShift(gva: bv64)
    ensures PageOf(gva) >> 12 == gva >> 12
  {
  }
}
