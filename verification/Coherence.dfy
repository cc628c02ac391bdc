/** The page cache agrees with the slow path: static mapping or TLB, then the region map. */
module Coherence {
  import opened Words
  import opened Machine
  import opened Cp0
  import opened Mmu
  import opened Exceptions
  import opened Tlb
  import opened TlbProperties
  import opened RegionMap
  import opened AddressCache

  /** What translation depends on and changes. */
  datatype State = State(cache: seq<CacheEntry>, entries: seq<TlbEntry>, asid: bv64, regions: Regions)

  predicate WellFormedState(s: State) {
    |s.cache| == CACHE_SIZE && |s.entries| == TLB_ENTRIES && Disjoint(s.regions)
    && forall i :: 0 <= i < TLB_ENTRIES ==> FramesClear(s.entries[i])
  }

  datatype Physical = Physical(gpa: bv64, writable: bool)

  /** The slow path up to the guest physical address; a load (0) or a store (1). Privileges are checked apart. */
  function SlowGpa(s: State, erl: bool, gva: bv64, ldst: bv64): Option<Physical> {
    match StaticGpa(gva, erl)
    case Some(gpa) => Some(Physical(gpa, true))
    case None =>
      match Translate(s.entries, s.asid, gva, ldst)
      case Hit(gpa, dirty) => Some(Physical(gpa, dirty))
      case Fault(_) => None
  }

  /** The whole slow path. */
  function SlowHva(s: State, erl: bool, gva: bv64, ldst: bv64): Option<nat> {
    match SlowGpa(s, erl, gva, ldst)
    case Some(p) => Hva(s.regions, ToNat(p.gpa))
    case None => None
  }

  predicate IsAt(found: Option<nat>, hva: int) { found.Some? && found.value == hva }

  /** A cache entry that was not cleared holds the start of a page, where the slow path maps it, and its protection. */
  predicate EntryAgrees(s: State, erl: bool, e: CacheEntry) {
    e == CLEARED
    || (InPage(e.gva) == 0 && !InCvmseg(e.gva)
        && match SlowGpa(s, erl, e.gva, 0)
           case Some(p) => IsAt(Hva(s.regions, ToNat(p.gpa)), e.hva) && e.prot == Flag(p.writable)
           case None => false)
  }

  predicate Coherent(s: State, erl: bool) {
    WellFormedState(s) && forall i :: 0 <= i < CACHE_SIZE ==> EntryAgrees(s, erl, s.cache[i])
  }

  // ---- the layers are linear within 4 KB

  lemma FrameLow(e: TlbEntry, gva: bv64)
    requires FramesClear(e)
    ensures InPage(FrameOf(e, gva)) == 0
  {
    LowFrame(e.pfn0, e.pagemask);
    LowFrame(e.pfn1, e.pagemask);
    hide Odd, InPage, PageOffsetBits;
  }

  lemma LowFrame(frame: bv64, pagemask: bv64)
    requires frame & PageOffsetBits(pagemask) == 0
    ensures InPage(frame) == 0
  {
  }

  lemma OffsetLinear(frame: bv64, gva: bv64, mask: bv64)
    requires InPage(frame) == 0 && mask & 0xFFF == 0xFFF
    ensures Joined(frame, Below(gva, mask)) == Add(Joined(frame, Below(PageOf(gva), mask)), InPage(gva))
  {
  }

  lemma OffsetStart(frame: bv64, gva: bv64, mask: bv64)
    requires InPage(frame) == 0
    ensures InPage(Joined(frame, Below(PageOf(gva), mask))) == 0
  {
  }

  /** A page of a TLB entry keeps 4 KB pages together. */
  lemma TlbLinear(e: TlbEntry, gva: bv64)
    requires FramesClear(e)
    ensures Gpa(e, gva) == Add(Gpa(e, PageOf(gva)), InPage(gva)) && InPage(Gpa(e, PageOf(gva))) == 0
    ensures ValidFor(e, PageOf(gva)) == ValidFor(e, gva) && DirtyFor(e, PageOf(gva)) == DirtyFor(e, gva)
  {
    hide Odd, PageOf, InPage, Add, PageOffsetBits, FramesClear, Gpa, Joined, Below, OffsetIn;
    SamePageOdd(e, gva);
    FrameLow(e, gva);
    GpaParts(e, gva);
    GpaParts(e, PageOf(gva));
    OffsetMaskBits(e.pagemask);
    OffsetLinear(FrameOf(e, gva), gva, PageOffsetMask(e));
    OffsetStart(FrameOf(e, gva), gva, PageOffsetMask(e));
  }

  function Shifted(p: Option<Physical>, gva: bv64): Option<Physical> {
    match p
    case Some(p) => Some(Physical(Add(p.gpa, InPage(gva)), p.writable))
    case None => None
  }

  lemma TranslateLinear(s: State, gva: bv64, ldst: bv64)
    requires WellFormedState(s)
    ensures match Translate(s.entries, s.asid, PageOf(gva), ldst)
            case Hit(gpa, dirty) =>
              Translate(s.entries, s.asid, gva, ldst) == Hit(Add(gpa, InPage(gva)), dirty) && InPage(gpa) == 0
            case Fault(_) => Translate(s.entries, s.asid, gva, ldst).Fault?
  {
    hide Matches, ValidFor, DirtyFor, Gpa, Flag, MissCode, FramesClear, PageOf, InPage, Add, Translate,
      RegionMap.Disjoint;
    SamePageFind(s.entries, gva, s.asid, 0);
    LookupCases(s.entries, s.asid, gva, ldst);
    LookupCases(s.entries, s.asid, PageOf(gva), ldst);
    var k := Find(s.entries, gva, s.asid, 0);
    if k < |s.entries| {
      TlbLinear(s.entries[k], gva);
    }
  }

  /** The slow path maps a whole 4 KB page alike. */
  lemma SlowLinear(s: State, erl: bool, gva: bv64, ldst: bv64)
    requires WellFormedState(s)
    ensures SlowGpa(s, erl, gva, ldst) == Shifted(SlowGpa(s, erl, PageOf(gva), ldst), gva)
    ensures SlowGpa(s, erl, PageOf(gva), ldst).Some? ==> InPage(SlowGpa(s, erl, PageOf(gva), ldst).value.gpa) == 0
  {
    hide WellFormedState, StaticGpa, Translate, PageOf, InPage, Add;
    StaticLinear(gva, erl);
    TranslateLinear(s, gva, ldst);
  }

  /** A store succeeds exactly where a load does and the page is writable. */
  lemma StoreNeedsWritable(s: State, erl: bool, gva: bv64)
    ensures SlowGpa(s, erl, gva, 1)
            == if SlowGpa(s, erl, gva, 0).Some?
                && SlowGpa(s, erl, gva, 0).value.writable then SlowGpa(s, erl, gva, 0) else None
  {
    hide StaticGpa, Find, ValidFor, DirtyFor, Gpa, MissCode;
  }

  lemma HitBits(gva: bv64, e: CacheEntry)
    requires e.gva == PageOf(gva)
    ensures e != CLEARED
  {
  }

  lemma StoreHit(prot: bv64, writable: bool)
    requires prot == Flag(writable)
    ensures Forbids(prot, 1) == !writable
  {
  }

  function Further(found: Option<nat>, n: nat): Option<nat> {
    match found
    case Some(h) => Some(h + n)
    case None => None
  }

  /** The region map keeps a 4 KB page of physical memory together. */
  lemma PhysicalLinear(regions: Regions, base: bv64, gva: bv64)
    requires InPage(base) == 0
    ensures Hva(regions, ToNat(Add(base, InPage(gva)))) == Further(Hva(regions, ToNat(base)), PageOffset(gva))
  {
    hide Hva, ToNat, InPage, Add, Key, Offset, PageOffset;
    ToNatAdds(base, gva);
    HvaLinear(regions, ToNat(base), PageOffset(gva));
  }

  /** What an entry says about every address of its page. */
  lemma EntryGives(s: State, erl: bool, gva: bv64, e: CacheEntry)
    requires WellFormedState(s) && EntryAgrees(s, erl, e) && e.gva == PageOf(gva)
    ensures var p := SlowGpa(s, erl, gva, 0);
      p.Some? && IsAt(Hva(s.regions, ToNat(p.value.gpa)), e.hva + PageOffset(gva)) && e.prot == Flag(p.value.writable)
  {
    hide SlowGpa, PageOf, InPage, Add, Hva, ToNat, PageOffset, Flag, InCvmseg, WellFormedState;
    HitBits(gva, e);
    SlowLinear(s, erl, gva, 0);
    PhysicalLinear(s.regions, SlowGpa(s, erl, PageOf(gva), 0).value.gpa, gva);
  }

  /** A cache hit gives the host address of the slow path, and a store never hits a page whose D bit is 0. */
  lemma HitAgrees(s: State, erl: bool, gva: bv64, ldst: bv64)
    requires Coherent(s, erl) && IsBit(ldst) && IsHit(s.cache, gva, ldst)
    ensures IsAt(SlowHva(s, erl, gva, ldst), HitHva(s.cache, gva))
    ensures ldst == 1 ==> SlowGpa(s, erl, gva, ldst).value.writable
  {
    assert |s.cache| == CACHE_SIZE;
    hide SlowGpa, PageOf, CacheIndex, Hva, ToNat, PageOffset, Forbids, Flag, WellFormedState, EntryAgrees;
    var e := s.cache[CacheIndex(PageOf(gva))];
    EntryGives(s, erl, gva, e);
    StoreHit(e.prot, SlowGpa(s, erl, gva, 0).value.writable);
    StoreNeedsWritable(s, erl, gva);
  }

  // ---- runs

  /** One translation (allowed: the privilege check), a TLB write from the CP0 registers, or a change of EntryHi. */
  datatype Step =
    | Access(gva: bv64, ldst: bv64, allowed: bool, mapped: nat)
    | WriteEntry(idx: nat, regs: Regs)
    | WriteHi(asid: bv64)

  function ClearedCache(): (c: seq<CacheEntry>)
    ensures AllCleared(c)
  {
    seq(CACHE_SIZE, _ => CLEARED)
  }

  /** The region map can serve the address of an access. */
  predicate Servable(s: State, gpa: bv64, mapped: nat) {
    Key(ToNat(gpa)) !in s.regions ==>
      Listed(ToNat(gpa)) && FreshMapping(s.regions, mapped, IoSize(SectionOf(ToNat(gpa))))
  }

  predicate Enabled(s: State, erl: bool, step: Step)
    requires WellFormedState(s)
  {
    match step
    case Access(gva, ldst, _, mapped) =>
      IsBit(ldst) && (SlowGpa(s, erl, gva, ldst).Some? ==> Servable(s, SlowGpa(s, erl, gva, ldst).value.gpa, mapped))
    case WriteEntry(idx, _) => idx < TLB_ENTRIES
    case WriteHi(_) => true
  }

  /** After a successful slow path: the block is mapped and the page cached. */
  function Filled(s: State, gva: bv64, p: Physical, mapped: nat): State
    requires WellFormedState(s) && Servable(s, p.gpa, mapped)
  {
    var regions := Extended(s.regions, ToNat(p.gpa), mapped);
    s.(regions := regions, cache := Updated(s.cache, gva, Hva(regions, ToNat(p.gpa)).value, Flag(p.writable)))
  }

  /** addrTranslation; TLBWI or TLBWR with the clearing of the cache; an EntryHi write with HandleASIDchange. */
  function Apply(s: State, erl: bool, step: Step): State
    requires WellFormedState(s) && Enabled(s, erl, step)
  {
    match step
    case Access(gva, ldst, allowed, mapped) =>
      if IsHit(s.cache, gva, ldst) || InCvmseg(gva) || !allowed || SlowGpa(s, erl, gva, ldst) == None then s
      else Filled(s, gva, SlowGpa(s, erl, gva, ldst).value, mapped)
    case WriteEntry(idx, regs) => s.(entries := s.entries[idx := EntryOf(regs)], cache := ClearedCache())
    case WriteHi(asid) => if asid == s.asid then s else s.(asid := asid, cache := ClearedCache())
  }

  lemma ClearedCoherent(s: State, erl: bool)
    requires WellFormedState(s) && AllCleared(s.cache)
    ensures Coherent(s, erl)
  {
  }

  lemma PageOfPage(gva: bv64)
    ensures InPage(PageOf(gva)) == 0 && InCvmseg(PageOf(gva)) == InCvmseg(gva) && PageOf(PageOf(gva)) == PageOf(gva)
  {
  }

  /** Caching and mapping change nothing the slow path reads, and no mapping already made. */
  lemma FilledKeeps(s: State, erl: bool, gva: bv64, p: Physical, mapped: nat, e: CacheEntry)
    requires WellFormedState(s) && Servable(s, p.gpa, mapped) && EntryAgrees(s, erl, e)
    ensures EntryAgrees(Filled(s, gva, p, mapped), erl, e)
  {
    hide InPage, InCvmseg, PageOf, ToNat, Key, Offset, StaticGpa, Translate, Listed, SectionOf, IoSize, Flag;
  }

  lemma FilledAgrees(s: State, erl: bool, gva: bv64, ldst: bv64, mapped: nat)
    requires WellFormedState(s) && IsBit(ldst) && !InCvmseg(gva)
    requires SlowGpa(s, erl, gva, ldst).Some? && Servable(s, SlowGpa(s, erl, gva, ldst).value.gpa, mapped)
    ensures var p := SlowGpa(s, erl, gva, ldst).value;
      var after := Filled(s, gva, p, mapped);
      EntryAgrees(after, erl, after.cache[CacheIndex(PageOf(gva))])
  {
    hide InPage, InCvmseg, PageOf, ToNat, Key, Offset, StaticGpa, Translate, Listed, SectionOf, IoSize, Flag, Add,
      PageOffset, CacheIndex;
    StoreNeedsWritable(s, erl, gva);
    SlowLinear(s, erl, gva, 0);
    PageOfPage(gva);
    var p := SlowGpa(s, erl, gva, ldst).value;
    var after := Filled(s, gva, p, mapped);
    PhysicalLinear(after.regions, SlowGpa(s, erl, PageOf(gva), 0).value.gpa, gva);
    assert SlowGpa(s, erl, gva, 0) == Some(p);
    assert SlowGpa(after, erl, PageOf(gva), 0) == SlowGpa(s, erl, PageOf(gva), 0);
    var e := after.cache[CacheIndex(PageOf(gva))];
    assert e.gva == PageOf(gva) && e.prot == Flag(p.writable);
    assert Hva(after.regions, ToNat(p.gpa)) == Some(e.hva + PageOffset(gva));
  }

  lemma FilledWellFormed(s: State, gva: bv64, p: Physical, mapped: nat)
    requires WellFormedState(s) && Servable(s, p.gpa, mapped)
    ensures WellFormedState(Filled(s, gva, p, mapped))
  {
    hide ToNat, Key, Listed, SectionOf, IoSize, FramesClear, FreshMapping, RegionMap.Disjoint;
    if Key(ToNat(p.gpa)) !in s.regions {
      FreshDisjoint(s.regions, ToNat(p.gpa), mapped);
    }
  }

  lemma FilledCoherent(s: State, erl: bool, gva: bv64, ldst: bv64, mapped: nat)
    requires Coherent(s, erl) && IsBit(ldst) && !InCvmseg(gva)
    requires SlowGpa(s, erl, gva, ldst).Some? && Servable(s, SlowGpa(s, erl, gva, ldst).value.gpa, mapped)
    ensures Coherent(Filled(s, gva, SlowGpa(s, erl, gva, ldst).value, mapped), erl)
  {
    assert |s.cache| == CACHE_SIZE;
    hide EntryAgrees, WellFormedState, SlowGpa, CacheIndex, Servable, Extended, Hva;
    var p := SlowGpa(s, erl, gva, ldst).value;
    var after := Filled(s, gva, p, mapped);
    FilledWellFormed(s, gva, p, mapped);
    FilledAgrees(s, erl, gva, ldst, mapped);
    forall i | 0 <= i < CACHE_SIZE ensures EntryAgrees(after, erl, after.cache[i]) {
      FilledKeeps(s, erl, gva, p, mapped, s.cache[i]);
    }
  }

  /** Every step keeps the cache coherent. */
  lemma StepCoherent(s: State, erl: bool, step: Step)
    requires Coherent(s, erl) && Enabled(s, erl, step)
    ensures Coherent(Apply(s, erl, step), erl)
  {
    hide EntryAgrees, SlowGpa, CacheIndex, Servable, Filled, IsHit, InCvmseg, FramesClear, AllCleared,
      RegionMap.Disjoint, EntryOf;
    match step
    case Access(gva, ldst, allowed, mapped) =>
      if !(IsHit(s.cache, gva, ldst) || InCvmseg(gva) || !allowed || SlowGpa(s, erl, gva, ldst) == None) {
        FilledCoherent(s, erl, gva, ldst, mapped);
      }
    case WriteEntry(idx, regs) =>
      EntryFramesClear(regs);
      ClearedCoherent(Apply(s, erl, step), erl);
    case WriteHi(asid) =>
      if asid != s.asid { ClearedCoherent(Apply(s, erl, step), erl); }
  }

  predicate Runs(s: State, erl: bool, steps: seq<Step>)
    requires WellFormedState(s)
    decreases |steps|
  {
    steps == []
    || (Enabled(s, erl, steps[0]) && WellFormedState(Apply(s, erl, steps[0]))
        && Runs(Apply(s, erl, steps[0]), erl, steps[1..]))
  }

  function AfterRun(s: State, erl: bool, steps: seq<Step>): (r: State)
    requires WellFormedState(s) && Runs(s, erl, steps)
    ensures WellFormedState(r)
    decreases |steps|
  {
    if steps == [] then s else AfterRun(Apply(s, erl, steps[0]), erl, steps[1..])
  }

  /** Address-cache coherence: after any run from a cleared cache with ERL constant, a hit for a load or a store is the
      host address the TLB or the static mapping and the region map give, and is not a store to a clean page. */
  lemma {:induction false} RunCoherent(s: State, erl: bool, steps: seq<Step>, gva: bv64, ldst: bv64)
    requires Coherent(s, erl) && Runs(s, erl, steps)
    ensures var after := AfterRun(s, erl, steps);
      Coherent(after, erl)
      && (IsBit(ldst) && IsHit(after.cache, gva, ldst)
          ==> IsAt(SlowHva(after, erl, gva, ldst), HitHva(after.cache, gva)))
    decreases |steps|
  {
    hide EntryAgrees, Enabled, Apply, SlowHva, IsHit, IsBit, HitHva, FramesClear, RegionMap.Disjoint;
    if steps == [] {
      if IsBit(ldst) && IsHit(s.cache, gva, ldst) { HitAgrees(s, erl, gva, ldst); }
    } else {
      StepCoherent(s, erl, steps[0]);
      RunCoherent(Apply(s, erl, steps[0]), erl, steps[1..], gva, ldst);
    }
  }

  /** After a miss and the TLB write of its handler, the slow path maps the address to the new entry's frame, exactly
      when the handler made the page valid (and writable, for a store). In registers, for an architectural page mask:
      to the frame number in the EntryLo of the page times 4096, plus the address inside the page, exactly when bit 1
      of that EntryLo (and bit 2, for a store) is set. */
  lemma RefillTranslates(s: State, erl: bool, r0: Regs, gva: bv64, ldst: bv64, r: Regs, idx: nat)
    requires WellFormedState(s) && idx < TLB_ENTRIES && StaticGpa(gva, erl) == None
    requires s.asid == Asid(r0[ENTRYHI].bits) && r[ENTRYHI] == Located(r0, gva)[ENTRYHI]
    requires forall k :: 0 <= k < TLB_ENTRIES && k != idx ==> !Matches(s.entries[k], gva, s.asid)
    ensures SlowGpa(Apply(s, erl, WriteEntry(idx, r)), erl, gva, ldst)
            == if ValidFor(EntryOf(r), gva) && (ldst == 1 ==> DirtyFor(EntryOf(r), gva))
               then Some(Physical(Gpa(EntryOf(r), gva), DirtyFor(EntryOf(r), gva))) else None
    ensures CanonicalMask(r[40].bits) ==>
              SlowGpa(Apply(s, erl, WriteEntry(idx, r)), erl, gva, ldst)
              == if IsValid(PageWord(r, gva)) && (ldst == 1 ==> IsDirty(PageWord(r, gva)))
                 then Some(Physical(InFrame(r, gva), IsDirty(PageWord(r, gva)))) else None
  {
    hide Matches, EntryOf, Asid, Gpa, ValidFor, DirtyFor, Translate, Located, FramesClear, RegionMap.Disjoint,
      StaticGpa, NewEntryHi, CanonicalMask, IsValid, IsDirty, PageWord, InFrame;
    if CanonicalMask(r[40].bits) { WrittenGpa(r, gva); }
    RefillProgress(s.entries, r0, gva, ldst, r, idx);
    LocatedHi(r0, gva);
    RefillHiBits(r0[ENTRYHI].bits, gva);
  }
}
