/** Processor_IPE: address translation and the TLB instructions, as they run on the shared objects. */
module Processor {
  import opened Words
  import opened Machine
  import opened Cp0
  import opened Mmu
  import opened Exceptions
  import opened Tlb
  import opened TlbProperties
  import opened TlbUnit
  import opened RegionMap
  import opened AddressCache
  import opened Coherence

  /** A host address, or the vector of the exception just entered. */
  datatype AddrResult = Mapped(hva: int) | Faulted(pc: bv64)

  predicate Erl(status: bv64) { status & STATUS_ERL != 0 }

  lemma LocatedKeepsAsid(r: Regs, gva: bv64)
    ensures Asid(Located(r, gva)[ENTRYHI].bits) == Asid(r[ENTRYHI].bits)
  {
    hide NewEntryHi, Asid;
    LocatedHi(r, gva);
    RefillHiBits(r[ENTRYHI].bits, gva);
  }

  lemma EnteredKeepsHi(r: Regs, gva: bv64, expType: bv64, ldst: bv64, pc: bv64)
    ensures match Entered(r, gva, expType, ldst, pc)
            case Some(e) => e.regs[ENTRYHI] == r[ENTRYHI]
            case None => true
  {
    hide CauseCode, NewCause, HasExl, SetExl, SetErl, Vector, ReservedBits;
  }

  /** Where the guest continues after an exception: at an aligned kseg0 or kseg1 address, with EXL set. */
  predicate AtVector(pc: bv64, r: Regs) { Unmapped(pc) && Aligned4(pc) && HasExl(r[STATUS].bits) }

  predicate EbaseSet(r: Regs) { EbaseOk(r[EBASE].bits) }

  lemma EnteredAtVector(r: Regs, gva: bv64, expType: bv64, ldst: bv64, pc: bv64)
    requires EbaseSet(r)
    ensures match Entered(r, gva, expType, ldst, pc)
            case Some(e) => AtVector(e.pc, e.regs)
            case None => true
  {
    hide Entered, HasExl, EnteredStatus, EbaseOk, Vector, NewCause, CauseCode, Unmapped, Aligned4;
    EnteredRegs(r, gva, expType, ldst, pc);
    EnteredBits(r[STATUS].bits);
    if CauseCode(expType, ldst).Some? {
      VectorBits(expType, r[STATUS].bits, NewCause(r[CAUSE].bits, CauseCode(expType, ldst).value), r[EBASE].bits);
    }
  }

  lemma LocatedKeepsEbase(r: Regs, gva: bv64)
    ensures EbaseSet(Located(r, gva)) == EbaseSet(r)
  {
    hide NewEntryHi, NewXContext, NewContext, ReservedBits, EbaseOk;
  }

  /** The exception a refused or failed translation of gva enters, from r to r1 and newPc: an address error (4, or 5
      for a store) where the mode may not use the address; else what the TLB answered, with the page filed. For an
      invalid page the code is made from the D bit of the page. */
  predicate Recorded(r: Regs, entries: seq<TlbEntry>, asid: bv64, gva: bv64, ldst: bv64, pc: bv64, r1: Regs,
                     newPc: bv64) {
    if !MayAccess(r[96].bits, gva) then EntersBy(r, gva, 4 + ldst, ldst, pc, r1, newPc)
    else
      match Translate(entries, asid, gva, ldst)
      case Fault(expType) =>
        EntersBy(FiledPage(r, gva), gva, expType, ProtAfter(entries, asid, gva, ldst), pc, r1, newPc)
      case Hit(_, _) => false
  }

  lemma BitIsKnown(expType: bv64, ldst: bv64)
    requires IsBit(ldst)
    ensures FlagKnown(expType, ldst)
  {
  }

  lemma FaultRecorded(r: Regs, entries: seq<TlbEntry>, asid: bv64, gva: bv64, ldst: bv64, pc: bv64, e: Entry)
    requires IsBit(ldst) && MayAccess(r[96].bits, gva) && Translate(entries, asid, gva, ldst).Fault?
    requires Entered(Located(r, gva), gva, Translate(entries, asid, gva, ldst).expType,
                     ProtAfter(entries, asid, gva, ldst), pc) == Some(e)
    ensures Recorded(r, entries, asid, gva, ldst, pc, e.regs, e.pc)
  {
    hide Entered, Located, FiledPage, EntersBy, MayAccess, Translate, ProtAfter, IsBit, FlagKnown, KnownType;
    var expType, prot := Translate(entries, asid, gva, ldst).expType, ProtAfter(entries, asid, gva, ldst);
    LocatedExactly(r, gva);
    ProtIsDirty(entries, asid, gva, ldst);
    BitIsKnown(expType, prot);
    EnteredExactly(Located(r, gva), gva, expType, prot, pc);
  }

  lemma AddressErrorRecorded(r: Regs, entries: seq<TlbEntry>, asid: bv64, gva: bv64, ldst: bv64, pc: bv64, e: Entry)
    requires IsBit(ldst) && !MayAccess(r[96].bits, gva)
    requires Entered(r, gva, AddressErrorCode(ldst), ldst, pc) == Some(e)
    ensures Recorded(r, entries, asid, gva, ldst, pc, e.regs, e.pc)
  {
    assert AddressErrorCode(ldst) == 4 + ldst;
    hide Entered, EntersBy, MayAccess, Translate, IsBit, FlagKnown, KnownType, AddressErrorCode;
    BitIsKnown(AddressErrorCode(ldst), ldst);
    EnteredExactly(r, gva, AddressErrorCode(ldst), ldst, pc);
  }

  function AddressErrorCode(ldst: bv64): bv64 { ADEL + ldst }

  lemma AddressErrorKnown(r: Regs, gva: bv64, ldst: bv64, pc: bv64)
    requires IsBit(ldst)
    ensures Entered(r, gva, AddressErrorCode(ldst), ldst, pc).Some?
  {
    assert CauseCode(AddressErrorCode(ldst), ldst).Some?;
    hide CauseCode;
  }

  lemma OneIsBit()
    ensures IsBit(1)
  {
  }

  /** The protection a lookup leaves in the load/store cell. */
  lemma ProtIsDirty(entries: seq<TlbEntry>, asid: bv64, gva: bv64, ldst: bv64)
    requires IsBit(ldst)
    ensures var prot := ProtAfter(entries, asid, gva, ldst);
      IsBit(prot)
      && match Translate(entries, asid, gva, ldst)
         case Hit(_, dirty) => dirty == (prot == 1)
         case Fault(_) => true
  {
    hide Matches, ValidFor, DirtyFor, Gpa, MissCode;
  }

  lemma ProtIsFlag(prot: bv64)
    requires IsBit(prot)
    ensures Flag(prot == 1) == prot
  {
  }

  /** The state a successful slow path leaves. */
  lemma AccessFills(s: State, erl: bool, gva: bv64, ldst: bv64, mapped: nat, gpa: bv64, prot: bv64)
    requires WellFormedState(s) && SlowGpa(s, erl, gva, ldst) == Some(Physical(gpa, prot == 1)) && IsBit(prot)
    requires Servable(s, gpa, mapped)
    ensures var regions := Extended(s.regions, ToNat(gpa), mapped);
      Hva(regions, ToNat(gpa)).Some?
      && Filled(s, gva, Physical(gpa, prot == 1), mapped)
         == State(Updated(s.cache, gva, Hva(regions, ToNat(gpa)).value, prot), s.entries, s.asid, regions)
      && SlowHva(Filled(s, gva, Physical(gpa, prot == 1), mapped), erl, gva, ldst) == Hva(regions, ToNat(gpa))
  {
    hide IsBit, Flag, StaticGpa, Translate, Key, Listed, SectionOf, IoSize, FreshMapping, RegionMap.Disjoint,
      FramesClear, Offset, ToNat;
    ProtIsFlag(prot);
  }

  // ---- the vector's own translation

  function KsegGpa(v: bv64): bv64 { v & 0x1FFF_FFFF }

  /** A vector translates without the TLB, for loads and stores, in every Status its exception can leave. */
  lemma VectorSlow(s: State, erl: bool, v: bv64, ldst: bv64)
    requires Unmapped(v)
    ensures SlowGpa(s, erl, v, ldst) == Some(Physical(KsegGpa(v), true)) && !InCvmseg(v) && Allowed(0, v)
  {
    hide Unmapped, InCvmseg, Is32Bit, Segment32, Allowed, StaticGpa, Translate;
    UnmappedBits(v);
    UnmappedStatic(v, erl);
  }

  lemma ZeroIsBit()
    ensures IsBit(0)
  {
  }

  lemma CoherentState(s: State, erl: bool)
    requires Coherent(s, erl)
    ensures WellFormedState(s)
  {
  }

  /** A successful translation is the slow path's, cached or not. */
  lemma MappedIsSlow(s: State, erl: bool, gva: bv64, ldst: bv64, allowed: bool, mapped: nat, cvmsegBase: int,
                     r: AddrResult)
    requires Coherent(s, erl) && Enabled(s, erl, Step.Access(gva, ldst, allowed, mapped)) && r.Mapped?
    requires Outcome(s, erl, gva, ldst, allowed, cvmsegBase, Apply(s, erl, Step.Access(gva, ldst, allowed, mapped)), r)
    ensures InCvmseg(gva) || IsAt(SlowHva(Apply(s, erl, Step.Access(gva, ldst, allowed, mapped)), erl, gva, ldst),
                                  r.hva)
  {
    CoherentState(s, erl);
    hide Coherent, SlowGpa, SlowHva, InCvmseg, Filled, IsHit, HitHva;
    if IsHit(s.cache, gva, ldst) {
      HitAgrees(s, erl, gva, ldst);
    }
  }

  /** A fetch from gva finds its page: in the page cache, the scratch memory, or by an allowed slow path. */
  predicate Translates(s: State, erl: bool, allowed: bool, gva: bv64)
    requires |s.cache| == CACHE_SIZE
  {
    IsHit(s.cache, gva, 0) || InCvmseg(gva) || (allowed && SlowGpa(s, erl, gva, 0).Some?)
  }

  lemma MappedTranslates(s: State, erl: bool, gva: bv64, allowed: bool, mapped: nat, cvmsegBase: int, r: AddrResult)
    requires WellFormedState(s) && Enabled(s, erl, Step.Access(gva, 0, allowed, mapped))
    requires Outcome(s, erl, gva, 0, allowed, cvmsegBase, Apply(s, erl, Step.Access(gva, 0, allowed, mapped)), r)
    ensures r.Mapped? <==> Translates(s, erl, allowed, gva)
  {
    hide SlowGpa, InCvmseg, IsHit, HitHva, SlowHva, WellFormedState, Enabled, Apply, CvmsegOffset;
  }

  lemma FaultChangesNothing(s: State, erl: bool, gva: bv64, ldst: bv64, allowed: bool, mapped: nat, cvmsegBase: int,
                            r: AddrResult)
    requires WellFormedState(s) && Enabled(s, erl, Step.Access(gva, ldst, allowed, mapped)) && r.Faulted?
    requires Outcome(s, erl, gva, ldst, allowed, cvmsegBase, Apply(s, erl, Step.Access(gva, ldst, allowed, mapped)), r)
    ensures Apply(s, erl, Step.Access(gva, ldst, allowed, mapped)) == s
  {
    hide SlowGpa, SlowHva, InCvmseg, Filled, IsHit, HitHva, WellFormedState;
  }

  lemma VectorIsKernel(v: bv64, r: Regs)
    requires AtVector(v, r)
    ensures Unmapped(v) && MayAccess(r[STATUS].bits, v)
  {
    hide Unmapped, Aligned4, Allowed, MayAccess, Mode, HasExl;
    ExlIsKernel(r[STATUS].bits, 0);
    AllowedExactly(r[STATUS].bits, v);
    VectorSlow(State([], [], 0, map[]), false, v, 0);
  }

  lemma VectorEnabled(s: State, erl: bool, v: bv64, ldst: bv64, mapped: nat)
    requires WellFormedState(s) && Unmapped(v) && Servable(s, KsegGpa(v), mapped) && IsBit(ldst)
    ensures Enabled(s, erl, Step.Access(v, ldst, true, mapped))
  {
    hide SlowGpa, Unmapped, KsegGpa, Servable, WellFormedState;
    VectorSlow(s, erl, v, ldst);
  }

  /** Under the old ERL or the new one, a vector is always mapped. */
  lemma VectorMapped(s: State, erl: bool, erl2: bool, v: bv64, ldst: bv64, mapped: nat, cvmsegBase: int, r: AddrResult)
    requires Coherent(s, erl) && Unmapped(v) && IsBit(ldst) && Enabled(s, erl2, Step.Access(v, ldst, true, mapped))
    requires Outcome(s, erl2, v, ldst, true, cvmsegBase, Apply(s, erl2, Step.Access(v, ldst, true, mapped)), r)
    ensures r.Mapped? && IsAt(SlowHva(Apply(s, erl2, Step.Access(v, ldst, true, mapped)), erl2, v, 0), r.hva)
  {
    CoherentState(s, erl);
    hide Coherent, SlowGpa, Unmapped, KsegGpa, InCvmseg, Filled, IsHit, HitHva, Hva, ToNat, Enabled, IsBit;
    var after := Apply(s, erl2, Step.Access(v, ldst, true, mapped));
    VectorSlow(s, erl, v, ldst);
    VectorSlow(s, erl2, v, ldst);
    VectorSlow(after, erl2, v, ldst);
    VectorSlow(after, erl2, v, 0);
    if IsHit(s.cache, v, ldst) {
      HitAgrees(s, erl, v, ldst);
    }
  }

  class Processor {
    const cp0: CP0
    const tlb: TLB
    const addrCache: AddrTranslationCache
    const gpaMap: GpaMap
    const context: Context
    const cvmsegBase: int
    var asid: bv64

    constructor (cp0: CP0, tlb: TLB, addrCache: AddrTranslationCache, gpaMap: GpaMap, context: Context, cvmsegBase: int)
      requires cp0.Valid() && tlb.Valid() && tlb.cp0 == cp0 && addrCache.Valid() && IsBit(context.loadStore)
      ensures Valid() && this.cp0 == cp0 && this.tlb == tlb && this.addrCache == addrCache && this.gpaMap == gpaMap
      ensures this.context == context
    {
      this.cp0, this.tlb, this.addrCache, this.gpaMap := cp0, tlb, addrCache, gpaMap;
      this.context, this.cvmsegBase := context, cvmsegBase;
      asid := Asid(cp0.Read(ENTRYHI));
    }

    ghost predicate Valid()
      reads this, cp0.reg, context
    {
      cp0.Valid() && tlb.Valid() && tlb.cp0 == cp0 && addrCache.Valid()
      && IsBit(context.loadStore) && asid == Asid(cp0.Contents()[ENTRYHI].bits)
    }

    ghost function Abstract(): State
      reads this, cp0.reg, context, tlb.entries, addrCache.insCache, gpaMap
      requires Valid()
    {
      State(addrCache.Contents(), tlb.Contents(), asid, gpaMap.regions)
    }

    ghost predicate ErlNow()
      reads cp0.reg
      requires cp0.Valid()
    {
      Erl(cp0.Contents()[STATUS].bits)
    }

    ghost predicate AllowedNow(gva: bv64)
      reads cp0.reg
      requires cp0.Valid()
    {
      MayAccess(cp0.Contents()[STATUS].bits, gva)
    }

    method AddressError(gva: bv64) returns (newPc: bv64)
      requires Valid()
      modifies cp0.reg
      ensures Valid()
      ensures Entered(old(cp0.Contents()), gva, AddressErrorCode(context.loadStore), context.loadStore, context.pc)
              == Some(Entry(cp0.Contents(), newPc))
      ensures EbaseSet(old(cp0.Contents())) ==> AtVector(newPc, cp0.Contents())
    {
      hide Entered, Asid, AddressErrorCode, IsBit, AtVector, EbaseSet;
      if EbaseSet(cp0.Contents()) {
        EnteredAtVector(cp0.Contents(), gva, AddressErrorCode(context.loadStore), context.loadStore, context.pc);
      }
      AddressErrorKnown(cp0.Contents(), gva, context.loadStore, context.pc);
      EnteredKeepsHi(cp0.Contents(), gva, AddressErrorCode(context.loadStore), context.loadStore, context.pc);
      var r := PerformException(cp0, gva, AddressErrorCode(context.loadStore), context);
      newPc := r.value;
    }

    method TlbLookup(gva: bv64) returns (ok: bool, gpa: bv64)
      requires Valid()
      modifies context, cp0.reg
      ensures Valid()
      ensures match Translate(tlb.Contents(), asid, gva, old(context.loadStore))
              case Hit(a, dirty) => ok && gpa == a && dirty == (context.loadStore == 1)
                  && cp0.Contents() == old(cp0.Contents())
              case Fault(_) => !ok && (EbaseSet(old(cp0.Contents())) ==> AtVector(gpa, cp0.Contents()))
      ensures !ok && MayAccess(old(cp0.Contents()[96].bits), gva) ==>
                Recorded(old(cp0.Contents()), tlb.Contents(), asid, gva, old(context.loadStore), context.pc,
                         cp0.Contents(), gpa)
      ensures context.pc == old(context.pc)
    {
      hide Translate, ProtAfter, Entered, Located, Asid, IsBit, AtVector, EbaseSet, MayAccess, Recorded;
      ghost var r, ldst := cp0.Contents(), context.loadStore;
      ProtIsDirty(tlb.Contents(), asid, gva, ldst);
      LocatedKeepsAsid(r, gva);
      ok, gpa := tlb.GVAtoGPA(gva, context);
      if !ok {
        ghost var fault := Translate(tlb.Contents(), asid, gva, ldst);
        EnteredKeepsHi(Located(r, gva), gva, fault.expType, context.loadStore, context.pc);
        LocatedKeepsEbase(r, gva);
        if MayAccess(r[96].bits, gva) {
          FaultRecorded(r, tlb.Contents(), asid, gva, ldst, context.pc, Entry(cp0.Contents(), gpa));
        }
        if EbaseSet(r) {
          EnteredAtVector(Located(r, gva), gva, fault.expType, context.loadStore, context.pc);
        }
      }
    }

    /** MMUTranslator_IPE::GVAtoGPA: privileges, then the segments, then the TLB. */
    method GVAtoGPA(gva: bv64) returns (ok: bool, gpa: bv64)
      requires Valid()
      modifies context, cp0.reg
      ensures Valid()
      ensures ok <==> MayAccess(old(cp0.Contents()[STATUS].bits), gva)
                      && SlowGpa(Abstract(), old(ErlNow()), gva, old(context.loadStore)).Some?
      ensures ok ==> SlowGpa(Abstract(), old(ErlNow()), gva, old(context.loadStore))
                     == Some(Physical(gpa, context.loadStore == 1)) && cp0.Contents() == old(cp0.Contents())
      ensures !ok && EbaseSet(old(cp0.Contents())) ==> AtVector(gpa, cp0.Contents())
      ensures context.pc == old(context.pc)
      ensures !ok ==> Recorded(old(cp0.Contents()), tlb.Contents(), asid, gva, old(context.loadStore), context.pc,
                               cp0.Contents(), gpa)
    {
      hide Allowed, MayAccess, StaticGpa, Translate, Entered, Asid, AddressErrorCode, IsBit, Mode, Erl, AtVector,
        EbaseSet, Recorded;
      ghost var r, ldst := cp0.Contents(), context.loadStore;
      var mode := cp0.GetKSU();
      var status := cp0.Read(STATUS);
      AllowedExactly(status, gva);
      if !Allowed(mode, gva) {
        gpa := AddressError(gva);
        AddressErrorRecorded(r, tlb.Contents(), asid, gva, ldst, context.pc, Entry(cp0.Contents(), gpa));
        return false, gpa;
      }
      match StaticGpa(gva, Erl(status)) {
        case Some(a) =>
          OneIsBit();
          context.SetProt(1);
          ok, gpa := true, a;
        case None =>
          ok, gpa := TlbLookup(gva);
      }
    }

    /** addrTranslation: the page cache, the core-local segment, and the slow path, which fills the cache. mapped is the
        address the operating system would give a device block that has to be mapped first. */
    method AddrTranslation(gva: bv64, mapped: nat) returns (r: AddrResult)
      requires Valid() && WellFormedState(Abstract())
      requires Enabled(Abstract(), ErlNow(), Step.Access(gva, context.loadStore, AllowedNow(gva), mapped))
      modifies addrCache.insCache, context, cp0.reg, gpaMap
      ensures Valid()
      ensures Abstract() == Apply(old(Abstract()), old(ErlNow()),
                                  old(Step.Access(gva, context.loadStore, AllowedNow(gva), mapped)))
      ensures Outcome(old(Abstract()), old(ErlNow()), gva, old(context.loadStore), old(AllowedNow(gva)), cvmsegBase,
                      Abstract(), r)
      ensures r.Faulted? && EbaseSet(old(cp0.Contents())) ==> AtVector(r.pc, cp0.Contents())
      ensures r.Mapped? ==> cp0.Contents() == old(cp0.Contents())
      ensures context.pc == old(context.pc)
      ensures r.Faulted? ==> Recorded(old(cp0.Contents()), tlb.Contents(), asid, gva, old(context.loadStore),
                                      context.pc, cp0.Contents(), r.pc)
    {
      hide Recorded, AtVector, EbaseSet, MayAccess, SlowGpa, Asid, IsBit, Mode, Erl, IsHit, HitHva, InCvmseg,
        CvmsegOffset, ToNat,
        FramesClear, RegionMap.Disjoint, Key, Listed, IoSize, SectionOf, Hva, Updated, FreshMapping, Extended, Filled,
        SlowHva;
      ghost var s, erl := Abstract(), ErlNow();
      var ldst := context.loadStore;
      var hit, hva := addrCache.CheckCache(gva, ldst);
      if hit {
        return Mapped(hva);
      }
      if InCvmseg(gva) {
        return Mapped(cvmsegBase + CvmsegOffset(gva));
      }
      var ok, gpa := GVAtoGPA(gva);
      if !ok {
        return Faulted(gpa);
      }
      AccessFills(s, erl, gva, ldst, mapped, gpa, context.loadStore);
      var found := gpaMap.GpaToHva(ToNat(gpa), mapped);
      hva := found.value;
      addrCache.UpdateCache(gva, hva, context.loadStore);
      r := Mapped(hva);
    }

    /** The translation of the PC in fetchNextBlock: if it faults, the vector is translated instead, and that
        translation never faults. */
    method FetchAddress(gva: bv64, mapped: nat, mapped2: nat) returns (newPc: bv64, hva: int)
      requires Valid() && Coherent(Abstract(), ErlNow()) && EbaseSet(cp0.Contents())
      requires Enabled(Abstract(), ErlNow(), Step.Access(gva, 0, AllowedNow(gva), mapped))
      requires forall v :: Unmapped(v) ==> Servable(Abstract(), KsegGpa(v), mapped2)
      modifies addrCache.insCache, context, cp0.reg, gpaMap
      ensures Valid()
      ensures newPc == gva || AtVector(newPc, cp0.Contents())
      ensures if old(Translates(Abstract(), ErlNow(), AllowedNow(gva), gva))
              then newPc == gva && cp0.Contents() == old(cp0.Contents())
              else Recorded(old(cp0.Contents()), tlb.Contents(), asid, gva, 0, context.pc, cp0.Contents(), newPc)
      ensures InCvmseg(newPc) || IsAt(SlowHva(Abstract(), ErlNow(), newPc, 0), hva)
    {
      hide Coherent, Enabled, Apply, Outcome, SlowHva, IsBit, Asid, InCvmseg, Unmapped, MayAccess, Servable, Erl,
        EbaseSet, AtVector, Recorded, Translates;
      ghost var s, erl, allowed := Abstract(), ErlNow(), AllowedNow(gva);
      CoherentState(s, erl);
      context.loadStore := 0;
      ZeroIsBit();
      var r := AddrTranslation(gva, mapped);
      if r.Mapped? {
        newPc, hva := gva, r.hva;
        MappedIsSlow(s, erl, gva, 0, allowed, mapped, cvmsegBase, r);
        MappedTranslates(s, erl, gva, allowed, mapped, cvmsegBase, r);
      } else {
        newPc := r.pc;
        FaultChangesNothing(s, erl, gva, 0, allowed, mapped, cvmsegBase, r);
        MappedTranslates(s, erl, gva, allowed, mapped, cvmsegBase, r);
        ghost var ldst := context.loadStore;
        VectorIsKernel(newPc, cp0.Contents());
        VectorEnabled(s, ErlNow(), newPc, ldst, mapped2);
        ghost var erl2 := ErlNow();
        r := AddrTranslation(newPc, mapped2);
        VectorMapped(s, erl, erl2, newPc, ldst, mapped2, cvmsegBase, r);
        hva := r.hva;
      }
    }

    /** TlbWriteI: the entry, then the whole page cache. */
    method TlbWriteI()
      requires Valid() && WellFormedState(Abstract())
      modifies tlb.entries, addrCache.insCache
      ensures Valid()
      ensures Abstract() == Apply(old(Abstract()), ErlNow(),
                WriteEntry(SixBits(cp0.Contents()[INDEX].bits), cp0.Contents()))
    {
      hide EntryOf, Asid, Translate, IsBit, SlowGpa, FramesClear, RegionMap.Disjoint;
      var idx := tlb.TlbWriteIndex();
      addrCache.ClearCache();
      AllClearedIs(addrCache.Contents());
    }

    /** TlbWrite: the random entry rand() chose, then the whole page cache. */
    method TlbWrite(random: nat)
      requires Valid() && WellFormedState(Abstract())
      modifies tlb.entries, cp0.reg, addrCache.insCache
      ensures Valid()
      ensures var idx := RandomIndex(random, SixBits(old(cp0.Contents())[WIRED].bits));
        Abstract()
        == if idx < TLB_ENTRIES then Apply(old(Abstract()), old(ErlNow()), WriteEntry(idx, old(cp0.Contents())))
           else old(Abstract()).(cache := ClearedCache())
    {
      hide EntryOf, Asid, Translate, IsBit, SlowGpa, FramesClear, RegionMap.Disjoint, ReservedBits;
      var idx := tlb.TlbRandom(random);
      addrCache.ClearCache();
      AllClearedIs(addrCache.Contents());
    }

    /** The guest's mtc0 to EntryHi (a plain store to the register slot), and HandleASIDchange after it. */
    method WriteEntryHi(v: bv64)
      requires Valid() && WellFormedState(Abstract())
      modifies this`asid, cp0.reg, addrCache.insCache
      ensures Valid() && Abstract() == Apply(old(Abstract()), old(ErlNow()), WriteHi(Asid(v)))
    {
      hide Asid, IsBit, SlowGpa, FramesClear, RegionMap.Disjoint;
      cp0.reg[ENTRYHI] := Value(v);
      var asidNow := Asid(cp0.Read(ENTRYHI));
      if asid != asidNow {
        addrCache.ClearCache();
        AllClearedIs(addrCache.Contents());
        asid := asidNow;
      }
    }
  }

  lemma AllClearedIs(c: seq<CacheEntry>)
    requires AllCleared(c)
    ensures c == ClearedCache()
  {
    assert |c| == |ClearedCache()|;
  }

  /** What addrTranslation answers: the cached address, the scratch memory, the slow path, or an exception. */
  ghost predicate Outcome(s: State, erl: bool, gva: bv64, ldst: bv64, allowed: bool, cvmsegBase: int, after: State,
                          r: AddrResult)
    requires |s.cache| == CACHE_SIZE
  {
    if IsHit(s.cache, gva, ldst) then r == Mapped(HitHva(s.cache, gva))
    else if InCvmseg(gva) then r == Mapped(cvmsegBase + CvmsegOffset(gva))
    else if allowed && SlowGpa(s, erl, gva, ldst).Some? then r.Mapped? && IsAt(SlowHva(after, erl, gva, ldst), r.hva)
    else r.Faulted?
  }

  function CvmsegBits(gva: bv64): bv14 { (gva & 0x3FFF) as bv14 }

  function CvmsegOffset(gva: bv64): int { CvmsegBits(gva) as int }

  lemma CvmsegDistance(gva: bv64)
    requires 0xFFFF_FFFF_FFFF_8000 <= gva < 0xFFFF_FFFF_FFFF_C000
    ensures CvmsegBits(gva) as bv64 == gva - 0xFFFF_FFFF_FFFF_8000
  {
  }

  lemma FourteenBits(x: bv14)
    ensures (x as int) as bv14 == x
  {
  }

  /** The scratch memory lies at 0xFFFF_FFFF_FFFF_8000 to _BFFF, and the offset into it is the distance from there. */
  lemma CvmsegExactly(gva: bv64)
    ensures InCvmseg(gva) <==> 0xFFFF_FFFF_FFFF_8000 <= gva < 0xFFFF_FFFF_FFFF_C000
    ensures 0 <= CvmsegOffset(gva) < 0x4000
    ensures InCvmseg(gva) ==> (CvmsegOffset(gva) as bv14) as bv64 == gva - 0xFFFF_FFFF_FFFF_8000
  {
    CvmsegRange(gva);
    FourteenBits(CvmsegBits(gva));
    if InCvmseg(gva) { CvmsegDistance(gva); }
    hide InCvmseg, CvmsegBits;
  }
}
