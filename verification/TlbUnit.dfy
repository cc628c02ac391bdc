/** TLB_IPE: the entries and what the TLB instructions and a lookup do with them. */
module TlbUnit {
  import opened Words
  import opened Machine
  import opened Cp0
  import opened Exceptions
  import opened Tlb
  import opened TlbProperties

  class TLB {
    const entries: array<TlbEntry>
    const cp0: CP0

    /** Entries start out reset; junk is what the fields reset_Entry does not touch happen to hold. */
    constructor (cp0: CP0, junk: TlbEntry)
      requires cp0.Valid()
      ensures Valid() && this.cp0 == cp0 && fresh(entries)
      ensures forall i :: 0 <= i < TLB_ENTRIES ==> Contents()[i] == Reset(junk)
    {
      this.cp0 := cp0;
      entries := new TlbEntry[TLB_ENTRIES](_ => Reset(junk));
    }

    ghost predicate Valid() { entries.Length == TLB_ENTRIES && cp0.Valid() }

    ghost function Contents(): (s: seq<TlbEntry>)
      reads entries
      requires Valid()
      ensures |s| == TLB_ENTRIES
    {
      entries[..]
    }

    /** What a matching entry says. The page protection goes to the context before an exception reads the load/store
        flag from the same cell, so an invalid page is reported as a load or a store after its D bit. */
    method Examine(e: TlbEntry, gva: bv64, context: Context) returns (fault: Option<bv64>, gpa: bv64)
      modifies context
      ensures context.pc == old(context.pc) && context.loadStore == Flag(DirtyFor(e, gva))
      ensures gpa == Gpa(e, gva) && fault == FaultOf(e, gva, old(context.loadStore))
    {
      hide ValidFor, DirtyFor, Gpa;
      fault := None;
      if !ValidFor(e, gva) {
        fault := Some(TLB_INV);
      } else if context.loadStore == 1 && !DirtyFor(e, gva) {
        fault := Some(TLB_MOD);
      }
      context.SetProt(Flag(DirtyFor(e, gva)));
      gpa := Gpa(e, gva);
    }

    /** The search: a loop that breaks at the first match. */
    method FindEntry(gva: bv64, asid: bv64) returns (idx: nat)
      requires Valid()
      ensures idx == Find(Contents(), gva, asid, 0)
    {
      hide Matches;
      idx := 0;
      while idx < TLB_ENTRIES
        invariant idx <= TLB_ENTRIES && Find(entries[..], gva, asid, idx) == Find(entries[..], gva, asid, 0)
      {
        if Matches(entries[idx], gva, asid) {
          break;
        }
        idx := idx + 1;
      }
    }

    method Raise(gva: bv64, expType: bv64, context: Context) returns (vector: bv64)
      requires Valid() && CauseCode(expType, context.loadStore).Some?
      modifies cp0.reg
      ensures Entered(Located(old(cp0.Contents()), gva), gva, expType, context.loadStore, context.pc)
              == Some(Entry(cp0.Contents(), vector))
    {
      hide Located, Entered, CauseCode;
      KnownEnters(cp0.Contents(), gva, expType, context.loadStore, context.pc);
      var newPc := TlbExcep(cp0, gva, expType, context);
      vector := newPc.value;
    }

    /** The lookup: the first matching entry decides; a fault enters the exception and hands back its vector. */
    method GVAtoGPA(gva: bv64, context: Context) returns (ok: bool, gpa: bv64)
      requires Valid() && IsBit(context.loadStore)
      modifies context, cp0.reg
      ensures context.pc == old(context.pc)
      ensures context.loadStore == ProtAfter(Contents(), Asid(old(cp0.Contents())[ENTRYHI].bits), gva,
                                             old(context.loadStore))
      ensures match Translate(Contents(), Asid(old(cp0.Contents())[ENTRYHI].bits), gva, old(context.loadStore))
              case Hit(a, _) => ok && gpa == a && cp0.Contents() == old(cp0.Contents())
              case Fault(expType) =>
                !ok && Entered(Located(old(cp0.Contents()), gva), gva, expType, context.loadStore, context.pc)
                       == Some(Entry(cp0.Contents(), gpa))
    {
      hide Matches, ValidFor, DirtyFor, Gpa, Asid, Located, Entered, CauseCode, Flag, FaultOf, MissCode, IsBit,
        ProtAfter, Translate;
      var asid := Asid(cp0.Read(ENTRYHI));
      var idx := FindEntry(gva, asid);
      var fault: Option<bv64>;
      ghost var ldst := context.loadStore;
      LookupCases(Contents(), asid, gva, ldst);
      if idx < TLB_ENTRIES {
        fault, gpa := Examine(entries[idx], gva, context);
        FlagIsBit(DirtyFor(entries[idx], gva));
        if fault.Some? { FaultIsKnown(entries[idx], gva, ldst, context.loadStore); }
      } else {
        fault, gpa := Some(MissCode(context.loadStore)), 0;
        MissIsKnown(context.loadStore);
      }
      ok := fault == None;
      if fault.Some? {
        gpa := Raise(gva, fault.value, context);
      }
    }

    /** tlbwr with the random number r. Wired values above 32 can send the index past the table; the entry then lands
        outside the TLB, which nothing here describes. */
    method TlbRandom(r: nat) returns (idx: nat)
      requires Valid()
      modifies entries, cp0.reg
      ensures idx == RandomIndex(r, SixBits(old(cp0.Contents())[WIRED].bits))
      ensures Contents()
              == if idx < TLB_ENTRIES then old(Contents())[idx := EntryOf(old(cp0.Contents()))] else old(Contents())
      ensures idx < TLB_ENTRIES ==> MapsAsWritten(Contents(), idx, old(cp0.Contents()))
      ensures cp0.Contents() == Written(old(cp0.Contents()), RANDOM, ((idx % TLB_ENTRIES) as bv6) as bv64)
    {
      hide EntryOf, ReservedBits, MapsAsWritten;
      idx := r % TLB_ENTRIES;
      var wired := SixBits(cp0.Read(WIRED));
      if idx < wired {
        idx := idx + wired;
      }
      if idx < TLB_ENTRIES {
        WrittenMaps(Contents(), idx, cp0.Contents());
        entries[idx] := EntryOf(cp0.reg[..]);
      }
      cp0.Write(((idx % TLB_ENTRIES) as bv6) as bv64, RANDOM);
    }

    /** With Wired 33 and the random number 32 the entry goes to index 65: the tlbwr is lost. */
    method WiredTooHigh() returns (idx: nat)
      requires Valid() && SixBits(cp0.Contents()[WIRED].bits) == 33
      modifies entries, cp0.reg
      ensures idx == 65 && Contents() == old(Contents())
    {
      idx := TlbRandom(32);
    }

    /** tlbwi. Where no other entry matches, the addresses of the pair translate as the registers say. */
    method TlbWriteIndex() returns (idx: nat)
      requires Valid()
      modifies entries
      ensures idx == SixBits(cp0.Contents()[INDEX].bits)
              && Contents() == old(Contents())[idx := EntryOf(cp0.Contents())]
      ensures MapsAsWritten(Contents(), idx, cp0.Contents())
    {
      hide EntryOf, MapsAsWritten;
      idx := SixBits(cp0.Read(INDEX));
      WrittenMaps(Contents(), idx, cp0.Contents());
      entries[idx] := EntryOf(cp0.reg[..]);
    }

    /** tlbr. */
    method TlbRead()
      requires Valid()
      modifies cp0.reg
      ensures cp0.Contents() == ReadBack(old(cp0.Contents()), Contents()[SixBits(old(cp0.Contents())[INDEX].bits)])
    {
      hide ReservedBits;
      var e := entries[SixBits(cp0.Read(INDEX))];
      cp0.Write(e.pagemask, PAGEMASK);
      cp0.Write(HiOf(e), ENTRYHI);
      cp0.Write(e.entryLo0, ENTRYLO0);
      cp0.Write(e.entryLo1, ENTRYLO1);
    }
  }
}
