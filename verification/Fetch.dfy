/** Processor_IPE::fetchNextBlock: from the guest PC to the words that run next. */
module Fetch {
  import opened Words
  import opened Instructions
  import opened Machine
  import opened Mmu
  import opened Cp0
  import opened Exceptions
  import opened AddressCache
  import opened Coherence
  import opened Processor
  import Tlb
  import opened CodeBuffer
  import opened BlockTranslation
  import opened TranslatedCode
  import opened PageFix
  import opened BlockCache
  import Decoder

  /** Code in which getBlock finds an end. */
  predicate HasEnd(code: seq<Word>) {
    exists k :: 0 <= k < |code| - 1 && Decoder.IsControl(Parse(code[k]))
  }

  /** The block at the start of code: up to the first control instruction, and the word after it. */
  predicate IsBlock(b: seq<Ins>, code: seq<Word>) {
    2 <= |b| <= |code| && (forall k :: 0 <= k < |b| ==> b[k] == Parse(code[k]))
    && Decoder.IsControl(b[|b| - 2]) && forall k :: 0 <= k < |b| - 2 ==> !Decoder.IsControl(b[k])
  }

  /** The mode fetchNextBlock cuts blocks in: any but the kernel's, with neither EXL nor ERL set. */
  predicate UserMode(status: bv64) { status & 0x18 != 0 && status & 6 == 0 }

  lemma CodeWellFormed(b: seq<Ins>, code: seq<Word>)
    requires IsBlock(b, code)
    ensures AllWellFormed(b)
  {
    hide Parse, Decoder.IsControl, WellFormed;
    forall k | 0 <= k < |b| ensures WellFormed(b[k]) {
      EncodeParse(code[k]);
    }
  }

  lemma NopWellFormed()
    ensures WellFormed(NOP)
  {
  }

  /** A cut block consists of instructions of the block and a terminator. */
  lemma CutModelled(b: seq<Ins>, t: seq<Ins>, pc: Value, user: bool)
    requires ModelledBlock(b) && AllWellFormed(b) && CutAtPage(b, t, pc, user)
    ensures ModelledBlock(t) && AllWellFormed(t)
  {
    TerminationWord();
    NopWellFormed();
    hide Decoder.Dispatch, Modelled, Advance, SamePage, AtPageStart, WellFormed;
    if t != b {
      var n := |t| - 2;
      assert t == b[..n] + [TERMINATOR, NOP];
      assert t[n] == TERMINATOR && t[n + 1] == NOP;
      assert forall k :: 0 <= k < n ==> t[k] == b[k];
    }
  }

  /** The instructions for the block, as fixBlock leaves them; b is the block of before and end its control
      instruction. */
  method ReadBlock(block: Decoder.InstBlock, code: seq<Word>, pc: bv64, user: bool, next: Word)
    returns (end: Value, ghost b: seq<Ins>)
    requires HasEnd(code) && Aligned4(pc)
    modifies block
    ensures |b| >= 2 && IsBlock(b, code) && end == Advance(Value(pc), |b| - 2)
    ensures CutAtPage(b, block.instructions, Value(pc), user)
  {
    hide Page, WordInPage, Advance, Parse, Decoder.IsControl, CutAtPage;
    ghost var n := block.GetBlock(code);
    b := block.instructions;
    end := Advance(Value(pc), |block.instructions| - 2);
    if user {
      if Page(Value(pc)) != Page(end) {
        FixedIsCut(b, Value(pc), user);
        FixBlock(block, Value(pc), end, next);
        return;
      }
    }
    WholeIsCut(b, Value(pc), user);
  }

  /** getBlock, fixBlock, doBlockTranslation and putInCache. */
  method InstallAt(c: TranslatedBlockCache, block: Decoder.InstBlock, buffer: TranslationBlock, code: seq<Word>,
                   pc: bv64, asid: bv64, user: bool, next: Word)
    returns (words: seq<Word>, end: bv64, ghost t: Translation)
    requires c.Valid() && buffer.Valid() && Aligned4(pc) && HasEnd(code)
    requires forall s :: IsBlock(s, code) ==> ModelledBlock(s)
    modifies c`first, c`second, c`installed, c.cache, block, buffer, buffer.container
    ensures c.Valid() && IsTranslation(pc, t) && t.user == user && IsBlock(t.read, code)
    ensures words == t.words && end == t.end && c.installed == old(c.installed)[BlockId(pc, asid) := t]
  {
    hide SlotOk, ModelledBlock, BlockCode, Encoded, HasEnd, IsBlock, Aligned4, Advance, CutAtPage, AllWellFormed,
      IsTranslation;
    var last: Value;
    ghost var b;
    last, b := ReadBlock(block, code, pc, user, next);
    end := last.bits;
    CodeWellFormed(b, code);
    CutModelled(b, block.instructions, Value(pc), user);
    words, t := c.Install(pc, asid, block.instructions, end, buffer, b, user);
  }

  lemma VectorAligned(pc: bv64, r: Regs)
    requires AtVector(pc, r)
    ensures Aligned4(pc)
  {
  }

  /** The miss path. */
  method TranslateNew(p: Processor, c: TranslatedBlockCache, block: Decoder.InstBlock, buffer: TranslationBlock,
                      pc: bv64, codeAt: int -> seq<Word>, next: Word, mapped: nat, mapped2: nat)
    returns (newPc: bv64, hva: int, words: seq<Word>, end: bv64, ghost t: Translation)
    requires p.Valid() && c.Valid() && buffer.Valid() && Aligned4(pc)
    requires Coherent(p.Abstract(), p.ErlNow()) && EbaseSet(p.cp0.Contents())
    requires Enabled(p.Abstract(), p.ErlNow(), Step.Access(pc, 0, p.AllowedNow(pc), mapped))
    requires forall v :: Unmapped(v) ==> Servable(p.Abstract(), KsegGpa(v), mapped2)
    requires forall a :: HasEnd(codeAt(a))
    requires forall a, s :: IsBlock(s, codeAt(a)) ==> ModelledBlock(s)
    modifies p.addrCache.insCache, p.context, p.cp0.reg, p.gpaMap, c`first, c`second, c`installed, c.cache, block,
        buffer, buffer.container
    ensures p.Valid() && c.Valid()
    ensures newPc == pc || AtVector(newPc, p.cp0.Contents())
    ensures old(Translates(p.Abstract(), p.ErlNow(), p.AllowedNow(pc), pc)) ==> newPc == pc
    ensures InCvmseg(newPc) || IsAt(SlowHva(p.Abstract(), p.ErlNow(), newPc, 0), hva)
    ensures IsTranslation(newPc, t) && words == t.words && end == t.end
    ensures IsBlock(t.read, codeAt(hva)) && t.user == UserMode(p.cp0.Contents()[STATUS].bits)
    ensures c.installed == old(c.installed)[BlockId(newPc, p.asid) := t]
  {
    hide Coherent, Enabled, Apply, SlowHva, IsAt, InCvmseg, Unmapped, Servable, Erl, EbaseSet, HasExl, SlotOk,
      ModelledBlock, BlockCode, Encoded, HasEnd, IsBlock, Mode, Aligned4, Advance, AtVector, SlowGpa,
      WellFormedState, KsegGpa, Tlb.Asid, MayAccess, Tlb.IsBit, Outcome, IsTranslation, UserMode, Recorded, Translates;
    newPc, hva := p.FetchAddress(pc, mapped, mapped2);
    if newPc != pc { VectorAligned(newPc, p.cp0.Contents()); }
    var mode := p.cp0.GetKSU();
    UserModeBits(p.cp0.Contents()[STATUS].bits);
    words, end, t := InstallAt(c, block, buffer, codeAt(hva), newPc, p.asid, mode != 0, next);
  }

  lemma UserModeBits(status: bv64)
    ensures Mode(status) != 0 <==> UserMode(status)
  {
  }

  /** fetchNextBlock. A hit runs the last translation of this PC and ASID. On a miss the PC is translated (or, if that
      faults, the vector of the exception, which never faults), the block found there is read and cut, and exactly its
      code becomes the translation of that PC and ASID. Either way the words are the code of a block right for what was
      read (t.read), and blockEnd, which goes to the slot the code reads it from, is the address of the control
      instruction that was read. codeAt is the guest's code by host address. The constructor's keys match a PC of 0. */
  method FetchNextBlock(p: Processor, c: TranslatedBlockCache, block: Decoder.InstBlock, buffer: TranslationBlock,
                        pc: bv64, codeAt: int -> seq<Word>, next: Word, mapped: nat, mapped2: nat)
    returns (hit: bool, newPc: bv64, hva: int, words: seq<Word>, blockEnd: bv64, ghost t: Translation)
    requires p.Valid() && c.Valid() && buffer.Valid() && Aligned4(pc)
    requires Coherent(p.Abstract(), p.ErlNow()) && EbaseSet(p.cp0.Contents())
    requires Enabled(p.Abstract(), p.ErlNow(), Step.Access(pc, 0, p.AllowedNow(pc), mapped))
    requires forall v :: Unmapped(v) ==> Servable(p.Abstract(), KsegGpa(v), mapped2)
    requires forall a :: HasEnd(codeAt(a))
    requires forall a, s :: IsBlock(s, codeAt(a)) ==> ModelledBlock(s)
    modifies p.addrCache.insCache, p.context, p.cp0.reg, p.gpaMap, c`first, c`second, c`installed, c.cache, block,
        buffer, buffer.container
    ensures p.Valid() && c.Valid()
    ensures hit ==> newPc == pc && c.installed == old(c.installed)
    ensures !(hit && pc == 0) ==>
              BlockId(newPc, p.asid) in c.installed && c.installed[BlockId(newPc, p.asid)] == t
              && IsTranslation(newPc, t) && words == t.words && blockEnd == t.end
    ensures !(hit && pc == 0) ==>
              CutAtPage(t.read, t.block, Value(newPc), t.user)
              && Value(blockEnd) == Advance(Value(newPc), |t.read| - 2)
    ensures !hit ==> newPc == pc || AtVector(newPc, p.cp0.Contents())
    ensures !hit && old(Translates(p.Abstract(), p.ErlNow(), p.AllowedNow(pc), pc)) ==> newPc == pc
    ensures !hit ==> InCvmseg(newPc) || IsAt(SlowHva(p.Abstract(), p.ErlNow(), newPc, 0), hva)
    ensures !hit ==> IsBlock(t.read, codeAt(hva)) && t.user == UserMode(p.cp0.Contents()[STATUS].bits)
                     && c.installed == old(c.installed)[BlockId(newPc, p.asid) := t]
  {
    hide Coherent, Enabled, Apply, SlowHva, IsAt, InCvmseg, Unmapped, Servable, Erl, EbaseSet, HasExl, SlotOk,
      ModelledBlock, BlockCode, Encoded, HasEnd, IsBlock, Mode, Aligned4, Advance, AtVector, IsTranslation, UserMode,
      CutAtPage, Translates;
    var found := c.DoesExist(pc, p.asid);
    if found.Some? {
      hit, newPc, hva, words, blockEnd := true, pc, 0, found.value.words, found.value.blockEndPc;
      if pc != 0 {
        t := c.installed[BlockId(pc, p.asid)];
        TranslationIsCut(pc, t);
      } else {
        t := Translation([], 0, [], false, []);
      }
      return;
    }
    hit := false;
    newPc, hva, words, blockEnd, t := TranslateNew(p, c, block, buffer, pc, codeAt, next, mapped, mapped2);
    TranslationIsCut(newPc, t);
  }

  lemma TranslationIsCut(pc: bv64, t: Translation)
    requires IsTranslation(pc, t)
    ensures CutAtPage(t.read, t.block, Value(pc), t.user) && Value(t.end) == Advance(Value(pc), |t.read| - 2)
  {
  }
}
