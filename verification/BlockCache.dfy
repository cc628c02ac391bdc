/** TranslatedBlockCache_IPE: translated blocks by PC and ASID, in 128 by 64 slots. */
module BlockCache {
  import opened Words
  import opened Instructions
  import opened Machine
  import opened CodeBuffer
  import opened BlockTranslation
  import opened PageFix
  import opened TranslatedCode
  import opened Translator
  import opened HostMachine
  import opened GuestMachine
  import opened Simulation
  import Decoder

  const FIRST := 128
  const SECOND := 64

  function FirstBits(key: bv64): bv7 { ((key >> 2) & 0x7F) as bv7 }

  function SecondBits(key: bv64): bv6 { ((key >> 9) & 0x3F) as bv6 }

  function Number7(x: bv7): (n: nat)
    ensures n < FIRST
  {
    x as int
  }

  function Number6(x: bv6): (n: nat)
    ensures n < SECOND
  {
    x as int
  }

  function FirstIndex(key: bv64): (n: nat)
    ensures n < FIRST
  {
    Number7(FirstBits(key))
  }

  function SecondIndex(key: bv64): (n: nat)
    ensures n < SECOND
  {
    Number6(SecondBits(key))
  }

  /** A slot; words is what its container holds. */
  datatype CacheVal = CacheVal(key: bv64, blockEndPc: bv64, words: seq<Word>, asid: bv64)

  function RowBits(i: nat): bv7 { if i < FIRST then i as bv7 else 0 }

  /** The key the constructor leaves in row i. */
  function InitialKey(i: nat): bv64 { RowBits(i) as bv64 }

  datatype BlockId = BlockId(pc: bv64, asid: bv64)

  /** The translation of a block: its words and the address of its control instruction; and what it was made from, the
      block as it was read, the mode, and the block as it was cut. */
  datatype Translation = Translation(words: seq<Word>, end: bv64, read: seq<Ins>, user: bool, block: seq<Ins>)

  /** The words are exactly the code of the block, the block is right for what was read at pc, and end is the address
      of the control instruction that was read. */
  ghost predicate IsTranslation(pc: bv64, t: Translation) {
    CutAtPage(t.read, t.block, Value(pc), t.user) && Value(t.end) == Advance(Value(pc), |t.read| - 2)
    && ModelledBlock(t.block) && AllWellFormed(t.block) && t.words == Encoded(BlockCode(t.block, Value(t.end)))
  }

  ghost predicate AllTranslations(installed: map<BlockId, Translation>) {
    forall id <- installed :: IsTranslation(id.pc, installed[id])
  }

  class TranslatedBlockCache {
    const cache: array2<CacheVal>
    var first: nat // currentIndex
    var second: nat
    /** For every block ever installed, its last translation. */
    ghost var installed: map<BlockId, Translation>

    ghost predicate Shape()
      reads this
    {
      cache.Length0 == FIRST && cache.Length1 == SECOND && first < FIRST && second < SECOND
    }

    ghost predicate Valid()
      reads this, cache
    {
      Shape() && AllTranslations(installed)
      && forall i, j :: 0 <= i < FIRST && 0 <= j < SECOND ==> SlotOk(cache[i, j], i, j, installed)
    }

    /** Valid except for the current slot, whose container is being refilled. */
    ghost predicate ValidElsewhere()
      reads this, cache
    {
      Shape() && AllTranslations(installed)
      && forall i, j :: 0 <= i < FIRST && 0 <= j < SECOND && (i != first || j != second) ==>
           SlotOk(cache[i, j], i, j, installed)
    }

    /** junk: the fields the constructor does not set. */
    constructor (junk: CacheVal)
      ensures Valid() && installed == map[]
    {
      cache := new CacheVal[FIRST, SECOND];
      first, second, installed := 0, 0, map[];
      new;
      for i := 0 to FIRST
        invariant cache.Length0 == FIRST && cache.Length1 == SECOND && first == second == 0 && installed == map[]
        invariant fresh(cache)
        invariant forall k, l :: 0 <= k < i && 0 <= l < SECOND ==> SlotOk(cache[k, l], k, l, installed)
      {
        for j := 0 to SECOND
          invariant cache.Length0 == FIRST && cache.Length1 == SECOND && first == second == 0 && installed == map[]
          invariant forall k, l :: 0 <= k < i && 0 <= l < SECOND ==> SlotOk(cache[k, l], k, l, installed)
          invariant forall l :: 0 <= l < j ==> SlotOk(cache[i, l], i, l, installed)
        {
          cache[i, j] := junk.(key := InitialKey(i), blockEndPc := 0, words := []);
        }
      }
    }

    method UpdateIndex(key: bv64)
      requires Valid()
      modifies this`first, this`second
      ensures Valid() && first == FirstIndex(key) && second == SecondIndex(key)
    {
      hide SlotOk, AllTranslations;
      first := FirstIndex(key);
      second := SecondIndex(key);
    }

    /** A hit for a non-zero PC is the last translation installed for this PC and ASID, with its block end. */
    method DoesExist(key: bv64, asid: bv64) returns (found: Option<CacheVal>)
      requires Valid()
      modifies this`first, this`second
      ensures Valid() && installed == old(installed)
      ensures found.Some? && key != 0 ==>
                BlockId(key, asid) in installed && found.value.words == installed[BlockId(key, asid)].words
                && found.value.blockEndPc == installed[BlockId(key, asid)].end
    {
      UpdateIndex(key);
      found := Some(cache[first, second]);
      if found.value.key != key || found.value.asid != asid {
        found := None;
      } else if key != 0 {
        InitialMisses(key);
      }
    }

    /** The slot's container, emptied for a new translation. */
    method GetContainer(gva: bv64)
      requires Valid()
      modifies this`first, this`second, cache
      ensures ValidElsewhere() && installed == old(installed)
      ensures first == FirstIndex(gva) && second == SecondIndex(gva) && cache[first, second].words == []
    {
      hide SlotOk, AllTranslations;
      UpdateIndex(gva);
      var slot := cache[first, second];
      cache[first, second] := slot.(words := []);
    }

    /** Names the block whose words were written to the current slot; t is what they translate. */
    method PutInCache(key: bv64, endPc: bv64, asid: bv64, ghost t: Translation)
      requires ValidElsewhere() && first == FirstIndex(key) && second == SecondIndex(key)
      requires IsTranslation(key, t) && t.words == cache[first, second].words && t.end == endPc
      modifies this`installed, cache
      ensures Valid() && installed == old(installed)[BlockId(key, asid) := t]
      ensures cache[first, second] == CacheVal(key, endPc, old(cache[first, second]).words, asid)
    {
      hide IsTranslation;
      var words := cache[first, second].words;
      cache[first, second] := CacheVal(key, endPc, words, asid);
      installed := installed[BlockId(key, asid) := t];
    }

    /** The miss path of fetchNextBlock from getContainer on: the block is translated into the container of its slot, of
        which buffer is the working copy, and installed. read is the block before it was cut. */
    method Install(pc: bv64, asid: bv64, block: seq<Ins>, blockEnd: bv64, buffer: TranslationBlock,
                   ghost read: seq<Ins>, ghost user: bool)
      returns (words: seq<Word>, ghost t: Translation)
      requires Valid() && buffer.Valid() && ModelledBlock(block) && AllWellFormed(block)
      requires CutAtPage(read, block, Value(pc), user) && Value(blockEnd) == Advance(Value(pc), |read| - 2)
      modifies this`first, this`second, this`installed, cache, buffer, buffer.container
      ensures Valid() && buffer.Valid() && (buffer.container == old(buffer.container) || fresh(buffer.container))
      ensures t == Translation(words, blockEnd, read, user, block) && IsTranslation(pc, t)
      ensures installed == old(installed)[BlockId(pc, asid) := t]
    {
      hide SlotOk, AllTranslations, ModelledBlock, AllWellFormed, BlockCode, Encoded, CutAtPage, Advance;
      GetContainer(pc);
      buffer.Clear();
      DoBlockTranslation(buffer, block, Value(blockEnd));
      assert [] + Encoded(BlockCode(block, Value(blockEnd))) == Encoded(BlockCode(block, Value(blockEnd)));
      var slot := cache[first, second];
      cache[first, second] := slot.(words := buffer.container[..buffer.currentSize]);
      words := cache[first, second].words;
      t := Translation(words, blockEnd, read, user, block);
      PutInCache(pc, blockEnd, asid, t);
    }
  }

  /** What slot i, j holds: the constructor's key, or a block as it was last installed. */
  ghost predicate SlotOk(v: CacheVal, i: nat, j: nat, installed: map<BlockId, Translation>) {
    v.key == InitialKey(i)
    || (FirstIndex(v.key) == i && SecondIndex(v.key) == j
        && BlockId(v.key, v.asid) in installed && v.words == installed[BlockId(v.key, v.asid)].words
        && v.blockEndPc == installed[BlockId(v.key, v.asid)].end)
  }

  /** The constructor's keys never match a non-zero PC of their row. */
  lemma InitialMisses(key: bv64)
    requires key != 0
    ensures InitialKey(FirstIndex(key)) != key
  {
    RoundTrip(FirstBits(key));
    InitialBits(key);
    hide FirstBits;
  }

  lemma RoundTrip(x: bv7)
    ensures InitialKey(Number7(x)) == x as bv64
  {
    RowRoundTrip(x);
    hide RowBits;
  }

  lemma RowRoundTrip(x: bv7)
    ensures RowBits(x as int) == x
  {
    assert (x as int) as bv7 == x;
  }

  lemma InitialBits(key: bv64)
    requires key != 0
    ensures FirstBits(key) as bv64 != key
  {
  }

  /** Two word-aligned PCs share a slot exactly when they agree modulo 2^15. */
  lemma SlotShared(pc: bv64, pc2: bv64)
    requires pc & 3 == 0 && pc2 & 3 == 0
    ensures FirstIndex(pc) == FirstIndex(pc2) && SecondIndex(pc) == SecondIndex(pc2) <==> pc & 0x7FFF == pc2 & 0x7FFF
  {
    Distinct7(FirstBits(pc), FirstBits(pc2));
    Distinct6(SecondBits(pc), SecondBits(pc2));
    SharedBits(pc, pc2);
    ApartBits(pc, pc2);
    hide FirstBits, SecondBits;
  }

  lemma Distinct7(x: bv7, y: bv7)
    ensures Number7(x) == Number7(y) <==> x == y
  {
  }

  lemma Distinct6(x: bv6, y: bv6)
    ensures Number6(x) == Number6(y) <==> x == y
  {
  }

  lemma SharedBits(pc: bv64, pc2: bv64)
    ensures pc & 0x7FFF == pc2 & 0x7FFF ==> FirstBits(pc) == FirstBits(pc2) && SecondBits(pc) == SecondBits(pc2)
  {
  }

  lemma ApartBits(pc: bv64, pc2: bv64)
    requires pc & 3 == 0 && pc2 & 3 == 0
    ensures FirstBits(pc) == FirstBits(pc2) && SecondBits(pc) == SecondBits(pc2) ==> pc & 0x7FFF == pc2 & 0x7FFF
  {
  }

  /** What the words of a hit or a miss do with the block end of that hit or miss in its slot: where the code of the
      block that was read is exact, they do what the guest does up to the cut, and leave there. */
  lemma InstalledRuns(isa: Isa, env: Env, pc: bv64, t: Translation, g: Guest, h: Host) returns (h1: Host)
    requires IsTranslation(pc, t) && g.pc == Value(pc) && Aligned(g.pc)
    requires SupportedBlock(t.read, g.pc) && BlockExact(isa, env, t.read, g) && Rel(isa, Value(t.end), g, h)
    ensures LeavesAs(isa, env, Value(t.end), RunBlock(isa, env, t.block, g), Parsed(t.words), h, h1)
    ensures t.block != t.read ==>
              t.user && 2 < |t.block| <= |t.read|
              && SameThroughCut(isa, env, t.read, |t.block| - 2, g, RunPrefix(isa, env, t.read, |t.block| - 2, g))
  {
    hide SupportedBlock, ModelledBlock, BlockExact, Rel, RunBlock, LeavesAs, BlockCode, Encoded, AllWellFormed, Advance,
      SamePage, AtPageStart, Decoder.Dispatch, SameThroughCut, ExactThroughCut, RunPrefix, Parsed;
    TerminationWord();
    if t.block != t.read {
      var n := |t.block| - 2;
      assert t.block == Fixed(t.read, n);
      FixedEnd(t.read, n);
      CutSupported(t.read, n, g.pc);
      CutRuns(isa, env, t.read, n, g);
      CutExact(isa, env, t.read, n, g);
      CutIsExact(isa, env, t.read, n, g);
    }
    h1 := TranslatedBlockRuns(isa, env, t.block, Value(t.end), t.words, g, h);
  }

  lemma CutIsExact(isa: Isa, env: Env, b: seq<Ins>, v: nat, g: Guest)
    requires v <= |b| - 2 && ExactThroughCut(isa, env, b, v, g, RunPrefix(isa, env, b, v, g))
    ensures BlockExact(isa, env, Fixed(b, v), g)
  {
    hide BlockExact, RunPrefix;
  }
}
