/** AddrTranslationCache: the direct-mapped page cache that short-cuts the MMU, the TLB and the region map. */
module AddressCache {
  import opened Words
  import opened Machine
  import opened Mmu

  const CACHE_SIZE := 128

  /** Host addresses are unbounded numbers here. */
  datatype CacheEntry = CacheEntry(gva: bv64, hva: int, prot: bv64)

  const CLEARED := CacheEntry(1, 0, 0)

  function PageNumber(addr: bv64): bv52 { (addr >> 12) as bv52 }

  function PageInt(addr: bv64): nat { PageNumber(addr) as int }

  function OffsetNumber(x: bv12): (n: nat)
    ensures n < 0x1000
  {
    x as int
  }

  function LowTwelve(addr: bv64): bv12 { InPage(addr) as bv12 }

  function PageOffset(addr: bv64): (n: nat)
    ensures n < 0x1000
  {
    OffsetNumber(LowTwelve(addr))
  }

  /** A guest address as a number. */
  function ToNat(addr: bv64): nat { PageInt(addr) * 0x1000 + PageOffset(addr) }

  function CacheIndex(gva: bv64): (n: nat)
    ensures n < CACHE_SIZE
  {
    (((gva >> 12) & 0x7F) as bv7) as int
  }

  /** A read-only page (0) forbids stores (1). */
  predicate Forbids(prot: bv64, ldst: bv64) { prot < ldst }

  predicate IsHit(cache: seq<CacheEntry>, gva: bv64, ldst: bv64)
    requires |cache| == CACHE_SIZE
  {
    var e := cache[CacheIndex(PageOf(gva))];
    e.gva == PageOf(gva) && !Forbids(e.prot, ldst)
  }

  function HitHva(cache: seq<CacheEntry>, gva: bv64): int
    requires |cache| == CACHE_SIZE
  {
    cache[CacheIndex(PageOf(gva))].hva + PageOffset(gva)
  }

  /** The entry a successful translation leaves behind. */
  function Updated(cache: seq<CacheEntry>, gva: bv64, hva: int, prot: bv64): seq<CacheEntry>
    requires |cache| == CACHE_SIZE
  {
    cache[CacheIndex(PageOf(gva)) := CacheEntry(PageOf(gva), hva - PageOffset(gva), prot)]
  }

  predicate AllCleared(cache: seq<CacheEntry>) {
    |cache| == CACHE_SIZE && forall i :: 0 <= i < CACHE_SIZE ==> cache[i] == CLEARED
  }

  class AddrTranslationCache {
    const insCache: array<CacheEntry>

    /** The entries are whatever the memory held before: the program clears the cache only at the first TLB write or
        address-space change. */
    constructor (memory: seq<CacheEntry>)
      requires |memory| == CACHE_SIZE
      ensures Valid() && fresh(insCache) && insCache[..] == memory
    {
      insCache := new CacheEntry[CACHE_SIZE](i requires 0 <= i < CACHE_SIZE => memory[i]);
    }

    ghost predicate Valid() { insCache.Length == CACHE_SIZE }

    ghost function Contents(): (s: seq<CacheEntry>)
      reads insCache
      requires Valid()
      ensures |s| == CACHE_SIZE
    {
      insCache[..]
    }

    method CheckCache(gva: bv64, ldst: bv64) returns (hit: bool, hva: int)
      requires Valid()
      ensures hit == IsHit(Contents(), gva, ldst) && hva == HitHva(Contents(), gva)
    {
      hide PageOf, CacheIndex, PageOffset, Forbids;
      var index := CacheIndex(PageOf(gva));
      hva := insCache[index].hva + PageOffset(gva);
      hit := !(insCache[index].gva != PageOf(gva) || Forbids(insCache[index].prot, ldst));
    }

    method UpdateCache(gva: bv64, hva: int, prot: bv64)
      requires Valid()
      modifies insCache
      ensures Contents() == Updated(old(Contents()), gva, hva, prot)
    {
      hide PageOf, CacheIndex, PageOffset;
      insCache[CacheIndex(PageOf(gva))] := CacheEntry(PageOf(gva), hva - PageOffset(gva), prot);
    }

    method ClearCache()
      requires Valid()
      modifies insCache
      ensures AllCleared(Contents())
    {
      for i := 0 to CACHE_SIZE
        invariant forall j :: 0 <= j < i ==> insCache[j] == CLEARED
      {
        insCache[i] := CLEARED;
      }
    }
  }

  // ---- addresses as numbers

  lemma OffsetAdds(base: bv64, offset: bv64)
    requires InPage(base) == 0 && offset & 0xFFF == offset
    ensures PageNumber(Add(base, offset)) == PageNumber(base) && InPage(Add(base, offset)) == offset
  {
  }

  /** Adding a page offset to a page start adds the number. */
  lemma ToNatAdds(base: bv64, gva: bv64)
    requires InPage(base) == 0
    ensures ToNat(Add(base, InPage(gva))) == ToNat(base) + PageOffset(gva) && ToNat(base) % 0x1000 == 0
  {
    InPageTwice(gva);
    OffsetAdds(base, InPage(gva));
    ZeroOffset(base);
    hide PageNumber, InPage, Add, LowTwelve, OffsetNumber;
    var sum := Add(base, InPage(gva));
    assert PageInt(sum) == PageInt(base);
    assert PageOffset(sum) == PageOffset(gva) by { SameLow(sum, gva); }
    hide PageInt, PageOffset;
  }

  lemma PageNumberRound(x: bv52)
    ensures (x as int) as bv52 == x
  {
  }

  lemma PageNumberAt(x: bv52, y: bv52)
    requires x as int == y as int
    ensures x == y
  {
    PageNumberRound(x);
    PageNumberRound(y);
  }

  lemma OffsetNumberRound(x: bv12)
    ensures (OffsetNumber(x) as bv12) == x
  {
  }

  lemma AddressParts(x: bv64, y: bv64)
    requires PageNumber(x) == PageNumber(y) && LowTwelve(x) == LowTwelve(y)
    ensures x == y
  {
  }

  lemma SplitUnique(a: int, m: int, b: int, n: int)
    requires 0 <= m < 0x1000 && 0 <= n < 0x1000 && a * 0x1000 + m == b * 0x1000 + n
    ensures a == b && m == n
  {
  }

  lemma SamePageInt(x: bv64, y: bv64)
    requires PageInt(x) == PageInt(y)
    ensures PageNumber(x) == PageNumber(y)
  {
    hide PageNumber;
    PageNumberAt(PageNumber(x), PageNumber(y));
  }

  lemma SameOffset(x: bv64, y: bv64)
    requires PageOffset(x) == PageOffset(y)
    ensures LowTwelve(x) == LowTwelve(y)
  {
    hide LowTwelve, OffsetNumber;
    OffsetNumberRound(LowTwelve(x));
    OffsetNumberRound(LowTwelve(y));
  }

  /** Different addresses are different numbers. */
  lemma ToNatInjective(x: bv64, y: bv64)
    requires ToNat(x) == ToNat(y)
    ensures x == y
  {
    SplitUnique(PageInt(x), PageOffset(x), PageInt(y), PageOffset(y));
    hide ToNat;
    SamePageInt(x, y);
    SameOffset(x, y);
    hide PageNumber, LowTwelve;
    AddressParts(x, y);
  }

  lemma SameLow(x: bv64, y: bv64)
    requires InPage(x) == InPage(y)
    ensures PageOffset(x) == PageOffset(y)
  {
  }

  lemma InPageTwice(gva: bv64)
    ensures InPage(gva) & 0xFFF == InPage(gva)
  {
  }

  lemma ZeroOffset(base: bv64)
    requires InPage(base) == 0
    ensures PageOffset(base) == 0
  {
  }
}
