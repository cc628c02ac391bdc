/** GPAtoHVATranslator_IPE: guest physical memory as host mappings, in blocks of at most 256 MB. */
module RegionMap {
  import opened Machine

  const BLOCK := 0x1000_0000 // 256 MB, for memory
  const IO_BLOCK := 0x800_0000 // 128 MB, for device registers

  /** Device addresses have 1 in the upper 16 bits. */
  predicate IsIo(gpa: nat) { gpa / 0x1_0000_0000_0000 == 1 }

  function BlockSize(gpa: nat): nat { if IsIo(gpa) then IO_BLOCK else BLOCK }

  /** get_base_and_offset. */
  function Key(gpa: nat): nat { gpa - gpa % BlockSize(gpa) }

  function Offset(gpa: nat): nat { gpa % BlockSize(gpa) }

  datatype Section = Section(start: nat, last: nat)

  /** The board's address sections. Section 42 starts above its end: its start has one digit too many. */
  function SectionAt(i: nat): Section {
    match i
    case 0 => Section(0x0, 0xFFF_FFFF)
    case 1 => Section(0x1000_0000, 0x1FFF_FFFF)
    case 2 => Section(0x2000_0000, 0x3_FFFF_FFFF)
    case 3 => Section(0x4_1000_0000, 0x4_1FFF_FFFF)
    case 4 => Section(0x1_0000_0000_0000, 0x1_0000_FFFF_FFFF)
    case 5 => Section(0x1_0700_0000_0000, 0x1_0700_0010_08FF)
    case 6 => Section(0x1_1800_7000_0000, 0x1_1800_7000_1FFF)
    case 7 => Section(0x1_2800_0000_0000, 0x1_2800_47FF_FFFF)
    case 8 => Section(0x1_1800_0000_0000, 0x1_1800_0000_1FFF)
    case 9 => Section(0x1_1800_0800_0000, 0x1_1800_0800_1FFF)
    case 10 => Section(0x1_1800_2800_0000, 0x1_1800_2800_01FF)
    case 11 => Section(0x1_1800_4000_0000, 0x1_1800_4000_000F)
    case 12 => Section(0x1_1800_5000_0000, 0x1_1800_5000_1FFF)
    case 13 => Section(0x1_1800_5800_0000, 0x1_1800_5800_1FFF)
    case 14 => Section(0x1_1800_6800_0000, 0x1_1800_6800_1FFF)
    case 15 => Section(0x1_1800_8000_0000, 0x1_1800_8000_07FF)
    case 16 => Section(0x1_1800_8800_0000, 0x1_1800_8800_007F)
    case 17 => Section(0x1_1800_A000_0000, 0x1_1800_A000_1FFF)
    case 18 => Section(0x1_1800_B000_0000, 0x1_1800_B000_03FF)
    case 19 => Section(0x1_1800_F000_0000, 0x1_1800_F000_07FF)
    case 20 => Section(0x1_1900_0000_0000, 0x1_190F_FFFF_FFFF)
    case 21 => Section(0x1_1B00_0000_0000, 0x1_1B0F_FFFF_FFFF)
    case 22 => Section(0x1_1C00_0000_0000, 0x1_1C0F_FFFF_FFFF)
    case 23 => Section(0x1_1D00_0000_0000, 0x1_1D0F_FFFF_FFFF)
    case 24 => Section(0x1_1E00_0000_0000, 0x1_1E0F_FFFF_FFFF)
    case 25 => Section(0x1_1A00_0000_0000, 0x1_1A0F_FFFF_FFFF)
    case 26 => Section(0x1_2900_0000_0000, 0x1_290F_FFFF_FFFF)
    case 27 => Section(0x1_2A00_0000_0000, 0x1_2A0F_FFFF_FFFF)
    case 28 => Section(0x1_2B00_0000_0000, 0x1_2B0F_FFFF_FFFF)
    case 29 => Section(0x1_2C00_0000_0000, 0x1_2C0F_FFFF_FFFF)
    case 30 => Section(0x1_2D00_0000_0000, 0x1_2D0F_FFFF_FFFF)
    case 31 => Section(0x1_2E00_0000_0000, 0x1_2E0F_FFFF_FFFF)
    case 32 => Section(0x1_2F00_0000_0000, 0x1_2F0F_FFFF_FFFF)
    case 33 => Section(0x1_4000_0000_0000, 0x1_4000_0000_07FF)
    case 34 => Section(0x1_4F00_0000_0000, 0x1_4F00_0000_07FF)
    case 35 => Section(0x1_5200_0000_0000, 0x1_5200_0003_FFFF)
    case 36 => Section(0x1_6000_0000_0000, 0x1_600F_FFFF_FFFF)
    case 37 => Section(0x1_6100_0000_0000, 0x1_610F_FFFF_FFFF)
    case 38 => Section(0x1_6200_0000_0000, 0x1_6200_0000_FFFF)
    case 39 => Section(0x1_6300_0000_0000, 0x1_630F_FFFF_FFFF)
    case 40 => Section(0x1_6700_0000_0000, 0x1_6700_0000_03FF)
    case 41 => Section(0x1_6F00_0000_0000, 0x1_6F00_0000_0FFF)
    case 42 => Section(0x1F_0000_0000_0000, 0x1_F00F_FFFF_FFFF)
    case 43 => Section(0x1_1F00_0000_0000, 0x1_1F0F_FFFF_FFFF)
    case 44 => Section(0x1_1800_2000_0000, 0x1_1800_2000_1FFF)
    case 45 => Section(0x1_1800_A800_0000, 0x1_1800_A800_1FFF)
    case 46 => Section(0x1_1800_3800_0000, 0x1_1800_3800_1FFF)
    case 47 => Section(0x1_1800_E000_0000, 0x1_1800_E000_1FFF)
    case 48 => Section(0x1_1800_B800_0000, 0x1_1800_B800_1FFF)
    case 49 => Section(0x1_6F00_1000_0000, 0x1_6F00_1000_1FFF)
    case 50 => Section(0x1_1800_1000_0000, 0x1_1800_1000_1FFF)
    case _ => Section(1, 0) // past the table
  }

  const ADDRESS_SECTIONS := 51

  const DR0 := 0
  const BOOT := 1
  const DR2 := 2
  const DR1 := 3
  const FIRST_IO := 4

  function Min(a: nat, b: nat): nat { if a < b then a else b }

  datatype Region = Region(hva: nat, size: nat)

  type Regions = map<nat, Region>

  // ---- lookup

  predicate Inside(s: Section, gpa: nat) { s.start <= gpa <= s.last }

  /** The first device section from i on that holds an address. */
  function FindFrom(gpa: nat, i: nat): (r: Option<nat>)
    ensures r.Some? ==> i <= r.value < ADDRESS_SECTIONS && Inside(SectionAt(r.value), gpa)
    decreases ADDRESS_SECTIONS - i
  {
    if i >= ADDRESS_SECTIONS then None
    else if Inside(SectionAt(i), gpa) then Some(i)
    else FindFrom(gpa, i + 1)
  }

  /** The host address of a guest address whose block is mapped. */
  function Hva(regions: Regions, gpa: nat): Option<nat> {
    if Key(gpa) in regions then Some(regions[Key(gpa)].hva + Offset(gpa)) else None
  }

  predicate Backed(regions: Regions, gpa: nat) {
    Key(gpa) in regions && Offset(gpa) < regions[Key(gpa)].size
  }

  /** No host address belongs to two mappings, and none is 0. */
  predicate Disjoint(regions: Regions) {
    && (forall k <- regions :: regions[k].hva > 0)
    && (forall j <- regions, k <- regions :: j != k ==> Apart(regions[j], regions[k]))
  }

  predicate Apart(r: Region, s: Region) { r.hva + r.size <= s.hva || s.hva + s.size <= r.hva }

  /** The block of an address starts in a device section. */
  predicate Listed(gpa: nat) { FindFrom(Key(gpa), FIRST_IO).Some? }

  function SectionOf(gpa: nat): Section
    requires Listed(gpa)
  {
    SectionAt(FindFrom(Key(gpa), FIRST_IO).value)
  }

  /** What the operating system promises of a new mapping. */
  predicate FreshMapping(regions: Regions, hva: nat, size: nat) {
    hva > 0 && forall k <- regions :: Apart(regions[k], Region(hva, size))
  }

  /** The size add_IO_Region asks for. */
  function IoSize(s: Section): nat {
    if s.last < s.start then 0 else Min(s.last - s.start + 1, IO_BLOCK)
  }

  /** The map after a lookup. */
  function Extended(regions: Regions, gpa: nat, mapped: nat): Regions
    requires Key(gpa) !in regions ==> Listed(gpa)
  {
    if Key(gpa) in regions then regions else regions[Key(gpa) := Region(mapped, IoSize(SectionOf(gpa)))]
  }

  lemma FreshDisjoint(regions: Regions, gpa: nat, mapped: nat)
    requires Disjoint(regions)
    requires Key(gpa) !in regions ==> Listed(gpa) && FreshMapping(regions, mapped, IoSize(SectionOf(gpa)))
    ensures Disjoint(Extended(regions, gpa, mapped))
  {
    hide Key, Listed, SectionOf, IoSize;
  }

  class GpaMap {
    var regions: Regions

    constructor ()
      ensures regions == map[]
    {
      regions := map[];
    }

    method FindIndex(gpa: nat) returns (idx: Option<nat>)
      ensures idx == FindFrom(gpa, FIRST_IO)
    {
      hide SectionAt;
      var i := FIRST_IO;
      while i < ADDRESS_SECTIONS
        invariant FIRST_IO <= i <= ADDRESS_SECTIONS && FindFrom(gpa, i) == FindFrom(gpa, FIRST_IO)
      {
        if Inside(SectionAt(i), gpa) {
          return Some(i);
        }
        i := i + 1;
      }
      idx := None;
    }

    /** On-demand mapping of a device block; mapped is the address the operating system gives. */
    method AddIoRegion(key: nat, idx: nat, mapped: nat) returns (hva: nat)
      requires idx < ADDRESS_SECTIONS && Inside(SectionAt(idx), key)
      modifies this
      ensures regions == old(regions)[key := Region(mapped, IoSize(SectionAt(idx)))] && hva == mapped
    {
      var size := SectionAt(idx).last - SectionAt(idx).start + 1;
      if size > IO_BLOCK {
        size := IO_BLOCK;
      }
      regions := regions[key := Region(mapped, size)];
      hva := mapped;
    }

    /** GPA_to_HVA. For an unmapped block outside every device section the search runs off its end without a result, and
        what follows is undefined: None. */
    method GpaToHva(gpa: nat, mapped: nat) returns (hva: Option<nat>)
      requires Disjoint(regions)
      requires Key(gpa) !in regions && Listed(gpa) ==> FreshMapping(regions, mapped, IoSize(SectionOf(gpa)))
      modifies this
      ensures hva.Some? <==> Key(gpa) in old(regions) || Listed(gpa)
      ensures hva.Some? ==> regions == Extended(old(regions), gpa, mapped) && Hva(regions, gpa) == hva
      ensures hva == None ==> regions == old(regions)
      ensures Disjoint(regions)
    {
      hide Key, Offset, FindFrom;
      var key, offset := Key(gpa), Offset(gpa);
      var base := if key in regions then regions[key].hva else 0;
      if base == 0 {
        var idx := FindIndex(key);
        if idx == None {
          return None;
        }
        FreshDisjoint(regions, gpa, mapped);
        base := AddIoRegion(key, idx.value, mapped);
      }
      hva := Some(base + offset);
    }
  }

  // ---- stability and injectivity

  datatype LookupStep = LookupStep(gpa: nat, mapped: nat)

  /** A run of lookups the board and the operating system can serve. */
  predicate Serves(regions: Regions, steps: seq<LookupStep>)
    decreases |steps|
  {
    steps == []
    || (var l := steps[0];
        (Key(l.gpa) !in regions ==> Listed(l.gpa) && FreshMapping(regions, l.mapped, IoSize(SectionOf(l.gpa))))
        && Serves(Extended(regions, l.gpa, l.mapped), steps[1..]))
  }

  function AfterAll(regions: Regions, steps: seq<LookupStep>): Regions
    requires Serves(regions, steps)
    decreases |steps|
  {
    if steps == [] then regions else AfterAll(Extended(regions, steps[0].gpa, steps[0].mapped), steps[1..])
  }

  /** Over any run of lookups, an address keeps the host address it was once given, and mappings stay disjoint. */
  lemma {:induction false} HvaStable(regions: Regions, steps: seq<LookupStep>, gpa: nat)
    requires Disjoint(regions) && Serves(regions, steps)
    ensures Disjoint(AfterAll(regions, steps))
    ensures Hva(regions, gpa).Some? ==> Hva(AfterAll(regions, steps), gpa) == Hva(regions, gpa)
    decreases |steps|
  {
    hide Key, Offset, Listed, SectionOf, IoSize;
    if steps != [] {
      FreshDisjoint(regions, steps[0].gpa, steps[0].mapped);
      HvaStable(Extended(regions, steps[0].gpa, steps[0].mapped), steps[1..], gpa);
    }
  }

  lemma KeyAndOffset(gpa: nat)
    ensures gpa == Key(gpa) + Offset(gpa) && Key(Key(gpa)) == Key(gpa) && Offset(Key(gpa)) == 0
  {
    var b := BlockSize(gpa);
    assert IsIo(gpa) ==> gpa >= 0x1_0000_0000_0000;
    assert Key(gpa) == gpa / b * b;
    SameKind(gpa, b);
  }

  lemma SameKind(gpa: nat, b: nat)
    requires b == BlockSize(gpa)
    ensures IsIo(gpa / b * b) == IsIo(gpa)
  {
    var q, r := gpa / 0x1_0000_0000_0000, gpa % 0x1_0000_0000_0000;
    assert gpa == q * 0x1_0000_0000_0000 + r;
  }

  /** Two different backed addresses never share a host address. */
  lemma HvaInjective(regions: Regions, gpa: nat, gpa2: nat)
    requires Disjoint(regions) && Backed(regions, gpa) && Backed(regions, gpa2) && gpa != gpa2
    ensures Hva(regions, gpa) != Hva(regions, gpa2)
  {
    hide Key, Offset;
    KeyAndOffset(gpa);
    KeyAndOffset(gpa2);
  }

  /** All of a 4 KB page lies in one block, at the same distances. */
  lemma HvaLinear(regions: Regions, page: nat, offset: nat)
    requires page % 0x1000 == 0 && offset < 0x1000
    ensures Key(page + offset) == Key(page) && Offset(page + offset) == Offset(page) + offset
    ensures Hva(regions, page + offset)
            == match Hva(regions, page) case Some(h) => Some(h + offset) case None => None
  {
    PageInBlocks(page / 0x1000, offset);
  }

  // 4 KB pages do not straddle a multiple of any of the three block sizes.
  lemma PageInBlocks(p: nat, offset: nat)
    requires offset < 0x1000
    ensures (p * 0x1000 + offset) / 0x1_0000_0000_0000 == p * 0x1000 / 0x1_0000_0000_0000
    ensures (p * 0x1000 + offset) % BLOCK == p * 0x1000 % BLOCK + offset
    ensures (p * 0x1000 + offset) % IO_BLOCK == p * 0x1000 % IO_BLOCK + offset
  {
    PageInRegion(p, offset);
    PageInBlock(p, offset);
    PageInIoBlock(p, offset);
  }

  lemma PageInRegion(p: nat, offset: nat)
    requires offset < 0x1000
    ensures (p * 0x1000 + offset) / 0x1_0000_0000_0000 == p * 0x1000 / 0x1_0000_0000_0000
  {
    var q, r := p / 0x10_0000_0000, p % 0x10_0000_0000;
    assert p * 0x1000 == q * 0x1_0000_0000_0000 + r * 0x1000 && r * 0x1000 + offset < 0x1_0000_0000_0000;
    assert p * 0x1000 / 0x1_0000_0000_0000 == q;
  }

  lemma PageInBlock(p: nat, offset: nat)
    requires offset < 0x1000
    ensures (p * 0x1000 + offset) % BLOCK == p * 0x1000 % BLOCK + offset
  {
    var q, r := p / 0x1_0000, p % 0x1_0000;
    assert p * 0x1000 == q * BLOCK + r * 0x1000 && r * 0x1000 + offset < BLOCK;
  }

  lemma PageInIoBlock(p: nat, offset: nat)
    requires offset < 0x1000
    ensures (p * 0x1000 + offset) % IO_BLOCK == p * 0x1000 % IO_BLOCK + offset
  {
    var q, r := p / 0x8000, p % 0x8000;
    assert p * 0x1000 == q * IO_BLOCK + r * 0x1000 && r * 0x1000 + offset < IO_BLOCK;
  }

  // ---- device sections

  /** Device sections start on 128 MB boundaries, and the larger ones are a whole number of 128 MB blocks. */
  predicate WellPlaced(s: Section) {
    s.start <= s.last ==>
      s.start % IO_BLOCK == 0 && IsIo(s.start) && IsIo(s.last)
          && (s.last - s.start + 1 <= IO_BLOCK || (s.last + 1) % IO_BLOCK == 0)
  }

  lemma SectionsWellPlaced()
    ensures forall i :: FIRST_IO <= i < ADDRESS_SECTIONS ==> WellPlaced(SectionAt(i))
  {
  }

  /** Every address of a device section is backed once its block is mapped. */
  lemma InSection(s: Section, gpa: nat)
    requires WellPlaced(s) && Inside(s, gpa)
    ensures IsIo(gpa) && s.start <= Key(gpa) <= s.last && Offset(gpa) < IoSize(s)
  {
    assert 0x1_0000_0000_0000 <= gpa < 0x2_0000_0000_0000;
    assert IsIo(gpa) && BlockSize(gpa) == IO_BLOCK;
    assert s.start == s.start / IO_BLOCK * IO_BLOCK;
    AlignedBelow(s.start / IO_BLOCK, gpa);
  }

  lemma AlignedBelow(q: nat, gpa: nat)
    requires q * IO_BLOCK <= gpa
    ensures q * IO_BLOCK <= gpa - gpa % IO_BLOCK
    ensures gpa < q * IO_BLOCK + IO_BLOCK ==> gpa % IO_BLOCK == gpa - q * IO_BLOCK
  {
  }

  lemma {:induction false} FindFirst(key: nat, i: nat, j: nat)
    requires i <= j < ADDRESS_SECTIONS && Inside(SectionAt(j), key)
    ensures FindFrom(key, i).Some? && FindFrom(key, i).value <= j
    decreases j - i
  {
    hide SectionAt;
    if !Inside(SectionAt(i), key) {
      FindFirst(key, i + 1, j);
    }
  }

  /** A lookup anywhere inside a device section finds a section, and the mapping it makes backs the address if that
      section holds it. */
  lemma ListedBacked(regions: Regions, gpa: nat, mapped: nat, i: nat)
    requires FIRST_IO <= i < ADDRESS_SECTIONS && Inside(SectionAt(i), gpa) && Key(gpa) !in regions
    ensures Listed(gpa) && (Inside(SectionOf(gpa), gpa) ==> Backed(Extended(regions, gpa, mapped), gpa))
  {
    SectionsWellPlaced();
    InSection(SectionAt(i), gpa);
    FindFirst(Key(gpa), FIRST_IO, i);
    var s := SectionAt(FindFrom(Key(gpa), FIRST_IO).value);
    if Inside(s, gpa) {
      InSection(s, gpa);
    }
  }
}
