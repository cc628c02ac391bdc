/** alloc_DRAM: the guest's memory, 256 MB at a time, around the boot bus. */
module Dram {
  import opened Machine
  import opened RegionMap

  datatype Chunk = Chunk(key: nat, size: nat)

  function Start(i: nat): nat
    requires i < FIRST_IO
  {
    SectionAt(i).start
  }

  function Room(i: nat): nat
    requires i < FIRST_IO && SectionAt(i).start <= SectionAt(i).last
  {
    SectionAt(i).last + 1 - SectionAt(i).start
  }

  lemma SectionValues()
    ensures Start(DR0) == 0 && Start(BOOT) == BLOCK && Start(DR2) == 2 * BLOCK && Start(DR1) == 65 * BLOCK
    ensures forall i :: 0 <= i < FIRST_IO ==> SectionAt(i).start <= SectionAt(i).last
    ensures Room(DR0) == BLOCK && Room(BOOT) == BLOCK && Room(DR1) == BLOCK
  {
  }

  /** DR2 from an offset on: full blocks and a rest. */
  function Dr2Plan(offset: nat, ram: nat): seq<Chunk>
    decreases ram
  {
    if ram == 0 then []
    else [Chunk(Start(DR2) + offset, Min(BLOCK, ram))] + Dr2Plan(offset + Min(BLOCK, ram), ram - Min(BLOCK, ram))
  }

  function Dr0Size(ram: nat): nat { Min(Room(DR0), ram) }

  function Dr1Size(ram: nat): nat { Min(Room(DR1), ram - Dr0Size(ram)) }

  function Dr2Size(ram: nat): nat { ram - Dr0Size(ram) - Dr1Size(ram) }

  /** Every mapping for ram bytes of guest memory, in order; the first is the boot bus. */
  function Plan(ram: nat): seq<Chunk> {
    [Chunk(Start(BOOT), Room(BOOT)), Chunk(Start(DR0), Dr0Size(ram)), Chunk(Start(DR1), Dr1Size(ram))]
        + Dr2Plan(0, Dr2Size(ram))
  }

  /** The map after installing chunks; mmap(n) is the n-th address the operating system gives. */
  function Installed(regions: Regions, plan: seq<Chunk>, mmap: nat -> nat, n: nat): Regions
    decreases |plan|
  {
    if plan == [] then regions
    else Installed(regions[plan[0].key := Region(mmap(n), plan[0].size)], plan[1..], mmap, n + 1)
  }

  lemma InstalledAppend(regions: Regions, plan: seq<Chunk>, c: Chunk, mmap: nat -> nat, n: nat)
    ensures Installed(regions, plan + [c], mmap, n)
            == Installed(regions, plan, mmap, n)[c.key := Region(mmap(n + |plan|), c.size)]
    decreases |plan|
  {
    if plan != [] {
      assert (plan + [c])[1..] == plan[1..] + [c];
      InstalledAppend(regions[plan[0].key := Region(mmap(n), plan[0].size)], plan[1..], c, mmap, n + 1);
    }
  }

  lemma PlanStep(done: seq<Chunk>, offset: nat, ram: nat)
    requires ram > 0
    ensures var sec := Min(BLOCK, ram);
      done + Dr2Plan(offset, ram) == done + [Chunk(Start(DR2) + offset, sec)] + Dr2Plan(offset + sec, ram - sec)
  {
  }

  lemma PlanDone(done: seq<Chunk>, offset: nat)
    ensures done + Dr2Plan(offset, 0) == done
  {
  }

  lemma InstalledNone(regions: Regions, mmap: nat -> nat)
    ensures Installed(regions, [], mmap, 0) == regions
  {
  }

  /** add_Mem_Region; an mmap of nothing fails, and the program exits. */
  method AddMemRegion(m: GpaMap, size: nat, key: nat, mapped: nat) returns (ok: bool)
    modifies m
    ensures ok == (size > 0)
    ensures m.regions == if ok then old(m.regions)[key := Region(mapped, size)] else old(m.regions)
  {
    ok := size > 0;
    if ok {
      m.regions := m.regions[key := Region(mapped, size)];
    }
  }

  /** alloc_DRAM. */
  method AllocDram(m: GpaMap, size: nat, mmap: nat -> nat) returns (ok: bool)
    modifies m
    ensures ok <==> size > Room(DR0)
    ensures ok ==> m.regions == Installed(old(m.regions), Plan(size), mmap, 0)
  {
    SectionValues();
    hide Start, Room, Installed, Dr2Plan, SectionAt;
    var ramSize := size;
    ghost var before := m.regions;
    ghost var done: seq<Chunk> := [];
    InstalledNone(before, mmap);
    ok := AddMemRegion(m, Room(BOOT), Start(BOOT), mmap(0));
    InstalledAppend(before, done, Chunk(Start(BOOT), Room(BOOT)), mmap, 0);
    done := done + [Chunk(Start(BOOT), Room(BOOT))];

    var secSize := Min(Room(DR0), ramSize);
    ramSize := ramSize - secSize;
    ok := AddMemRegion(m, secSize, Start(DR0), mmap(1));
    if !ok { return; }
    InstalledAppend(before, done, Chunk(Start(DR0), secSize), mmap, 0);
    done := done + [Chunk(Start(DR0), secSize)];

    secSize := Min(Room(DR1), ramSize);
    ramSize := ramSize - secSize;
    ok := AddMemRegion(m, secSize, Start(DR1), mmap(2));
    if !ok { return; }
    InstalledAppend(before, done, Chunk(Start(DR1), secSize), mmap, 0);
    done := done + [Chunk(Start(DR1), secSize)];

    var allocOffset, n := 0, 3;
    assert done + Dr2Plan(0, ramSize) == Plan(size);
    while ramSize > 0
      invariant ok && n == |done|
      invariant m.regions == Installed(before, done, mmap, 0)
      invariant done + Dr2Plan(allocOffset, ramSize) == Plan(size)
    {
      secSize := Min(BLOCK, ramSize);
      PlanStep(done, allocOffset, ramSize);
      InstalledAppend(before, done, Chunk(Start(DR2) + allocOffset, secSize), mmap, 0);
      done := done + [Chunk(Start(DR2) + allocOffset, secSize)];
      ramSize := ramSize - secSize;
      ok := AddMemRegion(m, secSize, Start(DR2) + allocOffset, mmap(n));
      allocOffset := allocOffset + secSize;
      n := n + 1;
    }
    PlanDone(done, allocOffset);
  }

  // ---- what is mapped

  function Total(plan: seq<Chunk>): nat {
    if plan == [] then 0 else plan[0].size + Total(plan[1..])
  }

  lemma {:induction false} Dr2Total(offset: nat, ram: nat)
    ensures Total(Dr2Plan(offset, ram)) == ram
    decreases ram
  {
    if ram > 0 {
      Dr2Total(offset + Min(BLOCK, ram), ram - Min(BLOCK, ram));
    }
  }

  /** The chunks beside the boot bus add up to the memory asked for. */
  lemma PlanTotal(ram: nat)
    ensures Total(Plan(ram)[1..]) == ram
  {
    var dr2 := Dr2Plan(0, Dr2Size(ram));
    Dr2Total(0, Dr2Size(ram));
    assert Plan(ram)[1..][1..] == [Chunk(Start(DR1), Dr1Size(ram))] + dr2;
    assert Plan(ram)[1..][1..][1..] == dr2;
  }

  /** Chunk j of DR2 starts j blocks into the section, and only the last may be short. */
  lemma {:induction false} Dr2Chunks(offset: nat, ram: nat, j: nat)
    ensures |Dr2Plan(offset, ram)| * BLOCK < ram + BLOCK && ram <= |Dr2Plan(offset, ram)| * BLOCK
    ensures j < |Dr2Plan(offset, ram)| ==>
              Dr2Plan(offset, ram)[j] == Chunk(Start(DR2) + offset + j * BLOCK, Min(BLOCK, ram - j * BLOCK))
                  && j * BLOCK < ram
    decreases ram
  {
    if ram > 0 {
      Dr2Chunks(offset + Min(BLOCK, ram), ram - Min(BLOCK, ram), if j > 0 then j - 1 else 0);
    }
  }

  /** Every mapping starts on a 256 MB boundary and fits one block. */
  lemma PlanAligned(ram: nat, i: nat)
    requires i < |Plan(ram)|
    ensures Plan(ram)[i].key % BLOCK == 0 && Plan(ram)[i].size <= BLOCK
  {
    SectionValues();
    if i >= 3 {
      Dr2Chunks(0, Dr2Size(ram), i - 3);
    }
  }

  predicate DistinctKeys(plan: seq<Chunk>) {
    forall i, j :: 0 <= i < j < |plan| ==> plan[i].key != plan[j].key
  }

  /** No mapping overwrites another exactly when the memory is at most 16.25 GB: DR2's 64th block has DR1's key. */
  lemma PlanDistinct(ram: nat)
    requires ram > BLOCK
    ensures DistinctKeys(Plan(ram)) <==> ram <= 65 * BLOCK
  {
    SectionValues();
    var n, plan := Dr2Size(ram), Plan(ram);
    Dr2Chunks(0, n, 0);
    if ram > 65 * BLOCK {
      Dr2Chunks(0, n, 63);
      assert plan[2].key == plan[3 + 63].key;
    } else {
      forall i, j | 0 <= i < j < |plan| ensures plan[i].key != plan[j].key {
        Dr2Chunks(0, n, if i >= 3 then i - 3 else 0);
        Dr2Chunks(0, n, if j >= 3 then j - 3 else 0);
      }
    }
  }

  lemma LastInstalled(plan: seq<Chunk>, mmap: nat -> nat)
    requires plan != []
    ensures var last := plan[|plan| - 1];
      Installed(map[], plan, mmap, 0)[last.key := Region(mmap(|plan| - 1), last.size)]
          == Installed(map[], plan, mmap, 0)
  {
    assert plan == plan[..|plan| - 1] + [plan[|plan| - 1]];
    InstalledAppend(map[], plan[..|plan| - 1], plan[|plan| - 1], mmap, 0);
  }

  /** 16.5 GB are one block too many: alloc_DRAM succeeds, and the mapping of DR1 is gone, replaced by the last of
      DR2. */
  method OneBlockTooMany(m: GpaMap, mmap: nat -> nat) returns (ok: bool)
    requires m.regions == map[]
    modifies m
    ensures ok && Start(DR1) in m.regions && m.regions[Start(DR1)] == Region(mmap(66), BLOCK)
    ensures Plan(66 * BLOCK)[2] == Chunk(Start(DR1), BLOCK)
  {
    SectionValues();
    var ram := 66 * BLOCK;
    Dr2Chunks(0, Dr2Size(ram), 63);
    LastInstalled(Plan(ram), mmap);
    hide Installed, Start, Room, SectionAt, Dr2Plan;
    ok := AllocDram(m, ram, mmap);
    assert Plan(ram)[66] == Chunk(Start(DR1), BLOCK) && |Plan(ram)| == 67;
  }

  predicate HasKey(plan: seq<Chunk>, k: nat) { exists i :: 0 <= i < |plan| && plan[i].key == k }

  lemma {:induction false} InstalledElsewhere(regions: Regions, plan: seq<Chunk>, mmap: nat -> nat, n: nat, k: nat)
    requires !HasKey(plan, k)
    ensures var after := Installed(regions, plan, mmap, n);
      (k in after <==> k in regions) && (k in regions ==> after[k] == regions[k])
    decreases |plan|
  {
    if plan != [] {
      assert plan[0].key != k;
      assert forall i :: 0 <= i < |plan| - 1 ==> plan[1..][i] == plan[i + 1];
      InstalledElsewhere(regions[plan[0].key := Region(mmap(n), plan[0].size)], plan[1..], mmap, n + 1, k);
    }
  }

  lemma {:induction false} InstalledChunk(regions: Regions, plan: seq<Chunk>, mmap: nat -> nat, n: nat, i: nat)
    requires DistinctKeys(plan) && i < |plan|
    ensures var after := Installed(regions, plan, mmap, n);
      plan[i].key in after && after[plan[i].key] == Region(mmap(n + i), plan[i].size)
    decreases |plan|
  {
    var next := regions[plan[0].key := Region(mmap(n), plan[0].size)];
    assert forall j :: 0 <= j < |plan| - 1 ==> plan[1..][j] == plan[j + 1];
    if i == 0 {
      InstalledElsewhere(next, plan[1..], mmap, n + 1, plan[0].key);
    } else {
      InstalledChunk(next, plan[1..], mmap, n + 1, i - 1);
    }
  }

  /** Exactly which memory addresses are backed: everything below the memory size, or below 512 MB because of the boot
      bus, and DR1's own range. */
  lemma BackedExactly(ram: nat, mmap: nat -> nat, gpa: nat)
    requires BLOCK < ram <= 65 * BLOCK && !IsIo(gpa)
    ensures Backed(Installed(map[], Plan(ram), mmap, 0), gpa)
            <==> gpa < ram || gpa < 2 * BLOCK || 65 * BLOCK <= gpa < 65 * BLOCK + Min(BLOCK, ram - BLOCK)
  {
    SectionValues();
    PlanDistinct(ram);
    var plan, k := Plan(ram), gpa / BLOCK;
    assert Key(gpa) == k * BLOCK && Offset(gpa) == gpa - k * BLOCK;
    Dr2Chunks(0, Dr2Size(ram), if k >= 2 then k - 2 else 0);
    hide Start, Room, SectionAt, Installed, Key, Offset;
    var i := if k == 0 then 1 else if k == 1 then 0 else if k == 65 then 2 else 3 + (k - 2);
    if i < |plan| {
      InstalledChunk(map[], plan, mmap, 0, i);
    } else {
      forall j | 0 <= j < |plan| ensures plan[j].key != k * BLOCK {
        Dr2Chunks(0, Dr2Size(ram), if j >= 3 then j - 3 else 0);
      }
      InstalledElsewhere(map[], plan, mmap, 0, k * BLOCK);
    }
  }

  // ---- memory and devices together

  function Granted(plan: seq<Chunk>, mmap: nat -> nat, n: nat, i: nat): Region
    requires i < |plan|
  {
    Region(mmap(n + i), plan[i].size)
  }

  /** The operating system gives every chunk a range of its own, apart from the ranges given before. */
  predicate Grants(regions: Regions, plan: seq<Chunk>, mmap: nat -> nat, n: nat) {
    && (forall i :: 0 <= i < |plan| ==> Granted(plan, mmap, n, i).hva > 0)
    && (forall i, k :: 0 <= i < |plan| && k in regions ==> Apart(regions[k], Granted(plan, mmap, n, i)))
    && (forall i, j :: 0 <= i < j < |plan| ==> Apart(Granted(plan, mmap, n, i), Granted(plan, mmap, n, j)))
  }

  lemma {:induction false} InstalledDisjoint(regions: Regions, plan: seq<Chunk>, mmap: nat -> nat, n: nat)
    requires Disjoint(regions) && Grants(regions, plan, mmap, n)
    ensures Disjoint(Installed(regions, plan, mmap, n))
    decreases |plan|
  {
    if plan != [] {
      var next := regions[plan[0].key := Region(mmap(n), plan[0].size)];
      assert Granted(plan, mmap, n, 0) == next[plan[0].key];
      var rest, m := plan[1..], n + 1;
      assert forall i :: 0 <= i < |rest| ==> Granted(rest, mmap, m, i) == Granted(plan, mmap, n, i + 1);
      InstalledDisjoint(next, rest, mmap, m);
    }
  }

  /** From boot on, through any run of lookups: an address keeps its host address, and two backed addresses, of memory
      or of devices, never share one. */
  lemma BootedMapSound(ram: nat, mmap: nat -> nat, steps: seq<LookupStep>, gpa: nat, gpa2: nat)
    requires ram > BLOCK && Grants(map[], Plan(ram), mmap, 0)
    requires Serves(Installed(map[], Plan(ram), mmap, 0), steps)
    ensures var booted := Installed(map[], Plan(ram), mmap, 0);
      var now := AfterAll(booted, steps);
      (Hva(booted, gpa).Some? ==> Hva(now, gpa) == Hva(booted, gpa))
      && (Backed(now, gpa) && Backed(now, gpa2) && gpa != gpa2 ==> Hva(now, gpa) != Hva(now, gpa2))
  {
    hide Plan, Installed, Grants, Serves, Key, Offset;
    var booted := Installed(map[], Plan(ram), mmap, 0);
    InstalledDisjoint(map[], Plan(ram), mmap, 0);
    HvaStable(booted, steps, gpa);
    var now := AfterAll(booted, steps);
    if Backed(now, gpa) && Backed(now, gpa2) && gpa != gpa2 {
      HvaInjective(now, gpa, gpa2);
    }
  }
}
