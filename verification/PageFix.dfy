/** Processor_IPE::fixBlock: a user-mode block that runs into another page is cut at the page boundary. */
module PageFix {
  import opened Words
  import opened Instructions
  import opened Machine
  import opened HostMachine
  import opened GuestMachine
  import opened Emitters
  import opened HostSteps
  import opened Simulation
  import opened BlockSimulation
  import opened ControlSimulation
  import opened BlockTranslation
  import Decoder

  function PageBits(x: bv64): bv64 { x & 0xFFFF_FFFF_FFFF_F000 }

  function Page(x: Value): Value { Value(PageBits(x.bits)) }

  function PageIndex(x: Value): bv10 { ((x.bits >> 2) & 0x3FF) as bv10 }

  /** Which of the 1024 words of its page an address names. */
  function WordInPage(x: Value): (n: nat)
    ensures n < 1024
  {
    PageIndex(x) as int
  }

  predicate Aligned(x: Value) { x.bits & 3 == 0 }

  const TERMINATION_WORD: Word := 0xEC00_0000
  const TERMINATOR := I(59, 0, 0, 0)

  lemma TerminationWord()
    ensures Parse(TERMINATION_WORD) == TERMINATOR && Parse(0) == NOP
    ensures WellFormed(TERMINATOR) && Decoder.Dispatch(TERMINATOR).Terminate?
  {
  }

  // ---- addresses within a page

  lemma AdvanceLast(pc: Value, n: nat)
    ensures Advance(pc, n + 1) == Plus(Advance(pc, n), Value(4))
    decreases n
  {
    hide Plus;
    if n > 0 {
      AdvanceLast(Plus(pc, Value(4)), n - 1);
    }
  }

  lemma NextIndex(x: Value)
    ensures PageIndex(Plus(x, Value(4))) == PageIndex(x) + 1
  {
  }

  lemma Increment(w: bv10)
    ensures (w + 1) as int == if w as int == 1023 then 0 else w as int + 1
  {
  }

  lemma NextWord(x: Value)
    ensures WordInPage(Plus(x, Value(4))) == if WordInPage(x) == 1023 then 0 else WordInPage(x) + 1
  {
    NextIndex(x);
    Increment(PageIndex(x));
    hide PageIndex, Plus;
  }

  lemma AlignedNext(x: Value)
    requires Aligned(x)
    ensures Aligned(Plus(x, Value(4)))
  {
  }

  lemma StayInPage(x: Value)
    requires Aligned(x) && PageIndex(x) != 0x3FF
    ensures Page(Plus(x, Value(4))) == Page(x)
  {
  }

  lemma EnterPage(x: Value)
    requires Aligned(x) && PageIndex(x) == 0x3FF
    ensures Page(Plus(x, Value(4))) == Plus(x, Value(4))
  {
  }

  lemma Last(w: bv10)
    ensures w as int == 1023 <==> w == 0x3FF
    ensures w as int == 0 <==> w == 0
  {
  }

  lemma NextPage(x: Value)
    requires Aligned(x)
    ensures Aligned(Plus(x, Value(4)))
    ensures Page(Plus(x, Value(4))) == if WordInPage(x) == 1023 then Plus(x, Value(4)) else Page(x)
  {
    hide PageIndex, Page, Plus, Aligned;
    Last(PageIndex(x));
    AlignedNext(x);
    if PageIndex(x) == 0x3FF { EnterPage(x); } else { StayInPage(x); }
  }

  lemma IndexZero(x: Value)
    requires Aligned(x) && PageIndex(x) == 0
    ensures Page(x) == x
  {
  }

  lemma FirstWord(x: Value)
    requires Aligned(x) && WordInPage(x) == 0
    ensures Page(x) == x
  {
    hide PageIndex, Page, Aligned;
    Last(PageIndex(x));
    IndexZero(x);
  }

  /** Walking back from an address to its page boundary, or staying in the page the walk started in. */
  lemma {:induction false} BackToPage(start: Value, n: nat)
    requires Aligned(start)
    ensures var x := Advance(start, n);
      Aligned(x)
      && if WordInPage(x) <= n then Page(x) == Advance(start, n - WordInPage(x)) else Page(x) == Page(start)
    decreases n
  {
    hide WordInPage, Page, Plus, Aligned;
    if n == 0 {
      if WordInPage(start) == 0 { FirstWord(start); }
    } else {
      BackToPage(start, n - 1);
      AdvanceLast(start, n - 1);
      var x := Advance(start, n - 1);
      NextWord(x);
      NextPage(x);
    }
  }

  // ---- the cut

  /** What fixBlock makes of a block: v instructions and the terminator. */
  function Fixed(b: seq<Ins>, v: nat): seq<Ins>
    requires v <= |b|
  {
    b[..v] + [TERMINATOR, NOP]
  }

  /** The erase and the two ways fixBlock has to end what is left. next is the first word of the last page. */
  method CutAt(block: Decoder.InstBlock, validInstr: nat, next: Word)
    requires validInstr <= |block.instructions|
    modifies block
    ensures block.instructions
            == if |old(block.instructions)| - validInstr > 1 then Fixed(old(block.instructions), validInstr)
               else old(block.instructions)[..validInstr] + [Parse(next)]
  {
    var size := |block.instructions|;
    block.instructions := block.instructions[..validInstr];
    TerminationWord();
    if size - validInstr > 1 {
      block.instructions := block.instructions + [Parse(TERMINATION_WORD)];
      block.instructions := block.instructions + [Parse(0)];
    } else {
      block.instructions := block.instructions + [Parse(next)];
    }
  }

  lemma PageOfPage(x: Value)
    ensures Page(Page(x)) == Page(x)
  {
  }

  /** The boundary of the page that start + n words lies in, counted from the start. */
  lemma Boundary(start: Value, n: nat)
    requires Aligned(start) && Page(start) != Page(Advance(start, n))
    ensures var v := n - WordInPage(Advance(start, n)); 0 < v <= n && Advance(start, v) == Page(Advance(start, n))
  {
    hide Page, WordInPage, Aligned, Plus;
    BackToPage(start, n);
    PageOfPage(Advance(start, n));
    assert Advance(start, 0) == start;
  }

  /** fixBlock. The distance in words from the start to the boundary is the number of instructions before the control
      instruction less those of them in the last page. The delay-slot path is never taken. */
  method FixBlock(block: Decoder.InstBlock, start: Value, blockEnd: Value, next: Word)
    requires |block.instructions| >= 2 && blockEnd == Advance(start, |block.instructions| - 2)
    requires Aligned(start) && Page(start) != Page(blockEnd)
    modifies block
    ensures var b := old(block.instructions);
      var v := |b| - 2 - WordInPage(blockEnd);
      0 < v <= |b| - 2 && Advance(start, v) == Page(blockEnd) && block.instructions == Fixed(b, v)
  {
    hide Page, WordInPage, Aligned, Plus;
    Boundary(start, |block.instructions| - 2);
    var validInstr := |block.instructions| - 2 - WordInPage(blockEnd);
    CutAt(block, validInstr, next);
  }

  // ---- which blocks are cut, and where

  /** In the same 4 KB page. */
  predicate SamePage(x: Value, y: Value) { SamePageNumber(x.bits, y.bits) }

  predicate SamePageNumber(x: bv64, y: bv64) { x >> 12 == y >> 12 }

  predicate AtPageStart(x: Value) { x.bits & 0xFFF == 0 }

  /** t is the right thing to translate for the block b found at pc: b itself in kernel mode, or when its control
      instruction is in the page it starts in; else the first instructions of b, up to the start of the page the control
      instruction is in, and the terminator. */
  predicate CutAtPage(b: seq<Ins>, t: seq<Ins>, pc: Value, user: bool) {
    |b| >= 2 && |t| >= 2
    && if !user || SamePage(pc, Advance(pc, |b| - 2)) then t == b
       else
         var n := |t| - 2;
         0 < n <= |b| - 2 && t == b[..n] + [I(59, 0, 0, 0), NOP]
         && AtPageStart(Advance(pc, n)) && SamePage(Advance(pc, n), Advance(pc, |b| - 2))
  }

  lemma EqualNumbers(x: bv64, y: bv64)
    requires PageBits(x) == PageBits(y)
    ensures SamePageNumber(x, y)
  {
  }

  lemma EqualPages(x: bv64, y: bv64)
    requires SamePageNumber(x, y)
    ensures PageBits(x) == PageBits(y)
  {
  }

  lemma SamePageBits(x: bv64, y: bv64)
    ensures PageBits(x) == PageBits(y) <==> SamePageNumber(x, y)
  {
    hide PageBits, SamePageNumber;
    if PageBits(x) == PageBits(y) { EqualNumbers(x, y); }
    if SamePageNumber(x, y) { EqualPages(x, y); }
  }

  lemma PageIsSamePage(x: Value, y: Value)
    ensures Page(x) == Page(y) <==> SamePage(x, y)
  {
    SamePageBits(x.bits, y.bits);
    hide PageBits, SamePageNumber;
  }

  lemma PageStartBits(x: bv64)
    ensures PageBits(x) & 0xFFF == 0 && SamePageNumber(PageBits(x), x)
  {
  }

  lemma PageStarts(x: Value)
    ensures AtPageStart(Page(x)) && SamePage(Page(x), x)
  {
    PageStartBits(x.bits);
    hide PageBits, SamePageNumber;
  }

  lemma FixedIsCut(b: seq<Ins>, pc: Value, user: bool)
    requires |b| >= 2 && Aligned(pc) && user && Page(pc) != Page(Advance(pc, |b| - 2))
    ensures 0 < |b| - 2 - WordInPage(Advance(pc, |b| - 2)) <= |b| - 2
    ensures CutAtPage(b, Fixed(b, |b| - 2 - WordInPage(Advance(pc, |b| - 2))), pc, user)
  {
    hide Page, WordInPage, Aligned, AtPageStart, SamePage;
    Boundary(pc, |b| - 2);
    PageIsSamePage(pc, Advance(pc, |b| - 2));
    PageStarts(Advance(pc, |b| - 2));
  }

  lemma WholeIsCut(b: seq<Ins>, pc: Value, user: bool)
    requires |b| >= 2 && (!user || Page(pc) == Page(Advance(pc, |b| - 2)))
    ensures CutAtPage(b, b, pc, user)
  {
    hide Page, SamePage;
    PageIsSamePage(pc, Advance(pc, |b| - 2));
  }

  /** The first n words from pc on do not run over the top of the address space. */
  predicate InSpace(pc: Value, n: nat) { forall k :: 1 <= k <= n ==> Advance(pc, k).bits != 0 }

  lemma Upward(x: Value)
    requires Aligned(x) && Plus(x, Value(4)).bits != 0
    ensures Below(x, Plus(x, Value(4)))
  {
  }

  predicate Below(x: Value, y: Value) { x.bits < y.bits }

  lemma Transitive(x: Value, y: Value, z: Value)
    requires Below(x, y) && (Below(y, z) || y == z)
    ensures Below(x, z)
  {
  }

  lemma NextBelow(pc: Value, k: nat, n: nat)
    requires Aligned(pc) && InSpace(pc, n) && k < n
    ensures Below(Advance(pc, k), Advance(pc, k + 1))
  {
    assert Advance(pc, k + 1).bits != 0;
    hide InSpace, Aligned, Plus, Below, Advance, Page, WordInPage;
    BackToPage(pc, k);
    AdvanceLast(pc, k);
    Upward(Advance(pc, k));
  }

  lemma {:induction false} Increasing(pc: Value, k: nat, n: nat)
    requires Aligned(pc) && InSpace(pc, n) && k < n
    ensures Below(Advance(pc, k), Advance(pc, n))
    decreases n - k
  {
    hide InSpace, Aligned, Below, Advance;
    NextBelow(pc, k, n);
    if k + 1 < n {
      Increasing(pc, k + 1, n);
    }
    Transitive(Advance(pc, k), Advance(pc, k + 1), Advance(pc, n));
  }

  lemma BelowBoundary(x: Value, start: Value)
    requires Below(x, start) && AtPageStart(start)
    ensures !SamePage(x, start)
  {
  }

  lemma NotBelowItself(x: Value)
    ensures !Below(x, x)
  {
  }

  /** y is in the page after that of x. */
  predicate InNextPage(x: Value, y: Value) {
    (x.bits & 0xFFFF_FFFF_FFFF_F000) + 0x1000 == y.bits & 0xFFFF_FFFF_FFFF_F000
  }

  lemma StepOutBits(x: bv64, y: bv64)
    requires SamePageNumber(x, y) && y & 3 == 0 && (y + 4) & 0xFFF == 0
    ensures (x & 0xFFFF_FFFF_FFFF_F000) + 0x1000 == (y + 4) & 0xFFFF_FFFF_FFFF_F000
  {
  }

  /** One word further is either in the same page or at the start of the next. */
  lemma StepOut(x: Value, y: Value)
    requires SamePage(x, y) && Aligned(y) && AtPageStart(Plus(y, Value(4)))
    ensures InNextPage(x, Plus(y, Value(4)))
  {
    assert Plus(y, Value(4)).bits == y.bits + 4;
    StepOutBits(x.bits, y.bits);
    hide Plus, SamePageNumber;
  }

  lemma StepWithin(x: Value, y: Value)
    requires SamePage(x, y) && Aligned(y) && !AtPageStart(Plus(y, Value(4)))
    ensures SamePage(x, Plus(y, Value(4)))
  {
  }

  lemma SamePageNext(x: Value, y: Value, z: Value)
    requires SamePage(y, z)
    ensures InNextPage(x, y) == InNextPage(x, z) && SamePage(x, y) == SamePage(x, z)
  {
    SamePageBits(y.bits, z.bits);
    hide SamePageNumber;
    SamePageBits(x.bits, y.bits);
    SamePageBits(x.bits, z.bits);
  }

  lemma StartsOfNext(x: Value, y: Value, z: Value)
    requires InNextPage(x, y) && InNextPage(x, z) && AtPageStart(y) && AtPageStart(z)
    ensures y == z
  {
  }

  /** Up to the next page boundary all words are in the page of the first. */
  lemma {:induction false} StaysInPage(pc: Value, k: nat, n: nat)
    requires Aligned(pc) && InSpace(pc, n) && k < n && AtPageStart(Advance(pc, n)) && InNextPage(pc, Advance(pc, n))
    ensures SamePage(pc, Advance(pc, k))
    decreases k
  {
    hide Aligned, AtPageStart, SamePage, InNextPage, Plus, Below, Advance;
    if k == 0 {
      assert Advance(pc, 0) == pc by { AdvanceNone(pc); }
      SamePageItself(pc);
    } else {
      StaysInPage(pc, k - 1, n);
      BackToPage(pc, k - 1);
      AdvanceLast(pc, k - 1);
      if AtPageStart(Advance(pc, k)) {
        StepOut(pc, Advance(pc, k - 1));
        StartsOfNext(pc, Advance(pc, k), Advance(pc, n));
        Increasing(pc, k, n);
        NotBelowItself(Advance(pc, n));
      } else {
        StepWithin(pc, Advance(pc, k - 1));
      }
    }
  }

  lemma AdvanceNone(pc: Value)
    ensures Advance(pc, 0) == pc
  {
  }

  lemma SamePageItself(x: Value)
    ensures SamePage(x, x)
  {
  }

  /** What a cut leaves: no instruction of the page its control instruction was in, and only instructions of the page it
      starts in if and only if the two are neighbours. */
  lemma CutKeeps(b: seq<Ins>, t: seq<Ins>, pc: Value)
    requires CutAtPage(b, t, pc, true) && Aligned(pc) && InSpace(pc, |b| - 2) && !SamePage(pc, Advance(pc, |b| - 2))
    ensures forall k :: 0 <= k < |t| - 2 ==> !SamePage(Advance(pc, k), Advance(pc, |b| - 2))
    ensures (forall k :: 0 <= k < |t| - 2 ==> SamePage(pc, Advance(pc, k))) <==> InNextPage(pc, Advance(pc, |b| - 2))
  {
    var n, end := |t| - 2, Advance(pc, |b| - 2);
    var start := Advance(pc, n);
    hide Aligned, AtPageStart, SamePage, InNextPage, Plus, Below, Advance;
    forall k | 0 <= k < n ensures !SamePage(Advance(pc, k), end) {
      Increasing(pc, k, n);
      BelowBoundary(Advance(pc, k), start);
      SamePageNext(Advance(pc, k), start, end);
    }
    SamePageNext(pc, start, end);
    if InNextPage(pc, end) {
      forall k | 0 <= k < n ensures SamePage(pc, Advance(pc, k)) {
        StaysInPage(pc, k, n);
      }
    } else {
      BackToPage(pc, n - 1);
      AdvanceLast(pc, n - 1);
      if SamePage(pc, Advance(pc, n - 1)) {
        StepOut(pc, Advance(pc, n - 1));
      }
      assert !SamePage(pc, Advance(pc, n - 1));
    }
  }

  lemma ExampleAddresses()
    ensures var pc := Value(0x40_0FF8);
      Advance(pc, 1) == Value(0x40_0FFC) && Advance(pc, 2) == Value(0x40_1000) && Advance(pc, 3) == Value(0x40_1004)
  {
    var pc := Value(0x40_0FF8);
    AdvanceLast(pc, 0);
    AdvanceLast(pc, 1);
    AdvanceLast(pc, 2);
  }

  /** A user block at 0x0040_0FF8 whose control instruction is at 0x0040_1004: two instructions and the terminator. */
  lemma CutExample(b: seq<Ins>, t: seq<Ins>)
    requires |b| == 5 && CutAtPage(b, t, Value(0x40_0FF8), true)
    ensures t == [b[0], b[1], I(59, 0, 0, 0), NOP]
  {
    ExampleAddresses();
    ExamplePages();
    hide Advance, SamePage, AtPageStart;
    assert |t| - 2 == 2;
  }

  lemma ExamplePages()
    ensures !SamePage(Value(0x40_0FF8), Value(0x40_1004))
    ensures !AtPageStart(Value(0x40_0FFC)) && AtPageStart(Value(0x40_1000)) && !AtPageStart(Value(0x40_1004))
  {
  }

  lemma FixedEnd(b: seq<Ins>, v: nat)
    requires v <= |b|
    ensures |Fixed(b, v)| == v + 2 && Fixed(b, v)[v] == TERMINATOR
  {
  }

  lemma CutSupported(b: seq<Ins>, v: nat, pc: Value)
    requires SupportedBlock(b, pc) && v <= |b| - 2
    ensures SupportedBlock(Fixed(b, v), pc) && SupportedBlock(b[v..], Advance(pc, v))
    decreases v
  {
    hide Supported, SupportedControl, Plus, Decoder.Dispatch;
    TerminationWord();
    if v == 0 {
      assert b[0..] == b;
      assert b[..0] == [];
    } else {
      CutSupported(b[1..], v - 1, Plus(pc, Value(4)));
      assert Fixed(b, v)[1..] == Fixed(b[1..], v - 1);
      assert b[1..][v - 1..] == b[v..];
    }
  }

  /** r is the result of the first v instructions: if they all ran, the cut block leaves there and the block goes on
      with the rest; if not, both left in the same way. */
  ghost predicate SameThroughCut(isa: Isa, env: Env, b: seq<Ins>, v: nat, g: Guest, r: Result)
    requires v <= |b| - 2
  {
    match r
    case Next(g1) =>
      g1.pc == Advance(g.pc, v) && RunBlock(isa, env, Fixed(b, v), g) == Exit(FETCH_NEXT_BLOCK, g1)
      && RunBlock(isa, env, b, g) == RunBlock(isa, env, b[v..], g1)
    case Exit(m, g1) => RunBlock(isa, env, Fixed(b, v), g) == Exit(m, g1) && RunBlock(isa, env, b, g) == Exit(m, g1)
  }

  lemma {:induction false} CutRuns(isa: Isa, env: Env, b: seq<Ins>, v: nat, g: Guest)
    requires v <= |b| - 2
    ensures SameThroughCut(isa, env, b, v, g, RunPrefix(isa, env, b, v, g))
    decreases v
  {
    hide Step, Control, Plus;
    if v == 0 {
      TerminationWord();
      TerminateStep(isa, env, TERMINATOR, g);
      assert b[0..] == b && Fixed(b, 0) == [TERMINATOR, NOP];
    } else {
      StepKeepsPc(isa, env, b[0], g);
      assert Fixed(b, v)[1..] == Fixed(b[1..], v - 1) && b[1..][v - 1..] == b[v..];
      match Step(isa, env, b[0], g) {
        case Next(g1) => CutRuns(isa, env, b[1..], v - 1, g1.(pc := Plus(g.pc, Value(4))));
        case Exit(_, _) =>
      }
    }
  }

  /** Where the code of the block is exact, so is that of the cut block, and that of the rest when it comes to it. */
  ghost predicate ExactThroughCut(isa: Isa, env: Env, b: seq<Ins>, v: nat, g: Guest, r: Result)
    requires v <= |b| - 2
  {
    BlockExact(isa, env, Fixed(b, v), g)
    && match r
       case Next(g1) => BlockExact(isa, env, b[v..], g1)
       case Exit(_, _) => true
  }

  lemma {:induction false} CutExact(isa: Isa, env: Env, b: seq<Ins>, v: nat, g: Guest)
    requires v <= |b| - 2 && BlockExact(isa, env, b, g)
    ensures ExactThroughCut(isa, env, b, v, g, RunPrefix(isa, env, b, v, g))
    decreases v
  {
    hide Step, Exact, ControlExact, Plus;
    if v == 0 {
      assert b[0..] == b && Fixed(b, 0) == [TERMINATOR, NOP];
    } else {
      StepKeepsPc(isa, env, b[0], g);
      assert Fixed(b, v)[1..] == Fixed(b[1..], v - 1) && b[1..][v - 1..] == b[v..] && Fixed(b, v)[0] == b[0];
      match Step(isa, env, b[0], g) {
        case Next(g1) => CutExact(isa, env, b[1..], v - 1, g1.(pc := Plus(g.pc, Value(4))));
        case Exit(_, _) =>
      }
    }
  }

  /** r is the result of the first v instructions: if they all ran, the host leaves the cut block at the boundary in h1
      and the rest takes it to h2 as the whole block would; if not, the cut block already did. */
  ghost predicate RunsInTwo(isa: Isa, env: Env, end: Value, b: seq<Ins>, v: nat, g: Guest, r: Result, h: Host, h1: Host,
                            h2: Host)
    requires v <= |b| - 2 && ModelledBlock(Fixed(b, v)) && ModelledBlock(b[v..])
  {
    match r
    case Next(g1) =>
      g1.pc == Page(end)
      && Simulates(isa, env, end, Exit(FETCH_NEXT_BLOCK, g1), BlockCode(Fixed(b, v), end), [], h, h1)
      && Simulates(isa, env, end, RunBlock(isa, env, b, g), BlockCode(b[v..], end), [], h1, h2)
    case _ => Simulates(isa, env, end, RunBlock(isa, env, b, g), BlockCode(Fixed(b, v), end), [], h, h1)
  }

  /** The page-crossing rewrite preserves meaning: translated code for the cut block, followed by translated code for
      the block that starts at the page boundary, does what the whole block does; and the first part hands over
      with the PC at that boundary. */
  lemma TwoBlocksRun(isa: Isa, env: Env, b: seq<Ins>, v: int, end: Value, g: Guest, h: Host)
    returns (h1: Host, h2: Host)
    requires |b| >= 2 && SupportedBlock(b, g.pc) && BlockExact(isa, env, b, g) && Rel(isa, end, g, h)
    requires end == Advance(g.pc, |b| - 2)
    requires Aligned(g.pc) && Page(g.pc) != Page(end) && v == |b| - 2 - WordInPage(end)
    ensures 0 < v <= |b| - 2 && ModelledBlock(Fixed(b, v)) && ModelledBlock(b[v..])
    ensures RunsInTwo(isa, env, end, b, v, g, RunPrefix(isa, env, b, v, g), h, h1, h2)
  {
    hide Simulates, Rel, SupportedBlock, ModelledBlock, BlockExact, RunBlock, BlockCode, Page, WordInPage,
      Decoder.Dispatch, Aligned, RunPrefix, Advance, Fixed;
    Boundary(g.pc, |b| - 2);
    CutSupported(b, v, g.pc);
    CutRuns(isa, env, b, v, g);
    CutExact(isa, env, b, v, g);
    SupportedIsModelledBlock(Fixed(b, v), g.pc);
    SupportedIsModelledBlock(b[v..], Advance(g.pc, v));
    TerminationWord();
    FixedEnd(b, v);
    h1 := BlockSimulated(isa, env, end, Fixed(b, v), [], g, h);
    h2 := h1;
    match RunPrefix(isa, env, b, v, g) {
      case Next(g1) =>
        AdvanceSum(g.pc, v, |b| - 2 - v);
        ExitRel(isa, env, end, FETCH_NEXT_BLOCK, g1, BlockCode(Fixed(b, v), end), [], h, h1);
        h2 := BlockSimulated(isa, env, end, b[v..], [], g1, h1);
      case _ =>
    }
  }

  lemma AdvanceSum(pc: Value, m: nat, n: nat)
    ensures Advance(Advance(pc, m), n) == Advance(pc, m + n)
    decreases m
  {
    hide Plus;
    if m > 0 {
      AdvanceSum(Plus(pc, Value(4)), m - 1, n);
    }
  }

  lemma ExitRel(isa: Isa, env: Env, end: Value, m: int, g: Guest, code: seq<Ins>, k: seq<Ins>, h: Host, h1: Host)
    requires Simulates(isa, env, end, Exit(m, g), code, k, h, h1)
    ensures Rel(isa, end, g, h1)
  {
  }
}
