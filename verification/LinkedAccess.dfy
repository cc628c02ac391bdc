/** LL and SC over runs: when a store-conditional succeeds, and when it writes what it may not. */
module LinkedAccess {
  import opened Words
  import opened Instructions
  import opened Machine
  import opened HostMachine
  import opened GuestMachine
  import opened Emitters
  import opened HostSteps
  import opened Simulation
  import opened Faithfulness

  // ---- one instruction and the link monitor

  predicate IsLinked(i: Ins) { i.I? && (i.op == 48 || i.op == 52) }

  predicate IsConditional(i: Ins) { i.I? && (i.op == 56 || i.op == 60) }

  /** A load or store other than these. */
  predicate IsAccess(i: Ins) { i.I? && (IsLoad(i.op) || IsStore(i.op)) }

  predicate IsEret(i: Ins) { i.R? && i.op == 16 && i.rs == 16 && i.func == 24 }

  /** sc, an eret that returns, or a refused access. */
  predicate Breaks(isa: Isa, env: Env, i: Ins, g: Guest) {
    IsConditional(i) || (IsEret(i) && !InUserMode(g.cp0(STATUS))) || (IsAccess(i) && Step(isa, env, i, g).Exit?)
  }

  /** What one instruction does to the link bit, the ll data and the last address. */
  predicate MonitorStep(isa: Isa, env: Env, i: Ins, g: Guest, g1: Guest) {
    g1.llData == g.llData
    && if Breaks(isa, env, i, g) then g1.llBit == ZERO
       else g1.llBit == g.llBit && if IsAccess(i) then g1.va == AddressOf(i, g) else g1.va == g.va && g1.hva == g.hva
  }

  lemma EretMonitor(isa: Isa, env: Env, i: Ins, g: Guest)
    requires IsEret(i)
    ensures Step(isa, env, i, g) == EretStep(g) && MonitorStep(isa, env, i, g, EretStep(g).guest)
  {
    hide InUserMode, EretStatus, ErlSet;
  }

  lemma TlbMonitor(env: Env, mark: Value, g: Guest)
    ensures SameMonitor(g, TlbStep(env, mark, g).guest)
  {
    hide InUserMode, Registers;
  }

  /** The fields of the link monitor are the same in both. */
  predicate SameMonitor(g: Guest, g1: Guest) {
    g1.llBit == g.llBit && g1.llData == g.llData && g1.va == g.va && g1.hva == g.hva
  }

  lemma SpecialMonitor(isa: Isa, env: Env, i: Ins, g: Guest)
    requires i.R? && i.op == 0
    ensures SameMonitor(g, StepR(isa, env, i, g).guest)
  {
    hide TlbStep, ThreeReg, Shift, MulHi, MulLo, Product, UnsignedProduct, Accumulator, Plus, Minus, SX32, Sra32,
      IsThreeReg, TlbMark, InUserMode, EretStep, IsExt, IsIns, IsShift, Registers;
  }

  lemma OtherRegisterMonitor(isa: Isa, env: Env, i: Ins, g: Guest)
    requires i.R? && i.op != 0 && !IsEret(i)
    ensures SameMonitor(g, StepR(isa, env, i, g).guest)
  {
    TlbMonitor(env, TlbMark(i.func), g);
    hide TlbStep, ThreeReg, Shift, MulHi, MulLo, Product, UnsignedProduct, Accumulator, Plus, Minus, SX32, Sra32,
      IsThreeReg, TlbMark, InUserMode, EretStep, IsExt, IsIns, IsShift, Registers;
  }

  lemma RegisterMonitor(isa: Isa, env: Env, i: Ins, g: Guest)
    requires i.R?
    ensures MonitorStep(isa, env, i, g, Step(isa, env, i, g).guest)
  {
    if IsEret(i) {
      EretMonitor(isa, env, i, g);
    } else if i.op == 0 {
      SpecialMonitor(isa, env, i, g);
    } else {
      OtherRegisterMonitor(isa, env, i, g);
    }
    hide StepR, InUserMode, EretStep;
  }

  lemma TranslateMonitor(env: Env, g: Guest, va: Value, store: Value)
    ensures var r := Translate(env, g, va, store);
      r.guest.llData == g.llData
      && if r.Next? then r.guest.llBit == g.llBit && r.guest.va == va else r.guest.llBit == ZERO
  {
    hide Registers;
  }

  /** The effect of a load, a store or an sc on the link bit, the ll data and the last address. */
  predicate AccessEffect(i: Ins, g: Guest, r: Result)
    requires i.I?
  {
    r.guest.llData == g.llData
    && if r.Next? then r.guest.llBit == g.llBit && r.guest.va == AddressOf(i, g) else r.guest.llBit == ZERO
  }

  lemma LoadStoreMonitor(isa: Isa, env: Env, i: Ins, g: Guest)
    requires i.I?
    ensures AccessEffect(i, g, LoadStep(isa, env, i, g)) && AccessEffect(i, g, StoreStep(isa, env, i, g))
  {
    TranslateMonitor(env, g, AddressOf(i, g), ZERO);
    TranslateMonitor(env, g.(data := g.gpr(i.rt)), AddressOf(i, g), ONE);
    hide Translate, LoadValue, AddressOf;
  }

  lemma ConditionalMonitor(isa: Isa, env: Env, i: Ins, g: Guest)
    requires i.I?
    ensures var r := ConditionalStep(isa, env, i, g); r.guest.llData == g.llData && r.guest.llBit == ZERO
  {
    TranslateMonitor(env, g.(data := g.gpr(i.rt)), AddressOf(i, g), ONE);
    hide Translate, LinkHolds, AddressOf, ConditionalStore;
  }

  lemma AccessMonitor(isa: Isa, env: Env, i: Ins, g: Guest)
    requires IsAccess(i) || IsConditional(i)
    ensures MonitorStep(isa, env, i, g, Step(isa, env, i, g).guest)
  {
    LoadStoreMonitor(isa, env, i, g);
    ConditionalMonitor(isa, env, i, g);
    hide LoadStep, StoreStep, ConditionalStep, AddressOf, InUserMode;
  }

  lemma ImmediateMonitor(isa: Isa, env: Env, i: Ins, g: Guest)
    requires i.I? && !IsLinked(i)
    ensures MonitorStep(isa, env, i, g, Step(isa, env, i, g).guest)
  {
    if IsAccess(i) || IsConditional(i) {
      AccessMonitor(isa, env, i, g);
    }
    hide Immediate, SX32, SX16, LoadStep, StoreStep, LinkedStep, ConditionalStep, AddressOf, InUserMode;
  }

  lemma StepMonitor(isa: Isa, env: Env, i: Ins, g: Guest)
    requires !IsLinked(i)
    ensures MonitorStep(isa, env, i, g, Step(isa, env, i, g).guest)
  {
    if i.R? {
      RegisterMonitor(isa, env, i, g);
    } else if i.I? {
      ImmediateMonitor(isa, env, i, g);
    }
    hide StepR, StepI, InUserMode, AddressOf;
  }

  // ---- runs

  /** What happens between two instructions, n of them still to come: the PC moves on or a branch is taken; after an
      exit, the C++ side and whatever handler it enters. */
  type Between = (nat, Result) -> Guest

  /** Anything but a change of the link bit, the ll data and the last access. */
  ghost predicate KeepsMonitor(between: Between) {
    forall n, r :: var g := between(n, r);
      g.llBit == r.guest.llBit && g.llData == r.guest.llData && g.va == r.guest.va && g.hva == r.guest.hva
  }

  function Run(isa: Isa, env: Env, between: Between, b: seq<Ins>, g: Guest): Guest
    decreases |b|
  {
    if b == [] then g else Run(isa, env, between, b[1..], between(|b| - 1, Step(isa, env, b[0], g)))
  }

  /** No sc ran, no eret returned and no access was refused. */
  predicate Unbroken(isa: Isa, env: Env, between: Between, b: seq<Ins>, g: Guest)
    decreases |b|
  {
    b == []
    || (!Breaks(isa, env, b[0], g) && Unbroken(isa, env, between, b[1..], between(|b| - 1, Step(isa, env, b[0], g))))
  }

  /** The address of the last load or store of the run, or a if there is none. */
  function LastAddress(isa: Isa, env: Env, between: Between, b: seq<Ins>, g: Guest, a: Value): Value
    decreases |b|
  {
    if b == [] then a
    else LastAddress(isa, env, between, b[1..], between(|b| - 1, Step(isa, env, b[0], g)),
                     if IsAccess(b[0]) then AddressOf(b[0], g) else a)
  }

  predicate NoLinked(b: seq<Ins>) { forall k :: 0 <= k < |b| ==> !IsLinked(b[k]) }

  /** A link once broken stays broken. */
  lemma {:induction false} StaysBroken(isa: Isa, env: Env, between: Between, b: seq<Ins>, g: Guest)
    requires KeepsMonitor(between) && NoLinked(b) && g.llBit == ZERO
    ensures Run(isa, env, between, b, g).llBit == ZERO
    decreases |b|
  {
    hide Step, Breaks, IsLinked, IsAccess, AddressOf;
    if b != [] {
      StepMonitor(isa, env, b[0], g);
      StaysBroken(isa, env, between, b[1..], between(|b| - 1, Step(isa, env, b[0], g)));
    }
  }

  lemma {:induction false} RunMonitor(isa: Isa, env: Env, between: Between, b: seq<Ins>, g: Guest)
    requires KeepsMonitor(between) && NoLinked(b)
    ensures var g1 := Run(isa, env, between, b, g);
      g1.llData == g.llData
      && if Unbroken(isa, env, between, b, g) then g1.llBit == g.llBit
         && g1.va == LastAddress(isa, env, between, b, g, g.va)
         else g1.llBit == ZERO
    decreases |b|
  {
    hide Step, Breaks, IsLinked, IsAccess, AddressOf;
    if b != [] {
      var next := between(|b| - 1, Step(isa, env, b[0], g));
      StepMonitor(isa, env, b[0], g);
      RunMonitor(isa, env, between, b[1..], next);
      if Breaks(isa, env, b[0], g) {
        StaysBroken(isa, env, between, b[1..], next);
      }
    }
  }

  function LinkedWord(isa: Isa, ll: Ins, g: Guest): Value
    requires ll.I?
  {
    LoadValue(isa, if ll.op == 48 then LW else LD, g.mem, g.hva, ZERO)
  }

  function ConditionalWord(isa: Isa, sc: Ins, g: Guest): Value
    requires sc.I?
  {
    LoadValue(isa, if sc.op == 56 then LW else LD, g.mem, g.hva, ZERO)
  }

  lemma LinkedOpens(isa: Isa, env: Env, ll: Ins, g: Guest, g1: Guest)
    requires IsLinked(ll) && Step(isa, env, ll, g) == Next(g1)
    ensures g1.llBit == ONE && g1.va == AddressOf(ll, g) && g1.llData == LinkedWord(isa, ll, g1)
  {
    hide LoadValue, AddressOf, Registers;
  }

  /** After an ll and any run without another: no sc ran since, no eret returned and no access was refused; the last
      access was to the address of the sc; and the word there is the one the ll loaded. */
  predicate LinkUnbroken(isa: Isa, env: Env, between: Between, ll: Ins, b: seq<Ins>, sc: Ins, g: Guest, g1: Guest)
    requires ll.I? && sc.I?
  {
    var g0 := between(|b|, Next(g1));
    var g2 := Run(isa, env, between, b, g0);
    Unbroken(isa, env, between, b, g0)
    && LastAddress(isa, env, between, b, g0, AddressOf(ll, g)) == AddressOf(sc, g2)
    && ConditionalWord(isa, sc, g2) == LinkedWord(isa, ll, g1)
  }

  lemma LinkAfterRun(isa: Isa, env: Env, between: Between, ll: Ins, b: seq<Ins>, sc: Ins, g: Guest, g1: Guest)
    requires KeepsMonitor(between) && IsLinked(ll) && sc.I? && NoLinked(b) && Step(isa, env, ll, g) == Next(g1)
    ensures LinkHolds(isa, sc, Run(isa, env, between, b, between(|b|, Next(g1))))
            <==> LinkUnbroken(isa, env, between, ll, b, sc, g, g1)
  {
    LinkedOpens(isa, env, ll, g, g1);
    RunMonitor(isa, env, between, b, between(|b|, Next(g1)));
    hide Step, Run, Unbroken, LastAddress, AddressOf, LoadValue, IsLinked, NoLinked;
  }

  /** The link protocol, on the emitted words: after ll and any run of instructions without another ll, with exits
      resumed by anything that keeps the monitor, the words emitted for sc or scd write memory and report 1 if and only
      if the link is unbroken; otherwise they leave memory alone and report 0; and the link is closed either way. */
  lemma EmittedAfterRun(isa: Isa, env: Env, end: Value, between: Between, ll: Ins, b: seq<Ins>, sc: Ins, k: seq<Ins>,
                        g: Guest,
                        g1: Guest, h: Host) returns (h1: Host)
    requires KeepsMonitor(between) && IsLinked(ll) && NoLinked(b) && Step(isa, env, ll, g) == Next(g1)
    requires IsConditional(sc) && 0 <= sc.rs < 32 && 0 < sc.rt < 32
    requires Rel(isa, end, Run(isa, env, between, b, between(|b|, Next(g1))), h)
    ensures Exec(isa, env, StoreConditional(sc) + k, h) == Exec(isa, env, k, h1) && h1.slots(LLBIT) == ZERO
    ensures if LinkUnbroken(isa, env, between, ll, b, sc, g, g1)
            then h1.mem == isa.store(if sc.op == 56 then SW else SD, h.mem, h.slots(TRANS_ADDR), h.slots(Gp(sc.rt)))
                 && h1.slots(Gp(sc.rt)) == ONE
            else h1.mem == h.mem && h1.slots(Gp(sc.rt)) == ZERO
  {
    LinkAfterRun(isa, env, between, ll, b, sc, g, g1);
    hide Exec, StoreConditional, LinkHolds, LinkUnbroken, Run, Step, KeepsMonitor;
    var g2 := Run(isa, env, between, b, between(|b|, Next(g1)));
    h1 := RunScGuest(isa, env, end, sc, k, g2, h);
    assert h.slots(Gp(sc.rt)) == g2.gpr(sc.rt);
  }

  // ---- what sc may write

  /** The protection an access is told is that of its page, and its mapping stands: the next store to the same address
      is let through if and only if the access was told 1, and then goes to the same place. */
  ghost predicate TellsProtection(env: Env) {
    forall t: Trace, mem: Mem, pc: Value, data: Value, registers: seq<Value>, mem2: Mem ::
      t.After? && t.last.Access? && env.translate(t, mem).Some? ==>
        var m := env.translate(t, mem).value;
        var next := env.translate(After(t, Access(pc, t.last.va, ONE, data, registers)), mem2);
        (next.Some? <==> m.prot == ONE) && (next.Some? ==> next.value.hva == m.hva)
  }

  /** The last call-out was the access the monitor remembers, and prot and hva are what it was told. */
  ghost predicate JustAccessed(env: Env, g: Guest) {
    exists mem :: WasTold(env, g, mem)
  }

  ghost predicate WasTold(env: Env, g: Guest, mem: Mem) {
    g.trace.After? && g.trace.last.Access? && g.trace.last.va == g.va
    && env.translate(g.trace, mem).Some? && env.translate(g.trace, mem).value.prot == g.prot
    && env.translate(g.trace, mem).value.hva == g.hva
  }

  lemma ProtectionDecides(env: Env, i: Ins, g: Guest)
    requires i.I? && TellsProtection(env) && JustAccessed(env, g) && AddressOf(i, g) == g.va
    ensures MayStore(env, i, g) <==> g.prot == ONE
    ensures MayStore(env, i, g) ==> StoreCheck(env, i, g).guest.hva == g.hva
  {
    hide AddressOf, Registers;
    var mem :| WasTold(env, g, mem);
  }

  /** sc writes only where a store would be let through? The emitted code never asks. Directly after an access to the
      same address, with the link open and the word unchanged, it does what sc means if and only if that access was told
      that the page may be written (and rt is not $0). */
  lemma ProtectionExact(isa: Isa, env: Env, end: Value, sc: Ins, g: Guest, h: Host)
    requires sc.I? && 0 <= sc.rs < 32 && 0 <= sc.rt < 32 && Rel(isa, end, g, h)
    requires TellsProtection(env) && JustAccessed(env, g) && LinkHolds(isa, sc, g)
    ensures Faithful(isa, env, end, ConditionalStep(isa, env, sc, g), StoreConditional(sc), h)
            <==> h.slots(LDST_OP) == ONE && sc.rt != 0
  {
    hide Faithful, ConditionalStep, StoreConditional, TellsProtection, JustAccessed, MayStore, AddressOf, LoadValue;
    ProtectionDecides(env, sc, g);
    ConditionalExactly(isa, env, end, sc, g, h);
  }

  /** ll leaves what ProtectionExact starts from. */
  lemma LinkedJustAccessed(isa: Isa, env: Env, ll: Ins, g: Guest, g1: Guest)
    requires IsLinked(ll) && Step(isa, env, ll, g) == Next(g1)
    ensures JustAccessed(env, g1)
  {
    hide LoadValue, AddressOf, Registers;
    assert WasTold(env, g1, g.mem);
  }

  lemma ReadOnlyTells()
    ensures TellsProtection(ReadOnlyEnv())
  {
  }

  const LL_EXAMPLE := I(48, 2, 1, 0)
  const SC_EXAMPLE := I(56, 2, 1, 0)

  lemma ZeroAddress(g: Guest)
    requires g.gpr(2) == ZERO
    ensures AddressOf(LL_EXAMPLE, g) == ZERO && AddressOf(SC_EXAMPLE, g) == ZERO
  {
  }

  lemma ReadOnlyExample(g: Guest)
    requires g.gpr(2) == ZERO
    ensures LinkedStep(OneIsa(), ReadOnlyEnv(), LL_EXAMPLE, g).Next?
    ensures var g1 := LinkedStep(OneIsa(), ReadOnlyEnv(), LL_EXAMPLE, g).guest;
      g1.mem == g.mem && LinkHolds(OneIsa(), SC_EXAMPLE, g1) && !MayStore(ReadOnlyEnv(), SC_EXAMPLE, g1)
  {
    ZeroAddress(g);
    hide AddressOf, Registers;
    var g1 := LinkedStep(OneIsa(), ReadOnlyEnv(), LL_EXAMPLE, g).guest;
    ZeroAddress(g1);
  }

  /** ll $1, 0($2); sc $1, 0($2) on a page that may be read and not written: the architecture stops at the sc with the
      page as it was, the emitted words of the two write it and go on. */
  lemma WritesReadOnlyPage(end: Value, k: seq<Ins>, g: Guest, h: Host) returns (h1: Host)
    requires Rel(OneIsa(), end, g, h) && g.gpr(2) == ZERO && g.mem == Mem(map[])
    ensures TellsProtection(ReadOnlyEnv()) && Step(OneIsa(), ReadOnlyEnv(), LL_EXAMPLE, g).Next?
    ensures var stopped := Step(OneIsa(), ReadOnlyEnv(), SC_EXAMPLE,
                                Step(OneIsa(), ReadOnlyEnv(), LL_EXAMPLE, g).guest);
      stopped.Exit? && stopped.mark == CHECK_TLB_DATA && stopped.guest.mem == h.mem
    ensures Exec(OneIsa(), ReadOnlyEnv(), LoadLinked(LL_EXAMPLE) + (StoreConditional(SC_EXAMPLE) + k), h)
            == Exec(OneIsa(), ReadOnlyEnv(), k, h1)
    ensures h1.mem != h.mem
  {
    ReadOnlyTells();
    ReadOnlyExample(g);
    var g1 := LinkedStep(OneIsa(), ReadOnlyEnv(), LL_EXAMPLE, g).guest;
    ExampleSteps(g);
    ExampleSteps(g1);
    RefusedConditional(OneIsa(), ReadOnlyEnv(), SC_EXAMPLE, g1);
    ExampleStore(g1);
    assert h.mem == g.mem;
    hide Rel, Exec, LoadLinked, StoreConditional, LinkHolds, MayStore, LinkedStep, ConditionalStep, Step, OneIsa,
      ReadOnlyEnv, TellsProtection;
    h1 := RunPair(OneIsa(), ReadOnlyEnv(), end, LL_EXAMPLE, SC_EXAMPLE, k, g, g1, h);
  }

  lemma ExampleStore(g: Guest)
    ensures OneIsa().store(SW, g.mem, g.hva, g.gpr(1)) != Mem(map[])
  {
    var written: map<bv64, bv8> := map[g.hva.bits := 1];
    assert OneIsa().store(SW, g.mem, g.hva, g.gpr(1)) == Mem(written);
    assert g.hva.bits in written;
  }

  /** The words of an ll and an sc one after the other: no translation takes place between. */
  lemma RunPair(isa: Isa, env: Env, end: Value, ll: Ins, sc: Ins, k: seq<Ins>, g: Guest, g1: Guest, h: Host)
    returns (h1: Host)
    requires IsLinked(ll) && 0 <= ll.rs < 32 && 0 < ll.rt < 32 && Rel(isa, end, g, h)
    requires sc.I? && sc.op == 56 && 0 <= sc.rs < 32 && 0 <= sc.rt < 32
    requires LinkedStep(isa, env, ll, g) == Next(g1) && LinkHolds(isa, sc, g1)
    ensures Exec(isa, env, LoadLinked(ll) + (StoreConditional(sc) + k), h) == Exec(isa, env, k, h1)
    ensures h1.mem == isa.store(SW, g1.mem, g1.hva, g1.gpr(sc.rt))
  {
    hide Rel, Exec, LoadLinked, StoreConditional, LinkHolds, LinkedStep;
    var a := LinkedRuns(isa, env, end, ll, StoreConditional(sc) + k, g, h);
    h1 := RunScGuest(isa, env, end, sc, k, g1, a);
  }

  lemma ExampleSteps(g: Guest)
    ensures Step(OneIsa(), ReadOnlyEnv(), LL_EXAMPLE, g) == LinkedStep(OneIsa(), ReadOnlyEnv(), LL_EXAMPLE, g)
    ensures Step(OneIsa(), ReadOnlyEnv(), SC_EXAMPLE, g) == ConditionalStep(OneIsa(), ReadOnlyEnv(), SC_EXAMPLE, g)
  {
    hide LinkedStep, ConditionalStep, OneIsa, ReadOnlyEnv;
  }

  lemma RefusedConditional(isa: Isa, env: Env, sc: Ins, g: Guest)
    requires sc.I? && !MayStore(env, sc, g)
    ensures ConditionalStep(isa, env, sc, g).Exit? && ConditionalStep(isa, env, sc, g).mark == CHECK_TLB_DATA
    ensures ConditionalStep(isa, env, sc, g).guest.mem == g.mem
  {
    hide Registers, AddressOf;
  }

  lemma TwoPlaces(g: Guest)
    ensures ConditionalStore(OneIsa(), SC_EXAMPLE, g, ZERO) != ConditionalStore(OneIsa(), SC_EXAMPLE, g, ONE)
  {
    var first: map<bv64, bv8>, second: map<bv64, bv8> := map[0 := 1], map[1 := 1];
    assert ConditionalStore(OneIsa(), SC_EXAMPLE, g, ZERO) == Mem(first);
    assert ConditionalStore(OneIsa(), SC_EXAMPLE, g, ONE) == Mem(second);
    assert 0 in first && 0 !in second;
  }

  lemma RemappedExample(g: Guest)
    requires g.gpr(2) == ZERO
    ensures LinkedStep(OneIsa(), RemappedEnv(), LL_EXAMPLE, g).Next?
    ensures var g1 := LinkedStep(OneIsa(), RemappedEnv(), LL_EXAMPLE, g).guest;
      LinkHolds(OneIsa(), SC_EXAMPLE, g1) && MayStore(RemappedEnv(), SC_EXAMPLE, g1)
      && !SameStore(OneIsa(), RemappedEnv(), SC_EXAMPLE, g1)
  {
    ZeroAddress(g);
    hide AddressOf, Registers, ConditionalStore;
    var g1 := LinkedStep(OneIsa(), RemappedEnv(), LL_EXAMPLE, g).guest;
    ZeroAddress(g1);
    TwoPlaces(g1);
  }

  /** A page remapped between ll $1, 0($2) and sc $1, 0($2), as by a tlbwi: the emitted sc writes where the page was. */
  lemma WritesOldMapping(end: Value, g: Guest, g1: Guest, h: Host)
    requires g.gpr(2) == ZERO && LinkedStep(OneIsa(), RemappedEnv(), LL_EXAMPLE, g) == Next(g1)
    requires Rel(OneIsa(), end, g1, h)
    ensures !Faithful(OneIsa(), RemappedEnv(), end, ConditionalStep(OneIsa(), RemappedEnv(), SC_EXAMPLE, g1),
                      StoreConditional(SC_EXAMPLE), h)
  {
    RemappedExample(g);
    hide Rel, Faithful, LinkHolds, MayStore, SameStore, StoreConditional, LinkedStep, ConditionalStep, OneIsa,
      RemappedEnv;
    ConditionalExactly(OneIsa(), RemappedEnv(), end, SC_EXAMPLE, g1, h);
  }
}
