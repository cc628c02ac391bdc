/** madd and msub: the 21-word sequence against the 64-bit accumulator HI:LO, and what it means for the
    unsigned forms. */
module MaddSimulation {
  import opened Words
  import opened Instructions
  import opened Machine
  import opened HostMachine
  import opened GuestMachine
  import opened Emitters
  import opened HostSteps
  import opened Simulation
  import opened Faithfulness

  // ---- bit facts

  lemma LowHalfBits(b: bv64)
    ensures ShiftRight32(ShiftLeft32(Value(b))) == Value(b & 0xFFFF_FFFF)
  {
  }

  lemma LowHalf(x: Value)
    ensures ShiftRight32(ShiftLeft32(x)) == Value(x.bits & 0xFFFF_FFFF)
  {
    hide ShiftLeft32, ShiftRight32;
    LowHalfBits(x.bits);
  }

  lemma JoinBits(b: bv64)
    ensures Or(ShiftLeft32(Sra32(Value(b))), ShiftRight32(ShiftLeft32(SX32(Value(b))))) == Value(b)
  {
  }

  lemma JoinHalves(p: Value)
    ensures Or(ShiftLeft32(Sra32(p)), ShiftRight32(ShiftLeft32(SX32(p)))) == p
  {
    hide ShiftLeft32, ShiftRight32, Sra32, SX32, Or;
    JoinBits(p.bits);
  }

  lemma SignBits(b: bv64)
    ensures Sra32(ShiftLeft32(Value(b))) == SX32(Value(b))
  {
  }

  lemma SignExtendByShifts(x: Value)
    ensures Sra32(ShiftLeft32(x)) == SX32(x)
  {
    hide Sra32, ShiftLeft32, SX32;
    SignBits(x.bits);
  }

  lemma ProductCommutes(x: Value, y: Value)
    ensures Product(x, y) == Product(y, x)
  {
    hide SX32;
  }

  function JoinedAccumulator(hi: Value, lo: Value): Value {
    Or(ShiftLeft32(hi), ShiftRight32(ShiftLeft32(lo)))
  }

  lemma AccumulatorJoins(g: Guest)
    ensures JoinedAccumulator(g.hi, g.lo) == Accumulator(g)
  {
    LowHalf(g.lo);
  }

  // ---- the five stretches of the sequence

  lemma RunShift32(isa: Isa, t: int, d: int, func: int, h: Host)
    requires func == 60 || func == 62 || func == 63
    ensures IsPlain(R(0, 0, t, d, 0, func))
    ensures Plain(isa, R(0, 0, t, d, 0, func), h)
            == SetReg(h, d, if func == 60 then ShiftLeft32(h.regs(t)) else if func == 62 then ShiftRight32(h.regs(t))
                      else Sra32(h.regs(t)))
  {
    hide SetReg, ShiftLeft32, ShiftRight32, Sra32, Plain, PlainR;
    PlainShift(isa, 0, t, d, 0, func, h);
  }

  lemma RunLoadAccumulator(isa: Isa, env: Env, k: seq<Ins>, h: Host) returns (h1: Host)
    ensures Exec(isa, env, [Fetch(T1, LO), R(0, 0, T1, T1, 0, 60), R(0, 0, T1, T1, 0, 62), Fetch(T2, HI)] + k, h)
            == Exec(isa, env, k, h1)
    ensures SameSlots(h, h1) && h1.regs(T1) == ShiftRight32(ShiftLeft32(h.slots(LO))) && h1.regs(T2) == h.slots(HI)
  {
    hide Plain, PlainI, PlainR, Exec, ShiftLeft32, ShiftRight32;
    PlainFetch(isa, T1, LO, h);
    h1 := SetReg(h, T1, h.slots(LO));
    RunShift32(isa, T1, T1, 60, h1);
    h1 := SetReg(h1, T1, ShiftLeft32(h1.regs(T1)));
    RunShift32(isa, T1, T1, 62, h1);
    h1 := SetReg(h1, T1, ShiftRight32(h1.regs(T1)));
    PlainFetch(isa, T2, HI, h1);
    h1 := SetReg(h1, T2, h1.slots(HI));
    Line4(isa, env, Fetch(T1, LO), R(0, 0, T1, T1, 0, 60), R(0, 0, T1, T1, 0, 62), Fetch(T2, HI), k, h);
  }

  lemma RunMultiply(isa: Isa, env: Env, rs: int, rt: int, k: seq<Ins>, h: Host) returns (h1: Host)
    ensures Exec(isa, env, [R(0, 0, T2, T2, 0, 60), R(0, T2, T1, T3, 0, 37), Fetch(T1, Gp(rs)), Fetch(T2, Gp(rt)),
                            R(0, T2, T1, 0, 0, 24)] + k, h)
            == Exec(isa, env, k, h1)
    ensures SameSlots(h, h1) && h1.regs(T3) == Or(ShiftLeft32(h.regs(T2)), h.regs(T1))
    ensures var p := Product(h.slots(Gp(rt)), h.slots(Gp(rs))); h1.hi == Sra32(p) && h1.lo == SX32(p)
  {
    hide Plain, PlainI, PlainR, Exec, ShiftLeft32, Or, Sra32, SX32, Product;
    RunShift32(isa, T2, T2, 60, h);
    h1 := SetReg(h, T2, ShiftLeft32(h.regs(T2)));
    PlainThree(isa, 0, T2, T1, T3, 0, 37, h1);
    h1 := SetReg(h1, T3, Or(h1.regs(T2), h1.regs(T1)));
    PlainFetch(isa, T1, Gp(rs), h1);
    h1 := SetReg(h1, T1, h1.slots(Gp(rs)));
    PlainFetch(isa, T2, Gp(rt), h1);
    h1 := SetReg(h1, T2, h1.slots(Gp(rt)));
    PlainMul(isa, T2, T1, 0, 0, 24, h1);
    var p := Product(h1.regs(T2), h1.regs(T1));
    h1 := h1.(hi := Sra32(p), lo := SX32(p));
    Line5(isa, env, R(0, 0, T2, T2, 0, 60), R(0, T2, T1, T3, 0, 37), Fetch(T1, Gp(rs)), Fetch(T2, Gp(rt)),
          R(0, T2, T1, 0, 0, 24), k, h);
  }

  lemma RunReadProduct(isa: Isa, env: Env, k: seq<Ins>, h: Host) returns (h1: Host)
    ensures Exec(isa, env, [R(0, 0, 0, T1, 0, 18), R(0, 0, T1, T1, 0, 60), R(0, 0, T1, T1, 0, 62),
                            R(0, 0, 0, T2, 0, 16)] + k, h)
            == Exec(isa, env, k, h1)
    ensures SameSlots(h, h1) && h1.regs(T3) == h.regs(T3)
    ensures h1.regs(T1) == ShiftRight32(ShiftLeft32(h.lo)) && h1.regs(T2) == h.hi
  {
    hide Plain, PlainI, PlainR, Exec, ShiftLeft32, ShiftRight32;
    PlainMoveHiLo(isa, T1, h);
    h1 := SetReg(h, T1, h.lo);
    RunShift32(isa, T1, T1, 60, h1);
    h1 := SetReg(h1, T1, ShiftLeft32(h1.regs(T1)));
    RunShift32(isa, T1, T1, 62, h1);
    h1 := SetReg(h1, T1, ShiftRight32(h1.regs(T1)));
    PlainMoveHiLo(isa, T2, h1);
    h1 := SetReg(h1, T2, h1.hi);
    Line4(isa, env, R(0, 0, 0, T1, 0, 18), R(0, 0, T1, T1, 0, 60), R(0, 0, T1, T1, 0, 62), R(0, 0, 0, T2, 0, 16), k, h);
  }

  function Combine(func: int, a: Value, p: Value): Value {
    if func == 44 || func == 45 then Plus(a, p) else Minus(a, p)
  }

  lemma RunCombine(isa: Isa, env: Env, func: int, k: seq<Ins>, h: Host) returns (h1: Host)
    requires 44 <= func <= 47
    ensures Exec(isa, env, [R(0, 0, T2, T2, 0, 60), R(0, T2, T1, T1, 0, 37), R(0, T3, T1, T1, 0, func),
                            R(0, 0, T1, T2, 0, 63)] + k, h)
            == Exec(isa, env, k, h1)
    ensures SameSlots(h, h1)
    ensures var a := Combine(func, h.regs(T3), Or(ShiftLeft32(h.regs(T2)), h.regs(T1)));
      h1.regs(T1) == a && h1.regs(T2) == Sra32(a)
  {
    hide Plain, PlainI, PlainR, Exec, ShiftLeft32, Or, Sra32, Plus, Minus;
    RunShift32(isa, T2, T2, 60, h);
    h1 := SetReg(h, T2, ShiftLeft32(h.regs(T2)));
    PlainThree(isa, 0, T2, T1, T1, 0, 37, h1);
    h1 := SetReg(h1, T1, Or(h1.regs(T2), h1.regs(T1)));
    PlainThree(isa, 0, T3, T1, T1, 0, func, h1);
    h1 := SetReg(h1, T1, Combine(func, h1.regs(T3), h1.regs(T1)));
    RunShift32(isa, T1, T2, 63, h1);
    h1 := SetReg(h1, T2, Sra32(h1.regs(T1)));
    Line4(isa, env, R(0, 0, T2, T2, 0, 60), R(0, T2, T1, T1, 0, 37), R(0, T3, T1, T1, 0, func), R(0, 0, T1, T2, 0, 63),
          k, h);
  }

  lemma RunWriteBack(isa: Isa, env: Env, k: seq<Ins>, h: Host) returns (h1: Host)
    ensures Exec(isa, env, [Put(T2, HI), R(0, 0, T1, T1, 0, 60), R(0, 0, T1, T1, 0, 63), Put(T1, LO)] + k, h)
            == Exec(isa, env, k, h1)
    ensures Wrote2(h, h1, HI, h.regs(T2), LO, SX32(h.regs(T1)))
  {
    hide Plain, PlainI, PlainR, Exec, ShiftLeft32, Sra32, SX32;
    PlainPut(isa, T2, HI, h);
    h1 := SetSlot(h, HI, h.regs(T2));
    RunShift32(isa, T1, T1, 60, h1);
    h1 := SetReg(h1, T1, ShiftLeft32(h1.regs(T1)));
    RunShift32(isa, T1, T1, 63, h1);
    SignExtendByShifts(h.regs(T1));
    h1 := SetReg(h1, T1, SX32(h.regs(T1)));
    PlainPut(isa, T1, LO, h1);
    h1 := SetSlot(h1, LO, h1.regs(T1));
    Line4(isa, env, Put(T2, HI), R(0, 0, T1, T1, 0, 60), R(0, 0, T1, T1, 0, 63), Put(T1, LO), k, h);
  }

  /** The whole sequence: HI and LO become the sign-extended halves of the accumulator plus or minus the signed
      product, whichever of the four instructions it was emitted for. */
  lemma RunMadd(isa: Isa, env: Env, i: Ins, k: seq<Ins>, h: Host) returns (h1: Host)
    requires i.R?
    ensures Exec(isa, env, Madd(i) + k, h) == Exec(isa, env, k, h1)
    ensures var a := JoinedAccumulator(h.slots(HI), h.slots(LO));
      var p := Product(h.slots(Gp(i.rt)), h.slots(Gp(i.rs)));
      var r := if i.func == 0 || i.func == 1 then Plus(a, p) else Minus(a, p);
      Wrote2(h, h1, HI, Sra32(r), LO, SX32(r))
  {
    hide Exec, ShiftLeft32, ShiftRight32, Or, Sra32, SX32, Product, Plus, Minus;
    var func := if i.func == 0 then 44 else if i.func == 1 then 45 else if i.func == 4 then 46 else 47;
    var c1 := [Fetch(T1, LO), R(0, 0, T1, T1, 0, 60), R(0, 0, T1, T1, 0, 62), Fetch(T2, HI)];
    var c2 := [R(0, 0, T2, T2, 0, 60), R(0, T2, T1, T3, 0, 37), Fetch(T1, Gp(i.rs)), Fetch(T2, Gp(i.rt)),
               R(0, T2, T1, 0, 0, 24)];
    var c3 := [R(0, 0, 0, T1, 0, 18), R(0, 0, T1, T1, 0, 60), R(0, 0, T1, T1, 0, 62), R(0, 0, 0, T2, 0, 16)];
    var c4 := [R(0, 0, T2, T2, 0, 60), R(0, T2, T1, T1, 0, 37), R(0, T3, T1, T1, 0, func), R(0, 0, T1, T2, 0, 63)];
    var c5 := [Put(T2, HI), R(0, 0, T1, T1, 0, 60), R(0, 0, T1, T1, 0, 63), Put(T1, LO)];
    Assoc(c1, c2 + (c3 + (c4 + c5)), k);
    Assoc(c2, c3 + (c4 + c5), k);
    Assoc(c3, c4 + c5, k);
    Assoc(c4, c5, k);
    var a := RunLoadAccumulator(isa, env, c2 + (c3 + (c4 + (c5 + k))), h);
    var b := RunMultiply(isa, env, i.rs, i.rt, c3 + (c4 + (c5 + k)), a);
    var c := RunReadProduct(isa, env, c4 + (c5 + k), b);
    JoinHalves(Product(h.slots(Gp(i.rt)), h.slots(Gp(i.rs))));
    var d := RunCombine(isa, env, func, c5 + k, c);
    h1 := RunWriteBack(isa, env, k, d);
  }

  lemma MaddRuns(isa: Isa, env: Env, end: Value, i: Ins, k: seq<Ins>, g: Guest, h: Host) returns (h1: Host)
    requires i.R? && 0 <= i.rs < 32 && 0 <= i.rt < 32 && Rel(isa, end, g, h)
    ensures var p := Product(g.gpr(i.rs), g.gpr(i.rt));
      Simulates(isa, env, end, Next(SetAccumulator(g, Accumulated(i.func, Accumulator(g), p))), Madd(i), k, h, h1)
  {
    hide Exec, Sra32, SX32, Product, Plus, Minus, Accumulator, JoinedAccumulator, Madd;
    h1 := RunMadd(isa, env, i, k, h);
    AccumulatorJoins(g);
    ProductCommutes(g.gpr(i.rs), g.gpr(i.rt));
    RelHiLo(isa, end, g, h, h1.slots(HI), h1.slots(LO), h1);
  }

  // ---- maddu and msubu: the emitted multiplication is signed

  predicate Negative32(x: bv64) { x & 0x8000_0000 != 0 }

  function Borrow(x: bv64): bv64 { x - 0x1_0000_0000 }

  // p less 2^32 * y, modulo 2^64.
  function Less(p: bv64, y: bv64): bv64 { p - (y << 32) }

  function UpperSum(x: bv64, y: bv64): bv64 { (x << 32) + (y << 32) }

  lemma PositiveWord(x: bv64)
    requires !Negative32(x)
    ensures SignExtend32(x) == Low32(x)
  {
  }

  lemma NegativeWord(x: bv64)
    requires Negative32(x)
    ensures SignExtend32(x) == Borrow(Low32(x))
  {
  }

  lemma TimesCommutes(x: bv64, y: bv64)
    ensures Times(x, y) == Times(y, x)
  {
  }

  lemma BorrowTimes(x: bv64, y: bv64)
    ensures Times(Borrow(x), y) == Less(Times(x, y), y)
  {
    hide Times, Less;
    BorrowedTimes(x, y);
  }

  lemma BorrowedTimes(x: bv64, y: bv64)
    ensures Times(x - 0x1_0000_0000, y) == Less(Times(x, y), y)
  {
    calc {
      Times(x - 0x1_0000_0000, y);
      (x - 0x1_0000_0000) * y;
      x * y - (y << 32);
      Times(x, y) - (y << 32);
      Less(Times(x, y), y);
    }
  }

  lemma LessIsSame(p: bv64, y: bv64)
    ensures Less(p, Low32(y)) == p <==> Low32(y) == 0
  {
  }

  lemma NoChangeBits(p: bv64, q: bv64)
    ensures p - q == p <==> q == 0
  {
  }

  lemma NoChange(p: bv64, q: bv64)
    ensures Difference64(p, q) == p <==> q == 0
  {
    NoChangeBits(p, q);
    calc { Difference64(p, q); p - q; }
    hide *;
  }

  lemma LessTwice(p: bv64, x: bv64, y: bv64)
    ensures Less(Less(p, x), y) == Difference64(p, UpperSum(x, y))
  {
    calc {
      Less(Less(p, x), y);
      Less(p, x) - (y << 32);
      p - (x << 32) - (y << 32);
      p - ((x << 32) + (y << 32));
      p - UpperSum(x, y);
      Difference64(p, UpperSum(x, y));
    }
  }

  lemma LessBorrowedBits(p: bv64, y: bv64)
    ensures Less(p, y - 0x1_0000_0000) == Less(p, y)
  {
  }

  lemma LessBorrowed(p: bv64, y: bv64)
    ensures Less(p, Borrow(y)) == Less(p, y)
  {
    hide Less;
    LessBorrowedBits(p, y);
  }

  lemma UpperSumBits(x: bv64, y: bv64)
    requires Negative32(x) && Negative32(y)
    ensures UpperSum(Low32(x), Low32(y)) == 0 <==> Low32(x) == 0x8000_0000 && Low32(y) == 0x8000_0000
  {
  }

  /** One operand negative as a signed word. */
  lemma MixedSigns(x: bv64, y: bv64)
    requires Negative32(x) && !Negative32(y)
    ensures Times(SignExtend32(x), SignExtend32(y)) == Times(Low32(x), Low32(y)) <==> Low32(y) == 0
  {
    hide *;
    NegativeWord(x);
    PositiveWord(y);
    BorrowTimes(Low32(x), Low32(y));
    LessIsSame(Times(Low32(x), Low32(y)), y);
  }

  lemma BothNegative(x: bv64, y: bv64)
    requires Negative32(x) && Negative32(y)
    ensures Times(SignExtend32(x), SignExtend32(y)) == Times(Low32(x), Low32(y))
            <==> Low32(x) == 0x8000_0000 && Low32(y) == 0x8000_0000
  {
    hide *;
    var a, b := Low32(x), Low32(y);
    NegativeWord(x);
    NegativeWord(y);
    BorrowTimes(a, Borrow(b));
    LessBorrowed(Times(a, Borrow(b)), b);
    TimesCommutes(a, Borrow(b));
    BorrowTimes(b, a);
    TimesCommutes(a, b);
    LessTwice(Times(a, b), a, b);
    NoChange(Times(a, b), UpperSum(a, b));
    UpperSumBits(x, y);
  }

  /** Operands whose product as signed and as unsigned words is the same: both below 2^31, one of them 0, or both
      2^31. */
  predicate ProductsAgree(x: Value, y: Value) {
    (!Negative32(x.bits) && !Negative32(y.bits)) || Low32(x.bits) == 0 || Low32(y.bits) == 0
    || (Low32(x.bits) == 0x8000_0000 && Low32(y.bits) == 0x8000_0000)
  }

  lemma ZeroIsPositive(x: bv64)
    requires Negative32(x)
    ensures Low32(x) != 0
  {
  }

  lemma MidIsNegative(x: bv64)
    requires Low32(x) == 0x8000_0000
    ensures Negative32(x)
  {
  }

  lemma SignedTimes(x: bv64, y: bv64)
    ensures Times(SignExtend32(x), SignExtend32(y)) == Times(Low32(x), Low32(y)) <==> ProductsAgree(Value(x), Value(y))
  {
    hide Times, SignExtend32, Low32, Negative32;
    if Negative32(x) { ZeroIsPositive(x); }
    if Negative32(y) { ZeroIsPositive(y); }
    if Low32(x) == 0x8000_0000 { MidIsNegative(x); }
    if Low32(y) == 0x8000_0000 { MidIsNegative(y); }
    if Negative32(x) && Negative32(y) {
      BothNegative(x, y);
    } else if Negative32(x) {
      MixedSigns(x, y);
    } else if Negative32(y) {
      MixedSigns(y, x);
      TimesCommutes(SignExtend32(x), SignExtend32(y));
      TimesCommutes(Low32(x), Low32(y));
    } else {
      PositiveWord(x);
      PositiveWord(y);
    }
  }

  /** The signed product of two words is their unsigned product modulo 2^64 for these operands only. */
  lemma ProductExact(x: Value, y: Value)
    ensures Product(x, y) == UnsignedProduct(x, y) <==> ProductsAgree(x, y)
  {
    hide Times, SignExtend32, Low32, ProductsAgree;
    SignedTimes(x.bits, y.bits);
  }

  lemma SumUndoneBits(a: bv64, p: bv64)
    ensures Difference64(a + p, a) == p && Difference64(a, a - p) == p
  {
  }

  lemma SumUndone(a: bv64, p: bv64)
    ensures Difference64(Sum64(a, p), a) == p
  {
    hide Difference64;
    SumUndoneBits(a, p);
  }

  lemma DifferenceUndone(a: bv64, p: bv64)
    ensures Difference64(a, Difference64(a, p)) == p
  {
    assert Difference64(a, p) == a - p;
    SumUndoneBits(a, p);
    hide Difference64;
  }

  function Accumulated(func: int, a: Value, p: Value): Value {
    if func == 0 || func == 1 then Plus(a, p) else Minus(a, p)
  }

  lemma SameAccumulated(func: int, a: Value, p: Value, q: Value)
    ensures Accumulated(func, a, p) == Accumulated(func, a, q) ==> p == q
  {
    SumUndone(a.bits, p.bits);
    SumUndone(a.bits, q.bits);
    DifferenceUndone(a.bits, p.bits);
    DifferenceUndone(a.bits, q.bits);
    hide Sum64, Difference64;
  }

  lemma SameHalves(a: Value, b: Value)
    requires Sra32(a) == Sra32(b) && SX32(a) == SX32(b)
    ensures a == b
  {
    JoinHalves(a);
    JoinHalves(b);
    hide Sra32, SX32, Or, ShiftLeft32, ShiftRight32;
  }

  lemma TwoAccumulators(isa: Isa, end: Value, g: Guest, a: Value, b: Value, h: Host)
    requires Rel(isa, end, SetAccumulator(g, a), h) && Rel(isa, end, SetAccumulator(g, b), h)
    ensures a == b
  {
    assert SetAccumulator(g, a).hi == SetAccumulator(g, b).hi && SetAccumulator(g, a).lo == SetAccumulator(g, b).lo;
    SameHalves(a, b);
    hide Sra32, SX32;
  }

  /** The emitted maddu and msubu do what the instructions mean for exactly the operands whose two products agree. */
  lemma UnsignedExact(isa: Isa, env: Env, end: Value, i: Ins, g: Guest, h: Host)
    requires i.R? && 0 <= i.rs < 32 && 0 <= i.rt < 32 && (i.func == 1 || i.func == 5) && Rel(isa, end, g, h)
    ensures var p := UnsignedProduct(g.gpr(i.rs), g.gpr(i.rt));
      Faithful(isa, env, end, Next(SetAccumulator(g, Accumulated(i.func, Accumulator(g), p))), Madd(i), h)
      <==> ProductsAgree(g.gpr(i.rs), g.gpr(i.rt))
  {
    hide Rel, Exec, Faithful, SetAccumulator, Accumulated, Accumulator, Product, UnsignedProduct, ProductsAgree, Madd,
      ExitC, Simulates;
    var x, y := g.gpr(i.rs), g.gpr(i.rt);
    ProductExact(x, y);
    var r := Next(SetAccumulator(g, Accumulated(i.func, Accumulator(g), UnsignedProduct(x, y))));
    if ProductsAgree(x, y) {
      assert Faithful(isa, env, end, r, Madd(i), h) by {
        MaddFaithful(isa, env, end, i, g, h);
      }
    } else {
      var h1 := MaddRuns(isa, env, end, i, ExitC(), g, h);
      var g1 := SetAccumulator(g, Accumulated(i.func, Accumulator(g), Product(x, y)));
      Reached(isa, env, end, g1, Madd(i), h, h1);
      if Rel(isa, end, r.guest, h1) {
        TwoAccumulators(isa, end, g, Accumulated(i.func, Accumulator(g), Product(x, y)),
                        Accumulated(i.func, Accumulator(g), UnsignedProduct(x, y)), h1);
        SameAccumulated(i.func, Accumulator(g), Product(x, y), UnsignedProduct(x, y));
      }
      NotFaithful(isa, env, end, r, Madd(i), h, h1);
    }
  }

  lemma MaddFaithful(isa: Isa, env: Env, end: Value, i: Ins, g: Guest, h: Host)
    requires i.R? && 0 <= i.rs < 32 && 0 <= i.rt < 32 && Rel(isa, end, g, h)
    ensures var p := Product(g.gpr(i.rs), g.gpr(i.rt));
      Faithful(isa, env, end, Next(SetAccumulator(g, Accumulated(i.func, Accumulator(g), p))), Madd(i), h)
  {
    hide Rel, SetAccumulator, Accumulated, Accumulator, Product, Madd, Simulates;
    var r := Next(SetAccumulator(g, Accumulated(i.func, Accumulator(g), Product(g.gpr(i.rs), g.gpr(i.rt)))));
    forall k ensures Reaches(isa, env, end, r, Madd(i), k, h) {
      var h1 := MaddRuns(isa, env, end, i, k, g, h);
    }
  }

  lemma AllOnes()
    ensures Negative32(0xFFFF_FFFF) && Low32(0xFFFF_FFFF) != 0 && Low32(0xFFFF_FFFF) != 0x8000_0000
  {
  }

  /** All ones times all ones is 1 to the emitted code: maddu $1, $2 with 0xFFFF_FFFF in both registers goes wrong. */
  lemma UnsignedFails(isa: Isa, env: Env, end: Value)
    ensures Product(Value(0xFFFF_FFFF), Value(0xFFFF_FFFF)) == ONE
    ensures UnsignedProduct(Value(0xFFFF_FFFF), Value(0xFFFF_FFFF)) == Value(0xFFFF_FFFE_0000_0001)
    ensures var g := PlainGuest(Value(0xFFFF_FFFF), ZERO, ZERO);
      var p := UnsignedProduct(g.gpr(1), g.gpr(2));
      !Faithful(isa, env, end, Next(SetAccumulator(g, Accumulated(1, Accumulator(g), p))), Madd(R(28, 1, 2, 0, 0, 1)),
                HostFor(isa, end, g))
  {
    var g := PlainGuest(Value(0xFFFF_FFFF), ZERO, ZERO);
    HostForRel(isa, end, g);
    AllOnes();
    hide Rel, Faithful, SetAccumulator, Accumulated, Accumulator, Madd, HostFor, Negative32, Low32;
    UnsignedExact(isa, env, end, R(28, 1, 2, 0, 0, 1), g, HostFor(isa, end, g));
  }
}
