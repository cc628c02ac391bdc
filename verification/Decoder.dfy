/** Classification of instructions, the block cutter and the dispatch tables. */
module Decoder {
  import opened Instructions

  /** IInfo::isCntrlInstR/I/J. */
  predicate IsControl(i: Ins) {
    match i
    case R(op, rs, _, _, _, func) =>
      (op == 0 && (func == 8 || func == 9)) || ((op == 16 || op == 18) && rs == 8) || (op == 17 && 8 <= rs <= 10)
    case I(op, _, rt, _) =>
      4 <= op <= 7 || 20 <= op <= 23 || op == 50 || op == 54 || op == 58 || op == 62
      || (op == 1 && (0 <= rt <= 3 || 16 <= rt <= 19))
    case J(op, _) => true
  }

  /** What each entry of the dispatch tables calls. */
  datatype Handler =
    | UnprevR | ShiftR | MulDivR | Madd | MoveFromLoHi | MoveToLoHi | ExtR | InsR | SeqiSnei | UnprevI
    | Load | Store | LoadLinked | StoreConditional | OneNop | TwoNops | NoCode
    | TeqTne | TgeTlt | TeqiTnei | TgeiTlti | Syscall | Break
    | Mfc0 | Mtc0 | DiEi | TlbOp | Eret | Wait | Terminate | Rdhwr | Saa | Multiplier
    | BneBeq | Branch | BneBeqLikely | BranchLikely | BBit | Jump | JumpLink | JumpReg | JumpLinkReg
    | NotAnInstruction | PastTable

  /** The handlers that read the delay-slot argument. */
  predicate NeedsSlot(h: Handler) {
    h.BneBeq? || h.Branch? || h.BneBeqLikely? || h.BranchLikely? || h.BBit?
    || h.Jump? || h.JumpLink? || h.JumpReg? || h.JumpLinkReg?
  }

  // Opcode_1 takes this bit pattern for a rotate before it looks at the branch selector.
  predicate RotatePattern(i: Ins) {
    i.I? && i.op == 1 && i.rs == 0 && i.imm % 64 == 58
  }

  function DispatchSpecial(i: Ins): Handler
    requires i.R?
  {
    var f := i.func;
    if f == 0 then
      if i == NOP then OneNop
      else if i.rs == 0 && i.rd == 0 && i.rt == 0 then (if i.sa == 1 || i.sa == 3 then OneNop else NoCode)
      else ShiftR
    else if f == 2 || f == 3 || f == 56 || f == 58 || f == 59 || f == 60 || f == 62 || f == 63 then ShiftR
    else if f == 8 then JumpReg
    else if f == 9 then JumpLinkReg
    else if f == 12 then Syscall
    else if f == 13 then Break
    else if f == 14 || f == 15 then OneNop
    else if f == 16 || f == 18 then MoveFromLoHi
    else if f == 17 || f == 19 then MoveToLoHi
    else if 24 <= f <= 31 then MulDivR
    else if 48 <= f <= 51 then TgeTlt
    else if f == 52 || f == 54 then TeqTne
    else if f == 1 || f == 5 || f == 21 || f == 40 || f == 41 || f == 53 || f == 55 || f == 57
        || f == 61 then NotAnInstruction
    else UnprevR
  }

  function DispatchRegImm(i: Ins): Handler
    requires i.I?
  {
    if RotatePattern(i) then ShiftR
    else if i.rt == 0 || i.rt == 1 || i.rt == 16 || i.rt == 17 then Branch
    else if i.rt == 2 || i.rt == 3 || i.rt == 18 || i.rt == 19 then BranchLikely
    else if 8 <= i.rt <= 11 then TgeiTlti
    else if i.rt == 12 || i.rt == 14 then TeqiTnei
    else if i.rt == 31 then OneNop
    else NotAnInstruction
  }

  function DispatchCop0(i: Ins): Handler
    requires i.R?
  {
    var a, f := i.rs, i.func;
    if a == 16 then
      if f > 32 then PastTable
      else if f == 1 || f == 2 || f == 6 || f == 8 then TlbOp
      else if f == 24 then Eret
      else if f == 31 then OneNop
      else if f == 32 then Wait
      else NotAnInstruction
    else if a == 0 || a == 1 then Mfc0
    else if a == 4 || a == 5 then Mtc0
    else if a == 10 || a == 14 then OneNop
    else if a == 11 then (if f == 0 || f == 32 then DiEi else NoCode)
    else NotAnInstruction
  }

  function DispatchSpecial2(i: Ins): Handler
    requires i.R?
  {
    var f := i.func;
    if f == 0 || f == 1 || f == 4 || f == 5 then Madd
    else if f == 8 || f == 9 || f == 10 || f == 11 || f == 12 || f == 13 || f == 17 then Multiplier
    else if f == 15 || f == 16 then NoCode
    else if f == 24 || f == 25 then Saa
    else if f == 2 || f == 3 || f == 32 || f == 33 || f == 36 || f == 37 || f == 40 || 42 <= f <= 45 then UnprevR
    else if f == 46 || f == 47 then SeqiSnei
    else if f == 50 || f == 51 then InsR
    else if f == 58 || f == 59 then ExtR
    else if f == 63 then OneNop
    else NotAnInstruction
  }

  function DispatchSpecial3(i: Ins): Handler
    requires i.R?
  {
    var f := i.func;
    if f > 59 then PastTable
    else if f <= 3 then ExtR
    else if f <= 7 then InsR
    else if f == 32 || f == 36 then UnprevR
    else if f == 59 then Rdhwr
    else NotAnInstruction
  }

  /** findInstrCase: the opcode table and its sub-tables. */
  function Dispatch(i: Ins): Handler {
    match i
    case J(op, _) => if op == 2 then Jump else JumpLink
    case R(op, rs, _, _, _, _) =>
      if op == 0 then DispatchSpecial(i)
      else if op == 16 then DispatchCop0(i)
      else if op == 18 then (if rs == 1 || rs == 5 then OneNop else NoCode)
      else if op == 28 then DispatchSpecial2(i)
      else if op == 31 then DispatchSpecial3(i)
      else NotAnInstruction
    case I(op, _, _, _) =>
      if op == 1 then DispatchRegImm(i)
      else if op == 4 || op == 5 then BneBeq
      else if op == 6 || op == 7 then Branch
      else if op == 20 || op == 21 then BneBeqLikely
      else if op == 22 || op == 23 then BranchLikely
      else if op == 50 || op == 54 || op == 58 || op == 62 then BBit
      else if 8 <= op <= 15 || op == 24 || op == 25 then UnprevI
      else if op == 26 || op == 27 || 32 <= op <= 39 || op == 55 then Load
      else if 40 <= op <= 46 || op == 63 then Store
      else if op == 47 then OneNop
      else if op == 51 then TwoNops
      else if op == 48 || op == 52 then LoadLinked
      else if op == 56 || op == 60 then StoreConditional
      else if op == 59 then Terminate
      else NotAnInstruction
  }

  /** Decoder agreement: the classifier and the dispatch tables see the same control instructions, except for
      coprocessor branches, which the tables reject or drop, and the rotate pattern of opcode 1. */
  lemma ControlAgreesWithDispatch(i: Ins)
    requires WellFormed(i)
    ensures NeedsSlot(Dispatch(i))
            <==> IsControl(i) && !(i.R? && 16 <= i.op <= 18) && !RotatePattern(i)
  {
    match i
    case R(op, _, _, _, _, _) => assert op == 0 || op != 0;
    case I(op, _, _, _) => assert op == 1 || op != 1;
    case J(_, _) =>
  }

  /** Neither the instructions before the control instruction nor its delay slot read a delay-slot argument: translating
      them without one is safe. */
  lemma NoMissingSlot(b: seq<Ins>, n: nat)
    requires n + 2 == |b| && (forall k :: 0 <= k < |b| ==> WellFormed(b[k])) && !IsControl(b[n + 1])
    requires forall k :: 0 <= k < n ==> !IsControl(b[k])
    ensures forall k :: 0 <= k < |b| && k != n ==> !NeedsSlot(Dispatch(b[k]))
  {
    forall k | 0 <= k < |b| && k != n ensures !NeedsSlot(Dispatch(b[k])) {
      ControlAgreesWithDispatch(b[k]);
    }
  }

  /** InstBlock: the instruction vector is refilled for every block. */
  class InstBlock {
    var instructions: seq<Ins>

    /** getBlock: everything up to the first control instruction, and the word after it. */
    method GetBlock(code: seq<Word>) returns (ghost n: nat)
      requires exists k :: 0 <= k < |code| - 1 && IsControl(Parse(code[k]))
      modifies this
      ensures n + 2 <= |code| && |instructions| == n + 2
      ensures forall k :: 0 <= k < n + 2 ==> instructions[k] == Parse(code[k])
      ensures IsControl(instructions[n]) && forall k :: 0 <= k < n ==> !IsControl(instructions[k])
    {
      instructions := [];
      var p := 0;
      while true
        invariant 0 <= p == |instructions| <= |code| - 1
        invariant forall k :: 0 <= k < p ==> instructions[k] == Parse(code[k]) && !IsControl(instructions[k])
        decreases |code| - p
      {
        assert exists k :: p <= k < |code| - 1 && IsControl(Parse(code[k]));
        var i := Parse(code[p]);
        instructions := instructions + [i];
        p := p + 1;
        if IsControl(i) {
          instructions := instructions + [Parse(code[p])];
          n := p - 1;
          return;
        }
      }
    }
  }
}
