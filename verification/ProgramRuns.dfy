/** Whole runs: block after block, with the C++ side in between. */
module ProgramRuns {
  import opened Words
  import opened Instructions
  import opened Machine
  import opened HostMachine
  import opened GuestMachine
  import opened HostSteps
  import opened Simulation
  import opened BlockTranslation
  import opened TranslatedCode
  import Decoder

  /** The guest's code does not change: the block found at each address, as cut by getBlock or fixBlock. */
  type Program = Value -> seq<Ins>

  /** After the n-th block the C++ side may do anything to the guest, depending on why the block was left and on the
      outside world: enter an exception, an interrupt or a non-maskable interrupt, deliver a timer tick, or nothing. */
  type Handler = (nat, int, Guest) -> Guest

  /** The same on the slots. */
  type HostHandler = (nat, Host) -> Host

  ghost predicate Implements(isa: Isa, handler: Handler, service: HostHandler) {
    forall n, end, m, g, h :: KnownMark(m) && Rel(isa, end, g, h) && h.slots(CONTROL_MARK) == MarkValue(m) ==>
      Rel(isa, end, handler(n, m, g), service(n, h))
  }

  /** The reference: n blocks of the guest. The handler is told how many are still to come. */
  function GuestRun(isa: Isa, env: Env, p: Program, handler: Handler, n: nat, g: Guest): Option<Guest> {
    if n == 0 then Some(g)
    else if |p(g.pc)| < 2 then None
    else
      match RunBlock(isa, env, p(g.pc), g)
      case Exit(m, g1) => GuestRun(isa, env, p, handler, n - 1, handler(n - 1, m, g1))
      case Next(_) => None
  }

  /** Every block of the run is translated faithfully where it stands. */
  predicate SupportedRun(isa: Isa, env: Env, p: Program, handler: Handler, n: nat, g: Guest) {
    n == 0
    || (SupportedBlock(p(g.pc), g.pc) && AllWellFormed(p(g.pc)) && BlockExact(isa, env, p(g.pc), g)
        && match RunBlock(isa, env, p(g.pc), g)
           case Exit(m, g1) => SupportedRun(isa, env, p, handler, n - 1, handler(n - 1, m, g1))
           case Next(_) => true)
  }

  /** The address of a block's control instruction, which fetchNextBlock leaves in a slot. */
  function BlockEnd(b: seq<Ins>, pc: Value): Value { if |b| < 2 then pc else Advance(pc, |b| - 2) }

  function WordsOf(b: seq<Ins>, end: Value): seq<Word> { if ModelledBlock(b) then Encoded(BlockCode(b, end)) else [] }

  /** The hypervisor: for each block, the slot of the block end, then the translated words from the first one, then the
      C++ side. */
  function HostRun(isa: Isa, env: Env, p: Program, service: HostHandler, n: nat, h: Host): Option<Host> {
    if n == 0 then Some(h)
    else
      var b := p(h.slots(PC));
      var end := BlockEnd(b, h.slots(PC));
      match Exec(isa, env, Parsed(WordsOf(b, end)), SetSlot(h, BLOCK_END_PC, end))
      case Leave(h1) => HostRun(isa, env, p, service, n - 1, service(n - 1, h1))
      case Broken => None
  }

  lemma RelEnd(isa: Isa, end: Value, g: Guest, h: Host, next: Value)
    requires Rel(isa, end, g, h)
    ensures Rel(isa, next, g, SetSlot(h, BLOCK_END_PC, next))
  {
  }

  lemma RelPcSlot(isa: Isa, end: Value, g: Guest, h: Host)
    requires Rel(isa, end, g, h)
    ensures h.slots(PC) == g.pc
  {
  }

  /** One block and the C++ side after it. */
  lemma BlockInRun(isa: Isa, env: Env, b: seq<Ins>, handler: Handler, service: HostHandler, n: nat, end: Value, m: int,
                   g: Guest, g1: Guest, h: Host)
    returns (h1: Host)
    requires Rel(isa, end, g, h) && Implements(isa, handler, service) && SupportedBlock(b, g.pc) && AllWellFormed(b)
    requires BlockExact(isa, env, b, g) && RunBlock(isa, env, b, g) == Exit(m, g1)
    ensures var last := BlockEnd(b, g.pc);
      Exec(isa, env, Parsed(WordsOf(b, last)), SetSlot(h, BLOCK_END_PC, last)) == Leave(h1)
      && Rel(isa, last, handler(n, m, g1), service(n, h1))
  {
    var last := BlockEnd(b, g.pc);
    SupportedIsModelledBlock(b, g.pc);
    RelEnd(isa, end, g, h, last);
    h1 := TranslatedBlockRuns(isa, env, b, last, WordsOf(b, last), g, SetSlot(h, BLOCK_END_PC, last));
    hide Exec, RunBlock, SupportedBlock, ModelledBlock, BlockExact, AllWellFormed, Rel, BlockCode;
  }

  /** Program simulation: over every run the reference can make, the hypervisor makes the same, and its slots, memory
      and call-outs are the reference's after every block. */
  lemma {:induction false} ProgramSimulated(isa: Isa, env: Env, p: Program, handler: Handler, service: HostHandler,
                                            n: nat,
                                            end: Value, g: Guest, h: Host) returns (last: Value, h1: Host)
    requires Rel(isa, end, g, h) && Implements(isa, handler, service) && SupportedRun(isa, env, p, handler, n, g)
    requires GuestRun(isa, env, p, handler, n, g).Some?
    ensures HostRun(isa, env, p, service, n, h) == Some(h1)
    ensures Rel(isa, last, GuestRun(isa, env, p, handler, n, g).value, h1)
    decreases n
  {
    hide Exec, RunBlock, SupportedBlock, BlockExact, AllWellFormed, Rel, Implements, WordsOf, BlockEnd, Parsed;
    if n == 0 {
      last, h1 := end, h;
    } else {
      var b := p(g.pc);
      last, h1 := BlockEnd(b, g.pc), h;
      RelPcSlot(isa, end, g, h);
      match RunBlock(isa, env, b, g) {
        case Exit(m, g1) =>
          h1 := BlockInRun(isa, env, b, handler, service, n - 1, end, m, g, g1, h);
          last, h1 := ProgramSimulated(isa, env, p, handler, service, n - 1, last, handler(n - 1, m, g1),
                                       service(n - 1, h1));
        case Next(_) =>
      }
    }
  }
}
