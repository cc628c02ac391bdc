/** The message box between a core (IOManager::updateMessageBox) and a device thread (CIU::start), as interleaved
    atomic steps of one core and one device. */
module Handshake {
  import opened Words

  datatype Message = Message(rw: Value, data: Value, addr: Value)

  /** Where the core is: Taken is between seeing isServiced and clearing it; the numbered states are between the
      mutex calls. */
  datatype Core =
    | Running
    | WaitToPost(m: Message) | Taken(m: Message) | WantLock(m: Message)
    | Locked(m: Message) | Signalled(m: Message) | WroteRw(m: Message) | WroteData(m: Message) | WroteAddr(m: Message)
    | WaitToRead

  /** Where the device is: Asleep in pthread_cond_wait with the mutex released, Woken but without the mutex, Serving
      with it, Served before isServiced is set, Done before the next wait. */
  datatype Device = Asleep | Woken | Serving | Served | Done

  datatype Owner = Free | ByCore | ByDevice

  /** sent: the messages completely posted; processed: what updateFlags read; answered: how many messages had been sent,
      and how many processed, when a device read came back. */
  datatype Box = Box(
    isServiced: bool, owner: Owner, rw: Value, data: Value, addr: Value, core: Core, device: Device,
    sent: seq<Message>, processed: seq<Message>, answered: seq<(nat, nat)>)

  datatype Move =
    | StartPost(m: Message) | StartRead
    | SeeServiced | ClearServiced | CoreLock | Signal | WriteRw | WriteData | WriteAddr | CoreUnlock | ReadReturns
    | DeviceLock | UpdateFlags | SetServiced | DeviceWait

  function Initial(rw: Value, data: Value, addr: Value): Box {
    Box(true, Free, rw, data, addr, Running, Asleep, [], [], [])
  }

  /** The core asks for something; every other move is a consequence. */
  predicate IsRequest(v: Move) { v.StartPost? || v.StartRead? }

  predicate Enabled(b: Box, v: Move) {
    match v
    case StartPost(_) => b.core == Running
    case StartRead => b.core == Running
    case SeeServiced => b.core.WaitToPost? && b.isServiced
    case ClearServiced => b.core.Taken?
    case CoreLock => b.core.WantLock? && b.owner == Free
    case Signal => b.core.Locked?
    case WriteRw => b.core.Signalled?
    case WriteData => b.core.WroteRw?
    case WriteAddr => b.core.WroteData?
    case CoreUnlock => b.core.WroteAddr?
    case ReadReturns => b.core == WaitToRead && b.isServiced
    case DeviceLock => b.device == Woken && b.owner == Free
    case UpdateFlags => b.device == Serving
    case SetServiced => b.device == Served
    case DeviceWait => b.device == Done
  }

  /** A signal reaches the device only while it is asleep in its wait. */
  function Do(b: Box, v: Move): Box
    requires Enabled(b, v)
  {
    match v
    case StartPost(m) => b.(core := WaitToPost(m))
    case StartRead => b.(core := WaitToRead)
    case SeeServiced => b.(core := Taken(b.core.m))
    case ClearServiced => b.(isServiced := false, core := WantLock(b.core.m))
    case CoreLock => b.(owner := ByCore, core := Locked(b.core.m))
    case Signal => b.(device := if b.device == Asleep then Woken else b.device, core := Signalled(b.core.m))
    case WriteRw => b.(rw := b.core.m.rw, core := WroteRw(b.core.m))
    case WriteData => b.(data := b.core.m.data, core := WroteData(b.core.m))
    case WriteAddr => b.(addr := b.core.m.addr, core := WroteAddr(b.core.m))
    case CoreUnlock => b.(owner := Free, core := Running, sent := b.sent + [b.core.m])
    case ReadReturns => b.(core := Running, answered := b.answered + [(|b.sent|, |b.processed|)])
    case DeviceLock => b.(owner := ByDevice, device := Serving)
    case UpdateFlags => b.(device := Served, processed := b.processed + [Message(b.rw, b.data, b.addr)])
    case SetServiced => b.(isServiced := true, device := Done)
    case DeviceWait => b.(owner := Free, device := Asleep)
  }

  // ---- the invariant

  predicate CoreHolds(c: Core) {
    c.Locked? || c.Signalled? || c.WroteRw? || c.WroteData? || c.WroteAddr?
  }

  /** The core has nothing in the box. */
  predicate CoreOutside(c: Core) { c == Running || c.WaitToPost? || c == WaitToRead }

  /** What has been written of the message in hand. */
  predicate Written(b: Box) {
    (b.core.WroteRw? || b.core.WroteData? || b.core.WroteAddr? ==> b.rw == b.core.m.rw)
    && (b.core.WroteData? || b.core.WroteAddr? ==> b.data == b.core.m.data)
    && (b.core.WroteAddr? ==> b.addr == b.core.m.addr)
  }

  /** Whose turn it is. The device holds the mutex exactly while it is neither asleep nor waking, and isServiced is
      clear from the core's claim to the device's answer. */
  predicate Turns(b: Box) {
    && (b.owner == ByCore <==> CoreHolds(b.core))
    && (b.owner == ByDevice <==> b.device == Serving || b.device == Served || b.device == Done)
    && (b.isServiced ==> (b.device == Asleep || b.device == Done) && (CoreOutside(b.core) || b.core.Taken?))
    && (b.core.Taken? ==> b.isServiced)
    && (b.core.WantLock? ==> b.device == Asleep || b.device == Done)
    && (b.core.Locked? ==> b.device == Asleep)
    && (CoreHolds(b.core) && !b.core.Locked? ==> b.device == Woken)
    && (!b.isServiced && CoreOutside(b.core) ==> b.device == Woken || b.device == Serving || b.device == Served)
  }

  /** A message is in the box from the core's unlock to updateFlags. */
  predicate Owed(b: Box) { CoreOutside(b.core) && (b.device == Woken || b.device == Serving) }

  predicate Ledger(b: Box) {
    && (if Owed(b) then b.sent == b.processed + [Message(b.rw, b.data, b.addr)] else b.sent == b.processed)
    && forall i :: 0 <= i < |b.answered| ==> b.answered[i].0 == b.answered[i].1
  }

  predicate Inv(b: Box) { Turns(b) && Written(b) && Ledger(b) }

  predicate ByTheDevice(v: Move) { v.DeviceLock? || v.UpdateFlags? || v.SetServiced? || v.DeviceWait? }

  lemma TurnsDeviceStep(b: Box, v: Move)
    requires Turns(b) && Enabled(b, v) && ByTheDevice(v)
    ensures Turns(Do(b, v))
  {
  }

  lemma TurnsCoreStep(b: Box, v: Move)
    requires Turns(b) && Enabled(b, v) && !ByTheDevice(v)
    ensures Turns(Do(b, v))
  {
  }

  lemma TurnsStep(b: Box, v: Move)
    requires Turns(b) && Enabled(b, v)
    ensures Turns(Do(b, v))
  {
    hide Turns, Enabled, Do;
    if ByTheDevice(v) { TurnsDeviceStep(b, v); } else { TurnsCoreStep(b, v); }
  }

  lemma WrittenStep(b: Box, v: Move)
    requires Written(b) && Enabled(b, v)
    ensures Written(Do(b, v))
  {
  }

  lemma LedgerDeviceStep(b: Box, v: Move)
    requires Turns(b) && Ledger(b) && Enabled(b, v) && ByTheDevice(v)
    ensures Ledger(Do(b, v))
  {
  }

  lemma LedgerCoreStep(b: Box, v: Move)
    requires Turns(b) && Written(b) && Ledger(b) && Enabled(b, v) && !ByTheDevice(v)
    ensures Ledger(Do(b, v))
  {
  }

  lemma LedgerStep(b: Box, v: Move)
    requires Turns(b) && Written(b) && Ledger(b) && Enabled(b, v)
    ensures Ledger(Do(b, v))
  {
    hide Turns, Written, Ledger, Enabled, Do;
    if ByTheDevice(v) { LedgerDeviceStep(b, v); } else { LedgerCoreStep(b, v); }
  }

  lemma InvStep(b: Box, v: Move)
    requires Inv(b) && Enabled(b, v)
    ensures Inv(Do(b, v))
  {
    hide Turns, Written, Ledger, Enabled, Do;
    TurnsStep(b, v);
    WrittenStep(b, v);
    LedgerStep(b, v);
  }

  predicate Runs(b: Box, moves: seq<Move>)
    decreases |moves|
  {
    moves == [] || (Enabled(b, moves[0]) && Runs(Do(b, moves[0]), moves[1..]))
  }

  function After(b: Box, moves: seq<Move>): Box
    requires Runs(b, moves)
    decreases |moves|
  {
    if moves == [] then b else After(Do(b, moves[0]), moves[1..])
  }

  lemma {:induction false} InvRun(b: Box, moves: seq<Move>)
    requires Inv(b) && Runs(b, moves)
    ensures Inv(After(b, moves))
    decreases |moves|
  {
    hide Inv, Enabled, Do;
    if moves != [] {
      InvStep(b, moves[0]);
      InvRun(Do(b, moves[0]), moves[1..]);
    }
  }

  /** In every interleaving: the device processes the posted messages once each, in order and completely written; at
      most the last one is still owed; and a device read comes back only when every earlier write was processed. */
  lemma ExactlyOnceInOrder(rw: Value, data: Value, addr: Value, moves: seq<Move>)
    requires Runs(Initial(rw, data, addr), moves)
    ensures var b := After(Initial(rw, data, addr), moves);
      (b.processed == b.sent || (|b.sent| > 0 && b.processed == b.sent[..|b.sent| - 1]))
      && forall i :: 0 <= i < |b.answered| ==> b.answered[i].0 == b.answered[i].1
  {
    InvRun(Initial(rw, data, addr), moves);
    hide Runs;
  }

  // ---- no lost wakeup, no stuck state

  predicate AtRest(b: Box) { b.core == Running && b.device == Asleep }

  /** How many more consequences the pending requests have. */
  function CoreRank(c: Core): nat {
    match c
    case Running => 0
    case WaitToRead => 1
    case WaitToPost(_) => 13
    case Taken(_) => 12
    case WantLock(_) => 11
    case Locked(_) => 10
    case Signalled(_) => 5
    case WroteRw(_) => 4
    case WroteData(_) => 3
    case WroteAddr(_) => 2
  }

  function DeviceRank(d: Device): nat {
    match d
    case Asleep => 0
    case Woken => 4
    case Serving => 3
    case Served => 2
    case Done => 1
  }

  function Rank(b: Box): nat { CoreRank(b.core) + DeviceRank(b.device) }

  /** Every consequence brings the box closer to rest. */
  lemma RankDecreases(b: Box, v: Move)
    requires Inv(b) && Enabled(b, v) && !IsRequest(v)
    ensures Rank(Do(b, v)) < Rank(b)
  {
    hide Written, Ledger, Turns;
  }

  /** Some thread can always move unless both are at rest. */
  lemma NeverStuck(b: Box) returns (v: Move)
    requires Inv(b) && !AtRest(b)
    ensures Enabled(b, v) && !IsRequest(v)
  {
    if b.device == Served {
      v := SetServiced;
    } else if b.device == Done {
      v := DeviceWait;
    } else if b.device == Serving {
      v := UpdateFlags;
    } else if b.device == Woken && b.owner == Free {
      v := DeviceLock;
    } else {
      match b.core
      case Running => v := DeviceLock;
      case WaitToRead => v := ReadReturns;
      case WaitToPost(_) => v := SeeServiced;
      case Taken(_) => v := ClearServiced;
      case WantLock(_) => v := CoreLock;
      case Locked(_) => v := Signal;
      case Signalled(_) => v := WriteRw;
      case WroteRw(_) => v := WriteData;
      case WroteData(_) => v := WriteAddr;
      case WroteAddr(_) => v := CoreUnlock;
    }
  }

  /** Once the core asks for nothing more, every maximal run ends within Rank steps, at rest, with every posted message
      processed: no wakeup is lost. */
  lemma {:induction false} RunsToRest(b: Box, moves: seq<Move>)
    requires Inv(b) && Runs(b, moves) && forall i :: 0 <= i < |moves| ==> !IsRequest(moves[i])
    ensures |moves| <= Rank(b)
    ensures var c := After(b, moves);
      (forall v :: Enabled(c, v) ==> IsRequest(v)) ==> AtRest(c) && c.processed == c.sent && c.isServiced
    decreases |moves|
  {
    if moves == [] {
      if !AtRest(b) {
        var v := NeverStuck(b);
      }
    } else {
      InvStep(b, moves[0]);
      RankDecreases(b, moves[0]);
      RunsToRest(Do(b, moves[0]), moves[1..]);
    }
  }
}
