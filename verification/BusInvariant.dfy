/** What holds at every step of a run of the bus. */
module BusInvariant {
  import opened Bus
  import opened BusSystem

  /** How far the current request is. Named after what the participants of a transfer do next. */
  datatype Phase =
    | Boot        // the threads are started
    | Quiet       // no request is being dealt with
    | Refusing    // an unanswered request has been acknowledged, its master has not looked yet
    | Open        // a request is announced and nobody has answered it so far
    | Claimed     // a slave has answered
    | Acked       // and the answer has been passed on
    | Asking      // read: the slave is about to send
    | Sent        // read: the master is about to wait for the data cycle
    | ReadCycle    // read: the data cycle
    | ReadEnd      // read: the end cycle
    | WriteCycle     // write: the data cycle
    | Put         // write: the slave is about to take the word
    | Taken       // write: the master is about to go on
    | LastTaken   // write: the master is about to return
    | WriteEnd     // write: the end cycle, the master has returned

  /** A request has been taken from the queue and is not finished. */
  predicate Current(ph: Phase) {
    !ph.Boot? && !ph.Quiet? && !ph.Refusing?
  }

  /** The master of the current request waits for its acknowledge. */
  predicate Waiting(ph: Phase) {
    ph.Refusing? || ph.Open? || ph.Claimed? || ph.Acked?
  }

  predicate InRead(ph: Phase) {
    ph.Asking? || ph.Sent? || ph.ReadCycle? || ph.ReadEnd?
  }

  predicate InWrite(ph: Phase) {
    ph.WriteCycle? || ph.Put? || ph.Taken? || ph.LastTaken? || ph.WriteEnd?
  }

  predicate InTransfer(ph: Phase) {
    InRead(ph) || InWrite(ph)
  }

  /** The master of the current request is inside its call of MasterDataTransfer. */
  predicate MasterInside(ph: Phase) {
    Waiting(ph) || (InTransfer(ph) && !ph.WriteEnd?)
  }

  /** The slave has words of the current transfer still to move. */
  predicate SlaveInside(cfg: Config, s: State, ph: Phase)
    requires CurrentOk(s)
  {
    ph.Claimed? || ph.Acked? || ph.Asking? || InWrite(ph) || ((ph.Sent? || ph.ReadCycle?) && |s.h.wire| < Cur(s).t.len)
  }

  predicate CurrentOk(s: State) {
    0 < s.h.granted <= |s.h.pushed|
  }

  /** The last request taken from the queue. */
  function Cur(s: State): Ticket
    requires CurrentOk(s)
  {
    s.h.pushed[s.h.granted - 1]
  }

  // The parts of the invariant.

  ghost predicate Shape(cfg: Config, s: State) {
    && cfg.Valid()
    && |s.masters| == cfg.masters
    && |s.slaves| == |cfg.ranges|
    && |s.memory| == |cfg.initial|
  }

  /** The queue holds the requests not yet taken in the order in which they were pushed; each belongs to a master that
      waits for it, and to no other entry. */
  ghost predicate QueueOk(cfg: Config, s: State, ph: Phase) {
    && s.h.granted <= |s.h.pushed|
    && (forall i | 0 <= i < |s.h.pushed| :: Legal(cfg, s.h.pushed[i].t) && s.h.pushed[i].id < cfg.masters)
    && |s.bus.queue| == |s.h.pushed| - s.h.granted
    && (forall i | s.h.granted <= i < |s.h.pushed| :: s.bus.queue[i - s.h.granted] == RequestOf(s.h.pushed[i]))
    && (forall i | s.h.granted <= i < |s.h.pushed| ::
          s.h.pushed[i].id < |s.masters| && s.masters[s.h.pushed[i].id].at == AwaitGrant(s.h.pushed[i].t))
    && (forall i, j | s.h.granted <= i < j < |s.h.pushed| :: s.h.pushed[i].id != s.h.pushed[j].id)
    && (Waiting(ph) ==> CurrentOk(s) && forall i | s.h.granted <= i < |s.h.pushed| :: s.h.pushed[i].id != Cur(s).id)
  }

  ghost predicate Pending(s: State, m: nat) {
    exists i :: s.h.granted <= i < |s.h.pushed| && s.h.pushed[i].id == m
  }

  /** A master that takes no part in the current transfer. `recent` says that no time has passed since the last
      announcement or acknowledge. */
  ghost predicate Bystander(cfg: Config, s: State, ph: Phase, recent: bool, m: nat)
    requires m < |s.masters|
  {
    match s.masters[m].at
    case Idle => !s.masters[m].awake
    case Requesting(t) => Legal(cfg, t) && (ph.Boot? ==> !s.masters[m].awake)
    case AwaitGrant(t) => Pending(s, m) && (s.masters[m].awake ==> recent && (ph.Acked? || InTransfer(ph)))
    case _ => false
  }

  ghost predicate MastersOk(cfg: Config, s: State, ph: Phase, recent: bool) {
    && (MasterInside(ph) ==> CurrentOk(s))
    && forall m | 0 <= m < |s.masters| :: (MasterInside(ph) && m == Cur(s).id) || Bystander(cfg, s, ph, recent, m)
  }

  predicate AtRest(cfg: Config, s: State, ph: Phase, recent: bool, k: nat)
    requires k < |s.slaves|
  {
    match s.slaves[k].at
    case SlaveStart => ph.Boot? && s.slaves[k].awake
    case Listening => s.slaves[k].awake ==> recent && (ph.Open? || ph.Claimed?)
    case Busy => k != cfg.memorySlave && !ph.Boot?
    case _ => false
  }

  ghost predicate SlavesOk(cfg: Config, s: State, ph: Phase, recent: bool) {
    && (Current(ph) ==> CurrentOk(s))
    && forall k | 0 <= k < |s.slaves| ::
         (Current(ph) && SlaveInside(cfg, s, ph) && k == s.h.owner) || AtRest(cfg, s, ph, recent, k)
  }

  predicate ArbiterOk(s: State, ph: Phase, recent: bool) {
    match ph
    case Boot =>
      && s.bus.queue == [] && s.h.pushed == []
      && (s.arbiter == Arbiter(ArbiterStart, true) || s.arbiter == Arbiter(NoRequest, false))
    case Quiet => s.arbiter == Arbiter(NoRequest, s.bus.queue != []) || s.arbiter == Arbiter(TransferEnd, true)
    case Refusing => s.arbiter == Arbiter(NoRequest, s.bus.queue != [])
    case Open => (s.arbiter.at.AckOrTimeout? || s.arbiter.at.GapCycle?) && (s.arbiter.awake || s.arbiter.at.GapCycle? ==> !recent)
    case Claimed =>
      || s.arbiter == Arbiter(AckOrTimeout, true) || s.arbiter == Arbiter(GapCycle, false)
      || (s.arbiter == Arbiter(GapCycle, true) && !recent)
    case _ => s.arbiter == Arbiter(TransferEnd, false)
  }

  // Words counted by the two sides so far.
  function Count(s: State, ph: Phase): int {
    match ph
    case Sent => |s.h.wire| - 1
    case ReadCycle => |s.h.wire| - 1
    case Put => |s.h.wire| - 1
    case _ => |s.h.wire|
  }

  // Words of the current write that are in the memory already.
  function Stored(s: State, ph: Phase): int {
    match ph
    case Put => |s.h.wire| - 1
    case LastTaken => |s.h.wire| - 1
    case WriteEnd => |s.h.wire| - 1
    case _ => |s.h.wire|
  }

  /** The fields of the bus belong to the current request. */
  predicate BusOk(s: State, ph: Phase)
    requires CurrentOk(s)
  {
    && s.bus.currentReq == RequestOf(Cur(s)).(bytesTransferred := s.bus.currentReq.bytesTransferred)
    && s.bus.receivedResponse == !(ph.Refusing? || ph.Open?)
    && (Current(ph) ==> s.bus.currentReq.bytesTransferred == Count(s, ph))
  }

  /** Where the master of the current request is. */
  predicate MasterAtOk(s: State, ph: Phase, recent: bool)
    requires CurrentOk(s)
  {
    var t, wire := Cur(s).t, s.h.wire;
    Cur(s).id < |s.masters| &&
    var p := s.masters[Cur(s).id];
    match ph
    case Refusing => p == Master(AwaitGrant(t), true)
    case Open => p == Master(AwaitGrant(t), false)
    case Claimed => p == Master(AwaitGrant(t), false)
    case Acked => p == Master(AwaitGrant(t), true)
    case Asking => p == Master(AwaitData(t, wire), false)
    case Sent => |wire| > 0 && p == Master(AwaitData(t, wire[..|wire| - 1]), true)
    case ReadCycle => |wire| > 0 && p.at == Latching(t, wire[..|wire| - 1]) && (p.awake ==> !recent)
    case ReadEnd => p.at == Ending(t, wire) && (p.awake ==> !recent)
    case WriteCycle => p.at == Driving(t, |wire|) && (p.awake ==> !recent)
    case Put => !recent && |wire| > 0 && p == Master(AwaitTaken(t, |wire| - 1), false)
    case Taken => !recent && |wire| > 0 && p == Master(AwaitTaken(t, |wire| - 1), true)
    case LastTaken => !recent && |wire| > 0 && p == Master(AwaitTaken(t, |wire| - 1), true)
    case WriteEnd => !recent
    case _ => true
  }

  /** Where the slave that answered it is. */
  predicate SlaveAtOk(cfg: Config, s: State, ph: Phase, recent: bool)
    requires CurrentOk(s)
  {
    var t, wire := Cur(s).t, s.h.wire;
    s.h.owner < |s.slaves| &&
    var p := s.slaves[s.h.owner];
    match ph
    case Claimed => p == Slave(if t.rdnwr then Sending(t.addr, t.len, []) else Receiving(t.addr, t.len, []), false)
    case Acked => p == Slave(if t.rdnwr then Sending(t.addr, t.len, []) else Receiving(t.addr, t.len, []), false)
    case Asking => p == Slave(Sending(t.addr, t.len, wire), true)
    case Sent => |wire| < t.len ==> p == Slave(Sending(t.addr, t.len, wire), false)
    case ReadCycle => |wire| < t.len ==> p == Slave(Sending(t.addr, t.len, wire), false)
    case ReadEnd => true
    case WriteCycle => p == Slave(Receiving(t.addr, t.len, wire), false)
    case Put => |wire| > 0 && p == Slave(Receiving(t.addr, t.len, wire[..|wire| - 1]), true)
    case Taken => p == Slave(Receiving(t.addr, t.len, wire), false)
    case LastTaken => |wire| > 0 && p == Slave(Closing(t.addr, t.len, wire[..|wire| - 1], wire[|wire| - 1]), false)
    case WriteEnd => |wire| > 0 && p.at == Closing(t.addr, t.len, wire[..|wire| - 1], wire[|wire| - 1])
    case _ => true
  }

  // How many words are on the wire.
  predicate LengthOk(s: State, ph: Phase)
    requires CurrentOk(s)
  {
    var n, len := |s.h.wire|, Cur(s).t.len;
    match ph
    case Boot => true
    case Quiet => true
    case Refusing => true
    case Open => n == 0
    case Claimed => n == 0
    case Acked => n == 0
    case Asking => n < len
    case Sent => 0 < n <= len
    case ReadCycle => 0 < n <= len
    case ReadEnd => n == len
    case WriteCycle => n < len
    case Put => 0 < n <= len
    case Taken => 0 < n < len
    case LastTaken => n == len
    case WriteEnd => n == len
  }

  /** What is on the wire: the data of a write, the contents of the memory for a read. */
  ghost predicate WireOk(cfg: Config, s: State, ph: Phase)
    requires CurrentOk(s) && Shape(cfg, s)
  {
    var t, wire := Cur(s).t, s.h.wire;
    && |wire| <= t.len
    && (InRead(ph) ==> t.rdnwr)
    && (InWrite(ph) ==> !t.rdnwr && wire <= t.data)
    && ((ph.Sent? || ph.ReadCycle? || ph.Put?) && |wire| > 0 ==> s.bus.busData == wire[|wire| - 1])
    && (t.rdnwr && ForMemory(cfg, t) && Legal(cfg, t) ==> wire <= ReadFrom(cfg, s.h.pushed[..s.h.granted - 1], t))
  }

  ghost predicate OwnerOk(cfg: Config, s: State, ph: Phase)
    requires CurrentOk(s) && Shape(cfg, s)
  {
    var t := Cur(s).t;
    if ph.Refusing? then !ForMemory(cfg, t) && |s.h.done| > 0 && s.h.done[|s.h.done| - 1] == Unclaimed
    else if ph.Open? then ForMemory(cfg, t) ==> s.slaves[cfg.memorySlave] == Slave(Listening, true)
    else Current(ph) ==> s.h.owner < |cfg.ranges| && Claims(cfg.ranges[s.h.owner], t.addr, t.len)
  }

  ghost predicate CurrentTransferOk(cfg: Config, s: State, ph: Phase, recent: bool)
    requires Shape(cfg, s)
  {
    && CurrentOk(s)
    && BusOk(s, ph)
    && MasterAtOk(s, ph, recent)
    && (!ph.Refusing? && !ph.Open? ==> SlaveAtOk(cfg, s, ph, recent))
    && OwnerOk(cfg, s, ph)
    && (Current(ph) ==> LengthOk(s, ph) && WireOk(cfg, s, ph))
  }

  /** The memory is what the finished requests make of it, and the words of the current write that have been stored. */
  ghost predicate MemoryOk(cfg: Config, s: State, ph: Phase)
    requires Shape(cfg, s)
  {
    && |s.h.done| <= |s.h.pushed|
    && (InWrite(ph) ==> CurrentOk(s))
    && var base := Replay(cfg, s.h.pushed[..|s.h.done|]);
       if InWrite(ph) && s.h.owner == cfg.memorySlave
       then 0 <= Stored(s, ph) <= |s.h.wire| && s.memory == Overlay(base, Cell(cfg, Cur(s).t.addr, 0), s.h.wire[..Stored(s, ph)])
       else s.memory == base
  }

  /** How request i ended. */
  ghost predicate RecordOk(cfg: Config, pushed: seq<Ticket>, i: nat, r: Record)
    requires cfg.Valid() && i < |pushed| && Legal(cfg, pushed[i].t)
  {
    var t := pushed[i].t;
    match r
    case Unclaimed => !ForMemory(cfg, t)
    case Served(k, sent, received) =>
      && k < |cfg.ranges| && Claims(cfg.ranges[k], t.addr, t.len)
      && received == sent && |sent| == t.len
      && (!t.rdnwr ==> sent == t.data)
      && (t.rdnwr && k == cfg.memorySlave ==> ForMemory(cfg, t) && sent == ReadFrom(cfg, pushed[..i], t))
  }

  ghost predicate RecordsOk(cfg: Config, s: State, ph: Phase)
    requires Shape(cfg, s)
  {
    && |s.h.done| == (if Current(ph) then s.h.granted - 1 else s.h.granted)
    && |s.h.done| <= |s.h.pushed|
    && (forall i | 0 <= i < |s.h.pushed| :: Legal(cfg, s.h.pushed[i].t))
    && forall i | 0 <= i < |s.h.done| :: RecordOk(cfg, s.h.pushed, i, s.h.done[i])
  }

  /** What the call for request i gave back, given how the request ended. */
  predicate ReturnOk(k: Ticket, r: Return, d: Record) {
    && r.id == k.id
    && r.ack == d.Served?
    && r.words == if d.Served? && k.t.rdnwr then d.received else []
  }

  ghost predicate ReturnsOk(s: State, ph: Phase) {
    && |s.h.returned| == (if MasterInside(ph) then s.h.granted - 1 else s.h.granted)
    && |s.h.returned| <= |s.h.pushed|
    && (ph.WriteEnd? ==> |s.h.returned| > 0)
    && forall i | 0 <= i < |s.h.returned| ::
         if i < |s.h.done| then ReturnOk(s.h.pushed[i], s.h.returned[i], s.h.done[i])
         else ph.WriteEnd? && s.h.returned[i] == Return(s.h.pushed[i].id, true, [])
  }

  ghost predicate PhaseInv(cfg: Config, s: State, ph: Phase, recent: bool) {
    && Shape(cfg, s)
    && QueueOk(cfg, s, ph)
    && MastersOk(cfg, s, ph, recent)
    && SlavesOk(cfg, s, ph, recent)
    && ArbiterOk(s, ph, recent)
    && (Current(ph) || ph.Refusing? ==> CurrentTransferOk(cfg, s, ph, recent))
    && MemoryOk(cfg, s, ph)
    && RecordsOk(cfg, s, ph)
    && ReturnsOk(s, ph)
  }

  ghost predicate Inv(cfg: Config, s: State) {
    exists ph, recent :: PhaseInv(cfg, s, ph, recent)
  }
}
