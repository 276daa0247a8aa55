/** The bus with its masters, its arbiter and its slaves as one step system.

    A process runs without interruption from one wait to the next; each such piece is one step, taken by any process
    that is runnable (`awake`). A notification makes runnable the processes that are waiting for the event at that
    moment, and no others. A timed wait ends in an `Advance` step: time passes only when no process is runnable, and
    then any non-empty set of timed waits may end, so that every choice of the cycle times is covered. */
module BusSystem {
  import opened Bus

  /** One call of MasterDataTransfer; a read carries no data. */
  datatype Transfer = Transfer(rdnwr: bool, addr: Unsigned, len: Unsigned, data: seq<Unsigned>)

  /** A transfer asked for by the master `id`. */
  datatype Ticket = Ticket(id: Unsigned, t: Transfer)

  function RequestOf(k: Ticket): Request {
    Request(k.id, k.t.rdnwr, k.t.addr, k.t.len, 0)
  }

  // Where a process waits, with the local variables it needs afterwards.

  datatype ArbiterAt = ArbiterStart | NoRequest | AckOrTimeout | GapCycle | TransferEnd

  datatype MasterAt =
    | Idle
    | Requesting(t: Transfer)                        // the cycles of the bus request
    | AwaitGrant(t: Transfer)                        // wait(master_ack)
    | AwaitData(t: Transfer, got: seq<Unsigned>)     // wait(data_ready)
    | Latching(t: Transfer, got: seq<Unsigned>)      // the data cycle of a read
    | Ending(t: Transfer, got: seq<Unsigned>)        // the end cycle of a read
    | Driving(t: Transfer, i: nat)                   // the data cycle of a write
    | AwaitTaken(t: Transfer, i: nat)                // wait(slv_ready)

  datatype SlaveAt =
    | SlaveStart
    | Listening                                                           // wait(slv_request)
    | Sending(addr: Unsigned, len: Unsigned, out: seq<Unsigned>)          // wait(mst_ready)
    | Receiving(addr: Unsigned, len: Unsigned, inn: seq<Unsigned>)        // wait(data_ready)
    | Closing(addr: Unsigned, len: Unsigned, inn: seq<Unsigned>, last: Unsigned)   // the end cycle of a write
    | Busy                                                                // a device at work, not listening

  datatype Arbiter = Arbiter(at: ArbiterAt, awake: bool)
  datatype Master = Master(at: MasterAt, awake: bool)
  datatype Slave = Slave(at: SlaveAt, awake: bool)

  /** How a granted request ended. `sent` are the words put on the bus, `received` those the other side took. */
  datatype Record = Unclaimed | Served(slave: nat, sent: seq<Unsigned>, received: seq<Unsigned>)

  /** What a call of MasterDataTransfer gave back: the answer of MstBusRequest, and the words of a read. */
  datatype Return = Return(id: Unsigned, ack: bool, words: seq<Unsigned>)

  /** What has happened so far; no step depends on it. */
  datatype History = History(
    pushed: seq<Ticket>,        // every request put in the queue
    granted: nat,               // how many of them the arbiter has taken
    owner: nat,                 // the last slave that acknowledged
    wire: seq<Unsigned>,        // the words of the current transfer put on the bus
    done: seq<Record>,          // how the granted requests ended
    returned: seq<Return>)      // the calls that have returned

  datatype State = State(bus: Fields, arbiter: Arbiter, masters: seq<Master>, slaves: seq<Slave>,
                         memory: seq<Unsigned>, h: History)

  /** `memorySlave` is the index of the memory among the slaves; the others are devices. `words(k, rdnwr, len)` is how
      many words slave k moves for a request it has answered: the memory as many as the request names, a device a number
      of its own. */
  datatype Config = Config(masters: Unsigned, ranges: seq<Range>, memorySlave: nat, initial: seq<Unsigned>,
                           words: (nat, bool, Unsigned) -> Unsigned) {
    ghost predicate Valid() {
      && memorySlave < |ranges|
      && Disjoint(ranges)
      && ranges[memorySlave].lo + |initial| == ranges[memorySlave].hi
      && forall rdnwr: bool, len: Unsigned :: words(memorySlave, rdnwr, len) == len
    }
  }

  function Initial(cfg: Config, fields: Fields): (s: State)
    requires fields.queue == []
  {
    State(fields, Arbiter(ArbiterStart, true), seq(cfg.masters, _ => Master(Idle, false)),
          seq(|cfg.ranges|, _ => Slave(SlaveStart, true)), cfg.initial, History([], 0, 0, [], [], []))
  }

  // Events.

  datatype WaitsFor = Notice(e: Event) | NoNotice

  function MasterEvent(at: MasterAt): WaitsFor {
    match at
    case AwaitGrant(_) => Notice(MasterAck)
    case AwaitData(_, _) => Notice(DataReady)
    case AwaitTaken(_, _) => Notice(SlvReady)
    case _ => NoNotice
  }

  function SlaveEvent(at: SlaveAt): WaitsFor {
    match at
    case Listening => Notice(SlvRequest)
    case Sending(_, _, _) => Notice(MstReady)
    case Receiving(_, _, _) => Notice(DataReady)
    case _ => NoNotice
  }

  function ArbiterEvent(at: ArbiterAt): WaitsFor {
    match at
    case NoRequest => Notice(BusRequest)
    case AckOrTimeout => Notice(SlvAck)
    case TransferEnd => Notice(EndOfTransfer)
    case _ => NoNotice
  }

  function WokenMasters(ms: seq<Master>, e: Event): (r: seq<Master>)
    ensures |r| == |ms|
    ensures forall i | 0 <= i < |ms| :: r[i] == (if MasterEvent(ms[i].at) == Notice(e) then ms[i].(awake := true) else ms[i])
  {
    seq(|ms|, i requires 0 <= i < |ms| => if MasterEvent(ms[i].at) == Notice(e) then ms[i].(awake := true) else ms[i])
  }

  function WokenSlaves(ss: seq<Slave>, e: Event): (r: seq<Slave>)
    ensures |r| == |ss|
    ensures forall i | 0 <= i < |ss| :: r[i] == (if SlaveEvent(ss[i].at) == Notice(e) then ss[i].(awake := true) else ss[i])
  {
    seq(|ss|, i requires 0 <= i < |ss| => if SlaveEvent(ss[i].at) == Notice(e) then ss[i].(awake := true) else ss[i])
  }

  /** Notification: who waits for the event now becomes runnable. */
  function Notify(s: State, e: Event): State {
    s.(arbiter := if ArbiterEvent(s.arbiter.at) == Notice(e) then s.arbiter.(awake := true) else s.arbiter,
       masters := WokenMasters(s.masters, e),
       slaves := WokenSlaves(s.slaves, e))
  }

  function MasterWaits(s: State, m: nat, at: MasterAt): State
    requires m < |s.masters|
  {
    s.(masters := s.masters[m := Master(at, false)])
  }

  function SlaveWaits(s: State, k: nat, at: SlaveAt): State
    requires k < |s.slaves|
  {
    s.(slaves := s.slaves[k := Slave(at, false)])
  }

  // The arbiter.

  function Take(s: State): State
    requires s.bus.queue != []
  {
    Notify(s.(bus := Announced(s.bus), h := s.h.(granted := s.h.granted + 1, wire := [])), SlvRequest)
      .(arbiter := Arbiter(AckOrTimeout, false))
  }

  // The head of the arbiter's loop.
  function TakeOrWait(s: State): State {
    if s.bus.queue == [] then s.(arbiter := Arbiter(NoRequest, false)) else Take(s)
  }

  /** After the gap cycle: acknowledge, then wait for the end of the transfer or go round the loop. */
  function Acknowledge(s: State): State {
    var a := Notify(s, MasterAck);
    if s.bus.receivedResponse then a.(arbiter := Arbiter(TransferEnd, false))
    else TakeOrWait(a.(h := a.h.(done := a.h.done + [Unclaimed])))
  }

  function ArbiterStep(s: State): State
    requires s.arbiter.at == NoRequest ==> s.bus.queue != []
  {
    match s.arbiter.at
    case ArbiterStart => TakeOrWait(s)
    case NoRequest => Take(s)
    case AckOrTimeout => s.(arbiter := Arbiter(GapCycle, false))
    case GapCycle => Acknowledge(s)
    case TransferEnd => TakeOrWait(s)
  }

  // A master.

  function Push(s: State, m: Unsigned, t: Transfer): State
    requires m < |s.masters|
  {
    MasterWaits(
      Notify(s.(bus := Pushed(s.bus, RequestOf(Ticket(m, t))), h := s.h.(pushed := s.h.pushed + [Ticket(m, t)])), BusRequest),
      m, AwaitGrant(t))
  }

  function Returns(s: State, m: Unsigned, ack: bool, words: seq<Unsigned>): State
    requires m < |s.masters|
  {
    MasterWaits(s, m, Idle).(h := s.h.(returned := s.h.returned + [Return(m, ack, words)]))
  }

  // The head of the master's read loop.
  function ReadOn(s: State, m: Unsigned, t: Transfer, got: seq<Unsigned>): State
    requires m < |s.masters|
  {
    if |got| < t.len then MasterWaits(Notify(s, MstReady), m, AwaitData(t, got)) else Returns(s, m, true, got)
  }

  // The head of the master's write loop.
  function WriteOn(s: State, m: Unsigned, t: Transfer, i: nat): State
    requires m < |s.masters|
  {
    if i < t.len then MasterWaits(s, m, Driving(t, i)) else Returns(s, m, true, [])
  }

  function LookAtReply(s: State, m: Unsigned, t: Transfer): State
    requires m < |s.masters|
  {
    if s.bus.currentReq.id != m then MasterWaits(s, m, AwaitGrant(t))
    else if !s.bus.receivedResponse then Returns(s, m, false, [])
    else if t.rdnwr then ReadOn(s, m, t, [])
    else WriteOn(s, m, t, 0)
  }

  function Latch(s: State, m: Unsigned, t: Transfer, got: seq<Unsigned>): State
    requires m < |s.masters|
  {
    var s', got' := s.(bus := Counted(s.bus)), got + [s.bus.busData];
    if TransferOver(s'.bus) then MasterWaits(s', m, Ending(t, got')) else ReadOn(s', m, t, got')
  }

  function EndRead(s: State, m: Unsigned, t: Transfer, got: seq<Unsigned>): State
    requires m < |s.masters|
  {
    var s' := Notify(s, EndOfTransfer);
    ReadOn(s'.(h := s'.h.(done := s'.h.done + [Served(s'.h.owner, s'.h.wire, got)])), m, t, got)
  }

  function OnWire(s: State, w: Unsigned): State {
    Notify(s.(bus := Driven(s.bus, w), h := s.h.(wire := s.h.wire + [w])), DataReady)
  }

  function MasterStep(s: State, m: Unsigned): State
    requires m < |s.masters|
    requires match s.masters[m].at case Driving(t, i) => i < |t.data| case _ => true
  {
    match s.masters[m].at
    case Idle => s
    case Requesting(t) => Push(s, m, t)
    case AwaitGrant(t) => LookAtReply(s, m, t)
    case AwaitData(t, got) => MasterWaits(s, m, Latching(t, got))
    case Latching(t, got) => Latch(s, m, t, got)
    case Ending(t, got) => EndRead(s, m, t, got)
    case Driving(t, i) => MasterWaits(OnWire(s, t.data[i]), m, AwaitTaken(t, i))
    case AwaitTaken(t, i) => WriteOn(s, m, t, i + 1)
  }

  // A slave. After a transfer a device may be busy for a while; the memory listens again at once.

  function Rests(s: State, k: nat, busy: bool): State
    requires k < |s.slaves|
  {
    SlaveWaits(s, k, if busy then Busy else Listening)
  }

  function Hear(cfg: Config, s: State, k: nat): State
    requires k < |s.slaves| == |cfg.ranges|
  {
    var r := s.bus.currentReq;
    if !Claims(cfg.ranges[k], r.addr, r.len) then SlaveWaits(s, k, Listening)
    else
      var s' := Notify(s.(bus := Responded(s.bus), h := s.h.(owner := k)), SlvAck);
      var n := cfg.words(k, r.rdnwr, r.len);
      SlaveWaits(s', k, if n == 0 then Listening else if r.rdnwr then Sending(r.addr, n, []) else Receiving(r.addr, n, []))
  }

  function Send(s: State, k: nat, addr: Unsigned, len: Unsigned, out: seq<Unsigned>, w: Unsigned, busy: bool): State
    requires k < |s.slaves|
  {
    var s' := OnWire(s, w);
    if |out| + 1 < len then SlaveWaits(s', k, Sending(addr, len, out + [w])) else Rests(s', k, busy)
  }

  /** The place of word `i` of a request in the memory's array. */
  function Cell(cfg: Config, addr: Unsigned, i: nat): int
    requires cfg.memorySlave < |cfg.ranges|
  {
    addr - cfg.ranges[cfg.memorySlave].lo + i
  }

  // Write of the memory; what a device does with the word is its own business.
  function Store(cfg: Config, s: State, k: nat, addr: Unsigned, i: nat, w: Unsigned): State
    requires cfg.memorySlave < |cfg.ranges|
    requires k == cfg.memorySlave ==> 0 <= Cell(cfg, addr, i) < |s.memory|
  {
    if k == cfg.memorySlave then s.(memory := s.memory[Cell(cfg, addr, i) := w]) else s
  }

  // The head of the slave's write loop.
  function ReceiveOn(s: State, k: nat, addr: Unsigned, len: Unsigned, inn: seq<Unsigned>, busy: bool): State
    requires k < |s.slaves|
  {
    if |inn| < len then SlaveWaits(s, k, Receiving(addr, len, inn)) else Rests(s, k, busy)
  }

  function Receive(cfg: Config, s: State, k: nat, addr: Unsigned, len: Unsigned, inn: seq<Unsigned>, busy: bool): State
    requires k < |s.slaves| && cfg.memorySlave < |cfg.ranges|
    requires k == cfg.memorySlave ==> 0 <= Cell(cfg, addr, |inn|) < |s.memory|
  {
    var w := s.bus.busData;
    var s' := Notify(s.(bus := Counted(s.bus)), SlvReady);
    if TransferOver(s'.bus) then SlaveWaits(s', k, Closing(addr, len, inn, w))
    else ReceiveOn(Store(cfg, s', k, addr, |inn|, w), k, addr, len, inn + [w], busy)
  }

  function EndWrite(cfg: Config, s: State, k: nat, addr: Unsigned, len: Unsigned, inn: seq<Unsigned>, w: Unsigned, busy: bool): State
    requires k < |s.slaves| && cfg.memorySlave < |cfg.ranges|
    requires k == cfg.memorySlave ==> 0 <= Cell(cfg, addr, |inn|) < |s.memory|
  {
    var s' := Notify(s, EndOfTransfer);
    var s'' := s'.(h := s'.h.(done := s'.h.done + [Served(k, s'.h.wire, inn + [w])]));
    ReceiveOn(Store(cfg, s'', k, addr, |inn|, w), k, addr, len, inn + [w], busy)
  }

  // The memory accesses of the next step of slave k are inside its array.
  predicate InArray(cfg: Config, s: State, k: nat)
    requires k < |s.slaves| && cfg.memorySlave < |cfg.ranges|
  {
    k == cfg.memorySlave ==>
      match s.slaves[k].at
      case Sending(addr, _, out) => 0 <= Cell(cfg, addr, |out|) < |s.memory|
      case Receiving(addr, _, inn) => 0 <= Cell(cfg, addr, |inn|) < |s.memory|
      case Closing(addr, _, inn, _) => 0 <= Cell(cfg, addr, |inn|) < |s.memory|
      case _ => true
  }

  /** A step of slave k. A device sends the word `w` of its choice and may be `busy` afterwards. */
  function SlaveStep(cfg: Config, s: State, k: nat, w: Unsigned, busy: bool): State
    requires k < |s.slaves| == |cfg.ranges| && cfg.memorySlave < |cfg.ranges|
    requires InArray(cfg, s, k)
  {
    match s.slaves[k].at
    case SlaveStart => SlaveWaits(s, k, Listening)
    case Listening => Hear(cfg, s, k)
    case Sending(addr, len, out) =>
      Send(s, k, addr, len, out, if k == cfg.memorySlave then s.memory[Cell(cfg, addr, |out|)] else w, busy)
    case Receiving(addr, len, inn) => Receive(cfg, s, k, addr, len, inn, busy)
    case Closing(addr, len, inn, last) => EndWrite(cfg, s, k, addr, len, inn, last, busy)
    case Busy => SlaveWaits(s, k, Listening)
  }

  // The scheduler.

  predicate MasterTimed(at: MasterAt) {
    at.Requesting? || at.Latching? || at.Ending? || at.Driving?
  }

  predicate SlaveTimed(at: SlaveAt) {
    at.Closing? || at.Busy?
  }

  predicate ArbiterTimed(at: ArbiterAt) {
    at.AckOrTimeout? || at.GapCycle?
  }

  predicate Asleep(s: State) {
    && !s.arbiter.awake
    && (forall m | 0 <= m < |s.masters| :: !s.masters[m].awake)
    && (forall k | 0 <= k < |s.slaves| :: !s.slaves[k].awake)
  }

  /** Issue: an idle master calls MasterDataTransfer. */
  datatype Label =
    | Issue(m: Unsigned, t: Transfer)
    | RunMaster(m: Unsigned)
    | RunSlave(k: nat, w: Unsigned, busy: bool)
    | RunArbiter
    | Advance(arbiter: bool, masters: set<nat>, slaves: set<nat>)

  predicate CanAdvance(s: State, arbiter: bool, masters: set<nat>, slaves: set<nat>) {
    && Asleep(s)
    && (arbiter || masters != {} || slaves != {})
    && (arbiter ==> ArbiterTimed(s.arbiter.at))
    && (forall m | m in masters :: m < |s.masters| && MasterTimed(s.masters[m].at))
    && (forall k | k in slaves :: k < |s.slaves| && SlaveTimed(s.slaves[k].at))
  }

  /** The labels the scheduler may choose. For a process that is runnable, the conditions beyond `awake` say that its
      next piece of code is defined. */
  predicate Enabled(cfg: Config, s: State, l: Label)
    requires cfg.memorySlave < |cfg.ranges| == |s.slaves|
  {
    match l
    case Issue(m, t) => m < |s.masters| && s.masters[m].at == Idle && (!t.rdnwr ==> |t.data| == t.len)
    case RunMaster(m) =>
      && m < |s.masters| && s.masters[m].awake
      && (match s.masters[m].at case Driving(t, i) => i < |t.data| case _ => true)
    case RunSlave(k, _, busy) =>
      k < |s.slaves| && s.slaves[k].awake && InArray(cfg, s, k) && (busy ==> k != cfg.memorySlave)
    case RunArbiter => s.arbiter.awake && (s.arbiter.at == NoRequest ==> s.bus.queue != [])
    case Advance(arbiter, masters, slaves) => CanAdvance(s, arbiter, masters, slaves)
  }

  function Advanced(s: State, arbiter: bool, masters: set<nat>, slaves: set<nat>): State {
    s.(arbiter := if arbiter then s.arbiter.(awake := true) else s.arbiter,
       masters := seq(|s.masters|, i requires 0 <= i < |s.masters| =>
         if i in masters then s.masters[i].(awake := true) else s.masters[i]),
       slaves := seq(|s.slaves|, i requires 0 <= i < |s.slaves| =>
         if i in slaves then s.slaves[i].(awake := true) else s.slaves[i]))
  }

  function Next(cfg: Config, s: State, l: Label): State
    requires cfg.memorySlave < |cfg.ranges| == |s.slaves|
    requires Enabled(cfg, s, l)
  {
    match l
    case Issue(m, t) => MasterWaits(s, m, Requesting(t))
    case RunMaster(m) => MasterStep(s, m)
    case RunSlave(k, w, busy) => SlaveStep(cfg, s, k, w, busy)
    case RunArbiter => ArbiterStep(s)
    case Advance(arbiter, masters, slaves) => Advanced(s, arbiter, masters, slaves)
  }

  // The conditions under which the protocol is meant to be used.

  /** A slave that answers the transfer moves as many words as it names. */
  predicate Matched(cfg: Config, t: Transfer) {
    forall k | 0 <= k < |cfg.ranges| && Claims(cfg.ranges[k], t.addr, t.len) :: cfg.words(k, t.rdnwr, t.len) == t.len
  }

  /** A transfer of at least one word whose end address does not wrap around, and for which the slave it is addressed to,
      if there is one, moves as many words. */
  predicate Legal(cfg: Config, t: Transfer) {
    t.len >= 1 && t.addr + t.len < 0x1_0000_0000 && (!t.rdnwr ==> |t.data| == t.len) && Matched(cfg, t)
  }

  predicate LegalLabel(cfg: Config, l: Label) {
    l.Issue? ==> Legal(cfg, l.t)
  }

  ghost predicate InQueue(s: State, m: nat) {
    exists i :: 0 <= i < |s.bus.queue| && s.bus.queue[i].id == m
  }

  /** Every master that waits for an acknowledge still has its request in the queue. */
  ghost predicate Settled(s: State) {
    forall m | 0 <= m < |s.masters| && s.masters[m].at.AwaitGrant? :: InQueue(s, m)
  }

  /** The step takes a request out of the queue. */
  predicate Grants(s: State, l: Label) {
    l == RunArbiter && s.bus.queue != [] &&
      match s.arbiter.at
      case ArbiterStart => true
      case NoRequest => true
      case AckOrTimeout => false
      case GapCycle => !s.bus.receivedResponse
      case TransferEnd => true
  }

  /** The arbiter takes a request only when nobody whose request was taken before still has to look at its answer. */
  ghost predicate Disciplined(s: State, l: Label) {
    Grants(s, l) ==> Settled(s)
  }

  /** A run: `trace` holds the states, `labels` the steps between them. */
  ghost predicate Run(cfg: Config, trace: seq<State>, labels: seq<Label>)
    requires cfg.memorySlave < |cfg.ranges|
  {
    && |trace| == |labels| + 1
    && trace[0].bus.queue == []
    && trace[0] == Initial(cfg, trace[0].bus)
    && forall i | 0 <= i < |labels| ::
         |trace[i].slaves| == |cfg.ranges| && Enabled(cfg, trace[i], labels[i]) && trace[i + 1] == Next(cfg, trace[i], labels[i])
  }

  // What the memory should do: the granted requests replayed one at a time.

  function Overlay(mem: seq<Unsigned>, at: int, words: seq<Unsigned>): (r: seq<Unsigned>)
    ensures |r| == |mem|
    ensures forall i | 0 <= i < |mem| :: r[i] == if at <= i < at + |words| then words[i - at] else mem[i]
  {
    seq(|mem|, i requires 0 <= i < |mem| => if at <= i < at + |words| then words[i - at] else mem[i])
  }

  predicate ForMemory(cfg: Config, t: Transfer)
    requires cfg.memorySlave < |cfg.ranges|
  {
    Claims(cfg.ranges[cfg.memorySlave], t.addr, t.len)
  }

  function Effect(cfg: Config, mem: seq<Unsigned>, t: Transfer): (r: seq<Unsigned>)
    requires cfg.memorySlave < |cfg.ranges|
    ensures |r| == |mem|
  {
    if ForMemory(cfg, t) && !t.rdnwr then Overlay(mem, Cell(cfg, t.addr, 0), t.data) else mem
  }

  function Replay(cfg: Config, tickets: seq<Ticket>): (mem: seq<Unsigned>)
    requires cfg.memorySlave < |cfg.ranges|
    ensures |mem| == |cfg.initial|
  {
    if tickets == [] then cfg.initial
    else Effect(cfg, Replay(cfg, tickets[..|tickets| - 1]), tickets[|tickets| - 1].t)
  }

  /** The words a read of the memory should give when the requests before it have been replayed. */
  function ReadFrom(cfg: Config, tickets: seq<Ticket>, t: Transfer): seq<Unsigned>
    requires cfg.Valid() && ForMemory(cfg, t) && Legal(cfg, t)
  {
    AnsweredInRange(cfg.ranges[cfg.memorySlave], t.addr, t.len);
    var base := Cell(cfg, t.addr, 0);
    Replay(cfg, tickets)[base..base + t.len]
  }
}
