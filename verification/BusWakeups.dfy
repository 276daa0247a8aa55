/** No wake-up is lost, and the bus never stops with a call pending. */
module BusWakeups {
  import opened Bus
  import opened BusSystem
  import opened BusInvariant
  import opened BusRuns
  import opened BusTheorems
  import BusTransfer

  /** The events a step notifies. */
  function Notified(cfg: Config, s: State, l: Label): set<Event>
    requires cfg.memorySlave < |cfg.ranges| == |s.slaves| && Enabled(cfg, s, l)
  {
    match l
    case RunArbiter =>
      (match s.arbiter.at
       case GapCycle => {MasterAck} + if !s.bus.receivedResponse && s.bus.queue != [] then {SlvRequest} else {}
       case AckOrTimeout => {}
       case _ => if s.bus.queue != [] then {SlvRequest} else {})
    case RunMaster(m) =>
      (match s.masters[m].at
       case Requesting(_) => {BusRequest}
       case AwaitGrant(t) => if s.bus.currentReq.id == m && s.bus.receivedResponse && t.rdnwr && 0 < t.len then {MstReady} else {}
       case Latching(t, got) => if !TransferOver(Counted(s.bus)) && |got| + 1 < t.len then {MstReady} else {}
       case Ending(t, got) => {EndOfTransfer} + if |got| < t.len then {MstReady} else {}
       case Driving(_, _) => {DataReady}
       case _ => {})
    case RunSlave(k, _, _) =>
      (match s.slaves[k].at
       case Listening => if Claims(cfg.ranges[k], s.bus.currentReq.addr, s.bus.currentReq.len) then {SlvAck} else {}
       case Sending(_, _, _) => {DataReady}
       case Receiving(_, _, _) => {SlvReady}
       case Closing(_, _, _, _) => {EndOfTransfer}
       case _ => {})
    case _ => {}
  }

  predicate WokenFrom(w: WaitsFor, es: set<Event>) {
    w.Notice? && w.e in es
  }

  /** s' is s with the processes woken that wait for one of the events. */
  ghost predicate WokenBy(s: State, s': State, es: set<Event>, l: Label) {
    && |s'.masters| == |s.masters| && |s'.slaves| == |s.slaves|
    && (l != RunArbiter ==> s'.arbiter == s.arbiter.(awake := s.arbiter.awake || WokenFrom(ArbiterEvent(s.arbiter.at), es)))
    && (forall m | 0 <= m < |s.masters| && !(l.RunMaster? && l.m == m) ::
          s'.masters[m] == s.masters[m].(awake := s.masters[m].awake || WokenFrom(MasterEvent(s.masters[m].at), es)))
    && (forall k | 0 <= k < |s.slaves| && !(l.RunSlave? && l.k == k) ::
          s'.slaves[k] == s.slaves[k].(awake := s.slaves[k].awake || WokenFrom(SlaveEvent(s.slaves[k].at), es)))
  }

  /** A step makes runnable exactly the other processes that wait for an event it notifies. */
  lemma WakesExactly(cfg: Config, s: State, l: Label)
    requires cfg.memorySlave < |cfg.ranges| == |s.slaves| && Enabled(cfg, s, l)
    requires l.RunMaster? || l.RunSlave? || l.RunArbiter?
    ensures WokenBy(s, Next(cfg, s, l), Notified(cfg, s, l), l)
  {
    match l
    case RunMaster(m) => MasterWakes(cfg, s, m);
    case RunSlave(k, w, busy) => SlaveWakes(cfg, s, k, w, busy);
    case RunArbiter => ArbiterWakes(cfg, s);
  }

  lemma MasterReadsOnWakes(s: State, s1: State, m: Unsigned, t: Transfer, got: seq<Unsigned>, es: set<Event>, l: Label)
    requires m < |s.masters| && l == RunMaster(m) && WokenBy(s, s1, es, l)
    ensures WokenBy(s, ReadOn(s1, m, t, got), es + if |got| < t.len then {MstReady} else {}, l)
  {}

  lemma MasterDrivesWakes(s: State, m: Unsigned, w: Unsigned, at: MasterAt)
    requires m < |s.masters|
    ensures WokenBy(s, MasterWaits(OnWire(s, w), m, at), {DataReady}, RunMaster(m))
  {
    assert WokenBy(s, OnWire(s, w), {DataReady}, RunMaster(m));
  }

  lemma MasterPushesWakes(s: State, m: Unsigned, t: Transfer)
    requires m < |s.masters|
    ensures WokenBy(s, Push(s, m, t), {BusRequest}, RunMaster(m))
  {}

  lemma MasterEndsWakes(s: State, m: Unsigned, t: Transfer, got: seq<Unsigned>)
    requires m < |s.masters|
    ensures WokenBy(s, EndRead(s, m, t, got), {EndOfTransfer} + if |got| < t.len then {MstReady} else {}, RunMaster(m))
  {
    var l := RunMaster(m);
    var s1 := Notify(s, EndOfTransfer);
    var s2 := s1.(h := s1.h.(done := s1.h.done + [Served(s1.h.owner, s1.h.wire, got)]));
    assert WokenBy(s, s2, {EndOfTransfer}, l);
    hide ReadOn, WokenBy, Notify;
    MasterReadsOnWakes(s, s2, m, t, got, {EndOfTransfer}, l);
  }

  lemma MasterLooksWakes(s: State, m: Unsigned, t: Transfer)
    requires m < |s.masters|
    ensures WokenBy(s, LookAtReply(s, m, t),
                    if s.bus.currentReq.id == m && s.bus.receivedResponse && t.rdnwr && 0 < t.len then {MstReady} else {}, RunMaster(m))
  {}

  lemma MasterLatchesWakes(s: State, m: Unsigned, t: Transfer, got: seq<Unsigned>)
    requires m < |s.masters|
    ensures WokenBy(s, Latch(s, m, t, got),
                    if !TransferOver(Counted(s.bus)) && |got| + 1 < t.len then {MstReady} else {}, RunMaster(m))
  {}

  lemma MasterWakes(cfg: Config, s: State, m: Unsigned)
    requires cfg.memorySlave < |cfg.ranges| == |s.slaves| && Enabled(cfg, s, RunMaster(m))
    ensures WokenBy(s, MasterStep(s, m), Notified(cfg, s, RunMaster(m)), RunMaster(m))
  {
    hide ReadOn, Push, OnWire, EndRead, LookAtReply, Latch;
    match s.masters[m].at
    case Requesting(t) => MasterPushesWakes(s, m, t);
    case AwaitGrant(t) => MasterLooksWakes(s, m, t);
    case Latching(t, got) => MasterLatchesWakes(s, m, t, got);
    case Ending(t, got) => MasterEndsWakes(s, m, t, got);
    case Driving(t, i) => MasterDrivesWakes(s, m, t.data[i], AwaitTaken(t, i));
    case _ =>
  }

  lemma SlaveHearsWakes(cfg: Config, s: State, k: nat, l: Label)
    requires k < |s.slaves| == |cfg.ranges| && l.RunSlave? && l.k == k
    ensures var r := s.bus.currentReq;
            WokenBy(s, Hear(cfg, s, k), if Claims(cfg.ranges[k], r.addr, r.len) then {SlvAck} else {}, l)
  {}

  lemma SlaveReceivesWakes(cfg: Config, s: State, k: nat, addr: Unsigned, len: Unsigned, inn: seq<Unsigned>, busy: bool, l: Label)
    requires k < |s.slaves| && cfg.memorySlave < |cfg.ranges| && l.RunSlave? && l.k == k
    requires k == cfg.memorySlave ==> 0 <= Cell(cfg, addr, |inn|) < |s.memory|
    ensures WokenBy(s, Receive(cfg, s, k, addr, len, inn, busy), {SlvReady}, l)
  {
    var s1 := Notify(s.(bus := Counted(s.bus)), SlvReady);
    assert WokenBy(s, s1, {SlvReady}, l);
  }

  lemma SlaveEndsWakes(cfg: Config, s: State, k: nat, addr: Unsigned, len: Unsigned, inn: seq<Unsigned>, w: Unsigned, busy: bool,
                       l: Label)
    requires k < |s.slaves| && cfg.memorySlave < |cfg.ranges| && l.RunSlave? && l.k == k
    requires k == cfg.memorySlave ==> 0 <= Cell(cfg, addr, |inn|) < |s.memory|
    ensures WokenBy(s, EndWrite(cfg, s, k, addr, len, inn, w, busy), {EndOfTransfer}, l)
  {
    assert WokenBy(s, Notify(s, EndOfTransfer), {EndOfTransfer}, l);
  }

  lemma SlaveSendsWakes(s: State, k: nat, addr: Unsigned, len: Unsigned, out: seq<Unsigned>, w: Unsigned, busy: bool, l: Label)
    requires k < |s.slaves| && l.RunSlave? && l.k == k
    ensures WokenBy(s, Send(s, k, addr, len, out, w, busy), {DataReady}, l)
  {
    assert WokenBy(s, OnWire(s, w), {DataReady}, l);
  }

  lemma SlaveWakes(cfg: Config, s: State, k: nat, w: Unsigned, busy: bool)
    requires cfg.memorySlave < |cfg.ranges| == |s.slaves| && Enabled(cfg, s, RunSlave(k, w, busy))
    ensures WokenBy(s, SlaveStep(cfg, s, k, w, busy), Notified(cfg, s, RunSlave(k, w, busy)), RunSlave(k, w, busy))
  {
    var l := RunSlave(k, w, busy);
    hide Hear, Send, Receive, EndWrite;
    match s.slaves[k].at
    case Listening => SlaveHearsWakes(cfg, s, k, l);
    case Sending(addr, len, out) =>
      SlaveSendsWakes(s, k, addr, len, out, if k == cfg.memorySlave then s.memory[Cell(cfg, addr, |out|)] else w, busy, l);
    case Receiving(addr, len, inn) => SlaveReceivesWakes(cfg, s, k, addr, len, inn, busy, l);
    case Closing(addr, len, inn, last) => SlaveEndsWakes(cfg, s, k, addr, len, inn, last, busy, l);
    case _ =>
  }

  lemma ArbiterWakes(cfg: Config, s: State)
    requires cfg.memorySlave < |cfg.ranges| == |s.slaves| && Enabled(cfg, s, RunArbiter)
    ensures WokenBy(s, ArbiterStep(s), Notified(cfg, s, RunArbiter), RunArbiter)
  {}

  /** The process a notification is meant for, waiting. A push need not wake the arbiter: it may be elsewhere, and then
      looks at the queue before it waits, or be on its way already for an earlier push. An announcement is meant for
      every slave; only a device that is at work misses it. */
  ghost predicate Expected(cfg: Config, s: State, e: Event)
    requires cfg.memorySlave < |s.slaves|
  {
    match e
    case BusRequest => s.arbiter.at.NoRequest? ==> s.arbiter.awake == (s.bus.queue != [])
    case SlvRequest =>
      && s.slaves[cfg.memorySlave] == Slave(Listening, false)
      && forall k | 0 <= k < |s.slaves| :: s.slaves[k] == Slave(Listening, false) || (k != cfg.memorySlave && s.slaves[k].at.Busy?)
    case SlvAck => s.arbiter == Arbiter(AckOrTimeout, false)
    case MasterAck => s.h.granted > 0 && s.h.granted <= |s.h.pushed| &&
      (var k := s.h.pushed[s.h.granted - 1]; k.id < |s.masters| && s.masters[k.id] == Master(AwaitGrant(k.t), false))
    case MstReady => s.h.owner < |s.slaves| && s.slaves[s.h.owner].at.Sending? && !s.slaves[s.h.owner].awake
    case DataReady =>
      if s.bus.currentReq.rdnwr
      then s.bus.currentReq.id < |s.masters| && s.masters[s.bus.currentReq.id].at.AwaitData? && !s.masters[s.bus.currentReq.id].awake
      else s.h.owner < |s.slaves| && s.slaves[s.h.owner].at.Receiving? && !s.slaves[s.h.owner].awake
    case SlvReady =>
      && s.bus.currentReq.id < |s.masters|
      && s.masters[s.bus.currentReq.id].at.AwaitTaken? && !s.masters[s.bus.currentReq.id].awake
    case EndOfTransfer => s.arbiter == Arbiter(TransferEnd, false)
  }

  // What a runnable process says about the phase.

  lemma RunnableMaster(cfg: Config, s: State, ph: Phase, recent: bool, m: nat)
    requires PhaseInv(cfg, s, ph, recent) && m < |s.masters| && s.masters[m].awake
    ensures MasterInside(ph) ==> CurrentOk(s)
    ensures s.masters[m].at.Requesting? || s.masters[m].at.AwaitGrant? || (MasterInside(ph) && m == Cur(s).id)
    ensures s.masters[m].at.AwaitGrant? && s.bus.currentReq.id == m && s.bus.receivedResponse ==> ph.Acked? && m == Cur(s).id
    ensures s.masters[m].at.Requesting? || s.masters[m].at.AwaitGrant? ==> !ph.Boot?
    ensures s.masters[m].at.Requesting? ==> Legal(cfg, s.masters[m].at.t)
  {
    hide QueueOk, SlavesOk, ArbiterOk, MemoryOk, RecordsOk, ReturnsOk, WireOk, SlaveAtOk, OwnerOk;
    if MasterInside(ph) && m == Cur(s).id {
      assert MasterAtOk(s, ph, recent) && BusOk(s, ph);
    } else {
      assert Bystander(cfg, s, ph, recent, m);
      if s.masters[m].at.AwaitGrant? {
        assert BusOk(s, ph) && MasterAtOk(s, ph, recent);
      }
    }
  }

  lemma MasterFindsWaiter(cfg: Config, s: State, ph: Phase, recent: bool, m: Unsigned, e: Event)
    requires PhaseInv(cfg, s, ph, recent) && |s.slaves| == |cfg.ranges| && cfg.memorySlave < |cfg.ranges|
    requires Enabled(cfg, s, RunMaster(m)) && e in Notified(cfg, s, RunMaster(m))
    ensures Expected(cfg, s, e)
  {
    hide Expected, QueueOk, MastersOk, SlavesOk, MemoryOk, RecordsOk, ReturnsOk, CurrentTransferOk, ArbiterOk;
    RunnableMaster(cfg, s, ph, recent, m);
    if e == BusRequest {
      PushFindsArbiter(cfg, s, ph, recent);
    } else {
      assert MasterInside(ph) && m == Cur(s).id;
      if ph.Refusing? {
        RefusedNotifiesNothing(cfg, s, recent);
      }
      CurrentMasterFindsWaiter(cfg, s, ph, recent, e);
    }
  }

  lemma PushFindsArbiter(cfg: Config, s: State, ph: Phase, recent: bool)
    requires PhaseInv(cfg, s, ph, recent) && cfg.memorySlave < |s.slaves|
    ensures Expected(cfg, s, BusRequest)
  {
    hide QueueOk, MastersOk, SlavesOk, MemoryOk, RecordsOk, ReturnsOk, CurrentTransferOk;
  }

  lemma RefusedNotifiesNothing(cfg: Config, s: State, recent: bool)
    requires Shape(cfg, s) && CurrentTransferOk(cfg, s, Refusing, recent)
    requires Cur(s).id < |s.masters| && Enabled(cfg, s, RunMaster(Cur(s).id))
    ensures Notified(cfg, s, RunMaster(Cur(s).id)) == {}
  {}

  lemma CurrentMasterFindsWaiter(cfg: Config, s: State, ph: Phase, recent: bool, e: Event)
    requires Shape(cfg, s) && Current(ph) && MasterInside(ph) && CurrentTransferOk(cfg, s, ph, recent) && ArbiterOk(s, ph, recent)
    requires s.masters[Cur(s).id].awake && Enabled(cfg, s, RunMaster(Cur(s).id)) && e in Notified(cfg, s, RunMaster(Cur(s).id))
    ensures Expected(cfg, s, e)
  {
    hide ReadFrom, OwnerOk;
    assert !ph.Open?;
  }

  lemma SlaveFindsWaiter(cfg: Config, s: State, ph: Phase, recent: bool, k: nat, w: Unsigned, busy: bool, e: Event)
    requires PhaseInv(cfg, s, ph, recent) && |s.slaves| == |cfg.ranges| && cfg.memorySlave < |cfg.ranges|
    requires Enabled(cfg, s, RunSlave(k, w, busy)) && e in Notified(cfg, s, RunSlave(k, w, busy))
    ensures Expected(cfg, s, e)
  {
    hide QueueOk, MastersOk, SlavesOk, MemoryOk, RecordsOk, ReturnsOk, OwnerOk, LengthOk, ReadFrom;
    if s.slaves[k].at == Listening {
      AnsweringPhase(cfg, s, ph, recent, k);
    } else {
      InsideSlave(cfg, s, ph, recent, k);
      assert MasterAtOk(s, ph, recent) && BusOk(s, ph) && ArbiterOk(s, ph, recent);
    }
  }

  lemma AnsweringPhase(cfg: Config, s: State, ph: Phase, recent: bool, k: nat)
    requires PhaseInv(cfg, s, ph, recent) && k < |s.slaves| && s.slaves[k] == Slave(Listening, true)
    requires |s.slaves| == |cfg.ranges| && Claims(cfg.ranges[k], s.bus.currentReq.addr, s.bus.currentReq.len)
    ensures ph.Open? && recent
  {
    HearingPhase(cfg, s, ph, recent, k);
    BusTransfer.Essentials(cfg, s, ph, recent);
    hide QueueOk, MastersOk, MemoryOk, RecordsOk, ReturnsOk;
    if ph.Claimed? {
      assert SlaveAtOk(cfg, s, ph, recent) && OwnerOk(cfg, s, ph);
      OneSlaveAnswers(cfg.ranges, s.h.owner, k, Cur(s).t.addr, Cur(s).t.len);
    } else {
      assert AtRest(cfg, s, ph, recent, k);
    }
  }

  lemma AnnouncementFindsSlaves(cfg: Config, s: State, recent: bool)
    requires PhaseInv(cfg, s, Quiet, recent) && cfg.memorySlave < |s.slaves|
    ensures Expected(cfg, s, SlvRequest)
  {
    hide QueueOk, MastersOk, MemoryOk, RecordsOk, ReturnsOk, CurrentTransferOk;
    forall k | 0 <= k < |s.slaves|
      ensures s.slaves[k] == Slave(Listening, false) || (k != cfg.memorySlave && s.slaves[k].at.Busy?)
    {
      assert AtRest(cfg, s, Quiet, recent, k);
    }
  }

  lemma AckFindsMaster(cfg: Config, s: State, ph: Phase, recent: bool)
    requires PhaseInv(cfg, s, ph, recent) && (ph.Open? || ph.Claimed?) && cfg.memorySlave < |s.slaves|
    ensures Expected(cfg, s, MasterAck)
  {
    hide QueueOk, MastersOk, SlavesOk, MemoryOk, RecordsOk, ReturnsOk, WireOk, OwnerOk;
    assert MasterAtOk(s, ph, recent);
  }

  lemma ArbiterFindsWaiter(cfg: Config, s: State, ph: Phase, recent: bool, e: Event)
    requires PhaseInv(cfg, s, ph, recent) && |s.slaves| == |cfg.ranges| && cfg.memorySlave < |cfg.ranges|
    requires Enabled(cfg, s, RunArbiter) && Disciplined(s, RunArbiter) && e in Notified(cfg, s, RunArbiter)
    ensures Expected(cfg, s, e)
  {
    hide Expected, QueueOk, MastersOk, SlavesOk, MemoryOk, RecordsOk, ReturnsOk, WireOk, OwnerOk, MasterAtOk, SlaveAtOk;
    if ph.Refusing? || ph.Open? {
      UnsettledWhenWaiting(cfg, s, ph, recent);
    }
    if e == SlvRequest {
      if ph.Claimed? || ph.Acked? || InTransfer(ph) {
        MovingPhaseGrantsNothing(cfg, s, ph, recent);
      }
      assert ph.Quiet?;
      AnnouncementFindsSlaves(cfg, s, recent);
    } else {
      AckFindsMaster(cfg, s, ph, recent);
    }
  }

  /** Whenever a step notifies an event of the protocol, the process the event is meant for is waiting for it. */
  lemma NotifyFindsWaiter(cfg: Config, s: State, l: Label, e: Event)
    requires Inv(cfg, s) && |s.slaves| == |cfg.ranges| && cfg.memorySlave < |cfg.ranges|
    requires Enabled(cfg, s, l) && Disciplined(s, l) && e in Notified(cfg, s, l)
    ensures Expected(cfg, s, e)
  {
    var ph, recent :| PhaseInv(cfg, s, ph, recent);
    hide PhaseInv, Notified, Expected;
    match l
    case RunMaster(m) => MasterFindsWaiter(cfg, s, ph, recent, m, e);
    case RunSlave(k, w, busy) => SlaveFindsWaiter(cfg, s, ph, recent, k, w, busy, e);
    case RunArbiter => ArbiterFindsWaiter(cfg, s, ph, recent, e);
    case _ => assert false by { NothingNotified(cfg, s, l); }
  }

  lemma NothingNotified(cfg: Config, s: State, l: Label)
    requires |s.slaves| == |cfg.ranges| && cfg.memorySlave < |cfg.ranges| && Enabled(cfg, s, l)
    requires l.Issue? || l.Advance?
    ensures Notified(cfg, s, l) == {}
  {}

  // The bus does not stop.

  /** Every runnable process can take its step: no word is fetched from outside a buffer, none is stored outside the
      memory, and the arbiter never takes from an empty queue. */
  lemma RunnableCanStep(cfg: Config, s: State)
    requires Inv(cfg, s) && |s.slaves| == |cfg.ranges| && cfg.memorySlave < |cfg.ranges| && |s.masters| == cfg.masters
    ensures s.arbiter.awake ==> Enabled(cfg, s, RunArbiter)
    ensures forall m: Unsigned | 0 <= m < |s.masters| && s.masters[m].awake :: Enabled(cfg, s, RunMaster(m))
    ensures forall k | 0 <= k < |s.slaves| && s.slaves[k].awake :: Enabled(cfg, s, RunSlave(k, 0, false))
  {
    var ph, recent :| PhaseInv(cfg, s, ph, recent);
    assert s.arbiter.awake && s.arbiter.at == NoRequest ==> s.bus.queue != [] by {
      hide QueueOk, MastersOk, SlavesOk, CurrentTransferOk, MemoryOk, RecordsOk, ReturnsOk;
    }
    hide PhaseInv;
    forall m: Unsigned | 0 <= m < |s.masters| && s.masters[m].awake ensures Enabled(cfg, s, RunMaster(m)) {
      MasterCanStep(cfg, s, ph, recent, m);
    }
    forall k | 0 <= k < |s.slaves| && s.slaves[k].awake ensures Enabled(cfg, s, RunSlave(k, 0, false)) {
      SlaveCanStep(cfg, s, ph, recent, k);
    }
  }

  lemma MasterCanStep(cfg: Config, s: State, ph: Phase, recent: bool, m: nat)
    requires PhaseInv(cfg, s, ph, recent) && m < |s.masters| && s.masters[m].awake
    ensures s.masters[m].at.Driving? ==> s.masters[m].at.i < |s.masters[m].at.t.data|
  {
    RunnableMaster(cfg, s, ph, recent, m);
    if s.masters[m].at.Driving? {
      BusTransfer.Essentials(cfg, s, ph, recent);
      hide QueueOk, MastersOk, SlavesOk, MemoryOk, RecordsOk, ReturnsOk;
      assert MasterAtOk(s, ph, recent) && LengthOk(s, ph) && WireOk(cfg, s, ph);
    }
  }

  lemma SlaveCanStep(cfg: Config, s: State, ph: Phase, recent: bool, k: nat)
    requires PhaseInv(cfg, s, ph, recent) && k < |s.slaves| && s.slaves[k].awake && cfg.memorySlave < |cfg.ranges|
    ensures InArray(cfg, s, k)
  {
    if SlaveMoves(s.slaves[k].at) && k == cfg.memorySlave {
      InsideSlave(cfg, s, ph, recent, k);
      BusTransfer.Essentials(cfg, s, ph, recent);
      hide QueueOk, MastersOk, SlavesOk, MemoryOk, RecordsOk, ReturnsOk;
      assert OwnerOk(cfg, s, ph) && LengthOk(s, ph);
      var t, wire := Cur(s).t, s.h.wire;
      BusTransfer.AnsweringMemory(cfg, s, k, t, if ph.Asking? then |wire| else |wire| - 1);
    }
  }

  /** When every process waits and a call has not returned, a timed wait is under way. */
  lemma SleepersWaitForTime(cfg: Config, s: State, ph: Phase, recent: bool, m: nat)
    requires PhaseInv(cfg, s, ph, recent) && Asleep(s)
    requires m < |s.masters| && s.masters[m].at != Idle
    ensures ArbiterTimed(s.arbiter.at) || (exists i :: 0 <= i < |s.masters| && MasterTimed(s.masters[i].at))
            || (exists k :: 0 <= k < |s.slaves| && SlaveTimed(s.slaves[k].at))
  {
    if MasterTimed(s.masters[m].at) || ArbiterTimed(s.arbiter.at) {
    } else if Current(ph) || ph.Refusing? {
      hide QueueOk, MastersOk, SlavesOk, MemoryOk, RecordsOk, ReturnsOk, WireOk, OwnerOk, BusOk;
      assert MasterAtOk(s, ph, recent);
      assert ph.Open? || SlaveAtOk(cfg, s, ph, recent);
      assert MasterTimed(s.masters[Cur(s).id].at) || SlaveTimed(s.slaves[s.h.owner].at);
    } else {
      PendingWakesArbiter(cfg, s, ph, recent, m);
      assert false;
    }
  }

  lemma PendingWakesArbiter(cfg: Config, s: State, ph: Phase, recent: bool, m: nat)
    requires PhaseInv(cfg, s, ph, recent) && !Current(ph) && !ph.Refusing?
    requires m < |s.masters| && s.masters[m].at != Idle && !MasterTimed(s.masters[m].at)
    ensures s.arbiter.awake
  {
    hide SlavesOk, MemoryOk, RecordsOk, ReturnsOk;
    assert Bystander(cfg, s, ph, recent, m);
    assert Pending(s, m);
  }

  /** As long as a call has not returned some step is possible, and one that keeps to the discipline, unless an
      unanswered request has timed out and others are in the queue. */
  lemma NoDeadlock(cfg: Config, s: State, m: nat) returns (l: Label)
    requires Inv(cfg, s) && |s.slaves| == |cfg.ranges| && cfg.memorySlave < |cfg.ranges| && |s.masters| == cfg.masters
    requires m < |s.masters| && s.masters[m].at != Idle
    ensures Enabled(cfg, s, l) && !l.Issue?
    ensures Disciplined(s, l) || (s.arbiter == Arbiter(GapCycle, true) && !s.bus.receivedResponse && s.bus.queue != [])
  {
    hide PhaseInv, InArray, Settled;
    RunnableCanStep(cfg, s);
    var ph, recent :| PhaseInv(cfg, s, ph, recent);
    if i: Unsigned :| 0 <= i < |s.masters| && s.masters[i].awake {
      l := RunMaster(i);
    } else if k :| 0 <= k < |s.slaves| && s.slaves[k].awake {
      l := RunSlave(k, 0, false);
    } else if s.arbiter.awake {
      l := RunArbiter;
      ArbiterDiscipline(cfg, s, ph, recent);
    } else {
      SleepersWaitForTime(cfg, s, ph, recent, m);
      if ArbiterTimed(s.arbiter.at) {
        l := Advance(true, {}, {});
      } else if i :| 0 <= i < |s.masters| && MasterTimed(s.masters[i].at) {
        l := Advance(false, {i}, {});
      } else {
        var k :| 0 <= k < |s.slaves| && SlaveTimed(s.slaves[k].at);
        l := Advance(false, {}, {k});
      }
    }
  }

  /** With no master runnable, the only grant that breaks the discipline is the one after an unanswered request. */
  lemma ArbiterDiscipline(cfg: Config, s: State, ph: Phase, recent: bool)
    requires PhaseInv(cfg, s, ph, recent) && s.arbiter.awake
    requires forall i | 0 <= i < |s.masters| :: !s.masters[i].awake
    ensures Disciplined(s, RunArbiter) || (s.arbiter == Arbiter(GapCycle, true) && !s.bus.receivedResponse && s.bus.queue != [])
  {
    if ph.Claimed? || ph.Acked? || InTransfer(ph) {
      MovingPhaseGrantsNothing(cfg, s, ph, recent);
    } else if ph.Quiet? {
      QuietIsSettled(cfg, s, recent);
    } else if ph.Refusing? {
      RefusedIsRunnable(cfg, s, recent);
      assert false;
    } else {
      hide QueueOk, MastersOk, SlavesOk, MemoryOk, RecordsOk, ReturnsOk;
      assert ph.Open? ==> BusOk(s, ph);
    }
  }

  lemma RefusedIsRunnable(cfg: Config, s: State, recent: bool)
    requires PhaseInv(cfg, s, Refusing, recent)
    ensures exists i :: 0 <= i < |s.masters| && s.masters[i].awake
  {
    hide QueueOk, MastersOk, SlavesOk, MemoryOk, RecordsOk, ReturnsOk;
    assert MasterAtOk(s, Refusing, recent);
    assert s.masters[Cur(s).id].awake;
  }

  lemma QuietIsSettled(cfg: Config, s: State, recent: bool)
    requires PhaseInv(cfg, s, Quiet, recent)
    ensures Settled(s)
  {
    hide SlavesOk, ArbiterOk, MemoryOk, RecordsOk, ReturnsOk;
    forall m | 0 <= m < |s.masters| && s.masters[m].at.AwaitGrant? ensures InQueue(s, m) {
      assert Bystander(cfg, s, Quiet, recent, m);
      var i :| s.h.granted <= i < |s.h.pushed| && s.h.pushed[i].id == m;
      assert s.bus.queue[i - s.h.granted].id == m;
    }
  }

  // The end of a transfer.

  /** The records grow by one served request exactly if the step notifies the end of a transfer. */
  ghost predicate Ends(s: State, s': State, es: set<Event>) {
    && |s.h.done| <= |s'.h.done| <= |s.h.done| + 1 && s'.h.done[..|s.h.done|] == s.h.done
    && (EndOfTransfer in es <==> |s'.h.done| == |s.h.done| + 1 && s'.h.done[|s.h.done|].Served?)
  }

  lemma MasterEnds(cfg: Config, s: State, m: Unsigned)
    requires cfg.memorySlave < |cfg.ranges| == |s.slaves| && Enabled(cfg, s, RunMaster(m))
    ensures Ends(s, MasterStep(s, m), Notified(cfg, s, RunMaster(m)))
  {
    hide WokenMasters, WokenSlaves;
  }

  lemma SlaveEnds(cfg: Config, s: State, k: nat, w: Unsigned, busy: bool)
    requires cfg.memorySlave < |cfg.ranges| == |s.slaves| && Enabled(cfg, s, RunSlave(k, w, busy))
    ensures Ends(s, SlaveStep(cfg, s, k, w, busy), Notified(cfg, s, RunSlave(k, w, busy)))
  {
    hide WokenMasters, WokenSlaves;
  }

  lemma ArbiterEndsNothing(cfg: Config, s: State)
    requires cfg.memorySlave < |cfg.ranges| == |s.slaves| && Enabled(cfg, s, RunArbiter)
    ensures Ends(s, ArbiterStep(s), Notified(cfg, s, RunArbiter))
  {
    hide WokenMasters, WokenSlaves;
  }

  lemma StepEnds(cfg: Config, s: State, l: Label)
    requires |s.slaves| == |cfg.ranges| && cfg.memorySlave < |cfg.ranges| && Enabled(cfg, s, l)
    ensures Ends(s, Next(cfg, s, l), Notified(cfg, s, l))
  {
    hide MasterStep, SlaveStep, ArbiterStep, InArray;
    match l
    case RunMaster(m) => MasterEnds(cfg, s, m);
    case RunSlave(k, w, busy) => SlaveEnds(cfg, s, k, w, busy);
    case RunArbiter => ArbiterEndsNothing(cfg, s);
    case _ => NothingNotified(cfg, s, l);
  }

  /** A step notifies the end of a transfer exactly if it finishes a served request: once for each, when all its words
      have been received. */
  lemma EndOfTransferOnce(cfg: Config, s: State, l: Label)
    requires Inv(cfg, s) && |s.slaves| == |cfg.ranges| && cfg.memorySlave < |cfg.ranges|
    requires Enabled(cfg, s, l) && LegalLabel(cfg, l) && Disciplined(s, l)
    ensures Ends(s, Next(cfg, s, l), Notified(cfg, s, l))
    ensures EndOfTransfer in Notified(cfg, s, l) ==>
              var n, s' := |s.h.done|, Next(cfg, s, l);
              n < |s'.h.pushed| && |s'.h.done[n].received| == s'.h.pushed[n].t.len
  {
    hide PhaseInv, Notified, Next, Disciplined, LegalLabel, Enabled;
    StepEnds(cfg, s, l);
    if EndOfTransfer in Notified(cfg, s, l) {
      var ph, recent :| PhaseInv(cfg, s, ph, recent);
      var ph', recent' := StepKeeps(cfg, s, ph, recent, l);
      assert Inv(cfg, Next(cfg, s, l));
      Delivered(cfg, Next(cfg, s, l), |s.h.done|);
    }
  }
}
