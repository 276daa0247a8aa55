/** The steps of the arbiter, of the listening slaves, and of time. */
module BusArbiter {
  import opened Bus
  import opened BusSystem
  import opened BusInvariant
  import opened BusSteps
  import opened BusTransfer

  // Only the arbiter moves.

  lemma ArbiterMovesMasters(cfg: Config, s: State, ph: Phase, recent: bool, a: Arbiter)
    requires MastersOk(cfg, s, ph, recent)
    ensures MastersOk(cfg, s.(arbiter := a), ph, recent)
  {
    hide Legal;
    var s' := s.(arbiter := a);
    forall m | 0 <= m < |s.masters| && !(MasterInside(ph) && m == Cur(s).id) ensures Bystander(cfg, s', ph, recent, m) {
      assert Bystander(cfg, s, ph, recent, m);
      assert Pending(s, m) ==> Pending(s', m);
    }
  }

  lemma ArbiterMovesQueue(cfg: Config, s: State, ph: Phase, a: Arbiter)
    requires QueueOk(cfg, s, ph)
    ensures QueueOk(cfg, s.(arbiter := a), ph)
  {
    hide Legal;
  }

  lemma ArbiterMovesSlaves(cfg: Config, s: State, ph: Phase, recent: bool, a: Arbiter)
    requires |s.slaves| == |cfg.ranges| && SlavesOk(cfg, s, ph, recent)
    ensures SlavesOk(cfg, s.(arbiter := a), ph, recent)
  {
    var s' := s.(arbiter := a);
    forall k | 0 <= k < |s.slaves| && !(Current(ph) && SlaveInside(cfg, s, ph) && k == s.h.owner)
      ensures AtRest(cfg, s', ph, recent, k)
    {
      assert AtRest(cfg, s, ph, recent, k);
    }
  }

  lemma ArbiterMovesTransfer(cfg: Config, s: State, ph: Phase, recent: bool, a: Arbiter)
    requires Shape(cfg, s) && CurrentTransferOk(cfg, s, ph, recent)
    ensures CurrentTransferOk(cfg, s.(arbiter := a), ph, recent)
  {
    hide ForMemory, ReadFrom;
  }

  lemma ArbiterMovesHistory(cfg: Config, s: State, ph: Phase, a: Arbiter)
    requires Shape(cfg, s) && MemoryOk(cfg, s, ph) && RecordsOk(cfg, s, ph) && ReturnsOk(s, ph)
    ensures var s' := s.(arbiter := a); Shape(cfg, s') && MemoryOk(cfg, s', ph) && RecordsOk(cfg, s', ph) && ReturnsOk(s', ph)
  {
    hide RecordOk, ReturnOk, Replay;
  }

  lemma ArbiterMoves(cfg: Config, s: State, ph: Phase, recent: bool, a: Arbiter)
    requires PhaseInv(cfg, s, ph, recent)
    requires ArbiterOk(s.(arbiter := a), ph, recent)
    ensures PhaseInv(cfg, s.(arbiter := a), ph, recent)
  {
    hide ArbiterOk, MastersOk, QueueOk, SlavesOk, CurrentTransferOk, MemoryOk, RecordsOk, ReturnsOk;
    ArbiterMovesMasters(cfg, s, ph, recent, a);
    ArbiterMovesQueue(cfg, s, ph, a);
    ArbiterMovesSlaves(cfg, s, ph, recent, a);
    ArbiterMovesHistory(cfg, s, ph, a);
    if Current(ph) || ph.Refusing? {
      ArbiterMovesTransfer(cfg, s, ph, recent, a);
    }
  }

  // The arbiter takes the next request.

  ghost predicate HasTaken(s: State, s': State)
    requires s.bus.queue != []
  {
    && s'.bus == Announced(s.bus) && s'.h == s.h.(granted := s.h.granted + 1, wire := [])
    && s'.masters == s.masters && s'.memory == s.memory
    && |s'.slaves| == |s.slaves|
    && (forall k | 0 <= k < |s.slaves| :: s'.slaves[k] == s.slaves[k].(awake := s.slaves[k].awake || s.slaves[k].at == Listening))
    && s'.arbiter == Arbiter(AckOrTimeout, false)
  }

  lemma TakeEffect(s: State)
    requires s.bus.queue != []
    ensures HasTaken(s, Take(s))
  {
    assert WokenMasters(s.masters, SlvRequest) == s.masters;
  }

  lemma TakeQueue(cfg: Config, s: State, s': State)
    requires QueueOk(cfg, s, Quiet) && s.bus.queue != [] && HasTaken(s, s')
    ensures CurrentOk(s') && QueueOk(cfg, s', Open) && Cur(s').id < |s.masters| && s.masters[Cur(s').id].at == AwaitGrant(Cur(s').t)
    ensures s'.bus.currentReq == RequestOf(Cur(s'))
  {
    hide Legal;
    var g := s.h.granted;
    assert s.bus.queue[0] == s.bus.queue[g - g] == RequestOf(s.h.pushed[g]);
    forall i | g + 1 <= i < |s.h.pushed| ensures s'.bus.queue[i - (g + 1)] == RequestOf(s.h.pushed[i]) {
      assert s.bus.queue[i - g] == RequestOf(s.h.pushed[i]);
    }
  }

  lemma TakeMasters(cfg: Config, s: State, s': State, recent: bool)
    requires s.bus.queue != [] && HasTaken(s, s') && MastersOk(cfg, s, Quiet, recent) && CurrentOk(s')
    requires Cur(s').id < |s.masters|
    requires s.masters[Cur(s').id].at.AwaitGrant?
    ensures MastersOk(cfg, s', Open, true) && !s.masters[Cur(s').id].awake
  {
    assert Bystander(cfg, s, Quiet, recent, Cur(s').id);
    forall m | 0 <= m < |s.masters| && m != Cur(s').id ensures Bystander(cfg, s', Open, true, m) {
      assert Bystander(cfg, s, Quiet, recent, m);
      if Pending(s, m) {
        var j :| s.h.granted <= j < |s.h.pushed| && s.h.pushed[j].id == m;
        assert s'.h.pushed[j].id == m;
      }
    }
  }

  lemma TakeSlaves(cfg: Config, s: State, s': State, recent: bool)
    requires Shape(cfg, s) && s.bus.queue != [] && HasTaken(s, s') && SlavesOk(cfg, s, Quiet, recent) && CurrentOk(s')
    ensures SlavesOk(cfg, s', Open, true) && s'.slaves[cfg.memorySlave] == Slave(Listening, true)
  {
    forall k | 0 <= k < |s.slaves| ensures AtRest(cfg, s', Open, true, k) {
      assert AtRest(cfg, s, Quiet, recent, k);
    }
    assert AtRest(cfg, s, Quiet, recent, cfg.memorySlave);
  }

  lemma TakeHistory(cfg: Config, s: State, s': State)
    requires Shape(cfg, s) && Shape(cfg, s') && s.bus.queue != [] && HasTaken(s, s')
    requires MemoryOk(cfg, s, Quiet) && RecordsOk(cfg, s, Quiet) && ReturnsOk(s, Quiet)
    ensures MemoryOk(cfg, s', Open) && RecordsOk(cfg, s', Open) && ReturnsOk(s', Open)
  {
    hide RecordOk, ReturnOk, Replay, Legal;
  }

  lemma TakeKeeps(cfg: Config, s: State, recent: bool)
    requires PhaseInv(cfg, s, Quiet, recent) && s.bus.queue != []
    ensures PhaseInv(cfg, Take(s), Open, true)
  {
    hide Take, HasTaken, QueueOk, MastersOk, SlavesOk, ArbiterOk, MemoryOk, RecordsOk, ReturnsOk;
    var s' := Take(s);
    TakeEffect(s);
    TakeQueue(cfg, s, s');
    TakeMasters(cfg, s, s', recent);
    TakeSlaves(cfg, s, s', recent);
    assert Shape(cfg, s') by {
      TakeShape(cfg, s, s');
    }
    TakeHistory(cfg, s, s');
    TakeTransfer(cfg, s, s');
  }

  lemma TakeShape(cfg: Config, s: State, s': State)
    requires Shape(cfg, s) && s.bus.queue != [] && HasTaken(s, s')
    ensures Shape(cfg, s')
  {}

  lemma TakeTransfer(cfg: Config, s: State, s': State)
    requires Shape(cfg, s) && Shape(cfg, s') && s.bus.queue != [] && HasTaken(s, s')
    requires CurrentOk(s') && Cur(s').id < |s.masters| && s.masters[Cur(s').id] == Master(AwaitGrant(Cur(s').t), false)
    requires s'.bus.currentReq == RequestOf(Cur(s')) && s'.slaves[cfg.memorySlave] == Slave(Listening, true)
    ensures CurrentTransferOk(cfg, s', Open, true) && ArbiterOk(s', Open, true)
  {
    hide ForMemory, ReadFrom;
  }

  // The arbiter passes the answer on.

  lemma AckedMasters(cfg: Config, s: State, s': State)
    requires MastersOk(cfg, s, Claimed, false) && MasterAtOk(s, Claimed, false)
    requires s'.h == s.h && s'.masters == WokenMasters(s.masters, MasterAck)
    ensures MastersOk(cfg, s', Acked, true) && MasterAtOk(s', Acked, true)
  {
    forall m | 0 <= m < |s.masters| && m != Cur(s).id ensures Bystander(cfg, s', Acked, true, m) {
      assert Bystander(cfg, s, Claimed, false, m);
      assert Pending(s, m) ==> Pending(s', m);
    }
  }

  lemma AckedRest(cfg: Config, s: State, s': State)
    requires Shape(cfg, s) && QueueOk(cfg, s, Claimed) && SlavesOk(cfg, s, Claimed, false)
    requires MemoryOk(cfg, s, Claimed) && RecordsOk(cfg, s, Claimed) && ReturnsOk(s, Claimed)
    requires s'.bus == s.bus && s'.h == s.h && s'.slaves == s.slaves && s'.memory == s.memory
    requires s'.masters == WokenMasters(s.masters, MasterAck)
    ensures Shape(cfg, s') && QueueOk(cfg, s', Acked) && SlavesOk(cfg, s', Acked, true)
    ensures MemoryOk(cfg, s', Acked) && RecordsOk(cfg, s', Acked) && ReturnsOk(s', Acked)
  {
    hide RecordOk, ReturnOk, Replay, Legal;
    forall k | 0 <= k < |s.slaves| && k != s.h.owner ensures AtRest(cfg, s', Acked, true, k) {
      assert AtRest(cfg, s, Claimed, false, k);
    }
  }

  lemma AckKeeps(cfg: Config, s: State)
    requires PhaseInv(cfg, s, Claimed, false) && s.arbiter.at == GapCycle
    ensures PhaseInv(cfg, Acknowledge(s), Acked, true)
  {
    hide QueueOk, MastersOk, SlavesOk, MemoryOk, RecordsOk, ReturnsOk;
    var s' := Acknowledge(s);
    assert WokenSlaves(s.slaves, MasterAck) == s.slaves;
    AckedRest(cfg, s, s');
    AckedMasters(cfg, s, s');
    assert CurrentTransferOk(cfg, s', Acked, true) by {
      hide ForMemory, ReadFrom;
      assert BusOk(s, Claimed) && OwnerOk(cfg, s, Claimed) && SlaveAtOk(cfg, s, Claimed, false);
    }
  }

  // A request nobody answered is acknowledged, and no other one is in the queue.

  lemma AloneInQueue(cfg: Config, s: State, m: nat)
    requires CurrentOk(s) && MastersOk(cfg, s, Open, false) && s.h.granted == |s.h.pushed| && m < |s.masters| && m != Cur(s).id
    ensures !s.masters[m].at.AwaitGrant?
  {
    assert Bystander(cfg, s, Open, false, m);
  }

  ghost predicate HasRefused(s: State, s': State)
    requires CurrentOk(s)
  {
    && s'.bus == s.bus && s'.memory == s.memory && s'.slaves == s.slaves
    && s'.h == s.h.(done := s.h.done + [Unclaimed])
    && Cur(s).id < |s.masters|
    && s'.masters == s.masters[Cur(s).id := s.masters[Cur(s).id].(awake := true)]
    && s'.arbiter == Arbiter(NoRequest, false)
  }

  lemma RefuseEffect(cfg: Config, s: State)
    requires CurrentOk(s) && MastersOk(cfg, s, Open, false) && MasterAtOk(s, Open, false) && s.h.granted == |s.h.pushed|
    requires !s.bus.receivedResponse && s.bus.queue == []
    ensures HasRefused(s, Acknowledge(s))
  {
    hide MastersOk;
    forall m | 0 <= m < |s.masters| && m != Cur(s).id ensures !s.masters[m].at.AwaitGrant? {
      AloneInQueue(cfg, s, m);
    }
    assert WokenMasters(s.masters, MasterAck) == s.masters[Cur(s).id := s.masters[Cur(s).id].(awake := true)];
    assert WokenSlaves(s.slaves, MasterAck) == s.slaves;
  }

  lemma RefuseOthers(cfg: Config, s: State, s': State)
    requires Shape(cfg, s) && CurrentOk(s) && HasRefused(s, s')
    requires QueueOk(cfg, s, Open) && MastersOk(cfg, s, Open, false) && SlavesOk(cfg, s, Open, false)
    ensures Shape(cfg, s') && QueueOk(cfg, s', Refusing) && MastersOk(cfg, s', Refusing, false) && SlavesOk(cfg, s', Refusing, false)
  {
    hide Legal;
    forall m | 0 <= m < |s.masters| && m != Cur(s).id ensures Bystander(cfg, s', Refusing, false, m) {
      assert Bystander(cfg, s, Open, false, m);
      assert Pending(s, m) ==> Pending(s', m);
    }
    forall k | 0 <= k < |s.slaves| ensures AtRest(cfg, s', Refusing, false, k) {
      assert AtRest(cfg, s, Open, false, k);
    }
  }

  lemma RefuseHistory(cfg: Config, s: State, s': State)
    requires Shape(cfg, s) && Shape(cfg, s') && CurrentOk(s) && HasRefused(s, s') && !ForMemory(cfg, Cur(s).t)
    requires MemoryOk(cfg, s, Open) && RecordsOk(cfg, s, Open) && ReturnsOk(s, Open)
    ensures MemoryOk(cfg, s', Refusing) && RecordsOk(cfg, s', Refusing) && ReturnsOk(s', Refusing)
  {
    var n := s.h.granted - 1;
    hide Legal, ReturnOk;
    assert RecordOk(cfg, s'.h.pushed, n, s'.h.done[n]);
    hide RecordOk, ForMemory;
    assert s.h.pushed[..n + 1][..n] == s.h.pushed[..n];
  }

  lemma RefuseKeeps(cfg: Config, s: State)
    requires PhaseInv(cfg, s, Open, false) && s.arbiter.at == GapCycle && s.bus.queue == []
    ensures PhaseInv(cfg, Acknowledge(s), Refusing, false)
  {
    hide MastersOk, SlavesOk, MemoryOk, RecordsOk, ReturnsOk, Acknowledge, ForMemory;
    assert s.h.granted == |s.h.pushed|;
    var s' := Acknowledge(s);
    RefuseEffect(cfg, s);
    RefuseOthers(cfg, s, s');
    hide QueueOk;
    assert !ForMemory(cfg, Cur(s).t) by {
      ListeningNotRecent(cfg, s, cfg.memorySlave);
    }
    RefuseHistory(cfg, s, s');
    assert CurrentTransferOk(cfg, s', Refusing, false);
  }

  lemma ListeningNotRecent(cfg: Config, s: State, k: nat)
    requires |s.slaves| == |cfg.ranges| && SlavesOk(cfg, s, Open, false) && k < |s.slaves|
    ensures s.slaves[k] != Slave(Listening, true)
  {
    assert AtRest(cfg, s, Open, false, k);
  }

  // A slave answers.

  ghost predicate HasAnswered(s: State, s': State, k: nat)
    requires CurrentOk(s)
  {
    var t := Cur(s).t;
    && s'.bus == Responded(s.bus) && s'.h == s.h.(owner := k) && s'.masters == s.masters && s'.memory == s.memory
    && k < |s.slaves|
    && s'.slaves == s.slaves[k := Slave(if t.rdnwr then Sending(t.addr, t.len, []) else Receiving(t.addr, t.len, []), false)]
    && s'.arbiter == (if s.arbiter.at.AckOrTimeout? then Arbiter(AckOrTimeout, true) else s.arbiter)
  }

  lemma AnswerOthers(cfg: Config, s: State, s': State, k: nat, recent: bool)
    requires Shape(cfg, s) && CurrentOk(s) && HasAnswered(s, s', k)
    requires QueueOk(cfg, s, Open) && MastersOk(cfg, s, Open, recent) && SlavesOk(cfg, s, Open, recent)
    ensures Shape(cfg, s') && QueueOk(cfg, s', Claimed) && MastersOk(cfg, s', Claimed, recent) && SlavesOk(cfg, s', Claimed, recent)
  {
    hide Legal;
    forall m | 0 <= m < |s.masters| && m != Cur(s).id ensures Bystander(cfg, s', Claimed, recent, m) {
      assert Bystander(cfg, s, Open, recent, m);
      assert Pending(s, m) ==> Pending(s', m);
    }
    forall i | 0 <= i < |s.slaves| && i != k ensures AtRest(cfg, s', Claimed, recent, i) {
      assert AtRest(cfg, s, Open, recent, i);
    }
  }

  lemma AnswerHistory(cfg: Config, s: State, s': State, k: nat)
    requires Shape(cfg, s) && Shape(cfg, s') && CurrentOk(s) && HasAnswered(s, s', k)
    requires MemoryOk(cfg, s, Open) && RecordsOk(cfg, s, Open) && ReturnsOk(s, Open)
    ensures MemoryOk(cfg, s', Claimed) && RecordsOk(cfg, s', Claimed) && ReturnsOk(s', Claimed)
  {
    hide RecordOk, ReturnOk, Replay, Legal;
  }

  lemma AnswerTransfer(cfg: Config, s: State, s': State, k: nat, recent: bool)
    requires Shape(cfg, s) && Shape(cfg, s') && CurrentTransferOk(cfg, s, Open, recent) && HasAnswered(s, s', k)
    requires ArbiterOk(s, Open, recent) && recent
    requires Claims(cfg.ranges[k], Cur(s).t.addr, Cur(s).t.len)
    ensures CurrentTransferOk(cfg, s', Claimed, recent) && ArbiterOk(s', Claimed, recent)
  {
    hide ForMemory, ReadFrom;
  }

  lemma AnswerEffect(cfg: Config, s: State, k: nat)
    requires Shape(cfg, s) && CurrentOk(s) && Legal(cfg, Cur(s).t) && k < |s.slaves|
    requires s.bus.currentReq == RequestOf(Cur(s)).(bytesTransferred := s.bus.currentReq.bytesTransferred)
    requires Claims(cfg.ranges[k], Cur(s).t.addr, Cur(s).t.len)
    ensures HasAnswered(s, Hear(cfg, s, k), k)
  {
    assert WokenMasters(s.masters, SlvAck) == s.masters;
    assert WokenSlaves(s.slaves, SlvAck) == s.slaves;
  }

  lemma AnswerKeeps(cfg: Config, s: State, recent: bool, k: nat)
    requires PhaseInv(cfg, s, Open, recent) && k < |s.slaves| && s.slaves[k] == Slave(Listening, true)
    requires Claims(cfg.ranges[k], Cur(s).t.addr, Cur(s).t.len)
    ensures PhaseInv(cfg, Hear(cfg, s, k), Claimed, recent)
  {
    Essentials(cfg, s, Open, recent);
    assert recent by {
      hide MastersOk, QueueOk, CurrentTransferOk, MemoryOk, RecordsOk, ReturnsOk;
      assert AtRest(cfg, s, Open, recent, k);
    }
    hide MastersOk, QueueOk, SlavesOk, MemoryOk, RecordsOk, ReturnsOk, ArbiterOk, Hear, HasAnswered;
    var s' := Hear(cfg, s, k);
    assert BusOk(s, Open);
    AnswerEffect(cfg, s, k);
    hide CurrentTransferOk;
    AnswerOthers(cfg, s, s', k, recent);
    AnswerHistory(cfg, s, s', k);
    AnswerTransfer(cfg, s, s', k, recent);
  }

  /** A slave that does not answer goes on listening. */
  lemma IgnoreKeeps(cfg: Config, s: State, ph: Phase, recent: bool, k: nat)
    requires PhaseInv(cfg, s, ph, recent) && (ph.Open? || ph.Claimed?)
    requires k < |s.slaves| && s.slaves[k] == Slave(Listening, true)
    requires ph.Open? ==> !Claims(cfg.ranges[k], Cur(s).t.addr, Cur(s).t.len)
    ensures PhaseInv(cfg, Hear(cfg, s, k), ph, recent)
  {
    Essentials(cfg, s, ph, recent);
    hide MastersOk, QueueOk, SlavesOk, MemoryOk, RecordsOk, ReturnsOk, ArbiterOk;
    var r := s.bus.currentReq;
    assert r.addr == Cur(s).t.addr && r.len == Cur(s).t.len by { assert BusOk(s, ph); }
    assert !Claims(cfg.ranges[k], r.addr, r.len) && OutsideSlave(cfg, s, ph, k) by {
      if ph.Claimed? {
        assert SlaveAtOk(cfg, s, ph, recent);
        assert k != s.h.owner;
        if Claims(cfg.ranges[k], r.addr, r.len) {
          OneSlaveAnswers(cfg.ranges, s.h.owner, k, r.addr, r.len);
        }
      }
    }
    hide CurrentTransferOk;
    SlaveMovesAside(cfg, s, ph, recent, k, Listening);
  }

  // Time passes.

  ghost predicate HasAdvanced(s: State, s': State) {
    && Asleep(s) && s'.bus == s.bus && s'.h == s.h && s'.memory == s.memory
    && s'.arbiter.at == s.arbiter.at && (s'.arbiter.awake ==> ArbiterTimed(s.arbiter.at))
    && |s'.masters| == |s.masters| && |s'.slaves| == |s.slaves|
    && (forall m | 0 <= m < |s.masters| ::
          s'.masters[m].at == s.masters[m].at && (s'.masters[m].awake ==> MasterTimed(s.masters[m].at)))
    && (forall k | 0 <= k < |s.slaves| ::
          s'.slaves[k].at == s.slaves[k].at && (s'.slaves[k].awake ==> SlaveTimed(s.slaves[k].at)))
  }

  // Once time passes the start is over.
  function AfterBoot(ph: Phase): Phase {
    if ph.Boot? then Quiet else ph
  }

  lemma AdvanceQueue(cfg: Config, s: State, s': State, ph: Phase)
    requires HasAdvanced(s, s') && QueueOk(cfg, s, ph)
    ensures QueueOk(cfg, s', AfterBoot(ph))
  {
    hide Legal;
  }

  lemma AdvanceMasters(cfg: Config, s: State, s': State, ph: Phase, recent: bool)
    requires HasAdvanced(s, s') && MastersOk(cfg, s, ph, recent)
    ensures MastersOk(cfg, s', AfterBoot(ph), false)
  {
    hide Legal;
    forall m | 0 <= m < |s.masters| && !(MasterInside(ph) && m == Cur(s).id) ensures Bystander(cfg, s', AfterBoot(ph), false, m) {
      assert Bystander(cfg, s, ph, recent, m);
      assert Pending(s, m) ==> Pending(s', m);
    }
  }

  lemma AdvanceSlaves(cfg: Config, s: State, s': State, ph: Phase, recent: bool)
    requires |s.slaves| == |cfg.ranges| && HasAdvanced(s, s') && SlavesOk(cfg, s, ph, recent)
    ensures SlavesOk(cfg, s', AfterBoot(ph), false)
  {
    forall k | 0 <= k < |s.slaves| && !(Current(ph) && SlaveInside(cfg, s, ph) && k == s.h.owner)
      ensures AtRest(cfg, s', AfterBoot(ph), false, k)
    {
      assert AtRest(cfg, s, ph, recent, k);
    }
  }

  lemma AdvanceTransfer(cfg: Config, s: State, s': State, ph: Phase, recent: bool)
    requires Shape(cfg, s) && Shape(cfg, s') && HasAdvanced(s, s') && CurrentTransferOk(cfg, s, ph, recent)
    requires Current(ph) || ph.Refusing?
    ensures CurrentTransferOk(cfg, s', ph, false)
  {
    hide ForMemory, ReadFrom, WireOk, LengthOk, BusOk;
    assert WireOk(cfg, s', ph) == WireOk(cfg, s, ph) && LengthOk(s', ph) == LengthOk(s, ph) && BusOk(s', ph) == BusOk(s, ph) by {
      SameWire(cfg, s, s', ph);
    }
    hide WireOk, LengthOk, BusOk;
    assert OwnerOk(cfg, s', ph);
    assert MasterAtOk(s', ph, false) by {
      assert MasterAtOk(s, ph, recent);
    }
  }

  lemma SameWire(cfg: Config, s: State, s': State, ph: Phase)
    requires Shape(cfg, s) && Shape(cfg, s') && CurrentOk(s) && s'.bus == s.bus && s'.h == s.h
    ensures WireOk(cfg, s', ph) == WireOk(cfg, s, ph) && LengthOk(s', ph) == LengthOk(s, ph) && BusOk(s', ph) == BusOk(s, ph)
  {
    hide ForMemory, ReadFrom;
  }

  lemma AdvanceHistory(cfg: Config, s: State, s': State, ph: Phase, recent: bool)
    requires Shape(cfg, s) && HasAdvanced(s, s')
    requires ArbiterOk(s, ph, recent) && MemoryOk(cfg, s, ph) && RecordsOk(cfg, s, ph) && ReturnsOk(s, ph)
    ensures Shape(cfg, s') && ArbiterOk(s', AfterBoot(ph), false)
    ensures MemoryOk(cfg, s', AfterBoot(ph)) && RecordsOk(cfg, s', AfterBoot(ph)) && ReturnsOk(s', AfterBoot(ph))
  {
    hide RecordOk, ReturnOk, Replay, Legal;
  }

  lemma AdvanceKeeps(cfg: Config, s: State, ph: Phase, recent: bool, arbiter: bool, masters: set<nat>, slaves: set<nat>)
    requires PhaseInv(cfg, s, ph, recent) && CanAdvance(s, arbiter, masters, slaves)
    ensures PhaseInv(cfg, Advanced(s, arbiter, masters, slaves), AfterBoot(ph), false)
  {
    hide ArbiterOk, MastersOk, QueueOk, SlavesOk, CurrentTransferOk, MemoryOk, RecordsOk, ReturnsOk;
    var s' := Advanced(s, arbiter, masters, slaves);
    assert HasAdvanced(s, s');
    hide Advanced, HasAdvanced;
    AdvanceQueue(cfg, s, s', ph);
    AdvanceMasters(cfg, s, s', ph, recent);
    AdvanceSlaves(cfg, s, s', ph, recent);
    AdvanceHistory(cfg, s, s', ph, recent);
    if Current(ph) || ph.Refusing? {
      AdvanceTransfer(cfg, s, s', ph, recent);
    }
  }
}
