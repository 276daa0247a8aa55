/** What the invariant says about runs of the bus. */
module BusTheorems {
  import opened Bus
  import opened BusSystem
  import opened BusInvariant
  import opened BusRuns

  // One transfer at a time.

  predicate MasterMoves(at: MasterAt) {
    at.AwaitData? || at.Latching? || at.Ending? || at.Driving? || at.AwaitTaken?
  }

  predicate SlaveMoves(at: SlaveAt) {
    at.Sending? || at.Receiving? || at.Closing?
  }

  function TransferOf(at: MasterAt): Transfer
    requires MasterMoves(at)
  {
    at.t
  }

  /** A master that moves words is the one of the current request, and moves the words of that request. */
  ghost predicate OnlyCurrentMaster(s: State, m: nat)
    requires m < |s.masters|
  {
    MasterMoves(s.masters[m].at) ==>
      && s.bus.currentReq.id == m
      && RequestOf(Ticket(s.bus.currentReq.id, TransferOf(s.masters[m].at))) == s.bus.currentReq.(bytesTransferred := 0)
      && s.bus.receivedResponse && s.arbiter == Arbiter(TransferEnd, false)
  }

  /** A slave that moves words answers the current request. */
  ghost predicate OnlyCurrentSlave(cfg: Config, s: State, k: nat)
    requires k < |s.slaves| == |cfg.ranges|
  {
    SlaveMoves(s.slaves[k].at) ==>
      && k == s.h.owner && s.bus.receivedResponse
      && s.slaves[k].at.addr == s.bus.currentReq.addr && s.slaves[k].at.len == s.bus.currentReq.len
      && s.slaves[k].at.Sending? == s.bus.currentReq.rdnwr
      && Claims(cfg.ranges[k], s.bus.currentReq.addr, s.bus.currentReq.len)
  }

  lemma MovingMaster(cfg: Config, s: State, ph: Phase, recent: bool, m: nat)
    requires MastersOk(cfg, s, ph, recent) && m < |s.masters| && MasterMoves(s.masters[m].at)
    ensures MasterInside(ph) && CurrentOk(s) && m == Cur(s).id
  {
    assert !Bystander(cfg, s, ph, recent, m);
  }

  lemma MovingSlave(cfg: Config, s: State, ph: Phase, recent: bool, k: nat)
    requires |s.slaves| == |cfg.ranges| && SlavesOk(cfg, s, ph, recent) && k < |s.slaves| && SlaveMoves(s.slaves[k].at)
    ensures Current(ph) && CurrentOk(s) && k == s.h.owner && SlaveInside(cfg, s, ph)
  {
    assert !AtRest(cfg, s, ph, recent, k);
  }

  /** In every state at most one master and one slave move words; they are those of the current request, and no more
      words are counted than the request names. */
  lemma Exclusive(cfg: Config, s: State, m: nat, k: nat)
    requires Inv(cfg, s) && m < |s.masters| && k < |s.slaves| && |s.slaves| == |cfg.ranges|
    ensures OnlyCurrentMaster(s, m) && OnlyCurrentSlave(cfg, s, k)
    ensures MasterMoves(s.masters[m].at) || SlaveMoves(s.slaves[k].at) ==> s.bus.currentReq.bytesTransferred <= s.bus.currentReq.len
  {
    var ph, recent :| PhaseInv(cfg, s, ph, recent);
    hide QueueOk, MemoryOk, RecordsOk, ReturnsOk, MastersOk, SlavesOk, WireOk;
    if MasterMoves(s.masters[m].at) {
      MovingMaster(cfg, s, ph, recent, m);
      MasterIsCurrent(cfg, s, ph, recent);
    }
    if SlaveMoves(s.slaves[k].at) {
      MovingSlave(cfg, s, ph, recent, k);
      SlaveIsCurrent(cfg, s, ph, recent);
    }
  }

  lemma MasterIsCurrent(cfg: Config, s: State, ph: Phase, recent: bool)
    requires Shape(cfg, s) && CurrentTransferOk(cfg, s, ph, recent) && ArbiterOk(s, ph, recent)
    requires MasterInside(ph) && Cur(s).id < |s.masters| && MasterMoves(s.masters[Cur(s).id].at)
    ensures OnlyCurrentMaster(s, Cur(s).id) && s.bus.currentReq.bytesTransferred <= s.bus.currentReq.len
  {
    hide WireOk, SlaveAtOk, OwnerOk;
  }

  lemma SlaveIsCurrent(cfg: Config, s: State, ph: Phase, recent: bool)
    requires Shape(cfg, s) && CurrentTransferOk(cfg, s, ph, recent)
    requires Current(ph) && SlaveInside(cfg, s, ph) && s.h.owner < |s.slaves| && SlaveMoves(s.slaves[s.h.owner].at)
    ensures OnlyCurrentSlave(cfg, s, s.h.owner) && s.bus.currentReq.bytesTransferred <= s.bus.currentReq.len
  {
    hide MasterAtOk, ReadFrom;
  }

  /** A word has been put on the bus and its receiver has not taken it. */
  ghost predicate WordWaits(s: State) {
    || (exists m :: 0 <= m < |s.masters| && (s.masters[m].at.Latching? || (s.masters[m].at.AwaitData? && s.masters[m].awake)))
    || (exists k :: 0 <= k < |s.slaves| && s.slaves[k].at.Receiving? && s.slaves[k].awake)
  }

  ghost predicate SomeoneMoves(s: State) {
    || (exists m :: 0 <= m < |s.masters| && MasterMoves(s.masters[m].at))
    || (exists k :: 0 <= k < |s.slaves| && SlaveMoves(s.slaves[k].at))
  }

  lemma PhaseOfWaitingWord(cfg: Config, s: State, ph: Phase, recent: bool)
    requires PhaseInv(cfg, s, ph, recent) && WordWaits(s)
    ensures ph.Sent? || ph.ReadCycle? || ph.Put?
  {
    hide QueueOk, MemoryOk, RecordsOk, ReturnsOk, MastersOk, SlavesOk, ArbiterOk, WireOk, BusOk, OwnerOk;
    if m :| 0 <= m < |s.masters| && (s.masters[m].at.Latching? || (s.masters[m].at.AwaitData? && s.masters[m].awake)) {
      MovingMaster(cfg, s, ph, recent, m);
      assert MasterAtOk(s, ph, recent);
    } else {
      var k :| 0 <= k < |s.slaves| && s.slaves[k].at.Receiving? && s.slaves[k].awake;
      MovingSlave(cfg, s, ph, recent, k);
      assert SlaveAtOk(cfg, s, ph, recent);
    }
  }

  lemma PhaseOfMoving(cfg: Config, s: State, ph: Phase, recent: bool)
    requires PhaseInv(cfg, s, ph, recent) && SomeoneMoves(s)
    ensures ph.Claimed? || ph.Acked? || InTransfer(ph)
  {
    hide QueueOk, MemoryOk, RecordsOk, ReturnsOk, MastersOk, SlavesOk, ArbiterOk, WireOk, BusOk, OwnerOk;
    if m :| 0 <= m < |s.masters| && MasterMoves(s.masters[m].at) {
      MovingMaster(cfg, s, ph, recent, m);
      assert MasterAtOk(s, ph, recent);
    } else {
      var k :| 0 <= k < |s.slaves| && SlaveMoves(s.slaves[k].at);
      MovingSlave(cfg, s, ph, recent, k);
    }
  }

  /** Two states of the bus differ in the count of the words and in the word at most. */
  predicate SameRequest(s: State, s': State) {
    && s'.bus.currentReq.(bytesTransferred := 0) == s.bus.currentReq.(bytesTransferred := 0)
    && (s.bus.receivedResponse ==> s'.bus.receivedResponse)
    && s'.h.granted == s.h.granted
  }

  lemma MasterLeavesRequest(s: State, m: Unsigned)
    requires m < |s.masters|
    requires match s.masters[m].at case Driving(t, i) => i < |t.data| case _ => true
    ensures SameRequest(s, MasterStep(s, m))
    ensures !s.masters[m].at.Driving? ==> MasterStep(s, m).bus.busData == s.bus.busData
  {
    hide WokenMasters, WokenSlaves;
  }

  lemma SlaveLeavesRequest(cfg: Config, s: State, k: nat, w: Unsigned, busy: bool)
    requires cfg.memorySlave < |cfg.ranges| == |s.slaves| && k < |s.slaves| && InArray(cfg, s, k)
    ensures SameRequest(s, SlaveStep(cfg, s, k, w, busy))
    ensures !s.slaves[k].at.Sending? ==> SlaveStep(cfg, s, k, w, busy).bus.busData == s.bus.busData
  {
    hide WokenMasters, WokenSlaves;
  }

  lemma ArbiterLeavesRequest(s: State)
    requires s.arbiter.at == NoRequest ==> s.bus.queue != []
    ensures !Grants(s, RunArbiter) ==> SameRequest(s, ArbiterStep(s))
    ensures ArbiterStep(s).bus.busData == s.bus.busData
  {
    hide WokenMasters, WokenSlaves;
  }

  /** The processes that put a word on the bus. */
  lemma NobodyPuts(cfg: Config, s: State, ph: Phase, recent: bool)
    requires PhaseInv(cfg, s, ph, recent) && (ph.Sent? || ph.ReadCycle? || ph.Put?)
    ensures forall m | 0 <= m < |s.masters| :: !s.masters[m].at.Driving?
    ensures forall k | 0 <= k < |s.slaves| && s.slaves[k].awake :: !s.slaves[k].at.Sending?
  {
    hide QueueOk, MemoryOk, RecordsOk, ReturnsOk, MastersOk, SlavesOk, ArbiterOk, WireOk, BusOk, OwnerOk;
    assert MasterAtOk(s, ph, recent) && SlaveAtOk(cfg, s, ph, recent);
    forall m | 0 <= m < |s.masters| ensures !s.masters[m].at.Driving? {
      if s.masters[m].at.Driving? {
        MovingMaster(cfg, s, ph, recent, m);
      }
    }
    forall k | 0 <= k < |s.slaves| && s.slaves[k].awake ensures !s.slaves[k].at.Sending? {
      if s.slaves[k].at.Sending? {
        MovingSlave(cfg, s, ph, recent, k);
      }
    }
  }

  /** The word on the bus is not overwritten before it has been taken, whatever step comes next. */
  lemma WordNotOverwritten(cfg: Config, s: State, l: Label)
    requires Inv(cfg, s) && cfg.memorySlave < |cfg.ranges| == |s.slaves| && Enabled(cfg, s, l)
    requires WordWaits(s)
    ensures Next(cfg, s, l).bus.busData == s.bus.busData
  {
    hide PhaseInv, WordWaits, MasterStep, SlaveStep, ArbiterStep, InArray;
    var ph, recent :| PhaseInv(cfg, s, ph, recent);
    PhaseOfWaitingWord(cfg, s, ph, recent);
    NobodyPuts(cfg, s, ph, recent);
    match l
    case RunMaster(m) => MasterLeavesRequest(s, m);
    case RunSlave(k, w, busy) => SlaveLeavesRequest(cfg, s, k, w, busy);
    case RunArbiter => ArbiterLeavesRequest(s);
    case _ =>
  }

  lemma MovingPhaseGrantsNothing(cfg: Config, s: State, ph: Phase, recent: bool)
    requires PhaseInv(cfg, s, ph, recent) && (ph.Claimed? || ph.Acked? || InTransfer(ph))
    ensures s.bus.receivedResponse && (s.arbiter.awake ==> !Grants(s, RunArbiter))
  {
    hide QueueOk, MastersOk, SlavesOk, MemoryOk, RecordsOk, ReturnsOk;
    assert BusOk(s, ph);
  }

  /** While anyone moves words, no step replaces the current request or withdraws the answer. */
  lemma RequestNotOverwritten(cfg: Config, s: State, l: Label)
    requires Inv(cfg, s) && cfg.memorySlave < |cfg.ranges| == |s.slaves| && Enabled(cfg, s, l)
    requires SomeoneMoves(s)
    ensures SameRequest(s, Next(cfg, s, l)) && s.bus.receivedResponse
  {
    hide PhaseInv, SomeoneMoves, MasterStep, SlaveStep, ArbiterStep, InArray;
    var ph, recent :| PhaseInv(cfg, s, ph, recent);
    PhaseOfMoving(cfg, s, ph, recent);
    MovingPhaseGrantsNothing(cfg, s, ph, recent);
    match l
    case RunMaster(m) => MasterLeavesRequest(s, m);
    case RunSlave(k, w, busy) => SlaveLeavesRequest(cfg, s, k, w, busy);
    case RunArbiter => ArbiterLeavesRequest(s);
    case _ =>
  }

  // The history of the requests.

  /** Requests end and calls return in the order of the pushes; at most one request is between its grant and its end. */
  lemma ServedInOrder(cfg: Config, s: State)
    requires Inv(cfg, s)
    ensures |s.h.done| <= s.h.granted <= |s.h.done| + 1 && s.h.granted <= |s.h.pushed|
    ensures |s.h.returned| <= s.h.granted <= |s.h.returned| + 1
    ensures |s.bus.queue| == |s.h.pushed| - s.h.granted
    ensures forall i | 0 <= i < |s.bus.queue| :: s.bus.queue[i] == RequestOf(s.h.pushed[s.h.granted + i])
    ensures forall i | 0 <= i < |s.h.returned| :: s.h.returned[i].id == s.h.pushed[i].id
  {
    var ph, recent :| PhaseInv(cfg, s, ph, recent);
    hide MastersOk, SlavesOk, ArbiterOk, CurrentTransferOk, MemoryOk, RecordOk, Legal;
    forall i | 0 <= i < |s.bus.queue| ensures s.bus.queue[i] == RequestOf(s.h.pushed[s.h.granted + i]) {
      assert s.bus.queue[s.h.granted + i - s.h.granted] == RequestOf(s.h.pushed[s.h.granted + i]);
    }
    forall i | 0 <= i < |s.h.returned| ensures s.h.returned[i].id == s.h.pushed[i].id {
      if i < |s.h.done| {
        assert ReturnOk(s.h.pushed[i], s.h.returned[i], s.h.done[i]);
      }
    }
  }

  /** Exact delivery: a served request moved exactly its words, in order. */
  lemma Delivered(cfg: Config, s: State, i: nat)
    requires Inv(cfg, s) && i < |s.h.done| && s.h.done[i].Served?
    ensures i < |s.h.pushed|
    ensures var t, d := s.h.pushed[i].t, s.h.done[i];
            && d.received == d.sent && |d.sent| == t.len
            && (!t.rdnwr ==> d.received == t.data)
  {
    var ph, recent :| PhaseInv(cfg, s, ph, recent);
    hide MastersOk, SlavesOk, ArbiterOk, CurrentTransferOk, MemoryOk, ReturnsOk, QueueOk;
    assert RecordOk(cfg, s.h.pushed, i, s.h.done[i]);
  }

  /** A call of MasterDataTransfer that has returned got the answer to its own request, and the words of its own read.
      Only the call of the current write can have returned before its request is finished; it is acknowledged. */
  lemma ReplyIsOwn(cfg: Config, s: State, i: nat)
    requires Inv(cfg, s) && i < |s.h.returned|
    ensures i < |s.h.pushed|
    ensures var k, r := s.h.pushed[i], s.h.returned[i];
            if i < |s.h.done| then
              var d := s.h.done[i];
              && r.id == k.id
              && (r.ack <==> d.Served?)
              && r.words == if d.Served? && k.t.rdnwr then d.received else []
            else i == |s.h.done| == s.h.granted - 1 && !k.t.rdnwr && r == Return(k.id, true, [])
  {
    var ph, recent :| PhaseInv(cfg, s, ph, recent);
    hide MastersOk, SlavesOk, ArbiterOk, MemoryOk, RecordOk, QueueOk, OwnerOk, BusOk, MasterAtOk, SlaveAtOk, LengthOk;
    if i < |s.h.done| {
      assert ReturnOk(s.h.pushed[i], s.h.returned[i], s.h.done[i]);
    } else {
      assert ph.WriteEnd? && WireOk(cfg, s, ph);
    }
  }

  /** A finished request for the memory was served by the memory, and by nobody else. */
  lemma MemoryServes(cfg: Config, s: State, i: nat)
    requires Inv(cfg, s) && cfg.Valid() && i < |s.h.done| && i < |s.h.pushed|
    ensures ForMemory(cfg, s.h.pushed[i].t) <==> s.h.done[i].Served? && s.h.done[i].slave == cfg.memorySlave
  {
    var ph, recent :| PhaseInv(cfg, s, ph, recent);
    hide MastersOk, SlavesOk, ArbiterOk, CurrentTransferOk, MemoryOk, ReturnsOk, QueueOk;
    var t, d := s.h.pushed[i].t, s.h.done[i];
    assert RecordOk(cfg, s.h.pushed, i, d);
    if d.Served? && ForMemory(cfg, t) {
      OneSlaveAnswers(cfg.ranges, cfg.memorySlave, d.slave, t.addr, t.len);
    }
  }

  /** Linearizability: in every run, a read of the memory that has returned gave the words found there when the requests
      are carried out one at a time in the order of the grants; and whenever no request is being dealt with, the memory
      holds the result of carrying out all of them. */
  lemma Linearizable(cfg: Config, trace: seq<State>, labels: seq<Label>, n: nat)
    requires cfg.Valid() && GoodRun(cfg, trace, labels) && n < |trace|
    ensures var s := trace[n];
            && |s.h.done| <= s.h.granted <= |s.h.pushed| && |s.h.returned| <= |s.h.pushed|
            && (|s.h.done| == s.h.granted ==> s.memory == Replay(cfg, s.h.pushed[..s.h.granted]))
    ensures var s := trace[n];
            forall i | 0 <= i < |s.h.returned| && ForMemory(cfg, s.h.pushed[i].t) ::
              && Legal(cfg, s.h.pushed[i].t)
              && s.h.returned[i] == Return(s.h.pushed[i].id, true,
                   if s.h.pushed[i].t.rdnwr then ReadFrom(cfg, s.h.pushed[..i], s.h.pushed[i].t) else [])
  {
    RunKeepsInv(cfg, trace, labels, n);
    var s := trace[n];
    hide GoodRun;
    ServedInOrder(cfg, s);
    var ph, recent :| PhaseInv(cfg, s, ph, recent);
    hide MastersOk, SlavesOk, ArbiterOk, QueueOk, CurrentTransferOk;
    assert |s.h.done| == s.h.granted ==> s.memory == Replay(cfg, s.h.pushed[..s.h.granted]);
    hide MemoryOk;
    forall i | 0 <= i < |s.h.returned| && ForMemory(cfg, s.h.pushed[i].t)
      ensures Legal(cfg, s.h.pushed[i].t)
      ensures s.h.returned[i] == Return(s.h.pushed[i].id, true,
                if s.h.pushed[i].t.rdnwr then ReadFrom(cfg, s.h.pushed[..i], s.h.pushed[i].t) else [])
    {
      ReadReturned(cfg, s, ph, i);
    }
  }

  lemma ReadReturned(cfg: Config, s: State, ph: Phase, i: nat)
    requires Shape(cfg, s) && RecordsOk(cfg, s, ph) && ReturnsOk(s, ph) && i < |s.h.returned|
    requires CurrentWrites(s, ph)
    requires ForMemory(cfg, s.h.pushed[i].t)
    ensures Legal(cfg, s.h.pushed[i].t)
    ensures s.h.returned[i] == Return(s.h.pushed[i].id, true,
              if s.h.pushed[i].t.rdnwr then ReadFrom(cfg, s.h.pushed[..i], s.h.pushed[i].t) else [])
  {
  }

  ghost predicate CurrentWrites(s: State, ph: Phase) {
    ph.WriteEnd? ==> CurrentOk(s) && !Cur(s).t.rdnwr
  }
}
