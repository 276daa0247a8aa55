/** The invariant holds in every state of every disciplined run of legal transfers. */
module BusRuns {
  import opened Bus
  import opened BusSystem
  import opened BusInvariant
  import BusSteps
  import BusPush
  import BusTransfer
  import BusEnds
  import BusArbiter

  lemma InitialInv(cfg: Config, fields: Fields)
    requires cfg.Valid() && fields.queue == []
    ensures PhaseInv(cfg, Initial(cfg, fields), Boot, false)
  {}

  // How a step of the master of the current request changes the phase.
  function AfterMaster(s: State, ph: Phase): Phase
    requires CurrentOk(s)
  {
    match ph
    case Refusing => Quiet
    case Acked => if Cur(s).t.rdnwr then Asking else WriteCycle
    case Sent => ReadCycle
    case ReadCycle => if |s.h.wire| == Cur(s).t.len then ReadEnd else Asking
    case ReadEnd => Quiet
    case WriteCycle => Put
    case Taken => WriteCycle
    case LastTaken => WriteEnd
    case _ => ph
  }

  // How a step of slave k changes it.
  function AfterSlave(cfg: Config, s: State, ph: Phase, k: nat): Phase
    requires CurrentOk(s) && k < |s.slaves| == |cfg.ranges|
  {
    match ph
    case Open => if s.slaves[k].at.Listening? && Claims(cfg.ranges[k], Cur(s).t.addr, Cur(s).t.len) then Claimed else Open
    case Asking => if s.slaves[k].at.Sending? then Sent else Asking
    case Put => if !s.slaves[k].at.Receiving? then Put else if |s.h.wire| == Cur(s).t.len then LastTaken else Taken
    case WriteEnd => if s.slaves[k].at.Closing? then Quiet else WriteEnd
    case _ => ph
  }

  // How a step of the arbiter changes it.
  function AfterArbiter(s: State, ph: Phase): Phase {
    match ph
    case Quiet => if s.bus.queue == [] then Quiet else Open
    case Open => if s.arbiter.at == GapCycle then Refusing else Open
    case Claimed => if s.arbiter.at == GapCycle then Acked else Claimed
    case _ => ph
  }

  function NextPhase(cfg: Config, s: State, ph: Phase, l: Label): Phase
    requires |s.slaves| == |cfg.ranges|
  {
    match l
    case Issue(_, _) => ph
    case RunMaster(m) => if MasterInside(ph) && CurrentOk(s) && m == Cur(s).id then AfterMaster(s, ph) else ph
    case RunSlave(k, _, _) => if Current(ph) && CurrentOk(s) && k < |s.slaves| then AfterSlave(cfg, s, ph, k) else ph
    case RunArbiter => AfterArbiter(s, ph)
    case Advance(_, _, _) => BusArbiter.AfterBoot(ph)
  }

  /** Outside the current transfer a runnable master has a request to push, or looks for its answer in vain. */
  lemma OutsideMasterStep(cfg: Config, s: State, ph: Phase, recent: bool, m: Unsigned)
    requires PhaseInv(cfg, s, ph, recent) && BusSteps.Outside(s, ph, m)
    requires m < |s.masters| && s.masters[m].awake
    ensures s.masters[m].at.Requesting? || s.masters[m].at.AwaitGrant?
    ensures PhaseInv(cfg, MasterStep(s, m), ph, recent)
  {
    assert Bystander(cfg, s, ph, recent, m) by {
      hide QueueOk, SlavesOk, ArbiterOk, CurrentTransferOk, MemoryOk, RecordsOk, ReturnsOk;
    }
    hide PhaseInv;
    match s.masters[m].at
    case Requesting(t) => BusPush.PushKeeps(cfg, s, ph, recent, m, t);
    case AwaitGrant(t) => BusSteps.LookInVainKeeps(cfg, s, ph, recent, m, t);
  }

  lemma MasterPlace(cfg: Config, s: State, ph: Phase, recent: bool)
    requires PhaseInv(cfg, s, ph, recent) && MasterInside(ph) && CurrentOk(s)
    ensures MasterAtOk(s, ph, recent) && (Current(ph) ==> LengthOk(s, ph))
  {
    hide QueueOk, SlavesOk, ArbiterOk, MastersOk, MemoryOk, RecordsOk, ReturnsOk;
  }

  lemma LatchingMasterStep(cfg: Config, s: State, recent: bool, m: Unsigned) returns (ph': Phase)
    requires PhaseInv(cfg, s, ReadCycle, recent) && CurrentOk(s) && m == Cur(s).id
    requires m < |s.masters| && s.masters[m].awake
    ensures PhaseInv(cfg, MasterStep(s, m), ph', recent)
    ensures ph' == AfterMaster(s, ReadCycle)
  {
    hide PhaseInv, Latch;
    MasterPlace(cfg, s, ReadCycle, recent);
    var t, wire := Cur(s).t, s.h.wire;
    if |wire| == t.len {
      BusTransfer.LatchLastKeeps(cfg, s, recent, m, t, wire[..|wire| - 1]);
      ph' := ReadEnd;
    } else {
      BusTransfer.LatchKeeps(cfg, s, recent, m, t, wire[..|wire| - 1]);
      ph' := Asking;
    }
  }

  lemma ReadingMasterStep(cfg: Config, s: State, ph: Phase, recent: bool, m: Unsigned) returns (ph': Phase)
    requires PhaseInv(cfg, s, ph, recent) && (ph.Sent? || ph.ReadEnd?) && CurrentOk(s) && m == Cur(s).id
    requires m < |s.masters| && s.masters[m].awake
    ensures PhaseInv(cfg, MasterStep(s, m), ph', recent)
    ensures ph' == AfterMaster(s, ph)
  {
    hide PhaseInv, EndRead, MasterWaits;
    MasterPlace(cfg, s, ph, recent);
    var t, wire := Cur(s).t, s.h.wire;
    if ph.Sent? {
      BusTransfer.AwaitDataKeeps(cfg, s, recent, m, t, wire[..|wire| - 1]);
      ph' := ReadCycle;
    } else {
      BusEnds.EndReadKeeps(cfg, s, m, t);
      ph' := Quiet;
    }
  }

  lemma WritingMasterStep(cfg: Config, s: State, ph: Phase, recent: bool, m: Unsigned) returns (ph': Phase)
    requires PhaseInv(cfg, s, ph, recent) && (ph.WriteCycle? || ph.Taken? || ph.LastTaken?) && CurrentOk(s) && m == Cur(s).id
    requires m < |s.masters| && s.masters[m].awake
    requires match s.masters[m].at case Driving(t, i) => i < |t.data| case _ => true
    ensures PhaseInv(cfg, MasterStep(s, m), ph', recent)
    ensures ph' == AfterMaster(s, ph)
  {
    hide PhaseInv, OnWire, WriteOn, MasterWaits;
    MasterPlace(cfg, s, ph, recent);
    var t := Cur(s).t;
    match ph
    case WriteCycle =>
      BusTransfer.DriveKeeps(cfg, s, m, t);
      ph' := Put;
    case Taken =>
      BusTransfer.GoOnKeeps(cfg, s, m, t);
      ph' := WriteCycle;
    case LastTaken =>
      BusEnds.LastReturnKeeps(cfg, s, m, t);
      ph' := WriteEnd;
  }

  /** A step of the master of the current request. */
  lemma InsideMasterStep(cfg: Config, s: State, ph: Phase, recent: bool, m: Unsigned) returns (ph': Phase)
    requires PhaseInv(cfg, s, ph, recent) && MasterInside(ph) && CurrentOk(s) && m == Cur(s).id
    requires m < |s.masters| && s.masters[m].awake
    requires match s.masters[m].at case Driving(t, i) => i < |t.data| case _ => true
    ensures PhaseInv(cfg, MasterStep(s, m), ph', if ph.Refusing? then false else recent)
    ensures ph' == AfterMaster(s, ph)
  {
    hide PhaseInv, LookAtReply;
    MasterPlace(cfg, s, ph, recent);
    var t := Cur(s).t;
    if ph.Refusing? {
      BusEnds.RefusedKeeps(cfg, s, recent, m, t);
      ph' := Quiet;
    } else if ph.Acked? {
      if t.rdnwr {
        BusTransfer.StartReadKeeps(cfg, s, recent, m, t);
        ph' := Asking;
      } else {
        BusTransfer.StartWriteKeeps(cfg, s, recent, m, t);
        ph' := WriteCycle;
      }
    } else if ph.ReadCycle? {
      ph' := LatchingMasterStep(cfg, s, recent, m);
    } else if InRead(ph) {
      ph' := ReadingMasterStep(cfg, s, ph, recent, m);
    } else {
      ph' := WritingMasterStep(cfg, s, ph, recent, m);
    }
  }

  lemma SlaveStepKeeps(cfg: Config, s: State, ph: Phase, recent: bool, k: nat, w: Unsigned, busy: bool) returns (ph': Phase)
    requires PhaseInv(cfg, s, ph, recent)
    requires k < |s.slaves| && |s.slaves| == |cfg.ranges| && cfg.memorySlave < |cfg.ranges|
    requires s.slaves[k].awake && InArray(cfg, s, k) && (busy ==> k != cfg.memorySlave)
    ensures PhaseInv(cfg, SlaveStep(cfg, s, k, w, busy), ph', recent)
    ensures ph' == if Current(ph) && CurrentOk(s) then AfterSlave(cfg, s, ph, k) else ph
  {
    hide PhaseInv, Hear, Claims;
    if s.slaves[k].at == SlaveStart || s.slaves[k].at == Busy {
      BusSteps.RestKeeps(cfg, s, ph, recent, k);
      ph' := ph;
    } else if s.slaves[k].at == Listening {
      HearingPhase(cfg, s, ph, recent, k);
      if ph.Open? && Claims(cfg.ranges[k], Cur(s).t.addr, Cur(s).t.len) {
        BusArbiter.AnswerKeeps(cfg, s, recent, k);
        ph' := Claimed;
      } else {
        BusArbiter.IgnoreKeeps(cfg, s, ph, recent, k);
        ph' := ph;
      }
    } else {
      ph' := InsideSlaveStep(cfg, s, ph, recent, k, w, busy);
    }
  }

  lemma HearingPhase(cfg: Config, s: State, ph: Phase, recent: bool, k: nat)
    requires PhaseInv(cfg, s, ph, recent) && k < |s.slaves| && s.slaves[k] == Slave(Listening, true)
    ensures (ph.Open? || ph.Claimed?) && CurrentOk(s)
    ensures s.bus.currentReq.addr == Cur(s).t.addr && s.bus.currentReq.len == Cur(s).t.len
  {
    hide QueueOk, MastersOk, ArbiterOk, MemoryOk, RecordsOk, ReturnsOk;
    assert Current(ph) && SlaveInside(cfg, s, ph) ==> SlaveAtOk(cfg, s, ph, recent);
    assert AtRest(cfg, s, ph, recent, k);
    assert BusOk(s, ph);
  }

  lemma InsideSlave(cfg: Config, s: State, ph: Phase, recent: bool, k: nat)
    requires PhaseInv(cfg, s, ph, recent) && k < |s.slaves| && s.slaves[k].awake
    requires s.slaves[k].at.Sending? || s.slaves[k].at.Receiving? || s.slaves[k].at.Closing?
    ensures Current(ph) && CurrentOk(s) && k == s.h.owner && SlaveAtOk(cfg, s, ph, recent)
    ensures ph.Asking? || ph.Put? || ph.WriteEnd?
    ensures ph.Put? || ph.WriteEnd? ==> !recent
  {
    hide QueueOk, MastersOk, ArbiterOk, MemoryOk, RecordsOk, ReturnsOk;
    assert !AtRest(cfg, s, ph, recent, k);
    assert Current(ph) && k == s.h.owner;
    hide SlavesOk;
    assert MasterAtOk(s, ph, recent) && LengthOk(s, ph);
  }

  lemma ReceivingSlaveStep(cfg: Config, s: State, k: nat, inn: seq<Unsigned>, busy: bool) returns (ph': Phase)
    requires PhaseInv(cfg, s, Put, false)
    requires k < |s.slaves| && |s.slaves| == |cfg.ranges| && cfg.memorySlave < |cfg.ranges|
    requires CurrentOk(s) && k == s.h.owner && 0 < |s.h.wire| && inn == s.h.wire[..|s.h.wire| - 1]
    requires k == cfg.memorySlave ==> 0 <= Cell(cfg, Cur(s).t.addr, |inn|) < |s.memory|
    ensures PhaseInv(cfg, Receive(cfg, s, k, Cur(s).t.addr, Cur(s).t.len, inn, busy), ph', false)
    ensures ph' == if |s.h.wire| == Cur(s).t.len then LastTaken else Taken
  {
    hide PhaseInv, Receive;
    WireLength(cfg, s, Put, false);
    if |s.h.wire| == Cur(s).t.len {
      BusTransfer.LastWordKeeps(cfg, s, k, inn, busy);
      ph' := LastTaken;
    } else {
      BusTransfer.WordTakenKeeps(cfg, s, k, inn, busy);
      ph' := Taken;
    }
  }

  lemma InsideSlaveStep(cfg: Config, s: State, ph: Phase, recent: bool, k: nat, w: Unsigned, busy: bool) returns (ph': Phase)
    requires PhaseInv(cfg, s, ph, recent)
    requires k < |s.slaves| && |s.slaves| == |cfg.ranges| && cfg.memorySlave < |cfg.ranges|
    requires s.slaves[k].awake && InArray(cfg, s, k) && (busy ==> k != cfg.memorySlave)
    requires s.slaves[k].at.Sending? || s.slaves[k].at.Receiving? || s.slaves[k].at.Closing?
    ensures PhaseInv(cfg, SlaveStep(cfg, s, k, w, busy), ph', recent)
    ensures Current(ph) && CurrentOk(s) && ph' == AfterSlave(cfg, s, ph, k)
  {
    hide PhaseInv, Send, EndWrite, Receive, Legal;
    InsideSlave(cfg, s, ph, recent, k);
    var wire := s.h.wire;
    match ph
    case Asking =>
      var w' := if k == cfg.memorySlave then s.memory[Cell(cfg, Cur(s).t.addr, |wire|)] else w;
      BusTransfer.SendKeeps(cfg, s, recent, k, w', busy);
      ph' := Sent;
    case Put => ph' := ReceivingSlaveStep(cfg, s, k, wire[..|wire| - 1], busy);
    case WriteEnd =>
      BusEnds.EndWriteKeeps(cfg, s, k, wire[..|wire| - 1], wire[|wire| - 1], busy);
      ph' := Quiet;
  }

  lemma WireLength(cfg: Config, s: State, ph: Phase, recent: bool)
    requires PhaseInv(cfg, s, ph, recent) && Current(ph)
    ensures CurrentOk(s) && |s.h.wire| <= Cur(s).t.len
  {
    hide QueueOk, MastersOk, SlavesOk, ArbiterOk, MemoryOk, RecordsOk, ReturnsOk;
  }

  /** In an unanswered phase the discipline leaves the arbiter nothing but to refuse with an empty queue. */
  lemma UnsettledWhenWaiting(cfg: Config, s: State, ph: Phase, recent: bool)
    requires PhaseInv(cfg, s, ph, recent) && (ph.Refusing? || ph.Open?)
    ensures !Settled(s)
  {
    hide MastersOk, SlavesOk, ArbiterOk, MemoryOk, RecordsOk, ReturnsOk;
    var m := Cur(s).id;
    assert MasterAtOk(s, ph, recent);
    forall i | 0 <= i < |s.bus.queue| ensures s.bus.queue[i].id != m {
      var j := i + s.h.granted;
      assert s.bus.queue[j - s.h.granted] == RequestOf(s.h.pushed[j]);
    }
  }

  lemma ArbiterPlace(cfg: Config, s: State, ph: Phase, recent: bool)
    requires PhaseInv(cfg, s, ph, recent)
    ensures ArbiterOk(s, ph, recent) && (ph.Open? ==> !s.bus.receivedResponse)
  {
    hide QueueOk, MastersOk, SlavesOk, MemoryOk, RecordsOk, ReturnsOk;
  }

  lemma ArbiterStepKeeps(cfg: Config, s: State, ph: Phase, recent: bool) returns (ph': Phase, recent': bool)
    requires PhaseInv(cfg, s, ph, recent)
    requires s.arbiter.awake && (s.arbiter.at == NoRequest ==> s.bus.queue != [])
    requires Disciplined(s, RunArbiter)
    ensures PhaseInv(cfg, ArbiterStep(s), ph', recent')
    ensures ph' == AfterArbiter(s, ph)
  {
    hide PhaseInv;
    ArbiterPlace(cfg, s, ph, recent);
    if ph.Refusing? || ph.Open? {
      UnsettledWhenWaiting(cfg, s, ph, recent);
    }
    ph', recent' := ph, recent;
    match ph
    case Boot => BusArbiter.ArbiterMoves(cfg, s, ph, recent, Arbiter(NoRequest, false));
    case Quiet =>
      if s.bus.queue == [] {
        BusArbiter.ArbiterMoves(cfg, s, ph, recent, Arbiter(NoRequest, false));
      } else {
        BusArbiter.TakeKeeps(cfg, s, recent);
        ph', recent' := Open, true;
      }
    case Open =>
      if s.arbiter.at == GapCycle {
        BusArbiter.RefuseKeeps(cfg, s);
        ph' := Refusing;
      } else {
        BusArbiter.ArbiterMoves(cfg, s, ph, recent, Arbiter(GapCycle, false));
      }
    case Claimed =>
      if s.arbiter.at == GapCycle {
        BusArbiter.AckKeeps(cfg, s);
        ph', recent' := Acked, true;
      } else {
        BusArbiter.ArbiterMoves(cfg, s, ph, recent, Arbiter(GapCycle, false));
      }
    case _ =>
  }

  lemma InsideHasCurrent(cfg: Config, s: State, ph: Phase, recent: bool)
    requires PhaseInv(cfg, s, ph, recent)
    ensures MasterInside(ph) ==> CurrentOk(s)
  {
    hide QueueOk, SlavesOk, ArbiterOk, CurrentTransferOk, MemoryOk, RecordsOk, ReturnsOk;
  }

  /** Every legal and disciplined step keeps the invariant, and leads to the phase that NextPhase names. */
  lemma StepKeeps(cfg: Config, s: State, ph: Phase, recent: bool, l: Label) returns (ph': Phase, recent': bool)
    requires PhaseInv(cfg, s, ph, recent)
    requires cfg.memorySlave < |cfg.ranges| == |s.slaves| && Enabled(cfg, s, l)
    requires LegalLabel(cfg, l) && Disciplined(s, l)
    ensures PhaseInv(cfg, Next(cfg, s, l), ph', recent')
    ensures ph' == NextPhase(cfg, s, ph, l)
  {
    ph', recent' := ph, recent;
    hide PhaseInv, MasterStep, SlaveStep, ArbiterStep, Advanced, InArray, AfterMaster, AfterSlave, AfterArbiter, Disciplined, Legal;
    InsideHasCurrent(cfg, s, ph, recent);
    match l
    case Issue(m, t) => BusSteps.IssueKeeps(cfg, s, ph, recent, m, t);
    case RunMaster(m) =>
      if MasterInside(ph) && m == Cur(s).id {
        ph' := InsideMasterStep(cfg, s, ph, recent, m);
        recent' := if ph.Refusing? then false else recent;
      } else {
        OutsideMasterStep(cfg, s, ph, recent, m);
      }
    case RunSlave(k, w, busy) => ph' := SlaveStepKeeps(cfg, s, ph, recent, k, w, busy);
    case RunArbiter => ph', recent' := ArbiterStepKeeps(cfg, s, ph, recent);
    case Advance(a, ms, ks) =>
      BusArbiter.AdvanceKeeps(cfg, s, ph, recent, a, ms, ks);
      ph', recent' := BusArbiter.AfterBoot(ph), false;
  }

  /** Legal transfers only, and no grant while a master still has to look at its answer. */
  ghost predicate GoodRun(cfg: Config, trace: seq<State>, labels: seq<Label>)
    requires cfg.memorySlave < |cfg.ranges|
  {
    && Run(cfg, trace, labels)
    && forall i | 0 <= i < |labels| :: LegalLabel(cfg, labels[i]) && Disciplined(trace[i], labels[i])
  }

  lemma StepOfRun(cfg: Config, trace: seq<State>, labels: seq<Label>, n: nat)
    requires cfg.memorySlave < |cfg.ranges| && Run(cfg, trace, labels)
    ensures |trace| == |labels| + 1
    ensures n < |labels| ==>
              && |trace[n].slaves| == |cfg.ranges| && Enabled(cfg, trace[n], labels[n])
              && trace[n + 1] == Next(cfg, trace[n], labels[n])
  {
    hide Next, Enabled;
  }

  /** Every state of every good run satisfies the invariant. */
  lemma {:induction false} RunKeepsInv(cfg: Config, trace: seq<State>, labels: seq<Label>, n: nat)
    requires cfg.Valid() && GoodRun(cfg, trace, labels) && n < |trace|
    ensures Inv(cfg, trace[n])
  {
    hide PhaseInv;
    if n == 0 {
      InitialInv(cfg, trace[0].bus);
      assert PhaseInv(cfg, trace[0], Boot, false);
    } else {
      RunKeepsInv(cfg, trace, labels, n - 1);
      var ph, recent :| PhaseInv(cfg, trace[n - 1], ph, recent);
      assert LegalLabel(cfg, labels[n - 1]) && Disciplined(trace[n - 1], labels[n - 1]);
      assert trace[n - 1 + 1] == Next(cfg, trace[n - 1], labels[n - 1]);
      var ph', recent' := StepKeeps(cfg, trace[n - 1], ph, recent, labels[n - 1]);
      assert PhaseInv(cfg, trace[n], ph', recent');
    }
  }
}
