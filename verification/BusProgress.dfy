/** Progress: a number that every step of a disciplined run makes smaller until a given request has been served. */
module BusProgress {
  import opened Bus
  import opened BusSystem
  import opened BusInvariant
  import opened BusRuns
  import BusHazards
  import BusPush
  import BusTheorems
  import BusWakeups

  // Steps each process can still take on its own before it depends on the bus.

  function MasterWork(p: Master): nat {
    match p.at
    case Idle => 3
    case Requesting(_) => if p.awake then 1 else 2
    case AwaitGrant(_) => if p.awake then 1 else 0
    case _ => 0
  }

  function SlaveWork(p: Slave): nat {
    match p.at
    case SlaveStart => 1
    case Listening => if p.awake then 1 else 0
    case Busy => if p.awake then 1 else 2
    case _ => 0
  }

  function MastersWork(ms: seq<Master>): nat {
    if ms == [] then 0 else MasterWork(ms[0]) + MastersWork(ms[1..])
  }

  function SlavesWork(ss: seq<Slave>): nat {
    if ss == [] then 0 else SlaveWork(ss[0]) + SlavesWork(ss[1..])
  }

  lemma {:induction false} MastersWorkOne(ms: seq<Master>, ms': seq<Master>, m: nat)
    requires |ms'| == |ms| && m < |ms|
    requires forall i | 0 <= i < |ms| && i != m :: MasterWork(ms'[i]) == MasterWork(ms[i])
    ensures MastersWork(ms') == MastersWork(ms) - MasterWork(ms[m]) + MasterWork(ms'[m])
  {
    if m == 0 {
      MastersWorkWithin(ms[1..], ms'[1..], 0);
      MastersWorkWithin(ms'[1..], ms[1..], 0);
    } else {
      MastersWorkOne(ms[1..], ms'[1..], m - 1);
    }
  }

  lemma {:induction false} MastersWorkWithin(ms: seq<Master>, ms': seq<Master>, d: nat)
    requires |ms'| == |ms|
    requires forall i | 0 <= i < |ms| :: MasterWork(ms'[i]) <= MasterWork(ms[i]) + d
    ensures MastersWork(ms') <= MastersWork(ms) + d * |ms|
  {
    if ms != [] {
      MastersWorkWithin(ms[1..], ms'[1..], d);
      assert d * |ms| == d + d * |ms[1..]|;
    }
  }

  lemma {:induction false} SlavesWorkOne(ss: seq<Slave>, ss': seq<Slave>, k: nat)
    requires |ss'| == |ss| && k < |ss|
    requires forall i | 0 <= i < |ss| && i != k :: SlaveWork(ss'[i]) == SlaveWork(ss[i])
    ensures SlavesWork(ss') == SlavesWork(ss) - SlaveWork(ss[k]) + SlaveWork(ss'[k])
  {
    if k == 0 {
      SlavesWorkWithin(ss[1..], ss'[1..], 0);
      SlavesWorkWithin(ss'[1..], ss[1..], 0);
    } else {
      SlavesWorkOne(ss[1..], ss'[1..], k - 1);
    }
  }

  lemma {:induction false} SlavesWorkWithin(ss: seq<Slave>, ss': seq<Slave>, d: nat)
    requires |ss'| == |ss|
    requires forall i | 0 <= i < |ss| :: SlaveWork(ss'[i]) <= SlaveWork(ss[i]) + d
    ensures SlavesWork(ss') <= SlavesWork(ss) + d * |ss|
  {
    if ss != [] {
      SlavesWorkWithin(ss[1..], ss'[1..], d);
      assert d * |ss| == d + d * |ss[1..]|;
    }
  }

  // Steps the current request still takes.

  function WordsWork(left: int): int {
    6 * left
  }

  function ArbiterWork(a: Arbiter): nat {
    match a.at
    case AckOrTimeout => if a.awake then 3 else 4
    case GapCycle => if a.awake then 1 else 2
    case _ => 0
  }

  function Late(awake: bool): nat {
    if awake then 0 else 1
  }

  function CurrentWork(cfg: Config, s: State, ph: Phase): int
    requires Current(ph) ==> CurrentOk(s) && Cur(s).id < |s.masters| && (ph.WriteEnd? ==> s.h.owner < |s.slaves|)
  {
    if !Current(ph) then (if ph.Refusing? then 3 else 0)
    else
      var left := Cur(s).t.len - |s.h.wire|;
      var master := s.masters[Cur(s).id];
      match ph
      case Open => WordsWork(left) + 9 + cfg.masters + ArbiterWork(s.arbiter)
      case Claimed => WordsWork(left) + 9 + cfg.masters + ArbiterWork(s.arbiter)
      case Acked => WordsWork(left) + 9
      case Asking => WordsWork(left) + 8
      case Sent => WordsWork(left) + 11
      case ReadCycle => WordsWork(left) + 9 + Late(master.awake)
      case ReadEnd => 7 + Late(master.awake)
      case WriteCycle => WordsWork(left) + 7 + Late(master.awake)
      case Put => WordsWork(left) + 12
      case Taken => WordsWork(left) + 11
      case LastTaken => 11
      case WriteEnd => 6 + Late(s.slaves[s.h.owner].awake)
  }

  // Steps a request in the queue takes from its grant to its end.

  function RequestWork(cfg: Config, t: Transfer): nat {
    6 * t.len + 14 + cfg.masters + |cfg.ranges|
  }

  function QueueWork(cfg: Config, tickets: seq<Ticket>, i: nat, j: nat): nat
    requires j <= |tickets|
    decreases j - i
  {
    if i >= j then 0 else RequestWork(cfg, tickets[i].t) + QueueWork(cfg, tickets, i + 1, j)
  }

  lemma {:induction false} QueueWorkPrefix(cfg: Config, a: seq<Ticket>, b: seq<Ticket>, i: nat, j: nat)
    requires j <= |a| <= |b| && a == b[..|a|]
    ensures QueueWork(cfg, a, i, j) == QueueWork(cfg, b, i, j)
    decreases j - i
  {
    if i < j {
      QueueWorkPrefix(cfg, a, b, i + 1, j);
    }
  }

  ghost predicate Measured(cfg: Config, s: State, ph: Phase, p: nat) {
    && p < |s.h.pushed| && |s.masters| == cfg.masters && |s.slaves| == |cfg.ranges|
    && (Current(ph) ==> CurrentOk(s) && Cur(s).id < |s.masters| && (ph.WriteEnd? ==> s.h.owner < |s.slaves|))
  }

  /** The steps left until request p has been served. */
  function StepsLeft(cfg: Config, s: State, ph: Phase, p: nat): int
    requires Measured(cfg, s, ph, p)
  {
    CurrentWork(cfg, s, ph) + QueueWork(cfg, s.h.pushed, s.h.granted, p + 1) + MastersWork(s.masters) + SlavesWork(s.slaves)
  }

  lemma IsMeasured(cfg: Config, s: State, ph: Phase, recent: bool, p: nat)
    requires PhaseInv(cfg, s, ph, recent) && p < |s.h.pushed|
    ensures Measured(cfg, s, ph, p)
  {
    hide QueueOk, MastersOk, SlavesOk, ArbiterOk, MemoryOk, RecordsOk, ReturnsOk;
    assert Current(ph) ==> MasterAtOk(s, ph, recent);
    assert ph.WriteEnd? ==> SlaveAtOk(cfg, s, ph, recent);
  }

  // A step that wakes nobody through MasterAck or SlvRequest changes the work of the process that takes it only.

  lemma OthersKeepWork(cfg: Config, s: State, s': State, l: Label, es: set<Event>)
    requires BusWakeups.WokenBy(s, s', es, l) && MasterAck !in es && SlvRequest !in es
    ensures forall i | 0 <= i < |s.masters| && !(l.RunMaster? && l.m == i) :: MasterWork(s'.masters[i]) == MasterWork(s.masters[i])
    ensures forall i | 0 <= i < |s.slaves| && !(l.RunSlave? && l.k == i) :: SlaveWork(s'.slaves[i]) == SlaveWork(s.slaves[i])
  {}

  lemma MasterChangesWork(cfg: Config, s: State, m: Unsigned)
    requires cfg.memorySlave < |cfg.ranges| == |s.slaves| && Enabled(cfg, s, RunMaster(m))
    ensures var s' := MasterStep(s, m);
            && |s'.masters| == |s.masters|
            && MastersWork(s'.masters) + SlavesWork(s'.slaves)
               == MastersWork(s.masters) + SlavesWork(s.slaves) - MasterWork(s.masters[m]) + MasterWork(s'.masters[m])
  {
    var s', l := MasterStep(s, m), RunMaster(m);
    BusWakeups.MasterWakes(cfg, s, m);
    var es := BusWakeups.Notified(cfg, s, l);
    assert MasterAck !in es && SlvRequest !in es by {
      hide MasterStep, BusWakeups.WokenBy;
    }
    hide MasterStep, BusWakeups.Notified;
    OthersKeepWork(cfg, s, s', l, es);
    MastersWorkOne(s.masters, s'.masters, m);
    SlavesWorkWithin(s.slaves, s'.slaves, 0);
    SlavesWorkWithin(s'.slaves, s.slaves, 0);
  }

  lemma SlaveChangesWork(cfg: Config, s: State, k: nat, w: Unsigned, busy: bool)
    requires cfg.memorySlave < |cfg.ranges| == |s.slaves| && Enabled(cfg, s, RunSlave(k, w, busy))
    ensures var s' := SlaveStep(cfg, s, k, w, busy);
            && |s'.slaves| == |s.slaves|
            && MastersWork(s'.masters) + SlavesWork(s'.slaves)
               == MastersWork(s.masters) + SlavesWork(s.slaves) - SlaveWork(s.slaves[k]) + SlaveWork(s'.slaves[k])
  {
    var s', l := SlaveStep(cfg, s, k, w, busy), RunSlave(k, w, busy);
    BusWakeups.SlaveWakes(cfg, s, k, w, busy);
    var es := BusWakeups.Notified(cfg, s, l);
    assert MasterAck !in es && SlvRequest !in es;
    hide SlaveStep, BusWakeups.Notified;
    OthersKeepWork(cfg, s, s', l, es);
    SlavesWorkOne(s.slaves, s'.slaves, k);
    MastersWorkWithin(s.masters, s'.masters, 0);
    MastersWorkWithin(s'.masters, s.masters, 0);
  }

  // A master's step.

  /** A step of a master outside the transfer leaves the current request as it is. */
  ghost predicate SameCurrent(cfg: Config, s: State, s': State, ph: Phase, m: nat) {
    && m < |s.masters| == |s'.masters| && s'.masters == s.masters[m := s'.masters[m]] && s'.slaves == s.slaves
    && s'.h.granted == s.h.granted && s.h.pushed <= s'.h.pushed && s'.h.wire == s.h.wire && s'.h.owner == s.h.owner
    && s'.h.done == s.h.done
    && (s'.arbiter == s.arbiter || (s.arbiter.at == NoRequest && s'.arbiter == Arbiter(NoRequest, true)))
  }

  lemma SameCurrentWork(cfg: Config, s: State, s': State, ph: Phase, m: nat, p: nat)
    requires Measured(cfg, s, ph, p) && SameCurrent(cfg, s, s', ph, m)
    requires MasterInside(ph) && CurrentOk(s) ==> m != Cur(s).id
    ensures Measured(cfg, s', ph, p) && CurrentWork(cfg, s', ph) == CurrentWork(cfg, s, ph)
  {
    assert Current(ph) ==> Cur(s') == Cur(s);
  }

  lemma PushIsOutside(cfg: Config, s: State, ph: Phase, recent: bool, m: Unsigned, t: Transfer)
    requires PhaseInv(cfg, s, ph, recent)
    requires m < |s.masters| && s.masters[m] == Master(Requesting(t), true)
    requires MasterInside(ph) && CurrentOk(s) ==> m != Cur(s).id
    ensures SameCurrent(cfg, s, Push(s, m, t), ph, m)
  {
    hide Push;
    BusWakeups.RunnableMaster(cfg, s, ph, recent, m);
    hide PhaseInv;
    BusPush.PushEffect(cfg, s, ph, m, t) by {
      assert Shape(cfg, s) by { ShapeOf(cfg, s, ph, recent); }
    }
  }

  lemma ShapeOf(cfg: Config, s: State, ph: Phase, recent: bool)
    requires PhaseInv(cfg, s, ph, recent)
    ensures Shape(cfg, s)
  {}

  lemma OutsideMasterWork(cfg: Config, s: State, ph: Phase, recent: bool, m: Unsigned, p: nat)
    requires PhaseInv(cfg, s, ph, recent) && Measured(cfg, s, ph, p)
    requires m < |s.masters| && s.masters[m].awake && (s.masters[m].at.Requesting? || s.masters[m].at.AwaitGrant?)
    requires MasterInside(ph) && CurrentOk(s) ==> m != Cur(s).id
    ensures var s' := MasterStep(s, m);
            && SameCurrent(cfg, s, s', ph, m)
            && MasterWork(s'.masters[m]) == MasterWork(s.masters[m]) - 1
  {
    if s.masters[m].at.AwaitGrant? {
      OutsideIsOther(cfg, s, ph, recent, m);
      hide PhaseInv;
    } else {
      hide PhaseInv;
      PushIsOutside(cfg, s, ph, recent, m, s.masters[m].at.t);
      hide SameCurrent, Notify;
    }
  }

  lemma OutsideIsOther(cfg: Config, s: State, ph: Phase, recent: bool, m: nat)
    requires PhaseInv(cfg, s, ph, recent) && m < |s.masters| && s.masters[m].awake && s.masters[m].at.AwaitGrant?
    requires MasterInside(ph) && CurrentOk(s) ==> m != Cur(s).id
    ensures s.bus.currentReq.id != m
  {
    hide QueueOk, SlavesOk, ArbiterOk, MemoryOk, RecordsOk, ReturnsOk;
    assert Bystander(cfg, s, ph, recent, m);
    assert BusOk(s, ph) && MasterAtOk(s, ph, recent);
  }

  predicate CountsOk(s: State, ph: Phase)
    requires CurrentOk(s)
  {
    && s.bus.currentReq.id == Cur(s).id && s.bus.currentReq.len == Cur(s).t.len >= 1
    && s.bus.receivedResponse == !(ph.Refusing? || ph.Open?)
    && (Current(ph) ==> s.bus.currentReq.bytesTransferred == Count(s, ph))
  }

  /** The current request is nearer to its end. */
  ghost predicate Nearer(cfg: Config, s: State, s': State, ph: Phase, ph': Phase, m: nat)
    requires Current(ph) ==> CurrentOk(s) && Cur(s).id < |s.masters| && (ph.WriteEnd? ==> s.h.owner < |s.slaves|)
    requires Current(ph') ==> CurrentOk(s') && Cur(s').id < |s'.masters| && (ph'.WriteEnd? ==> s'.h.owner < |s'.slaves|)
    requires m < |s.masters|
  {
    && s'.h.granted == s.h.granted && s'.h.pushed == s.h.pushed && |s'.masters| == |s.masters|
    && CurrentWork(cfg, s', ph') + MasterWork(s'.masters[m]) < CurrentWork(cfg, s, ph) + MasterWork(s.masters[m])
  }

  /** The master of the current request is about to take a step, and the measure is defined before and after it. */
  ghost predicate MasterMeasured(cfg: Config, s: State, ph: Phase, recent: bool, m: Unsigned, p: nat) {
    && Measured(cfg, s, ph, p) && CurrentOk(s) && m == Cur(s).id && m < |s.masters| && s.masters[m].awake
    && MasterAtOk(s, ph, recent) && LengthOk(s, ph) && CountsOk(s, ph)
    && (match s.masters[m].at case Driving(t, i) => i < |t.data| case _ => true)
    && Measured(cfg, MasterStep(s, m), AfterMaster(s, ph), p)
  }

  lemma ReplyOrReadWork(cfg: Config, s: State, ph: Phase, recent: bool, m: Unsigned, p: nat)
    requires (ph.Refusing? || ph.Acked? || InRead(ph)) && MasterMeasured(cfg, s, ph, recent, m, p)
    ensures Nearer(cfg, s, MasterStep(s, m), ph, AfterMaster(s, ph), m)
  {
    hide WokenMasters, WokenSlaves;
  }

  lemma WriteWork(cfg: Config, s: State, ph: Phase, recent: bool, m: Unsigned, p: nat)
    requires (ph.WriteCycle? || ph.Taken? || ph.LastTaken?) && MasterMeasured(cfg, s, ph, recent, m, p)
    ensures Nearer(cfg, s, MasterStep(s, m), ph, AfterMaster(s, ph), m)
  {
    hide WokenMasters, WokenSlaves;
  }

  /** A step of the master of the current request brings its end nearer. */
  lemma InsideMasterWork(cfg: Config, s: State, ph: Phase, recent: bool, m: Unsigned, p: nat)
    requires PhaseInv(cfg, s, ph, recent) && Measured(cfg, s, ph, p)
    requires MasterInside(ph) && CurrentOk(s) && m == Cur(s).id && m < |s.masters| && s.masters[m].awake
    requires match s.masters[m].at case Driving(t, i) => i < |t.data| case _ => true
    requires Measured(cfg, MasterStep(s, m), AfterMaster(s, ph), p)
    ensures Nearer(cfg, s, MasterStep(s, m), ph, AfterMaster(s, ph), m)
  {
    hide PhaseInv, MasterStep, Nearer, Measured, AfterMaster, CountsOk;
    MasterPlace(cfg, s, ph, recent);
    BusTransferLength(cfg, s, ph, recent);
    if ph.WriteCycle? || ph.Taken? || ph.LastTaken? {
      WriteWork(cfg, s, ph, recent, m, p);
    } else {
      ReplyOrReadWork(cfg, s, ph, recent, m, p);
    }
  }

  lemma BusTransferLength(cfg: Config, s: State, ph: Phase, recent: bool)
    requires PhaseInv(cfg, s, ph, recent) && MasterInside(ph) && CurrentOk(s)
    ensures CountsOk(s, ph)
  {
    hide MastersOk, SlavesOk, MemoryOk, RecordsOk, ReturnsOk;
    assert BusOk(s, ph);
  }

  // A slave's step.

  /** Slave k has brought the current request nearer to its end, or done some of its own work. */
  ghost predicate NearerBySlave(cfg: Config, s: State, s': State, ph: Phase, ph': Phase, k: nat)
    requires Current(ph) ==> CurrentOk(s) && Cur(s).id < |s.masters| && (ph.WriteEnd? ==> s.h.owner < |s.slaves|)
    requires Current(ph') ==> CurrentOk(s') && Cur(s').id < |s'.masters| && (ph'.WriteEnd? ==> s'.h.owner < |s'.slaves|)
    requires k < |s.slaves|
  {
    && s'.h.granted == s.h.granted && s'.h.pushed == s.h.pushed && |s'.slaves| == |s.slaves|
    && CurrentWork(cfg, s', ph') + SlaveWork(s'.slaves[k]) < CurrentWork(cfg, s, ph) + SlaveWork(s.slaves[k])
  }

  lemma RestWork(cfg: Config, s: State, ph: Phase, k: nat, p: nat)
    requires Measured(cfg, s, ph, p) && k < |s.slaves| && s.slaves[k].awake && (s.slaves[k].at.Busy? || s.slaves[k].at.Listening?)
    requires ph.WriteEnd? ==> k != s.h.owner
    ensures Measured(cfg, SlaveWaits(s, k, Listening), ph, p)
    ensures NearerBySlave(cfg, s, SlaveWaits(s, k, Listening), ph, ph, k)
  {}

  lemma AnswerWork(cfg: Config, s: State, k: nat, p: nat)
    requires Measured(cfg, s, Open, p) && k < |s.slaves| && s.slaves[k] == Slave(Listening, true)
    requires s.arbiter == Arbiter(AckOrTimeout, false)
    requires Claims(cfg.ranges[k], s.bus.currentReq.addr, s.bus.currentReq.len)
    requires Measured(cfg, Hear(cfg, s, k), Claimed, p)
    ensures NearerBySlave(cfg, s, Hear(cfg, s, k), Open, Claimed, k)
  {
    hide WokenMasters, WokenSlaves;
  }

  lemma SendWork(cfg: Config, s: State, k: nat, addr: Unsigned, len: Unsigned, w: Unsigned, busy: bool, p: nat)
    requires Measured(cfg, s, Asking, p) && k < |s.slaves| && s.slaves[k].at.Sending?
    requires Measured(cfg, Send(s, k, addr, len, s.h.wire, w, busy), Sent, p)
    ensures NearerBySlave(cfg, s, Send(s, k, addr, len, s.h.wire, w, busy), Asking, Sent, k)
  {
    hide WokenMasters, WokenSlaves;
  }

  lemma ReceiveWork(cfg: Config, s: State, k: nat, addr: Unsigned, len: Unsigned, inn: seq<Unsigned>, busy: bool, p: nat)
    requires Measured(cfg, s, Put, p) && k < |s.slaves| && cfg.memorySlave < |cfg.ranges| && s.slaves[k].at.Receiving?
    requires k == cfg.memorySlave ==> 0 <= Cell(cfg, addr, |inn|) < |s.memory|
    requires |s.h.wire| <= Cur(s).t.len == len == s.bus.currentReq.len
    requires s.bus.currentReq.bytesTransferred + 1 == |s.h.wire| == |inn| + 1
    ensures var ph' := if |s.h.wire| == len then LastTaken else Taken;
            Measured(cfg, Receive(cfg, s, k, addr, len, inn, busy), ph', p)
            && NearerBySlave(cfg, s, Receive(cfg, s, k, addr, len, inn, busy), Put, ph', k)
  {
    hide WokenMasters, WokenSlaves;
  }

  lemma EndWriteWork(cfg: Config, s: State, k: nat, addr: Unsigned, len: Unsigned, inn: seq<Unsigned>, w: Unsigned, busy: bool, p: nat)
    requires Measured(cfg, s, WriteEnd, p) && k < |s.slaves| && cfg.memorySlave < |cfg.ranges| && s.slaves[k].at.Closing?
    requires k == cfg.memorySlave ==> 0 <= Cell(cfg, addr, |inn|) < |s.memory|
    requires Measured(cfg, EndWrite(cfg, s, k, addr, len, inn, w, busy), Quiet, p)
    ensures NearerBySlave(cfg, s, EndWrite(cfg, s, k, addr, len, inn, w, busy), WriteEnd, Quiet, k)
  {
    hide WokenMasters, WokenSlaves;
  }

  lemma SlaveStepWork(cfg: Config, s: State, ph: Phase, recent: bool, k: nat, w: Unsigned, busy: bool, p: nat)
    requires PhaseInv(cfg, s, ph, recent) && Measured(cfg, s, ph, p)
    requires cfg.memorySlave < |cfg.ranges| && Enabled(cfg, s, RunSlave(k, w, busy))
    requires Measured(cfg, SlaveStep(cfg, s, k, w, busy), NextPhase(cfg, s, ph, RunSlave(k, w, busy)), p)
    ensures NearerBySlave(cfg, s, SlaveStep(cfg, s, k, w, busy), ph, NextPhase(cfg, s, ph, RunSlave(k, w, busy)), k)
  {
    hide PhaseInv, NearerBySlave, Hear, Send, Receive, EndWrite, CurrentWork;
    match s.slaves[k].at
    case SlaveStart => BootHasNoRequest(cfg, s, ph, recent);
    case Busy =>
      BusyIsOutside(cfg, s, ph, recent, k);
      RestWork(cfg, s, ph, k, p);
    case Listening =>
      HearingPhase(cfg, s, ph, recent, k);
      ListeningArbiter(cfg, s, ph, recent, k);
      if Claims(cfg.ranges[k], Cur(s).t.addr, Cur(s).t.len) {
        BusWakeups.AnsweringPhase(cfg, s, ph, recent, k);
        AnswerWork(cfg, s, k, p);
      } else {
        RestWork(cfg, s, ph, k, p);
        IgnoresRequest(cfg, s, k);
      }
    case _ => InsideSlaveWork(cfg, s, ph, recent, k, w, busy, p);
  }

  lemma IgnoresRequest(cfg: Config, s: State, k: nat)
    requires k < |s.slaves| == |cfg.ranges| && !Claims(cfg.ranges[k], s.bus.currentReq.addr, s.bus.currentReq.len)
    ensures Hear(cfg, s, k) == SlaveWaits(s, k, Listening)
  {}

  lemma BootHasNoRequest(cfg: Config, s: State, ph: Phase, recent: bool)
    requires PhaseInv(cfg, s, ph, recent) && |s.h.pushed| > 0
    ensures !ph.Boot? && forall k | 0 <= k < |s.slaves| :: s.slaves[k].at != SlaveStart
  {
    hide QueueOk, MastersOk, MemoryOk, RecordsOk, ReturnsOk;
    forall k | 0 <= k < |s.slaves| ensures s.slaves[k].at != SlaveStart {
      assert Current(ph) && SlaveInside(cfg, s, ph) ==> SlaveAtOk(cfg, s, ph, recent);
      assert (Current(ph) && SlaveInside(cfg, s, ph) && k == s.h.owner) || AtRest(cfg, s, ph, recent, k);
    }
  }

  lemma BusyIsOutside(cfg: Config, s: State, ph: Phase, recent: bool, k: nat)
    requires PhaseInv(cfg, s, ph, recent) && k < |s.slaves| && s.slaves[k].at == Busy
    ensures ph.WriteEnd? ==> k != s.h.owner
    ensures Current(ph) && CurrentOk(s) ==> AfterSlave(cfg, s, ph, k) == ph
  {
    hide QueueOk, MastersOk, MemoryOk, RecordsOk, ReturnsOk;
    assert ph.WriteEnd? ==> SlaveAtOk(cfg, s, ph, recent);
  }

  lemma ListeningArbiter(cfg: Config, s: State, ph: Phase, recent: bool, k: nat)
    requires PhaseInv(cfg, s, ph, recent) && k < |s.slaves| && s.slaves[k] == Slave(Listening, true) && (ph.Open? || ph.Claimed?)
    ensures ph.Open? ==> s.arbiter == Arbiter(AckOrTimeout, false)
  {
    hide QueueOk, MastersOk, MemoryOk, RecordsOk, ReturnsOk;
    if ph.Open? {
      assert AtRest(cfg, s, ph, recent, k);
    }
  }

  lemma InsideSlaveWork(cfg: Config, s: State, ph: Phase, recent: bool, k: nat, w: Unsigned, busy: bool, p: nat)
    requires PhaseInv(cfg, s, ph, recent) && Measured(cfg, s, ph, p)
    requires cfg.memorySlave < |cfg.ranges| && Enabled(cfg, s, RunSlave(k, w, busy))
    requires s.slaves[k].at.Sending? || s.slaves[k].at.Receiving? || s.slaves[k].at.Closing?
    requires Measured(cfg, SlaveStep(cfg, s, k, w, busy), NextPhase(cfg, s, ph, RunSlave(k, w, busy)), p)
    ensures NearerBySlave(cfg, s, SlaveStep(cfg, s, k, w, busy), ph, NextPhase(cfg, s, ph, RunSlave(k, w, busy)), k)
  {
    hide PhaseInv, NearerBySlave, Hear, Send, Receive, EndWrite, CurrentWork;
    InsideSlave(cfg, s, ph, recent, k);
    var t, wire := Cur(s).t, s.h.wire;
    match ph
    case Asking =>
      SendWork(cfg, s, k, t.addr, t.len, if k == cfg.memorySlave then s.memory[Cell(cfg, t.addr, |wire|)] else w, busy, p);
    case Put =>
      PutCounts(cfg, s, recent);
      ReceiveWork(cfg, s, k, t.addr, t.len, wire[..|wire| - 1], busy, p);
    case WriteEnd =>
      EndWriteWork(cfg, s, k, t.addr, t.len, wire[..|wire| - 1], wire[|wire| - 1], busy, p);
  }

  lemma PutCounts(cfg: Config, s: State, recent: bool)
    requires PhaseInv(cfg, s, Put, recent)
    ensures CurrentOk(s) && 0 < |s.h.wire| <= Cur(s).t.len == s.bus.currentReq.len
    ensures s.bus.currentReq.bytesTransferred + 1 == |s.h.wire|
  {
    hide MastersOk, SlavesOk, MemoryOk, RecordsOk, ReturnsOk;
    assert BusOk(s, Put) && LengthOk(s, Put);
  }

  // The arbiter's step.

  lemma TakeWork(cfg: Config, s: State, p: nat)
    requires Measured(cfg, s, Quiet, p) && s.bus.queue != [] && s.h.granted <= p
    requires Measured(cfg, Take(s), Open, p) && s.bus.queue[0] == RequestOf(s.h.pushed[s.h.granted])
    ensures StepsLeft(cfg, Take(s), Open, p) < StepsLeft(cfg, s, Quiet, p)
  {
    var s' := Take(s);
    assert WokenMasters(s.masters, SlvRequest) == s.masters;
    SlavesWorkWithin(s.slaves, s'.slaves, 1);
    assert QueueWork(cfg, s.h.pushed, s.h.granted, p + 1)
           == RequestWork(cfg, s.h.pushed[s.h.granted].t) + QueueWork(cfg, s.h.pushed, s.h.granted + 1, p + 1);
  }

  lemma AckWork(cfg: Config, s: State, p: nat)
    requires Measured(cfg, s, Claimed, p) && s.arbiter == Arbiter(GapCycle, true) && s.bus.receivedResponse
    ensures Measured(cfg, Acknowledge(s), Acked, p) && StepsLeft(cfg, Acknowledge(s), Acked, p) < StepsLeft(cfg, s, Claimed, p)
  {
    var s' := Acknowledge(s);
    assert WokenSlaves(s.slaves, MasterAck) == s.slaves;
    MastersWorkWithin(s.masters, s'.masters, 1);
  }

  lemma GapWork(cfg: Config, s: State, ph: Phase, p: nat)
    requires Measured(cfg, s, ph, p) && (ph.Open? || ph.Claimed?) && s.arbiter == Arbiter(AckOrTimeout, true)
    ensures Measured(cfg, ArbiterStep(s), ph, p) && StepsLeft(cfg, ArbiterStep(s), ph, p) < StepsLeft(cfg, s, ph, p)
  {}

  /** The phases in which the arbiter is runnable, when a request is not finished. */
  lemma RunnableArbiter(cfg: Config, s: State, ph: Phase, recent: bool, p: nat)
    requires PhaseInv(cfg, s, ph, recent) && s.arbiter.awake && Disciplined(s, RunArbiter)
    requires p < |s.h.pushed| && |s.h.done| <= p
    ensures ph.Quiet? || ph.Open? || ph.Claimed?
    ensures ph.Quiet? ==> s.h.granted <= p && s.bus.queue != [] && s.bus.queue[0] == RequestOf(s.h.pushed[s.h.granted])
    ensures ph.Quiet? ==> s.arbiter.at == NoRequest || s.arbiter.at == TransferEnd
    ensures ph.Claimed? ==> s.bus.receivedResponse && (s.arbiter.at == GapCycle || s.arbiter.at == AckOrTimeout)
    ensures ph.Open? ==> s.arbiter.at == AckOrTimeout || (s.arbiter.at == GapCycle && !s.bus.receivedResponse
                         && s.bus.queue == [] && s.h.granted == |s.h.done| + 1 && s.h.granted == |s.h.pushed|)
  {
    if ph.Refusing? || ph.Open? {
      UnsettledWhenWaiting(cfg, s, ph, recent);
    }
    hide MastersOk, SlavesOk, MemoryOk, ReturnsOk, RecordOk, Legal;
    if ph.Quiet? {
      assert s.bus.queue[s.h.granted - s.h.granted] == RequestOf(s.h.pushed[s.h.granted]);
    } else {
      assert Current(ph) ==> BusOk(s, ph);
    }
  }

  lemma ArbiterStepWork(cfg: Config, s: State, ph: Phase, recent: bool, p: nat)
    requires PhaseInv(cfg, s, ph, recent) && Measured(cfg, s, ph, p) && |s.h.done| <= p
    requires s.arbiter.awake && Disciplined(s, RunArbiter) && (s.arbiter.at == NoRequest ==> s.bus.queue != [])
    requires Measured(cfg, ArbiterStep(s), AfterArbiter(s, ph), p)
    ensures |ArbiterStep(s).h.done| > p || StepsLeft(cfg, ArbiterStep(s), AfterArbiter(s, ph), p) < StepsLeft(cfg, s, ph, p)
  {
    hide PhaseInv, StepsLeft, Take, Measured, Disciplined;
    assert p < |s.h.pushed| by { InMeasure(cfg, s, ph, p); }
    RunnableArbiter(cfg, s, ph, recent, p);
    match ph
    case Quiet => TakeWork(cfg, s, p);
    case Open =>
      if s.arbiter.at == AckOrTimeout {
        GapWork(cfg, s, ph, p);
      }
    case Claimed =>
      if s.arbiter.at == AckOrTimeout {
        GapWork(cfg, s, ph, p);
      } else {
        AckWork(cfg, s, p);
      }
  }

  lemma InMeasure(cfg: Config, s: State, ph: Phase, p: nat)
    requires Measured(cfg, s, ph, p)
    ensures p < |s.h.pushed|
  {}

  // A new call, and the passing of time.

  lemma IdleIsOutside(cfg: Config, s: State, ph: Phase, recent: bool, m: nat)
    requires PhaseInv(cfg, s, ph, recent) && m < |s.masters| && s.masters[m].at == Idle
    ensures MasterInside(ph) && CurrentOk(s) ==> m != Cur(s).id
    ensures !s.masters[m].awake
  {
    hide QueueOk, SlavesOk, ArbiterOk, MemoryOk, RecordsOk, ReturnsOk;
    assert MasterInside(ph) ==> MasterAtOk(s, ph, recent);
    assert Bystander(cfg, s, ph, recent, m);
  }

  lemma IssueWork(cfg: Config, s: State, ph: Phase, recent: bool, m: nat, t: Transfer, p: nat)
    requires PhaseInv(cfg, s, ph, recent) && Measured(cfg, s, ph, p) && m < |s.masters| && s.masters[m].at == Idle
    ensures Measured(cfg, MasterWaits(s, m, Requesting(t)), ph, p)
    ensures StepsLeft(cfg, MasterWaits(s, m, Requesting(t)), ph, p) < StepsLeft(cfg, s, ph, p)
  {
    hide PhaseInv;
    var s' := MasterWaits(s, m, Requesting(t));
    IdleIsOutside(cfg, s, ph, recent, m);
    SameCurrentWork(cfg, s, s', ph, m, p);
    MastersWorkOne(s.masters, s'.masters, m);
  }

  /** Where a timed wait may be under way. */
  lemma TimedWaits(cfg: Config, s: State, ph: Phase, recent: bool)
    requires PhaseInv(cfg, s, ph, recent) && Asleep(s)
    ensures ArbiterTimed(s.arbiter.at) ==> ph.Open? || ph.Claimed?
    ensures forall m | 0 <= m < |s.masters| && MasterTimed(s.masters[m].at) && !s.masters[m].at.Requesting? ::
              (ph.ReadCycle? || ph.ReadEnd? || ph.WriteCycle?) && CurrentOk(s) && m == Cur(s).id
    ensures forall k | 0 <= k < |s.slaves| && s.slaves[k].at.Closing? :: ph.WriteEnd? && k == s.h.owner
  {
    hide QueueOk, MemoryOk, RecordsOk, ReturnsOk, MastersOk, SlavesOk;
    forall m | 0 <= m < |s.masters| && MasterTimed(s.masters[m].at) && !s.masters[m].at.Requesting?
      ensures (ph.ReadCycle? || ph.ReadEnd? || ph.WriteCycle?) && CurrentOk(s) && m == Cur(s).id
    {
      BusTheorems.MovingMaster(cfg, s, ph, recent, m);
      assert MasterAtOk(s, ph, recent);
    }
    forall k | 0 <= k < |s.slaves| && s.slaves[k].at.Closing? ensures ph.WriteEnd? && k == s.h.owner {
      BusTheorems.MovingSlave(cfg, s, ph, recent, k);
      assert SlaveAtOk(cfg, s, ph, recent) && MasterAtOk(s, ph, recent);
    }
  }

  lemma {:induction false} MastersWorkLess(ms: seq<Master>, ms': seq<Master>, m: nat)
    requires |ms'| == |ms| && m < |ms|
    requires forall i | 0 <= i < |ms| :: MasterWork(ms'[i]) <= MasterWork(ms[i])
    requires MasterWork(ms'[m]) < MasterWork(ms[m])
    ensures MastersWork(ms') < MastersWork(ms)
  {
    if m == 0 {
      MastersWorkWithin(ms[1..], ms'[1..], 0);
    } else {
      MastersWorkLess(ms[1..], ms'[1..], m - 1);
    }
  }

  lemma {:induction false} SlavesWorkLess(ss: seq<Slave>, ss': seq<Slave>, k: nat)
    requires |ss'| == |ss| && k < |ss|
    requires forall i | 0 <= i < |ss| :: SlaveWork(ss'[i]) <= SlaveWork(ss[i])
    requires SlaveWork(ss'[k]) < SlaveWork(ss[k])
    ensures SlavesWork(ss') < SlavesWork(ss)
  {
    if k == 0 {
      SlavesWorkWithin(ss[1..], ss'[1..], 0);
    } else {
      SlavesWorkLess(ss[1..], ss'[1..], k - 1);
    }
  }

  /** Ending timed waits brings the current request nearer to its end if one of them belongs to it. */
  lemma WokenCurrent(cfg: Config, s: State, s': State, ph: Phase, p: nat)
    requires Measured(cfg, s, ph, p) && s'.h == s.h && |s'.masters| == |s.masters| && |s'.slaves| == |s.slaves|
    requires s'.arbiter == s.arbiter || (s'.arbiter == Arbiter(s.arbiter.at, true) && !s.arbiter.awake)
    requires forall m | 0 <= m < |s.masters| :: s.masters[m].awake ==> s'.masters[m].awake
    requires forall k | 0 <= k < |s.slaves| :: s.slaves[k].awake ==> s'.slaves[k].awake
    ensures Measured(cfg, s', ph, p) && CurrentWork(cfg, s', ph) <= CurrentWork(cfg, s, ph)
    ensures s'.arbiter != s.arbiter && ArbiterTimed(s.arbiter.at) && (ph.Open? || ph.Claimed?)
            ==> CurrentWork(cfg, s', ph) < CurrentWork(cfg, s, ph)
    ensures (ph.ReadCycle? || ph.ReadEnd? || ph.WriteCycle?) && !s.masters[Cur(s).id].awake && s'.masters[Cur(s).id].awake
            ==> CurrentWork(cfg, s', ph) < CurrentWork(cfg, s, ph)
    ensures ph.WriteEnd? && !s.slaves[s.h.owner].awake && s'.slaves[s.h.owner].awake
            ==> CurrentWork(cfg, s', ph) < CurrentWork(cfg, s, ph)
  {}

  lemma AdvanceCurrent(cfg: Config, s: State, ph: Phase, recent: bool, arbiter: bool, ms: set<nat>, ks: set<nat>, p: nat)
    requires PhaseInv(cfg, s, ph, recent) && Measured(cfg, s, ph, p) && CanAdvance(s, arbiter, ms, ks)
    ensures var s' := Advanced(s, arbiter, ms, ks);
            && Measured(cfg, s', ph, p)
            && CurrentWork(cfg, s', ph) <= CurrentWork(cfg, s, ph)
            && (arbiter ==> CurrentWork(cfg, s', ph) < CurrentWork(cfg, s, ph))
            && (forall m | m in ms :: s.masters[m].at.Requesting? || CurrentWork(cfg, s', ph) < CurrentWork(cfg, s, ph))
            && (forall k | k in ks :: s.slaves[k].at.Busy? || CurrentWork(cfg, s', ph) < CurrentWork(cfg, s, ph))
  {
    hide PhaseInv, Measured, CurrentWork;
    TimedWaits(cfg, s, ph, recent);
    var s' := Advanced(s, arbiter, ms, ks);
    WokenCurrent(cfg, s, s', ph, p);
  }

  lemma AdvanceWork(cfg: Config, s: State, ph: Phase, recent: bool, arbiter: bool, ms: set<nat>, ks: set<nat>, p: nat)
    requires PhaseInv(cfg, s, ph, recent) && Measured(cfg, s, ph, p) && CanAdvance(s, arbiter, ms, ks)
    ensures Measured(cfg, Advanced(s, arbiter, ms, ks), ph, p)
    ensures StepsLeft(cfg, Advanced(s, arbiter, ms, ks), ph, p) < StepsLeft(cfg, s, ph, p)
  {
    hide PhaseInv, CurrentWork;
    var s' := Advanced(s, arbiter, ms, ks);
    AdvanceCurrent(cfg, s, ph, recent, arbiter, ms, ks, p);
    MastersWorkWithin(s.masters, s'.masters, 0);
    SlavesWorkWithin(s.slaves, s'.slaves, 0);
    if m :| m in ms && s.masters[m].at.Requesting? {
      MastersWorkLess(s.masters, s'.masters, m);
    } else if k :| k in ks && s.slaves[k].at.Busy? {
      SlavesWorkLess(s.slaves, s'.slaves, k);
    } else {
      assert CurrentWork(cfg, s', ph) < CurrentWork(cfg, s, ph);
    }
  }

  // Every step.

  lemma MasterStepWork(cfg: Config, s: State, ph: Phase, recent: bool, m: Unsigned, p: nat)
    requires PhaseInv(cfg, s, ph, recent) && Measured(cfg, s, ph, p)
    requires cfg.memorySlave < |cfg.ranges| && Enabled(cfg, s, RunMaster(m))
    requires Measured(cfg, MasterStep(s, m), NextPhase(cfg, s, ph, RunMaster(m)), p)
    ensures StepsLeft(cfg, MasterStep(s, m), NextPhase(cfg, s, ph, RunMaster(m)), p) < StepsLeft(cfg, s, ph, p)
  {
    hide PhaseInv, CurrentWork, MasterStep;
    var s' := MasterStep(s, m);
    MasterChangesWork(cfg, s, m);
    if MasterInside(ph) && CurrentOk(s) && m == Cur(s).id {
      InsideMasterWork(cfg, s, ph, recent, m, p);
    } else {
      OutsideMasterStep(cfg, s, ph, recent, m);
      OutsideMasterWork(cfg, s, ph, recent, m, p);
      SameCurrentWork(cfg, s, s', ph, m, p);
      QueueWorkPrefix(cfg, s.h.pushed, s'.h.pushed, s.h.granted, p + 1);
    }
  }

  lemma SlaveWorkLess(cfg: Config, s: State, ph: Phase, recent: bool, k: nat, w: Unsigned, busy: bool, p: nat)
    requires PhaseInv(cfg, s, ph, recent) && Measured(cfg, s, ph, p)
    requires cfg.memorySlave < |cfg.ranges| && Enabled(cfg, s, RunSlave(k, w, busy))
    requires Measured(cfg, SlaveStep(cfg, s, k, w, busy), NextPhase(cfg, s, ph, RunSlave(k, w, busy)), p)
    ensures StepsLeft(cfg, SlaveStep(cfg, s, k, w, busy), NextPhase(cfg, s, ph, RunSlave(k, w, busy)), p) < StepsLeft(cfg, s, ph, p)
  {
    hide PhaseInv, CurrentWork, SlaveStep, NextPhase, Enabled;
    SlaveChangesWork(cfg, s, k, w, busy);
    SlaveStepWork(cfg, s, ph, recent, k, w, busy, p);
  }

  /** Every step of a disciplined run of legal transfers brings the end of request p nearer, until it has been served:
      the steps of all masters, slaves, the arbiter and of time count, and so do new calls. */
  lemma StepProgress(cfg: Config, s: State, ph: Phase, recent: bool, l: Label, p: nat) returns (ph': Phase, recent': bool)
    requires PhaseInv(cfg, s, ph, recent) && p < |s.h.pushed| && |s.h.done| <= p
    requires cfg.memorySlave < |cfg.ranges| == |s.slaves| && Enabled(cfg, s, l)
    requires LegalLabel(cfg, l) && Disciplined(s, l)
    ensures PhaseInv(cfg, Next(cfg, s, l), ph', recent') && p < |Next(cfg, s, l).h.pushed|
    ensures Measured(cfg, s, ph, p) && Measured(cfg, Next(cfg, s, l), ph', p)
    ensures |Next(cfg, s, l).h.done| > p || StepsLeft(cfg, Next(cfg, s, l), ph', p) < StepsLeft(cfg, s, ph, p)
  {
    var s' := Next(cfg, s, l);
    hide PhaseInv, Measured, StepsLeft, Disciplined, InArray, MasterStep, SlaveStep, ArbiterStep, AfterArbiter, Advanced;
    ph', recent' := StepKeeps(cfg, s, ph, recent, l);
    PushedGrows(cfg, s, l);
    IsMeasured(cfg, s, ph, recent, p);
    IsMeasured(cfg, s', ph', recent', p);
    match l
    case Issue(m, t) => IssueWork(cfg, s, ph, recent, m, t, p);
    case RunMaster(m) => MasterStepWork(cfg, s, ph, recent, m, p);
    case RunSlave(k, w, busy) => SlaveWorkLess(cfg, s, ph, recent, k, w, busy, p);
    case RunArbiter => ArbiterStepWork(cfg, s, ph, recent, p);
    case Advance(a, ms, ks) =>
      BootHasNoRequest(cfg, s, ph, recent);
      AdvanceWork(cfg, s, ph, recent, a, ms, ks, p);
  }

  lemma PushedGrows(cfg: Config, s: State, l: Label)
    requires cfg.memorySlave < |cfg.ranges| == |s.slaves| && Enabled(cfg, s, l)
    ensures s.h.pushed <= Next(cfg, s, l).h.pushed
  {
    hide Next;
    BusHazards.StepTickets(cfg, s, l);
  }

  // Real time.

  lemma MasterReturns(s: State, m: Unsigned)
    requires m < |s.masters| && match s.masters[m].at case Driving(t, i) => i < |t.data| case _ => true
    ensures s.h.returned <= MasterStep(s, m).h.returned
  {
    hide WokenMasters, WokenSlaves;
  }

  lemma SlaveReturnsNothing(cfg: Config, s: State, k: nat, w: Unsigned, busy: bool)
    requires cfg.memorySlave < |cfg.ranges| == |s.slaves| && k < |s.slaves| && InArray(cfg, s, k)
    ensures SlaveStep(cfg, s, k, w, busy).h.returned == s.h.returned
  {
    hide WokenMasters, WokenSlaves;
  }

  lemma ReturnedGrows(cfg: Config, s: State, l: Label)
    requires cfg.memorySlave < |cfg.ranges| == |s.slaves| && Enabled(cfg, s, l)
    ensures s.h.returned <= Next(cfg, s, l).h.returned
  {
    hide MasterStep, SlaveStep, InArray;
    match l
    case RunMaster(m) => MasterReturns(s, m);
    case RunSlave(k, w, busy) => SlaveReturnsNothing(cfg, s, k, w, busy);
    case _ =>
  }

  lemma HistoryStep(cfg: Config, trace: seq<State>, labels: seq<Label>, n: nat)
    requires cfg.memorySlave < |cfg.ranges| && Run(cfg, trace, labels) && n < |labels|
    ensures trace[n].h.pushed <= trace[n + 1].h.pushed && trace[n].h.returned <= trace[n + 1].h.returned
  {
    hide Next, Enabled, Run;
    StepOfRun(cfg, trace, labels, n);
    PushedGrows(cfg, trace[n], labels[n]);
    ReturnedGrows(cfg, trace[n], labels[n]);
  }

  lemma PrefixOfPrefix<T>(a: seq<T>, b: seq<T>, c: seq<T>)
    requires a <= b <= c
    ensures a <= c
  {}

  lemma {:induction false} HistoryGrows(cfg: Config, trace: seq<State>, labels: seq<Label>, n: nat, m: nat)
    requires cfg.memorySlave < |cfg.ranges| && Run(cfg, trace, labels) && n <= m < |trace|
    ensures trace[n].h.pushed <= trace[m].h.pushed && trace[n].h.returned <= trace[m].h.returned
    decreases m - n
  {
    hide Run, Next, Enabled;
    if n < m {
      StepOfRun(cfg, trace, labels, m - 1);
      HistoryGrows(cfg, trace, labels, n, m - 1);
      HistoryStep(cfg, trace, labels, m - 1);
      PrefixOfPrefix(trace[n].h.pushed, trace[m - 1].h.pushed, trace[m].h.pushed);
      PrefixOfPrefix(trace[n].h.returned, trace[m - 1].h.returned, trace[m].h.returned);
    }
  }

  /** The order of the grants, in which the calls take effect, respects real time: a call that has returned before the
      request of another is pushed comes first. Both keep their places for the rest of the run. */
  lemma RealTimeOrder(cfg: Config, trace: seq<State>, labels: seq<Label>, n: nat, m: nat, i: nat, j: nat)
    requires cfg.Valid() && GoodRun(cfg, trace, labels) && n <= m < |trace|
    requires i < |trace[n].h.returned| && |trace[n].h.pushed| <= j < |trace[m].h.pushed|
    ensures i < j
    ensures trace[n].h.pushed <= trace[m].h.pushed && trace[n].h.returned <= trace[m].h.returned
    ensures trace[m].h.returned[i].id == trace[m].h.pushed[i].id
    ensures j < |trace[m].h.returned| ==> trace[m].h.returned[j].id == trace[m].h.pushed[j].id
  {
    RunKeepsInv(cfg, trace, labels, n);
    RunKeepsInv(cfg, trace, labels, m);
    HistoryGrows(cfg, trace, labels, n, m);
    hide Inv, Run;
    BusTheorems.ServedInOrder(cfg, trace[n]);
    BusTheorems.ServedInOrder(cfg, trace[m]);
  }

  // A bound that does not mention the phase.

  lemma {:induction false} MastersWorkBound(ms: seq<Master>)
    ensures MastersWork(ms) <= 3 * |ms|
  {
    if ms != [] {
      MastersWorkBound(ms[1..]);
    }
  }

  lemma {:induction false} SlavesWorkBound(ss: seq<Slave>)
    ensures SlavesWork(ss) <= 2 * |ss|
  {
    if ss != [] {
      SlavesWorkBound(ss[1..]);
    }
  }

  /** An upper bound of the steps until request p has been served: for the current request and each one before p six
      steps a word and a constant, and a few steps for every master and slave. */
  function Bound(cfg: Config, s: State, p: nat): nat
    requires p < |s.h.pushed|
  {
    (if CurrentOk(s) then RequestWork(cfg, Cur(s).t) else 3)
    + QueueWork(cfg, s.h.pushed, s.h.granted, p + 1) + 3 * cfg.masters + 2 * |cfg.ranges|
  }

  lemma CurrentWorkBound(cfg: Config, s: State, ph: Phase, recent: bool, p: nat)
    requires PhaseInv(cfg, s, ph, recent) && Measured(cfg, s, ph, p)
    ensures 0 <= CurrentWork(cfg, s, ph) <= if CurrentOk(s) then RequestWork(cfg, Cur(s).t) else 3
  {
    if Current(ph) {
      PlaceOnWire(cfg, s, ph, recent);
    }
    hide PhaseInv;
  }

  lemma PlaceOnWire(cfg: Config, s: State, ph: Phase, recent: bool)
    requires PhaseInv(cfg, s, ph, recent) && Current(ph)
    ensures CurrentOk(s) && LengthOk(s, ph) && Cur(s).t.len >= 1
  {
    hide MastersOk, SlavesOk, ArbiterOk, MemoryOk, RecordsOk, ReturnsOk;
  }

  lemma WithinBound(cfg: Config, s: State, ph: Phase, recent: bool, p: nat)
    requires PhaseInv(cfg, s, ph, recent) && Measured(cfg, s, ph, p)
    ensures 0 <= StepsLeft(cfg, s, ph, p) <= Bound(cfg, s, p)
  {
    hide PhaseInv, CurrentWork;
    CurrentWorkBound(cfg, s, ph, recent, p);
    MastersWorkBound(s.masters);
    SlavesWorkBound(s.slaves);
  }

  lemma RunStep(cfg: Config, trace: seq<State>, labels: seq<Label>, n: nat)
    requires cfg.memorySlave < |cfg.ranges| && GoodRun(cfg, trace, labels) && n < |labels|
    ensures |trace| == |labels| + 1
    ensures var s, l := trace[n], labels[n];
            |s.slaves| == |cfg.ranges| && Enabled(cfg, s, l) && LegalLabel(cfg, l) && Disciplined(s, l) && trace[n + 1] == Next(cfg, s, l)
  {}

  lemma {:induction false} StepsTaken(cfg: Config, trace: seq<State>, labels: seq<Label>, i: nat, n: nat, p: nat)
    returns (ph0: Phase, r0: bool, ph: Phase, recent: bool)
    requires cfg.Valid() && GoodRun(cfg, trace, labels) && i <= n <= |labels| == |trace| - 1
    requires p < |trace[i].h.pushed| && |trace[n].h.done| <= p
    ensures PhaseInv(cfg, trace[i], ph0, r0) && Measured(cfg, trace[i], ph0, p)
    ensures PhaseInv(cfg, trace[n], ph, recent) && Measured(cfg, trace[n], ph, p)
    ensures StepsLeft(cfg, trace[n], ph, p) + (n - i) <= StepsLeft(cfg, trace[i], ph0, p)
    decreases n
  {
    hide PhaseInv, Measured, StepsLeft, GoodRun, Next, Enabled, Disciplined, LegalLabel;
    if n == i {
      RunKeepsInv(cfg, trace, labels, n);
      ph0, r0 :| PhaseInv(cfg, trace[i], ph0, r0);
      ph, recent := ph0, r0;
      IsMeasured(cfg, trace[i], ph, recent, p);
    } else {
      RunStep(cfg, trace, labels, n - 1);
      var s, l := trace[n - 1], labels[n - 1];
      DoneGrows(cfg, s, l);
      var ph1, r1;
      ph0, r0, ph1, r1 := StepsTaken(cfg, trace, labels, i, n - 1, p);
      assert p < |s.h.pushed| by { InMeasure(cfg, s, ph1, p); }
      ph, recent := StepProgress(cfg, s, ph1, r1, l, p);
    }
  }

  /** Progress: in a disciplined run of legal transfers, a request that has been pushed has been served, or acknowledged
      as unanswered, when `Bound` steps have been taken. */
  lemma ServedInTime(cfg: Config, trace: seq<State>, labels: seq<Label>, i: nat, n: nat, p: nat)
    requires cfg.Valid() && GoodRun(cfg, trace, labels) && i <= n <= |labels| == |trace| - 1
    requires p < |trace[i].h.pushed| && n > i + Bound(cfg, trace[i], p)
    ensures |trace[n].h.done| > p
  {
    hide PhaseInv, Measured, StepsLeft, GoodRun;
    if |trace[n].h.done| <= p {
      var ph0, r0, ph, recent := StepsTaken(cfg, trace, labels, i, n, p);
      WithinBound(cfg, trace[i], ph0, r0, p);
      WithinBound(cfg, trace[n], ph, recent, p);
    }
  }

  lemma DoneGrows(cfg: Config, s: State, l: Label)
    requires cfg.memorySlave < |cfg.ranges| == |s.slaves| && Enabled(cfg, s, l)
    ensures |s.h.done| <= |Next(cfg, s, l).h.done|
  {
    hide WokenMasters, WokenSlaves;
  }
}
