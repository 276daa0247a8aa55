/** When a call of MasterDataTransfer is never answered, and when that cannot happen. */
module BusHazards {
  import opened Bus
  import opened BusSystem
  import opened BusInvariant
  import opened BusRuns
  import opened BusTheorems
  import BusWakeups

  // A master whose request has been overtaken.

  /** The master waits for an acknowledge of a request that is neither in the queue nor the current one. */
  ghost predicate Lost(s: State, m: nat) {
    m < |s.masters| && s.masters[m].at.AwaitGrant? && !InQueue(s, m) && s.bus.currentReq.id != m
  }

  ghost predicate NobodyLost(s: State) {
    forall m | 0 <= m < |s.masters| :: !Lost(s, m)
  }

  /** The queue and the request a master belongs to, before and after. */
  ghost predicate QueueAfter(s: State, s': State, l: Label) {
    if Grants(s, l) then s.bus.queue != [] && s'.bus.queue == s.bus.queue[1..] && s'.bus.currentReq == s.bus.queue[0]
    else
      && s'.bus.currentReq.id == s.bus.currentReq.id
      && if l.RunMaster? && l.m < |s.masters| && s.masters[l.m].at.Requesting?
         then s'.bus.queue == s.bus.queue + [RequestOf(Ticket(l.m, s.masters[l.m].at.t))]
         else s'.bus.queue == s.bus.queue
  }

  lemma MasterQueue(s: State, m: Unsigned)
    requires m < |s.masters| && match s.masters[m].at case Driving(t, i) => i < |t.data| case _ => true
    ensures QueueAfter(s, MasterStep(s, m), RunMaster(m))
    ensures s.masters[m].at.AwaitGrant? && s.bus.currentReq.id != m ==> MasterStep(s, m).masters[m].at == s.masters[m].at
    ensures MasterStep(s, m).masters[m].at.AwaitGrant? ==> s.masters[m].at.AwaitGrant? || s.masters[m].at.Requesting?
    ensures |MasterStep(s, m).masters| == |s.masters|
    ensures forall i | 0 <= i < |s.masters| && i != m :: MasterStep(s, m).masters[i].at == s.masters[i].at
  {}

  lemma SlaveQueue(cfg: Config, s: State, k: nat, w: Unsigned, busy: bool)
    requires cfg.memorySlave < |cfg.ranges| == |s.slaves| && k < |s.slaves| && InArray(cfg, s, k)
    ensures QueueAfter(s, SlaveStep(cfg, s, k, w, busy), RunSlave(k, w, busy))
    ensures |SlaveStep(cfg, s, k, w, busy).masters| == |s.masters|
    ensures forall i | 0 <= i < |s.masters| :: SlaveStep(cfg, s, k, w, busy).masters[i].at == s.masters[i].at
  {}

  lemma ArbiterQueue(s: State)
    requires s.arbiter.at == NoRequest ==> s.bus.queue != []
    ensures QueueAfter(s, ArbiterStep(s), RunArbiter)
    ensures |ArbiterStep(s).masters| == |s.masters|
    ensures forall i | 0 <= i < |s.masters| :: ArbiterStep(s).masters[i].at == s.masters[i].at
  {}

  /** What a step does to the waiting masters and to the queue. */
  ghost predicate Moved(s: State, s': State, l: Label) {
    && QueueAfter(s, s', l) && |s'.masters| == |s.masters|
    && (forall i | 0 <= i < |s.masters| && s.masters[i].at.AwaitGrant? && s.bus.currentReq.id != i :: s'.masters[i].at.AwaitGrant?)
    && (forall i | 0 <= i < |s.masters| && s'.masters[i].at.AwaitGrant? ::
          s.masters[i].at.AwaitGrant? || (l.RunMaster? && l.m == i && s.masters[i].at.Requesting?))
    && (Grants(s, l) ==> forall i | 0 <= i < |s.masters| :: s'.masters[i].at == s.masters[i].at)
  }

  lemma StepMoves(cfg: Config, s: State, l: Label)
    requires cfg.memorySlave < |cfg.ranges| == |s.slaves| && Enabled(cfg, s, l)
    ensures Moved(s, Next(cfg, s, l), l)
  {
    hide MasterStep, SlaveStep, ArbiterStep, InArray;
    match l
    case RunMaster(m) => MasterQueue(s, m);
    case RunSlave(k, w, busy) => SlaveQueue(cfg, s, k, w, busy);
    case RunArbiter => ArbiterQueue(s);
    case _ =>
  }

  /** A lost master stays lost: its call never returns. */
  lemma LostForever(cfg: Config, s: State, l: Label, m: nat)
    requires cfg.memorySlave < |cfg.ranges| == |s.slaves| && Enabled(cfg, s, l)
    requires Lost(s, m)
    ensures Lost(Next(cfg, s, l), m)
  {
    StepMoves(cfg, s, l);
    hide Next, Enabled;
    var s' := Next(cfg, s, l);
    forall i | 0 <= i < |s'.bus.queue| ensures s'.bus.queue[i].id != m {
      if Grants(s, l) {
        assert s.bus.queue[i + 1].id != m;
      } else if i < |s.bus.queue| {
        assert s.bus.queue[i].id != m;
      }
    }
    assert Grants(s, l) ==> s.bus.queue[0].id != m;
  }

  /** As long as nobody is lost, a step loses a master exactly when it is a grant while a master that is not in the queue
      waits for its acknowledge. */
  lemma LosesIffUndisciplined(cfg: Config, s: State, l: Label)
    requires cfg.memorySlave < |cfg.ranges| == |s.slaves| && Enabled(cfg, s, l)
    requires NobodyLost(s)
    ensures NobodyLost(Next(cfg, s, l)) <==> Disciplined(s, l)
  {
    StepMoves(cfg, s, l);
    hide Next, Enabled;
    var s' := Next(cfg, s, l);
    if Disciplined(s, l) {
      forall m | 0 <= m < |s.masters| && s'.masters[m].at.AwaitGrant? ensures !Lost(s', m) {
        StillQueued(s, s', l, m);
      }
    } else {
      var m :| 0 <= m < |s.masters| && s.masters[m].at.AwaitGrant? && !InQueue(s, m);
      assert s.bus.queue[0].id != m;
      forall i | 0 <= i < |s'.bus.queue| ensures s'.bus.queue[i].id != m {
        assert s.bus.queue[i + 1].id != m;
      }
      assert Lost(s', m);
    }
  }

  lemma StillQueued(s: State, s': State, l: Label, m: nat)
    requires Moved(s, s', l) && NobodyLost(s) && Disciplined(s, l) && m < |s.masters| && s'.masters[m].at.AwaitGrant?
    ensures !Lost(s', m)
  {
    if l.RunMaster? && l.m == m && s.masters[m].at.Requesting? {
      assert s'.bus.queue[|s.bus.queue|].id == m;
    } else {
      assert !Lost(s, m);
      assert Grants(s, l) ==> InQueue(s, m);
      if InQueue(s, m) {
        var i :| 0 <= i < |s.bus.queue| && s.bus.queue[i].id == m;
        assert if Grants(s, l) then (i == 0 || s'.bus.queue[i - 1].id == m) else s'.bus.queue[i].id == m;
      }
    }
  }

  lemma NobodyLostAtFirst(cfg: Config, trace: seq<State>, labels: seq<Label>)
    requires cfg.memorySlave < |cfg.ranges| && Run(cfg, trace, labels)
    ensures NobodyLost(trace[0])
  {
    hide Next, Enabled;
  }

  /** In every run whatsoever: no master is ever lost if and only if every grant keeps to the discipline. */
  lemma {:induction false} NobodyLostIffDisciplined(cfg: Config, trace: seq<State>, labels: seq<Label>, n: nat)
    requires cfg.memorySlave < |cfg.ranges| && Run(cfg, trace, labels) && n <= |labels|
    ensures (forall i | 0 <= i <= n :: NobodyLost(trace[i])) <==> (forall i | 0 <= i < n :: Disciplined(trace[i], labels[i]))
  {
    hide Run, Next, Enabled, NobodyLost, Disciplined;
    StepOfRun(cfg, trace, labels, n);
    if n == 0 {
      NobodyLostAtFirst(cfg, trace, labels);
    } else {
      NobodyLostIffDisciplined(cfg, trace, labels, n - 1);
      var s, l := trace[n - 1], labels[n - 1];
      StepOfRun(cfg, trace, labels, n - 1);
      if NobodyLost(s) {
        LosesIffUndisciplined(cfg, s, l);
      }
    }
  }

  lemma {:induction false} LostToTheEnd(cfg: Config, trace: seq<State>, labels: seq<Label>, i: nat, n: nat, m: nat)
    requires cfg.memorySlave < |cfg.ranges| && Run(cfg, trace, labels) && i <= n < |trace|
    requires Lost(trace[i], m)
    ensures Lost(trace[n], m)
  {
    hide Run, Next, Enabled, Lost;
    if i < n {
      LostToTheEnd(cfg, trace, labels, i, n - 1, m);
      StepOfRun(cfg, trace, labels, n - 1);
      LostForever(cfg, trace[n - 1], labels[n - 1], m);
    }
  }

  // Runs in which every request is answered.

  /** The next request will be answered: a slave that claims it is listening. */
  ghost predicate Answerable(cfg: Config, s: State)
    requires |s.slaves| == |cfg.ranges|
  {
    s.bus.queue != [] ==>
      exists k :: 0 <= k < |s.slaves| && s.slaves[k].at == Listening && Claims(cfg.ranges[k], s.bus.queue[0].addr, s.bus.queue[0].len)
  }

  predicate Unanswered(s: State) {
    (s.arbiter.at == AckOrTimeout || s.arbiter.at == GapCycle) && !s.bus.receivedResponse
  }

  /** A slave that claims the current request has been notified and has not looked yet. */
  ghost predicate WillAnswer(cfg: Config, s: State)
    requires |s.slaves| == |cfg.ranges|
  {
    exists k :: 0 <= k < |s.slaves| && s.slaves[k] == Slave(Listening, true)
                && Claims(cfg.ranges[k], s.bus.currentReq.addr, s.bus.currentReq.len)
  }

  ghost predicate AllAnswered(cfg: Config, s: State)
    requires |s.slaves| == |cfg.ranges|
  {
    && (Unanswered(s) ==> WillAnswer(cfg, s))
    && (forall i | 0 <= i < |s.h.done| :: s.h.done[i].Served?)
  }

  lemma WhileUnanswered(cfg: Config, s: State, ph: Phase, recent: bool)
    requires PhaseInv(cfg, s, ph, recent) && Unanswered(s) && |s.slaves| == |cfg.ranges| && WillAnswer(cfg, s)
    ensures !s.arbiter.awake
  {
    hide QueueOk, MastersOk, MemoryOk, RecordsOk, ReturnsOk, WireOk, OwnerOk;
    assert ph.Open? || (ph.Claimed? && BusOk(s, ph));
    var k :| 0 <= k < |s.slaves| && s.slaves[k] == Slave(Listening, true);
    assert AtRest(cfg, s, ph, recent, k);
  }

  lemma OpenIsUnanswered(cfg: Config, s: State, recent: bool)
    requires PhaseInv(cfg, s, Open, recent)
    ensures Unanswered(s)
  {
    hide QueueOk, MastersOk, SlavesOk, MemoryOk, RecordsOk, ReturnsOk, WireOk;
    assert BusOk(s, Open);
  }

  lemma RefusedIsUnclaimed(cfg: Config, s: State, recent: bool)
    requires PhaseInv(cfg, s, Refusing, recent)
    ensures |s.h.done| > 0 && s.h.done[|s.h.done| - 1] == Unclaimed
  {
    hide QueueOk, MastersOk, SlavesOk, MemoryOk, RecordsOk, ReturnsOk, WireOk;
    assert OwnerOk(cfg, s, Refusing);
  }

  lemma GrantIsQuiet(cfg: Config, s: State, ph: Phase, recent: bool)
    requires PhaseInv(cfg, s, ph, recent) && |s.slaves| == |cfg.ranges| && AllAnswered(cfg, s)
    requires s.arbiter.awake && Grants(s, RunArbiter)
    ensures ph.Quiet?
  {
    if ph.Boot? {
      hide QueueOk, MastersOk, SlavesOk, CurrentTransferOk, MemoryOk, RecordsOk, ReturnsOk;
    } else if ph.Open? {
      hide PhaseInv;
      OpenIsUnanswered(cfg, s, recent);
      WhileUnanswered(cfg, s, ph, recent);
    } else if ph.Refusing? {
      hide PhaseInv;
      RefusedIsUnclaimed(cfg, s, recent);
    } else if !ph.Quiet? {
      hide PhaseInv;
      MovingPhaseGrantsNothing(cfg, s, ph, recent);
    }
  }

  /** When every request so far has been answered, a grant keeps to the discipline. */
  lemma AnsweredIsDisciplined(cfg: Config, s: State)
    requires Inv(cfg, s) && |s.slaves| == |cfg.ranges| && AllAnswered(cfg, s)
    requires s.arbiter.awake
    ensures Disciplined(s, RunArbiter)
  {
    hide PhaseInv;
    var ph, recent :| PhaseInv(cfg, s, ph, recent);
    if Grants(s, RunArbiter) {
      GrantIsQuiet(cfg, s, ph, recent);
      BusWakeups.QuietIsSettled(cfg, s, recent);
    }
  }

  /** A step of a master or of a slave appends at most one record, of a served request. */
  predicate AppendsServed(s: State, s': State) {
    s'.h.done == s.h.done || (|s'.h.done| == |s.h.done| + 1 && s'.h.done[..|s.h.done|] == s.h.done && s'.h.done[|s.h.done|].Served?)
  }

  lemma KeepsAnswers(cfg: Config, s: State, s': State, l: Label, es: set<Event>)
    requires |s.slaves| == |cfg.ranges| && AllAnswered(cfg, s)
    requires BusWakeups.WokenBy(s, s', es, l) && SameRequest(s, s') && AppendsServed(s, s')
    requires l.RunMaster? || (l.RunSlave? && l.k < |s.slaves|)
    requires l.RunSlave? && Unanswered(s') && s.slaves[l.k].at == Listening ==>
               !Claims(cfg.ranges[l.k], s.bus.currentReq.addr, s.bus.currentReq.len)
    ensures |s'.slaves| == |cfg.ranges| && AllAnswered(cfg, s')
  {
    forall i | 0 <= i < |s'.h.done| ensures s'.h.done[i].Served? {
      if i < |s.h.done| {
        assert s'.h.done[i] == s'.h.done[..|s.h.done|][i] == s.h.done[i];
      }
    }
    if Unanswered(s') {
      assert Unanswered(s);
      var i :| 0 <= i < |s.slaves| && s.slaves[i] == Slave(Listening, true)
               && Claims(cfg.ranges[i], s.bus.currentReq.addr, s.bus.currentReq.len);
      assert s'.slaves[i] == Slave(Listening, true);
    }
  }

  lemma SlaveKeepsAnswers(cfg: Config, s: State, k: nat, w: Unsigned, busy: bool)
    requires cfg.memorySlave < |cfg.ranges| == |s.slaves| && Enabled(cfg, s, RunSlave(k, w, busy))
    requires AllAnswered(cfg, s)
    ensures var s' := SlaveStep(cfg, s, k, w, busy); |s'.slaves| == |cfg.ranges| && AllAnswered(cfg, s')
  {
    hide SlaveStep, BusWakeups.WokenBy, BusWakeups.Notified, AllAnswered;
    var l := RunSlave(k, w, busy);
    var s' := SlaveStep(cfg, s, k, w, busy);
    SlaveLeavesRequest(cfg, s, k, w, busy);
    BusWakeups.SlaveWakes(cfg, s, k, w, busy);
    SlaveAppends(cfg, s, k, w, busy);
    KeepsAnswers(cfg, s, s', l, BusWakeups.Notified(cfg, s, l));
  }

  lemma SlaveAppends(cfg: Config, s: State, k: nat, w: Unsigned, busy: bool)
    requires cfg.memorySlave < |cfg.ranges| == |s.slaves| && Enabled(cfg, s, RunSlave(k, w, busy))
    ensures var s' := SlaveStep(cfg, s, k, w, busy);
            && AppendsServed(s, s')
            && (s.slaves[k].at == Listening && Unanswered(s') ==>
                  !Claims(cfg.ranges[k], s.bus.currentReq.addr, s.bus.currentReq.len))
  {
    hide WokenMasters, WokenSlaves;
  }

  lemma MasterKeepsAnswers(cfg: Config, s: State, m: Unsigned)
    requires cfg.memorySlave < |cfg.ranges| == |s.slaves| && Enabled(cfg, s, RunMaster(m))
    requires AllAnswered(cfg, s)
    ensures |MasterStep(s, m).slaves| == |cfg.ranges| && AllAnswered(cfg, MasterStep(s, m))
  {
    var l := RunMaster(m);
    var s' := MasterStep(s, m);
    MasterLeavesRequest(s, m);
    BusWakeups.MasterWakes(cfg, s, m);
    assert AppendsServed(s, s') by {
      MasterAppends(cfg, s, m);
    }
    hide MasterStep, BusWakeups.WokenBy, BusWakeups.Notified, AllAnswered;
    KeepsAnswers(cfg, s, s', l, BusWakeups.Notified(cfg, s, l));
  }

  lemma MasterAppends(cfg: Config, s: State, m: Unsigned)
    requires cfg.memorySlave < |cfg.ranges| == |s.slaves| && Enabled(cfg, s, RunMaster(m))
    ensures m < |s.masters| && AppendsServed(s, MasterStep(s, m))
  {
    if s.masters[m].at.AwaitGrant? {
      assert MasterStep(s, m).h.done == s.h.done;
    }
    hide WokenMasters, WokenSlaves;
  }

  lemma TakeIsAnswered(cfg: Config, s: State)
    requires |s.slaves| == |cfg.ranges| && s.bus.queue != [] && Answerable(cfg, s)
    requires forall i | 0 <= i < |s.h.done| :: s.h.done[i].Served?
    ensures AllAnswered(cfg, Take(s))
  {
    var k :| 0 <= k < |s.slaves| && s.slaves[k].at == Listening && Claims(cfg.ranges[k], s.bus.queue[0].addr, s.bus.queue[0].len);
    assert Take(s).slaves[k] == Slave(Listening, true);
  }

  lemma ArbiterKeepsAnswers(cfg: Config, s: State)
    requires Inv(cfg, s) && |s.slaves| == |cfg.ranges| && AllAnswered(cfg, s)
    requires s.arbiter.awake && (s.arbiter.at == NoRequest ==> s.bus.queue != [])
    requires Grants(s, RunArbiter) ==> Answerable(cfg, s)
    ensures |ArbiterStep(s).slaves| == |cfg.ranges| && AllAnswered(cfg, ArbiterStep(s))
  {
    if Unanswered(s) {
      var ph, recent :| PhaseInv(cfg, s, ph, recent);
      WhileUnanswered(cfg, s, ph, recent);
      assert false;
    } else {
      hide Inv;
      if Grants(s, RunArbiter) {
        TakeIsAnswered(cfg, s);
      }
    }
  }

  lemma AnsweredStep(cfg: Config, s: State, l: Label)
    requires Inv(cfg, s) && cfg.memorySlave < |cfg.ranges| == |s.slaves| && AllAnswered(cfg, s)
    requires Enabled(cfg, s, l) && (Grants(s, l) ==> Answerable(cfg, s))
    ensures var s' := Next(cfg, s, l); |s'.slaves| == |cfg.ranges| && AllAnswered(cfg, s')
    ensures Disciplined(s, l)
  {
    if l == RunArbiter {
      AnsweredIsDisciplined(cfg, s);
    }
    hide MasterStep, SlaveStep, ArbiterStep, InArray, Inv;
    match l
    case RunMaster(m) => MasterKeepsAnswers(cfg, s, m);
    case RunSlave(k, w, busy) => SlaveKeepsAnswers(cfg, s, k, w, busy);
    case RunArbiter => ArbiterKeepsAnswers(cfg, s);
    case Issue(_, _) =>
    case Advance(_, _, _) => assert !WillAnswer(cfg, s);
  }

  /** Every grant finds a listening slave that claims the request. */
  ghost predicate AnsweredRun(cfg: Config, trace: seq<State>, labels: seq<Label>)
    requires cfg.memorySlave < |cfg.ranges|
  {
    && Run(cfg, trace, labels)
    && (forall i | 0 <= i < |labels| :: LegalLabel(cfg, labels[i]))
    && (forall i | 0 <= i < |labels| && Grants(trace[i], labels[i]) :: |trace[i].slaves| == |cfg.ranges| && Answerable(cfg, trace[i]))
  }

  lemma AnsweredAt(cfg: Config, trace: seq<State>, labels: seq<Label>, n: nat)
    requires cfg.memorySlave < |cfg.ranges| && AnsweredRun(cfg, trace, labels) && n < |labels|
    ensures |trace| == |labels| + 1 && |trace[n].slaves| == |cfg.ranges|
    ensures Enabled(cfg, trace[n], labels[n]) && trace[n + 1] == Next(cfg, trace[n], labels[n]) && LegalLabel(cfg, labels[n])
    ensures Grants(trace[n], labels[n]) ==> Answerable(cfg, trace[n])
  {}

  lemma AnsweredStarts(cfg: Config, trace: seq<State>, labels: seq<Label>)
    requires cfg.Valid() && AnsweredRun(cfg, trace, labels)
    ensures |trace| == |labels| + 1
    ensures Inv(cfg, trace[0]) && |trace[0].slaves| == |cfg.ranges| && AllAnswered(cfg, trace[0])
  {
    InitialInv(cfg, trace[0].bus);
    assert PhaseInv(cfg, trace[0], Boot, false);
  }

  lemma {:induction false} AnsweredPrefix(cfg: Config, trace: seq<State>, labels: seq<Label>, n: nat)
    requires cfg.Valid() && AnsweredRun(cfg, trace, labels) && n < |trace|
    ensures Inv(cfg, trace[n]) && |trace[n].slaves| == |cfg.ranges| && AllAnswered(cfg, trace[n])
    ensures forall i | 0 <= i < n && i < |labels| :: Disciplined(trace[i], labels[i])
  {
    hide PhaseInv, AnsweredRun, AllAnswered, Disciplined, Next, Enabled, LegalLabel, Answerable, Grants;
    AnsweredStarts(cfg, trace, labels);
    if n > 0 {
      AnsweredPrefix(cfg, trace, labels, n - 1);
      var s, l := trace[n - 1], labels[n - 1];
      AnsweredAt(cfg, trace, labels, n - 1);
      AnsweredStep(cfg, s, l);
      var ph, recent :| PhaseInv(cfg, s, ph, recent);
      var ph', recent' := StepKeeps(cfg, s, ph, recent, l);
      assert PhaseInv(cfg, trace[n], ph', recent');
    }
  }

  /** If every grant finds a listening slave that claims the request, the run keeps to the discipline. */
  lemma AnsweredRunIsGood(cfg: Config, trace: seq<State>, labels: seq<Label>)
    requires cfg.Valid() && AnsweredRun(cfg, trace, labels)
    ensures GoodRun(cfg, trace, labels)
  {
    AnsweredPrefix(cfg, trace, labels, |labels|);
  }

  // Traffic for slaves that listen again without a wait is always answered.

  /** One of the slaves in `ready` claims the transfer. */
  ghost predicate AnsweredBy(cfg: Config, ready: set<nat>, t: Transfer) {
    exists k :: k in ready && k < |cfg.ranges| && Claims(cfg.ranges[k], t.addr, t.len)
  }

  /** Every request is for one of these slaves, those pushed and those about to be; and none of the slaves is busy. */
  ghost predicate PromptTraffic(cfg: Config, ready: set<nat>, s: State) {
    && (forall i | 0 <= i < |s.h.pushed| :: AnsweredBy(cfg, ready, s.h.pushed[i].t))
    && (forall m | 0 <= m < |s.masters| && s.masters[m].at.Requesting? :: AnsweredBy(cfg, ready, s.masters[m].at.t))
    && (forall k | k in ready && k < |s.slaves| :: !s.slaves[k].at.Busy?)
  }

  /** A call for one of these slaves, or a step after which none of them is busy. */
  ghost predicate Prompt(cfg: Config, ready: set<nat>, l: Label) {
    && (l.Issue? ==> Legal(cfg, l.t) && AnsweredBy(cfg, ready, l.t))
    && (l.RunSlave? && l.k in ready ==> !l.busy)
  }

  predicate IssuesForMemory(cfg: Config, l: Label)
    requires cfg.memorySlave < |cfg.ranges|
  {
    l.Issue? ==> Legal(cfg, l.t) && ForMemory(cfg, l.t)
  }

  /** Only a push adds to the requests, and only Issue starts one. */
  ghost predicate TicketsAfter(s: State, s': State, l: Label) {
    && |s'.masters| == |s.masters|
    && (forall i | 0 <= i < |s.masters| && s'.masters[i].at.Requesting? ::
          s'.masters[i].at == s.masters[i].at || (l.Issue? && l.m == i && s'.masters[i].at == Requesting(l.t)))
    && (s'.h.pushed == s.h.pushed
        || (l.RunMaster? && l.m < |s.masters| && s.masters[l.m].at.Requesting?
            && s'.h.pushed == s.h.pushed + [Ticket(l.m, s.masters[l.m].at.t)]))
  }

  lemma MasterTickets(s: State, m: Unsigned)
    requires m < |s.masters| && match s.masters[m].at case Driving(t, i) => i < |t.data| case _ => true
    ensures TicketsAfter(s, MasterStep(s, m), RunMaster(m))
  {}

  lemma SlaveTickets(cfg: Config, s: State, k: nat, w: Unsigned, busy: bool)
    requires cfg.memorySlave < |cfg.ranges| == |s.slaves| && k < |s.slaves| && InArray(cfg, s, k)
    ensures TicketsAfter(s, SlaveStep(cfg, s, k, w, busy), RunSlave(k, w, busy))
  {
    SlaveQueue(cfg, s, k, w, busy);
    assert SlaveStep(cfg, s, k, w, busy).h.pushed == s.h.pushed by { hide WokenMasters, WokenSlaves; }
    hide SlaveStep;
  }

  lemma StepTickets(cfg: Config, s: State, l: Label)
    requires cfg.memorySlave < |cfg.ranges| == |s.slaves| && Enabled(cfg, s, l)
    ensures TicketsAfter(s, Next(cfg, s, l), l)
  {
    hide MasterStep, SlaveStep, InArray;
    match l
    case RunMaster(m) => MasterTickets(s, m);
    case RunSlave(k, w, busy) => SlaveTickets(cfg, s, k, w, busy);
    case _ =>
  }

  lemma SlaveStaysReady(cfg: Config, s: State, k: nat, w: Unsigned)
    requires cfg.memorySlave < |cfg.ranges| == |s.slaves| && Enabled(cfg, s, RunSlave(k, w, false))
    ensures var s' := SlaveStep(cfg, s, k, w, false); |s'.slaves| == |s.slaves| && !s'.slaves[k].at.Busy?
  {
    hide WokenMasters;
  }

  lemma StaysReady(cfg: Config, s: State, l: Label, k: nat)
    requires cfg.memorySlave < |cfg.ranges| == |s.slaves| && Enabled(cfg, s, l)
    requires k < |s.slaves| && !s.slaves[k].at.Busy? && (l.RunSlave? && l.k == k ==> !l.busy)
    ensures var s' := Next(cfg, s, l); |s'.slaves| == |s.slaves| && !s'.slaves[k].at.Busy?
  {
    hide MasterStep, ArbiterStep, SlaveStep, BusWakeups.Notified;
    if l.RunSlave? && l.k == k {
      SlaveStaysReady(cfg, s, k, l.w);
    } else if !l.Issue? && !l.Advance? {
      BusWakeups.WakesExactly(cfg, s, l);
    }
  }

  lemma PromptTrafficStep(cfg: Config, ready: set<nat>, s: State, l: Label)
    requires cfg.memorySlave < |cfg.ranges| == |s.slaves| && Enabled(cfg, s, l) && Prompt(cfg, ready, l)
    requires PromptTraffic(cfg, ready, s) && |Next(cfg, s, l).slaves| == |cfg.ranges|
    ensures PromptTraffic(cfg, ready, Next(cfg, s, l))
  {
    StepTickets(cfg, s, l);
    hide Next, AnsweredBy, Enabled;
    forall k | k in ready && k < |s.slaves|
      ensures !Next(cfg, s, l).slaves[k].at.Busy?
    {
      StaysReady(cfg, s, l, k);
    }
  }

  lemma ReadyIsListening(cfg: Config, ready: set<nat>, s: State)
    requires Inv(cfg, s) && cfg.memorySlave < |cfg.ranges| == |s.slaves| && AllAnswered(cfg, s) && PromptTraffic(cfg, ready, s)
    requires s.arbiter.awake && Grants(s, RunArbiter)
    ensures Answerable(cfg, s)
  {
    hide QueueOk, MastersOk, SlavesOk, ArbiterOk, CurrentTransferOk, MemoryOk, RecordsOk, ReturnsOk, PromptTraffic;
    var ph, recent :| PhaseInv(cfg, s, ph, recent);
    GrantIsQuiet(cfg, s, ph, recent);
    var k := QuietSlave(cfg, ready, s, recent);
    assert s.slaves[k].at == Listening;
  }

  lemma GrantsAwake(cfg: Config, s: State, l: Label)
    requires cfg.memorySlave < |cfg.ranges| == |s.slaves| && Enabled(cfg, s, l) && Grants(s, l)
    ensures s.arbiter.awake && l == RunArbiter
  {}

  lemma QuietSlave(cfg: Config, ready: set<nat>, s: State, recent: bool) returns (k: nat)
    requires QueueOk(cfg, s, Quiet) && SlavesOk(cfg, s, Quiet, recent) && cfg.memorySlave < |cfg.ranges| == |s.slaves|
    requires s.bus.queue != [] && PromptTraffic(cfg, ready, s)
    ensures k < |s.slaves| && s.slaves[k].at == Listening
    ensures Claims(cfg.ranges[k], s.bus.queue[0].addr, s.bus.queue[0].len)
  {
    var t := s.h.pushed[s.h.granted].t;
    assert AnsweredBy(cfg, ready, t);
    k :| k in ready && k < |cfg.ranges| && Claims(cfg.ranges[k], t.addr, t.len);
    assert AtRest(cfg, s, Quiet, recent, k);
    assert s.bus.queue[s.h.granted - s.h.granted] == RequestOf(s.h.pushed[s.h.granted]);
  }

  lemma {:induction false} PromptPrefix(cfg: Config, ready: set<nat>, trace: seq<State>, labels: seq<Label>, n: nat)
    requires cfg.Valid() && Run(cfg, trace, labels) && n < |trace|
    requires forall i | 0 <= i < |labels| :: Prompt(cfg, ready, labels[i])
    ensures Inv(cfg, trace[n]) && |trace[n].slaves| == |cfg.ranges| && AllAnswered(cfg, trace[n])
    ensures PromptTraffic(cfg, ready, trace[n])
    ensures forall i | 0 <= i < n && Grants(trace[i], labels[i]) :: |trace[i].slaves| == |cfg.ranges| && Answerable(cfg, trace[i])
  {
    if n == 0 {
      InitialInv(cfg, trace[0].bus);
      assert PhaseInv(cfg, trace[0], Boot, false);
    } else {
      PromptPrefix(cfg, ready, trace, labels, n - 1);
      var s, l := trace[n - 1], labels[n - 1];
      assert trace[n - 1 + 1] == Next(cfg, s, l) && Prompt(cfg, ready, l);
      hide PhaseInv, Run, AllAnswered, PromptTraffic, Disciplined, Next, Enabled, Answerable, Claims, AnsweredBy;
      if Grants(s, l) {
        GrantsAwake(cfg, s, l);
        ReadyIsListening(cfg, ready, s);
      }
      AnsweredStep(cfg, s, l);
      PromptTrafficStep(cfg, ready, s, l);
      var ph, recent :| PhaseInv(cfg, s, ph, recent);
      var ph', recent' := StepKeeps(cfg, s, ph, recent, l);
      assert PhaseInv(cfg, trace[n], ph', recent');
    }
  }

  /** If every transfer is legal and for a slave that listens again without a wait, every run is good: then no master is
      ever lost, and the memory is linearizable, whatever the scheduler does. */
  lemma PromptRunIsGood(cfg: Config, ready: set<nat>, trace: seq<State>, labels: seq<Label>)
    requires cfg.Valid() && Run(cfg, trace, labels)
    requires forall i | 0 <= i < |labels| :: Prompt(cfg, ready, labels[i])
    ensures GoodRun(cfg, trace, labels)
    ensures forall n | 0 <= n < |trace| :: NobodyLost(trace[n])
  {
    PromptPrefix(cfg, ready, trace, labels, |labels|);
    assert forall i | 0 <= i < |labels| :: Prompt(cfg, ready, labels[i]) && LegalLabel(cfg, labels[i]);
    AnsweredRunIsGood(cfg, trace, labels);
    hide Run, NobodyLost, Disciplined;
    NobodyLostIffDisciplined(cfg, trace, labels, |labels|);
  }

  /** The memory is such a slave, so traffic for the memory alone makes every run good. */
  lemma MemoryRunIsGood(cfg: Config, trace: seq<State>, labels: seq<Label>)
    requires cfg.Valid() && Run(cfg, trace, labels)
    requires forall i | 0 <= i < |labels| :: IssuesForMemory(cfg, labels[i])
    ensures GoodRun(cfg, trace, labels)
    ensures forall n | 0 <= n < |trace| :: NobodyLost(trace[n])
  {
    hide NobodyLost, Disciplined, Legal, Claims;
    forall i | 0 <= i < |labels|
      ensures Prompt(cfg, {cfg.memorySlave}, labels[i])
    {
      assert Enabled(cfg, trace[i], labels[i]) && IssuesForMemory(cfg, labels[i]);
      MemoryIsPrompt(cfg, trace[i], labels[i]);
    }
    PromptRunIsGood(cfg, {cfg.memorySlave}, trace, labels);
  }

  lemma MemoryIsPrompt(cfg: Config, s: State, l: Label)
    requires cfg.memorySlave < |cfg.ranges| == |s.slaves| && Enabled(cfg, s, l) && IssuesForMemory(cfg, l)
    ensures Prompt(cfg, {cfg.memorySlave}, l)
  {
    if l.Issue? {
      assert cfg.memorySlave in {cfg.memorySlave};
      assert AnsweredBy(cfg, {cfg.memorySlave}, l.t);
    }
  }
}
