/** Runs in which one transfer is all that is asked for, put together step by step. */
module BusPaths {
  import opened Bus
  import opened BusSystem

  /** The states of a run before its last one, the last one, and the steps. */
  datatype Path = Path(before: seq<State>, end: State, labels: seq<Label>) {
    function Trace(): (trace: seq<State>)
      ensures |trace| == |before| + 1 && trace[|before|] == end
    {
      before + [end]
    }
  }

  /** A step that asks for nothing but t, and after which no device is busy. */
  predicate Calm(t: Transfer, l: Label) {
    (l.Issue? ==> l.t == t) && (l.RunSlave? ==> !l.busy)
  }

  ghost predicate Walk(cfg: Config, t: Transfer, p: Path)
    requires cfg.memorySlave < |cfg.ranges|
  {
    Run(cfg, p.Trace(), p.labels) && forall i | 0 <= i < |p.labels| :: Calm(t, p.labels[i])
  }

  /** One more step. */
  lemma Longer(cfg: Config, t: Transfer, p: Path, l: Label) returns (p': Path)
    requires cfg.memorySlave < |cfg.ranges| && Walk(cfg, t, p) && |p.end.slaves| == |cfg.ranges|
    requires Enabled(cfg, p.end, l) && Calm(t, l)
    ensures Walk(cfg, t, p') && p'.end == Next(cfg, p.end, l)
  {
    hide Next, Enabled, Calm;
    p' := Path(p.Trace(), Next(cfg, p.end, l), p.labels + [l]);
    var was, now := p.Trace(), p'.Trace();
    forall i | 0 <= i < |p'.labels|
      ensures Calm(t, p'.labels[i])
      ensures |now[i].slaves| == |cfg.ranges| && Enabled(cfg, now[i], p'.labels[i])
      ensures now[i + 1] == Next(cfg, now[i], p'.labels[i])
    {
      if i < |p.labels| {
        assert p'.labels[i] == p.labels[i] && now[i] == was[i] && now[i + 1] == was[i + 1];
      }
    }
    assert now[0] == was[0];
  }

  // What a state looks like while no words are moved: masters 0 and 1, slave k, and the others. Of the other slaves those
  // below `heard` wait for an announcement, the rest are like `before`.

  datatype Scene = Scene(arbiter: Arbiter, queue: seq<Request>, current: Request, response: bool, m0: Master, m1: Master,
                         k: nat, slave: Slave, heard: nat, before: Slave)

  ghost predicate Shows(cfg: Config, s: State, v: Scene) {
    && |s.masters| == cfg.masters >= 2 && |s.slaves| == |cfg.ranges|
    && s.arbiter == v.arbiter
    && s.bus.queue == v.queue && s.bus.currentReq == v.current && s.bus.receivedResponse == v.response
    && s.masters[0] == v.m0 && s.masters[1] == v.m1
    && (forall m | 2 <= m < |s.masters| :: s.masters[m] == Master(Idle, false))
    && (v.k < |s.slaves| ==> s.slaves[v.k] == v.slave)
    && forall i | 0 <= i < |s.slaves| && i != v.k :: s.slaves[i] == if i < v.heard then Slave(Listening, false) else v.before
  }

  const IDLE := Master(Idle, false)
  const LISTENING := Slave(Listening, false)

  /** One more step from a scene. */
  lemma Onward(cfg: Config, t: Transfer, p: Path, v: Scene, l: Label) returns (p': Path)
    requires cfg.memorySlave < |cfg.ranges| && Walk(cfg, t, p) && Shows(cfg, p.end, v) && Enabled(cfg, p.end, l) && Calm(t, l)
    ensures |p.end.slaves| == |cfg.ranges|
    ensures Walk(cfg, t, p') && p'.end == Next(cfg, p.end, l)
  {
    p' := Longer(cfg, t, p, l);
  }

  function Rest(cfg: Config, s: State, k: nat, slave: Slave): Scene {
    Scene(Arbiter(NoRequest, false), [], s.bus.currentReq, s.bus.receivedResponse, IDLE, IDLE, k, slave, |cfg.ranges|, LISTENING)
  }

  /** Nothing is asked for, and every slave waits for an announcement, but for slave k perhaps. */
  ghost predicate Resting(cfg: Config, s: State, k: nat, slave: Slave) {
    Shows(cfg, s, Rest(cfg, s, k, slave))
  }

  // The start.

  lemma Starts(cfg: Config, t: Transfer, fields: Fields) returns (p: Path)
    requires cfg.memorySlave < |cfg.ranges| && cfg.masters >= 2 && fields.queue == []
    ensures Walk(cfg, t, p)
    ensures Shows(cfg, p.end, Scene(Arbiter(ArbiterStart, true), [], fields.currentReq, fields.receivedResponse, IDLE, IDLE,
                                     |cfg.ranges|, LISTENING, 0, Slave(SlaveStart, true)))
  {
    p := Path([], Initial(cfg, fields), []);
  }

  // One of the other slaves takes its step.

  lemma SlaveStarts(cfg: Config, s: State, v: Scene)
    requires cfg.memorySlave < |cfg.ranges| && Shows(cfg, s, v) && v.heard < |cfg.ranges| && v.heard != v.k
    requires v.before == Slave(SlaveStart, true)
    ensures Enabled(cfg, s, RunSlave(v.heard, 0, false))
    ensures Shows(cfg, Next(cfg, s, RunSlave(v.heard, 0, false)), v.(heard := v.heard + 1))
  {}

  lemma SlaveHears(cfg: Config, s: State, v: Scene)
    requires cfg.memorySlave < |cfg.ranges| && Shows(cfg, s, v) && v.heard < |cfg.ranges| && v.heard != v.k
    requires v.before == Slave(Listening, true) && !Claims(cfg.ranges[v.heard], v.current.addr, v.current.len)
    ensures Enabled(cfg, s, RunSlave(v.heard, 0, false))
    ensures Shows(cfg, Next(cfg, s, RunSlave(v.heard, 0, false)), v.(heard := v.heard + 1))
  {}

  /** All the others take their steps, one after the other: none of them claims the current request. */
  lemma {:induction false} OthersRun(cfg: Config, t: Transfer, p: Path, v: Scene) returns (p': Path)
    requires cfg.memorySlave < |cfg.ranges| && Walk(cfg, t, p) && Shows(cfg, p.end, v) && v.heard <= |cfg.ranges|
    requires v.before == Slave(SlaveStart, true)
             || (v.before == Slave(Listening, true)
                 && forall i | 0 <= i < |cfg.ranges| && i != v.k :: !Claims(cfg.ranges[i], v.current.addr, v.current.len))
    ensures Walk(cfg, t, p') && Shows(cfg, p'.end, v.(heard := |cfg.ranges|))
    decreases |cfg.ranges| - v.heard
  {
    hide Next, Enabled, Walk;
    if v.heard == |cfg.ranges| {
      p' := p;
    } else if v.heard == v.k {
      p' := OthersRun(cfg, t, p, v.(heard := v.heard + 1));
    } else {
      if v.before.at.SlaveStart? {
        SlaveStarts(cfg, p.end, v);
      } else {
        SlaveHears(cfg, p.end, v);
      }
      var q := Longer(cfg, t, p, RunSlave(v.heard, 0, false));
      p' := OthersRun(cfg, t, q, v.(heard := v.heard + 1));
    }
  }

  // The other steps in which no words are moved.

  function Requested(m: Unsigned, t: Transfer): Request {
    RequestOf(Ticket(m, t))
  }

  // Every other slave waits for an announcement, and slave k waits for something.
  predicate Settles(cfg: Config, v: Scene) {
    v.heard >= |cfg.ranges| && !v.slave.awake
  }

  lemma ArbiterWaits(cfg: Config, s: State, v: Scene)
    requires cfg.memorySlave < |cfg.ranges| && Shows(cfg, s, v) && v.queue == []
    requires v.arbiter == Arbiter(ArbiterStart, true) || v.arbiter == Arbiter(TransferEnd, true)
    ensures Enabled(cfg, s, RunArbiter)
    ensures Shows(cfg, Next(cfg, s, RunArbiter), v.(arbiter := Arbiter(NoRequest, false)))
  {}

  lemma FirstCalls(cfg: Config, s: State, v: Scene, t: Transfer)
    requires cfg.memorySlave < |cfg.ranges| && Shows(cfg, s, v) && v.m0 == IDLE && (!t.rdnwr ==> |t.data| == t.len)
    ensures Enabled(cfg, s, Issue(0, t)) && Shows(cfg, Next(cfg, s, Issue(0, t)), v.(m0 := Master(Requesting(t), false)))
  {}

  lemma SecondCalls(cfg: Config, s: State, v: Scene, t: Transfer)
    requires cfg.memorySlave < |cfg.ranges| && Shows(cfg, s, v) && v.m1 == IDLE && (!t.rdnwr ==> |t.data| == t.len)
    ensures Enabled(cfg, s, Issue(1, t)) && Shows(cfg, Next(cfg, s, Issue(1, t)), v.(m1 := Master(Requesting(t), false)))
  {}

  lemma FirstWakes(cfg: Config, s: State, v: Scene)
    requires cfg.memorySlave < |cfg.ranges| && Shows(cfg, s, v) && Settles(cfg, v)
    requires !v.arbiter.awake && !v.m0.awake && !v.m1.awake && MasterTimed(v.m0.at)
    ensures Enabled(cfg, s, Advance(false, {0}, {}))
    ensures Shows(cfg, Next(cfg, s, Advance(false, {0}, {})), v.(m0 := v.m0.(awake := true)))
  {}

  lemma BothWake(cfg: Config, s: State, v: Scene)
    requires cfg.memorySlave < |cfg.ranges| && Shows(cfg, s, v) && Settles(cfg, v)
    requires !v.arbiter.awake && !v.m0.awake && !v.m1.awake && MasterTimed(v.m0.at) && MasterTimed(v.m1.at)
    ensures Enabled(cfg, s, Advance(false, {0, 1}, {}))
    ensures Shows(cfg, Next(cfg, s, Advance(false, {0, 1}, {})), v.(m0 := v.m0.(awake := true), m1 := v.m1.(awake := true)))
  {}

  lemma FirstPushes(cfg: Config, s: State, v: Scene, t: Transfer)
    requires cfg.memorySlave < |cfg.ranges| && Shows(cfg, s, v)
    requires v.m0 == Master(Requesting(t), true) && v.arbiter.at == NoRequest
    ensures Enabled(cfg, s, RunMaster(0))
    ensures Shows(cfg, Next(cfg, s, RunMaster(0)),
                  v.(arbiter := Arbiter(NoRequest, true), queue := v.queue + [Requested(0, t)], m0 := Master(AwaitGrant(t), false)))
  {}

  lemma SecondPushes(cfg: Config, s: State, v: Scene, t: Transfer)
    requires cfg.memorySlave < |cfg.ranges| && Shows(cfg, s, v)
    requires v.m1 == Master(Requesting(t), true) && v.arbiter.at == NoRequest
    ensures Enabled(cfg, s, RunMaster(1))
    ensures Shows(cfg, Next(cfg, s, RunMaster(1)),
                  v.(arbiter := Arbiter(NoRequest, true), queue := v.queue + [Requested(1, t)], m1 := Master(AwaitGrant(t), false)))
  {}

  function Announces(v: Scene): Scene
    requires v.queue != []
  {
    v.(arbiter := Arbiter(AckOrTimeout, false), queue := v.queue[1..], current := v.queue[0], response := false,
       slave := if v.slave.at == Listening then Slave(Listening, true) else v.slave, heard := 0, before := Slave(Listening, true))
  }

  lemma ArbiterTakes(cfg: Config, s: State, v: Scene)
    requires cfg.memorySlave < |cfg.ranges| && Shows(cfg, s, v) && Settles(cfg, v)
    requires v.arbiter == Arbiter(NoRequest, true) && v.queue != []
    ensures Enabled(cfg, s, RunArbiter) && Shows(cfg, Next(cfg, s, RunArbiter), Announces(v))
  {}

  lemma ArbiterWakes(cfg: Config, s: State, v: Scene)
    requires cfg.memorySlave < |cfg.ranges| && Shows(cfg, s, v) && Settles(cfg, v)
    requires !v.arbiter.awake && ArbiterTimed(v.arbiter.at) && !v.m0.awake && !v.m1.awake
    ensures Enabled(cfg, s, Advance(true, {}, {}))
    ensures Shows(cfg, Next(cfg, s, Advance(true, {}, {})), v.(arbiter := v.arbiter.(awake := true)))
  {}

  lemma GapBegins(cfg: Config, s: State, v: Scene)
    requires cfg.memorySlave < |cfg.ranges| && Shows(cfg, s, v) && v.arbiter == Arbiter(AckOrTimeout, true)
    ensures Enabled(cfg, s, RunArbiter)
    ensures Shows(cfg, Next(cfg, s, RunArbiter), v.(arbiter := Arbiter(GapCycle, false)))
  {}

  function Woken(p: Master): Master {
    if p.at.AwaitGrant? then p.(awake := true) else p
  }

  lemma Refuses(cfg: Config, s: State, v: Scene)
    requires cfg.memorySlave < |cfg.ranges| && Shows(cfg, s, v) && Settles(cfg, v)
    requires v.arbiter == Arbiter(GapCycle, true) && !v.response && v.queue != []
    ensures Enabled(cfg, s, RunArbiter)
    ensures Shows(cfg, Next(cfg, s, RunArbiter), Announces(v).(m0 := Woken(v.m0), m1 := Woken(v.m1)))
  {}

  lemma PassesOn(cfg: Config, s: State, v: Scene)
    requires cfg.memorySlave < |cfg.ranges| && Shows(cfg, s, v) && v.arbiter == Arbiter(GapCycle, true) && v.response
    ensures Enabled(cfg, s, RunArbiter)
    ensures Shows(cfg, Next(cfg, s, RunArbiter), v.(arbiter := Arbiter(TransferEnd, false), m0 := Woken(v.m0), m1 := Woken(v.m1)))
  {}

  // How slave k waits after it has answered.
  function Answering(cfg: Config, k: nat, t: Transfer): Slave {
    var n := cfg.words(k, t.rdnwr, t.len);
    Slave(if n == 0 then Listening else if t.rdnwr then Sending(t.addr, n, []) else Receiving(t.addr, n, []), false)
  }

  lemma SlaveAnswers(cfg: Config, s: State, v: Scene, t: Transfer)
    requires cfg.memorySlave < |cfg.ranges| && Shows(cfg, s, v) && v.k < |cfg.ranges| && v.slave == Slave(Listening, true)
    requires v.arbiter == Arbiter(AckOrTimeout, false) && v.current == Requested(0, t)
    requires Claims(cfg.ranges[v.k], t.addr, t.len)
    ensures Enabled(cfg, s, RunSlave(v.k, 0, false))
    ensures Shows(cfg, Next(cfg, s, RunSlave(v.k, 0, false)),
                  v.(arbiter := Arbiter(AckOrTimeout, true), response := true, slave := Answering(cfg, v.k, t)))
  {}

  /** The same state, with another slave looked at by itself. */
  lemma LookAt(cfg: Config, s: State, slave: Slave, k: nat)
    requires Resting(cfg, s, |cfg.ranges|, slave) && k < |cfg.ranges|
    ensures Resting(cfg, s, k, LISTENING)
  {}
}
