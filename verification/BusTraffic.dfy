/** Which transfers the bus serves: exactly those some slave claims and moves word by word. */
module BusTraffic {
  import opened Bus
  import opened BusSystem
  import opened BusRuns
  import opened BusHazards
  import opened BusDevices
  import BusFailures
  import opened BusPaths

  /** At least one word, no wrap around 32 bits, and the data of a write. */
  predicate WellFormed(t: Transfer) {
    t.len >= 1 && t.addr + t.len < 0x1_0000_0000 && (!t.rdnwr ==> |t.data| == t.len)
  }

  ghost predicate ClaimedOnlyBy(cfg: Config, t: Transfer, k: nat) {
    forall i | 0 <= i < |cfg.ranges| && i != k :: !Claims(cfg.ranges[i], t.addr, t.len)
  }

  const SILENT := Slave(Busy, false)

  /** A run from the start to a bus at rest. */
  lemma ComesToRest(cfg: Config, t: Transfer, fields: Fields) returns (p: Path)
    requires cfg.memorySlave < |cfg.ranges| && cfg.masters >= 2 && fields.queue == []
    ensures Walk(cfg, t, p) && Resting(cfg, p.end, |cfg.ranges|, SILENT)
  {
    hide Walk, Next, Enabled;
    var k := |cfg.ranges|;
    var v := Scene(Arbiter(ArbiterStart, true), [], fields.currentReq, fields.receivedResponse, IDLE, IDLE, k, SILENT, 0,
                   Slave(SlaveStart, true));
    p := Starts(cfg, t, fields);
    assert Shows(cfg, p.end, v);
    p := OthersRun(cfg, t, p, v);
    v := v.(heard := k);
    ArbiterWaits(cfg, p.end, v);
    p := Onward(cfg, t, p, v, RunArbiter);
  }

  /** Two masters ask for a transfer that no listening slave claims: the request of the first is overtaken. */
  lemma FirstIsOvertaken(cfg: Config, t: Transfer, p: Path, k: nat, slave: Slave) returns (p': Path)
    requires cfg.memorySlave < |cfg.ranges| && Walk(cfg, t, p) && Resting(cfg, p.end, k, slave)
    requires !t.rdnwr ==> |t.data| == t.len
    requires ClaimedOnlyBy(cfg, t, k) && !slave.awake && slave.at != Listening
    ensures Walk(cfg, t, p') && Lost(p'.end, 0)
  {
    hide Walk, Next, Enabled, Shows;
    p' := p;
    var v := Rest(cfg, p.end, k, slave);
    FirstCalls(cfg, p'.end, v, t);
    p' := Onward(cfg, t, p', v, Issue(0, t));
    v := v.(m0 := Master(Requesting(t), false));
    SecondCalls(cfg, p'.end, v, t);
    p' := Onward(cfg, t, p', v, Issue(1, t));
    v := v.(m1 := Master(Requesting(t), false));
    BothWake(cfg, p'.end, v);
    p' := Onward(cfg, t, p', v, Advance(false, {0, 1}, {}));
    v := v.(m0 := Master(Requesting(t), true), m1 := Master(Requesting(t), true));
    FirstPushes(cfg, p'.end, v, t);
    p' := Onward(cfg, t, p', v, RunMaster(0));
    v := v.(arbiter := Arbiter(NoRequest, true), queue := v.queue + [Requested(0, t)], m0 := Master(AwaitGrant(t), false));
    SecondPushes(cfg, p'.end, v, t);
    p' := Onward(cfg, t, p', v, RunMaster(1));
    v := v.(queue := v.queue + [Requested(1, t)], m1 := Master(AwaitGrant(t), false));
    p', v := FirstTimesOut(cfg, t, p', v);
    Refuses(cfg, p'.end, v);
    p' := Onward(cfg, t, p', v, RunArbiter);
    OvertakenIsLost(cfg, p'.end, Announces(v).(m0 := Woken(v.m0), m1 := Woken(v.m1)), t);
  }

  lemma OvertakenIsLost(cfg: Config, s: State, v: Scene, t: Transfer)
    requires Shows(cfg, s, v) && v.queue == [] && v.current == Requested(1, t) && v.m0.at == AwaitGrant(t)
    ensures Lost(s, 0)
  {}

  // The head of the queue is announced, and nobody answers before the gap cycle ends.
  lemma FirstTimesOut(cfg: Config, t: Transfer, p: Path, v: Scene) returns (p': Path, v': Scene)
    requires cfg.memorySlave < |cfg.ranges| && Walk(cfg, t, p) && Shows(cfg, p.end, v) && Settles(cfg, v)
    requires v.arbiter == Arbiter(NoRequest, true) && v.queue != [] && v.slave.at != Listening
    requires v.queue[0].addr == t.addr && v.queue[0].len == t.len && ClaimedOnlyBy(cfg, t, v.k)
    requires !v.m0.awake && !v.m1.awake
    ensures Walk(cfg, t, p') && Shows(cfg, p'.end, v')
    ensures v' == Announces(v).(arbiter := Arbiter(GapCycle, true), heard := |cfg.ranges|)
  {
    hide Walk, Next, Enabled, Shows;
    ArbiterTakes(cfg, p.end, v);
    p' := Onward(cfg, t, p, v, RunArbiter);
    v' := Announces(v);
    p' := OthersRun(cfg, t, p', v');
    v' := v'.(heard := |cfg.ranges|);
    ArbiterWakes(cfg, p'.end, v');
    p' := Onward(cfg, t, p', v', Advance(true, {}, {}));
    v' := v'.(arbiter := Arbiter(AckOrTimeout, true));
    GapBegins(cfg, p'.end, v');
    p' := Onward(cfg, t, p', v', RunArbiter);
    v' := v'.(arbiter := Arbiter(GapCycle, false));
    ArbiterWakes(cfg, p'.end, v');
    p' := Onward(cfg, t, p', v', Advance(true, {}, {}));
    v' := v'.(arbiter := Arbiter(GapCycle, true));
  }

  /** A master asks for a transfer that slave k claims, and is granted it. */
  lemma CallIsGranted(cfg: Config, t: Transfer, p: Path, k: nat) returns (p': Path)
    requires cfg.memorySlave < |cfg.ranges| && k < |cfg.ranges| && k != cfg.memorySlave && (!t.rdnwr ==> |t.data| == t.len)
    requires Walk(cfg, t, p) && Resting(cfg, p.end, k, LISTENING)
    requires Claims(cfg.ranges[k], t.addr, t.len) && ClaimedOnlyBy(cfg, t, k)
    ensures Walk(cfg, t, p') && Granted(cfg, t, k, p'.end)
  {
    hide Walk, Next, Enabled, Shows, Answering;
    p' := p;
    var v := Rest(cfg, p.end, k, LISTENING);
    FirstCalls(cfg, p'.end, v, t);
    p' := Onward(cfg, t, p', v, Issue(0, t));
    v := v.(m0 := Master(Requesting(t), false));
    FirstWakes(cfg, p'.end, v);
    p' := Onward(cfg, t, p', v, Advance(false, {0}, {}));
    v := v.(m0 := Master(Requesting(t), true));
    FirstPushes(cfg, p'.end, v, t);
    p' := Onward(cfg, t, p', v, RunMaster(0));
    v := v.(arbiter := Arbiter(NoRequest, true), queue := v.queue + [Requested(0, t)], m0 := Master(AwaitGrant(t), false));
    ArbiterTakes(cfg, p'.end, v);
    p' := Onward(cfg, t, p', v, RunArbiter);
    p', v := IsAnswered(cfg, t, p', Announces(v));
    IsGranted(cfg, t, p'.end, v);
  }

  // The claimant answers, the others do not, and the answer is passed on.
  lemma IsAnswered(cfg: Config, t: Transfer, p: Path, v: Scene) returns (p': Path, v': Scene)
    requires cfg.memorySlave < |cfg.ranges| && Walk(cfg, t, p) && Shows(cfg, p.end, v)
    requires v.k < |cfg.ranges| && Claims(cfg.ranges[v.k], t.addr, t.len) && ClaimedOnlyBy(cfg, t, v.k)
    requires v.arbiter == Arbiter(AckOrTimeout, false) && v.current == Requested(0, t) && v.slave == Slave(Listening, true)
    requires v.heard == 0 && v.before == Slave(Listening, true) && !v.m0.awake && !v.m1.awake
    ensures Walk(cfg, t, p') && Shows(cfg, p'.end, v')
    ensures v' == v.(arbiter := TRANSFER, response := true, slave := Answering(cfg, v.k, t), heard := |cfg.ranges|,
                     m0 := Woken(v.m0), m1 := Woken(v.m1))
  {
    hide Walk, Next, Enabled, Shows;
    SlaveAnswers(cfg, p.end, v, t);
    p' := Onward(cfg, t, p, v, RunSlave(v.k, 0, false));
    v' := v.(arbiter := Arbiter(AckOrTimeout, true), response := true, slave := Answering(cfg, v.k, t));
    p' := OthersRun(cfg, t, p', v');
    v' := v'.(heard := |cfg.ranges|);
    GapBegins(cfg, p'.end, v');
    p' := Onward(cfg, t, p', v', RunArbiter);
    v' := v'.(arbiter := Arbiter(GapCycle, false));
    ArbiterWakes(cfg, p'.end, v');
    p' := Onward(cfg, t, p', v', Advance(true, {}, {}));
    v' := v'.(arbiter := Arbiter(GapCycle, true));
    PassesOn(cfg, p'.end, v');
    p' := Onward(cfg, t, p', v', RunArbiter);
    v' := v'.(arbiter := TRANSFER, m0 := Woken(v.m0), m1 := Woken(v.m1));
  }

  lemma IsGranted(cfg: Config, t: Transfer, s: State, v: Scene)
    requires Shows(cfg, s, v) && v.k < |cfg.ranges| && v.k != cfg.memorySlave && v.heard >= |cfg.ranges|
    requires v.arbiter == TRANSFER && v.queue == [] && v.current == Requested(0, t) && v.response
    requires v.m0 == Master(AwaitGrant(t), true) && v.m1 == IDLE && v.slave == Answering(cfg, v.k, t)
    ensures Granted(cfg, t, v.k, s)
  {
    hide Answering;
  }

  // The theorem.

  /** Some slave claims the transfer and moves as many words as it names. */
  ghost predicate Served(cfg: Config, t: Transfer) {
    exists k :: 0 <= k < |cfg.ranges| && Claims(cfg.ranges[k], t.addr, t.len) && cfg.words(k, t.rdnwr, t.len) == t.len
  }

  /** A run that asks for transfers of ts only, and in which no device is ever busy. */
  ghost predicate Traffic(cfg: Config, ts: iset<Transfer>, trace: seq<State>, labels: seq<Label>)
    requires cfg.memorySlave < |cfg.ranges|
  {
    Run(cfg, trace, labels)
    && forall i | 0 <= i < |labels| :: (labels[i].Issue? ==> labels[i].t in ts) && (labels[i].RunSlave? ==> !labels[i].busy)
  }

  /** In such a run nobody is ever lost and the bus never stops. */
  ghost predicate Sound(cfg: Config, ts: iset<Transfer>)
    requires cfg.memorySlave < |cfg.ranges|
  {
    forall trace, labels | Traffic(cfg, ts, trace, labels) ::
      forall n | 0 <= n < |trace| :: NobodyLost(trace[n]) && !BusFailures.Dead(trace[n])
  }

  lemma UnservedIsUnsound(cfg: Config, t: Transfer) returns (p: Path)
    requires cfg.Valid() && cfg.masters >= 2 && WellFormed(t) && !Served(cfg, t)
    ensures Walk(cfg, t, p) && (Lost(p.end, 0) || BusFailures.Dead(p.end))
  {
    hide Walk, Resting, Granted, Lost, BusFailures.Dead;
    var fields := Fields([], Requested(0, t), 0, false);
    p := ComesToRest(cfg, t, fields);
    if k :| 0 <= k < |cfg.ranges| && Claims(cfg.ranges[k], t.addr, t.len) {
      forall i | 0 <= i < |cfg.ranges| && i != k
        ensures !Claims(cfg.ranges[i], t.addr, t.len)
      {
        OneSlaveAnswers(cfg.ranges, k, i, t.addr, t.len);
      }
      LookAt(cfg, p.end, SILENT, k);
      p := CallIsGranted(cfg, t, p, k);
      if Own(cfg, k, t) < t.len {
        p := TooFewWords(cfg, t, p, k);
      } else {
        var slave;
        p, slave := TooManyWords(cfg, t, p, k);
        p := FirstIsOvertaken(cfg, t, p, k, slave);
      }
    } else {
      p := FirstIsOvertaken(cfg, t, p, |cfg.ranges|, SILENT);
    }
  }

  function UpTo(n: nat): (r: set<nat>)
    ensures forall k: nat :: k in r <==> k < n
  {
    if n == 0 then {} else UpTo(n - 1) + {n - 1}
  }

  lemma ServedIsLegal(cfg: Config, t: Transfer)
    requires cfg.Valid() && WellFormed(t) && Served(cfg, t)
    ensures Legal(cfg, t) && AnsweredBy(cfg, UpTo(|cfg.ranges|), t)
  {
    var k :| 0 <= k < |cfg.ranges| && Claims(cfg.ranges[k], t.addr, t.len) && cfg.words(k, t.rdnwr, t.len) == t.len;
    assert k in UpTo(|cfg.ranges|);
    forall i | 0 <= i < |cfg.ranges| && Claims(cfg.ranges[i], t.addr, t.len)
      ensures cfg.words(i, t.rdnwr, t.len) == t.len
    {
      OneSlaveAnswers(cfg.ranges, k, i, t.addr, t.len);
    }
  }

  lemma ServedIsSound(cfg: Config, ts: iset<Transfer>, trace: seq<State>, labels: seq<Label>, n: nat)
    requires cfg.Valid() && Traffic(cfg, ts, trace, labels) && n < |trace|
    requires forall t | t in ts :: WellFormed(t) && Served(cfg, t)
    ensures NobodyLost(trace[n]) && !BusFailures.Dead(trace[n])
  {
    hide Run, NobodyLost, BusFailures.Dead, Served, AnsweredBy, Legal, WellFormed;
    var all := UpTo(|cfg.ranges|);
    forall i | 0 <= i < |labels|
      ensures Prompt(cfg, all, labels[i])
    {
      if labels[i].Issue? {
        ServedIsLegal(cfg, labels[i].t);
      }
    }
    PromptRunIsGood(cfg, all, trace, labels);
    RunKeepsInv(cfg, trace, labels, n);
    BusFailures.NeverDead(cfg, trace[n]);
  }

  /** The bus is sound for some traffic, with two masters or more, if and only if every transfer in it is claimed by a
      slave that moves exactly the words it names. */
  lemma SoundIffServed(cfg: Config, ts: iset<Transfer>)
    requires cfg.Valid() && cfg.masters >= 2 && forall t | t in ts :: WellFormed(t)
    ensures Sound(cfg, ts) <==> forall t | t in ts :: Served(cfg, t)
  {
    hide Run, NobodyLost, Lost, BusFailures.Dead, Served, WellFormed;
    if forall t | t in ts :: Served(cfg, t) {
      forall trace, labels, n: nat | Traffic(cfg, ts, trace, labels) && n < |trace|
        ensures NobodyLost(trace[n]) && !BusFailures.Dead(trace[n])
      {
        ServedIsSound(cfg, ts, trace, labels, n);
      }
    }
    if t :| t in ts && !Served(cfg, t) {
      var p := UnservedIsUnsound(cfg, t);
      assert Traffic(cfg, ts, p.Trace(), p.labels);
      assert p.Trace()[|p.before|] == p.end;
      LostIsSomebody(p.end);
      assert !Sound(cfg, ts);
    }
  }

  lemma LostIsSomebody(s: State)
    ensures Lost(s, 0) ==> !NobodyLost(s)
  {}

  // The four slaves of the project.

  /** The words the threads of the card, the crypto block and the encoder move for a request; the memory is the fourth. */
  function ProjectWords(k: nat, rdnwr: bool, len: Unsigned): Unsigned {
    match k
    case 0 => if rdnwr || len < 2 then 1 else 2
    case 1 => if rdnwr then 0 else 4
    case 2 => if rdnwr then 1 else 2
    case _ => len
  }

  function Project(masters: Unsigned, initial: seq<Unsigned>): Config {
    Config(masters, [NIC, CRYPTO, ENCODER, MEMORY], 3, initial, ProjectWords)
  }

  lemma ProjectIsValid(masters: Unsigned, initial: seq<Unsigned>)
    requires |initial| == 3000000
    ensures Project(masters, initial).Valid()
  {
    ProjectRangesDisjoint();
  }

  /** What can be asked for on the project's bus: anything in the memory; one word read from the card or the encoder, one
      or two written to the card, two written to the encoder from its first address on, four written to the crypto block
      from its first address on; and nothing read from the crypto block. */
  lemma ProjectServes(masters: Unsigned, initial: seq<Unsigned>, t: Transfer)
    requires WellFormed(t)
    ensures Served(Project(masters, initial), t) <==>
            || (t.addr >= 11 && t.addr + t.len <= 11 + 3000000)
            || (t.addr + t.len <= 2 && (t.rdnwr ==> t.len == 1))
            || (t.addr == 3 && t.len == 4 && !t.rdnwr)
            || (8 <= t.addr <= 9 && t.len == 1 && t.rdnwr)
            || (t.addr == 8 && t.len == 2 && !t.rdnwr)
  {
    var cfg := Project(masters, initial);
    assert Served(cfg, t) <==>
           exists k :: 0 <= k < 4 && Claims(cfg.ranges[k], t.addr, t.len) && cfg.words(k, t.rdnwr, t.len) == t.len;
    assert cfg.ranges[0] == NIC && cfg.ranges[1] == CRYPTO && cfg.ranges[2] == ENCODER && cfg.ranges[3] == MEMORY;
  }
}
