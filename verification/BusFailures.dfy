/** What goes wrong outside the conditions of use: an unanswered request before others, and a request of no words. */
module BusFailures {
  import opened Bus
  import opened BusSystem
  import opened BusInvariant
  import opened BusHazards
  import opened BusTheorems

  /** The arbiter waits for the end of a transfer in which nobody moves: no master is in it, or one that waits for a word
      to come or to be taken; and no slave has a word to move. */
  ghost predicate Dead(s: State) {
    && s.arbiter == Arbiter(TransferEnd, false)
    && (forall m | 0 <= m < |s.masters| ::
          s.masters[m].at == Idle || s.masters[m].at.Requesting?
          || (s.masters[m].at.AwaitGrant? && (s.masters[m].awake ==> s.bus.currentReq.id != m))
          || ((s.masters[m].at.AwaitData? || s.masters[m].at.AwaitTaken?) && !s.masters[m].awake))
    && (forall k | 0 <= k < |s.slaves| ::
          !s.slaves[k].at.Closing? && (s.slaves[k].awake ==> !SlaveMoves(s.slaves[k].at)))
  }

  lemma DeadMasterStep(s: State, m: Unsigned)
    requires Dead(s) && m < |s.masters| && s.masters[m].awake
    ensures Dead(MasterStep(s, m)) && MasterStep(s, m).h.granted == s.h.granted
  {}

  lemma DeadSlaveStep(cfg: Config, s: State, k: nat, w: Unsigned, busy: bool)
    requires Dead(s) && cfg.memorySlave < |cfg.ranges| == |s.slaves| && k < |s.slaves| && InArray(cfg, s, k)
    requires s.slaves[k].awake
    ensures Dead(SlaveStep(cfg, s, k, w, busy)) && SlaveStep(cfg, s, k, w, busy).h.granted == s.h.granted
  {
    hide Send, Receive, EndWrite;
  }

  /** A dead bus stays dead: no request is ever granted again. */
  lemma DeadForever(cfg: Config, s: State, l: Label)
    requires Dead(s) && cfg.memorySlave < |cfg.ranges| == |s.slaves| && Enabled(cfg, s, l)
    ensures Dead(Next(cfg, s, l)) && Next(cfg, s, l).h.granted == s.h.granted
  {
    hide MasterStep, SlaveStep, ArbiterStep, InArray;
    match l
    case RunMaster(m) => DeadMasterStep(s, m);
    case RunSlave(k, w, busy) => DeadSlaveStep(cfg, s, k, w, busy);
    case _ =>
  }

  /** No run that keeps to the conditions of use gets there: the invariant excludes a dead bus. */
  lemma NeverDead(cfg: Config, s: State)
    requires Inv(cfg, s)
    ensures !Dead(s)
  {
    hide QueueOk, MemoryOk, RecordsOk, ReturnsOk, MastersOk, SlavesOk, WireOk;
    var ph, recent :| PhaseInv(cfg, s, ph, recent);
    assert ArbiterOk(s, ph, recent);
    if Current(ph) && !ph.Open? {
      assert MasterAtOk(s, ph, recent) && SlaveAtOk(cfg, s, ph, recent) && BusOk(s, ph);
    }
  }

  /** When the answer to a request is passed on and its master looks at it while nobody else is moving words, the bus is
      dead afterwards exactly if the request asks for no words, or is a read and no slave is about to send. */
  lemma ZeroLengthStopsTheBus(s: State, m: Unsigned, t: Transfer)
    requires s.arbiter == Arbiter(GapCycle, true) && s.bus.receivedResponse && s.bus.currentReq.id == m
    requires m < |s.masters| && s.masters[m].at == AwaitGrant(t)
    requires forall i | 0 <= i < |s.masters| :: s.masters[i].at == Idle || s.masters[i].at.Requesting? || s.masters[i].at.AwaitGrant?
    requires forall k | 0 <= k < |s.slaves| :: !s.slaves[k].at.Closing? && (s.slaves[k].awake ==> !SlaveMoves(s.slaves[k].at))
    ensures var a := ArbiterStep(s);
            && m < |a.masters| && a.masters[m] == Master(AwaitGrant(t), true)
            && (Dead(MasterStep(a, m)) <==> t.len == 0 || (t.rdnwr && forall k | 0 <= k < |s.slaves| :: !s.slaves[k].at.Sending?))
  {
    var a := ArbiterStep(s);
    var b := MasterStep(a, m);
    if t.len > 0 && !t.rdnwr {
      assert b.masters[m].at.Driving?;
    } else if k :| t.len > 0 && 0 <= k < |s.slaves| && s.slaves[k].at.Sending? {
      assert b.slaves[k].awake;
    }
  }

  // A request for no words of the memory.

  const EMPTY := Request(0, false, 0, 0, 0)

  // A slave that moves as many words as named.
  function AsNamed(k: nat, rdnwr: bool, len: Unsigned): Unsigned {
    len
  }

  /** A master and a memory of one word. */
  const ONE_MASTER := Config(1, [Range(0, 1)], 0, [7], AsNamed)

  function Alone(queue: seq<Request>, current: Request, response: bool, arbiter: Arbiter, master: Master, slave: Slave, h: History): State {
    State(Fields(queue, current, 0, response), arbiter, [master], [slave], [7], h)
  }

  /** The states of the run in which the master asks for t. */
  function AloneStage(t: Transfer, i: nat): State
    requires i < 12
  {
    var r, start, asked := RequestOf(Ticket(0, t)), History([], 0, 0, [], [], []), History([Ticket(0, t)], 0, 0, [], [], []);
    var taken := asked.(granted := 1);
    match i
    case 0 => Alone([], EMPTY, false, Arbiter(ArbiterStart, true), Master(Idle, false), Slave(SlaveStart, true), start)
    case 1 => Alone([], EMPTY, false, Arbiter(ArbiterStart, true), Master(Idle, false), Slave(Listening, false), start)
    case 2 => Alone([], EMPTY, false, Arbiter(NoRequest, false), Master(Idle, false), Slave(Listening, false), start)
    case 3 => Alone([], EMPTY, false, Arbiter(NoRequest, false), Master(Requesting(t), false), Slave(Listening, false), start)
    case 4 => Alone([], EMPTY, false, Arbiter(NoRequest, false), Master(Requesting(t), true), Slave(Listening, false), start)
    case 5 => Alone([r], EMPTY, false, Arbiter(NoRequest, true), Master(AwaitGrant(t), false), Slave(Listening, false), asked)
    case 6 => Alone([], r, false, Arbiter(AckOrTimeout, false), Master(AwaitGrant(t), false), Slave(Listening, true), taken)
    case 7 => Alone([], r, true, Arbiter(AckOrTimeout, true), Master(AwaitGrant(t), false), Slave(Listening, false), taken)
    case 8 => Alone([], r, true, Arbiter(GapCycle, false), Master(AwaitGrant(t), false), Slave(Listening, false), taken)
    case 9 => Alone([], r, true, Arbiter(GapCycle, true), Master(AwaitGrant(t), false), Slave(Listening, false), taken)
    case 10 => Alone([], r, true, Arbiter(TransferEnd, false), Master(AwaitGrant(t), true), Slave(Listening, false), taken)
    case _ =>
      Alone([], r, true, Arbiter(TransferEnd, false), Master(Idle, false), Slave(Listening, false),
        taken.(returned := [Return(0, true, [])]))
  }

  /** The steps between them. */
  function AloneChoice(t: Transfer, i: nat): Label
    requires i < 11
  {
    match i
    case 0 => RunSlave(0, 0, false)
    case 1 => RunArbiter
    case 2 => Issue(0, t)
    case 3 => Advance(false, {0}, {})
    case 4 => RunMaster(0)
    case 5 => RunArbiter
    case 6 => RunSlave(0, 0, false)
    case 7 => RunArbiter
    case 8 => Advance(true, {}, {})
    case 9 => RunArbiter
    case _ => RunMaster(0)
  }

  /** A transfer of no words that the memory answers. */
  predicate NoWords(t: Transfer) {
    t.len == 0 && t.data == [] && Claims(Range(0, 1), t.addr, 0)
  }

  ghost predicate AloneFollows(t: Transfer, i: nat)
    requires i < 11
  {
    && Enabled(ONE_MASTER, AloneStage(t, i), AloneChoice(t, i))
    && Next(ONE_MASTER, AloneStage(t, i), AloneChoice(t, i)) == AloneStage(t, i + 1)
  }

  lemma NoWordsAsked(t: Transfer, i: nat)
    requires NoWords(t) && 0 <= i < 6
    ensures AloneFollows(t, i)
  {
    var s, s' := Next(ONE_MASTER, AloneStage(t, i), AloneChoice(t, i)), AloneStage(t, i + 1);
    assert s.masters == s'.masters && s.slaves == s'.slaves;
  }

  lemma NoWordsAnswered(t: Transfer, i: nat)
    requires NoWords(t) && 6 <= i < 11
    ensures AloneFollows(t, i)
  {
    var s, s' := Next(ONE_MASTER, AloneStage(t, i), AloneChoice(t, i)), AloneStage(t, i + 1);
    assert s.masters == s'.masters && s.slaves == s'.slaves;
  }

  lemma AloneEnds(t: Transfer)
    ensures ONE_MASTER.Valid() && AloneStage(t, 0).bus.queue == [] && Initial(ONE_MASTER, AloneStage(t, 0).bus) == AloneStage(t, 0)
    ensures Dead(AloneStage(t, 11)) && AloneStage(t, 11).h.returned == [Return(0, true, [])]
  {
    assert Initial(ONE_MASTER, AloneStage(t, 0).bus).masters == AloneStage(t, 0).masters;
    assert Initial(ONE_MASTER, AloneStage(t, 0).bus).slaves == AloneStage(t, 0).slaves;
  }

  lemma AloneHasOneSlave(t: Transfer, i: nat)
    requires i < 12
    ensures |AloneStage(t, i).slaves| == 1
  {}

  /** Every transfer of no words that the memory answers has a run in which its call returns, acknowledged, and the bus is
      dead: its master alone, and no other call. */
  lemma NoWordsRun(t: Transfer) returns (trace: seq<State>, labels: seq<Label>)
    requires NoWords(t)
    ensures ONE_MASTER.Valid() && Run(ONE_MASTER, trace, labels)
    ensures forall i | 0 <= i < |labels| :: labels[i].Issue? ==> labels[i].t == t
    ensures Dead(trace[|trace| - 1]) && trace[|trace| - 1].h.returned == [Return(0, true, [])]
  {
    hide Next, Enabled, AloneStage, Initial, Dead;
    trace := seq(12, i requires 0 <= i < 12 => AloneStage(t, i));
    labels := seq(11, i requires 0 <= i < 11 => AloneChoice(t, i));
    AloneEnds(t);
    forall i | 0 <= i < 11
      ensures AloneFollows(t, i) && |trace[i].slaves| == 1
    {
      AloneHasOneSlave(t, i);
      if i < 6 {
        NoWordsAsked(t, i);
      } else {
        NoWordsAnswered(t, i);
      }
    }
  }

  // A request nobody answers, with another one behind it in the queue.

  const FIRST := Ticket(0, Transfer(true, 5, 1, []))     // for an address no slave has
  const SECOND := Ticket(1, Transfer(true, 0, 1, []))    // for the memory

  /** Two masters and a memory of one word. */
  const TWO_MASTERS := Config(2, [Range(0, 1)], 0, [7], AsNamed)

  function Scene(bus: Fields, arbiter: Arbiter, m0: Master, m1: Master, slave: Slave, h: History): State {
    State(bus, arbiter, [m0, m1], [slave], [7], h)
  }

  /** The states of the run. */
  function Stage(i: nat): State
    requires i < 20
  {
    match i
    case 0 =>
      Scene(Fields([], EMPTY, 0, false), Arbiter(ArbiterStart, true),
        Master(Idle, false), Master(Idle, false), Slave(SlaveStart, true),
        History([], 0, 0, [], [], []))
    case 1 =>
      Scene(Fields([], EMPTY, 0, false), Arbiter(ArbiterStart, true),
        Master(Idle, false), Master(Idle, false), Slave(Listening, false),
        History([], 0, 0, [], [], []))
    case 2 =>
      Scene(Fields([], EMPTY, 0, false), Arbiter(NoRequest, false),
        Master(Idle, false), Master(Idle, false), Slave(Listening, false),
        History([], 0, 0, [], [], []))
    case 3 =>
      Scene(Fields([], EMPTY, 0, false), Arbiter(NoRequest, false),
        Master(Requesting(FIRST.t), false), Master(Idle, false), Slave(Listening, false),
        History([], 0, 0, [], [], []))
    case 4 =>
      Scene(Fields([], EMPTY, 0, false), Arbiter(NoRequest, false),
        Master(Requesting(FIRST.t), false), Master(Requesting(SECOND.t), false), Slave(Listening, false),
        History([], 0, 0, [], [], []))
    case 5 =>
      Scene(Fields([], EMPTY, 0, false), Arbiter(NoRequest, false),
        Master(Requesting(FIRST.t), true), Master(Requesting(SECOND.t), true), Slave(Listening, false),
        History([], 0, 0, [], [], []))
    case 6 =>
      Scene(Fields([RequestOf(FIRST)], EMPTY, 0, false), Arbiter(NoRequest, true),
        Master(AwaitGrant(FIRST.t), false), Master(Requesting(SECOND.t), true), Slave(Listening, false),
        History([FIRST], 0, 0, [], [], []))
    case 7 =>
      Scene(Fields([RequestOf(FIRST), RequestOf(SECOND)], EMPTY, 0, false), Arbiter(NoRequest, true),
        Master(AwaitGrant(FIRST.t), false), Master(AwaitGrant(SECOND.t), false), Slave(Listening, false),
        History([FIRST, SECOND], 0, 0, [], [], []))
    case 8 =>
      Scene(Fields([RequestOf(SECOND)], RequestOf(FIRST), 0, false), Arbiter(AckOrTimeout, false),
        Master(AwaitGrant(FIRST.t), false), Master(AwaitGrant(SECOND.t), false), Slave(Listening, true),
        History([FIRST, SECOND], 1, 0, [], [], []))
    case 9 =>
      Scene(Fields([RequestOf(SECOND)], RequestOf(FIRST), 0, false), Arbiter(AckOrTimeout, false),
        Master(AwaitGrant(FIRST.t), false), Master(AwaitGrant(SECOND.t), false), Slave(Listening, false),
        History([FIRST, SECOND], 1, 0, [], [], []))
    case 10 =>
      Scene(Fields([RequestOf(SECOND)], RequestOf(FIRST), 0, false), Arbiter(AckOrTimeout, true),
        Master(AwaitGrant(FIRST.t), false), Master(AwaitGrant(SECOND.t), false), Slave(Listening, false),
        History([FIRST, SECOND], 1, 0, [], [], []))
    case 11 =>
      Scene(Fields([RequestOf(SECOND)], RequestOf(FIRST), 0, false), Arbiter(GapCycle, false),
        Master(AwaitGrant(FIRST.t), false), Master(AwaitGrant(SECOND.t), false), Slave(Listening, false),
        History([FIRST, SECOND], 1, 0, [], [], []))
    case 12 =>
      Scene(Fields([RequestOf(SECOND)], RequestOf(FIRST), 0, false), Arbiter(GapCycle, true),
        Master(AwaitGrant(FIRST.t), false), Master(AwaitGrant(SECOND.t), false), Slave(Listening, false),
        History([FIRST, SECOND], 1, 0, [], [], []))
    case 13 =>
      Scene(Fields([], RequestOf(SECOND), 0, false), Arbiter(AckOrTimeout, false),
        Master(AwaitGrant(FIRST.t), true), Master(AwaitGrant(SECOND.t), true), Slave(Listening, true),
        History([FIRST, SECOND], 2, 0, [], [Unclaimed], []))
    case 14 =>
      Scene(Fields([], RequestOf(SECOND), 0, false), Arbiter(AckOrTimeout, false),
        Master(AwaitGrant(FIRST.t), true), Master(Idle, false), Slave(Listening, true),
        History([FIRST, SECOND], 2, 0, [], [Unclaimed], [Return(1, false, [])]))
    case 15 =>
      Scene(Fields([], RequestOf(SECOND), 0, true), Arbiter(AckOrTimeout, true),
        Master(AwaitGrant(FIRST.t), true), Master(Idle, false), Slave(Sending(0, 1, []), false),
        History([FIRST, SECOND], 2, 0, [], [Unclaimed], [Return(1, false, [])]))
    case 16 =>
      Scene(Fields([], RequestOf(SECOND), 0, true), Arbiter(AckOrTimeout, true),
        Master(AwaitGrant(FIRST.t), false), Master(Idle, false), Slave(Sending(0, 1, []), false),
        History([FIRST, SECOND], 2, 0, [], [Unclaimed], [Return(1, false, [])]))
    case 17 =>
      Scene(Fields([], RequestOf(SECOND), 0, true), Arbiter(GapCycle, false),
        Master(AwaitGrant(FIRST.t), false), Master(Idle, false), Slave(Sending(0, 1, []), false),
        History([FIRST, SECOND], 2, 0, [], [Unclaimed], [Return(1, false, [])]))
    case 18 =>
      Scene(Fields([], RequestOf(SECOND), 0, true), Arbiter(GapCycle, true),
        Master(AwaitGrant(FIRST.t), false), Master(Idle, false), Slave(Sending(0, 1, []), false),
        History([FIRST, SECOND], 2, 0, [], [Unclaimed], [Return(1, false, [])]))
    case _ =>
      Scene(Fields([], RequestOf(SECOND), 0, true), Arbiter(TransferEnd, false),
        Master(AwaitGrant(FIRST.t), true), Master(Idle, false), Slave(Sending(0, 1, []), false),
        History([FIRST, SECOND], 2, 0, [], [Unclaimed], [Return(1, false, [])]))
  }

  /** The steps between them. */
  function Choice(i: nat): Label
    requires i < 19
  {
    match i
    case 0 => RunSlave(0, 0, false)
    case 1 => RunArbiter
    case 2 => Issue(0, FIRST.t)
    case 3 => Issue(1, SECOND.t)
    case 4 => Advance(false, {0, 1}, {})
    case 5 => RunMaster(0)
    case 6 => RunMaster(1)
    case 7 => RunArbiter
    case 8 => RunSlave(0, 0, false)
    case 9 => Advance(true, {}, {})
    case 10 => RunArbiter
    case 11 => Advance(true, {}, {})
    case 12 => RunArbiter
    case 13 => RunMaster(1)
    case 14 => RunSlave(0, 0, false)
    case 15 => RunMaster(0)
    case 16 => RunArbiter
    case 17 => Advance(true, {}, {})
    case _ => RunArbiter
  }

  ghost predicate Follows(i: nat)
    requires i < 19
  {
    Enabled(TWO_MASTERS, Stage(i), Choice(i)) && Next(TWO_MASTERS, Stage(i), Choice(i)) == Stage(i + 1)
  }

  lemma CallsAreMade(i: nat)
    requires 0 <= i < 4
    ensures Follows(i)
  {
    var s, s' := Next(TWO_MASTERS, Stage(i), Choice(i)), Stage(i + 1);
    assert s.masters == s'.masters && s.slaves == s'.slaves;
  }

  lemma RequestsArePushed(i: nat)
    requires 4 <= i < 6
    ensures Follows(i)
  {
    var s, s' := Next(TWO_MASTERS, Stage(i), Choice(i)), Stage(i + 1);
    assert s.masters == s'.masters && s.slaves == s'.slaves;
  }

  lemma FirstIsGranted(i: nat)
    requires 6 <= i < 8
    ensures Follows(i)
  {
    var s, s' := Next(TWO_MASTERS, Stage(i), Choice(i)), Stage(i + 1);
    assert s.masters == s'.masters && s.slaves == s'.slaves;
  }

  lemma NobodyAnswers(i: nat)
    requires 8 <= i < 12
    ensures Follows(i)
  {
    var s, s' := Next(TWO_MASTERS, Stage(i), Choice(i)), Stage(i + 1);
    assert s.masters == s'.masters && s.slaves == s'.slaves;
  }

  lemma SecondIsGranted(i: nat)
    requires 12 <= i < 14
    ensures Follows(i)
  {
    var s, s' := Next(TWO_MASTERS, Stage(i), Choice(i)), Stage(i + 1);
    assert s.masters == s'.masters && s.slaves == s'.slaves;
  }

  lemma SecondIsAnswered(i: nat)
    requires 14 <= i < 17
    ensures Follows(i)
  {
    var s, s' := Next(TWO_MASTERS, Stage(i), Choice(i)), Stage(i + 1);
    assert s.masters == s'.masters && s.slaves == s'.slaves;
  }

  lemma AnswerIsTooLate(i: nat)
    requires 17 <= i < 19
    ensures Follows(i)
  {
    var s, s' := Next(TWO_MASTERS, Stage(i), Choice(i)), Stage(i + 1);
    assert s.masters == s'.masters && s.slaves == s'.slaves;
  }

  lemma FirstStage()
    ensures Stage(0).bus.queue == [] && Initial(TWO_MASTERS, Stage(0).bus) == Stage(0)
  {
    assert Initial(TWO_MASTERS, Stage(0).bus).masters == Stage(0).masters;
    assert Initial(TWO_MASTERS, Stage(0).bus).slaves == Stage(0).slaves;
  }

  lemma EveryStage(i: nat)
    requires i < 19
    ensures Follows(i) && LegalLabel(TWO_MASTERS, Choice(i)) && |Stage(i).slaves| == 1
  {
    assert LegalLabel(TWO_MASTERS, Choice(i)) && |Stage(i).slaves| == 1;
    hide Follows, Stage, Choice;
    if i < 4 {
      CallsAreMade(i);
    } else if i < 6 {
      RequestsArePushed(i);
    } else if i < 8 {
      FirstIsGranted(i);
    } else if i < 12 {
      NobodyAnswers(i);
    } else if i < 14 {
      SecondIsGranted(i);
    } else if i < 17 {
      SecondIsAnswered(i);
    } else {
      AnswerIsTooLate(i);
    }
  }

  lemma LastStage()
    ensures var s := Stage(19);
            && Lost(s, 0) && Dead(s)
            && s.h.returned == [Return(1, false, [])] && s.bus.currentReq.id == 1 && s.bus.receivedResponse
  {}

  /** A legal run in which the first request times out while the second is in the queue. The call of the first master
      never returns; that of the second returns without an acknowledge although the memory has answered it; and the bus
      is dead. */
  lemma OvertakenRequest() returns (trace: seq<State>, labels: seq<Label>)
    ensures TWO_MASTERS.Valid() && Run(TWO_MASTERS, trace, labels)
    ensures forall i | 0 <= i < |labels| :: LegalLabel(TWO_MASTERS, labels[i])
    ensures var s := trace[|trace| - 1];
            && Lost(s, 0) && Dead(s)
            && s.h.returned == [Return(1, false, [])] && s.bus.currentReq.id == 1 && s.bus.receivedResponse
  {
    hide Next, Enabled, Stage, Choice, Initial, LegalLabel, Lost, Dead;
    trace := seq(20, i requires 0 <= i < 20 => Stage(i));
    labels := seq(19, i requires 0 <= i < 19 => Choice(i));
    FirstStage();
    forall i | 0 <= i < 19
      ensures Follows(i) && LegalLabel(TWO_MASTERS, labels[i]) && |trace[i].slaves| == 1
    {
      EveryStage(i);
    }
    LastStage();
  }
}
