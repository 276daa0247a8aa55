/** One transfer with a device that moves a number of words of its own. */
module BusDevices {
  import opened Bus
  import opened BusSystem
  import BusFailures
  import opened BusPaths

  /** How many words slave k moves for t. */
  function Own(cfg: Config, k: nat, t: Transfer): Unsigned {
    cfg.words(k, t.rdnwr, t.len)
  }

  /** Master 0 has been granted t, c words have been counted, and everybody but master 0 and slave k waits. */
  ghost predicate Rolling(cfg: Config, t: Transfer, k: nat, s: State, arbiter: Arbiter, c: nat) {
    && |s.masters| == cfg.masters >= 2 && |s.slaves| == |cfg.ranges| && k < |cfg.ranges| && k != cfg.memorySlave
    && s.arbiter == arbiter && s.bus.queue == []
    && s.bus.currentReq == Requested(0, t).(bytesTransferred := c)
    && (forall m | 1 <= m < |s.masters| :: s.masters[m] == IDLE)
    && (forall i | 0 <= i < |s.slaves| && i != k :: s.slaves[i] == LISTENING)
  }

  const TRANSFER := Arbiter(TransferEnd, false)

  // Reads.

  predicate Waits(p: Master, t: Transfer, j: nat, awake: bool) {
    p.at.AwaitData? && p.at.t == t && |p.at.got| == j && p.awake == awake
  }

  predicate Latches(p: Master, t: Transfer, j: nat, awake: bool) {
    p.at.Latching? && p.at.t == t && |p.at.got| == j && p.awake == awake
  }

  predicate Ends(p: Master, t: Transfer, j: nat, awake: bool) {
    p.at.Ending? && p.at.t == t && |p.at.got| == j && p.awake == awake
  }

  /** The slave has sent j of its n words; after the last one it listens again. */
  predicate Sends(p: Slave, n: nat, j: nat, awake: bool) {
    if j < n then p.at.Sending? && p.at.len == n && |p.at.out| == j && p.awake == awake else p == LISTENING
  }

  /** The master has asked for word j of a read. */
  ghost predicate Asked(cfg: Config, t: Transfer, k: nat, s: State, j: nat) {
    && Rolling(cfg, t, k, s, TRANSFER, j) && j < t.len
    && Waits(s.masters[0], t, j, false) && Sends(s.slaves[k], Own(cfg, k, t), j, true)
  }

  ghost predicate Sent(cfg: Config, t: Transfer, k: nat, s: State, j: nat, p: (Master, Transfer, nat, bool) -> bool, awake: bool) {
    && Rolling(cfg, t, k, s, TRANSFER, j) && j < t.len
    && p(s.masters[0], t, j, awake) && Sends(s.slaves[k], Own(cfg, k, t), j + 1, false)
  }

  /** The master has the last word. */
  ghost predicate AllRead(cfg: Config, t: Transfer, k: nat, s: State, awake: bool) {
    && Rolling(cfg, t, k, s, TRANSFER, t.len)
    && Ends(s.masters[0], t, t.len, awake) && Sends(s.slaves[k], Own(cfg, k, t), t.len, false)
  }

  lemma WordSent(cfg: Config, t: Transfer, k: nat, s: State, j: nat)
    requires cfg.memorySlave < |cfg.ranges| && Asked(cfg, t, k, s, j) && j < Own(cfg, k, t)
    ensures Enabled(cfg, s, RunSlave(k, 0, false)) && Sent(cfg, t, k, Next(cfg, s, RunSlave(k, 0, false)), j, Waits, true)
  {}

  lemma WordSeen(cfg: Config, t: Transfer, k: nat, s: State, j: nat)
    requires cfg.memorySlave < |cfg.ranges| && Sent(cfg, t, k, s, j, Waits, true)
    ensures Enabled(cfg, s, RunMaster(0)) && Sent(cfg, t, k, Next(cfg, s, RunMaster(0)), j, Latches, false)
  {}

  lemma CycleEnds(cfg: Config, t: Transfer, k: nat, s: State, j: nat)
    requires cfg.memorySlave < |cfg.ranges| && Sent(cfg, t, k, s, j, Latches, false)
    ensures Enabled(cfg, s, Advance(false, {0}, {})) && Sent(cfg, t, k, Next(cfg, s, Advance(false, {0}, {})), j, Latches, true)
  {}

  lemma WordLatched(cfg: Config, t: Transfer, k: nat, s: State, j: nat)
    requires cfg.memorySlave < |cfg.ranges| && t.rdnwr && Sent(cfg, t, k, s, j, Latches, true)
    ensures Enabled(cfg, s, RunMaster(0))
    ensures var s' := Next(cfg, s, RunMaster(0));
            if j + 1 < t.len then Asked(cfg, t, k, s', j + 1) else AllRead(cfg, t, k, s', false)
  {}

  lemma EndCycleEnds(cfg: Config, t: Transfer, k: nat, s: State)
    requires cfg.memorySlave < |cfg.ranges| && AllRead(cfg, t, k, s, false)
    ensures Enabled(cfg, s, Advance(false, {0}, {})) && AllRead(cfg, t, k, Next(cfg, s, Advance(false, {0}, {})), true)
  {}

  /** The transfer is over; the slave is where it is. */
  ghost predicate Over(cfg: Config, t: Transfer, k: nat, s: State) {
    Rolling(cfg, t, k, s, Arbiter(TransferEnd, true), t.len) && s.masters[0] == IDLE
  }

  lemma ReadEnds(cfg: Config, t: Transfer, k: nat, s: State)
    requires cfg.memorySlave < |cfg.ranges| && AllRead(cfg, t, k, s, true)
    ensures Enabled(cfg, s, RunMaster(0))
    ensures var s' := Next(cfg, s, RunMaster(0)); Over(cfg, t, k, s') && s'.slaves[k] == s.slaves[k]
  {}

  // Writes.

  predicate Drives(p: Master, t: Transfer, j: nat, awake: bool) {
    p == Master(Driving(t, j), awake)
  }

  predicate AwaitsTaking(p: Master, t: Transfer, j: nat, awake: bool) {
    p == Master(AwaitTaken(t, j), awake)
  }

  /** The slave has taken j of its n words; after the last one it listens again. */
  predicate Receives(p: Slave, n: nat, j: nat, awake: bool) {
    if j < n then p.at.Receiving? && p.at.len == n && |p.at.inn| == j && p.awake == awake else p == LISTENING
  }

  /** The data cycle of word j of a write. */
  ghost predicate InCycle(cfg: Config, t: Transfer, k: nat, s: State, j: nat, awake: bool) {
    && Rolling(cfg, t, k, s, TRANSFER, j) && j < t.len == |t.data|
    && Drives(s.masters[0], t, j, awake) && Receives(s.slaves[k], Own(cfg, k, t), j, false)
  }

  /** Word j is on the bus. */
  ghost predicate Put(cfg: Config, t: Transfer, k: nat, s: State, j: nat) {
    && Rolling(cfg, t, k, s, TRANSFER, j) && j < t.len == |t.data|
    && AwaitsTaking(s.masters[0], t, j, false) && Receives(s.slaves[k], Own(cfg, k, t), j, true)
  }

  /** Word j has been taken: the last word of the transfer is followed by the slave's end cycle. */
  ghost predicate Taken(cfg: Config, t: Transfer, k: nat, s: State, j: nat) {
    && Rolling(cfg, t, k, s, TRANSFER, j + 1) && j < t.len == |t.data| && AwaitsTaking(s.masters[0], t, j, true)
    && if j + 1 < t.len then Receives(s.slaves[k], Own(cfg, k, t), j + 1, false) else Closes(s.slaves[k], Own(cfg, k, t), j, false)
  }

  predicate Closes(p: Slave, n: nat, j: nat, awake: bool) {
    p.at.Closing? && p.at.len == n && |p.at.inn| == j && p.awake == awake
  }

  ghost predicate AllTaken(cfg: Config, t: Transfer, k: nat, s: State, awake: bool) {
    && t.len >= 1 && Rolling(cfg, t, k, s, TRANSFER, t.len) && s.masters[0] == IDLE
    && Closes(s.slaves[k], Own(cfg, k, t), t.len - 1, awake)
  }

  lemma DataCycleEnds(cfg: Config, t: Transfer, k: nat, s: State, j: nat)
    requires cfg.memorySlave < |cfg.ranges| && InCycle(cfg, t, k, s, j, false)
    ensures Enabled(cfg, s, Advance(false, {0}, {})) && InCycle(cfg, t, k, Next(cfg, s, Advance(false, {0}, {})), j, true)
  {}

  lemma WordPut(cfg: Config, t: Transfer, k: nat, s: State, j: nat)
    requires cfg.memorySlave < |cfg.ranges| && InCycle(cfg, t, k, s, j, true)
    ensures Enabled(cfg, s, RunMaster(0)) && Put(cfg, t, k, Next(cfg, s, RunMaster(0)), j)
  {}

  lemma WordTaken(cfg: Config, t: Transfer, k: nat, s: State, j: nat)
    requires cfg.memorySlave < |cfg.ranges| && Put(cfg, t, k, s, j) && j < Own(cfg, k, t)
    ensures Enabled(cfg, s, RunSlave(k, 0, false)) && Taken(cfg, t, k, Next(cfg, s, RunSlave(k, 0, false)), j)
  {}

  lemma MasterGoesOn(cfg: Config, t: Transfer, k: nat, s: State, j: nat)
    requires cfg.memorySlave < |cfg.ranges| && Taken(cfg, t, k, s, j)
    ensures Enabled(cfg, s, RunMaster(0))
    ensures var s' := Next(cfg, s, RunMaster(0));
            if j + 1 < t.len then InCycle(cfg, t, k, s', j + 1, false) else AllTaken(cfg, t, k, s', false)
  {}

  lemma SlaveCycleEnds(cfg: Config, t: Transfer, k: nat, s: State)
    requires cfg.memorySlave < |cfg.ranges| && AllTaken(cfg, t, k, s, false)
    ensures Enabled(cfg, s, Advance(false, {}, {k})) && AllTaken(cfg, t, k, Next(cfg, s, Advance(false, {}, {k})), true)
  {}

  lemma WriteEnds(cfg: Config, t: Transfer, k: nat, s: State)
    requires cfg.memorySlave < |cfg.ranges| && AllTaken(cfg, t, k, s, true)
    ensures Enabled(cfg, s, RunSlave(k, 0, false))
    ensures var s' := Next(cfg, s, RunSlave(k, 0, false));
            Over(cfg, t, k, s') && Receives(s'.slaves[k], Own(cfg, k, t), t.len, false)
  {}

  // The whole call.

  /** The answer to the request has been passed on to master 0. */
  ghost predicate Granted(cfg: Config, t: Transfer, k: nat, s: State) {
    && Rolling(cfg, t, k, s, TRANSFER, 0) && s.bus.receivedResponse
    && s.masters[0] == Master(AwaitGrant(t), true) && s.slaves[k] == Answering(cfg, k, t)
  }

  lemma TransferBegins(cfg: Config, t: Transfer, k: nat, s: State)
    requires cfg.memorySlave < |cfg.ranges| && Granted(cfg, t, k, s) && t.len >= 1 && (!t.rdnwr ==> |t.data| == t.len)
    ensures Enabled(cfg, s, RunMaster(0))
    ensures var s' := Next(cfg, s, RunMaster(0)); if t.rdnwr then Asked(cfg, t, k, s', 0) else InCycle(cfg, t, k, s', 0, false)
  {}

  lemma ArbiterRests(cfg: Config, t: Transfer, k: nat, s: State)
    requires cfg.memorySlave < |cfg.ranges| && Over(cfg, t, k, s)
    ensures Enabled(cfg, s, RunArbiter) && Resting(cfg, Next(cfg, s, RunArbiter), k, s.slaves[k])
  {}

  /** Word j of a read that the slave still has, from one request of the master to the next. */
  lemma ReadsWord(cfg: Config, t: Transfer, p: Path, k: nat, j: nat) returns (p': Path)
    requires cfg.memorySlave < |cfg.ranges| && Walk(cfg, t, p) && t.rdnwr && Asked(cfg, t, k, p.end, j) && j < Own(cfg, k, t)
    ensures Walk(cfg, t, p')
    ensures if j + 1 < t.len then Asked(cfg, t, k, p'.end, j + 1) else AllRead(cfg, t, k, p'.end, false)
  {
    hide Walk, Next, Enabled, Waits, Latches, Sends, Own;
    WordSent(cfg, t, k, p.end, j);
    p' := Longer(cfg, t, p, RunSlave(k, 0, false));
    WordSeen(cfg, t, k, p'.end, j);
    p' := Longer(cfg, t, p', RunMaster(0));
    CycleEnds(cfg, t, k, p'.end, j);
    p' := Longer(cfg, t, p', Advance(false, {0}, {}));
    WordLatched(cfg, t, k, p'.end, j);
    p' := Longer(cfg, t, p', RunMaster(0));
  }

  lemma WritesWord(cfg: Config, t: Transfer, p: Path, k: nat, j: nat) returns (p': Path)
    requires cfg.memorySlave < |cfg.ranges| && Walk(cfg, t, p) && InCycle(cfg, t, k, p.end, j, false) && j < Own(cfg, k, t)
    ensures Walk(cfg, t, p')
    ensures if j + 1 < t.len then InCycle(cfg, t, k, p'.end, j + 1, false) else AllTaken(cfg, t, k, p'.end, false)
  {
    hide Walk, Next, Enabled, Drives, AwaitsTaking, Receives, Own;
    DataCycleEnds(cfg, t, k, p.end, j);
    p' := Longer(cfg, t, p, Advance(false, {0}, {}));
    WordPut(cfg, t, k, p'.end, j);
    p' := Longer(cfg, t, p', RunMaster(0));
    WordTaken(cfg, t, k, p'.end, j);
    p' := Longer(cfg, t, p', RunSlave(k, 0, false));
    MasterGoesOn(cfg, t, k, p'.end, j);
    p' := Longer(cfg, t, p', RunMaster(0));
  }

  /** The words that the slave and the transfer both have: then the master still asks, or the transfer is over. */
  lemma {:induction false} Reads(cfg: Config, t: Transfer, p: Path, k: nat, j: nat) returns (p': Path)
    requires cfg.memorySlave < |cfg.ranges| && Walk(cfg, t, p) && t.rdnwr && Asked(cfg, t, k, p.end, j) && j <= Own(cfg, k, t)
    ensures Walk(cfg, t, p')
    ensures if Own(cfg, k, t) < t.len then Asked(cfg, t, k, p'.end, Own(cfg, k, t)) else AllRead(cfg, t, k, p'.end, false)
    decreases t.len - j
  {
    hide Walk, Rolling, Waits, Sends;
    if j == Own(cfg, k, t) {
      p' := p;
    } else {
      p' := ReadsWord(cfg, t, p, k, j);
      if j + 1 < t.len {
        p' := Reads(cfg, t, p', k, j + 1);
      }
    }
  }

  lemma {:induction false} Writes(cfg: Config, t: Transfer, p: Path, k: nat, j: nat) returns (p': Path)
    requires cfg.memorySlave < |cfg.ranges| && Walk(cfg, t, p) && InCycle(cfg, t, k, p.end, j, false) && j <= Own(cfg, k, t)
    ensures Walk(cfg, t, p')
    ensures if Own(cfg, k, t) < t.len then InCycle(cfg, t, k, p'.end, Own(cfg, k, t), false)
            else AllTaken(cfg, t, k, p'.end, false)
    decreases t.len - j
  {
    hide Walk, Rolling, Drives, Receives;
    if j == Own(cfg, k, t) {
      p' := p;
    } else {
      p' := WritesWord(cfg, t, p, k, j);
      if j + 1 < t.len {
        p' := Writes(cfg, t, p', k, j + 1);
      }
    }
  }

  lemma StarvedIsDead(cfg: Config, t: Transfer, k: nat, s: State)
    requires Asked(cfg, t, k, s, Own(cfg, k, t)) || Put(cfg, t, k, s, Own(cfg, k, t))
    ensures BusFailures.Dead(s)
  {}

  /** A device that moves fewer words than the granted transfer names: the bus stops. */
  lemma TooFewWords(cfg: Config, t: Transfer, p: Path, k: nat) returns (p': Path)
    requires cfg.memorySlave < |cfg.ranges| && Walk(cfg, t, p) && Granted(cfg, t, k, p.end)
    requires t.len >= 1 && (!t.rdnwr ==> |t.data| == t.len) && Own(cfg, k, t) < t.len
    ensures Walk(cfg, t, p') && BusFailures.Dead(p'.end)
  {
    hide Walk, Next, Enabled, Waits, Sends, Drives, Receives, Own, Answering, BusFailures.Dead;
    TransferBegins(cfg, t, k, p.end);
    p' := Longer(cfg, t, p, RunMaster(0));
    if t.rdnwr {
      p' := Reads(cfg, t, p', k, 0);
    } else {
      p' := Writes(cfg, t, p', k, 0);
      var n := Own(cfg, k, t);
      DataCycleEnds(cfg, t, k, p'.end, n);
      p' := Longer(cfg, t, p', Advance(false, {0}, {}));
      WordPut(cfg, t, k, p'.end, n);
      p' := Longer(cfg, t, p', RunMaster(0));
    }
    StarvedIsDead(cfg, t, k, p'.end);
  }

  /** A device that has more words than the granted transfer names: the bus comes to rest, but the device still waits for
      another word. */
  lemma TooManyWords(cfg: Config, t: Transfer, p: Path, k: nat) returns (p': Path, slave: Slave)
    requires cfg.memorySlave < |cfg.ranges| && Walk(cfg, t, p) && Granted(cfg, t, k, p.end)
    requires t.len >= 1 && (!t.rdnwr ==> |t.data| == t.len) && Own(cfg, k, t) > t.len
    ensures Walk(cfg, t, p') && Resting(cfg, p'.end, k, slave) && !slave.awake && slave.at != Listening
  {
    hide Walk, Next, Enabled, Waits, Drives, Own, Answering, Resting;
    TransferBegins(cfg, t, k, p.end);
    p' := Longer(cfg, t, p, RunMaster(0));
    if t.rdnwr {
      p' := Reads(cfg, t, p', k, 0);
      EndCycleEnds(cfg, t, k, p'.end);
      p' := Longer(cfg, t, p', Advance(false, {0}, {}));
      ReadEnds(cfg, t, k, p'.end);
      p' := Longer(cfg, t, p', RunMaster(0));
    } else {
      p' := Writes(cfg, t, p', k, 0);
      SlaveCycleEnds(cfg, t, k, p'.end);
      p' := Longer(cfg, t, p', Advance(false, {}, {k}));
      WriteEnds(cfg, t, k, p'.end);
      p' := Longer(cfg, t, p', RunSlave(k, 0, false));
    }
    slave := p'.end.slaves[k];
    ArbiterRests(cfg, t, k, p'.end);
    p' := Longer(cfg, t, p', RunArbiter);
  }
}
