/** The processes of the bus as code that updates the bus object, the memory's array and the places where the processes
    wait; one method for each choice of the scheduler, proved against `BusSystem.Next`. */
module BusMachine {
  import opened Bus
  import opened BusSystem
  import opened BusInvariant
  import opened BusRuns

  class Machine {
    const cfg: Config
    const bus: Bus
    const memory: array<Unsigned>
    var arbiter: Arbiter
    var masters: seq<Master>
    var slaves: seq<Slave>
    ghost var h: History

    constructor (cfg: Config, currentReq: Request, busData: Unsigned, receivedResponse: bool)
      requires cfg.memorySlave < |cfg.ranges|
      ensures Valid() && this.cfg == cfg && fresh(bus) && fresh(memory)
      ensures State() == Initial(cfg, Fields([], currentReq, busData, receivedResponse))
      ensures cfg.Valid() ==> Inv(cfg, State())
    {
      this.cfg := cfg;
      bus := new Bus(currentReq, busData, receivedResponse);
      memory := new Unsigned[|cfg.initial|](i requires 0 <= i < |cfg.initial| => cfg.initial[i]);
      arbiter := Arbiter(ArbiterStart, true);
      masters := seq(cfg.masters, _ => Master(Idle, false));
      slaves := seq(|cfg.ranges|, _ => Slave(SlaveStart, true));
      h := History([], 0, 0, [], [], []);
      new;
      assert memory[..] == cfg.initial;
      if cfg.Valid() {
        InitialInv(cfg, bus.State());
        assert PhaseInv(cfg, State(), Boot, false);
      }
    }

    ghost predicate Valid()
      reads this
    {
      cfg.memorySlave < |cfg.ranges| == |slaves|
    }

    ghost function State(): State
      reads this, bus, memory
    {
      BusSystem.State(bus.State(), arbiter, masters, slaves, memory[..], h)
    }

    /** Who waits for the event becomes runnable. */
    method Notify(e: Event)
      requires Valid()
      modifies this
      ensures Valid() && State() == BusSystem.Notify(old(State()), e)
    {
      if ArbiterEvent(arbiter.at) == Notice(e) {
        arbiter := arbiter.(awake := true);
      }
      masters, slaves := WokenMasters(masters, e), WokenSlaves(slaves, e);
    }

    // The arbiter.

    method Announce()
      requires Valid() && bus.queue != []
      modifies this, bus
      ensures Valid() && State() == Take(old(State()))
    {
      var e := bus.ArbiterAnnounce();
      h := h.(granted := h.granted + 1, wire := []);
      Notify(e);
      arbiter := Arbiter(AckOrTimeout, false);
    }

    // The head of the loop.
    method ArbiterLoop()
      requires Valid()
      modifies this, bus
      ensures Valid() && State() == TakeOrWait(old(State()))
    {
      if bus.queue == [] {
        arbiter := Arbiter(NoRequest, false);
      } else {
        Announce();
      }
    }

    method Acknowledge()
      requires Valid()
      modifies this, bus
      ensures Valid() && State() == BusSystem.Acknowledge(old(State()))
    {
      var e, waitForEnd := bus.ArbiterAcknowledge();
      Notify(e);
      if waitForEnd {
        arbiter := Arbiter(TransferEnd, false);
      } else {
        h := h.(done := h.done + [Unclaimed]);
        ArbiterLoop();
      }
    }

    method RunArbiter()
      requires Valid() && Enabled(cfg, State(), Label.RunArbiter)
      modifies this, bus
      ensures Valid() && State() == Next(cfg, old(State()), Label.RunArbiter)
    {
      match arbiter.at {
        case ArbiterStart => ArbiterLoop();
        case NoRequest => Announce();
        case AckOrTimeout => arbiter := Arbiter(GapCycle, false);
        case GapCycle => Acknowledge();
        case TransferEnd => ArbiterLoop();
      }
    }

    // A master.

    method MasterWaits(m: Unsigned, at: MasterAt)
      requires Valid() && m < |masters|
      modifies this`masters
      ensures Valid() && State() == BusSystem.MasterWaits(old(State()), m, at)
    {
      masters := masters[m := Master(at, false)];
    }

    method Issue(m: Unsigned, t: Transfer)
      requires Valid() && Enabled(cfg, State(), Label.Issue(m, t))
      modifies this`masters
      ensures Valid() && State() == Next(cfg, old(State()), Label.Issue(m, t))
    {
      MasterWaits(m, Requesting(t));
    }

    method Push(m: Unsigned, t: Transfer)
      requires Valid() && m < |masters|
      modifies this, bus
      ensures Valid() && State() == BusSystem.Push(old(State()), m, t)
    {
      var e := bus.MstPush(m, t.rdnwr, t.addr, t.len);
      h := h.(pushed := h.pushed + [Ticket(m, t)]);
      Notify(e);
      MasterWaits(m, AwaitGrant(t));
    }

    // MasterDataTransfer returns.
    method Return(m: Unsigned, ghost ack: bool, ghost words: seq<Unsigned>)
      requires Valid() && m < |masters|
      modifies this
      ensures Valid() && State() == Returns(old(State()), m, ack, words)
    {
      MasterWaits(m, Idle);
      h := h.(returned := h.returned + [BusSystem.Return(m, ack, words)]);
    }

    // The head of the read loop.
    method ReadOn(m: Unsigned, t: Transfer, got: seq<Unsigned>)
      requires Valid() && m < |masters|
      modifies this
      ensures Valid() && State() == BusSystem.ReadOn(old(State()), m, t, got)
    {
      if |got| < t.len {
        Notify(MstReady);
        MasterWaits(m, AwaitData(t, got));
      } else {
        Return(m, true, got);
      }
    }

    // The head of the write loop.
    method WriteOn(m: Unsigned, t: Transfer, i: nat)
      requires Valid() && m < |masters|
      modifies this
      ensures Valid() && State() == BusSystem.WriteOn(old(State()), m, t, i)
    {
      if i < t.len {
        MasterWaits(m, Driving(t, i));
      } else {
        Return(m, true, []);
      }
    }

    method LookAtReply(m: Unsigned, t: Transfer)
      requires Valid() && m < |masters|
      modifies this
      ensures Valid() && State() == BusSystem.LookAtReply(old(State()), m, t)
    {
      var mine, ack := bus.MstTakeReply(m);
      if !mine {
        MasterWaits(m, AwaitGrant(t));
      } else if !ack {
        Return(m, false, []);
      } else if t.rdnwr {
        ReadOn(m, t, []);
      } else {
        WriteOn(m, t, 0);
      }
    }

    method Latch(m: Unsigned, t: Transfer, got: seq<Unsigned>)
      requires Valid() && m < |masters|
      modifies this, bus
      ensures Valid() && State() == BusSystem.Latch(old(State()), m, t, got)
    {
      var data, over := bus.MstLatch();
      if over {
        MasterWaits(m, Ending(t, got + [data]));
      } else {
        ReadOn(m, t, got + [data]);
      }
    }

    method EndRead(m: Unsigned, t: Transfer, got: seq<Unsigned>)
      requires Valid() && m < |masters|
      modifies this
      ensures Valid() && State() == BusSystem.EndRead(old(State()), m, t, got)
    {
      Notify(EndOfTransfer);
      h := h.(done := h.done + [Served(h.owner, h.wire, got)]);
      ReadOn(m, t, got);
    }

    // A word is put on the bus, by either side.
    method OnWire(w: Unsigned)
      requires Valid()
      modifies this, bus
      ensures Valid() && State() == BusSystem.OnWire(old(State()), w)
    {
      var e := bus.PutWord(w);
      h := h.(wire := h.wire + [w]);
      Notify(e);
    }

    method RunMaster(m: Unsigned)
      requires Valid() && Enabled(cfg, State(), Label.RunMaster(m))
      modifies this, bus
      ensures Valid() && State() == Next(cfg, old(State()), Label.RunMaster(m))
    {
      hide BusSystem.Push, BusSystem.LookAtReply, BusSystem.Latch, BusSystem.EndRead, BusSystem.WriteOn;
      match masters[m].at {
        case Idle =>
        case Requesting(t) => Push(m, t);
        case AwaitGrant(t) => LookAtReply(m, t);
        case AwaitData(t, got) => MasterWaits(m, Latching(t, got));
        case Latching(t, got) => Latch(m, t, got);
        case Ending(t, got) => EndRead(m, t, got);
        case Driving(t, i) =>
          OnWire(t.data[i]);
          MasterWaits(m, AwaitTaken(t, i));
        case AwaitTaken(t, i) => WriteOn(m, t, i + 1);
      }
    }

    // A slave.

    method SlaveWaits(k: nat, at: SlaveAt)
      requires Valid() && k < |slaves|
      modifies this`slaves
      ensures Valid() && State() == BusSystem.SlaveWaits(old(State()), k, at)
    {
      slaves := slaves[k := Slave(at, false)];
    }

    method Rest(k: nat, busy: bool)
      requires Valid() && k < |slaves|
      modifies this`slaves
      ensures Valid() && State() == Rests(old(State()), k, busy)
    {
      SlaveWaits(k, if busy then Busy else Listening);
    }

    method Hear(k: nat)
      requires Valid() && k < |slaves|
      modifies this, bus
      ensures Valid() && State() == BusSystem.Hear(cfg, old(State()), k)
    {
      var addr, rdnwr, len := bus.SlvListen();
      if !Claims(cfg.ranges[k], addr, len) {
        SlaveWaits(k, Listening);
      } else {
        var e := bus.SlvAcknowledge();
        h := h.(owner := k);
        Notify(e);
        var n := cfg.words(k, rdnwr, len);
        SlaveWaits(k, if n == 0 then Listening else if rdnwr then Sending(addr, n, []) else Receiving(addr, n, []));
      }
    }

    method Send(k: nat, addr: Unsigned, len: Unsigned, out: seq<Unsigned>, w: Unsigned, busy: bool)
      requires Valid() && k < |slaves|
      modifies this, bus
      ensures Valid() && State() == BusSystem.Send(old(State()), k, addr, len, out, w, busy)
      ensures bus.busData == w
    {
      OnWire(w);
      if |out| + 1 < len {
        SlaveWaits(k, Sending(addr, len, out + [w]));
      } else {
        Rest(k, busy);
      }
    }

    // Write of the memory.
    method Store(k: nat, addr: Unsigned, i: nat, w: Unsigned)
      requires Valid() && (k == cfg.memorySlave ==> 0 <= Cell(cfg, addr, i) < memory.Length)
      modifies memory
      ensures Valid() && State() == BusSystem.Store(cfg, old(State()), k, addr, i, w)
      ensures k == cfg.memorySlave ==> memory[addr - cfg.ranges[k].lo + i] == w
    {
      if k == cfg.memorySlave {
        memory[Cell(cfg, addr, i)] := w;
      }
    }

    // The head of the write loop.
    method ReceiveOn(k: nat, addr: Unsigned, len: Unsigned, inn: seq<Unsigned>, busy: bool)
      requires Valid() && k < |slaves|
      modifies this`slaves
      ensures Valid() && State() == BusSystem.ReceiveOn(old(State()), k, addr, len, inn, busy)
    {
      if |inn| < len {
        SlaveWaits(k, Receiving(addr, len, inn));
      } else {
        Rest(k, busy);
      }
    }

    method Receive(k: nat, addr: Unsigned, len: Unsigned, inn: seq<Unsigned>, busy: bool)
      requires Valid() && k < |slaves| && (k == cfg.memorySlave ==> 0 <= Cell(cfg, addr, |inn|) < memory.Length)
      modifies this, bus, memory
      ensures Valid() && State() == BusSystem.Receive(cfg, old(State()), k, addr, len, inn, busy)
      ensures k == cfg.memorySlave && !slaves[k].at.Closing? ==> memory[addr - cfg.ranges[k].lo + |inn|] == old(bus.busData)
    {
      var w, over, e := bus.SlvTake();
      Notify(e);
      if over {
        SlaveWaits(k, Closing(addr, len, inn, w));
      } else {
        Store(k, addr, |inn|, w);
        ReceiveOn(k, addr, len, inn + [w], busy);
      }
    }

    method EndWrite(k: nat, addr: Unsigned, len: Unsigned, inn: seq<Unsigned>, w: Unsigned, busy: bool)
      requires Valid() && k < |slaves| && (k == cfg.memorySlave ==> 0 <= Cell(cfg, addr, |inn|) < memory.Length)
      modifies this, memory
      ensures Valid() && State() == BusSystem.EndWrite(cfg, old(State()), k, addr, len, inn, w, busy)
      ensures k == cfg.memorySlave ==> memory[addr - cfg.ranges[k].lo + |inn|] == w
    {
      Notify(EndOfTransfer);
      h := h.(done := h.done + [Served(k, h.wire, inn + [w])]);
      Store(k, addr, |inn|, w);
      ReceiveOn(k, addr, len, inn + [w], busy);
    }

    method RunSlave(k: nat, w: Unsigned, busy: bool)
      requires Valid() && Enabled(cfg, State(), Label.RunSlave(k, w, busy))
      modifies this, bus, memory
      ensures Valid() && State() == Next(cfg, old(State()), Label.RunSlave(k, w, busy))
      ensures k == cfg.memorySlave && old(slaves[k].at.Sending?) ==>
                bus.busData == old(memory[slaves[k].at.addr - cfg.ranges[k].lo + |slaves[k].at.out|])
      ensures k == cfg.memorySlave && old(slaves[k].at.Closing?) ==>
                memory[old(slaves[k].at.addr - cfg.ranges[k].lo + |slaves[k].at.inn|)] == old(slaves[k].at.last)
      ensures k == cfg.memorySlave && old(slaves[k].at.Receiving?) && !slaves[k].at.Closing? ==>
                memory[old(slaves[k].at.addr - cfg.ranges[k].lo + |slaves[k].at.inn|)] == old(bus.busData)
    {
      hide BusSystem.Hear, BusSystem.Send, BusSystem.Receive, BusSystem.EndWrite;
      match slaves[k].at {
        case SlaveStart => SlaveWaits(k, Listening);
        case Listening => Hear(k);
        case Sending(addr, len, out) =>
          var word := if k == cfg.memorySlave then memory[Cell(cfg, addr, |out|)] else w;
          Send(k, addr, len, out, word, busy);
        case Receiving(addr, len, inn) => Receive(k, addr, len, inn, busy);
        case Closing(addr, len, inn, last) => EndWrite(k, addr, len, inn, last, busy);
        case Busy => SlaveWaits(k, Listening);
      }
    }

    // Time.

    method Advance(arb: bool, ms: set<nat>, ss: set<nat>)
      requires Valid() && Enabled(cfg, State(), Label.Advance(arb, ms, ss))
      modifies this
      ensures Valid() && State() == Next(cfg, old(State()), Label.Advance(arb, ms, ss))
    {
      if arb {
        arbiter := arbiter.(awake := true);
      }
      var p, q := masters, slaves;
      masters := seq(|p|, i requires 0 <= i < |p| => if i in ms then p[i].(awake := true) else p[i]);
      slaves := seq(|q|, i requires 0 <= i < |q| => if i in ss then q[i].(awake := true) else q[i]);
    }

    /** Any choice of the scheduler. A legal, disciplined one keeps the invariant. */
    method Step(l: Label)
      requires Valid() && Enabled(cfg, State(), l)
      modifies this, bus, memory
      ensures Valid() && State() == Next(cfg, old(State()), l)
      ensures old(Inv(cfg, State())) && LegalLabel(cfg, l) && old(Disciplined(State(), l)) ==> Inv(cfg, State())
    {
      ghost var s := State();
      match l {
        case Issue(m, t) => Issue(m, t);
        case RunMaster(m) => RunMaster(m);
        case RunSlave(k, w, busy) => RunSlave(k, w, busy);
        case RunArbiter => RunArbiter();
        case Advance(arb, ms, ss) => Advance(arb, ms, ss);
      }
      if Inv(cfg, s) && LegalLabel(cfg, l) && Disciplined(s, l) {
        ghost var ph, recent :| PhaseInv(cfg, s, ph, recent);
        ghost var ph', recent' := StepKeeps(cfg, s, ph, recent, l);
        assert PhaseInv(cfg, State(), ph', recent');
      }
    }
  }
}
