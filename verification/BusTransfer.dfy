/** The steps in which the master and the slave of the current request move words. */
module BusTransfer {
  import opened Bus
  import opened BusSystem
  import opened BusInvariant

  // Steps of the two participants of a transfer.

  predicate Moving(ph: Phase) {
    ph.Acked? || (InTransfer(ph) && !ph.WriteEnd?)
  }

  /** Only the master and the slave of the current request have moved. */
  ghost predicate Inside(cfg: Config, s: State, s': State)
    requires CurrentOk(s)
  {
    && s'.bus.queue == s.bus.queue && s'.arbiter == s.arbiter
    && s'.h == s.h.(wire := s'.h.wire)
    && |s'.masters| == |s.masters| && |s'.slaves| == |s.slaves| && |s'.memory| == |s.memory|
    && (forall m | 0 <= m < |s.masters| && m != Cur(s).id :: s'.masters[m] == s.masters[m])
    && (forall k | 0 <= k < |s.slaves| && k != s.h.owner :: s'.slaves[k] == s.slaves[k])
  }

  lemma CurrentNotQueued(cfg: Config, s: State, ph: Phase, recent: bool, i: nat)
    requires QueueOk(cfg, s, ph) && MasterInside(ph) && CurrentOk(s) && MasterAtOk(s, ph, recent)
    requires s.h.granted <= i < |s.h.pushed|
    ensures s.h.pushed[i].id != Cur(s).id
  {}

  lemma InsideQueue(cfg: Config, s: State, s': State, ph: Phase, ph': Phase, recent: bool)
    requires Moving(ph) && Moving(ph')
    requires CurrentOk(s) && Inside(cfg, s, s') && QueueOk(cfg, s, ph) && MasterAtOk(s, ph, recent)
    ensures QueueOk(cfg, s', ph')
  {
    hide MasterAtOk;
    forall i | s.h.granted <= i < |s.h.pushed|
      ensures s'.masters[s.h.pushed[i].id] == s.masters[s.h.pushed[i].id] && s.h.pushed[i].id != Cur(s).id
    {
      CurrentNotQueued(cfg, s, ph, recent, i);
    }
  }

  lemma InsideBystanders(cfg: Config, s: State, s': State, ph: Phase, ph': Phase, recent: bool)
    requires Moving(ph) && Moving(ph')
    requires |s.slaves| == |cfg.ranges| && CurrentOk(s) && Inside(cfg, s, s')
    requires MastersOk(cfg, s, ph, recent) && SlavesOk(cfg, s, ph, recent)
    requires SlaveInside(cfg, s', ph') || (s.h.owner < |s.slaves| ==> AtRest(cfg, s', ph', recent, s.h.owner))
    ensures MastersOk(cfg, s', ph', recent) && SlavesOk(cfg, s', ph', recent)
  {
    forall m | 0 <= m < |s.masters| && m != Cur(s).id ensures Bystander(cfg, s', ph', recent, m) {
      assert Bystander(cfg, s, ph, recent, m);
      assert Pending(s, m) ==> Pending(s', m);
    }
    forall k | 0 <= k < |s.slaves| && k != s.h.owner ensures AtRest(cfg, s', ph', recent, k) {
      assert AtRest(cfg, s, ph, recent, k);
    }
  }

  lemma InsideRest(cfg: Config, s: State, s': State, ph: Phase, ph': Phase, recent: bool)
    requires Moving(ph) && Moving(ph') && Shape(cfg, s)
    requires CurrentOk(s) && Inside(cfg, s, s')
    requires ArbiterOk(s, ph, recent) && RecordsOk(cfg, s, ph) && ReturnsOk(s, ph)
    ensures Shape(cfg, s') && ArbiterOk(s', ph', recent) && RecordsOk(cfg, s', ph') && ReturnsOk(s', ph')
  {
    hide RecordOk, ReturnOk, Legal;
  }

  lemma InsideKeeps(cfg: Config, s: State, s': State, ph: Phase, ph': Phase, recent: bool)
    requires Moving(ph) && Moving(ph')
    requires PhaseInv(cfg, s, ph, recent) && CurrentOk(s) && Inside(cfg, s, s')
    requires SlaveInside(cfg, s', ph') || (s.h.owner < |s.slaves| ==> AtRest(cfg, s', ph', recent, s.h.owner))
    requires Shape(cfg, s') && CurrentTransferOk(cfg, s', ph', recent) && MemoryOk(cfg, s', ph')
    ensures PhaseInv(cfg, s', ph', recent)
  {
    hide Inside, QueueOk, MastersOk, SlavesOk, ArbiterOk, MemoryOk, RecordsOk, ReturnsOk, Shape;
    assert MasterAtOk(s, ph, recent);
    assert |s.slaves| == |cfg.ranges| by { ShapeSlaves(cfg, s); }
    hide CurrentTransferOk, MasterAtOk, SlaveInside, AtRest;
    InsideQueue(cfg, s, s', ph, ph', recent);
    InsideBystanders(cfg, s, s', ph, ph', recent);
    InsideRest(cfg, s, s', ph, ph', recent);
  }

  lemma ShapeSlaves(cfg: Config, s: State)
    requires Shape(cfg, s)
    ensures |s.slaves| == |cfg.ranges|
  {}

  lemma MastersNotReached(cfg: Config, s: State, ph: Phase, recent: bool, e: Event, m: nat)
    requires MastersOk(cfg, s, ph, recent) && Moving(ph)
    requires e == MstReady || e == DataReady || e == SlvReady
    requires m < |s.masters| && m != Cur(s).id
    ensures MasterEvent(s.masters[m].at) != Notice(e)
  {
    assert Bystander(cfg, s, ph, recent, m);
  }

  lemma SlavesNotReached(cfg: Config, s: State, ph: Phase, recent: bool, e: Event, k: nat)
    requires SlavesOk(cfg, s, ph, recent) && Moving(ph)
    requires e == MstReady || e == DataReady || e == SlvReady
    requires k < |s.slaves| && k != s.h.owner
    ensures SlaveEvent(s.slaves[k].at) != Notice(e)
  {
    assert AtRest(cfg, s, ph, recent, k);
  }

  /** The events of a transfer reach nobody but its two participants. */
  lemma NotifyReachesParticipants(cfg: Config, s: State, ph: Phase, recent: bool, e: Event)
    requires MastersOk(cfg, s, ph, recent) && SlavesOk(cfg, s, ph, recent) && ArbiterOk(s, ph, recent)
    requires Moving(ph) && CurrentOk(s)
    requires e == MstReady || e == DataReady || e == SlvReady
    ensures Inside(cfg, s, Notify(s, e))
  {
    hide MastersOk, SlavesOk, MasterEvent, SlaveEvent;
    var a := Notify(s, e);
    forall m | 0 <= m < |s.masters| && m != Cur(s).id ensures a.masters[m] == s.masters[m] {
      MastersNotReached(cfg, s, ph, recent, e, m);
    }
    forall k | 0 <= k < |s.slaves| && k != s.h.owner ensures a.slaves[k] == s.slaves[k] {
      SlavesNotReached(cfg, s, ph, recent, e, k);
    }
  }

  // The parts of the invariant that a step of the transfer has to show again.
  ghost predicate TransferOk(cfg: Config, s: State, ph: Phase, recent: bool) {
    && Shape(cfg, s) && CurrentTransferOk(cfg, s, ph, recent) && MemoryOk(cfg, s, ph)
    && (SlaveInside(cfg, s, ph) || (s.h.owner < |s.slaves| ==> AtRest(cfg, s, ph, recent, s.h.owner)))
  }

  lemma TransferKeeps(cfg: Config, s: State, s': State, ph: Phase, ph': Phase, recent: bool)
    requires Moving(ph) && Moving(ph')
    requires PhaseInv(cfg, s, ph, recent) && CurrentOk(s) && Inside(cfg, s, s')
    requires TransferOk(cfg, s', ph', recent)
    ensures PhaseInv(cfg, s', ph', recent)
  {
    hide PhaseInv, Shape, CurrentTransferOk, MemoryOk, AtRest, SlaveInside;
    InsideKeeps(cfg, s, s', ph, ph', recent);
  }

  lemma Essentials(cfg: Config, s: State, ph: Phase, recent: bool)
    requires PhaseInv(cfg, s, ph, recent) && Current(ph)
    ensures Shape(cfg, s) && CurrentTransferOk(cfg, s, ph, recent) && MemoryOk(cfg, s, ph)
    ensures Legal(cfg, Cur(s).t) && |s.h.done| == s.h.granted - 1
    ensures MastersOk(cfg, s, ph, recent) && SlavesOk(cfg, s, ph, recent) && ArbiterOk(s, ph, recent)
  {
    hide MastersOk, SlavesOk, MemoryOk, ReturnsOk, ArbiterOk;
  }

  /** The master asks for a word: the slave is about to send it. */
  lemma WordAsked(cfg: Config, s: State, s': State, ph: Phase, recent: bool)
    requires Shape(cfg, s) && CurrentTransferOk(cfg, s, ph, recent) && MemoryOk(cfg, s, ph) && Inside(cfg, s, s')
    requires ph.Acked? || ph.ReadCycle?
    requires Cur(s).t.rdnwr && |s.h.wire| < Cur(s).t.len
    requires s'.bus == if ph.Acked? then s.bus else Counted(s.bus)
    requires s'.h == s.h && s'.memory == s.memory
    requires s'.masters[Cur(s).id] == Master(AwaitData(Cur(s).t, s.h.wire), false)
    requires s'.slaves[s.h.owner] == s.slaves[s.h.owner].(awake := true)
    ensures TransferOk(cfg, s', Asking, recent)
  {
    hide ForMemory, ReadFrom, Replay, Effect;
  }

  lemma StartReadKeeps(cfg: Config, s: State, recent: bool, m: Unsigned, t: Transfer)
    requires PhaseInv(cfg, s, Acked, recent) && CurrentOk(s) && Cur(s) == Ticket(m, t) && t.rdnwr
    ensures m < |s.masters| && PhaseInv(cfg, LookAtReply(s, m, t), Asking, recent)
  {
    hide PhaseInv;
    Essentials(cfg, s, Acked, recent);
    NotifyReachesParticipants(cfg, s, Acked, recent, MstReady);
    hide MastersOk, SlavesOk, MemoryOk, WireOk;
    var s' := LookAtReply(s, m, t);
    assert s' == MasterWaits(Notify(s, MstReady), m, AwaitData(t, s.h.wire));
    hide LookAtReply;
    assert Inside(cfg, s, s');
    WordAsked(cfg, s, s', Acked, recent);
    hide *;
    TransferKeeps(cfg, s, s', Acked, Asking, recent);
  }

  lemma StartWriteKeeps(cfg: Config, s: State, recent: bool, m: Unsigned, t: Transfer)
    requires PhaseInv(cfg, s, Acked, recent) && CurrentOk(s) && Cur(s) == Ticket(m, t) && !t.rdnwr
    ensures m < |s.masters| && PhaseInv(cfg, LookAtReply(s, m, t), WriteCycle, recent)
  {
    hide PhaseInv, MastersOk, SlavesOk;
    Essentials(cfg, s, Acked, recent);
    var s' := LookAtReply(s, m, t);
    hide ForMemory, ReadFrom, Replay, Effect;
    assert Inside(cfg, s, s');
    assert TransferOk(cfg, s', WriteCycle, recent) by {
      hide Inside;
      assert MemoryOk(cfg, s', WriteCycle) by {
        var base := Replay(cfg, s.h.pushed[..|s.h.done|]);
        assert Overlay(base, Cell(cfg, t.addr, 0), s.h.wire[..0]) == base;
      }
    }
    hide Inside, TransferOk;
    TransferKeeps(cfg, s, s', Acked, WriteCycle, recent);
  }

  lemma AwaitDataKeeps(cfg: Config, s: State, recent: bool, m: Unsigned, t: Transfer, got: seq<Unsigned>)
    requires PhaseInv(cfg, s, Sent, recent) && CurrentOk(s) && Cur(s) == Ticket(m, t)
    requires m < |s.masters| && s.masters[m].at == AwaitData(t, got)
    ensures PhaseInv(cfg, MasterWaits(s, m, Latching(t, got)), ReadCycle, recent)
  {
    hide PhaseInv;
    Essentials(cfg, s, Sent, recent);
    var s' := MasterWaits(s, m, Latching(t, got));
    hide ForMemory, ReadFrom, Replay, Effect;
    assert Inside(cfg, s, s');
    assert TransferOk(cfg, s', ReadCycle, recent) by {
      hide Inside;
      assert |s.h.wire| == t.len ==> AtRest(cfg, s, Sent, recent, s.h.owner);
    }
    hide Inside, TransferOk;
    TransferKeeps(cfg, s, s', Sent, ReadCycle, recent);
  }

  lemma LatchLastKeeps(cfg: Config, s: State, recent: bool, m: Unsigned, t: Transfer, got: seq<Unsigned>)
    requires PhaseInv(cfg, s, ReadCycle, recent) && CurrentOk(s) && Cur(s) == Ticket(m, t) && |s.h.wire| == t.len
    requires m < |s.masters| && s.masters[m] == Master(Latching(t, got), true)
    ensures PhaseInv(cfg, Latch(s, m, t, got), ReadEnd, recent)
  {
    hide PhaseInv, MastersOk, ForMemory, ReadFrom, Replay, Effect;
    Essentials(cfg, s, ReadCycle, recent);
    var s1 := s.(bus := Counted(s.bus));
    var s' := Latch(s, m, t, got);
    assert AtRest(cfg, s, ReadCycle, recent, s.h.owner);
    hide SlavesOk;
    assert got + [s.bus.busData] == s.h.wire;
    assert s' == MasterWaits(s1, m, Ending(t, s.h.wire));
    hide Latch;
    assert Inside(cfg, s, s');
    assert TransferOk(cfg, s', ReadEnd, recent) by {
      hide Inside;
    }
    hide *;
    TransferKeeps(cfg, s, s', ReadCycle, ReadEnd, recent);
  }

  lemma LatchKeeps(cfg: Config, s: State, recent: bool, m: Unsigned, t: Transfer, got: seq<Unsigned>)
    requires PhaseInv(cfg, s, ReadCycle, recent) && CurrentOk(s) && Cur(s) == Ticket(m, t) && |s.h.wire| < t.len
    requires m < |s.masters| && s.masters[m] == Master(Latching(t, got), true)
    ensures PhaseInv(cfg, Latch(s, m, t, got), Asking, recent)
  {
    hide PhaseInv;
    Essentials(cfg, s, ReadCycle, recent);
    var s1 := s.(bus := Counted(s.bus));
    var s' := Latch(s, m, t, got);
    NotifyReachesParticipants(cfg, s, ReadCycle, recent, MstReady);
    hide MastersOk, SlavesOk, MemoryOk, ReadFrom;
    assert got + [s.bus.busData] == s.h.wire && t.rdnwr;
    hide WireOk;
    assert s' == MasterWaits(Notify(s1, MstReady), m, AwaitData(t, s.h.wire));
    hide Latch;
    assert Inside(cfg, s, s');
    WordAsked(cfg, s, s', ReadCycle, recent);
    hide *;
    TransferKeeps(cfg, s, s', ReadCycle, Asking, recent);
  }

  lemma WordDriven(cfg: Config, s: State, s': State)
    requires Shape(cfg, s) && CurrentTransferOk(cfg, s, WriteCycle, false) && MemoryOk(cfg, s, WriteCycle) && Inside(cfg, s, s')
    requires |s.h.wire| < |Cur(s).t.data|
    requires var m, k, w := Cur(s).id, s.h.owner, Cur(s).t.data[|s.h.wire|];
             s'.bus == Driven(s.bus, w) && s'.h.wire == s.h.wire + [w] && s'.memory == s.memory
             && s'.masters[m] == Master(AwaitTaken(Cur(s).t, |s.h.wire|), false) && s'.slaves[k] == s.slaves[k].(awake := true)
    ensures TransferOk(cfg, s', Put, false)
  {
    hide ForMemory, Replay, Effect, ReadFrom;
    assert s'.h.wire[..|s.h.wire|] == s.h.wire;
  }

  lemma DriveKeeps(cfg: Config, s: State, m: Unsigned, t: Transfer)
    requires PhaseInv(cfg, s, WriteCycle, false) && CurrentOk(s) && Cur(s) == Ticket(m, t)
    requires |s.h.wire| < |t.data|
    ensures m < |s.masters|
    ensures PhaseInv(cfg, MasterWaits(OnWire(s, t.data[|s.h.wire|]), m, AwaitTaken(t, |s.h.wire|)), Put, false)
  {
    hide PhaseInv;
    Essentials(cfg, s, WriteCycle, false);
    var wire, w := s.h.wire, t.data[|s.h.wire|];
    var s1 := s.(bus := Driven(s.bus, w), h := s.h.(wire := wire + [w]));
    var s' := MasterWaits(OnWire(s, w), m, AwaitTaken(t, |wire|));
    NotifyReachesParticipants(cfg, s, WriteCycle, false, DataReady);
    hide MastersOk, SlavesOk, MemoryOk, WireOk, OwnerOk, LengthOk;
    assert s' == MasterWaits(Notify(s1, DataReady), m, AwaitTaken(t, |wire|));
    assert Inside(cfg, s, s');
    WordDriven(cfg, s, s');
    hide *;
    TransferKeeps(cfg, s, s', WriteCycle, Put, false);
  }

  lemma GoOnKeeps(cfg: Config, s: State, m: Unsigned, t: Transfer)
    requires PhaseInv(cfg, s, Taken, false) && CurrentOk(s) && Cur(s) == Ticket(m, t)
    ensures m < |s.masters|
    ensures PhaseInv(cfg, WriteOn(s, m, t, |s.h.wire|), WriteCycle, false)
  {
    hide PhaseInv, MastersOk, SlavesOk, ForMemory, ReadFrom, Replay, Effect;
    Essentials(cfg, s, Taken, false);
    var s' := WriteOn(s, m, t, |s.h.wire|);
    assert Inside(cfg, s, s');
    assert TransferOk(cfg, s', WriteCycle, false) by {
      hide Inside;
    }
    hide Inside, TransferOk;
    TransferKeeps(cfg, s, s', Taken, WriteCycle, false);
  }

  /** The slave that answers a request for the memory is the memory, and its places are in the array. */
  lemma AnsweringMemory(cfg: Config, s: State, k: nat, t: Transfer, i: nat)
    requires cfg.Valid() && |s.memory| == |cfg.initial| && Legal(cfg, t) && i < t.len
    requires k < |cfg.ranges| && Claims(cfg.ranges[k], t.addr, t.len)
    ensures k == cfg.memorySlave <==> ForMemory(cfg, t)
    ensures ForMemory(cfg, t) ==> 0 <= Cell(cfg, t.addr, 0) && Cell(cfg, t.addr, i) < |s.memory|
    ensures ForMemory(cfg, t) ==> Cell(cfg, t.addr, t.len) <= |s.memory|
  {
    if ForMemory(cfg, t) {
      OneSlaveAnswers(cfg.ranges, cfg.memorySlave, k, t.addr, t.len);
    }
  }

  /** The slave has put the next word on the bus. */
  lemma SentOk(cfg: Config, s: State, s': State, recent: bool, w: Unsigned, at: SlaveAt)
    requires Shape(cfg, s) && CurrentTransferOk(cfg, s, Asking, recent) && MemoryOk(cfg, s, Asking) && Inside(cfg, s, s')
    requires s'.bus == Driven(s.bus, w) && s'.h.wire == s.h.wire + [w] && s'.memory == s.memory
    requires s'.masters[Cur(s).id] == s.masters[Cur(s).id].(awake := true) && s'.slaves[s.h.owner] == Slave(at, false)
    requires var t := Cur(s).t;
             if |s.h.wire| + 1 < t.len then at == Sending(t.addr, t.len, s'.h.wire)
             else at == Listening || (at == Busy && s.h.owner != cfg.memorySlave)
    requires ForMemory(cfg, Cur(s).t) && Legal(cfg, Cur(s).t) ==> s'.h.wire <= ReadFrom(cfg, s.h.pushed[..s.h.granted - 1], Cur(s).t)
    ensures TransferOk(cfg, s', Sent, recent)
  {
    hide ForMemory, ReadFrom, Replay, Effect;
    assert s'.h.wire[..|s'.h.wire| - 1] == s.h.wire;
  }

  lemma SendKeeps(cfg: Config, s: State, recent: bool, k: nat, w: Unsigned, busy: bool)
    requires PhaseInv(cfg, s, Asking, recent) && CurrentOk(s) && k == s.h.owner < |s.slaves|
    requires k == cfg.memorySlave ==> !busy
    requires k == cfg.memorySlave ==>
               0 <= Cell(cfg, Cur(s).t.addr, |s.h.wire|) < |s.memory| && w == s.memory[Cell(cfg, Cur(s).t.addr, |s.h.wire|)]
    ensures PhaseInv(cfg, Send(s, k, Cur(s).t.addr, Cur(s).t.len, s.h.wire, w, busy), Sent, recent)
  {
    hide PhaseInv;
    Essentials(cfg, s, Asking, recent);
    var m, t, wire := Cur(s).id, Cur(s).t, s.h.wire;
    var s1 := s.(bus := Driven(s.bus, w), h := s.h.(wire := wire + [w]));
    var s' := Send(s, k, t.addr, t.len, wire, w, busy);
    NotifyReachesParticipants(cfg, s, Asking, recent, DataReady);
    WordSent(cfg, s, recent, w);
    hide MastersOk, SlavesOk, MemoryOk, WireOk, ForMemory, ReadFrom;
    var at := if |wire| + 1 < t.len then Sending(t.addr, t.len, wire + [w]) else if busy then Busy else Listening;
    assert s' == SlaveWaits(Notify(s1, DataReady), k, at);
    hide Send;
    assert Inside(cfg, s, s');
    SentOk(cfg, s, s', recent, w, at);
    hide *;
    TransferKeeps(cfg, s, s', Asking, Sent, recent);
  }

  lemma WordSent(cfg: Config, s: State, recent: bool, w: Unsigned)
    requires Shape(cfg, s) && CurrentTransferOk(cfg, s, Asking, recent) && MemoryOk(cfg, s, Asking)
    requires Legal(cfg, Cur(s).t) && |s.h.done| == s.h.granted - 1
    requires s.h.owner == cfg.memorySlave ==>
               0 <= Cell(cfg, Cur(s).t.addr, |s.h.wire|) < |s.memory| && w == s.memory[Cell(cfg, Cur(s).t.addr, |s.h.wire|)]
    ensures var t := Cur(s).t;
            ForMemory(cfg, t) ==> s.h.wire + [w] <= ReadFrom(cfg, s.h.pushed[..s.h.granted - 1], t)
  {
    var t, wire := Cur(s).t, s.h.wire;
    AnsweringMemory(cfg, s, s.h.owner, t, |wire|);
    hide Replay, Effect, ForMemory;
    if ForMemory(cfg, t) {
      assert s.memory == Replay(cfg, s.h.pushed[..s.h.granted - 1]);
      assert ReadFrom(cfg, s.h.pushed[..s.h.granted - 1], t)[|wire|] == w;
    }
  }

  lemma WordTaken(cfg: Config, s: State, s': State)
    requires Shape(cfg, s) && CurrentTransferOk(cfg, s, Put, false) && MemoryOk(cfg, s, Put) && Inside(cfg, s, s')
    requires var m, k, t, wire := Cur(s).id, s.h.owner, Cur(s).t, s.h.wire;
             && s'.bus == Counted(s.bus) && s'.h == s.h
             && s'.masters[m] == s.masters[m].(awake := true)
             && if |wire| == t.len
                then s'.memory == s.memory && s'.slaves[k] == Slave(Closing(t.addr, t.len, wire[..|wire| - 1], wire[|wire| - 1]), false)
                else s'.slaves[k] == Slave(Receiving(t.addr, t.len, wire), false) && MemoryOk(cfg, s', Taken)
    ensures TransferOk(cfg, s', if |s.h.wire| == Cur(s).t.len then LastTaken else Taken, false)
  {
    hide ForMemory, Replay, Effect, ReadFrom;
  }

  lemma LastWordKeeps(cfg: Config, s: State, k: nat, inn: seq<Unsigned>, busy: bool)
    requires PhaseInv(cfg, s, Put, false) && CurrentOk(s) && k == s.h.owner < |s.slaves|
    requires |s.h.wire| == Cur(s).t.len && inn == s.h.wire[..|s.h.wire| - 1]
    requires k == cfg.memorySlave ==> 0 <= Cell(cfg, Cur(s).t.addr, |inn|) < |s.memory|
    ensures PhaseInv(cfg, Receive(cfg, s, k, Cur(s).t.addr, Cur(s).t.len, inn, busy), LastTaken, false)
  {
    hide PhaseInv;
    Essentials(cfg, s, Put, false);
    var t, wire, w := Cur(s).t, s.h.wire, s.h.wire[|s.h.wire| - 1];
    var s1 := s.(bus := Counted(s.bus));
    var s' := Receive(cfg, s, k, t.addr, t.len, inn, busy);
    NotifyReachesParticipants(cfg, s, Put, false, SlvReady);
    hide MastersOk, SlavesOk, ForMemory, Replay, Effect, ReadFrom, OwnerOk, MemoryOk;
    assert TransferOver(s1.bus);
    assert s' == SlaveWaits(Notify(s1, SlvReady), k, Closing(t.addr, t.len, inn, w));
    hide Receive;
    assert Inside(cfg, s, s');
    WordTaken(cfg, s, s');
    hide *;
    TransferKeeps(cfg, s, s', Put, LastTaken, false);
  }

  lemma WordTakenMemory(cfg: Config, s: State, s': State)
    requires Shape(cfg, s) && Shape(cfg, s') && CurrentOk(s) && MemoryOk(cfg, s, Put) && 0 < |s.h.wire|
    requires s'.h == s.h
    requires var wire, k := s.h.wire, s.h.owner;
             if k == cfg.memorySlave
             then 0 <= Cell(cfg, Cur(s).t.addr, |wire| - 1) < |s.memory|
                  && s'.memory == s.memory[Cell(cfg, Cur(s).t.addr, |wire| - 1) := wire[|wire| - 1]]
             else s'.memory == s.memory
    ensures MemoryOk(cfg, s', Taken)
  {
    hide Replay;
    if s.h.owner == cfg.memorySlave {
      WordStored(Replay(cfg, s.h.pushed[..|s.h.done|]), Cell(cfg, Cur(s).t.addr, 0), s.h.wire);
    }
  }

  lemma ReceivesOn(cfg: Config, s: State, k: nat, addr: Unsigned, len: Unsigned, inn: seq<Unsigned>, busy: bool)
    requires k < |s.slaves| && cfg.memorySlave < |cfg.ranges|
    requires k == cfg.memorySlave ==> 0 <= Cell(cfg, addr, |inn|) < |s.memory|
    requires !TransferOver(Counted(s.bus)) && |inn| + 1 < len
    ensures var s1 := s.(bus := Counted(s.bus));
            Receive(cfg, s, k, addr, len, inn, busy)
            == SlaveWaits(Store(cfg, Notify(s1, SlvReady), k, addr, |inn|, s.bus.busData), k, Receiving(addr, len, inn + [s.bus.busData]))
  {
    hide WokenMasters, WokenSlaves;
  }

  lemma WordTakenKeeps(cfg: Config, s: State, k: nat, inn: seq<Unsigned>, busy: bool)
    requires PhaseInv(cfg, s, Put, false) && CurrentOk(s) && k == s.h.owner < |s.slaves|
    requires 0 < |s.h.wire| < Cur(s).t.len && inn == s.h.wire[..|s.h.wire| - 1]
    requires k == cfg.memorySlave ==> 0 <= Cell(cfg, Cur(s).t.addr, |inn|) < |s.memory|
    ensures PhaseInv(cfg, Receive(cfg, s, k, Cur(s).t.addr, Cur(s).t.len, inn, busy), Taken, false)
  {
    hide PhaseInv;
    Essentials(cfg, s, Put, false);
    var t, wire, w := Cur(s).t, s.h.wire, s.h.wire[|s.h.wire| - 1];
    var s1 := s.(bus := Counted(s.bus));
    var s' := Receive(cfg, s, k, t.addr, t.len, inn, busy);
    NotifyReachesParticipants(cfg, s, Put, false, SlvReady);
    hide MastersOk, SlavesOk, ReadFrom, OwnerOk, MemoryOk;
    assert inn + [w] == wire && !TransferOver(s1.bus);
    hide WireOk;
    ReceivesOn(cfg, s, k, t.addr, t.len, inn, busy);
    hide Receive;
    WordTakenMemory(cfg, s, s');
    assert Inside(cfg, s, s');
    WordTaken(cfg, s, s');
    hide *;
    TransferKeeps(cfg, s, s', Put, Taken, false);
  }

  /** Storing the last word completes the overlay. */
  lemma WordStored(base: seq<Unsigned>, at: int, words: seq<Unsigned>)
    requires |words| > 0 && 0 <= at + |words| - 1 < |base|
    ensures Overlay(base, at, words[..|words| - 1])[at + |words| - 1 := words[|words| - 1]] == Overlay(base, at, words)
  {
    var l, r := Overlay(base, at, words[..|words| - 1])[at + |words| - 1 := words[|words| - 1]], Overlay(base, at, words);
    assert forall i | 0 <= i < |base| :: l[i] == r[i];
  }
}
