/** The steps that end a request: the master's return and the end of a transfer. */
module BusEnds {
  import opened Bus
  import opened BusSystem
  import opened BusInvariant
  import opened BusTransfer

  // The master of the current request returns.

  ghost predicate MasterReturned(s: State, s': State)
    requires CurrentOk(s)
  {
    && s'.bus.queue == s.bus.queue
    && s'.h.pushed == s.h.pushed && s'.h.granted == s.h.granted
    && Cur(s).id < |s.masters| && s'.masters == s.masters[Cur(s).id := Master(Idle, false)]
  }

  lemma ReturnKeepsQueue(cfg: Config, s: State, s': State, ph: Phase, ph': Phase, recent: bool)
    requires QueueOk(cfg, s, ph) && CurrentOk(s) && MasterAtOk(s, ph, recent)
    requires MasterInside(ph) && !MasterInside(ph') && MasterReturned(s, s')
    ensures QueueOk(cfg, s', ph')
  {
    hide Legal, MasterAtOk;
    forall i | s.h.granted <= i < |s.h.pushed|
      ensures s'.masters[s.h.pushed[i].id] == s.masters[s.h.pushed[i].id]
    {
      CurrentNotQueued(cfg, s, ph, recent, i);
    }
  }

  lemma ReturnKeepsMasters(cfg: Config, s: State, s': State, ph: Phase, ph': Phase, recent: bool)
    requires QueueOk(cfg, s, ph) && MastersOk(cfg, s, ph, recent) && CurrentOk(s) && MasterAtOk(s, ph, recent)
    requires MasterInside(ph) && !MasterInside(ph') && !ph'.Boot? && (!recent || ph.Refusing?)
    requires MasterReturned(s, s')
    ensures QueueOk(cfg, s', ph') && MastersOk(cfg, s', ph', false)
  {
    ReturnKeepsQueue(cfg, s, s', ph, ph', recent);
    hide MasterAtOk, QueueOk, Legal;
    forall m | 0 <= m < |s.masters| ensures Bystander(cfg, s', ph', false, m) {
      if m != Cur(s).id {
        assert Bystander(cfg, s, ph, recent, m);
        assert Pending(s, m) ==> Pending(s', m);
      }
    }
  }

  lemma RefusedKeeps(cfg: Config, s: State, recent: bool, m: Unsigned, t: Transfer)
    requires PhaseInv(cfg, s, Refusing, recent)
    requires m < |s.masters| && s.masters[m] == Master(AwaitGrant(t), true)
    ensures PhaseInv(cfg, LookAtReply(s, m, t), Quiet, false)
  {
    hide RecordsOk, ReturnsOk, MemoryOk, QueueOk, SlavesOk;
    assert !Bystander(cfg, s, Refusing, recent, m);
    assert m == Cur(s).id;
    var s' := LookAtReply(s, m, t);
    assert s' == Returns(s, m, false, []);
    hide MastersOk;
    assert MasterAtOk(s, Refusing, recent) && BusOk(s, Refusing) && OwnerOk(cfg, s, Refusing);
    hide CurrentTransferOk;
    ReturnKeepsMasters(cfg, s, s', Refusing, Quiet, recent);
    hide QueueOk;
    assert SlavesOk(cfg, s', Quiet, false) && ArbiterOk(s', Quiet, false) by {
      RefusedSlaves(cfg, s, s', recent);
    }
    RefusedHistory(cfg, s, s', recent);
  }

  lemma RefusedSlaves(cfg: Config, s: State, s': State, recent: bool)
    requires SlavesOk(cfg, s, Refusing, recent) && |s.slaves| == |cfg.ranges| && s'.slaves == s.slaves
    ensures SlavesOk(cfg, s', Quiet, false)
  {
    forall k | 0 <= k < |s.slaves| ensures AtRest(cfg, s', Quiet, false, k) {
      assert AtRest(cfg, s, Refusing, recent, k);
    }
  }

  lemma RefusedHistory(cfg: Config, s: State, s': State, recent: bool)
    requires Shape(cfg, s) && Shape(cfg, s') && RecordsOk(cfg, s, Refusing) && ReturnsOk(s, Refusing) && MemoryOk(cfg, s, Refusing)
    requires CurrentOk(s)
    requires s'.memory == s.memory && s'.h == s.h.(returned := s.h.returned + [Return(Cur(s).id, false, [])])
    requires |s.h.done| > 0 && s.h.done[|s.h.done| - 1] == Unclaimed
    ensures RecordsOk(cfg, s', Quiet) && ReturnsOk(s', Quiet) && MemoryOk(cfg, s', Quiet)
  {
    hide RecordOk, Replay, Legal;
  }

  lemma LastReturnHistory(cfg: Config, s: State, s': State)
    requires Shape(cfg, s) && Shape(cfg, s') && RecordsOk(cfg, s, LastTaken) && ReturnsOk(s, LastTaken) && MemoryOk(cfg, s, LastTaken)
    requires CurrentOk(s)
    requires s'.memory == s.memory && s'.h == s.h.(returned := s.h.returned + [Return(Cur(s).id, true, [])])
    ensures RecordsOk(cfg, s', WriteEnd) && ReturnsOk(s', WriteEnd) && MemoryOk(cfg, s', WriteEnd)
  {
    hide RecordOk, Replay, Legal, ReturnOk;
  }

  lemma LastReturnRest(cfg: Config, s: State, s': State)
    requires Shape(cfg, s) && Shape(cfg, s') && CurrentTransferOk(cfg, s, LastTaken, false) && SlavesOk(cfg, s, LastTaken, false)
    requires s'.bus == s.bus && s'.slaves == s.slaves && s'.memory == s.memory
    requires s'.h == s.h.(returned := s.h.returned + [Return(Cur(s).id, true, [])]) && |s'.masters| == |s.masters|
    ensures CurrentTransferOk(cfg, s', WriteEnd, false) && SlavesOk(cfg, s', WriteEnd, false)
  {
    hide ForMemory, ReadFrom;
    forall k | 0 <= k < |s.slaves| && k != s.h.owner ensures AtRest(cfg, s', WriteEnd, false, k) {
      assert AtRest(cfg, s, LastTaken, false, k);
    }
  }

  lemma LastReturnKeeps(cfg: Config, s: State, m: Unsigned, t: Transfer)
    requires PhaseInv(cfg, s, LastTaken, false) && CurrentOk(s) && Cur(s) == Ticket(m, t)
    ensures m < |s.masters| && PhaseInv(cfg, WriteOn(s, m, t, |s.h.wire|), WriteEnd, false)
  {
    var s' := WriteOn(s, m, t, |s.h.wire|);
    hide RecordsOk, ReturnsOk, MemoryOk, QueueOk, SlavesOk, MastersOk;
    assert s' == Returns(s, m, true, []);
    hide WriteOn;
    assert MasterAtOk(s, LastTaken, false);
    ReturnKeepsMasters(cfg, s, s', LastTaken, WriteEnd, false);
    hide MasterAtOk;
    LastReturnRest(cfg, s, s');
    hide CurrentTransferOk;
    LastReturnHistory(cfg, s, s');
  }

  // The end of a transfer.

  lemma EveryoneAtRest(cfg: Config, s: State, ph: Phase, k: nat)
    requires SlavesOk(cfg, s, ph, false) && |s.slaves| == |cfg.ranges| && k < |s.slaves|
    requires ph.ReadEnd? || (ph.WriteEnd? && k != s.h.owner)
    ensures (s.slaves[k].at == Busy && k != cfg.memorySlave) || s.slaves[k] == Slave(Listening, false)
  {
    assert AtRest(cfg, s, ph, false, k);
  }

  lemma OneMoreReplayed(cfg: Config, tickets: seq<Ticket>, n: nat)
    requires cfg.memorySlave < |cfg.ranges| && n < |tickets|
    ensures Replay(cfg, tickets[..n + 1]) == Effect(cfg, Replay(cfg, tickets[..n]), tickets[n].t)
  {
    assert tickets[..n + 1][..n] == tickets[..n];
  }

  lemma ReadRecord(cfg: Config, s: State)
    requires Shape(cfg, s) && CurrentTransferOk(cfg, s, ReadEnd, false) && Legal(cfg, Cur(s).t)
    ensures RecordOk(cfg, s.h.pushed, s.h.granted - 1, Served(s.h.owner, s.h.wire, s.h.wire))
  {
    hide MasterAtOk, SlaveAtOk, BusOk, ForMemory, Replay, Effect;
    AnsweringMemory(cfg, s, s.h.owner, Cur(s).t, 0);
  }

  lemma ReadReplayed(cfg: Config, s: State, s': State)
    requires Shape(cfg, s) && Shape(cfg, s') && MemoryOk(cfg, s, ReadEnd) && CurrentOk(s) && |s.h.done| == s.h.granted - 1
    requires Cur(s).t.rdnwr && s'.memory == s.memory && s'.h.pushed == s.h.pushed && |s'.h.done| == |s.h.done| + 1
    ensures MemoryOk(cfg, s', Quiet)
  {
    hide ForMemory, Replay;
    OneMoreReplayed(cfg, s.h.pushed, s.h.granted - 1);
  }

  lemma ReadReturned(cfg: Config, s: State, s': State)
    requires Shape(cfg, s) && Shape(cfg, s') && RecordsOk(cfg, s, ReadEnd) && ReturnsOk(s, ReadEnd) && CurrentOk(s)
    requires Cur(s).t.rdnwr && RecordOk(cfg, s.h.pushed, s.h.granted - 1, Served(s.h.owner, s.h.wire, s.h.wire))
    requires s'.h == s.h.(done := s.h.done + [Served(s.h.owner, s.h.wire, s.h.wire)],
                          returned := s.h.returned + [Return(Cur(s).id, true, s.h.wire)])
    ensures RecordsOk(cfg, s', Quiet) && ReturnsOk(s', Quiet)
  {
    hide RecordOk, Legal, Shape;
  }

  lemma ReadDone(cfg: Config, s: State, s': State)
    requires Shape(cfg, s) && Shape(cfg, s') && RecordsOk(cfg, s, ReadEnd) && ReturnsOk(s, ReadEnd) && MemoryOk(cfg, s, ReadEnd)
    requires CurrentTransferOk(cfg, s, ReadEnd, false) && Legal(cfg, Cur(s).t) && |s.h.done| == s.h.granted - 1 && Cur(s).t.rdnwr
    requires s'.memory == s.memory
    requires s'.h == s.h.(done := s.h.done + [Served(s.h.owner, s.h.wire, s.h.wire)],
                          returned := s.h.returned + [Return(Cur(s).id, true, s.h.wire)])
    ensures RecordsOk(cfg, s', Quiet) && ReturnsOk(s', Quiet) && MemoryOk(cfg, s', Quiet)
  {
    hide RecordOk, RecordsOk, ReturnsOk, MemoryOk, Legal, Shape;
    ReadRecord(cfg, s);
    ReadReplayed(cfg, s, s');
    ReadReturned(cfg, s, s');
  }

  lemma EndReadKeeps(cfg: Config, s: State, m: Unsigned, t: Transfer)
    requires PhaseInv(cfg, s, ReadEnd, false) && CurrentOk(s) && Cur(s) == Ticket(m, t)
    ensures m < |s.masters| && PhaseInv(cfg, EndRead(s, m, t, s.h.wire), Quiet, false)
  {
    var s' := EndRead(s, m, t, s.h.wire);
    hide RecordsOk, ReturnsOk, MemoryOk, QueueOk, SlavesOk, MastersOk;
    Essentials(cfg, s, ReadEnd, false);
    assert MasterAtOk(s, ReadEnd, false) && LengthOk(s, ReadEnd) && t.rdnwr;
    hide CurrentTransferOk;
    EndOfTransferWakesArbiter(cfg, s);
    assert s' == Returns(s.(arbiter := Arbiter(TransferEnd, true), h := s.h.(done := s.h.done + [Served(s.h.owner, s.h.wire, s.h.wire)])),
                         m, true, s.h.wire);
    hide EndRead;
    ReturnKeepsMasters(cfg, s, s', ReadEnd, Quiet, false);
    assert SlavesOk(cfg, s', Quiet, false) by {
      forall k | 0 <= k < |s.slaves| ensures AtRest(cfg, s', Quiet, false, k) {
        EveryoneAtRest(cfg, s, ReadEnd, k);
      }
    }
    hide MasterAtOk;
    ReadDone(cfg, s, s');
  }

  lemma WriteDone(cfg: Config, s: State, s': State)
    requires Shape(cfg, s) && Shape(cfg, s') && RecordsOk(cfg, s, WriteEnd) && ReturnsOk(s, WriteEnd)
    requires CurrentTransferOk(cfg, s, WriteEnd, false)
    requires s'.h == s.h.(done := s.h.done + [Served(s.h.owner, s.h.wire, s.h.wire)])
    ensures RecordsOk(cfg, s', Quiet) && ReturnsOk(s', Quiet)
  {
    hide MasterAtOk, SlaveAtOk, BusOk, Replay, Effect;
    assert RecordOk(cfg, s.h.pushed, s.h.granted - 1, Served(s.h.owner, s.h.wire, s.h.wire));
    hide RecordOk, OwnerOk, Legal, ForMemory;
  }

  lemma WriteReplayed(cfg: Config, s: State, s': State)
    requires Shape(cfg, s) && Shape(cfg, s') && MemoryOk(cfg, s, WriteEnd)
    requires CurrentTransferOk(cfg, s, WriteEnd, false) && Legal(cfg, Cur(s).t) && |s.h.done| == s.h.granted - 1
    requires s'.h == s.h.(done := s'.h.done) && |s'.h.done| == |s.h.done| + 1
    requires s.h.owner == cfg.memorySlave ==> |s.h.wire| > 0 && 0 <= Cell(cfg, Cur(s).t.addr, |s.h.wire| - 1) < |s.memory|
    requires s'.memory ==
             if s.h.owner == cfg.memorySlave
             then s.memory[Cell(cfg, Cur(s).t.addr, 0) + |s.h.wire| - 1 := s.h.wire[|s.h.wire| - 1]] else s.memory
    ensures MemoryOk(cfg, s', Quiet)
  {
    hide MasterAtOk, SlaveAtOk, BusOk, ForMemory, Replay, Overlay, ReadFrom;
    var t, n := Cur(s).t, s.h.granted - 1;
    AnsweringMemory(cfg, s, s.h.owner, t, 0);
    OneMoreReplayed(cfg, s.h.pushed, n);
    WholeDataOnWire(cfg, s);
    if s.h.owner == cfg.memorySlave {
      WordStored(Replay(cfg, s.h.pushed[..n]), Cell(cfg, t.addr, 0), s.h.wire);
    }
  }

  lemma WholeDataOnWire(cfg: Config, s: State)
    requires Shape(cfg, s) && CurrentTransferOk(cfg, s, WriteEnd, false) && Legal(cfg, Cur(s).t)
    ensures s.h.wire == Cur(s).t.data && !Cur(s).t.rdnwr
  {
    hide MasterAtOk, SlaveAtOk, BusOk, OwnerOk, ReadFrom;
  }

  /** At the end of a write every queue entry, master and slave is as it was. */
  lemma EndWriteOthers(cfg: Config, s: State, s': State, k: nat, at: SlaveAt)
    requires QueueOk(cfg, s, WriteEnd) && MastersOk(cfg, s, WriteEnd, false) && SlavesOk(cfg, s, WriteEnd, false)
    requires |s.slaves| == |cfg.ranges| && k == s.h.owner < |s.slaves|
    requires s'.bus == s.bus && s'.h == s.h.(done := s'.h.done) && s'.masters == s.masters
    requires s'.slaves == s.slaves[k := Slave(at, false)] && (at == Listening || (at == Busy && k != cfg.memorySlave))
    ensures QueueOk(cfg, s', Quiet) && MastersOk(cfg, s', Quiet, false) && SlavesOk(cfg, s', Quiet, false)
  {
    hide Legal;
    forall m | 0 <= m < |s.masters| ensures Bystander(cfg, s', Quiet, false, m) {
      assert Bystander(cfg, s, WriteEnd, false, m);
      assert Pending(s, m) ==> Pending(s', m);
    }
    forall i | 0 <= i < |s.slaves| ensures AtRest(cfg, s', Quiet, false, i) {
      if i != k {
        EveryoneAtRest(cfg, s, WriteEnd, i);
      }
    }
  }

  lemma EndWriteKeeps(cfg: Config, s: State, k: nat, inn: seq<Unsigned>, w: Unsigned, busy: bool)
    requires PhaseInv(cfg, s, WriteEnd, false) && CurrentOk(s) && k == s.h.owner < |s.slaves|
    requires s.slaves[k].at == Closing(Cur(s).t.addr, Cur(s).t.len, inn, w)
    requires k == cfg.memorySlave ==> !busy && 0 <= Cell(cfg, Cur(s).t.addr, |inn|) < |s.memory|
    ensures PhaseInv(cfg, EndWrite(cfg, s, k, Cur(s).t.addr, Cur(s).t.len, inn, w, busy), Quiet, false)
  {
    var t, wire := Cur(s).t, s.h.wire;
    var s' := EndWrite(cfg, s, k, t.addr, t.len, inn, w, busy);
    var at := if busy then Busy else Listening;
    Essentials(cfg, s, WriteEnd, false);
    hide RecordsOk, ReturnsOk, QueueOk, MastersOk, SlavesOk, Replay;
    assert inn + [w] == wire && |wire| == t.len by {
      assert SlaveAtOk(cfg, s, WriteEnd, false) && LengthOk(s, WriteEnd);
    }
    hide CurrentTransferOk;
    var a := s.(arbiter := Arbiter(TransferEnd, true), h := s.h.(done := s.h.done + [Served(k, wire, wire)]));
    assert s' == SlaveWaits(Store(cfg, a, k, t.addr, |inn|, w), k, at) by {
      EndOfTransferWakesArbiter(cfg, s);
    }
    hide EndWrite;
    assert s'.memory == if k == cfg.memorySlave
                        then s.memory[Cell(cfg, t.addr, 0) + |wire| - 1 := wire[|wire| - 1]] else s.memory;
    WriteReplayed(cfg, s, s');
    hide MemoryOk, Store;
    EndWriteOthers(cfg, s, s', k, at);
    WriteDone(cfg, s, s');
  }

  lemma EndOfTransferWakesArbiter(cfg: Config, s: State)
    requires s.arbiter == Arbiter(TransferEnd, false)
    ensures Notify(s, EndOfTransfer) == s.(arbiter := Arbiter(TransferEnd, true))
  {
    assert WokenMasters(s.masters, EndOfTransfer) == s.masters;
    assert WokenSlaves(s.slaves, EndOfTransfer) == s.slaves;
  }
}
