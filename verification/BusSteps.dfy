/** The steps of processes that take no part in the current transfer: new calls, looks in vain, slaves that rest. */
module BusSteps {
  import opened Bus
  import opened BusSystem
  import opened BusInvariant

  // Steps of processes that take no part in the current transfer.

  predicate Outside(s: State, ph: Phase, m: nat) {
    MasterInside(ph) && CurrentOk(s) ==> m != Cur(s).id
  }

  predicate OutsideSlave(cfg: Config, s: State, ph: Phase, k: nat) {
    Current(ph) && CurrentOk(s) && SlaveInside(cfg, s, ph) ==> k != s.h.owner
  }

  /** Only processes outside the transfer have moved, and none of them has left the queue. */
  ghost predicate Aside(cfg: Config, s: State, s': State, ph: Phase, recent: bool)
    requires Shape(cfg, s)
  {
    && s'.bus == s.bus && s'.arbiter == s.arbiter && s'.memory == s.memory && s'.h == s.h
    && |s'.masters| == |s.masters| && |s'.slaves| == |s.slaves|
    && (forall m | 0 <= m < |s.masters| ::
          s'.masters[m] == s.masters[m] ||
          (Outside(s, ph, m) && Bystander(cfg, s', ph, recent, m) && (s.masters[m].at.AwaitGrant? ==> s'.masters[m].at == s.masters[m].at)))
    && (forall k | 0 <= k < |s.slaves| ::
          s'.slaves[k] == s.slaves[k] ||
          (OutsideSlave(cfg, s, ph, k) && AtRest(cfg, s', ph, recent, k) &&
           (ph.Open? && k == cfg.memorySlave ==> CurrentOk(s) && !ForMemory(cfg, Cur(s).t))))
  }

  lemma AsideMasters(cfg: Config, s: State, s': State, ph: Phase, recent: bool)
    requires Shape(cfg, s) && Aside(cfg, s, s', ph, recent) && MastersOk(cfg, s, ph, recent)
    ensures MastersOk(cfg, s', ph, recent)
  {
    forall m | 0 <= m < |s.masters| && !(MasterInside(ph) && m == Cur(s).id) ensures Bystander(cfg, s', ph, recent, m) {
      if s'.masters[m] == s.masters[m] {
        assert Bystander(cfg, s, ph, recent, m);
        assert Pending(s, m) ==> Pending(s', m);
      }
    }
  }

  lemma AsideTransfer(cfg: Config, s: State, s': State, ph: Phase, recent: bool)
    requires Shape(cfg, s) && Shape(cfg, s')
    requires Aside(cfg, s, s', ph, recent) && CurrentTransferOk(cfg, s, ph, recent)
    requires Current(ph) || ph.Refusing?
    ensures CurrentTransferOk(cfg, s', ph, recent)
  {
    hide ReadFrom, Replay, Effect;
    var m, k := Cur(s).id, s.h.owner;
    assert MasterInside(ph) ==> s'.masters[m] == s.masters[m];
    assert MasterAtOk(s', ph, recent);
    assert !ph.Refusing? && !ph.Open? && SlaveInside(cfg, s, ph) ==> s'.slaves[k] == s.slaves[k];
  }

  lemma AsideQueue(cfg: Config, s: State, s': State, ph: Phase, recent: bool)
    requires Shape(cfg, s) && Aside(cfg, s, s', ph, recent) && QueueOk(cfg, s, ph)
    ensures QueueOk(cfg, s', ph)
  {
    hide Bystander, AtRest, OutsideSlave, Outside;
    forall i | s.h.granted <= i < |s.h.pushed| ensures s'.masters[s.h.pushed[i].id].at == AwaitGrant(s.h.pushed[i].t) {
      var m := s.h.pushed[i].id;
      assert s'.masters[m] == s.masters[m] || s'.masters[m].at == s.masters[m].at;
    }
  }

  lemma AsideSlaves(cfg: Config, s: State, s': State, ph: Phase, recent: bool)
    requires Shape(cfg, s) && Aside(cfg, s, s', ph, recent) && SlavesOk(cfg, s, ph, recent)
    ensures SlavesOk(cfg, s', ph, recent)
  {
    hide Bystander;
    forall k | 0 <= k < |s.slaves| && !(Current(ph) && SlaveInside(cfg, s, ph) && k == s.h.owner)
      ensures AtRest(cfg, s', ph, recent, k)
    {
      assert s'.slaves[k] == s.slaves[k] ==> AtRest(cfg, s, ph, recent, k);
    }
  }

  lemma AsideHistory(cfg: Config, s: State, s': State, ph: Phase, recent: bool)
    requires Shape(cfg, s) && Aside(cfg, s, s', ph, recent)
    requires ArbiterOk(s, ph, recent) && MemoryOk(cfg, s, ph)
    ensures Shape(cfg, s') && ArbiterOk(s', ph, recent) && MemoryOk(cfg, s', ph)
  {
    hide Bystander, AtRest, OutsideSlave, Outside;
  }

  lemma AsideRecords(cfg: Config, s: State, s': State, ph: Phase, recent: bool)
    requires Shape(cfg, s) && Shape(cfg, s') && Aside(cfg, s, s', ph, recent)
    requires RecordsOk(cfg, s, ph) && ReturnsOk(s, ph)
    ensures RecordsOk(cfg, s', ph) && ReturnsOk(s', ph)
  {
    hide Bystander, AtRest, OutsideSlave, Outside, RecordOk, ReturnOk;
  }

  lemma AsideKeeps(cfg: Config, s: State, s': State, ph: Phase, recent: bool)
    requires PhaseInv(cfg, s, ph, recent) && Aside(cfg, s, s', ph, recent)
    ensures PhaseInv(cfg, s', ph, recent)
  {
    hide Aside, QueueOk, MastersOk, SlavesOk, ArbiterOk, CurrentTransferOk, MemoryOk, RecordsOk, ReturnsOk, Shape;
    AsideHistory(cfg, s, s', ph, recent);
    AsideRecords(cfg, s, s', ph, recent);
    AsideMasters(cfg, s, s', ph, recent);
    AsideSlaves(cfg, s, s', ph, recent);
    AsideQueue(cfg, s, s', ph, recent);
    if Current(ph) || ph.Refusing? {
      AsideTransfer(cfg, s, s', ph, recent);
    }
  }

  lemma MasterMovesAside(cfg: Config, s: State, ph: Phase, recent: bool, m: nat, at: MasterAt)
    requires PhaseInv(cfg, s, ph, recent) && m < |s.masters| && Outside(s, ph, m)
    requires Bystander(cfg, MasterWaits(s, m, at), ph, recent, m)
    requires s.masters[m].at.AwaitGrant? ==> s.masters[m].at == at
    ensures PhaseInv(cfg, MasterWaits(s, m, at), ph, recent)
  {
    var s' := MasterWaits(s, m, at);
    hide QueueOk, MastersOk, SlavesOk, ArbiterOk, CurrentTransferOk, MemoryOk, RecordsOk, ReturnsOk, Bystander, AtRest, Outside;
    assert Aside(cfg, s, s', ph, recent);
    AsideKeeps(cfg, s, s', ph, recent);
  }

  lemma SlaveMovesAside(cfg: Config, s: State, ph: Phase, recent: bool, k: nat, at: SlaveAt)
    requires PhaseInv(cfg, s, ph, recent) && k < |s.slaves| && OutsideSlave(cfg, s, ph, k)
    requires AtRest(cfg, SlaveWaits(s, k, at), ph, recent, k)
    requires ph.Open? && k == cfg.memorySlave ==> CurrentOk(s) && !ForMemory(cfg, Cur(s).t)
    ensures PhaseInv(cfg, SlaveWaits(s, k, at), ph, recent)
  {
    var s' := SlaveWaits(s, k, at);
    hide QueueOk, MastersOk, SlavesOk, ArbiterOk, CurrentTransferOk, MemoryOk, RecordsOk, ReturnsOk;
    hide Bystander, AtRest, OutsideSlave, ForMemory;
    assert Aside(cfg, s, s', ph, recent);
    AsideKeeps(cfg, s, s', ph, recent);
  }

  lemma IssueKeeps(cfg: Config, s: State, ph: Phase, recent: bool, m: nat, t: Transfer)
    requires PhaseInv(cfg, s, ph, recent) && Legal(cfg, t)
    requires m < |s.masters| && s.masters[m].at == Idle
    ensures PhaseInv(cfg, MasterWaits(s, m, Requesting(t)), ph, recent)
  {
    assert Outside(s, ph, m) by {
      hide QueueOk, MastersOk, SlavesOk, ArbiterOk, MemoryOk, RecordsOk, ReturnsOk;
      if MasterInside(ph) {
        assert MasterAtOk(s, ph, recent);
      }
    }
    hide QueueOk, MastersOk, SlavesOk, ArbiterOk, CurrentTransferOk, MemoryOk, RecordsOk, ReturnsOk;
    MasterMovesAside(cfg, s, ph, recent, m, Requesting(t));
  }

  lemma LookInVainKeeps(cfg: Config, s: State, ph: Phase, recent: bool, m: Unsigned, t: Transfer)
    requires PhaseInv(cfg, s, ph, recent)
    requires m < |s.masters| && s.masters[m] == Master(AwaitGrant(t), true) && Outside(s, ph, m)
    ensures PhaseInv(cfg, LookAtReply(s, m, t), ph, recent)
  {
    hide QueueOk, SlavesOk, ArbiterOk, MemoryOk, RecordsOk, ReturnsOk;
    assert Bystander(cfg, s, ph, recent, m);
    hide MastersOk;
    assert s.bus.currentReq.id != m by {
      assert BusOk(s, ph) && MasterAtOk(s, ph, recent);
    }
    hide CurrentTransferOk;
    assert Pending(MasterWaits(s, m, AwaitGrant(t)), m);
    MasterMovesAside(cfg, s, ph, recent, m, AwaitGrant(t));
  }

  lemma RestingIsOutside(cfg: Config, s: State, ph: Phase, recent: bool, k: nat)
    requires PhaseInv(cfg, s, ph, recent)
    requires k < |s.slaves| && (s.slaves[k].at == SlaveStart || s.slaves[k].at == Busy)
    ensures OutsideSlave(cfg, s, ph, k)
  {
    hide QueueOk, MastersOk, SlavesOk, ArbiterOk, MemoryOk, RecordsOk, ReturnsOk, WireOk, OwnerOk, BusOk;
    assert Current(ph) && SlaveInside(cfg, s, ph) ==> SlaveAtOk(cfg, s, ph, recent);
  }

  lemma RestKeeps(cfg: Config, s: State, ph: Phase, recent: bool, k: nat)
    requires PhaseInv(cfg, s, ph, recent)
    requires k < |s.slaves| && (s.slaves[k].at == SlaveStart || s.slaves[k].at == Busy)
    ensures PhaseInv(cfg, SlaveWaits(s, k, Listening), ph, recent)
  {
    RestingIsOutside(cfg, s, ph, recent, k);
    hide QueueOk, MastersOk, MemoryOk, RecordsOk, ReturnsOk, CurrentTransferOk, ArbiterOk;
    assert AtRest(cfg, s, ph, recent, k);
    hide SlavesOk;
    assert !ph.Open? || k != cfg.memorySlave;
    SlaveMovesAside(cfg, s, ph, recent, k, Listening);
  }
}
