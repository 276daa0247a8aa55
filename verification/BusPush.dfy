/** A request is put in the queue while other requests are served. */
module BusPush {
  import opened Bus
  import opened BusSystem
  import opened BusInvariant
  import opened BusSteps

  // A master outside the transfer puts its request in the queue.

  ghost predicate HasPushed(cfg: Config, s: State, s': State, ph: Phase, m: Unsigned, t: Transfer)
    requires Shape(cfg, s)
  {
    && m < |s.masters| && s.masters[m].at == Requesting(t) && Outside(s, ph, m) && Legal(cfg, t) && !ph.Boot?
    && s'.bus == Pushed(s.bus, RequestOf(Ticket(m, t)))
    && s'.h == s.h.(pushed := s.h.pushed + [Ticket(m, t)])
    && s'.masters == s.masters[m := Master(AwaitGrant(t), false)]
    && s'.slaves == s.slaves && s'.memory == s.memory
    && s'.arbiter == (if s.arbiter.at.NoRequest? then Arbiter(NoRequest, true) else s.arbiter)
  }

  lemma OutsideIsNotCurrent(s: State, ph: Phase, m: nat)
    requires Outside(s, ph, m)
    ensures Waiting(ph) && CurrentOk(s) ==> m != Cur(s).id
  {}

  // A master whose request is in the queue is not about to push another.
  lemma NotYetPushed(cfg: Config, s: State, ph: Phase, m: nat)
    requires QueueOk(cfg, s, ph) && m < |s.masters| && s.masters[m].at.Requesting?
    ensures forall i | s.h.granted <= i < |s.h.pushed| :: s.h.pushed[i].id != m
  {
    hide Legal, MasterInside;
    forall i | s.h.granted <= i < |s.h.pushed|
      ensures s.h.pushed[i].id != m
    {
      assert s.masters[s.h.pushed[i].id].at == AwaitGrant(s.h.pushed[i].t);
    }
  }

  lemma PushQueue(cfg: Config, s: State, s': State, ph: Phase, m: Unsigned, t: Transfer)
    requires Shape(cfg, s) && HasPushed(cfg, s, s', ph, m, t) && QueueOk(cfg, s, ph)
    ensures QueueOk(cfg, s', ph)
  {
    hide Legal, Outside, MasterInside, Config.Valid;
    OutsideIsNotCurrent(s, ph, m);
    NotYetPushed(cfg, s, ph, m);
    assert forall i | s.h.granted <= i < |s.h.pushed| :: s'.h.pushed[i] == s.h.pushed[i];
  }

  lemma PushMasters(cfg: Config, s: State, s': State, ph: Phase, recent: bool, m: Unsigned, t: Transfer)
    requires Shape(cfg, s) && HasPushed(cfg, s, s', ph, m, t) && MastersOk(cfg, s, ph, recent)
    requires s.h.granted <= |s.h.pushed|
    ensures MastersOk(cfg, s', ph, recent)
  {
    forall i | 0 <= i < |s.masters| && !(MasterInside(ph) && i == Cur(s).id) ensures Bystander(cfg, s', ph, recent, i) {
      if i == m {
        assert s'.h.pushed[|s.h.pushed|].id == m;
        assert Pending(s', m);
      } else {
        assert Bystander(cfg, s, ph, recent, i);
        if Pending(s, i) {
          var j :| s.h.granted <= j < |s.h.pushed| && s.h.pushed[j].id == i;
          assert s'.h.pushed[j].id == i;
        }
      }
    }
  }

  lemma PushTransfer(cfg: Config, s: State, s': State, ph: Phase, recent: bool, m: Unsigned, t: Transfer)
    requires Shape(cfg, s) && Shape(cfg, s')
    requires HasPushed(cfg, s, s', ph, m, t) && CurrentTransferOk(cfg, s, ph, recent)
    requires Current(ph) || ph.Refusing?
    ensures CurrentTransferOk(cfg, s', ph, recent)
  {
    hide ReadFrom, Replay, Effect, Legal;
    assert s'.h.pushed[..s.h.granted - 1] == s.h.pushed[..s.h.granted - 1];
    assert Cur(s') == Cur(s);
    assert MasterAtOk(s', ph, recent);
  }

  lemma PushMemory(cfg: Config, s: State, s': State, ph: Phase, m: Unsigned, t: Transfer)
    requires Shape(cfg, s) && Shape(cfg, s') && HasPushed(cfg, s, s', ph, m, t)
    requires MemoryOk(cfg, s, ph)
    ensures MemoryOk(cfg, s', ph)
  {
    hide Legal, Replay;
    assert s'.h.pushed[..|s.h.done|] == s.h.pushed[..|s.h.done|];
    assert CurrentOk(s) ==> Cur(s') == Cur(s);
  }

  lemma PushHistory(cfg: Config, s: State, s': State, ph: Phase, m: Unsigned, t: Transfer)
    requires Shape(cfg, s) && Shape(cfg, s') && HasPushed(cfg, s, s', ph, m, t)
    requires RecordsOk(cfg, s, ph) && ReturnsOk(s, ph)
    ensures RecordsOk(cfg, s', ph) && ReturnsOk(s', ph)
  {
    hide Replay, ReturnOk, Outside;
    forall i | 0 <= i < |s.h.done| ensures RecordOk(cfg, s'.h.pushed, i, s'.h.done[i]) {
      assert RecordOk(cfg, s.h.pushed, i, s.h.done[i]);
      assert s'.h.pushed[..i] == s.h.pushed[..i];
    }
    hide RecordOk;
  }

  lemma PushRest(cfg: Config, s: State, s': State, ph: Phase, recent: bool, m: Unsigned, t: Transfer)
    requires Shape(cfg, s) && HasPushed(cfg, s, s', ph, m, t)
    requires SlavesOk(cfg, s, ph, recent) && ArbiterOk(s, ph, recent)
    ensures Shape(cfg, s') && SlavesOk(cfg, s', ph, recent) && ArbiterOk(s', ph, recent)
  {
    forall k | 0 <= k < |s.slaves| && !(Current(ph) && SlaveInside(cfg, s, ph) && k == s.h.owner)
      ensures AtRest(cfg, s', ph, recent, k)
    {
      assert AtRest(cfg, s, ph, recent, k);
    }
    assert Current(ph) ==> Cur(s') == Cur(s);
  }

  lemma PushEffect(cfg: Config, s: State, ph: Phase, m: Unsigned, t: Transfer)
    requires Shape(cfg, s)
    requires m < |s.masters| && s.masters[m] == Master(Requesting(t), true) && Outside(s, ph, m) && Legal(cfg, t) && !ph.Boot?
    ensures HasPushed(cfg, s, Push(s, m, t), ph, m, t)
  {
    hide Outside, Legal;
    assert WokenMasters(s.masters, BusRequest) == s.masters;
    assert WokenSlaves(s.slaves, BusRequest) == s.slaves;
  }

  lemma PushKeeps(cfg: Config, s: State, ph: Phase, recent: bool, m: Unsigned, t: Transfer)
    requires PhaseInv(cfg, s, ph, recent)
    requires m < |s.masters| && s.masters[m] == Master(Requesting(t), true)
    ensures PhaseInv(cfg, Push(s, m, t), ph, recent)
  {
    var s' := Push(s, m, t);
    hide MemoryOk, RecordsOk, ReturnsOk, QueueOk, SlavesOk, ArbiterOk, Push, Shape;
    assert Outside(s, ph, m) by {
      hide MastersOk;
      if MasterInside(ph) {
        assert MasterAtOk(s, ph, recent);
      }
    }
    assert Legal(cfg, t) && !ph.Boot? by {
      hide CurrentTransferOk;
      assert Bystander(cfg, s, ph, recent, m);
    }
    hide MastersOk, CurrentTransferOk, Outside, Legal, HasPushed;
    PushEffect(cfg, s, ph, m, t);
    PushRest(cfg, s, s', ph, recent, m, t);
    PushQueue(cfg, s, s', ph, m, t);
    PushMasters(cfg, s, s', ph, recent, m, t) by {
      assert s.h.granted <= |s.h.pushed| by { GrantedPushed(cfg, s, ph, recent); }
    }
    PushMemory(cfg, s, s', ph, m, t);
    PushHistory(cfg, s, s', ph, m, t);
    if Current(ph) || ph.Refusing? {
      PushTransfer(cfg, s, s', ph, recent, m, t);
    }
  }

  lemma GrantedPushed(cfg: Config, s: State, ph: Phase, recent: bool)
    requires PhaseInv(cfg, s, ph, recent)
    ensures s.h.granted <= |s.h.pushed|
  {
    hide MemoryOk, RecordsOk, ReturnsOk, MastersOk, SlavesOk, ArbiterOk, CurrentTransferOk;
  }
}
