/** What the memory holds and what reads return, address by address: the word last written there. */
module BusMemory {
  import opened Bus
  import opened BusSystem
  import opened BusInvariant
  import opened BusRuns
  import BusTheorems

  /** The request is a write to the memory's range that names the address. */
  predicate WritesTo(cfg: Config, k: Ticket, address: int)
    requires cfg.memorySlave < |cfg.ranges|
  {
    && !k.t.rdnwr && cfg.ranges[cfg.memorySlave].lo <= k.t.addr && k.t.addr + k.t.len <= cfg.ranges[cfg.memorySlave].hi
    && k.t.addr <= address < k.t.addr + k.t.len
  }

  /** Request i is the last of the tickets that writes to the address. */
  ghost predicate LastWrite(cfg: Config, tickets: seq<Ticket>, address: int, i: nat)
    requires cfg.memorySlave < |cfg.ranges|
  {
    i < |tickets| && WritesTo(cfg, tickets[i], address) && forall j | i < j < |tickets| :: !WritesTo(cfg, tickets[j], address)
  }

  /** The word is what the last of the tickets that writes to the address wrote there, or the initial word if none does. */
  ghost predicate LastWritten(cfg: Config, tickets: seq<Ticket>, address: int, word: Unsigned)
    requires cfg.memorySlave < |cfg.ranges|
  {
    || (exists i: nat :: LastWrite(cfg, tickets, address, i) && 0 <= address - tickets[i].t.addr < |tickets[i].t.data|
                    && word == tickets[i].t.data[address - tickets[i].t.addr])
    || ((forall i | 0 <= i < |tickets| :: !WritesTo(cfg, tickets[i], address))
        && 0 <= address - cfg.ranges[cfg.memorySlave].lo < |cfg.initial|
        && word == cfg.initial[address - cfg.ranges[cfg.memorySlave].lo])
  }

  ghost predicate AllLegal(cfg: Config, tickets: seq<Ticket>) {
    forall i | 0 <= i < |tickets| :: Legal(cfg, tickets[i].t)
  }

  lemma OneMoreTicket(cfg: Config, tickets: seq<Ticket>, k: Ticket, address: int, before: Unsigned, after: Unsigned)
    requires cfg.memorySlave < |cfg.ranges| && LastWritten(cfg, tickets, address, before)
    requires WritesTo(cfg, k, address) ==> |k.t.data| == k.t.len && after == k.t.data[address - k.t.addr]
    requires !WritesTo(cfg, k, address) ==> after == before
    ensures LastWritten(cfg, tickets + [k], address, after)
  {
    hide WritesTo;
    var all := tickets + [k];
    if WritesTo(cfg, k, address) {
      assert all[|tickets|] == k && LastWrite(cfg, all, address, |tickets|);
      assert 0 <= address - k.t.addr < k.t.len by { Named(cfg, k, address); }
    } else if i: nat :| LastWrite(cfg, tickets, address, i) && 0 <= address - tickets[i].t.addr < |tickets[i].t.data|
                        && before == tickets[i].t.data[address - tickets[i].t.addr] {
      assert LastWrite(cfg, all, address, i);
    }
  }

  lemma Named(cfg: Config, k: Ticket, address: int)
    requires cfg.memorySlave < |cfg.ranges| && WritesTo(cfg, k, address)
    ensures k.t.addr <= address < k.t.addr + k.t.len
  {}

  /** The replay of the requests, seen from an address. */
  lemma EffectAt(cfg: Config, mem: seq<Unsigned>, k: Ticket, address: int)
    requires cfg.Valid() && |mem| == |cfg.initial| && Legal(cfg, k.t)
    requires cfg.ranges[cfg.memorySlave].lo <= address < cfg.ranges[cfg.memorySlave].hi
    ensures var c := address - cfg.ranges[cfg.memorySlave].lo;
            Effect(cfg, mem, k.t)[c] == if WritesTo(cfg, k, address) then k.t.data[address - k.t.addr] else mem[c]
  {}

  lemma {:induction false} ReplayAt(cfg: Config, tickets: seq<Ticket>, address: int)
    requires cfg.Valid() && AllLegal(cfg, tickets)
    requires cfg.ranges[cfg.memorySlave].lo <= address < cfg.ranges[cfg.memorySlave].hi
    ensures LastWritten(cfg, tickets, address, Replay(cfg, tickets)[address - cfg.ranges[cfg.memorySlave].lo])
  {
    hide Effect, Legal, WritesTo;
    if tickets != [] {
      var init, k := tickets[..|tickets| - 1], tickets[|tickets| - 1];
      assert tickets == init + [k];
      ReplayAt(cfg, init, address);
      var c := address - cfg.ranges[cfg.memorySlave].lo;
      EffectAt(cfg, Replay(cfg, init), k, address);
      if WritesTo(cfg, k, address) {
        WriteHasData(cfg, k, address);
      }
      OneMoreTicket(cfg, init, k, address, Replay(cfg, init)[c], Replay(cfg, tickets)[c]);
    }
  }

  lemma WriteHasData(cfg: Config, k: Ticket, address: int)
    requires cfg.memorySlave < |cfg.ranges| && Legal(cfg, k.t) && WritesTo(cfg, k, address)
    ensures |k.t.data| == k.t.len
  {}

  /** Word j of a read of the memory behind some requests is the word last written at address `addr + j`. */
  lemma ReadAt(cfg: Config, tickets: seq<Ticket>, t: Transfer, j: nat)
    requires cfg.Valid() && AllLegal(cfg, tickets) && ForMemory(cfg, t) && Legal(cfg, t) && j < t.len
    ensures |ReadFrom(cfg, tickets, t)| == t.len && LastWritten(cfg, tickets, t.addr + j, ReadFrom(cfg, tickets, t)[j])
  {
    AnsweredInRange(cfg.ranges[cfg.memorySlave], t.addr, t.len);
    hide LastWritten, Replay;
    ReplayAt(cfg, tickets, t.addr + j);
  }

  /** Call i was acknowledged, and if it is a read, word j is the word last written to address `addr + j` by the requests
      before it. */
  ghost predicate Answered(cfg: Config, pushed: seq<Ticket>, returned: seq<Return>, i: nat)
    requires cfg.memorySlave < |cfg.ranges| && i < |pushed| && i < |returned|
  {
    && returned[i].id == pushed[i].id && returned[i].ack
    && if pushed[i].t.rdnwr then
         && |returned[i].words| == pushed[i].t.len
         && forall j | 0 <= j < |returned[i].words| ::
              LastWritten(cfg, pushed[..i], pushed[i].t.addr + j, returned[i].words[j])
       else returned[i].words == []
  }

  /** Every call for the memory that has returned. */
  ghost predicate AllAnswered(cfg: Config, s: State)
    requires cfg.memorySlave < |cfg.ranges|
  {
    |s.h.returned| <= |s.h.pushed|
    && forall i | 0 <= i < |s.h.returned| && cfg.ranges[cfg.memorySlave].lo <= s.h.pushed[i].t.addr
                  && s.h.pushed[i].t.addr + s.h.pushed[i].t.len <= cfg.ranges[cfg.memorySlave].hi ::
         Answered(cfg, s.h.pushed, s.h.returned, i)
  }

  /** Every cell of the memory holds the word last written to its address by the requests granted so far. */
  ghost predicate EveryCell(cfg: Config, s: State)
    requires cfg.memorySlave < |cfg.ranges|
  {
    s.h.granted <= |s.h.pushed| && |s.memory| == |cfg.initial|
    && forall c | 0 <= c < |s.memory| ::
         LastWritten(cfg, s.h.pushed[..s.h.granted], cfg.ranges[cfg.memorySlave].lo + c, s.memory[c])
  }

  lemma CellsOfReplay(cfg: Config, s: State)
    requires cfg.Valid() && AllLegal(cfg, s.h.pushed) && s.h.granted <= |s.h.pushed|
    requires s.memory == Replay(cfg, s.h.pushed[..s.h.granted])
    ensures EveryCell(cfg, s)
  {
    hide LastWritten, Replay, Legal;
    var tickets, lo := s.h.pushed[..s.h.granted], cfg.ranges[cfg.memorySlave].lo;
    forall c | 0 <= c < |s.memory|
      ensures LastWritten(cfg, tickets, lo + c, s.memory[c])
    {
      ReplayAt(cfg, tickets, lo + c);
    }
  }

  lemma AnswersOfReads(cfg: Config, s: State)
    requires cfg.Valid() && AllLegal(cfg, s.h.pushed) && |s.h.returned| <= |s.h.pushed|
    requires forall i | 0 <= i < |s.h.returned| && ForMemory(cfg, s.h.pushed[i].t) ::
               && Legal(cfg, s.h.pushed[i].t)
               && s.h.returned[i] == Return(s.h.pushed[i].id, true,
                    if s.h.pushed[i].t.rdnwr then ReadFrom(cfg, s.h.pushed[..i], s.h.pushed[i].t) else [])
    ensures AllAnswered(cfg, s)
  {
    hide Answered, ReadFrom, Legal, ForMemory;
    forall i | 0 <= i < |s.h.returned| && cfg.ranges[cfg.memorySlave].lo <= s.h.pushed[i].t.addr
               && s.h.pushed[i].t.addr + s.h.pushed[i].t.len <= cfg.ranges[cfg.memorySlave].hi
      ensures Answered(cfg, s.h.pushed, s.h.returned, i)
    {
      AnswerIsLastWritten(cfg, s, i);
    }
  }

  /** Linearizability, address by address. In every disciplined run of legal transfers a call for the memory that has
      returned was acknowledged; a read gave, for each address it names, the word last written there by the requests before
      it in the order of the grants, or the initial word; and whenever no request is being dealt with, every cell of the
      memory holds the word last written to its address. */
  lemma MemoryByAddress(cfg: Config, trace: seq<State>, labels: seq<Label>, n: nat)
    requires cfg.Valid() && GoodRun(cfg, trace, labels) && n < |trace|
    ensures AllAnswered(cfg, trace[n])
    ensures |trace[n].h.done| == trace[n].h.granted ==> EveryCell(cfg, trace[n])
  {
    hide GoodRun, AllAnswered, EveryCell, Inv, Legal, AllLegal, ReadFrom, Replay, ForMemory;
    RunKeepsInv(cfg, trace, labels, n);
    LegalRequests(cfg, trace[n]);
    BusTheorems.Linearizable(cfg, trace, labels, n);
    AnswersOfReads(cfg, trace[n]);
    if |trace[n].h.done| == trace[n].h.granted {
      CellsOfReplay(cfg, trace[n]);
    }
  }

  lemma LegalRequests(cfg: Config, s: State)
    requires Inv(cfg, s)
    ensures AllLegal(cfg, s.h.pushed) && |s.memory| == |cfg.initial| && s.h.granted <= |s.h.pushed|
  {
    hide Legal, MastersOk, SlavesOk, ArbiterOk, CurrentTransferOk, MemoryOk, ReturnsOk, RecordOk;
    var ph, recent :| PhaseInv(cfg, s, ph, recent);
  }

  lemma AnswerIsLastWritten(cfg: Config, s: State, i: nat)
    requires cfg.Valid() && AllLegal(cfg, s.h.pushed) && i < |s.h.returned| <= |s.h.pushed|
    requires var t := s.h.pushed[i].t;
             && cfg.ranges[cfg.memorySlave].lo <= t.addr && t.addr + t.len <= cfg.ranges[cfg.memorySlave].hi
             && (ForMemory(cfg, t) ==>
                   && Legal(cfg, t)
                   && s.h.returned[i] == Return(s.h.pushed[i].id, true, if t.rdnwr then ReadFrom(cfg, s.h.pushed[..i], t) else []))
    ensures Answered(cfg, s.h.pushed, s.h.returned, i)
  {
    hide LastWritten, ReadFrom, Legal;
    var t := s.h.pushed[i].t;
    assert Legal(cfg, t);
    InsideIsForMemory(cfg, t);
    if t.rdnwr {
      forall j | 0 <= j < |s.h.returned[i].words|
        ensures LastWritten(cfg, s.h.pushed[..i], t.addr + j, s.h.returned[i].words[j])
      {
        ReadLength(cfg, s.h.pushed[..i], t);
        ReadAt(cfg, s.h.pushed[..i], t, j);
      }
      ReadLength(cfg, s.h.pushed[..i], t);
    }
  }

  lemma ReadLength(cfg: Config, tickets: seq<Ticket>, t: Transfer)
    requires cfg.Valid() && ForMemory(cfg, t) && Legal(cfg, t)
    ensures |ReadFrom(cfg, tickets, t)| == t.len
  {}

  lemma InsideIsForMemory(cfg: Config, t: Transfer)
    requires cfg.Valid() && Legal(cfg, t)
    ensures ForMemory(cfg, t) <==>
            cfg.ranges[cfg.memorySlave].lo <= t.addr && t.addr + t.len <= cfg.ranges[cfg.memorySlave].hi
  {}
}
