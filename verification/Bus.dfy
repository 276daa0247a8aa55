/** The shared bus: its fields, and what each method does to them between two waits. */
module Bus {
  // An `unsigned`.
  type Unsigned = n: nat | n < 0x1_0000_0000

  datatype Event = BusRequest | DataReady | MasterAck | MstReady | SlvRequest | SlvAck | SlvReady | EndOfTransfer

  datatype Request = Request(id: Unsigned, rdnwr: bool, addr: Unsigned, len: Unsigned, bytesTransferred: nat)

  /** The four fields of the bus. */
  datatype Fields = Fields(queue: seq<Request>, currentReq: Request, busData: Unsigned, receivedResponse: bool)

  // What the pieces of the methods do to the fields.

  function Pushed(f: Fields, r: Request): Fields {
    f.(queue := f.queue + [r])
  }

  function Announced(f: Fields): Fields
    requires f.queue != []
  {
    f.(queue := f.queue[1..], currentReq := f.queue[0], receivedResponse := false)
  }

  function Responded(f: Fields): Fields {
    f.(receivedResponse := true)
  }

  function Driven(f: Fields, w: Unsigned): Fields {
    f.(busData := w)
  }

  function Counted(f: Fields): Fields {
    f.(currentReq := f.currentReq.(bytesTransferred := f.currentReq.bytesTransferred + 1))
  }

  function TransferOver(f: Fields): bool {
    f.currentReq.bytesTransferred == f.currentReq.len
  }

  /** The bus object. A method of the source that waits is cut at its waits; each piece here runs without
      interruption, and `notified` is the event it notifies. */
  class Bus {
    var queue: seq<Request>
    var currentReq: Request
    var busData: Unsigned
    var receivedResponse: bool

    constructor (currentReq: Request, busData: Unsigned, receivedResponse: bool)
      ensures State() == Fields([], currentReq, busData, receivedResponse)
    {
      this.queue, this.currentReq, this.busData, this.receivedResponse := [], currentReq, busData, receivedResponse;
    }

    function State(): Fields
      reads this
    {
      Fields(queue, currentReq, busData, receivedResponse)
    }

    // Arbiter, from taking the next request to waiting for the acknowledge.
    method ArbiterAnnounce() returns (notified: Event)
      requires queue != []
      modifies this
      ensures State() == Announced(old(State())) && notified == SlvRequest
    {
      currentReq := queue[0];
      queue := queue[1..];
      notified := SlvRequest;
      receivedResponse := false;
    }

    // Arbiter, after the gap cycle: it acknowledges, and says whether it now waits for the end of a transfer.
    method ArbiterAcknowledge() returns (notified: Event, waitForEnd: bool)
      ensures notified == MasterAck && waitForEnd == receivedResponse
    {
      notified := MasterAck;
      waitForEnd := receivedResponse;
    }

    // MstBusRequest, up to the first wait for an acknowledge.
    method MstPush(mstId: Unsigned, rdnwr: bool, addr: Unsigned, len: Unsigned) returns (notified: Event)
      modifies this
      ensures State() == Pushed(old(State()), Request(mstId, rdnwr, addr, len, 0)) && notified == BusRequest
    {
      var req := Request(mstId, rdnwr, addr, len, 0);
      queue := queue + [req];
      notified := BusRequest;
    }

    // MstBusRequest, after an acknowledge: whether it returns, and what.
    method MstTakeReply(mstId: Unsigned) returns (mine: bool, reply: bool)
      ensures mine <==> currentReq.id == mstId
      ensures mine ==> reply == receivedResponse
    {
      mine, reply := currentReq.id == mstId, receivedResponse;
    }

    // MstReadData, after the data cycle.
    method MstLatch() returns (data: Unsigned, over: bool)
      modifies this
      ensures State() == Counted(old(State())) && data == old(busData) && over == TransferOver(State())
    {
      data := busData;
      currentReq := currentReq.(bytesTransferred := currentReq.bytesTransferred + 1);
      over := currentReq.bytesTransferred == currentReq.len;
    }

    // MstWriteData after the data cycle, and SlvSendReadData once the master is ready.
    method PutWord(data: Unsigned) returns (notified: Event)
      modifies this
      ensures State() == Driven(old(State()), data) && notified == DataReady
    {
      busData := data;
      notified := DataReady;
    }

    // SlvListen, after a request has been announced.
    method SlvListen() returns (reqAddr: Unsigned, reqRdnwr: bool, reqLen: Unsigned)
      ensures reqAddr == currentReq.addr && reqRdnwr == currentReq.rdnwr && reqLen == currentReq.len
    {
      reqAddr, reqRdnwr, reqLen := currentReq.addr, currentReq.rdnwr, currentReq.len;
    }

    method SlvAcknowledge() returns (notified: Event)
      modifies this
      ensures State() == Responded(old(State())) && notified == SlvAck
    {
      receivedResponse := true;
      notified := SlvAck;
    }

    // SlvReceiveWriteData, once data is ready.
    method SlvTake() returns (data: Unsigned, over: bool, notified: Event)
      modifies this
      ensures State() == Counted(old(State())) && data == old(busData) && over == TransferOver(State())
      ensures notified == SlvReady
    {
      data := busData;
      currentReq := currentReq.(bytesTransferred := currentReq.bytesTransferred + 1);
      notified := SlvReady;
      over := currentReq.bytesTransferred == currentReq.len;
    }
  }

  // The address ranges the slaves answer to, and the test each of them makes. The sum wraps at 32 bits.

  datatype Range = Range(lo: Unsigned, hi: Unsigned)

  predicate Claims(r: Range, addr: Unsigned, len: Unsigned) {
    addr >= r.lo && (addr + len) % 0x1_0000_0000 <= r.hi
  }

  ghost predicate Disjoint(ranges: seq<Range>) {
    forall j, k | 0 <= j < |ranges| && 0 <= k < |ranges| && j != k :: ranges[j].hi <= ranges[k].lo || ranges[k].hi <= ranges[j].lo
  }

  const NIC := Range(0, 2)
  const CRYPTO := Range(3, 7)
  const ENCODER := Range(8, 10)
  const MEMORY := Range(11, 11 + 3000000)

  lemma ProjectRangesDisjoint()
    ensures Disjoint([NIC, CRYPTO, ENCODER, MEMORY])
  {}

  /** With disjoint ranges at most one slave answers a request of at least one word, as long as its end address does
      not wrap around, and the words it names lie in the range of that slave. */
  lemma OneSlaveAnswers(ranges: seq<Range>, j: nat, k: nat, addr: Unsigned, len: Unsigned)
    requires Disjoint(ranges) && j < |ranges| && k < |ranges|
    requires len >= 1 && addr + len < 0x1_0000_0000
    requires Claims(ranges[j], addr, len)
    ensures ranges[j].lo <= addr && addr + len <= ranges[j].hi
    ensures Claims(ranges[k], addr, len) ==> j == k
  {
    if j != k {
      assert ranges[j].hi <= ranges[k].lo || ranges[k].hi <= ranges[j].lo;
    }
  }

  /** For a slave that answers, the words named lie in its range exactly when the end address does not wrap. */
  lemma AnsweredInRange(r: Range, addr: Unsigned, len: Unsigned)
    requires Claims(r, addr, len)
    ensures addr + len <= r.hi <==> addr + len < 0x1_0000_0000
  {}

  /** Two slaves, one range below the other, both answer a request in exactly two cases: its end address wraps around,
      it starts at or above the upper range and what is left of it ends at or below the lower one; or it asks for no
      words at the one address that both ranges share. */
  lemma BothAnswer(r: Range, q: Range, addr: Unsigned, len: Unsigned)
    requires r.lo < r.hi <= q.lo < q.hi
    ensures Claims(r, addr, len) && Claims(q, addr, len) <==>
            || (addr + len >= 0x1_0000_0000 && addr >= q.lo && addr + len - 0x1_0000_0000 <= r.hi)
            || (len == 0 && addr == r.hi == q.lo)
  {}

  ghost predicate Proper(ranges: seq<Range>) {
    Disjoint(ranges) && forall j | 0 <= j < |ranges| :: ranges[j].lo < ranges[j].hi
  }

  ghost predicate SeveralAnswer(ranges: seq<Range>, addr: Unsigned, len: Unsigned) {
    exists j, k :: 0 <= j < |ranges| && 0 <= k < |ranges| && j != k && Claims(ranges[j], addr, len) && Claims(ranges[k], addr, len)
  }

  /** The end address of the request wraps around, and the request reaches from the upper of two ranges into the lower. */
  ghost predicate WrapsInto(lower: Range, upper: Range, addr: Unsigned, len: Unsigned) {
    lower.hi <= upper.lo && addr + len >= 0x1_0000_0000 && addr >= upper.lo && addr + len - 0x1_0000_0000 <= lower.hi
  }

  /** With disjoint, non-empty ranges a request of at least one word has more than one slave answering it exactly when
      it wraps around from some range into a lower one. */
  lemma SeveralAnswerIffWraps(ranges: seq<Range>, addr: Unsigned, len: Unsigned)
    requires Proper(ranges) && len >= 1
    ensures SeveralAnswer(ranges, addr, len) <==>
            exists j, k :: 0 <= j < |ranges| && 0 <= k < |ranges| && WrapsInto(ranges[j], ranges[k], addr, len)
  {}

  /** All four slaves of the project answer exactly when the request wraps from the memory into the network card. */
  lemma AllFourAnswer(addr: Unsigned, len: Unsigned)
    ensures Claims(NIC, addr, len) && Claims(CRYPTO, addr, len) && Claims(ENCODER, addr, len) && Claims(MEMORY, addr, len)
            <==> addr + len >= 0x1_0000_0000 && addr >= 11 && addr + len - 0x1_0000_0000 <= 2
  {}

  /** Such a request, and one that wraps and is answered by the memory alone. */
  lemma WrappingRequests()
    ensures var addr, len := 0xffff_ffff, 3;
            Claims(NIC, addr, len) && Claims(CRYPTO, addr, len) && Claims(ENCODER, addr, len) && Claims(MEMORY, addr, len)
    ensures var addr, len := 0xffff_fffe, 0x100;
            !Claims(NIC, addr, len) && !Claims(CRYPTO, addr, len) && !Claims(ENCODER, addr, len) && Claims(MEMORY, addr, len)
  {}
}
