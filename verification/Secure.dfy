/** The container of an encrypted message: a header of four lengths, then key, authentication code and body. */
module Secure {
  import opened AesSpec

  // sizeof(secure_head_t).
  const HEAD := 32

  class Cryptex {
    const key: nat
    const mac: nat
    const orig: nat
    const body: nat
    const data: array<Byte>    // the allocation; its first HEAD bytes belong to the lengths above

    ghost predicate Valid() {
      data.Length == TotalLength()
    }

    constructor (key: nat, mac: nat, orig: nat, body: nat)
      ensures this.key == key && this.mac == mac && this.orig == orig && this.body == body
      ensures Valid() && fresh(data)
    {
      this.key, this.mac, this.orig, this.body := key, mac, orig, body;
      data := new Byte[HEAD + key + mac + body];
    }

    function TotalLength(): nat {
      HEAD + (key + mac + body)
    }

    function KeyData(): nat {
      HEAD
    }

    function MacData(): nat {
      HEAD + key
    }

    function BodyData(): nat {
      HEAD + key + mac
    }

    // The contents of the three regions.

    function KeyBytes(): (s: seq<Byte>)
      requires Valid()
      reads data
      ensures |s| == key
    {
      data[KeyData()..KeyData() + key]
    }

    function MacBytes(): (s: seq<Byte>)
      requires Valid()
      reads data
      ensures |s| == mac
    {
      data[MacData()..MacData() + mac]
    }

    function BodyBytes(): (s: seq<Byte>)
      requires Valid()
      reads data
      ensures |s| == body
    {
      data[BodyData()..BodyData() + body]
    }

    predicate InKey(i: nat) {
      KeyData() <= i < KeyData() + key
    }

    predicate InMac(i: nat) {
      MacData() <= i < MacData() + mac
    }

    predicate InBody(i: nat) {
      BodyData() <= i < BodyData() + body
    }

    /** Behind the 32 bytes of the header stand the key, the code and the body, in this order; every byte behind the header
        belongs to exactly one region, and the regions end where the container ends. */
    lemma Layout(i: nat)
      ensures KeyData() == 32 && MacData() == 32 + key && BodyData() == 32 + key + mac
      ensures TotalLength() == 32 + key + mac + body
      ensures HEAD <= i < TotalLength() <==> InKey(i) || InMac(i) || InBody(i)
      ensures !(InKey(i) && InMac(i)) && !(InKey(i) && InBody(i)) && !(InMac(i) && InBody(i))
    {}

    /** Copies bytes into the container. */
    method Put(at: nat, bytes: seq<Byte>)
      requires Valid() && at + |bytes| <= data.Length
      modifies data
      ensures forall k | 0 <= k < data.Length :: data[k] == if at <= k < at + |bytes| then bytes[k - at] else old(data[k])
    {
      var i := 0;
      while i < |bytes|
        invariant i <= |bytes|
        invariant forall k | 0 <= k < data.Length :: data[k] == if at <= k < at + i then bytes[k - at] else old(data[k])
      {
        data[at + i] := bytes[i];
        i := i + 1;
      }
    }

    /** Fills the key region. */
    method PutKey(bytes: seq<Byte>)
      requires Valid() && |bytes| == key
      modifies data
      ensures data[32..32 + key] == bytes
      ensures KeyBytes() == bytes && MacBytes() == old(MacBytes()) && BodyBytes() == old(BodyBytes())
    {
      Put(KeyData(), bytes);
    }

    /** Fills the region of the authentication code. */
    method PutMac(bytes: seq<Byte>)
      requires Valid() && |bytes| == mac
      modifies data
      ensures data[32 + key..32 + key + mac] == bytes
      ensures MacBytes() == bytes && KeyBytes() == old(KeyBytes()) && BodyBytes() == old(BodyBytes())
    {
      Put(MacData(), bytes);
    }
  }
}
