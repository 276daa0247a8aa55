/** ECIES encryption and decryption, with the elliptic curve, the block cipher and the authentication code as parameters. */
module Ecies {
  import opened Aes
  import opened AesSpec
  import opened Secure
  import Cbc

  datatype Option<+T> = None | Some(value: T)

  const DIGEST := 64         // SHA512_DIGEST_LENGTH
  const KEY_LENGTH := 32     // of the block cipher

  const ZERO_IV: Block := seq(16, _ => 0)

  /** The primitives. `agree` is the key agreement together with the key derivation. */
  datatype Suite<!Public(!new), !Private(!new)> = Suite(
    publicOf: Private -> Public,
    agree: (Public, Private) -> seq<Byte>,
    toOctets: Public -> seq<Byte>,
    ofOctets: seq<Byte> -> Option<Public>,
    encrypt: seq<Byte> -> Block -> Block,
    decrypt: seq<Byte> -> Block -> Block,
    mac: (seq<Byte>, seq<Byte>) -> seq<Byte>)
  {
    /** The laws the primitives obey. */
    ghost predicate Lawful() {
      && (forall a, b :: agree(publicOf(a), b) == agree(publicOf(b), a))
      && (forall a, b :: |agree(a, b)| == DIGEST)
      && (forall p :: ofOctets(toOctets(p)) == Some(p))
      && (forall k :: Cbc.Inverse(decrypt(k), encrypt(k)))
      && (forall k, m :: |mac(k, m)| == DIGEST)
    }
  }

  /** A message in its container, as values. */
  datatype Envelope = Envelope(key: seq<Byte>, mac: seq<Byte>, orig: nat, body: seq<Byte>)

  function Contents(c: Cryptex): Envelope
    requires c.Valid()
    reads c.data
  {
    Envelope(c.KeyBytes(), c.MacBytes(), c.orig, c.BodyBytes())
  }

  /** The container ecies_encrypt makes of a message. */
  function Sealed<Public(!new), Private(!new)>(suite: Suite<Public, Private>, user: Public, ephemeral: Private, data: seq<Byte>)
    : Envelope
    requires |suite.agree(user, ephemeral)| == DIGEST
  {
    var k := suite.agree(user, ephemeral);
    var body := Cbc.Encrypt(suite.encrypt(k[..KEY_LENGTH]), ZERO_IV, ZeroPadded(data));
    Envelope(suite.toOctets(suite.publicOf(ephemeral)), suite.mac(k[KEY_LENGTH..], body), |data|, body)
  }

  /** The decrypted bytes, and how many of them are the message. */
  function Opened<Public(!new), Private(!new)>(suite: Suite<Public, Private>, user: Private, e: Envelope): Option<(seq<Byte>, nat)>
  {
    match suite.ofOctets(e.key)
    case None => None
    case Some(ephemeral) =>
      var k := suite.agree(ephemeral, user);
      if |k| != DIGEST || suite.mac(k[KEY_LENGTH..], e.body) != e.mac || |e.body| % 16 != 0 then None
      else Some((Cbc.Decrypt(suite.decrypt(k[..KEY_LENGTH]), ZERO_IV, e.body) + [0], e.orig))
  }

  // The two, by their parts.

  /** The message followed by zeros up to a multiple of 16. */
  ghost predicate Padded(data: seq<Byte>, p: seq<Byte>) {
    |p| % 16 == 0 && |data| <= |p| < |data| + 16 && forall i | 0 <= i < |p| :: p[i] == if i < |data| then data[i] else 0
  }

  /** Block m of the body: the first is the image of the first block of the message, the others are chained. */
  ghost predicate SealedBlock(e: Block -> Block, p: seq<Byte>, body: seq<Byte>, m: nat)
    requires m % 16 == 0 && m + 16 <= |p| == |body|
  {
    Cbc.BlockAt(body, m) == e(if m == 0 then Cbc.BlockAt(p, m) else Xor(Cbc.BlockAt(p, m), Cbc.BlockAt(body, m - 16)))
  }

  ghost predicate OpenedBlock(d: Block -> Block, body: seq<Byte>, p: seq<Byte>, m: nat)
    requires m % 16 == 0 && m + 16 <= |p| == |body|
  {
    Cbc.BlockAt(p, m) ==
    if m == 0 then d(Cbc.BlockAt(body, m)) else Xor(d(Cbc.BlockAt(body, m)), Cbc.BlockAt(body, m - 16))
  }

  lemma XorWithZeros(b: Block)
    ensures Xor(b, ZERO_IV) == b
  {
    forall i | 0 <= i < 16
      ensures Xor(b, ZERO_IV)[i] == b[i]
    {
    }
  }

  /** The container: the ephemeral public key; the code of the body under the second half of the 64 agreed bytes; the
      length; and the padded message, chained from a vector of zeros with the block cipher under the first half. */
  lemma SealedByParts<Public(!new), Private(!new)>(suite: Suite<Public, Private>, user: Public, ephemeral: Private, data: seq<Byte>)
    requires |suite.agree(user, ephemeral)| == 64
    ensures var k, e := suite.agree(user, ephemeral), Sealed(suite, user, ephemeral, data);
            && e.key == suite.toOctets(suite.publicOf(ephemeral)) && e.orig == |data|
            && e.mac == suite.mac(k[32..64], e.body)
            && Padded(data, ZeroPadded(data)) && |e.body| == |ZeroPadded(data)|
            && forall m | 0 <= m < |e.body| && m % 16 == 0 :: SealedBlock(suite.encrypt(k[0..32]), ZeroPadded(data), e.body, m)
  {
    hide Cbc.Encrypt, Xor, Cbc.BlockAt;
    var k, e := suite.agree(user, ephemeral), Sealed(suite, user, ephemeral, data);
    var p := ZeroPadded(data);
    assert k[..32] == k[0..32] && k[32..] == k[32..64];
    forall m | 0 <= m < |e.body| && m % 16 == 0
      ensures SealedBlock(suite.encrypt(k[0..32]), p, e.body, m)
    {
      Cbc.EncryptedBlock(suite.encrypt(k[..32]), ZERO_IV, p, m);
      XorWithZeros(Cbc.BlockAt(p, m));
      assert m > 0 ==> Cbc.Before(ZERO_IV, e.body, m) == Cbc.BlockAt(e.body, m - 16) by {
        BeforeIsBlock(e.body, m);
      }
    }
  }

  lemma BeforeIsBlock(c: seq<Byte>, m: nat)
    requires m % 16 == 0 && m <= |c|
    ensures m > 0 ==> Cbc.Before(ZERO_IV, c, m) == Cbc.BlockAt(c, m - 16)
  {}

  /** A container is accepted exactly if its key is one, 64 bytes are agreed on, the second half of them gives the code of
      the body, and the body is made of whole blocks; then the result is the body, unchained with the block cipher under the
      first half, a zero byte, and the length in the header. */
  lemma OpenedByParts<Public(!new), Private(!new)>(suite: Suite<Public, Private>, user: Private, e: Envelope)
    ensures Opened(suite, user, e).Some? <==>
            && suite.ofOctets(e.key).Some?
            && var k := suite.agree(suite.ofOctets(e.key).value, user);
               |k| == 64 && suite.mac(k[32..64], e.body) == e.mac && |e.body| % 16 == 0
    ensures Opened(suite, user, e).Some? ==>
              var k, (plain, length) := suite.agree(suite.ofOctets(e.key).value, user), Opened(suite, user, e).value;
              && |k| == 64 && |e.body| % 16 == 0 && length == e.orig
              && |plain| == |e.body| + 1 && plain[|e.body|] == 0
              && forall m | 0 <= m < |e.body| && m % 16 == 0 :: OpenedBlock(suite.decrypt(k[0..32]), e.body, plain[..|e.body|], m)
  {
    hide Cbc.Decrypt, Xor, Cbc.BlockAt;
    if suite.ofOctets(e.key).Some? {
      var k := suite.agree(suite.ofOctets(e.key).value, user);
      if |k| == 64 {
        assert k[..32] == k[0..32] && k[32..] == k[32..64];
      }
      if Opened(suite, user, e).Some? {
        var plain, d := Opened(suite, user, e).value.0, suite.decrypt(k[..32]);
        assert plain[..|e.body|] == Cbc.Decrypt(d, ZERO_IV, e.body);
        forall m | 0 <= m < |e.body| && m % 16 == 0
          ensures OpenedBlock(d, e.body, plain[..|e.body|], m)
        {
          Cbc.DecryptedBlock(d, ZERO_IV, e.body, m);
          XorWithZeros(d(Cbc.BlockAt(e.body, m)));
          BeforeIsBlock(e.body, m);
        }
      }
    }
  }

  /** Opening a sealed message gives its bytes and its length. */
  lemma RoundTrip<Public(!new), Private(!new)>(suite: Suite<Public, Private>, user: Private, ephemeral: Private, data: seq<Byte>)
    requires suite.Lawful()
    ensures |suite.agree(suite.publicOf(user), ephemeral)| == DIGEST
    ensures var plain := Opened(suite, user, Sealed(suite, suite.publicOf(user), ephemeral, data));
            && plain.Some?
            && plain.value.1 == |data|
            && plain.value.0 == ZeroPadded(data) + [0]
            && plain.value.0[..plain.value.1] == data
  {
    var k := suite.agree(suite.publicOf(user), ephemeral);
    assert suite.agree(suite.publicOf(ephemeral), user) == k;
    assert suite.ofOctets(suite.toOctets(suite.publicOf(ephemeral))) == Some(suite.publicOf(ephemeral));
    Cbc.RoundTrip(suite.decrypt(k[..KEY_LENGTH]), suite.encrypt(k[..KEY_LENGTH]), ZERO_IV, ZeroPadded(data));
  }

  /** A changed body or authentication code is accepted exactly if the code of the body is the one in the container. */
  lemma AcceptedIffAuthentic<Public(!new), Private(!new)>(suite: Suite<Public, Private>, user: Private, ephemeral: Private, data: seq<Byte>,
                                                          mac: seq<Byte>, body: seq<Byte>)
    requires suite.Lawful()
    ensures var k := suite.agree(suite.publicOf(user), ephemeral);
            var e := Sealed(suite, suite.publicOf(user), ephemeral, data).(mac := mac, body := body);
            Opened(suite, user, e).Some? <==> |body| % 16 == 0 && suite.mac(k[KEY_LENGTH..], body) == mac
  {
    assert suite.agree(suite.publicOf(ephemeral), user) == suite.agree(suite.publicOf(user), ephemeral);
    assert suite.ofOctets(suite.toOctets(suite.publicOf(ephemeral))) == Some(suite.publicOf(ephemeral));
  }

  /** Encrypting the whole blocks, and then the rest filled up with zeros, is encrypting the padded message. */
  lemma TwoStages(e: Block -> Block, iv: Block, data: seq<Byte>)
    requires |data| % 16 != 0
    ensures var full := |data| - |data| % 16;
            var head := Cbc.Encrypt(e, iv, data[..full]);
            var block := data[full..] + seq(16 - |data| % 16, _ => 0);
            |head + Cbc.Encrypt(e, Cbc.Last(iv, head), block)| == Covered(|data|)
            && Cbc.Encrypt(e, iv, ZeroPadded(data)) == head + Cbc.Encrypt(e, Cbc.Last(iv, head), block)
  {
    var full := |data| - |data| % 16;
    var block := data[full..] + seq(16 - |data| % 16, _ => 0);
    assert ZeroPadded(data) == data[..full] + block;
    Cbc.EncryptPieces(e, iv, data[..full], block);
  }

  // The cipher context of the library: the key schedule as a block function, and the chaining block.
  class CipherContext {
    const encrypt: Block -> Block
    const decrypt: Block -> Block
    var iv: Block

    constructor (encrypt: Block -> Block, decrypt: Block -> Block, iv: Block)
      ensures this.encrypt == encrypt && this.decrypt == decrypt && this.iv == iv
    {
      this.encrypt, this.decrypt, this.iv := encrypt, decrypt, iv;
    }

    // Whole blocks, without padding; the next update goes on from the last ciphertext block.
    method EncryptUpdate(out: Cryptex, at: nat, data: seq<Byte>) returns (written: nat)
      requires out.Valid() && |data| % 16 == 0 && at + |data| <= out.data.Length
      modifies this, out.data
      ensures written == |data| && iv == Cbc.Last(old(iv), Cbc.Encrypt(encrypt, old(iv), data))
      ensures out.data[at..at + written] == Cbc.Encrypt(encrypt, old(iv), data)
      ensures forall i | 0 <= i < out.data.Length && !(at <= i < at + written) :: out.data[i] == old(out.data[i])
    {
      var c := Cbc.Encrypt(encrypt, iv, data);
      out.Put(at, c);
      assert out.data[at..at + |c|] == c;
      iv := Cbc.Last(iv, c);
      written := |data|;
    }

    // The whole blocks of the data are decrypted, a partial one is held back.
    method DecryptUpdate(out: array<Byte>, data: seq<Byte>) returns (written: nat)
      requires |data| <= out.Length
      modifies this, out
      ensures written == |data| - |data| % 16
      ensures out[..written] == Cbc.Decrypt(decrypt, old(iv), data[..written])
      ensures forall k | written <= k < out.Length :: out[k] == old(out[k])
    {
      hide Cbc.Decrypt;
      written := |data| - |data| % 16;
      var p := Cbc.Decrypt(decrypt, iv, data[..written]);
      var i := 0;
      while i < written
        invariant i <= written
        invariant out[..i] == p[..i]
        invariant forall k | i <= k < out.Length :: out[k] == old(out[k])
      {
        out[i] := p[i];
        i := i + 1;
      }
    }
  }

  /** The body of the container: the whole blocks, then the rest filled up with zeros. */
  method EncryptBody(cipher: CipherContext, cryptex: Cryptex, data: array<Byte>, length: nat)
    requires cryptex.Valid() && 0 < length <= data.Length && cryptex.body == Covered(length)
    requires data != cryptex.data && cipher.iv == ZERO_IV
    modifies cipher, cryptex.data
    ensures cryptex.BodyBytes() == Cbc.Encrypt(cipher.encrypt, ZERO_IV, ZeroPadded(data[..length]))
    ensures forall i | 0 <= i < cryptex.BodyData() :: cryptex.data[i] == old(cryptex.data[i])
    ensures cryptex.KeyBytes() == old(cryptex.KeyBytes())
  {
    hide Cbc.Encrypt, Cbc.Last;
    ghost var e := cipher.encrypt;
    ghost var message := data[..length];
    var start := cryptex.BodyData();
    ghost var before, key := cryptex.data[..start], cryptex.KeyBytes();
    assert key == before[HEAD..HEAD + cryptex.key];
    var full := length - length % 16;
    var body := start;
    var bodyLength := cipher.EncryptUpdate(cryptex, body, data[..full]);
    ghost var head := Cbc.Encrypt(e, ZERO_IV, data[..full]);
    assert message[..full] == data[..full];
    if bodyLength != length {
      assert length - bodyLength < 16;
      var block := data[bodyLength..length] + seq(16 - (length - bodyLength), _ => 0);
      assert message[full..] == data[bodyLength..length];
      body := body + bodyLength;
      bodyLength := cipher.EncryptUpdate(cryptex, body, block);
      TwoStages(e, ZERO_IV, message);
      assert cryptex.data[start..start + full] == head;
      assert cryptex.BodyBytes() == cryptex.data[start..start + full] + cryptex.data[body..body + 16];
    } else {
      assert ZeroPadded(message) == message;
    }
    body := body + bodyLength;
    assert body == start + cryptex.body;
    assert cryptex.data[..start] == before;
    assert cryptex.KeyBytes() == cryptex.data[..start][HEAD..HEAD + cryptex.key];
  }

  /** ecies_encrypt, on the first `length` bytes of the data. */
  method EciesEncrypt<Public(!new), Private(!new)>(suite: Suite<Public, Private>, user: Public, ephemeral: Private,
                                                   data: array<Byte>, length: nat) returns (cryptex: Cryptex?)
    requires length <= data.Length
    requires forall k, m :: |suite.mac(k, m)| == DIGEST
    ensures cryptex == null <==> length == 0 || |suite.agree(user, ephemeral)| != DIGEST
    ensures cryptex != null ==> cryptex.Valid() && fresh(cryptex.data)
    ensures cryptex != null ==> Contents(cryptex) == Sealed(suite, user, ephemeral, data[..length])
  {
    hide Cbc.Encrypt, ZeroPadded;
    if length == 0 {
      return null;
    }
    var envelopeKey := suite.agree(user, ephemeral);
    if |envelopeKey| != DIGEST {
      return null;
    }
    ghost var message := data[..length];
    var octets := suite.toOctets(suite.publicOf(ephemeral));
    cryptex := new Cryptex(|octets|, DIGEST, length, length + if length % 16 != 0 then 16 - length % 16 else 0);
    cryptex.PutKey(octets);
    var cipher := new CipherContext(suite.encrypt(envelopeKey[..KEY_LENGTH]), suite.decrypt(envelopeKey[..KEY_LENGTH]), ZERO_IV);
    EncryptBody(cipher, cryptex, data, length);
    assert data[..length] == message;
    ghost var body := cryptex.BodyBytes();
    assert cryptex.KeyBytes() == octets;
    var mac := suite.mac(envelopeKey[KEY_LENGTH..], cryptex.BodyBytes());
    cryptex.PutMac(mac);
    assert cryptex.KeyBytes() == octets && cryptex.BodyBytes() == body && cryptex.MacBytes() == mac;
  }

  /** ecies_decrypt: null if the key or the authentication code is rejected, or the body is not made of whole blocks. */
  method EciesDecrypt<Public(!new), Private(!new)>(suite: Suite<Public, Private>, user: Private, cryptex: Cryptex)
    returns (output: array?<Byte>, length: nat)
    requires cryptex.Valid()
    ensures output == null <==> Opened(suite, user, Contents(cryptex)) == None
    ensures output != null ==> fresh(output) && Opened(suite, user, Contents(cryptex)) == Some((output[..], length))
  {
    hide Cbc.Decrypt;
    output, length := null, 0;
    var ephemeral := suite.ofOctets(cryptex.KeyBytes());
    if ephemeral == None {
      return;
    }
    var envelopeKey := suite.agree(ephemeral.value, user);
    if |envelopeKey| != DIGEST {
      return;
    }
    var body := cryptex.BodyBytes();
    var md := suite.mac(envelopeKey[KEY_LENGTH..], body);
    if |md| != cryptex.mac || md != cryptex.MacBytes() {
      return;
    }
    var out := new Byte[cryptex.body + 1](_ => 0);
    var cipher := new CipherContext(suite.encrypt(envelopeKey[..KEY_LENGTH]), suite.decrypt(envelopeKey[..KEY_LENGTH]), ZERO_IV);
    var outputLength := cipher.DecryptUpdate(out, body);
    if cryptex.body - outputLength != 0 {
      return;
    }
    assert body[..outputLength] == body;
    assert out[..] == out[..outputLength] + [0];
    assert Contents(cryptex).body == body;
    output, length := out, cryptex.orig;
  }
}
