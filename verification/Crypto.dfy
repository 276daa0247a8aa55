/** The data paths of the crypto block: words to bytes, zero padding, CBC, bytes to words. */
module Crypto {
  import opened Aes
  import opened AesSpec
  import Cbc
  import KeySchedule

  // An `unsigned`.
  type Word = bv32

  const BUFFER_SIZE := 2764800

  function LowByte(w: Word): Byte {
    (w & 0xff) as bv8
  }

  function Widened(b: Byte): Word {
    b as bv32
  }

  lemma LowByteOfWidened(b: Byte)
    ensures LowByte(Widened(b)) == b
    ensures Widened(b) < 0x100
  {}

  /** Cutting a word to a byte is taking it modulo 256, and widening a byte keeps its value. */
  lemma CutAndWidened(w: Word, b: Byte)
    ensures LowByte(w) as Word == w % 256
    ensures Widened(b) == b as Word
  {}

  function LowBytes(ws: seq<Word>): (bs: seq<Byte>)
    ensures |bs| == |ws|
  {
    seq(|ws|, i requires 0 <= i < |ws| => LowByte(ws[i]))
  }

  function WidenedAll(bs: seq<Byte>): (ws: seq<Word>)
    ensures |ws| == |bs|
  {
    seq(|bs|, i requires 0 <= i < |bs| => Widened(bs[i]))
  }

  lemma LowBytesOfWidened(bs: seq<Byte>)
    ensures LowBytes(WidenedAll(bs)) == bs
  {
    hide LowByte, Widened;
    forall i | 0 <= i < |bs|
      ensures LowBytes(WidenedAll(bs))[i] == bs[i]
    {
      LowByteOfWidened(bs[i]);
    }
  }

  /** The length the CPU puts into the network card's buffer descriptor. */
  function DescriptorLength(frameLength: nat, aes: bool): nat {
    if frameLength % 16 != 0 && aes then frameLength + (16 - frameLength % 16) else frameLength
  }

  /** What the encrypting path writes back to memory. */
  function EncryptedWords(key: Block, iv: Block, data: seq<Word>): (out: seq<Word>)
    ensures |out| == Covered(|data|)
  {
    WidenedAll(Cbc.Encrypt(Enciphering(KeySchedule.Expand(key)), iv, ZeroPadded(LowBytes(data))))
  }

  /** What the decrypting path writes back to memory. */
  function DecryptedWords(key: Block, iv: Block, data: seq<Word>): (out: seq<Word>)
    ensures |out| == Covered(|data|)
  {
    WidenedAll(Cbc.Decrypt(Deciphering(KeySchedule.Expand(key)), iv, ZeroPadded(LowBytes(data))))
  }

  /** Encrypting and then decrypting what was written gives the low byte of each word, followed by zeros up to the
      next multiple of 16, and the length the CPU announces is the length written. */
  lemma RoundTrip(key: Block, iv: Block, data: seq<Word>)
    ensures DecryptedWords(key, iv, EncryptedWords(key, iv, data)) == WidenedAll(ZeroPadded(LowBytes(data)))
    ensures DescriptorLength(|data|, true) == |EncryptedWords(key, iv, data)|
  {
    hide LowBytes, WidenedAll, Cbc.Encrypt, Cbc.Decrypt, Enciphering, Deciphering, KeySchedule.Expand;
    var w := KeySchedule.Expand(key);
    var p := ZeroPadded(LowBytes(data));
    var c := Cbc.Encrypt(Enciphering(w), iv, p);
    LowBytesOfWidened(c);
    assert ZeroPadded(c) == c;
    BlockFunctionsInverse(w);
    Cbc.RoundTrip(Deciphering(w), Enciphering(w), iv, p);
  }

  // The two data paths, word by word.

  /** The bytes the words stand for: each modulo 256, and zeros up to n bytes. */
  ghost predicate PaddedLow(data: seq<Word>, p: seq<Byte>) {
    && |p| % 16 == 0 && |data| <= |p| < |data| + 16
    && forall i | 0 <= i < |p| :: p[i] as Word == if i < |data| then data[i] % 256 else 0
  }

  /** Every word holds the byte. */
  ghost predicate Holds(words: seq<Word>, bytes: seq<Byte>) {
    |words| == |bytes| && forall i | 0 <= i < |words| :: words[i] == bytes[i] as Word
  }

  ghost predicate CipherBlock(key: Block, iv: Block, p: seq<Byte>, c: seq<Byte>, m: nat)
    requires m % 16 == 0 && m + 16 <= |p| == |c|
  {
    Cbc.BlockAt(c, m) == AesSpec.Cipher(Xor(Cbc.BlockAt(p, m), Cbc.Before(iv, c, m)), KeySchedule.Expand(key))
  }

  ghost predicate PlainBlock(key: Block, iv: Block, c: seq<Byte>, p: seq<Byte>, m: nat)
    requires m % 16 == 0 && m + 16 <= |p| == |c|
  {
    Cbc.BlockAt(p, m) == Xor(AesSpec.InvCipher(Cbc.BlockAt(c, m), KeySchedule.Expand(key)), Cbc.Before(iv, c, m))
  }

  /** The words written by the encrypting path: each block is the cipher, under the schedule of the key, of the padded low
      bytes of the words read plus the block before, or plus the vector. */
  ghost predicate Enciphers(key: Block, iv: Block, data: seq<Word>, out: seq<Word>) {
    exists p, c :: PaddedLow(data, p) && Holds(out, c) && |p| == |c|
                   && forall m | 0 <= m < |p| && m % 16 == 0 :: CipherBlock(key, iv, p, c, m)
  }

  /** The words written by the decrypting path: each block is the inverse cipher of the block of padded low bytes at its
      place, plus the block of these bytes before it, or plus the vector. */
  ghost predicate Deciphers(key: Block, iv: Block, data: seq<Word>, out: seq<Word>) {
    exists c, p :: PaddedLow(data, c) && Holds(out, p) && |p| == |c|
                   && forall m | 0 <= m < |p| && m % 16 == 0 :: PlainBlock(key, iv, c, p, m)
  }

  lemma PaddedLowBytes(data: seq<Word>)
    ensures PaddedLow(data, ZeroPadded(LowBytes(data)))
  {
    hide LowByte;
    var p := ZeroPadded(LowBytes(data));
    forall i | 0 <= i < |p|
      ensures p[i] as Word == if i < |data| then data[i] % 256 else 0
    {
      if i < |data| {
        CutAndWidened(data[i], 0);
      }
    }
  }

  lemma WidenedHolds(bytes: seq<Byte>)
    ensures Holds(WidenedAll(bytes), bytes)
  {
    hide Widened;
    forall i | 0 <= i < |bytes|
      ensures WidenedAll(bytes)[i] == bytes[i] as Word
    {
      CutAndWidened(0, bytes[i]);
    }
  }

  lemma EncryptedWordBlocks(key: Block, iv: Block, data: seq<Word>)
    ensures Enciphers(key, iv, data, EncryptedWords(key, iv, data))
  {
    hide AesSpec.Cipher, KeySchedule.Expand, Cbc.Encrypt, LowBytes, WidenedAll, ZeroPadded, Xor, PaddedLow, Holds;
    hide Cbc.BlockAt, Cbc.Before;
    var w, p := KeySchedule.Expand(key), ZeroPadded(LowBytes(data));
    var c := Cbc.Encrypt(Enciphering(w), iv, p);
    PaddedLowBytes(data);
    WidenedHolds(c);
    forall m | 0 <= m < |p| && m % 16 == 0
      ensures CipherBlock(key, iv, p, c, m)
    {
      Cbc.EncryptedBlock(Enciphering(w), iv, p, m);
    }
  }

  lemma DecryptedWordBlocks(key: Block, iv: Block, data: seq<Word>)
    ensures Deciphers(key, iv, data, DecryptedWords(key, iv, data))
  {
    hide AesSpec.InvCipher, KeySchedule.Expand, Cbc.Decrypt, LowBytes, WidenedAll, ZeroPadded, Xor, PaddedLow, Holds;
    hide Cbc.BlockAt, Cbc.Before;
    var w, c := KeySchedule.Expand(key), ZeroPadded(LowBytes(data));
    var p := Cbc.Decrypt(Deciphering(w), iv, c);
    PaddedLowBytes(data);
    WidenedHolds(p);
    forall m | 0 <= m < |p| && m % 16 == 0
      ensures PlainBlock(key, iv, c, p, m)
    {
      Cbc.DecryptedBlock(Deciphering(w), iv, c, m);
    }
  }

  /** The crypto object, as far as the two data paths use it. `aes` stands for the static state of aes.cpp, which all
      objects share. */
  class Crypto {
    const aes: Context
    const buffer: array<Byte>
    const key: array<Byte>
    const iv: array<Byte>
    var bufferInt: array<Word>

    constructor (aes: Context, key: array<Byte>, iv: array<Byte>)
      ensures this.aes == aes && this.key == key && this.iv == iv
      ensures fresh(buffer) && buffer.Length == BUFFER_SIZE && fresh(bufferInt)
    {
      this.aes, this.key, this.iv := aes, key, iv;
      buffer := new Byte[BUFFER_SIZE];
      bufferInt := new Word[0];
    }

    ghost predicate Valid()
    {
      && aes.roundKey.Length == 176
      && buffer.Length == BUFFER_SIZE && key.Length == 16 && iv.Length == 16
      && key != iv && key != buffer && iv != buffer
      && aes.roundKey != key && aes.roundKey != iv && aes.roundKey != buffer
    }

    // The words read from memory, cut to bytes and padded with zeros.
    static method LoadBytes(data: array<Word>, length: nat, length16: nat) returns (charData: array<Byte>)
      requires length <= data.Length && length16 == Covered(length)
      ensures fresh(charData) && charData[..] == ZeroPadded(LowBytes(data[..length]))
    {
      hide LowByte;
      ghost var t := ZeroPadded(LowBytes(data[..length]));
      charData := new Byte[length16];
      for i := 0 to length16
        invariant forall k | 0 <= k < i :: charData[k] == t[k]
      {
        if i < length {
          charData[i] := LowByte(data[i]);
        } else {
          charData[i] := 0;
        }
      }
    }

    // The bytes of `buffer` as words.
    method StoreWords(length16: nat)
      requires length16 <= buffer.Length
      modifies this`bufferInt
      ensures fresh(bufferInt) && bufferInt[..] == WidenedAll(buffer[..length16])
    {
      hide Widened;
      bufferInt := new Word[length16];
      for i := 0 to length16
        invariant fresh(bufferInt) && bufferInt.Length == length16
        invariant forall k | 0 <= k < i :: bufferInt[k] == Widened(buffer[k])
        modifies bufferInt
      {
        bufferInt[i] := Widened(buffer[i]);
      }
    }

    /** The body of aesEncrypt between reading the words and writing them back. */
    method AesEncrypt(data: array<Word>, length: nat)
      requires Valid()
      requires 1 <= length <= data.Length && Covered(length) <= BUFFER_SIZE
      modifies this`bufferInt, buffer, aes, aes.roundKey
      ensures fresh(bufferInt) && bufferInt[..] == EncryptedWords(old(key[..]), old(iv[..]), old(data[..length]))
      ensures Enciphers(old(key[..]), old(iv[..]), old(data[..length]), bufferInt[..])
      ensures aes.iv == Ptr(buffer, Covered(length) - 16)
    {
      hide Enciphers, Cbc.Encrypt, Cbc.Whitened, Enciphering, EncryptedBuffer, KeySchedule.Expand, LowBytes, WidenedAll, ZeroPadded;
      EncryptedWordBlocks(key[..], iv[..], data[..length]);
      var length16 := length;
      if length % 16 != 0 {
        length16 := length + (16 - length % 16);
      }
      var charData := LoadBytes(data, length, length16);
      ghost var p, k, v := charData[..], key[..], iv[..];
      assert length16 == |p| && Covered(length16) == length16 && Touched(length16) == length16;
      assert At(Ptr(key, 0)) == k && At(Ptr(iv, 0)) == v && Window(Ptr(charData, 0), length16) == p;
      aes.AES128_CBC_encrypt_buffer(Ptr(buffer, 0), Ptr(charData, 0), length16, Ptr(key, 0), Ptr(iv, 0));
      EncryptedWhole(aes.Keys(), v, p);
      assert buffer[..length16] == Window(Ptr(buffer, 0), length16);
      StoreWords(length16);
    }

    /** The body of aesDecrypt between reading the words and writing them back. */
    method AesDecrypt(data: array<Word>, length: nat)
      requires Valid()
      requires 1 <= length <= data.Length && Covered(length) <= BUFFER_SIZE
      modifies this`bufferInt, buffer, aes, aes.roundKey
      ensures fresh(bufferInt) && bufferInt[..] == DecryptedWords(old(key[..]), old(iv[..]), old(data[..length]))
      ensures Deciphers(old(key[..]), old(iv[..]), old(data[..length]), bufferInt[..])
    {
      hide Deciphers, Cbc.Decrypt, Deciphering, DecryptedBuffer, DecryptedInPlace, KeySchedule.Expand, LowBytes, WidenedAll, ZeroPadded;
      DecryptedWordBlocks(key[..], iv[..], data[..length]);
      var length16 := length;
      if length % 16 != 0 {
        length16 := length + (16 - length % 16);
      }
      var charData := LoadBytes(data, length, length16);
      ghost var c, k, v := charData[..], key[..], iv[..];
      assert length16 == |c| && Covered(length16) == length16 && Touched(length16) == length16;
      assert At(Ptr(key, 0)) == k && At(Ptr(iv, 0)) == v && Window(Ptr(charData, 0), length16) == c;
      aes.AES128_CBC_decrypt_buffer(Ptr(buffer, 0), Ptr(charData, 0), length16, Ptr(key, 0), Ptr(iv, 0));
      DecryptedWhole(aes.Keys(), v, c);
      assert buffer[..length16] == Window(Ptr(buffer, 0), length16);
      StoreWords(length16);
    }
  }
}
