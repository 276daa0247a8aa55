/** Runs of two calls on buffers: a message deciphered again, and a message given to two calls. */
module AesCalls {
  import opened Aes
  import opened AesSpec
  import Cbc
  import KeySchedule

  /** Encrypting from `input` into `middle` and decrypting from there into `output` gives every covered byte back, for
      every length; on whole blocks that is the whole window. `middle` may be `input` itself, and so may `output`. */
  method EncryptThenDecrypt(aes: Context, input: Ptr, middle: Ptr, output: Ptr, length: nat, key: Ptr, iv: Ptr)
    requires iv.Ptr?
    requires aes.Callable(middle, input, length, key, iv) && aes.Callable(output, middle, length, key, iv)
    requires Apart(iv, 16, input, Touched(length)) && Apart(output, Touched(length), middle, Touched(length))
    requires key.Ptr? ==> Apart(key, 16, middle, Touched(length)) && Apart(key, 16, input, Covered(length))
    modifies aes, aes.roundKey, input.buf, middle.buf, output.buf
    ensures Window(output, Touched(length))[..Covered(length)] == old(Window(input, Touched(length)))[..Covered(length)]
    ensures length % 16 == 0 ==> Window(output, Touched(length)) == old(Window(input, Touched(length)))
  {
    hide EncryptedBuffer, DecryptedBuffer, DecryptedInPlace, KeySchedule.Expand, Covered, Touched, Deciphering;
    TouchedIsCoveredAndTail(length);
    ghost var p, v := Window(input, Touched(length)), At(iv);
    EncryptKeepingKey(aes, input, middle, length, key, iv);
    ghost var w := aes.Keys();
    aes.AES128_CBC_decrypt_buffer(output, middle, length, key, iv);
    assert aes.Keys() == w;
    BufferRoundTrip(w, v, p, length);
  }

  // The first of the two calls: key and chaining block are still there for the second.
  method EncryptKeepingKey(aes: Context, input: Ptr, middle: Ptr, length: nat, key: Ptr, iv: Ptr)
    requires iv.Ptr? && aes.Callable(middle, input, length, key, iv) && Apart(iv, 16, input, Touched(length))
    requires Readable(iv) && iv.buf != aes.roundKey && Apart(iv, 16, middle, Touched(length)) && Covered(length) <= Touched(length)
    requires key.Ptr? ==> Readable(key) && key.buf != aes.roundKey
    requires key.Ptr? ==> Apart(key, 16, middle, Touched(length)) && Apart(key, 16, input, Covered(length))
    modifies aes, aes.roundKey, input.buf, middle.buf
    ensures At(iv) == old(At(iv)) && (key.Ptr? ==> At(key) == old(At(key)))
    ensures aes.Keys() == if key.Null? then old(aes.Keys()) else KeySchedule.Expand(old(At(key)))
    ensures Window(middle, Touched(length)) == EncryptedBuffer(aes.Keys(), old(At(iv)), old(Window(input, Touched(length))), length)
  {
    hide EncryptedBuffer, KeySchedule.Expand, Cbc.Whitened, Covered, Touched, Enciphering, Aes.Context.Callable;
    ghost var v, k := At(iv), if key.Ptr? then At(key) else At(iv);
    aes.AES128_CBC_encrypt_buffer(middle, input, length, key, iv);
    assert At(iv) == v;
    assert key.Ptr? ==> At(key) == k;
  }

  // The pointer moved over n bytes.
  function Ahead(p: Ptr, n: nat): Ptr
    requires p.Ptr?
  {
    Ptr(p.buf, p.off + n)
  }

  lemma WindowParts(p: Ptr, m: nat, n: nat)
    requires p.Ptr? && p.off + m + n <= p.buf.Length
    ensures Window(p, m + n) == Window(p, m) + Window(Ahead(p, m), n)
  {}

  /** A message given to two calls, the second without key and chaining block: the output is what one call on the
      joined window writes. The first length is a multiple of 16, the second is any. */
  method EncryptInTwoCalls(aes: Context, output: Ptr, input: Ptr, first: nat, second: nat, key: Ptr, iv: Ptr)
    requires first % 16 == 0 && first > 0 && second > 0
    requires aes.Callable(output, input, first + second, key, iv)
    requires Apart(aes.EffectiveIv(iv), 16, input, Touched(first + second))
    modifies aes, aes.roundKey, output.buf, input.buf
    ensures aes.Keys() == if key.Null? then old(aes.Keys()) else KeySchedule.Expand(old(At(key)))
    ensures Window(output, Touched(first + second)) ==
            EncryptedBuffer(aes.Keys(), old(At(aes.EffectiveIv(iv))), old(Window(input, Touched(first + second))), first + second)
    ensures aes.iv == Ptr(output.buf, output.off + Covered(first + second) - 16)
  {
    hide EncryptedBuffer, KeySchedule.Expand, Cbc.Last, Covered, Touched;
    JoinedLengths(first, second);
    ghost var v, n := At(aes.EffectiveIv(iv)), Touched(second);
    ghost var a, b := Window(input, first), Window(Ahead(input, first), n);
    WindowParts(input, first, n);
    FirstEncryption(aes, output, input, first, second, key, iv);
    SecondEncryption(aes, output, input, first, second);
    WindowParts(output, first, n);
    StreamedEncryption(aes.Keys(), v, a, b, second);
  }

  method FirstEncryption(aes: Context, output: Ptr, input: Ptr, first: nat, ghost second: nat, key: Ptr, iv: Ptr)
    requires first % 16 == 0 && first > 0 && second > 0
    requires aes.Callable(output, input, first + second, key, iv)
    requires Apart(aes.EffectiveIv(iv), 16, input, Touched(first + second))
    modifies aes, aes.roundKey, output.buf, input.buf
    ensures aes.Callable(Ahead(output, first), Ahead(input, first), second, Null, Null)
    ensures Apart(aes.iv, 16, Ahead(input, first), Touched(second))
    ensures aes.Keys() == if key.Null? then old(aes.Keys()) else KeySchedule.Expand(old(At(key)))
    ensures Window(output, first) == EncryptedBuffer(aes.Keys(), old(At(aes.EffectiveIv(iv))), old(Window(input, first)), first)
    ensures Window(Ahead(input, first), Touched(second)) == old(Window(Ahead(input, first), Touched(second)))
    ensures aes.iv == Ptr(output.buf, output.off + first - 16)
    ensures At(aes.iv) == Cbc.Last(old(At(aes.EffectiveIv(iv))), Window(output, first))
  {
    hide EncryptedBuffer, KeySchedule.Expand, Cbc.Whitened, Cbc.Last, Enciphering, Covered, Touched;
    JoinedLengths(first, second);
    WholeBlocks(first);
    ghost var v, b := At(aes.EffectiveIv(iv)), Window(Ahead(input, first), Touched(second));
    aes.AES128_CBC_encrypt_buffer(output, input, first, key, iv);
    ghost var q := Ahead(input, first);
    forall k | 0 <= k < |b|
      ensures q.buf[q.off + k] == b[k]
    {
      assert b[k] == old(input.buf[input.off + first + k]);
    }
    WindowIs(q, b);
    LastOfWindow(output, first, v);
    CallableAhead(aes, output, input, first, second);
  }

  lemma LastOfWindow(p: Ptr, n: nat, iv: Block)
    requires p.Ptr? && p.off + n <= p.buf.Length && n % 16 == 0 && n > 0
    ensures At(Ptr(p.buf, p.off + n - 16)) == Cbc.Last(iv, Window(p, n))
  {}

  // The rest of two windows can be worked on when `Iv` points to the last block before one of them.
  lemma CallableAhead(aes: Context, output: Ptr, input: Ptr, first: nat, second: nat)
    requires first >= 16 && output.Ptr? && input.Ptr? && Placed(output, input, first + Touched(second))
    requires output.off + first + Touched(second) <= output.buf.Length
    requires input.off + first + Touched(second) <= input.buf.Length
    requires aes.roundKey.Length == 176 && output.buf != aes.roundKey && input.buf != aes.roundKey
    requires aes.iv == Ptr(output.buf, output.off + first - 16)
    ensures aes.Callable(Ahead(output, first), Ahead(input, first), second, Null, Null)
    ensures Apart(aes.iv, 16, Ahead(input, first), Touched(second))
  {
    hide Touched;
  }

  lemma WholeBlocks(n: nat)
    requires n % 16 == 0 && n > 0
    ensures Covered(n) == Touched(n) == n
  {}

  method SecondEncryption(aes: Context, output: Ptr, input: Ptr, first: nat, second: nat)
    requires second > 0 && output.Ptr? && input.Ptr?
    requires Placed(output, input, first + Touched(second))
    requires aes.Callable(Ahead(output, first), Ahead(input, first), second, Null, Null)
    requires Apart(aes.iv, 16, Ahead(input, first), Touched(second))
    modifies aes, aes.roundKey, output.buf, input.buf
    ensures aes.Keys() == old(aes.Keys())
    ensures Window(output, first) == old(Window(output, first))
    ensures Window(Ahead(output, first), Touched(second)) ==
            EncryptedBuffer(aes.Keys(), old(At(aes.iv)), old(Window(Ahead(input, first), Touched(second))), second)
    ensures aes.iv == Ptr(output.buf, output.off + first + Covered(second) - 16)
  {
    hide EncryptedBuffer, KeySchedule.Expand, Cbc.Whitened, Enciphering, Covered, Touched;
    TouchedIsCoveredAndTail(second);
    ghost var c := Window(output, first);
    aes.AES128_CBC_encrypt_buffer(Ahead(output, first), Ahead(input, first), second, Null, Null);
    forall k | 0 <= k < first
      ensures output.buf[output.off + k] == c[k]
    {
      assert c[k] == old(output.buf[output.off + k]);
    }
    WindowIs(output, c);
  }

  /** The same for decryption, where the chaining block is the last one read. */
  method DecryptInTwoCalls(aes: Context, output: Ptr, input: Ptr, first: nat, second: nat, key: Ptr, iv: Ptr)
    requires first % 16 == 0 && first > 0 && second > 0
    requires aes.Callable(output, input, first + second, key, iv)
    requires Apart(output, Touched(first + second), input, Touched(first + second))
    modifies aes, aes.roundKey, output.buf
    ensures aes.Keys() == if key.Null? then old(aes.Keys()) else KeySchedule.Expand(old(At(key)))
    ensures Window(output, Touched(first + second)) ==
            DecryptedBuffer(aes.Keys(), old(At(aes.EffectiveIv(iv))), old(Window(input, Touched(first + second))), first + second)
    ensures aes.iv == Ptr(input.buf, input.off + Covered(first + second) - 16)
  {
    hide DecryptedBuffer, KeySchedule.Expand, Cbc.Last, Covered, Touched;
    JoinedLengths(first, second);
    ghost var v, n := At(aes.EffectiveIv(iv)), Touched(second);
    ghost var a, b := Window(input, first), Window(Ahead(input, first), n);
    WindowParts(input, first, n);
    FirstDecryption(aes, output, input, first, second, key, iv);
    SecondDecryption(aes, output, input, first, second);
    WindowParts(output, first, n);
    StreamedDecryption(aes.Keys(), v, a, b, second);
  }

  method FirstDecryption(aes: Context, output: Ptr, input: Ptr, first: nat, ghost second: nat, key: Ptr, iv: Ptr)
    requires first % 16 == 0 && first > 0 && second > 0
    requires aes.Callable(output, input, first + second, key, iv)
    requires Apart(output, Touched(first + second), input, Touched(first + second))
    modifies aes, aes.roundKey, output.buf
    ensures aes.Callable(Ahead(output, first), Ahead(input, first), second, Null, Null)
    ensures aes.Keys() == if key.Null? then old(aes.Keys()) else KeySchedule.Expand(old(At(key)))
    ensures Window(output, first) == DecryptedBuffer(aes.Keys(), old(At(aes.EffectiveIv(iv))), old(Window(input, first)), first)
    ensures Window(Ahead(input, first), Touched(second)) == old(Window(Ahead(input, first), Touched(second)))
    ensures aes.iv == Ptr(input.buf, input.off + first - 16)
    ensures At(aes.iv) == Cbc.Last(old(At(aes.EffectiveIv(iv))), old(Window(input, first)))
  {
    hide DecryptedBuffer, DecryptedInPlace, KeySchedule.Expand, Cbc.Last, Deciphering, Covered, Touched;
    JoinedLengths(first, second);
    WholeBlocks(first);
    ghost var v, a, b := At(aes.EffectiveIv(iv)), Window(input, first), Window(Ahead(input, first), Touched(second));
    aes.AES128_CBC_decrypt_buffer(output, input, first, key, iv);
    ghost var q := Ahead(input, first);
    forall k | 0 <= k < |b|
      ensures q.buf[q.off + k] == b[k]
    {
      assert b[k] == old(input.buf[input.off + first + k]);
    }
    WindowIs(q, b);
    forall k | 0 <= k < first
      ensures input.buf[input.off + k] == a[k]
    {
      assert a[k] == old(input.buf[input.off + k]);
    }
    WindowIs(input, a);
    LastOfWindow(input, first, v);
    CallableBehind(aes, output, input, first, second);
  }

  lemma CallableBehind(aes: Context, output: Ptr, input: Ptr, first: nat, second: nat)
    requires first >= 16 && Apart(output, first + Touched(second), input, first + Touched(second))
    requires output.off + first + Touched(second) <= output.buf.Length
    requires input.off + first + Touched(second) <= input.buf.Length
    requires aes.roundKey.Length == 176 && output.buf != aes.roundKey && input.buf != aes.roundKey
    requires aes.iv == Ptr(input.buf, input.off + first - 16)
    ensures aes.Callable(Ahead(output, first), Ahead(input, first), second, Null, Null)
  {
    hide Touched;
  }

  method SecondDecryption(aes: Context, output: Ptr, input: Ptr, first: nat, second: nat)
    requires second > 0 && Apart(output, first + Touched(second), input, first + Touched(second))
    requires aes.Callable(Ahead(output, first), Ahead(input, first), second, Null, Null)
    modifies aes, aes.roundKey, output.buf
    ensures aes.Keys() == old(aes.Keys())
    ensures Window(output, first) == old(Window(output, first))
    ensures Window(Ahead(output, first), Touched(second)) ==
            DecryptedBuffer(aes.Keys(), old(At(aes.iv)), old(Window(Ahead(input, first), Touched(second))), second)
    ensures aes.iv == Ptr(input.buf, input.off + first + Covered(second) - 16)
  {
    hide DecryptedBuffer, DecryptedInPlace, KeySchedule.Expand, Deciphering, Covered, Touched;
    TouchedIsCoveredAndTail(second);
    ghost var c := Window(output, first);
    aes.AES128_CBC_decrypt_buffer(Ahead(output, first), Ahead(input, first), second, Null, Null);
    forall k | 0 <= k < first
      ensures output.buf[output.off + k] == c[k]
    {
      assert c[k] == old(output.buf[output.off + k]);
    }
    WindowIs(output, c);
  }
}
