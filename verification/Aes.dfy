/** The AES-128 code, in place: a state that is a window of a caller's buffer, an expanded key filled word by word,
    and an `Iv` pointer that moves along the buffers. Every method is proved against `AesSpec` and `Cbc`. */
module Aes {
  import opened AesSpec
  import Cbc
  import Gf
  import KeySchedule
  import SBox

  /** A pointer into a buffer. */
  datatype Ptr = Null | Ptr(buf: array<Byte>, off: nat)

  /** Sixteen bytes can be read at p. */
  predicate Readable(p: Ptr) {
    p.Ptr? && p.off + 16 <= p.buf.Length
  }

  function At(p: Ptr): Block
    requires Readable(p)
    reads if p.Ptr? then {p.buf} else {}
  {
    p.buf[p.off..p.off + 16]
  }

  /** The n bytes at p. */
  function Window(p: Ptr, n: nat): (s: seq<Byte>)
    requires p.Ptr? && p.off + n <= p.buf.Length
    reads if p.Ptr? then {p.buf} else {}
    ensures |s| == n
  {
    p.buf[p.off..p.off + n]
  }

  /** The an bytes at a and the bn bytes at b have no place in common. */
  predicate Apart(a: Ptr, an: nat, b: Ptr, bn: nat) {
    a.Ptr? && b.Ptr? && (a.buf != b.buf || a.off + an <= b.off || b.off + bn <= a.off)
  }

  /** Two windows of n bytes that a call can read and write: the same one, or two that have no place in common. */
  predicate Placed(a: Ptr, b: Ptr, n: nat) {
    a.Ptr? && b.Ptr? && (a == b || Apart(a, n, b, n))
  }

  /** The block functions of a given expanded key. */
  function Enciphering(w: Schedule): Block -> Block {
    (b: Block) => AesSpec.Cipher(b, w)
  }

  function Deciphering(w: Schedule): Block -> Block {
    (b: Block) => AesSpec.InvCipher(b, w)
  }

  // The bytes the loop of a CBC call covers: `length` rounded up to whole blocks.
  function Covered(length: nat): (n: nat)
    ensures n % 16 == 0 && length <= n < length + 16
    ensures length % 16 == 0 ==> n == length
    ensures length > 0 ==> n >= 16
  {
    if length % 16 == 0 then length else length + (16 - length % 16)
  }

  // The bytes a CBC call can touch: those, and a further block when `length` is not a multiple of 16. A call with
  // length 0 still copies one block.
  function Touched(length: nat): nat {
    if length == 0 then 16 else Covered(length) + if length % 16 == 0 then 0 else 16
  }

  /** What a CBC encryption writes, from the Touched(length) bytes it is given: the chained encryption of the covered
      blocks and, when `length` is not a multiple of 16, one more block: the bytes after the covered ones, cleared
      from `length % 16` on and encrypted without chaining. */
  function EncryptedBuffer(w: Schedule, iv: Block, p: seq<Byte>, length: nat): (c: seq<Byte>)
    requires |p| == Touched(length)
    ensures |c| == |p|
  {
    if length == 0 then p else
      var n := Covered(length);
      Cbc.Encrypt(Enciphering(w), iv, p[..n]) +
      if length % 16 == 0 then [] else AesSpec.Cipher(ZeroTail(p[n..], length % 16), w)
  }

  /** What a CBC decryption writes, with the same extra block. */
  function DecryptedBuffer(w: Schedule, iv: Block, c: seq<Byte>, length: nat): (p: seq<Byte>)
    requires |c| == Touched(length)
    ensures |p| == |c|
  {
    if length == 0 then c else
      var n := Covered(length);
      Cbc.Decrypt(Deciphering(w), iv, c[..n]) +
      if length % 16 == 0 then [] else AesSpec.InvCipher(ZeroTail(c[n..], length % 16), w)
  }

  /** What it writes when its output is its input. */
  function DecryptedInPlace(w: Schedule, iv: Block, c: seq<Byte>, length: nat): (p: seq<Byte>)
    requires |c| == Touched(length)
    ensures |p| == |c|
  {
    if length == 0 then c else
      var n := Covered(length);
      Cbc.DecryptInPlace(Deciphering(w), iv, c[..n]) +
      if length % 16 == 0 then [] else AesSpec.InvCipher(ZeroTail(c[n..], length % 16), w)
  }

  // What the loop of a decryption writes.
  function Decryption(inPlace: bool, w: Schedule, iv: Block, c: seq<Byte>): (p: seq<Byte>)
    requires |c| % 16 == 0
    ensures |p| == |c|
  {
    if inPlace then Cbc.DecryptInPlace(Deciphering(w), iv, c) else Cbc.Decrypt(Deciphering(w), iv, c)
  }

  // A block whose bytes from r on are cleared.
  function ZeroTail(b: Block, r: nat): Block
    requires r <= 16
  {
    b[..r] + seq(16 - r, _ => 0)
  }

  lemma ZeroTailBytes(b: Block, r: nat)
    requires r <= 16
    ensures forall k | 0 <= k < 16 :: ZeroTail(b, r)[k] == if k < r then b[k] else 0
  {}

  /** Nothing outside places lo to hi of the buffer has changed. */
  twostate predicate Kept(buf: array<Byte>, lo: nat, hi: nat)
    reads buf
  {
    forall p | 0 <= p < buf.Length && !(lo <= p < hi) :: buf[p] == old(buf[p])
  }

  /** Nothing outside the an bytes at a and the bn bytes at b has changed. */
  twostate predicate KeptBoth(a: Ptr, an: nat, b: Ptr, bn: nat)
    requires a.Ptr? && b.Ptr?
    reads a.buf, b.buf
  {
    && (forall p | 0 <= p < a.buf.Length && !(a.off <= p < a.off + an) && !(b.buf == a.buf && b.off <= p < b.off + bn) ::
          a.buf[p] == old(a.buf[p]))
    && (forall p | 0 <= p < b.buf.Length && !(b.off <= p < b.off + bn) && !(a.buf == b.buf && a.off <= p < a.off + an) ::
          b.buf[p] == old(b.buf[p]))
  }

  /** The static variables of the file. */
  class Context {
    const roundKey: array<Byte>
    var state: Ptr
    var key: Ptr
    var iv: Ptr

    constructor ()
      ensures roundKey.Length == 176 && fresh(roundKey)
      ensures state == key == iv == Null
    {
      roundKey := new Byte[176];
      state, key, iv := Null, Null, Null;
    }

    /** `state` can be worked on in place. */
    ghost predicate Ready()
      reads this
    {
      roundKey.Length == 176 && Readable(state) && state.buf != roundKey
    }

    ghost function State(): Block
      requires Ready()
      reads this, state.buf
    {
      At(state)
    }

    ghost function Keys(): Schedule
      requires roundKey.Length == 176
      reads roundKey
    {
      roundKey[..]
    }

    method SubBytes()
      requires Ready()
      modifies state.buf
      ensures State() == AesSpec.SubBytes(old(State()))
      ensures Kept(state.buf, state.off, state.off + 16)
    {
      hide SBox.Sub;
      var b, o := state.buf, state.off;
      for i := 0 to 4
        invariant Kept(b, o, o + 16)
        invariant forall p | o <= p < o + 16 :: b[p] == if (p - o) % 4 < i then SBox.Sub(old(b[p])) else old(b[p])
      {
        for j := 0 to 4
          invariant Kept(b, o, o + 16)
          invariant forall p | o <= p < o + 16 ::
              b[p] == if (p - o) % 4 < i || ((p - o) % 4 == i && (p - o) / 4 < j) then SBox.Sub(old(b[p])) else old(b[p])
        {
          b[o + 4 * j + i] := SBox.Sub(b[o + 4 * j + i]);
        }
      }
    }

    method InvSubBytes()
      requires Ready()
      modifies state.buf
      ensures State() == AesSpec.InvSubBytes(old(State()))
      ensures Kept(state.buf, state.off, state.off + 16)
    {
      hide SBox.InvSub;
      var b, o := state.buf, state.off;
      for i := 0 to 4
        invariant Kept(b, o, o + 16)
        invariant forall p | o <= p < o + 16 :: b[p] == if (p - o) % 4 < i then SBox.InvSub(old(b[p])) else old(b[p])
      {
        for j := 0 to 4
          invariant Kept(b, o, o + 16)
          invariant forall p | o <= p < o + 16 ::
              b[p] == if (p - o) % 4 < i || ((p - o) % 4 == i && (p - o) / 4 < j) then SBox.InvSub(old(b[p])) else old(b[p])
        {
          b[o + 4 * j + i] := SBox.InvSub(b[o + 4 * j + i]);
        }
      }
    }

    method AddRoundKey(round: nat)
      requires Ready() && round <= 10
      modifies state.buf
      ensures State() == AesSpec.AddRoundKey(old(State()), Keys(), round)
      ensures Kept(state.buf, state.off, state.off + 16)
    {
      hide Gf.Add;
      var b, o := state.buf, state.off;
      ghost var t := AesSpec.AddRoundKey(State(), Keys(), round);
      for i := 0 to 4
        invariant Kept(b, o, o + 16)
        invariant forall p | o <= p < o + 16 :: b[p] == if p < o + 4 * i then t[p - o] else old(b[p])
      {
        for j := 0 to 4
          invariant Kept(b, o, o + 16)
          invariant forall p | o <= p < o + 16 :: b[p] == if p < o + 4 * i + j then t[p - o] else old(b[p])
        {
          ghost var k := 4 * i + j;
          assert t[k] == Gf.Add(old(State())[k], RoundKey(Keys(), round)[k]);
          b[o + 4 * i + j] := Gf.Add(b[o + 4 * i + j], roundKey[round * 16 + i * 4 + j]);
        }
      }
      ghost var u := State();
      assert forall k | 0 <= k < 16 :: u[k] == t[k];
    }

    method ShiftRows()
      requires Ready()
      modifies state.buf
      ensures State() == AesSpec.ShiftRows(old(State()))
      ensures Kept(state.buf, state.off, state.off + 16)
    {
      hide AesSpec.ShiftRows;
      var b, o := state.buf, state.off;
      ghost var s := State();
      ghost var t := AesSpec.ShiftRows(s);
      ShiftedBytes(s);
      RowOneLeft(b, o);
      RowTwo(b, o);
      RowThreeLeft(b, o);
      forall k | 0 <= k < 16
        ensures State()[k] == t[k]
      {
      }
    }

    method InvShiftRows()
      requires Ready()
      modifies state.buf
      ensures State() == AesSpec.InvShiftRows(old(State()))
      ensures Kept(state.buf, state.off, state.off + 16)
    {
      hide AesSpec.InvShiftRows;
      var b, o := state.buf, state.off;
      ghost var s := State();
      ghost var t := AesSpec.InvShiftRows(s);
      InvShiftedBytes(s);
      RowOneRight(b, o);
      RowTwo(b, o);
      RowThreeRight(b, o);
      forall k | 0 <= k < 16
        ensures State()[k] == t[k]
      {
      }
    }

    // The pieces of the two row shifts: each turns one row and leaves every other byte alone.

    static method RowOneLeft(b: array<Byte>, o: nat)
      requires o + 16 <= b.Length
      modifies b
      ensures b[o + 1] == old(b[o + 5]) && b[o + 5] == old(b[o + 9]) && b[o + 9] == old(b[o + 13]) && b[o + 13] == old(b[o + 1])
      ensures forall p | 0 <= p < b.Length && p != o + 1 && p != o + 5 && p != o + 9 && p != o + 13 :: b[p] == old(b[p])
    {
      var temp := b[o + 1];
      b[o + 1] := b[o + 5];
      b[o + 5] := b[o + 9];
      b[o + 9] := b[o + 13];
      b[o + 13] := temp;
    }

    static method RowOneRight(b: array<Byte>, o: nat)
      requires o + 16 <= b.Length
      modifies b
      ensures b[o + 5] == old(b[o + 1]) && b[o + 9] == old(b[o + 5]) && b[o + 13] == old(b[o + 9]) && b[o + 1] == old(b[o + 13])
      ensures forall p | 0 <= p < b.Length && p != o + 1 && p != o + 5 && p != o + 9 && p != o + 13 :: b[p] == old(b[p])
    {
      var temp := b[o + 13];
      b[o + 13] := b[o + 9];
      b[o + 9] := b[o + 5];
      b[o + 5] := b[o + 1];
      b[o + 1] := temp;
    }

    static method RowTwo(b: array<Byte>, o: nat)
      requires o + 16 <= b.Length
      modifies b
      ensures b[o + 2] == old(b[o + 10]) && b[o + 6] == old(b[o + 14]) && b[o + 10] == old(b[o + 2]) && b[o + 14] == old(b[o + 6])
      ensures forall p | 0 <= p < b.Length && p != o + 2 && p != o + 6 && p != o + 10 && p != o + 14 :: b[p] == old(b[p])
    {
      var temp := b[o + 2];
      b[o + 2] := b[o + 10];
      b[o + 10] := temp;

      temp := b[o + 6];
      b[o + 6] := b[o + 14];
      b[o + 14] := temp;
    }

    static method RowThreeLeft(b: array<Byte>, o: nat)
      requires o + 16 <= b.Length
      modifies b
      ensures b[o + 3] == old(b[o + 15]) && b[o + 15] == old(b[o + 11]) && b[o + 11] == old(b[o + 7]) && b[o + 7] == old(b[o + 3])
      ensures forall p | 0 <= p < b.Length && p != o + 3 && p != o + 7 && p != o + 11 && p != o + 15 :: b[p] == old(b[p])
    {
      var temp := b[o + 3];
      b[o + 3] := b[o + 15];
      b[o + 15] := b[o + 11];
      b[o + 11] := b[o + 7];
      b[o + 7] := temp;
    }

    static method RowThreeRight(b: array<Byte>, o: nat)
      requires o + 16 <= b.Length
      modifies b
      ensures b[o + 15] == old(b[o + 3]) && b[o + 11] == old(b[o + 15]) && b[o + 7] == old(b[o + 11]) && b[o + 3] == old(b[o + 7])
      ensures forall p | 0 <= p < b.Length && p != o + 3 && p != o + 7 && p != o + 11 && p != o + 15 :: b[p] == old(b[p])
    {
      var temp := b[o + 3];
      b[o + 3] := b[o + 7];
      b[o + 7] := b[o + 11];
      b[o + 11] := b[o + 15];
      b[o + 15] := temp;
    }

    method MixColumns()
      requires Ready()
      modifies state.buf
      ensures State() == AesSpec.MixColumns(old(State()))
      ensures Kept(state.buf, state.off, state.off + 16)
    {
      hide Gf.Mix, Gf.InvMix, AesSpec.MixColumns, AesSpec.InvMixColumns;
      var b, o := state.buf, state.off;
      ghost var s := State();
      ghost var t := AesSpec.MixColumns(s);
      for i := 0 to 4
        invariant Kept(b, o, o + 16)
        invariant forall p | o <= p < o + 16 :: b[p] == if p < o + 4 * i then t[p - o] else old(b[p])
      {
        var c := o + 4 * i;
        MixedColumn(s, i);
        MixColumn(b, c);
        assert b[c] == t[4 * i] && b[c + 1] == t[4 * i + 1];
        assert b[c + 2] == t[4 * i + 2] && b[c + 3] == t[4 * i + 3];
      }
    }

    method InvMixColumns()
      requires Ready()
      modifies state.buf
      ensures State() == AesSpec.InvMixColumns(old(State()))
      ensures Kept(state.buf, state.off, state.off + 16)
    {
      hide Gf.Mix, Gf.InvMix, AesSpec.MixColumns, AesSpec.InvMixColumns;
      var b, o := state.buf, state.off;
      ghost var s := State();
      ghost var t := AesSpec.InvMixColumns(s);
      for i := 0 to 4
        invariant Kept(b, o, o + 16)
        invariant forall p | o <= p < o + 16 :: b[p] == if p < o + 4 * i then t[p - o] else old(b[p])
      {
        var c := o + 4 * i;
        MixedColumn(s, i);
        InvMixColumn(b, c);
        assert b[c] == t[4 * i] && b[c + 1] == t[4 * i + 1];
        assert b[c + 2] == t[4 * i + 2] && b[c + 3] == t[4 * i + 3];
      }
    }

    // The bodies of the two loops above: one column, at place c.

    static method MixColumn(buf: array<Byte>, c: nat)
      requires c + 4 <= buf.Length
      modifies buf
      ensures buf[c] == Gf.Mix(old(buf[c]), old(buf[c + 1]), old(buf[c + 2]), old(buf[c + 3]))
      ensures buf[c + 1] == Gf.Mix(old(buf[c + 1]), old(buf[c + 2]), old(buf[c + 3]), old(buf[c]))
      ensures buf[c + 2] == Gf.Mix(old(buf[c + 2]), old(buf[c + 3]), old(buf[c]), old(buf[c + 1]))
      ensures buf[c + 3] == Gf.Mix(old(buf[c + 3]), old(buf[c]), old(buf[c + 1]), old(buf[c + 2]))
      ensures Kept(buf, c, c + 4)
    {
      hide Gf.Mix, Gf.Xtime, Gf.Add, Gf.Sum4;
      ghost var (x0, x1, x2, x3) := (buf[c], buf[c + 1], buf[c + 2], buf[c + 3]);
      Gf.MixFromSums(x0, x1, x2, x3);
      Gf.MixFromSums(x1, x2, x3, x0);
      Gf.MixFromSums(x2, x3, x0, x1);
      Gf.MixFromSums(x3, x0, x1, x2);
      Gf.Sum4Rotates(x0, x1, x2, x3);
      Gf.Sum4Rotates(x1, x2, x3, x0);
      Gf.Sum4Rotates(x2, x3, x0, x1);
      var t := buf[c];
      var tmp := Gf.Sum4(buf[c], buf[c + 1], buf[c + 2], buf[c + 3]);
      var tm := Gf.Add(buf[c], buf[c + 1]);
      tm := Gf.Xtime(tm);
      buf[c] := Gf.Add(buf[c], Gf.Add(tm, tmp));
      tm := Gf.Add(buf[c + 1], buf[c + 2]);
      tm := Gf.Xtime(tm);
      buf[c + 1] := Gf.Add(buf[c + 1], Gf.Add(tm, tmp));
      tm := Gf.Add(buf[c + 2], buf[c + 3]);
      tm := Gf.Xtime(tm);
      buf[c + 2] := Gf.Add(buf[c + 2], Gf.Add(tm, tmp));
      tm := Gf.Add(buf[c + 3], t);
      tm := Gf.Xtime(tm);
      buf[c + 3] := Gf.Add(buf[c + 3], Gf.Add(tm, tmp));
    }

    static method InvMixColumn(buf: array<Byte>, col: nat)
      requires col + 4 <= buf.Length
      modifies buf
      ensures buf[col] == Gf.InvMix(old(buf[col]), old(buf[col + 1]), old(buf[col + 2]), old(buf[col + 3]))
      ensures buf[col + 1] == Gf.InvMix(old(buf[col + 1]), old(buf[col + 2]), old(buf[col + 3]), old(buf[col]))
      ensures buf[col + 2] == Gf.InvMix(old(buf[col + 2]), old(buf[col + 3]), old(buf[col]), old(buf[col + 1]))
      ensures buf[col + 3] == Gf.InvMix(old(buf[col + 3]), old(buf[col]), old(buf[col + 1]), old(buf[col + 2]))
      ensures Kept(buf, col, col + 4)
    {
      hide Gf.InvMix, Gf.Multiply;
      var a, b, c, d := buf[col], buf[col + 1], buf[col + 2], buf[col + 3];
      Gf.InvMixFromMultiply(a, b, c, d);
      Gf.InvMixFromMultiply(b, c, d, a);
      Gf.InvMixFromMultiply(c, d, a, b);
      Gf.InvMixFromMultiply(d, a, b, c);
      buf[col] := Gf.Multiply(a, 0x0e) ^ Gf.Multiply(b, 0x0b) ^ Gf.Multiply(c, 0x0d) ^ Gf.Multiply(d, 0x09);
      buf[col + 1] := Gf.Multiply(a, 0x09) ^ Gf.Multiply(b, 0x0e) ^ Gf.Multiply(c, 0x0b) ^ Gf.Multiply(d, 0x0d);
      buf[col + 2] := Gf.Multiply(a, 0x0d) ^ Gf.Multiply(b, 0x09) ^ Gf.Multiply(c, 0x0e) ^ Gf.Multiply(d, 0x0b);
      buf[col + 3] := Gf.Multiply(a, 0x0b) ^ Gf.Multiply(b, 0x0d) ^ Gf.Multiply(c, 0x09) ^ Gf.Multiply(d, 0x0e);
    }

    method KeyExpansion()
      requires roundKey.Length == 176 && Readable(key) && key.buf != roundKey
      modifies roundKey
      ensures Keys() == KeySchedule.Expand(At(key))
    {
      hide KeySchedule.Expand;
      ghost var k := At(key);
      ghost var w := KeySchedule.Expand(k);
      for i := 0 to 4
        invariant forall b | 0 <= b < 4 * i :: roundKey[b] == k[b]
      {
        roundKey[i * 4 + 0] := key.buf[key.off + i * 4 + 0];
        roundKey[i * 4 + 1] := key.buf[key.off + i * 4 + 1];
        roundKey[i * 4 + 2] := key.buf[key.off + i * 4 + 2];
        roundKey[i * 4 + 3] := key.buf[key.off + i * 4 + 3];
        assert roundKey[i * 4 + 0] == k[i * 4 + 0] && roundKey[i * 4 + 1] == k[i * 4 + 1];
        assert roundKey[i * 4 + 2] == k[i * 4 + 2] && roundKey[i * 4 + 3] == k[i * 4 + 3];
      }
      assert forall b | 0 <= b < 16 :: RoundKey(w, 0)[b] == w[b];
      KeySchedule.ExpandedKeyStartsWithKey(k);
      for i := 4 to 44
        invariant forall b | 0 <= b < 4 * i :: roundKey[b] == w[b]
      {
        ExpandWord(i, k);
      }
    }

    // The body of the second loop: word i from words i - 1 and i - 4.
    method ExpandWord(i: nat, ghost k: Block)
      requires roundKey.Length == 176 && 4 <= i < 44
      requires forall b | 0 <= b < 4 * i :: roundKey[b] == KeySchedule.Expand(k)[b]
      modifies roundKey
      ensures forall b | 0 <= b < 4 * i + 4 :: roundKey[b] == KeySchedule.Expand(k)[b]
    {
      hide KeySchedule.Expand, KeySchedule.ScheduleWord, KeySchedule.Temp, Xor, Gf.Add;
      ghost var w := KeySchedule.Expand(k);
      ghost var back, word := KeySchedule.ScheduleWord(k, i - 4), KeySchedule.ScheduleWord(k, i);
      KeySchedule.ExpandedBytes(k, i - 4);
      KeySchedule.ExpandedBytes(k, i - 1);
      KeySchedule.ExpandedBytes(k, i);
      var tempa := TempBytes(i, KeySchedule.ScheduleWord(k, i - 1));
      KeySchedule.WordBytes(k, i, tempa[..]);
      for j := 0 to 4
        invariant forall b | 0 <= b < 4 * i + j :: roundKey[b] == w[b]
        modifies roundKey
      {
        assert roundKey[(i - 4) * 4 + j] == back[j];
        assert w[i * 4 + j] == word[j];
        roundKey[i * 4 + j] := Gf.Add(roundKey[(i - 4) * 4 + j], tempa[j]);
      }
    }

    // What is added to word i - 4: word i - 1, rotated and substituted where i is a multiple of Nk.
    method TempBytes(i: nat, ghost prev: KeySchedule.Word) returns (tempa: array<Byte>)
      requires roundKey.Length == 176 && 4 <= i < 44
      requires forall j | 0 <= j < 4 :: roundKey[(i - 1) * 4 + j] == prev[j]
      ensures fresh(tempa) && tempa.Length == 4
      ensures tempa[..] == KeySchedule.Temp(prev, i)
    {
      hide KeySchedule.RotWord, KeySchedule.SubWord, Gf.Add;
      tempa := new Byte[4];
      for j := 0 to 4
        invariant forall m | 0 <= m < j :: tempa[m] == prev[m]
      {
        tempa[j] := roundKey[(i - 1) * 4 + j];
      }
      assert tempa[..] == prev;
      if i % 4 == 0 {
        RotWord(tempa);
        SubWord(tempa);
        tempa[0] := Gf.Add(tempa[0], KeySchedule.RCON[i / 4]);
      }
    }

    static method RotWord(tempa: array<Byte>)
      requires tempa.Length == 4
      modifies tempa
      ensures tempa[..] == KeySchedule.RotWord(old(tempa[..]))
    {
      var k := tempa[0];
      tempa[0] := tempa[1];
      tempa[1] := tempa[2];
      tempa[2] := tempa[3];
      tempa[3] := k;
    }

    static method SubWord(tempa: array<Byte>)
      requires tempa.Length == 4
      modifies tempa
      ensures tempa[..] == KeySchedule.SubWord(old(tempa[..]))
    {
      hide SBox.Sub;
      tempa[0] := SBox.Sub(tempa[0]);
      tempa[1] := SBox.Sub(tempa[1]);
      tempa[2] := SBox.Sub(tempa[2]);
      tempa[3] := SBox.Sub(tempa[3]);
    }

    method Cipher()
      requires Ready()
      modifies state.buf
      ensures State() == AesSpec.Cipher(old(State()), Keys())
      ensures Kept(state.buf, state.off, state.off + 16)
    {
      hide AesSpec.SubBytes, AesSpec.ShiftRows, AesSpec.MixColumns, AesSpec.AddRoundKey;
      ghost var w := Keys();
      AddRoundKey(0);
      for round := 1 to 10
        invariant State() == Rounds(old(State()), w, round - 1)
        invariant Kept(state.buf, state.off, state.off + 16)
      {
        SubBytes();
        ShiftRows();
        MixColumns();
        AddRoundKey(round);
      }
      SubBytes();
      ShiftRows();
      AddRoundKey(10);
    }

    method InvCipher()
      requires Ready()
      modifies state.buf
      ensures State() == AesSpec.InvCipher(old(State()), Keys())
      ensures Kept(state.buf, state.off, state.off + 16)
    {
      hide AesSpec.InvSubBytes, AesSpec.InvShiftRows, AesSpec.InvMixColumns, AesSpec.AddRoundKey;
      ghost var w := Keys();
      AddRoundKey(10);
      var round := 9;
      while round > 0
        invariant 0 <= round <= 9
        invariant State() == InvRounds(old(State()), w, round + 1)
        invariant Kept(state.buf, state.off, state.off + 16)
      {
        InvShiftRows();
        InvSubBytes();
        AddRoundKey(round);
        InvMixColumns();
        round := round - 1;
      }
      InvShiftRows();
      InvSubBytes();
      AddRoundKey(0);
    }

    static method BlockCopy(output: Ptr, input: Ptr)
      requires Readable(output) && Readable(input) && Placed(output, input, 16)
      modifies output.buf
      ensures At(output) == old(At(input))
      ensures Kept(output.buf, output.off, if output == input then output.off else output.off + 16)
    {
      ghost var t := At(input);
      for i := 0 to 16
        invariant forall p | output.off <= p < output.off + i :: output.buf[p] == t[p - output.off]
        invariant forall p | input.off + i <= p < input.off + 16 :: input.buf[p] == t[p - input.off]
        invariant Kept(output.buf, output.off, if output == input then output.off else output.off + 16)
      {
        assert t[i] == input.buf[input.off + i];
        output.buf[output.off + i] := input.buf[input.off + i];
      }
    }

    method XorWithIv(b: Ptr)
      requires Readable(b) && Readable(iv) && Apart(iv, 16, b, 16)
      modifies b.buf
      ensures At(b) == Xor(old(At(b)), old(At(iv)))
      ensures Kept(b.buf, b.off, b.off + 16)
    {
      hide Gf.Add;
      ghost var t := Xor(At(b), At(iv));
      for i := 0 to 16
        invariant forall p | b.off <= p < b.off + 16 :: b.buf[p] == if p < b.off + i then t[p - b.off] else old(b.buf[p])
        invariant Kept(b.buf, b.off, b.off + 16)
      {
        assert t[i] == Gf.Add(old(At(b))[i], old(At(iv))[i]);
        b.buf[b.off + i] := Gf.Add(b.buf[b.off + i], iv.buf[iv.off + i]);
      }
    }

    method AES128_ECB_encrypt(input: Ptr, key: Ptr, output: Ptr)
      requires roundKey.Length == 176
      requires Readable(input) && Readable(key) && Readable(output)
      requires Placed(output, input, 16) && Apart(key, 16, output, 16)
      requires output.buf != roundKey && key.buf != roundKey && input.buf != roundKey
      modifies this, roundKey, output.buf
      ensures At(output) == AesSpec.Cipher(old(At(input)), KeySchedule.Expand(old(At(key))))
      ensures Kept(output.buf, output.off, output.off + 16)
    {
      hide AesSpec.Cipher, KeySchedule.Expand;
      ghost var k := At(key);
      BlockCopy(output, input);
      state := output;
      forall b | 0 <= b < 16
        ensures key.buf[key.off + b] == k[b]
      {
        assert k[b] == old(key.buf[key.off + b]);
      }
      AtIs(key, k);
      this.key := key;
      KeyExpansion();
      Cipher();
    }

    method AES128_ECB_decrypt(input: Ptr, key: Ptr, output: Ptr)
      requires roundKey.Length == 176
      requires Readable(input) && Readable(key) && Readable(output)
      requires Placed(output, input, 16) && Apart(key, 16, output, 16)
      requires output.buf != roundKey && key.buf != roundKey && input.buf != roundKey
      modifies this, roundKey, output.buf
      ensures At(output) == AesSpec.InvCipher(old(At(input)), KeySchedule.Expand(old(At(key))))
      ensures Kept(output.buf, output.off, output.off + 16)
    {
      hide AesSpec.InvCipher, KeySchedule.Expand;
      ghost var k := At(key);
      BlockCopy(output, input);
      state := output;
      forall b | 0 <= b < 16
        ensures key.buf[key.off + b] == k[b]
      {
        assert k[b] == old(key.buf[key.off + b]);
      }
      AtIs(key, k);
      this.key := key;
      KeyExpansion();
      InvCipher();
    }

    // The body of the loop of AES128_CBC_encrypt_buffer: one block, and `Iv` moved onto its ciphertext.
    method EncryptBlock(output: Ptr, input: Ptr)
      requires roundKey.Length == 176
      requires Readable(input) && Readable(output) && Readable(iv)
      requires Placed(output, input, 16) && output.buf != roundKey && input.buf != roundKey && iv.buf != roundKey
      requires Apart(iv, 16, input, 16)
      modifies this`state, this`iv, output.buf, input.buf
      ensures output != input ==> At(input) == Xor(old(At(input)), old(At(iv)))
      ensures At(output) == AesSpec.Cipher(Xor(old(At(input)), old(At(iv))), Keys())
      ensures iv == output
      ensures KeptBoth(output, 16, input, 16)
    {
      hide AesSpec.Cipher, Xor;
      Whiten(output, input);
      ghost var x := At(input);
      state := output;
      Cipher();
      assert output != input ==> At(input) == x;
      iv := output;
    }

    // Its first two calls.
    method Whiten(output: Ptr, input: Ptr)
      requires Readable(input) && Readable(output) && Readable(iv) && Placed(output, input, 16)
      requires Apart(iv, 16, input, 16)
      modifies output.buf, input.buf
      ensures At(input) == At(output) == Xor(old(At(input)), old(At(iv)))
      ensures KeptBoth(output, 16, input, 16)
    {
      hide Xor;
      XorWithIv(input);
      ghost var x := At(input);
      BlockCopy(output, input);
      assert At(input) == x;
    }

    // The body of the loop of AES128_CBC_decrypt_buffer: one block, and `Iv` moved onto the block just read; in place
    // that is the plaintext just written.
    method DecryptBlock(output: Ptr, input: Ptr)
      requires roundKey.Length == 176
      requires Readable(input) && Readable(output) && Readable(iv)
      requires Placed(output, input, 16) && output.buf != roundKey && input.buf != roundKey && iv.buf != roundKey
      requires Apart(iv, 16, output, 16)
      modifies this`state, this`iv, output.buf
      ensures At(output) == Xor(AesSpec.InvCipher(old(At(input)), Keys()), old(At(iv)))
      ensures iv == input
      ensures Kept(output.buf, output.off, output.off + 16)
    {
      hide AesSpec.InvCipher, Xor;
      ghost var v := At(iv);
      BlockCopy(output, input);
      state := output;
      assert At(iv) == v;
      InvCipher();
      assert At(iv) == v;
      XorWithIv(output);
      iv := input;
    }

    /** The chaining block a CBC call starts from: its argument, or where the last call left `Iv`. */
    function EffectiveIv(iv: Ptr): Ptr
      reads this
    {
      if iv.Null? then this.iv else iv
    }

    /** What both CBC calls need of their arguments, apart from one condition on where the chaining block lies. */
    ghost predicate Callable(output: Ptr, input: Ptr, length: nat, key: Ptr, iv: Ptr)
      reads this
    {
      && roundKey.Length == 176
      && output.Ptr? && output.off + Touched(length) <= output.buf.Length
      && input.Ptr? && input.off + Touched(length) <= input.buf.Length
      && Placed(output, input, Touched(length)) && output.buf != roundKey && input.buf != roundKey
      && (key.Ptr? ==> Readable(key) && key.buf != roundKey && Apart(key, 16, output, 16))
      && Readable(EffectiveIv(iv)) && EffectiveIv(iv).buf != roundKey
      && Apart(EffectiveIv(iv), 16, output, Touched(length))
    }

    /** The first i bytes of a CBC encryption of p have been done: ciphertext in the output, whitened blocks in the
        input if that is another window, and `Iv` on the last ciphertext block. The rest of the input still holds p. */
    ghost predicate EncryptedUpTo(output: Ptr, input: Ptr, vector: Block, p: seq<Byte>, i: nat)
      requires |p| % 16 == 0
      reads this, roundKey, if output.Ptr? then {output.buf} else {}, if input.Ptr? then {input.buf} else {},
            if iv.Ptr? then {iv.buf} else {}
    {
      && roundKey.Length == 176 && i % 16 == 0 && i <= |p|
      && output.Ptr? && output.off + |p| <= output.buf.Length
      && input.Ptr? && input.off + |p| <= input.buf.Length
      && Placed(output, input, |p|) && output.buf != roundKey && input.buf != roundKey
      && Window(output, i) == Cbc.Encrypt(Enciphering(Keys()), vector, p[..i])
      && (output != input ==> Window(input, i) == Cbc.Whitened(Enciphering(Keys()), vector, p[..i]))
      && input.buf[input.off + i..input.off + |p|] == p[i..]
      && Readable(iv) && At(iv) == Cbc.Last(vector, Window(output, i))
      && (i == 0 ==> iv.buf != roundKey && Apart(iv, 16, input, |p|))
      && (i > 0 ==> iv == Ptr(output.buf, output.off + i - 16))
    }

    // One turn of the loop of AES128_CBC_encrypt_buffer.
    method EncryptNext(output: Ptr, input: Ptr, ghost vector: Block, ghost p: seq<Byte>, i: nat)
      requires |p| % 16 == 0 && i + 16 <= |p| && EncryptedUpTo(output, input, vector, p, i)
      modifies this`state, this`iv, output.buf, input.buf
      ensures EncryptedUpTo(output, input, vector, p, i + 16) && iv == Ptr(output.buf, output.off + i)
      ensures KeptBoth(Ptr(output.buf, output.off + i), 16, Ptr(input.buf, input.off + i), 16)
    {
      hide AesSpec.Cipher, Xor, Cbc.Encrypt, Cbc.Whitened, Cbc.Last;
      BlockOfRest(input, p, i);
      ghost var whitened := Xor(p[i..i + 16], Cbc.Last(vector, Window(output, i)));
      EncryptBlockAt(output, input, |p|, i);
      EncryptedNext(output, input, vector, p, i, whitened);
    }

    // That turn, and what it leaves alone: the blocks before, and those still to come.
    method EncryptBlockAt(output: Ptr, input: Ptr, ghost n: nat, i: nat)
      requires roundKey.Length == 176 && Placed(output, input, n) && i + 16 <= n
      requires output.off + n <= output.buf.Length && input.off + n <= input.buf.Length
      requires output.buf != roundKey && input.buf != roundKey
      requires Readable(iv) && iv.buf != roundKey && Apart(iv, 16, Ptr(input.buf, input.off + i), 16)
      modifies this`state, this`iv, output.buf, input.buf
      ensures iv == Ptr(output.buf, output.off + i)
      ensures At(iv) == AesSpec.Cipher(Xor(old(At(Ptr(input.buf, input.off + i))), old(At(iv))), Keys())
      ensures output != input ==> At(Ptr(input.buf, input.off + i)) == Xor(old(At(Ptr(input.buf, input.off + i))), old(At(iv)))
      ensures Window(output, i) == old(Window(output, i)) && (output != input ==> Window(input, i) == old(Window(input, i)))
      ensures input.buf[input.off + i + 16..input.off + n] == old(input.buf[input.off + i + 16..input.off + n])
      ensures KeptBoth(Ptr(output.buf, output.off + i), 16, Ptr(input.buf, input.off + i), 16)
    {
      hide AesSpec.Cipher, Xor;
      var o, q := Ptr(output.buf, output.off + i), Ptr(input.buf, input.off + i);
      EncryptBlock(o, q);
    }

    lemma EncryptedNext(output: Ptr, input: Ptr, vector: Block, p: seq<Byte>, i: nat, whitened: Block)
      requires |p| % 16 == 0 && i % 16 == 0 && i + 16 <= |p|
      requires roundKey.Length == 176
      requires output.Ptr? && output.off + |p| <= output.buf.Length && input.Ptr? && input.off + |p| <= input.buf.Length
      requires Placed(output, input, |p|) && output.buf != roundKey && input.buf != roundKey
      requires Window(output, i) == Cbc.Encrypt(Enciphering(Keys()), vector, p[..i])
      requires output != input ==> Window(input, i) == Cbc.Whitened(Enciphering(Keys()), vector, p[..i])
      requires input.buf[input.off + i + 16..input.off + |p|] == p[i + 16..]
      requires iv == Ptr(output.buf, output.off + i)
      requires whitened == Xor(p[i..i + 16], Cbc.Last(vector, Window(output, i)))
      requires output != input ==> At(Ptr(input.buf, input.off + i)) == whitened
      requires At(iv) == AesSpec.Cipher(whitened, Keys())
      ensures EncryptedUpTo(output, input, vector, p, i + 16)
    {
      hide AesSpec.Cipher, Xor, Cbc.Encrypt, Cbc.Whitened, Cbc.Last;
      WindowGrows(output, i);
      WindowGrows(input, i);
      var x := Cbc.Whitened(Enciphering(Keys()), vector, p[..i]);
      Cbc.Advance(Enciphering(Keys()), vector, p, i, Window(output, i), x, whitened, At(iv));
    }

    // A block copied, with its bytes from r on cleared.
    static method CopyCleared(output: Ptr, input: Ptr, r: nat)
      requires Readable(output) && Readable(input) && Placed(output, input, 16) && r <= 16
      modifies output.buf
      ensures At(output) == ZeroTail(old(At(input)), r)
      ensures Kept(output.buf, output.off, output.off + 16)
    {
      hide ZeroTail;
      ghost var c, t := At(input), ZeroTail(At(input), r);
      ZeroTailBytes(c, r);
      BlockCopy(output, input);
      assert forall p | output.off <= p < output.off + 16 :: output.buf[p] == At(output)[p - output.off];
      for j := r to 16
        invariant forall p | output.off <= p < output.off + 16 ::
                    output.buf[p] == if p < output.off + j then t[p - output.off] else c[p - output.off]
        invariant Kept(output.buf, output.off, output.off + 16)
      {
        output.buf[output.off + j] := 0;
      }
    }

    // The branch for a length that is not a multiple of 16, behind the `full` bytes the loop has done.
    method EncryptTail(ghost output: Ptr, ghost input: Ptr, o: Ptr, q: Ptr, remainders: nat, ghost full: nat)
      requires roundKey.Length == 176 && Readable(o) && Readable(q) && remainders < 16
      requires Placed(output, input, full + 16) && o.buf != roundKey
      requires o == Ptr(output.buf, output.off + full) && q == Ptr(input.buf, input.off + full)
      modifies this`state, o.buf
      ensures Window(output, full + 16) == old(Window(output, full)) + AesSpec.Cipher(ZeroTail(old(At(q)), remainders), Keys())
      ensures output != input ==> Window(input, full) == old(Window(input, full))
      ensures Kept(o.buf, o.off, o.off + 16)
    {
      hide AesSpec.Cipher, ZeroTail;
      ghost var done := Window(output, full);
      CopyCleared(o, q, remainders);
      state := o;
      Cipher();
      forall k | 0 <= k < full
        ensures output.buf[output.off + k] == done[k]
      {
        assert done[k] == old(output.buf[output.off + k]);
      }
      WindowIs(output, done);
      WindowGrows(output, full);
    }

    // How both CBC calls begin: a first copy, and the key and chaining block where they are given.
    method Begin(output: Ptr, input: Ptr, length: nat, key: Ptr, iv: Ptr)
      requires Callable(output, input, length, key, iv)
      modifies this, roundKey, output.buf
      ensures Callable(output, input, length, Null, Null)
      ensures Keys() == if key.Null? then old(Keys()) else KeySchedule.Expand(old(At(key)))
      ensures this.iv == old(EffectiveIv(iv)) && At(this.iv) == old(At(EffectiveIv(iv)))
      ensures At(output) == At(input) && Window(input, Touched(length)) == old(Window(input, Touched(length)))
      ensures Kept(output.buf, output.off, output.off + 16)
    {
      hide KeySchedule.Expand, Touched;
      TouchedIsCoveredAndTail(length);
      FirstCopy(output, input, Touched(length), key, EffectiveIv(iv));
      if key != Null {
        this.key := key;
        KeyExpansion();
      }
      if iv != Null {
        this.iv := iv;
      }
    }

    // The first copy changes neither the input nor the key nor the chaining block.
    method FirstCopy(output: Ptr, input: Ptr, ghost n: nat, ghost key: Ptr, ghost vector: Ptr)
      requires n >= 16 && Placed(output, input, n)
      requires output.off + n <= output.buf.Length && input.off + n <= input.buf.Length
      requires Readable(vector) && Apart(vector, 16, output, 16)
      requires key.Ptr? ==> Readable(key) && Apart(key, 16, output, 16)
      modifies this`state, output.buf
      ensures state == output && At(output) == At(input) && Window(input, n) == old(Window(input, n))
      ensures At(vector) == old(At(vector)) && (key.Ptr? ==> At(key) == old(At(key)))
      ensures Kept(output.buf, output.off, output.off + 16)
    {
      ghost var v := At(vector);
      ghost var k := if key.Ptr? then At(key) else v;
      CopyKeepsInput(output, input, n);
      forall b | 0 <= b < 16
        ensures vector.buf[vector.off + b] == v[b] && (key.Ptr? ==> key.buf[key.off + b] == k[b])
      {
        assert v[b] == old(vector.buf[vector.off + b]) && (key.Ptr? ==> k[b] == old(key.buf[key.off + b]));
      }
      AtIs(vector, v);
      if key.Ptr? {
        AtIs(key, k);
      }
    }

    method CopyKeepsInput(output: Ptr, input: Ptr, ghost n: nat)
      requires n >= 16 && Placed(output, input, n)
      requires output.off + n <= output.buf.Length && input.off + n <= input.buf.Length
      modifies this`state, output.buf
      ensures state == output && At(output) == At(input) && Window(input, n) == old(Window(input, n))
      ensures Kept(output.buf, output.off, output.off + 16)
    {
      ghost var p := Window(input, n);
      BlockCopy(output, input);
      state := output;
      forall k | 0 <= k < n
        ensures input.buf[input.off + k] == p[k]
      {
        assert p[k] == old(input.buf[input.off + k]);
      }
      WindowIs(input, p);
      assert At(input) == p[..16];
    }

    // The loop of AES128_CBC_encrypt_buffer, over the `full` first bytes of p. It leaves the two pointers behind them.
    method EncryptBlocks(output: Ptr, input: Ptr, length: nat, ghost p: seq<Byte>, ghost full: nat) returns (o: Ptr, q: Ptr)
      requires full == Covered(length) <= |p| && |p| % 16 == 0 && output.Ptr? && input.Ptr?
      requires roundKey.Length == 176 && Readable(iv) && EncryptedUpTo(output, input, At(iv), p, 0)
      modifies this`state, this`iv, output.buf, input.buf
      ensures EncryptedUpTo(output, input, old(At(iv)), p, full)
      ensures iv == if length == 0 then old(iv) else Ptr(output.buf, output.off + full - 16)
      ensures o == Ptr(output.buf, output.off + full) && q == Ptr(input.buf, input.off + full)
      ensures KeptBoth(output, full, input, full) && (length == 0 ==> unchanged(output.buf))
    {
      hide EncryptedUpTo, Covered;
      ghost var vector := At(iv);
      var i := 0;
      while i < length
        invariant 0 <= i <= full && i % 16 == 0 && EncryptedUpTo(output, input, vector, p, i)
        invariant iv == if i == 0 then old(iv) else Ptr(output.buf, output.off + i - 16)
        invariant KeptBoth(output, i, input, i) && (i == 0 ==> unchanged(output.buf))
      {
        EncryptNext(output, input, vector, p, i);
        i := i + 16;
      }
      o, q := Ptr(output.buf, output.off + i), Ptr(input.buf, input.off + i);
    }

    lemma NothingEncrypted(output: Ptr, input: Ptr, length: nat, p: seq<Byte>)
      requires Callable(output, input, length, Null, Null)
      requires Apart(iv, 16, input, Touched(length)) && p == Window(input, Touched(length))
      ensures EncryptedUpTo(output, input, At(iv), p, 0)
    {
      hide Cbc.Encrypt, Cbc.Whitened, Cbc.Last, Covered;
      Cbc.Empty(Enciphering(Keys()), At(iv));
      assert p[..0] == [] && Window(output, 0) == [] && Window(input, 0) == [];
    }

    lemma AllEncrypted(output: Ptr, input: Ptr, vector: Block, p: seq<Byte>, full: nat)
      requires |p| % 16 == 0 && EncryptedUpTo(output, input, vector, p, full)
      ensures output.off + |p| <= output.buf.Length && input.off + |p| <= input.buf.Length
      ensures Window(output, full) == Cbc.Encrypt(Enciphering(Keys()), vector, p[..full])
      ensures output != input ==> Window(input, full) == Cbc.Whitened(Enciphering(Keys()), vector, p[..full])
      ensures full + 16 == |p| ==> At(Ptr(input.buf, input.off + full)) == p[full..]
    {
      hide Cbc.Encrypt, Cbc.Whitened, Cbc.Last;
    }

    method AES128_CBC_encrypt_buffer(output: Ptr, input: Ptr, length: nat, key: Ptr, iv: Ptr)
      requires Callable(output, input, length, key, iv)
      requires Apart(EffectiveIv(iv), 16, input, Touched(length))
      modifies this, roundKey, output.buf, input.buf
      ensures Keys() == if key.Null? then old(Keys()) else KeySchedule.Expand(old(At(key)))
      ensures Window(output, Touched(length)) ==
              EncryptedBuffer(Keys(), old(At(EffectiveIv(iv))), old(Window(input, Touched(length))), length)
      ensures output != input ==>
              Window(input, Covered(length)) ==
              Cbc.Whitened(Enciphering(Keys()), old(At(EffectiveIv(iv))), old(Window(input, Touched(length)))[..Covered(length)])
      ensures this.iv == if length == 0 then old(EffectiveIv(iv)) else Ptr(output.buf, output.off + Covered(length) - 16)
      ensures KeptBoth(output, Touched(length), input, Covered(length))
    {
      hide KeySchedule.Expand, Cbc.Whitened, Covered, Touched, EncryptedBuffer, Enciphering;
      ghost var p := Window(input, Touched(length));
      TouchedIsCoveredAndTail(length);
      Begin(output, input, length, key, iv);
      EncryptAll(output, input, length, p);
    }

    // The rest of the call: the loop, and the branch for a length that is not a multiple of 16.
    method EncryptAll(output: Ptr, input: Ptr, length: nat, ghost p: seq<Byte>)
      requires Callable(output, input, length, Null, Null) && At(output) == At(input)
      requires Apart(iv, 16, input, Touched(length)) && p == Window(input, Touched(length))
      modifies this`state, this`iv, output.buf, input.buf
      ensures Window(output, Touched(length)) == EncryptedBuffer(Keys(), old(At(iv)), p, length)
      ensures output != input ==>
              Window(input, Covered(length)) == Cbc.Whitened(Enciphering(Keys()), old(At(iv)), p[..Covered(length)])
      ensures iv == if length == 0 then old(iv) else Ptr(output.buf, output.off + Covered(length) - 16)
      ensures KeptBoth(output, Touched(length), input, Covered(length))
    {
      hide AesSpec.Cipher, Cbc.Encrypt, Cbc.Whitened, Covered, Touched, EncryptedBuffer, ZeroTail, EncryptedUpTo, KeptBoth;
      TouchedIsCoveredAndTail(length);
      EncryptedBufferParts(Keys(), At(iv), p, length);
      ghost var n := Touched(length);
      assert length == 0 ==> At(output) == Window(output, n) && At(input) == Window(input, n);
      NothingEncrypted(output, input, length, p);
      LoopAndTail(output, input, length, p, Covered(length));
    }

    method LoopAndTail(output: Ptr, input: Ptr, length: nat, ghost p: seq<Byte>, ghost full: nat)
      requires full == Covered(length) <= |p| && |p| % 16 == 0 && (length % 16 != 0 ==> |p| == full + 16)
      requires roundKey.Length == 176 && Placed(output, input, |p|) && output.buf != roundKey
      requires Readable(iv) && EncryptedUpTo(output, input, At(iv), p, 0)
      modifies this`state, this`iv, output.buf, input.buf
      ensures output.off + |p| <= output.buf.Length && input.off + |p| <= input.buf.Length
      ensures length % 16 == 0 ==> Window(output, full) == Cbc.Encrypt(Enciphering(Keys()), old(At(iv)), p[..full])
      ensures length % 16 != 0 ==>
              Window(output, full + 16) == Cbc.Encrypt(Enciphering(Keys()), old(At(iv)), p[..full])
                                           + AesSpec.Cipher(ZeroTail(p[full..], length % 16), Keys())
      ensures output != input ==> Window(input, full) == Cbc.Whitened(Enciphering(Keys()), old(At(iv)), p[..full])
      ensures iv == if length == 0 then old(iv) else Ptr(output.buf, output.off + full - 16)
      ensures KeptBoth(output, |p|, input, full) && (length == 0 ==> unchanged(output.buf))
    {
      hide AesSpec.Cipher, Cbc.Encrypt, Cbc.Whitened, Covered, ZeroTail, EncryptedUpTo, Enciphering;
      var remainders := length % 16;
      var o, q := EncryptBlocks(output, input, length, p, full);
      AllEncrypted(output, input, old(At(iv)), p, full);
      if remainders != 0 {
        EncryptTail(output, input, o, q, remainders, full);
      }
    }

    /** The first i bytes of a CBC decryption of c have been done, the rest of the input still holds c, and `Iv` is on
        the last block of the input that has been used. */
    ghost predicate DecryptedUpTo(output: Ptr, input: Ptr, vector: Block, c: seq<Byte>, i: nat)
      requires |c| % 16 == 0
      reads this, roundKey, if output.Ptr? then {output.buf} else {}, if input.Ptr? then {input.buf} else {},
            if iv.Ptr? then {iv.buf} else {}
    {
      && roundKey.Length == 176 && i % 16 == 0 && i <= |c|
      && output.Ptr? && output.off + |c| <= output.buf.Length
      && input.Ptr? && input.off + |c| <= input.buf.Length
      && Placed(output, input, |c|) && output.buf != roundKey && input.buf != roundKey
      && Window(output, i) == Decryption(output == input, Keys(), vector, c[..i])
      && input.buf[input.off + i..input.off + |c|] == c[i..]
      && Readable(iv) && At(iv) == Cbc.Last(vector, if output == input then Window(output, i) else c[..i])
      && (i == 0 ==> iv.buf != roundKey && Apart(iv, 16, output, |c|))
      && (i > 0 ==> iv == Ptr(input.buf, input.off + i - 16))
    }

    // One turn of the loop of AES128_CBC_decrypt_buffer.
    method DecryptNext(output: Ptr, input: Ptr, ghost vector: Block, ghost c: seq<Byte>, i: nat)
      requires |c| % 16 == 0 && i + 16 <= |c| && DecryptedUpTo(output, input, vector, c, i)
      modifies this`state, this`iv, output.buf
      ensures DecryptedUpTo(output, input, vector, c, i + 16) && iv == Ptr(input.buf, input.off + i)
      ensures Kept(output.buf, output.off + i, output.off + i + 16)
    {
      hide AesSpec.InvCipher, Xor, Decryption, Cbc.Last;
      BlockOfRest(input, c, i);
      ghost var last := At(iv);
      DecryptBlockAt(output, input, |c|, i);
      DecryptedNext(output, input, vector, c, i, last);
    }

    // That turn, and what it leaves alone: the blocks before, and those still to come.
    method DecryptBlockAt(output: Ptr, input: Ptr, ghost n: nat, i: nat)
      requires roundKey.Length == 176 && Placed(output, input, n) && i + 16 <= n
      requires output.off + n <= output.buf.Length && input.off + n <= input.buf.Length
      requires output.buf != roundKey && input.buf != roundKey
      requires Readable(iv) && iv.buf != roundKey && Apart(iv, 16, Ptr(output.buf, output.off + i), 16)
      modifies this`state, this`iv, output.buf
      ensures iv == Ptr(input.buf, input.off + i)
      ensures At(Ptr(output.buf, output.off + i)) == Xor(AesSpec.InvCipher(old(At(Ptr(input.buf, input.off + i))), Keys()), old(At(iv)))
      ensures Window(output, i) == old(Window(output, i))
      ensures output != input ==> At(Ptr(input.buf, input.off + i)) == old(At(Ptr(input.buf, input.off + i)))
      ensures input.buf[input.off + i + 16..input.off + n] == old(input.buf[input.off + i + 16..input.off + n])
      ensures Kept(output.buf, output.off + i, output.off + i + 16)
    {
      hide AesSpec.InvCipher, Xor;
      DecryptBlock(Ptr(output.buf, output.off + i), Ptr(input.buf, input.off + i));
    }

    lemma DecryptedNext(output: Ptr, input: Ptr, vector: Block, c: seq<Byte>, i: nat, last: Block)
      requires |c| % 16 == 0 && i % 16 == 0 && i + 16 <= |c|
      requires roundKey.Length == 176
      requires output.Ptr? && output.off + |c| <= output.buf.Length && input.Ptr? && input.off + |c| <= input.buf.Length
      requires Placed(output, input, |c|) && output.buf != roundKey && input.buf != roundKey
      requires Window(output, i) == Decryption(output == input, Keys(), vector, c[..i])
      requires input.buf[input.off + i + 16..input.off + |c|] == c[i + 16..]
      requires iv == Ptr(input.buf, input.off + i)
      requires output != input ==> At(iv) == c[i..i + 16]
      requires last == Cbc.Last(vector, if output == input then Window(output, i) else c[..i])
      requires At(Ptr(output.buf, output.off + i)) == Xor(AesSpec.InvCipher(c[i..i + 16], Keys()), last)
      ensures DecryptedUpTo(output, input, vector, c, i + 16)
    {
      hide AesSpec.InvCipher, Xor, Cbc.Decrypt, Cbc.DecryptInPlace, Cbc.Last;
      WindowGrows(output, i);
      var plain := At(Ptr(output.buf, output.off + i));
      if output == input {
        Cbc.AdvanceInPlace(Deciphering(Keys()), vector, c, i, Window(output, i), plain);
      } else {
        Cbc.AdvanceBack(Deciphering(Keys()), vector, c, i, Window(output, i), plain);
      }
    }

    // The loop of AES128_CBC_decrypt_buffer, over the `full` first bytes of c. It leaves the two pointers behind them.
    method DecryptBlocks(output: Ptr, input: Ptr, length: nat, ghost c: seq<Byte>, ghost full: nat) returns (o: Ptr, q: Ptr)
      requires full == Covered(length) <= |c| && |c| % 16 == 0 && output.Ptr? && input.Ptr?
      requires roundKey.Length == 176 && Readable(iv) && DecryptedUpTo(output, input, At(iv), c, 0)
      modifies this`state, this`iv, output.buf
      ensures DecryptedUpTo(output, input, old(At(iv)), c, full)
      ensures iv == if length == 0 then old(iv) else Ptr(input.buf, input.off + full - 16)
      ensures o == Ptr(output.buf, output.off + full) && q == Ptr(input.buf, input.off + full)
      ensures Kept(output.buf, output.off, output.off + full)
    {
      hide DecryptedUpTo, Covered;
      ghost var vector := At(iv);
      var i := 0;
      while i < length
        invariant 0 <= i <= full && i % 16 == 0 && DecryptedUpTo(output, input, vector, c, i)
        invariant iv == if i == 0 then old(iv) else Ptr(input.buf, input.off + i - 16)
        invariant Kept(output.buf, output.off, output.off + i)
      {
        DecryptNext(output, input, vector, c, i);
        i := i + 16;
      }
      o, q := Ptr(output.buf, output.off + i), Ptr(input.buf, input.off + i);
    }

    lemma NothingDecrypted(output: Ptr, input: Ptr, length: nat, c: seq<Byte>)
      requires Callable(output, input, length, Null, Null) && c == Window(input, Touched(length))
      ensures DecryptedUpTo(output, input, At(iv), c, 0)
    {
      hide Cbc.Decrypt, Cbc.DecryptInPlace, Cbc.Last, Covered;
      Cbc.Empty(Deciphering(Keys()), At(iv));
      assert c[..0] == [] && Window(output, 0) == [];
    }

    lemma AllDecrypted(output: Ptr, input: Ptr, vector: Block, c: seq<Byte>, full: nat)
      requires |c| % 16 == 0 && DecryptedUpTo(output, input, vector, c, full)
      ensures output.off + |c| <= output.buf.Length && input.off + |c| <= input.buf.Length
      ensures Window(output, full) == Decryption(output == input, Keys(), vector, c[..full])
      ensures full + 16 == |c| ==> At(Ptr(input.buf, input.off + full)) == c[full..]
    {
      hide Decryption, Cbc.Last;
    }

    // The branch for a length that is not a multiple of 16.
    method DecryptTail(ghost output: Ptr, o: Ptr, q: Ptr, remainders: nat, ghost full: nat)
      requires roundKey.Length == 176 && Readable(o) && Readable(q) && remainders < 16
      requires Placed(o, q, 16) && o.buf != roundKey
      requires output.Ptr? && o == Ptr(output.buf, output.off + full)
      modifies this`state, o.buf
      ensures Window(output, full + 16) == old(Window(output, full)) + AesSpec.InvCipher(ZeroTail(old(At(q)), remainders), Keys())
      ensures Kept(o.buf, o.off, o.off + 16)
    {
      hide AesSpec.InvCipher, ZeroTail;
      ghost var done := Window(output, full);
      CopyCleared(o, q, remainders);
      state := o;
      InvCipher();
      forall k | 0 <= k < full
        ensures output.buf[output.off + k] == done[k]
      {
        assert done[k] == old(output.buf[output.off + k]);
      }
      WindowIs(output, done);
      WindowGrows(output, full);
    }

    method AES128_CBC_decrypt_buffer(output: Ptr, input: Ptr, length: nat, key: Ptr, iv: Ptr)
      requires Callable(output, input, length, key, iv)
      modifies this, roundKey, output.buf
      ensures Keys() == if key.Null? then old(Keys()) else KeySchedule.Expand(old(At(key)))
      ensures output != input ==>
              Window(output, Touched(length)) ==
              DecryptedBuffer(Keys(), old(At(EffectiveIv(iv))), old(Window(input, Touched(length))), length)
      ensures output == input ==>
              Window(output, Touched(length)) ==
              DecryptedInPlace(Keys(), old(At(EffectiveIv(iv))), old(Window(input, Touched(length))), length)
      ensures this.iv == if length == 0 then old(EffectiveIv(iv)) else Ptr(input.buf, input.off + Covered(length) - 16)
      ensures Kept(output.buf, output.off, output.off + Touched(length))
    {
      hide KeySchedule.Expand, Covered, Touched, DecryptedBuffer, DecryptedInPlace, Deciphering;
      ghost var c := Window(input, Touched(length));
      TouchedIsCoveredAndTail(length);
      Begin(output, input, length, key, iv);
      DecryptAll(output, input, length, c);
    }

    // The rest of the call: the loop, and the branch for a length that is not a multiple of 16.
    method DecryptAll(output: Ptr, input: Ptr, length: nat, ghost c: seq<Byte>)
      requires Callable(output, input, length, Null, Null) && At(output) == At(input)
      requires c == Window(input, Touched(length))
      modifies this`state, this`iv, output.buf
      ensures output != input ==> Window(output, Touched(length)) == DecryptedBuffer(Keys(), old(At(iv)), c, length)
      ensures output == input ==> Window(output, Touched(length)) == DecryptedInPlace(Keys(), old(At(iv)), c, length)
      ensures iv == if length == 0 then old(iv) else Ptr(input.buf, input.off + Covered(length) - 16)
      ensures Kept(output.buf, output.off, output.off + Touched(length))
    {
      hide AesSpec.InvCipher, Decryption, Covered, Touched, DecryptedBuffer, DecryptedInPlace, ZeroTail, DecryptedUpTo, Kept;
      TouchedIsCoveredAndTail(length);
      DecryptionParts(Keys(), At(iv), c, length);
      assert length == 0 ==> At(output) == Window(output, |c|) && At(input) == Window(input, |c|);
      NothingDecrypted(output, input, length, c);
      UndoLoopAndTail(output, input, length, c, Covered(length));
    }

    method UndoLoopAndTail(output: Ptr, input: Ptr, length: nat, ghost c: seq<Byte>, ghost full: nat)
      requires full == Covered(length) <= |c| && |c| % 16 == 0 && (length % 16 != 0 ==> |c| == full + 16)
      requires roundKey.Length == 176 && Placed(output, input, |c|) && output.buf != roundKey
      requires Readable(iv) && DecryptedUpTo(output, input, At(iv), c, 0)
      modifies this`state, this`iv, output.buf
      ensures output.off + |c| <= output.buf.Length
      ensures length % 16 == 0 ==> Window(output, full) == Decryption(output == input, Keys(), old(At(iv)), c[..full])
      ensures length % 16 != 0 ==>
              Window(output, full + 16) == Decryption(output == input, Keys(), old(At(iv)), c[..full])
                                           + AesSpec.InvCipher(ZeroTail(c[full..], length % 16), Keys())
      ensures iv == if length == 0 then old(iv) else Ptr(input.buf, input.off + full - 16)
      ensures Kept(output.buf, output.off, output.off + |c|) && (length == 0 ==> Window(output, |c|) == old(Window(output, |c|)))
    {
      hide AesSpec.InvCipher, Decryption, Covered, ZeroTail, DecryptedUpTo, Deciphering;
      var remainders := length % 16;
      var o, q := DecryptBlocks(output, input, length, c, full);
      AllDecrypted(output, input, old(At(iv)), c, full);
      if remainders != 0 {
        DecryptTail(output, o, q, remainders, full);
      }
    }
  }

  lemma TouchedIsCoveredAndTail(length: nat)
    ensures Touched(length) == if length == 0 then 16 else Covered(length) + if length % 16 == 0 then 0 else 16
    ensures length == 0 ==> Covered(length) == 0
    ensures length > 0 ==> Covered(length) > 0
    ensures Touched(length) >= 16
  {}

  // The cases of the two functions, as the code goes through them.
  lemma EncryptedBufferParts(w: Schedule, iv: Block, p: seq<Byte>, length: nat)
    requires |p| == Touched(length)
    ensures length == 0 ==> EncryptedBuffer(w, iv, p, length) == p
    ensures length > 0 && length % 16 == 0 ==>
              EncryptedBuffer(w, iv, p, length) == Cbc.Encrypt(Enciphering(w), iv, p[..Covered(length)])
    ensures length % 16 != 0 ==>
              EncryptedBuffer(w, iv, p, length) ==
              Cbc.Encrypt(Enciphering(w), iv, p[..Covered(length)]) + AesSpec.Cipher(ZeroTail(p[Covered(length)..], length % 16), w)
  {
    hide AesSpec.Cipher, Cbc.Encrypt, ZeroTail, Covered;
  }

  lemma DecryptedBufferParts(w: Schedule, iv: Block, c: seq<Byte>, length: nat)
    requires |c| == Touched(length)
    ensures length == 0 ==> DecryptedBuffer(w, iv, c, length) == c
    ensures length > 0 && length % 16 == 0 ==>
              DecryptedBuffer(w, iv, c, length) == Cbc.Decrypt(Deciphering(w), iv, c[..Covered(length)])
    ensures length % 16 != 0 ==>
              DecryptedBuffer(w, iv, c, length) ==
              Cbc.Decrypt(Deciphering(w), iv, c[..Covered(length)]) + AesSpec.InvCipher(ZeroTail(c[Covered(length)..], length % 16), w)
  {
    hide AesSpec.InvCipher, Cbc.Decrypt, ZeroTail, Covered;
  }

  // The same for both places of the output, in the terms of the loop.
  lemma DecryptionParts(w: Schedule, iv: Block, c: seq<Byte>, length: nat)
    requires |c| == Touched(length)
    ensures length == 0 ==> DecryptedBuffer(w, iv, c, length) == DecryptedInPlace(w, iv, c, length) == c
    ensures length > 0 && length % 16 == 0 ==>
              && DecryptedBuffer(w, iv, c, length) == Decryption(false, w, iv, c[..Covered(length)])
              && DecryptedInPlace(w, iv, c, length) == Decryption(true, w, iv, c[..Covered(length)])
    ensures length % 16 != 0 ==>
              var tail := AesSpec.InvCipher(ZeroTail(c[Covered(length)..], length % 16), w);
              && DecryptedBuffer(w, iv, c, length) == Decryption(false, w, iv, c[..Covered(length)]) + tail
              && DecryptedInPlace(w, iv, c, length) == Decryption(true, w, iv, c[..Covered(length)]) + tail
  {
    hide AesSpec.InvCipher, Cbc.Decrypt, Cbc.DecryptInPlace, ZeroTail, Covered;
  }

  lemma AtIs(p: Ptr, s: Block)
    requires Readable(p) && forall k | 0 <= k < 16 :: p.buf[p.off + k] == s[k]
    ensures At(p) == s
  {}

  lemma WindowIs(p: Ptr, s: seq<Byte>)
    requires p.Ptr? && p.off + |s| <= p.buf.Length && forall k | 0 <= k < |s| :: p.buf[p.off + k] == s[k]
    ensures Window(p, |s|) == s
  {}

  lemma SplitWindow(q: Ptr, rest: seq<Byte>)
    requires q.Ptr? && 16 <= |rest| && q.off + |rest| <= q.buf.Length && Window(q, |rest|) == rest
    ensures At(q) == rest[..16] && q.buf[q.off + 16..q.off + |rest|] == rest[16..]
  {
    assert At(q) == Window(q, |rest|)[..16];
    assert q.buf[q.off + 16..q.off + |rest|] == Window(q, |rest|)[16..];
  }

  lemma BlockOfRest(input: Ptr, p: seq<Byte>, i: nat)
    requires input.Ptr? && i + 16 <= |p| && input.off + |p| <= input.buf.Length && input.buf[input.off + i..input.off + |p|] == p[i..]
    ensures At(Ptr(input.buf, input.off + i)) == p[i..i + 16]
    ensures input.buf[input.off + i + 16..input.off + |p|] == p[i + 16..]
  {
    SplitWindow(Ptr(input.buf, input.off + i), p[i..]);
    assert p[i..][..16] == p[i..i + 16] && p[i..][16..] == p[i + 16..];
  }

  lemma WindowGrows(p: Ptr, i: nat)
    requires p.Ptr? && p.off + i + 16 <= p.buf.Length
    ensures Window(p, i + 16) == Window(p, i) + At(Ptr(p.buf, p.off + i))
  {}

  /** The two block functions of one expanded key undo each other. */
  lemma BlockFunctionsInverse(w: Schedule)
    ensures Cbc.Inverse(Deciphering(w), Enciphering(w))
    ensures Cbc.Inverse(Enciphering(w), Deciphering(w))
  {
    hide AesSpec.Cipher, AesSpec.InvCipher;
    forall b: Block
      ensures Deciphering(w)(Enciphering(w)(b)) == b && Enciphering(w)(Deciphering(w)(b)) == b
    {
      InvCipherInverse(b, w);
    }
  }

  /** Decrypting what was encrypted gives back every covered byte, for every key, initial vector and length; for a
      multiple of 16 that is the whole buffer. */
  lemma BufferRoundTrip(w: Schedule, iv: Block, p: seq<Byte>, length: nat)
    requires |p| == Touched(length)
    ensures DecryptedBuffer(w, iv, EncryptedBuffer(w, iv, p, length), length)[..Covered(length)] == p[..Covered(length)]
    ensures length % 16 == 0 ==> DecryptedBuffer(w, iv, EncryptedBuffer(w, iv, p, length), length) == p
  {
    hide AesSpec.Cipher, AesSpec.InvCipher, Cbc.Encrypt, Cbc.Decrypt, Enciphering, Deciphering, ZeroTail, Covered;
    var n := Covered(length);
    BlockFunctionsInverse(w);
    var c := EncryptedBuffer(w, iv, p, length);
    assert length > 0 ==> c[..n] == Cbc.Encrypt(Enciphering(w), iv, p[..n]);
    Cbc.RoundTrip(Deciphering(w), Enciphering(w), iv, p[..n]);
  }

  /** What a decryption writes in place is the plaintext exactly when every covered block but the last decrypts to itself.
      For one block that is always so; a longer message is decrypted in place only by coincidence. */
  lemma InPlaceDecryption(w: Schedule, iv: Block, c: seq<Byte>, length: nat)
    requires |c| == Touched(length) && length > 0
    ensures var n := Covered(length);
            DecryptedInPlace(w, iv, c, length) == DecryptedBuffer(w, iv, c, length) <==>
            DecryptedBuffer(w, iv, c, length)[..n - 16] == c[..n - 16]
    ensures length <= 16 ==> DecryptedInPlace(w, iv, c, length) == DecryptedBuffer(w, iv, c, length)
  {
    hide AesSpec.InvCipher, Cbc.Decrypt, Cbc.DecryptInPlace, Deciphering, ZeroTail, Covered;
    var n := Covered(length);
    var p, q := Cbc.Decrypt(Deciphering(w), iv, c[..n]), Cbc.DecryptInPlace(Deciphering(w), iv, c[..n]);
    Cbc.InPlaceIffFixed(Deciphering(w), iv, c[..n]);
    assert DecryptedBuffer(w, iv, c, length)[..n] == p && DecryptedInPlace(w, iv, c, length)[..n] == q;
    assert DecryptedBuffer(w, iv, c, length)[..n - 16] == p[..n - 16] && c[..n][..n - 16] == c[..n - 16];
    assert DecryptedBuffer(w, iv, c, length)[n..] == DecryptedInPlace(w, iv, c, length)[n..];
  }

  /** It does fail: for every key and every ciphertext of more than one block there is an initial vector for which the
      in-place call gives another result. */
  lemma InPlaceFails(w: Schedule, c: seq<Byte>, length: nat) returns (iv: Block)
    requires |c| == Touched(length) && length > 16
    ensures DecryptedInPlace(w, iv, c, length) != DecryptedBuffer(w, iv, c, length)
  {
    hide AesSpec.InvCipher, Cbc.Decrypt, Cbc.DecryptInPlace, Xor, DecryptedInPlace;
    var n, d, first := Covered(length), Deciphering(w), c[..16];
    var other, covered := first[0 := first[0] ^ 1], c[..n];
    iv := Xor(d(first), other);
    XorUndone(other, d(first));
    Cbc.DecryptIsLocal(d, iv, covered, 0, 16);
    Cbc.Empty(d, iv);
    assert covered[..0] == [] && covered[0..16] == first;
    Cbc.DecryptStep(d, iv, [], first);
    assert [] + first == first && [] + Xor(d(first), iv) == Xor(d(first), iv);
    assert Cbc.Decrypt(d, iv, covered)[0] == other[0];
    InPlaceDecryption(w, iv, c, length);
    assert DecryptedBuffer(w, iv, c, length)[..n - 16][0] == other[0] != c[..n - 16][0];
  }

  /** So a caller can rely on decryption in place, whatever the vector, exactly for messages of at most one block. */
  lemma InPlaceForEveryVector(w: Schedule, c: seq<Byte>, length: nat)
    requires |c| == Touched(length)
    ensures (forall iv: Block :: DecryptedInPlace(w, iv, c, length) == DecryptedBuffer(w, iv, c, length)) <==> length <= 16
  {
    hide DecryptedInPlace, DecryptedBuffer, Touched;
    if length > 16 {
      var iv := InPlaceFails(w, c, length);
    } else {
      forall iv: Block
        ensures DecryptedInPlace(w, iv, c, length) == DecryptedBuffer(w, iv, c, length)
      {
        if length > 0 {
          InPlaceDecryption(w, iv, c, length);
        } else {
          DecryptionParts(w, iv, c, length);
        }
      }
    }
  }

  lemma CoveredBlock(length: nat, m: nat)
    requires m % 16 == 0 && m < length
    ensures m + 16 <= Covered(length) <= Touched(length)
  {}

  /** What an encrypting call writes, block by block: a covered block is the cipher of the block of the input at its place
      plus the block of the output before it, or plus the vector. */
  lemma EncryptedBufferBlock(w: Schedule, iv: Block, p: seq<Byte>, length: nat, m: nat)
    requires |p| == Touched(length) && m % 16 == 0 && m < length
    ensures m + 16 <= |p|
    ensures var c := EncryptedBuffer(w, iv, p, length);
            Cbc.BlockAt(c, m) == AesSpec.Cipher(Xor(Cbc.BlockAt(p, m), Cbc.Before(iv, c, m)), w)
  {
    hide AesSpec.Cipher, Cbc.Encrypt, Xor, Covered, Touched, ZeroTail;
    CoveredBlock(length, m);
    var n, c := Covered(length), EncryptedBuffer(w, iv, p, length);
    Cbc.EncryptedBlock(Enciphering(w), iv, p[..n], m);
    assert c[..n] == Cbc.Encrypt(Enciphering(w), iv, p[..n]);
    assert c[m..m + 16] == c[..n][m..m + 16] && p[..n][m..m + 16] == p[m..m + 16];
    assert m > 0 ==> c[m - 16..m] == c[..n][m - 16..m];
  }

  lemma DecryptedBufferBlock(w: Schedule, iv: Block, c: seq<Byte>, length: nat, m: nat)
    requires |c| == Touched(length) && m % 16 == 0 && m < length
    ensures m + 16 <= |c|
    ensures Cbc.BlockAt(DecryptedBuffer(w, iv, c, length), m) ==
            Xor(AesSpec.InvCipher(Cbc.BlockAt(c, m), w), Cbc.Before(iv, c, m))
  {
    hide AesSpec.InvCipher, Cbc.Decrypt, Xor, Covered, Touched, ZeroTail;
    CoveredBlock(length, m);
    var n, p := Covered(length), DecryptedBuffer(w, iv, c, length);
    Cbc.DecryptedBlock(Deciphering(w), iv, c[..n], m);
    assert p[..n] == Cbc.Decrypt(Deciphering(w), iv, c[..n]);
    assert p[m..m + 16] == p[..n][m..m + 16] && c[..n][m..m + 16] == c[m..m + 16];
    assert m > 0 ==> c[m - 16..m] == c[..n][m - 16..m];
  }

  /** The block behind the covered ones, for a length that is no multiple of 16: the first length % 16 bytes found there,
      followed by zeros, go through the block function alone. */
  lemma ExtraBlocks(w: Schedule, iv: Block, covered: seq<Byte>, extra: Block, z: Block, length: nat)
    requires length % 16 != 0 && |covered| == length + 16 - length % 16
    requires forall k | 0 <= k < 16 :: z[k] == if k < length % 16 then extra[k] else 0
    ensures Touched(length) == |covered + extra|
    ensures EncryptedBuffer(w, iv, covered + extra, length)[|covered|..] == AesSpec.Cipher(z, w)
    ensures DecryptedBuffer(w, iv, covered + extra, length)[|covered|..] == AesSpec.InvCipher(z, w)
  {
    hide AesSpec.Cipher, AesSpec.InvCipher, Cbc.Encrypt, Cbc.Decrypt;
    assert Covered(length) == |covered| && (covered + extra)[|covered|..] == extra;
    ZeroTailBytes(extra, length % 16);
    assert ZeroTail(extra, length % 16) == z;
  }

  // The message followed by zeros up to the next multiple of 16.
  function ZeroPadded(m: seq<Byte>): (p: seq<Byte>)
    ensures |p| == Covered(|m|)
  {
    m + seq(Covered(|m|) - |m|, _ => 0)
  }

  /** The header says that CBC mode pads with zeros. The covered part of the output is the encryption of the padded
      message exactly when the bytes that follow the message in the input buffer are zero already, so a caller has to
      pad; both callers do. */
  lemma PaddedOnlyByCaller(w: Schedule, iv: Block, p: seq<Byte>, length: nat)
    requires |p| == Touched(length) && length > 0
    ensures EncryptedBuffer(w, iv, p, length)[..Covered(length)] == Cbc.Encrypt(Enciphering(w), iv, ZeroPadded(p[..length])) <==>
            forall k | length <= k < Covered(length) :: p[k] == 0
  {
    hide AesSpec.Cipher, AesSpec.InvCipher, Cbc.Encrypt, Cbc.Decrypt, Enciphering, Deciphering, ZeroTail, Covered;
    var n := Covered(length);
    var e, d := Enciphering(w), Deciphering(w);
    var padded := ZeroPadded(p[..length]);
    assert EncryptedBuffer(w, iv, p, length)[..n] == Cbc.Encrypt(e, iv, p[..n]);
    BlockFunctionsInverse(w);
    Cbc.RoundTrip(d, e, iv, p[..n]);
    Cbc.RoundTrip(d, e, iv, padded);
    if p[..n] == padded {
      assert forall k | length <= k < n :: p[k] == padded[k];
    }
    if forall k | length <= k < n :: p[k] == 0 {
      assert p[..n] == padded;
    }
  }

  /** Streaming: what a call on a + b writes is what a call on a writes, followed by what a call on b writes whose
      chaining block is the last ciphertext block of the first. The second length is arbitrary. */
  lemma StreamedEncryption(w: Schedule, iv: Block, a: seq<Byte>, b: seq<Byte>, length: nat)
    requires |a| % 16 == 0 && |a| > 0 && length > 0 && |b| == Touched(length)
    ensures Touched(|a| + length) == |a| + |b|
    ensures EncryptedBuffer(w, iv, a + b, |a| + length) ==
            EncryptedBuffer(w, iv, a, |a|) + EncryptedBuffer(w, Cbc.Last(iv, EncryptedBuffer(w, iv, a, |a|)), b, length)
  {
    hide AesSpec.Cipher, Cbc.Encrypt, Enciphering, ZeroTail, Cbc.Last, EncryptedBuffer, Covered, Touched;
    JoinedLengths(|a|, length);
    EncryptedWhole(w, iv, a);
    var f, n, c := Enciphering(w), Covered(length), Cbc.Encrypt(Enciphering(w), iv, a);
    var last := Cbc.Last(iv, c);
    EncryptedBufferParts(w, iv, a + b, |a| + length);
    EncryptedBufferParts(w, last, b, length);
    JoinedParts(a, b, n);
    Cbc.EncryptPieces(f, iv, a, b[..n]);
    if length % 16 != 0 {
      Associative(c, Cbc.Encrypt(f, last, b[..n]), AesSpec.Cipher(ZeroTail(b[n..], length % 16), w));
    }
  }

  lemma StreamedDecryption(w: Schedule, iv: Block, a: seq<Byte>, b: seq<Byte>, length: nat)
    requires |a| % 16 == 0 && |a| > 0 && length > 0 && |b| == Touched(length)
    ensures Touched(|a| + length) == |a| + |b|
    ensures DecryptedBuffer(w, iv, a + b, |a| + length) ==
            DecryptedBuffer(w, iv, a, |a|) + DecryptedBuffer(w, Cbc.Last(iv, a), b, length)
  {
    hide AesSpec.InvCipher, Cbc.Decrypt, Deciphering, ZeroTail, Cbc.Last, DecryptedBuffer, Covered, Touched;
    JoinedLengths(|a|, length);
    DecryptedWhole(w, iv, a);
    var f, n, c := Deciphering(w), Covered(length), Cbc.Decrypt(Deciphering(w), iv, a);
    var last := Cbc.Last(iv, a);
    DecryptedBufferParts(w, iv, a + b, |a| + length);
    DecryptedBufferParts(w, last, b, length);
    JoinedParts(a, b, n);
    Cbc.DecryptPieces(f, iv, a, b[..n]);
    if length % 16 != 0 {
      Associative(c, Cbc.Decrypt(f, last, b[..n]), AesSpec.InvCipher(ZeroTail(b[n..], length % 16), w));
    }
  }

  lemma Associative(x: seq<Byte>, y: seq<Byte>, z: seq<Byte>)
    ensures (x + y) + z == x + (y + z)
  {}

  lemma JoinedParts(a: seq<Byte>, b: seq<Byte>, n: nat)
    requires n <= |b|
    ensures (a + b)[..|a| + n] == a + b[..n] && (a + b)[|a| + n..] == b[n..]
    ensures n == |b| ==> b[..n] == b
  {}

  lemma JoinedLengths(n: nat, length: nat)
    requires n % 16 == 0 && length > 0
    ensures (n + length) % 16 == length % 16 && Covered(n + length) == n + Covered(length)
    ensures Touched(n + length) == n + Touched(length) && Covered(length) <= Touched(length)
    ensures length % 16 == 0 ==> Covered(length) == Touched(length)
  {}

  /** On whole blocks a CBC call touches exactly its argument and is plain chaining. */
  lemma EncryptedWhole(w: Schedule, iv: Block, p: seq<Byte>)
    requires |p| % 16 == 0 && |p| > 0
    ensures Touched(|p|) == |p|
    ensures EncryptedBuffer(w, iv, p, |p|) == Cbc.Encrypt(Enciphering(w), iv, p)
  {
    assert p[..|p|] == p;
  }

  lemma DecryptedWhole(w: Schedule, iv: Block, c: seq<Byte>)
    requires |c| % 16 == 0 && |c| > 0
    ensures Touched(|c|) == |c|
    ensures DecryptedBuffer(w, iv, c, |c|) == Cbc.Decrypt(Deciphering(w), iv, c)
  {
    assert c[..|c|] == c;
  }
}
