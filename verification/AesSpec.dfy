/** AES-128 as FIPS 197 defines it, on values: the steps of a round, the cipher, the inverse cipher and the key
    schedule. A block is 16 bytes; byte 4 * i + j is `state[i][j]` of the code, row j of column i. */
module AesSpec {
  import Gf
  import SBox

  type Byte = bv8

  type Block = b: seq<Byte> | |b| == 16 witness [0, 0, 0, 0, 0, 0, 0, 0, 0, 0, 0, 0, 0, 0, 0, 0]

  // The expanded key: round keys 0 to 10, one after the other.
  type Schedule = w: seq<Byte> | |w| == 176 witness seq(176, _ => 0)

  function Xor(a: seq<Byte>, b: seq<Byte>): (r: seq<Byte>)
    requires |a| == |b|
    ensures |r| == |a|
  {
    seq(|a|, i requires 0 <= i < |a| => Gf.Add(a[i], b[i]))
  }

  lemma XorUndone(a: seq<Byte>, b: seq<Byte>)
    requires |a| == |b|
    ensures Xor(Xor(a, b), b) == a
    ensures Xor(b, Xor(b, a)) == a
  {
    hide Gf.Add;
    forall i | 0 <= i < |a|
      ensures Xor(Xor(a, b), b)[i] == a[i] && Xor(b, Xor(b, a))[i] == a[i]
    {
      Gf.AddCancels(b[i], a[i]);
      Gf.AddCommutes(b[i], a[i]);
      Gf.AddCommutes(b[i], Gf.Add(a[i], b[i]));
    }
  }

  /** Section 5.1.1 of FIPS 197. */
  function SubBytes(s: Block): Block {
    seq(16, k requires 0 <= k < 16 => SBox.Sub(s[k]))
  }

  /** Section 5.3.2. */
  function InvSubBytes(s: Block): Block {
    seq(16, k requires 0 <= k < 16 => SBox.InvSub(s[k]))
  }

  lemma InvSubBytesInverse(s: Block)
    ensures InvSubBytes(SubBytes(s)) == s
    ensures SubBytes(InvSubBytes(s)) == s
  {
    hide SBox.Sub, SBox.InvSub;
    forall k | 0 <= k < 16
      ensures InvSubBytes(SubBytes(s))[k] == s[k]
      ensures SubBytes(InvSubBytes(s))[k] == s[k]
    {
      SBox.TablesAreInverse(s[k]);
    }
  }

  // The place, in the block before `ShiftRows`, of the byte that ends at place k: same row, j columns further on.
  function ShiftSource(k: nat): (m: nat)
    requires k < 16
    ensures m < 16
  {
    4 * ((k / 4 + k % 4) % 4) + k % 4
  }

  function InvShiftSource(k: nat): (m: nat)
    requires k < 16
    ensures m < 16
  {
    4 * ((k / 4 + 4 - k % 4) % 4) + k % 4
  }

  lemma ShiftSourcesInverse(k: nat)
    requires k < 16
    ensures ShiftSource(InvShiftSource(k)) == k
    ensures InvShiftSource(ShiftSource(k)) == k
  {
    hide ShiftSource, InvShiftSource;
    var i, j := k / 4, k % 4;
    SourceParts(i, j);
    SourceParts((i + j) % 4, j);
    SourceParts((i + 4 - j) % 4, j);
    TurnsCancel(i, j);
  }

  lemma SourceParts(i: nat, j: nat)
    requires i < 4 && j < 4
    ensures ShiftSource(4 * i + j) == 4 * ((i + j) % 4) + j
    ensures InvShiftSource(4 * i + j) == 4 * ((i + 4 - j) % 4) + j
  {
    PlaceParts(i, j);
  }

  lemma TurnsCancel(i: nat, j: nat)
    requires i < 4 && j < 4
    ensures ((i + j) % 4 + 4 - j) % 4 == i
    ensures ((i + 4 - j) % 4 + j) % 4 == i
  {}

  lemma Mod4(x: nat)
    requires x < 8
    ensures x % 4 == if x < 4 then x else x - 4
  {}

  lemma PlaceParts(i: nat, j: nat)
    requires j < 4
    ensures (4 * i + j) / 4 == i && (4 * i + j) % 4 == j
  {}

  /** Section 5.1.2. */
  function ShiftRows(s: Block): Block {
    seq(16, k requires 0 <= k < 16 => s[ShiftSource(k)])
  }

  /** Section 5.3.1. */
  function InvShiftRows(s: Block): Block {
    seq(16, k requires 0 <= k < 16 => s[InvShiftSource(k)])
  }

  lemma InvShiftRowsInverse(s: Block)
    ensures InvShiftRows(ShiftRows(s)) == s
    ensures ShiftRows(InvShiftRows(s)) == s
  {
    hide ShiftSource, InvShiftSource;
    forall k | 0 <= k < 16
      ensures InvShiftRows(ShiftRows(s))[k] == s[k]
      ensures ShiftRows(InvShiftRows(s))[k] == s[k]
    {
      ShiftSourcesInverse(k);
    }
  }

  // The place n rows below place k, in the same column and wrapping around.
  function PlaceBelow(k: nat, n: nat): (m: nat)
    requires k < 16
    ensures m < 16
  {
    4 * (k / 4) + (k % 4 + n) % 4
  }

  function Below(s: Block, k: nat, n: nat): Byte
    requires k < 16
  {
    s[PlaceBelow(k, n)]
  }

  /** Section 5.1.3. */
  function MixColumns(s: Block): Block {
    seq(16, k requires 0 <= k < 16 => Gf.Mix(Below(s, k, 0), Below(s, k, 1), Below(s, k, 2), Below(s, k, 3)))
  }

  /** Section 5.3.3. */
  function InvMixColumns(s: Block): Block {
    seq(16, k requires 0 <= k < 16 => Gf.InvMix(Below(s, k, 0), Below(s, k, 1), Below(s, k, 2), Below(s, k, 3)))
  }

  lemma MixedBelow(s: Block, k: nat, n: nat)
    requires k < 16
    ensures Below(MixColumns(s), k, n) == Gf.Mix(Below(s, k, n), Below(s, k, n + 1), Below(s, k, n + 2), Below(s, k, n + 3))
    ensures Below(InvMixColumns(s), k, n) ==
            Gf.InvMix(Below(s, k, n), Below(s, k, n + 1), Below(s, k, n + 2), Below(s, k, n + 3))
  {
    hide Gf.Mix, Gf.InvMix;
    hide PlaceBelow;
    BelowBelow(s, k, n, 0);
    BelowBelow(s, k, n, 1);
    BelowBelow(s, k, n, 2);
    BelowBelow(s, k, n, 3);
  }

  lemma BelowBelow(s: Block, k: nat, n: nat, d: nat)
    requires k < 16
    ensures Below(s, PlaceBelow(k, n), d) == Below(s, k, n + d)
  {
    PlaceParts(k / 4, (k % 4 + n) % 4);
    assert ((k % 4 + n) % 4 + d) % 4 == (k % 4 + (n + d)) % 4;
  }

  /** Mixing the columns and mixing them back is the identity, in either order, on every state. */
  lemma InvMixColumnsInverse(s: Block)
    ensures InvMixColumns(MixColumns(s)) == s
    ensures MixColumns(InvMixColumns(s)) == s
  {
    hide Gf.Mix, Gf.InvMix;
    forall k | 0 <= k < 16
      ensures InvMixColumns(MixColumns(s))[k] == s[k]
      ensures MixColumns(InvMixColumns(s))[k] == s[k]
    {
      MixedBelow(s, k, 0);
      MixedBelow(s, k, 1);
      MixedBelow(s, k, 2);
      MixedBelow(s, k, 3);
      BelowWraps(s, k);
      Gf.InvMixAfterMix(Below(s, k, 0), Below(s, k, 1), Below(s, k, 2), Below(s, k, 3));
      Gf.MixAfterInvMix(Below(s, k, 0), Below(s, k, 1), Below(s, k, 2), Below(s, k, 3));
    }
  }

  lemma BelowWraps(s: Block, k: nat)
    requires k < 16
    ensures Below(s, k, 0) == s[k]
    ensures Below(s, k, 4) == s[k]
    ensures Below(s, k, 5) == Below(s, k, 1)
    ensures Below(s, k, 6) == Below(s, k, 2)
  {
    var j := k % 4;
    assert (j + 4) % 4 == j && (j + 5) % 4 == (j + 1) % 4 && (j + 6) % 4 == (j + 2) % 4;
  }

  // A mixed column, byte by byte.
  lemma MixedColumn(s: Block, i: nat)
    requires i < 4
    ensures MixColumns(s)[4 * i] == Gf.Mix(s[4 * i], s[4 * i + 1], s[4 * i + 2], s[4 * i + 3])
    ensures MixColumns(s)[4 * i + 1] == Gf.Mix(s[4 * i + 1], s[4 * i + 2], s[4 * i + 3], s[4 * i])
    ensures MixColumns(s)[4 * i + 2] == Gf.Mix(s[4 * i + 2], s[4 * i + 3], s[4 * i], s[4 * i + 1])
    ensures MixColumns(s)[4 * i + 3] == Gf.Mix(s[4 * i + 3], s[4 * i], s[4 * i + 1], s[4 * i + 2])
    ensures InvMixColumns(s)[4 * i] == Gf.InvMix(s[4 * i], s[4 * i + 1], s[4 * i + 2], s[4 * i + 3])
    ensures InvMixColumns(s)[4 * i + 1] == Gf.InvMix(s[4 * i + 1], s[4 * i + 2], s[4 * i + 3], s[4 * i])
    ensures InvMixColumns(s)[4 * i + 2] == Gf.InvMix(s[4 * i + 2], s[4 * i + 3], s[4 * i], s[4 * i + 1])
    ensures InvMixColumns(s)[4 * i + 3] == Gf.InvMix(s[4 * i + 3], s[4 * i], s[4 * i + 1], s[4 * i + 2])
  {
    hide Gf.Mix, Gf.InvMix, MixColumns, InvMixColumns;
    MixedByte(s, i, 0);
    MixedByte(s, i, 1);
    MixedByte(s, i, 2);
    MixedByte(s, i, 3);
  }

  lemma MixedByte(s: Block, i: nat, j: nat)
    requires i < 4 && j < 4
    ensures MixColumns(s)[4 * i + j] ==
            Gf.Mix(s[4 * i + j], s[4 * i + if j < 3 then j + 1 else 0], s[4 * i + if j < 2 then j + 2 else j - 2],
                   s[4 * i + if j < 1 then 3 else j - 1])
    ensures InvMixColumns(s)[4 * i + j] ==
            Gf.InvMix(s[4 * i + j], s[4 * i + if j < 3 then j + 1 else 0], s[4 * i + if j < 2 then j + 2 else j - 2],
                      s[4 * i + if j < 1 then 3 else j - 1])
  {
    hide Gf.Mix, Gf.InvMix, PlaceBelow;
    PlacesBelow(i, j);
  }

  lemma PlacesBelow(i: nat, j: nat)
    requires i < 4 && j < 4
    ensures PlaceBelow(4 * i + j, 0) == 4 * i + j
    ensures PlaceBelow(4 * i + j, 1) == 4 * i + if j < 3 then j + 1 else 0
    ensures PlaceBelow(4 * i + j, 2) == 4 * i + if j < 2 then j + 2 else j - 2
    ensures PlaceBelow(4 * i + j, 3) == 4 * i + if j < 1 then 3 else j - 1
  {
    PlaceParts(i, j);
    Mod4(j + 1);
    Mod4(j + 2);
    Mod4(j + 3);
  }

  // The shifted rows, byte by byte, a column of the result to a line.
  lemma ShiftedBytes(s: Block)
    ensures var t := ShiftRows(s);
            && t[0] == s[0] && t[1] == s[5] && t[2] == s[10] && t[3] == s[15]
            && t[4] == s[4] && t[5] == s[9] && t[6] == s[14] && t[7] == s[3]
            && t[8] == s[8] && t[9] == s[13] && t[10] == s[2] && t[11] == s[7]
            && t[12] == s[12] && t[13] == s[1] && t[14] == s[6] && t[15] == s[11]
  {}

  lemma InvShiftedBytes(s: Block)
    ensures var t := InvShiftRows(s);
            && t[0] == s[0] && t[1] == s[13] && t[2] == s[10] && t[3] == s[7]
            && t[4] == s[4] && t[5] == s[1] && t[6] == s[14] && t[7] == s[11]
            && t[8] == s[8] && t[9] == s[5] && t[10] == s[2] && t[11] == s[15]
            && t[12] == s[12] && t[13] == s[9] && t[14] == s[6] && t[15] == s[3]
  {}

  function RoundKey(w: Schedule, r: nat): Block
    requires r <= 10
  {
    w[16 * r..16 * r + 16]
  }

  function AddRoundKey(s: Block, w: Schedule, r: nat): Block
    requires r <= 10
  {
    Xor(s, RoundKey(w, r))
  }

  function Round(s: Block, w: Schedule, r: nat): Block
    requires r <= 10
  {
    AddRoundKey(MixColumns(ShiftRows(SubBytes(s))), w, r)
  }

  function InvRound(s: Block, w: Schedule, r: nat): Block
    requires r <= 10
  {
    InvMixColumns(AddRoundKey(InvSubBytes(InvShiftRows(s)), w, r))
  }

  /** The state of the cipher after round r. */
  function Rounds(s: Block, w: Schedule, r: nat): Block
    requires r <= 9
  {
    if r == 0 then AddRoundKey(s, w, 0) else Round(Rounds(s, w, r - 1), w, r)
  }

  /** Section 5.1: nine full rounds and a last one without the column mix. */
  function Cipher(s: Block, w: Schedule): Block {
    AddRoundKey(ShiftRows(SubBytes(Rounds(s, w, 9))), w, 10)
  }

  /** The state of the inverse cipher after it has used round key r. */
  function InvRounds(s: Block, w: Schedule, r: nat): Block
    requires 1 <= r <= 10
    decreases 10 - r
  {
    if r == 10 then AddRoundKey(s, w, 10) else InvRound(InvRounds(s, w, r + 1), w, r)
  }

  /** Section 5.3. */
  function InvCipher(s: Block, w: Schedule): Block {
    AddRoundKey(InvSubBytes(InvShiftRows(InvRounds(s, w, 1))), w, 0)
  }

  /** Each state of the inverse cipher is the state of the cipher it stands for, taken just before the round key. */
  lemma {:induction false} InvRoundsUndoRounds(s: Block, w: Schedule, r: nat)
    requires 1 <= r <= 10
    ensures InvRounds(Cipher(s, w), w, r) == ShiftRows(SubBytes(Rounds(s, w, r - 1)))
    decreases 10 - r
  {
    hide SubBytes, InvSubBytes, ShiftRows, InvShiftRows, MixColumns, InvMixColumns, Xor, RoundKey;
    if r == 10 {
      XorUndone(ShiftRows(SubBytes(Rounds(s, w, 9))), RoundKey(w, 10));
    } else {
      InvRoundsUndoRounds(s, w, r + 1);
      var t := Rounds(s, w, r);
      InvShiftRowsInverse(SubBytes(t));
      InvSubBytesInverse(t);
      var u := ShiftRows(SubBytes(Rounds(s, w, r - 1)));
      XorUndone(MixColumns(u), RoundKey(w, r));
      InvMixColumnsInverse(u);
    }
  }

  lemma {:induction false} RoundsUndoInvRounds(s: Block, w: Schedule, r: nat)
    requires r <= 9
    ensures Rounds(InvCipher(s, w), w, r) == InvSubBytes(InvShiftRows(InvRounds(s, w, r + 1)))
  {
    hide SubBytes, InvSubBytes, ShiftRows, InvShiftRows, MixColumns, InvMixColumns, Xor, RoundKey;
    if r == 0 {
      XorUndone(InvSubBytes(InvShiftRows(InvRounds(s, w, 1))), RoundKey(w, 0));
    } else {
      RoundsUndoInvRounds(s, w, r - 1);
      var t := InvShiftRows(InvRounds(s, w, r));
      InvSubBytesInverse(t);
      InvShiftRowsInverse(InvRounds(s, w, r));
      var u := InvSubBytes(InvShiftRows(InvRounds(s, w, r + 1)));
      InvMixColumnsInverse(AddRoundKey(u, w, r));
      XorUndone(u, RoundKey(w, r));
    }
  }

  /** Under any expanded key the inverse cipher undoes the cipher, and the cipher undoes the inverse cipher. */
  lemma InvCipherInverse(s: Block, w: Schedule)
    ensures InvCipher(Cipher(s, w), w) == s
    ensures Cipher(InvCipher(s, w), w) == s
  {
    hide SubBytes, InvSubBytes, ShiftRows, InvShiftRows, Xor, RoundKey, InvRounds;
    InvRoundsUndoRounds(s, w, 1);
    var t := Rounds(s, w, 0);
    InvShiftRowsInverse(SubBytes(t));
    InvSubBytesInverse(t);
    XorUndone(s, RoundKey(w, 0));
    RoundsUndoInvRounds(s, w, 9);
    assert InvRounds(s, w, 10) == AddRoundKey(s, w, 10) by { LastRound(s, w); }
    InvSubBytesInverse(InvShiftRows(InvRounds(s, w, 10)));
    InvShiftRowsInverse(InvRounds(s, w, 10));
    XorUndone(s, RoundKey(w, 10));
  }

  lemma LastRound(s: Block, w: Schedule)
    ensures InvRounds(s, w, 10) == AddRoundKey(s, w, 10)
  {}
}
