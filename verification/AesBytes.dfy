/** The cipher and the key schedule byte by byte, in terms of the table, the field product and places written out: what
    the functions of `AesSpec` and `KeySchedule` compute, without naming any step of theirs. */
module AesBytes {
  import opened AesSpec
  import Gf
  import KeySchedule
  import SBox

  function Sum5(a: bv8, b: bv8, c: bv8, d: bv8, e: bv8): bv8 {
    Gf.Add(Gf.Sum4(a, b, c, d), e)
  }

  /** The four bytes of u from place k on are the matrix of section 5.1.3 of FIPS 197, applied to a, b, c and d, plus the
      bytes of round key r. */
  ghost predicate MixedAndAdded(u: Block, k: nat, a: bv8, b: bv8, c: bv8, d: bv8, w: Schedule, r: nat)
    requires k + 4 <= 16 && r <= 10
  {
    && u[k] == Sum5(Gf.Mul(a, 2), Gf.Mul(b, 3), c, d, w[16 * r + k])
    && u[k + 1] == Sum5(a, Gf.Mul(b, 2), Gf.Mul(c, 3), d, w[16 * r + k + 1])
    && u[k + 2] == Sum5(a, b, Gf.Mul(c, 2), Gf.Mul(d, 3), w[16 * r + k + 2])
    && u[k + 3] == Sum5(Gf.Mul(a, 3), b, c, Gf.Mul(d, 2), w[16 * r + k + 3])
  }

  /** Column i of a full round from t to u, from the substituted bytes that the shift of the rows brings into it. */
  ghost predicate FullColumn(t: Block, u: Block, w: Schedule, r: nat, i: nat)
    requires 1 <= r <= 9 && i < 4
  {
    MixedAndAdded(u, 4 * i, SBox.Sub(t[4 * i]), SBox.Sub(t[(4 * i + 5) % 16]),
                  SBox.Sub(t[(4 * i + 10) % 16]), SBox.Sub(t[(4 * i + 15) % 16]), w, r)
  }

  /** The sums are exclusive ors. */
  lemma SumsAreExclusiveOrs(a: bv8, b: bv8, c: bv8, d: bv8, e: bv8)
    ensures Gf.Add(a, b) == a ^ b && Sum5(a, b, c, d, e) == a ^ b ^ c ^ d ^ e
  {}

  lemma Turned(a: bv8, b: bv8, c: bv8, d: bv8, k: bv8)
    ensures Sum5(b, c, d, a, k) == Sum5(a, b, c, d, k)
    ensures Sum5(c, d, a, b, k) == Sum5(a, b, c, d, k)
    ensures Sum5(d, a, b, c, k) == Sum5(a, b, c, d, k)
  {
    hide Gf.Add, Gf.Sum4;
    Gf.Sum4Rotates(a, b, c, d);
    Gf.Sum4Rotates(b, c, d, a);
    Gf.Sum4Rotates(c, d, a, b);
  }

  lemma ProductWithOne(x: bv8)
    ensures Gf.Mul(x, 1) == x
  {}

  // The four mixed bytes of a column, with a round key byte added to each.
  lemma MixedSums(a: bv8, b: bv8, c: bv8, d: bv8, k: bv8)
    ensures Gf.Add(Gf.Mix(a, b, c, d), k) == Sum5(Gf.Mul(a, 2), Gf.Mul(b, 3), c, d, k)
    ensures Gf.Add(Gf.Mix(b, c, d, a), k) == Sum5(a, Gf.Mul(b, 2), Gf.Mul(c, 3), d, k)
    ensures Gf.Add(Gf.Mix(c, d, a, b), k) == Sum5(a, b, Gf.Mul(c, 2), Gf.Mul(d, 3), k)
    ensures Gf.Add(Gf.Mix(d, a, b, c), k) == Sum5(Gf.Mul(a, 3), b, c, Gf.Mul(d, 2), k)
  {
    hide Gf.Mix, Gf.Mul, Gf.Add, Gf.Sum4;
    Gf.MixIsMatrixRow(a, b, c, d);
    Gf.MixIsMatrixRow(b, c, d, a);
    Gf.MixIsMatrixRow(c, d, a, b);
    Gf.MixIsMatrixRow(d, a, b, c);
    ProductWithOne(a);
    ProductWithOne(b);
    ProductWithOne(c);
    ProductWithOne(d);
    Turned(a, Gf.Mul(b, 2), Gf.Mul(c, 3), d, k);
    Turned(a, b, Gf.Mul(c, 2), Gf.Mul(d, 3), k);
    Turned(Gf.Mul(a, 3), b, c, Gf.Mul(d, 2), k);
  }

  // The places the shift of the rows takes the bytes of column i from.
  lemma ShiftedColumn(s: Block, i: nat)
    requires i < 4
    ensures ShiftRows(s)[4 * i] == s[4 * i]
    ensures ShiftRows(s)[4 * i + 1] == s[(4 * i + 5) % 16]
    ensures ShiftRows(s)[4 * i + 2] == s[(4 * i + 10) % 16]
    ensures ShiftRows(s)[4 * i + 3] == s[(4 * i + 15) % 16]
  {
    hide ShiftRows;
    ShiftedBytes(s);
    if i == 0 {
    } else if i == 1 {
    } else if i == 2 {
    } else {
    }
  }

  lemma AddedBytes(s: Block, w: Schedule, r: nat, k: nat)
    requires r <= 10 && k < 16
    ensures AddRoundKey(s, w, r)[k] == Gf.Add(s[k], w[16 * r + k])
  {
    hide Gf.Add;
  }

  // The substituted bytes of column i after the shift.
  lemma SubstitutedColumn(t: Block, i: nat)
    requires i < 4
    ensures var x := ShiftRows(SubBytes(t));
            && x[4 * i] == SBox.Sub(t[4 * i]) && x[4 * i + 1] == SBox.Sub(t[(4 * i + 5) % 16])
            && x[4 * i + 2] == SBox.Sub(t[(4 * i + 10) % 16]) && x[4 * i + 3] == SBox.Sub(t[(4 * i + 15) % 16])
  {
    hide SBox.Sub, ShiftRows;
    ShiftedColumn(SubBytes(t), i);
  }

  // A column that has been mixed and added to a round key: the four bytes from place k on.
  lemma AddedColumn(m: Block, w: Schedule, r: nat, k: nat, a: bv8, b: bv8, c: bv8, d: bv8)
    requires r <= 10 && k + 4 <= 16
    requires m[k] == Gf.Mix(a, b, c, d) && m[k + 1] == Gf.Mix(b, c, d, a)
    requires m[k + 2] == Gf.Mix(c, d, a, b) && m[k + 3] == Gf.Mix(d, a, b, c)
    ensures MixedAndAdded(AddRoundKey(m, w, r), k, a, b, c, d, w, r)
  {
    hide Gf.Mul, Gf.Mix, Gf.Add, AddRoundKey, Sum5;
    AddedBytes(m, w, r, k);
    AddedBytes(m, w, r, k + 1);
    AddedBytes(m, w, r, k + 2);
    AddedBytes(m, w, r, k + 3);
    MixedSums(a, b, c, d, w[16 * r + k]);
    MixedSums(a, b, c, d, w[16 * r + k + 1]);
    MixedSums(a, b, c, d, w[16 * r + k + 2]);
    MixedSums(a, b, c, d, w[16 * r + k + 3]);
  }

  lemma RoundColumn(t: Block, w: Schedule, r: nat, i: nat)
    requires 1 <= r <= 9 && i < 4
    ensures FullColumn(t, Round(t, w, r), w, r, i)
  {
    hide SBox.Sub, Gf.Mix, SubBytes, ShiftRows, MixColumns, AddRoundKey, MixedAndAdded;
    SubstitutedColumn(t, i);
    var x := ShiftRows(SubBytes(t));
    MixedColumn(x, i);
    AddedColumn(MixColumns(x), w, r, 4 * i, x[4 * i], x[4 * i + 1], x[4 * i + 2], x[4 * i + 3]);
  }

  lemma LastRoundBytes(t: Block, w: Schedule, i: nat, j: nat)
    requires i < 4 && j < 4
    ensures AddRoundKey(ShiftRows(SubBytes(t)), w, 10)[4 * i + j] == Gf.Add(SBox.Sub(t[(4 * i + 5 * j) % 16]), w[160 + 4 * i + j])
  {
    hide SBox.Sub, Gf.Add, ShiftRows, AddRoundKey, SubBytes;
    SubstitutedColumn(t, i);
    AddedBytes(ShiftRows(SubBytes(t)), w, 10, 4 * i + j);
  }

  ghost predicate FullRound(t: Block, u: Block, w: Schedule, r: nat)
    requires 1 <= r <= 9
  {
    forall i | 0 <= i < 4 :: FullColumn(t, u, w, r, i)
  }

  /** The bytes of the last round: no mix. */
  ghost predicate LastRound(t: Block, u: Block, w: Schedule) {
    forall i, j | 0 <= i < 4 && 0 <= j < 4 :: LastByte(t, u, w, i, j)
  }

  ghost predicate LastByte(t: Block, u: Block, w: Schedule, i: nat, j: nat)
    requires i < 4 && j < 4
  {
    u[4 * i + j] == Gf.Add(SBox.Sub(t[(4 * i + 5 * j) % 16]), w[160 + 4 * i + j])
  }

  /** The cipher, from the table, the product of the field and literal places alone: the sum with the first sixteen bytes
      of the expanded key, nine rounds that substitute, shift, mix and add, and one that does not mix. */
  lemma CipherBytes(s: Block, w: Schedule) returns (st: seq<Block>)
    ensures |st| == 11 && st[10] == Cipher(s, w)
    ensures forall k | 0 <= k < 16 :: st[0][k] == Gf.Add(s[k], w[k])
    ensures forall r | 1 <= r <= 9 :: FullRound(st[r - 1], st[r], w, r)
    ensures LastRound(st[9], st[10], w)
  {
    hide SubBytes, ShiftRows, AddRoundKey, Round, FullColumn, LastByte;
    st := seq(10, r requires 0 <= r < 10 => Rounds(s, w, r)) + [Cipher(s, w)];
    forall k | 0 <= k < 16
      ensures st[0][k] == Gf.Add(s[k], w[k])
    {
      AddedBytes(s, w, 0, k);
    }
    forall r | 1 <= r <= 9
      ensures FullRound(st[r - 1], st[r], w, r)
    {
      RoundHolds(Rounds(s, w, r - 1), w, r);
    }
    LastRoundHolds(st[9], w);
  }

  lemma RoundHolds(t: Block, w: Schedule, r: nat)
    requires 1 <= r <= 9
    ensures FullRound(t, Round(t, w, r), w, r)
  {
    hide Round, FullColumn;
    forall i | 0 <= i < 4
      ensures FullColumn(t, Round(t, w, r), w, r, i)
    {
      RoundColumn(t, w, r, i);
    }
  }

  lemma LastRoundHolds(t: Block, w: Schedule)
    ensures LastRound(t, AddRoundKey(ShiftRows(SubBytes(t)), w, 10), w)
  {
    hide SBox.Sub, Gf.Add, SubBytes, ShiftRows, AddRoundKey;
    forall i, j | 0 <= i < 4 && 0 <= j < 4
      ensures LastByte(t, AddRoundKey(ShiftRows(SubBytes(t)), w, 10), w, i, j)
    {
      LastRoundBytes(t, w, i, j);
    }
  }

  // The key schedule.

  /** The bytes of round key r from those before: each is the sum of the byte sixteen places back and, in the first word,
      of the substituted byte of the word before, rotated by one to the left, and of the round's constant; in the other
      words, of the byte four places back. */
  ghost predicate ScheduleStep(e: Schedule, r: nat)
    requires 1 <= r <= 10
  {
    && e[16 * r] == Gf.Add(e[16 * r - 16], Gf.Add(SBox.Sub(e[16 * r - 3]), RoundConstant(r)))
    && e[16 * r + 1] == Gf.Add(e[16 * r - 15], SBox.Sub(e[16 * r - 2]))
    && e[16 * r + 2] == Gf.Add(e[16 * r - 14], SBox.Sub(e[16 * r - 1]))
    && e[16 * r + 3] == Gf.Add(e[16 * r - 13], SBox.Sub(e[16 * r - 4]))
    && forall j | 16 * r + 4 <= j < 16 * r + 16 :: e[j] == Gf.Add(e[j - 16], e[j - 4])
  }

  /** The ten constants. */
  function RoundConstant(r: nat): Byte
    requires 1 <= r <= 10
  {
    match r
    case 1 => 0x01
    case 2 => 0x02
    case 3 => 0x04
    case 4 => 0x08
    case 5 => 0x10
    case 6 => 0x20
    case 7 => 0x40
    case 8 => 0x80
    case 9 => 0x1b
    case _ => 0x36
  }

  /** The 176 bytes of the expanded key, from the table, the constants and literal places alone. */
  lemma ExpandedKeyBytes(key: Block)
    ensures var e := KeySchedule.Expand(key);
            && (forall b | 0 <= b < 16 :: e[b] == key[b])
            && (forall r | 1 <= r <= 10 :: ScheduleStep(e, r))
  {
    hide KeySchedule.Expand, ScheduleStep;
    var e := KeySchedule.Expand(key);
    KeySchedule.ExpandedKeyStartsWithKey(key);
    assert forall b | 0 <= b < 16 :: RoundKey(e, 0)[b] == e[b];
    forall r | 1 <= r <= 10
      ensures ScheduleStep(e, r)
    {
      StepHolds(key, r);
    }
  }

  lemma ConstantsAreRcon(r: nat)
    requires 1 <= r <= 10
    ensures KeySchedule.RCON[r] == RoundConstant(r)
  {}

  lemma FirstWordOfRound(key: Block, r: nat)
    requires 1 <= r <= 10
    ensures var e := KeySchedule.Expand(key);
            && e[16 * r] == Gf.Add(e[16 * r - 16], Gf.Add(SBox.Sub(e[16 * r - 3]), RoundConstant(r)))
            && e[16 * r + 1] == Gf.Add(e[16 * r - 15], SBox.Sub(e[16 * r - 2]))
            && e[16 * r + 2] == Gf.Add(e[16 * r - 14], SBox.Sub(e[16 * r - 1]))
            && e[16 * r + 3] == Gf.Add(e[16 * r - 13], SBox.Sub(e[16 * r - 4]))
  {
    hide KeySchedule.Expand, KeySchedule.ScheduleWord, KeySchedule.Temp, SBox.Sub, Gf.Add, Xor, RoundConstant;
    var i := 4 * r;
    var prev := KeySchedule.ScheduleWord(key, i - 1);
    TurnedWord(prev, r);
    KeySchedule.ExpandedBytes(key, i - 4);
    KeySchedule.ExpandedBytes(key, i - 1);
    KeySchedule.ExpandedBytes(key, i);
    KeySchedule.WordBytes(key, i, KeySchedule.Temp(prev, i));
  }

  lemma TurnedWord(prev: KeySchedule.Word, r: nat)
    requires 1 <= r <= 10
    ensures KeySchedule.Temp(prev, 4 * r) ==
            [Gf.Add(SBox.Sub(prev[1]), RoundConstant(r)), SBox.Sub(prev[2]), SBox.Sub(prev[3]), SBox.Sub(prev[0])]
  {
    hide SBox.Sub, Gf.Add, RoundConstant;
    ConstantsAreRcon(r);
    assert 4 * r % 4 == 0 && 4 * r / 4 == r;
  }

  lemma OtherWordOfRound(key: Block, i: nat)
    requires 4 <= i < 44 && i % 4 != 0
    ensures var e := KeySchedule.Expand(key);
            && e[4 * i] == Gf.Add(e[4 * i - 16], e[4 * i - 4])
            && e[4 * i + 1] == Gf.Add(e[4 * i - 15], e[4 * i - 3])
            && e[4 * i + 2] == Gf.Add(e[4 * i - 14], e[4 * i - 2])
            && e[4 * i + 3] == Gf.Add(e[4 * i - 13], e[4 * i - 1])
  {
    hide KeySchedule.Expand, KeySchedule.ScheduleWord, KeySchedule.SubWord, KeySchedule.RotWord, Gf.Add, Xor;
    KeySchedule.ExpandedBytes(key, i - 4);
    KeySchedule.ExpandedBytes(key, i - 1);
    KeySchedule.ExpandedBytes(key, i);
    KeySchedule.WordBytes(key, i, KeySchedule.Temp(KeySchedule.ScheduleWord(key, i - 1), i));
  }

  lemma OtherByte(key: Block, j: nat)
    requires 16 <= j < 176 && j % 16 >= 4
    ensures var e := KeySchedule.Expand(key); e[j] == Gf.Add(e[j - 16], e[j - 4])
  {
    hide KeySchedule.Expand, Gf.Add;
    var i := j / 4;
    assert i % 4 != 0;
    OtherWordOfRound(key, i);
    assert j == 4 * i || j == 4 * i + 1 || j == 4 * i + 2 || j == 4 * i + 3;
  }

  lemma StepHolds(key: Block, r: nat)
    requires 1 <= r <= 10
    ensures ScheduleStep(KeySchedule.Expand(key), r)
  {
    hide KeySchedule.Expand, SBox.Sub, Gf.Add, RoundConstant;
    FirstWordOfRound(key, r);
    var e := KeySchedule.Expand(key);
    forall j | 16 * r + 4 <= j < 16 * r + 16
      ensures e[j] == Gf.Add(e[j - 16], e[j - 4])
    {
      OtherByte(key, j);
    }
  }

  /** The examples the standard gives in sections 4.2 and 5.1.1, and the first entry of the table. */
  lemma ExamplesOfTheStandard()
    ensures Gf.Mul(0x57, 0x83) == 0xc1 && Gf.Mul(0x57, 0x13) == 0xfe
    ensures SBox.Sub(0x53) == 0xed && SBox.Sub(0x00) == 0x63
  {}
}
