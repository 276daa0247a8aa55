/** The key schedule of section 5.2 of FIPS 197 for AES-128, word by word, and the fact that it runs backwards. */
module KeySchedule {
  import opened AesSpec
  import Gf
  import SBox

  type Word = w: seq<Byte> | |w| == 4 witness [0, 0, 0, 0]

  // The entries of `Rcon` the schedule reads; entry 0 and those above 10 are never read.
  const RCON: seq<Byte> := [0x8d, 0x01, 0x02, 0x04, 0x08, 0x10, 0x20, 0x40, 0x80, 0x1b, 0x36]

  function PowerOfX(n: nat): Byte {
    if n == 0 then 1 else Gf.Xtime(PowerOfX(n - 1))
  }

  /** Entry i is x to the power i - 1, section 5.2 of FIPS 197. */
  lemma {:induction false} RconIsPower(i: nat)
    requires 1 <= i <= 10
    ensures RCON[i] == PowerOfX(i - 1)
  {
    if i > 1 {
      RconIsPower(i - 1);
    }
  }

  function RotWord(w: Word): Word {
    [w[1], w[2], w[3], w[0]]
  }

  function SubWord(w: Word): Word {
    [SBox.Sub(w[0]), SBox.Sub(w[1]), SBox.Sub(w[2]), SBox.Sub(w[3])]
  }

  // The sum of a word and of the constant word whose first byte is entry n and whose others are zero.
  function AddRcon(w: Word, n: nat): Word
    requires n <= 10
  {
    [Gf.Add(w[0], RCON[n]), w[1], w[2], w[3]]
  }

  // What word i adds to word i - 4, given word i - 1.
  function Temp(prev: Word, i: nat): Word
    requires 4 <= i < 44
  {
    if i % 4 == 0 then AddRcon(SubWord(RotWord(prev)), i / 4) else prev
  }

  /** Word i of the schedule. */
  function ScheduleWord(key: Block, i: nat): Word
    requires i < 44
  {
    if i < 4 then key[4 * i..4 * i + 4] else Xor(ScheduleWord(key, i - 4), Temp(ScheduleWord(key, i - 1), i))
  }

  /** All 176 bytes. */
  function Expand(key: Block): Schedule {
    seq(176, b requires 0 <= b < 176 => ScheduleWord(key, b / 4)[b % 4])
  }

  lemma ExpandedWord(key: Block, i: nat)
    requires i < 44
    ensures Expand(key)[4 * i..4 * i + 4] == ScheduleWord(key, i)
  {
    hide ScheduleWord;
    forall j | 0 <= j < 4
      ensures Expand(key)[4 * i..4 * i + 4][j] == ScheduleWord(key, i)[j]
    {
      PlaceParts(i, j);
    }
  }

  lemma ExpandedBytes(key: Block, i: nat)
    requires i < 44
    ensures Expand(key)[4 * i] == ScheduleWord(key, i)[0]
    ensures Expand(key)[4 * i + 1] == ScheduleWord(key, i)[1]
    ensures Expand(key)[4 * i + 2] == ScheduleWord(key, i)[2]
    ensures Expand(key)[4 * i + 3] == ScheduleWord(key, i)[3]
  {
    hide ScheduleWord, Expand;
    ExpandedWord(key, i);
    var w := Expand(key)[4 * i..4 * i + 4];
    assert w[0] == Expand(key)[4 * i] && w[1] == Expand(key)[4 * i + 1];
    assert w[2] == Expand(key)[4 * i + 2] && w[3] == Expand(key)[4 * i + 3];
  }

  lemma WordBytes(key: Block, i: nat, temp: Word)
    requires 4 <= i < 44 && temp == Temp(ScheduleWord(key, i - 1), i)
    ensures forall j | 0 <= j < 4 :: ScheduleWord(key, i)[j] == Gf.Add(ScheduleWord(key, i - 4)[j], temp[j])
  {
    hide Temp;
  }

  lemma ExpandedKeyStartsWithKey(key: Block)
    ensures RoundKey(Expand(key), 0) == key
  {
    forall b | 0 <= b < 16
      ensures RoundKey(Expand(key), 0)[b] == key[b]
    {
      assert b == 4 * (b / 4) + b % 4;
    }
  }

  // A word four places back, from the four that follow it.
  lemma WordBack(key: Block, i: nat)
    requires 4 <= i < 44
    ensures ScheduleWord(key, i - 4) == Xor(ScheduleWord(key, i), Temp(ScheduleWord(key, i - 1), i))
  {
    hide Temp, Xor;
    XorUndone(ScheduleWord(key, i - 4), Temp(ScheduleWord(key, i - 1), i));
  }

  ghost predicate AgreeFrom(k: Block, k': Block, i: nat)
    requires i + 4 <= 44
  {
    forall j | i <= j < i + 4 :: ScheduleWord(k, j) == ScheduleWord(k', j)
  }

  /** The schedule is reversible: any four consecutive words determine the key, so two schedules that agree on
      four consecutive words agree everywhere. */
  lemma {:induction false} FourWordsDetermineKey(k: Block, k': Block, i: nat)
    requires i + 4 <= 44
    requires AgreeFrom(k, k', i)
    ensures k == k'
  {
    if i == 0 {
      forall b | 0 <= b < 16
        ensures k[b] == k'[b]
      {
        var j := b / 4;
        assert ScheduleWord(k, j) == ScheduleWord(k', j);
        assert k[4 * j..4 * j + 4][b % 4] == k'[4 * j..4 * j + 4][b % 4];
      }
    } else {
      WordBack(k, i + 3);
      WordBack(k', i + 3);
      assert AgreeFrom(k, k', i - 1);
      FourWordsDetermineKey(k, k', i - 1);
    }
  }

  /** Distinct keys have distinct round keys in every round. */
  lemma RoundKeysDistinct(k: Block, k': Block, r: nat)
    requires r <= 10
    ensures RoundKey(Expand(k), r) == RoundKey(Expand(k'), r) <==> k == k'
  {
    if RoundKey(Expand(k), r) == RoundKey(Expand(k'), r) {
      forall j | 4 * r <= j < 4 * r + 4
        ensures ScheduleWord(k, j) == ScheduleWord(k', j)
      {
        ExpandedWord(k, j);
        ExpandedWord(k', j);
        RoundKeyWord(Expand(k), r, j);
        RoundKeyWord(Expand(k'), r, j);
      }
      FourWordsDetermineKey(k, k', 4 * r);
    }
  }

  lemma RoundKeyWord(w: Schedule, r: nat, j: nat)
    requires r <= 10 && 4 * r <= j < 4 * r + 4
    ensures RoundKey(w, r)[4 * (j - 4 * r)..4 * (j - 4 * r) + 4] == w[4 * j..4 * j + 4]
  {
    var c := 4 * (j - 4 * r);
    var a, b := RoundKey(w, r)[c..c + 4], w[4 * j..4 * j + 4];
    forall m | 0 <= m < 4
      ensures a[m] == b[m]
    {
      assert RoundKey(w, r)[c + m] == w[16 * r + c + m];
    }
  }
}
