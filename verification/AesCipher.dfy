/** The block cipher and its inverse as functions of byte sequences: sections 5.1 to 5.3 of
    FIPS 197. Byte r + 4c of a block is row r, column c of the state.
 */
module AesCipher {
  import opened AesField
  import opened AesTables
  import opened AesRounds

  type Block = s: seq<bv8> | |s| == 16 witness seq(16, i => 0)

  function AddBlocks(a: Block, b: Block): Block {
    seq(16, p requires 0 <= p < 16 => Add(a[p], b[p]))
  }

  function Substituted(table: seq<seq<bv8>>, s: Block): Block
    requires Square(table)
  {
    seq(16, p requires 0 <= p < 16 => Look(table, s[p]))
  }

  function SubBytes(s: Block): Block { Substituted(Sbox, s) }

  function InvSubBytes(s: Block): Block { Substituted(InvSbox, s) }

  /** Row r of column c comes from column c + r, and goes back there. */
  function Left(p: nat): nat { p % 4 + 4 * ((p / 4 + p % 4) % 4) }

  function Right(p: nat): nat { p % 4 + 4 * ((p / 4 + 4 - p % 4) % 4) }

  function ShiftRows(s: Block): Block {
    seq(16, p requires 0 <= p < 16 => s[Left(p)])
  }

  function InvShiftRows(s: Block): Block {
    seq(16, p requires 0 <= p < 16 => s[Right(p)])
  }

  type Word = s: seq<bv8> | |s| == 4 witness seq(4, i => 0)

  /** Multiplication of a column by the two circulants. */
  function MixColumn(a: Word): Word {
    [MixByte(a[0], a[1], a[2], a[3]), MixByte(a[1], a[2], a[3], a[0]),
     MixByte(a[2], a[3], a[0], a[1]), MixByte(a[3], a[0], a[1], a[2])]
  }

  function InvMixColumn(a: Word): Word {
    [InvMixByte(a[0], a[1], a[2], a[3]), InvMixByte(a[1], a[2], a[3], a[0]),
     InvMixByte(a[2], a[3], a[0], a[1]), InvMixByte(a[3], a[0], a[1], a[2])]
  }

  function Column(s: Block, c: nat): Word
    requires c < 4
  {
    s[4 * c..4 * c + 4]
  }

  function MixColumns(s: Block): Block {
    MixColumn(Column(s, 0)) + MixColumn(Column(s, 1)) + MixColumn(Column(s, 2)) + MixColumn(Column(s, 3))
  }

  function InvMixColumns(s: Block): Block {
    InvMixColumn(Column(s, 0)) + InvMixColumn(Column(s, 1)) + InvMixColumn(Column(s, 2)) + InvMixColumn(Column(s, 3))
  }

  lemma JoinedAt(a: Word, b: Word, c: Word, d: Word, q: nat, i: nat)
    requires q < 4 && i < 4
    ensures (a + b + c + d)[4 * q + i] == (if q == 0 then a else if q == 1 then b else if q == 2 then c else d)[i]
  {
  }

  lemma MixedAt(s: Block, q: nat, i: nat)
    requires q < 4 && i < 4
    ensures MixColumns(s)[4 * q + i] == MixColumn(Column(s, q))[i]
  {
    JoinedAt(MixColumn(Column(s, 0)), MixColumn(Column(s, 1)), MixColumn(Column(s, 2)), MixColumn(Column(s, 3)), q, i);
  }

  lemma InvMixedAt(s: Block, q: nat, i: nat)
    requires q < 4 && i < 4
    ensures InvMixColumns(s)[4 * q + i] == InvMixColumn(Column(s, q))[i]
  {
    JoinedAt(InvMixColumn(Column(s, 0)), InvMixColumn(Column(s, 1)), InvMixColumn(Column(s, 2)), InvMixColumn(Column(s, 3)), q, i);
  }

  // ---------- each step is undone ----------

  lemma AddBlocksTwice(s: Block, k: Block)
    ensures AddBlocks(AddBlocks(s, k), k) == s
  {
    forall p | 0 <= p < 16
      ensures AddBlocks(AddBlocks(s, k), k)[p] == s[p]
    {
      AddTwice(s[p], k[p]);
    }
  }

  lemma SubBytesUndone(s: Block)
    ensures InvSubBytes(SubBytes(s)) == s
  {
    forall p | 0 <= p < 16
      ensures InvSubBytes(SubBytes(s))[p] == s[p]
    {
      SboxInverse(s[p]);
    }
  }

  lemma ShiftRowsUndone(s: Block)
    ensures InvShiftRows(ShiftRows(s)) == s
  {
    forall p | 0 <= p < 16
      ensures Right(p) < 16 && Left(Right(p)) == p
    {
      LeftRight(p);
    }
  }

  /** Row r, column c, by its number. */
  lemma Moved(c: nat, r: nat)
    requires c < 4 && r < 4
    ensures Left(4 * c + r) == 4 * (if c + r < 4 then c + r else c + r - 4) + r
    ensures Right(4 * c + r) == 4 * (if c < r then c + 4 - r else c - r) + r
  {
    var p := 4 * c + r;
    assert p / 4 == c && p % 4 == r;
  }

  /** The two moves, place by place. */
  const LeftOrder: seq<nat> := [0, 5, 10, 15, 4, 9, 14, 3, 8, 13, 2, 7, 12, 1, 6, 11]

  const RightOrder: seq<nat> := [0, 13, 10, 7, 4, 1, 14, 11, 8, 5, 2, 15, 12, 9, 6, 3]

  // Column by column: all sixteen places at once cost the solver several times as much.
  lemma LeftAt(p: nat)
    requires p < 16
    ensures Left(p) == LeftOrder[p]
  {
    if p < 4 {
      assert p / 4 == 0;
    } else if p < 8 {
      assert p / 4 == 1;
    } else if p < 12 {
      assert p / 4 == 2;
    } else {
      assert p / 4 == 3;
    }
  }

  lemma RightAt(p: nat)
    requires p < 16
    ensures Right(p) == RightOrder[p]
  {
    if p < 4 {
      assert p / 4 == 0;
    } else if p < 8 {
      assert p / 4 == 1;
    } else if p < 12 {
      assert p / 4 == 2;
    } else {
      assert p / 4 == 3;
    }
  }

  lemma ShiftedList(s: Block)
    ensures ShiftRows(s) == [s[0], s[5], s[10], s[15], s[4], s[9], s[14], s[3], s[8], s[13], s[2], s[7], s[12], s[1], s[6], s[11]]
  {
    forall p | 0 <= p < 16
      ensures ShiftRows(s)[p] == s[LeftOrder[p]]
    {
      LeftAt(p);
    }
  }

  lemma UnshiftedList(s: Block)
    ensures InvShiftRows(s) == [s[0], s[13], s[10], s[7], s[4], s[1], s[14], s[11], s[8], s[5], s[2], s[15], s[12], s[9], s[6], s[3]]
  {
    forall p | 0 <= p < 16
      ensures InvShiftRows(s)[p] == s[RightOrder[p]]
    {
      RightAt(p);
    }
  }

  lemma LeftRight(p: nat)
    requires p < 16
    ensures Right(p) < 16 && Left(Right(p)) == p
  {
    var c, r := p / 4, p % 4;
    assert p == 4 * c + r;
    Moved(c, r);
    Moved(if c < r then c + 4 - r else c - r, r);
  }

  /** Substitution works byte by byte, so it commutes with moving bytes around. */
  lemma SubShiftCommute(s: Block)
    ensures InvSubBytes(ShiftRows(s)) == ShiftRows(InvSubBytes(s))
    ensures InvSubBytes(InvShiftRows(s)) == InvShiftRows(InvSubBytes(s))
  {
  }

  lemma MixColumnUndoneAt(a: Word, i: nat)
    requires i < 4
    ensures InvMixColumn(MixColumn(a))[i] == a[i]
  {
    if i == 0 {
      InvMixMix(a[0], a[1], a[2], a[3]);
    } else if i == 1 {
      InvMixMix(a[1], a[2], a[3], a[0]);
    } else if i == 2 {
      InvMixMix(a[2], a[3], a[0], a[1]);
    } else {
      InvMixMix(a[3], a[0], a[1], a[2]);
    }
  }

  lemma MixColumnUndone(a: Word)
    ensures InvMixColumn(MixColumn(a)) == a
  {
    forall i | 0 <= i < 4
      ensures InvMixColumn(MixColumn(a))[i] == a[i]
    {
      MixColumnUndoneAt(a, i);
    }
  }

  lemma ColumnsJoined(a: Word, b: Word, c: Word, d: Word)
    ensures Column(a + b + c + d, 0) == a && Column(a + b + c + d, 1) == b
    ensures Column(a + b + c + d, 2) == c && Column(a + b + c + d, 3) == d
  {
  }

  lemma ColumnsOf(s: Block)
    ensures Column(s, 0) + Column(s, 1) + Column(s, 2) + Column(s, 3) == s
  {
  }

  lemma MixColumnsUndone(s: Block)
    ensures InvMixColumns(MixColumns(s)) == s
  {
    ColumnsJoined(MixColumn(Column(s, 0)), MixColumn(Column(s, 1)), MixColumn(Column(s, 2)), MixColumn(Column(s, 3)));
    MixColumnUndone(Column(s, 0));
    MixColumnUndone(Column(s, 1));
    MixColumnUndone(Column(s, 2));
    MixColumnUndone(Column(s, 3));
    ColumnsOf(s);
  }

  // ---------- the cipher ----------

  function Scrambled(s: Block): Block { ShiftRows(SubBytes(s)) }

  function Unscrambled(s: Block): Block { InvShiftRows(InvSubBytes(s)) }

  const Aes: Steps<Block> := Steps(AddBlocks, Scrambled, MixColumns, Unscrambled, InvMixColumns)

  predicate KeySchedule(w: seq<bv8>, nr: nat) { |w| == 16 * (nr + 1) && nr >= 1 }

  /** The round keys lie one after another. */
  function RoundKeys(w: seq<bv8>, nr: nat): (keys: seq<Block>)
    requires KeySchedule(w, nr)
    ensures |keys| == nr + 1
  {
    seq(nr + 1, i requires 0 <= i < nr + 1 => w[16 * i..16 * i + 16])
  }

  function Encrypt(s: Block, w: seq<bv8>, nr: nat): Block
    requires KeySchedule(w, nr)
  {
    Encrypted(Aes, s, RoundKeys(w, nr))
  }

  function Decrypt(s: Block, w: seq<bv8>, nr: nat): Block
    requires KeySchedule(w, nr)
  {
    Decrypted(Aes, s, RoundKeys(w, nr))
  }

  /** The cipher under one key schedule, as a function on blocks. */
  function Encryptor(w: seq<bv8>, nr: nat): Block -> Block
    requires KeySchedule(w, nr)
  {
    (b: Block) => Encrypt(b, w, nr)
  }

  function Decryptor(w: seq<bv8>, nr: nat): Block -> Block
    requires KeySchedule(w, nr)
  {
    (b: Block) => Decrypt(b, w, nr)
  }

  lemma FullRound(s: Block, keys: seq<Block>, n: nat)
    requires n + 1 < |keys|
    ensures Rounds(Aes, s, keys, n + 1) == AddBlocks(MixColumns(Scrambled(Rounds(Aes, s, keys, n))), keys[n + 1])
  {
  }

  lemma FirstRound(s: Block, keys: seq<Block>)
    requires |keys| > 0
    ensures Rounds(Aes, s, keys, 0) == AddBlocks(s, keys[0])
  {
  }

  lemma LastRound(s: Block, keys: seq<Block>, n: nat)
    requires n + 2 == |keys|
    ensures Encrypted(Aes, s, keys) == AddBlocks(Scrambled(Rounds(Aes, s, keys, n)), keys[n + 1])
  {
  }

  lemma InvFullRound(s: Block, keys: seq<Block>, n: nat, k: nat)
    requires n + k + 2 == |keys| && k >= 1
    ensures InvRounds(Aes, s, keys, n + 1) == InvMixColumns(AddBlocks(Unscrambled(InvRounds(Aes, s, keys, n)), keys[k]))
  {
    InvRoundsNext(Aes, s, keys, n, k);
  }

  lemma InvFirstRound(s: Block, keys: seq<Block>, nr: nat)
    requires 1 <= nr && nr + 1 == |keys|
    ensures InvRounds(Aes, s, keys, 0) == AddBlocks(s, keys[nr])
  {
  }

  lemma InvLastRound(s: Block, keys: seq<Block>, n: nat)
    requires n + 2 == |keys|
    ensures Decrypted(Aes, s, keys) == AddBlocks(Unscrambled(InvRounds(Aes, s, keys, n)), keys[0])
  {
  }

  lemma ScrambledUndone(s: Block)
    ensures Unscrambled(Scrambled(s)) == s
  {
    SubShiftCommute(SubBytes(s));
    SubBytesUndone(s);
    ShiftRowsUndone(s);
  }

  lemma StepsUndone()
    ensures Invertible(Aes)
  {
    forall s: Block, k: Block
      ensures AddUndone(Aes, s, k)
    {
      AddBlocksTwice(s, k);
    }
    forall s: Block
      ensures AesRounds.ScrambleUndone(Aes, s)
    {
      ScrambledUndone(s);
    }
    forall s: Block
      ensures MixUndone(Aes, s)
    {
      MixColumnsUndone(s);
    }
  }

  /** Decryption undoes encryption: every block, every number of rounds, any round keys. */
  lemma DecryptEncrypt(s: Block, w: seq<bv8>, nr: nat)
    requires KeySchedule(w, nr)
    ensures Decrypt(Encrypt(s, w, nr), w, nr) == s
  {
    StepsUndone();
    DecryptedEncrypted(Aes, s, RoundKeys(w, nr));
  }

  // ---------- the key schedule ----------

  function AddWords(a: Word, b: Word): Word { [Add(a[0], b[0]), Add(a[1], b[1]), Add(a[2], b[2]), Add(a[3], b[3])] }

  function RotWord(a: Word): Word { [a[1], a[2], a[3], a[0]] }

  function SubstitutedWord(table: seq<seq<bv8>>, a: Word): Word
    requires Square(table)
  {
    [Look(table, a[0]), Look(table, a[1]), Look(table, a[2]), Look(table, a[3])]
  }

  function SubWord(a: Word): Word { SubstitutedWord(Sbox, a) }

  /** x to the power n - 1. */
  function RconByte(n: nat): bv8 { if n <= 1 then 1 else Xtime(RconByte(n - 1)) }

  function RconWord(n: nat): Word { [RconByte(n), 0, 0, 0] }

  /** What word i - 1 contributes to word i. */
  function Mangled(previous: Word, nk: nat, i: nat): Word
    requires nk > 0
  {
    if i % nk == 0 then AddWords(SubWord(RotWord(previous)), RconWord(i / nk))
    else if nk > 6 && i % nk == 4 then SubWord(previous)
    else previous
  }

  function KeyWord(key: seq<bv8>, nk: nat, i: nat): Word
    requires nk > 0 && |key| == 4 * nk
  {
    if i < nk then key[4 * i..4 * i + 4]
    else AddWords(KeyWord(key, nk, i - nk), Mangled(KeyWord(key, nk, i - 1), nk, i))
  }

  function Schedule(key: seq<bv8>, nk: nat): nat -> Word
    requires nk > 0 && |key| == 4 * nk
  {
    (i: nat) => KeyWord(key, nk, i)
  }

  /** Word i is what the recurrence makes of its two predecessors. */
  ghost predicate Follows(word: nat -> Word, nk: nat, i: nat)
    requires 0 < nk <= i
  {
    word(i) == AddWords(word(i - nk), Mangled(word(i - 1), nk, i))
  }

  lemma KeyWordNext(key: seq<bv8>, nk: nat, i: nat)
    requires nk > 0 && |key| == 4 * nk && nk <= i
    ensures Follows(Schedule(key, nk), nk, i)
  {
  }

  /** Words laid out one after another. */
  function Laid(word: nat -> Word, n: nat): (w: seq<bv8>)
    ensures |w| == 4 * n
  {
    seq(4 * n, p requires 0 <= p < 4 * n => word(p / 4)[p % 4])
  }

  function Expanded(key: seq<bv8>, nk: nat, nr: nat): (w: seq<bv8>)
    requires nk > 0 && |key| == 4 * nk
    ensures |w| == 16 * (nr + 1)
  {
    Laid(Schedule(key, nk), 4 * (nr + 1))
  }
}
