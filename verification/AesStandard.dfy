/** The key schedule and the parameters in the standard's own terms (sections 5 and 5.2 of
    FIPS 197), without the functions the program is proved against.
 */
module AesStandard {
  import opened AesCipher

  /** The three key lengths, in words. */
  predicate KeyLengths(nk: nat) { nk == 4 || nk == 6 || nk == 8 }

  /** Word i of a flat buffer of words. */
  function WordAt(w: seq<bv8>, i: nat): Word
    requires 4 * i + 4 <= |w|
  {
    w[4 * i..4 * i + 4]
  }

  lemma LaidWord(word: nat -> Word, n: nat, i: nat)
    requires i < n
    ensures WordAt(Laid(word, n), i) == word(i)
  {
    forall r | 0 <= r < 4
      ensures WordAt(Laid(word, n), i)[r] == word(i)[r]
    {
      var p := 4 * i + r;
      assert p / 4 == i && p % 4 == r;
    }
  }

  lemma ExpandedWord(key: seq<bv8>, nk: nat, nr: nat, i: nat)
    requires nk > 0 && |key| == 4 * nk && i < 4 * (nr + 1)
    ensures WordAt(Expanded(key, nk, nr), i) == KeyWord(key, nk, i)
  {
    LaidWord(Schedule(key, nk), 4 * (nr + 1), i);
  }

  // ---------- word by word ----------

  /** The first words are the key. */
  lemma KeyItself(key: seq<bv8>, nk: nat, i: nat)
    requires KeyLengths(nk) && |key| == 4 * nk && i < nk
    ensures KeyWord(key, nk, i) == WordAt(key, i)
  {
  }

  lemma KeyWordStep(key: seq<bv8>, nk: nat, i: nat)
    requires nk > 0 && |key| == 4 * nk && nk <= i
    ensures KeyWord(key, nk, i) == AddWords(KeyWord(key, nk, i - nk), Mangled(KeyWord(key, nk, i - 1), nk, i))
  {
  }

  lemma MangledCases(previous: Word, nk: nat, i: nat)
    requires KeyLengths(nk)
    ensures i % nk == 0 ==> Mangled(previous, nk, i) == AddWords(SubWord(RotWord(previous)), [RconByte(i / nk), 0, 0, 0])
    ensures nk == 8 && i % 8 == 4 ==> Mangled(previous, nk, i) == SubWord(previous)
    ensures i % nk != 0 && !(nk == 8 && i % 8 == 4) ==> Mangled(previous, nk, i) == previous
  {
  }

  /** Every nk-th word: the previous word rotated, substituted, and a power of x added to its
      first byte. */
  lemma RotatedWord(key: seq<bv8>, nk: nat, i: nat)
    requires KeyLengths(nk) && |key| == 4 * nk && nk <= i && i % nk == 0
    ensures KeyWord(key, nk, i)
         == AddWords(KeyWord(key, nk, i - nk), AddWords(SubWord(RotWord(KeyWord(key, nk, i - 1))), [RconByte(i / nk), 0, 0, 0]))
  {
    KeyWordStep(key, nk, i);
    MangledCases(KeyWord(key, nk, i - 1), nk, i);
  }

  /** With eight key words, the words halfway in between: the previous word substituted. */
  lemma SubstitutedOnly(key: seq<bv8>, i: nat)
    requires |key| == 32 && 8 <= i && i % 8 == 4
    ensures KeyWord(key, 8, i) == AddWords(KeyWord(key, 8, i - 8), SubWord(KeyWord(key, 8, i - 1)))
  {
    KeyWordStep(key, 8, i);
    MangledCases(KeyWord(key, 8, i - 1), 8, i);
  }

  /** All other words: the previous word as it is. */
  lemma PlainWord(key: seq<bv8>, nk: nat, i: nat)
    requires KeyLengths(nk) && |key| == 4 * nk && nk <= i && i % nk != 0 && !(nk == 8 && i % 8 == 4)
    ensures KeyWord(key, nk, i) == AddWords(KeyWord(key, nk, i - nk), KeyWord(key, nk, i - 1))
  {
    KeyWordStep(key, nk, i);
    MangledCases(KeyWord(key, nk, i - 1), nk, i);
  }

  // ---------- the whole buffer ----------

  /** Word i by the standard's recurrence, from the key, the previous word and the one nk places
      back, with `sub` for the substitution of a word. */
  function Standard(sub: Word -> Word, key: seq<bv8>, nk: nat, i: nat, back: Word, previous: Word): Word
    requires KeyLengths(nk) && |key| == 4 * nk
  {
    if i < nk then WordAt(key, i)
    else if i % nk == 0 then AddWords(back, AddWords(sub([previous[1], previous[2], previous[3], previous[0]]), [RconByte(i / nk), 0, 0, 0]))
    else if nk == 8 && i % 8 == 4 then AddWords(back, sub(previous))
    else AddWords(back, previous)
  }

  /** Words before the first nk have no predecessors; the key decides them. */
  function Before(w: seq<bv8>, i: nat, n: nat): Word
    requires 4 * i + 4 <= |w|
  {
    if n <= i then WordAt(w, i - n) else WordAt(w, i)
  }

  ghost predicate Recurs(sub: Word -> Word, w: seq<bv8>, key: seq<bv8>, nk: nat, i: nat)
    requires KeyLengths(nk) && |key| == 4 * nk && 4 * i + 4 <= |w|
  {
    WordAt(w, i) == Standard(sub, key, nk, i, Before(w, i, nk), Before(w, i, 1))
  }

  /** Every word of the buffer is the standard's. */
  ghost predicate IsSchedule(sub: Word -> Word, w: seq<bv8>, key: seq<bv8>, nk: nat)
    requires KeyLengths(nk) && |key| == 4 * nk
  {
    forall i: nat :: 4 * i + 4 <= |w| ==> Recurs(sub, w, key, nk, i)
  }

  lemma KeyWordStandard(key: seq<bv8>, nk: nat, i: nat, back: Word, previous: Word)
    requires KeyLengths(nk) && |key| == 4 * nk
    requires nk <= i ==> back == KeyWord(key, nk, i - nk) && previous == KeyWord(key, nk, i - 1)
    ensures KeyWord(key, nk, i) == Standard(SubWord, key, nk, i, back, previous)
  {
    if i < nk {
      KeyItself(key, nk, i);
    } else if i % nk == 0 {
      RotatedWord(key, nk, i);
    } else if nk == 8 && i % 8 == 4 {
      SubstitutedOnly(key, i);
    } else {
      PlainWord(key, nk, i);
    }
  }

  lemma ExpandedRecurs(key: seq<bv8>, nk: nat, nr: nat, i: nat)
    requires KeyLengths(nk) && |key| == 4 * nk && i < 4 * (nr + 1)
    ensures Recurs(SubWord, Expanded(key, nk, nr), key, nk, i)
  {
    var w := Expanded(key, nk, nr);
    ExpandedWord(key, nk, nr, i);
    if nk <= i {
      ExpandedWord(key, nk, nr, i - nk);
      ExpandedWord(key, nk, nr, i - 1);
    }
    KeyWordStandard(key, nk, i, Before(w, i, nk), Before(w, i, 1));
  }

  /** The expanded key is a schedule, for the three key lengths and any number of rounds. */
  lemma ExpandedIsSchedule(key: seq<bv8>, nk: nat, nr: nat)
    requires KeyLengths(nk) && |key| == 4 * nk
    ensures IsSchedule(SubWord, Expanded(key, nk, nr), key, nk)
  {
    forall i: nat | 4 * i + 4 <= |Expanded(key, nk, nr)|
      ensures Recurs(SubWord, Expanded(key, nk, nr), key, nk, i)
    {
      ExpandedRecurs(key, nk, nr, i);
    }
  }

  lemma {:induction false} SameWords(sub: Word -> Word, w: seq<bv8>, v: seq<bv8>, key: seq<bv8>, nk: nat, i: nat)
    requires KeyLengths(nk) && |key| == 4 * nk && 4 * i + 4 <= |w| == |v|
    requires IsSchedule(sub, w, key, nk) && IsSchedule(sub, v, key, nk)
    ensures WordAt(w, i) == WordAt(v, i)
    decreases i
  {
    if nk <= i {
      SameWords(sub, w, v, key, nk, i - nk);
      SameWords(sub, w, v, key, nk, i - 1);
    }
    assert Recurs(sub, w, key, nk, i) && Recurs(sub, v, key, nk, i);
  }

  lemma SameSchedules(sub: Word -> Word, w: seq<bv8>, v: seq<bv8>, key: seq<bv8>, nk: nat)
    requires KeyLengths(nk) && |key| == 4 * nk && |w| == |v| && |w| % 4 == 0
    requires IsSchedule(sub, w, key, nk) && IsSchedule(sub, v, key, nk)
    ensures w == v
  {
    forall p | 0 <= p < |w|
      ensures w[p] == v[p]
    {
      SameWords(sub, w, v, key, nk, p / 4);
      assert WordAt(w, p / 4)[p % 4] == w[p] && WordAt(v, p / 4)[p % 4] == v[p];
    }
  }

  /** ... and the only one of its length. */
  lemma ScheduleUnique(w: seq<bv8>, key: seq<bv8>, nk: nat, nr: nat)
    requires KeyLengths(nk) && |key| == 4 * nk && |w| == 16 * (nr + 1)
    ensures IsSchedule(SubWord, w, key, nk) <==> w == Expanded(key, nk, nr)
  {
    ExpandedIsSchedule(key, nk, nr);
    if IsSchedule(SubWord, w, key, nk) {
      SameSchedules(SubWord, w, Expanded(key, nk, nr), key, nk);
    }
  }
}
