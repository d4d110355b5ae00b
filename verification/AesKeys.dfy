/** The C++ key expansion, on four-byte buffers and a flat round-key buffer. */
module AesKeys {
  import opened AesField
  import opened AesTables
  import C = AesCipher
  import S = AesStandard

  method RotWord(a: array<bv8>)
    requires a.Length == 4
    modifies a
    ensures a[..] == C.RotWord(old(a[..]))
  {
    var c := a[0];
    a[0] := a[1];
    a[1] := a[2];
    a[2] := a[3];
    a[3] := c;
  }

  method SubstituteWord(a: array<bv8>, table: seq<seq<bv8>>)
    requires a.Length == 4 && Square(table)
    modifies a
    ensures a[..] == C.SubstitutedWord(table, old(a[..]))
  {
    for i := 0 to 4
      invariant forall k :: 0 <= k < 4 ==> a[k] == if k < i then Look(table, old(a[k])) else old(a[k])
    {
      a[i] := table[(a[i] / 16) as int][(a[i] % 16) as int];
    }
  }

  method SubWord(a: array<bv8>)
    requires a.Length == 4
    modifies a
    ensures a[..] == C.SubWord(old(a[..]))
  {
    SubstituteWord(a, Sbox);
  }

  /** c may be a or b. */
  method XorWords(a: array<bv8>, b: array<bv8>, c: array<bv8>)
    requires a.Length == 4 && b.Length == 4 && c.Length == 4
    modifies c
    ensures c[..] == C.AddWords(old(a[..]), old(b[..]))
  {
    for i := 0 to 4
      invariant forall k :: 0 <= k < i ==> c[k] == Add(old(a[k]), old(b[k]))
      invariant forall k :: i <= k < 4 ==> a[k] == old(a[k]) && b[k] == old(b[k])
    {
      c[i] := a[i] ^ b[i];
    }
  }

  method Rcon(a: array<bv8>, n: nat)
    requires a.Length == 4 && n >= 1
    modifies a
    ensures a[..] == C.RconWord(n)
  {
    var c: bv8 := 1;
    for i := 0 to n - 1
      invariant c == C.RconByte(i + 1)
    {
      c := Xtime(c);
    }
    a[0] := c;
    a[1], a[2], a[3] := 0, 0, 0;
  }

  method CoreWord(temp: array<bv8>, rcon: array<bv8>, n: nat)
    requires temp.Length == 4 && rcon.Length == 4 && temp != rcon && n >= 1
    modifies temp, rcon
    ensures temp[..] == C.AddWords(C.SubWord(C.RotWord(old(temp[..]))), C.RconWord(n))
  {
    RotWord(temp);
    SubWord(temp);
    Rcon(rcon, n);
    XorWords(temp, rcon, temp);
  }

  /** What the loop body does to its copy of the previous word. */
  method Mangle(temp: array<bv8>, rcon: array<bv8>, nk: nat, i: nat)
    requires temp.Length == 4 && rcon.Length == 4 && temp != rcon && nk > 0 && i >= nk
    modifies temp, rcon
    ensures temp[..] == C.Mangled(old(temp[..]), nk, i)
  {
    if i % nk == 0 {
      assert i / nk >= 1;
      CoreWord(temp, rcon, i / nk);
    } else if nk > 6 && i % nk == 4 {
      SubWord(temp);
    }
  }

  ghost predicate FilledWith(w: seq<bv8>, word: nat -> C.Word, words: nat)
    requires 4 * words <= |w|
  {
    forall i: nat {:trigger word(i)} :: i < words ==> w[4 * i..4 * i + 4] == word(i)
  }

  lemma FilledNext(w: seq<bv8>, w': seq<bv8>, word: nat -> C.Word, i: nat)
    requires 4 * i + 4 <= |w| == |w'|
    requires FilledWith(w, word, i) && w'[4 * i..4 * i + 4] == word(i)
    requires forall p :: 0 <= p < 4 * i ==> w'[p] == w[p]
    ensures FilledWith(w', word, i + 1)
  {
    forall k: nat | k < i
      ensures w'[4 * k..4 * k + 4] == word(k)
    {
      assert w'[4 * k..4 * k + 4] == w[4 * k..4 * k + 4];
    }
  }

  method LoadWord(w: array<bv8>, temp: array<bv8>, i: nat)
    requires i >= 1 && 4 * i <= w.Length && temp.Length == 4 && temp != w
    modifies temp
    ensures temp[..] == old(w[4 * (i - 1)..4 * (i - 1) + 4])
  {
    var at := 4 * (i - 1);
    ghost var word := w[at..at + 4];
    temp[0] := w[at];
    temp[1] := w[at + 1];
    temp[2] := w[at + 2];
    temp[3] := w[at + 3];
    assert forall q :: 0 <= q < 4 ==> temp[..][q] == word[q];
  }

  /** Word i from the word before it and the word nk places back. */
  method NextWord(w: array<bv8>, temp: array<bv8>, rcon: array<bv8>, ghost previous: C.Word, ghost back: C.Word, nk: nat, i: nat)
    requires nk > 0 && nk <= i && 4 * i + 4 <= w.Length
    requires temp.Length == 4 && rcon.Length == 4 && temp != rcon && w != temp && w != rcon
    requires w[4 * (i - 1)..4 * (i - 1) + 4] == previous && w[4 * (i - nk)..4 * (i - nk) + 4] == back
    modifies w, temp, rcon
    ensures w[4 * i..4 * i + 4] == C.AddWords(back, C.Mangled(previous, nk, i))
    ensures forall p :: 0 <= p < w.Length && !(4 * i <= p < 4 * i + 4) ==> w[p] == old(w[p])
  {
    LoadWord(w, temp, i);
    Mangle(temp, rcon, nk, i);
    assert w[4 * (i - nk)..4 * (i - nk) + 4] == back;
    StoreWord(w, temp, i, nk);
  }

  method ExtendSchedule(w: array<bv8>, temp: array<bv8>, rcon: array<bv8>, ghost word: nat -> C.Word, nk: nat, i: nat)
    requires 0 < nk <= i && 4 * i + 4 <= w.Length && C.Follows(word, nk, i)
    requires temp.Length == 4 && rcon.Length == 4 && temp != rcon && w != temp && w != rcon
    requires FilledWith(w[..], word, i)
    modifies w, temp, rcon
    ensures FilledWith(w[..], word, i + 1)
  {
    ghost var was, previous, back := w[..], word(i - 1), word(i - nk);
    PutWord(w, was, temp, rcon, previous, back, nk, i);
    FilledNext(was, w[..], word, i);
  }

  method PutWord(w: array<bv8>, ghost was: seq<bv8>, temp: array<bv8>, rcon: array<bv8>,
                 ghost previous: C.Word, ghost back: C.Word, nk: nat, i: nat)
    requires nk > 0 && nk <= i && 4 * i + 4 <= w.Length && w[..] == was
    requires temp.Length == 4 && rcon.Length == 4 && temp != rcon && w != temp && w != rcon
    requires was[4 * (i - 1)..4 * (i - 1) + 4] == previous && was[4 * (i - nk)..4 * (i - nk) + 4] == back
    modifies w, temp, rcon
    ensures w[..][4 * i..4 * i + 4] == C.AddWords(back, C.Mangled(previous, nk, i))
    ensures forall p :: 0 <= p < 4 * i ==> w[..][p] == was[p]
  {
    assert w[4 * (i - 1)..4 * (i - 1) + 4] == was[4 * (i - 1)..4 * (i - 1) + 4];
    assert w[4 * (i - nk)..4 * (i - nk) + 4] == was[4 * (i - nk)..4 * (i - nk) + 4];
    NextWord(w, temp, rcon, previous, back, nk, i);
    assert w[4 * i..4 * i + 4] == w[..][4 * i..4 * i + 4];
  }

  method StoreWord(w: array<bv8>, temp: array<bv8>, i: nat, nk: nat)
    requires nk > 0 && nk <= i && 4 * i + 4 <= w.Length && temp.Length == 4 && temp != w
    modifies w
    ensures forall p :: 0 <= p < w.Length && !(4 * i <= p < 4 * i + 4) ==> w[p] == old(w[p])
    ensures w[4 * i..4 * i + 4] == C.AddWords(old(w[4 * (i - nk)..4 * (i - nk) + 4]), old(temp[..]))
  {
    var from := 4 * (i - nk);
    var sum := C.AddWords(w[from..from + 4], temp[..]);
    PutBytes(w, 4 * i, sum);
  }

  method PutBytes(w: array<bv8>, at: nat, v: C.Word)
    requires at + 4 <= w.Length
    modifies w
    ensures w[at..at + 4] == v
    ensures forall p :: 0 <= p < w.Length && !(at <= p < at + 4) ==> w[p] == old(w[p])
  {
    w[at] := v[0];
    w[at + 1] := v[1];
    w[at + 2] := v[2];
    w[at + 3] := v[3];
  }

  method CopyKey(key: seq<bv8>, w: array<bv8>)
    requires |key| <= w.Length
    modifies w
    ensures forall p :: 0 <= p < |key| ==> w[p] == key[p]
  {
    for i := 0 to |key|
      invariant forall p :: 0 <= p < i ==> w[p] == key[p]
    {
      w[i] := key[i];
    }
  }

  /** The first words are the key itself. */
  lemma KeyFills(w: seq<bv8>, key: seq<bv8>, nk: nat)
    requires nk > 0 && |key| == 4 * nk <= |w| && forall p :: 0 <= p < |key| ==> w[p] == key[p]
    ensures FilledWith(w, C.Schedule(key, nk), nk)
  {
    var word := C.Schedule(key, nk);
    forall i: nat | i < nk
      ensures w[4 * i..4 * i + 4] == word(i)
    {
      assert word(i) == key[4 * i..4 * i + 4];
    }
  }

  method FillSchedule(w: array<bv8>, ghost word: nat -> C.Word, nk: nat, words: nat)
    requires 0 < nk <= words && w.Length == 4 * words && FilledWith(w[..], word, nk)
    requires forall i: nat :: nk <= i ==> C.Follows(word, nk, i)
    modifies w
    ensures FilledWith(w[..], word, words)
  {
    var temp, rcon := new bv8[4], new bv8[4];
    for i := nk to words
      invariant FilledWith(w[..], word, i)
    {
      assert C.Follows(word, nk, i);
      ExtendSchedule(w, temp, rcon, word, nk, i);
    }
  }

  method KeyExpansion(key: seq<bv8>, w: array<bv8>, nk: nat, nr: nat)
    requires nk > 0 && |key| == 4 * nk && w.Length == 16 * (nr + 1) && nk <= 4 * (nr + 1)
    modifies w
    ensures w[..] == C.Expanded(key, nk, nr)
    ensures S.KeyLengths(nk) ==> S.IsSchedule(C.SubWord, w[..], key, nk)
  {
    CopyKey(key, w);
    KeyFills(w[..], key, nk);
    forall i: nat | nk <= i
      ensures C.Follows(C.Schedule(key, nk), nk, i)
    {
      C.KeyWordNext(key, nk, i);
    }
    FillSchedule(w, C.Schedule(key, nk), nk, 4 * (nr + 1));
    FilledIsLaid(w[..], C.Schedule(key, nk), 4 * (nr + 1));
    if S.KeyLengths(nk) {
      S.ExpandedIsSchedule(key, nk, nr);
    }
  }

  lemma FilledIsLaid(w: seq<bv8>, word: nat -> C.Word, n: nat)
    requires |w| == 4 * n && FilledWith(w, word, n)
    ensures w == C.Laid(word, n)
  {
    forall p | 0 <= p < |w|
      ensures w[p] == word(p / 4)[p % 4]
    {
      var i := p / 4;
      assert w[4 * i..4 * i + 4] == word(i);
      assert w[4 * i..4 * i + 4][p % 4] == w[p];
    }
  }
}
