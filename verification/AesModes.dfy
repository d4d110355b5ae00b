/** The three modes of operation over any block functions: sections 6.1 to 6.3 of
    NIST SP 800-38A (full-block feedback for CFB).
 */
module AesModes {
  import opened AesField
  import opened AesCipher

  ghost predicate Whole(s: seq<bv8>) { |s| % 16 == 0 }

  function Ecb(f: Block -> Block, s: seq<bv8>): (r: seq<bv8>)
    requires Whole(s)
    ensures |r| == |s|
  {
    if s == [] then [] else
      var n := |s| - 16;
      Ecb(f, s[..n]) + f(s[n..])
  }

  /** The block that chains into the next one: the last ciphertext block, or the IV. */
  function Chained(iv: Block, c: seq<bv8>): Block
    requires Whole(c)
  {
    if c == [] then iv else c[|c| - 16..]
  }

  function CbcEncrypt(f: Block -> Block, iv: Block, s: seq<bv8>): (r: seq<bv8>)
    requires Whole(s)
    ensures |r| == |s|
  {
    if s == [] then [] else
      var n := |s| - 16;
      var done := CbcEncrypt(f, iv, s[..n]);
      done + f(AddBlocks(Chained(iv, done), s[n..]))
  }

  function CbcDecrypt(g: Block -> Block, iv: Block, s: seq<bv8>): (r: seq<bv8>)
    requires Whole(s)
    ensures |r| == |s|
  {
    if s == [] then [] else
      var n := |s| - 16;
      CbcDecrypt(g, iv, s[..n]) + AddBlocks(Chained(iv, s[..n]), g(s[n..]))
  }

  function CfbEncrypt(f: Block -> Block, iv: Block, s: seq<bv8>): (r: seq<bv8>)
    requires Whole(s)
    ensures |r| == |s|
  {
    if s == [] then [] else
      var n := |s| - 16;
      var done := CfbEncrypt(f, iv, s[..n]);
      done + AddBlocks(s[n..], f(Chained(iv, done)))
  }

  function CfbDecrypt(f: Block -> Block, iv: Block, s: seq<bv8>): (r: seq<bv8>)
    requires Whole(s)
    ensures |r| == |s|
  {
    if s == [] then [] else
      var n := |s| - 16;
      CfbDecrypt(f, iv, s[..n]) + AddBlocks(s[n..], f(Chained(iv, s[..n])))
  }

  // ---------- one more block ----------

  lemma EcbNext(f: Block -> Block, s: seq<bv8>, i: nat)
    requires i % 16 == 0 && i + 16 <= |s|
    ensures Whole(s[..i]) && Whole(s[..i + 16])
    ensures Ecb(f, s[..i + 16]) == Ecb(f, s[..i]) + f(s[i..i + 16])
  {
    var t := s[..i + 16];
    assert t[..i] == s[..i] && t[i..] == s[i..i + 16];
  }

  lemma CbcEncryptNext(f: Block -> Block, iv: Block, s: seq<bv8>, i: nat)
    requires i % 16 == 0 && i + 16 <= |s|
    ensures Whole(s[..i]) && Whole(s[..i + 16])
    ensures var done := CbcEncrypt(f, iv, s[..i]);
            CbcEncrypt(f, iv, s[..i + 16]) == done + f(AddBlocks(Chained(iv, done), s[i..i + 16]))
  {
    var t := s[..i + 16];
    assert t[..i] == s[..i] && t[i..] == s[i..i + 16];
  }

  /** The next block, and what it leaves for the one after. */
  lemma CbcEncryptExtends(f: Block -> Block, iv: Block, s: seq<bv8>, i: nat, done: seq<bv8>, chain: Block)
    requires Whole(s) && i % 16 == 0 && i + 16 <= |s| && done == CbcEncrypt(f, iv, s[..i]) && chain == Chained(iv, done)
    ensures Whole(s[..i + 16])
    ensures var block := f(AddBlocks(chain, s[i..i + 16]));
            CbcEncrypt(f, iv, s[..i + 16]) == done + block && Chained(iv, done + block) == block
  {
    CbcEncryptNext(f, iv, s, i);
  }

  lemma CbcDecryptNext(g: Block -> Block, iv: Block, s: seq<bv8>, i: nat)
    requires i % 16 == 0 && i + 16 <= |s|
    ensures Whole(s[..i]) && Whole(s[..i + 16])
    ensures CbcDecrypt(g, iv, s[..i + 16]) == CbcDecrypt(g, iv, s[..i]) + AddBlocks(Chained(iv, s[..i]), g(s[i..i + 16]))
  {
    var t := s[..i + 16];
    assert t[..i] == s[..i] && t[i..] == s[i..i + 16];
  }

  /** The next block, and what it leaves for the one after. */
  lemma CbcDecryptExtends(g: Block -> Block, iv: Block, s: seq<bv8>, i: nat, done: seq<bv8>, chain: Block)
    requires Whole(s) && i % 16 == 0 && i + 16 <= |s| && done == CbcDecrypt(g, iv, s[..i]) && chain == Chained(iv, s[..i])
    ensures Whole(s[..i + 16]) && Chained(iv, s[..i + 16]) == s[i..i + 16]
    ensures CbcDecrypt(g, iv, s[..i + 16]) == done + AddBlocks(chain, g(s[i..i + 16]))
  {
    CbcDecryptNext(g, iv, s, i);
  }

  lemma CfbEncryptNext(f: Block -> Block, iv: Block, s: seq<bv8>, i: nat)
    requires i % 16 == 0 && i + 16 <= |s|
    ensures Whole(s[..i]) && Whole(s[..i + 16])
    ensures var done := CfbEncrypt(f, iv, s[..i]);
            CfbEncrypt(f, iv, s[..i + 16]) == done + AddBlocks(s[i..i + 16], f(Chained(iv, done)))
  {
    var t := s[..i + 16];
    assert t[..i] == s[..i] && t[i..] == s[i..i + 16];
  }

  lemma CfbDecryptNext(f: Block -> Block, iv: Block, s: seq<bv8>, i: nat)
    requires i % 16 == 0 && i + 16 <= |s|
    ensures Whole(s[..i]) && Whole(s[..i + 16])
    ensures CfbDecrypt(f, iv, s[..i + 16]) == CfbDecrypt(f, iv, s[..i]) + AddBlocks(s[i..i + 16], f(Chained(iv, s[..i])))
  {
    var t := s[..i + 16];
    assert t[..i] == s[..i] && t[i..] == s[i..i + 16];
  }

  // ---------- block by block ----------

  /** The block of s that starts at i. */
  function At(s: seq<bv8>, i: nat): Block
    requires i + 16 <= |s|
  {
    s[i..i + 16]
  }

  // Each block of a result depends only on the text up to it.

  lemma CutFront(c: seq<bv8>, done: seq<bv8>, block: Block, i: nat)
    requires c == done + block && i <= |done|
    ensures c[..i] == done[..i]
  {
  }

  lemma CutText(s: seq<bv8>, i: nat)
    requires Whole(s) && i % 16 == 0 && i < |s|
    ensures Whole(s[..|s| - 16]) && i <= |s| - 16 && s[..|s| - 16][..i] == s[..i]
  {
  }

  lemma {:induction false} EcbCuts(f: Block -> Block, s: seq<bv8>, i: nat)
    requires Whole(s) && i % 16 == 0 && i <= |s|
    ensures Ecb(f, s)[..i] == Ecb(f, s[..i])
    decreases |s|
  {
    if i == |s| {
      assert s[..i] == s;
    } else {
      var n := |s| - 16;
      CutText(s, i);
      EcbCuts(f, s[..n], i);
      var done := Ecb(f, s[..n]);
      CutFront(Ecb(f, s), done, f(s[n..]), i);
    }
  }

  lemma {:induction false} CbcEncryptCuts(f: Block -> Block, iv: Block, s: seq<bv8>, i: nat)
    requires Whole(s) && i % 16 == 0 && i <= |s|
    ensures CbcEncrypt(f, iv, s)[..i] == CbcEncrypt(f, iv, s[..i])
    decreases |s|
  {
    if i == |s| {
      assert s[..i] == s;
    } else {
      var n := |s| - 16;
      CutText(s, i);
      CbcEncryptCuts(f, iv, s[..n], i);
      var done := CbcEncrypt(f, iv, s[..n]);
      CutFront(CbcEncrypt(f, iv, s), done, f(AddBlocks(Chained(iv, done), s[n..])), i);
    }
  }

  lemma {:induction false} CbcDecryptCuts(g: Block -> Block, iv: Block, s: seq<bv8>, i: nat)
    requires Whole(s) && i % 16 == 0 && i <= |s|
    ensures CbcDecrypt(g, iv, s)[..i] == CbcDecrypt(g, iv, s[..i])
    decreases |s|
  {
    if i == |s| {
      assert s[..i] == s;
    } else {
      var n := |s| - 16;
      CutText(s, i);
      CbcDecryptCuts(g, iv, s[..n], i);
      var done := CbcDecrypt(g, iv, s[..n]);
      CutFront(CbcDecrypt(g, iv, s), done, AddBlocks(Chained(iv, s[..n]), g(s[n..])), i);
    }
  }

  lemma {:induction false} CfbEncryptCuts(f: Block -> Block, iv: Block, s: seq<bv8>, i: nat)
    requires Whole(s) && i % 16 == 0 && i <= |s|
    ensures CfbEncrypt(f, iv, s)[..i] == CfbEncrypt(f, iv, s[..i])
    decreases |s|
  {
    if i == |s| {
      assert s[..i] == s;
    } else {
      var n := |s| - 16;
      CutText(s, i);
      CfbEncryptCuts(f, iv, s[..n], i);
      var done := CfbEncrypt(f, iv, s[..n]);
      CutFront(CfbEncrypt(f, iv, s), done, AddBlocks(s[n..], f(Chained(iv, done))), i);
    }
  }

  lemma {:induction false} CfbDecryptCuts(f: Block -> Block, iv: Block, s: seq<bv8>, i: nat)
    requires Whole(s) && i % 16 == 0 && i <= |s|
    ensures CfbDecrypt(f, iv, s)[..i] == CfbDecrypt(f, iv, s[..i])
    decreases |s|
  {
    if i == |s| {
      assert s[..i] == s;
    } else {
      var n := |s| - 16;
      CutText(s, i);
      CfbDecryptCuts(f, iv, s[..n], i);
      var done := CfbDecrypt(f, iv, s[..n]);
      CutFront(CfbDecrypt(f, iv, s), done, AddBlocks(s[n..], f(Chained(iv, s[..n]))), i);
    }
  }

  /** ECB: every block on its own. */
  lemma EcbBlock(f: Block -> Block, s: seq<bv8>, i: nat)
    requires Whole(s) && i % 16 == 0 && i + 16 <= |s|
    ensures At(Ecb(f, s), i) == f(At(s, i))
  {
    EcbCuts(f, s, i + 16);
    EcbNext(f, s, i);
    assert At(Ecb(f, s), i) == Ecb(f, s)[..i + 16][i..];
  }

  /** CBC encryption: the first block is added to the IV, every later one to the ciphertext
      block before it, and then encrypted. */
  lemma CbcEncryptBlock(f: Block -> Block, iv: Block, s: seq<bv8>, i: nat)
    requires Whole(s) && i % 16 == 0 && i + 16 <= |s|
    ensures var c := CbcEncrypt(f, iv, s);
            At(c, i) == f(AddBlocks(if i == 0 then iv else At(c, i - 16), At(s, i)))
  {
    CbcEncryptCuts(f, iv, s, i + 16);
    CbcEncryptCuts(f, iv, s, i);
    CbcEncryptNext(f, iv, s, i);
    var c := CbcEncrypt(f, iv, s);
    assert At(c, i) == c[..i + 16][i..];
    assert i > 0 ==> At(c, i - 16) == c[..i][i - 16..];
  }

  /** CBC decryption: every block is decrypted and added to the IV, or the ciphertext block
      before it. */
  lemma CbcDecryptBlock(g: Block -> Block, iv: Block, c: seq<bv8>, i: nat)
    requires Whole(c) && i % 16 == 0 && i + 16 <= |c|
    ensures At(CbcDecrypt(g, iv, c), i) == AddBlocks(if i == 0 then iv else At(c, i - 16), g(At(c, i)))
  {
    CbcDecryptCuts(g, iv, c, i + 16);
    CbcDecryptNext(g, iv, c, i);
    assert At(CbcDecrypt(g, iv, c), i) == CbcDecrypt(g, iv, c)[..i + 16][i..];
    assert i > 0 ==> At(c, i - 16) == c[..i][i - 16..];
  }

  /** CFB encryption: the IV, or the ciphertext block before, is encrypted and the text added. */
  lemma CfbEncryptBlock(f: Block -> Block, iv: Block, s: seq<bv8>, i: nat)
    requires Whole(s) && i % 16 == 0 && i + 16 <= |s|
    ensures var c := CfbEncrypt(f, iv, s);
            At(c, i) == AddBlocks(At(s, i), f(if i == 0 then iv else At(c, i - 16)))
  {
    CfbEncryptCuts(f, iv, s, i + 16);
    CfbEncryptCuts(f, iv, s, i);
    CfbEncryptNext(f, iv, s, i);
    var c := CfbEncrypt(f, iv, s);
    assert At(c, i) == c[..i + 16][i..];
    assert i > 0 ==> At(c, i - 16) == c[..i][i - 16..];
  }

  /** CFB decryption: the same, with the ciphertext at hand. */
  lemma CfbDecryptBlock(f: Block -> Block, iv: Block, c: seq<bv8>, i: nat)
    requires Whole(c) && i % 16 == 0 && i + 16 <= |c|
    ensures At(CfbDecrypt(f, iv, c), i) == AddBlocks(At(c, i), f(if i == 0 then iv else At(c, i - 16)))
  {
    CfbDecryptCuts(f, iv, c, i + 16);
    CfbDecryptNext(f, iv, c, i);
    assert At(CfbDecrypt(f, iv, c), i) == CfbDecrypt(f, iv, c)[..i + 16][i..];
    assert i > 0 ==> At(c, i - 16) == c[..i][i - 16..];
  }

  // ---------- decryption recovers the plaintext ----------

  ghost predicate Undone(f: Block -> Block, g: Block -> Block) {
    forall b: Block {:trigger f(b)} :: g(f(b)) == b
  }

  lemma {:induction false} EcbRoundTrip(f: Block -> Block, g: Block -> Block, s: seq<bv8>)
    requires Whole(s) && Undone(f, g)
    ensures Ecb(g, Ecb(f, s)) == s
  {
    if s != [] {
      var n := |s| - 16;
      var head, last := s[..n], s[n..];
      EcbRoundTrip(f, g, head);
      var c := Ecb(f, s);
      assert c[..n] == Ecb(f, head) && c[n..] == f(last);
      assert s == head + last;
    }
  }

  lemma AddBlocksCancel(a: Block, b: Block)
    ensures AddBlocks(a, AddBlocks(a, b)) == b
  {
    forall p | 0 <= p < 16
      ensures AddBlocks(a, AddBlocks(a, b))[p] == b[p]
    {
      AddComm(a[p], b[p]);
      AddComm(a[p], Add(b[p], a[p]));
      AddTwice(b[p], a[p]);
    }
  }

  lemma {:induction false} CbcRoundTrip(f: Block -> Block, g: Block -> Block, iv: Block, s: seq<bv8>)
    requires Whole(s) && Undone(f, g)
    ensures CbcDecrypt(g, iv, CbcEncrypt(f, iv, s)) == s
    decreases |s|
  {
    if s != [] {
      var n := |s| - 16;
      var head, last := s[..n], s[n..];
      CbcRoundTrip(f, g, iv, head);
      var done := CbcEncrypt(f, iv, head);
      var c := CbcEncrypt(f, iv, s);
      assert c[..n] == done && c[n..] == f(AddBlocks(Chained(iv, done), last));
      AddBlocksCancel(Chained(iv, done), last);
      assert s == head + last;
    }
  }

  /** CFB never inverts its block function, so it works for any. */
  lemma {:induction false} CfbRoundTrip(f: Block -> Block, iv: Block, s: seq<bv8>)
    requires Whole(s)
    ensures CfbDecrypt(f, iv, CfbEncrypt(f, iv, s)) == s
    decreases |s|
  {
    if s != [] {
      var n := |s| - 16;
      var head, last := s[..n], s[n..];
      CfbRoundTrip(f, iv, head);
      var done := CfbEncrypt(f, iv, head);
      var pad := f(Chained(iv, done));
      var c := CfbEncrypt(f, iv, s);
      assert c[..n] == done && c[n..] == AddBlocks(last, pad);
      AddBlocksTwice(last, pad);
      assert s == head + last;
    }
  }
}
