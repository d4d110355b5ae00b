/** The public interface of the C++ AES class: three key lengths, three modes. */
module AesClass {
  import opened Options
  import opened AesField
  import opened AesModes
  import C = AesCipher
  import B = AesBlocks
  import K = AesKeys

  datatype KeyLength = Aes128 | Aes192 | Aes256

  function KeyWords(l: KeyLength): nat { match l case Aes128 => 4 case Aes192 => 6 case Aes256 => 8 }

  function RoundCount(l: KeyLength): nat { match l case Aes128 => 10 case Aes192 => 12 case Aes256 => 14 }

  function KeyBits(l: KeyLength): nat { match l case Aes128 => 128 case Aes192 => 192 case Aes256 => 256 }

  /** Words of 32 bits, and six more rounds than words. */
  lemma Parameters(l: KeyLength)
    ensures 32 * KeyWords(l) == KeyBits(l) && RoundCount(l) == KeyWords(l) + 6
  {
  }

  function Sums(x: seq<bv8>, y: seq<bv8>): (z: seq<bv8>)
    requires |x| == |y|
    ensures |z| == |x|
  {
    seq(|x|, i requires 0 <= i < |x| => Add(x[i], y[i]))
  }

  /** c may be a or b, at the same place. */
  method XorBlocks(a: array<bv8>, ao: nat, b: array<bv8>, bo: nat, c: array<bv8>, co: nat, len: nat)
    requires ao + len <= a.Length && bo + len <= b.Length && co + len <= c.Length
    requires (c == a ==> ao == co) && (c == b ==> bo == co)
    modifies c
    ensures c[..] == old(c[..co]) + Sums(old(a[ao..ao + len]), old(b[bo..bo + len])) + old(c[co + len..])
  {
    ghost var x, y := a[ao..ao + len], b[bo..bo + len];
    ghost var z := Sums(x, y);
    for i := 0 to len
      invariant forall q :: co <= q < co + i ==> c[q] == z[q - co]
      invariant forall q :: ao + i <= q < ao + len ==> a[q] == x[q - ao]
      invariant forall q :: bo + i <= q < bo + len ==> b[q] == y[q - bo]
      invariant forall q :: 0 <= q < c.Length && !(co <= q < co + i) ==> c[q] == old(c[q])
    {
      assert z[i] == Add(x[i], y[i]);
      c[co + i] := a[ao + i] ^ b[bo + i];
    }
    Spliced(old(c[..]), c[..], co, z);
  }

  lemma Spliced(was: seq<bv8>, now: seq<bv8>, at: nat, z: seq<bv8>)
    requires |now| == |was| && at + |z| <= |was|
    requires forall q :: at <= q < at + |z| ==> now[q] == z[q - at]
    requires forall q :: 0 <= q < |was| && !(at <= q < at + |z|) ==> now[q] == was[q]
    ensures now == was[..at] + z + was[at + |z|..]
  {
  }

  lemma SumsOfBlocks(x: C.Block, y: C.Block)
    ensures Sums(x, y) == C.AddBlocks(x, y)
  {
  }

  /** The only length the modes use. */
  method XorBlock(a: array<bv8>, ao: nat, b: array<bv8>, bo: nat, c: array<bv8>, co: nat)
    requires ao + 16 <= a.Length && bo + 16 <= b.Length && co + 16 <= c.Length
    requires (c == a ==> ao == co) && (c == b ==> bo == co)
    modifies c
    ensures c[..] == old(c[..co]) + C.AddBlocks(old(a[ao..ao + 16]), old(b[bo..bo + 16])) + old(c[co + 16..])
  {
    SumsOfBlocks(a[ao..ao + 16], b[bo..bo + 16]);
    XorBlocks(a, ao, b, bo, c, co, 16);
  }

  method XorInto(block: array<bv8>, input: array<bv8>, i: nat)
    requires block.Length == 16 && block != input && i + 16 <= input.Length
    modifies block
    ensures block[..] == C.AddBlocks(old(block[..]), old(input[i..i + 16]))
  {
    assert block[0..16] == block[..];
    XorBlock(block, 0, input, i, block, 0);
  }

  // ---------- one block of each mode, for the block function the round keys give ----------

  ghost predicate Encrypts(f: C.Block -> C.Block, w: seq<bv8>, nr: nat) {
    C.KeySchedule(w, nr) && forall b: C.Block {:trigger C.Encrypt(b, w, nr)} :: f(b) == C.Encrypt(b, w, nr)
  }

  ghost predicate Decrypts(g: C.Block -> C.Block, w: seq<bv8>, nr: nat) {
    C.KeySchedule(w, nr) && forall b: C.Block {:trigger C.Decrypt(b, w, nr)} :: g(b) == C.Decrypt(b, w, nr)
  }

  lemma EncryptorEncrypts(w: seq<bv8>, nr: nat)
    requires C.KeySchedule(w, nr)
    ensures Encrypts(C.Encryptor(w, nr), w, nr) && Decrypts(C.Decryptor(w, nr), w, nr)
  {
  }

  method EncryptWith(ghost f: C.Block -> C.Block, input: C.Block, out: array<bv8>, offset: nat, w: array<bv8>, ghost keys: seq<bv8>, nr: nat)
    requires w[..] == keys && Encrypts(f, keys, nr) && offset + 16 <= out.Length && out != w
    modifies out
    ensures out[..] == old(out[..offset]) + f(input) + old(out[offset + 16..])
  {
    B.EncryptBlock(input, out, offset, w, nr);
  }

  method DecryptWith(ghost g: C.Block -> C.Block, input: C.Block, out: array<bv8>, offset: nat, w: array<bv8>, ghost keys: seq<bv8>, nr: nat)
    requires w[..] == keys && Decrypts(g, keys, nr) && offset + 16 <= out.Length && out != w
    modifies out
    ensures out[..] == old(out[..offset]) + g(input) + old(out[offset + 16..])
  {
    B.DecryptBlock(input, out, offset, w, nr);
  }

  method CopyBlock(from: array<bv8>, offset: nat, to: array<bv8>)
    requires offset + 16 <= from.Length && to.Length == 16 && from != to
    modifies to
    ensures to[..] == old(from[offset..offset + 16])
  {
    for i := 0 to 16
      invariant forall q :: 0 <= q < i ==> to[q] == from[offset + q]
    {
      to[i] := from[offset + i];
    }
  }

  /** The buffers of a mode's loop, which are distinct; i is at a block boundary. */
  ghost predicate Buffers(s: seq<bv8>, input: array<bv8>, out: array<bv8>, w: array<bv8>, keys: seq<bv8>, i: nat)
    reads input, w
  {
    && out != input && out != w && out.Length == input.Length == |s| && input[..] == s && w[..] == keys
    && Whole(s) && i % 16 == 0 && i <= |s|
  }

  ghost predicate Chaining(block: array<bv8>, input: array<bv8>, out: array<bv8>, w: array<bv8>) {
    block.Length == 16 && block != input && block != out && block != w
  }

  ghost predicate EcbEncryptState(f: C.Block -> C.Block, s: seq<bv8>, input: array<bv8>, out: array<bv8>, w: array<bv8>, keys: seq<bv8>, nr: nat, i: nat)
    reads input, out, w
  {
    && Buffers(s, input, out, w, keys, i) && Encrypts(f, keys, nr) && out[..i] == Ecb(f, s[..i])
  }

  /** The loop body of ECB encryption, whatever came before. */
  method EncryptNext(ghost f: C.Block -> C.Block, ghost s: seq<bv8>,
      input: array<bv8>, out: array<bv8>, w: array<bv8>, ghost keys: seq<bv8>, nr: nat, i: nat)
    requires Buffers(s, input, out, w, keys, i) && Encrypts(f, keys, nr) && i < |s|
    modifies out
    ensures Buffers(s, input, out, w, keys, i + 16)
    ensures out[..i + 16] == old(out[..i]) + f(s[i..i + 16])
  {
    assert input[i..i + 16] == s[i..i + 16];
    EncryptWith(f, input[i..i + 16], out, i, w, keys, nr);
  }

  method EcbEncryptBlock(ghost f: C.Block -> C.Block, ghost s: seq<bv8>,
      input: array<bv8>, out: array<bv8>, w: array<bv8>, ghost keys: seq<bv8>, nr: nat, i: nat)
    requires EcbEncryptState(f, s, input, out, w, keys, nr, i) && i < |s|
    modifies out
    ensures EcbEncryptState(f, s, input, out, w, keys, nr, i + 16)
  {
    EncryptNext(f, s, input, out, w, keys, nr, i);
    EcbNext(f, s, i);
  }

  method EcbEncryptBlocks(ghost f: C.Block -> C.Block, ghost s: seq<bv8>,
      input: array<bv8>, out: array<bv8>, w: array<bv8>, ghost keys: seq<bv8>, nr: nat)
    requires EcbEncryptState(f, s, input, out, w, keys, nr, 0)
    modifies out
    ensures out[..] == Ecb(f, s)
  {
    var i := 0;
    while i < input.Length
      invariant EcbEncryptState(f, s, input, out, w, keys, nr, i)
    {
      EcbEncryptBlock(f, s, input, out, w, keys, nr, i);
      i := i + 16;
    }
    assert s[..i] == s && out[..i] == out[..];
  }

  ghost predicate EcbDecryptState(f: C.Block -> C.Block, s: seq<bv8>, input: array<bv8>, out: array<bv8>, w: array<bv8>, keys: seq<bv8>, nr: nat, i: nat)
    reads input, out, w
  {
    && Buffers(s, input, out, w, keys, i) && Decrypts(f, keys, nr) && out[..i] == Ecb(f, s[..i])
  }

  /** The loop body of ECB decryption, whatever came before. */
  method DecryptNext(ghost f: C.Block -> C.Block, ghost s: seq<bv8>,
      input: array<bv8>, out: array<bv8>, w: array<bv8>, ghost keys: seq<bv8>, nr: nat, i: nat)
    requires Buffers(s, input, out, w, keys, i) && Decrypts(f, keys, nr) && i < |s|
    modifies out
    ensures Buffers(s, input, out, w, keys, i + 16)
    ensures out[..i + 16] == old(out[..i]) + f(s[i..i + 16])
  {
    assert input[i..i + 16] == s[i..i + 16];
    DecryptWith(f, input[i..i + 16], out, i, w, keys, nr);
  }

  method EcbDecryptBlock(ghost f: C.Block -> C.Block, ghost s: seq<bv8>,
      input: array<bv8>, out: array<bv8>, w: array<bv8>, ghost keys: seq<bv8>, nr: nat, i: nat)
    requires EcbDecryptState(f, s, input, out, w, keys, nr, i) && i < |s|
    modifies out
    ensures EcbDecryptState(f, s, input, out, w, keys, nr, i + 16)
  {
    DecryptNext(f, s, input, out, w, keys, nr, i);
    EcbNext(f, s, i);
  }

  method EcbDecryptBlocks(ghost f: C.Block -> C.Block, ghost s: seq<bv8>,
      input: array<bv8>, out: array<bv8>, w: array<bv8>, ghost keys: seq<bv8>, nr: nat)
    requires EcbDecryptState(f, s, input, out, w, keys, nr, 0)
    modifies out
    ensures out[..] == Ecb(f, s)
  {
    var i := 0;
    while i < input.Length
      invariant EcbDecryptState(f, s, input, out, w, keys, nr, i)
    {
      EcbDecryptBlock(f, s, input, out, w, keys, nr, i);
      i := i + 16;
    }
    assert s[..i] == s && out[..i] == out[..];
  }

  ghost predicate CbcEncryptState(f: C.Block -> C.Block, iv: C.Block, s: seq<bv8>, input: array<bv8>, out: array<bv8>, block: array<bv8>, w: array<bv8>, keys: seq<bv8>, nr: nat, i: nat)
    reads input, out, w, block
  {
    && Buffers(s, input, out, w, keys, i) && Encrypts(f, keys, nr) && out[..i] == CbcEncrypt(f, iv, s[..i])
    && Chaining(block, input, out, w) && block[..] == Chained(iv, out[..i])
  }

  /** The loop body of CBC encryption, whatever came before. */
  method ChainBlock(ghost f: C.Block -> C.Block, ghost s: seq<bv8>,
      input: array<bv8>, out: array<bv8>, block: array<bv8>, w: array<bv8>, ghost keys: seq<bv8>, nr: nat, i: nat)
    requires Buffers(s, input, out, w, keys, i) && Encrypts(f, keys, nr) && i < |s| && Chaining(block, input, out, w)
    modifies out, block
    ensures Buffers(s, input, out, w, keys, i + 16)
    ensures block[..] == f(C.AddBlocks(old(block[..]), s[i..i + 16]))
    ensures out[..i + 16] == old(out[..i]) + block[..]
  {
    assert input[i..i + 16] == s[i..i + 16];
    XorInto(block, input, i);
    EncryptWith(f, block[..], out, i, w, keys, nr);
    CopyBlock(out, i, block);
  }

  method CbcEncryptBlock(ghost f: C.Block -> C.Block, ghost iv: C.Block, ghost s: seq<bv8>,
      input: array<bv8>, out: array<bv8>, block: array<bv8>, w: array<bv8>, ghost keys: seq<bv8>, nr: nat, i: nat)
    requires CbcEncryptState(f, iv, s, input, out, block, w, keys, nr, i) && i < |s|
    modifies out, block
    ensures CbcEncryptState(f, iv, s, input, out, block, w, keys, nr, i + 16)
  {
    ghost var done, chain := out[..i], block[..];
    ChainBlock(f, s, input, out, block, w, keys, nr, i);
    CbcEncryptExtends(f, iv, s, i, done, chain);
  }

  method CbcEncryptBlocks(ghost f: C.Block -> C.Block, ghost iv: C.Block, ghost s: seq<bv8>,
      input: array<bv8>, out: array<bv8>, block: array<bv8>, w: array<bv8>, ghost keys: seq<bv8>, nr: nat)
    requires CbcEncryptState(f, iv, s, input, out, block, w, keys, nr, 0)
    modifies out, block
    ensures out[..] == CbcEncrypt(f, iv, s)
  {
    var i := 0;
    while i < input.Length
      invariant CbcEncryptState(f, iv, s, input, out, block, w, keys, nr, i)
    {
      CbcEncryptBlock(f, iv, s, input, out, block, w, keys, nr, i);
      i := i + 16;
    }
    assert s[..i] == s && out[..i] == out[..];
  }

  ghost predicate CbcDecryptState(f: C.Block -> C.Block, iv: C.Block, s: seq<bv8>, input: array<bv8>, out: array<bv8>, block: array<bv8>, w: array<bv8>, keys: seq<bv8>, nr: nat, i: nat)
    reads input, out, w, block
  {
    && Buffers(s, input, out, w, keys, i) && Decrypts(f, keys, nr) && out[..i] == CbcDecrypt(f, iv, s[..i])
    && Chaining(block, input, out, w) && block[..] == Chained(iv, s[..i])
  }

  /** The loop body of CBC decryption, whatever came before. */
  method UnchainBlock(ghost f: C.Block -> C.Block, ghost s: seq<bv8>,
      input: array<bv8>, out: array<bv8>, block: array<bv8>, w: array<bv8>, ghost keys: seq<bv8>, nr: nat, i: nat)
    requires Buffers(s, input, out, w, keys, i) && Decrypts(f, keys, nr) && i < |s| && Chaining(block, input, out, w)
    modifies out, block
    ensures Buffers(s, input, out, w, keys, i + 16)
    ensures block[..] == s[i..i + 16]
    ensures out[..i + 16] == old(out[..i]) + C.AddBlocks(old(block[..]), f(s[i..i + 16]))
  {
    ghost var chain, plain := block[..], f(s[i..i + 16]);
    assert input[i..i + 16] == s[i..i + 16];
    DecryptWith(f, input[i..i + 16], out, i, w, keys, nr);
    assert out[i..i + 16] == plain && block[0..16] == chain;
    XorBlock(block, 0, out, i, out, i);
    CopyBlock(input, i, block);
  }

  method CbcDecryptBlock(ghost f: C.Block -> C.Block, ghost iv: C.Block, ghost s: seq<bv8>,
      input: array<bv8>, out: array<bv8>, block: array<bv8>, w: array<bv8>, ghost keys: seq<bv8>, nr: nat, i: nat)
    requires CbcDecryptState(f, iv, s, input, out, block, w, keys, nr, i) && i < |s|
    modifies out, block
    ensures CbcDecryptState(f, iv, s, input, out, block, w, keys, nr, i + 16)
  {
    ghost var done, chain := out[..i], block[..];
    UnchainBlock(f, s, input, out, block, w, keys, nr, i);
    CbcDecryptExtends(f, iv, s, i, done, chain);
  }

  method CbcDecryptBlocks(ghost f: C.Block -> C.Block, ghost iv: C.Block, ghost s: seq<bv8>,
      input: array<bv8>, out: array<bv8>, block: array<bv8>, w: array<bv8>, ghost keys: seq<bv8>, nr: nat)
    requires CbcDecryptState(f, iv, s, input, out, block, w, keys, nr, 0)
    modifies out, block
    ensures out[..] == CbcDecrypt(f, iv, s)
  {
    var i := 0;
    while i < input.Length
      invariant CbcDecryptState(f, iv, s, input, out, block, w, keys, nr, i)
    {
      CbcDecryptBlock(f, iv, s, input, out, block, w, keys, nr, i);
      i := i + 16;
    }
    assert s[..i] == s && out[..i] == out[..];
  }

  /** Both directions of CFB add the encrypted chaining block to the text. */
  method PadBlock(ghost f: C.Block -> C.Block, ghost s: seq<bv8>,
      input: array<bv8>, out: array<bv8>, block: array<bv8>, pad: array<bv8>, w: array<bv8>, ghost keys: seq<bv8>, nr: nat, i: nat)
    requires Buffers(s, input, out, w, keys, i) && Encrypts(f, keys, nr) && i < |s|
    requires Chaining(block, input, out, w) && Chaining(pad, input, out, w) && block != pad
    modifies out, pad
    ensures out[..] == old(out[..i]) + C.AddBlocks(s[i..i + 16], f(old(block[..]))) + old(out[i + 16..])
  {
    EncryptWith(f, block[..], pad, 0, w, keys, nr);
    assert pad[0..16] == f(old(block[..])) && input[i..i + 16] == s[i..i + 16];
    XorBlock(input, i, pad, 0, out, i);
  }

  ghost predicate CfbEncryptState(f: C.Block -> C.Block, iv: C.Block, s: seq<bv8>, input: array<bv8>, out: array<bv8>, block: array<bv8>, pad: array<bv8>, w: array<bv8>, keys: seq<bv8>, nr: nat, i: nat)
    reads input, out, w, block, pad
  {
    && Buffers(s, input, out, w, keys, i) && Encrypts(f, keys, nr) && out[..i] == CfbEncrypt(f, iv, s[..i])
    && Chaining(block, input, out, w) && block[..] == Chained(iv, out[..i])
    && Chaining(pad, input, out, w) && block != pad
  }

  method CfbEncryptBlock(ghost f: C.Block -> C.Block, ghost iv: C.Block, ghost s: seq<bv8>,
      input: array<bv8>, out: array<bv8>, block: array<bv8>, pad: array<bv8>, w: array<bv8>, ghost keys: seq<bv8>, nr: nat, i: nat)
    requires CfbEncryptState(f, iv, s, input, out, block, pad, w, keys, nr, i) && i < |s|
    modifies out, block, pad
    ensures CfbEncryptState(f, iv, s, input, out, block, pad, w, keys, nr, i + 16)
  {
    PadBlock(f, s, input, out, block, pad, w, keys, nr, i);
    CopyBlock(out, i, block);
    CfbEncryptNext(f, iv, s, i);
  }

  method CfbEncryptBlocks(ghost f: C.Block -> C.Block, ghost iv: C.Block, ghost s: seq<bv8>,
      input: array<bv8>, out: array<bv8>, block: array<bv8>, pad: array<bv8>, w: array<bv8>, ghost keys: seq<bv8>, nr: nat)
    requires CfbEncryptState(f, iv, s, input, out, block, pad, w, keys, nr, 0)
    modifies out, block, pad
    ensures out[..] == CfbEncrypt(f, iv, s)
  {
    var i := 0;
    while i < input.Length
      invariant CfbEncryptState(f, iv, s, input, out, block, pad, w, keys, nr, i)
    {
      CfbEncryptBlock(f, iv, s, input, out, block, pad, w, keys, nr, i);
      i := i + 16;
    }
    assert s[..i] == s && out[..i] == out[..];
  }

  ghost predicate CfbDecryptState(f: C.Block -> C.Block, iv: C.Block, s: seq<bv8>, input: array<bv8>, out: array<bv8>, block: array<bv8>, pad: array<bv8>, w: array<bv8>, keys: seq<bv8>, nr: nat, i: nat)
    reads input, out, w, block, pad
  {
    && Buffers(s, input, out, w, keys, i) && Encrypts(f, keys, nr) && out[..i] == CfbDecrypt(f, iv, s[..i])
    && Chaining(block, input, out, w) && block[..] == Chained(iv, s[..i])
    && Chaining(pad, input, out, w) && block != pad
  }

  method CfbDecryptBlock(ghost f: C.Block -> C.Block, ghost iv: C.Block, ghost s: seq<bv8>,
      input: array<bv8>, out: array<bv8>, block: array<bv8>, pad: array<bv8>, w: array<bv8>, ghost keys: seq<bv8>, nr: nat, i: nat)
    requires CfbDecryptState(f, iv, s, input, out, block, pad, w, keys, nr, i) && i < |s|
    modifies out, block, pad
    ensures CfbDecryptState(f, iv, s, input, out, block, pad, w, keys, nr, i + 16)
  {
    PadBlock(f, s, input, out, block, pad, w, keys, nr, i);
    CopyBlock(input, i, block);
    CfbDecryptNext(f, iv, s, i);
  }

  method CfbDecryptBlocks(ghost f: C.Block -> C.Block, ghost iv: C.Block, ghost s: seq<bv8>,
      input: array<bv8>, out: array<bv8>, block: array<bv8>, pad: array<bv8>, w: array<bv8>, ghost keys: seq<bv8>, nr: nat)
    requires CfbDecryptState(f, iv, s, input, out, block, pad, w, keys, nr, 0)
    modifies out, block, pad
    ensures out[..] == CfbDecrypt(f, iv, s)
  {
    var i := 0;
    while i < input.Length
      invariant CfbDecryptState(f, iv, s, input, out, block, pad, w, keys, nr, i)
    {
      CfbDecryptBlock(f, iv, s, input, out, block, pad, w, keys, nr, i);
      i := i + 16;
    }
    assert s[..i] == s && out[..i] == out[..];
  }

  method NewBlock(value: C.Block) returns (block: array<bv8>)
    ensures fresh(block) && block.Length == 16 && block[..] == value
  {
    block := new bv8[16](i requires 0 <= i < 16 => value[i]);
  }

  // ---------- the class ----------

  class AES {
    const nk: nat
    const nr: nat

    ghost predicate Valid() { exists l :: nk == KeyWords(l) && nr == RoundCount(l) }

    constructor (l: KeyLength)
      ensures nk == KeyWords(l) && nr == RoundCount(l) && Valid()
      ensures 32 * nk == KeyBits(l) && nr == nk + 6
    {
      nk := match l case Aes128 => 4 case Aes192 => 6 case Aes256 => 8;
      nr := match l case Aes128 => 10 case Aes192 => 12 case Aes256 => 14;
    }

    method RoundKeys(key: seq<bv8>) returns (w: array<bv8>)
      requires Valid() && |key| == 4 * nk
      ensures fresh(w) && C.KeySchedule(w[..], nr) && w[..] == C.Expanded(key, nk, nr)
      ensures Encrypts(C.Encryptor(w[..], nr), w[..], nr) && Decrypts(C.Decryptor(w[..], nr), w[..], nr)
    {
      w := new bv8[16 * (nr + 1)];
      K.KeyExpansion(key, w, nk, nr);
      EncryptorEncrypts(w[..], nr);
    }

    method EncryptECB(input: array<bv8>, key: seq<bv8>) returns (r: Option<array<bv8>>)
      requires Valid() && |key| == 4 * nk
      ensures r.Some? <==> Whole(old(input[..]))
      ensures r.Some? ==> r.value[..] == Ecb(C.Encryptor(C.Expanded(key, nk, nr), nr), old(input[..]))
    {
      if input.Length % 16 != 0 {
        return None;
      }
      var out := new bv8[input.Length];
      var w := RoundKeys(key);
      assert input[..][..0] == [] && out[..0] == [];
      EcbEncryptBlocks(C.Encryptor(w[..], nr), input[..], input, out, w, w[..], nr);
      return Some(out);
    }

    method DecryptECB(input: array<bv8>, key: seq<bv8>) returns (r: Option<array<bv8>>)
      requires Valid() && |key| == 4 * nk
      ensures r.Some? <==> Whole(old(input[..]))
      ensures r.Some? ==> r.value[..] == Ecb(C.Decryptor(C.Expanded(key, nk, nr), nr), old(input[..]))
    {
      if input.Length % 16 != 0 {
        return None;
      }
      var out := new bv8[input.Length];
      var w := RoundKeys(key);
      assert input[..][..0] == [] && out[..0] == [];
      EcbDecryptBlocks(C.Decryptor(w[..], nr), input[..], input, out, w, w[..], nr);
      return Some(out);
    }

    method EncryptCBC(input: array<bv8>, key: seq<bv8>, iv: C.Block) returns (r: Option<array<bv8>>)
      requires Valid() && |key| == 4 * nk
      ensures r.Some? <==> Whole(old(input[..]))
      ensures r.Some? ==> r.value[..] == CbcEncrypt(C.Encryptor(C.Expanded(key, nk, nr), nr), iv, old(input[..]))
    {
      if input.Length % 16 != 0 {
        return None;
      }
      var out := new bv8[input.Length];
      var w := RoundKeys(key);
      var block := NewBlock(iv);
      assert input[..][..0] == [] && out[..0] == [];
      CbcEncryptBlocks(C.Encryptor(w[..], nr), iv, input[..], input, out, block, w, w[..], nr);
      return Some(out);
    }

    method DecryptCBC(input: array<bv8>, key: seq<bv8>, iv: C.Block) returns (r: Option<array<bv8>>)
      requires Valid() && |key| == 4 * nk
      ensures r.Some? <==> Whole(old(input[..]))
      ensures r.Some? ==> r.value[..] == CbcDecrypt(C.Decryptor(C.Expanded(key, nk, nr), nr), iv, old(input[..]))
    {
      if input.Length % 16 != 0 {
        return None;
      }
      var out := new bv8[input.Length];
      var w := RoundKeys(key);
      var block := NewBlock(iv);
      assert input[..][..0] == [] && out[..0] == [];
      CbcDecryptBlocks(C.Decryptor(w[..], nr), iv, input[..], input, out, block, w, w[..], nr);
      return Some(out);
    }

    method EncryptCFB(input: array<bv8>, key: seq<bv8>, iv: C.Block) returns (r: Option<array<bv8>>)
      requires Valid() && |key| == 4 * nk
      ensures r.Some? <==> Whole(old(input[..]))
      ensures r.Some? ==> r.value[..] == CfbEncrypt(C.Encryptor(C.Expanded(key, nk, nr), nr), iv, old(input[..]))
    {
      if input.Length % 16 != 0 {
        return None;
      }
      var out := new bv8[input.Length];
      var w := RoundKeys(key);
      var block := NewBlock(iv);
      var pad := new bv8[16];
      assert input[..][..0] == [] && out[..0] == [];
      CfbEncryptBlocks(C.Encryptor(w[..], nr), iv, input[..], input, out, block, pad, w, w[..], nr);
      return Some(out);
    }

    method DecryptCFB(input: array<bv8>, key: seq<bv8>, iv: C.Block) returns (r: Option<array<bv8>>)
      requires Valid() && |key| == 4 * nk
      ensures r.Some? <==> Whole(old(input[..]))
      ensures r.Some? ==> r.value[..] == CfbDecrypt(C.Encryptor(C.Expanded(key, nk, nr), nr), iv, old(input[..]))
    {
      if input.Length % 16 != 0 {
        return None;
      }
      var out := new bv8[input.Length];
      var w := RoundKeys(key);
      var block := NewBlock(iv);
      var pad := new bv8[16];
      assert input[..][..0] == [] && out[..0] == [];
      CfbDecryptBlocks(C.Encryptor(w[..], nr), iv, input[..], input, out, block, pad, w, w[..], nr);
      return Some(out);
    }
  }

  /** For every key length, key, IV and plaintext of whole blocks, each mode decrypts what it
      encrypted. */
  lemma ModesRoundTrip(l: KeyLength, key: seq<bv8>, iv: C.Block, s: seq<bv8>)
    requires |key| == 4 * KeyWords(l) && Whole(s)
    ensures var w := C.Expanded(key, KeyWords(l), RoundCount(l));
            var f, g := C.Encryptor(w, RoundCount(l)), C.Decryptor(w, RoundCount(l));
            && Ecb(g, Ecb(f, s)) == s
            && CbcDecrypt(g, iv, CbcEncrypt(f, iv, s)) == s
            && CfbDecrypt(f, iv, CfbEncrypt(f, iv, s)) == s
  {
    var nr := RoundCount(l);
    var w := C.Expanded(key, KeyWords(l), nr);
    var f, g := C.Encryptor(w, nr), C.Decryptor(w, nr);
    forall b: C.Block
      ensures g(f(b)) == b
    {
      C.DecryptEncrypt(b, w, nr);
    }
    EcbRoundTrip(f, g, s);
    CbcRoundTrip(f, g, iv, s);
    CfbRoundTrip(f, iv, s);
  }
}
