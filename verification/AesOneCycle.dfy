/** The one-cycle AES-128 encryptor and decryptor: ten rounds of wiring, and their
    equivalence with the C++ cipher for every key and every block.
 */
module AesOneCycle {
  import opened AesNets
  import opened AesRounds
  import opened AesCircuit
  import opened AesColumns
  import opened AesKeyCircuit
  import C = AesCipher

  const NR := 10

  /** expandedKeyi[i]: four consecutive words of the schedule. */
  function RoundKeyWires(key: Bus, i: nat): Bus
    requires i <= NR
  {
    KeyWires(key, 4 * i) + KeyWires(key, 4 * i + 1) + KeyWires(key, 4 * i + 2) + KeyWires(key, 4 * i + 3)
  }

  // ---------- aes_1cc.v ----------

  function X1(key: Bus, msg: Bus, i: nat): Bus
    requires i < NR
  {
    if i == 0 then AddRoundKey(msg, RoundKeyWires(key, 0))
    else
      var x2 := SubBytes(X1(key, msg, i - 1));
      var x3 := ShiftRows(x2);
      var x4 := MixColumns(x3);
      AddRoundKey(x4, RoundKeyWires(key, i))
  }

  function Aes1cc(key: Bus, msg: Bus): Bus {
    var x2 := SubBytes(X1(key, msg, NR - 1));
    var x3 := ShiftRows(x2);
    AddRoundKey(x3, RoundKeyWires(key, NR))
  }

  // ---------- inverse_aes_1cc.v ----------

  function Y1(key: Bus, msg: Bus, i: nat): Bus
    requires i < NR
  {
    if i == 0 then AddRoundKey(msg, RoundKeyWires(key, NR))
    else
      var x2 := InvShiftRows(Y1(key, msg, i - 1));
      var x3 := InvSubBytes(x2);
      var x4 := AddRoundKey(x3, RoundKeyWires(key, NR - i));
      InvMixColumns(x4)
  }

  function InvAes1cc(key: Bus, msg: Bus): Bus {
    var x2 := InvShiftRows(Y1(key, msg, NR - 1));
    var x3 := InvSubBytes(x2);
    AddRoundKey(x3, RoundKeyWires(key, 0))
  }

  // ---------- the wiring is the common round structure ----------

  function Scramble(x: Bus): Bus { ShiftRows(SubBytes(x)) }

  function Unscramble(x: Bus): Bus { InvSubBytes(InvShiftRows(x)) }

  const Gates: Steps<Bus> := Steps(AddRoundKey, Scramble, MixColumns, Unscramble, InvMixColumns)

  function KeyBuses(key: Bus): (keys: seq<Bus>)
    ensures |keys| == NR + 1
  {
    seq(NR + 1, i requires 0 <= i < NR + 1 => RoundKeyWires(key, i))
  }

  lemma X1Unfolds(key: Bus, msg: Bus, i: nat)
    requires i + 1 < NR
    ensures X1(key, msg, i + 1) == AddRoundKey(MixColumns(Scramble(X1(key, msg, i))), RoundKeyWires(key, i + 1))
  {
  }

  lemma GatesRound(x: Bus, k: Bus)
    ensures Gates.add(Gates.mix(Gates.scramble(x)), k) == AddRoundKey(MixColumns(Scramble(x)), k)
  {
  }

  lemma X1Next(key: Bus, msg: Bus, i: nat)
    requires i + 1 < NR && X1(key, msg, i) == Rounds(Gates, msg, KeyBuses(key), i)
    ensures X1(key, msg, i + 1) == Rounds(Gates, msg, KeyBuses(key), i + 1)
  {
    X1Unfolds(key, msg, i);
    RoundsNext(Gates, msg, KeyBuses(key), i);
    GatesRound(X1(key, msg, i), RoundKeyWires(key, i + 1));
  }

  lemma {:induction false} X1IsRounds(key: Bus, msg: Bus, i: nat)
    requires i < NR
    ensures X1(key, msg, i) == Rounds(Gates, msg, KeyBuses(key), i)
    decreases i
  {
    if i > 0 {
      var j := i - 1;
      X1IsRounds(key, msg, j);
      X1Next(key, msg, j);
    }
  }

  lemma Aes1ccIsEncrypted(key: Bus, msg: Bus)
    ensures Aes1cc(key, msg) == Encrypted(Gates, msg, KeyBuses(key))
  {
    X1IsRounds(key, msg, NR - 1);
  }

  lemma Y1Next(key: Bus, msg: Bus, i: nat)
    requires i + 1 < NR && Y1(key, msg, i) == InvRounds(Gates, msg, KeyBuses(key), i)
    ensures Y1(key, msg, i + 1) == InvRounds(Gates, msg, KeyBuses(key), i + 1)
  {
    InvRoundsNext(Gates, msg, KeyBuses(key), i, NR - (i + 1));
  }

  lemma {:induction false} Y1IsInvRounds(key: Bus, msg: Bus, i: nat)
    requires i < NR
    ensures Y1(key, msg, i) == InvRounds(Gates, msg, KeyBuses(key), i)
    decreases i
  {
    if i > 0 {
      var j := i - 1;
      Y1IsInvRounds(key, msg, j);
      Y1Next(key, msg, j);
    }
  }

  lemma InvAes1ccIsDecrypted(key: Bus, msg: Bus)
    ensures InvAes1cc(key, msg) == Decrypted(Gates, msg, KeyBuses(key))
  {
    Y1IsInvRounds(key, msg, NR - 1);
  }

  // ---------- circuit and program agree ----------

  lemma ScrambleAgrees(s: C.Block)
    ensures Scramble(Wires(s)) == Wires(C.Scrambled(s))
  {
    SubBytesAgrees(s);
    ShiftRowsAgrees(C.SubBytes(s));
  }

  /** The decryptor shifts before it substitutes; the program substitutes first. */
  lemma UnscrambleAgrees(s: C.Block)
    ensures Unscramble(Wires(s)) == Wires(C.Unscrambled(s))
  {
    InvShiftRowsAgrees(s);
    InvSubBytesAgrees(C.InvShiftRows(s));
    C.SubShiftCommute(s);
  }

  lemma GatesAgree()
    ensures Agree(C.Aes, Gates, Wires)
  {
    forall s: C.Block, k: C.Block
      ensures AddAgrees(C.Aes, Gates, Wires, s, k)
    {
      AddRoundKeyAgrees(s, k);
    }
    forall s: C.Block
      ensures StepsAgree(C.Aes, Gates, Wires, s)
    {
      ScrambleAgrees(s);
      UnscrambleAgrees(s);
      MixColumnsAgrees(s);
      InvMixColumnsAgrees(s);
    }
  }

  lemma RoundKeyAgrees(key: C.Block, i: nat)
    requires i <= NR
    ensures RoundKeyWires(Wires(key), i) == Wires(C.RoundKeys(C.Expanded(key, 4, NR), NR)[i])
  {
    KeyWiresAgree(key, 4 * i);
    KeyWiresAgree(key, 4 * i + 1);
    KeyWiresAgree(key, 4 * i + 2);
    KeyWiresAgree(key, 4 * i + 3);
    FourWords(C.Schedule(key, 4), i);
    var a: seq<bv8>, b: seq<bv8> := C.KeyWord(key, 4, 4 * i), C.KeyWord(key, 4, 4 * i + 1);
    var c: seq<bv8>, d: seq<bv8> := C.KeyWord(key, 4, 4 * i + 2), C.KeyWord(key, 4, 4 * i + 3);
    PackJoin(a, b);
    PackJoin(a + b, c);
    PackJoin(a + b + c, d);
  }

  lemma FourWords(word: nat -> C.Word, i: nat)
    requires i <= NR
    ensures C.Laid(word, 4 * (NR + 1))[16 * i..16 * i + 16] == word(4 * i) + word(4 * i + 1) + word(4 * i + 2) + word(4 * i + 3)
  {
  }

  lemma KeysAgree(key: C.Block)
    ensures SameKeys(C.RoundKeys(C.Expanded(key, 4, NR), NR), KeyBuses(Wires(key)), Wires)
  {
    forall i | 0 <= i <= NR
      ensures KeyBuses(Wires(key))[i] == Wires(C.RoundKeys(C.Expanded(key, 4, NR), NR)[i])
    {
      RoundKeyAgrees(key, i);
    }
  }

  /** For every key and block, the circuit's ciphertext is that of the C++ AES-128 key
      expansion and block encryption; likewise for decryption. */
  lemma CircuitsAgree(key: C.Block, msg: C.Block)
    ensures Aes1cc(Wires(key), Wires(msg)) == Wires(C.Encrypt(msg, C.Expanded(key, 4, NR), NR))
    ensures InvAes1cc(Wires(key), Wires(msg)) == Wires(C.Decrypt(msg, C.Expanded(key, 4, NR), NR))
  {
    var keys := C.RoundKeys(C.Expanded(key, 4, NR), NR);
    GatesAgree();
    KeysAgree(key);
    Aes1ccIsEncrypted(Wires(key), Wires(msg));
    InvAes1ccIsDecrypted(Wires(key), Wires(msg));
    EncryptedAgree(C.Aes, Gates, Wires, msg, keys, KeyBuses(Wires(key)));
    DecryptedAgree(C.Aes, Gates, Wires, msg, keys, KeyBuses(Wires(key)));
  }

  lemma BlockRecovered(key: C.Block, msg: C.Block)
    ensures InvAes1cc(Wires(key), Aes1cc(Wires(key), Wires(msg))) == Wires(msg)
  {
    var w := C.Expanded(key, 4, NR);
    CircuitsAgree(key, msg);
    CircuitsAgree(key, C.Encrypt(msg, w, NR));
    C.DecryptEncrypt(msg, w, NR);
  }

  lemma BusIsBlock(x: Bus)
    ensures |Lanes(x)| == 16 && Wires(Lanes(x)) == x
  {
    PackLanes(x);
  }

  /** The decryptor recovers every 128-bit message under every 128-bit key. */
  lemma DecryptorRecovers(key: Bus, msg: Bus)
    ensures InvAes1cc(key, Aes1cc(key, msg)) == msg
  {
    BusIsBlock(key);
    BusIsBlock(msg);
    BlockRecovered(Lanes(key), Lanes(msg));
  }
}
