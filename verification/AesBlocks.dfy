/** Blocks and keys: the C++ class on whole blocks, its key expansion and its modes. */
module AesBlocks {
  import opened AesRounds
  import C = AesCipher
  import P = AesProgram

  /** state[i][j] is byte i + 4j. */
  method LoadState(input: C.Block) returns (state: array2<bv8>)
    ensures P.State(state) && fresh(state) && P.Flat(state) == input
  {
    state := new bv8[4, 4];
    for i := 0 to 4
      invariant forall r, c :: 0 <= r < i && 0 <= c < 4 ==> state[r, c] == input[r + 4 * c]
    {
      for j := 0 to 4
        invariant forall r, c :: 0 <= r < i && 0 <= c < 4 ==> state[r, c] == input[r + 4 * c]
        invariant forall c :: 0 <= c < j ==> state[i, c] == input[i + 4 * c]
      {
        state[i, j] := input[i + 4 * j];
      }
    }
  }

  method StoreState(state: array2<bv8>, out: array<bv8>, offset: nat)
    requires P.State(state) && offset + 16 <= out.Length
    modifies out
    ensures out[..] == old(out[..offset]) + P.Flat(state) + old(out[offset + 16..])
  {
    ghost var s := P.Flat(state);
    for i := 0 to 4
      invariant forall p :: 0 <= p < 16 && p % 4 < i ==> out[offset + p] == s[p]
      invariant forall q :: 0 <= q < out.Length && !(offset <= q < offset + 16) ==> out[q] == old(out[q])
    {
      for j := 0 to 4
        invariant forall p :: 0 <= p < 16 && (p % 4 < i || (p % 4 == i && p / 4 < j)) ==> out[offset + p] == s[p]
        invariant forall q :: 0 <= q < out.Length && !(offset <= q < offset + 16) ==> out[q] == old(out[q])
      {
        out[offset + (i + 4 * j)] := state[i, j];
      }
    }
    assert out[offset..offset + 16] == s;
    assert out[..] == out[..offset] + out[offset..offset + 16] + out[offset + 16..];
  }

  ghost predicate Loaded(s: C.Block, key: C.Block, state: array2<bv8>, roundKeys: array<bv8>, offset: nat)
    reads state, roundKeys
  {
    P.State(state) && P.Flat(state) == s && offset + 16 <= roundKeys.Length && roundKeys[offset..offset + 16] == key
  }

  /** The four steps of a full round, and of a full inverse round. */
  method Round(ghost s: C.Block, ghost key: C.Block, state: array2<bv8>, roundKeys: array<bv8>, offset: nat)
    requires Loaded(s, key, state, roundKeys, offset)
    modifies state
    ensures P.Flat(state) == C.AddBlocks(C.MixColumns(C.Scrambled(s)), key)
  {
    P.SubBytes(state);
    P.ShiftRows(state);
    P.MixColumns(state);
    P.AddRoundKey(state, roundKeys, offset);
  }

  method InvRound(ghost s: C.Block, ghost key: C.Block, state: array2<bv8>, roundKeys: array<bv8>, offset: nat)
    requires Loaded(s, key, state, roundKeys, offset)
    modifies state
    ensures P.Flat(state) == C.InvMixColumns(C.AddBlocks(C.Unscrambled(s), key))
  {
    FinalInvRound(s, key, state, roundKeys, offset);
    P.InvMixColumns(state);
  }

  /** The buffer holds the round keys one after another. */
  ghost predicate Holds(roundKeys: array<bv8>, keys: seq<C.Block>)
    reads roundKeys
  {
    && roundKeys.Length == 16 * |keys| && |keys| >= 2
    && (forall i :: 0 <= i < |keys| ==> roundKeys[16 * i..16 * i + 16] == keys[i])
  }

  lemma HoldsRoundKeys(roundKeys: array<bv8>, nr: nat)
    requires C.KeySchedule(roundKeys[..], nr)
    ensures Holds(roundKeys, C.RoundKeys(roundKeys[..], nr))
  {
    var keys := C.RoundKeys(roundKeys[..], nr);
    forall i | 0 <= i < |keys|
      ensures roundKeys[16 * i..16 * i + 16] == keys[i]
    {
      assert roundKeys[16 * i..16 * i + 16] == roundKeys[..][16 * i..16 * i + 16];
    }
  }

  /** The state after n of the full rounds. */
  ghost predicate AfterRounds(input: C.Block, keys: seq<C.Block>, n: nat, state: array2<bv8>)
    reads state
  {
    P.State(state) && n < |keys| && P.Flat(state) == Rounds(C.Aes, input, keys, n)
  }

  method NextRound(ghost input: C.Block, ghost keys: seq<C.Block>, state: array2<bv8>, roundKeys: array<bv8>, n: nat)
    requires Holds(roundKeys, keys) && AfterRounds(input, keys, n, state) && n + 1 < |keys|
    modifies state
    ensures AfterRounds(input, keys, n + 1, state)
  {
    var round := n + 1;
    assert roundKeys[16 * round..16 * round + 16] == keys[round];
    C.FullRound(input, keys, n);
    Round(Rounds(C.Aes, input, keys, n), keys[round], state, roundKeys, 16 * round);
  }

  method FirstKey(ghost input: C.Block, ghost keys: seq<C.Block>, state: array2<bv8>, roundKeys: array<bv8>)
    requires P.State(state) && P.Flat(state) == input && Holds(roundKeys, keys)
    modifies state
    ensures AfterRounds(input, keys, 0, state)
  {
    assert roundKeys[16 * 0..16 * 0 + 16] == keys[0];
    C.FirstRound(input, keys);
    P.AddRoundKey(state, roundKeys, 0);
  }

  method LastRound(ghost input: C.Block, ghost keys: seq<C.Block>, state: array2<bv8>, roundKeys: array<bv8>, n: nat)
    requires Holds(roundKeys, keys) && AfterRounds(input, keys, n, state) && n + 2 == |keys|
    modifies state
    ensures P.Flat(state) == Encrypted(C.Aes, input, keys)
  {
    var round := n + 1;
    assert roundKeys[16 * round..16 * round + 16] == keys[round];
    C.LastRound(input, keys, n);
    FinalRound(Rounds(C.Aes, input, keys, n), keys[round], state, roundKeys, 16 * round);
  }

  method FinalRound(ghost s: C.Block, ghost key: C.Block, state: array2<bv8>, roundKeys: array<bv8>, offset: nat)
    requires Loaded(s, key, state, roundKeys, offset)
    modifies state
    ensures P.Flat(state) == C.AddBlocks(C.Scrambled(s), key)
  {
    P.SubBytes(state);
    P.ShiftRows(state);
    P.AddRoundKey(state, roundKeys, offset);
  }

  method EncryptState(ghost input: C.Block, ghost keys: seq<C.Block>, state: array2<bv8>, roundKeys: array<bv8>, full: nat)
    requires P.State(state) && P.Flat(state) == input && Holds(roundKeys, keys) && full + 2 == |keys|
    modifies state
    ensures P.Flat(state) == Encrypted(C.Aes, input, keys)
  {
    FirstKey(input, keys, state, roundKeys);
    for n := 0 to full
      invariant AfterRounds(input, keys, n, state)
    {
      NextRound(input, keys, state, roundKeys, n);
    }
    LastRound(input, keys, state, roundKeys, full);
  }

  method EncryptBlock(input: C.Block, out: array<bv8>, offset: nat, roundKeys: array<bv8>, nr: nat)
    requires offset + 16 <= out.Length && out != roundKeys && C.KeySchedule(roundKeys[..], nr)
    modifies out
    ensures out[..] == old(out[..offset]) + C.Encrypt(input, old(roundKeys[..]), nr) + old(out[offset + 16..])
  {
    HoldsRoundKeys(roundKeys, nr);
    var state := LoadState(input);
    EncryptState(input, C.RoundKeys(roundKeys[..], nr), state, roundKeys, nr - 1);
    StoreState(state, out, offset);
  }

  /** The state after n of the inverse rounds, the next round key being number `round`. */
  ghost predicate AfterInvRounds(input: C.Block, keys: seq<C.Block>, n: nat, round: nat, state: array2<bv8>)
    reads state
  {
    P.State(state) && n + round + 2 == |keys| && P.Flat(state) == InvRounds(C.Aes, input, keys, n)
  }

  method NextInvRound(ghost input: C.Block, ghost keys: seq<C.Block>, ghost n: nat, state: array2<bv8>, roundKeys: array<bv8>, round: nat)
    requires Holds(roundKeys, keys) && AfterInvRounds(input, keys, n, round + 1, state)
    modifies state
    ensures AfterInvRounds(input, keys, n + 1, round, state)
  {
    var k := round + 1;
    assert roundKeys[16 * k..16 * k + 16] == keys[k];
    C.InvFullRound(input, keys, n, k);
    InvRound(InvRounds(C.Aes, input, keys, n), keys[k], state, roundKeys, 16 * k);
  }

  method LastKey(ghost input: C.Block, ghost keys: seq<C.Block>, state: array2<bv8>, roundKeys: array<bv8>, full: nat)
    requires P.State(state) && P.Flat(state) == input && Holds(roundKeys, keys) && full + 2 == |keys|
    modifies state
    ensures AfterInvRounds(input, keys, 0, full, state)
  {
    var nr := full + 1;
    assert roundKeys[16 * nr..16 * nr + 16] == keys[nr];
    C.InvFirstRound(input, keys, nr);
    P.AddRoundKey(state, roundKeys, 16 * nr);
  }

  method LastInvRound(ghost input: C.Block, ghost keys: seq<C.Block>, ghost n: nat, state: array2<bv8>, roundKeys: array<bv8>)
    requires Holds(roundKeys, keys) && AfterInvRounds(input, keys, n, 0, state)
    modifies state
    ensures P.Flat(state) == Decrypted(C.Aes, input, keys)
  {
    assert roundKeys[16 * 0..16 * 0 + 16] == keys[0];
    C.InvLastRound(input, keys, n);
    FinalInvRound(InvRounds(C.Aes, input, keys, n), keys[0], state, roundKeys, 0);
  }

  method FinalInvRound(ghost s: C.Block, ghost key: C.Block, state: array2<bv8>, roundKeys: array<bv8>, offset: nat)
    requires Loaded(s, key, state, roundKeys, offset)
    modifies state
    ensures P.Flat(state) == C.AddBlocks(C.Unscrambled(s), key)
  {
    P.InvSubBytes(state);
    P.InvShiftRows(state);
    P.AddRoundKey(state, roundKeys, offset);
  }

  method DecryptState(ghost input: C.Block, ghost keys: seq<C.Block>, state: array2<bv8>, roundKeys: array<bv8>, full: nat)
    requires P.State(state) && P.Flat(state) == input && Holds(roundKeys, keys) && full + 2 == |keys|
    modifies state
    ensures P.Flat(state) == Decrypted(C.Aes, input, keys)
  {
    LastKey(input, keys, state, roundKeys, full);
    ghost var n := 0;
    for round := full downto 0
      invariant AfterInvRounds(input, keys, n, round, state)
    {
      NextInvRound(input, keys, n, state, roundKeys, round);
      n := n + 1;
    }
    LastInvRound(input, keys, n, state, roundKeys);
  }

  method DecryptBlock(input: C.Block, out: array<bv8>, offset: nat, roundKeys: array<bv8>, nr: nat)
    requires offset + 16 <= out.Length && out != roundKeys && C.KeySchedule(roundKeys[..], nr)
    modifies out
    ensures out[..] == old(out[..offset]) + C.Decrypt(input, old(roundKeys[..]), nr) + old(out[offset + 16..])
  {
    HoldsRoundKeys(roundKeys, nr);
    var state := LoadState(input);
    DecryptState(input, C.RoundKeys(roundKeys[..], nr), state, roundKeys, nr - 1);
    StoreState(state, out, offset);
  }
}
