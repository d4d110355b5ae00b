/** The round structure shared by the C++ cipher and the two circuits, for any state type,
    any round steps and any number of rounds.
 */
module AesRounds {

  /** `scramble` is substitution and row shift, `mix` the column step. */
  datatype Steps<!S> = Steps(add: (S, S) -> S, scramble: S -> S, mix: S -> S, unscramble: S -> S, unmix: S -> S)

  /** The state after the initial key and n full rounds. */
  function Rounds<S>(f: Steps<S>, s: S, keys: seq<S>, n: nat): S
    requires n < |keys|
  {
    if n == 0 then f.add(s, keys[0]) else f.add(f.mix(f.scramble(Rounds(f, s, keys, n - 1))), keys[n])
  }

  /** The last round has no column step. */
  function Encrypted<S>(f: Steps<S>, s: S, keys: seq<S>): S
    requires |keys| >= 2
  {
    var nr := |keys| - 1;
    f.add(f.scramble(Rounds(f, s, keys, nr - 1)), keys[nr])
  }

  /** The state after the last key and n inverse rounds. */
  function InvRounds<S>(f: Steps<S>, s: S, keys: seq<S>, n: nat): S
    requires n + 2 <= |keys|
  {
    var nr := |keys| - 1;
    if n == 0 then f.add(s, keys[nr]) else f.unmix(f.add(f.unscramble(InvRounds(f, s, keys, n - 1)), keys[nr - n]))
  }

  function Decrypted<S>(f: Steps<S>, s: S, keys: seq<S>): S
    requires |keys| >= 2
  {
    f.add(f.unscramble(InvRounds(f, s, keys, |keys| - 2)), keys[0])
  }

  lemma RoundsNext<S>(f: Steps<S>, s: S, keys: seq<S>, n: nat)
    requires n + 1 < |keys|
    ensures Rounds(f, s, keys, n + 1) == f.add(f.mix(f.scramble(Rounds(f, s, keys, n))), keys[n + 1])
  {
  }

  lemma InvRoundsNext<S>(f: Steps<S>, s: S, keys: seq<S>, n: nat, k: nat)
    requires n + k + 2 == |keys| && k >= 1
    ensures InvRounds(f, s, keys, n + 1) == f.unmix(f.add(f.unscramble(InvRounds(f, s, keys, n)), keys[k]))
  {
  }

  // ---------- decryption undoes encryption ----------

  ghost predicate AddUndone<S>(f: Steps<S>, s: S, k: S) { f.add(f.add(s, k), k) == s }

  ghost predicate ScrambleUndone<S>(f: Steps<S>, s: S) { f.unscramble(f.scramble(s)) == s }

  ghost predicate MixUndone<S>(f: Steps<S>, s: S) { f.unmix(f.mix(s)) == s }

  ghost predicate Invertible<S(!new)>(f: Steps<S>) {
    && (forall s, k :: AddUndone(f, s, k))
    && (forall s :: ScrambleUndone(f, s))
    && (forall s :: MixUndone(f, s))
  }

  lemma InnerRoundUndone<S(!new)>(f: Steps<S>, c: S, before: S, key: S)
    requires Invertible(f) && c == f.scramble(f.add(f.mix(before), key))
    ensures f.unmix(f.add(f.unscramble(c), key)) == before
  {
    assert ScrambleUndone(f, f.add(f.mix(before), key));
    assert AddUndone(f, f.mix(before), key);
    assert MixUndone(f, before);
  }

  lemma LastRoundUndone<S(!new)>(f: Steps<S>, s: S, keys: seq<S>, k: nat)
    requires Invertible(f) && k + 2 == |keys|
    ensures InvRounds(f, Encrypted(f, s, keys), keys, 0) == f.scramble(Rounds(f, s, keys, k))
  {
    assert AddUndone(f, f.scramble(Rounds(f, s, keys, k)), keys[k + 1]);
  }

  lemma RoundUndone<S(!new)>(f: Steps<S>, s: S, c: S, keys: seq<S>, n: nat, k: nat)
    requires Invertible(f) && n + k + 3 == |keys|
    requires InvRounds(f, c, keys, n) == f.scramble(Rounds(f, s, keys, k + 1))
    ensures InvRounds(f, c, keys, n + 1) == f.scramble(Rounds(f, s, keys, k))
  {
    RoundsNext(f, s, keys, k);
    InvRoundsNext(f, c, keys, n, k + 1);
    InnerRoundUndone(f, InvRounds(f, c, keys, n), f.scramble(Rounds(f, s, keys, k)), keys[k + 1]);
  }

  lemma {:induction false} RoundsUndone<S(!new)>(f: Steps<S>, s: S, keys: seq<S>, n: nat, k: nat)
    requires Invertible(f) && n + k + 2 == |keys|
    ensures InvRounds(f, Encrypted(f, s, keys), keys, n) == f.scramble(Rounds(f, s, keys, k))
    decreases n
  {
    if n == 0 {
      LastRoundUndone(f, s, keys, k);
    } else {
      var m, l := n - 1, k + 1;
      RoundsUndone(f, s, keys, m, l);
      RoundUndone(f, s, Encrypted(f, s, keys), keys, m, k);
    }
  }

  /** Every state, every number of rounds, any round keys. */
  lemma DecryptedEncrypted<S(!new)>(f: Steps<S>, s: S, keys: seq<S>)
    requires Invertible(f) && |keys| >= 2
    ensures Decrypted(f, Encrypted(f, s, keys), keys) == s
  {
    RoundsUndone(f, s, keys, |keys| - 2, 0);
    assert ScrambleUndone(f, Rounds(f, s, keys, 0));
    assert AddUndone(f, s, keys[0]);
  }

  // ---------- two implementations of the same steps ----------

  ghost predicate AddAgrees<S, T>(f: Steps<S>, g: Steps<T>, rep: S -> T, s: S, k: S) {
    rep(f.add(s, k)) == g.add(rep(s), rep(k))
  }

  ghost predicate StepsAgree<S, T>(f: Steps<S>, g: Steps<T>, rep: S -> T, s: S) {
    && rep(f.scramble(s)) == g.scramble(rep(s)) && rep(f.mix(s)) == g.mix(rep(s))
    && rep(f.unscramble(s)) == g.unscramble(rep(s)) && rep(f.unmix(s)) == g.unmix(rep(s))
  }

  ghost predicate Agree<S(!new), T>(f: Steps<S>, g: Steps<T>, rep: S -> T) {
    && (forall s, k :: AddAgrees(f, g, rep, s, k))
    && (forall s :: StepsAgree(f, g, rep, s))
  }

  ghost predicate SameKeys<S, T>(keys: seq<S>, keys': seq<T>, rep: S -> T) {
    |keys| == |keys'| && forall i :: 0 <= i < |keys| ==> keys'[i] == rep(keys[i])
  }

  lemma {:induction false} RoundsAgree<S(!new), T>(f: Steps<S>, g: Steps<T>, rep: S -> T, s: S, keys: seq<S>, keys': seq<T>, n: nat)
    requires Agree(f, g, rep) && SameKeys(keys, keys', rep) && n < |keys|
    ensures Rounds(g, rep(s), keys', n) == rep(Rounds(f, s, keys, n))
    decreases n
  {
    if n == 0 {
      assert AddAgrees(f, g, rep, s, keys[0]);
    } else {
      RoundsAgree(f, g, rep, s, keys, keys', n - 1);
      var x := Rounds(f, s, keys, n - 1);
      assert StepsAgree(f, g, rep, x) && StepsAgree(f, g, rep, f.scramble(x));
      assert AddAgrees(f, g, rep, f.mix(f.scramble(x)), keys[n]);
    }
  }

  lemma EncryptedAgree<S(!new), T>(f: Steps<S>, g: Steps<T>, rep: S -> T, s: S, keys: seq<S>, keys': seq<T>)
    requires Agree(f, g, rep) && SameKeys(keys, keys', rep) && |keys| >= 2
    ensures Encrypted(g, rep(s), keys') == rep(Encrypted(f, s, keys))
  {
    var nr := |keys| - 1;
    RoundsAgree(f, g, rep, s, keys, keys', nr - 1);
    var x := Rounds(f, s, keys, nr - 1);
    assert StepsAgree(f, g, rep, x);
    assert AddAgrees(f, g, rep, f.scramble(x), keys[nr]);
  }

  lemma InvRoundAgrees<S(!new), T>(f: Steps<S>, g: Steps<T>, rep: S -> T, x: S, key: S)
    requires Agree(f, g, rep)
    ensures g.unmix(g.add(g.unscramble(rep(x)), rep(key))) == rep(f.unmix(f.add(f.unscramble(x), key)))
  {
    assert StepsAgree(f, g, rep, x);
    assert AddAgrees(f, g, rep, f.unscramble(x), key);
    assert StepsAgree(f, g, rep, f.add(f.unscramble(x), key));
  }

  lemma {:induction false} InvRoundsAgree<S(!new), T>(f: Steps<S>, g: Steps<T>, rep: S -> T, s: S, keys: seq<S>, keys': seq<T>, n: nat)
    requires Agree(f, g, rep) && SameKeys(keys, keys', rep) && n + 2 <= |keys|
    ensures InvRounds(g, rep(s), keys', n) == rep(InvRounds(f, s, keys, n))
    decreases n
  {
    var nr := |keys| - 1;
    if n == 0 {
      assert AddAgrees(f, g, rep, s, keys[nr]);
    } else {
      var m, k := n - 1, nr - n;
      InvRoundsAgree(f, g, rep, s, keys, keys', m);
      assert keys'[k] == rep(keys[k]);
      InvRoundAgrees(f, g, rep, InvRounds(f, s, keys, m), keys[k]);
    }
  }

  lemma DecryptedAgree<S(!new), T>(f: Steps<S>, g: Steps<T>, rep: S -> T, s: S, keys: seq<S>, keys': seq<T>)
    requires Agree(f, g, rep) && SameKeys(keys, keys', rep) && |keys| >= 2
    ensures Decrypted(g, rep(s), keys') == rep(Decrypted(f, s, keys))
  {
    InvRoundsAgree(f, g, rep, s, keys, keys', |keys| - 2);
    var x := InvRounds(f, s, keys, |keys| - 2);
    assert StepsAgree(f, g, rep, x);
    assert AddAgrees(f, g, rep, f.unscramble(x), keys[0]);
  }
}
