/** Arithmetic modulo q = 8μ, the size of the ciphertext word. */
module ModQ {
  lemma MulAtLeast(a: int, q: int)
    requires a >= 1 && q > 0
    ensures a * q >= q
  {
  }

  lemma DivUnique(x: int, q: int, k: int, r: int)
    requires q > 0 && x == k * q + r && 0 <= r < q
    ensures x % q == r && x / q == k
  {
    var d, m := x / q, x % q;
    assert x == d * q + m;
    Distribute(q, d, -k);
    if d > k {
      MulAtLeast(d - k, q);
    } else if d < k {
      Distribute(q, k, -d);
      MulAtLeast(k - d, q);
    }
  }

  lemma Distribute(c: int, x: int, y: int)
    ensures c * (x + y) == c * x + c * y && (x + y) * c == x * c + y * c
  {
  }

  lemma Distribute3(c: int, m: int, e: int, k: int, q: int)
    ensures c * (m + e + k * q) == c * m + c * e + (c * k) * q
  {
    Distribute(c, m + e, k * q);
    Distribute(c, m, e);
    assert c * (k * q) == (c * k) * q;
  }

  /** x is within `bound` of m on the circle of circumference q. */
  predicate Near(x: int, m: int, bound: int, q: int)
    requires q > 0
  {
    (x - m + bound) % q <= 2 * bound
  }

  lemma NearWitness(x: int, m: int, bound: int, q: int) returns (k: int, e: int)
    requires q > 0 && Near(x, m, bound, q)
    ensures x == m + e + k * q && -bound <= e <= bound
  {
    k := (x - m + bound) / q;
    e := (x - m + bound) % q - bound;
  }

  lemma NearFromWitness(x: int, m: int, bound: int, q: int, k: int, e: int)
    requires q > 2 * bound && x == m + e + k * q && -bound <= e <= bound
    ensures q > 0 && Near(x, m, bound, q)
  {
    DivUnique(x - m + bound, q, k, e + bound);
  }
}

/** Level-independent TLWE gates: a linear combination of ciphertexts followed by a
    sign bootstrap. A ciphertext of dimension n is n mask words and a body word. */
module Gates {
  import opened ModQ

  type Ciphertext = seq<int>

  type Key = seq<bool>

  function Dot(c: Ciphertext, key: Key, n: nat): int
    requires n <= |key| && n <= |c|
  {
    if n == 0 then 0 else Dot(c, key, n - 1) + (if key[n - 1] then c[n - 1] else 0)
  }

  /** Body minus the masks selected by the key, before reduction modulo q. */
  function Phase(c: Ciphertext, key: Key): int
    requires |c| == |key| + 1
  {
    c[|key|] - Dot(c, key, |key|)
  }

  function Message(bit: bool, mu: int): int { if bit then mu else -mu }

  /** `c` encrypts `bit` with noise at most `bound`. */
  predicate Encodes(c: Ciphertext, key: Key, bit: bool, bound: int, mu: int) {
    mu > 0 && |c| == |key| + 1 && Near(Phase(c, key), Message(bit, mu), bound, 8 * mu)
  }

  /** The phase lies in the upper half of the circle, at least `margin` inside it. */
  predicate Upper(c: Ciphertext, key: Key, margin: int, mu: int) {
    mu > 0 && |c| == |key| + 1 && margin <= Phase(c, key) % (8 * mu) < 4 * mu - margin
  }

  /** The phase lies in the lower half of the circle, at least `margin` inside it. */
  predicate Lower(c: Ciphertext, key: Key, margin: int, mu: int) {
    mu > 0 && |c| == |key| + 1 && 4 * mu + margin <= Phase(c, key) % (8 * mu) < 8 * mu - margin
  }

  // ---------- linear combinations ----------

  function Word(x: int, mu: int): int
    requires mu > 0
  {
    x % (8 * mu)
  }

  /** ca * a + cb * b coefficient by coefficient, plus an offset on the body. */
  function Combine(ca: int, a: Ciphertext, cb: int, b: Ciphertext, offset: int, mu: int): (c: Ciphertext)
    requires mu > 0 && |a| == |b| > 0
    ensures |c| == |a|
  {
    seq(|a|, i requires 0 <= i < |a| =>
      Word(ca * a[i] + cb * b[i] + (if i == |a| - 1 then offset else 0), mu))
  }

  lemma WordWitness(x: int, mu: int) returns (k: int)
    requires mu > 0
    ensures Word(x, mu) == x - k * (8 * mu)
  {
    k := x / (8 * mu);
  }

  lemma JoinTerms(ca: int, da: int, a: int, cb: int, db: int, b: int, k: int, w: int, q: int)
    ensures (ca * da + cb * db - k * q) + (ca * a + cb * b - w * q) == ca * (da + a) + cb * (db + b) - (k + w) * q
  {
    Distribute(ca, da, a);
    Distribute(cb, db, b);
    Distribute(q, k, w);
  }

  lemma DotNext(c: Ciphertext, key: Key, n: nat)
    requires n < |key| && n < |c|
    ensures Dot(c, key, n + 1) == Dot(c, key, n) + (if key[n] then c[n] else 0)
  {
  }

  lemma {:induction false} DotCombine(ca: int, a: Ciphertext, cb: int, b: Ciphertext, offset: int, mu: int, key: Key, n: nat)
      returns (k: int)
    requires mu > 0 && |a| == |b| == |key| + 1 && n <= |key|
    ensures Dot(Combine(ca, a, cb, b, offset, mu), key, n) == ca * Dot(a, key, n) + cb * Dot(b, key, n) - k * (8 * mu)
  {
    if n == 0 {
      k := 0;
    } else {
      var m, c := n - 1, Combine(ca, a, cb, b, offset, mu);
      var k0 := DotCombine(ca, a, cb, b, offset, mu, key, m);
      DotNext(a, key, m);
      DotNext(b, key, m);
      DotNext(c, key, m);
      k := k0;
      if key[m] {
        var w := WordWitness(ca * a[m] + cb * b[m], mu);
        k := k0 + w;
        JoinTerms(ca, Dot(a, key, m), a[m], cb, Dot(b, key, m), b[m], k0, w, 8 * mu);
      }
    }
  }

  lemma SplitPhase(ca: int, a: int, da: int, cb: int, b: int, db: int, k: int, w: int, q: int)
    ensures ca * a + cb * b - w * q - (ca * da + cb * db - k * q) == ca * (a - da) + cb * (b - db) + (k - w) * q
  {
    assert ca * (a - da) == ca * a - ca * da;
    assert cb * (b - db) == cb * b - cb * db;
    assert (k - w) * q == k * q - w * q;
  }

  /** The phase is linear, up to multiples of q, for every dimension and key. */
  lemma PhaseCombine(ca: int, a: Ciphertext, cb: int, b: Ciphertext, offset: int, mu: int, key: Key)
      returns (k: int)
    requires mu > 0 && |a| == |b| == |key| + 1
    ensures Phase(Combine(ca, a, cb, b, offset, mu), key)
         == ca * Phase(a, key) + cb * Phase(b, key) + offset + k * (8 * mu)
  {
    var n := |key|;
    var q := 8 * mu;
    var k0 := DotCombine(ca, a, cb, b, offset, mu, key, n);
    var w := WordWitness(ca * a[n] + cb * b[n] + offset, mu);
    k := k0 - w;
    SplitPhase(ca, a[n], Dot(a, key, n), cb, b[n], Dot(b, key, n), k0, w, q);
  }

  function Weight(c: int): int { if c == 1 || c == -1 then 1 else 2 }

  lemma ScaledNoise(c: int, e: int, bound: int)
    requires c in {1, -1, 2, -2} && -bound <= e <= bound
    ensures -(Weight(c) * bound) <= c * e <= Weight(c) * bound
  {
  }

  /** Combining encryptions of two bits lands near the combination of their messages. */
  lemma CombineNear(ca: int, a: Ciphertext, cb: int, b: Ciphertext, offset: int, mu: int, key: Key,
                    x: bool, y: bool, bound: int) returns (k: int, e: int)
    requires mu > 0 && Encodes(a, key, x, bound, mu) && Encodes(b, key, y, bound, mu)
    requires ca in {1, -1, 2, -2} && cb in {1, -1, 2, -2}
    ensures Phase(Combine(ca, a, cb, b, offset, mu), key)
         == ca * Message(x, mu) + cb * Message(y, mu) + offset + e + k * (8 * mu)
    ensures -(Weight(ca) + Weight(cb)) * bound <= e <= (Weight(ca) + Weight(cb)) * bound
  {
    var q := 8 * mu;
    var kc := PhaseCombine(ca, a, cb, b, offset, mu, key);
    var ka, ea := NearWitness(Phase(a, key), Message(x, mu), bound, q);
    var kb, eb := NearWitness(Phase(b, key), Message(y, mu), bound, q);
    e := ca * ea + cb * eb;
    k := kc + ca * ka + cb * kb;
    Distribute3(ca, Message(x, mu), ea, ka, q);
    Distribute3(cb, Message(y, mu), eb, kb, q);
    Distribute(q, kc, ca * ka);
    Distribute(q, kc + ca * ka, cb * kb);
    ScaledNoise(ca, ea, bound);
    ScaledNoise(cb, eb, bound);
  }

  // ---------- the coefficient tables ----------

  datatype BinaryGate = NAND | NOR | XNOR | AND | OR | XOR | ANDNY | ANDYN | ORNY | ORYN

  /** Signs of the two operands and the offset in units of μ. */
  datatype Row = Row(ca: int, cb: int, offset: int)

  function RowOf(g: BinaryGate): Row {
    match g
    case NAND => Row(-1, -1, 1)
    case NOR => Row(-1, -1, -1)
    case XNOR => Row(-2, -2, -2)
    case AND => Row(1, 1, -1)
    case OR => Row(1, 1, 1)
    case XOR => Row(2, 2, 2)
    case ANDNY => Row(-1, 1, -1)
    case ANDYN => Row(1, -1, -1)
    case ORNY => Row(-1, 1, 1)
    case ORYN => Row(1, -1, 1)
  }

  function Truth(g: BinaryGate, x: bool, y: bool): bool {
    match g
    case NAND => !(x && y)
    case NOR => !(x || y)
    case XNOR => x == y
    case AND => x && y
    case OR => x || y
    case XOR => x != y
    case ANDNY => !x && y
    case ANDYN => x && !y
    case ORNY => !x || y
    case ORYN => x || !y
  }

  function Linear(g: BinaryGate, a: Ciphertext, b: Ciphertext, mu: int): (c: Ciphertext)
    requires mu > 0 && |a| == |b| > 0
    ensures |c| == |a|
  {
    var r := RowOf(g);
    Combine(r.ca, a, r.cb, b, r.offset * mu, mu)
  }

  /** Where the row puts two exact messages, in units of μ modulo 8. */
  function Centre(g: BinaryGate, x: bool, y: bool): int {
    var r := RowOf(g);
    (r.ca * (if x then 1 else -1) + r.cb * (if y then 1 else -1) + r.offset) % 8
  }

  lemma CentreDecides(g: BinaryGate, x: bool, y: bool)
    ensures var two := g == XOR || g == XNOR;
            if Truth(g, x, y) then
              (if two then Centre(g, x, y) == 2 else Centre(g, x, y) == 1 || Centre(g, x, y) == 3)
            else
              (if two then Centre(g, x, y) == 6 else Centre(g, x, y) == 5 || Centre(g, x, y) == 7)
  {
  }

  /** Each row puts the phase in the upper half exactly when its gate is true, and keeps
      it `margin` away from both boundaries, whenever two noises and the margin fit in μ. */
  lemma RowDecides(g: BinaryGate, a: Ciphertext, b: Ciphertext, key: Key, x: bool, y: bool, bound: int, margin: int, mu: int)
    requires Encodes(a, key, x, bound, mu) && Encodes(b, key, y, bound, mu)
    requires 0 <= bound && 0 <= margin && 2 * bound + margin < mu
    ensures if Truth(g, x, y) then Upper(Linear(g, a, b, mu), key, margin, mu)
            else Lower(Linear(g, a, b, mu), key, margin, mu)
  {
    var r := RowOf(g);
    var k, e := CombineNear(r.ca, a, r.cb, b, r.offset * mu, mu, key, x, y, bound);
    var turns := Turns(g, x, y, mu);
    Distribute(8 * mu, k, turns);
    CentreDecides(g, x, y);
    Placed(Phase(Linear(g, a, b, mu), key), Centre(g, x, y), mu, k + turns, e, 2 * bound, margin);
  }

  lemma Turns(g: BinaryGate, x: bool, y: bool, mu: int) returns (turns: int)
    ensures var r := RowOf(g);
            r.ca * Message(x, mu) + r.cb * Message(y, mu) + r.offset * mu == turns * (8 * mu) + Centre(g, x, y) * mu
  {
    var r := RowOf(g);
    var raw := r.ca * (if x then 1 else -1) + r.cb * (if y then 1 else -1) + r.offset;
    turns := if raw < 0 then -1 else 0;
  }

  /** A phase near m * μ, for an odd m or for m twice an odd number with twice the noise. */
  lemma Placed(p: int, m: int, mu: int, k: int, e: int, noise: int, margin: int)
    requires mu > 0 && 0 <= noise && 0 <= margin && noise + margin < mu
    requires p == k * (8 * mu) + (m * mu + e)
    requires (m in {1, 3, 5, 7} && -noise <= e <= noise) || (m in {2, 6} && -2 * noise <= e <= 2 * noise)
    ensures m in {1, 2, 3} ==> margin <= p % (8 * mu) < 4 * mu - margin
    ensures m in {5, 6, 7} ==> 4 * mu + margin <= p % (8 * mu) < 8 * mu - margin
  {
    var c := m * mu;
    assert (m == 1 && c == mu) || (m == 2 && c == 2 * mu) || (m == 3 && c == 3 * mu)
        || (m == 5 && c == 5 * mu) || (m == 6 && c == 6 * mu) || (m == 7 && c == 7 * mu);
    DivUnique(p, 8 * mu, k, c + e);
  }

  // ---------- the bootstrap, and whole gates ----------

  /** `r` encrypts, with noise at most `bound`, the half c's phase lies in, if it is `margin` inside. */
  ghost predicate Decided(c: Ciphertext, r: Ciphertext, key: Key, bound: int, margin: int, mu: int) {
    && (Upper(c, key, margin, mu) ==> Encodes(r, key, true, bound, mu))
    && (Lower(c, key, margin, mu) ==> Encodes(r, key, false, bound, mu))
  }

  /** What is asked of the bootstrap: it turns the half the phase lies in into an
      encryption of one bit with noise at most `bound`, as long as the phase keeps
      `margin` away from the two boundaries. */
  ghost predicate Bootstraps(boot: Ciphertext -> Ciphertext, key: Key, bound: int, margin: int, mu: int) {
    forall c: Ciphertext {:trigger boot(c)} :: Decided(c, boot(c), key, bound, margin, mu)
  }

  /** The noiseless bootstrap: an all-zero mask with the decided message as body. */
  function IdealBootstrap(c: Ciphertext, key: Key, mu: int): Ciphertext
    requires mu > 0
  {
    seq(|key| + 1, i => if i == |key| then Message(Upper(c, key, 0, mu), mu) else 0)
  }

  lemma {:induction false} DotZero(c: Ciphertext, key: Key, n: nat)
    requires n <= |key| < |c| && forall i :: 0 <= i < |key| ==> c[i] == 0
    ensures Dot(c, key, n) == 0
  {
    if n > 0 {
      DotZero(c, key, n - 1);
    }
  }

  /** The assumption on the bootstrap can be met, for every key, bound and margin. */
  lemma BootstrapExists(key: Key, bound: int, margin: int, mu: int)
    requires 0 <= bound && 0 <= margin && 2 * bound < 8 * mu
    ensures Bootstraps(c => IdealBootstrap(c, key, mu), key, bound, margin, mu)
  {
    forall c: Ciphertext
      ensures Encodes(IdealBootstrap(c, key, mu), key, Upper(c, key, 0, mu), bound, mu)
    {
      var r := IdealBootstrap(c, key, mu);
      DotZero(r, key, |key|);
      NearFromWitness(Phase(r, key), Message(Upper(c, key, 0, mu), mu), bound, 8 * mu, 0, 0);
    }
  }

  /** One bootstrapped two-input gate, for ciphertexts of any dimension: the operands' noise
      has to fit, and the result has the noise of the bootstrap. */
  lemma BinaryGateCorrect(g: BinaryGate, a: Ciphertext, b: Ciphertext, boot: Ciphertext -> Ciphertext, key: Key,
                          x: bool, y: bool, bound: int, bootBound: int, margin: int, mu: int)
    requires Encodes(a, key, x, bound, mu) && Encodes(b, key, y, bound, mu)
    requires 0 <= bound && 0 <= margin && 2 * bound + margin < mu
    requires Bootstraps(boot, key, bootBound, margin, mu)
    ensures Encodes(boot(Linear(g, a, b, mu)), key, Truth(g, x, y), bootBound, mu)
  {
    RowDecides(g, a, b, key, x, y, bound, margin, mu);
  }

  /** A noise bound may be loosened; one that covers the circle says nothing more. */
  lemma EncodesLoosely(c: Ciphertext, key: Key, bit: bool, bound: int, loose: int, mu: int)
    requires Encodes(c, key, bit, bound, mu) && bound <= loose
    ensures Encodes(c, key, bit, loose, mu)
  {
    if 2 * loose < 8 * mu {
      var k, e := NearWitness(Phase(c, key), Message(bit, mu), bound, 8 * mu);
      NearFromWitness(Phase(c, key), Message(bit, mu), loose, 8 * mu, k, e);
    }
  }

  lemma DecidedLoosely(c: Ciphertext, r: Ciphertext, key: Key, bound: int, loose: int, margin: int, mu: int)
    requires Decided(c, r, key, bound, margin, mu) && bound <= loose
    ensures Decided(c, r, key, loose, margin, mu)
  {
    if Upper(c, key, margin, mu) {
      EncodesLoosely(r, key, true, bound, loose, mu);
    }
    if Lower(c, key, margin, mu) {
      EncodesLoosely(r, key, false, bound, loose, mu);
    }
  }

  lemma BootstrapsLoosely(boot: Ciphertext -> Ciphertext, key: Key, bound: int, loose: int, margin: int, mu: int)
    requires Bootstraps(boot, key, bound, margin, mu) && bound <= loose
    ensures Bootstraps(boot, key, loose, margin, mu)
  {
    forall c: Ciphertext {:trigger boot(c)}
      ensures Decided(c, boot(c), key, loose, margin, mu)
    {
      DecidedLoosely(c, boot(c), key, bound, loose, margin, mu);
    }
  }

  // ---------- NOT ----------

  function Negated(c: Ciphertext, mu: int): (r: Ciphertext)
    requires mu > 0
    ensures |r| == |c|
  {
    seq(|c|, i requires 0 <= i < |c| => Word(-c[i], mu))
  }

  lemma {:induction false} DotNegated(c: Ciphertext, mu: int, key: Key, n: nat) returns (k: int)
    requires mu > 0 && |c| == |key| + 1 && n <= |key|
    ensures Dot(Negated(c, mu), key, n) == -Dot(c, key, n) - k * (8 * mu)
  {
    if n == 0 {
      k := 0;
    } else {
      var k0 := DotNegated(c, mu, key, n - 1);
      var w := WordWitness(-c[n - 1], mu);
      k := if key[n - 1] then k0 + w else k0;
      Distribute(8 * mu, k0, w);
    }
  }

  lemma PhaseNegated(c: Ciphertext, mu: int, key: Key) returns (k: int)
    requires mu > 0 && |c| == |key| + 1
    ensures Phase(Negated(c, mu), key) == -Phase(c, key) + k * (8 * mu)
  {
    var kd := DotNegated(c, mu, key, |key|);
    var kw := WordWitness(-c[|key|], mu);
    Distribute(8 * mu, kd, -kw);
    k := kd - kw;
  }

  /** Negating every word flips the bit and keeps the noise bound. */
  lemma NotCorrect(c: Ciphertext, key: Key, bit: bool, bound: int, mu: int)
    requires Encodes(c, key, bit, bound, mu) && 2 * bound < 8 * mu
    ensures Encodes(Negated(c, mu), key, !bit, bound, mu)
  {
    var q := 8 * mu;
    var kp := PhaseNegated(c, mu, key);
    var k, e := NearWitness(Phase(c, key), Message(bit, mu), bound, q);
    Distribute(q, kp, -k);
    NearFromWitness(Phase(Negated(c, mu), key), Message(!bit, mu), bound, q, kp - k, -e);
  }

  predicate Reduced(c: Ciphertext, mu: int) {
    forall i :: 0 <= i < |c| ==> 0 <= c[i] < 8 * mu
  }

  lemma NegatedTwice(x: int, mu: int)
    requires mu > 0 && 0 <= x < 8 * mu
    ensures Word(-Word(-x, mu), mu) == x
  {
    var k := WordWitness(-x, mu);
    DivUnique(-Word(-x, mu), 8 * mu, k, x);
  }

  /** NOT undoes itself word for word. */
  lemma NotInvolution(c: Ciphertext, mu: int)
    requires mu > 0 && Reduced(c, mu)
    ensures Negated(Negated(c, mu), mu) == c
  {
    forall i | 0 <= i < |c|
      ensures Negated(Negated(c, mu), mu)[i] == c[i]
    {
      NegatedTwice(c[i], mu);
    }
  }

  // ---------- the codelets ----------

  /** The NOT codelet's loop over two distinct buffers. */
  method NotCodelet(output: array<int>, input: array<int>, mu: int)
    requires mu > 0 && output.Length == input.Length && output != input
    modifies output
    ensures output[..] == Negated(input[..], mu)
  {
    for i := 0 to input.Length
      invariant output[..i] == Negated(input[..], mu)[..i]
      invariant input[..] == old(input[..])
    {
      output[i] := Word(-input[i], mu);
      assert output[..i + 1] == output[..i] + [output[i]];
      assert Negated(input[..], mu)[..i + 1] == Negated(input[..], mu)[..i] + [Word(-input[i], mu)];
    }
    assert output[..] == output[..output.Length];
  }

  /** A two-input codelet: copy both buffers in, evaluate, copy the result out. */
  method BinaryCodelet(g: BinaryGate, output: array<int>, left: array<int>, right: array<int>,
                       boot: Ciphertext -> Ciphertext, mu: int)
    requires mu > 0 && output.Length == left.Length == right.Length > 0
    requires forall c :: |boot(c)| == |c|
    modifies output
    ensures output[..] == boot(Linear(g, old(left[..]), old(right[..]), mu))
  {
    var n := output.Length;
    var a, b := new int[n], new int[n];
    for i := 0 to n
      invariant a[..i] == left[..i] && b[..i] == right[..i]
      invariant left[..] == old(left[..]) && right[..] == old(right[..])
      invariant fresh(a) && fresh(b)
    {
      a[i], b[i] := left[i], right[i];
    }
    assert a[..] == left[..n] == old(left[..]);
    assert b[..] == right[..n] == old(right[..]);
    var result := boot(Linear(g, a[..], b[..], mu));
    for i := 0 to n
      invariant output[..i] == result[..i]
    {
      output[i] := result[i];
    }
    assert output[..] == output[..n] == result[..n] == result;
  }
}
