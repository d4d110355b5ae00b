/** Arithmetic in GF(2^8), section 4 of FIPS 197: addition is exclusive or, multiplication
    is modulo x^8 + x^4 + x^3 + x + 1.
 */
module AesField {

  function Add(a: bv8, b: bv8): bv8 { a ^ b }

  lemma AddComm(a: bv8, b: bv8)
    ensures Add(a, b) == Add(b, a)
  {
  }

  lemma AddAssoc(a: bv8, b: bv8, c: bv8)
    ensures Add(Add(a, b), c) == Add(a, Add(b, c))
  {
  }

  lemma AddSelf(a: bv8)
    ensures Add(a, a) == 0 && Add(a, 0) == a && Add(0, a) == a
  {
  }

  /** Adding a key byte twice gives the byte back. */
  lemma AddTwice(a: bv8, k: bv8)
    ensures Add(Add(a, k), k) == a
  {
  }

  lemma AddMedial(a: bv8, b: bv8, c: bv8, d: bv8)
    ensures Add(Add(a, b), Add(c, d)) == Add(Add(a, c), Add(b, d))
  {
    AddAssoc(a, b, Add(c, d));
    AddAssoc(b, c, d);
    AddComm(b, c);
    AddAssoc(c, b, d);
    AddAssoc(a, c, Add(b, d));
  }

  lemma AddRotate(a: bv8, b: bv8, c: bv8, d: bv8)
    ensures Add(Add(b, c), Add(d, a)) == Add(Add(a, b), Add(c, d))
  {
    AddComm(d, a);
    AddComm(Add(b, c), Add(a, d));
    AddMedial(a, d, b, c);
    AddComm(d, c);
  }

  /** Multiplication by x. */
  function Xtime(b: bv8): bv8 { (b << 1) ^ (((b >> 7) & 1) * 0x1b) }

  lemma XtimeAdds(a: bv8, b: bv8)
    ensures Xtime(Add(a, b)) == Add(Xtime(a), Xtime(b))
  {
  }

  /** Multiplication by the polynomial whose coefficients are the bits of c. */
  function GfMul(c: nat, x: bv8): bv8 {
    if c == 0 then 0
    else if c % 2 == 1 then Add(x, GfMul(c / 2, Xtime(x)))
    else GfMul(c / 2, Xtime(x))
  }

  lemma {:induction false} GfMulAdds(c: nat, a: bv8, b: bv8)
    ensures GfMul(c, Add(a, b)) == Add(GfMul(c, a), GfMul(c, b))
  {
    if c != 0 {
      XtimeAdds(a, b);
      GfMulAdds(c / 2, Xtime(a), Xtime(b));
      if c % 2 == 1 {
        AddMedial(a, b, GfMul(c / 2, Xtime(a)), GfMul(c / 2, Xtime(b)));
      }
    }
  }

  // ---------- the constants of MixColumns ----------

  lemma Mul1(x: bv8)
    ensures GfMul(1, x) == x
  {
    AddSelf(x);
    assert GfMul(0, Xtime(x)) == 0;
  }

  lemma Mul2(x: bv8)
    ensures GfMul(2, x) == Xtime(x)
  {
    Mul1(Xtime(x));
  }

  lemma Mul3(x: bv8)
    ensures GfMul(3, x) == x ^ Xtime(x)
  {
    Mul1(Xtime(x));
  }

  lemma Mul4(x: bv8)
    ensures GfMul(4, x) == Xtime(Xtime(x))
  {
    Mul2(Xtime(x));
  }

  lemma Mul9(x: bv8)
    ensures GfMul(9, x) == x ^ Xtime(Xtime(Xtime(x)))
  {
    Mul4(Xtime(x));
  }

  lemma Mul11(x: bv8)
    ensures GfMul(11, x) == x ^ (Xtime(x) ^ Xtime(Xtime(Xtime(x))))
  {
    var y := Xtime(x);
    Mul2(Xtime(y));
    assert GfMul(5, y) == Add(y, GfMul(2, Xtime(y)));
  }

  lemma Mul13(x: bv8)
    ensures GfMul(13, x) == x ^ (Xtime(Xtime(x)) ^ Xtime(Xtime(Xtime(x))))
  {
    var y := Xtime(x);
    Mul3(Xtime(y));
    assert GfMul(6, y) == GfMul(3, Xtime(y));
  }

  lemma Mul14(x: bv8)
    ensures GfMul(14, x) == Xtime(x) ^ (Xtime(Xtime(x)) ^ Xtime(Xtime(Xtime(x))))
  {
    var y := Xtime(x);
    Mul3(Xtime(y));
    assert GfMul(7, y) == Add(y, GfMul(3, Xtime(y)));
  }

  // ---------- one column ----------

  /** A row of the circulant {02} {03} {01} {01}. */
  function MixByte(a: bv8, b: bv8, c: bv8, d: bv8): bv8 {
    Add(Add(GfMul(2, a), GfMul(3, b)), Add(c, d))
  }

  /** A row of the circulant {0e} {0b} {0d} {09}. */
  function InvMixByte(a: bv8, b: bv8, c: bv8, d: bv8): bv8 {
    Add(Add(GfMul(14, a), GfMul(11, b)), Add(GfMul(13, c), GfMul(9, d)))
  }

  lemma InvMixAdds(p: bv8, q: bv8, r: bv8, s: bv8, t: bv8, u: bv8, v: bv8, w: bv8)
    ensures InvMixByte(Add(p, t), Add(q, u), Add(r, v), Add(s, w)) == Add(InvMixByte(p, q, r, s), InvMixByte(t, u, v, w))
  {
    GfMulAdds(14, p, t);
    GfMulAdds(11, q, u);
    GfMulAdds(13, r, v);
    GfMulAdds(9, s, w);
    AddMedial(GfMul(14, p), GfMul(14, t), GfMul(11, q), GfMul(11, u));
    AddMedial(GfMul(13, r), GfMul(13, v), GfMul(9, s), GfMul(9, w));
    AddMedial(Add(GfMul(14, p), GfMul(11, q)), Add(GfMul(14, t), GfMul(11, u)),
              Add(GfMul(13, r), GfMul(9, s)), Add(GfMul(13, v), GfMul(9, w)));
  }

  /** What the inverse row makes of a column that holds one byte only: the first byte is
      recovered, the other three contribute nothing. */
  lemma InvMixFirst(a: bv8)
    ensures InvMixByte(GfMul(2, a), a, a, GfMul(3, a)) == a
  {
    Mul2(a);
    Mul3(a);
    Mul14(Xtime(a));
    Mul11(a);
    Mul13(a);
    Mul9(a ^ Xtime(a));
  }

  lemma InvMixSecond(b: bv8)
    ensures InvMixByte(GfMul(3, b), GfMul(2, b), b, b) == 0
  {
    Mul2(b);
    Mul3(b);
    Mul14(b ^ Xtime(b));
    Mul11(Xtime(b));
    Mul13(b);
    Mul9(b);
  }

  lemma InvMixThird(c: bv8)
    ensures InvMixByte(c, GfMul(3, c), GfMul(2, c), c) == 0
  {
    Mul2(c);
    Mul3(c);
    Mul14(c);
    Mul11(c ^ Xtime(c));
    Mul13(Xtime(c));
    Mul9(c);
  }

  lemma InvMixFourth(d: bv8)
    ensures InvMixByte(d, d, GfMul(3, d), GfMul(2, d)) == 0
  {
    Mul2(d);
    Mul3(d);
    Mul14(d);
    Mul11(d);
    Mul13(d ^ Xtime(d));
    Mul9(Xtime(d));
  }

  /** The two circulants are inverse: row by row, for every column. */
  lemma InvMixMix(a: bv8, b: bv8, c: bv8, d: bv8)
    ensures InvMixByte(MixByte(a, b, c, d), MixByte(b, c, d, a), MixByte(c, d, a, b), MixByte(d, a, b, c)) == a
  {
    var a2, a3, b2, b3 := GfMul(2, a), GfMul(3, a), GfMul(2, b), GfMul(3, b);
    var c2, c3, d2, d3 := GfMul(2, c), GfMul(3, c), GfMul(2, d), GfMul(3, d);
    AddRotate(a, b2, c3, d);
    AddComm(Add(c2, d3), Add(a, b));
    AddRotate(d2, a3, b, c);
    InvMixAdds(Add(a2, b3), Add(a, b2), Add(a, b), Add(a3, b), Add(c, d), Add(c3, d), Add(c2, d3), Add(c, d2));
    InvMixAdds(a2, a, a, a3, b3, b2, b, b);
    InvMixAdds(c, c3, c2, c, d, d, d3, d2);
    InvMixFirst(a);
    InvMixSecond(b);
    InvMixThird(c);
    InvMixFourth(d);
    AddSelf(a);
    AddSelf(0);
  }
}
