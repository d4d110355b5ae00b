/** The column modules of the two circuits: the shared-sum form of MixColumns and the
    inverse built from repeated doubling.
 */
module AesColumns {
  import opened AesField
  import opened AesNets
  import opened AesCircuit
  import C = AesCipher

  // ---------- MixColumns.v ----------

  function XtimeModule(x: bv8): bv8 {
    var w := x << 1;
    if x & 0x80 != 0 then w ^ 0x1b else w
  }

  lemma XtimeModuleCorrect(x: bv8)
    ensures XtimeModule(x) == Xtime(x)
  {
  }

  /** One column: every output byte is its input, the sum of all four, and a doubled pair. */
  function MixModule(a: C.Word): C.Word {
    var temp := Add(Add(Add(a[0], a[1]), a[2]), a[3]);
    [Add(Add(a[0], temp), XtimeModule(Add(a[0], a[1]))), Add(Add(a[1], temp), XtimeModule(Add(a[1], a[2]))),
     Add(Add(a[2], temp), XtimeModule(Add(a[2], a[3]))), Add(Add(a[3], temp), XtimeModule(Add(a[3], a[0])))]
  }

  function ColumnLanes(x: Bus, i: nat): C.Word
    requires i < 4
  {
    Lanes(x)[4 * i..4 * i + 4]
  }

  function MixColumns(x: Bus): Bus {
    Pack(MixModule(ColumnLanes(x, 0)) + MixModule(ColumnLanes(x, 1)) + MixModule(ColumnLanes(x, 2)) + MixModule(ColumnLanes(x, 3)))
  }

  lemma SharedSum(a: bv8, b: bv8, c: bv8, d: bv8)
    ensures Add(Add(a, Add(Add(Add(a, b), c), d)), Xtime(Add(a, b))) == MixByte(a, b, c, d)
  {
    var rest, pair := Add(c, d), Add(b, Add(c, d));
    AddAssoc(Add(a, b), c, d);
    AddAssoc(a, b, rest);
    AddAssoc(a, a, pair);
    AddSelf(a);
    AddSelf(pair);
    XtimeAdds(a, b);
    AddComm(pair, Add(Xtime(a), Xtime(b)));
    AddAssoc(Add(Xtime(a), Xtime(b)), b, rest);
    AddAssoc(Xtime(a), Xtime(b), b);
    AddComm(Xtime(b), b);
    TwoThree(a, b);
  }

  lemma TwoThree(a: bv8, b: bv8)
    ensures GfMul(2, a) == Xtime(a) && GfMul(3, b) == Add(b, Xtime(b))
  {
    Mul2(a);
    Mul3(b);
  }

  lemma SumRotates(a: bv8, b: bv8, c: bv8, d: bv8)
    ensures Add(Add(Add(b, c), d), a) == Add(Add(Add(a, b), c), d)
  {
    AddAssoc(Add(b, c), d, a);
    AddRotate(a, b, c, d);
    AddAssoc(Add(a, b), c, d);
  }

  lemma MixModuleByte(a: bv8, b: bv8, c: bv8, d: bv8, temp: bv8)
    requires temp == Add(Add(Add(a, b), c), d)
    ensures Add(Add(a, temp), XtimeModule(Add(a, b))) == MixByte(a, b, c, d)
  {
    XtimeModuleCorrect(Add(a, b));
    SharedSum(a, b, c, d);
  }

  lemma MixModuleCorrect(a: C.Word)
    ensures MixModule(a) == C.MixColumn(a)
  {
    var temp := Add(Add(Add(a[0], a[1]), a[2]), a[3]);
    SumRotates(a[0], a[1], a[2], a[3]);
    SumRotates(a[1], a[2], a[3], a[0]);
    SumRotates(a[2], a[3], a[0], a[1]);
    MixModuleByte(a[0], a[1], a[2], a[3], temp);
    MixModuleByte(a[1], a[2], a[3], a[0], temp);
    MixModuleByte(a[2], a[3], a[0], a[1], temp);
    MixModuleByte(a[3], a[0], a[1], a[2], temp);
  }

  lemma ColumnWires(s: C.Block, i: nat)
    requires i < 4
    ensures ColumnLanes(Wires(s), i) == C.Column(s, i)
  {
    LanesPack(s);
  }

  lemma MixColumnsAgrees(s: C.Block)
    ensures MixColumns(Wires(s)) == Wires(C.MixColumns(s))
  {
    ColumnWires(s, 0);
    ColumnWires(s, 1);
    ColumnWires(s, 2);
    ColumnWires(s, 3);
    MixModuleCorrect(C.Column(s, 0));
    MixModuleCorrect(C.Column(s, 1));
    MixModuleCorrect(C.Column(s, 2));
    MixModuleCorrect(C.Column(s, 3));
  }

  // ---------- inverseMixColumns.v ----------

  /** n doublings. */
  function Multiply(x: bv8, n: nat): bv8
    decreases n
  {
    if n == 0 then x else Multiply(XtimeModule(x), n - 1)
  }

  method MultiplyLoop(x: bv8, n: nat) returns (y: bv8)
    ensures y == Multiply(x, n)
  {
    y := x;
    for i := 0 to n
      invariant Multiply(y, n - i) == Multiply(x, n)
    {
      if y & 0x80 != 0 {
        y := (y << 1) ^ 0x1b;
      } else {
        y := y << 1;
      }
    }
  }

  lemma Doublings(x: bv8)
    ensures Multiply(x, 1) == Xtime(x) && Multiply(x, 2) == Xtime(Xtime(x)) && Multiply(x, 3) == Xtime(Xtime(Xtime(x)))
  {
    var y := Xtime(x);
    var z := Xtime(y);
    XtimeModuleCorrect(x);
    XtimeModuleCorrect(y);
    XtimeModuleCorrect(z);
    assert Multiply(z, 0) == z && Multiply(z, 1) == Multiply(Xtime(z), 0);
    assert Multiply(y, 1) == Multiply(z, 0) && Multiply(y, 2) == Multiply(z, 1);
    assert Multiply(x, 1) == Multiply(y, 0) && Multiply(x, 2) == Multiply(y, 1) && Multiply(x, 3) == Multiply(y, 2);
  }

  function Mb0e(x: bv8): bv8 { Add(Add(Multiply(x, 3), Multiply(x, 2)), Multiply(x, 1)) }

  function Mb0d(x: bv8): bv8 { Add(Add(Multiply(x, 3), Multiply(x, 2)), x) }

  function Mb0b(x: bv8): bv8 { Add(Add(Multiply(x, 3), Multiply(x, 1)), x) }

  function Mb09(x: bv8): bv8 { Add(Multiply(x, 3), x) }

  lemma SumReversed(a: bv8, b: bv8, c: bv8)
    ensures Add(Add(c, b), a) == a ^ (b ^ c)
  {
    AddComm(Add(c, b), a);
    AddComm(c, b);
  }

  lemma Multiples(x: bv8)
    ensures Mb0e(x) == GfMul(14, x) && Mb0d(x) == GfMul(13, x) && Mb0b(x) == GfMul(11, x) && Mb09(x) == GfMul(9, x)
  {
    var y, z, u := Multiply(x, 1), Multiply(x, 2), Multiply(x, 3);
    Doublings(x);
    Mul14(x);
    Mul13(x);
    Mul11(x);
    Mul9(x);
    SumReversed(y, z, u);
    SumReversed(x, z, u);
    SumReversed(x, y, u);
    AddComm(u, x);
  }

  /** The column written with the four multipliers, rows in the order of the column. */
  function InvMixModule(a: C.Word): C.Word {
    [Add(Add(Add(Mb0e(a[0]), Mb0b(a[1])), Mb0d(a[2])), Mb09(a[3])),
     Add(Add(Add(Mb09(a[0]), Mb0e(a[1])), Mb0b(a[2])), Mb0d(a[3])),
     Add(Add(Add(Mb0d(a[0]), Mb09(a[1])), Mb0e(a[2])), Mb0b(a[3])),
     Add(Add(Add(Mb0b(a[0]), Mb0d(a[1])), Mb09(a[2])), Mb0e(a[3]))]
  }

  lemma InvMixModuleCorrect(a: C.Word)
    ensures InvMixModule(a) == C.InvMixColumn(a)
  {
    Multiples(a[0]);
    Multiples(a[1]);
    Multiples(a[2]);
    Multiples(a[3]);
    InvRow0(a[0], a[1], a[2], a[3]);
    InvRow1(a[0], a[1], a[2], a[3]);
    InvRow2(a[0], a[1], a[2], a[3]);
    InvRow3(a[0], a[1], a[2], a[3]);
  }

  /** Four terms added from the left are their two halves, from whichever term one starts. */
  lemma FourSums(p: bv8, q: bv8, r: bv8, s: bv8)
    ensures Add(Add(Add(p, q), r), s) == Add(Add(p, q), Add(r, s))
    ensures Add(Add(Add(p, q), r), s) == Add(Add(q, r), Add(s, p))
    ensures Add(Add(Add(p, q), r), s) == Add(Add(r, s), Add(p, q))
    ensures Add(Add(Add(p, q), r), s) == Add(Add(s, p), Add(q, r))
  {
    AddAssoc(Add(p, q), r, s);
    AddRotate(p, q, r, s);
    AddComm(Add(p, q), Add(r, s));
    AddRotate(s, p, q, r);
  }

  lemma InvRow0(a: bv8, b: bv8, c: bv8, d: bv8)
    ensures Add(Add(Add(GfMul(14, a), GfMul(11, b)), GfMul(13, c)), GfMul(9, d)) == InvMixByte(a, b, c, d)
  {
    FourSums(GfMul(14, a), GfMul(11, b), GfMul(13, c), GfMul(9, d));
  }

  lemma InvRow1(a: bv8, b: bv8, c: bv8, d: bv8)
    ensures Add(Add(Add(GfMul(9, a), GfMul(14, b)), GfMul(11, c)), GfMul(13, d)) == InvMixByte(b, c, d, a)
  {
    FourSums(GfMul(9, a), GfMul(14, b), GfMul(11, c), GfMul(13, d));
  }

  lemma InvRow2(a: bv8, b: bv8, c: bv8, d: bv8)
    ensures Add(Add(Add(GfMul(13, a), GfMul(9, b)), GfMul(14, c)), GfMul(11, d)) == InvMixByte(c, d, a, b)
  {
    FourSums(GfMul(13, a), GfMul(9, b), GfMul(14, c), GfMul(11, d));
  }

  lemma InvRow3(a: bv8, b: bv8, c: bv8, d: bv8)
    ensures Add(Add(Add(GfMul(11, a), GfMul(13, b)), GfMul(9, c)), GfMul(14, d)) == InvMixByte(d, a, b, c)
  {
    FourSums(GfMul(11, a), GfMul(13, b), GfMul(9, c), GfMul(14, d));
  }
}
