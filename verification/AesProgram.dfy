/** The C++ AES as a program over 4x4 state arrays, word buffers and byte buffers, each
    method proved against the functions of AesCipher and AesModes.
 */
module AesProgram {
  import opened AesField
  import opened AesTables
  import C = AesCipher

  // ---------- the state array ----------

  ghost predicate State(a: array2<bv8>) { a.Length0 == 4 && a.Length1 == 4 }

  ghost function Flat(a: array2<bv8>): C.Block
    requires State(a)
    reads a
  {
    seq(16, p requires 0 <= p < 16 reads a => a[p % 4, p / 4])
  }

  /** The loop of SubBytes and of InvSubBytes, which differ in their table. */
  method Substitute(state: array2<bv8>, table: seq<seq<bv8>>)
    requires State(state) && Square(table)
    modifies state
    ensures Flat(state) == C.Substituted(table, old(Flat(state)))
  {
    for i := 0 to 4
      invariant forall r, c :: 0 <= r < 4 && 0 <= c < 4 ==>
        state[r, c] == if r < i then Look(table, old(state[r, c])) else old(state[r, c])
    {
      for j := 0 to 4
        invariant forall r, c :: 0 <= r < 4 && 0 <= c < 4 ==>
          state[r, c] == if r < i || (r == i && c < j) then Look(table, old(state[r, c])) else old(state[r, c])
      {
        var t := state[i, j];
        state[i, j] := table[(t / 16) as int][(t % 16) as int];
      }
    }
  }

  method SubBytes(state: array2<bv8>)
    requires State(state)
    modifies state
    ensures Flat(state) == C.SubBytes(old(Flat(state)))
  {
    Substitute(state, Sbox);
  }

  method InvSubBytes(state: array2<bv8>)
    requires State(state)
    modifies state
    ensures Flat(state) == C.InvSubBytes(old(Flat(state)))
  {
    Substitute(state, InvSbox);
  }

  method AddRoundKey(state: array2<bv8>, key: array<bv8>, offset: nat)
    requires State(state) && offset + 16 <= key.Length
    modifies state
    ensures Flat(state) == C.AddBlocks(old(Flat(state)), old(key[offset..offset + 16]))
  {
    for i := 0 to 4
      invariant forall r, c :: 0 <= r < 4 && 0 <= c < 4 ==>
        state[r, c] == if r < i then Add(old(state[r, c]), key[offset + r + 4 * c]) else old(state[r, c])
    {
      for j := 0 to 4
        invariant forall r, c :: 0 <= r < 4 && 0 <= c < 4 ==>
          state[r, c] == if r < i || (r == i && c < j) then Add(old(state[r, c]), key[offset + r + 4 * c]) else old(state[r, c])
      {
        state[i, j] := state[i, j] ^ key[offset + i + 4 * j];
      }
    }
  }

  ghost function RowOf(a: array2<bv8>, i: nat): C.Word
    requires State(a) && i < 4
    reads a
  {
    [a[i, 0], a[i, 1], a[i, 2], a[i, 3]]
  }

  ghost function RotatedRow(row: C.Word, n: nat): C.Word
    requires n <= 4
  {
    row[n..] + row[..n]
  }

  /** The entries of row i, from the n-th on, wrapping around. */
  method ReadRotated(state: array2<bv8>, i: nat, n: nat) returns (tmp: array<bv8>)
    requires State(state) && i < 4 && n < 4
    ensures fresh(tmp) && tmp.Length == 4 && tmp[..] == RotatedRow(RowOf(state, i), n)
  {
    tmp := new bv8[4];
    ghost var goal := RotatedRow(RowOf(state, i), n);
    for j := 0 to 4
      invariant forall c :: 0 <= c < j ==> tmp[c] == goal[c]
    {
      var k := (j + n) % 4;
      assert k == if j + n < 4 then j + n else j + n - 4;
      assert state[i, k] == RowOf(state, i)[k];
      tmp[j] := state[i, k];
    }
  }

  method WriteRow(state: array2<bv8>, i: nat, tmp: array<bv8>)
    requires State(state) && i < 4 && tmp.Length == 4
    modifies state
    ensures RowOf(state, i) == old(tmp[..])
    ensures forall r, c :: 0 <= r < 4 && 0 <= c < 4 && r != i ==> state[r, c] == old(state[r, c])
  {
    for j := 0 to 4
      invariant forall c :: 0 <= c < j ==> state[i, c] == tmp[c]
      invariant forall r, c :: 0 <= r < 4 && 0 <= c < 4 && r != i ==> state[r, c] == old(state[r, c])
    {
      state[i, j] := tmp[j];
    }
    assert tmp[..] == [tmp[0], tmp[1], tmp[2], tmp[3]];
  }

  /** Shift row i by n positions. */
  method ShiftRow(state: array2<bv8>, i: nat, n: nat)
    requires State(state) && i < 4 && n < 4
    modifies state
    ensures RowOf(state, i) == RotatedRow(old(RowOf(state, i)), n)
    ensures forall r, c :: 0 <= r < 4 && 0 <= c < 4 && r != i ==> state[r, c] == old(state[r, c])
  {
    var tmp := ReadRotated(state, i, n);
    WriteRow(state, i, tmp);
  }

  /** The block whose rows are the given ones. */
  ghost function Woven(r0: C.Word, r1: C.Word, r2: C.Word, r3: C.Word): C.Block {
    [r0[0], r1[0], r2[0], r3[0],
     r0[1], r1[1], r2[1], r3[1],
     r0[2], r1[2], r2[2], r3[2],
     r0[3], r1[3], r2[3], r3[3]]
  }

  lemma FlatIsWoven(a: array2<bv8>)
    requires State(a)
    ensures Flat(a) == Woven(RowOf(a, 0), RowOf(a, 1), RowOf(a, 2), RowOf(a, 3))
  {
  }

  lemma WovenShifted(r0: C.Word, r1: C.Word, r2: C.Word, r3: C.Word)
    ensures C.ShiftRows(Woven(r0, r1, r2, r3)) == Woven(r0, RotatedRow(r1, 1), RotatedRow(r2, 2), RotatedRow(r3, 3))
  {
    C.ShiftedList(Woven(r0, r1, r2, r3));
  }

  lemma WovenUnshifted(r0: C.Word, r1: C.Word, r2: C.Word, r3: C.Word)
    ensures C.InvShiftRows(Woven(r0, r1, r2, r3)) == Woven(r0, RotatedRow(r1, 3), RotatedRow(r2, 2), RotatedRow(r3, 1))
  {
    C.UnshiftedList(Woven(r0, r1, r2, r3));
  }

  method ShiftRows(state: array2<bv8>)
    requires State(state)
    modifies state
    ensures Flat(state) == C.ShiftRows(old(Flat(state)))
  {
    ghost var r0, r1, r2, r3 := RowOf(state, 0), RowOf(state, 1), RowOf(state, 2), RowOf(state, 3);
    FlatIsWoven(state);
    WovenShifted(r0, r1, r2, r3);
    MoveRows(state, 1, 2, 3);
    FlatIsWoven(state);
  }

  method InvShiftRows(state: array2<bv8>)
    requires State(state)
    modifies state
    ensures Flat(state) == C.InvShiftRows(old(Flat(state)))
  {
    ghost var r0, r1, r2, r3 := RowOf(state, 0), RowOf(state, 1), RowOf(state, 2), RowOf(state, 3);
    FlatIsWoven(state);
    WovenUnshifted(r0, r1, r2, r3);
    MoveRows(state, 3, 2, 1);
    FlatIsWoven(state);
  }

  method MoveRows(state: array2<bv8>, n1: nat, n2: nat, n3: nat)
    requires State(state) && n1 < 4 && n2 < 4 && n3 < 4
    modifies state
    ensures RowOf(state, 0) == old(RowOf(state, 0)) && RowOf(state, 1) == RotatedRow(old(RowOf(state, 1)), n1)
    ensures RowOf(state, 2) == RotatedRow(old(RowOf(state, 2)), n2)
    ensures RowOf(state, 3) == RotatedRow(old(RowOf(state, 3)), n3)
  {
    ShiftRow(state, 1, n1);
    ShiftRow(state, 2, n2);
    ShiftRow(state, 3, n3);
  }

  // ---------- the column step ----------

  const Cmds: seq<seq<nat>> := [[2, 3, 1, 1], [1, 2, 3, 1], [1, 1, 2, 3], [3, 1, 1, 2]]

  const InvCmds: seq<seq<nat>> := [[14, 11, 13, 9], [9, 14, 11, 13], [13, 9, 14, 11], [11, 13, 9, 14]]

  /** The filled rows of the multiplication table. */
  function GfMulTable(c: nat): seq<seq<bv8>> {
    if c == 2 then Times2 else if c == 3 then Times3 else if c == 9 then Times9
    else if c == 11 then Times11 else if c == 13 then Times13 else if c == 14 then Times14 else []
  }

  ghost predicate Coefficient(c: nat) { c == 1 || c in {2, 3, 9, 11, 13, 14} }

  ghost predicate Matrix(m: seq<seq<nat>>) {
    && |m| == 4 && (forall i :: 0 <= i < 4 ==> |m[i]| == 4)
    && (forall i, k :: 0 <= i < 4 && 0 <= k < 4 ==> Coefficient(m[i][k]))
  }

  /** One table look-up: coefficient 1 has no table. */
  method Scale(c: nat, x: bv8) returns (y: bv8)
    requires Coefficient(c)
    ensures y == GfMul(c, x)
  {
    if c == 1 {
      Mul1(x);
      return x;
    }
    TablesMultiply(x);
    y := Look(GfMulTable(c), x);
  }

  method AddScaledRow(temp: array2<bv8>, i: nat, c: nat, state: array2<bv8>, k: nat)
    requires State(temp) && State(state) && temp != state && i < 4 && k < 4 && Coefficient(c)
    modifies temp
    ensures forall q :: 0 <= q < 4 ==> temp[i, q] == Add(old(temp[i, q]), GfMul(c, state[k, q]))
    ensures forall r, q :: 0 <= r < 4 && 0 <= q < 4 && r != i ==> temp[r, q] == old(temp[r, q])
  {
    for j := 0 to 4
      invariant forall q :: 0 <= q < 4 ==>
        temp[i, q] == if q < j then Add(old(temp[i, q]), GfMul(c, state[k, q])) else old(temp[i, q])
      invariant forall r, q :: 0 <= r < 4 && 0 <= q < 4 && r != i ==> temp[r, q] == old(temp[r, q])
    {
      var y := Scale(c, state[k, j]);
      temp[i, j] := temp[i, j] ^ y;
    }
  }

  /** The first n terms of a row times column q of a block. */
  ghost function Dot(row: seq<nat>, s: C.Block, q: nat, n: nat): bv8
    requires q < 4 && n <= 4 && |row| == 4
  {
    if n == 0 then 0 else Add(Dot(row, s, q, n - 1), GfMul(row[n - 1], s[4 * q + (n - 1)]))
  }

  ghost function Product(m: seq<seq<nat>>, s: C.Block): C.Block
    requires Matrix(m)
  {
    seq(16, p requires 0 <= p < 16 => Dot(m[p % 4], s, p / 4, 4))
  }

  /** Row i of temp holds the first k terms of the row times every column of s. */
  ghost predicate PartialRow(temp: array2<bv8>, i: nat, row: seq<nat>, s: C.Block, k: nat)
    requires State(temp) && i < 4 && |row| == 4 && k <= 4
    reads temp
  {
    forall q :: 0 <= q < 4 ==> temp[i, q] == Dot(row, s, q, k)
  }

  method AddTerm(temp: array2<bv8>, i: nat, row: seq<nat>, state: array2<bv8>, ghost s: C.Block, k: nat)
    requires State(temp) && State(state) && temp != state && i < 4 && k < 4 && |row| == 4 && Coefficient(row[k])
    requires s == Flat(state) && PartialRow(temp, i, row, s, k)
    modifies temp
    ensures PartialRow(temp, i, row, s, k + 1)
    ensures forall r, q :: 0 <= r < 4 && 0 <= q < 4 && r != i ==> temp[r, q] == old(temp[r, q])
  {
    AddScaledRow(temp, i, row[k], state, k);
    assert forall q :: 0 <= q < 4 ==> state[k, q] == s[4 * q + k];
  }

  method MultiplyRow(temp: array2<bv8>, i: nat, row: seq<nat>, state: array2<bv8>)
    requires State(temp) && State(state) && temp != state && i < 4
    requires |row| == 4 && forall k :: 0 <= k < 4 ==> Coefficient(row[k])
    requires forall q :: 0 <= q < 4 ==> temp[i, q] == 0
    modifies temp
    ensures forall q :: 0 <= q < 4 ==> temp[i, q] == Dot(row, Flat(state), q, 4)
    ensures forall r, q :: 0 <= r < 4 && 0 <= q < 4 && r != i ==> temp[r, q] == old(temp[r, q])
  {
    ghost var s := Flat(state);
    for k := 0 to 4
      invariant PartialRow(temp, i, row, s, k)
      invariant forall r, q :: 0 <= r < 4 && 0 <= q < 4 && r != i ==> temp[r, q] == old(temp[r, q])
    {
      AddTerm(temp, i, row, state, s, k);
    }
  }

  /** The loops of MixColumns and of InvMixColumns, which differ in their matrix. */
  method MultiplyColumns(state: array2<bv8>, m: seq<seq<nat>>)
    requires State(state) && Matrix(m)
    modifies state
    ensures Flat(state) == Product(m, old(Flat(state)))
  {
    var temp := new bv8[4, 4]((i, j) => 0);
    for i := 0 to 4
      modifies temp
      invariant forall r, q :: 0 <= r < 4 && 0 <= q < 4 ==>
        temp[r, q] == if r < i then Dot(m[r], Flat(state), q, 4) else 0
    {
      MultiplyRow(temp, i, m[i], state);
    }
    CopyState(temp, state);
  }

  method CopyState(from: array2<bv8>, to: array2<bv8>)
    requires State(from) && State(to) && from != to
    modifies to
    ensures forall r, q :: 0 <= r < 4 && 0 <= q < 4 ==> to[r, q] == from[r, q]
  {
    for i := 0 to 4
      invariant forall r, q :: 0 <= r < i && 0 <= q < 4 ==> to[r, q] == from[r, q]
    {
      for j := 0 to 4
        invariant forall r, q :: 0 <= r < i && 0 <= q < 4 ==> to[r, q] == from[r, q]
        invariant forall q :: 0 <= q < j ==> to[i, q] == from[i, q]
      {
        to[i, j] := from[i, j];
      }
    }
  }

  /** A row of coefficients applied to a column. */
  ghost function Combined(row: seq<nat>, a: C.Word): bv8
    requires |row| == 4
  {
    Add(Add(GfMul(row[0], a[0]), GfMul(row[1], a[1])), Add(GfMul(row[2], a[2]), GfMul(row[3], a[3])))
  }

  lemma DotSum(row: seq<nat>, s: C.Block, q: nat)
    requires q < 4 && |row| == 4
    ensures Dot(row, s, q, 4) == Combined(row, C.Column(s, q))
  {
    var t0, t1, t2, t3 := GfMul(row[0], s[4 * q]), GfMul(row[1], s[4 * q + 1]), GfMul(row[2], s[4 * q + 2]), GfMul(row[3], s[4 * q + 3]);
    AddSelf(t0);
    assert Dot(row, s, q, 0) == 0;
    assert Dot(row, s, q, 1) == t0;
    assert Dot(row, s, q, 2) == Add(t0, t1);
    assert Dot(row, s, q, 3) == Add(Add(t0, t1), t2);
    AddAssoc(Add(t0, t1), t2, t3);
  }

  lemma MixRow(a: C.Word, i: nat)
    requires i < 4
    ensures Combined(Cmds[i], a) == C.MixColumn(a)[i]
  {
    Mul1(a[0]);
    Mul1(a[1]);
    Mul1(a[2]);
    Mul1(a[3]);
    if i == 1 {
      AddRotate(a[0], GfMul(2, a[1]), GfMul(3, a[2]), a[3]);
    } else if i == 2 {
      AddComm(Add(a[0], a[1]), Add(GfMul(2, a[2]), GfMul(3, a[3])));
    } else if i == 3 {
      AddRotate(GfMul(2, a[3]), GfMul(3, a[0]), a[1], a[2]);
    }
  }

  lemma InvMixRow(a: C.Word, i: nat)
    requires i < 4
    ensures Combined(InvCmds[i], a) == C.InvMixColumn(a)[i]
  {
    if i == 1 {
      AddRotate(GfMul(9, a[0]), GfMul(14, a[1]), GfMul(11, a[2]), GfMul(13, a[3]));
    } else if i == 2 {
      AddComm(Add(GfMul(13, a[0]), GfMul(9, a[1])), Add(GfMul(14, a[2]), GfMul(11, a[3])));
    } else if i == 3 {
      AddRotate(GfMul(14, a[3]), GfMul(11, a[0]), GfMul(13, a[1]), GfMul(9, a[2]));
    }
  }

  lemma MixProductAt(s: C.Block, q: nat, i: nat)
    requires q < 4 && i < 4
    ensures Dot(Cmds[i], s, q, 4) == C.MixColumns(s)[4 * q + i]
  {
    C.MixedAt(s, q, i);
    DotSum(Cmds[i], s, q);
    MixRow(C.Column(s, q), i);
  }

  lemma MixProductEntry(s: C.Block, p: nat)
    requires p < 16
    ensures Dot(Cmds[p % 4], s, p / 4, 4) == C.MixColumns(s)[p]
  {
    var q, i := p / 4, p % 4;
    assert p == 4 * q + i;
    MixProductAt(s, q, i);
  }

  lemma MixProduct(s: C.Block)
    ensures Matrix(Cmds) && Product(Cmds, s) == C.MixColumns(s)
  {
    forall p | 0 <= p < 16
      ensures Product(Cmds, s)[p] == C.MixColumns(s)[p]
    {
      MixProductEntry(s, p);
    }
  }

  lemma InvMixProductAt(s: C.Block, q: nat, i: nat)
    requires q < 4 && i < 4
    ensures Dot(InvCmds[i], s, q, 4) == C.InvMixColumns(s)[4 * q + i]
  {
    C.InvMixedAt(s, q, i);
    DotSum(InvCmds[i], s, q);
    InvMixRow(C.Column(s, q), i);
  }

  lemma InvMixProductEntry(s: C.Block, p: nat)
    requires p < 16
    ensures Dot(InvCmds[p % 4], s, p / 4, 4) == C.InvMixColumns(s)[p]
  {
    var q, i := p / 4, p % 4;
    assert p == 4 * q + i;
    InvMixProductAt(s, q, i);
  }

  lemma InvMixProduct(s: C.Block)
    ensures Matrix(InvCmds) && Product(InvCmds, s) == C.InvMixColumns(s)
  {
    forall p | 0 <= p < 16
      ensures Product(InvCmds, s)[p] == C.InvMixColumns(s)[p]
    {
      InvMixProductEntry(s, p);
    }
  }

  method MixColumns(state: array2<bv8>)
    requires State(state)
    modifies state
    ensures Flat(state) == C.MixColumns(old(Flat(state)))
  {
    MixProduct(Flat(state));
    MultiplyColumns(state, Cmds);
  }

  method InvMixColumns(state: array2<bv8>)
    requires State(state)
    modifies state
    ensures Flat(state) == C.InvMixColumns(old(Flat(state)))
  {
    InvMixProduct(Flat(state));
    MultiplyColumns(state, InvCmds);
  }
}
