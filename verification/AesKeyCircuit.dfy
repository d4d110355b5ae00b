/** The inverse column module behind its reversed ports, and the word-level key schedule. */
module AesKeyCircuit {
  import opened AesField
  import opened AesNets
  import opened AesCircuit
  import opened AesColumns
  import opened AesTables
  import C = AesCipher

  // ---------- inverseMixColumns.v: ports declared [0:127] ----------

  /** The part-select x[base +: 8] of a vector declared [0:127] and driven by a [127:0] one:
      index p is wire 127 - p, and the lowest index is the most significant bit. */
  function PortByte(x: Bus, base: nat): bv8
    requires base <= 120
  {
    ToByte(x[127 - base], x[126 - base], x[125 - base], x[124 - base], x[123 - base], x[122 - base], x[121 - base], x[120 - base])
  }

  lemma PortLane(x: Bus, base: nat, g: nat)
    requires base + 8 * g == 120
    ensures PortByte(x, base) == Lane(x, g)
  {
  }

  /** Column i of the generate loop, rows from part-selects 24, 16, 8 and 0 of its 32 indices. */
  function PortColumn(x: Bus, i: nat): C.Word
    requires i < 4
  {
    [PortByte(x, 32 * i + 24), PortByte(x, 32 * i + 16), PortByte(x, 32 * i + 8), PortByte(x, 32 * i)]
  }

  /** The four rows of loop index i leave through the same part-selects of z, so index 3
      drives the lowest four bytes of the output bus. */
  function InvMixColumns(x: Bus): Bus {
    Pack(InvMixModule(PortColumn(x, 3)) + InvMixModule(PortColumn(x, 2)) + InvMixModule(PortColumn(x, 1)) + InvMixModule(PortColumn(x, 0)))
  }

  lemma LaneOf(x: Bus, g: nat)
    requires g < 16
    ensures Lanes(x)[g] == Lane(x, g)
  {
  }

  lemma PortRow(x: Bus, i: nat, c: nat, r: nat)
    requires i + c == 3 && r < 4
    ensures PortColumn(x, i)[r] == Lanes(x)[4 * c + r]
  {
    LaneOf(x, 4 * c + r);
    PortLane(x, 32 * i + 8 * (3 - r), 4 * c + r);
  }

  lemma PortColumnIs(x: Bus, i: nat, c: nat)
    requires i + c == 3
    ensures PortColumn(x, i) == ColumnLanes(x, c)
  {
    PortRow(x, i, c, 0);
    PortRow(x, i, c, 1);
    PortRow(x, i, c, 2);
    PortRow(x, i, c, 3);
  }

  lemma InvColumn(s: C.Block, i: nat, c: nat)
    requires i + c == 3
    ensures InvMixModule(PortColumn(Wires(s), i)) == C.InvMixColumn(C.Column(s, c))
  {
    PortColumnIs(Wires(s), i, c);
    ColumnWires(s, c);
    InvMixModuleCorrect(C.Column(s, c));
  }

  lemma InvMixColumnsAgrees(s: C.Block)
    ensures InvMixColumns(Wires(s)) == Wires(C.InvMixColumns(s))
  {
    InvColumn(s, 3, 0);
    InvColumn(s, 2, 1);
    InvColumn(s, 1, 2);
    InvColumn(s, 0, 3);
  }

  // ---------- KeyExpansion.v ----------

  /** wire [31:0]. */
  type WordBus = x: seq<bool> | |x| == 32 witness seq(32, i => false)

  function WordWires(a: C.Word): WordBus { Pack(a) }

  const RCon: seq<bv8> := [0x01, 0x02, 0x04, 0x08, 0x10, 0x20, 0x40, 0x80, 0x1b, 0x36]

  /** {w[7:0], w[31:8]}. */
  function Rotated(w: WordBus): WordBus { w[8..] + w[..8] }

  /** The word goes through the top of a SubBytes instance whose other inputs are zero. */
  function Substituted(w: WordBus): WordBus { SubBytes(seq(96, i => false) + w)[96..] }

  /** {q[31:8], rcon ^ q[7:0]}. */
  function WithRCon(q: WordBus, rcon: bv8): WordBus { XorNets(Pack([rcon]), q[..8]) + q[8..] }

  function KeyWires(key: Bus, i: nat): WordBus
    requires i < 44
  {
    if i < 4 then key[32 * i..32 * i + 32]
    else if i % 4 == 0 then
      XorNets(KeyWires(key, i - 4), WithRCon(Substituted(Rotated(KeyWires(key, i - 1))), RCon[i / 4 - 1]))
    else XorNets(KeyWires(key, i - 1), KeyWires(key, i - 4))
  }

  lemma JoinedBit(s: seq<bv8>, t: seq<bv8>, i: nat, k: nat)
    requires i < |s + t| && k < 8
    ensures Pack(s + t)[8 * i + k] == (Pack(s) + Pack(t))[8 * i + k]
  {
    PackedBit(s + t, i, k);
    if i < |s| {
      PackedBit(s, i, k);
    } else {
      PackedBit(t, i - |s|, k);
    }
  }

  lemma PackJoin(s: seq<bv8>, t: seq<bv8>)
    ensures Pack(s + t) == Pack(s) + Pack(t)
  {
    forall j | 0 <= j < 8 * |s + t|
      ensures Pack(s + t)[j] == (Pack(s) + Pack(t))[j]
    {
      assert j == 8 * (j / 8) + j % 8;
      JoinedBit(s, t, j / 8, j % 8);
    }
  }

  lemma PackSlice(s: seq<bv8>, i: nat, j: nat)
    requires i <= j <= |s|
    ensures Pack(s)[8 * i..8 * j] == Pack(s[i..j])
  {
    PackJoin(s[..i], s[i..j]);
    PackJoin(s[..i] + s[i..j], s[j..]);
    assert s == s[..i] + s[i..j] + s[j..];
  }

  lemma RotatedAgrees(a: C.Word)
    ensures Rotated(WordWires(a)) == WordWires(C.RotWord(a))
  {
    PackSlice(a, 0, 1);
    PackSlice(a, 1, 4);
    PackJoin(a[1..4], a[0..1]);
    assert a[1..4] + a[0..1] == C.RotWord(a);
  }

  lemma ZeroWires()
    ensures seq(96, i => false) == Pack(seq(12, i => 0))
  {
    var z: seq<bv8> := seq(12, i => 0);
    forall j | 0 <= j < 96
      ensures Pack(z)[j] == false
    {
      assert z[j / 8] == 0;
    }
  }

  /** Whatever the table: the top word of a padded block is substituted as a word. */
  lemma PaddedWord(table: seq<seq<bv8>>, zeros: seq<bv8>, a: C.Word)
    requires |zeros| == 12 && Square(table)
    ensures C.Substituted(table, zeros + a)[12..16] == C.SubstitutedWord(table, a)
  {
    assert forall r :: 0 <= r < 4 ==> (zeros + a)[12 + r] == a[r];
  }

  lemma SubstitutedTop(zeros: seq<bv8>, a: C.Word)
    requires |zeros| == 12
    ensures |Pack(zeros + a)| == 128 && SubBytes(Pack(zeros + a))[96..] == WordWires(C.SubWord(a))
  {
    var s := C.SubBytes(zeros + a);
    SubBytesAgrees(zeros + a);
    PaddedWord(Sbox, zeros, a);
    PackSlice(s, 12, 16);
    assert Pack(s)[8 * 12..8 * 16] == Pack(s)[96..];
  }

  lemma SubstitutedAgrees(a: C.Word)
    ensures Substituted(WordWires(a)) == WordWires(C.SubWord(a))
  {
    var zeros: seq<bv8> := seq(12, i => 0);
    ZeroWires();
    PackJoin(zeros, a);
    SubstitutedTop(zeros, a);
  }

  lemma RConAgrees(n: nat)
    requires n < 10
    ensures RCon[n] == C.RconByte(n + 1)
  {
    if n > 0 {
      RConAgrees(n - 1);
    }
  }

  lemma WithRConAgrees(a: C.Word, rcon: bv8)
    ensures WithRCon(WordWires(a), rcon) == WordWires(C.AddWords(a, [rcon, 0, 0, 0]))
  {
    PackSlice(a, 0, 1);
    PackSlice(a, 1, 4);
    AddComm(rcon, a[0]);
    XorPacked([rcon], a[0..1], [Add(a[0], rcon)]);
    PackJoin([Add(a[0], rcon)], a[1..4]);
    AddSelf(a[1]);
    AddSelf(a[2]);
    AddSelf(a[3]);
    assert [Add(a[0], rcon)] + a[1..4] == C.AddWords(a, [rcon, 0, 0, 0]);
  }

  lemma XorWordsAgree(a: C.Word, b: C.Word)
    ensures XorNets(WordWires(a), WordWires(b)) == WordWires(C.AddWords(a, b))
  {
    XorPacked(a, b, C.AddWords(a, b));
  }

  lemma AddWordsComm(a: C.Word, b: C.Word)
    ensures C.AddWords(a, b) == C.AddWords(b, a)
  {
    AddComm(a[0], b[0]);
    AddComm(a[1], b[1]);
    AddComm(a[2], b[2]);
    AddComm(a[3], b[3]);
  }

  lemma CoreAgrees(a: C.Word, i: nat)
    requires 4 <= i < 44 && i % 4 == 0
    ensures WithRCon(Substituted(Rotated(WordWires(a))), RCon[i / 4 - 1]) == WordWires(C.Mangled(a, 4, i))
  {
    RotatedAgrees(a);
    SubstitutedAgrees(C.RotWord(a));
    RConAgrees(i / 4 - 1);
    WithRConAgrees(C.SubWord(C.RotWord(a)), RCon[i / 4 - 1]);
  }

  /** The generate loop's recurrence, as the byte-level schedule states it. */
  lemma NextWires(key: Bus, i: nat, back: C.Word, previous: C.Word)
    requires 4 <= i < 44 && KeyWires(key, i - 4) == WordWires(back) && KeyWires(key, i - 1) == WordWires(previous)
    ensures KeyWires(key, i) == WordWires(C.AddWords(back, C.Mangled(previous, 4, i)))
  {
    if i % 4 == 0 {
      CoreAgrees(previous, i);
      XorWordsAgree(back, C.Mangled(previous, 4, i));
    } else {
      XorWordsAgree(previous, back);
      AddWordsComm(previous, back);
    }
  }

  lemma KeyWordStep(key: C.Block, i: nat)
    requires 4 <= i
    ensures C.KeyWord(key, 4, i) == C.AddWords(C.KeyWord(key, 4, i - 4), C.Mangled(C.KeyWord(key, 4, i - 1), 4, i))
  {
  }

  lemma FirstWires(key: C.Block, i: nat)
    requires i < 4
    ensures KeyWires(Wires(key), i) == WordWires(C.KeyWord(key, 4, i))
  {
    PackSlice(key, 4 * i, 4 * i + 4);
    assert 8 * (4 * i) == 32 * i && 8 * (4 * i + 4) == 32 * i + 32;
  }

  lemma LaterWires(key: C.Block, i: nat, back: C.Word, previous: C.Word)
    requires 4 <= i < 44 && back == C.KeyWord(key, 4, i - 4) && previous == C.KeyWord(key, 4, i - 1)
    requires KeyWires(Wires(key), i - 4) == WordWires(back) && KeyWires(Wires(key), i - 1) == WordWires(previous)
    ensures KeyWires(Wires(key), i) == WordWires(C.KeyWord(key, 4, i))
  {
    NextWires(Wires(key), i, back, previous);
    KeyWordStep(key, i);
  }

  /** The word-level schedule of the circuit is the byte-level one of the program. */
  lemma {:induction false} KeyWiresAgree(key: C.Block, i: nat)
    requires i < 44
    ensures KeyWires(Wires(key), i) == WordWires(C.KeyWord(key, 4, i))
    decreases i
  {
    if i < 4 {
      FirstWires(key, i);
    } else {
      KeyWiresAgree(key, i - 4);
      KeyWiresAgree(key, i - 1);
      LaterWires(key, i, C.KeyWord(key, 4, i - 4), C.KeyWord(key, 4, i - 1));
    }
  }
}
