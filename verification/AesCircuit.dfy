/** The combinational modules of the one-cycle AES-128 circuits, each against the step it
    implements.
 */
module AesCircuit {
  import opened AesNets
  import opened AesSbox
  import C = AesCipher

  /** wire [127:0]. */
  type Bus = x: seq<bool> | |x| == 128 witness seq(128, i => false)

  function Wires(s: C.Block): Bus { Pack(s) }

  // ---------- one S-box per byte ----------

  function MapLanes(f: bv8 -> bv8, x: Bus): Bus {
    Pack(seq(16, i requires 0 <= i < 16 => f(Lane(x, i))))
  }

  lemma MapWires(f: bv8 -> bv8, s: C.Block, t: C.Block)
    requires forall i :: 0 <= i < 16 ==> t[i] == f(s[i])
    ensures MapLanes(f, Wires(s)) == Wires(t)
  {
    var u := seq(16, i requires 0 <= i < 16 => f(Lane(Wires(s), i)));
    forall i | 0 <= i < 16
      ensures u[i] == t[i]
    {
      LanePack(s, i);
    }
    assert u == t;
  }

  function SubBytes(x: Bus): Bus { MapLanes(SboxModule, x) }

  function InvSubBytes(x: Bus): Bus { MapLanes(InvSboxModule, x) }

  lemma SubBytesAgrees(s: C.Block)
    ensures SubBytes(Wires(s)) == Wires(C.SubBytes(s))
  {
    forall i | 0 <= i < 16
      ensures C.SubBytes(s)[i] == SboxModule(s[i])
    {
      SboxCorrect(s[i]);
    }
    MapWires(SboxModule, s, C.SubBytes(s));
  }

  lemma InvSubBytesAgrees(s: C.Block)
    ensures InvSubBytes(Wires(s)) == Wires(C.InvSubBytes(s))
  {
    forall i | 0 <= i < 16
      ensures C.InvSubBytes(s)[i] == InvSboxModule(s[i])
    {
      InvSboxCorrect(s[i]);
    }
    MapWires(InvSboxModule, s, C.InvSubBytes(s));
  }

  // ---------- row shifts ----------

  function Reversed(x: Bus): Bus { seq(128, i requires 0 <= i < 128 => x[127 - i]) }

  /** Which group of eight wires stands in each place of the concatenation driving zr. */
  const Order: seq<nat> := [0, 5, 10, 15, 4, 9, 14, 3, 8, 13, 2, 7, 12, 1, 6, 11]

  /** xr is x reversed; w0 is its most significant wire; zr concatenates the wires in Order,
      most significant first; z is zr reversed. */
  function ShiftRows(x: Bus): Bus {
    var xr := Reversed(x);
    var w := seq(128, k requires 0 <= k < 128 => xr[127 - k]);
    var zr: Bus := seq(128, j requires 0 <= j < 128 =>
      var k := 127 - j;
      w[8 * Order[k / 8] + k % 8]);
    Reversed(zr)
  }

  /** The source byte of each byte of the inverse. */
  const InvOrder: seq<nat> := [0, 13, 10, 7, 4, 1, 14, 11, 8, 5, 2, 15, 12, 9, 6, 3]

  function InvShiftRows(x: Bus): Bus {
    seq(128, j requires 0 <= j < 128 => x[8 * InvOrder[j / 8] + j % 8])
  }

  lemma OrderIsLeft(g: nat)
    requires g < 16
    ensures Order[g] == C.Left(g)
  {
    C.LeftAt(g);
    assert Order == C.LeftOrder;
  }

  lemma InvOrderIsRight(g: nat)
    requires g < 16
    ensures InvOrder[g] == C.Right(g)
  {
    C.RightAt(g);
    assert InvOrder == C.RightOrder;
  }

  lemma ShiftedWire(x: Bus, g: nat, k: nat)
    requires g < 16 && k < 8
    ensures Order[g] < 16 && ShiftRows(x)[8 * g + k] == x[8 * Order[g] + k]
  {
    var j := 8 * g + k;
    assert j / 8 == g && j % 8 == k;
  }

  lemma ShiftRowsWire(s: C.Block, g: nat, k: nat)
    requires g < 16 && k < 8
    ensures ShiftRows(Wires(s))[8 * g + k] == Wires(C.ShiftRows(s))[8 * g + k]
  {
    OrderIsLeft(g);
    ShiftedWire(Wires(s), g, k);
    PackedBit(s, Order[g], k);
    PackedBit(C.ShiftRows(s), g, k);
  }

  lemma ShiftRowsAgrees(s: C.Block)
    ensures ShiftRows(Wires(s)) == Wires(C.ShiftRows(s))
  {
    forall j | 0 <= j < 128
      ensures ShiftRows(Wires(s))[j] == Wires(C.ShiftRows(s))[j]
    {
      var g, k := j / 8, j % 8;
      assert j == 8 * g + k;
      ShiftRowsWire(s, g, k);
    }
  }

  lemma InvShiftedWire(x: Bus, g: nat, k: nat)
    requires g < 16 && k < 8
    ensures InvOrder[g] < 16 && InvShiftRows(x)[8 * g + k] == x[8 * InvOrder[g] + k]
  {
    var j := 8 * g + k;
    assert j / 8 == g && j % 8 == k;
  }

  lemma InvShiftRowsWire(s: C.Block, g: nat, k: nat)
    requires g < 16 && k < 8
    ensures InvShiftRows(Wires(s))[8 * g + k] == Wires(C.InvShiftRows(s))[8 * g + k]
  {
    InvOrderIsRight(g);
    InvShiftedWire(Wires(s), g, k);
    PackedBit(s, InvOrder[g], k);
    PackedBit(C.InvShiftRows(s), g, k);
  }

  lemma InvShiftRowsAgrees(s: C.Block)
    ensures InvShiftRows(Wires(s)) == Wires(C.InvShiftRows(s))
  {
    forall j | 0 <= j < 128
      ensures InvShiftRows(Wires(s))[j] == Wires(C.InvShiftRows(s))[j]
    {
      var g, k := j / 8, j % 8;
      assert j == 8 * g + k;
      InvShiftRowsWire(s, g, k);
    }
  }

  // ---------- round keys ----------

  function AddRoundKey(x: Bus, y: Bus): Bus { XorNets(x, y) }

  lemma AddRoundKeyAgrees(s: C.Block, k: C.Block)
    ensures AddRoundKey(Wires(s), Wires(k)) == Wires(C.AddBlocks(s, k))
  {
    XorPacked(s, k, C.AddBlocks(s, k));
  }
}
