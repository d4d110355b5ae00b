/** Verilog vectors of wires, least significant bit first, and the bytes they carry. */
module AesNets {
  import opened AesField

  type Net = x: seq<bool> | |x| % 8 == 0

  function ToByte(b7: bool, b6: bool, b5: bool, b4: bool, b3: bool, b2: bool, b1: bool, b0: bool): bv8 {
    (if b7 then 0x80 else 0) | (if b6 then 0x40 else 0) | (if b5 then 0x20 else 0) | (if b4 then 0x10 else 0) |
    (if b3 then 0x08 else 0) | (if b2 then 0x04 else 0) | (if b1 then 0x02 else 0) | (if b0 then 0x01 else 0)
  }

  function BitOf(b: bv8, k: nat): bool
    requires k < 8
  {
    if k == 0 then b & 0x01 != 0 else if k == 1 then b & 0x02 != 0 else if k == 2 then b & 0x04 != 0
    else if k == 3 then b & 0x08 != 0 else if k == 4 then b & 0x10 != 0 else if k == 5 then b & 0x20 != 0
    else if k == 6 then b & 0x40 != 0 else b & 0x80 != 0
  }

  /** The part-select x[8 * i + 7 : 8 * i]. */
  function Lane(x: seq<bool>, i: nat): bv8
    requires 8 * i + 8 <= |x|
  {
    ToByte(x[8 * i + 7], x[8 * i + 6], x[8 * i + 5], x[8 * i + 4], x[8 * i + 3], x[8 * i + 2], x[8 * i + 1], x[8 * i])
  }

  /** The vector whose i-th byte is s[i]. */
  function Pack(s: seq<bv8>): (x: Net)
    ensures |x| == 8 * |s|
  {
    seq(8 * |s|, j requires 0 <= j < 8 * |s| => BitOf(s[j / 8], j % 8))
  }

  function Lanes(x: Net): (s: seq<bv8>)
    ensures 8 * |s| == |x|
  {
    seq(|x| / 8, i requires 0 <= i < |x| / 8 => Lane(x, i))
  }

  lemma ByteOfBits(b: bv8)
    ensures ToByte(BitOf(b, 7), BitOf(b, 6), BitOf(b, 5), BitOf(b, 4), BitOf(b, 3), BitOf(b, 2), BitOf(b, 1), BitOf(b, 0)) == b
  {
  }

  lemma BitsOfByte(b7: bool, b6: bool, b5: bool, b4: bool, b3: bool, b2: bool, b1: bool, b0: bool)
    ensures var b := ToByte(b7, b6, b5, b4, b3, b2, b1, b0);
            && BitOf(b, 7) == b7 && BitOf(b, 6) == b6 && BitOf(b, 5) == b5 && BitOf(b, 4) == b4
            && BitOf(b, 3) == b3 && BitOf(b, 2) == b2 && BitOf(b, 1) == b1 && BitOf(b, 0) == b0
  {
  }

  lemma PackedBit(s: seq<bv8>, i: nat, k: nat)
    requires i < |s| && k < 8
    ensures Pack(s)[8 * i + k] == BitOf(s[i], k)
  {
    var j := 8 * i + k;
    assert j / 8 == i && j % 8 == k;
  }

  lemma LaneOfBits(x: seq<bool>, i: nat, b: bv8)
    requires 8 * i + 8 <= |x| && forall k :: 0 <= k < 8 ==> x[8 * i + k] == BitOf(b, k)
    ensures Lane(x, i) == b
  {
    assert x[8 * i + 0] == BitOf(b, 0) && x[8 * i + 1] == BitOf(b, 1) && x[8 * i + 2] == BitOf(b, 2) && x[8 * i + 3] == BitOf(b, 3);
    assert x[8 * i + 4] == BitOf(b, 4) && x[8 * i + 5] == BitOf(b, 5) && x[8 * i + 6] == BitOf(b, 6) && x[8 * i + 7] == BitOf(b, 7);
    ByteOfBits(b);
  }

  lemma LanePack(s: seq<bv8>, i: nat)
    requires i < |s|
    ensures Lane(Pack(s), i) == s[i]
  {
    forall k | 0 <= k < 8
      ensures Pack(s)[8 * i + k] == BitOf(s[i], k)
    {
      PackedBit(s, i, k);
    }
    LaneOfBits(Pack(s), i, s[i]);
  }

  lemma LaneBit(x: seq<bool>, i: nat, k: nat)
    requires 8 * i + 8 <= |x| && k < 8
    ensures BitOf(Lane(x, i), k) == x[8 * i + k]
  {
    BitsOfByte(x[8 * i + 7], x[8 * i + 6], x[8 * i + 5], x[8 * i + 4], x[8 * i + 3], x[8 * i + 2], x[8 * i + 1], x[8 * i]);
  }

  /** Vectors of whole bytes and byte sequences are the same thing. */
  lemma PackLanes(x: Net)
    ensures Pack(Lanes(x)) == x
  {
    forall j | 0 <= j < |x|
      ensures Pack(Lanes(x))[j] == x[j]
    {
      LaneBit(x, j / 8, j % 8);
    }
  }

  lemma LanesPack(s: seq<bv8>)
    ensures Lanes(Pack(s)) == s
  {
    forall i | 0 <= i < |s|
      ensures Lanes(Pack(s))[i] == s[i]
    {
      LanePack(s, i);
    }
  }

  /** x ^ y on vectors. */
  function XorNets(x: seq<bool>, y: seq<bool>): (z: seq<bool>)
    requires |x| == |y|
    ensures |z| == |x|
  {
    seq(|x|, j requires 0 <= j < |x| => x[j] != y[j])
  }

  lemma XorBit(a: bv8, b: bv8, k: nat)
    requires k < 8
    ensures BitOf(Add(a, b), k) == (BitOf(a, k) != BitOf(b, k))
  {
    if k == 0 {
    } else if k == 1 {
    } else if k == 2 {
    } else if k == 3 {
    } else if k == 4 {
    } else if k == 5 {
    } else if k == 6 {
    }
  }

  lemma XorPacked(s: seq<bv8>, t: seq<bv8>, u: seq<bv8>)
    requires |s| == |t| == |u| && forall i :: 0 <= i < |s| ==> u[i] == Add(s[i], t[i])
    ensures XorNets(Pack(s), Pack(t)) == Pack(u)
  {
    forall j | 0 <= j < 8 * |s|
      ensures XorNets(Pack(s), Pack(t))[j] == Pack(u)[j]
    {
      XorBit(s[j / 8], t[j / 8], j % 8);
    }
  }
}
