/** The HOGE accelerator path: one kernel whose arguments and input buffers keep their
    last values between launches. */
module Hoge {
  import opened ModQ
  import opened Gates

  /** The kernel's encoding of a coefficient, or of an offset in units of μ. */
  function Scale(index: nat): int {
    match index
    case 0 => 1
    case 1 => 2
    case 2 => -1
    case _ => -2
  }

  /** The index the gate wrapper picks for a coefficient or offset. */
  function IndexOf(c: int): nat {
    if c < 0 then (if c == -2 then 3 else 2) else (if c == 2 then 1 else 0)
  }

  lemma IndexRoundTrip(g: BinaryGate)
    ensures var r := RowOf(g);
            Scale(IndexOf(r.ca)) == r.ca && Scale(IndexOf(r.cb)) == r.cb && Scale(IndexOf(r.offset)) == r.offset
  {
  }

  class Device {
    const n: nat
    const mu: int
    const boot: Ciphertext -> Ciphertext
    // Host-side staging buffers.
    var stageA: array<int>
    var stageB: array<int>
    var stageResult: array<int>
    // What the kernel holds: three scalar arguments and two input buffers.
    var scaleA: nat
    var scaleB: nat
    var offset: nat
    var deviceA: seq<int>
    var deviceB: seq<int>

    ghost predicate Valid()
      reads this
    {
      && mu > 0
      && stageA.Length == stageB.Length == stageResult.Length == n + 1
      && stageA != stageB && stageA != stageResult && stageB != stageResult
      && |deviceA| == |deviceB| == n + 1
      && (forall c :: |c| == n + 1 ==> |boot(c)| == n + 1)
    }

    constructor (n: nat, mu: int, boot: Ciphertext -> Ciphertext)
      requires mu > 0 && forall c :: |c| == n + 1 ==> |boot(c)| == n + 1
      ensures Valid() && this.n == n && this.mu == mu && this.boot == boot
      ensures fresh(stageA) && fresh(stageB) && fresh(stageResult)
    {
      this.n, this.mu, this.boot := n, mu, boot;
      stageA, stageB, stageResult := new int[n + 1], new int[n + 1], new int[n + 1];
      scaleA, scaleB, offset := 0, 0, 0;
      deviceA, deviceB := seq(n + 1, _ => 0), seq(n + 1, _ => 0);
    }

    /** Copy one buffer into another word by word. */
    static method Copy(destination: array<int>, source: array<int>)
      requires destination.Length == source.Length
      modifies destination
      ensures destination[..] == old(source[..])
    {
      for i := 0 to source.Length
        invariant destination[..i] == old(source[..])[..i]
        invariant forall k :: i <= k < source.Length ==> source[k] == old(source[k])
      {
        destination[i] := source[i];
      }
    }

    static method AddInto(sum: array<int>, addend: array<int>, mu: int)
      requires mu > 0 && sum.Length == addend.Length && sum != addend
      modifies sum
      ensures forall k :: 0 <= k < sum.Length ==> sum[k] == Word(old(sum[k]) + addend[k], mu)
    {
      for i := 0 to sum.Length
        invariant forall k :: 0 <= k < i ==> sum[k] == Word(old(sum[k]) + addend[k], mu)
        invariant forall k :: i <= k < sum.Length ==> sum[k] == old(sum[k])
      {
        sum[i] := Word(sum[i] + addend[i], mu);
      }
    }

    static method NegateDifference(left: array<int>, right: array<int>, mu: int)
      requires mu > 0 && left.Length == right.Length && left != right
      modifies left
      ensures forall k :: 0 <= k < left.Length ==> left[k] == Word(-(old(left[k]) - right[k]), mu)
    {
      for i := 0 to left.Length
        invariant forall k :: 0 <= k < i ==> left[k] == Word(-(old(left[k]) - right[k]), mu)
        invariant forall k :: i <= k < left.Length ==> left[k] == old(left[k])
      {
        left[i] := Word(-(left[i] - right[i]), mu);
      }
    }

    ghost function Launched(): (c: Ciphertext)
      requires Valid()
      reads this
      ensures |c| == n + 1
    {
      boot(Combine(Scale(scaleA), deviceA, Scale(scaleB), deviceB, Scale(offset) * mu, mu))
    }

    /** Launch the kernel and bring its result back. */
    method Launch()
      requires Valid()
      modifies stageResult
      ensures stageResult[..] == Launched()
    {
      var result := boot(Combine(Scale(scaleA), deviceA, Scale(scaleB), deviceB, Scale(offset) * mu, mu));
      for i := 0 to n + 1
        invariant stageResult[..i] == result[..i]
      {
        stageResult[i] := result[i];
      }
    }

    ghost predicate Apart(output: array<int>)
      reads this
    {
      output != stageA && output != stageB && output != stageResult
    }

    /** A two-input gate: equals the CPU wrapper on the same row. */
    method Gate(g: BinaryGate, output: array<int>, left: array<int>, right: array<int>)
      requires Valid() && output.Length == left.Length == right.Length == n + 1
      requires Apart(output) && Apart(left) && Apart(right) && output != left && output != right
      modifies this`scaleA, this`scaleB, this`offset, this`deviceA, this`deviceB
      modifies output, stageA, stageB, stageResult
      ensures Valid()
      ensures output[..] == boot(Linear(g, old(left[..]), old(right[..]), mu))
    {
      Copy(stageA, left);
      Copy(stageB, right);
      var r := RowOf(g);
      IndexRoundTrip(g);
      scaleA, scaleB, offset := IndexOf(r.ca), IndexOf(r.cb), IndexOf(r.offset);
      deviceA, deviceB := stageA[..], stageB[..];
      Launch();
      Copy(output, stageResult);
    }

    /** Both passes of the MUX wrapper. The second pass sets only the sign of the select
        operand and uploads only the second operand: the other arguments and the select
        ciphertext are those left by the first pass. */
    method MuxPasses(output: array<int>, select: array<int>, whenTrue: array<int>, whenFalse: array<int>)
      requires Valid() && output.Length == select.Length == whenTrue.Length == whenFalse.Length == n + 1
      requires Apart(output) && Apart(select) && Apart(whenTrue) && Apart(whenFalse)
      requires output != select && output != whenTrue && output != whenFalse
      modifies this`scaleA, this`scaleB, this`offset, this`deviceA, this`deviceB
      modifies output, stageA, stageB, stageResult
      ensures Valid()
      ensures output[..] == boot(Combine(1, old(select[..]), 1, old(whenTrue[..]), -mu, mu))
      ensures stageResult[..] == boot(Combine(-1, old(select[..]), 1, old(whenFalse[..]), -mu, mu))
    {
      FirstPass(select, whenTrue);
      Copy(output, stageResult);
      SecondPass(whenFalse);
    }

    method FirstPass(select: array<int>, whenTrue: array<int>)
      requires Valid() && select.Length == whenTrue.Length == n + 1 && Apart(select) && Apart(whenTrue)
      modifies this`scaleA, this`scaleB, this`offset, this`deviceA, this`deviceB
      modifies stageA, stageB, stageResult
      ensures Valid() && scaleB == 0 && offset == 2 && deviceA == old(select[..])
      ensures stageResult[..] == boot(Combine(1, old(select[..]), 1, old(whenTrue[..]), -mu, mu))
    {
      Copy(stageA, select);
      Copy(stageB, whenTrue);
      scaleA, scaleB, offset := 0, 0, 2;
      deviceA, deviceB := stageA[..], stageB[..];
      Launch();
    }

    method SecondPass(whenFalse: array<int>)
      requires Valid() && whenFalse.Length == n + 1 && Apart(whenFalse) && scaleB == 0 && offset == 2 && |deviceA| == n + 1
      modifies this`scaleA, this`deviceB, stageB, stageResult
      ensures Valid()
      ensures stageResult[..] == boot(Combine(-1, old(deviceA), 1, old(whenFalse[..]), -mu, mu))
    {
      Copy(stageB, whenFalse);
      scaleA := 2;
      deviceB := stageB[..];
      Launch();
    }

    method Mux(output: array<int>, select: array<int>, whenTrue: array<int>, whenFalse: array<int>)
      requires Valid() && output.Length == select.Length == whenTrue.Length == whenFalse.Length == n + 1
      requires Apart(output) && Apart(select) && Apart(whenTrue) && Apart(whenFalse)
      requires output != select && output != whenTrue && output != whenFalse
      modifies this`scaleA, this`scaleB, this`offset, this`deviceA, this`deviceB
      modifies output, stageA, stageB, stageResult
      ensures Valid()
      ensures output[..] == MuxResult(old(select[..]), old(whenTrue[..]), old(whenFalse[..]), boot, mu)
    {
      MuxPasses(output, select, whenTrue, whenFalse);
      ghost var r1, r0 := output[..], stageResult[..];
      AddInto(output, stageResult, mu);
      output[n] := Word(output[n] + mu, mu);
      AddTwice(r1[n] + r0[n], mu);
      assert output[..] == Combine(1, r1, 1, r0, mu, mu);
    }

    method NegatedMux(output: array<int>, select: array<int>, whenTrue: array<int>, whenFalse: array<int>)
      requires Valid() && output.Length == select.Length == whenTrue.Length == whenFalse.Length == n + 1
      requires Apart(output) && Apart(select) && Apart(whenTrue) && Apart(whenFalse)
      requires output != select && output != whenTrue && output != whenFalse
      modifies this`scaleA, this`scaleB, this`offset, this`deviceA, this`deviceB
      modifies output, stageA, stageB, stageResult
      ensures Valid()
      ensures output[..] == NegatedMuxResult(old(select[..]), old(whenTrue[..]), old(whenFalse[..]), boot, mu)
    {
      MuxPasses(output, select, whenTrue, whenFalse);
      ghost var r1, r0 := output[..], stageResult[..];
      NegateDifference(output, stageResult, mu);
      output[n] := Word(output[n] - mu, mu);
      SubtractTwice(-(r1[n] - r0[n]), mu);
      assert output[..] == Combine(-1, r1, 1, r0, -mu, mu);
    }
  }

  lemma AddTwice(x: int, mu: int)
    requires mu > 0
    ensures Word(Word(x, mu) + mu, mu) == Word(x + mu, mu)
  {
    WordOfWord(x, mu, mu);
  }

  lemma SubtractTwice(x: int, mu: int)
    requires mu > 0
    ensures Word(Word(x, mu) - mu, mu) == Word(x - mu, mu)
  {
    WordOfWord(x, -mu, mu);
  }

  lemma WordOfWord(x: int, d: int, mu: int)
    requires mu > 0
    ensures Word(Word(x, mu) + d, mu) == Word(x + d, mu)
  {
    var q := 8 * mu;
    var k := WordWitness(x, mu);
    var w := WordWitness(Word(x, mu) + d, mu);
    Distribute(q, k, w);
    DivUnique(x + d, q, k + w, Word(Word(x, mu) + d, mu));
  }

  /** Both bootstrapped halves of a selection. */
  function FirstHalf(s: Ciphertext, c1: Ciphertext, boot: Ciphertext -> Ciphertext, mu: int): Ciphertext
    requires mu > 0 && |s| == |c1| > 0
  {
    boot(Combine(1, s, 1, c1, -mu, mu))
  }

  function SecondHalf(s: Ciphertext, c0: Ciphertext, boot: Ciphertext -> Ciphertext, mu: int): Ciphertext
    requires mu > 0 && |s| == |c0| > 0
  {
    boot(Combine(-1, s, 1, c0, -mu, mu))
  }

  function MuxResult(s: Ciphertext, c1: Ciphertext, c0: Ciphertext, boot: Ciphertext -> Ciphertext, mu: int): Ciphertext
    requires mu > 0 && |s| == |c1| == |c0| > 0
  {
    var r1, r0 := FirstHalf(s, c1, boot, mu), SecondHalf(s, c0, boot, mu);
    if |r1| == |r0| > 0 then Combine(1, r1, 1, r0, mu, mu) else []
  }

  function NegatedMuxResult(s: Ciphertext, c1: Ciphertext, c0: Ciphertext, boot: Ciphertext -> Ciphertext, mu: int): Ciphertext
    requires mu > 0 && |s| == |c1| == |c0| > 0
  {
    var r1, r0 := FirstHalf(s, c1, boot, mu), SecondHalf(s, c0, boot, mu);
    if |r1| == |r0| > 0 then Combine(-1, r1, 1, r0, -mu, mu) else []
  }

  /** The three operands of a selection encrypt their bits with noise at most `bound`. */
  predicate Operands(s: Ciphertext, c1: Ciphertext, c0: Ciphertext, key: Key, x: bool, y1: bool, y0: bool, bound: int, mu: int) {
    Encodes(s, key, x, bound, mu) && Encodes(c1, key, y1, bound, mu) && Encodes(c0, key, y0, bound, mu)
  }

  lemma PassesEncode(s: Ciphertext, c1: Ciphertext, c0: Ciphertext, boot: Ciphertext -> Ciphertext, key: Key,
                     x: bool, y1: bool, y0: bool, bound: int, bootBound: int, margin: int, mu: int)
    requires Operands(s, c1, c0, key, x, y1, y0, bound, mu)
    requires 0 <= bound && 0 <= margin && 2 * bound + margin < mu && Bootstraps(boot, key, bootBound, margin, mu)
    ensures Encodes(FirstHalf(s, c1, boot, mu), key, x && y1, bootBound, mu)
    ensures Encodes(SecondHalf(s, c0, boot, mu), key, !x && y0, bootBound, mu)
  {
    BinaryGateCorrect(AND, s, c1, boot, key, x, y1, bound, bootBound, margin, mu);
    BinaryGateCorrect(ANDNY, s, c0, boot, key, x, y0, bound, bootBound, margin, mu);
  }

  /** The two-pass MUX encrypts the selected bit. Its operands only need to fit the row; the
      result's noise is that of the two bootstraps added up, whatever the operands' was. */
  lemma MuxCorrect(s: Ciphertext, c1: Ciphertext, c0: Ciphertext, boot: Ciphertext -> Ciphertext, key: Key,
                   x: bool, y1: bool, y0: bool, bound: int, bootBound: int, margin: int, mu: int)
    requires Operands(s, c1, c0, key, x, y1, y0, bound, mu)
    requires 0 <= bound && 0 <= margin && 2 * bound + margin < mu && Bootstraps(boot, key, bootBound, margin, mu)
    ensures Encodes(MuxResult(s, c1, c0, boot, mu), key, if x then y1 else y0, 2 * bootBound, mu)
  {
    PassesEncode(s, c1, c0, boot, key, x, y1, y0, bound, bootBound, margin, mu);
    var r1, r0 := FirstHalf(s, c1, boot, mu), SecondHalf(s, c0, boot, mu);
    var k, e := CombineNear(1, r1, 1, r0, mu, mu, key, x && y1, !x && y0, bootBound);
    var picked := if x then y1 else y0;
    assert Message(x && y1, mu) + Message(!x && y0, mu) + mu == Message(picked, mu);
    if 4 * bootBound < 8 * mu {
      NearFromWitness(Phase(MuxResult(s, c1, c0, boot, mu), key), Message(picked, mu), 2 * bootBound, 8 * mu, k, e);
    }
  }

  /** The negated variant is not an NMUX: what it leaves decrypts to `!x && y0`, which is the
      negated selection exactly when the select and the first operand are both true. */
  lemma NegatedMuxDecides(s: Ciphertext, c1: Ciphertext, c0: Ciphertext, boot: Ciphertext -> Ciphertext, key: Key,
                          x: bool, y1: bool, y0: bool, bound: int, bootBound: int, margin: int, mu: int)
    requires Operands(s, c1, c0, key, x, y1, y0, bound, mu)
    requires 0 <= bound && 0 <= margin && 2 * bound + margin < mu && Bootstraps(boot, key, bootBound, margin, mu)
    requires 0 <= bootBound && 2 * bootBound + margin < mu
    ensures var r := NegatedMuxResult(s, c1, c0, boot, mu);
            if !x && y0 then Upper(r, key, margin, mu) else Lower(r, key, margin, mu)
    ensures (!x && y0) == !(if x then y1 else y0) <==> x && y1
  {
    PassesEncode(s, c1, c0, boot, key, x, y1, y0, bound, bootBound, margin, mu);
    var r1, r0 := FirstHalf(s, c1, boot, mu), SecondHalf(s, c0, boot, mu);
    var k, e := CombineNear(-1, r1, 1, r0, -mu, mu, key, x && y1, !x && y0, bootBound);
    var p := Phase(NegatedMuxResult(s, c1, c0, boot, mu), key);
    if !x && y0 {
      Placed(p, 1, mu, k, e, 2 * bootBound, margin);
    } else {
      var m := if x && y1 then 5 else 7;
      Distribute(8 * mu, k, -1);
      Placed(p, m, mu, k - 1, e, 2 * bootBound, margin);
    }
  }
}
