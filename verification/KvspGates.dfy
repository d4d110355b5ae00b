/** Boolean circuits on the asynchronous backend: the gate codelets it submits, and what
    any run of gate calls leaves in memory.
 */
module KvspGates {
  import opened Gates
  import EndToEnd
  import Runtime
  import opened Backend
  import opened BackendRuns
  import opened BackendData

  /** The coefficient rows of the eight two-input codelets, offsets in units of μ. */
  function IyokanRow(g: IyokanGate): Row {
    match g
    case GateAnd => Row(1, 1, -1)
    case GateNand => Row(-1, -1, 1)
    case GateAndNot => Row(1, -1, -1)
    case GateOr => Row(1, 1, 1)
    case GateNor => Row(-1, -1, -1)
    case GateOrNot => Row(1, -1, 1)
    case GateXor => Row(2, 2, 2)
    case GateXnor => Row(-2, -2, -2)
  }

  /** What each name promises. */
  function IyokanTruth(g: IyokanGate, x: bool, y: bool): bool {
    match g
    case GateAnd => x && y
    case GateNand => !(x && y)
    case GateAndNot => x && !y
    case GateOr => x || y
    case GateNor => !(x || y)
    case GateOrNot => x || !y
    case GateXor => x != y
    case GateXnor => x == y
  }

  /** The eight names against each other: the negated gates negate, and the two mixed ones negate
      their second operand. */
  lemma NamesRelate(x: bool, y: bool)
    ensures IyokanTruth(GateAnd, x, y) <==> x && y
    ensures IyokanTruth(GateOr, x, y) <==> !IyokanTruth(GateAnd, !x, !y)
    ensures IyokanTruth(GateXor, x, y) <==> IyokanTruth(GateOr, x, y) && !IyokanTruth(GateAnd, x, y)
    ensures IyokanTruth(GateNand, x, y) <==> !IyokanTruth(GateAnd, x, y)
    ensures IyokanTruth(GateNor, x, y) <==> !IyokanTruth(GateOr, x, y)
    ensures IyokanTruth(GateXnor, x, y) <==> !IyokanTruth(GateXor, x, y)
    ensures IyokanTruth(GateAndNot, x, y) <==> IyokanTruth(GateAnd, x, !y)
    ensures IyokanTruth(GateOrNot, x, y) <==> IyokanTruth(GateOr, x, !y)
  {
  }

  function LegacyName(g: IyokanGate): BinaryGate {
    match g
    case GateAnd => AND
    case GateNand => NAND
    case GateAndNot => ANDYN
    case GateOr => OR
    case GateNor => NOR
    case GateOrNot => ORYN
    case GateXor => XOR
    case GateXnor => XNOR
  }

  /** The key-dependent operations of one evaluation key. */
  datatype Keyed = Keyed(boot: Ciphertext -> Ciphertext, mux: (Ciphertext, Ciphertext, Ciphertext) -> Ciphertext)

  function GateOf(g: IyokanGate, boot: Ciphertext -> Ciphertext, a: Ciphertext, b: Ciphertext, mu: int): Ciphertext
    requires mu > 0
  {
    var r := IyokanRow(g);
    if |a| == |b| > 0 then boot(Combine(r.ca, a, r.cb, b, r.offset * mu, mu)) else []
  }

  /** The RAM codelets, which gate calls do not use. */
  datatype Ram = Ram(cmux: (Ciphertext, Ciphertext, Ciphertext) -> Ciphertext,
                     muxWoSE: (KeyId, Ciphertext, Ciphertext, Ciphertext) -> Ciphertext,
                     junk: Ciphertext)

  /** The codelets on ciphertexts. */
  function OnCiphertexts(keys: KeyId -> Keyed, ram: Ram, mu: int): Semantics<Ciphertext>
    requires mu > 0
  {
    Semantics((g, k, a, b) => GateOf(g, keys(k).boot, a, b, mu),
              a => Negated(a, mu),
              (k, s, t, f) => keys(k).mux(s, t, f),
              ram.cmux, ram.muxWoSE, ram.junk)
  }

  /** The same calls on bits; what RAM calls leave in variables plays no part. */
  function OnBits(): Semantics<bool> {
    Semantics((g, k, x, y) => IyokanTruth(g, x, y), x => !x, (k, s, t, f) => if s then t else f,
              (s, t, f) => false, (k, s, t, f) => false, false)
  }

  /** What is asked of an evaluation key: its bootstrap and its multiplexer work for z. */
  ghost predicate KeySound(keyed: Keyed, z: EndToEnd.Noise, mu: int) {
    Bootstraps(keyed.boot, z.key, z.bound, z.margin, mu) && EndToEnd.Muxes(keyed.mux, false, z, mu)
  }

  lemma IyokanGateCorrect(g: IyokanGate, boot: Ciphertext -> Ciphertext, z: EndToEnd.Noise, mu: int,
                          a: Ciphertext, b: Ciphertext, x: bool, y: bool)
    requires EndToEnd.Fits(z, mu) && Bootstraps(boot, z.key, z.bound, z.margin, mu)
    requires Encodes(a, z.key, x, z.bound, mu) && Encodes(b, z.key, y, z.bound, mu)
    ensures Encodes(GateOf(g, boot, a, b, mu), z.key, IyokanTruth(g, x, y), z.bound, mu)
  {
    BinaryGateCorrect(LegacyName(g), a, b, boot, z.key, x, y, z.bound, z.bound, z.margin, mu);
  }

  predicate GateCall(call: Call) { call.BinaryCall? || call.NotCall? || call.MuxCall? }

  predicate AllTlwe(addresses: seq<Address>) { forall k :: 0 <= k < |addresses| ==> addresses[k].Tlwe? }

  /** What the C++ types of the API functions say: gates work on TLWE values, and the two RAM
      calls write a TRLWE variable. */
  predicate Typed(call: Call) {
    if GateCall(call) then Output(call).Tlwe? && AllTlwe(Operands(call)) else Output(call).Variable?
  }

  ghost predicate AllTyped(calls: seq<Call>, keys: KeyId -> Keyed, z: EndToEnd.Noise, mu: int) {
    forall i :: 0 <= i < |calls| ==>
      Typed(calls[i]) && (GateCall(calls[i]) && KeyOf(calls[i]).Some? ==> KeySound(keys(KeyOf(calls[i]).value), z, mu))
  }

  /** Every TLWE value encrypts the bit at the same address. */
  ghost predicate Encrypts(memory: map<Address, Ciphertext>, bits: map<Address, bool>, z: EndToEnd.Noise, mu: int) {
    && memory.Keys == bits.Keys
    && (forall a :: a in memory && a.Tlwe? ==> Encodes(memory[a], z.key, bits[a], z.bound, mu))
  }

  /** The bit a gate call stands for, read off the call: left and right operand, input, or select,
      when true, when false. */
  function Bit(call: Call, bits: map<Address, bool>): bool
    requires GateCall(call) && forall a :: a in Named(call) ==> a in bits
  {
    match call
    case BinaryCall(g, o, l, r, k) =>
      assert Named(call) == [o, l, r];
      IyokanTruth(g, bits[l], bits[r])
    case NotCall(o, i) =>
      assert Named(call) == [o, i];
      !bits[i]
    case MuxCall(o, s, t, f, k) =>
      assert Named(call) == [o, s, t, f];
      if bits[s] then bits[t] else bits[f]
    case _ => false
  }

  lemma NamedExist(call: Call, objects: set<Address>)
    requires Exists(call, objects)
    ensures forall a :: a in Named(call) ==> a in objects
  {
  }

  /** Running a gate call's task on bits puts that bit in its output and changes nothing else. */
  lemma CallOnBits(call: Call, bits: map<Address, bool>)
    requires GateCall(call) && WellFormed(call) && forall a :: a in Named(call) ==> a in bits
    ensures Runtime.Apply(CallTask(OnBits(), call), bits) == bits[Output(call) := Bit(call, bits)]
  {
    assert Named(call)[0] == Output(call);
    assert forall k :: 0 <= k < |Operands(call)| ==> Named(call)[k + 1] == Operands(call)[k];
    ApplyIsUpdate(OnBits(), call, bits);
    ResultIsBit(call, bits);
  }

  lemma ResultIsBit(call: Call, bits: map<Address, bool>)
    requires GateCall(call) && Exists(call, bits.Keys)
    ensures (forall a :: a in Named(call) ==> a in bits) && Result(OnBits(), bits, call) == Bit(call, bits)
  {
    NamedExist(call, bits.Keys);
    match call
    case BinaryCall(g, o, l, r, k) => assert Operands(call) == [l, r];
    case NotCall(o, i) => assert Operands(call) == [i];
    case MuxCall(o, s, t, f, k) => assert Operands(call) == [s, t, f];
    case _ =>
  }

  lemma CallEncrypts(call: Call, keys: KeyId -> Keyed, ram: Ram, z: EndToEnd.Noise, mu: int,
                     memory: map<Address, Ciphertext>, bits: map<Address, bool>)
    requires EndToEnd.Fits(z, mu) && GateCall(call) && Typed(call) && (KeyOf(call).Some? ==> KeySound(keys(KeyOf(call).value), z, mu))
    requires Encrypts(memory, bits, z, mu) && Exists(call, memory.Keys)
    ensures forall a :: a in Named(call) ==> a in bits
    ensures Result(OnBits(), bits, call) == Bit(call, bits)
    ensures Encodes(Result(OnCiphertexts(keys, ram, mu), memory, call), z.key, Bit(call, bits), z.bound, mu)
  {
    ResultIsBit(call, bits);
    var x := Operands(call);
    assert x[0] in memory && x[0].Tlwe?;
    match call
    case BinaryCall(g, _, l, r, k) =>
      assert x[1] in memory && x[1].Tlwe?;
      IyokanGateCorrect(g, keys(k).boot, z, mu, memory[l], memory[r], bits[l], bits[r]);
    case NotCall(_, i) =>
      NotCorrect(memory[i], z.key, bits[i], z.bound, mu);
    case MuxCall(_, s, t, f, k) =>
      assert x[1] in memory && x[2] in memory && x[1].Tlwe? && x[2].Tlwe?;
      assert Encodes(memory[s], z.key, bits[s], z.bound, mu) && Encodes(memory[t], z.key, bits[t], z.bound, mu)
          && Encodes(memory[f], z.key, bits[f], z.bound, mu);
    case _ =>
  }

  /** Evaluating any sequence of calls, RAM calls among them, on encryptions evaluates the gate
      calls on the bits. */
  lemma {:induction false} FoldEncrypts(calls: seq<Call>, keys: KeyId -> Keyed, ram: Ram, z: EndToEnd.Noise, mu: int,
                                        memory: map<Address, Ciphertext>, bits: map<Address, bool>)
    requires EndToEnd.Fits(z, mu) && AllTyped(calls, keys, z, mu)
    requires Encrypts(memory, bits, z, mu) && AllExist(calls, memory.Keys)
    ensures Encrypts(Fold(OnCiphertexts(keys, ram, mu), calls, memory), Fold(OnBits(), calls, bits), z, mu)
  {
    if calls != [] {
      var n := |calls| - 1;
      FoldEncrypts(calls[..n], keys, ram, z, mu, memory, bits);
      var m0, b0 := Fold(OnCiphertexts(keys, ram, mu), calls[..n], memory), Fold(OnBits(), calls[..n], bits);
      if GateCall(calls[n]) {
        CallEncrypts(calls[n], keys, ram, z, mu, m0, b0);
      }
    }
  }

  /** Whatever the threads, captures, RAM calls and schedule: once the calls of a run have all
      completed, every TLWE value encrypts what the gate calls compute on bits, in submission
      order. */
  lemma KvspRunEncrypts(keys: KeyId -> Keyed, ram: Ram, z: EndToEnd.Noise, mu: int,
                        memory: map<Address, Ciphertext>, bits: map<Address, bool>, es: seq<BackendRuns.Event>)
    requires EndToEnd.Fits(z, mu) && Encrypts(memory, bits, z, mu)
    requires Trace(OnCiphertexts(keys, ram, mu), Boot(memory), es).Some?
    requires var m := Trace(OnCiphertexts(keys, ram, mu), Boot(memory), es).value;
             AllCompleted(m) && AllExist(Accepted(m.api), memory.Keys) && AllTyped(Accepted(m.api), keys, z, mu)
    ensures var m := Trace(OnCiphertexts(keys, ram, mu), Boot(memory), es).value;
            Encrypts(m.memory, Fold(OnBits(), Accepted(m.api), bits), z, mu)
  {
    var sem := OnCiphertexts(keys, ram, mu);
    var m := Trace(sem, Boot(memory), es).value;
    DrainedRunIsFold(sem, memory, es);
    FoldEncrypts(Accepted(m.api), keys, ram, z, mu, memory, bits);
  }
}
