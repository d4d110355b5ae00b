/** Every schedule the runtime may choose evaluates the circuit. */
module EndToEnd {
  import opened Options
  import opened Lists
  import opened Netlists
  import opened NetlistFacts
  import opened Gates
  import opened Runtime
  import opened TaskGraph

  // ---------- circuits as Boolean equations ----------

  function GateTruth(kind: Kind, args: seq<bool>): bool
    requires |args| == Arity(kind)
  {
    match kind
    case Not => !args[0]
    case Two(g) => Truth(g, args[0], args[1])
    case Mux => if args[0] then args[1] else args[2]
    case Nmux => !(if args[0] then args[1] else args[2])
    case Unsupported => false
  }

  /** A combinational circuit in submission order: supported gates, one driver per net,
      and each gate reading only inputs and outputs of earlier gates. */
  ghost predicate Circuit(n: Netlist) {
    && AllShaped(n)
    && (forall k :: 0 <= k < |n.gates| ==> KindOf(n.gates[k].name) != Unsupported)
    && (forall j, k :: 0 <= j < k < |n.gates| ==> n.gates[j].outs[0] != n.gates[k].outs[0])
    && (forall k :: 0 <= k < |n.gates| ==> n.gates[k].outs[0] !in n.inputs)
    && (forall k, b :: 0 <= k < |n.gates| && b in Operands(KindOf(n.gates[k].name), n.gates[k]) ==> Known(n, k, b))
  }

  /** An input, or driven by one of the first k gates. */
  ghost predicate Known(n: Netlist, k: nat, b: nat)
    requires k <= |n.gates| && AllShaped(n)
  {
    b in n.inputs || exists j :: 0 <= j < k && n.gates[j].outs[0] == b
  }

  function Bits(bits: seq<nat>, val: nat -> bool): (r: seq<bool>)
    ensures |r| == |bits|
  {
    seq(|bits|, i requires 0 <= i < |bits| => val(bits[i]))
  }

  ghost predicate Satisfied(g: Gate, val: nat -> bool)
    requires Shaped(g)
  {
    var kind := KindOf(g.name);
    val(g.outs[0]) == GateTruth(kind, Bits(Operands(kind, g), val))
  }

  /** `val` satisfies every gate's equation: it is what the circuit computes. */
  ghost predicate Solution(n: Netlist, val: nat -> bool)
    requires AllShaped(n)
  {
    forall k :: 0 <= k < |n.gates| ==> Satisfied(n.gates[k], val)
  }

  lemma EquationDecides(g: Gate, val: nat -> bool, other: nat -> bool)
    requires Shaped(g) && Satisfied(g, val) && Satisfied(g, other)
    requires var ops := Operands(KindOf(g.name), g);
             forall i :: 0 <= i < |ops| ==> val(ops[i]) == other(ops[i])
    ensures val(g.outs[0]) == other(g.outs[0])
  {
    var ops := Operands(KindOf(g.name), g);
    assert Bits(ops, val) == Bits(ops, other);
  }

  /** A circuit has at most one solution for given inputs. */
  lemma {:induction false} SolutionUnique(n: Netlist, val: nat -> bool, other: nat -> bool, k: nat, b: nat)
    requires Circuit(n) && Solution(n, val) && Solution(n, other) && k <= |n.gates| && Known(n, k, b)
    requires forall i :: i in n.inputs ==> val(i) == other(i)
    ensures val(b) == other(b)
    decreases k
  {
    if b !in n.inputs {
      var j :| 0 <= j < k && n.gates[j].outs[0] == b;
      var g := n.gates[j];
      var ops := Operands(KindOf(g.name), g);
      forall i | 0 <= i < |ops|
        ensures val(ops[i]) == other(ops[i])
      {
        assert ops[i] in ops;
        SolutionUnique(n, val, other, j, ops[i]);
      }
      assert Satisfied(g, val) && Satisfied(g, other);
      EquationDecides(g, val, other);
    }
  }

  ghost function GateValue(g: Gate, val: nat -> bool): bool
    requires Shaped(g)
  {
    GateTruth(KindOf(g.name), Bits(Operands(KindOf(g.name), g), val))
  }

  ghost function Solve(n: Netlist, inputs: nat -> bool, k: nat): nat -> bool
    requires AllShaped(n) && k <= |n.gates|
  {
    if k == 0 then inputs
    else
      var before := Solve(n, inputs, k - 1);
      var g := n.gates[k - 1];
      var value := GateValue(g, before);
      (b: nat) => if b == g.outs[0] then value else before(b)
  }

  lemma SolveStep(n: Netlist, inputs: nat -> bool, k: nat, b: nat)
    requires AllShaped(n) && k < |n.gates|
    ensures Solve(n, inputs, k + 1)(b) == if b == n.gates[k].outs[0] then GateValue(n.gates[k], Solve(n, inputs, k)) else Solve(n, inputs, k)(b)
  {
  }

  /** Net b is true after i gates. */
  ghost predicate At(n: Netlist, inputs: nat -> bool, b: nat, i: nat)
    requires AllShaped(n)
  {
    i <= |n.gates| && Solve(n, inputs, i)(b)
  }

  lemma AtNext(n: Netlist, inputs: nat -> bool, b: nat, k: nat)
    requires AllShaped(n) && k < |n.gates| && n.gates[k].outs[0] != b
    ensures At(n, inputs, b, k + 1) == At(n, inputs, b, k)
  {
    SolveStep(n, inputs, k, b);
  }

  /** No gate in between drives the net. */
  lemma {:induction false} AtStable(n: Netlist, inputs: nat -> bool, b: nat, j: nat, k: nat)
    requires AllShaped(n) && j <= k <= |n.gates|
    requires forall i :: j <= i < k ==> n.gates[i].outs[0] != b
    ensures At(n, inputs, b, k) == At(n, inputs, b, j)
    decreases k - j
  {
    if j < k {
      AtNext(n, inputs, b, j);
      AtStable(n, inputs, b, j + 1, k);
    }
  }

  lemma SolveStable(n: Netlist, inputs: nat -> bool, j: nat, k: nat, b: nat)
    requires AllShaped(n) && j <= k <= |n.gates|
    requires forall i :: j <= i < k ==> n.gates[i].outs[0] != b
    ensures Solve(n, inputs, k)(b) == Solve(n, inputs, j)(b)
  {
    AtStable(n, inputs, b, j, k);
  }

  lemma KnownNotRedriven(n: Netlist, j: nat, b: nat)
    requires Circuit(n) && j <= |n.gates| && Known(n, j, b)
    ensures forall i :: j <= i < |n.gates| ==> n.gates[i].outs[0] != b
  {
  }

  lemma OperandsSettled(n: Netlist, inputs: nat -> bool, k: nat, ops: seq<nat>)
    requires Circuit(n) && k <= |n.gates| && forall i :: 0 <= i < |ops| ==> Known(n, k, ops[i])
    ensures Bits(ops, Solve(n, inputs, |n.gates|)) == Bits(ops, Solve(n, inputs, k))
  {
    var val, before := Solve(n, inputs, |n.gates|), Solve(n, inputs, k);
    forall i | 0 <= i < |ops|
      ensures val(ops[i]) == before(ops[i])
    {
      KnownNotRedriven(n, k, ops[i]);
      SolveStable(n, inputs, k, |n.gates|, ops[i]);
    }
  }

  lemma SolveSatisfies(n: Netlist, inputs: nat -> bool, k: nat)
    requires Circuit(n) && k < |n.gates|
    ensures Satisfied(n.gates[k], Solve(n, inputs, |n.gates|))
  {
    var g := n.gates[k];
    var ops := Operands(KindOf(g.name), g);
    assert forall i :: 0 <= i < |ops| ==> ops[i] in ops;
    OperandsSettled(n, inputs, k, ops);
    SolveStep(n, inputs, k, g.outs[0]);
    SolveStable(n, inputs, k + 1, |n.gates|, g.outs[0]);
  }

  /** ... and it has one, extending any assignment of the inputs. */
  lemma SolutionExists(n: Netlist, inputs: nat -> bool)
    requires Circuit(n)
    ensures Solution(n, Solve(n, inputs, |n.gates|))
    ensures forall i :: i in n.inputs ==> Solve(n, inputs, |n.gates|)(i) == inputs(i)
  {
    forall k | 0 <= k < |n.gates|
      ensures Satisfied(n.gates[k], Solve(n, inputs, |n.gates|))
    {
      SolveSatisfies(n, inputs, k);
    }
    forall i | i in n.inputs
      ensures Solve(n, inputs, |n.gates|)(i) == inputs(i)
    {
      SolveStable(n, inputs, 0, |n.gates|, i);
    }
  }

  // ---------- one gate on ciphertexts ----------

  datatype Noise = Noise(key: Key, bound: int, margin: int)

  ghost predicate Muxes(mux: (Ciphertext, Ciphertext, Ciphertext) -> Ciphertext, negated: bool, z: Noise, mu: int) {
    forall s, c1, c0, x, y1, y0
      {:trigger mux(s, c1, c0), Encodes(s, z.key, x, z.bound, mu), Encodes(c1, z.key, y1, z.bound, mu),
                Encodes(c0, z.key, y0, z.bound, mu)} ::
      Encodes(s, z.key, x, z.bound, mu) && Encodes(c1, z.key, y1, z.bound, mu) && Encodes(c0, z.key, y0, z.bound, mu)
      ==> Encodes(mux(s, c1, c0), z.key, (if x then y1 else y0) != negated, z.bound, mu)
  }

  /** Two noises and the margin fit in μ. */
  predicate Fits(z: Noise, mu: int) {
    mu > 0 && 0 <= z.bound && 0 <= z.margin && 2 * z.bound + z.margin < mu
  }

  /** What is asked of the operations a gate of this kind uses on its worker. */
  ghost predicate Sound(ev: Evaluator, kind: Kind, z: Noise, mu: int) {
    && (kind.Two? ==> Bootstraps(ev.boot, z.key, z.bound, z.margin, mu))
    && (kind.Mux? ==> Muxes(ev.mux, false, z, mu))
    && (kind.Nmux? ==> Muxes(ev.nmux, true, z, mu))
  }

  /** Every gate runs on a worker whose operation for it is sound. */
  ghost predicate AllSound(n: Netlist, evs: seq<Evaluator>, z: Noise, mu: int) {
    && Fits(z, mu) && |evs| == |n.gates|
    && (forall k :: 0 <= k < |evs| ==> Sound(evs[k], KindOf(n.gates[k].name), z, mu))
  }

  lemma EvaluateCorrect(ev: Evaluator, z: Noise, mu: int, kind: Kind, args: seq<Ciphertext>, bits: seq<bool>)
    requires Fits(z, mu) && Sound(ev, kind, z, mu) && kind != Unsupported && |args| == |bits| == Arity(kind)
    requires forall i :: 0 <= i < |args| ==> Encodes(args[i], z.key, bits[i], z.bound, mu)
    ensures Encodes(Evaluate(ev, kind, args, mu), z.key, GateTruth(kind, bits), z.bound, mu)
  {
    match kind
    case Not =>
      NotCorrect(args[0], z.key, bits[0], z.bound, mu);
    case Two(g) =>
      assert Encodes(args[0], z.key, bits[0], z.bound, mu) && Encodes(args[1], z.key, bits[1], z.bound, mu);
      BinaryGateCorrect(g, args[0], args[1], ev.boot, z.key, bits[0], bits[1], z.bound, z.bound, z.margin, mu);
    case Mux =>
    case Nmux =>
  }

  // ---------- the whole graph, in submission order ----------

  /** Every net known after k gates has a slot, and its slot encrypts its value. */
  ghost predicate Encrypted(n: Netlist, z: Noise, mu: int, val: nat -> bool, k: nat, st: map<Slot, Ciphertext>)
    requires RegisterFree(n) && AllShaped(n) && k <= |n.gates|
  {
    forall b: nat {:trigger Known(n, k, b)} :: Known(n, k, b) ==>
      var s := SearchPointer(n, b);
      s.Some? && s.value in st && Encodes(st[s.value], z.key, val(b), z.bound, mu)
  }

  lemma {:induction false} SlotsOfKnown(n: Netlist, bits: seq<nat>)
    requires RegisterFree(n) && forall i :: 0 <= i < |bits| ==> SearchPointer(n, bits[i]).Some?
    ensures Slots(n, bits).Some? && |Slots(n, bits).value| == |bits|
    ensures forall i :: 0 <= i < |bits| ==> Some(Slots(n, bits).value[i]) == SearchPointer(n, bits[i])
  {
    if bits != [] {
      SlotsOfKnown(n, bits[1..]);
    }
  }

  lemma {:induction false} ValuesOfSome(view: seq<Option<Ciphertext>>)
    requires forall i :: 0 <= i < |view| ==> view[i].Some?
    ensures Values(view).Some? && |Values(view).value| == |view|
    ensures forall i :: 0 <= i < |view| ==> Values(view).value[i] == view[i].value
  {
    if view != [] {
      ValuesOfSome(view[1..]);
    }
  }

  /** Running a gate's task stores an encryption of the gate's output and nothing else. */
  lemma TaskStores(ev: Evaluator, z: Noise, mu: int, kind: Kind, output: Slot, inputs: seq<Slot>, bits: seq<bool>,
                   st: map<Slot, Ciphertext>)
    requires Fits(z, mu) && Sound(ev, kind, z, mu) && kind != Unsupported && |inputs| == |bits| == Arity(kind) && output in st
    requires forall i :: 0 <= i < |inputs| ==> inputs[i] in st && Encodes(st[inputs[i]], z.key, bits[i], z.bound, mu)
    ensures var st' := Apply(MakeTask(ev, kind, output, inputs, mu), st);
            && st'.Keys == st.Keys
            && Encodes(st'[output], z.key, GateTruth(kind, bits), z.bound, mu)
            && forall s :: s in st && s != output ==> st'[s] == st[s]
  {
    var t := MakeTask(ev, kind, output, inputs, mu);
    var view := View(t, st);
    assert forall i :: 0 <= i < |inputs| ==> t.accesses[i + 1] == Access(inputs[i], R);
    assert forall i :: 0 <= i < |inputs| ==> view[1..][i] == Some(st[inputs[i]]);
    ValuesOfSome(view[1..]);
    EvaluateCorrect(ev, z, mu, kind, Values(view[1..]).value, bits);
    assert Body(ev, kind, view, mu) == Evaluate(ev, kind, Values(view[1..]).value, mu);
    forall s | s in st
      ensures LastWriter(t.accesses, s) >= 0 <==> s == output
    {
      TaskWrites(ev, kind, output, inputs, mu, s);
    }
  }

  lemma KnownNext(n: Netlist, k: nat, b: nat)
    requires AllShaped(n) && k < |n.gates|
    ensures Known(n, k + 1, b) <==> Known(n, k, b) || b == n.gates[k].outs[0]
  {
  }

  /** The task of gate k, and that its operands are already encrypted. */
  lemma NextTask(n: Netlist, ev: Evaluator, z: Noise, mu: int, val: nat -> bool, k: nat, st: map<Slot, Ciphertext>)
      returns (kind: Kind, output: Slot, inputs: seq<Slot>)
    requires RegisterFree(n) && Circuit(n) && mu > 0 && k < |n.gates| && Encrypted(n, z, mu, val, k, st)
    requires SearchPointer(n, n.gates[k].outs[0]).Some?
    ensures kind == KindOf(n.gates[k].name) && Some(output) == SearchPointer(n, n.gates[k].outs[0])
    ensures TaskFor(n, ev, n.gates[k], mu) == Some(MakeTask(ev, kind, output, inputs, mu))
    ensures |inputs| == Arity(kind) == |Operands(kind, n.gates[k])|
    ensures var bits := Bits(Operands(kind, n.gates[k]), val);
            forall i :: 0 <= i < |inputs| ==> inputs[i] in st && Encodes(st[inputs[i]], z.key, bits[i], z.bound, mu)
  {
    var g := n.gates[k];
    kind := KindOf(g.name);
    output := SearchPointer(n, g.outs[0]).value;
    var ops := Operands(kind, g);
    forall i | 0 <= i < |ops|
      ensures Known(n, k, ops[i])
    {
      assert ops[i] in ops;
    }
    SlotsOfKnown(n, ops);
    inputs := Slots(n, ops).value;
  }

  lemma StoreNext(n: Netlist, z: Noise, mu: int, val: nat -> bool, k: nat,
                  st: map<Slot, Ciphertext>, st': map<Slot, Ciphertext>, output: Slot)
    requires RegisterFree(n) && Circuit(n) && mu > 0 && k < |n.gates| && Encrypted(n, z, mu, val, k, st)
    requires SearchPointer(n, n.gates[k].outs[0]) == Some(output)
    requires st'.Keys == st.Keys && output in st && forall s :: s in st && s != output ==> st'[s] == st[s]
    requires Encodes(st'[output], z.key, val(n.gates[k].outs[0]), z.bound, mu)
    ensures Encrypted(n, z, mu, val, k + 1, st')
  {
    forall b: nat | Known(n, k + 1, b)
      ensures var s := SearchPointer(n, b);
              s.Some? && s.value in st' && Encodes(st'[s.value], z.key, val(b), z.bound, mu)
    {
      KnownNext(n, k, b);
      if b != n.gates[k].outs[0] && SearchPointer(n, b) == Some(output) {
        SlotsDistinct(n, b, n.gates[k].outs[0]);
      }
    }
  }

  lemma GateEncrypts(n: Netlist, ev: Evaluator, z: Noise, mu: int, val: nat -> bool, k: nat, st: map<Slot, Ciphertext>)
      returns (t: Task<Slot, Ciphertext>)
    requires RegisterFree(n) && Circuit(n) && Fits(z, mu) && k < |n.gates| && Satisfied(n.gates[k], val)
    requires Sound(ev, KindOf(n.gates[k].name), z, mu)
    requires SearchPointer(n, n.gates[k].outs[0]).Some? && SearchPointer(n, n.gates[k].outs[0]).value in st
    requires Encrypted(n, z, mu, val, k, st)
    ensures TaskFor(n, ev, n.gates[k], mu) == Some(t) && Encrypted(n, z, mu, val, k + 1, Apply(t, st))
  {
    var kind, output, inputs := NextTask(n, ev, z, mu, val, k, st);
    t := MakeTask(ev, kind, output, inputs, mu);
    TaskStores(ev, z, mu, kind, output, inputs, Bits(Operands(kind, n.gates[k]), val), st);
    StoreNext(n, z, mu, val, k, st, Apply(t, st), output);
  }

  lemma SequentialSnoc(tasks: seq<Task<Slot, Ciphertext>>, t: Task<Slot, Ciphertext>, st: map<Slot, Ciphertext>)
    ensures Sequential(tasks + [t], st) == Apply(t, Sequential(tasks, st))
  {
    assert (tasks + [t])[..|tasks|] == tasks;
  }

  lemma GraphStep(n: Netlist, evs: seq<Evaluator>, mu: int, k: nat, init: map<Slot, Ciphertext>, t: Task<Slot, Ciphertext>)
    requires Staffed(n, evs, mu) && k < |n.gates| && Graph(n, evs, mu, k).Some?
    requires KindOf(n.gates[k].name) != Unsupported && TaskFor(n, evs[k], n.gates[k], mu) == Some(t)
    ensures Graph(n, evs, mu, k + 1).Some?
    ensures Sequential(Graph(n, evs, mu, k + 1).value, init) == Apply(t, Sequential(Graph(n, evs, mu, k).value, init))
  {
    SequentialSnoc(Graph(n, evs, mu, k).value, t, init);
  }

  /** Each gate's net resolves to a registered slot. */
  ghost predicate Resolved(n: Netlist, init: map<Slot, Ciphertext>)
    requires RegisterFree(n) && AllShaped(n)
  {
    forall j :: 0 <= j < |n.gates| ==>
      SearchPointer(n, n.gates[j].outs[0]).Some? && SearchPointer(n, n.gates[j].outs[0]).value in init
  }

  lemma {:induction false} GraphEncrypts(n: Netlist, evs: seq<Evaluator>, z: Noise, mu: int, val: nat -> bool, k: nat,
                                         init: map<Slot, Ciphertext>)
    requires RegisterFree(n) && Circuit(n) && Solution(n, val) && AllSound(n, evs, z, mu) && k <= |n.gates|
    requires Resolved(n, init) && Encrypted(n, z, mu, val, 0, init)
    ensures Graph(n, evs, mu, k).Some? && Encrypted(n, z, mu, val, k, Sequential(Graph(n, evs, mu, k).value, init))
  {
    if k > 0 {
      var j := k - 1;
      GraphEncrypts(n, evs, z, mu, val, j, init);
      var st := Sequential(Graph(n, evs, mu, j).value, init);
      assert Satisfied(n.gates[j], val);
      var t := GateEncrypts(n, evs[j], z, mu, val, j, st);
      GraphStep(n, evs, mu, j, init, t);
      assert j + 1 == k;
    }
  }

  // ---------- every schedule ----------

  /** All slots registered, inputs encrypted. */
  ghost predicate Loaded(n: Netlist, z: Noise, mu: int, val: nat -> bool, init: map<Slot, Ciphertext>) {
    && (forall i: nat :: i < |n.inputs| ==> In(i) in init && Encodes(init[In(i)], z.key, val(n.inputs[i]), z.bound, mu))
    && (forall i: nat :: i < |n.wires| ==> Wire(i) in init)
    && (forall i: nat :: i < |n.outputs| ==> Out(i) in init)
  }

  /** A parsed circuit with its workers, the values it computes and its loaded slots. */
  ghost predicate Prepared(ms: seq<Module>, n: Netlist, evs: seq<Evaluator>, z: Noise, mu: int, val: nat -> bool,
                        init: map<Slot, Ciphertext>) {
    && Parsed(ms) == Some(n) && RegisterFree(n) && Circuit(n) && Solution(n, val)
    && AllSound(n, evs, z, mu) && Loaded(n, z, mu, val, init)
  }

  lemma InputsEncrypted(n: Netlist, z: Noise, mu: int, val: nat -> bool, init: map<Slot, Ciphertext>)
    requires RegisterFree(n) && AllShaped(n) && Loaded(n, z, mu, val, init)
    ensures Encrypted(n, z, mu, val, 0, init)
  {
  }

  lemma ListedLoaded(n: Netlist, z: Noise, mu: int, val: nat -> bool, init: map<Slot, Ciphertext>, b: nat)
    requires RegisterFree(n) && Loaded(n, z, mu, val, init) && (b in n.wires || b in n.outputs)
    ensures SearchPointer(n, b).Some? && SearchPointer(n, b).value in init
  {
  }

  lemma LoadedEncrypts(ms: seq<Module>, n: Netlist, z: Noise, mu: int, val: nat -> bool, init: map<Slot, Ciphertext>)
    requires Parsed(ms) == Some(n) && RegisterFree(n) && AllShaped(n) && Loaded(n, z, mu, val, init)
    ensures Encrypted(n, z, mu, val, 0, init)
    ensures Resolved(n, init)
  {
    InputsEncrypted(n, z, mu, val, init);
    forall j | 0 <= j < |n.gates|
      ensures SearchPointer(n, n.gates[j].outs[0]).Some? && SearchPointer(n, n.gates[j].outs[0]).value in init
    {
      GateNetListed(ms, j);
      ListedLoaded(n, z, mu, val, init, n.gates[j].outs[0]);
    }
  }

  /** The graph of a circuit exists, and in submission order it leaves encryptions of all nets. */
  lemma SequentialEncrypts(ms: seq<Module>, n: Netlist, evs: seq<Evaluator>, z: Noise, mu: int, val: nat -> bool,
                           init: map<Slot, Ciphertext>)
    requires Prepared(ms, n, evs, z, mu, val, init)
    ensures Graph(n, evs, mu, |n.gates|).Some?
    ensures Encrypted(n, z, mu, val, |n.gates|, Sequential(Graph(n, evs, mu, |n.gates|).value, init))
  {
    LoadedEncrypts(ms, n, z, mu, val, init);
    GraphEncrypts(n, evs, z, mu, val, |n.gates|, init);
  }

  /** A drained run of the graph encrypts, for every net, what the circuit computes. */
  lemma RunEncrypts(ms: seq<Module>, n: Netlist, evs: seq<Evaluator>, z: Noise, mu: int, val: nat -> bool,
                    init: map<Slot, Ciphertext>, events: seq<Event<Slot, Ciphertext>>)
    requires Prepared(ms, n, evs, z, mu, val, init) && Exec(Initial(init), events).Some?
    requires var s := Exec(Initial(init), events).value;
             Some(s.tasks) == Graph(n, evs, mu, |n.gates|) && Drained(s)
    ensures Encrypted(n, z, mu, val, |n.gates|, Exec(Initial(init), events).value.store)
  {
    SequentialEncrypts(ms, n, evs, z, mu, val, init);
    DrainedRunIsSequential(init, events);
  }

  /** The output slots the graph writes: a driven net, not a wire, at its first position. */
  ghost predicate WrittenOutput(n: Netlist, i: nat)
    requires AllShaped(n)
  {
    && i < |n.outputs| && FirstIndex(n.outputs, n.outputs[i]) == Some(i)
    && n.outputs[i] !in n.wires && DrivenBySupported(n, n.outputs[i])
  }

  lemma WrittenOutputSlot(n: Netlist, i: nat)
    requires RegisterFree(n) && Circuit(n) && WrittenOutput(n, i)
    ensures Known(n, |n.gates|, n.outputs[i]) && SearchPointer(n, n.outputs[i]) == Some(Out(i))
  {
  }

  /** For separated module lists, so for one module, being a wire is out of the question. */
  lemma SeparatedOutput(ms: seq<Module>, n: Netlist, i: nat)
    requires Parsed(ms) == Some(n) && Separated(ms) && AllShaped(n)
    requires i < |n.outputs| && FirstIndex(n.outputs, n.outputs[i]) == Some(i) && DrivenBySupported(n, n.outputs[i])
    ensures WrittenOutput(n, i)
  {
    DisjointIffSeparated(ms);
    assert n.outputs[i] in n.outputs;
  }

  /** End to end: parse a register-free, topologically ordered netlist of supported gates,
      submit its graph, and let the runtime interleave starts and finishes in any way its
      ordering rule allows, each task on any worker that is sound for its gate. Once
      everything has finished, each written output slot encrypts, within the noise bound,
      the value the circuit's equations give its net. */
  lemma OutputsEncryptCircuit(ms: seq<Module>, n: Netlist, evs: seq<Evaluator>, z: Noise, mu: int, val: nat -> bool,
                              init: map<Slot, Ciphertext>, events: seq<Event<Slot, Ciphertext>>, i: nat)
    requires Prepared(ms, n, evs, z, mu, val, init) && Exec(Initial(init), events).Some?
    requires var s := Exec(Initial(init), events).value;
             Some(s.tasks) == Graph(n, evs, mu, |n.gates|) && Drained(s)
    requires WrittenOutput(n, i)
    ensures var st := Exec(Initial(init), events).value.store;
            Out(i) in st && Encodes(st[Out(i)], z.key, val(n.outputs[i]), z.bound, mu)
  {
    RunEncrypts(ms, n, evs, z, mu, val, init, events);
    WrittenOutputSlot(n, i);
  }
}
