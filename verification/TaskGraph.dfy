/** From a parsed netlist to runtime tasks, one per supported gate. */
module TaskGraph {
  import opened Options
  import opened Lists
  import opened Netlists
  import opened NetlistFacts
  import opened Gates
  import opened Runtime

  /** A registered ciphertext vector element. The register vectors are empty here. */
  datatype Slot = In(index: nat) | Wire(index: nat) | Out(index: nat)

  datatype Kind = Not | Two(gate: BinaryGate) | Mux | Nmux | Unsupported

  /** The gate names that are submitted. */
  const Kinds: map<string, Kind> := map[
    "NOT" := Not, "NAND" := Two(NAND), "NOR" := Two(NOR), "XNOR" := Two(XNOR), "AND" := Two(AND), "OR" := Two(OR),
    "XOR" := Two(XOR), "ANDYN" := Two(ANDYN), "ORYN" := Two(ORYN), "MUX" := Mux, "NMUX" := Nmux]

  function KindOf(name: string): Kind {
    if name in Kinds then Kinds[name] else Unsupported
  }

  predicate RegisterFree(n: Netlist) { n.dffQ == [] && n.dffD == [] }

  /** Inputs first, then wires, then outputs; None is the "bit parse error". */
  function SearchPointer(n: Netlist, bit: nat): Option<Slot>
    requires RegisterFree(n)
  {
    var input, wire, output := FirstIndex(n.inputs, bit), FirstIndex(n.wires, bit), FirstIndex(n.outputs, bit);
    if input.Some? then Some(In(input.value))
    else if wire.Some? then Some(Wire(wire.value))
    else if output.Some? then Some(Out(output.value))
    else None
  }

  /** Distinct nets never share a slot. */
  lemma SlotsDistinct(n: Netlist, b: nat, c: nat)
    requires RegisterFree(n) && SearchPointer(n, b).Some? && SearchPointer(n, b) == SearchPointer(n, c)
    ensures b == c
  {
  }

  /** A net has a slot exactly when it is an input, a wire or an output. */
  lemma SlotExists(n: Netlist, b: nat)
    requires RegisterFree(n)
    ensures SearchPointer(n, b).Some? <==> b in n.inputs || b in n.wires || b in n.outputs
  {
  }

  /** Where a net is looked for: an input's own slot first, then a wire's, then an output's, each
      at its first position. */
  lemma SlotOrder(n: Netlist, b: nat, i: nat)
    requires RegisterFree(n)
    ensures SearchPointer(n, b) == Some(In(i)) <==> i < |n.inputs| && n.inputs[i] == b && b !in n.inputs[..i]
    ensures SearchPointer(n, b) == Some(Wire(i)) <==> b !in n.inputs && i < |n.wires| && n.wires[i] == b && b !in n.wires[..i]
    ensures SearchPointer(n, b) == Some(Out(i)) <==>
            b !in n.inputs && b !in n.wires && i < |n.outputs| && n.outputs[i] == b && b !in n.outputs[..i]
  {
    FirstIndexIff(n.inputs, b, i);
    FirstIndexIff(n.wires, b, i);
    FirstIndexIff(n.outputs, b, i);
  }

  lemma FirstIndexIff(s: seq<nat>, x: nat, i: nat)
    ensures FirstIndex(s, x) == Some(i) <==> i < |s| && s[i] == x && x !in s[..i]
  {
    var r := FirstIndex(s, x);
    if i < |s| && s[i] == x {
      assert x in s;
      assert forall p :: 0 <= p < i ==> s[..i][p] == s[p];
      assert forall p :: 0 <= p < r.value ==> s[..r.value][p] == s[p];
    }
  }

  // ---------- tasks ----------

  /** The ciphertext operations the codelets call on one kind of worker. */
  datatype Evaluator = Evaluator(
    boot: Ciphertext -> Ciphertext,
    mux: (Ciphertext, Ciphertext, Ciphertext) -> Ciphertext,
    nmux: (Ciphertext, Ciphertext, Ciphertext) -> Ciphertext)

  /** Input nets in buffer order: a multiplexer gets select, B, A. */
  function Operands(kind: Kind, g: Gate): seq<nat>
    requires |g.ins| == 3
  {
    match kind
    case Not => [g.ins[0]]
    case Two(_) => [g.ins[0], g.ins[1]]
    case Mux => [g.ins[2], g.ins[1], g.ins[0]]
    case Nmux => [g.ins[2], g.ins[1], g.ins[0]]
    case Unsupported => []
  }

  function Arity(kind: Kind): nat {
    match kind
    case Not => 1
    case Two(_) => 2
    case Mux => 3
    case Nmux => 3
    case Unsupported => 0
  }

  /** The codelet's effect on the input buffers of a task of this kind. */
  function Evaluate(ev: Evaluator, kind: Kind, args: seq<Ciphertext>, mu: int): Ciphertext
    requires mu > 0 && |args| == Arity(kind)
  {
    match kind
    case Not => Negated(args[0], mu)
    case Two(g) => if |args[0]| == |args[1]| > 0 then ev.boot(Linear(g, args[0], args[1], mu)) else []
    case Mux => ev.mux(args[0], args[1], args[2])
    case Nmux => ev.nmux(args[0], args[1], args[2])
    case Unsupported => []
  }

  function Values(view: seq<Option<Ciphertext>>): Option<seq<Ciphertext>> {
    if view == [] then Some([])
    else
      var rest := Values(view[1..]);
      if view[0].None? || rest.None? then None else Some([view[0].value] + rest.value)
  }

  function Body(ev: Evaluator, kind: Kind, view: seq<Option<Ciphertext>>, mu: int): Ciphertext
    requires mu > 0
  {
    if view == [] then []
    else
      var args := Values(view[1..]);
      if args.None? || |args.value| != Arity(kind) then [] else Evaluate(ev, kind, args.value, mu)
  }

  function Slots(n: Netlist, bits: seq<nat>): Option<seq<Slot>>
    requires RegisterFree(n)
  {
    if bits == [] then Some([])
    else
      var first, rest := SearchPointer(n, bits[0]), Slots(n, bits[1..]);
      if first.None? || rest.None? then None else Some([first.value] + rest.value)
  }

  function MakeTask(ev: Evaluator, kind: Kind, output: Slot, inputs: seq<Slot>, mu: int): Task<Slot, Ciphertext>
    requires mu > 0
  {
    Task([Access(output, W)] + seq(|inputs|, i requires 0 <= i < |inputs| => Access(inputs[i], R)),
         (view, i) => Body(ev, kind, view, mu))
  }

  function TaskFor(n: Netlist, ev: Evaluator, g: Gate, mu: int): Option<Task<Slot, Ciphertext>>
    requires RegisterFree(n) && mu > 0 && Shaped(g)
  {
    var kind := KindOf(g.name);
    var output, inputs := SearchPointer(n, g.outs[0]), Slots(n, Operands(kind, g));
    if output.None? || inputs.None? then None else Some(MakeTask(ev, kind, output.value, inputs.value, mu))
  }

  /** One worker's operations for each gate: where the runtime will run its task. */
  predicate Staffed(n: Netlist, evs: seq<Evaluator>, mu: int) {
    RegisterFree(n) && AllShaped(n) && |evs| == |n.gates| && mu > 0
  }

  /** The submissions for the first k gates; unsupported gates submit nothing. None where
      a net has no slot, which the program does not survive. */
  function Graph(n: Netlist, evs: seq<Evaluator>, mu: int, k: nat): Option<seq<Task<Slot, Ciphertext>>>
    requires Staffed(n, evs, mu) && k <= |n.gates|
  {
    if k == 0 then Some([])
    else
      var before := Graph(n, evs, mu, k - 1);
      var g := n.gates[k - 1];
      if before.None? || KindOf(g.name) == Unsupported then before
      else
        var t := TaskFor(n, evs[k - 1], g, mu);
        if t.None? then None else Some(before.value + [t.value])
  }

  /** The submission loop. */
  method BuildGraph(n: Netlist, evs: seq<Evaluator>, mu: int) returns (tasks: Option<seq<Task<Slot, Ciphertext>>>)
    requires Staffed(n, evs, mu)
    ensures tasks == Graph(n, evs, mu, |n.gates|)
  {
    var submitted: seq<Task<Slot, Ciphertext>> := [];
    for k := 0 to |n.gates|
      invariant Graph(n, evs, mu, k) == Some(submitted)
    {
      var g := n.gates[k];
      if KindOf(g.name) != Unsupported {
        var t := TaskFor(n, evs[k], g, mu);
        if t.None? {
          GraphStops(n, evs, mu, k + 1, |n.gates|);
          return None;
        }
        submitted := submitted + [t.value];
      }
    }
    tasks := Some(submitted);
  }

  lemma {:induction false} GraphStops(n: Netlist, evs: seq<Evaluator>, mu: int, j: nat, k: nat)
    requires Staffed(n, evs, mu) && j <= k <= |n.gates|
    requires Graph(n, evs, mu, j).None?
    ensures Graph(n, evs, mu, k).None?
  {
    if j < k {
      GraphStops(n, evs, mu, j, k - 1);
    }
  }

  // ---------- which slots are written ----------

  lemma TaskWrites(ev: Evaluator, kind: Kind, output: Slot, inputs: seq<Slot>, mu: int, s: Slot)
    requires mu > 0
    ensures Writes(MakeTask(ev, kind, output, inputs, mu), s) <==> s == output
  {
    var t := MakeTask(ev, kind, output, inputs, mu);
    assert t.accesses[0] == Access(output, W);
    assert forall i :: 1 <= i < |t.accesses| ==> t.accesses[i].mode == R;
  }

  lemma TaskTouches(ev: Evaluator, kind: Kind, output: Slot, inputs: seq<Slot>, mu: int, s: Slot)
    requires mu > 0
    ensures Touches(MakeTask(ev, kind, output, inputs, mu), s) <==> s == output || s in inputs
  {
    var t := MakeTask(ev, kind, output, inputs, mu);
    assert t.accesses[0] == Access(output, W);
    assert forall i :: 0 <= i < |inputs| ==> t.accesses[i + 1] == Access(inputs[i], R);
  }

  /** The runtime orders two gates exactly when one writes what the other reads or writes; gates
      with a common input are free. */
  lemma GatesOrdered(ev: Evaluator, kind: Kind, output: Slot, inputs: seq<Slot>,
                     ev': Evaluator, kind': Kind, output': Slot, inputs': seq<Slot>, mu: int)
    requires mu > 0
    ensures Conflict(MakeTask(ev, kind, output, inputs, mu), MakeTask(ev', kind', output', inputs', mu)) <==>
            output == output' || output in inputs' || output' in inputs
  {
    var a, b := MakeTask(ev, kind, output, inputs, mu), MakeTask(ev', kind', output', inputs', mu);
    forall s
      ensures Writes(a, s) <==> s == output
      ensures Writes(b, s) <==> s == output'
      ensures Touches(a, s) <==> s == output || s in inputs
      ensures Touches(b, s) <==> s == output' || s in inputs'
    {
      TaskWrites(ev, kind, output, inputs, mu, s);
      TaskWrites(ev', kind', output', inputs', mu, s);
      TaskTouches(ev, kind, output, inputs, mu, s);
      TaskTouches(ev', kind', output', inputs', mu, s);
    }
    if output in inputs' || output == output' {
      assert Writes(a, output) && Touches(b, output);
    }
    if output' in inputs {
      assert Writes(b, output') && Touches(a, output');
    }
  }

  ghost predicate Targets(n: Netlist, k: nat, s: Slot)
    requires RegisterFree(n) && AllShaped(n)
  {
    exists i :: 0 <= i < k <= |n.gates| && KindOf(n.gates[i].name) != Unsupported
             && SearchPointer(n, n.gates[i].outs[0]) == Some(s)
  }

  ghost predicate SomeWrites(tasks: seq<Task<Slot, Ciphertext>>, s: Slot) {
    exists t :: t in tasks && Writes(t, s)
  }

  lemma SomeWritesNext(tasks: seq<Task<Slot, Ciphertext>>, t: Task<Slot, Ciphertext>, s: Slot)
    ensures SomeWrites(tasks + [t], s) <==> SomeWrites(tasks, s) || Writes(t, s)
  {
    assert (tasks + [t])[|tasks|] == t;
    assert forall u :: u in tasks + [t] <==> u in tasks || u == t;
  }

  lemma TargetsNext(n: Netlist, k: nat, s: Slot)
    requires RegisterFree(n) && AllShaped(n) && k < |n.gates|
    ensures Targets(n, k + 1, s) <==>
            || Targets(n, k, s)
            || (KindOf(n.gates[k].name) != Unsupported && SearchPointer(n, n.gates[k].outs[0]) == Some(s))
  {
  }

  lemma {:induction false} GraphWrites(n: Netlist, evs: seq<Evaluator>, mu: int, k: nat, s: Slot)
    requires Staffed(n, evs, mu) && k <= |n.gates|
    requires Graph(n, evs, mu, k).Some?
    ensures SomeWrites(Graph(n, evs, mu, k).value, s) <==> Targets(n, k, s)
  {
    if k > 0 {
      var j := k - 1;
      var g, ev := n.gates[j], evs[j];
      GraphWrites(n, evs, mu, j, s);
      TargetsNext(n, j, s);
      if KindOf(g.name) != Unsupported {
        var t := TaskFor(n, ev, g, mu).value;
        TaskWrites(ev, KindOf(g.name), SearchPointer(n, g.outs[0]).value, Slots(n, Operands(KindOf(g.name), g)).value, mu, s);
        SomeWritesNext(Graph(n, evs, mu, j).value, t, s);
      }
    }
  }

  ghost predicate DrivenBySupported(n: Netlist, bit: nat)
    requires AllShaped(n)
  {
    exists k :: 0 <= k < |n.gates| && KindOf(n.gates[k].name) != Unsupported && n.gates[k].outs[0] == bit
  }

  /** An output slot is some task's target exactly when its net is driven by a supported
      gate, is neither an input nor a wire, and the slot is the net's first position among
      the outputs. */
  lemma OutputSlotTargeted(n: Netlist, evs: seq<Evaluator>, mu: int, i: nat)
    requires Staffed(n, evs, mu) && i < |n.outputs| && Graph(n, evs, mu, |n.gates|).Some?
    ensures SomeWrites(Graph(n, evs, mu, |n.gates|).value, Out(i)) <==>
            && n.outputs[i] !in n.inputs && n.outputs[i] !in n.wires
            && FirstIndex(n.outputs, n.outputs[i]) == Some(i)
            && DrivenBySupported(n, n.outputs[i])
  {
    GraphWrites(n, evs, mu, |n.gates|, Out(i));
  }

  /** For separated module lists, so for one module, no output net is a wire. */
  lemma OutputSlotWritten(ms: seq<Module>, n: Netlist, evs: seq<Evaluator>, mu: int, i: nat)
    requires Parsed(ms) == Some(n) && Separated(ms) && Staffed(n, evs, mu) && i < |n.outputs|
    requires Graph(n, evs, mu, |n.gates|).Some?
    ensures SomeWrites(Graph(n, evs, mu, |n.gates|).value, Out(i)) <==>
            && n.outputs[i] !in n.inputs
            && FirstIndex(n.outputs, n.outputs[i]) == Some(i)
            && DrivenBySupported(n, n.outputs[i])
  {
    DisjointIffSeparated(ms);
    assert n.outputs[i] in n.outputs;
    OutputSlotTargeted(n, evs, mu, i);
  }

  /** Every net a cell of any parsed netlist drives, second outputs included, has a slot. */
  lemma DrivenNetResolves(ms: seq<Module>, k: nat, b: nat)
    requires Parsed(ms).Some? && RegisterFree(Parsed(ms).value)
    requires k < |GateCells(ms)| && Drives(GateCells(ms)[k], b)
    ensures SearchPointer(Parsed(ms).value, b).Some?
  {
    DrivenNetListed(ms, k, b);
  }
}
