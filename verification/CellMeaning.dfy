/** What a netlist means, read off the cells as they stand in its text: cell types and pins,
    before the parser renames gates and the graph builder orders operands. */
module CellMeaning {
  import opened Options
  import opened Lists
  import opened Netlists
  import opened NetlistFacts
  import opened Gates
  import opened Runtime
  import opened TaskGraph
  import opened EndToEnd
  import opened HostOutputs
  import Coherence

  // ---------- the meaning of a cell ----------

  /** Yosys' combinational cell types with a codelet. */
  predicate Supported(kind: string) {
    kind in {"$_NOT_", "$_AND_", "$_NAND_", "$_OR_", "$_NOR_", "$_XOR_", "$_XNOR_", "$_ANDNOT_", "$_ORNOT_", "$_MUX_", "$_NMUX_"}
  }

  /** What the cell puts on Y, given its pins A, B and S. */
  function CellTruth(kind: string, a: bool, b: bool, s: bool): bool {
    if kind == "$_NOT_" then !a
    else if kind == "$_AND_" then a && b
    else if kind == "$_NAND_" then !(a && b)
    else if kind == "$_OR_" then a || b
    else if kind == "$_NOR_" then !(a || b)
    else if kind == "$_XOR_" then a != b
    else if kind == "$_XNOR_" then a == b
    else if kind == "$_ANDNOT_" then a && !b
    else if kind == "$_ORNOT_" then a || !b
    else if kind == "$_MUX_" then if s then b else a
    else kind == "$_NMUX_" && !(if s then b else a)
  }

  /** The pins a cell of this type reads. */
  function ReadPins(kind: string): seq<string> {
    if kind == "$_NOT_" then ["A"]
    else if kind == "$_MUX_" || kind == "$_NMUX_" then ["A", "B", "S"]
    else ["A", "B"]
  }

  predicate On(c: Cell, pin: string, val: nat -> bool) { Pin(c, pin).Some? && val(Pin(c, pin).value) }

  ghost predicate Holds(c: Cell, val: nat -> bool) {
    Pin(c, "Y").Some? ==> val(Pin(c, "Y").value) == CellTruth(c.kind, On(c, "A", val), On(c, "B", val), On(c, "S", val))
  }

  /** The cells of all modules in reading order. */
  function AllCells(ms: seq<Module>): seq<Cell> {
    if ms == [] then [] else AllCells(ms[..|ms| - 1]) + ms[|ms| - 1].cells
  }

  /** `val` satisfies every cell. */
  ghost predicate CellsHold(ms: seq<Module>, val: nat -> bool) {
    forall k :: 0 <= k < |AllCells(ms)| ==> Holds(AllCells(ms)[k], val)
  }

  ghost predicate Imports(ports: seq<Port>, b: nat) {
    exists i :: 0 <= i < |ports| && ports[i].direction == "input" && Net(b) in ports[i].bits
  }

  /** The net is an input port of some module. */
  ghost predicate Imported(ms: seq<Module>, b: nat) {
    exists j :: 0 <= j < |ms| && Imports(ms[j].ports, b)
  }

  /** An input port, or on the Y pin of one of the first k cells. */
  ghost predicate Given(ms: seq<Module>, k: nat, b: nat) {
    Imported(ms, b) || exists j :: 0 <= j < k <= |AllCells(ms)| && Pin(AllCells(ms)[j], "Y") == Some(b)
  }

  /** What can be checked on the text: supported cell types only, one cell per net, no cell
      driving an input, and each cell reading only inputs and nets of earlier cells. */
  ghost predicate TextCircuit(ms: seq<Module>) {
    var cells := AllCells(ms);
    && (forall k :: 0 <= k < |cells| ==> Supported(cells[k].kind))
    && (forall j, k :: 0 <= j < k < |cells| ==> Pin(cells[j], "Y") != Pin(cells[k], "Y"))
    && (forall k, b :: 0 <= k < |cells| && Pin(cells[k], "Y") == Some(b) ==> !Imported(ms, b))
    && (forall k, pin, b :: 0 <= k < |cells| && pin in ReadPins(cells[k].kind) && Pin(cells[k], pin) == Some(b) ==> Given(ms, k, b))
  }

  // ---------- names ----------

  /** What is left of a supported cell type when prefix and suffix are stripped, and the kind
      of task it becomes. */
  function Stripped(kind: string): (string, Kind) {
    if kind == "$_NOT_" then ("NOT", Not)
    else if kind == "$_AND_" then ("AND", Two(AND))
    else if kind == "$_NAND_" then ("NAND", Two(NAND))
    else if kind == "$_OR_" then ("OR", Two(OR))
    else if kind == "$_NOR_" then ("NOR", Two(NOR))
    else if kind == "$_XOR_" then ("XOR", Two(XOR))
    else if kind == "$_XNOR_" then ("XNOR", Two(XNOR))
    else if kind == "$_ANDNOT_" then ("ANDNOT", Two(ANDYN))
    else if kind == "$_ORNOT_" then ("ORNOT", Two(ORYN))
    else if kind == "$_MUX_" then ("MUX", Mux)
    else ("NMUX", Nmux)
  }

  function Renamed(name: string): string {
    if name == "ANDNOT" then "ANDYN" else if name == "ORNOT" then "ORYN" else name
  }

  lemma Enclosed(kind: string, name: string)
    requires kind == "$_" + name + "_"
    ensures GateName(kind) == Some(Renamed(name))
  {
    assert kind[1] == '_' && "$fa"[1] == 'f';
    assert kind[2..|kind| - 1] == name;
  }

  lemma SupportedName(kind: string)
    requires Supported(kind)
    ensures GateName(kind) == Some(Renamed(Stripped(kind).0))
  {
    assert kind == "$_" + Stripped(kind).0 + "_";
    Enclosed(kind, Stripped(kind).0);
  }

  lemma SupportedKind(kind: string)
    requires Supported(kind)
    ensures KindOf(Renamed(Stripped(kind).0)) == Stripped(kind).1
    ensures Renamed(Stripped(kind).0) != "SDFF_PP0" && Renamed(Stripped(kind).0) != "fa"
  {
  }

  /** Only the eleven supported cell types, stripped and renamed, become tasks. */
  lemma OnlySupported(name: string)
    ensures KindOf(name) != Unsupported <==> exists kind :: Supported(kind) && Renamed(Stripped(kind).0) == name
  {
    if exists kind :: Supported(kind) && Renamed(Stripped(kind).0) == name {
      var kind :| Supported(kind) && Renamed(Stripped(kind).0) == name;
      SupportedKind(kind);
    } else {
      assert forall kind :: Supported(kind) ==> name != Renamed(Stripped(kind).0);
      NotListed(name);
    }
  }

  lemma NotListed(name: string)
    requires forall kind :: Supported(kind) ==> name != Renamed(Stripped(kind).0)
    ensures KindOf(name) == Unsupported
  {
    FirstNames();
    LastNames();
  }

  lemma FirstNames()
    ensures Supported("$_NOT_") && Renamed(Stripped("$_NOT_").0) == "NOT"
    ensures Supported("$_AND_") && Renamed(Stripped("$_AND_").0) == "AND"
    ensures Supported("$_NAND_") && Renamed(Stripped("$_NAND_").0) == "NAND"
    ensures Supported("$_OR_") && Renamed(Stripped("$_OR_").0) == "OR"
    ensures Supported("$_NOR_") && Renamed(Stripped("$_NOR_").0) == "NOR"
    ensures Supported("$_XOR_") && Renamed(Stripped("$_XOR_").0) == "XOR"
  {
  }

  lemma LastNames()
    ensures Supported("$_XNOR_") && Renamed(Stripped("$_XNOR_").0) == "XNOR"
    ensures Supported("$_ANDNOT_") && Renamed(Stripped("$_ANDNOT_").0) == "ANDYN"
    ensures Supported("$_ORNOT_") && Renamed(Stripped("$_ORNOT_").0) == "ORYN"
    ensures Supported("$_MUX_") && Renamed(Stripped("$_MUX_").0) == "MUX"
    ensures Supported("$_NMUX_") && Renamed(Stripped("$_NMUX_").0) == "NMUX"
  {
  }

  // ---------- the other cells ----------

  /** A flip-flop with synchronous reset is read as a register: its Q and D nets, and no gate. */
  lemma RegisterRead(n: Netlist, c: Cell, q: nat, d: nat)
    requires c.kind == "$_SDFF_PP0_" && Pin(c, "Q") == Some(q) && Pin(c, "D") == Some(d)
    ensures IsRegister(c) && WithCell(n, c) == Some(n.(dffQ := n.dffQ + [q], dffD := n.dffD + [d]))
  {
    assert c.kind == "$_" + "SDFF_PP0" + "_";
    Enclosed(c.kind, "SDFF_PP0");
  }

  /** A full adder is read from A, B, C to Y, X; with a constant carry it is a half adder. Both
      its outputs get the new gate as driver. */
  lemma AdderRead(n: Netlist, c: Cell, a: nat, b: nat, y: nat, x: nat)
    requires c.kind == "$fa" && Pin(c, "A") == Some(a) && Pin(c, "B") == Some(b) && Pin(c, "Y") == Some(y) && Pin(c, "X") == Some(x)
    requires "C" in c.pins
    ensures var g := match c.pins["C"]
                     case Net(s) => Gate("fa", [a, b, s], [y, x, 0])
                     case Constant(_) => Gate("ha", [a, b, 0], [y, x, 0]);
            && WithCell(n, c).Some? && WithCell(n, c).value.gates == n.gates + [g]
            && (forall w :: w == x || w == y ==> w < |WithCell(n, c).value.drivers| && WithCell(n, c).value.drivers[w] == |n.gates| + 1)
  {
  }

  // ---------- a cell and its gate ----------

  /** The nets on the pins the cell reads, by pin, as the graph passes them to the codelet. */
  lemma GateOperands(c: Cell, g: Gate)
    requires Supported(c.kind) && GateOf(c, Renamed(Stripped(c.kind).0)) == Some(g)
    ensures KindOf(g.name) == Stripped(c.kind).1
    ensures forall pin :: pin in ReadPins(c.kind) ==> Pin(c, pin).Some?
    ensures Operands(KindOf(g.name), g) == (
              if c.kind == "$_NOT_" then [Pin(c, "A").value]
              else if c.kind == "$_MUX_" || c.kind == "$_NMUX_" then [Pin(c, "S").value, Pin(c, "B").value, Pin(c, "A").value]
              else [Pin(c, "A").value, Pin(c, "B").value])
  {
    SupportedKind(c.kind);
  }

  lemma GateComputes(kind: string, args: seq<bool>, a: bool, b: bool, s: bool)
    requires Supported(kind)
    requires args == if kind == "$_NOT_" then [a] else if kind == "$_MUX_" || kind == "$_NMUX_" then [s, b, a] else [a, b]
    ensures |args| == Arity(Stripped(kind).1) && GateTruth(Stripped(kind).1, args) == CellTruth(kind, a, b, s)
  {
  }

  lemma PinBits(c: Cell, ops: seq<nat>, val: nat -> bool)
    requires Supported(c.kind) && forall pin :: pin in ReadPins(c.kind) ==> Pin(c, pin).Some?
    requires ops == if c.kind == "$_NOT_" then [Pin(c, "A").value]
                    else if c.kind == "$_MUX_" || c.kind == "$_NMUX_" then [Pin(c, "S").value, Pin(c, "B").value, Pin(c, "A").value]
                    else [Pin(c, "A").value, Pin(c, "B").value]
    ensures Bits(ops, val) == (
              if c.kind == "$_NOT_" then [On(c, "A", val)]
              else if c.kind == "$_MUX_" || c.kind == "$_NMUX_" then [On(c, "S", val), On(c, "B", val), On(c, "A", val)]
              else [On(c, "A", val), On(c, "B", val)])
  {
  }

  /** Renaming and operand order lose nothing: the gate's equation is the cell's. */
  lemma GateMeansCell(c: Cell, g: Gate, val: nat -> bool)
    requires Supported(c.kind) && GateOf(c, Renamed(Stripped(c.kind).0)) == Some(g)
    ensures Satisfied(g, val) <==> Holds(c, val)
  {
    GateOperands(c, g);
    var ops := Operands(KindOf(g.name), g);
    PinBits(c, ops, val);
    GateComputes(c.kind, Bits(ops, val), On(c, "A", val), On(c, "B", val), On(c, "S", val));
  }

  // ---------- reading order ----------

  lemma {:induction false} AllCombinational(cells: seq<Cell>)
    requires forall i :: 0 <= i < |cells| ==> !IsRegister(cells[i])
    ensures Combinational(cells) == cells && Registers(cells) == []
  {
    if cells != [] {
      var k := |cells| - 1;
      AllCombinational(cells[..k]);
      assert cells == cells[..k] + [cells[k]];
    }
  }

  lemma {:induction false} AllGates(ms: seq<Module>)
    requires forall k :: 0 <= k < |AllCells(ms)| ==> !IsRegister(AllCells(ms)[k])
    ensures GateCells(ms) == AllCells(ms) && RegisterCells(ms) == []
  {
    if ms != [] {
      var k := |ms| - 1;
      var before, last, all := AllCells(ms[..k]), ms[k].cells, AllCells(ms);
      assert all == before + last;
      assert forall i :: 0 <= i < |before| ==> before[i] == all[i];
      assert forall i :: 0 <= i < |last| ==> last[i] == all[|before| + i];
      AllGates(ms[..k]);
      AllCombinational(last);
    }
  }

  lemma NoRegisters(ms: seq<Module>)
    requires forall k :: 0 <= k < |AllCells(ms)| ==> Supported(AllCells(ms)[k].kind)
    ensures GateCells(ms) == AllCells(ms) && RegisterCells(ms) == []
  {
    forall k | 0 <= k < |AllCells(ms)|
      ensures !IsRegister(AllCells(ms)[k])
    {
      SupportedName(AllCells(ms)[k].kind);
      SupportedKind(AllCells(ms)[k].kind);
    }
    AllGates(ms);
  }

  /** Gate k of the parsed netlist is the k-th cell. */
  lemma GateOfCell(ms: seq<Module>, n: Netlist, k: nat)
    requires Parsed(ms) == Some(n) && k < |AllCells(ms)|
    requires forall j :: 0 <= j < |AllCells(ms)| ==> Supported(AllCells(ms)[j].kind)
    ensures |n.gates| == |AllCells(ms)| && RegisterFree(n) && AllShaped(n)
    ensures GateOf(AllCells(ms)[k], Renamed(Stripped(AllCells(ms)[k].kind).0)) == Some(n.gates[k])
  {
    ParserFacts(ms);
    NoRegisters(ms);
    SupportedName(AllCells(ms)[k].kind);
  }

  // ---------- inputs ----------

  lemma PortInputs(n: Netlist, p: Port, b: nat)
    requires WithPort(n, p).Some?
    ensures b in WithPort(n, p).value.inputs <==> b in n.inputs || (p.direction == "input" && Net(b) in p.bits)
  {
    var nets := NetsOf(p.bits).value;
    if Net(b) in p.bits {
      var i :| 0 <= i < |p.bits| && p.bits[i] == Net(b);
      assert nets[i] == b;
    }
    if b in nets {
      var i :| 0 <= i < |nets| && nets[i] == b;
      assert p.bits[i] == Net(b);
    }
  }

  lemma ImportsLast(ports: seq<Port>, b: nat)
    requires ports != []
    ensures Imports(ports, b) <==>
            Imports(ports[..|ports| - 1], b) || (ports[|ports| - 1].direction == "input" && Net(b) in ports[|ports| - 1].bits)
  {
    var k := |ports| - 1;
    if Imports(ports[..k], b) {
      var i :| 0 <= i < k && ports[..k][i].direction == "input" && Net(b) in ports[..k][i].bits;
      assert ports[i].direction == "input" && Net(b) in ports[i].bits;
    }
    if Imports(ports, b) {
      var i :| 0 <= i < |ports| && ports[i].direction == "input" && Net(b) in ports[i].bits;
      assert i < k ==> ports[..k][i] == ports[i];
    }
  }

  lemma {:induction false} PortsInputs(n: Netlist, ports: seq<Port>, b: nat)
    requires WithPorts(n, ports).Some?
    ensures b in WithPorts(n, ports).value.inputs <==> b in n.inputs || Imports(ports, b)
  {
    if ports != [] {
      var k := |ports| - 1;
      PortsInputs(n, ports[..k], b);
      PortInputs(WithPorts(n, ports[..k]).value, ports[k], b);
      ImportsLast(ports, b);
    }
  }

  lemma {:induction false} CellsInputs(n: Netlist, cells: seq<Cell>)
    requires WithCells(n, cells).Some?
    ensures WithCells(n, cells).value.inputs == n.inputs
  {
    if cells != [] {
      CellsInputs(n, cells[..|cells| - 1]);
    }
  }

  lemma ImportedLast(ms: seq<Module>, b: nat)
    requires ms != []
    ensures Imported(ms, b) <==> Imported(ms[..|ms| - 1], b) || Imports(ms[|ms| - 1].ports, b)
  {
    var k := |ms| - 1;
    assert forall j :: 0 <= j < k ==> ms[..k][j] == ms[j];
  }

  lemma {:induction false} ModulesInputs(ms: seq<Module>, b: nat)
    requires WithModules(ms).Some?
    ensures b in WithModules(ms).value.inputs <==> Imported(ms, b)
  {
    if ms != [] {
      var before, m := ms[..|ms| - 1], ms[|ms| - 1];
      ModulesInputs(before, b);
      var n := WithModules(before).value;
      PortsInputs(n, m.ports, b);
      CellsInputs(WithPorts(n, m.ports).value, m.cells);
      ImportedLast(ms, b);
    }
  }

  /** The parsed inputs are the nets of the input ports. */
  lemma InputsExact(ms: seq<Module>, b: nat)
    requires Parsed(ms).Some?
    ensures b in Parsed(ms).value.inputs <==> Imported(ms, b)
  {
    ModulesInputs(ms, b);
    SortKeepsMembers(WithModules(ms).value.inputs);
  }

  // ---------- text circuits are circuits ----------

  ghost predicate AllSupported(ms: seq<Module>) {
    forall k :: 0 <= k < |AllCells(ms)| ==> Supported(AllCells(ms)[k].kind)
  }

  /** Gate k drives its cell's Y net, and nothing else reads or computes differently. */
  lemma GateLike(ms: seq<Module>, n: Netlist, k: nat)
    requires Parsed(ms) == Some(n) && AllSupported(ms) && k < |AllCells(ms)|
    ensures |n.gates| == |AllCells(ms)| && RegisterFree(n) && AllShaped(n)
    ensures var c, g := AllCells(ms)[k], n.gates[k];
            && Pin(c, "Y") == Some(g.outs[0]) && KindOf(g.name) != Unsupported
            && (forall b :: b in Operands(KindOf(g.name), g) ==> exists pin :: pin in ReadPins(c.kind) && Pin(c, pin) == Some(b))
  {
    GateOfCell(ms, n, k);
    var c, g := AllCells(ms)[k], n.gates[k];
    SupportedKind(c.kind);
    GateOperands(c, g);
    assert "A" in ReadPins(c.kind);
    assert c.kind != "$_NOT_" ==> "B" in ReadPins(c.kind);
    assert c.kind == "$_MUX_" || c.kind == "$_NMUX_" ==> "S" in ReadPins(c.kind);
  }

  lemma GivenKnown(ms: seq<Module>, n: Netlist, k: nat, b: nat)
    requires Parsed(ms) == Some(n) && AllSupported(ms) && k <= |AllCells(ms)|
    ensures |n.gates| == |AllCells(ms)| && AllShaped(n) && RegisterFree(n)
    ensures Given(ms, k, b) <==> Known(n, k, b)
  {
    InputsExact(ms, b);
    ParserFacts(ms);
    NoRegisters(ms);
    forall j | 0 <= j < k
      ensures Pin(AllCells(ms)[j], "Y") == Some(n.gates[j].outs[0])
    {
      GateLike(ms, n, j);
    }
  }

  lemma CircuitOperand(ms: seq<Module>, n: Netlist, k: nat, b: nat)
    requires Parsed(ms) == Some(n) && TextCircuit(ms) && AllShaped(n) && k < |n.gates| == |AllCells(ms)|
    requires b in Operands(KindOf(n.gates[k].name), n.gates[k])
    ensures Known(n, k, b)
  {
    GateLike(ms, n, k);
    var pin :| pin in ReadPins(AllCells(ms)[k].kind) && Pin(AllCells(ms)[k], pin) == Some(b);
    GivenKnown(ms, n, k, b);
  }

  /** A parsed text circuit is a circuit, without registers. */
  lemma TextCircuitParsed(ms: seq<Module>, n: Netlist)
    requires Parsed(ms) == Some(n) && TextCircuit(ms)
    ensures RegisterFree(n) && Circuit(n) && |n.gates| == |AllCells(ms)|
  {
    GivenKnown(ms, n, 0, 0);
    forall k | 0 <= k < |n.gates|
      ensures KindOf(n.gates[k].name) != Unsupported && Pin(AllCells(ms)[k], "Y") == Some(n.gates[k].outs[0])
      ensures n.gates[k].outs[0] !in n.inputs
    {
      GateLike(ms, n, k);
      InputsExact(ms, n.gates[k].outs[0]);
    }
    forall k, b | 0 <= k < |n.gates| && b in Operands(KindOf(n.gates[k].name), n.gates[k])
      ensures Known(n, k, b)
    {
      CircuitOperand(ms, n, k, b);
    }
  }

  /** The circuit's equations are the cells', one by one. */
  lemma SolutionIsCells(ms: seq<Module>, n: Netlist, val: nat -> bool)
    requires Parsed(ms) == Some(n) && TextCircuit(ms) && AllShaped(n)
    ensures Solution(n, val) <==> CellsHold(ms, val)
  {
    GivenKnown(ms, n, 0, 0);
    forall k | 0 <= k < |n.gates|
      ensures Satisfied(n.gates[k], val) <==> Holds(AllCells(ms)[k], val)
    {
      GateOfCell(ms, n, k);
      GateMeansCell(AllCells(ms)[k], n.gates[k], val);
    }
  }

  /** The cells of a text circuit have a solution for any inputs ... */
  lemma CellsSolvable(ms: seq<Module>, inputs: nat -> bool) returns (val: nat -> bool)
    requires Parsed(ms).Some? && TextCircuit(ms)
    ensures CellsHold(ms, val) && forall b :: Imported(ms, b) ==> val(b) == inputs(b)
  {
    var n := Parsed(ms).value;
    TextCircuitParsed(ms, n);
    val := Solve(n, inputs, |n.gates|);
    SolutionExists(n, inputs);
    SolutionIsCells(ms, n, val);
    forall b | Imported(ms, b)
      ensures val(b) == inputs(b)
    {
      InputsExact(ms, b);
    }
  }

  /** ... and only one, on every net that is an input or driven. */
  lemma CellsDecide(ms: seq<Module>, val: nat -> bool, other: nat -> bool, b: nat)
    requires Parsed(ms).Some? && TextCircuit(ms) && CellsHold(ms, val) && CellsHold(ms, other)
    requires forall i :: Imported(ms, i) ==> val(i) == other(i)
    requires Given(ms, |AllCells(ms)|, b)
    ensures val(b) == other(b)
  {
    var n := Parsed(ms).value;
    TextCircuitParsed(ms, n);
    SolutionIsCells(ms, n, val);
    SolutionIsCells(ms, n, other);
    GivenKnown(ms, n, |n.gates|, b);
    forall i | i in n.inputs
      ensures val(i) == other(i)
    {
      InputsExact(ms, i);
    }
    SolutionUnique(n, val, other, |n.gates|, b);
  }

  // ---------- from the text to the ciphertexts ----------

  /** A text circuit, a solution of its cells, sound workers and loaded slots. */
  ghost predicate TextPrepared(ms: seq<Module>, n: Netlist, evs: seq<Evaluator>, z: Noise, mu: int, val: nat -> bool,
                               init: map<Slot, Ciphertext>) {
    && Parsed(ms) == Some(n) && TextCircuit(ms) && CellsHold(ms, val)
    && Staffed(n, evs, mu) && AllSound(n, evs, z, mu) && Loaded(n, z, mu, val, init)
  }

  /** An output port with a driver, its modules in separation order. */
  ghost predicate DrivenOutput(ms: seq<Module>, b: nat) {
    && Separated(ms) && Exported(ms, |ms|, b)
    && exists k :: 0 <= k < |AllCells(ms)| && Pin(AllCells(ms)[k], "Y") == Some(b)
  }

  lemma TextPreparedMeans(ms: seq<Module>, n: Netlist, evs: seq<Evaluator>, z: Noise, mu: int, val: nat -> bool,
                          init: map<Slot, Ciphertext>)
    requires TextPrepared(ms, n, evs, z, mu, val, init)
    ensures Prepared(ms, n, evs, z, mu, val, init)
  {
    TextCircuitParsed(ms, n);
    SolutionIsCells(ms, n, val);
  }

  /** Every driven output port has a written slot. */
  lemma DrivenOutputWritten(ms: seq<Module>, n: Netlist, b: nat)
    requires Parsed(ms) == Some(n) && TextCircuit(ms) && DrivenOutput(ms, b)
    ensures AllShaped(n) && b in n.outputs && WrittenOutput(n, FirstIndex(n.outputs, b).value)
  {
    TextCircuitParsed(ms, n);
    ParserFacts(ms);
    var k :| 0 <= k < |AllCells(ms)| && Pin(AllCells(ms)[k], "Y") == Some(b);
    GateLike(ms, n, k);
    assert DrivenBySupported(n, b);
    SeparatedOutput(ms, n, FirstIndex(n.outputs, b).value);
  }

  /** Text to ciphertext: any drained run of the graph, however interleaved, leaves for every
      driven output port an encryption of what the cells say, in the port's slot. */
  lemma OutputsEncryptCells(ms: seq<Module>, n: Netlist, evs: seq<Evaluator>, z: Noise, mu: int, val: nat -> bool,
                            init: map<Slot, Ciphertext>, events: seq<Event<Slot, Ciphertext>>, b: nat)
    requires TextPrepared(ms, n, evs, z, mu, val, init)
    requires Exec(Initial(init), events).Some?
    requires var s := Exec(Initial(init), events).value;
             Some(s.tasks) == Graph(n, evs, mu, |n.gates|) && Drained(s)
    requires DrivenOutput(ms, b)
    ensures b in n.outputs
    ensures var st := Exec(Initial(init), events).value.store;
            var slot := Out(FirstIndex(n.outputs, b).value);
            slot in st && Encodes(st[slot], z.key, val(b), z.bound, mu)
  {
    TextPreparedMeans(ms, n, evs, z, mu, val, init);
    DrivenOutputWritten(ms, n, b);
    OutputsEncryptCircuit(ms, n, evs, z, mu, val, init, events, FirstIndex(n.outputs, b).value);
  }

  /** ... and with two nodes, what the host finds in main memory once the port is synchronised. */
  lemma HostReadsCells(ms: seq<Module>, n: Netlist, evs: seq<Evaluator>, z: Noise, mu: int, val: nat -> bool,
                       ram: map<Slot, Ciphertext>, junk: Ciphertext,
                       acts: seq<Coherence.Action<Slot, Ciphertext>>, after: seq<Coherence.Action<Slot, Ciphertext>>,
                       b: nat, i: nat)
    requires TextPrepared(ms, n, evs, z, mu, val, ram)
    requires Coherence.Trace(Coherence.Boot(ram, junk), acts).Some?
    requires var m := Coherence.Trace(Coherence.Boot(ram, junk), acts).value;
             Some(m.tasks) == Graph(n, evs, mu, |n.gates|) && Coherence.Trace(m, after).Some?
    requires DrivenOutput(ms, b) && FirstIndex(n.outputs, b) == Some(i)
    requires AllReading(after) && Coherence.Synchronized(Out(i)) in after
    ensures var m := Coherence.Trace(Coherence.Boot(ram, junk), acts).value;
            var m' := Coherence.Trace(m, after).value;
            Out(i) in m'.cells && Encodes(m'.cells[Out(i)].host, z.key, val(b), z.bound, mu)
  {
    TextPreparedMeans(ms, n, evs, z, mu, val, ram);
    DrivenOutputWritten(ms, n, b);
    HostReadsCircuit(ms, n, evs, z, mu, val, ram, junk, acts, after, i);
  }
}
