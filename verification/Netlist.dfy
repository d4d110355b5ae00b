/** Lists of net ids: searching, sorting, duplicates. */
module Lists {
  import opened Options

  predicate NoDup(s: seq<nat>) {
    forall i, j :: 0 <= i < j < |s| ==> s[i] != s[j]
  }

  /** Linear search for the first occurrence. */
  function FirstIndex(s: seq<nat>, x: nat): (r: Option<nat>)
    ensures r.None? <==> x !in s
    ensures r.Some? ==> r.value < |s| && s[r.value] == x && x !in s[..r.value]
  {
    FindFrom(s, x, 0)
  }

  function FindFrom(s: seq<nat>, x: nat, i: nat): (r: Option<nat>)
    requires i <= |s| && x !in s[..i]
    ensures r.None? <==> x !in s
    ensures r.Some? ==> r.value < |s| && s[r.value] == x && x !in s[..r.value]
    decreases |s| - i
  {
    if i == |s| then assert s[..i] == s; None
    else if s[i] == x then Some(i)
    else
      assert s[..i + 1] == s[..i] + [s[i]];
      FindFrom(s, x, i + 1)
  }

  predicate Sorted(s: seq<nat>) {
    forall i, j :: 0 <= i < j < |s| ==> s[i] <= s[j]
  }

  function Insert(x: nat, s: seq<nat>): (r: seq<nat>) {
    if s == [] || x <= s[0] then [x] + s else [s[0]] + Insert(x, s[1..])
  }

  lemma {:induction false} InsertSorts(x: nat, s: seq<nat>)
    requires Sorted(s)
    ensures Sorted(Insert(x, s))
    ensures Insert(x, s)[0] == x || (s != [] && Insert(x, s)[0] == s[0])
    ensures multiset(Insert(x, s)) == multiset(s) + multiset{x}
  {
    if s != [] {
      assert s == [s[0]] + s[1..];
      if x > s[0] {
        InsertSorts(x, s[1..]);
        ConsSorted(s[0], Insert(x, s[1..]));
      } else {
        ConsSorted(x, s);
      }
    }
  }

  lemma ConsSorted(x: nat, s: seq<nat>)
    requires Sorted(s) && (s != [] ==> x <= s[0])
    ensures Sorted([x] + s) && multiset([x] + s) == multiset{x} + multiset(s)
  {
  }

  /** What the library sort leaves: the same elements in ascending order. */
  function Sort(s: seq<nat>): (r: seq<nat>)
    ensures Sorted(r) && multiset(r) == multiset(s)
  {
    if s == [] then []
    else
      assert s == [s[0]] + s[1..];
      InsertSorts(s[0], Sort(s[1..]));
      Insert(s[0], Sort(s[1..]))
  }

  lemma SortKeepsMembers(s: seq<nat>)
    ensures |Sort(s)| == |s|
    ensures forall x :: x in Sort(s) <==> x in s
  {
    assert forall x :: x in s <==> x in multiset(s);
    assert forall x :: x in Sort(s) <==> x in multiset(Sort(s));
    assert |multiset(s)| == |s| && |multiset(Sort(s))| == |Sort(s)|;
  }

  lemma {:induction false} NoDupCounts(s: seq<nat>)
    ensures NoDup(s) <==> forall x :: multiset(s)[x] <= 1
  {
    if s != [] {
      NoDupCounts(s[1..]);
      assert s == [s[0]] + s[1..];
      assert multiset(s) == multiset{s[0]} + multiset(s[1..]);
      if NoDup(s) {
        assert s[0] !in s[1..];
        assert NoDup(s[1..]);
      }
      if forall x :: multiset(s)[x] <= 1 {
        assert forall x :: multiset(s[1..])[x] <= multiset(s)[x];
        assert multiset(s)[s[0]] <= 1;
        assert s[0] !in multiset(s[1..]);
        assert s[0] !in s[1..];
      }
    }
  }

  lemma SortKeepsNoDup(s: seq<nat>)
    requires NoDup(s)
    ensures NoDup(Sort(s))
  {
    NoDupCounts(s);
    NoDupCounts(Sort(s));
  }
}

/** Reading a Yosys netlist into port lists, gates, a wire list and a driver index. */
module Netlists {
  import opened Options
  import opened Lists

  /** One connected bit: a net number, or a constant, which Yosys writes as a string. */
  datatype Bit = Net(id: nat) | Constant(text: string)

  datatype Port = Port(direction: string, bits: seq<Bit>)

  /** A cell with the first bit of each of its connections. */
  datatype Cell = Cell(kind: string, pins: map<string, Bit>)

  datatype Module = Module(ports: seq<Port>, cells: seq<Cell>)

  datatype Gate = Gate(name: string, ins: seq<nat>, outs: seq<nat>)

  datatype Netlist = Netlist(
    inputs: seq<nat>,
    outputs: seq<nat>,
    dffQ: seq<nat>,
    dffD: seq<nat>,
    wires: seq<nat>,
    gates: seq<Gate>,
    direct: seq<(nat, nat)>,
    drivers: seq<nat>)

  const Empty: Netlist := Netlist([], [], [], [], [], [], [], [])

  /** The net on a pin, if the pin is there and carries a net. */
  function Pin(c: Cell, pin: string): Option<nat> {
    if pin in c.pins && c.pins[pin].Net? then Some(c.pins[pin].id) else None
  }

  /** Strip the cell type's prefix and suffix, and rename the two "not" gates. */
  function GateName(kind: string): Option<string> {
    if kind == "$fa" then Some("fa")
    else if |kind| < 3 then None
    else
      var name := kind[2..|kind| - 1];
      if name == "ANDNOT" then Some("ANDYN")
      else if name == "ORNOT" then Some("ORYN")
      else Some(name)
  }

  // ---------- the specification ----------

  predicate AllNets(bits: seq<Bit>) { forall i :: 0 <= i < |bits| ==> bits[i].Net? }

  /** The net numbers of a port's bits; None when one of them is a constant. */
  function NetsOf(bits: seq<Bit>): Option<seq<nat>> {
    if AllNets(bits) then Some(seq(|bits|, i requires 0 <= i < |bits| => bits[i].id)) else None
  }

  function WithPort(n: Netlist, p: Port): Option<Netlist> {
    var nets := NetsOf(p.bits);
    if nets.None? then None
    else if p.direction == "input" then Some(n.(inputs := n.inputs + nets.value))
    else if p.direction == "output" then Some(n.(outputs := n.outputs + nets.value))
    else None
  }

  function SetDriver(drivers: seq<nat>, bit: nat, gate: nat): (r: seq<nat>)
    ensures |r| >= |drivers| && bit < |r| && r[bit] == gate
    ensures forall b :: 0 <= b < |r| && b != bit ==> r[b] == if b < |drivers| then drivers[b] else 0
  {
    var grown := if |drivers| <= bit then drivers + seq(bit + 1 - |drivers|, _ => 0) else drivers;
    grown[bit := gate]
  }

  /** The gate about to be added drives `bit`. */
  function Driven(n: Netlist, bit: nat): Netlist {
    n.(wires := if bit in n.outputs || bit in n.wires then n.wires else n.wires + [bit],
       drivers := SetDriver(n.drivers, bit, |n.gates| + 1))
  }

  predicate IsRegister(c: Cell) { GateName(c.kind) == Some("SDFF_PP0") }

  /** The second net a cell drives: only a full adder has one, whatever its carry input. */
  function SecondOutput(c: Cell): Option<nat> {
    if GateName(c.kind) == Some("fa") then Pin(c, "X") else None
  }

  /** The nets a combinational cell drives. */
  predicate Drives(c: Cell, b: nat) {
    !IsRegister(c) && (Pin(c, "Y") == Some(b) || SecondOutput(c) == Some(b))
  }

  /** The gate a combinational cell stands for; None when a pin it reads is missing or
      constant. A full adder with a constant carry becomes a half adder. */
  function GateOf(c: Cell, name: string): (r: Option<Gate>)
    ensures r.Some? ==> |r.value.ins| == 3 && |r.value.outs| == 3 && Pin(c, "Y") == Some(r.value.outs[0])
  {
    var y, a, b := Pin(c, "Y"), Pin(c, "A"), Pin(c, "B");
    if y.None? || a.None? then None
    else if name == "NOT" then Some(Gate(name, [a.value, 0, 0], [y.value, 0, 0]))
    else if b.None? then None
    else if name == "fa" then
      var x := Pin(c, "X");
      if x.None? || "C" !in c.pins then None
      else match c.pins["C"]
        case Constant(_) => Some(Gate("ha", [a.value, b.value, 0], [y.value, x.value, 0]))
        case Net(s) => Some(Gate(name, [a.value, b.value, s], [y.value, x.value, 0]))
    else if name == "MUX" || name == "NMUX" then
      var s := Pin(c, "S");
      if s.None? then None else Some(Gate(name, [a.value, b.value, s.value], [y.value, 0, 0]))
    else Some(Gate(name, [a.value, b.value, 0], [y.value, 0, 0]))
  }

  function WithGate(n: Netlist, g: Gate, second: Option<nat>): Netlist
    requires |g.outs| == 3
  {
    var n1 := Driven(n, g.outs[0]);
    var n2 := if second.Some? then Driven(n1, second.value) else n1;
    n2.(gates := n.gates + [g])
  }

  function WithCell(n: Netlist, c: Cell): Option<Netlist> {
    var name := GateName(c.kind);
    if name.None? then None
    else if name.value == "SDFF_PP0" then
      var q, d := Pin(c, "Q"), Pin(c, "D");
      if q.None? || d.None? then None
      else Some(n.(dffQ := n.dffQ + [q.value], dffD := n.dffD + [d.value]))
    else
      var g := GateOf(c, name.value);
      if g.None? then None else Some(WithGate(n, g.value, SecondOutput(c)))
  }

  function WithPorts(n: Netlist, ports: seq<Port>): Option<Netlist> {
    if ports == [] then Some(n)
    else
      var r := WithPorts(n, ports[..|ports| - 1]);
      if r.None? then None else WithPort(r.value, ports[|ports| - 1])
  }

  function WithCells(n: Netlist, cells: seq<Cell>): Option<Netlist> {
    if cells == [] then Some(n)
    else
      var r := WithCells(n, cells[..|cells| - 1]);
      if r.None? then None else WithCell(r.value, cells[|cells| - 1])
  }

  function WithModule(n: Netlist, m: Module): Option<Netlist> {
    var r := WithPorts(n, m.ports);
    if r.None? then None else WithCells(r.value, m.cells)
  }

  function WithModules(modules: seq<Module>): Option<Netlist> {
    if modules == [] then Some(Empty)
    else
      var r := WithModules(modules[..|modules| - 1]);
      if r.None? then None else WithModule(r.value, modules[|modules| - 1])
  }

  /** Registers whose output net is also an output port. */
  function DirectPairs(q: seq<nat>, outputs: seq<nat>): seq<(nat, nat)> {
    if q == [] then []
    else
      var last := q[|q| - 1];
      DirectPairs(q[..|q| - 1], outputs) + (if last in outputs then [(last, last)] else [])
  }

  function Finished(n: Netlist): Netlist {
    n.(direct := n.direct + DirectPairs(n.dffQ, n.outputs),
       inputs := Sort(n.inputs), outputs := Sort(n.outputs), wires := Sort(n.wires))
  }

  function Parsed(modules: seq<Module>): Option<Netlist> {
    var r := WithModules(modules);
    if r.None? then None else Some(Finished(r.value))
  }

  // ---------- the program ----------

  class ParsedBC {
    var inputs: seq<nat>
    var outputs: seq<nat>
    var dffQ: seq<nat>
    var dffD: seq<nat>
    var wires: seq<nat>
    var gates: seq<Gate>
    var direct: seq<(nat, nat)>
    var drivers: seq<nat>
    var gateIndex: nat

    function Value(): Netlist
      reads this
    {
      Netlist(inputs, outputs, dffQ, dffD, wires, gates, direct, drivers)
    }

    ghost predicate Valid()
      reads this
    {
      gateIndex == |gates| + 1
    }

    constructor ()
      ensures Valid() && Value() == Empty
    {
      inputs, outputs, dffQ, dffD, wires, gates, direct, drivers := [], [], [], [], [], [], [], [];
      gateIndex := 1;
    }

    /** The net numbers of a port, all read before any is stored. */
    static method ReadBits(bits: seq<Bit>) returns (nets: Option<seq<nat>>)
      ensures nets == NetsOf(bits)
    {
      var read: seq<nat> := [];
      for i := 0 to |bits|
        invariant |read| == i && forall k :: 0 <= k < i ==> bits[k] == Net(read[k])
      {
        if bits[i].Constant? {
          return None;
        }
        read := read + [bits[i].id];
      }
      assert NetsOf(bits).value == read;
      return Some(read);
    }

    method AddPort(p: Port) returns (ok: bool)
      requires Valid()
      modifies this
      ensures Valid()
      ensures ok ==> WithPort(old(Value()), p) == Some(Value())
      ensures !ok ==> WithPort(old(Value()), p).None?
      ensures ok <==> p.direction in {"input", "output"} && AllNets(p.bits)
      ensures ok ==> |inputs| + |outputs| == old(|inputs| + |outputs|) + |p.bits|
    {
      if p.direction == "input" {
        var nets := ReadBits(p.bits);
        if nets.None? {
          return false;
        }
        for i := 0 to |nets.value|
          modifies this`inputs
          invariant inputs == old(inputs) + nets.value[..i]
        {
          inputs := inputs + [nets.value[i]];
        }
        assert nets.value[..|nets.value|] == nets.value;
      } else if p.direction == "output" {
        var nets := ReadBits(p.bits);
        if nets.None? {
          return false;
        }
        for i := 0 to |nets.value|
          modifies this`outputs
          invariant outputs == old(outputs) + nets.value[..i]
        {
          outputs := outputs + [nets.value[i]];
        }
        assert nets.value[..|nets.value|] == nets.value;
      } else {
        return false;
      }
      return true;
    }

    method Drive(bit: nat)
      requires Valid()
      modifies this`wires, this`drivers
      ensures Value() == Driven(old(Value()), bit)
      ensures (bit in wires || bit in outputs) && bit < |drivers| && drivers[bit] == gateIndex
    {
      if bit !in outputs && bit !in wires {
        wires := wires + [bit];
      }
      drivers := SetDriver(drivers, bit, gateIndex);
    }

    /** Read a combinational cell pin by pin, driving its outputs on the way. */
    method AddGate(c: Cell, name: string) returns (ok: bool)
      requires Valid() && GateName(c.kind) == Some(name) && !IsRegister(c)
      modifies this
      ensures Valid()
      ensures ok ==> WithCell(old(Value()), c) == Some(Value())
      ensures !ok ==> WithCell(old(Value()), c).None?
      ensures ok ==> |gates| == old(|gates|) + 1
    {
      var ins, outs, final := [0, 0, 0], [0, 0, 0], name;
      var y := Pin(c, "Y");
      if y.None? {
        return false;
      }
      outs := outs[0 := y.value];
      Drive(y.value);
      var a := Pin(c, "A");
      if a.None? {
        return false;
      }
      ins := ins[0 := a.value];
      if name != "NOT" {
        var b := Pin(c, "B");
        if b.None? {
          return false;
        }
        ins := ins[1 := b.value];
        if name == "MUX" || name == "NMUX" {
          var s := Pin(c, "S");
          if s.None? {
            return false;
          }
          ins := ins[2 := s.value];
        } else if name == "fa" {
          var x := Pin(c, "X");
          if x.None? {
            return false;
          }
          outs := outs[1 := x.value];
          Drive(x.value);
          if "C" !in c.pins {
            return false;
          }
          match c.pins["C"] {
            case Constant(_) => final := "ha";
            case Net(s) => ins := ins[2 := s];
          }
        }
      }
      var g := Gate(final, ins, outs);
      assert ins == [ins[0], ins[1], ins[2]] && outs == [outs[0], outs[1], outs[2]];
      assert GateOf(c, name) == Some(g);
      gates := gates + [g];
      gateIndex := gateIndex + 1;
      return true;
    }

    /** The nets the cell drives are listed, and their driver is the gate it becomes. */
    method AddCell(c: Cell) returns (ok: bool)
      requires Valid()
      modifies this
      ensures Valid()
      ensures ok ==> WithCell(old(Value()), c) == Some(Value())
      ensures !ok ==> WithCell(old(Value()), c).None?
      ensures ok ==> |gates| == old(|gates|) + if IsRegister(c) then 0 else 1
      ensures ok ==> forall b: nat :: Drives(c, b) ==> (b in wires || b in outputs) && b < |drivers| && drivers[b] == |gates|
    {
      var name := GateName(c.kind);
      if name.None? {
        return false;
      }
      if name.value == "SDFF_PP0" {
        var q, d := Pin(c, "Q"), Pin(c, "D");
        if q.None? || d.None? {
          return false;
        }
        dffQ, dffD := dffQ + [q.value], dffD + [d.value];
        return true;
      }
      ok := AddGate(c, name.value);
    }

    method AddPorts(ports: seq<Port>) returns (ok: bool)
      requires Valid()
      modifies this
      ensures Valid()
      ensures ok ==> WithPorts(old(Value()), ports) == Some(Value())
      ensures !ok ==> WithPorts(old(Value()), ports).None?
    {
      ghost var start := Value();
      for i := 0 to |ports|
        invariant Valid() && WithPorts(start, ports[..i]) == Some(Value())
      {
        ok := AddPort(ports[i]);
        assert ports[..i + 1][..i] == ports[..i];
        if !ok {
          PortsStop(start, ports, i + 1);
          return;
        }
      }
      assert ports[..|ports|] == ports;
      return true;
    }

    method AddCells(cells: seq<Cell>) returns (ok: bool)
      requires Valid()
      modifies this
      ensures Valid()
      ensures ok ==> WithCells(old(Value()), cells) == Some(Value())
      ensures !ok ==> WithCells(old(Value()), cells).None?
    {
      ghost var start := Value();
      for i := 0 to |cells|
        invariant Valid() && WithCells(start, cells[..i]) == Some(Value())
      {
        ok := AddCell(cells[i]);
        assert cells[..i + 1][..i] == cells[..i];
        if !ok {
          CellsStop(start, cells, i + 1);
          return;
        }
      }
      assert cells[..|cells|] == cells;
      return true;
    }

    method AddModule(m: Module) returns (ok: bool)
      requires Valid()
      modifies this
      ensures Valid()
      ensures ok ==> WithModule(old(Value()), m) == Some(Value())
      ensures !ok ==> WithModule(old(Value()), m).None?
    {
      ok := AddPorts(m.ports);
      if ok {
        ok := AddCells(m.cells);
      }
    }

    /** The constructor's whole work; false where it throws. */
    method Load(modules: seq<Module>) returns (ok: bool)
      requires Valid() && Value() == Empty
      modifies this
      ensures ok ==> Parsed(modules) == Some(Value())
      ensures !ok ==> Parsed(modules).None?
    {
      for i := 0 to |modules|
        invariant Valid() && WithModules(modules[..i]) == Some(Value())
      {
        ok := AddModule(modules[i]);
        assert modules[..i + 1][..i] == modules[..i];
        if !ok {
          ModulesStop(modules, i + 1);
          return;
        }
      }
      assert modules[..|modules|] == modules;
      Finish();
      ok := true;
    }

    method Finish()
      modifies this`direct, this`inputs, this`outputs, this`wires
      ensures Value() == Finished(old(Value()))
    {
      PairRegisters();
      inputs := Sort(inputs);
      outputs := Sort(outputs);
      wires := Sort(wires);
    }

    method PairRegisters()
      modifies this`direct
      ensures direct == old(direct) + DirectPairs(dffQ, outputs)
    {
      ghost var pairs: seq<(nat, nat)> := [];
      for i := 0 to |dffQ|
        invariant direct == old(direct) + pairs && pairs == DirectPairs(dffQ[..i], outputs)
      {
        assert dffQ[..i + 1][..i] == dffQ[..i];
        if dffQ[i] in outputs {
          direct := direct + [(dffQ[i], dffQ[i])];
          pairs := pairs + [(dffQ[i], dffQ[i])];
        }
      }
      assert dffQ[..|dffQ|] == dffQ;
    }
  }

  lemma {:induction false} PortsStop(n: Netlist, ports: seq<Port>, i: nat)
    requires i <= |ports| && WithPorts(n, ports[..i]).None?
    ensures WithPorts(n, ports).None?
    decreases |ports| - i
  {
    if i < |ports| {
      assert ports[..i + 1][..i] == ports[..i];
      PortsStop(n, ports, i + 1);
    } else {
      assert ports[..i] == ports;
    }
  }

  lemma {:induction false} CellsStop(n: Netlist, cells: seq<Cell>, i: nat)
    requires i <= |cells| && WithCells(n, cells[..i]).None?
    ensures WithCells(n, cells).None?
    decreases |cells| - i
  {
    if i < |cells| {
      assert cells[..i + 1][..i] == cells[..i];
      CellsStop(n, cells, i + 1);
    } else {
      assert cells[..i] == cells;
    }
  }

  lemma {:induction false} ModulesStop(modules: seq<Module>, i: nat)
    requires i <= |modules| && WithModules(modules[..i]).None?
    ensures WithModules(modules).None?
    decreases |modules| - i
  {
    if i < |modules| {
      assert modules[..i + 1][..i] == modules[..i];
      ModulesStop(modules, i + 1);
    } else {
      assert modules[..i] == modules;
    }
  }
}
