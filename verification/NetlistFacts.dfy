/** What the parser's loops keep, for any number of modules and cells. */
module NetlistFacts {
  import opened Options
  import opened Lists
  import opened Netlists

  predicate Shaped(g: Gate) { |g.ins| == 3 && |g.outs| == 3 }

  predicate AllShaped(n: Netlist) {
    forall i :: 0 <= i < |n.gates| ==> Shaped(n.gates[i])
  }

  // ---------- gates, drivers and registers, by cell ----------

  /** The cells that become gates, in order. */
  function Combinational(cells: seq<Cell>): seq<Cell> {
    if cells == [] then []
    else
      var c := cells[|cells| - 1];
      var before := Combinational(cells[..|cells| - 1]);
      if IsRegister(c) then before else before + [c]
  }

  /** The registers, in order. */
  function Registers(cells: seq<Cell>): seq<Cell> {
    if cells == [] then []
    else
      var c := cells[|cells| - 1];
      var before := Registers(cells[..|cells| - 1]);
      if IsRegister(c) then before + [c] else before
  }

  /** 1-based position of the last cell driving a net; 0 when there is none. */
  function LastDriver(cells: seq<Cell>, b: nat): (k: nat)
    ensures k <= |cells|
    ensures k == 0 <==> forall i :: 0 <= i < |cells| ==> !Drives(cells[i], b)
    ensures k > 0 ==> Drives(cells[k - 1], b) && forall i :: k <= i < |cells| ==> !Drives(cells[i], b)
  {
    if cells == [] then 0
    else if Drives(cells[|cells| - 1], b) then |cells|
    else LastDriver(cells[..|cells| - 1], b)
  }

  /** Gate i is the i-th combinational cell. */
  ghost predicate GatesExact(n: Netlist, gates: seq<Cell>) {
    && |n.gates| == |gates|
    && (forall i :: 0 <= i < |gates| ==>
          && !IsRegister(gates[i]) && GateName(gates[i].kind).Some?
          && GateOf(gates[i], GateName(gates[i].kind).value) == Some(n.gates[i]))
  }

  ghost predicate DriversExact(n: Netlist, gates: seq<Cell>) {
    forall b: nat :: (if b < |n.drivers| then n.drivers[b] else 0) == LastDriver(gates, b)
  }

  ghost predicate RegistersPaired(n: Netlist, rs: seq<Cell>) {
    && |n.dffQ| == |n.dffD| == |rs|
    && (forall i :: 0 <= i < |rs| ==> Pin(rs[i], "Q") == Some(n.dffQ[i]) && Pin(rs[i], "D") == Some(n.dffD[i]))
  }

  /** The netlist's gates, driver index and registers are those of the cells read so far. */
  ghost predicate Indexed(n: Netlist, gates: seq<Cell>, rs: seq<Cell>) {
    GatesExact(n, gates) && DriversExact(n, gates) && RegistersPaired(n, rs)
  }

  lemma LastDriverNext(gates: seq<Cell>, c: Cell, b: nat)
    ensures LastDriver(gates + [c], b) == if Drives(c, b) then |gates| + 1 else LastDriver(gates, b)
  {
    assert (gates + [c])[..|gates|] == gates;
  }

  lemma DrivenDrivers(n: Netlist, bit: nat, b: nat)
    ensures var d, d' := n.drivers, Driven(n, bit).drivers;
            (if b < |d'| then d'[b] else 0) == if b == bit then |n.gates| + 1 else if b < |d| then d[b] else 0
  {
  }

  lemma CellKeepsDrivers(n: Netlist, gates: seq<Cell>, c: Cell)
    requires |n.gates| == |gates| && DriversExact(n, gates) && !IsRegister(c) && WithCell(n, c).Some?
    ensures DriversExact(WithCell(n, c).value, gates + [c])
  {
    var g := GateOf(c, GateName(c.kind).value).value;
    var n1, n' := Driven(n, g.outs[0]), WithCell(n, c).value;
    forall b: nat
      ensures (if b < |n'.drivers| then n'.drivers[b] else 0) == LastDriver(gates + [c], b)
    {
      DrivenDrivers(n, g.outs[0], b);
      if SecondOutput(c).Some? {
        DrivenDrivers(n1, SecondOutput(c).value, b);
      }
      LastDriverNext(gates, c, b);
    }
  }

  lemma GateKeepsIndexed(n: Netlist, gates: seq<Cell>, rs: seq<Cell>, c: Cell)
    requires Indexed(n, gates, rs) && WithCell(n, c).Some? && !IsRegister(c)
    ensures Indexed(WithCell(n, c).value, gates + [c], rs)
  {
    CellKeepsDrivers(n, gates, c);
  }

  lemma RegisterKeepsIndexed(n: Netlist, gates: seq<Cell>, rs: seq<Cell>, c: Cell)
    requires Indexed(n, gates, rs) && WithCell(n, c).Some? && IsRegister(c)
    ensures Indexed(WithCell(n, c).value, gates, rs + [c])
  {
  }

  lemma CellKeepsIndexed(n: Netlist, gates: seq<Cell>, rs: seq<Cell>, c: Cell)
    requires Indexed(n, gates, rs) && WithCell(n, c).Some?
    ensures if IsRegister(c) then Indexed(WithCell(n, c).value, gates, rs + [c])
            else Indexed(WithCell(n, c).value, gates + [c], rs)
  {
    if IsRegister(c) {
      RegisterKeepsIndexed(n, gates, rs, c);
    } else {
      GateKeepsIndexed(n, gates, rs, c);
    }
  }

  lemma Appended(a: seq<Cell>, b: seq<Cell>, c: Cell)
    ensures a + (b + [c]) == (a + b) + [c]
  {
  }

  lemma {:induction false} CellsKeepIndexed(n: Netlist, gates: seq<Cell>, rs: seq<Cell>, cells: seq<Cell>)
    requires Indexed(n, gates, rs) && WithCells(n, cells).Some?
    ensures Indexed(WithCells(n, cells).value, gates + Combinational(cells), rs + Registers(cells))
  {
    if cells == [] {
      assert gates + [] == gates && rs + [] == rs;
    } else {
      var k := |cells| - 1;
      CellsKeepIndexed(n, gates, rs, cells[..k]);
      var g, r, c := Combinational(cells[..k]), Registers(cells[..k]), cells[k];
      CellKeepsIndexed(WithCells(n, cells[..k]).value, gates + g, rs + r, c);
      if IsRegister(c) {
        Appended(rs, r, c);
      } else {
        Appended(gates, g, c);
      }
    }
  }

  // ---------- nets, by module ----------

  ghost predicate DrivenIn(cells: seq<Cell>, b: nat) {
    exists i :: 0 <= i < |cells| && Drives(cells[i], b)
  }

  ghost predicate Exports(ports: seq<Port>, b: nat) {
    exists i :: 0 <= i < |ports| && ports[i].direction == "output" && Net(b) in ports[i].bits
  }

  /** Some module before position k has the net as an output port. */
  ghost predicate Exported(ms: seq<Module>, k: nat, b: nat) {
    exists i :: 0 <= i < k <= |ms| && Exports(ms[i].ports, b)
  }

  /** Some module drives the net while no module up to it exports it. */
  ghost predicate Wired(ms: seq<Module>, b: nat) {
    exists j :: 0 <= j < |ms| && DrivenIn(ms[j].cells, b) && !Exported(ms, j + 1, b)
  }

  /** Outputs are the exported nets; wires, each listed once, the nets driven before export. */
  ghost predicate NetsExact(n: Netlist, ms: seq<Module>) {
    && (forall b: nat :: b in n.outputs <==> Exported(ms, |ms|, b))
    && (forall b: nat :: b in n.wires <==> Wired(ms, b))
    && NoDup(n.wires)
  }

  /** What a caller can check on the netlist text: a net that a module drives and that is an
      output port at all is an output port of that module or of an earlier one. */
  ghost predicate Separated(ms: seq<Module>) {
    forall j, b: nat :: 0 <= j < |ms| && DrivenIn(ms[j].cells, b) && Exported(ms, |ms|, b) ==> Exported(ms, j + 1, b)
  }

  lemma PortOutputs(n: Netlist, p: Port, b: nat)
    requires WithPort(n, p).Some?
    ensures b in WithPort(n, p).value.outputs <==> b in n.outputs || (p.direction == "output" && Net(b) in p.bits)
  {
    var nets := NetsOf(p.bits).value;
    if Net(b) in p.bits {
      var i :| 0 <= i < |p.bits| && p.bits[i] == Net(b);
      assert nets[i] == b;
    }
    if b in nets {
      var i :| 0 <= i < |nets| && nets[i] == b;
      assert p.bits[i] == Net(b);
    }
  }

  lemma {:induction false} PortsOutputs(n: Netlist, ports: seq<Port>, b: nat)
    requires WithPorts(n, ports).Some?
    ensures b in WithPorts(n, ports).value.outputs <==> b in n.outputs || Exports(ports, b)
    ensures var r := WithPorts(n, ports).value;
            r == n.(inputs := r.inputs, outputs := r.outputs)
  {
    if ports != [] {
      var k := |ports| - 1;
      PortsOutputs(n, ports[..k], b);
      PortOutputs(WithPorts(n, ports[..k]).value, ports[k], b);
      if Exports(ports[..k], b) {
        var i :| 0 <= i < k && ports[..k][i].direction == "output" && Net(b) in ports[..k][i].bits;
        assert ports[i].direction == "output" && Net(b) in ports[i].bits;
      }
      if Exports(ports, b) {
        var i :| 0 <= i < |ports| && ports[i].direction == "output" && Net(b) in ports[i].bits;
        assert i < k ==> ports[..k][i] == ports[i];
      }
    }
  }

  lemma DrivenWires(n: Netlist, bit: nat)
    requires NoDup(n.wires)
    ensures NoDup(Driven(n, bit).wires) && Driven(n, bit).outputs == n.outputs
    ensures forall b: nat :: b in Driven(n, bit).wires <==> b in n.wires || (b == bit && b !in n.outputs)
  {
  }

  lemma CellWires(n: Netlist, c: Cell)
    requires NoDup(n.wires) && WithCell(n, c).Some?
    ensures var r := WithCell(n, c).value;
            && NoDup(r.wires) && r.outputs == n.outputs
            && (forall b: nat :: b in r.wires <==> b in n.wires || (b !in n.outputs && Drives(c, b)))
  {
    if !IsRegister(c) {
      var g := GateOf(c, GateName(c.kind).value).value;
      DrivenWires(n, g.outs[0]);
      if SecondOutput(c).Some? {
        DrivenWires(Driven(n, g.outs[0]), SecondOutput(c).value);
      }
    }
  }

  lemma {:induction false} CellsWires(n: Netlist, cells: seq<Cell>)
    requires NoDup(n.wires) && WithCells(n, cells).Some?
    ensures var r := WithCells(n, cells).value;
            && NoDup(r.wires) && r.outputs == n.outputs
            && (forall b: nat :: b in r.wires <==> b in n.wires || (b !in n.outputs && DrivenIn(cells, b)))
  {
    if cells != [] {
      var k := |cells| - 1;
      CellsWires(n, cells[..k]);
      CellWires(WithCells(n, cells[..k]).value, cells[k]);
      forall b: nat
        ensures DrivenIn(cells, b) <==> DrivenIn(cells[..k], b) || Drives(cells[k], b)
      {
        DrivenLast(cells, b);
      }
    }
  }

  lemma DrivenLast(cells: seq<Cell>, b: nat)
    requires cells != []
    ensures DrivenIn(cells, b) <==> DrivenIn(cells[..|cells| - 1], b) || Drives(cells[|cells| - 1], b)
  {
    var k := |cells| - 1;
    if DrivenIn(cells[..k], b) {
      var i :| 0 <= i < k && Drives(cells[..k][i], b);
      assert Drives(cells[i], b);
    }
    if DrivenIn(cells, b) {
      var i :| 0 <= i < |cells| && Drives(cells[i], b);
      assert i < k ==> Drives(cells[..k][i], b);
    }
  }

  // ---------- any number of modules ----------

  /** The cells of all modules that become gates, in reading order. */
  function GateCells(ms: seq<Module>): seq<Cell> {
    if ms == [] then [] else GateCells(ms[..|ms| - 1]) + Combinational(ms[|ms| - 1].cells)
  }

  /** The registers of all modules, in reading order. */
  function RegisterCells(ms: seq<Module>): seq<Cell> {
    if ms == [] then [] else RegisterCells(ms[..|ms| - 1]) + Registers(ms[|ms| - 1].cells)
  }

  lemma ExportedEarlier(ms: seq<Module>, j: nat, b: nat)
    requires ms != [] && j < |ms|
    ensures Exported(ms, j, b) <==> Exported(ms[..|ms| - 1], j, b)
  {
    var k := |ms| - 1;
    assert forall i :: 0 <= i < k ==> ms[..k][i] == ms[i];
  }

  lemma WiredLast(ms: seq<Module>, b: nat)
    requires ms != []
    ensures Exported(ms, |ms|, b) <==> Exported(ms[..|ms| - 1], |ms| - 1, b) || Exports(ms[|ms| - 1].ports, b)
    ensures Wired(ms, b) <==> Wired(ms[..|ms| - 1], b) || (DrivenIn(ms[|ms| - 1].cells, b) && !Exported(ms, |ms|, b))
  {
    var k := |ms| - 1;
    ExportedEarlier(ms, k, b);
    if Wired(ms[..k], b) {
      var j :| 0 <= j < k && DrivenIn(ms[..k][j].cells, b) && !Exported(ms[..k], j + 1, b);
      ExportedEarlier(ms, j + 1, b);
      assert DrivenIn(ms[j].cells, b);
    }
    if Wired(ms, b) {
      var j :| 0 <= j < |ms| && DrivenIn(ms[j].cells, b) && !Exported(ms, j + 1, b);
      if j < k {
        ExportedEarlier(ms, j + 1, b);
        assert DrivenIn(ms[..k][j].cells, b);
      }
    }
  }

  lemma ModuleNets(n: Netlist, ms: seq<Module>)
    requires ms != [] && NetsExact(n, ms[..|ms| - 1]) && WithModule(n, ms[|ms| - 1]).Some?
    ensures NetsExact(WithModule(n, ms[|ms| - 1]).value, ms)
  {
    var m := ms[|ms| - 1];
    var ported := WithPorts(n, m.ports).value;
    PortsOutputs(n, m.ports, 0);
    CellsWires(ported, m.cells);
    forall b: nat
      ensures b in ported.outputs <==> b in n.outputs || Exports(m.ports, b)
      ensures Exported(ms, |ms|, b) <==> Exported(ms[..|ms| - 1], |ms| - 1, b) || Exports(m.ports, b)
      ensures Wired(ms, b) <==> Wired(ms[..|ms| - 1], b) || (DrivenIn(m.cells, b) && !Exported(ms, |ms|, b))
    {
      PortsOutputs(n, m.ports, b);
      WiredLast(ms, b);
    }
  }

  lemma ModuleIndexed(n: Netlist, gates: seq<Cell>, rs: seq<Cell>, m: Module)
    requires Indexed(n, gates, rs) && WithModule(n, m).Some?
    ensures Indexed(WithModule(n, m).value, gates + Combinational(m.cells), rs + Registers(m.cells))
  {
    PortsOutputs(n, m.ports, 0);
    CellsKeepIndexed(WithPorts(n, m.ports).value, gates, rs, m.cells);
  }

  lemma {:induction false} ModulesNets(ms: seq<Module>)
    requires WithModules(ms).Some?
    ensures NetsExact(WithModules(ms).value, ms)
  {
    if ms != [] {
      ModulesNets(ms[..|ms| - 1]);
      ModuleNets(WithModules(ms[..|ms| - 1]).value, ms);
    }
  }

  lemma {:induction false} ModulesIndexed(ms: seq<Module>)
    requires WithModules(ms).Some?
    ensures Indexed(WithModules(ms).value, GateCells(ms), RegisterCells(ms))
  {
    if ms != [] {
      var before := ms[..|ms| - 1];
      ModulesIndexed(before);
      ModuleIndexed(WithModules(before).value, GateCells(before), RegisterCells(before), ms[|ms| - 1]);
    }
  }

  /** Every netlist the parser accepts, however many modules and cells it has: outputs are the
      exported nets; wires are duplicate-free and exactly the nets some module drives before
      any module up to it exports them; gates are the combinational cells in order; the driver
      index names each net's last driver and no other; registers stay paired. */
  lemma ParserFacts(ms: seq<Module>)
    requires Parsed(ms).Some?
    ensures var n := Parsed(ms).value;
            NetsExact(n, ms) && Indexed(n, GateCells(ms), RegisterCells(ms)) && AllShaped(n)
  {
    ModulesNets(ms);
    ModulesIndexed(ms);
    var n := WithModules(ms).value;
    SortKeepsMembers(n.wires);
    SortKeepsMembers(n.outputs);
    SortKeepsNoDup(n.wires);
  }

  ghost predicate Disjoint(n: Netlist) {
    forall b: nat :: b in n.wires ==> b !in n.outputs
  }

  /** Wires and outputs are disjoint exactly for separated module lists. */
  lemma DisjointIffSeparated(ms: seq<Module>)
    requires Parsed(ms).Some?
    ensures Disjoint(Parsed(ms).value) <==> Separated(ms)
  {
    ParserFacts(ms);
    var n := Parsed(ms).value;
    if Disjoint(n) {
      forall j, b: nat | 0 <= j < |ms| && DrivenIn(ms[j].cells, b) && Exported(ms, |ms|, b)
        ensures Exported(ms, j + 1, b)
      {
        assert b in n.outputs && b !in n.wires && !Wired(ms, b);
      }
    }
    if Separated(ms) {
      forall b: nat | b in n.wires
        ensures b !in n.outputs
      {
        assert Wired(ms, b);
        var j :| 0 <= j < |ms| && DrivenIn(ms[j].cells, b) && !Exported(ms, j + 1, b);
      }
    }
  }

  /** One module is always separated: its ports are read before its cells. */
  lemma OneModuleSeparated(m: Module)
    ensures Separated([m])
  {
  }

  lemma {:induction false} CombinationalDriven(cells: seq<Cell>, b: nat)
    ensures DrivenIn(Combinational(cells), b) <==> DrivenIn(cells, b)
  {
    if cells != [] {
      var k := |cells| - 1;
      CombinationalDriven(cells[..k], b);
      DrivenLast(cells, b);
      if !IsRegister(cells[k]) {
        var all := Combinational(cells);
        assert all[..|all| - 1] == Combinational(cells[..k]);
        DrivenLast(all, b);
      } else {
        assert Combinational(cells) == Combinational(cells[..k]);
      }
    }
  }

  lemma {:induction false} DrivenInModule(ms: seq<Module>, b: nat)
    requires DrivenIn(GateCells(ms), b)
    ensures exists j :: 0 <= j < |ms| && DrivenIn(ms[j].cells, b)
  {
    var k := |ms| - 1;
    var before, last := GateCells(ms[..k]), Combinational(ms[k].cells);
    var i :| 0 <= i < |GateCells(ms)| && Drives(GateCells(ms)[i], b);
    if i < |before| {
      assert Drives(before[i], b);
      DrivenInModule(ms[..k], b);
      var j :| 0 <= j < k && DrivenIn(ms[..k][j].cells, b);
      assert DrivenIn(ms[j].cells, b);
    } else {
      assert Drives(last[i - |before|], b);
      CombinationalDriven(ms[k].cells, b);
    }
  }

  /** Every net a gate drives, its second output included, is a wire or an output. */
  lemma DrivenNetListed(ms: seq<Module>, i: nat, b: nat)
    requires Parsed(ms).Some? && i < |GateCells(ms)| && Drives(GateCells(ms)[i], b)
    ensures b in Parsed(ms).value.wires || b in Parsed(ms).value.outputs
  {
    ParserFacts(ms);
    assert DrivenIn(GateCells(ms), b);
    DrivenInModule(ms, b);
    var j :| 0 <= j < |ms| && DrivenIn(ms[j].cells, b);
    if Exported(ms, j + 1, b) {
      assert Exported(ms, |ms|, b);
    } else {
      assert Wired(ms, b);
    }
  }

  /** The first output of every gate is a wire or an output. */
  lemma GateNetListed(ms: seq<Module>, k: nat)
    requires Parsed(ms).Some? && AllShaped(Parsed(ms).value) && k < |Parsed(ms).value.gates|
    ensures var n := Parsed(ms).value;
            n.gates[k].outs[0] in n.wires || n.gates[k].outs[0] in n.outputs
  {
    ParserFacts(ms);
    var n := Parsed(ms).value;
    var cells := GateCells(ms);
    assert Drives(cells[k], n.gates[k].outs[0]);
    DrivenNetListed(ms, k, n.gates[k].outs[0]);
  }

  // ---------- registers whose output is a port ----------

  /** `at` are the positions in q, in order, of the nets in a set, and pairs lists each of those
      nets with itself. */
  ghost predicate PairsAt(pairs: seq<(nat, nat)>, q: seq<nat>, at: seq<nat>, wanted: nat -> bool) {
    && |pairs| == |at| && (forall k, l :: 0 <= k < l < |at| ==> at[k] < at[l])
    && (forall k :: 0 <= k < |at| ==> at[k] < |q| && wanted(q[at[k]]) && pairs[k] == (q[at[k]], q[at[k]]))
    && (forall i :: 0 <= i < |q| && wanted(q[i]) ==> i in at)
  }

  lemma PairsKept(pairs: seq<(nat, nat)>, q: seq<nat>, at: seq<nat>, wanted: nat -> bool, x: nat)
    requires PairsAt(pairs, q, at, wanted) && !wanted(x)
    ensures PairsAt(pairs, q + [x], at, wanted)
  {
  }

  lemma PairsNext(pairs: seq<(nat, nat)>, q: seq<nat>, at: seq<nat>, wanted: nat -> bool, x: nat)
    requires PairsAt(pairs, q, at, wanted) && wanted(x)
    ensures PairsAt(pairs + [(x, x)], q + [x], at + [|q|], wanted)
  {
    var at' := at + [|q|];
    forall i | 0 <= i < |q| + 1 && wanted((q + [x])[i])
      ensures i in at'
    {
      if i < |q| {
        assert i in at;
      } else {
        assert at'[|at|] == i;
      }
    }
  }

  lemma DirectPairsNext(q: seq<nat>, outputs: seq<nat>, x: nat)
    ensures DirectPairs(q + [x], outputs) == DirectPairs(q, outputs) + (if x in outputs then [(x, x)] else [])
  {
    assert (q + [x])[..|q|] == q;
  }

  lemma {:induction false} DirectPairsAt(q: seq<nat>, outputs: seq<nat>, wanted: nat -> bool) returns (at: seq<nat>)
    requires forall b: nat :: wanted(b) <==> b in outputs
    ensures PairsAt(DirectPairs(q, outputs), q, at, wanted)
  {
    if q == [] {
      at := [];
    } else {
      var n := |q| - 1;
      var before, x := q[..n], q[n];
      at := DirectPairsAt(before, outputs, wanted);
      assert q == before + [x];
      DirectPairsNext(before, outputs, x);
      if wanted(x) {
        PairsNext(DirectPairs(before, outputs), before, at, wanted, x);
        at := at + [n];
      } else {
        PairsKept(DirectPairs(before, outputs), before, at, wanted, x);
        assert DirectPairs(before, outputs) + [] == DirectPairs(before, outputs);
      }
    }
  }

  lemma {:induction false} CellsDirect(n: Netlist, cells: seq<Cell>)
    requires WithCells(n, cells).Some?
    ensures WithCells(n, cells).value.direct == n.direct
  {
    if cells != [] {
      CellsDirect(n, cells[..|cells| - 1]);
    }
  }

  lemma {:induction false} ModulesDirect(ms: seq<Module>)
    requires WithModules(ms).Some?
    ensures WithModules(ms).value.direct == []
  {
    if ms != [] {
      var before, m := ms[..|ms| - 1], ms[|ms| - 1];
      ModulesDirect(before);
      var n := WithModules(before).value;
      PortsOutputs(n, m.ports, 0);
      CellsDirect(WithPorts(n, m.ports).value, m.cells);
    }
  }

  /** The direct pairs of a parsed netlist: one (q, q) for each register whose Q net some module
      exports, in register order, and no other. */
  lemma DirectExact(ms: seq<Module>) returns (at: seq<nat>)
    requires Parsed(ms).Some?
    ensures PairsAt(Parsed(ms).value.direct, Parsed(ms).value.dffQ, at, (b: nat) => Exported(ms, |ms|, b))
  {
    var n := WithModules(ms).value;
    ModulesDirect(ms);
    ModulesNets(ms);
    at := DirectPairsAt(n.dffQ, n.outputs, (b: nat) => Exported(ms, |ms|, b));
    assert [] + DirectPairs(n.dffQ, n.outputs) == DirectPairs(n.dffQ, n.outputs);
  }

  // ---------- a list of modules that is not separated ----------

  // The second module exports a net the first one drove internally.
  const FirstModule := Module([], [Cell("$_NOT_", map["A" := Net(1), "Y" := Net(2)])])
  const SecondModule := Module([Port("output", [Net(2)])], [])

  lemma NotName()
    ensures GateName("$_NOT_") == Some("NOT")
  {
    var k := "$_NOT_";
    assert |k| == 6 && k[2] == 'N' && k[3] == 'O' && k[4] == 'T';
    assert k[2..5] == [k[2], k[3], k[4]] == "NOT";
  }

  lemma OverlapParses() returns (n: Netlist)
    ensures Parsed([FirstModule, SecondModule]) == Some(n)
  {
    var ms := [FirstModule, SecondModule];
    var one := [FirstModule];
    assert ms[..1] == one && one[..0] == [];
    var c := FirstModule.cells[0];
    NotName();
    assert FirstModule.cells[..0] == [] && FirstModule.ports == [];
    var n1 := WithGate(Empty, GateOf(c, "NOT").value, None);
    assert WithModules(one) == Some(n1);
    var p := SecondModule.ports[0];
    assert AllNets(p.bits);
    assert SecondModule.ports == [p] && [p][..0] == [];
    assert WithPorts(n1, SecondModule.ports) == WithPort(n1, p);
    n := Finished(WithModules(ms).value);
  }

  lemma OverlapNets()
    ensures var ms := [FirstModule, SecondModule];
            DrivenIn(ms[0].cells, 2) && !Exported(ms, 1, 2) && Exports(ms[1].ports, 2)
  {
    var c := FirstModule.cells[0];
    NotName();
    assert Drives(c, 2);
    assert SecondModule.ports[0].bits[0] == Net(2);
  }

  /** With several modules the wire list can overlap the outputs. */
  lemma TwoModulesOverlap()
    ensures Parsed([FirstModule, SecondModule]).Some? && !Separated([FirstModule, SecondModule])
    ensures var n := Parsed([FirstModule, SecondModule]).value;
            2 in n.wires && 2 in n.outputs
  {
    var ms := [FirstModule, SecondModule];
    var n := OverlapParses();
    OverlapNets();
    OverlapFollows(ms, n);
  }

  lemma OverlapFollows(ms: seq<Module>, n: Netlist)
    requires Parsed(ms) == Some(n) && |ms| == 2 && DrivenIn(ms[0].cells, 2) && !Exported(ms, 1, 2) && Exports(ms[1].ports, 2)
    ensures !Separated(ms) && 2 in n.wires && 2 in n.outputs
  {
    ParserFacts(ms);
    assert Exported(ms, 2, 2) && Wired(ms, 2);
  }
}
