/** What the RAM calls and trees of them compute: selections, said of the values the selectors
    and operands had, without the functions that evaluate calls.
 */
module RamMeaning {
  import opened Options
  import opened Runtime
  import opened Backend
  import opened BackendRuns
  import opened BackendData
  import opened BackendCaptures
  import opened BackendProgress

  /** How values are read: which of them select, and what they stand for. */
  datatype Reading<!V, !M> = Reading(pick: V -> bool, decode: V -> M)

  /** The ciphertext CMUX selects, up to what `decode` does not see, such as noise. */
  ghost predicate Selects<V(!new), M>(sem: Semantics<V>, rd: Reading<V, M>) {
    forall s, t, f {:trigger sem.cmux(s, t, f)} ::
      rd.decode(sem.cmux(s, t, f)) == if rd.pick(s) then rd.decode(t) else rd.decode(f)
  }

  /** A CMUX leaves in its output what the selected operand held, whether the output is neither
      operand, the one selected when true, or the one selected when false; and nothing else
      changes. */
  lemma CmuxSelects<V(!new), M>(sem: Semantics<V>, rd: Reading<V, M>, out: Address, s: Address, t: Address, f: Address,
                                memory: map<Address, V>)
    requires Selects(sem, rd) && out != s && !(out == t && out == f)
    requires out in memory && s in memory && t in memory && f in memory
    ensures var m' := Apply(CallTask(sem, CmuxCall(out, s, t, f)), memory);
            && m'.Keys == memory.Keys
            && rd.decode(m'[out]) == (if rd.pick(memory[s]) then rd.decode(memory[t]) else rd.decode(memory[f]))
            && (forall a :: a in memory && a != out ==> m'[a] == memory[a])
  {
    var call := CmuxCall(out, s, t, f);
    CmuxWellFormed(out, s, t, f);
    assert Operands(call) == [s, t, f];
    ApplyIsUpdate(sem, call, memory);
  }

  /** A MUX without sample extraction: the output stands for what the selected TLWE operand does,
      under the reading `after` of its own kind of value. */
  lemma MuxWoSESelects<V(!new), M>(sem: Semantics<V>, rd: Reading<V, M>, after: V -> M, k: KeyId,
                                   out: Address, s: Address, t: Address, f: Address, memory: map<Address, V>)
    requires forall x, y, z {:trigger sem.muxWoSE(k, x, y, z)} ::
               after(sem.muxWoSE(k, x, y, z)) == if rd.pick(x) then rd.decode(y) else rd.decode(z)
    requires out != s && out != t && out != f && out in memory && s in memory && t in memory && f in memory
    ensures var m' := Apply(CallTask(sem, MuxWoSECall(out, s, t, f, k)), memory);
            && m'.Keys == memory.Keys
            && after(m'[out]) == (if rd.pick(memory[s]) then rd.decode(memory[t]) else rd.decode(memory[f]))
            && (forall a :: a in memory && a != out ==> m'[a] == memory[a])
  {
    var call := MuxWoSECall(out, s, t, f, k);
    assert Operands(call) == [s, t, f];
    ApplyIsUpdate(sem, call, memory);
  }

  // ---------- trees ----------

  /** The values a tree's calls write, in order. */
  function Nodes(tree: Tree): seq<Address> {
    match tree
    case Leaf(_) => []
    case Node(out, _, t, f) => Nodes(t) + Nodes(f) + [out]
  }

  /** The leaves and selectors. */
  function Inputs(tree: Tree): set<Address> {
    match tree
    case Leaf(a) => {a}
    case Node(_, s, t, f) => {s} + Inputs(t) + Inputs(f)
  }

  /** The leaf the selectors lead to. */
  function Addressed<V, M>(rd: Reading<V, M>, tree: Tree, memory: map<Address, V>): (a: Address)
    requires Inputs(tree) <= memory.Keys
    ensures a in Inputs(tree)
  {
    match tree
    case Leaf(a) => a
    case Node(_, s, t, f) => if rd.pick(memory[s]) then Addressed(rd, t, memory) else Addressed(rd, f, memory)
  }

  /** No call overwrites what a later one still needs: the first subtree spares the second's
      leaves and selectors, the second the first's result, and both the selector. A node may be
      written over one of its operands, and scratch values may be used again. */
  ghost predicate Undisturbed(tree: Tree) {
    tree.Node? ==>
      var t, f, s := tree.whenTrue, tree.whenFalse, tree.select;
      && Undisturbed(t) && Undisturbed(f)
      && (forall a :: a in Nodes(t) ==> a !in Inputs(f) && a != s)
      && (forall a :: a in Nodes(f) ==> a != s && a != Root(t))
      && tree.output != s && !(tree.output == Root(t) && tree.output == Root(f))
  }

  lemma {:induction false} AddressedLeaf<V, M>(rd: Reading<V, M>, tree: Tree, memory: map<Address, V>, memory': map<Address, V>)
    requires Inputs(tree) <= memory.Keys && Inputs(tree) <= memory'.Keys
    requires forall a :: a in Inputs(tree) ==> memory'[a] == memory[a]
    ensures Addressed(rd, tree, memory') == Addressed(rd, tree, memory)
  {
    if tree.Node? {
      AddressedLeaf(rd, tree.whenTrue, memory, memory');
      AddressedLeaf(rd, tree.whenFalse, memory, memory');
    }
  }

  lemma FoldSnoc<V>(sem: Semantics<V>, calls: seq<Call>, call: Call, memory: map<Address, V>)
    requires AllExist(calls, memory.Keys) && Exists(call, memory.Keys)
    ensures AllExist(calls + [call], memory.Keys)
    ensures var before := Fold(sem, calls, memory);
            Exists(call, before.Keys) && Fold(sem, calls + [call], memory) == before[Output(call) := Result(sem, before, call)]
  {
    assert (calls + [call])[..|calls|] == calls;
  }

  lemma ExistTogether(first: seq<Call>, second: seq<Call>, objects: set<Address>)
    requires AllExist(first, objects) && AllExist(second, objects)
    ensures AllExist(first + second, objects)
  {
  }

  lemma {:induction false} FoldConcat<V>(sem: Semantics<V>, first: seq<Call>, second: seq<Call>, memory: map<Address, V>)
    requires AllExist(first, memory.Keys) && AllExist(second, memory.Keys)
    ensures AllExist(first + second, memory.Keys)
    ensures Fold(sem, first + second, memory) == Fold(sem, second, Fold(sem, first, memory))
    decreases |second|
  {
    ExistTogether(first, second, memory.Keys);
    if second == [] {
      assert first + second == first;
    } else {
      var n := |second| - 1;
      var init, last := second[..n], second[n];
      assert AllExist(init, memory.Keys) && Exists(last, memory.Keys);
      FoldConcat(sem, first, init, memory);
      FoldSnoc(sem, first + init, last, memory);
      FoldSnoc(sem, init, last, Fold(sem, first, memory));
      assert second == init + [last] && first + second == (first + init) + [last];
    }
  }

  lemma FoldOne<V>(sem: Semantics<V>, call: Call, memory: map<Address, V>)
    requires WellFormed(call) && Exists(call, memory.Keys) && AllExist([call], memory.Keys)
    ensures Fold(sem, [call], memory) == Apply(CallTask(sem, call), memory)
  {
    assert [call][..0] == [];
    ApplyIsUpdate(sem, call, memory);
  }

  /** Everything the tree names is there. */
  ghost predicate TreeExists(tree: Tree, objects: set<Address>) {
    Inputs(tree) <= objects && forall a :: a in Nodes(tree) ==> a in objects
  }

  lemma RootNamed(tree: Tree)
    ensures Root(tree) in Nodes(tree) || Root(tree) in Inputs(tree)
  {
    if tree.Node? {
      var nodes := Nodes(tree);
      assert nodes[|nodes| - 1] == tree.output;
    }
  }

  lemma {:induction false} CallsExist(tree: Tree, objects: set<Address>)
    requires TreeExists(tree, objects)
    ensures AllExist(Calls(tree), objects) && Root(tree) in objects
  {
    RootNamed(tree);
    if tree.Node? {
      var t, f := tree.whenTrue, tree.whenFalse;
      CallsExist(t, objects);
      CallsExist(f, objects);
      var call := CmuxCall(tree.output, tree.select, Root(t), Root(f));
      assert Operands(call) == [tree.select, Root(t), Root(f)];
      assert Exists(call, objects);
    }
  }

  /** What evaluating a tree leaves: at its root what the addressed leaf held, and all values but
      its nodes as they were. */
  ghost predicate Evaluated<V, M>(rd: Reading<V, M>, tree: Tree, memory: map<Address, V>, memory': map<Address, V>)
    requires TreeExists(tree, memory.Keys)
  {
    && memory'.Keys == memory.Keys && Root(tree) in memory'
    && rd.decode(memory'[Root(tree)]) == rd.decode(memory[Addressed(rd, tree, memory)])
    && (forall a :: a in memory && a !in Nodes(tree) ==> memory'[a] == memory[a])
  }

  /** One node, its subtrees evaluated one after the other. */
  lemma NodeEvaluated<V(!new), M>(sem: Semantics<V>, rd: Reading<V, M>, tree: Tree, memory: map<Address, V>,
                                  m1: map<Address, V>, m2: map<Address, V>, m3: map<Address, V>)
    requires Selects(sem, rd) && tree.Node? && Undisturbed(tree) && TreeExists(tree, memory.Keys)
    requires Evaluated(rd, tree.whenTrue, memory, m1) && TreeExists(tree.whenFalse, m1.Keys) && Evaluated(rd, tree.whenFalse, m1, m2)
    requires m3 == Apply(CallTask(sem, CmuxCall(tree.output, tree.select, Root(tree.whenTrue), Root(tree.whenFalse))), m2)
    ensures Evaluated(rd, tree, memory, m3)
  {
    var out, s, t, f := tree.output, tree.select, tree.whenTrue, tree.whenFalse;
    RootNamed(tree);
    RootNamed(t);
    CmuxSelects(sem, rd, out, s, Root(t), Root(f), m2);
    AddressedLeaf(rd, f, memory, m1);
    NodeUntouched(tree, memory, m1, m2);
    assert Root(t) in m1 && m2[Root(t)] == m1[Root(t)] && m2[s] == memory[s];
  }

  lemma NodeUntouched<V>(tree: Tree, memory: map<Address, V>, m1: map<Address, V>, m2: map<Address, V>)
    requires tree.Node? && m1.Keys == memory.Keys == m2.Keys
    requires forall a :: a in memory && a !in Nodes(tree.whenTrue) ==> m1[a] == memory[a]
    requires forall a :: a in memory && a !in Nodes(tree.whenFalse) ==> m2[a] == m1[a]
    ensures forall a :: a in memory && a !in Nodes(tree) ==> a != tree.output && m2[a] == memory[a]
  {
    var nodes := Nodes(tree);
    assert nodes[|nodes| - 1] == tree.output;
    forall a | a in memory && a !in nodes
      ensures a !in Nodes(tree.whenTrue) && a !in Nodes(tree.whenFalse)
    {
    }
  }

  /** A tree's calls, run as plain updates one after another, leave at the root what the leaf its
      selectors address held, for any shape and depth. */
  lemma {:induction false} TreeSelects<V(!new), M>(sem: Semantics<V>, rd: Reading<V, M>, tree: Tree, memory: map<Address, V>)
    requires Selects(sem, rd) && Undisturbed(tree) && TreeExists(tree, memory.Keys)
    ensures AllExist(Calls(tree), memory.Keys) && Evaluated(rd, tree, memory, Fold(sem, Calls(tree), memory))
    decreases tree
  {
    CallsExist(tree, memory.Keys);
    if tree.Node? {
      var t, f := tree.whenTrue, tree.whenFalse;
      var call := CmuxCall(tree.output, tree.select, Root(t), Root(f));
      TreeSelects(sem, rd, t, memory);
      var m1 := Fold(sem, Calls(t), memory);
      TreeSelects(sem, rd, f, m1);
      var m2 := Fold(sem, Calls(f), m1);
      TreeFolds(sem, tree, memory);
      NodeEvaluated(sem, rd, tree, memory, m1, m2, Apply(CallTask(sem, call), m2));
    }
  }

  /** The fold of a node is that of its subtrees and then its own call. */
  lemma TreeFolds<V>(sem: Semantics<V>, tree: Tree, memory: map<Address, V>)
    requires tree.Node? && Undisturbed(tree) && TreeExists(tree, memory.Keys)
    ensures AllExist(Calls(tree), memory.Keys) && AllExist(Calls(tree.whenTrue), memory.Keys) && AllExist(Calls(tree.whenFalse), memory.Keys)
    ensures Fold(sem, Calls(tree), memory)
         == Apply(CallTask(sem, CmuxCall(tree.output, tree.select, Root(tree.whenTrue), Root(tree.whenFalse))),
                  Fold(sem, Calls(tree.whenFalse), Fold(sem, Calls(tree.whenTrue), memory)))
  {
    var t, f := tree.whenTrue, tree.whenFalse;
    var call := CmuxCall(tree.output, tree.select, Root(t), Root(f));
    CallsExist(tree, memory.Keys);
    CallsExist(t, memory.Keys);
    CallsExist(f, memory.Keys);
    FoldConcat(sem, Calls(t), Calls(f), memory);
    var all := Calls(tree);
    assert all[|all| - 1] == call;
    assert Exists(call, memory.Keys);
    FoldConcat(sem, Calls(t) + Calls(f), [call], memory);
    CmuxWellFormed(tree.output, tree.select, Root(t), Root(f));
    FoldOne(sem, call, Fold(sem, Calls(f), Fold(sem, Calls(t), memory)));
  }

  // ---------- trees with values of their own ----------

  ghost predicate Distinct(nodes: seq<Address>) {
    forall p, q :: 0 <= p < q < |nodes| ==> nodes[p] != nodes[q]
  }

  /** Nodes that are all different and are neither leaves nor selectors disturb nothing. */
  lemma {:induction false} DistinctUndisturbed(tree: Tree)
    requires Distinct(Nodes(tree)) && forall a :: a in Nodes(tree) ==> a !in Inputs(tree)
    ensures Undisturbed(tree)
  {
    if tree.Node? {
      var t, f := tree.whenTrue, tree.whenFalse;
      DistinctParts(Nodes(t), Nodes(f), tree.output);
      DistinctUndisturbed(t);
      DistinctUndisturbed(f);
      RootNamed(t);
      RootNamed(f);
    }
  }

  lemma DistinctParts(first: seq<Address>, second: seq<Address>, last: Address)
    requires Distinct(first + second + [last])
    ensures Distinct(first) && Distinct(second) && last !in first && last !in second
    ensures forall a :: a in first ==> a !in second
    ensures forall a :: a in first || a in second || a == last ==> a in first + second + [last]
  {
    var all := first + second + [last];
    assert forall p :: 0 <= p < |first| ==> all[p] == first[p];
    assert forall p :: 0 <= p < |second| ==> all[|first| + p] == second[p];
    assert all[|first| + |second|] == last;
  }

  // ---------- trees run by the backend ----------

  lemma {:induction false} TreeWellFormed(tree: Tree)
    requires Undisturbed(tree)
    ensures AllWellFormed(Calls(tree))
  {
    if tree.Node? {
      TreeWellFormed(tree.whenTrue);
      TreeWellFormed(tree.whenFalse);
      CmuxWellFormed(tree.output, tree.select, Root(tree.whenTrue), Root(tree.whenFalse));
    }
  }

  lemma LastCall(tree: Tree)
    requires tree.Node?
    ensures Calls(tree) != [] && Output(Calls(tree)[|Calls(tree)| - 1]) == Root(tree)
  {
  }

  /** The last accepted call's output, once its task has been notified. */
  lemma LastResult<V>(sem: Semantics<V>, memory: map<Address, V>, es: seq<BackendRuns.Event>, m: Machine<V>, calls: seq<Call>, last: nat)
    requires Trace(sem, Boot(memory), es) == Some(m) && Accepted(m.api) == calls && last + 1 == |calls|
    requires AllWellFormed(calls) && AllExist(calls, memory.Keys) && last in m.api.notified
    ensures var a := Output(calls[last]);
            a in memory && a in m.memory && m.memory[a] == Fold(sem, calls, memory)[a]
  {
    BootRefines(sem, memory);
    TraceRefines(sem, Boot(memory), memory, es);
    assert m.api.tasks[last].call == calls[last];
    WaitedResult(sem, m, memory, last);
  }

  /** Whatever the threads and the schedule: when the accepted calls are a tree's and the token,
      its last submission, reads finished, the root holds what the addressed leaf held. */
  lemma TreeRunSelects<V(!new), M>(sem: Semantics<V>, rd: Reading<V, M>, tree: Tree, memory: map<Address, V>, es: seq<BackendRuns.Event>,
                                   m: Machine<V>)
    requires Selects(sem, rd) && tree.Node? && Undisturbed(tree) && TreeExists(tree, memory.Keys)
    requires Trace(sem, Boot(memory), es) == Some(m)
    requires Accepted(m.api) == Calls(tree) && |m.api.tasks| - 1 in m.api.notified
    ensures Root(tree) in m.memory
    ensures rd.decode(m.memory[Root(tree)]) == rd.decode(memory[Addressed(rd, tree, memory)])
  {
    assert |m.api.tasks| == |Accepted(m.api)|;
    LastCall(tree);
    TreeWellFormed(tree);
    TreeSelects(sem, rd, tree, memory);
    LastResult(sem, memory, es, m, Calls(tree), |Calls(tree)| - 1);
  }
}
