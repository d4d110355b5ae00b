/** What the host after: the graph is submitted, tasks run on either node, and the outputs are
    synchronised to main memory one after another. */
module HostOutputs {
  import opened Options
  import opened Netlists
  import opened Gates
  import opened Runtime
  import opened TaskGraph
  import opened EndToEnd
  import Coherence
  import Progress

  /** After submission nothing but running tasks and synchronising happens. */
  predicate Reading<H, V>(a: Coherence.Action<H, V>) { a.Started? || a.Completed? || a.Synchronized? }

  ghost predicate AllReading<H, V>(acts: seq<Coherence.Action<H, V>>) {
    forall i :: 0 <= i < |acts| ==> Reading(acts[i])
  }

  /** The handle's writers have finished and its copy in main memory is valid. */
  ghost predicate Settled<H, V>(m: Coherence.Memory<H, V>, h: H) {
    && h in m.cells && h !in m.unmarked && m.cells[h].hostValid
    && (forall i :: 0 <= i < |m.tasks| && Writes(m.tasks[i], h) ==> i in m.finished)
  }

  lemma StepKeepsSettled<H(!new), V>(m: Coherence.Memory<H, V>, a: Coherence.Action<H, V>, h: H)
    requires Coherence.Possible(m, a) && Reading(a)
    ensures Coherence.Next(m, a).tasks == m.tasks
    ensures Settled(m, h) || a == Coherence.Synchronized(h) ==> Settled(Coherence.Next(m, a), h)
  {
    if a.Completed? && h in m.cells && LastWriter(m.tasks[a.index].accesses, h) >= 0 {
      assert Writes(m.tasks[a.index], h);
    }
  }

  lemma {:induction false} ReadingSettles<H(!new), V>(m: Coherence.Memory<H, V>, acts: seq<Coherence.Action<H, V>>, h: H)
    requires Coherence.Trace(m, acts).Some? && AllReading(acts)
    requires Settled(m, h) || Coherence.Synchronized(h) in acts
    ensures var m' := Coherence.Trace(m, acts).value;
            m'.tasks == m.tasks && Settled(m', h)
    decreases |acts|
  {
    if acts != [] {
      StepKeepsSettled(m, acts[0], h);
      ReadingSettles(Coherence.Next(m, acts[0]), acts[1..], h);
    }
  }

  /** In main memory a settled handle has the last write in submission order. */
  lemma SettledIsSequential<H(!new), V>(m: Coherence.Memory<H, V>, ram: map<H, V>, h: H)
    requires Coherence.MInv(m, ram) && Settled(m, h)
    ensures h in ram && m.cells[h].host == Sequential(m.tasks, ram)[h]
  {
    var s := Coherence.Abs(m);
    assert s.store.Keys == m.cells.Keys;
    assert WrittenUpTo(s, h, |s.tasks|);
    assert s.tasks[..|s.tasks|] == s.tasks;
  }

  /** Submission, then any interleaving of tasks and synchronisations: once the loop over the
      outputs has passed slot i, main memory holds at slot i the last write in submission order. */
  lemma SynchronizedHost<H(!new), V>(ram: map<H, V>, junk: V, acts: seq<Coherence.Action<H, V>>,
                                     after: seq<Coherence.Action<H, V>>, h: H)
    requires Coherence.Trace(Coherence.Boot(ram, junk), acts).Some?
    requires var m := Coherence.Trace(Coherence.Boot(ram, junk), acts).value;
             Coherence.Trace(m, after).Some?
    requires AllReading(after) && Coherence.Synchronized(h) in after
    ensures var m := Coherence.Trace(Coherence.Boot(ram, junk), acts).value;
            var m' := Coherence.Trace(m, after).value;
            && h in ram && h in m'.cells && m'.cells[h].hostValid
            && m'.cells[h].host == Sequential(m.tasks, ram)[h]
  {
    var m := Coherence.Trace(Coherence.Boot(ram, junk), acts).value;
    Coherence.BootMInv(ram, junk);
    Coherence.TraceKeepsMInv(Coherence.Boot(ram, junk), ram, acts);
    Coherence.TraceKeepsMInv(m, ram, after);
    ReadingSettles(m, after, h);
    SettledIsSequential(Coherence.Trace(m, after).value, ram, h);
  }

  /** The loop that synchronises the outputs, in slot order. */
  function SyncOutputs(count: nat): (r: seq<Coherence.Action<Slot, Ciphertext>>)
    ensures |r| == count && forall i :: 0 <= i < count ==> r[i] == Coherence.Synchronized(Out(i))
  {
    seq(count, i requires 0 <= i < count => Coherence.Synchronized(Out(i)))
  }

  /** From netlist text to main memory: whatever the runtime chose and wherever tasks ran, when
      the graph has been submitted and the outputs synchronised, tasks running in between, the
      host finds in every written output slot an encryption of the circuit's value. */
  lemma HostReadsCircuit(ms: seq<Module>, n: Netlist, evs: seq<Evaluator>, z: Noise, mu: int, val: nat -> bool,
                         ram: map<Slot, Ciphertext>, junk: Ciphertext,
                         acts: seq<Coherence.Action<Slot, Ciphertext>>, after: seq<Coherence.Action<Slot, Ciphertext>>, i: nat)
    requires Prepared(ms, n, evs, z, mu, val, ram) && WrittenOutput(n, i)
    requires Coherence.Trace(Coherence.Boot(ram, junk), acts).Some?
    requires var m := Coherence.Trace(Coherence.Boot(ram, junk), acts).value;
             Some(m.tasks) == Graph(n, evs, mu, |n.gates|) && Coherence.Trace(m, after).Some?
    requires AllReading(after) && Coherence.Synchronized(Out(i)) in after
    ensures var m := Coherence.Trace(Coherence.Boot(ram, junk), acts).value;
            var m' := Coherence.Trace(m, after).value;
            Out(i) in m'.cells && Encodes(m'.cells[Out(i)].host, z.key, val(n.outputs[i]), z.bound, mu)
  {
    SequentialEncrypts(ms, n, evs, z, mu, val, ram);
    SynchronizedHost(ram, junk, acts, after, Out(i));
    WrittenOutputSlot(n, i);
  }

  lemma {:induction false} SynchronizingRuns<H(!new), V>(m: Coherence.Memory<H, V>, acts: seq<Coherence.Action<H, V>>)
    requires m.unmarked == map[] && forall i :: 0 <= i < |m.tasks| ==> i in m.finished
    requires forall k :: 0 <= k < |acts| ==> acts[k].Synchronized? && acts[k].handle in m.cells
    ensures Coherence.Trace(m, acts).Some?
    decreases |acts|
  {
    if acts != [] {
      SynchronizingRuns(Coherence.Next(m, acts[0]), acts[1..]);
    }
  }

  lemma SyncLoopRuns(ram: map<Slot, Ciphertext>, junk: Ciphertext, acts: seq<Coherence.Action<Slot, Ciphertext>>, count: nat)
    requires Coherence.Trace(Coherence.Boot(ram, junk), acts).Some? && forall i: nat :: i < count ==> Out(i) in ram
    requires var m := Coherence.Trace(Coherence.Boot(ram, junk), acts).value;
             m.unmarked == map[] && forall k :: 0 <= k < |m.tasks| ==> k in m.finished
    ensures Coherence.Trace(Coherence.Trace(Coherence.Boot(ram, junk), acts).value, SyncOutputs(count)).Some?
  {
    var m := Coherence.Trace(Coherence.Boot(ram, junk), acts).value;
    Coherence.BootMInv(ram, junk);
    Coherence.TraceKeepsMInv(Coherence.Boot(ram, junk), ram, acts);
    assert Coherence.Abs(m).store.Keys == m.cells.Keys == ram.Keys;
    SynchronizingRuns(m, SyncOutputs(count));
  }

  /** In particular, once all tasks have finished the loop runs through, and leaves encryptions
      of the circuit's values in main memory. */
  lemma SyncLoopReadsCircuit(ms: seq<Module>, n: Netlist, evs: seq<Evaluator>, z: Noise, mu: int, val: nat -> bool,
                             ram: map<Slot, Ciphertext>, junk: Ciphertext, acts: seq<Coherence.Action<Slot, Ciphertext>>)
    requires Prepared(ms, n, evs, z, mu, val, ram)
    requires Coherence.Trace(Coherence.Boot(ram, junk), acts).Some?
    requires var m := Coherence.Trace(Coherence.Boot(ram, junk), acts).value;
             && Some(m.tasks) == Graph(n, evs, mu, |n.gates|) && m.unmarked == map[]
             && (forall k :: 0 <= k < |m.tasks| ==> k in m.finished)
    ensures var m := Coherence.Trace(Coherence.Boot(ram, junk), acts).value;
            var read := Coherence.Trace(m, SyncOutputs(|n.outputs|));
            && read.Some?
            && (forall i: nat {:trigger Out(i)} :: WrittenOutput(n, i) ==>
                  Out(i) in read.value.cells && Encodes(read.value.cells[Out(i)].host, z.key, val(n.outputs[i]), z.bound, mu))
  {
    var m := Coherence.Trace(Coherence.Boot(ram, junk), acts).value;
    var loop := SyncOutputs(|n.outputs|);
    SyncLoopRuns(ram, junk, acts, |n.outputs|);
    forall i: nat {:trigger Out(i)} | WrittenOutput(n, i)
      ensures var m' := Coherence.Trace(m, loop).value;
              Out(i) in m'.cells && Encodes(m'.cells[Out(i)].host, z.key, val(n.outputs[i]), z.bound, mu)
    {
      assert loop[i] == Coherence.Synchronized(Out(i));
      HostReadsCircuit(ms, n, evs, z, mu, val, ram, junk, acts, loop, i);
    }
  }

  lemma BootAbs<H(!new), V>(ram: map<H, V>, junk: V)
    ensures Coherence.Abs(Coherence.Boot(ram, junk)) == Initial(ram)
  {
    assert Coherence.Abs(Coherence.Boot(ram, junk)).store == ram;
  }

  /** Any drained run of the plain machine happens on two memories too. */
  lemma DrainedOnNodes<H(!new), V>(ram: map<H, V>, junk: V, events: seq<Event<H, V>>, node: nat -> Coherence.Node)
      returns (acts: seq<Coherence.Action<H, V>>, m: Coherence.Memory<H, V>)
    requires Exec(Initial(ram), events).Some? && Drained(Exec(Initial(ram), events).value)
    ensures Coherence.Trace(Coherence.Boot(ram, junk), acts) == Some(m)
    ensures m.tasks == Exec(Initial(ram), events).value.tasks && m.unmarked == map[]
    ensures forall k :: 0 <= k < |m.tasks| ==> k in m.finished && k in m.placed && m.placed[k] == node(k)
  {
    var boot := Coherence.Boot(ram, junk);
    BootAbs(ram, junk);
    Coherence.BootMInv(ram, junk);
    InitialInv(ram);
    ExecKeepsInv(Initial(ram), ram, events);
    Coherence.PlacedRun(boot, ram, events, node);
    acts := Coherence.PlacedAll(events, node);
    m := Coherence.Trace(boot, acts).value;
    assert Coherence.Abs(m) == Exec(Initial(ram), events).value;
  }

  /** Every circuit, with every assignment of its inputs and every placement of its tasks, has a
      run on two memories that meets the hypotheses of both lemmas above. */
  lemma CircuitRunsOnNodes(ms: seq<Module>, n: Netlist, evs: seq<Evaluator>, z: Noise, mu: int, inputs: nat -> bool,
                           junk: Ciphertext, node: nat -> Coherence.Node)
      returns (val: nat -> bool, ram: map<Slot, Ciphertext>, acts: seq<Coherence.Action<Slot, Ciphertext>>)
    requires Parsed(ms) == Some(n) && RegisterFree(n) && Circuit(n) && AllSound(n, evs, z, mu)
    ensures Prepared(ms, n, evs, z, mu, val, ram) && forall i :: i in n.inputs ==> val(i) == inputs(i)
    ensures Coherence.Trace(Coherence.Boot(ram, junk), acts).Some?
    ensures var m := Coherence.Trace(Coherence.Boot(ram, junk), acts).value;
            && Some(m.tasks) == Graph(n, evs, mu, |n.gates|) && m.unmarked == map[]
            && (forall k :: 0 <= k < |m.tasks| ==> k in m.finished && k in m.placed && m.placed[k] == node(k))
            && AllReading(SyncOutputs(|n.outputs|)) && Coherence.Trace(m, SyncOutputs(|n.outputs|)).Some?
  {
    var events;
    val, ram, events := Progress.CircuitRuns(ms, n, evs, z, mu, inputs);
    var m;
    acts, m := DrainedOnNodes(ram, junk, events, node);
    SyncLoopRuns(ram, junk, acts, |n.outputs|);
  }
}
