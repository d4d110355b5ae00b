/** Circuits on processors and the accelerator together.

    A gate's task runs on whichever worker the runtime picks. Worker 0 is the accelerator: its
    binary gates are one bootstrapped combination, its MUX two of them added up, which costs
    twice the bootstrap's noise. A circuit is right on any placement as long as twice that
    noise still fits, and no NMUX lands on the accelerator, whose negated MUX is none.
 */
module Accelerator {
  import opened Options
  import opened Netlists
  import opened Gates
  import opened Runtime
  import opened TaskGraph
  import opened EndToEnd
  import Hoge

  datatype Worker = Processor | Accelerated

  /** What the accelerator computes for each kind of gate, given its bootstrap. */
  function Operations(boot: Ciphertext -> Ciphertext, mu: int): Evaluator
    requires mu > 0
  {
    Evaluator(boot,
              (s, c1, c0) => if |s| == |c1| == |c0| > 0 then Hoge.MuxResult(s, c1, c0, boot, mu) else [],
              (s, c1, c0) => if |s| == |c1| == |c0| > 0 then Hoge.NegatedMuxResult(s, c1, c0, boot, mu) else [])
  }

  /** The two-pass MUX selects correctly on circuits whose noise is twice the bootstrap's. */
  lemma TwoPassMuxes(boot: Ciphertext -> Ciphertext, key: Key, bootBound: int, margin: int, mu: int)
    requires 0 <= bootBound && 0 <= margin && 4 * bootBound + margin < mu && Bootstraps(boot, key, bootBound, margin, mu)
    ensures Muxes(Operations(boot, mu).mux, false, Noise(key, 2 * bootBound, margin), mu)
  {
    var bound := 2 * bootBound;
    forall s, c1, c0, x, y1, y0
      | Encodes(s, key, x, bound, mu) && Encodes(c1, key, y1, bound, mu) && Encodes(c0, key, y0, bound, mu)
      ensures Encodes(Operations(boot, mu).mux(s, c1, c0), key, (if x then y1 else y0) != false, bound, mu)
    {
      Hoge.MuxCorrect(s, c1, c0, boot, key, x, y1, y0, bound, bootBound, margin, mu);
    }
  }

  lemma AcceleratorSound(kind: Kind, boot: Ciphertext -> Ciphertext, key: Key, bootBound: int, margin: int, mu: int)
    requires 0 <= bootBound && 0 <= margin && 4 * bootBound + margin < mu && Bootstraps(boot, key, bootBound, margin, mu)
    requires kind != Nmux
    ensures Sound(Operations(boot, mu), kind, Noise(key, 2 * bootBound, margin), mu)
  {
    BootstrapsLoosely(boot, key, bootBound, 2 * bootBound, margin, mu);
    TwoPassMuxes(boot, key, bootBound, margin, mu);
  }

  function Staff(placed: seq<Worker>, processor: Evaluator, boot: Ciphertext -> Ciphertext, mu: int): (evs: seq<Evaluator>)
    requires mu > 0
    ensures |evs| == |placed|
  {
    seq(|placed|, k requires 0 <= k < |placed| => if placed[k].Accelerated? then Operations(boot, mu) else processor)
  }

  /** The accelerator gets no negated selection. */
  predicate NmuxOnProcessors(n: Netlist, placed: seq<Worker>)
    requires |placed| == |n.gates|
  {
    forall k :: 0 <= k < |placed| && KindOf(n.gates[k].name) == Nmux ==> placed[k].Processor?
  }

  lemma StaffSound(n: Netlist, placed: seq<Worker>, processor: Evaluator, boot: Ciphertext -> Ciphertext,
                   key: Key, bootBound: int, margin: int, mu: int)
    requires |placed| == |n.gates| && NmuxOnProcessors(n, placed)
    requires 0 <= bootBound && 0 <= margin && 4 * bootBound + margin < mu && Bootstraps(boot, key, bootBound, margin, mu)
    requires forall k :: 0 <= k < |n.gates| ==> Sound(processor, KindOf(n.gates[k].name), Noise(key, 2 * bootBound, margin), mu)
    ensures AllSound(n, Staff(placed, processor, boot, mu), Noise(key, 2 * bootBound, margin), mu)
  {
    var evs, z := Staff(placed, processor, boot, mu), Noise(key, 2 * bootBound, margin);
    forall k | 0 <= k < |evs|
      ensures Sound(evs[k], KindOf(n.gates[k].name), z, mu)
    {
      if placed[k].Accelerated? {
        AcceleratorSound(KindOf(n.gates[k].name), boot, key, bootBound, margin, mu);
      }
    }
  }

  /** Every placement of the tasks and every schedule: the written outputs encrypt the
      circuit's values, with noise at most that of two bootstraps. */
  lemma AcceleratedCircuit(ms: seq<Module>, n: Netlist, placed: seq<Worker>, processor: Evaluator, boot: Ciphertext -> Ciphertext,
                           key: Key, bootBound: int, margin: int, mu: int, val: nat -> bool,
                           init: map<Slot, Ciphertext>, events: seq<Event<Slot, Ciphertext>>, i: nat)
    requires Parsed(ms) == Some(n) && RegisterFree(n) && Circuit(n) && Solution(n, val)
    requires |placed| == |n.gates| && NmuxOnProcessors(n, placed)
    requires 0 <= bootBound && 0 <= margin && 4 * bootBound + margin < mu && Bootstraps(boot, key, bootBound, margin, mu)
    requires forall k :: 0 <= k < |n.gates| ==> Sound(processor, KindOf(n.gates[k].name), Noise(key, 2 * bootBound, margin), mu)
    requires Loaded(n, Noise(key, 2 * bootBound, margin), mu, val, init) && Exec(Initial(init), events).Some?
    requires var s := Exec(Initial(init), events).value;
             Some(s.tasks) == Graph(n, Staff(placed, processor, boot, mu), mu, |n.gates|) && Drained(s)
    requires WrittenOutput(n, i)
    ensures var st := Exec(Initial(init), events).value.store;
            Out(i) in st && Encodes(st[Out(i)], key, val(n.outputs[i]), 2 * bootBound, mu)
  {
    var z := Noise(key, 2 * bootBound, margin);
    StaffSound(n, placed, processor, boot, key, bootBound, margin, mu);
    OutputsEncryptCircuit(ms, n, Staff(placed, processor, boot, mu), z, mu, val, init, events, i);
  }
}
