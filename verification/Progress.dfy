/** Runs exist: the graph of every circuit can be run to the end, for every assignment of its
    inputs, so the statements about all runs are about something.
 */
module Progress {
  import opened Options
  import opened Runtime
  import opened CompletionToken
  import opened Netlists
  import opened ModQ
  import opened Gates
  import opened TaskGraph
  import opened EndToEnd

  lemma RunNext<H(!new), V>(tasks: seq<Task<H, V>>, init: map<H, V>, k: nat, es0: seq<Event<H, V>>, s0: State<H, V>)
      returns (es: seq<Event<H, V>>, s: State<H, V>)
    requires k < |tasks| && Exec(Fresh(tasks, init), es0) == Some(s0) && Inv(s0, init)
    requires s0.tasks == tasks && s0.started == s0.finished && forall i: nat :: i in s0.finished <==> i < k
    ensures Exec(Fresh(tasks, init), es) == Some(s) && Inv(s, init)
    ensures s.tasks == tasks && s.started == s.finished && forall i: nat :: i in s.finished <==> i < k + 1
  {
    assert Enabled(s0, Start(k));
    s := RunWhole(s0, init, k);
    es := es0 + [Start(k), Finish(k)];
    ExecConcat(Fresh(tasks, init), es0, [Start(k), Finish(k)]);
  }

  /** The first n submissions run one after another. */
  lemma {:induction false} RunInOrder<H(!new), V>(tasks: seq<Task<H, V>>, init: map<H, V>, n: nat)
      returns (es: seq<Event<H, V>>, s: State<H, V>)
    requires n <= |tasks|
    ensures Exec(Fresh(tasks, init), es) == Some(s) && Inv(s, init)
    ensures s.tasks == tasks && s.started == s.finished
    ensures forall i: nat :: i in s.finished <==> i < n
  {
    if n == 0 {
      es, s := [], Fresh(tasks, init);
      FreshInv(tasks, init);
    } else {
      var k := n - 1;
      var es0, s0 := RunInOrder(tasks, init, k);
      es, s := RunNext(tasks, init, k, es0, s0);
    }
  }

  /** Any list of tasks has a run that submits exactly them and drains. */
  lemma DrainedRunExists<H(!new), V>(tasks: seq<Task<H, V>>, init: map<H, V>) returns (es: seq<Event<H, V>>)
    ensures Exec(Initial(init), es).Some?
    ensures Exec(Initial(init), es).value.tasks == tasks && Drained(Exec(Initial(init), es).value)
  {
    var submits := SubmitAll(tasks, init, |tasks|);
    assert tasks[..|tasks|] == tasks;
    var runs, s := RunInOrder(tasks, init, |tasks|);
    ExecConcat(Initial(init), submits, runs);
    es := submits + runs;
  }

  /** A noiseless encryption with an all-zero mask. */
  function Trivial(bit: bool, key: Key, mu: int): Ciphertext {
    seq(|key| + 1, i => if i == |key| then Message(bit, mu) else 0)
  }

  lemma TrivialEncodes(bit: bool, key: Key, bound: int, mu: int)
    requires mu > 0 && 0 <= bound && 2 * bound < 8 * mu
    ensures Encodes(Trivial(bit, key, mu), key, bit, bound, mu)
  {
    var c := Trivial(bit, key, mu);
    DotZero(c, key, |key|);
    NearFromWitness(Phase(c, key), Message(bit, mu), bound, 8 * mu, 0, 0);
  }

  function Slots(n: Netlist): set<Slot> {
    (set i | 0 <= i < |n.inputs| :: In(i)) + (set i | 0 <= i < |n.wires| :: Wire(i)) + (set i | 0 <= i < |n.outputs| :: Out(i))
  }

  ghost function LoadedSlots(n: Netlist, val: nat -> bool, key: Key, mu: int): map<Slot, Ciphertext> {
    map s | s in Slots(n) :: if s.In? && s.index < |n.inputs| then Trivial(val(n.inputs[s.index]), key, mu) else []
  }

  lemma SlotsLoaded(n: Netlist, z: Noise, mu: int, val: nat -> bool)
    requires Fits(z, mu)
    ensures Loaded(n, z, mu, val, LoadedSlots(n, val, z.key, mu))
  {
    forall i: nat | i < |n.inputs|
      ensures Encodes(LoadedSlots(n, val, z.key, mu)[In(i)], z.key, val(n.inputs[i]), z.bound, mu)
    {
      TrivialEncodes(val(n.inputs[i]), z.key, z.bound, mu);
    }
  }

  /** Every circuit, with every assignment of its inputs, has a run that meets all hypotheses
      of the end-to-end theorem. */
  lemma CircuitRuns(ms: seq<Module>, n: Netlist, evs: seq<Evaluator>, z: Noise, mu: int, inputs: nat -> bool)
      returns (val: nat -> bool, init: map<Slot, Ciphertext>, events: seq<Event<Slot, Ciphertext>>)
    requires Parsed(ms) == Some(n) && RegisterFree(n) && Circuit(n) && AllSound(n, evs, z, mu)
    ensures Prepared(ms, n, evs, z, mu, val, init) && forall i :: i in n.inputs ==> val(i) == inputs(i)
    ensures Exec(Initial(init), events).Some?
    ensures var s := Exec(Initial(init), events).value;
            Some(s.tasks) == Graph(n, evs, mu, |n.gates|) && Drained(s)
  {
    val := Solve(n, inputs, |n.gates|);
    SolutionExists(n, inputs);
    init := LoadedSlots(n, val, z.key, mu);
    SlotsLoaded(n, z, mu, val);
    SequentialEncrypts(ms, n, evs, z, mu, val, init);
    events := DrainedRunExists(Graph(n, evs, mu, |n.gates|).value, init);
  }

  /** The multiplexer read off from the phases, without noise. */
  function IdealMux(s: Ciphertext, c1: Ciphertext, c0: Ciphertext, negated: bool, key: Key, mu: int): Ciphertext {
    Trivial((if Upper(s, key, 0, mu) then Upper(c1, key, 0, mu) else Upper(c0, key, 0, mu)) != negated, key, mu)
  }

  lemma EncodedHalf(c: Ciphertext, key: Key, bit: bool, bound: int, mu: int)
    requires Encodes(c, key, bit, bound, mu) && 0 <= bound && 2 * bound < mu
    ensures Upper(c, key, 0, mu) == bit
  {
    var k, e := NearWitness(Phase(c, key), Message(bit, mu), bound, 8 * mu);
    if bit {
      Placed(Phase(c, key), 1, mu, k, e, bound, 0);
    } else {
      Distribute(8 * mu, k, -1);
      Placed(Phase(c, key), 7, mu, k - 1, e, bound, 0);
    }
  }

  ghost function IdealEvaluator(key: Key, mu: int): Evaluator
    requires mu > 0
  {
    Evaluator(c => IdealBootstrap(c, key, mu), (s, c1, c0) => IdealMux(s, c1, c0, false, key, mu),
              (s, c1, c0) => IdealMux(s, c1, c0, true, key, mu))
  }

  lemma IdealMuxes(z: Noise, mu: int, negated: bool)
    requires 0 <= z.bound && 2 * z.bound < mu
    ensures Muxes((s, c1, c0) => IdealMux(s, c1, c0, negated, z.key, mu), negated, z, mu)
  {
    forall s, c1, c0, x, y1, y0
      | Encodes(s, z.key, x, z.bound, mu) && Encodes(c1, z.key, y1, z.bound, mu) && Encodes(c0, z.key, y0, z.bound, mu)
      ensures Encodes(IdealMux(s, c1, c0, negated, z.key, mu), z.key, (if x then y1 else y0) != negated, z.bound, mu)
    {
      EncodedHalf(s, z.key, x, z.bound, mu);
      EncodedHalf(c1, z.key, y1, z.bound, mu);
      EncodedHalf(c0, z.key, y0, z.bound, mu);
      TrivialEncodes((if x then y1 else y0) != negated, z.key, z.bound, mu);
    }
  }

  /** The assumptions on the ciphertext operations can be met, for every kind of gate, key
      and noise that fits. */
  lemma SoundExists(kind: Kind, z: Noise, mu: int)
    requires Fits(z, mu)
    ensures Sound(IdealEvaluator(z.key, mu), kind, z, mu)
  {
    BootstrapExists(z.key, z.bound, z.margin, mu);
    IdealMuxes(z, mu, false);
    IdealMuxes(z, mu, true);
  }
}
