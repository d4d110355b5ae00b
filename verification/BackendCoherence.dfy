/** The asynchronous backend over two memories.

    The steps of BackendRuns, with the data kept in the two-copy cells of Coherence instead of
    one memory: a launched task fetches its copies to the node it runs on, a wait ends with an
    acquisition of the output, and callers store to main memory and mark what they stored. The
    runtime still orders and finds everything by handle.
 */
module BackendCoherence {
  import opened Options
  import opened Runtime
  import opened Backend
  import opened BackendRuns
  import opened BackendOwnership
  import opened BackendData
  import opened HostOutputs
  import C = Coherence

  /** What happened to the data, in order: accepted calls and marked host stores. */
  datatype Entry<V> = Accept(call: Call) | Write(at: Address, value: V)

  ghost function TaskOf<V>(sem: Semantics<V>, e: Entry<V>): Task<Address, V> {
    match e
    case Accept(call) => CallTask(sem, call)
    case Write(a, v) => C.HostTask(a, v)
  }

  ghost function History<V>(sem: Semantics<V>, entries: seq<Entry<V>>): seq<Task<Address, V>> {
    seq(|entries|, i requires 0 <= i < |entries| => TaskOf(sem, entries[i]))
  }

  /** `control` is the machine of BackendRuns with contents left out; `at` is the place of each
      submission in the history. */
  datatype System<!V> = System(control: Machine<bool>, history: seq<Entry<V>>, at: seq<nat>, mem: C.Memory<Address, V>)

  datatype Action<V> =
    | Plain(e: BackendRuns.Event)
    | Launched(i: nat, node: C.Node) | Completed(i: nat)
    | Waited(t: Thread)               // polling ends and the output is acquired
    | Synchronized(i: nat)            // a finished task's output is acquired
    | Stored(a: Address, v: V) | Marked(a: Address)

  /** Contents for a machine that has none. */
  ghost function Silent(): Semantics<bool> {
    Semantics((g, k, a, b) => false, a => false, (k, a, b, c) => false, (a, b, c) => false, (k, a, b, c) => false, false)
  }

  /** The steps that move no data. */
  predicate Bookkeeping(e: BackendRuns.Event) { e.Begin? || e.End? || e.Await? || e.Invoke? || e.Callback? }

  // ---------- steps ----------

  /** No unfinished submission uses the handle of the address, if it has one. */
  ghost predicate Unused(m: Machine<bool>, a: Address) {
    forall h, j :: Lookup(m.api, a) == Some(h) && 0 <= j < |m.api.tasks| && Touches(HandleTask(m.api.tasks[j]), h) ==> j in m.completed
  }

  ghost function OutputHandle(sub: Submission): Handle { HandleTask(sub).accesses[0].handle }

  ghost function AddressOf(s: Api, h: Handle): Address { if h < |s.addresses| then s.addresses[h] else Tlwe(0) }

  ghost function OutputAt(s: Api, i: nat): Address
    requires i < |s.tasks|
  {
    AddressOf(s, OutputHandle(s.tasks[i]))
  }

  /** Every submission that writes the handle has completed. */
  ghost predicate Written(m: Machine<bool>, h: Handle) {
    forall j :: 0 <= j < |m.api.tasks| && Writes(HandleTask(m.api.tasks[j]), h) ==> j in m.completed
  }

  /** The output handle of submission i can be acquired for reading: its writers have finished. */
  ghost predicate Readable<V>(s: System<V>, i: nat) {
    && i < |s.control.api.tasks|
    && OutputAt(s.control.api, i) in s.mem.cells && OutputAt(s.control.api, i) !in s.mem.unmarked
    && Written(s.control, OutputHandle(s.control.api.tasks[i]))
  }

  ghost predicate Able<V>(s: System<V>, a: Action<V>) {
    match a
    // A caller marks its own store before it submits work on the value.
    case Plain(e) =>
      && Bookkeeping(e) && Possible(s.control, e)
      && (e.Invoke? ==> forall k :: 0 <= k < |Buffers(e.call)| ==> Buffers(e.call)[k].handle !in s.mem.unmarked)
    case Launched(i, _) => Possible(s.control, Launch(i)) && i < |s.at|
    case Completed(i) => Possible(s.control, Complete(i)) && i < |s.at| && s.at[i] in s.mem.placed && s.at[i] in s.mem.views
    case Waited(t) => Possible(s.control, Resume(t)) && Readable(s, s.control.api.blocked[t])
    case Synchronized(i) => i in s.control.api.notified && Readable(s, i)
    // A caller stores only to values no unfinished task uses.
    case Stored(x, _) => x in s.mem.cells && x !in s.mem.unmarked && Unused(s.control, x)
    case Marked(x) => x in s.mem.cells && x in s.mem.unmarked && Unused(s.control, x)
  }

  /** Every address the backend has a handle for is registered with the runtime. */
  ghost function Registering<V>(mem: C.Memory<Address, V>, api: Api): C.Memory<Address, V> {
    mem.(cells := map a | a in mem.cells :: if Lookup(api, a).Some? then mem.cells[a].Register() else mem.cells[a])
  }

  ghost function AfterCall<V>(sem: Semantics<V>, s: System<V>, m: Machine<bool>, call: Call): System<V> {
    var mem := Registering(s.mem, m.api);
    if |m.api.tasks| == |s.control.api.tasks| then s.(control := m, mem := mem)
    else System(m, s.history + [Accept(call)], s.at + [|s.history|], mem.(tasks := mem.tasks + [CallTask(sem, call)]))
  }

  ghost function Done<V>(sem: Semantics<V>, s: System<V>, a: Action<V>): System<V>
    requires Able(s, a)
  {
    match a
    case Plain(e) =>
      var m := Next(Silent(), s.control, e);
      if e.Invoke? then AfterCall(sem, s, m, e.call) else s.(control := m)
    case Launched(i, node) =>
      var api := s.control.api;
      s.(control := Next(Silent(), s.control, Launch(i)),
         mem := C.Launched(s.mem, s.at[i], RunTask(sem, api, api.tasks[i], api.key), node))
    case Completed(i) =>
      var api := s.control.api;
      s.(control := Next(Silent(), s.control, Complete(i)),
         mem := C.Ended(s.mem, s.at[i], RunTask(sem, api, api.tasks[i], s.control.keyUsed[i])))
    case Waited(t) =>
      s.(control := Next(Silent(), s.control, Resume(t)),
         mem := C.Fetched(s.mem, OutputAt(s.control.api, s.control.api.blocked[t])))
    case Synchronized(i) => s.(mem := C.Fetched(s.mem, OutputAt(s.control.api, i)))
    case Stored(x, v) => s.(mem := C.Stored(s.mem, x, v))
    case Marked(x) =>
      s.(history := s.history + [Write(x, s.mem.cells[x].host)],
         mem := C.AfterMark(s.mem, x, Lookup(s.control.api, x).Some?))
  }

  ghost function Start<V>(ram: map<Address, V>, junk: V): System<V> {
    System(Boot(map[]), [], [], C.Boot(ram, junk))
  }

  ghost function Run<V>(sem: Semantics<V>, s: System<V>, acts: seq<Action<V>>): Option<System<V>>
    decreases |acts|
  {
    if acts == [] then Some(s)
    else if !Able(s, acts[0]) then None
    else Run(sem, Done(sem, s, acts[0]), acts[1..])
  }

  // ---------- what every run keeps ----------

  /** The history's tasks are the memory's, and `at` finds each submission's call there. */
  ghost predicate Mapped<V>(sem: Semantics<V>, s: System<V>) {
    && s.mem.tasks == History(sem, s.history)
    && |s.at| == |s.control.api.tasks|
    && (forall i, j :: 0 <= i < j < |s.at| ==> s.at[i] < s.at[j])
    && (forall i :: 0 <= i < |s.at| ==> s.at[i] < |s.history| && s.history[s.at[i]] == Accept(s.control.api.tasks[i].call))
  }

  /** Submissions are as far as their entries; all other entries are complete. */
  ghost predicate InStep<V>(at: seq<nat>, started: set<nat>, completed: set<nat>, mem: C.Memory<Address, V>) {
    && (forall i :: 0 <= i < |at| ==> (at[i] in mem.started <==> i in started) && (at[i] in mem.finished <==> i in completed))
    && (forall p :: 0 <= p < |mem.tasks| ==> p in mem.finished || p in at)
  }

  /** A value is registered with the runtime exactly if the backend has a handle for it. */
  ghost predicate Flagged<V>(mem: C.Memory<Address, V>, api: Api) {
    forall a :: a in mem.cells ==> (mem.cells[a].registered <==> Lookup(api, a).Some?)
  }

  /** The backend's tables are in order and have not been emptied. */
  ghost predicate Tables(s: Api) { Registry(s) && Resolves(s) && !s.stopped }

  /** The data side: coherent copies, found where control says. */
  ghost predicate Followed<V>(sem: Semantics<V>, s: System<V>, ram: map<Address, V>) {
    && Mapped(sem, s) && InStep(s.at, s.control.started, s.control.completed, s.mem)
    && Flagged(s.mem, s.control.api) && C.MInv(s.mem, ram)
  }

  ghost predicate Sound<V>(sem: Semantics<V>, s: System<V>, ram: map<Address, V>) {
    Sane(s.control) && !s.control.api.stopped && Followed(sem, s, ram)
  }

  // ---------- handles and addresses ----------

  /** Whoever touches an address does so through the address's handle. */
  lemma UsedByHandle<V>(sem: Semantics<V>, api: Api, sub: Submission, a: Address) returns (h: Handle)
    requires Registry(api) && !api.stopped && Resolved(api, sub) && Touches(CallTask(sem, sub.call), a)
    ensures Lookup(api, a) == Some(h) && Touches(HandleTask(sub), h)
  {
    TouchedRegistered(sem, api, sub, a);
    h :| 0 <= h < |api.addresses| && api.addresses[h] == a;
    TouchesByHandle(sem, api, sub, h);
  }

  lemma EntryTask<V>(sem: Semantics<V>, s: System<V>, i: nat)
    requires Mapped(sem, s) && i < |s.at|
    ensures s.at[i] < |s.mem.tasks| && s.mem.tasks[s.at[i]] == CallTask(sem, s.control.api.tasks[i].call)
  {
  }

  lemma QuietByHandle<V>(sem: Semantics<V>, s: System<V>, a: Address)
    requires Tables(s.control.api) && Mapped(sem, s) && InStep(s.at, s.control.started, s.control.completed, s.mem)
    requires Unused(s.control, a)
    ensures C.Quiet(s.mem, a)
  {
    var api := s.control.api;
    forall p | 0 <= p < |s.mem.tasks| && Touches(s.mem.tasks[p], a)
      ensures p in s.mem.finished
    {
      if p !in s.mem.finished {
        var i :| 0 <= i < |s.at| && s.at[i] == p;
        EntryTask(sem, s, i);
        assert Resolved(api, api.tasks[i]);
        var h := UsedByHandle(sem, api, api.tasks[i], a);
      }
    }
  }

  lemma OutputResolved(api: Api, i: nat)
    requires i < |api.tasks| && Resolved(api, api.tasks[i])
    ensures OutputHandle(api.tasks[i]) < |api.addresses| && OutputAt(api, i) == Output(api.tasks[i].call)
  {
  }

  lemma WriterCompleted<V>(sem: Semantics<V>, m: Machine<bool>, j: nat, h: Handle)
    requires Registry(m.api) && Resolves(m.api) && Written(m, h) && h < |m.api.addresses| && j < |m.api.tasks|
    requires Writes(CallTask(sem, m.api.tasks[j].call), m.api.addresses[h])
    ensures j in m.completed
  {
    assert Resolved(m.api, m.api.tasks[j]);
    TouchesByHandle(sem, m.api, m.api.tasks[j], h);
  }

  lemma WritersFinished<V>(sem: Semantics<V>, s: System<V>, h: Handle)
    requires Registry(s.control.api) && Resolves(s.control.api)
    requires Mapped(sem, s) && InStep(s.at, s.control.started, s.control.completed, s.mem)
    requires Written(s.control, h) && h < |s.control.api.addresses|
    ensures forall p :: 0 <= p < |s.mem.tasks| && Writes(s.mem.tasks[p], s.control.api.addresses[h]) ==> p in s.mem.finished
  {
    forall p | 0 <= p < |s.mem.tasks| && Writes(s.mem.tasks[p], s.control.api.addresses[h])
      ensures p in s.mem.finished
    {
      if p !in s.mem.finished {
        var j :| 0 <= j < |s.at| && s.at[j] == p;
        EntryTask(sem, s, j);
        WriterCompleted(sem, s.control, j, h);
      }
    }
  }

  lemma WritersByHandle<V>(sem: Semantics<V>, s: System<V>, i: nat)
    requires Registry(s.control.api) && Resolves(s.control.api) && Readable(s, i)
    requires Mapped(sem, s) && InStep(s.at, s.control.started, s.control.completed, s.mem)
    ensures OutputAt(s.control.api, i) == Output(s.control.api.tasks[i].call)
    ensures forall p :: 0 <= p < |s.mem.tasks| && Writes(s.mem.tasks[p], OutputAt(s.control.api, i)) ==> p in s.mem.finished
  {
    var api := s.control.api;
    assert Resolved(api, api.tasks[i]);
    OutputResolved(api, i);
    WritersFinished(sem, s, OutputHandle(api.tasks[i]));
  }

  // ---------- calls ----------

  lemma TraceStepSane(m: Machine<bool>, e: BackendRuns.Event)
    requires Sane(m) && !m.api.stopped && Possible(m, e) && !e.Shutdown?
    ensures Sane(Next(Silent(), m, e)) && !Next(Silent(), m, e).api.stopped
  {
    StepKeepsSane(Silent(), m, e);
    if e.Invoke? {
      CallEffects(m.api, e.t, e.call, e.accepted);
    }
  }

  lemma RegisteringAbs<V>(mem: C.Memory<Address, V>, api: Api)
    requires C.CellsOk(mem)
    ensures C.Abs(Registering(mem, api)) == C.Abs(mem)
  {
    assert C.Abs(Registering(mem, api)).store == C.Abs(mem).store;
  }

  lemma RegisteringCells<V>(mem: C.Memory<Address, V>, api: Api)
    requires C.CellsOk(mem)
    ensures C.CellsOk(Registering(mem, api))
  {
    var m' := Registering(mem, api);
    forall a | a in m'.unmarked
      ensures C.Quiet(m', a)
    {
      C.QuietKept(mem, m', a);
    }
  }

  /** Registering a value that had no handle makes its only copy the valid one, as it was. */
  lemma RegisteringKeeps<V>(mem: C.Memory<Address, V>, ram: map<Address, V>, api: Api)
    requires C.MInv(mem, ram)
    ensures C.MInv(Registering(mem, api), ram)
  {
    RegisteringAbs(mem, api);
    RegisteringCells(mem, api);
  }

  lemma RegisteringFlags<V>(mem: C.Memory<Address, V>, s: Api, s': Api)
    requires Flagged(mem, s) && forall a :: Lookup(s, a).Some? ==> Lookup(s', a).Some?
    ensures Flagged(Registering(mem, s'), s')
  {
  }

  /** A submission whose values are all registered only adds to the list. */
  lemma SubmittingKeeps<V>(mem: C.Memory<Address, V>, ram: map<Address, V>, t: Task<Address, V>)
    requires C.MInv(mem, ram)
    requires forall a :: Touches(t, a) ==> a !in mem.unmarked && (a in mem.cells ==> mem.cells[a].registered)
    ensures C.MInv(mem.(tasks := mem.tasks + [t]), ram)
  {
    assert C.Possible(mem, C.Submitted(t));
    C.SubmittedRefines(mem, ram, t);
    assert C.Next(mem, C.Submitted(t)).cells == mem.cells;
  }

  lemma InsertedTables(s: Api, t: Thread, call: Call, accepted: bool)
    ensures var s' := Inserted(s, t, call, accepted);
            s'.tlwe == s.tlwe && s'.variables == s.variables
  {
  }

  lemma CalledRegisters(s: Api, t: Thread, call: Call, accepted: bool)
    requires Registry(s) && Resolves(s) && !s.stopped
    ensures forall a :: Lookup(s, a).Some? ==> Lookup(Called(s, t, call, accepted), a).Some?
  {
    InvokeKeepsRegistry(s, t, call, accepted);
  }

  lemma BuffersRegistered(s: Api, t: Thread, call: Call, accepted: bool)
    requires Registry(s) && !s.stopped && Prepared(s, call).Some?
    ensures forall k :: 0 <= k < |Buffers(call)| ==> Lookup(Called(s, t, call, accepted), Buffers(call)[k].handle).Some?
  {
    PreparedGrows(s, call);
    InsertedTables(Prepared(s, call).value, t, call, accepted);
  }

  lemma CallRegisters<V>(mem: C.Memory<Address, V>, ram: map<Address, V>, s: Api, t: Thread, call: Call, accepted: bool)
    requires C.MInv(mem, ram) && Flagged(mem, s) && Registry(s) && Resolves(s) && !s.stopped
    ensures var s' := Called(s, t, call, accepted);
            C.MInv(Registering(mem, s'), ram) && Flagged(Registering(mem, s'), s')
  {
    CalledRegisters(s, t, call, accepted);
    RegisteringKeeps(mem, ram, Called(s, t, call, accepted));
    RegisteringFlags(mem, s, Called(s, t, call, accepted));
  }

  /** What a call touches it has registered. */
  lemma CallTouches<V>(sem: Semantics<V>, mem: C.Memory<Address, V>, s': Api, call: Call, a: Address)
    requires Flagged(mem, s') && Touches(CallTask(sem, call), a)
    requires forall k :: 0 <= k < |Buffers(call)| ==> Lookup(s', Buffers(call)[k].handle).Some?
    requires forall k :: 0 <= k < |Buffers(call)| ==> Buffers(call)[k].handle !in mem.unmarked
    ensures a !in mem.unmarked && (a in mem.cells ==> mem.cells[a].registered)
  {
    var k :| 0 <= k < |Buffers(call)| && Buffers(call)[k].handle == a;
  }

  lemma CallSubmits<V>(sem: Semantics<V>, mem: C.Memory<Address, V>, ram: map<Address, V>, s': Api, call: Call)
    requires C.MInv(mem, ram) && Flagged(mem, s')
    requires forall k :: 0 <= k < |Buffers(call)| ==> Lookup(s', Buffers(call)[k].handle).Some?
    requires forall k :: 0 <= k < |Buffers(call)| ==> Buffers(call)[k].handle !in mem.unmarked
    ensures C.MInv(mem.(tasks := mem.tasks + [CallTask(sem, call)]), ram)
  {
    var t := CallTask(sem, call);
    forall a | Touches(t, a)
      ensures a !in mem.unmarked && (a in mem.cells ==> mem.cells[a].registered)
    {
      CallTouches(sem, mem, s', call, a);
    }
    SubmittingKeeps(mem, ram, t);
  }

  lemma HistoryNext<V>(sem: Semantics<V>, entries: seq<Entry<V>>, e: Entry<V>)
    ensures History(sem, entries + [e]) == History(sem, entries) + [TaskOf(sem, e)]
  {
  }

  lemma CallMapped<V>(sem: Semantics<V>, s: System<V>, m: Machine<bool>, call: Call)
    requires Mapped(sem, s)
    requires || m.api.tasks == s.control.api.tasks
             || (|m.api.tasks| == |s.control.api.tasks| + 1 && m.api.tasks[..|s.control.api.tasks|] == s.control.api.tasks
                 && m.api.tasks[|s.control.api.tasks|].call == call)
    ensures Mapped(sem, AfterCall(sem, s, m, call))
  {
    var n := |s.control.api.tasks|;
    if |m.api.tasks| == n + 1 {
      HistoryNext(sem, s.history, Accept(call));
      assert forall i :: 0 <= i < n ==> m.api.tasks[i] == m.api.tasks[..n][i];
    }
  }

  /** A new submission, at the end of the history, has not started. */
  lemma InStepNext<V>(at: seq<nat>, started: set<nat>, completed: set<nat>, mem: C.Memory<Address, V>, mem': C.Memory<Address, V>)
    requires InStep(at, started, completed, mem) && |at| !in started && |at| !in completed
    requires |mem.tasks| !in mem.started && |mem.tasks| !in mem.finished
    requires |mem'.tasks| == |mem.tasks| + 1 && mem'.started == mem.started && mem'.finished == mem.finished
    ensures InStep(at + [|mem.tasks|], started, completed, mem')
  {
    var at' := at + [|mem.tasks|];
    forall p | 0 <= p < |mem'.tasks|
      ensures p in mem'.finished || p in at'
    {
      if p == |mem.tasks| {
        assert at'[|at|] == p;
      } else if p in at {
        var i :| 0 <= i < |at| && at[i] == p;
        assert at'[i] == p;
      }
    }
  }

  lemma InvokeInStep<V>(sem: Semantics<V>, s: System<V>, m: Machine<bool>, call: Call)
    requires InStep(s.at, s.control.started, s.control.completed, s.mem)
    requires |s.at| == |s.control.api.tasks| && |s.history| == |s.mem.tasks| && Ordered(C.Abs(s.mem))
    requires |s.at| !in s.control.started && |s.at| !in s.control.completed
    requires |m.api.tasks| == |s.control.api.tasks| || |m.api.tasks| == |s.control.api.tasks| + 1
    ensures var s' := AfterCall(sem, s, m, call);
            InStep(s'.at, s.control.started, s.control.completed, s'.mem)
  {
    if |m.api.tasks| == |s.control.api.tasks| + 1 {
      assert |s.mem.tasks| !in C.Abs(s.mem).started;
      InStepNext(s.at, s.control.started, s.control.completed, s.mem, AfterCall(sem, s, m, call).mem);
    }
  }

  lemma InvokeMemory<V>(sem: Semantics<V>, s: System<V>, ram: map<Address, V>, t: Thread, call: Call, accepted: bool, m: Machine<bool>)
    requires Tables(s.control.api) && Flagged(s.mem, s.control.api) && C.MInv(s.mem, ram)
    requires forall k :: 0 <= k < |Buffers(call)| ==> Buffers(call)[k].handle !in s.mem.unmarked
    requires m.api == Called(s.control.api, t, call, accepted)
    ensures var s' := AfterCall(sem, s, m, call);
            C.MInv(s'.mem, ram) && Flagged(s'.mem, m.api)
  {
    var api := s.control.api;
    CallRegisters(s.mem, ram, api, t, call, accepted);
    if |m.api.tasks| != |api.tasks| {
      BuffersRegistered(api, t, call, accepted);
      CallSubmits(sem, Registering(s.mem, m.api), ram, m.api, call);
    }
  }

  lemma InvokeFollowed<V>(sem: Semantics<V>, s: System<V>, ram: map<Address, V>, t: Thread, call: Call, accepted: bool)
    requires Tables(s.control.api) && Staged(s.control) && Followed(sem, s, ram) && Able(s, Plain(Invoke(t, call, accepted)))
    ensures Followed(sem, Done(sem, s, Plain(Invoke(t, call, accepted))), ram)
  {
    var m := Next(Silent(), s.control, Invoke(t, call, accepted));
    CallEffects(s.control.api, t, call, accepted);
    CallMapped(sem, s, m, call);
    InvokeInStep(sem, s, m, call);
    InvokeMemory(sem, s, ram, t, call, accepted, m);
  }

  // ---------- tasks ----------

  lemma EntryReady<V>(sem: Semantics<V>, m: Machine<bool>, j: nat, i: nat)
    requires Registry(m.api) && Resolves(m.api) && Possible(m, Launch(i)) && j < i
    requires Conflict(CallTask(sem, m.api.tasks[j].call), CallTask(sem, m.api.tasks[i].call))
    ensures j in m.completed
  {
    assert Resolved(m.api, m.api.tasks[j]) && Resolved(m.api, m.api.tasks[i]);
    ConflictByHandle(sem, m.api, m.api.tasks[j], m.api.tasks[i]);
  }

  lemma LaunchOrdered<V>(sem: Semantics<V>, s: System<V>, i: nat, j: nat)
    requires Registry(s.control.api) && Resolves(s.control.api) && Possible(s.control, Launch(i)) && Mapped(sem, s)
    requires j < |s.at| && i < |s.at| && s.at[j] < s.at[i] < |s.mem.tasks|
    requires Conflict(s.mem.tasks[s.at[j]], s.mem.tasks[s.at[i]])
    ensures j in s.control.completed
  {
    EntryTask(sem, s, j);
    EntryTask(sem, s, i);
    EntryReady(sem, s.control, j, i);
  }

  lemma LaunchReady<V>(sem: Semantics<V>, s: System<V>, i: nat, q: nat)
    requires Registry(s.control.api) && Resolves(s.control.api) && Possible(s.control, Launch(i))
    requires Mapped(sem, s) && InStep(s.at, s.control.started, s.control.completed, s.mem)
    requires q < s.at[i] < |s.mem.tasks| && Conflict(s.mem.tasks[q], s.mem.tasks[s.at[i]])
    ensures q in s.mem.finished
  {
    if q in s.at {
      var j :| 0 <= j < |s.at| && s.at[j] == q;
      LaunchOrdered(sem, s, i, j);
    }
  }

  /** A launch the handles allow is one the runtime's order of the whole history allows. */
  lemma LaunchAble<V>(sem: Semantics<V>, s: System<V>, i: nat, node: C.Node)
    requires Registry(s.control.api) && Resolves(s.control.api) && Possible(s.control, Launch(i))
    requires Mapped(sem, s) && InStep(s.at, s.control.started, s.control.completed, s.mem)
    ensures C.Possible(s.mem, C.Started(s.at[i], node))
  {
    EntryTask(sem, s, i);
    forall q | 0 <= q < s.at[i] && Conflict(s.mem.tasks[q], s.mem.tasks[s.at[i]])
      ensures q in s.mem.finished
    {
      LaunchReady(sem, s, i, q);
    }
    assert Runtime.Ready(C.Abs(s.mem), s.at[i]);
  }

  lemma LaunchedAlike<V>(mem: C.Memory<Address, V>, p: nat, t: Task<Address, V>, t': Task<Address, V>, node: C.Node)
    requires t.accesses == t'.accesses
    ensures C.Launched(mem, p, t, node) == C.Launched(mem, p, t', node)
  {
    assert forall a :: Reads(t, a) <==> Reads(t', a);
    var cells := C.Launched(mem, p, t, node).cells;
    assert cells == C.Launched(mem, p, t', node).cells;
    assert C.NodeView(t, cells, node) == C.NodeView(t', cells, node);
  }

  lemma EndedAlike<V>(mem: C.Memory<Address, V>, p: nat, t: Task<Address, V>, t': Task<Address, V>)
    requires p in mem.placed && p in mem.views && t.accesses == t'.accesses
    requires forall w :: t.body(mem.views[p], w) == t'.body(mem.views[p], w)
    ensures C.Ended(mem, p, t) == C.Ended(mem, p, t')
  {
    assert C.Ended(mem, p, t).cells == C.Ended(mem, p, t').cells;
  }

  /** Which values have handles does not change when tasks run or the host reads and stores. */
  ghost predicate SameFlags<V>(mem: C.Memory<Address, V>, mem': C.Memory<Address, V>) {
    mem'.cells.Keys == mem.cells.Keys && forall a :: a in mem.cells ==> mem'.cells[a].registered == mem.cells[a].registered
  }

  lemma RunFlags<V>(mem: C.Memory<Address, V>, p: nat, t: Task<Address, V>, node: C.Node)
    ensures SameFlags(mem, C.Launched(mem, p, t, node))
    ensures p in mem.placed && p in mem.views ==> SameFlags(mem, C.Ended(mem, p, t))
  {
  }

  lemma FlaggedKept<V>(mem: C.Memory<Address, V>, mem': C.Memory<Address, V>, api: Api)
    requires Flagged(mem, api) && SameFlags(mem, mem')
    ensures Flagged(mem', api)
  {
  }

  lemma AtDistinct<V>(sem: Semantics<V>, s: System<V>, i: nat)
    requires Mapped(sem, s) && i < |s.at|
    ensures forall j :: 0 <= j < |s.at| && s.at[j] == s.at[i] ==> j == i
  {
  }

  lemma InStepMoved<V>(at: seq<nat>, started: set<nat>, completed: set<nat>, mem: C.Memory<Address, V>, mem': C.Memory<Address, V>, i: nat)
    requires InStep(at, started, completed, mem) && i < |at| && mem'.tasks == mem.tasks
    requires forall j :: 0 <= j < |at| && at[j] == at[i] ==> j == i
    ensures mem'.started == mem.started + {at[i]} && mem'.finished == mem.finished ==> InStep(at, started + {i}, completed, mem')
    ensures mem'.started == mem.started && mem'.finished == mem.finished + {at[i]} ==> InStep(at, started, completed + {i}, mem')
  {
  }

  lemma LaunchMemory<V>(sem: Semantics<V>, s: System<V>, i: nat, node: C.Node)
    requires Resolves(s.control.api) && Mapped(sem, s) && Able(s, Launched(i, node))
    ensures Done(sem, s, Launched(i, node)).mem == C.Launched(s.mem, s.at[i], CallTask(sem, s.control.api.tasks[i].call), node)
  {
    var api := s.control.api;
    assert Resolved(api, api.tasks[i]);
    RunTaskAccesses(sem, api, api.tasks[i], api.key);
    LaunchedAlike(s.mem, s.at[i], RunTask(sem, api, api.tasks[i], api.key), CallTask(sem, api.tasks[i].call), node);
  }

  lemma LaunchCoherent<V>(sem: Semantics<V>, s: System<V>, ram: map<Address, V>, i: nat, node: C.Node)
    requires Registry(s.control.api) && Resolves(s.control.api) && Able(s, Launched(i, node))
    requires Mapped(sem, s) && InStep(s.at, s.control.started, s.control.completed, s.mem) && C.MInv(s.mem, ram)
    ensures C.MInv(Done(sem, s, Launched(i, node)).mem, ram)
  {
    LaunchMemory(sem, s, i, node);
    EntryTask(sem, s, i);
    LaunchAble(sem, s, i, node);
    C.StartedRefines(s.mem, ram, s.at[i], node);
  }

  lemma LaunchTracked<V>(sem: Semantics<V>, s: System<V>, i: nat, node: C.Node)
    requires Resolves(s.control.api) && Able(s, Launched(i, node))
    requires Mapped(sem, s) && InStep(s.at, s.control.started, s.control.completed, s.mem) && Flagged(s.mem, s.control.api)
    ensures var s' := Done(sem, s, Launched(i, node));
            Mapped(sem, s') && InStep(s'.at, s'.control.started, s'.control.completed, s'.mem) && Flagged(s'.mem, s'.control.api)
  {
    var t, mem' := CallTask(sem, s.control.api.tasks[i].call), Done(sem, s, Launched(i, node)).mem;
    LaunchMemory(sem, s, i, node);
    RunFlags(s.mem, s.at[i], t, node);
    FlaggedKept(s.mem, mem', s.control.api);
    AtDistinct(sem, s, i);
    InStepMoved(s.at, s.control.started, s.control.completed, s.mem, mem', i);
  }

  lemma LaunchFollowed<V>(sem: Semantics<V>, s: System<V>, ram: map<Address, V>, i: nat, node: C.Node)
    requires Registry(s.control.api) && Resolves(s.control.api) && Followed(sem, s, ram) && Able(s, Launched(i, node))
    ensures Followed(sem, Done(sem, s, Launched(i, node)), ram)
  {
    LaunchCoherent(sem, s, ram, i, node);
    LaunchTracked(sem, s, i, node);
  }

  lemma CompleteMemory<V>(sem: Semantics<V>, s: System<V>, i: nat)
    requires Resolves(s.control.api) && UsedKeys(s.control.api.tasks, s.control.started, s.control.keyUsed)
    requires Mapped(sem, s) && Able(s, Completed(i))
    ensures Done(sem, s, Completed(i)).mem == C.Ended(s.mem, s.at[i], CallTask(sem, s.control.api.tasks[i].call))
  {
    var api, key := s.control.api, s.control.keyUsed[i];
    var sub := api.tasks[i];
    assert Resolved(api, sub);
    RunTaskAccesses(sem, api, sub, key);
    PerformKey(sem, sub.call, key, s.mem.views[s.at[i]]);
    EndedAlike(s.mem, s.at[i], RunTask(sem, api, sub, key), CallTask(sem, sub.call));
  }

  lemma CompleteAble<V>(sem: Semantics<V>, s: System<V>, i: nat)
    requires Mapped(sem, s) && InStep(s.at, s.control.started, s.control.completed, s.mem) && Able(s, Completed(i))
    ensures C.Possible(s.mem, C.Completed(s.at[i]))
  {
    EntryTask(sem, s, i);
  }

  lemma CompleteCoherent<V>(sem: Semantics<V>, s: System<V>, ram: map<Address, V>, i: nat)
    requires Resolves(s.control.api) && UsedKeys(s.control.api.tasks, s.control.started, s.control.keyUsed) && Able(s, Completed(i))
    requires Mapped(sem, s) && InStep(s.at, s.control.started, s.control.completed, s.mem) && C.MInv(s.mem, ram)
    ensures C.MInv(Done(sem, s, Completed(i)).mem, ram)
  {
    CompleteMemory(sem, s, i);
    EntryTask(sem, s, i);
    CompleteAble(sem, s, i);
    C.CompletedRefines(s.mem, ram, s.at[i]);
  }

  lemma CompleteTracked<V>(sem: Semantics<V>, s: System<V>, i: nat)
    requires Resolves(s.control.api) && UsedKeys(s.control.api.tasks, s.control.started, s.control.keyUsed) && Able(s, Completed(i))
    requires Mapped(sem, s) && InStep(s.at, s.control.started, s.control.completed, s.mem) && Flagged(s.mem, s.control.api)
    ensures var s' := Done(sem, s, Completed(i));
            Mapped(sem, s') && InStep(s'.at, s'.control.started, s'.control.completed, s'.mem) && Flagged(s'.mem, s'.control.api)
  {
    var t, mem' := CallTask(sem, s.control.api.tasks[i].call), Done(sem, s, Completed(i)).mem;
    CompleteMemory(sem, s, i);
    RunFlags(s.mem, s.at[i], t, C.Host);
    FlaggedKept(s.mem, mem', s.control.api);
    AtDistinct(sem, s, i);
    InStepMoved(s.at, s.control.started, s.control.completed, s.mem, mem', i);
  }

  lemma CompleteFollowed<V>(sem: Semantics<V>, s: System<V>, ram: map<Address, V>, i: nat)
    requires Resolves(s.control.api) && UsedKeys(s.control.api.tasks, s.control.started, s.control.keyUsed)
    requires Followed(sem, s, ram) && Able(s, Completed(i))
    ensures Followed(sem, Done(sem, s, Completed(i)), ram)
  {
    CompleteCoherent(sem, s, ram, i);
    CompleteTracked(sem, s, i);
  }

  // ---------- host reads and writes ----------

  lemma FetchAble<V>(sem: Semantics<V>, s: System<V>, i: nat)
    requires Registry(s.control.api) && Resolves(s.control.api) && Readable(s, i)
    requires Mapped(sem, s) && InStep(s.at, s.control.started, s.control.completed, s.mem)
    ensures C.Possible(s.mem, C.Synchronized(OutputAt(s.control.api, i)))
  {
    WritersByHandle(sem, s, i);
  }

  lemma FetchSame<V>(mem: C.Memory<Address, V>, x: Address)
    requires x in mem.cells
    ensures var mem' := C.Fetched(mem, x);
            && SameFlags(mem, mem') && mem'.tasks == mem.tasks && mem'.started == mem.started && mem'.finished == mem.finished
  {
  }

  lemma FetchKeeps<V>(sem: Semantics<V>, s: System<V>, ram: map<Address, V>, i: nat)
    requires Registry(s.control.api) && Resolves(s.control.api) && Readable(s, i)
    requires Mapped(sem, s) && InStep(s.at, s.control.started, s.control.completed, s.mem) && C.MInv(s.mem, ram)
    ensures var mem' := C.Fetched(s.mem, OutputAt(s.control.api, i));
            && C.MInv(mem', ram) && SameFlags(s.mem, mem')
            && mem'.tasks == s.mem.tasks && mem'.started == s.mem.started && mem'.finished == s.mem.finished
  {
    FetchAble(sem, s, i);
    FetchSame(s.mem, OutputAt(s.control.api, i));
    C.SynchronizedRefines(s.mem, ram, OutputAt(s.control.api, i));
  }

  /** A step that leaves submissions, history and flags alone. */
  lemma FollowedSame<V>(sem: Semantics<V>, s: System<V>, s': System<V>, ram: map<Address, V>)
    requires Followed(sem, s, ram) && C.MInv(s'.mem, ram) && SameFlags(s.mem, s'.mem)
    requires s'.history == s.history && s'.at == s.at && s'.mem.tasks == s.mem.tasks
    requires s'.mem.started == s.mem.started && s'.mem.finished == s.mem.finished
    requires s'.control.started == s.control.started && s'.control.completed == s.control.completed
    requires s'.control.api.tasks == s.control.api.tasks
    requires s'.control.api.tlwe == s.control.api.tlwe && s'.control.api.variables == s.control.api.variables
    ensures Followed(sem, s', ram)
  {
  }

  lemma WaitFollowed<V>(sem: Semantics<V>, s: System<V>, ram: map<Address, V>, t: Thread)
    requires Registry(s.control.api) && Resolves(s.control.api) && Followed(sem, s, ram) && Able(s, Waited(t))
    ensures Followed(sem, Done(sem, s, Waited(t)), ram)
  {
    FetchKeeps(sem, s, ram, s.control.api.blocked[t]);
    FollowedSame(sem, s, Done(sem, s, Waited(t)), ram);
  }

  lemma SynchronizeFollowed<V>(sem: Semantics<V>, s: System<V>, ram: map<Address, V>, i: nat)
    requires Registry(s.control.api) && Resolves(s.control.api) && Followed(sem, s, ram) && Able(s, Synchronized(i))
    ensures Followed(sem, Done(sem, s, Synchronized(i)), ram)
  {
    FetchKeeps(sem, s, ram, i);
    FollowedSame(sem, s, Done(sem, s, Synchronized(i)), ram);
  }

  lemma StoreCoherent<V>(sem: Semantics<V>, s: System<V>, ram: map<Address, V>, x: Address, v: V)
    requires Tables(s.control.api) && Able(s, Stored(x, v))
    requires Mapped(sem, s) && InStep(s.at, s.control.started, s.control.completed, s.mem) && C.MInv(s.mem, ram)
    ensures C.MInv(C.Stored(s.mem, x, v), ram)
  {
    QuietByHandle(sem, s, x);
    C.HostStoreRefines(s.mem, ram, x, v);
  }

  lemma StoreSame<V>(mem: C.Memory<Address, V>, x: Address, v: V)
    requires x in mem.cells
    ensures SameFlags(mem, C.Stored(mem, x, v))
  {
  }

  lemma StoreFollowed<V>(sem: Semantics<V>, s: System<V>, ram: map<Address, V>, x: Address, v: V)
    requires Tables(s.control.api) && Followed(sem, s, ram) && Able(s, Stored(x, v))
    ensures Followed(sem, Done(sem, s, Stored(x, v)), ram)
  {
    StoreCoherent(sem, s, ram, x, v);
    StoreSame(s.mem, x, v);
    FollowedSame(sem, s, Done(sem, s, Stored(x, v)), ram);
  }

  /** The mark that looks in the backend's tables is the mark that knows about registration. */
  lemma MarkAble<V>(sem: Semantics<V>, s: System<V>, x: Address)
    requires Tables(s.control.api) && Mapped(sem, s) && InStep(s.at, s.control.started, s.control.completed, s.mem)
    requires Flagged(s.mem, s.control.api) && Able(s, Marked(x))
    ensures C.Possible(s.mem, C.Marked(x)) && Done(sem, s, Marked(x)).mem == C.Next(s.mem, C.Marked(x))
  {
    QuietByHandle(sem, s, x);
  }

  lemma MarkMapped<V>(sem: Semantics<V>, s: System<V>, x: Address)
    requires Mapped(sem, s) && Able(s, Marked(x))
    ensures Mapped(sem, Done(sem, s, Marked(x)))
  {
    HistoryNext(sem, s.history, Write(x, s.mem.cells[x].host));
  }

  lemma MarkInStep<V>(at: seq<nat>, started: set<nat>, completed: set<nat>, mem: C.Memory<Address, V>, x: Address, registered: bool)
    requires InStep(at, started, completed, mem) && x in mem.cells
    requires forall i :: 0 <= i < |at| ==> at[i] < |mem.tasks|
    ensures InStep(at, started, completed, C.AfterMark(mem, x, registered))
    ensures SameFlags(mem, C.AfterMark(mem, x, registered))
  {
  }

  lemma MarkCoherent<V>(sem: Semantics<V>, s: System<V>, ram: map<Address, V>, x: Address)
    requires Tables(s.control.api) && Mapped(sem, s) && InStep(s.at, s.control.started, s.control.completed, s.mem)
    requires Flagged(s.mem, s.control.api) && C.MInv(s.mem, ram) && Able(s, Marked(x))
    ensures C.MInv(Done(sem, s, Marked(x)).mem, ram)
  {
    MarkAble(sem, s, x);
    C.MarkedRefines(s.mem, ram, x);
  }

  lemma MarkTracked<V>(sem: Semantics<V>, s: System<V>, x: Address)
    requires Mapped(sem, s) && InStep(s.at, s.control.started, s.control.completed, s.mem)
    requires Flagged(s.mem, s.control.api) && Able(s, Marked(x))
    ensures var s' := Done(sem, s, Marked(x));
            InStep(s'.at, s'.control.started, s'.control.completed, s'.mem) && Flagged(s'.mem, s'.control.api)
  {
    var registered := Lookup(s.control.api, x).Some?;
    MarkInStep(s.at, s.control.started, s.control.completed, s.mem, x, registered);
    FlaggedKept(s.mem, C.AfterMark(s.mem, x, registered), s.control.api);
  }

  lemma MarkFollowed<V>(sem: Semantics<V>, s: System<V>, ram: map<Address, V>, x: Address)
    requires Tables(s.control.api) && Followed(sem, s, ram) && Able(s, Marked(x))
    ensures Followed(sem, Done(sem, s, Marked(x)), ram)
  {
    MarkMapped(sem, s, x);
    MarkTracked(sem, s, x);
    MarkCoherent(sem, s, ram, x);
  }

  lemma PlainFollowed<V>(sem: Semantics<V>, s: System<V>, ram: map<Address, V>, e: BackendRuns.Event)
    requires Followed(sem, s, ram) && Able(s, Plain(e)) && !e.Invoke?
    ensures Followed(sem, Done(sem, s, Plain(e)), ram)
  {
    OtherEvents(s.control.api, e);
    FollowedSame(sem, s, Done(sem, s, Plain(e)), ram);
  }

  // ---------- runs ----------

  /** The step of the backend's machine, if the action is one. */
  function ControlStep<V>(a: Action<V>): Option<BackendRuns.Event> {
    match a
    case Plain(e) => Some(e)
    case Launched(i, _) => Some(Launch(i))
    case Completed(i) => Some(Complete(i))
    case Waited(t) => Some(Resume(t))
    case _ => None
  }

  lemma ControlSane<V>(sem: Semantics<V>, s: System<V>, a: Action<V>)
    requires Sane(s.control) && !s.control.api.stopped && Able(s, a)
    ensures Sane(Done(sem, s, a).control) && !Done(sem, s, a).control.api.stopped
  {
    var e := ControlStep(a);
    if e.Some? {
      TraceStepSane(s.control, e.value);
    }
  }

  lemma HostFollowed<V>(sem: Semantics<V>, s: System<V>, ram: map<Address, V>, a: Action<V>)
    requires Tables(s.control.api) && Followed(sem, s, ram) && Able(s, a)
    requires a.Waited? || a.Synchronized? || a.Stored? || a.Marked?
    ensures Followed(sem, Done(sem, s, a), ram)
  {
    match a
    case Waited(t) => WaitFollowed(sem, s, ram, t);
    case Synchronized(i) => SynchronizeFollowed(sem, s, ram, i);
    case Stored(x, v) => StoreFollowed(sem, s, ram, x, v);
    case Marked(x) => MarkFollowed(sem, s, ram, x);
  }

  lemma StepFollowed<V>(sem: Semantics<V>, s: System<V>, ram: map<Address, V>, a: Action<V>)
    requires Tables(s.control.api) && Staged(s.control)
    requires UsedKeys(s.control.api.tasks, s.control.started, s.control.keyUsed)
    requires Followed(sem, s, ram) && Able(s, a)
    ensures Followed(sem, Done(sem, s, a), ram)
  {
    match a
    case Plain(e) =>
      if e.Invoke? {
        InvokeFollowed(sem, s, ram, e.t, e.call, e.accepted);
      } else {
        PlainFollowed(sem, s, ram, e);
      }
    case Launched(i, node) => LaunchFollowed(sem, s, ram, i, node);
    case Completed(i) => CompleteFollowed(sem, s, ram, i);
    case _ => HostFollowed(sem, s, ram, a);
  }

  lemma StepSound<V>(sem: Semantics<V>, s: System<V>, ram: map<Address, V>, a: Action<V>)
    requires Sound(sem, s, ram) && Able(s, a)
    ensures Sound(sem, Done(sem, s, a), ram)
  {
    ControlSane(sem, s, a);
    StepFollowed(sem, s, ram, a);
  }

  /** Over every run, with any threads, captures, schedule, placement and host stores: the copies
      stay coherent with the history run on one copy, and the tables with what is registered. */
  lemma {:induction false} RunKeepsSound<V>(sem: Semantics<V>, s: System<V>, ram: map<Address, V>, acts: seq<Action<V>>)
    requires Sound(sem, s, ram) && Run(sem, s, acts).Some?
    ensures Sound(sem, Run(sem, s, acts).value, ram)
    decreases |acts|
  {
    if acts != [] {
      StepSound(sem, s, ram, acts[0]);
      RunKeepsSound(sem, Done(sem, s, acts[0]), ram, acts[1..]);
    }
  }

  lemma StartSound<V>(sem: Semantics<V>, ram: map<Address, V>, junk: V)
    ensures Sound(sem, Start(ram, junk), ram)
  {
    BootSane<bool>(map[]);
    C.BootMInv(ram, junk);
  }

  // ---------- the history on one copy ----------

  /** The value an entry writes. */
  function Target<V>(e: Entry<V>): Address {
    match e
    case Accept(call) => Output(call)
    case Write(a, _) => a
  }

  ghost predicate EntryExists<V>(e: Entry<V>, objects: set<Address>) {
    match e
    case Accept(call) => Exists(call, objects)
    case Write(a, _) => a in objects
  }

  ghost predicate EntriesExist<V>(entries: seq<Entry<V>>, objects: set<Address>) {
    forall p :: 0 <= p < |entries| ==> EntryExists(entries[p], objects)
  }

  /** One entry as a plain update of one copy. */
  ghost function Updated<V>(sem: Semantics<V>, e: Entry<V>, st: map<Address, V>): (r: map<Address, V>)
    requires EntryExists(e, st.Keys)
    ensures r.Keys == st.Keys
  {
    match e
    case Accept(call) => st[Output(call) := Result(sem, st, call)]
    case Write(a, v) => st[a := v]
  }

  /** Calls and host writes one after another, as plain updates of one copy. */
  ghost function Replay<V>(sem: Semantics<V>, entries: seq<Entry<V>>, st: map<Address, V>): (r: map<Address, V>)
    requires EntriesExist(entries, st.Keys)
    ensures r.Keys == st.Keys
  {
    if entries == [] then st
    else
      var n := |entries| - 1;
      assert EntriesExist(entries[..n], st.Keys);
      Updated(sem, entries[n], Replay(sem, entries[..n], st))
  }

  /** Accepted calls have codelets. */
  ghost predicate Formed<V>(entries: seq<Entry<V>>) {
    forall p :: 0 <= p < |entries| && entries[p].Accept? ==> WellFormed(entries[p].call)
  }

  lemma {:induction false} RunKeepsFormed<V>(sem: Semantics<V>, s: System<V>, acts: seq<Action<V>>)
    requires Formed(s.history) && Run(sem, s, acts).Some?
    ensures Formed(Run(sem, s, acts).value.history)
    decreases |acts|
  {
    if acts != [] {
      RunKeepsFormed(sem, Done(sem, s, acts[0]), acts[1..]);
    }
  }

  lemma EntryIsUpdate<V>(sem: Semantics<V>, e: Entry<V>, st: map<Address, V>)
    requires (e.Accept? ==> WellFormed(e.call)) && EntryExists(e, st.Keys)
    ensures Apply(TaskOf(sem, e), st) == Updated(sem, e, st)
  {
    match e
    case Accept(call) => ApplyIsUpdate(sem, call, st);
    case Write(a, v) => assert Apply(C.HostTask(a, v), st) == st[a := v];
  }

  lemma HistoryPrefix<V>(sem: Semantics<V>, entries: seq<Entry<V>>, p: nat)
    requires p <= |entries|
    ensures History(sem, entries)[..p] == History(sem, entries[..p])
  {
  }

  lemma {:induction false} HistoryIsReplay<V>(sem: Semantics<V>, entries: seq<Entry<V>>, st: map<Address, V>)
    requires Formed(entries) && EntriesExist(entries, st.Keys)
    ensures Sequential(History(sem, entries), st) == Replay(sem, entries, st)
  {
    if entries != [] {
      var n := |entries| - 1;
      assert EntriesExist(entries[..n], st.Keys);
      HistoryIsReplay(sem, entries[..n], st);
      HistoryPrefix(sem, entries, n);
      EntryIsUpdate(sem, entries[n], Replay(sem, entries[..n], st));
    }
  }

  lemma ReplayNext<V>(sem: Semantics<V>, entries: seq<Entry<V>>, st: map<Address, V>, n: nat, x: Address)
    requires EntriesExist(entries, st.Keys) && n + 1 == |entries| && Target(entries[n]) != x && x in st
    ensures EntriesExist(entries[..n], st.Keys) && Replay(sem, entries, st)[x] == Replay(sem, entries[..n], st)[x]
  {
  }

  /** The last entry to write a value decides it. */
  lemma {:induction false} ReplayLast<V>(sem: Semantics<V>, entries: seq<Entry<V>>, st: map<Address, V>, p: nat, x: Address)
    requires EntriesExist(entries, st.Keys) && p < |entries| && x in st
    requires forall q :: p < q < |entries| ==> Target(entries[q]) != x
    ensures EntriesExist(entries[..p + 1], st.Keys) && Replay(sem, entries, st)[x] == Replay(sem, entries[..p + 1], st)[x]
  {
    var n := |entries| - 1;
    if p < n {
      ReplayNext(sem, entries, st, n, x);
      ReplayLast(sem, entries[..n], st, p, x);
      assert entries[..n][..p + 1] == entries[..p + 1];
    } else {
      assert entries[..p + 1] == entries;
    }
  }

  lemma ReplayCall<V>(sem: Semantics<V>, entries: seq<Entry<V>>, st: map<Address, V>, p: nat, call: Call)
    requires p < |entries| && EntriesExist(entries[..p + 1], st.Keys) && entries[p] == Accept(call)
    ensures EntriesExist(entries[..p], st.Keys) && Exists(call, st.Keys)
    ensures Replay(sem, entries[..p + 1], st)[Output(call)] == Result(sem, Replay(sem, entries[..p], st), call)
  {
    var upTo := entries[..p + 1];
    assert upTo[..p] == entries[..p] && upTo[p] == Accept(call);
    assert EntryExists(upTo[p], st.Keys);
  }

  /** What a call's output holds if nothing later writes it. */
  lemma HistoryResult<V>(sem: Semantics<V>, entries: seq<Entry<V>>, st: map<Address, V>, p: nat, call: Call)
    requires Formed(entries) && EntriesExist(entries, st.Keys) && p < |entries| && entries[p] == Accept(call)
    requires forall q :: p < q < |entries| ==> Target(entries[q]) != Output(call)
    ensures EntriesExist(entries[..p], st.Keys) && Exists(call, st.Keys)
    ensures Sequential(History(sem, entries), st)[Output(call)] == Result(sem, Replay(sem, entries[..p], st), call)
  {
    assert EntryExists(entries[p], st.Keys);
    HistoryIsReplay(sem, entries, st);
    ReplayLast(sem, entries, st, p, Output(call));
    ReplayCall(sem, entries, st, p, call);
  }

  // ---------- what waiting threads, tasks and marks see ----------

  lemma ReachedSound<V>(sem: Semantics<V>, ram: map<Address, V>, junk: V, acts: seq<Action<V>>, s: System<V>)
    requires Run(sem, Start(ram, junk), acts) == Some(s)
    ensures Sound(sem, s, ram) && Formed(s.history)
  {
    StartSound(sem, ram, junk);
    RunKeepsSound(sem, Start(ram, junk), ram, acts);
    RunKeepsFormed(sem, Start(ram, junk), acts);
  }

  lemma FetchedLastWrite<V>(sem: Semantics<V>, s: System<V>, ram: map<Address, V>, i: nat)
    requires Registry(s.control.api) && Resolves(s.control.api) && Followed(sem, s, ram) && Readable(s, i)
    ensures var x := Output(s.control.api.tasks[i].call);
            && x == OutputAt(s.control.api, i) && x in ram && x in s.mem.cells
            && C.Fetched(s.mem, x).cells[x].hostValid
            && C.Fetched(s.mem, x).cells[x].host == Sequential(History(sem, s.history), ram)[x]
  {
    WritersByHandle(sem, s, i);
    FetchKeeps(sem, s, ram, i);
    FetchedSettled(s.mem, ram, OutputAt(s.control.api, i));
  }

  lemma FetchedSettled<V>(mem: C.Memory<Address, V>, ram: map<Address, V>, x: Address)
    requires x in mem.cells && x !in mem.unmarked && C.MInv(C.Fetched(mem, x), ram)
    requires forall p :: 0 <= p < |mem.tasks| && Writes(mem.tasks[p], x) ==> p in mem.finished
    ensures x in ram && C.Fetched(mem, x).cells[x].hostValid
    ensures C.Fetched(mem, x).cells[x].host == Sequential(mem.tasks, ram)[x]
  {
    SettledIsSequential(C.Fetched(mem, x), ram, x);
  }

  /** Any acquisition of an output, by a wait or later: main memory holds the last write to it
      in the history, calls and marked host stores alike. */
  lemma SynchronizedReadsLastWrite<V>(sem: Semantics<V>, ram: map<Address, V>, junk: V, acts: seq<Action<V>>, s: System<V>, i: nat)
    requires Run(sem, Start(ram, junk), acts) == Some(s) && Able(s, Synchronized(i))
    ensures i < |s.control.api.tasks| && i in s.control.completed
    ensures var s', x := Done(sem, s, Synchronized(i)), Output(s.control.api.tasks[i].call);
            && x in ram && x in s'.mem.cells && s'.mem.cells[x].hostValid
            && s'.mem.cells[x].host == Sequential(History(sem, s.history), ram)[x]
  {
    ReachedSound(sem, ram, junk, acts, s);
    FetchedLastWrite(sem, s, ram, i);
  }

  /** A submission's call, found where the history has it. */
  ghost predicate CallAt<V>(s: System<V>, i: nat, p: nat, call: Call) {
    i < |s.at| && s.at[i] == p < |s.history| && s.history[p] == Accept(call)
  }

  lemma FetchedResult<V>(sem: Semantics<V>, s: System<V>, ram: map<Address, V>, i: nat, p: nat, call: Call)
    requires Registry(s.control.api) && Resolves(s.control.api) && Followed(sem, s, ram) && Formed(s.history) && Readable(s, i)
    requires CallAt(s, i, p, call)
    requires EntriesExist(s.history, ram.Keys) && forall q :: p < q < |s.history| ==> Target(s.history[q]) != Output(call)
    ensures EntriesExist(s.history[..p], ram.Keys) && Exists(call, ram.Keys)
    ensures Output(call) == OutputAt(s.control.api, i) && Output(call) in s.mem.cells
    ensures var cell := C.Fetched(s.mem, Output(call)).cells[Output(call)];
            cell.hostValid && cell.host == Result(sem, Replay(sem, s.history[..p], ram), call)
  {
    FetchedLastWrite(sem, s, ram, i);
    HistoryResult(sem, s.history, ram, p, call);
  }

  /** A wait that ends: its task has completed, and what the thread finds in main memory is, if
      nothing later in the history writes it, what the call computes from the calls and host
      writes before it. */
  lemma WaitReadsResult<V>(sem: Semantics<V>, ram: map<Address, V>, junk: V, acts: seq<Action<V>>, s: System<V>, t: Thread,
                           p: nat, call: Call)
    requires Run(sem, Start(ram, junk), acts) == Some(s) && Able(s, Waited(t)) && CallAt(s, s.control.api.blocked[t], p, call)
    requires EntriesExist(s.history, ram.Keys) && forall q :: p < q < |s.history| ==> Target(s.history[q]) != Output(call)
    ensures s.control.api.blocked[t] in s.control.completed
    ensures EntriesExist(s.history[..p], ram.Keys) && Exists(call, ram.Keys)
    ensures var s' := Done(sem, s, Waited(t));
            && Output(call) in s'.mem.cells && s'.mem.cells[Output(call)].hostValid
            && s'.mem.cells[Output(call)].host == Result(sem, Replay(sem, s.history[..p], ram), call)
  {
    ReachedSound(sem, ram, junk, acts, s);
    FetchedResult(sem, s, ram, s.control.api.blocked[t], p, call);
  }

  lemma StartedView<V>(sem: Semantics<V>, s: System<V>, ram: map<Address, V>, i: nat)
    requires Followed(sem, s, ram) && i in s.control.started && i < |s.at|
    ensures s.at[i] in s.mem.views && s.at[i] < |s.history|
    ensures s.mem.views[s.at[i]] == View(CallTask(sem, s.control.api.tasks[i].call), Sequential(History(sem, s.history[..s.at[i]]), ram))
  {
    EntryTask(sem, s, i);
    HistoryPrefix(sem, s.history, s.at[i]);
    assert s.at[i] in C.Abs(s.mem).started;
  }

  lemma StartedReplay<V>(sem: Semantics<V>, s: System<V>, ram: map<Address, V>, i: nat, p: nat, call: Call)
    requires Followed(sem, s, ram) && Formed(s.history) && i in s.control.started && CallAt(s, i, p, call)
    requires EntriesExist(s.history[..p], ram.Keys)
    ensures p in s.mem.views && s.mem.views[p] == View(CallTask(sem, call), Replay(sem, s.history[..p], ram))
  {
    StartedView(sem, s, ram, i);
    HistoryIsReplay(sem, s.history[..p], ram);
  }

  /** Every task that has started, on either node, was handed the values of the calls and marked
      host writes before it. */
  lemma LaunchedReadsReplay<V>(sem: Semantics<V>, ram: map<Address, V>, junk: V, acts: seq<Action<V>>, s: System<V>, i: nat,
                               p: nat, call: Call)
    requires Run(sem, Start(ram, junk), acts) == Some(s) && i in s.control.started && CallAt(s, i, p, call)
    requires EntriesExist(s.history[..p], ram.Keys)
    ensures p in s.mem.views && s.mem.views[p] == View(CallTask(sem, call), Replay(sem, s.history[..p], ram))
  {
    ReachedSound(sem, ram, junk, acts, s);
    StartedReplay(sem, s, ram, i, p, call);
  }

  lemma MarkedCell<V>(mem: C.Memory<Address, V>, api: Api, x: Address)
    requires C.CellsOk(mem) && Flagged(mem, api) && x in mem.cells && x in mem.unmarked
    ensures var mem' := C.AfterMark(mem, x, Lookup(api, x).Some?);
            && x in mem'.cells && mem'.cells[x].hostValid && !mem'.cells[x].deviceValid
            && mem'.cells[x].host == mem.cells[x].host
            && (forall y :: y in mem.cells && y != x ==> y in mem'.cells && mem'.cells[y] == mem.cells[y])
            && (Lookup(api, x).None? ==> mem'.cells == mem.cells)
  {
  }

  /** Marking a host store, registered or not, makes main memory the only valid copy, as stored,
      and puts the write at this place of the history; without a handle no copy changes. */
  lemma MarkedIsWrite<V>(sem: Semantics<V>, ram: map<Address, V>, junk: V, acts: seq<Action<V>>, s: System<V>, x: Address)
    requires Run(sem, Start(ram, junk), acts) == Some(s) && Able(s, Marked(x))
    ensures var s' := Done(sem, s, Marked(x));
            && s'.history == s.history + [Write(x, s.mem.cells[x].host)]
            && x in s'.mem.cells && s'.mem.cells[x].hostValid && !s'.mem.cells[x].deviceValid
            && s'.mem.cells[x].host == s.mem.cells[x].host
            && (forall y :: y in s.mem.cells && y != x ==> y in s'.mem.cells && s'.mem.cells[y] == s.mem.cells[y])
            && (Lookup(s.control.api, x).None? ==> s'.mem.cells == s.mem.cells)
  {
    ReachedSound(sem, ram, junk, acts, s);
    MarkedCell(s.mem, s.control.api, x);
  }

  // ---------- what callers and waiting threads can do ----------

  /** Every submitted call that names the value has completed. */
  ghost predicate CallsDone(m: Machine<bool>, x: Address) {
    forall j :: 0 <= j < |m.api.tasks| && x in Named(m.api.tasks[j].call) ==> j in m.completed
  }

  lemma UnusedIffDone<V>(sem: Semantics<V>, m: Machine<bool>, x: Address)
    requires Tables(m.api)
    ensures Unused(m, x) <==> CallsDone(m, x)
  {
    forall j | 0 <= j < |m.api.tasks|
      ensures x in Named(m.api.tasks[j].call) <==>
              exists h :: Lookup(m.api, x) == Some(h) && Touches(HandleTask(m.api.tasks[j]), h)
    {
      assert Resolved(m.api, m.api.tasks[j]);
      NamedTouched(sem, m.api.tasks[j].call, x);
      if x in Named(m.api.tasks[j].call) {
        var h := UsedByHandle(sem, m.api, m.api.tasks[j], x);
      } else if Lookup(m.api, x).Some? {
        TouchesByHandle(sem, m.api, m.api.tasks[j], Lookup(m.api, x).value);
      }
    }
  }

  /** A caller can store to a value and mark the store exactly when it is there, is not already
      stored to, and every submitted call that names it has completed. */
  lemma StoreIffDone<V>(sem: Semantics<V>, s: System<V>, x: Address, v: V)
    requires Tables(s.control.api)
    ensures Able(s, Stored(x, v)) <==> x in s.mem.cells && x !in s.mem.unmarked && CallsDone(s.control, x)
    ensures Able(s, Stored(x, v)) ==> Able(Done(sem, s, Stored(x, v)), Marked(x))
  {
    UnusedIffDone(sem, s.control, x);
  }

  /** Every submitted call with the same output as submission i has completed. */
  ghost predicate OutputDone(m: Machine<bool>, i: nat)
    requires i < |m.api.tasks|
  {
    forall j :: 0 <= j < |m.api.tasks| && Output(m.api.tasks[j].call) == Output(m.api.tasks[i].call) ==> j in m.completed
  }

  lemma WrittenIffDone<V>(sem: Semantics<V>, m: Machine<bool>, i: nat)
    requires Registry(m.api) && Resolves(m.api) && i < |m.api.tasks|
    ensures Written(m, OutputHandle(m.api.tasks[i])) <==>
            OutputDone(m, i)
  {
    var h := OutputHandle(m.api.tasks[i]);
    assert Resolved(m.api, m.api.tasks[i]);
    OutputResolved(m.api, i);
    forall j | 0 <= j < |m.api.tasks|
      ensures Writes(HandleTask(m.api.tasks[j]), h) <==> Output(m.api.tasks[j].call) == Output(m.api.tasks[i].call)
    {
      assert Resolved(m.api, m.api.tasks[j]);
      TouchesByHandle(sem, m.api, m.api.tasks[j], h);
      NamedTouched(sem, m.api.tasks[j].call, m.api.addresses[h]);
    }
  }

  lemma ReadableIffDone<V>(sem: Semantics<V>, s: System<V>, i: nat)
    requires Registry(s.control.api) && Resolves(s.control.api) && i < |s.control.api.tasks|
    ensures var x := Output(s.control.api.tasks[i].call);
            Readable(s, i) <==> OutputDone(s.control, i) && x in s.mem.cells && x !in s.mem.unmarked
  {
    assert Resolved(s.control.api, s.control.api.tasks[i]);
    OutputResolved(s.control.api, i);
    WrittenIffDone(sem, s.control, i);
  }

  /** An output can be acquired exactly when its task has been notified, every submitted call with
      the same output has completed, and the output is there and holds no unmarked store. The
      wait of a blocked thread can end exactly when that holds of the task it polls. */
  lemma AcquiredIffDone<V>(sem: Semantics<V>, s: System<V>, i: nat, t: Thread)
    requires Registry(s.control.api) && Resolves(s.control.api) && i < |s.control.api.tasks|
    ensures var x := Output(s.control.api.tasks[i].call);
            Able(s, Synchronized(i)) <==>
            i in s.control.api.notified && OutputDone(s.control, i) && x in s.mem.cells && x !in s.mem.unmarked
    ensures t in s.control.api.blocked && s.control.api.blocked[t] == i ==> (Able(s, Waited(t)) <==> Able(s, Synchronized(i)))
  {
    ReadableIffDone(sem, s, i);
  }

  // ---------- two copies do not restrict the backend ----------

  predicate Moves(e: BackendRuns.Event) { Bookkeeping(e) || e.Launch? || e.Complete? }

  function Lifted<V>(e: BackendRuns.Event, node: nat -> C.Node): Action<V> {
    match e
    case Launch(i) => Launched(i, node(i))
    case Complete(i) => Completed(i)
    case _ => Plain(e)
  }

  function AllLifted<V>(es: seq<BackendRuns.Event>, node: nat -> C.Node): seq<Action<V>> {
    seq(|es|, k requires 0 <= k < |es| => Lifted(es[k], node))
  }

  lemma LiftedAble<V>(sem: Semantics<V>, s: System<V>, ram: map<Address, V>, e: BackendRuns.Event, node: nat -> C.Node)
    requires Followed(sem, s, ram) && s.mem.unmarked == map[] && Moves(e) && Possible(s.control, e)
    ensures Able(s, Lifted(e, node))
    ensures Done(sem, s, Lifted(e, node)).control == Next(Silent(), s.control, e)
    ensures Done(sem, s, Lifted(e, node)).mem.unmarked == map[]
  {
    if e.Complete? {
      assert s.at[e.i] in s.mem.started && s.at[e.i] in C.Abs(s.mem).views;
    }
  }

  lemma LiftedFirst<V>(sem: Semantics<V>, s: System<V>, es: seq<BackendRuns.Event>, node: nat -> C.Node)
    requires es != [] && Able(s, Lifted(es[0], node))
    ensures Run(sem, s, AllLifted(es, node)) == Run(sem, Done(sem, s, Lifted(es[0], node)), AllLifted(es[1..], node))
  {
    var acts: seq<Action<V>> := AllLifted(es, node);
    assert acts[0] == Lifted(es[0], node) && acts[1..] == AllLifted(es[1..], node);
  }

  lemma LiftedSound<V>(sem: Semantics<V>, s: System<V>, ram: map<Address, V>, e: BackendRuns.Event, node: nat -> C.Node)
    requires Sound(sem, s, ram) && s.mem.unmarked == map[] && Moves(e) && Possible(s.control, e)
    ensures Able(s, Lifted(e, node))
    ensures var s' := Done(sem, s, Lifted(e, node));
            Sound(sem, s', ram) && s'.mem.unmarked == map[] && s'.control == Next(Silent(), s.control, e)
  {
    LiftedAble(sem, s, ram, e, node);
    StepSound(sem, s, ram, Lifted(e, node));
  }

  ghost predicate AllMove(es: seq<BackendRuns.Event>) {
    forall k :: 0 <= k < |es| ==> Moves(es[k])
  }

  lemma FirstMoves(m: Machine<bool>, es: seq<BackendRuns.Event>)
    requires AllMove(es) && es != [] && Trace(Silent(), m, es).Some?
    ensures Moves(es[0]) && AllMove(es[1..]) && Possible(m, es[0])
    ensures Trace(Silent(), m, es) == Trace(Silent(), Next(Silent(), m, es[0]), es[1..])
  {
  }

  lemma LiftedNext<V>(sem: Semantics<V>, s: System<V>, ram: map<Address, V>, es: seq<BackendRuns.Event>, node: nat -> C.Node)
      returns (s1: System<V>)
    requires Sound(sem, s, ram) && s.mem.unmarked == map[] && AllMove(es) && es != [] && Trace(Silent(), s.control, es).Some?
    ensures Sound(sem, s1, ram) && s1.mem.unmarked == map[] && AllMove(es[1..])
    ensures Run(sem, s, AllLifted(es, node)) == Run(sem, s1, AllLifted(es[1..], node))
    ensures Trace(Silent(), s.control, es) == Trace(Silent(), s1.control, es[1..])
  {
    var e := es[0];
    FirstMoves(s.control, es);
    LiftedSound(sem, s, ram, e, node);
    LiftedFirst(sem, s, es, node);
    s1 := Done(sem, s, Lifted(e, node));
  }

  /** Every run of the backend's machine up to its waits, its tasks on whichever nodes, is a run
      over two memories, from every reachable state without unmarked stores. */
  lemma {:induction false} BackendRunsOnNodes<V>(sem: Semantics<V>, s: System<V>, ram: map<Address, V>, es: seq<BackendRuns.Event>, node: nat -> C.Node)
    requires Sound(sem, s, ram) && s.mem.unmarked == map[] && AllMove(es) && Trace(Silent(), s.control, es).Some?
    ensures Run(sem, s, AllLifted(es, node)).Some?
    ensures Some(Run(sem, s, AllLifted(es, node)).value.control) == Trace(Silent(), s.control, es)
    decreases |es|
  {
    if es != [] {
      var s1 := LiftedNext(sem, s, ram, es, node);
      BackendRunsOnNodes(sem, s1, ram, es[1..], node);
    }
  }
}
