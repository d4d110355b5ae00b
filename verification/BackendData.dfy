/** What the backend's runs compute: every run refines the plain task machine on the
    callers' own addresses, so captures, threads and schedules do not show in the data.
 */
module BackendData {
  import opened Options
  import opened Runtime
  import opened Backend
  import opened BackendRuns
  import opened BackendOwnership

  // ---------- one submission against its caller's call ----------

  lemma RunTaskAccesses<V>(sem: Semantics<V>, api: Api, sub: Submission, key: Option<KeyId>)
    requires Resolved(api, sub)
    ensures RunTask(sem, api, sub, key).accesses == Buffers(sub.call)
  {
  }

  lemma RunTaskView<V>(sem: Semantics<V>, api: Api, sub: Submission, key: Option<KeyId>, memory: map<Address, V>)
    requires Resolved(api, sub)
    ensures View(RunTask(sem, api, sub, key), memory) == View(CallTask(sem, sub.call), memory)
  {
    RunTaskAccesses(sem, api, sub, key);
  }

  lemma PerformKey<V>(sem: Semantics<V>, call: Call, key: Option<KeyId>, view: seq<Option<V>>)
    requires KeyOf(call).Some? ==> key == KeyOf(call)
    ensures Perform(sem, CodeletOf(call), key, view) == Perform(sem, CodeletOf(call), KeyOf(call), view)
  {
  }

  lemma RunTaskCommit<V>(sem: Semantics<V>, api: Api, sub: Submission, key: Option<KeyId>, view: seq<Option<V>>, memory: map<Address, V>)
    requires Resolved(api, sub) && (KeyOf(sub.call).Some? ==> key == KeyOf(sub.call))
    ensures Commit(RunTask(sem, api, sub, key), view, memory) == Commit(CallTask(sem, sub.call), view, memory)
  {
    RunTaskAccesses(sem, api, sub, key);
    PerformKey(sem, sub.call, key, view);
  }

  // ---------- ordering by handle is ordering by address ----------

  lemma TouchesByHandle<V>(sem: Semantics<V>, api: Api, sub: Submission, h: Handle)
    requires Registry(api) && Resolved(api, sub) && h < |api.addresses|
    ensures Reads(HandleTask(sub), h) <==> Reads(CallTask(sem, sub.call), api.addresses[h])
    ensures Writes(HandleTask(sub), h) <==> Writes(CallTask(sem, sub.call), api.addresses[h])
  {
    var ht, ct := HandleTask(sub), CallTask(sem, sub.call);
    assert |ht.accesses| == |ct.accesses|;
    assert forall k :: 0 <= k < |ht.accesses| ==>
      ht.accesses[k].mode == ct.accesses[k].mode && (ht.accesses[k].handle == h <==> ct.accesses[k].handle == api.addresses[h]);
  }

  lemma TouchedRegistered<V>(sem: Semantics<V>, api: Api, sub: Submission, a: Address)
    requires Resolved(api, sub) && Touches(CallTask(sem, sub.call), a)
    ensures exists h :: 0 <= h < |api.addresses| && api.addresses[h] == a
  {
    var b := Buffers(sub.call);
    var k :| 0 <= k < |b| && b[k].handle == a;
    assert api.addresses[sub.handles[k]] == a;
  }

  lemma TouchedHandleValid(api: Api, sub: Submission, h: Handle)
    requires Resolved(api, sub) && Touches(HandleTask(sub), h)
    ensures h < |api.addresses|
  {
  }

  /** The runtime's order, decided on handles, is the order the callers' addresses call for. */
  lemma ConflictByHandle<V>(sem: Semantics<V>, api: Api, a: Submission, b: Submission)
    requires Registry(api) && Resolved(api, a) && Resolved(api, b)
    ensures Conflict(HandleTask(a), HandleTask(b)) <==> Conflict(CallTask(sem, a.call), CallTask(sem, b.call))
  {
    var ha, hb, ca, cb := HandleTask(a), HandleTask(b), CallTask(sem, a.call), CallTask(sem, b.call);
    if Conflict(ha, hb) {
      var h: Handle :| Touches(ha, h) && Touches(hb, h) && (Writes(ha, h) || Writes(hb, h));
      TouchedHandleValid(api, a, h);
      TouchesByHandle(sem, api, a, h);
      TouchesByHandle(sem, api, b, h);
      assert Touches(ca, api.addresses[h]) && Touches(cb, api.addresses[h]);
    }
    if Conflict(ca, cb) {
      var x :| Touches(ca, x) && Touches(cb, x) && (Writes(ca, x) || Writes(cb, x));
      TouchedRegistered(sem, api, a, x);
      var h: nat :| h < |api.addresses| && api.addresses[h] == x;
      TouchesByHandle(sem, api, a, h);
      TouchesByHandle(sem, api, b, h);
      assert Touches(ha, h) && Touches(hb, h);
    }
  }

  // ---------- refinement of the plain task machine ----------

  ghost function CallTasks<V>(sem: Semantics<V>, tasks: seq<Submission>): seq<Task<Address, V>> {
    seq(|tasks|, i requires 0 <= i < |tasks| => CallTask(sem, tasks[i].call))
  }

  ghost function Abs<V>(sem: Semantics<V>, m: Machine<V>): State<Address, V> {
    State(CallTasks(sem, m.api.tasks), m.started, m.completed, m.views, m.memory)
  }

  lemma LaunchRefines<V>(sem: Semantics<V>, m: Machine<V>, i: nat)
    requires Registry(m.api) && Resolves(m.api) && Possible(m, Launch(i))
    ensures Enabled(Abs(sem, m), Start(i)) && Abs(sem, Next(sem, m, Launch(i))) == Step(Abs(sem, m), Start(i))
  {
    var a := Abs(sem, m);
    assert Resolved(m.api, m.api.tasks[i]);
    forall j | 0 <= j < i && Conflict(a.tasks[j], a.tasks[i])
      ensures j in a.finished
    {
      assert Resolved(m.api, m.api.tasks[j]);
      ConflictByHandle(sem, m.api, m.api.tasks[j], m.api.tasks[i]);
    }
    RunTaskView(sem, m.api, m.api.tasks[i], m.api.key, m.memory);
  }

  lemma CompleteRefines<V>(sem: Semantics<V>, m: Machine<V>, i: nat)
    requires Resolves(m.api) && UsedKeys(m.api.tasks, m.started, m.keyUsed) && Possible(m, Complete(i))
    ensures Enabled(Abs(sem, m), Runtime.Event.Finish(i))
    ensures Abs(sem, Next(sem, m, Complete(i))) == Step(Abs(sem, m), Runtime.Event.Finish(i))
  {
    assert Resolved(m.api, m.api.tasks[i]);
    RunTaskCommit(sem, m.api, m.api.tasks[i], m.keyUsed[i], m.views[i], m.memory);
  }

  lemma InvokeRefines<V>(sem: Semantics<V>, m: Machine<V>, t: Thread, call: Call, accepted: bool)
    requires Registry(m.api) && Possible(m, Invoke(t, call, accepted))
    ensures var m' := Next(sem, m, Invoke(t, call, accepted));
            || Abs(sem, m') == Abs(sem, m)
            || Abs(sem, m') == Step(Abs(sem, m), Submit(CallTask(sem, call)))
  {
    var tasks, tasks' := m.api.tasks, Called(m.api, t, call, accepted).tasks;
    CallTasksGrow(m.api, t, call, accepted);
    if tasks' != tasks {
      var sub: Submission :| sub.call == call && tasks' == tasks + [sub];
      assert CallTasks(sem, tasks') == CallTasks(sem, tasks) + [CallTask(sem, call)];
    }
  }

  lemma StepKeepsRefinement<V>(sem: Semantics<V>, m: Machine<V>, init: map<Address, V>, e: BackendRuns.Event)
    requires Sane(m) && Inv(Abs(sem, m), init) && Possible(m, e)
    ensures Inv(Abs(sem, Next(sem, m, e)), init)
  {
    match e
    case Launch(i) =>
      LaunchRefines(sem, m, i);
      StartKeepsInv(Abs(sem, m), init, i);
    case Complete(i) =>
      CompleteRefines(sem, m, i);
      FinishKeepsInv(Abs(sem, m), init, i);
    case Invoke(t, call, accepted) =>
      InvokeRefines(sem, m, t, call, accepted);
      SubmitKeepsInv(Abs(sem, m), init, CallTask(sem, call));
    case _ =>
      assert Abs(sem, Next(sem, m, e)) == Abs(sem, m);
  }

  lemma {:induction false} TraceRefines<V>(sem: Semantics<V>, m: Machine<V>, init: map<Address, V>, es: seq<BackendRuns.Event>)
    requires Sane(m) && Inv(Abs(sem, m), init) && Trace(sem, m, es).Some?
    ensures Sane(Trace(sem, m, es).value) && Inv(Abs(sem, Trace(sem, m, es).value), init)
    decreases |es|
  {
    if es != [] {
      StepKeepsSane(sem, m, es[0]);
      StepKeepsRefinement(sem, m, init, es[0]);
      TraceRefines(sem, Next(sem, m, es[0]), init, es[1..]);
    }
  }

  lemma BootRefines<V>(sem: Semantics<V>, memory: map<Address, V>)
    ensures Sane(Boot(memory)) && Inv(Abs(sem, Boot(memory)), memory)
  {
    BootSane(memory);
    FreshInv(CallTasks(sem, []), memory);
  }

  // ---------- the calls as plain updates ----------

  function Output(call: Call): Address { call.output }

  function Operands(call: Call): seq<Address> {
    match call
    case BinaryCall(_, _, l, r, _) => [l, r]
    case NotCall(_, i) => [i]
    case MuxCall(_, s, t, f, _) => [s, t, f]
    case CmuxCall(_, s, t, f) => [s, t, f]
    case MuxWoSECall(_, s, t, f, _) => [s, t, f]
  }

  /** The values a call names. */
  function Named(call: Call): seq<Address> { [Output(call)] + Operands(call) }

  /** Neither call's output is a value the other names: at most they share operands. */
  ghost predicate Independent(a: Call, b: Call) {
    Output(a) !in Named(b) && Output(b) !in Named(a)
  }

  lemma BuffersNamed(call: Call, a: Address)
    ensures (exists k :: 0 <= k < |Buffers(call)| && Buffers(call)[k].handle == a) <==> a in Named(call)
  {
    var b, x := Buffers(call), Named(call);
    assert b[0].handle == x[0];
    if call.CmuxCall? {
      assert x == [call.output, call.select, call.whenTrue, call.whenFalse];
      assert b[1].handle == call.select;
      if call.output == call.whenTrue {
        assert b[2].handle == call.whenFalse;
      } else if call.output == call.whenFalse {
        assert b[2].handle == call.whenTrue;
      } else {
        assert b[2].handle == call.whenTrue && b[3].handle == call.whenFalse;
      }
      assert forall k :: 0 <= k < |b| ==> b[k].handle in x;
    } else {
      assert |b| == |x| && forall k :: 0 <= k < |b| ==> b[k].handle == x[k];
    }
  }

  lemma NamedTouched<V>(sem: Semantics<V>, call: Call, a: Address)
    ensures Touches(CallTask(sem, call), a) <==> a in Named(call)
    ensures Writes(CallTask(sem, call), a) <==> a == Output(call)
  {
    BuffersNamed(call, a);
    WritesOnlyOutput(call, a);
    if a in Named(call) {
      var k :| 0 <= k < |Buffers(call)| && Buffers(call)[k].handle == a;
      assert CallTask(sem, call).accesses[k].handle == a;
    }
  }

  /** The runtime orders two calls exactly when one's output is a value the other names; sharing
      operands does not order them. */
  lemma OrderedIffDependent<V>(sem: Semantics<V>, a: Call, b: Call)
    ensures Conflict(CallTask(sem, a), CallTask(sem, b)) <==> !Independent(a, b)
  {
    var ta, tb := CallTask(sem, a), CallTask(sem, b);
    if Conflict(ta, tb) {
      var x :| Touches(ta, x) && Touches(tb, x) && (Writes(ta, x) || Writes(tb, x));
      NamedTouched(sem, a, x);
      NamedTouched(sem, b, x);
    }
    if !Independent(a, b) {
      var x := if Output(a) in Named(b) then Output(a) else Output(b);
      NamedTouched(sem, a, x);
      NamedTouched(sem, b, x);
    }
  }

  /** When a submitted call may be launched, in terms of what callers passed: every earlier call
      that has not completed neither writes a value it names nor names its output. */
  lemma LaunchIffIndependent<V>(sem: Semantics<V>, m: Machine<V>, i: nat)
    requires Registry(m.api) && Resolves(m.api) && i < |m.api.tasks|
    ensures Possible(m, Launch(i)) <==>
            i !in m.started
            && forall j :: 0 <= j < i && j !in m.completed ==> Independent(m.api.tasks[j].call, m.api.tasks[i].call)
  {
    forall j | 0 <= j < i
      ensures Conflict(HandleTask(m.api.tasks[j]), HandleTask(m.api.tasks[i])) <==> !Independent(m.api.tasks[j].call, m.api.tasks[i].call)
    {
      assert Resolved(m.api, m.api.tasks[j]) && Resolved(m.api, m.api.tasks[i]);
      ConflictByHandle(sem, m.api, m.api.tasks[j], m.api.tasks[i]);
      OrderedIffDependent(sem, m.api.tasks[j].call, m.api.tasks[i].call);
    }
  }

  /** The call's result, had it been computed on the spot. */
  function Result<V>(sem: Semantics<V>, memory: map<Address, V>, call: Call): V
    requires forall k :: 0 <= k < |Operands(call)| ==> Operands(call)[k] in memory
  {
    var x := Operands(call);
    assert call.NotCall? || (x[0] in memory && x[1] in memory);
    assert call.NotCall? ==> x[0] in memory;
    assert call.NotCall? || call.BinaryCall? || x[2] in memory;
    match call
    case BinaryCall(g, _, l, r, k) => sem.binary(g, k, memory[l], memory[r])
    case NotCall(_, i) => sem.not(memory[i])
    case MuxCall(_, s, t, f, k) => sem.mux(k, memory[s], memory[t], memory[f])
    case CmuxCall(_, s, t, f) => sem.cmux(memory[s], memory[t], memory[f])
    case MuxWoSECall(_, s, t, f, k) => sem.muxWoSE(k, memory[s], memory[t], memory[f])
  }

  ghost predicate Exists(call: Call, objects: set<Address>) {
    Output(call) in objects && forall k :: 0 <= k < |Operands(call)| ==> Operands(call)[k] in objects
  }

  ghost predicate AllExist(calls: seq<Call>, objects: set<Address>) {
    forall i :: 0 <= i < |calls| ==> Exists(calls[i], objects)
  }

  ghost function Fold<V>(sem: Semantics<V>, calls: seq<Call>, memory: map<Address, V>): (r: map<Address, V>)
    requires AllExist(calls, memory.Keys)
    ensures r.Keys == memory.Keys
  {
    if calls == [] then memory
    else
      var n := |calls| - 1;
      assert AllExist(calls[..n], memory.Keys);
      var before := Fold(sem, calls[..n], memory);
      assert Exists(calls[n], before.Keys);
      before[Output(calls[n]) := Result(sem, before, calls[n])]
  }

  /** A CMUX may alias its output to either operand, but not to the selector and not to both. */
  lemma CmuxWellFormed(out: Address, s: Address, t: Address, f: Address)
    ensures WellFormed(CmuxCall(out, s, t, f)) <==> out != s && !(out == t && out == f)
  {
    var b := Buffers(CmuxCall(out, s, t, f));
    assert b[1].handle == s;
    assert out == t && out == f ==> b[2].handle == out;
  }

  lemma {:induction false} FirstBufferOnly(b: seq<Access<Address>>, a: Address)
    requires |b| > 0 && b[0].mode != R && forall k :: 1 <= k < |b| ==> b[k].mode == R
    ensures LastWriter(b, a) == if a == b[0].handle then 0 else -1
  {
    if |b| > 1 {
      FirstBufferOnly(b[..|b| - 1], a);
    }
  }

  /** A task writes its first buffer, the call's output, and nothing else. */
  lemma WritesOnlyOutput(call: Call, a: Address)
    ensures LastWriter(Buffers(call), a) == if a == Output(call) then 0 else -1
  {
    FirstBufferOnly(Buffers(call), a);
  }

  lemma ViewOfCall<V>(sem: Semantics<V>, call: Call, memory: map<Address, V>)
    requires WellFormed(call) && Exists(call, memory.Keys)
    ensures Perform(sem, CodeletOf(call), KeyOf(call), View(CallTask(sem, call), memory)) == Result(sem, memory, call)
  {
    var b := Buffers(call);
    var v := View(CallTask(sem, call), memory);
    var x := Operands(call);
    assert forall k :: 0 <= k < |x| ==> x[k] in memory;
    assert call.NotCall? ==> x[0] in memory;
    assert call.NotCall? || (x[0] in memory && x[1] in memory);
    assert call.NotCall? || call.BinaryCall? || x[2] in memory;
    assert |v| == |b| == Width(CodeletOf(call));
    assert forall i :: 1 <= i < |v| ==> b[i].mode == R && b[i].handle in memory && v[i] == Some(memory[b[i].handle]);
  }

  /** Running the task of a call is updating its output to the call's result, whichever
      operand the output aliases. */
  lemma ApplyIsUpdate<V>(sem: Semantics<V>, call: Call, memory: map<Address, V>)
    requires WellFormed(call) && Exists(call, memory.Keys)
    ensures Apply(CallTask(sem, call), memory) == memory[Output(call) := Result(sem, memory, call)]
  {
    ViewOfCall(sem, call, memory);
    forall a | a in memory
      ensures LastWriter(Buffers(call), a) == if a == Output(call) then 0 else -1
    {
      WritesOnlyOutput(call, a);
    }
  }

  ghost predicate AllWellFormed(calls: seq<Call>) {
    forall i :: 0 <= i < |calls| ==> WellFormed(calls[i])
  }

  ghost function Tasks<V>(sem: Semantics<V>, calls: seq<Call>): seq<Task<Address, V>> {
    seq(|calls|, i requires 0 <= i < |calls| => CallTask(sem, calls[i]))
  }

  /** Any sequence of calls, run as tasks in submission order, is a fold of plain updates. */
  lemma {:induction false} SequentialIsFold<V>(sem: Semantics<V>, calls: seq<Call>, memory: map<Address, V>)
    requires AllWellFormed(calls) && AllExist(calls, memory.Keys)
    ensures Sequential(Tasks(sem, calls), memory) == Fold(sem, calls, memory)
  {
    if calls != [] {
      var n := |calls| - 1;
      var ts := Tasks(sem, calls);
      SequentialIsFold(sem, calls[..n], memory);
      assert ts[..n] == Tasks(sem, calls[..n]);
      ApplyIsUpdate(sem, calls[n], Fold(sem, calls[..n], memory));
    }
  }

  // ---------- what every run computes ----------

  ghost function Accepted(s: Api): seq<Call> {
    seq(|s.tasks|, i requires 0 <= i < |s.tasks| => s.tasks[i].call)
  }

  /** The accepted calls are well formed and, until shutdown, share the one key. */
  ghost predicate OneKey(tasks: seq<Submission>, key: Option<KeyId>, stopped: bool) {
    && (forall i :: 0 <= i < |tasks| ==> WellFormed(tasks[i].call))
    && (forall i, j :: 0 <= i < |tasks| && 0 <= j < |tasks| && KeyOf(tasks[i].call).Some? && KeyOf(tasks[j].call).Some?
          ==> KeyOf(tasks[i].call) == KeyOf(tasks[j].call))
    && (!stopped ==> forall i :: 0 <= i < |tasks| && KeyOf(tasks[i].call).Some? ==> key == KeyOf(tasks[i].call))
  }

  lemma NewTaskOneKey(tasks: seq<Submission>, tasks': seq<Submission>, key: Option<KeyId>, key': Option<KeyId>)
    requires OneKey(tasks, key, false) && (key' == key || key.None?)
    requires |tasks'| == |tasks| + 1 && tasks'[..|tasks|] == tasks && WellFormed(tasks'[|tasks|].call)
    requires KeyOf(tasks'[|tasks|].call).Some? ==> key' == KeyOf(tasks'[|tasks|].call)
    ensures OneKey(tasks', key', false)
  {
    var n := |tasks|;
    forall i | 0 <= i < |tasks'|
      ensures WellFormed(tasks'[i].call) && (KeyOf(tasks'[i].call).Some? ==> key' == KeyOf(tasks'[i].call))
    {
      if i < n {
        assert tasks'[i] == tasks'[..n][i] == tasks[i];
      }
    }
  }

  lemma InvokeKeepsOneKey(s: Api, t: Thread, call: Call, accepted: bool)
    requires Registry(s) && !s.stopped && WellFormed(call) && OneKey(s.tasks, s.key, false)
    ensures var s' := Called(s, t, call, accepted);
            OneKey(s'.tasks, s'.key, s'.stopped)
  {
    CallEffects(s, t, call, accepted);
    var s' := Called(s, t, call, accepted);
    var tasks, tasks', key, key' := s.tasks, s'.tasks, s.key, s'.key;
    if |tasks'| == |tasks| + 1 {
      NewTaskOneKey(tasks, tasks', key, key');
    } else {
      assert tasks' == tasks;
    }
  }

  lemma StepKeepsOneKey<V>(sem: Semantics<V>, m: Machine<V>, e: BackendRuns.Event)
    requires Registry(m.api) && Possible(m, e) && OneKey(m.api.tasks, m.api.key, m.api.stopped)
    ensures var s' := Next(sem, m, e).api;
            OneKey(s'.tasks, s'.key, s'.stopped)
  {
    if e.Invoke? {
      InvokeKeepsOneKey(m.api, e.t, e.call, e.accepted);
    }
  }

  lemma {:induction false} TraceKeepsOneKey<V>(sem: Semantics<V>, m: Machine<V>, es: seq<BackendRuns.Event>)
    requires Sane(m) && OneKey(m.api.tasks, m.api.key, m.api.stopped) && Trace(sem, m, es).Some?
    ensures var s' := Trace(sem, m, es).value.api;
            OneKey(s'.tasks, s'.key, s'.stopped)
    decreases |es|
  {
    if es != [] {
      StepKeepsSane(sem, m, es[0]);
      StepKeepsOneKey(sem, m, es[0]);
      TraceKeepsOneKey(sem, Next(sem, m, es[0]), es[1..]);
    }
  }

  ghost predicate AllCompleted<V>(m: Machine<V>) {
    forall i :: 0 <= i < |m.api.tasks| ==> i in m.completed
  }

  lemma DrainedAbs<V>(sem: Semantics<V>, a: State<Address, V>, memory: map<Address, V>)
    requires Inv(a, memory) && Drained(a)
    ensures a.store == Sequential(a.tasks, memory)
  {
    assert a.tasks[..|a.tasks|] == a.tasks;
    forall x | x in memory
      ensures a.store[x] == Sequential(a.tasks, memory)[x]
    {
      assert WrittenUpTo(a, x, |a.tasks|);
    }
  }

  /** Whatever the threads, captures and schedule, once every task has completed the
      memory is the fold of the accepted calls in submission order. */
  lemma DrainedRunIsFold<V>(sem: Semantics<V>, memory: map<Address, V>, es: seq<BackendRuns.Event>)
    requires Trace(sem, Boot(memory), es).Some?
    requires var m := Trace(sem, Boot(memory), es).value;
             AllCompleted(m) && AllExist(Accepted(m.api), memory.Keys)
    ensures var m := Trace(sem, Boot(memory), es).value;
            m.memory == Fold(sem, Accepted(m.api), memory)
  {
    DrainedIsSequential(sem, memory, es);
    AcceptedWellFormed(sem, memory, es);
    var calls := Accepted(Trace(sem, Boot(memory), es).value.api);
    SequentialIsFold(sem, calls, memory);
  }

  lemma AcceptedWellFormed<V>(sem: Semantics<V>, memory: map<Address, V>, es: seq<BackendRuns.Event>)
    requires Trace(sem, Boot(memory), es).Some?
    ensures AllWellFormed(Accepted(Trace(sem, Boot(memory), es).value.api))
  {
    BootSane(memory);
    TraceKeepsOneKey(sem, Boot(memory), es);
  }

  lemma DrainedIsSequential<V>(sem: Semantics<V>, memory: map<Address, V>, es: seq<BackendRuns.Event>)
    requires Trace(sem, Boot(memory), es).Some? && AllCompleted(Trace(sem, Boot(memory), es).value)
    ensures var m := Trace(sem, Boot(memory), es).value;
            m.memory == Sequential(Tasks(sem, Accepted(m.api)), memory)
  {
    BootRefines(sem, memory);
    TraceRefines(sem, Boot(memory), memory, es);
    var m := Trace(sem, Boot(memory), es).value;
    DrainedAbs(sem, Abs(sem, m), memory);
    assert Tasks(sem, Accepted(m.api)) == CallTasks(sem, m.api.tasks);
  }
}
