/** Runs of the asynchronous backend together with the runtime that executes its tasks.

    Any interleaving of API calls by any number of threads, task starts, task
    completions, completion callbacks and shutdown. The runtime orders tasks by handle
    and reaches data through the address each handle was registered with; a keyed task
    dereferences whatever the global key pointer holds when it runs.
 */
module BackendRuns {
  import opened Options
  import opened Runtime
  import opened Backend

  datatype Semantics<!V> = Semantics(
    binary: (IyokanGate, KeyId, V, V) -> V,
    not: V -> V,
    mux: (KeyId, V, V, V) -> V,
    cmux: (V, V, V) -> V,
    muxWoSE: (KeyId, V, V, V) -> V,
    junk: V)

  function Keyed(c: Codelet): bool { c.BinaryCodelet? || c.MuxCodelet? || c.MuxWoSECodelet? }

  /** The number of buffers of each codelet. */
  function Width(c: Codelet): nat {
    match c
    case BinaryCodelet(_) => 3
    case NotCodelet => 2
    case MuxCodelet => 4
    case MuxWoSECodelet => 4
    case CmuxCodelet => 4
    case CmuxInPlaceTrueCodelet => 3
    case CmuxInPlaceFalseCodelet => 3
  }

  /** What the codelet writes to buffer 0, given the buffers it may read. */
  function Perform<V>(sem: Semantics<V>, c: Codelet, key: Option<KeyId>, view: seq<Option<V>>): V {
    if |view| != Width(c) || (Keyed(c) && key.None?) || (exists i :: 1 <= i < |view| && view[i].None?) then sem.junk
    else match c
      case BinaryCodelet(g) => sem.binary(g, key.value, view[1].value, view[2].value)
      case NotCodelet => sem.not(view[1].value)
      case MuxCodelet => sem.mux(key.value, view[1].value, view[2].value, view[3].value)
      case MuxWoSECodelet => sem.muxWoSE(key.value, view[1].value, view[2].value, view[3].value)
      case CmuxCodelet => sem.cmux(view[1].value, view[2].value, view[3].value)
      case CmuxInPlaceTrueCodelet =>
        if view[0].None? then sem.junk else sem.cmux(view[1].value, view[0].value, view[2].value)
      case CmuxInPlaceFalseCodelet =>
        if view[0].None? then sem.junk else sem.cmux(view[1].value, view[2].value, view[0].value)
  }

  // ---------- the machine ----------

  datatype Machine<!V> = Machine(
    api: Api,
    started: set<nat>,
    completed: set<nat>,
    keyUsed: map<nat, Option<KeyId>>,
    views: map<nat, seq<Option<V>>>,
    memory: map<Address, V>)

  datatype Event =
    | Begin(t: Thread) | End(t: Thread) | Await(t: Thread) | Resume(t: Thread)
    | Invoke(t: Thread, call: Call, accepted: bool)
    | Launch(i: nat) | Complete(i: nat) | Callback(i: nat)
    | Shutdown

  /** A submission as the runtime orders it: by handle. */
  ghost function HandleTask(sub: Submission): Task<Handle, bool> {
    var buffers := Buffers(sub.call);
    Task(seq(|buffers|, k requires 0 <= k < |buffers| =>
           Access(if k < |sub.handles| then sub.handles[k] else 0, buffers[k].mode)),
         (view, i) => false)
  }

  /** A submission as it runs: through the addresses of its handles, with the given key. */
  ghost function RunTask<V>(sem: Semantics<V>, api: Api, sub: Submission, key: Option<KeyId>): Task<Address, V> {
    var ht := HandleTask(sub);
    Task(seq(|ht.accesses|, k requires 0 <= k < |ht.accesses| =>
           var h := ht.accesses[k].handle;
           Access(if h < |api.addresses| then api.addresses[h] else Tlwe(0), ht.accesses[k].mode)),
         (view, i) => Perform(sem, CodeletOf(sub.call), key, view))
  }

  /** A call as its caller means it: on its own addresses, with its own key. */
  ghost function CallTask<V>(sem: Semantics<V>, call: Call): Task<Address, V> {
    Task(Buffers(call), (view, i) => Perform(sem, CodeletOf(call), KeyOf(call), view))
  }

  /** The code has a codelet for the call: no buffer repeats the one that is written. */
  predicate WellFormed(call: Call) {
    var b := Buffers(call);
    forall k :: 1 <= k < |b| ==> b[k].handle != b[0].handle
  }

  ghost predicate Possible<V>(m: Machine<V>, e: Event) {
    match e
    case Begin(t) => !m.api.stopped && t !in m.api.blocked
    case End(t) => !m.api.stopped && t !in m.api.blocked
    case Await(t) => !m.api.stopped && t !in m.api.blocked
    case Resume(t) => t in m.api.blocked && m.api.blocked[t] in m.api.notified
    case Invoke(t, call, _) => !m.api.stopped && t !in m.api.blocked && WellFormed(call)
    case Launch(i) =>
      && i < |m.api.tasks| && i !in m.started
      && (forall j :: 0 <= j < i && Conflict(HandleTask(m.api.tasks[j]), HandleTask(m.api.tasks[i])) ==> j in m.completed)
    case Complete(i) => i < |m.api.tasks| && i in m.started && i !in m.completed && i in m.keyUsed && i in m.views
    case Callback(i) => i < |m.api.tasks| && i in m.completed && i !in m.api.notified
    case Shutdown => !m.api.stopped && forall i :: 0 <= i < |m.api.tasks| ==> i in m.api.notified
  }

  ghost function NextApi(s: Api, e: Event): Api
    requires e.Callback? ==> e.i < |s.tasks|
  {
    match e
    case Begin(t) => Begun(s, t)
    case End(t) => Ended(s, t)
    case Await(t) => Awaited(s, t)
    case Resume(t) => Resumed(s, t)
    case Invoke(t, call, accepted) => Called(s, t, call, accepted)
    case Launch(_) => s
    case Complete(_) => s
    case Callback(i) => Notified(s, i)
    case Shutdown => ShutDown(s)
  }

  ghost function Next<V>(sem: Semantics<V>, m: Machine<V>, e: Event): Machine<V>
    requires Possible(m, e)
  {
    match e
    case Launch(i) =>
      m.(started := m.started + {i}, keyUsed := m.keyUsed[i := m.api.key],
         views := m.views[i := View(RunTask(sem, m.api, m.api.tasks[i], m.api.key), m.memory)])
    case Complete(i) =>
      m.(completed := m.completed + {i},
         memory := Commit(RunTask(sem, m.api, m.api.tasks[i], m.keyUsed[i]), m.views[i], m.memory))
    case _ => m.(api := NextApi(m.api, e))
  }

  ghost function Boot<V>(memory: map<Address, V>): Machine<V> {
    Machine(Idle, {}, {}, map[], map[], memory)
  }

  ghost function Trace<V>(sem: Semantics<V>, m: Machine<V>, es: seq<Event>): Option<Machine<V>>
    decreases |es|
  {
    if es == [] then Some(m)
    else if !Possible(m, es[0]) then None
    else Trace(sem, Next(sem, m, es[0]), es[1..])
  }

  // ---------- registries ----------

  ghost predicate Registry(s: Api) {
    && (forall g, h :: 0 <= g < h < |s.addresses| ==> s.addresses[g] != s.addresses[h])
    && (forall a {:trigger Find(s.tlwe, s.variables, a)} ::
          var h := Find(s.tlwe, s.variables, a);
          h.Some? ==> h.value < |s.addresses| && s.addresses[h.value] == a)
    && (!s.stopped ==> forall h :: 0 <= h < |s.addresses| ==> Find(s.tlwe, s.variables, s.addresses[h]) == Some(h))
  }

  /** Every submission names, buffer by buffer, the handles of its caller's addresses. */
  ghost predicate Resolved(s: Api, sub: Submission) {
    var b := Buffers(sub.call);
    && |sub.handles| == |b|
    && (forall k :: 0 <= k < |b| ==> sub.handles[k] < |s.addresses| && s.addresses[sub.handles[k]] == b[k].handle)
  }

  ghost predicate Resolves(s: Api) {
    forall i :: 0 <= i < |s.tasks| ==> Resolved(s, s.tasks[i])
  }

  /** s' is s with more addresses registered and nothing else changed. */
  ghost predicate Grown(s: Api, s': Api) {
    && s' == s.(tlwe := s'.tlwe, variables := s'.variables, addresses := s'.addresses)
    && s.addresses <= s'.addresses
    && (forall a :: Find(s.tlwe, s.variables, a).Some? ==> Find(s'.tlwe, s'.variables, a) == Find(s.tlwe, s.variables, a))
  }

  /** Looking up in the tables after a is registered. */
  lemma RegisteredFinds(s: Api, a: Address, b: Address)
    requires Lookup(s, a).None?
    ensures var s' := Registered(s, a);
            Find(s'.tlwe, s'.variables, b) == if b == a then Some(|s.addresses|) else Find(s.tlwe, s.variables, b)
  {
  }

  lemma RegisteredNew(s: Api, a: Address)
    requires Registry(s) && !s.stopped && Lookup(s, a).None?
    ensures a !in s.addresses
  {
    assert forall h :: 0 <= h < |s.addresses| ==> s.addresses[h] != a;
  }

  lemma RegisteredGrows(s: Api, a: Address)
    requires Registry(s) && !s.stopped
    ensures Grown(s, Registered(s, a)) && Registry(Registered(s, a))
  {
    if Lookup(s, a).None? {
      RegisteredNew(s, a);
      var s' := Registered(s, a);
      assert s'.addresses == s.addresses + [a];
      forall b
        ensures Find(s'.tlwe, s'.variables, b) == if b == a then Some(|s.addresses|) else Find(s.tlwe, s.variables, b)
      {
        RegisteredFinds(s, a, b);
      }
    }
  }

  lemma GrownThrough(s: Api, s0: Api, s1: Api)
    requires Grown(s, s0) && Grown(s0, s1)
    ensures Grown(s, s1)
  {
  }

  lemma LookedUpKept(s: Api, s': Api, a: Address)
    requires Grown(s, s') && Lookup(s, a).Some?
    ensures Lookup(s', a).Some?
  {
  }

  /** One more buffer on top of the registered ones. */
  lemma RegisteredMore(s: Api, s0: Api, before: seq<Access<Address>>, b: Access<Address>)
    requires Grown(s, s0) && Registry(s0) && !s0.stopped
    requires forall k :: 0 <= k < |before| ==> Lookup(s0, before[k].handle).Some?
    ensures var s' := Registered(s0, b.handle);
            && Grown(s, s') && Registry(s')
            && (forall k :: 0 <= k < |before + [b]| ==> Lookup(s', (before + [b])[k].handle).Some?)
  {
    var s' := Registered(s0, b.handle);
    RegisteredGrows(s0, b.handle);
    GrownThrough(s, s0, s');
    forall k | 0 <= k < |before|
      ensures Lookup(s', before[k].handle).Some?
    {
      LookedUpKept(s0, s', before[k].handle);
    }
  }

  lemma {:induction false} RegisteredAllGrows(s: Api, buffers: seq<Access<Address>>)
    requires Registry(s) && !s.stopped
    ensures var s' := RegisteredAll(s, buffers);
            && Grown(s, s') && Registry(s')
            && (forall k :: 0 <= k < |buffers| ==> Lookup(s', buffers[k].handle).Some?)
  {
    if buffers != [] {
      var n := |buffers| - 1;
      RegisteredAllGrows(s, buffers[..n]);
      RegisteredMore(s, RegisteredAll(s, buffers[..n]), buffers[..n], buffers[n]);
      assert buffers[..n] + [buffers[n]] == buffers;
    }
  }

  lemma ResolvedKept(s: Api, s': Api, sub: Submission)
    requires Resolved(s, sub) && s.addresses <= s'.addresses
    ensures Resolved(s', sub)
  {
  }

  lemma NewSubmissionResolved(s: Api, call: Call, r: nat, t: Thread)
    requires Registry(s)
    requires forall k :: 0 <= k < |Buffers(call)| ==> Lookup(s, Buffers(call)[k].handle).Some?
    ensures Resolved(s, Submission(call, HandlesAt(s, Buffers(call)), r, t))
  {
  }

  lemma InsertedKeepsRegistry(s: Api, t: Thread, call: Call, accepted: bool)
    requires Registry(s) && Resolves(s)
    requires forall k :: 0 <= k < |Buffers(call)| ==> Lookup(s, Buffers(call)[k].handle).Some?
    ensures Registry(Inserted(s, t, call, accepted)) && Resolves(Inserted(s, t, call, accepted))
  {
    var s' := Inserted(s, t, call, accepted);
    NewSubmissionResolved(s, call, s.nextRef, t);
    forall i | 0 <= i < |s'.tasks|
      ensures Resolved(s', s'.tasks[i])
    {
      ResolvedKept(s, s', s'.tasks[i]);
    }
  }

  /** What preparing a call changes: the key, if there was none, and the registries. */
  lemma PreparedGrows(s: Api, call: Call)
    requires Registry(s) && !s.stopped && Prepared(s, call).Some?
    ensures var p := Prepared(s, call).value;
            && Registry(p) && Grown(s.(running := true, key := p.key), p)
            && (p.key == s.key || (s.key.None? && p.key == KeyOf(call)))
            && (KeyOf(call).Some? ==> p.key == KeyOf(call))
            && (forall k :: 0 <= k < |Buffers(call)| ==> Lookup(p, Buffers(call)[k].handle).Some?)
  {
    RegisteredAllGrows(WithKey(s.(running := true), KeyOf(call)).value, Buffers(call));
  }

  lemma InvokeKeepsRegistry(s: Api, t: Thread, call: Call, accepted: bool)
    requires Registry(s) && Resolves(s) && !s.stopped
    ensures var s' := Called(s, t, call, accepted);
            && Registry(s') && Resolves(s') && s.addresses <= s'.addresses
            && (forall a :: Find(s.tlwe, s.variables, a).Some? ==> Find(s'.tlwe, s'.variables, a) == Find(s.tlwe, s.variables, a))
  {
    if Prepared(s, call).Some? {
      PreparedGrows(s, call);
      var p := Prepared(s, call).value;
      forall i | 0 <= i < |p.tasks|
        ensures Resolved(p, p.tasks[i])
      {
        ResolvedKept(s, p, s.tasks[i]);
      }
      InsertedKeepsRegistry(p, t, call, accepted);
    }
  }

  /** Everything but calls leaves addresses and tasks alone, and the tables too or empties them
      for good. */
  lemma SameRegistry(s: Api, s': Api)
    requires Registry(s) && Resolves(s) && s'.addresses == s.addresses && s'.tasks == s.tasks
    requires || (s'.tlwe == s.tlwe && s'.variables == s.variables && s'.stopped == s.stopped)
             || (s'.tlwe == map[] && s'.variables == map[] && s'.stopped)
    ensures Registry(s') && Resolves(s')
  {
    forall i | 0 <= i < |s.tasks|
      ensures Resolved(s', s.tasks[i])
    {
      ResolvedKept(s, s', s.tasks[i]);
    }
  }

  lemma OtherEvents(s: Api, e: Event)
    requires !e.Invoke? && (e.Callback? ==> e.i < |s.tasks|)
    ensures var s' := NextApi(s, e);
            && s'.addresses == s.addresses && s'.tasks == s.tasks
            && (|| (s'.tlwe == s.tlwe && s'.variables == s.variables && s'.stopped == s.stopped)
                || (s'.tlwe == map[] && s'.variables == map[] && s'.stopped))
  {
  }

  lemma StepKeepsRegistry(s: Api, e: Event)
    requires Registry(s) && Resolves(s) && (e.Callback? ==> e.i < |s.tasks|) && (e.Invoke? ==> !s.stopped)
    ensures Registry(NextApi(s, e)) && Resolves(NextApi(s, e)) && s.addresses <= NextApi(s, e).addresses
  {
    match e
    case Invoke(t, call, accepted) => InvokeKeepsRegistry(s, t, call, accepted);
    case _ =>
      OtherEvents(s, e);
      SameRegistry(s, NextApi(s, e));
  }
}
