/** Heap references and keys, over every run. */
module BackendOwnership {
  import opened Options
  import opened Backend
  import opened BackendRuns

  /** Deleted exactly once if no longer live, never otherwise; live exactly while the task
      holding it is in flight. */
  ghost predicate OwnedBy(tasks: seq<Submission>, notified: set<nat>, nextRef: nat, live: set<nat>, frees: multiset<nat>) {
    && (forall i :: 0 <= i < |tasks| ==> tasks[i].ref < nextRef)
    && (forall i, j :: 0 <= i < j < |tasks| ==> tasks[i].ref != tasks[j].ref)
    && (forall i :: 0 <= i < |tasks| ==> (tasks[i].ref in live <==> i !in notified))
    && (forall r :: r in live ==> exists i :: 0 <= i < |tasks| && tasks[i].ref == r)
    && (forall r: nat :: frees[r] == if r < nextRef && r !in live then 1 else 0)
  }

  ghost predicate Owned(s: Api) { OwnedBy(s.tasks, s.notified, s.nextRef, s.live, s.frees) }

  /** A call changes the bookkeeping in one of three ways: not at all (rejected key), by a
      reference allocated and deleted (failed insertion), or by a new in-flight task. */
  lemma CallEffects(s: Api, t: Thread, call: Call, accepted: bool)
    requires Registry(s) && !s.stopped
    ensures var s' := Called(s, t, call, accepted);
            && s'.notified == s.notified && s'.released == s.released && !s'.stopped
            && (s'.key == s.key || s.key.None?)
            && (|| (s'.tasks == s.tasks && s'.nextRef == s.nextRef && s'.live == s.live && s'.frees == s.frees)
                || (s'.tasks == s.tasks && s'.nextRef == s.nextRef + 1 && s'.live == s.live
                    && s'.frees == s.frees + multiset{s.nextRef})
                || (|s'.tasks| == |s.tasks| + 1 && s'.tasks[..|s.tasks|] == s.tasks
                    && s'.tasks[|s.tasks|].ref == s.nextRef && s'.tasks[|s.tasks|].call == call
                    && s'.tasks[|s.tasks|].thread == t && (KeyOf(call).Some? ==> s'.key == KeyOf(call))
                    && s'.nextRef == s.nextRef + 1 && s'.live == s.live + {s.nextRef} && s'.frees == s.frees))
  {
    if Prepared(s, call).Some? {
      PreparedKeeps(s, call);
      InsertedEffects(Prepared(s, call).value, t, call, accepted);
    }
  }

  /** The calls the runtime has accepted, after one more. */
  lemma CallTasksGrow(s: Api, t: Thread, call: Call, accepted: bool)
    requires Registry(s) && !s.stopped
    ensures var tasks' := Called(s, t, call, accepted).tasks;
            tasks' == s.tasks || exists sub: Submission :: sub.call == call && tasks' == s.tasks + [sub]
  {
    CallEffects(s, t, call, accepted);
    var tasks, tasks' := s.tasks, Called(s, t, call, accepted).tasks;
    if |tasks'| == |tasks| + 1 {
      assert tasks' == tasks'[..|tasks|] + [tasks'[|tasks|]];
      assert tasks' == tasks + [tasks'[|tasks|]];
    }
  }

  /** Preparing a call leaves the bookkeeping alone. */
  lemma PreparedKeeps(s: Api, call: Call)
    requires Registry(s) && !s.stopped && Prepared(s, call).Some?
    ensures var p := Prepared(s, call).value;
            && p.notified == s.notified && p.released == s.released && !p.stopped && p.tasks == s.tasks
            && p.nextRef == s.nextRef && p.live == s.live && p.frees == s.frees
            && (p.key == s.key || s.key.None?) && (KeyOf(call).Some? ==> p.key == KeyOf(call))
  {
    PreparedGrows(s, call);
  }

  lemma InsertedEffects(s: Api, t: Thread, call: Call, accepted: bool)
    ensures var s' := Inserted(s, t, call, accepted);
            && s'.notified == s.notified && s'.released == s.released && s'.stopped == s.stopped && s'.key == s.key
            && s'.nextRef == s.nextRef + 1
            && (|| (s'.tasks == s.tasks && s'.live == s.live && s'.frees == s.frees + multiset{s.nextRef})
                || (|s'.tasks| == |s.tasks| + 1 && s'.tasks[..|s.tasks|] == s.tasks
                    && s'.tasks[|s.tasks|].ref == s.nextRef && s'.tasks[|s.tasks|].call == call
                    && s'.tasks[|s.tasks|].thread == t
                    && s'.live == s.live + {s.nextRef} && s'.frees == s.frees))
  {
  }

  lemma NewTaskOwned(tasks: seq<Submission>, tasks': seq<Submission>, notified: set<nat>, r: nat, live: set<nat>, frees: multiset<nat>)
    requires OwnedBy(tasks, notified, r, live, frees) && forall i :: i in notified ==> i < |tasks|
    requires |tasks'| == |tasks| + 1 && tasks'[..|tasks|] == tasks && tasks'[|tasks|].ref == r
    ensures OwnedBy(tasks', notified, r + 1, live + {r}, frees)
  {
    var n := |tasks|;
    assert forall i :: 0 <= i < n ==> tasks'[i] == tasks[i];
    assert r !in live;
    forall q | q in live + {r}
      ensures exists i :: 0 <= i < n + 1 && tasks'[i].ref == q
    {
      if q in live {
        var i :| 0 <= i < n && tasks[i].ref == q;
        assert tasks'[i].ref == q;
      } else {
        assert tasks'[n].ref == q;
      }
    }
  }

  lemma FailedInsertOwned(tasks: seq<Submission>, notified: set<nat>, r: nat, live: set<nat>, frees: multiset<nat>)
    requires OwnedBy(tasks, notified, r, live, frees)
    ensures OwnedBy(tasks, notified, r + 1, live, frees + multiset{r})
  {
    assert r !in live;
  }

  lemma InvokeKeepsOwned(s: Api, t: Thread, call: Call, accepted: bool)
    requires Registry(s) && !s.stopped && Owned(s) && forall i :: i in s.notified ==> i < |s.tasks|
    ensures Owned(Called(s, t, call, accepted))
  {
    CallEffects(s, t, call, accepted);
    var s' := Called(s, t, call, accepted);
    var tasks, tasks', notified, r, live, frees := s.tasks, s'.tasks, s.notified, s.nextRef, s.live, s.frees;
    if |tasks'| == |tasks| + 1 {
      NewTaskOwned(tasks, tasks', notified, r, live, frees);
    } else if s'.nextRef == r + 1 {
      FailedInsertOwned(tasks, notified, r, live, frees);
    }
  }

  lemma NotifiedKeepsOwned(s: Api, i: nat)
    requires Owned(s) && i < |s.tasks| && i !in s.notified
    ensures Owned(Notified(s, i))
  {
    var s' := Notified(s, i);
    var r := s.tasks[i].ref;
    assert r in s.live && s.frees[r] == 0;
    assert forall q: nat :: s'.frees[q] == if q == r then s.frees[q] + 1 else s.frees[q];
  }

  lemma StepKeepsOwned(s: Api, e: Event)
    requires Registry(s) && Owned(s) && forall i :: i in s.notified ==> i < |s.tasks|
    requires (e.Callback? ==> e.i < |s.tasks| && e.i !in s.notified) && (e.Invoke? ==> !s.stopped)
    ensures Owned(NextApi(s, e))
  {
    match e
    case Invoke(t, call, accepted) => InvokeKeepsOwned(s, t, call, accepted);
    case Callback(i) => NotifiedKeepsOwned(s, i);
    case _ =>
  }

  /** The runtime runs a task's callback after the task, and once. */
  ghost predicate Staged<V>(m: Machine<V>) {
    && m.api.notified <= m.completed <= m.started
    && m.keyUsed.Keys == m.started == m.views.Keys
    && (forall i :: i in m.started ==> i < |m.api.tasks|)
  }

  /** An in-flight keyed task's key is the global one. */
  ghost predicate InFlightKeys(tasks: seq<Submission>, notified: set<nat>, key: Option<KeyId>) {
    forall i :: 0 <= i < |tasks| && i !in notified && KeyOf(tasks[i].call).Some? ==> key == KeyOf(tasks[i].call)
  }

  /** Every keyed task that has run used the key its caller passed. */
  ghost predicate UsedKeys(tasks: seq<Submission>, started: set<nat>, keyUsed: map<nat, Option<KeyId>>) {
    forall i :: i in started ==> (
      && i < |tasks| && i in keyUsed
      && (KeyOf(tasks[i].call).Some? ==> keyUsed[i] == KeyOf(tasks[i].call)))
  }

  ghost predicate KeysHeld<V>(m: Machine<V>) {
    InFlightKeys(m.api.tasks, m.api.notified, m.api.key) && UsedKeys(m.api.tasks, m.started, m.keyUsed)
  }

  ghost predicate Sane<V>(m: Machine<V>) {
    Registry(m.api) && Resolves(m.api) && Owned(m.api) && Staged(m) && KeysHeld(m)
  }

  lemma NewTaskKeys(tasks: seq<Submission>, tasks': seq<Submission>, notified: set<nat>, key: Option<KeyId>, key': Option<KeyId>)
    requires InFlightKeys(tasks, notified, key) && (key' == key || key.None?)
    requires |tasks'| == |tasks| + 1 && tasks'[..|tasks|] == tasks
    requires KeyOf(tasks'[|tasks|].call).Some? ==> key' == KeyOf(tasks'[|tasks|].call)
    ensures InFlightKeys(tasks', notified, key')
  {
    assert forall i :: 0 <= i < |tasks| ==> tasks'[i] == tasks'[..|tasks|][i] == tasks[i];
  }

  lemma PrefixUsedKeys(tasks: seq<Submission>, tasks': seq<Submission>, started: set<nat>, keyUsed: map<nat, Option<KeyId>>)
    requires UsedKeys(tasks, started, keyUsed) && tasks <= tasks'
    ensures UsedKeys(tasks', started, keyUsed)
  {
  }

  lemma CallKeepsKeys(s: Api, t: Thread, call: Call, accepted: bool, started: set<nat>, keyUsed: map<nat, Option<KeyId>>)
    requires Registry(s) && !s.stopped
    requires InFlightKeys(s.tasks, s.notified, s.key) && UsedKeys(s.tasks, started, keyUsed)
    ensures var s' := Called(s, t, call, accepted);
            && s'.notified == s.notified && s.tasks <= s'.tasks
            && InFlightKeys(s'.tasks, s'.notified, s'.key) && UsedKeys(s'.tasks, started, keyUsed)
  {
    CallEffects(s, t, call, accepted);
    var s' := Called(s, t, call, accepted);
    var tasks, tasks', notified, key, key' := s.tasks, s'.tasks, s.notified, s.key, s'.key;
    if |tasks'| == |tasks| + 1 {
      NewTaskKeys(tasks, tasks', notified, key, key');
    }
    PrefixUsedKeys(tasks, tasks', started, keyUsed);
  }

  lemma StepKeepsKeys<V>(sem: Semantics<V>, m: Machine<V>, e: Event)
    requires Registry(m.api) && Staged(m) && KeysHeld(m) && Possible(m, e)
    ensures Staged(Next(sem, m, e)) && KeysHeld(Next(sem, m, e))
  {
    match e
    case Invoke(t, call, accepted) => CallKeepsKeys(m.api, t, call, accepted, m.started, m.keyUsed);
    case Launch(i) => LaunchKeepsKeys(sem, m, i);
    case _ =>
  }

  lemma LaunchKeepsKeys<V>(sem: Semantics<V>, m: Machine<V>, i: nat)
    requires Staged(m) && KeysHeld(m) && Possible(m, Launch(i))
    ensures Staged(Next(sem, m, Launch(i))) && KeysHeld(Next(sem, m, Launch(i)))
  {
    assert i !in m.api.notified;
  }

  lemma StepKeepsSane<V>(sem: Semantics<V>, m: Machine<V>, e: Event)
    requires Sane(m) && Possible(m, e)
    ensures Sane(Next(sem, m, e))
  {
    StepKeepsRegistry(m.api, e);
    StepKeepsOwned(m.api, e);
    StepKeepsKeys(sem, m, e);
  }

  lemma {:induction false} TraceKeepsSane<V>(sem: Semantics<V>, m: Machine<V>, es: seq<Event>)
    requires Sane(m) && Trace(sem, m, es).Some?
    ensures Sane(Trace(sem, m, es).value)
    decreases |es|
  {
    if es != [] {
      StepKeepsSane(sem, m, es[0]);
      TraceKeepsSane(sem, Next(sem, m, es[0]), es[1..]);
    }
  }

  lemma BootSane<V>(memory: map<Address, V>)
    ensures Sane(Boot(memory))
  {
  }

  /** Ownership over every run: each submission's heap reference is deleted exactly once,
      by the failed insertion or by the callback; a reference is live exactly while its task
      is in flight; a task reads finished only after its body completed. */
  lemma ReferencesFreedOnce<V>(sem: Semantics<V>, memory: map<Address, V>, es: seq<Event>)
    requires Trace(sem, Boot(memory), es).Some?
    ensures var m := Trace(sem, Boot(memory), es).value;
            && Owned(m.api)
            && m.api.notified <= m.completed
            && (forall r: nat :: r < m.api.nextRef ==> m.api.frees[r] + (if r in m.api.live then 1 else 0) == 1)
  {
    BootSane(memory);
    TraceKeepsSane(sem, Boot(memory), es);
  }

  /** Every keyed task that has started dereferenced a key, and it was its caller's. */
  lemma CallersKeyUsed<V>(sem: Semantics<V>, memory: map<Address, V>, es: seq<Event>, i: nat)
    requires Trace(sem, Boot(memory), es).Some? && i in Trace(sem, Boot(memory), es).value.started
    ensures var m := Trace(sem, Boot(memory), es).value;
            && i < |m.api.tasks| && i in m.keyUsed
            && (KeyOf(m.api.tasks[i].call).Some? ==> m.keyUsed[i] == KeyOf(m.api.tasks[i].call))
  {
    BootSane(memory);
    TraceKeepsSane(sem, Boot(memory), es);
  }

  /** A thread that polls a task goes on only after that task's body has completed. */
  lemma ResumedAfterCompletion<V>(sem: Semantics<V>, memory: map<Address, V>, es: seq<Event>, t: Thread)
    requires Trace(sem, Boot(memory), es).Some? && Possible(Trace(sem, Boot(memory), es).value, Resume(t))
    ensures var m := Trace(sem, Boot(memory), es).value;
            t in m.api.blocked && m.api.blocked[t] in m.completed
  {
    BootSane(memory);
    TraceKeepsSane(sem, Boot(memory), es);
  }

  // ---------- registries over runs ----------

  lemma StepKeepsLookup(s: Api, e: Event, a: Address)
    requires Registry(s) && Resolves(s) && Lookup(s, a).Some?
    requires (e.Callback? ==> e.i < |s.tasks|) && (e.Invoke? ==> !s.stopped) && !e.Shutdown?
    ensures Lookup(NextApi(s, e), a) == Lookup(s, a)
  {
    if e.Invoke? {
      InvokeKeepsRegistry(s, e.t, e.call, e.accepted);
    }
  }

  /** An address keeps its handle through any run without a shutdown. */
  lemma {:induction false} HandleKept<V>(sem: Semantics<V>, m: Machine<V>, es: seq<Event>, a: Address)
    requires Sane(m) && Trace(sem, m, es).Some? && Lookup(m.api, a).Some? && Shutdown !in es
    ensures Lookup(Trace(sem, m, es).value.api, a) == Lookup(m.api, a)
    decreases |es|
  {
    if es != [] {
      StepKeepsSane(sem, m, es[0]);
      StepKeepsLookup(m.api, es[0], a);
      HandleKept(sem, Next(sem, m, es[0]), es[1..], a);
    }
  }

  /** Distinct addresses never share a handle, in any reachable state. */
  lemma HandlesDistinct<V>(sem: Semantics<V>, memory: map<Address, V>, es: seq<Event>, a: Address, b: Address)
    requires Trace(sem, Boot(memory), es).Some?
    requires var s := Trace(sem, Boot(memory), es).value.api;
             Lookup(s, a).Some? && Lookup(s, a) == Lookup(s, b)
    ensures a == b
  {
    BootSane(memory);
    TraceKeepsSane(sem, Boot(memory), es);
  }

  lemma {:induction false} ReleaseCount(table: map<nat, Handle>, keys: set<nat>, h: Handle)
    requires keys <= table.Keys
    requires forall p, q :: p in keys && q in keys && table[p] == table[q] ==> p == q
    ensures Releases(table, keys)[h] == if exists p :: p in keys && table[p] == h then 1 else 0
    decreases keys
  {
    if keys != {} {
      var a :| a in keys && Releases(table, keys) == Releases(table, keys - {a}) + multiset{table[a]};
      ReleaseCount(table, keys - {a}, h);
      if table[a] == h {
        assert !exists p :: p in keys - {a} && table[p] == h;
      } else if exists p :: p in keys && table[p] == h {
        var p :| p in keys && table[p] == h;
        assert p in keys - {a};
      }
    }
  }

  lemma TlweEntries(s: Api)
    requires Registry(s)
    ensures forall p :: p in s.tlwe ==> s.tlwe[p] < |s.addresses| && s.addresses[s.tlwe[p]] == Tlwe(p)
  {
    forall p | p in s.tlwe
      ensures s.tlwe[p] < |s.addresses| && s.addresses[s.tlwe[p]] == Tlwe(p)
    {
      assert Find(s.tlwe, s.variables, Tlwe(p)) == Some(s.tlwe[p]);
    }
  }

  lemma VariableEntries(s: Api)
    requires Registry(s)
    ensures forall p :: p in s.variables ==> s.variables[p] < |s.addresses| && s.addresses[s.variables[p]] == Variable(p)
  {
    forall p | p in s.variables
      ensures s.variables[p] < |s.addresses| && s.addresses[s.variables[p]] == Variable(p)
    {
      assert Find(s.tlwe, s.variables, Variable(p)) == Some(s.variables[p]);
    }
  }

  lemma TlweReleases(s: Api, h: Handle)
    requires Registry(s) && !s.stopped
    ensures Releases(s.tlwe, s.tlwe.Keys)[h] == if h < |s.addresses| && s.addresses[h].Tlwe? then 1 else 0
  {
    TlweEntries(s);
    ReleaseCount(s.tlwe, s.tlwe.Keys, h);
    if h < |s.addresses| {
      assert Find(s.tlwe, s.variables, s.addresses[h]) == Some(h);
    }
  }

  lemma VariableReleases(s: Api, h: Handle)
    requires Registry(s) && !s.stopped
    ensures Releases(s.variables, s.variables.Keys)[h] == if h < |s.addresses| && s.addresses[h].Variable? then 1 else 0
  {
    VariableEntries(s);
    ReleaseCount(s.variables, s.variables.Keys, h);
    if h < |s.addresses| {
      assert Find(s.tlwe, s.variables, s.addresses[h]) == Some(h);
    }
  }

  lemma TableReleases(s: Api, h: Handle)
    requires Registry(s) && !s.stopped
    ensures (Releases(s.tlwe, s.tlwe.Keys) + Releases(s.variables, s.variables.Keys))[h] == if h < |s.addresses| then 1 else 0
  {
    TlweReleases(s, h);
    VariableReleases(s, h);
  }

  ghost predicate NothingReleased(s: Api) { !s.stopped ==> s.released == multiset{} }

  lemma StepReleasesNothing(s: Api, e: Event)
    requires Registry(s) && NothingReleased(s) && (e.Callback? ==> e.i < |s.tasks|) && (e.Invoke? ==> !s.stopped)
    ensures NothingReleased(NextApi(s, e))
  {
    if e.Invoke? {
      CallEffects(s, e.t, e.call, e.accepted);
    }
  }

  lemma {:induction false} ReleasedOnlyByShutdown<V>(sem: Semantics<V>, m: Machine<V>, es: seq<Event>)
    requires Sane(m) && NothingReleased(m.api) && Trace(sem, m, es).Some?
    ensures NothingReleased(Trace(sem, m, es).value.api)
    decreases |es|
  {
    if es != [] {
      StepKeepsSane(sem, m, es[0]);
      StepReleasesNothing(m.api, es[0]);
      ReleasedOnlyByShutdown(sem, Next(sem, m, es[0]), es[1..]);
    }
  }

  /** Shutdown unregisters every handle ever registered, each exactly once and no other,
      and does so with no task pending. */
  lemma ShutdownReleasesOnce<V>(sem: Semantics<V>, memory: map<Address, V>, es: seq<Event>, h: Handle)
    requires Trace(sem, Boot(memory), es).Some?
    requires var m := Trace(sem, Boot(memory), es).value;
             Possible(m, Shutdown) && m.api.running
    ensures var m := Trace(sem, Boot(memory), es).value;
            && Next(sem, m, Shutdown).api.released[h] == (if h < |m.api.addresses| then 1 else 0)
            && (forall i :: 0 <= i < |m.api.tasks| ==> i in m.completed)
            && m.api.live == {}
  {
    BootSane(memory);
    TraceKeepsSane(sem, Boot(memory), es);
    ReleasedOnlyByShutdown(sem, Boot(memory), es);
    var m := Trace(sem, Boot(memory), es).value;
    TableReleases(m.api, h);
  }
}
