/** What can still happen: from every reachable state of the backend all waiting can end, and a
    capture's token can be made to finish before any task it does not depend on. */
module BackendProgress {
  import opened Options
  import opened Runtime
  import opened CompletionToken
  import opened Backend
  import opened BackendRuns
  import opened BackendOwnership
  import opened BackendData
  import opened BackendSync
  import opened BackendCaptures

  // ---------- running chosen tasks ----------

  /** m' is m with tasks started, completed and notified, and the threads left alone. */
  ghost predicate Advanced<V>(m: Machine<V>, m': Machine<V>) {
    && m'.api == m.api.(notified := m'.api.notified, live := m'.api.live, frees := m'.api.frees)
    && m.started <= m'.started && m.completed <= m'.completed && m.api.notified <= m'.api.notified
  }

  /** ... and only tasks in `done` were touched. */
  ghost predicate Only<V>(m: Machine<V>, m': Machine<V>, done: nat -> bool) {
    (forall i: nat :: !done(i) ==> (i in m'.started <==> i in m.started) && (i in m'.completed <==> i in m.completed))
  }

  /** Every earlier task the k-th conflicts with has completed. */
  ghost predicate Unhindered<V>(sem: Semantics<V>, m: Machine<V>, k: nat)
    requires k < |m.api.tasks|
  {
    forall j :: 0 <= j < k && Conflict(CallTask(sem, m.api.tasks[j].call), CallTask(sem, m.api.tasks[k].call)) ==> j in m.completed
  }

  lemma LaunchPossible<V>(sem: Semantics<V>, m: Machine<V>, k: nat)
    requires Registry(m.api) && Resolves(m.api) && k < |m.api.tasks| && Unhindered(sem, m, k) && k !in m.started
    ensures Possible(m, Launch(k))
  {
    forall j | 0 <= j < k && Conflict(HandleTask(m.api.tasks[j]), HandleTask(m.api.tasks[k]))
      ensures j in m.completed
    {
      assert Resolved(m.api, m.api.tasks[j]) && Resolved(m.api, m.api.tasks[k]);
      ConflictByHandle(sem, m.api, m.api.tasks[j], m.api.tasks[k]);
    }
  }

  lemma Take<V>(sem: Semantics<V>, m: Machine<V>, e: BackendRuns.Event) returns (m': Machine<V>)
    requires Possible(m, e)
    ensures m' == Next(sem, m, e) && Trace(sem, m, [e]) == Some(m')
  {
    m' := Next(sem, m, e);
    assert [] + [e] == [e];
    TraceNext(sem, m, [], m, e);
  }

  lemma LaunchAdvances<V>(sem: Semantics<V>, m: Machine<V>, k: nat)
    requires m.keyUsed.Keys == m.started == m.views.Keys && Possible(m, Launch(k))
    ensures var m' := Next(sem, m, Launch(k));
            && Advanced(m, m') && Only(m, m', i => i == k)
            && k in m'.started && m'.keyUsed.Keys == m'.started == m'.views.Keys
  {
  }

  lemma StartTask<V>(sem: Semantics<V>, m: Machine<V>, k: nat) returns (fs: seq<BackendRuns.Event>, m': Machine<V>)
    requires Registry(m.api) && Resolves(m.api) && m.keyUsed.Keys == m.started == m.views.Keys
    requires k < |m.api.tasks| && Unhindered(sem, m, k)
    ensures Trace(sem, m, fs) == Some(m') && Advanced(m, m') && Only(m, m', i => i == k)
    ensures k in m'.started && m'.keyUsed.Keys == m'.started == m'.views.Keys
  {
    fs, m' := [], m;
    if k !in m.started {
      LaunchPossible(sem, m, k);
      LaunchAdvances(sem, m, k);
      fs := [Launch(k)];
      m' := Take(sem, m, Launch(k));
    }
  }

  lemma EndTask<V>(sem: Semantics<V>, m: Machine<V>, k: nat) returns (fs: seq<BackendRuns.Event>, m': Machine<V>)
    requires k < |m.api.tasks| && k in m.started && m.keyUsed.Keys == m.started == m.views.Keys
    ensures Trace(sem, m, fs) == Some(m') && Advanced(m, m') && Only(m, m', i => i == k) && k in m'.completed
  {
    fs, m' := [], m;
    if k !in m.completed {
      fs := [Complete(k)];
      m' := Take(sem, m, Complete(k));
    }
  }

  lemma NotifyTask<V>(sem: Semantics<V>, m: Machine<V>, k: nat) returns (fs: seq<BackendRuns.Event>, m': Machine<V>)
    requires k < |m.api.tasks| && k in m.completed
    ensures Trace(sem, m, fs) == Some(m') && Advanced(m, m') && Only(m, m', i => i == k) && k in m'.api.notified
  {
    fs, m' := [], m;
    if k !in m.api.notified {
      fs := [Callback(k)];
      m' := Take(sem, m, Callback(k));
    }
  }

  lemma Joined<V>(m: Machine<V>, m1: Machine<V>, m2: Machine<V>, done: nat -> bool, more: nat -> bool)
    requires Advanced(m, m1) && Only(m, m1, done) && Advanced(m1, m2) && Only(m1, m2, more)
    requires forall i: nat :: more(i) ==> done(i)
    ensures Advanced(m, m2) && Only(m, m2, done)
  {
  }

  /** An unhindered task can be brought to its end, whatever state it is in. */
  lemma FinishTask<V>(sem: Semantics<V>, m: Machine<V>, k: nat) returns (fs: seq<BackendRuns.Event>, m': Machine<V>)
    requires Registry(m.api) && Resolves(m.api) && m.keyUsed.Keys == m.started == m.views.Keys
    requires k < |m.api.tasks| && Unhindered(sem, m, k)
    ensures Trace(sem, m, fs) == Some(m') && Advanced(m, m') && Only(m, m', i => i == k) && k in m'.api.notified
  {
    var fs1, m1 := StartTask(sem, m, k);
    var fs2, m2 := EndTask(sem, m1, k);
    var fs3, m3 := NotifyTask(sem, m2, k);
    Joined(m, m1, m2, i => i == k, i => i == k);
    Joined(m, m2, m3, i => i == k, i => i == k);
    TraceConcat(sem, m, fs1, fs2);
    TraceConcat(sem, m, fs1 + fs2, fs3);
    fs, m' := fs1 + fs2 + fs3, m3;
  }

  /** With a task, every earlier one it conflicts with is chosen. */
  ghost predicate Closed<V>(tasks: seq<Task<Address, V>>, chosen: nat -> bool) {
    forall j: nat, k: nat {:trigger Conflicts(tasks)(j, k)} ::
      j < k < |tasks| && chosen(k) && Conflicts(tasks)(j, k) ==> chosen(j)
  }

  /** The first n chosen tasks have been notified, and no unchosen one has moved. */
  ghost predicate Ran<V>(m: Machine<V>, m': Machine<V>, chosen: nat -> bool, n: nat) {
    && Advanced(m, m') && Only(m, m', chosen)
    && (forall i: nat :: i < n && chosen(i) ==> i in m'.api.notified)
  }

  lemma FinishChosen<V>(sem: Semantics<V>, m: Machine<V>, fs0: seq<BackendRuns.Event>, m0: Machine<V>, chosen: nat -> bool, k: nat)
      returns (fs: seq<BackendRuns.Event>, m': Machine<V>)
    requires Sane(m) && Trace(sem, m, fs0) == Some(m0)
    requires k < |m0.api.tasks| && Closed(CallTasks(sem, m0.api.tasks), chosen) && chosen(k)
    requires forall i: nat :: i < k && chosen(i) ==> i in m0.api.notified
    ensures Trace(sem, m0, fs) == Some(m') && Advanced(m0, m') && Only(m0, m', i => i == k) && k in m'.api.notified
  {
    TraceKeepsSane(sem, m, fs0);
    ChosenUnhindered(sem, m0, chosen, k);
    fs, m' := FinishTask(sem, m0, k);
  }

  lemma RanNext<V>(m: Machine<V>, m0: Machine<V>, m1: Machine<V>, chosen: nat -> bool, k: nat)
    requires Ran(m, m0, chosen, k) && chosen(k)
    requires Advanced(m0, m1) && Only(m0, m1, i => i == k) && k in m1.api.notified
    ensures Ran(m, m1, chosen, k + 1)
  {
    Joined(m, m0, m1, chosen, i => i == k);
  }

  lemma NextChosen<V>(sem: Semantics<V>, m: Machine<V>, fs0: seq<BackendRuns.Event>, m0: Machine<V>, chosen: nat -> bool, k: nat)
      returns (fs: seq<BackendRuns.Event>, m': Machine<V>)
    requires Sane(m) && k < |m.api.tasks| && Closed(CallTasks(sem, m.api.tasks), chosen) && chosen(k)
    requires Trace(sem, m, fs0) == Some(m0) && Ran(m, m0, chosen, k)
    ensures Trace(sem, m0, fs) == Some(m') && Ran(m, m', chosen, k + 1)
  {
    fs, m' := FinishChosen(sem, m, fs0, m0, chosen, k);
    RanNext(m, m0, m', chosen, k);
  }

  lemma RunNextChosen<V>(sem: Semantics<V>, m: Machine<V>, fs0: seq<BackendRuns.Event>, m0: Machine<V>, chosen: nat -> bool, k: nat)
      returns (fs: seq<BackendRuns.Event>, m': Machine<V>)
    requires Sane(m) && k < |m.api.tasks| && Closed(CallTasks(sem, m.api.tasks), chosen)
    requires Trace(sem, m, fs0) == Some(m0) && Ran(m, m0, chosen, k)
    ensures Trace(sem, m, fs) == Some(m') && Ran(m, m', chosen, k + 1)
  {
    fs, m' := fs0, m0;
    if chosen(k) {
      var fs1, m1 := NextChosen(sem, m, fs0, m0, chosen, k);
      TraceConcat(sem, m, fs0, fs1);
      fs, m' := fs0 + fs1, m1;
    }
  }

  /** Any choice closed under conflicts can be run to its end, in order, the others untouched. */
  lemma {:induction false} RunChosen<V>(sem: Semantics<V>, m: Machine<V>, chosen: nat -> bool, n: nat)
      returns (fs: seq<BackendRuns.Event>, m': Machine<V>)
    requires Sane(m) && n <= |m.api.tasks| && Closed(CallTasks(sem, m.api.tasks), chosen)
    ensures Trace(sem, m, fs) == Some(m') && Ran(m, m', chosen, n)
  {
    if n == 0 {
      fs, m' := [], m;
    } else {
      var fs0, m0 := RunChosen(sem, m, chosen, n - 1);
      fs, m' := RunNextChosen(sem, m, fs0, m0, chosen, n - 1);
    }
  }

  lemma ChosenUnhindered<V>(sem: Semantics<V>, m: Machine<V>, chosen: nat -> bool, k: nat)
    requires m.api.notified <= m.completed && k < |m.api.tasks| && Closed(CallTasks(sem, m.api.tasks), chosen) && chosen(k)
    requires forall i: nat :: i < k && chosen(i) ==> i in m.api.notified
    ensures Unhindered(sem, m, k)
  {
    var tasks := CallTasks(sem, m.api.tasks);
    forall j | 0 <= j < k && Conflict(CallTask(sem, m.api.tasks[j].call), CallTask(sem, m.api.tasks[k].call))
      ensures j in m.completed
    {
      assert tasks[j] == CallTask(sem, m.api.tasks[j].call) && tasks[k] == CallTask(sem, m.api.tasks[k].call);
      assert Conflicts(tasks)(j, k);
    }
  }

  // ---------- every wait can end ----------

  /** Captures and waiting threads name tasks that exist. */
  ghost predicate Pending(s: Api) {
    && (forall t :: t in s.captures && s.captures[t].last.Some? ==> s.captures[t].last.value < |s.tasks|)
    && (forall t :: t in s.blocked ==> s.blocked[t] < |s.tasks|)
  }

  lemma RecordedPending(s: Api, t: Thread, sub: Submission)
    requires Pending(s)
    ensures Pending(Recorded(s, t, sub))
  {
  }

  lemma InsertedPending(s: Api, t: Thread, call: Call, accepted: bool)
    requires Pending(s)
    ensures Pending(Inserted(s, t, call, accepted))
  {
    if accepted {
      var r := s.nextRef;
      var s0, sub := s.(nextRef := r + 1, live := s.live + {r}), Submission(call, HandlesAt(s, Buffers(call)), r, t);
      assert Pending(s0);
      assert Inserted(s, t, call, accepted) == Recorded(s0, t, sub);
      RecordedPending(s0, t, sub);
    }
  }

  lemma PreparedSame(s: Api, call: Call)
    requires Registry(s) && !s.stopped && Prepared(s, call).Some?
    ensures var p := Prepared(s, call).value;
            p.tasks == s.tasks && p.captures == s.captures && p.blocked == s.blocked
  {
    PreparedGrows(s, call);
  }

  lemma CallPending(s: Api, t: Thread, call: Call, accepted: bool)
    requires Registry(s) && !s.stopped && Pending(s)
    ensures Pending(Called(s, t, call, accepted))
  {
    if Prepared(s, call).Some? {
      PreparedSame(s, call);
      InsertedPending(Prepared(s, call).value, t, call, accepted);
    }
  }

  lemma StepKeepsPending<V>(sem: Semantics<V>, m: Machine<V>, e: BackendRuns.Event)
    requires Registry(m.api) && Possible(m, e) && Pending(m.api)
    ensures Pending(Next(sem, m, e).api)
  {
    if e.Invoke? {
      CallPending(m.api, e.t, e.call, e.accepted);
    }
  }

  lemma {:induction false} TraceKeepsPending<V>(sem: Semantics<V>, m: Machine<V>, es: seq<BackendRuns.Event>)
    requires Sane(m) && Pending(m.api) && Trace(sem, m, es).Some?
    ensures Pending(Trace(sem, m, es).value.api)
    decreases |es|
  {
    if es != [] {
      StepKeepsSane(sem, m, es[0]);
      StepKeepsPending(sem, m, es[0]);
      TraceKeepsPending(sem, Next(sem, m, es[0]), es[1..]);
    }
  }

  lemma {:induction false} ResumeAll<V>(sem: Semantics<V>, m: Machine<V>, waiting: set<Thread>)
      returns (fs: seq<BackendRuns.Event>, m': Machine<V>)
    requires waiting == m.api.blocked.Keys && forall t :: t in waiting ==> m.api.blocked[t] in m.api.notified
    ensures Trace(sem, m, fs) == Some(m') && m'.api == m.api.(blocked := map[])
    decreases waiting
  {
    if waiting == {} {
      fs, m' := [], m;
      assert m.api.blocked == map[];
    } else {
      var t :| t in waiting;
      var m1 := Next(sem, m, Resume(t));
      assert m1.api.blocked.Keys == waiting - {t};
      var fs1, m2 := ResumeAll(sem, m1, waiting - {t});
      fs, m' := [Resume(t)] + fs1, m2;
      assert fs[1..] == fs1;
    }
  }

  lemma RunAll<V>(sem: Semantics<V>, m: Machine<V>) returns (fs: seq<BackendRuns.Event>, m': Machine<V>)
    requires Sane(m)
    ensures Trace(sem, m, fs) == Some(m') && Advanced(m, m')
    ensures forall i :: 0 <= i < |m.api.tasks| ==> i in m'.api.notified
  {
    fs, m' := RunChosen(sem, m, i => true, |m.api.tasks|);
  }

  lemma NotifiedCompleted<V>(sem: Semantics<V>, m: Machine<V>, fs: seq<BackendRuns.Event>)
    requires Sane(m) && Trace(sem, m, fs).Some?
    ensures Trace(sem, m, fs).value.api.notified <= Trace(sem, m, fs).value.completed
  {
    TraceKeepsSane(sem, m, fs);
  }

  lemma WaitsEnd<V>(sem: Semantics<V>, m: Machine<V>) returns (fs: seq<BackendRuns.Event>)
    requires Sane(m) && Pending(m.api)
    ensures Trace(sem, m, fs).Some?
    ensures var m' := Trace(sem, m, fs).value;
            && m'.api.tasks == m.api.tasks && m'.api.blocked == map[] && m'.api.stopped == m.api.stopped
            && (forall i :: 0 <= i < |m.api.tasks| ==> i in m'.completed && i in m'.api.notified)
  {
    var fs1, m1 := RunAll(sem, m);
    var fs2, m2 := ResumeAll(sem, m1, m1.api.blocked.Keys);
    TraceConcat(sem, m, fs1, fs2);
    fs := fs1 + fs2;
    NotifiedCompleted(sem, m, fs);
  }

  lemma ReachableSane<V>(sem: Semantics<V>, memory: map<Address, V>, es: seq<BackendRuns.Event>)
    requires Trace(sem, Boot(memory), es).Some?
    ensures Sane(Trace(sem, Boot(memory), es).value) && Pending(Trace(sem, Boot(memory), es).value.api)
  {
    BootSane(memory);
    TraceKeepsSane(sem, Boot(memory), es);
    TraceKeepsPending(sem, Boot(memory), es);
  }

  /** No wait hangs: from every reachable state some continuation, without any further call,
      completes and notifies every task and lets every waiting thread go on. */
  lemma EveryWaitEnds<V>(sem: Semantics<V>, memory: map<Address, V>, es: seq<BackendRuns.Event>)
      returns (fs: seq<BackendRuns.Event>)
    requires Trace(sem, Boot(memory), es).Some?
    ensures Trace(sem, Trace(sem, Boot(memory), es).value, fs).Some?
    ensures var m := Trace(sem, Boot(memory), es).value;
            var m' := Trace(sem, m, fs).value;
            && m'.api.tasks == m.api.tasks && m'.api.blocked == map[] && m'.api.stopped == m.api.stopped
            && (forall i :: 0 <= i < |m.api.tasks| ==> i in m'.completed && i in m'.api.notified)
  {
    ReachableSane(sem, memory, es);
    fs := WaitsEnd(sem, Trace(sem, Boot(memory), es).value);
  }

  /** No thread is shut out: in the state of EveryWaitEnds, unless it is stopped, every thread may
      open, close or await a capture and make any call that has a codelet, and the backend may be
      shut down, which releases every handle there is. */
  lemma ThreadsGoOn<V>(sem: Semantics<V>, memory: map<Address, V>, es: seq<BackendRuns.Event>) returns (m: Machine<V>, fs: seq<BackendRuns.Event>)
    requires Trace(sem, Boot(memory), es).Some? && !Trace(sem, Boot(memory), es).value.api.stopped
    ensures Trace(sem, Trace(sem, Boot(memory), es).value, fs) == Some(m)
    ensures forall t: Thread :: Possible(m, Begin(t)) && Possible(m, End(t)) && Possible(m, Await(t))
    ensures forall t: Thread, call: Call, accepted: bool {:trigger Invoke(t, call, accepted)} :: WellFormed(call) ==> Possible(m, Invoke(t, call, accepted))
    ensures Possible(m, Shutdown)
  {
    fs := EveryWaitEnds(sem, memory, es);
    m := Trace(sem, Trace(sem, Boot(memory), es).value, fs).value;
  }

  /** What a waiting thread finds when it goes on: the value its call's output has after all
      accepted calls, as long as no later call overwrites it. */
  lemma ResumedReadsResult<V>(sem: Semantics<V>, memory: map<Address, V>, es: seq<BackendRuns.Event>, t: Thread)
    requires Trace(sem, Boot(memory), es).Some? && Possible(Trace(sem, Boot(memory), es).value, Resume(t))
    requires var s := Trace(sem, Boot(memory), es).value.api;
             && AllExist(Accepted(s), memory.Keys)
             && (forall j :: s.blocked[t] < j < |s.tasks| ==> Output(s.tasks[j].call) != Output(s.tasks[s.blocked[t]].call))
    ensures var m := Trace(sem, Boot(memory), es).value;
            && m.api.blocked[t] < |m.api.tasks|
            && var a := Output(m.api.tasks[m.api.blocked[t]].call);
            a in memory && a in m.memory && m.memory[a] == Fold(sem, Accepted(m.api), memory)[a]
  {
    var m := Trace(sem, Boot(memory), es).value;
    BootRefines(sem, memory);
    TraceRefines(sem, Boot(memory), memory, es);
    TraceKeepsPending(sem, Boot(memory), es);
    AcceptedWellFormed(sem, memory, es);
    WaitedResult(sem, m, memory, m.api.blocked[t]);
  }

  lemma WaitedResult<V>(sem: Semantics<V>, m: Machine<V>, memory: map<Address, V>, i: nat)
    requires Inv(Abs(sem, m), memory) && AllWellFormed(Accepted(m.api)) && AllExist(Accepted(m.api), memory.Keys)
    requires i < |m.api.tasks| && i in m.completed
    requires forall j :: i < j < |m.api.tasks| ==> Output(m.api.tasks[j].call) != Output(m.api.tasks[i].call)
    ensures var a := Output(m.api.tasks[i].call);
            a in memory && a in m.memory && m.memory[a] == Fold(sem, Accepted(m.api), memory)[a]
  {
    var calls := Accepted(m.api);
    assert Exists(calls[i], memory.Keys);
    assert Tasks(sem, calls) == CallTasks(sem, m.api.tasks);
    SequentialIsFold(sem, calls, memory);
    OutputSettled(sem, Abs(sem, m), memory, calls, i);
  }

  lemma WritesOutput<V>(sem: Semantics<V>, call: Call, a: Address)
    ensures Writes(CallTask(sem, call), a) <==> a == Output(call)
  {
    WritesOnlyOutput(call, a);
  }

  lemma EarlierWritten<V>(sem: Semantics<V>, s: State<Address, V>, calls: seq<Call>, i: nat, j: nat)
    requires Ordered(s) && s.tasks == Tasks(sem, calls) && j < i < |calls| && i in s.finished
    requires Output(calls[j]) == Output(calls[i])
    ensures j in s.finished
  {
    var a := Output(calls[i]);
    WritesOutput(sem, calls[j], a);
    WritesOutput(sem, calls[i], a);
    assert Touches(s.tasks[j], a) && Touches(s.tasks[i], a);
    assert Conflict(s.tasks[j], s.tasks[i]) && Runtime.Ready(s, i);
  }

  lemma OutputSettled<V>(sem: Semantics<V>, s: State<Address, V>, init: map<Address, V>, calls: seq<Call>, i: nat)
    requires Inv(s, init) && s.tasks == Tasks(sem, calls) && i < |calls| && i in s.finished && Output(calls[i]) in init
    requires forall j :: i < j < |calls| ==> Output(calls[j]) != Output(calls[i])
    ensures s.store[Output(calls[i])] == Sequential(s.tasks, init)[Output(calls[i])]
  {
    var a := Output(calls[i]);
    forall j | 0 <= j < |s.tasks| && Writes(s.tasks[j], a)
      ensures j in s.finished
    {
      WritesOutput(sem, calls[j], a);
      if j < i {
        EarlierWritten(sem, s, calls, i, j);
      }
    }
    assert WrittenUpTo(s, a, |s.tasks|);
    assert s.tasks[..|s.tasks|] == s.tasks;
  }

  // ---------- what a token promises, exactly ----------

  /** In every continuation the token's notification implies task i's completion. */
  ghost predicate Covers<V>(sem: Semantics<V>, m: Machine<V>, i: nat, token: nat) {
    forall fs :: Trace(sem, m, fs).Some? && token in Trace(sem, m, fs).value.api.notified ==> i in Trace(sem, m, fs).value.completed
  }

  lemma {:induction false} CompletedGrows<V>(sem: Semantics<V>, m: Machine<V>, es: seq<BackendRuns.Event>)
    requires Trace(sem, m, es).Some?
    ensures m.completed <= Trace(sem, m, es).value.completed
    decreases |es|
  {
    if es != [] {
      CompletedGrows(sem, Next(sem, m, es[0]), es[1..]);
    }
  }

  /** Later submissions leave chains alone. */
  lemma {:induction false} ReachesKept<V>(tasks: seq<Task<Address, V>>, longer: seq<Task<Address, V>>, i: nat, j: nat)
    requires tasks <= longer && j < |tasks| && Reaches(tasks, i, j)
    ensures Reaches(longer, i, j)
    decreases j - i
  {
    if i != j {
      var k: nat :| i < k <= j && Conflicts(tasks)(i, k) && Chain(Conflicts(tasks), k, j);
      ReachesKept(tasks, longer, k, j);
      assert Conflicts(longer)(i, k);
    }
  }

  lemma ChainedCovers<V>(sem: Semantics<V>, m: Machine<V>, init: map<Address, V>, i: nat, token: nat, fs: seq<BackendRuns.Event>)
    requires Sane(m) && Inv(Abs(sem, m), init) && token < |m.api.tasks| && Reaches(CallTasks(sem, m.api.tasks), i, token)
    requires Trace(sem, m, fs).Some? && token in Trace(sem, m, fs).value.api.notified
    ensures i in Trace(sem, m, fs).value.completed
  {
    TasksGrow(sem, m, fs);
    TraceRefines(sem, m, init, fs);
    ChainCompleted(sem, m.api.tasks, Trace(sem, m, fs).value, i, token);
  }

  lemma ChainCompleted<V>(sem: Semantics<V>, tasks: seq<Submission>, m: Machine<V>, i: nat, token: nat)
    requires tasks <= m.api.tasks && Ordered(Abs(sem, m)) && token in m.completed
    requires token < |tasks| && Reaches(CallTasks(sem, tasks), i, token)
    ensures i in m.completed
  {
    assert CallTasks(sem, tasks) <= CallTasks(sem, m.api.tasks);
    ReachesKept(CallTasks(sem, tasks), CallTasks(sem, m.api.tasks), i, token);
    FinishedFollowsChain(Abs(sem, m), i, token);
  }

  lemma ReachesClosed<V>(tasks: seq<Task<Address, V>>, token: nat)
    requires token < |tasks|
    ensures Closed(tasks, (k: nat) => k <= token && Reaches(tasks, k, token))
  {
    forall j: nat, k: nat {:trigger Conflicts(tasks)(j, k)}
      | j < k < |tasks| && k <= token && Reaches(tasks, k, token) && Conflicts(tasks)(j, k)
      ensures Reaches(tasks, j, token)
    {
    }
  }

  /** The token can be driven to its end while a task off every chain stays where it is. */
  lemma UnchainedLags<V>(sem: Semantics<V>, m: Machine<V>, i: nat, token: nat)
      returns (fs: seq<BackendRuns.Event>)
    requires Sane(m) && token < |m.api.tasks| && !Reaches(CallTasks(sem, m.api.tasks), i, token)
    ensures Trace(sem, m, fs).Some?
    ensures var m' := Trace(sem, m, fs).value;
            && token in m'.api.notified && m'.api.tasks == m.api.tasks && m'.api.captures == m.api.captures
            && (i in m'.started <==> i in m.started) && (i in m'.completed <==> i in m.completed)
  {
    var tasks := CallTasks(sem, m.api.tasks);
    var chosen := (k: nat) => k <= token && Reaches(tasks, k, token);
    ReachesClosed(tasks, token);
    var m';
    fs, m' := RunChosen(sem, m, chosen, token + 1);
    assert chosen(token);
  }

  /** Exactly when a task already completed, or a chain of conflicts leads from it to the
      token, through tasks of whatever thread, does the token promise its completion. */
  lemma CoversIffChained<V>(sem: Semantics<V>, memory: map<Address, V>, es: seq<BackendRuns.Event>, i: nat, token: nat)
    requires Trace(sem, Boot(memory), es).Some? && token < |Trace(sem, Boot(memory), es).value.api.tasks|
    ensures var m := Trace(sem, Boot(memory), es).value;
            Covers(sem, m, i, token) <==> i in m.completed || Reaches(CallTasks(sem, m.api.tasks), i, token)
  {
    var m := Trace(sem, Boot(memory), es).value;
    BootRefines(sem, memory);
    TraceRefines(sem, Boot(memory), memory, es);
    if i in m.completed || Reaches(CallTasks(sem, m.api.tasks), i, token) {
      forall fs | Trace(sem, m, fs).Some? && token in Trace(sem, m, fs).value.api.notified
        ensures i in Trace(sem, m, fs).value.completed
      {
        if i in m.completed {
          CompletedGrows(sem, m, fs);
        } else {
          ChainedCovers(sem, m, memory, i, token, fs);
        }
      }
    } else {
      var fs := UnchainedLags(sem, m, i, token);
    }
  }

  /** The token a capture would hand out promises the whole capture exactly when each of its
      submissions has completed or is chained to the last one. */
  lemma CaptureCoveredIffChained<V>(sem: Semantics<V>, memory: map<Address, V>, es: seq<BackendRuns.Event>, t: Thread)
    requires Trace(sem, Boot(memory), es).Some?
    requires var s := Trace(sem, Boot(memory), es).value.api;
             t in s.captures && s.captures[t].last.Some?
    ensures var m := Trace(sem, Boot(memory), es).value;
            var own, token := Own(m.api.tasks, t, m.api.captures[t].since), m.api.captures[t].last.value;
            && own != [] && token == own[|own| - 1]
            && ((forall p :: 0 <= p < |own| ==> Covers(sem, m, own[p], token))
                <==> (forall p :: 0 <= p < |own| ==> own[p] in m.completed || Reaches(CallTasks(sem, m.api.tasks), own[p], token)))
  {
    var m := Trace(sem, Boot(memory), es).value;
    BootSane(memory);
    TraceKeepsCaptures(sem, Boot(memory), es);
    OwnIncreasing(m.api.tasks, t, m.api.captures[t].since);
    var own, token := Own(m.api.tasks, t, m.api.captures[t].since), m.api.captures[t].last.value;
    forall p | 0 <= p < |own|
      ensures Covers(sem, m, own[p], token) <==> own[p] in m.completed || Reaches(CallTasks(sem, m.api.tasks), own[p], token)
    {
      CoversIffChained(sem, memory, es, own[p], token);
    }
  }
}
