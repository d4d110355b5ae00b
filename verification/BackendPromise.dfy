/** What a capture's token promises, said of the captured calls alone: over every run in which a
    thread captures them, whatever other threads and the runtime do. */
module BackendPromise {
  import opened Options
  import opened Runtime
  import opened CompletionToken
  import opened Backend
  import opened BackendRuns
  import opened BackendData
  import opened BackendSync
  import opened BackendCaptures
  import opened BackendProgress

  /** Thread t's open capture holds exactly these calls, at the positions `own`. */
  ghost predicate Holds(s: Api, t: Thread, calls: seq<Call>, own: seq<nat>) {
    && t in s.captures && own == Own(s.tasks, t, s.captures[t].since) && |own| == |calls|
    && (forall p :: 0 <= p < |own| ==> own[p] < |s.tasks| && s.tasks[own[p]].call == calls[p])
  }

  /** If the run ends with thread t's capture holding these calls, its token covers call i. */
  ghost predicate CoveredIn<V>(sem: Semantics<V>, memory: map<Address, V>, es: seq<BackendRuns.Event>, t: Thread, calls: seq<Call>,
                               own: seq<nat>, i: nat)
    requires i < |calls|
  {
    Trace(sem, Boot(memory), es).Some? && Holds(Trace(sem, Boot(memory), es).value.api, t, calls, own)
    ==> Covers(sem, Trace(sem, Boot(memory), es).value, own[i], own[|own| - 1])
  }

  /** In every run after which thread t's capture holds these calls, and in every continuation,
      the capture's token reading finished implies that call i has completed. */
  ghost predicate AlwaysCovered<V>(sem: Semantics<V>, memory: map<Address, V>, t: Thread, calls: seq<Call>, i: nat)
    requires i < |calls|
  {
    forall es, own: seq<nat> :: CoveredIn(sem, memory, es, t, calls, own, i)
  }

  // ---------- chained calls are covered ----------

  lemma HeldReaches<V>(sem: Semantics<V>, tasks: seq<Submission>, t: Thread, since: nat, own: seq<nat>, calls: seq<Call>, i: nat, last: nat)
    requires own == Own(tasks, t, since) && |own| == |calls| == last + 1
    requires forall p :: 0 <= p < |own| ==> own[p] < |tasks| && tasks[own[p]].call == calls[p]
    requires i <= last && Reaches(Tasks(sem, calls), i, last)
    ensures own[last] < |tasks| && Reaches(CallTasks(sem, tasks), own[i], own[last])
  {
    OwnIncreasing(tasks, t, since);
    assert Increasing(own, 0, |CallTasks(sem, tasks)|);
    ReachesAmong(Tasks(sem, calls), CallTasks(sem, tasks), own, i, last);
  }

  lemma ReachesCovers<V>(sem: Semantics<V>, memory: map<Address, V>, es: seq<BackendRuns.Event>, m: Machine<V>, i: nat, token: nat)
    requires Trace(sem, Boot(memory), es) == Some(m)
    requires token < |m.api.tasks| && Reaches(CallTasks(sem, m.api.tasks), i, token)
    ensures Covers(sem, m, i, token)
  {
    CoversIffChained(sem, memory, es, i, token);
  }

  lemma HeldChain<V>(sem: Semantics<V>, s: Api, t: Thread, calls: seq<Call>, own: seq<nat>, i: nat, last: nat)
    requires i <= last && last + 1 == |calls| && Reaches(Tasks(sem, calls), i, last) && Holds(s, t, calls, own)
    ensures own[last] < |s.tasks| && Reaches(CallTasks(sem, s.tasks), own[i], own[last])
  {
    HeldReaches(sem, s.tasks, t, s.captures[t].since, own, calls, i, last);
  }

  lemma ChainedCovered<V>(sem: Semantics<V>, memory: map<Address, V>, es: seq<BackendRuns.Event>, m: Machine<V>, t: Thread, calls: seq<Call>,
                          own: seq<nat>, i: nat, last: nat)
    requires i <= last && last + 1 == |calls| && Reaches(Tasks(sem, calls), i, last)
    requires Trace(sem, Boot(memory), es) == Some(m) && Holds(m.api, t, calls, own)
    ensures Covers(sem, m, own[i], own[last])
  {
    HeldChain(sem, m.api, t, calls, own, i, last);
    ReachesCovers(sem, memory, es, m, own[i], own[last]);
  }

  lemma ChainedCoveredIn<V>(sem: Semantics<V>, memory: map<Address, V>, es: seq<BackendRuns.Event>, t: Thread, calls: seq<Call>,
                            own: seq<nat>, i: nat, last: nat)
    requires i <= last && last + 1 == |calls| && Reaches(Tasks(sem, calls), i, last)
    ensures CoveredIn(sem, memory, es, t, calls, own, i)
  {
    var r := Trace(sem, Boot(memory), es);
    if r.Some? && Holds(r.value.api, t, calls, own) {
      ChainedCovered(sem, memory, es, r.value, t, calls, own, i, last);
    }
  }

  lemma ChainedAlwaysCovered<V>(sem: Semantics<V>, memory: map<Address, V>, t: Thread, calls: seq<Call>, i: nat)
    requires i < |calls| && Reaches(Tasks(sem, calls), i, |calls| - 1)
    ensures AlwaysCovered(sem, memory, t, calls, i)
  {
    var last := |calls| - 1;
    forall es, own: seq<nat>
      ensures CoveredIn(sem, memory, es, t, calls, own, i)
    {
      ChainedCoveredIn(sem, memory, es, t, calls, own, i, last);
    }
  }

  // ---------- any calls can be captured ----------

  /** Thread t opens a capture and makes the calls. */
  ghost function CaptureRun(t: Thread, calls: seq<Call>): seq<BackendRuns.Event> {
    if calls == [] then [Begin(t)]
    else CaptureRun(t, calls[..|calls| - 1]) + [Invoke(t, calls[|calls| - 1], true)]
  }

  lemma InvokeCaptured(s: Api, t: Thread, call: Call)
    requires Registry(s) && !s.stopped && t in s.captures
    requires KeyOf(call).None? || s.key.None? || s.key == KeyOf(call)
    ensures var s' := Called(s, t, call, true);
            && !s'.stopped && s'.blocked == s.blocked && s'.notified == s.notified
            && |s'.tasks| == |s.tasks| + 1 && s'.tasks[..|s.tasks|] == s.tasks
            && s'.tasks[|s.tasks|].call == call && s'.tasks[|s.tasks|].thread == t
            && s'.captures == s.captures[t := s.captures[t].(last := Some(|s.tasks|))]
            && (s'.key == s.key || s'.key == KeyOf(call))
  {
    PreparedGrows(s, call);
  }

  /** The submissions are these calls, all by thread t. */
  ghost predicate Made(tasks: seq<Submission>, t: Thread, calls: seq<Call>) {
    |tasks| == |calls| && forall i :: 0 <= i < |calls| ==> tasks[i].call == calls[i] && tasks[i].thread == t
  }

  /** Thread t has captured, alone, the given calls, under no key but this one. */
  ghost predicate Opened(s: Api, t: Thread, calls: seq<Call>, key: KeyId) {
    && !s.stopped && s.blocked == map[] && s.notified == {} && (s.key.None? || s.key == Some(key))
    && Made(s.tasks, t, calls)
    && s.captures == map[t := Capture(if calls == [] then None else Some(|calls| - 1), 0)]
  }

  /** ... and nothing has run. */
  ghost predicate Holding<V>(m: Machine<V>, t: Thread, calls: seq<Call>, key: KeyId) {
    m.started == {} && m.completed == {} && Opened(m.api, t, calls, key)
  }

  lemma MadeNext(tasks: seq<Submission>, tasks': seq<Submission>, t: Thread, calls: seq<Call>, call: Call)
    requires Made(tasks, t, calls)
    requires |tasks'| == |tasks| + 1 && tasks'[..|tasks|] == tasks && tasks'[|tasks|].call == call && tasks'[|tasks|].thread == t
    ensures Made(tasks', t, calls + [call])
  {
    assert forall i :: 0 <= i < |calls| ==> tasks'[i] == tasks'[..|tasks|][i];
  }

  lemma OpenedNext(s: Api, t: Thread, calls: seq<Call>, key: KeyId, call: Call)
    requires Registry(s) && Opened(s, t, calls, key) && (KeyOf(call).None? || KeyOf(call) == Some(key))
    ensures Opened(Called(s, t, call, true), t, calls + [call], key)
  {
    InvokeCaptured(s, t, call);
    MadeNext(s.tasks, Called(s, t, call, true).tasks, t, calls, call);
  }

  lemma HoldingNext<V>(sem: Semantics<V>, m: Machine<V>, t: Thread, calls: seq<Call>, key: KeyId, call: Call)
    requires Registry(m.api) && Holding(m, t, calls, key)
    requires WellFormed(call) && (KeyOf(call).None? || KeyOf(call) == Some(key))
    ensures Possible(m, Invoke(t, call, true)) && Holding(Next(sem, m, Invoke(t, call, true)), t, calls + [call], key)
  {
    OpenedNext(m.api, t, calls, key, call);
  }

  lemma BeginRuns<V>(sem: Semantics<V>, memory: map<Address, V>, t: Thread, key: KeyId) returns (m: Machine<V>)
    ensures Trace(sem, Boot(memory), [Begin(t)]) == Some(m) && Holding(m, t, [], key)
  {
    m := Take(sem, Boot(memory), Begin(t));
  }

  lemma CaptureExtends<V>(sem: Semantics<V>, memory: map<Address, V>, t: Thread, calls: seq<Call>, key: KeyId, call: Call, m0: Machine<V>)
      returns (m: Machine<V>)
    requires Trace(sem, Boot(memory), CaptureRun(t, calls)) == Some(m0) && Holding(m0, t, calls, key)
    requires WellFormed(call) && (KeyOf(call).None? || KeyOf(call) == Some(key))
    ensures Trace(sem, Boot(memory), CaptureRun(t, calls + [call])) == Some(m) && Holding(m, t, calls + [call], key)
  {
    ReachableSane(sem, memory, CaptureRun(t, calls));
    HoldingNext(sem, m0, t, calls, key, call);
    TraceNext(sem, Boot(memory), CaptureRun(t, calls), m0, Invoke(t, call, true));
    assert (calls + [call])[..|calls|] == calls;
    m := Next(sem, m0, Invoke(t, call, true));
  }

  /** Calls with codelets and one key can be captured with nothing else going on. */
  lemma {:induction false} CaptureRuns<V>(sem: Semantics<V>, memory: map<Address, V>, t: Thread, calls: seq<Call>, key: KeyId)
      returns (m: Machine<V>)
    requires AllWellFormed(calls) && Uses(calls, key)
    ensures Trace(sem, Boot(memory), CaptureRun(t, calls)) == Some(m) && Holding(m, t, calls, key)
  {
    if calls == [] {
      m := BeginRuns(sem, memory, t, key);
    } else {
      var n := |calls| - 1;
      var m0 := CaptureRuns(sem, memory, t, calls[..n], key);
      m := CaptureExtends(sem, memory, t, calls[..n], key, calls[n], m0);
      assert calls == calls[..n] + [calls[n]];
    }
  }

  lemma {:induction false} OwnAll(tasks: seq<Submission>, t: Thread)
    requires forall i :: 0 <= i < |tasks| ==> tasks[i].thread == t
    ensures Own(tasks, t, 0) == seq(|tasks|, i => i)
  {
    if tasks != [] {
      var n := |tasks| - 1;
      OwnAll(tasks[..n], t);
    }
  }

  lemma OpenedHolds(s: Api, t: Thread, calls: seq<Call>, key: KeyId)
    requires Opened(s, t, calls, key)
    ensures Holds(s, t, calls, seq(|calls|, i => i))
  {
    OwnAll(s.tasks, t);
  }

  lemma MadeTasks<V>(sem: Semantics<V>, tasks: seq<Submission>, t: Thread, calls: seq<Call>)
    requires Made(tasks, t, calls)
    ensures CallTasks(sem, tasks) == Tasks(sem, calls)
  {
  }

  /** The state after capturing the calls, as far as their tasks are concerned. */
  lemma CaptureMakes<V>(sem: Semantics<V>, memory: map<Address, V>, t: Thread, calls: seq<Call>, key: KeyId) returns (m: Machine<V>)
    requires AllWellFormed(calls) && Uses(calls, key)
    ensures Trace(sem, Boot(memory), CaptureRun(t, calls)) == Some(m) && m.started == {} && m.completed == {}
    ensures Holds(m.api, t, calls, seq(|calls|, i => i)) && CallTasks(sem, m.api.tasks) == Tasks(sem, calls)
    ensures m.api.captures[t] == Capture(if calls == [] then None else Some(|calls| - 1), 0)
  {
    m := CaptureRuns(sem, memory, t, calls, key);
    OpenedHolds(m.api, t, calls, key);
    MadeTasks(sem, m.api.tasks, t, calls);
  }

  // ---------- unchained calls are not ----------

  lemma HeldSame(s: Api, s': Api, t: Thread, calls: seq<Call>, own: seq<nat>)
    requires Holds(s, t, calls, own) && s'.tasks == s.tasks && s'.captures == s.captures
    ensures Holds(s', t, calls, own)
  {
  }

  lemma LagsFrom<V>(sem: Semantics<V>, memory: map<Address, V>, es: seq<BackendRuns.Event>, m: Machine<V>, i: nat, last: nat)
      returns (fs: seq<BackendRuns.Event>, m': Machine<V>)
    requires Trace(sem, Boot(memory), es) == Some(m)
    requires last < |m.api.tasks| && !Reaches(CallTasks(sem, m.api.tasks), i, last)
    ensures Trace(sem, Boot(memory), fs) == Some(m')
    ensures m'.api.tasks == m.api.tasks && m'.api.captures == m.api.captures && last in m'.api.notified
    ensures (i in m'.started <==> i in m.started) && (i in m'.completed <==> i in m.completed)
  {
    ReachableSane(sem, memory, es);
    var more := UnchainedLags(sem, m, i, last);
    TraceConcat(sem, Boot(memory), es, more);
    fs, m' := es + more, Trace(sem, m, more).value;
  }

  /** If no chain leads from call i to the last one, thread t can capture the calls, alone, and
      the runtime finish the token before it even starts call i. */
  lemma UnchainedCallLags<V>(sem: Semantics<V>, memory: map<Address, V>, t: Thread, calls: seq<Call>, key: KeyId, i: nat)
      returns (es: seq<BackendRuns.Event>)
    requires AllWellFormed(calls) && Uses(calls, key) && i < |calls| && !Reaches(Tasks(sem, calls), i, |calls| - 1)
    ensures Trace(sem, Boot(memory), es).Some?
    ensures var m := Trace(sem, Boot(memory), es).value;
            && Holds(m.api, t, calls, seq(|calls|, k => k)) && m.api.captures[t].last == Some(|calls| - 1)
            && |calls| - 1 in m.api.notified && i !in m.started && i !in m.completed
  {
    var m := CaptureMakes(sem, memory, t, calls, key);
    var run, own, last := CaptureRun(t, calls), seq(|calls|, k => k), |calls| - 1;
    assert |m.api.tasks| == |Tasks(sem, calls)|;
    var m';
    es, m' := LagsFrom(sem, memory, run, m, i, last);
    HeldSame(m.api, m'.api, t, calls, own);
  }

  lemma UnchainedNotCovered<V>(sem: Semantics<V>, memory: map<Address, V>, t: Thread, calls: seq<Call>, key: KeyId, i: nat)
    requires AllWellFormed(calls) && Uses(calls, key) && i < |calls| && !Reaches(Tasks(sem, calls), i, |calls| - 1)
    ensures !AlwaysCovered(sem, memory, t, calls, i)
  {
    var m := CaptureMakes(sem, memory, t, calls, key);
    assert |m.api.tasks| == |Tasks(sem, calls)|;
    CoversIffChained(sem, memory, CaptureRun(t, calls), i, |calls| - 1);
    assert !CoveredIn(sem, memory, CaptureRun(t, calls), t, calls, seq(|calls|, k => k), i);
  }

  /** What can be read off the captured calls before anything runs: the token covers a call in
      every run, with any other threads, interleaving and schedule, if and only if a chain of
      conflicts leads from that call to the last one. */
  lemma CoveredIffChained<V>(sem: Semantics<V>, memory: map<Address, V>, t: Thread, calls: seq<Call>, key: KeyId, i: nat)
    requires AllWellFormed(calls) && Uses(calls, key) && i < |calls|
    ensures AlwaysCovered(sem, memory, t, calls, i) <==> Reaches(Tasks(sem, calls), i, |calls| - 1)
  {
    if Reaches(Tasks(sem, calls), i, |calls| - 1) {
      ChainedAlwaysCovered(sem, memory, t, calls, i);
    } else {
      UnchainedNotCovered(sem, memory, t, calls, key, i);
    }
  }

  // ---------- captures of two calls ----------

  lemma PairReaches<V>(sem: Semantics<V>, a: Call, b: Call)
    ensures Reaches(Tasks(sem, [a, b]), 0, 1) <==> !Independent(a, b)
  {
    var tasks := Tasks(sem, [a, b]);
    assert tasks[0] == CallTask(sem, a) && tasks[1] == CallTask(sem, b);
    OrderedIffDependent(sem, a, b);
    assert Chain(Conflicts(tasks), 1, 1);
    assert Conflicts(tasks)(0, 1) <==> Conflict(tasks[0], tasks[1]);
  }

  /** The token of two captured calls covers the first exactly when one's output is a value the
      other names. Two calls that only share operands are not covered. */
  lemma PairCoveredIffDependent<V>(sem: Semantics<V>, memory: map<Address, V>, t: Thread, a: Call, b: Call, key: KeyId)
    requires AllWellFormed([a, b]) && Uses([a, b], key)
    ensures AlwaysCovered(sem, memory, t, [a, b], 0) <==> !Independent(a, b)
  {
    PairReaches(sem, a, b);
    CoveredIffChained(sem, memory, t, [a, b], key, 0);
  }

  const CommonLeft: Call := NotCall(Tlwe(0), Tlwe(1))
  const CommonRight: Call := NotCall(Tlwe(2), Tlwe(1))

  /** Two NOTs of one value: the token reads finished while the first has not started. */
  lemma CommonInputMayLag<V>(sem: Semantics<V>, memory: map<Address, V>, t: Thread) returns (es: seq<BackendRuns.Event>)
    ensures Trace(sem, Boot(memory), es).Some?
    ensures var m := Trace(sem, Boot(memory), es).value;
            && Holds(m.api, t, [CommonLeft, CommonRight], [0, 1]) && m.api.captures[t].last == Some(1)
            && 1 in m.api.notified && 0 !in m.started
  {
    assert Named(CommonLeft) == [Tlwe(0), Tlwe(1)] && Named(CommonRight) == [Tlwe(2), Tlwe(1)];
    PairReaches(sem, CommonLeft, CommonRight);
    es := UnchainedCallLags(sem, memory, t, [CommonLeft, CommonRight], 0, 0);
    assert seq(2, k => k) == [0, 1];
  }

  // ---------- a capture whose token runs ahead ----------

  const FirstNot: Call := NotCall(Tlwe(0), Tlwe(1))
  const SecondNot: Call := NotCall(Tlwe(2), Tlwe(3))

  lemma NotsUnrelated<V>(sem: Semantics<V>)
    ensures AllWellFormed([FirstNot, SecondNot]) && Uses([FirstNot, SecondNot], 0)
    ensures !Reaches(Tasks(sem, [FirstNot, SecondNot]), 0, 1)
  {
    var tasks := Tasks(sem, [FirstNot, SecondNot]);
    assert tasks[0] == CallTask(sem, FirstNot) && tasks[1] == CallTask(sem, SecondNot);
    assert !Conflict(tasks[0], tasks[1]);
  }

  /** A capture whose last task depends on nothing else in it: two NOTs on unrelated values.
      The token reads finished while the first task has not even started. */
  lemma CaptureMayLag<V>(sem: Semantics<V>, memory: map<Address, V>, t: Thread) returns (es: seq<BackendRuns.Event>)
    ensures Trace(sem, Boot(memory), es).Some?
    ensures var m := Trace(sem, Boot(memory), es).value;
            && Holds(m.api, t, [FirstNot, SecondNot], [0, 1]) && m.api.captures[t].last == Some(1)
            && 1 in m.api.notified && 0 !in m.started
  {
    NotsUnrelated(sem);
    es := UnchainedCallLags(sem, memory, t, [FirstNot, SecondNot], 0, 0);
    assert seq(2, k => k) == [0, 1];
  }
}
