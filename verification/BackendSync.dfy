/** Captured execution refines synchronous execution.

    The synchronous run of a sequence of calls is one thread, no capture, each call
    returning only when its task has completed and been notified.
 */
module BackendSync {
  import opened Options
  import opened Backend
  import opened BackendRuns
  import opened BackendOwnership
  import opened BackendData

  /** One call outside a capture: the n-th submission is made, runs, is notified, and only
      then does the calling thread go on. */
  ghost function SynchronousCall(t: Thread, n: nat, call: Call): seq<Event> {
    [Invoke(t, call, true)] + [Launch(n)] + [Complete(n)] + [Callback(n)] + [Resume(t)]
  }

  ghost function Synchronous(t: Thread, calls: seq<Call>): seq<Event> {
    if calls == [] then []
    else
      var n := |calls| - 1;
      Synchronous(t, calls[..n]) + SynchronousCall(t, n, calls[n])
  }

  /** Between two synchronous calls of t: everything submitted so far has been notified. */
  ghost predicate Quiet(s: Api, t: Thread) {
    && !s.stopped && t !in s.blocked && t !in s.captures
    && (forall i :: 0 <= i < |s.tasks| ==> i in s.notified)
  }

  lemma {:induction false} TraceConcat<V>(sem: Semantics<V>, m: Machine<V>, es: seq<Event>, fs: seq<Event>)
    requires Trace(sem, m, es).Some?
    ensures Trace(sem, m, es + fs) == Trace(sem, Trace(sem, m, es).value, fs)
    decreases |es|
  {
    if es == [] {
      assert es + fs == fs;
    } else {
      assert (es + fs)[1..] == es[1..] + fs;
      TraceConcat(sem, Next(sem, m, es[0]), es[1..], fs);
    }
  }

  lemma TraceNext<V>(sem: Semantics<V>, m: Machine<V>, es: seq<Event>, m1: Machine<V>, e: Event)
    requires Trace(sem, m, es) == Some(m1) && Possible(m1, e)
    ensures Trace(sem, m, es + [e]) == Some(Next(sem, m1, e))
  {
    TraceConcat(sem, m, es, [e]);
    assert [e][1..] == [];
    assert Trace(sem, Next(sem, m1, e), []) == Some(Next(sem, m1, e));
  }

  /** An accepted call outside a capture appends its submission and blocks its thread. */
  lemma InvokeBlocks(s: Api, t: Thread, call: Call)
    requires Registry(s) && !s.stopped && t !in s.captures
    requires KeyOf(call).None? || s.key.None? || s.key == KeyOf(call)
    ensures var s' := Called(s, t, call, true);
            && !s'.stopped && s'.captures == s.captures && s'.notified == s.notified
            && |s'.tasks| == |s.tasks| + 1 && s'.tasks[..|s.tasks|] == s.tasks && s'.tasks[|s.tasks|].call == call
            && s'.blocked == s.blocked[t := |s.tasks|]
            && (s'.key == s.key || s'.key == KeyOf(call))
  {
    PreparedGrows(s, call);
  }

  lemma SynchronousStart<V>(sem: Semantics<V>, m: Machine<V>, t: Thread, call: Call) returns (m2: Machine<V>)
    requires Registry(m.api) && Staged(m) && Quiet(m.api, t) && WellFormed(call)
    requires KeyOf(call).None? || m.api.key.None? || m.api.key == KeyOf(call)
    ensures var n := |m.api.tasks|;
            && Trace(sem, m, [Invoke(t, call, true)] + [Launch(n)]) == Some(m2)
            && m2.api == Called(m.api, t, call, true)
            && n in m2.started && n !in m2.completed && n in m2.keyUsed && n in m2.views
  {
    var n := |m.api.tasks|;
    var e := Invoke(t, call, true);
    InvokeBlocks(m.api, t, call);
    assert Trace(sem, m, []) == Some(m) && [] + [e] == [e];
    TraceNext(sem, m, [], m, e);
    var m1 := Next(sem, m, e);
    assert n !in m1.started;
    TraceNext(sem, m, [e], m1, Launch(n));
    m2 := Next(sem, m1, Launch(n));
  }

  lemma SynchronousFinish<V>(sem: Semantics<V>, m: Machine<V>, es: seq<Event>, m2: Machine<V>, t: Thread, n: nat)
      returns (m5: Machine<V>)
    requires Trace(sem, m, es) == Some(m2) && n < |m2.api.tasks|
    requires n in m2.started && n !in m2.completed && n in m2.keyUsed && n in m2.views && n !in m2.api.notified
    requires t in m2.api.blocked && m2.api.blocked[t] == n
    ensures Trace(sem, m, es + [Complete(n)] + [Callback(n)] + [Resume(t)]) == Some(m5)
    ensures m5.api == Resumed(Notified(m2.api, n), t)
  {
    var m3 := Next(sem, m2, Complete(n));
    TraceNext(sem, m, es, m2, Complete(n));
    var m4 := Next(sem, m3, Callback(n));
    TraceNext(sem, m, es + [Complete(n)], m3, Callback(n));
    m5 := Next(sem, m4, Resume(t));
    TraceNext(sem, m, es + [Complete(n)] + [Callback(n)], m4, Resume(t));
  }

  /** The bookkeeping after the call's task was notified and its thread resumed. */
  lemma QuietAgain(s: Api, s2: Api, t: Thread, call: Call)
    requires Quiet(s, t) && !s2.stopped && s2.captures == s.captures && s2.notified == s.notified
    requires |s2.tasks| == |s.tasks| + 1 && s2.tasks[..|s.tasks|] == s.tasks && s2.tasks[|s.tasks|].call == call
    ensures var s5 := Resumed(Notified(s2, |s.tasks|), t);
            Quiet(s5, t) && Accepted(s5) == Accepted(s) + [call]
  {
    var n := |s.tasks|;
    forall i | 0 <= i < n
      ensures s2.tasks[i] == s.tasks[i]
    {
      assert s2.tasks[i] == s2.tasks[..n][i];
    }
  }

  lemma SynchronousCallRuns<V>(sem: Semantics<V>, m: Machine<V>, t: Thread, call: Call) returns (m': Machine<V>)
    requires Registry(m.api) && Staged(m) && Quiet(m.api, t) && WellFormed(call)
    requires KeyOf(call).None? || m.api.key.None? || m.api.key == KeyOf(call)
    ensures Trace(sem, m, SynchronousCall(t, |m.api.tasks|, call)) == Some(m')
    ensures Quiet(m'.api, t) && Accepted(m'.api) == Accepted(m.api) + [call]
    ensures m'.api.key == m.api.key || m'.api.key == KeyOf(call)
  {
    var n := |m.api.tasks|;
    InvokeBlocks(m.api, t, call);
    var m2 := SynchronousStart(sem, m, t, call);
    m' := SynchronousFinish(sem, m, [Invoke(t, call, true)] + [Launch(n)], m2, t, n);
    QuietAgain(m.api, m2.api, t, call);
  }

  ghost predicate Uses(calls: seq<Call>, key: KeyId) {
    forall i :: 0 <= i < |calls| ==> KeyOf(calls[i]).None? || KeyOf(calls[i]) == Some(key)
  }

  /** m is where the synchronous run of the calls ends. */
  ghost predicate RanSynchronously<V>(sem: Semantics<V>, memory: map<Address, V>, t: Thread, calls: seq<Call>, key: KeyId, m: Machine<V>) {
    && Trace(sem, Boot(memory), Synchronous(t, calls)) == Some(m)
    && Quiet(m.api, t) && Accepted(m.api) == calls
    && (m.api.key.None? || m.api.key == Some(key))
  }

  /** One more call on top of a synchronous run. */
  lemma SynchronousExtends<V>(sem: Semantics<V>, memory: map<Address, V>, t: Thread, calls: seq<Call>, call: Call, key: KeyId, m0: Machine<V>)
      returns (m: Machine<V>)
    requires RanSynchronously(sem, memory, t, calls, key, m0) && Registry(m0.api) && Staged(m0)
    requires WellFormed(call) && (KeyOf(call).None? || KeyOf(call) == Some(key))
    ensures Trace(sem, Boot(memory), Synchronous(t, calls) + SynchronousCall(t, |calls|, call)) == Some(m)
    ensures Quiet(m.api, t) && Accepted(m.api) == calls + [call] && (m.api.key.None? || m.api.key == Some(key))
  {
    assert |m0.api.tasks| == |Accepted(m0.api)| == |calls|;
    m := SynchronousCallRuns(sem, m0, t, call);
    TraceConcat(sem, Boot(memory), Synchronous(t, calls), SynchronousCall(t, |calls|, call));
  }

  lemma SynchronousSnoc(t: Thread, calls: seq<Call>, call: Call)
    ensures Synchronous(t, calls + [call]) == Synchronous(t, calls) + SynchronousCall(t, |calls|, call)
  {
    assert (calls + [call])[..|calls|] == calls;
  }

  lemma SynchronousSane<V>(sem: Semantics<V>, memory: map<Address, V>, es: seq<Event>, m: Machine<V>)
    requires Trace(sem, Boot(memory), es) == Some(m)
    ensures Registry(m.api) && Staged(m)
  {
    BootSane(memory);
    TraceKeepsSane(sem, Boot(memory), es);
  }

  lemma RanNext<V>(sem: Semantics<V>, memory: map<Address, V>, t: Thread, calls: seq<Call>, call: Call, key: KeyId, m0: Machine<V>)
      returns (m: Machine<V>)
    requires RanSynchronously(sem, memory, t, calls, key, m0)
    requires WellFormed(call) && (KeyOf(call).None? || KeyOf(call) == Some(key))
    ensures RanSynchronously(sem, memory, t, calls + [call], key, m)
  {
    SynchronousSane(sem, memory, Synchronous(t, calls), m0);
    m := SynchronousExtends(sem, memory, t, calls, call, key, m0);
    SynchronousSnoc(t, calls, call);
  }

  /** Calls with codelets and one key can be run synchronously. */
  lemma {:induction false} SynchronousRuns<V>(sem: Semantics<V>, memory: map<Address, V>, t: Thread, calls: seq<Call>, key: KeyId)
      returns (m: Machine<V>)
    requires AllWellFormed(calls) && Uses(calls, key)
    ensures RanSynchronously(sem, memory, t, calls, key, m)
  {
    if calls == [] {
      m := Boot(memory);
    } else {
      var n := |calls| - 1;
      var m0 := SynchronousRuns(sem, memory, t, calls[..n], key);
      m := RanNext(sem, memory, t, calls[..n], calls[n], key, m0);
      assert calls == calls[..n] + [calls[n]];
    }
  }

  ghost function CommonKey(calls: seq<Call>): KeyId {
    if exists i :: 0 <= i < |calls| && KeyOf(calls[i]).Some? then
      var i :| 0 <= i < |calls| && KeyOf(calls[i]).Some?;
      KeyOf(calls[i]).value
    else 0
  }

  lemma AcceptedShareKey<V>(sem: Semantics<V>, memory: map<Address, V>, es: seq<Event>)
    requires Trace(sem, Boot(memory), es).Some?
    ensures var calls := Accepted(Trace(sem, Boot(memory), es).value.api);
            AllWellFormed(calls) && Uses(calls, CommonKey(calls))
  {
    BootSane(memory);
    TraceKeepsOneKey(sem, Boot(memory), es);
  }

  lemma QuietCompleted<V>(sem: Semantics<V>, memory: map<Address, V>, es: seq<Event>, m: Machine<V>, t: Thread)
    requires Trace(sem, Boot(memory), es) == Some(m) && Quiet(m.api, t)
    ensures AllCompleted(m)
  {
    BootSane(memory);
    TraceKeepsSane(sem, Boot(memory), es);
  }

  /** For every run, with any threads, captures and schedule, whose tasks have all completed:
      the same accepted calls can be run synchronously, and leave the same values. */
  lemma CapturedRefinesSynchronous<V>(sem: Semantics<V>, memory: map<Address, V>, es: seq<Event>, t: Thread)
    requires Trace(sem, Boot(memory), es).Some?
    requires var m := Trace(sem, Boot(memory), es).value;
             AllCompleted(m) && AllExist(Accepted(m.api), memory.Keys)
    ensures var m := Trace(sem, Boot(memory), es).value;
            var run := Trace(sem, Boot(memory), Synchronous(t, Accepted(m.api)));
            && run.Some? && Quiet(run.value.api, t)
            && Accepted(run.value.api) == Accepted(m.api)
            && run.value.memory == m.memory
  {
    var m := Trace(sem, Boot(memory), es).value;
    var calls := Accepted(m.api);
    AcceptedShareKey(sem, memory, es);
    var m' := SynchronousRuns(sem, memory, t, calls, CommonKey(calls));
    QuietCompleted(sem, memory, Synchronous(t, calls), m', t);
    DrainedRunIsFold(sem, memory, es);
    DrainedRunIsFold(sem, memory, Synchronous(t, calls));
  }
}
