/** Captures and their tokens: what it means that the task a capture returns has finished. */
module BackendCaptures {
  import opened Options
  import opened Runtime
  import opened CompletionToken
  import opened Backend
  import opened BackendRuns
  import opened BackendOwnership
  import opened BackendData

  /** The submissions thread t made from position `since` on, in order. */
  ghost function Own(tasks: seq<Submission>, t: Thread, since: nat): seq<nat> {
    if |tasks| <= since then []
    else
      var n := |tasks| - 1;
      Own(tasks[..n], t, since) + (if tasks[n].thread == t then [n] else [])
  }

  ghost predicate Increasing(own: seq<nat>, low: nat, high: nat) {
    && (forall p :: 0 <= p < |own| ==> low <= own[p] < high)
    && (forall p, q :: 0 <= p < q < |own| ==> own[p] < own[q])
  }

  lemma {:induction false} OwnIncreasing(tasks: seq<Submission>, t: Thread, since: nat)
    ensures Increasing(Own(tasks, t, since), since, |tasks|)
  {
    if |tasks| > since {
      var n := |tasks| - 1;
      OwnIncreasing(tasks[..n], t, since);
      var before := Own(tasks[..n], t, since);
      assert Increasing(before, since, n);
      if tasks[n].thread == t {
        assert Increasing(before + [n], since, n + 1);
        assert Own(tasks, t, since) == before + [n];
      } else {
        assert Own(tasks, t, since) == before + [];
        assert before + [] == before;
      }
    }
  }

  ghost predicate LastOf(last: Option<nat>, own: seq<nat>) {
    last == if own == [] then None else Some(own[|own| - 1])
  }

  /** Every open capture holds the last submission its own thread made since it began. */
  ghost predicate CapturesExact(captures: map<Thread, Capture>, tasks: seq<Submission>) {
    forall t :: t in captures ==>
      captures[t].since <= |tasks| && LastOf(captures[t].last, Own(tasks, t, captures[t].since))
  }

  lemma CallCaptures(s: Api, t: Thread, call: Call, accepted: bool)
    requires Registry(s) && !s.stopped
    ensures var s' := Called(s, t, call, accepted);
            || (s'.tasks == s.tasks && s'.captures == s.captures)
            || (&& |s'.tasks| == |s.tasks| + 1 && s'.tasks[..|s.tasks|] == s.tasks && s'.tasks[|s.tasks|].thread == t
                && s'.captures == if t in s.captures then s.captures[t := s.captures[t].(last := Some(|s.tasks|))] else s.captures)
  {
    if Prepared(s, call).Some? {
      PreparedGrows(s, call);
    }
  }

  lemma NewTaskCaptured(captures: map<Thread, Capture>, tasks: seq<Submission>, tasks': seq<Submission>, t: Thread)
    requires CapturesExact(captures, tasks)
    requires |tasks'| == |tasks| + 1 && tasks'[..|tasks|] == tasks && tasks'[|tasks|].thread == t
    ensures CapturesExact(if t in captures then captures[t := captures[t].(last := Some(|tasks|))] else captures, tasks')
  {
  }

  lemma StepKeepsCaptures<V>(sem: Semantics<V>, m: Machine<V>, e: BackendRuns.Event)
    requires Registry(m.api) && Possible(m, e) && CapturesExact(m.api.captures, m.api.tasks)
    ensures CapturesExact(Next(sem, m, e).api.captures, Next(sem, m, e).api.tasks)
  {
    if e.Invoke? {
      CallCaptures(m.api, e.t, e.call, e.accepted);
      var s' := Called(m.api, e.t, e.call, e.accepted);
      if |s'.tasks| == |m.api.tasks| + 1 {
        NewTaskCaptured(m.api.captures, m.api.tasks, s'.tasks, e.t);
      }
    }
  }

  lemma {:induction false} TraceKeepsCaptures<V>(sem: Semantics<V>, m: Machine<V>, es: seq<BackendRuns.Event>)
    requires Sane(m) && CapturesExact(m.api.captures, m.api.tasks) && Trace(sem, m, es).Some?
    ensures var s' := Trace(sem, m, es).value.api;
            CapturesExact(s'.captures, s'.tasks)
    decreases |es|
  {
    if es != [] {
      StepKeepsSane(sem, m, es[0]);
      StepKeepsCaptures(sem, m, es[0]);
      TraceKeepsCaptures(sem, Next(sem, m, es[0]), es[1..]);
    }
  }

  // ---------- chains survive later and interleaved submissions ----------

  /** The first n positions of one edge relation appear in another, in order, at the positions `at`. */
  ghost predicate Embeds(small: (nat, nat) -> bool, large: (nat, nat) -> bool, at: seq<nat>) {
    && (forall p, q :: 0 <= p < q < |at| ==> at[p] < at[q])
    && (forall p: nat, q: nat :: p < q < |at| && small(p, q) ==> large(at[p], at[q]))
  }

  lemma {:induction false} ChainEmbeds(small: (nat, nat) -> bool, large: (nat, nat) -> bool, at: seq<nat>, i: nat, j: nat)
    requires Embeds(small, large, at) && i <= j < |at| && Chain(small, i, j)
    ensures Chain(large, at[i], at[j])
    decreases j - i
  {
    if i != j {
      var k: nat :| i < k <= j && small(i, k) && Chain(small, k, j);
      ChainEmbeds(small, large, at, k, j);
      assert at[i] < at[k] && (k == j || at[k] < at[j]);
    }
  }

  // ---------- the token of a capture ----------

  lemma StepTasksGrow<V>(sem: Semantics<V>, m: Machine<V>, e: BackendRuns.Event)
    requires Registry(m.api) && Possible(m, e)
    ensures m.api.tasks <= Next(sem, m, e).api.tasks
  {
    if e.Invoke? {
      CallCaptures(m.api, e.t, e.call, e.accepted);
    }
  }

  lemma {:induction false} TasksGrow<V>(sem: Semantics<V>, m: Machine<V>, es: seq<BackendRuns.Event>)
    requires Sane(m) && Trace(sem, m, es).Some?
    ensures m.api.tasks <= Trace(sem, m, es).value.api.tasks
    decreases |es|
  {
    if es != [] {
      StepKeepsSane(sem, m, es[0]);
      StepTasksGrow(sem, m, es[0]);
      TasksGrow(sem, Next(sem, m, es[0]), es[1..]);
    }
  }

  /** What the thread submitted in its open capture, as tasks. */
  ghost function Captured<V>(sem: Semantics<V>, s: Api, t: Thread): seq<Task<Address, V>>
    requires t in s.captures && s.captures[t].since <= |s.tasks|
  {
    var own := Own(s.tasks, t, s.captures[t].since);
    OwnIncreasing(s.tasks, t, s.captures[t].since);
    seq(|own|, p requires 0 <= p < |own| => CallTask(sem, s.tasks[own[p]].call))
  }

  /** Every task in the sequence reaches the last one. */
  ghost predicate AllReachLast<V>(tasks: seq<Task<Address, V>>) {
    forall p: nat, last: nat {:trigger Reaches(tasks, p, last)} :: p <= last == |tasks| - 1 ==> Reaches(tasks, p, last)
  }

  /** A task that reaches a later one still does where they lie among others, in order. */
  lemma ReachesAmong<V>(small: seq<Task<Address, V>>, large: seq<Task<Address, V>>, at: seq<nat>, p: nat, q: nat)
    requires |small| == |at| && p <= q < |at| && Reaches(small, p, q)
    requires Increasing(at, 0, |large|) && forall k :: 0 <= k < |at| ==> large[at[k]] == small[k]
    ensures Reaches(large, at[p], at[q])
  {
    assert Embeds(Conflicts(small), Conflicts(large), at);
    ChainEmbeds(Conflicts(small), Conflicts(large), at, p, q);
  }

  lemma CapturedAt<V>(sem: Semantics<V>, s: Api, t: Thread, large: seq<Submission>, own: seq<nat>)
    requires t in s.captures && s.captures[t].since <= |s.tasks| && s.tasks <= large
    requires own == Own(s.tasks, t, s.captures[t].since)
    ensures |Captured(sem, s, t)| == |own| && Increasing(own, 0, |CallTasks(sem, large)|)
    ensures forall q :: 0 <= q < |own| ==> CallTasks(sem, large)[own[q]] == Captured(sem, s, t)[q]
  {
    OwnIncreasing(s.tasks, t, s.captures[t].since);
  }

  lemma CapturedReaches<V>(sem: Semantics<V>, s: Api, t: Thread, large: seq<Submission>, own: seq<nat>, p: nat)
    requires t in s.captures && s.captures[t].since <= |s.tasks| && s.tasks <= large
    requires own == Own(s.tasks, t, s.captures[t].since) && p < |own| && AllReachLast(Captured(sem, s, t))
    ensures Reaches(CallTasks(sem, large), own[p], own[|own| - 1]) && own[|own| - 1] < |large|
  {
    CapturedAt(sem, s, t, large, own);
    var last := |own| - 1;
    assert Reaches(Captured(sem, s, t), p, last);
    ReachesAmong(Captured(sem, s, t), CallTasks(sem, large), own, p, last);
  }

  lemma TokenFinished<V>(sem: Semantics<V>, m: Machine<V>, own: seq<nat>, p: nat)
    requires Ordered(Abs(sem, m)) && p < |own| && own[|own| - 1] < |m.api.tasks| && own[|own| - 1] in m.completed
    requires Reaches(CallTasks(sem, m.api.tasks), own[p], own[|own| - 1])
    ensures own[p] in m.completed
  {
    FinishedFollowsChain(Abs(sem, m), own[p], own[|own| - 1]);
  }

  lemma TokenCompletes<V>(sem: Semantics<V>, s: Api, m: Machine<V>, t: Thread, p: nat)
    requires t in s.captures && s.captures[t].since <= |s.tasks| && s.tasks <= m.api.tasks
    requires AllReachLast(Captured(sem, s, t)) && p < |Own(s.tasks, t, s.captures[t].since)|
    requires LastOf(s.captures[t].last, Own(s.tasks, t, s.captures[t].since))
    requires s.captures[t].last.Some? ==> s.captures[t].last.value in m.completed
    requires Ordered(Abs(sem, m))
    ensures s.captures[t].last.Some? && Own(s.tasks, t, s.captures[t].since)[p] in m.completed
  {
    var own := Own(s.tasks, t, s.captures[t].since);
    CapturedReaches(sem, s, t, m.api.tasks, own, p);
    TokenFinished(sem, m, own, p);
  }

  /** What relates any reachable state to any continuation of it. */
  lemma Continued<V>(sem: Semantics<V>, memory: map<Address, V>, es: seq<BackendRuns.Event>, fs: seq<BackendRuns.Event>)
    requires Trace(sem, Boot(memory), es).Some? && Trace(sem, Trace(sem, Boot(memory), es).value, fs).Some?
    ensures var m := Trace(sem, Boot(memory), es).value;
            var m' := Trace(sem, m, fs).value;
            && CapturesExact(m.api.captures, m.api.tasks) && m.api.tasks <= m'.api.tasks
            && Ordered(Abs(sem, m')) && m'.api.notified <= m'.completed
  {
    var m := Trace(sem, Boot(memory), es).value;
    BootRefines(sem, memory);
    TraceKeepsCaptures(sem, Boot(memory), es);
    TraceRefines(sem, Boot(memory), memory, es);
    TasksGrow(sem, m, fs);
    TraceRefines(sem, m, memory, fs);
  }

  /** Take any run, any thread with an open capture whose submissions all reach the last of
      them through handle conflicts, and any continuation in which the capture's token reads
      finished: by then every submission of the capture has completed. */
  lemma CaptureTokenCovers<V>(sem: Semantics<V>, memory: map<Address, V>, es: seq<BackendRuns.Event>, fs: seq<BackendRuns.Event>,
                              t: Thread, p: nat)
    requires Trace(sem, Boot(memory), es).Some?
    requires var m := Trace(sem, Boot(memory), es).value;
             && t in m.api.captures && m.api.captures[t].since <= |m.api.tasks|
             && p < |Own(m.api.tasks, t, m.api.captures[t].since)|
             && AllReachLast(Captured(sem, m.api, t))
             && Trace(sem, m, fs).Some?
             && (m.api.captures[t].last.Some? ==> m.api.captures[t].last.value in Trace(sem, m, fs).value.api.notified)
    ensures var m := Trace(sem, Boot(memory), es).value;
            && m.api.captures[t].last.Some?
            && Own(m.api.tasks, t, m.api.captures[t].since)[p] in Trace(sem, m, fs).value.completed
  {
    var m := Trace(sem, Boot(memory), es).value;
    Continued(sem, memory, es, fs);
    TokenCompletes(sem, m.api, Trace(sem, m, fs).value, t, p);
  }

  // ---------- CMUX trees ----------

  /** A tree of CMUX selections over stored values: how a RAM or ROM read is expanded. */
  datatype Tree = Leaf(at: Address) | Node(output: Address, select: Address, whenTrue: Tree, whenFalse: Tree)

  function Root(tree: Tree): Address {
    match tree
    case Leaf(a) => a
    case Node(out, _, _, _) => out
  }

  /** Children first, then the node. */
  function Calls(tree: Tree): seq<Call> {
    match tree
    case Leaf(_) => []
    case Node(out, s, t, f) => Calls(t) + Calls(f) + [CmuxCall(out, s, Root(t), Root(f))]
  }

  /** The second call reads what the first one writes. */
  predicate Feeds(a: Call, b: Call) { Output(a) in Operands(b) }

  lemma FeedsConflict<V>(sem: Semantics<V>, a: Call, b: Call)
    requires Feeds(a, b)
    ensures Conflict(CallTask(sem, a), CallTask(sem, b))
  {
    var x := Output(a);
    var ta, tb := CallTask(sem, a), CallTask(sem, b);
    assert ta.accesses[0].handle == x && ta.accesses[0].mode != R;
    assert Writes(ta, x);
    var k :| 0 <= k < |Operands(b)| && Operands(b)[k] == x;
    ReadsOperand(sem, b, k);
  }

  lemma ReadsOperand<V>(sem: Semantics<V>, call: Call, k: nat)
    requires k < |Operands(call)|
    ensures Reads(CallTask(sem, call), Operands(call)[k])
  {
    var b := CallTask(sem, call).accesses;
    var at := if !call.CmuxCall? || k == 0 then k + 1
              else if call.output == call.whenTrue then (if k == 1 then 0 else 2)
              else if call.output == call.whenFalse then (if k == 1 then 2 else 0)
              else k + 1;
    assert b[at].handle == Operands(call)[k] && b[at].mode != W;
  }

  ghost predicate FeedsLater(calls: seq<Call>, p: nat)
    requires p < |calls|
  {
    exists q: nat :: p < q < |calls| && Feeds(calls[p], calls[q])
  }

  /** Every call but the last feeds some later one. */
  ghost predicate AllFeed(calls: seq<Call>) {
    forall p: nat :: p + 1 < |calls| ==> FeedsLater(calls, p)
  }

  lemma {:induction false} FedReaches<V>(sem: Semantics<V>, calls: seq<Call>, p: nat)
    requires AllFeed(calls) && p < |calls|
    ensures Reaches(Tasks(sem, calls), p, |calls| - 1)
    decreases |calls| - p
  {
    if p + 1 < |calls| {
      assert FeedsLater(calls, p);
      var q: nat :| p < q < |calls| && Feeds(calls[p], calls[q]);
      FeedsConflict(sem, calls[p], calls[q]);
      FedReaches(sem, calls, q);
      assert Conflicts(Tasks(sem, calls))(p, q);
    }
  }

  /** A fed sequence stays fed, its last call included, in front of a reader of its result. */
  lemma FedBefore(calls: seq<Call>, all: seq<Call>, start: nat, p: nat)
    requires AllFeed(calls) && p < |calls| && start + |calls| < |all|
    requires all[start..start + |calls|] == calls && Feeds(calls[|calls| - 1], all[|all| - 1])
    ensures FeedsLater(all, start + p)
  {
    assert all[start + p] == all[start..start + |calls|][p] == calls[p];
    if p + 1 == |calls| {
      assert Feeds(all[start + p], all[|all| - 1]);
    } else {
      assert FeedsLater(calls, p);
      var q: nat :| p < q < |calls| && Feeds(calls[p], calls[q]);
      assert all[start + q] == all[start..start + |calls|][q] == calls[q];
      assert Feeds(all[start + p], all[start + q]);
    }
  }

  /** A part of a sequence, up to a reader of its result. */
  lemma FedPart(part: seq<Call>, all: seq<Call>, start: nat)
    requires AllFeed(part) && start + |part| < |all| && all[start..start + |part|] == part
    requires part != [] ==> Feeds(part[|part| - 1], all[|all| - 1])
    ensures forall p: nat :: start <= p < start + |part| ==> FeedsLater(all, p)
  {
    forall p: nat | start <= p < start + |part|
      ensures FeedsLater(all, p)
    {
      FedBefore(part, all, start, p - start);
    }
  }

  lemma FedJoin(t: seq<Call>, f: seq<Call>, call: Call)
    requires AllFeed(t) && AllFeed(f)
    requires t != [] ==> Feeds(t[|t| - 1], call)
    requires f != [] ==> Feeds(f[|f| - 1], call)
    ensures AllFeed(t + f + [call])
  {
    var all := t + f + [call];
    assert all[|all| - 1] == call;
    assert all[0..0 + |t|] == t && all[|t|..|t| + |f|] == f;
    FedPart(t, all, 0);
    FedPart(f, all, |t|);
  }

  lemma {:induction false} TreeFeeds(tree: Tree)
    ensures AllFeed(Calls(tree))
    ensures tree.Node? ==> Calls(tree) != [] && Output(Calls(tree)[|Calls(tree)| - 1]) == Root(tree)
  {
    if tree.Node? {
      var t, f := tree.whenTrue, tree.whenFalse;
      TreeFeeds(t);
      TreeFeeds(f);
      var call := CmuxCall(tree.output, tree.select, Root(t), Root(f));
      assert Operands(call)[1] == Root(t) && Operands(call)[2] == Root(f);
      FedJoin(Calls(t), Calls(f), call);
    }
  }

  lemma FedReachLast<V>(sem: Semantics<V>, calls: seq<Call>)
    requires AllFeed(calls)
    ensures AllReachLast(Tasks(sem, calls))
  {
    var tasks := Tasks(sem, calls);
    forall p: nat, last: nat {:trigger Reaches(tasks, p, last)} | p <= last == |tasks| - 1
      ensures Reaches(tasks, p, last)
    {
      FedReaches(sem, calls, p);
    }
  }

  /** In a CMUX tree of any shape and depth, whatever its addresses, every node's task
      reaches the root's, which is submitted last. */
  lemma TreeReachesRoot<V>(sem: Semantics<V>, tree: Tree)
    ensures AllReachLast(Tasks(sem, Calls(tree)))
  {
    TreeFeeds(tree);
    FedReachLast(sem, Calls(tree));
  }

  /** A capture holding the expansion of a CMUX tree, however other threads interleave: once
      its token reads finished, every selection in the tree has completed. */
  lemma TreeTokenCovers<V>(sem: Semantics<V>, memory: map<Address, V>, es: seq<BackendRuns.Event>, fs: seq<BackendRuns.Event>,
                           t: Thread, tree: Tree, p: nat)
    requires Trace(sem, Boot(memory), es).Some? && p < |Calls(tree)|
    requires var m := Trace(sem, Boot(memory), es).value;
             && t in m.api.captures && m.api.captures[t].since <= |m.api.tasks|
             && Captured(sem, m.api, t) == Tasks(sem, Calls(tree))
             && Trace(sem, m, fs).Some?
             && (m.api.captures[t].last.Some? ==> m.api.captures[t].last.value in Trace(sem, m, fs).value.api.notified)
    ensures var m := Trace(sem, Boot(memory), es).value;
            var own := Own(m.api.tasks, t, m.api.captures[t].since);
            && m.api.captures[t].last.Some? && |own| == |Calls(tree)|
            && own[p] in Trace(sem, m, fs).value.completed
  {
    var m := Trace(sem, Boot(memory), es).value;
    TreeReachesRoot(sem, tree);
    assert |Own(m.api.tasks, t, m.api.captures[t].since)| == |Captured(sem, m.api, t)|;
    CaptureTokenCovers(sem, memory, es, fs, t, p);
  }
}
