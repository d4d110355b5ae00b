/** Optional values, shared by the whole project. */
module Options {
  datatype Option<+T> = None | Some(value: T)
}

/** The task runtime as Tangor relies on it.

    A task names data handles with access modes. The only ordering the runtime
    promises is the implicit one: a task may start once every earlier submitted
    task that touches one of its handles, at least one of the two writing it, has
    finished. Start and finish are separate events, so tasks overlap freely: a task
    sees its buffers as they are when it starts and its results land when it ends.
 */
module Runtime {
  import opened Options

  datatype Mode = R | W | RW

  datatype Access<H> = Access(handle: H, mode: Mode)

  /** `body` is given the contents of the buffers the task may read (None for a
      write-only buffer) and the position of the buffer it is to produce. */
  datatype Task<!H, !V> = Task(accesses: seq<Access<H>>, body: (seq<Option<V>>, nat) -> V)

  ghost predicate Reads<H, V>(t: Task<H, V>, h: H) {
    exists i :: 0 <= i < |t.accesses| && t.accesses[i].handle == h && t.accesses[i].mode != W
  }

  ghost predicate Writes<H, V>(t: Task<H, V>, h: H) {
    exists i :: 0 <= i < |t.accesses| && t.accesses[i].handle == h && t.accesses[i].mode != R
  }

  ghost predicate Touches<H, V>(t: Task<H, V>, h: H) {
    Reads(t, h) || Writes(t, h)
  }

  ghost predicate Conflict<H(!new), V>(a: Task<H, V>, b: Task<H, V>) {
    exists h :: Touches(a, h) && Touches(b, h) && (Writes(a, h) || Writes(b, h))
  }

  // ---------- what one task does to a store ----------

  ghost function View<H, V>(t: Task<H, V>, st: map<H, V>): seq<Option<V>> {
    seq(|t.accesses|, i requires 0 <= i < |t.accesses| =>
      var a := t.accesses[i];
      if a.mode != W && a.handle in st then Some(st[a.handle]) else None)
  }

  ghost function LastWriter<H>(accesses: seq<Access<H>>, h: H): (r: int)
    ensures -1 <= r < |accesses|
    ensures r >= 0 <==> exists i :: 0 <= i < |accesses| && accesses[i].handle == h && accesses[i].mode != R
  {
    var n := |accesses| - 1;
    if n < 0 then -1
    else if accesses[n].handle == h && accesses[n].mode != R then n
    else LastWriter(accesses[..n], h)
  }

  ghost function Commit<H, V>(t: Task<H, V>, view: seq<Option<V>>, st: map<H, V>): map<H, V> {
    map h | h in st ::
      var i := LastWriter(t.accesses, h);
      if i >= 0 then t.body(view, i) else st[h]
  }

  ghost function Apply<H, V>(t: Task<H, V>, st: map<H, V>): map<H, V> {
    Commit(t, View(t, st), st)
  }

  /** The reference semantics: the tasks one after another, in submission order. */
  ghost function Sequential<H, V>(tasks: seq<Task<H, V>>, st: map<H, V>): (r: map<H, V>)
    ensures r.Keys == st.Keys
  {
    if tasks == [] then st
    else Apply(tasks[|tasks| - 1], Sequential(tasks[..|tasks| - 1], st))
  }

  // ---------- the concurrent machine ----------

  datatype State<!H, !V> = State(
    tasks: seq<Task<H, V>>,
    started: set<nat>,
    finished: set<nat>,
    views: map<nat, seq<Option<V>>>,
    store: map<H, V>)

  datatype Event<!H, !V> = Submit(task: Task<H, V>) | Start(index: nat) | Finish(index: nat)

  ghost predicate Ready<H(!new), V>(s: State<H, V>, i: nat)
    requires i < |s.tasks|
  {
    forall j :: 0 <= j < i && Conflict(s.tasks[j], s.tasks[i]) ==> j in s.finished
  }

  ghost predicate Enabled<H(!new), V>(s: State<H, V>, e: Event<H, V>) {
    match e
    case Submit(_) => true
    case Start(i) => i < |s.tasks| && i !in s.started && Ready(s, i)
    case Finish(i) => i in s.started && i !in s.finished && i < |s.tasks| && i in s.views
  }

  ghost function Step<H(!new), V>(s: State<H, V>, e: Event<H, V>): State<H, V>
    requires Enabled(s, e)
  {
    match e
    case Submit(t) => s.(tasks := s.tasks + [t])
    case Start(i) => s.(started := s.started + {i}, views := s.views[i := View(s.tasks[i], s.store)])
    case Finish(i) => s.(finished := s.finished + {i}, store := Commit(s.tasks[i], s.views[i], s.store))
  }

  ghost function Initial<H, V>(store: map<H, V>): State<H, V> {
    State([], {}, {}, map[], store)
  }

  ghost function Exec<H(!new), V>(s: State<H, V>, es: seq<Event<H, V>>): Option<State<H, V>>
    decreases |es|
  {
    if es == [] then Some(s)
    else if !Enabled(s, es[0]) then None
    else Exec(Step(s, es[0]), es[1..])
  }

  ghost predicate Drained<H, V>(s: State<H, V>) {
    forall i :: 0 <= i < |s.tasks| ==> i in s.finished
  }

  // ---------- what every run keeps ----------

  /** Exactly the writers of `h` among the first `k` submissions have finished. */
  ghost predicate WrittenUpTo<H, V>(s: State<H, V>, h: H, k: nat)
    requires k <= |s.tasks|
  {
    forall j :: 0 <= j < |s.tasks| && Writes(s.tasks[j], h) ==> (j in s.finished <==> j < k)
  }

  ghost predicate Ordered<H(!new), V>(s: State<H, V>) {
    && s.finished <= s.started
    && s.views.Keys == s.started
    && (forall i :: i in s.started ==> i < |s.tasks| && Ready(s, i))
  }

  ghost predicate ViewsSequential<H(!new), V>(s: State<H, V>, init: map<H, V>)
    requires Ordered(s)
  {
    forall i :: i in s.started ==> s.views[i] == View(s.tasks[i], Sequential(s.tasks[..i], init))
  }

  ghost predicate StoreSequential<H(!new), V>(s: State<H, V>, init: map<H, V>) {
    && s.store.Keys == init.Keys
    && (forall h, k: nat :: h in init && k <= |s.tasks| && WrittenUpTo(s, h, k)
         ==> s.store[h] == Sequential(s.tasks[..k], init)[h])
  }

  ghost predicate Inv<H(!new), V>(s: State<H, V>, init: map<H, V>) {
    Ordered(s) && ViewsSequential(s, init) && StoreSequential(s, init)
  }

  lemma FrameStep<H(!new), V>(tasks: seq<Task<H, V>>, init: map<H, V>, h: H, k: nat)
    requires k < |tasks| && h in init && !Writes(tasks[k], h)
    ensures Sequential(tasks[..k], init)[h] == Sequential(tasks[..k + 1], init)[h]
  {
    assert tasks[..k + 1][..k] == tasks[..k];
    assert LastWriter(tasks[k].accesses, h) < 0;
  }

  lemma {:induction false} FrameBetween<H(!new), V>(tasks: seq<Task<H, V>>, init: map<H, V>, h: H, a: nat, b: nat)
    requires a <= b <= |tasks| && h in init
    requires forall j :: a <= j < b ==> !Writes(tasks[j], h)
    ensures Sequential(tasks[..a], init)[h] == Sequential(tasks[..b], init)[h]
  {
    if a < b {
      var k := b - 1;
      FrameBetween(tasks, init, h, a, k);
      FrameStep(tasks, init, h, k);
      assert k + 1 == b;
    }
  }

  /** A handle a ready task may read holds what the sequential run would hand it. */
  lemma ReadyReadsSequential<H(!new), V>(s: State<H, V>, init: map<H, V>, i: nat, h: H)
    requires Inv(s, init) && i < |s.tasks| && i !in s.finished && Ready(s, i)
    requires Touches(s.tasks[i], h) && h in init
    ensures s.store[h] == Sequential(s.tasks[..i], init)[h]
  {
    forall j | 0 <= j < |s.tasks| && Writes(s.tasks[j], h)
      ensures j in s.finished <==> j < i
    {
      if j < i {
        assert Conflict(s.tasks[j], s.tasks[i]);
      } else if j > i && j in s.finished {
        assert Conflict(s.tasks[i], s.tasks[j]);
      }
    }
    assert WrittenUpTo(s, h, i);
  }

  lemma StartKeepsInv<H(!new), V>(s: State<H, V>, init: map<H, V>, i: nat)
    requires Inv(s, init) && Enabled(s, Start(i))
    ensures Inv(Step(s, Start(i)), init)
  {
    var s' := Step(s, Start(i));
    var t := s.tasks[i];
    var ref := Sequential(s.tasks[..i], init);
    forall k | 0 <= k < |t.accesses|
      ensures View(t, s.store)[k] == View(t, ref)[k]
    {
      var a := t.accesses[k];
      if a.mode != W && a.handle in init {
        assert Reads(t, a.handle);
        ReadyReadsSequential(s, init, i, a.handle);
      }
    }
    assert View(t, s.store) == View(t, ref);
    forall h, k: nat | h in init && k <= |s'.tasks| && WrittenUpTo(s', h, k)
      ensures s'.store[h] == Sequential(s'.tasks[..k], init)[h]
    {
      assert WrittenUpTo(s, h, k);
    }
    assert forall j | j in s'.started :: Ready(s, j) && Ready(s', j);
  }

  /** While a writer of `h` is unfinished, no later writer of `h` has finished. */
  lemma LaterWritersWait<H(!new), V>(s: State<H, V>, i: nat, j: nat, h: H)
    requires Ordered(s) && i < j < |s.tasks| && i !in s.finished
    requires Touches(s.tasks[i], h) && Writes(s.tasks[j], h)
    ensures j !in s.finished
  {
    assert Touches(s.tasks[j], h);
    assert Conflict(s.tasks[i], s.tasks[j]);
    assert j in s.started ==> Ready(s, j);
  }

  lemma CommitStep<H(!new), V>(tasks: seq<Task<H, V>>, init: map<H, V>, i: nat, h: H)
    requires i < |tasks| && h in init && Writes(tasks[i], h)
    ensures var w := LastWriter(tasks[i].accesses, h);
            && w >= 0
            && Sequential(tasks[..i + 1], init)[h] == tasks[i].body(View(tasks[i], Sequential(tasks[..i], init)), w)
  {
    assert tasks[..i + 1][..i] == tasks[..i];
  }

  lemma FinishWritten<H(!new), V>(s: State<H, V>, init: map<H, V>, i: nat, h: H, k: nat)
    requires Ordered(s) && ViewsSequential(s, init) && s.store.Keys == init.Keys
    requires Enabled(s, Finish(i)) && h in init && i < k <= |s.tasks|
    requires Writes(s.tasks[i], h)
    requires forall j :: 0 <= j < |s.tasks| && j != i && Writes(s.tasks[j], h) ==> (j in s.finished <==> j < k)
    ensures Step(s, Finish(i)).store[h] == Sequential(s.tasks[..k], init)[h]
  {
    forall j | i + 1 <= j < k
      ensures !Writes(s.tasks[j], h)
    {
      if Writes(s.tasks[j], h) {
        LaterWritersWait(s, i, j, h);
      }
    }
    FrameBetween(s.tasks, init, h, i + 1, k);
    CommitStep(s.tasks, init, i, h);
  }

  lemma FinishUntouched<H(!new), V>(s: State<H, V>, init: map<H, V>, i: nat, h: H, k: nat)
    requires StoreSequential(s, init) && Enabled(s, Finish(i)) && h in init && k <= |s.tasks|
    requires !Writes(s.tasks[i], h)
    requires forall j :: 0 <= j < |s.tasks| && j != i && Writes(s.tasks[j], h) ==> (j in s.finished <==> j < k)
    ensures Step(s, Finish(i)).store[h] == Sequential(s.tasks[..k], init)[h]
  {
    assert LastWriter(s.tasks[i].accesses, h) < 0;
    assert WrittenUpTo(s, h, k);
  }

  lemma FinishWrites<H(!new), V>(s: State<H, V>, init: map<H, V>, i: nat, h: H, k: nat)
    requires Inv(s, init) && Enabled(s, Finish(i)) && h in init && k <= |s.tasks|
    requires WrittenUpTo(Step(s, Finish(i)), h, k)
    ensures Step(s, Finish(i)).store[h] == Sequential(s.tasks[..k], init)[h]
  {
    var s' := Step(s, Finish(i));
    assert forall j | 0 <= j < |s.tasks| && Writes(s'.tasks[j], h) :: j in s'.finished <==> j < k;
    if Writes(s.tasks[i], h) {
      FinishWritten(s, init, i, h, k);
    } else {
      FinishUntouched(s, init, i, h, k);
    }
  }

  lemma FinishKeepsInv<H(!new), V>(s: State<H, V>, init: map<H, V>, i: nat)
    requires Inv(s, init) && Enabled(s, Finish(i))
    ensures Inv(Step(s, Finish(i)), init)
  {
    var s' := Step(s, Finish(i));
    forall h, k: nat | h in init && k <= |s'.tasks| && WrittenUpTo(s', h, k)
      ensures s'.store[h] == Sequential(s'.tasks[..k], init)[h]
    {
      FinishWrites(s, init, i, h, k);
    }
    assert forall j | j in s'.started :: Ready(s, j) && Ready(s', j);
  }

  lemma SubmitKeepsStore<H(!new), V>(s: State<H, V>, init: map<H, V>, t: Task<H, V>, h: H, k: nat)
    requires Inv(s, init) && h in init && k <= |s.tasks| + 1
    requires WrittenUpTo(Step(s, Submit(t)), h, k)
    ensures s.store[h] == Sequential((s.tasks + [t])[..k], init)[h]
  {
    var n := |s.tasks|;
    var s' := Step(s, Submit(t));
    var k0 := if k <= n then k else n;
    assert forall j | 0 <= j < n :: s'.tasks[j] == s.tasks[j];
    assert WrittenUpTo(s, h, k0);
    assert s'.tasks[..k0] == s.tasks[..k0];
    if k > n {
      assert n !in s.finished;
      FrameBetween(s'.tasks, init, h, n, k);
    }
  }

  lemma SubmitKeepsInv<H(!new), V>(s: State<H, V>, init: map<H, V>, t: Task<H, V>)
    requires Inv(s, init)
    ensures Inv(Step(s, Submit(t)), init)
  {
    var s' := Step(s, Submit(t));
    forall h, k: nat | h in init && k <= |s'.tasks| && WrittenUpTo(s', h, k)
      ensures s'.store[h] == Sequential(s'.tasks[..k], init)[h]
    {
      SubmitKeepsStore(s, init, t, h, k);
    }
    forall i | i in s'.started
      ensures Ready(s', i) && s'.views[i] == View(s'.tasks[i], Sequential(s'.tasks[..i], init))
    {
      assert Ready(s, i);
      assert s'.tasks[..i] == s.tasks[..i];
    }
  }

  lemma StepKeepsInv<H(!new), V>(s: State<H, V>, init: map<H, V>, e: Event<H, V>)
    requires Inv(s, init) && Enabled(s, e)
    ensures Inv(Step(s, e), init)
  {
    match e
    case Submit(t) => SubmitKeepsInv(s, init, t);
    case Start(i) => StartKeepsInv(s, init, i);
    case Finish(i) => FinishKeepsInv(s, init, i);
  }

  lemma {:induction false} ExecKeepsInv<H(!new), V>(s: State<H, V>, init: map<H, V>, es: seq<Event<H, V>>)
    requires Inv(s, init) && Exec(s, es).Some?
    ensures Inv(Exec(s, es).value, init)
    decreases |es|
  {
    if es != [] {
      StepKeepsInv(s, init, es[0]);
      ExecKeepsInv(Step(s, es[0]), init, es[1..]);
    }
  }

  /** In every reachable state, a handle whose submitted writers have all finished
      holds what running every submission in order would leave there. */
  lemma SettledHandleIsSequential<H(!new), V>(init: map<H, V>, es: seq<Event<H, V>>, h: H)
    requires Exec(Initial(init), es).Some? && h in init
    requires var s := Exec(Initial(init), es).value;
             forall j :: 0 <= j < |s.tasks| && Writes(s.tasks[j], h) ==> j in s.finished
    ensures var s := Exec(Initial(init), es).value;
            h in s.store && s.store[h] == Sequential(s.tasks, init)[h]
  {
    InitialInv(init);
    ExecKeepsInv(Initial(init), init, es);
    var s := Exec(Initial(init), es).value;
    assert WrittenUpTo(s, h, |s.tasks|);
    assert s.tasks[..|s.tasks|] == s.tasks;
  }

  lemma InitialInv<H(!new), V>(init: map<H, V>)
    ensures Inv(Initial(init), init)
  {
  }

  /** Schedule independence: however submissions, starts and finishes interleave,
      a drained run leaves every handle as the sequential run does. */
  lemma DrainedRunIsSequential<H(!new), V>(init: map<H, V>, es: seq<Event<H, V>>)
    requires Exec(Initial(init), es).Some? && Drained(Exec(Initial(init), es).value)
    ensures var s := Exec(Initial(init), es).value;
            s.store == Sequential(s.tasks, init)
  {
    InitialInv(init);
    ExecKeepsInv(Initial(init), init, es);
    var s := Exec(Initial(init), es).value;
    forall h | h in init
      ensures s.store[h] == Sequential(s.tasks, init)[h]
    {
      SettledHandleIsSequential(init, es, h);
    }
  }

  /** No run gets stuck: while a submission is unfinished, the first unfinished one
      can be started or finished. */
  lemma NoDeadlock<H(!new), V>(s: State<H, V>)
    requires Ordered(s) && !Drained(s)
    ensures exists i: nat ::
              && i < |s.tasks| && i !in s.finished && (forall j :: 0 <= j < i ==> j in s.finished)
              && (Enabled(s, Start(i)) || Enabled(s, Finish(i)))
  {
    var n := |s.tasks|;
    var i := 0;
    while i < n && i in s.finished
      invariant 0 <= i <= n
      invariant forall j :: 0 <= j < i ==> j in s.finished
    {
      i := i + 1;
    }
    assert i < n;
    assert Ready(s, i);
    assert Enabled(s, Start(i)) || Enabled(s, Finish(i));
  }

  /** What the runtime keeps apart: two tasks one of which writes a handle the other uses. Tasks
      that only read the same handles are free. */
  ghost predicate Apart<H(!new), V>(a: Task<H, V>, b: Task<H, V>) {
    forall h :: (Writes(a, h) ==> !Touches(b, h)) && (Writes(b, h) ==> !Touches(a, h))
  }

  /** A submission can start exactly when it has not and every unfinished earlier one neither
      writes a handle it uses nor uses a handle it writes. */
  lemma StartsIffApart<H(!new), V>(s: State<H, V>, i: nat)
    requires i < |s.tasks|
    ensures Enabled(s, Start(i)) <==>
            i !in s.started && forall j :: 0 <= j < i && j !in s.finished ==> Apart(s.tasks[j], s.tasks[i])
  {
    forall j | 0 <= j < i
      ensures Conflict(s.tasks[j], s.tasks[i]) <==> !Apart(s.tasks[j], s.tasks[i])
    {
    }
  }

  /** Readers of a handle overlap freely: with no writer of anything they share, any number of
      them can be started one after another before any finishes. */
  lemma ReadersOverlap<H(!new), V>(s: State<H, V>, i: nat, j: nat)
    requires i < |s.tasks| && j < |s.tasks| && i != j && Enabled(s, Start(i)) && Enabled(s, Start(j))
    ensures Enabled(Step(s, Start(i)), Start(j))
  {
    assert Ready(s, j) && Ready(Step(s, Start(i)), j);
  }

  // ---------- one task at a time, in any order ----------

  ghost predicate Schedule<H(!new), V>(tasks: seq<Task<H, V>>, order: seq<nat>) {
    && (forall p :: 0 <= p < |order| ==> order[p] < |tasks|)
    && (forall p, q :: 0 <= p < q < |order| ==> order[p] != order[q])
    && (forall i :: 0 <= i < |tasks| ==> i in order)
    && (forall p, q | 0 <= p < |order| && 0 <= q < |order| && order[p] < order[q] ::
          Conflict(tasks[order[p]], tasks[order[q]]) ==> p < q)
  }

  ghost function RunOrder<H, V>(tasks: seq<Task<H, V>>, order: seq<nat>, st: map<H, V>): map<H, V>
    requires forall p :: 0 <= p < |order| ==> order[p] < |tasks|
  {
    if order == [] then st
    else Apply(tasks[order[|order| - 1]], RunOrder(tasks, order[..|order| - 1], st))
  }

  ghost predicate RanPrefix<H, V>(s: State<H, V>, tasks: seq<Task<H, V>>, order: seq<nat>, n: nat, init: map<H, V>)
    requires n <= |order| && forall p :: 0 <= p < |order| ==> order[p] < |tasks|
  {
    && s.tasks == tasks
    && s.started == s.finished
    && (forall i: nat :: i in s.finished <==> i in order[..n])
    && s.store == RunOrder(tasks, order[..n], init)
  }

  lemma FreshInv<H(!new), V>(tasks: seq<Task<H, V>>, init: map<H, V>)
    ensures Inv(State(tasks, {}, {}, map[], init), init)
  {
    var s := State(tasks, {}, {}, map[], init);
    forall h, k: nat | h in init && k <= |tasks| && WrittenUpTo(s, h, k)
      ensures s.store[h] == Sequential(tasks[..k], init)[h]
    {
      FrameBetween(tasks, init, h, 0, k);
    }
  }

  lemma RunWhole<H(!new), V>(s: State<H, V>, init: map<H, V>, i: nat) returns (s': State<H, V>)
    requires Inv(s, init) && Enabled(s, Start(i))
    ensures Inv(s', init)
    ensures s'.tasks == s.tasks && s'.started == s.started + {i} && s'.finished == s.finished + {i}
    ensures s'.store == Apply(s.tasks[i], s.store)
    ensures Exec(s, [Start(i), Finish(i)]) == Some(s')
  {
    var s1 := Step(s, Start(i));
    StepKeepsInv(s, init, Start(i));
    StepKeepsInv(s1, init, Finish(i));
    s' := Step(s1, Finish(i));
    var es: seq<Event<H, V>> := [Start(i), Finish(i)];
    var last: seq<Event<H, V>> := [Finish(i)];
    assert es[1..] == last && last[1..] == [];
    assert Exec(s1, last) == Exec(s', last[1..]);
  }

  lemma ScheduleReady<H(!new), V>(s: State<H, V>, tasks: seq<Task<H, V>>, order: seq<nat>, n: nat, init: map<H, V>)
    requires Schedule(tasks, order) && n < |order| && RanPrefix(s, tasks, order, n, init)
    ensures Enabled(s, Start(order[n]))
  {
    var i := order[n];
    forall j | 0 <= j < i && Conflict(tasks[j], tasks[i])
      ensures j in s.finished
    {
      assert j in order;
      var p :| 0 <= p < |order| && order[p] == j;
      assert order[p] < order[n];
      assert order[..n][p] == j;
    }
    assert i !in order[..n];
  }

  lemma RunOrderSnoc<H, V>(tasks: seq<Task<H, V>>, order: seq<nat>, n: nat, init: map<H, V>)
    requires n < |order| && forall p :: 0 <= p < |order| ==> order[p] < |tasks|
    ensures RunOrder(tasks, order[..n + 1], init) == Apply(tasks[order[n]], RunOrder(tasks, order[..n], init))
    ensures forall i: nat :: i in order[..n + 1] <==> i == order[n] || i in order[..n]
  {
    assert order[..n + 1] == order[..n] + [order[n]];
    assert order[..n + 1][..n] == order[..n];
  }

  lemma RunNext<H(!new), V>(tasks: seq<Task<H, V>>, order: seq<nat>, n: nat, init: map<H, V>, s0: State<H, V>)
      returns (s: State<H, V>)
    requires Schedule(tasks, order) && n < |order| && Inv(s0, init) && RanPrefix(s0, tasks, order, n, init)
    ensures Inv(s, init) && RanPrefix(s, tasks, order, n + 1, init)
  {
    ScheduleReady(s0, tasks, order, n, init);
    s := RunWhole(s0, init, order[n]);
    RunOrderSnoc(tasks, order, n, init);
  }

  lemma {:induction false} RunOrderReachable<H(!new), V>(
      tasks: seq<Task<H, V>>, order: seq<nat>, n: nat, init: map<H, V>) returns (s: State<H, V>)
    requires Schedule(tasks, order) && n <= |order|
    ensures Inv(s, init) && RanPrefix(s, tasks, order, n, init)
  {
    if n == 0 {
      s := State(tasks, {}, {}, map[], init);
      FreshInv(tasks, init);
    } else {
      var k := n - 1;
      var s0 := RunOrderReachable(tasks, order, k, init);
      s := RunNext(tasks, order, k, init, s0);
    }
  }

  /** When everything has run, in whatever order, the store is the sequential run's. */
  lemma AllRanIsSequential<H(!new), V>(s: State<H, V>, init: map<H, V>)
    requires Inv(s, init) && Drained(s)
    ensures s.store == Sequential(s.tasks, init)
  {
    assert s.tasks[..|s.tasks|] == s.tasks;
    forall h | h in init
      ensures s.store[h] == Sequential(s.tasks, init)[h]
    {
      assert WrittenUpTo(s, h, |s.tasks|);
    }
  }

  /** Any total order of whole tasks that keeps submission order between conflicting
      tasks ends in the store of the submission order itself. */
  lemma ScheduleIndependence<H(!new), V>(tasks: seq<Task<H, V>>, order: seq<nat>, init: map<H, V>)
    requires Schedule(tasks, order)
    ensures RunOrder(tasks, order, init) == Sequential(tasks, init)
  {
    var s := RunOrderReachable(tasks, order, |order|, init);
    assert order[..|order|] == order;
    AllRanIsSequential(s, init);
  }
}
