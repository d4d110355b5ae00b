/** When is one task's completion a promise about others?

    A frontend task that expands into several submissions is represented by its last
    one. That is right for exactly those submissions from which a chain of handle
    conflicts leads to the last one.
 */
module CompletionToken {
  import opened Options
  import opened Runtime

  /** A chain of edges, each pointing forward, leads from i to j. */
  ghost predicate Chain(edge: (nat, nat) -> bool, i: nat, j: nat)
    decreases j - i
  {
    i == j || exists k: nat {:trigger Chain(edge, k, j)} :: i < k <= j && edge(i, k) && Chain(edge, k, j)
  }

  ghost function Conflicts<H(!new), V>(tasks: seq<Task<H, V>>): (nat, nat) -> bool {
    (i: nat, k: nat) => i < |tasks| && k < |tasks| && Conflict(tasks[i], tasks[k])
  }

  /** A chain of conflicts, each pointing forward in submission order, leads from i to j. */
  ghost predicate Reaches<H(!new), V>(tasks: seq<Task<H, V>>, i: nat, j: nat) {
    Chain(Conflicts(tasks), i, j)
  }

  lemma {:induction false} FinishedFollowsChain<H(!new), V>(s: State<H, V>, i: nat, j: nat)
    requires Ordered(s) && j < |s.tasks| && j in s.finished && Reaches(s.tasks, i, j)
    ensures i in s.finished
    decreases j - i
  {
    if i != j {
      var k: nat :| i < k <= j && Conflicts(s.tasks)(i, k) && Chain(Conflicts(s.tasks), k, j);
      FinishedFollowsChain(s, k, j);
      assert Ready(s, k);
    }
  }

  lemma {:induction false} ExecConcat<H(!new), V>(s: State<H, V>, es: seq<Event<H, V>>, fs: seq<Event<H, V>>)
    requires Exec(s, es).Some?
    ensures Exec(s, es + fs) == Exec(Exec(s, es).value, fs)
    decreases |es|
  {
    if es == [] {
      assert es + fs == fs;
    } else {
      assert (es + fs)[1..] == es[1..] + fs;
      ExecConcat(Step(s, es[0]), es[1..], fs);
    }
  }

  ghost function Fresh<H, V>(tasks: seq<Task<H, V>>, init: map<H, V>): State<H, V> {
    State(tasks, {}, {}, map[], init)
  }

  lemma {:induction false} SubmitAll<H(!new), V>(tasks: seq<Task<H, V>>, init: map<H, V>, n: nat)
      returns (es: seq<Event<H, V>>)
    requires n <= |tasks|
    ensures Exec(Initial(init), es) == Some(Fresh(tasks[..n], init))
  {
    if n == 0 {
      es := [];
    } else {
      var es0 := SubmitAll(tasks, init, n - 1);
      var e: seq<Event<H, V>> := [Submit(tasks[n - 1])];
      ExecConcat(Initial(init), es0, e);
      var s := Fresh(tasks[..n - 1], init);
      assert Exec(Step(s, e[0]), e[1..]) == Some(Step(s, e[0]));
      assert tasks[..n] == tasks[..n - 1] + [tasks[n - 1]];
      es := es0 + e;
    }
  }

  lemma ChainedReady<H(!new), V>(s: State<H, V>, token: nat, k: nat)
    requires k <= token < |s.tasks| && Reaches(s.tasks, k, token) && s.started == s.finished
    requires forall i: nat :: i in s.finished <==> i < k && Reaches(s.tasks, i, token)
    ensures Enabled(s, Start(k))
  {
    forall j | 0 <= j < k && Conflict(s.tasks[j], s.tasks[k])
      ensures j in s.finished
    {
      assert Conflicts(s.tasks)(j, k);
      assert Reaches(s.tasks, j, token);
    }
  }

  /** Running, in order, only the tasks below n that reach the token is a legal run. */
  lemma {:induction false} RunChained<H(!new), V>(tasks: seq<Task<H, V>>, init: map<H, V>, token: nat, n: nat)
      returns (es: seq<Event<H, V>>, s: State<H, V>)
    requires n <= token + 1 <= |tasks|
    ensures Exec(Fresh(tasks, init), es) == Some(s) && Inv(s, init)
    ensures s.tasks == tasks && s.started == s.finished
    ensures forall i: nat :: i in s.finished <==> i < n && Reaches(tasks, i, token)
  {
    if n == 0 {
      es, s := [], Fresh(tasks, init);
      FreshInv(tasks, init);
    } else {
      var k := n - 1;
      var es0, s0 := RunChained(tasks, init, token, k);
      if Reaches(tasks, k, token) {
        ChainedReady(s0, token, k);
        s := RunWhole(s0, init, k);
        es := es0 + [Start(k), Finish(k)];
        ExecConcat(Fresh(tasks, init), es0, [Start(k), Finish(k)]);
      } else {
        es, s := es0, s0;
      }
    }
  }

  /** A run in which the token has finished and a task off every chain has not. */
  lemma UnchainedTaskMayLag<H(!new), V>(tasks: seq<Task<H, V>>, init: map<H, V>, i: nat, token: nat)
      returns (es: seq<Event<H, V>>)
    requires i <= token < |tasks| && !Reaches(tasks, i, token)
    ensures Exec(Initial(init), es).Some?
    ensures var s := Exec(Initial(init), es).value;
            s.tasks == tasks && token in s.finished && i !in s.started
  {
    var submits := SubmitAll(tasks, init, |tasks|);
    assert tasks[..|tasks|] == tasks;
    var runs, s := RunChained(tasks, init, token, token + 1);
    ExecConcat(Initial(init), submits, runs);
    es := submits + runs;
  }

  ghost predicate TokenCovers<H(!new), V(!new)>(tasks: seq<Task<H, V>>, init: map<H, V>, i: nat, token: nat) {
    forall es :: Exec(Initial(init), es).Some? ==>
      var s := Exec(Initial(init), es).value;
      s.tasks == tasks && token in s.finished ==> i in s.finished
  }

  /** In every run the token's completion implies task i's completion, exactly when a
      chain of conflicts leads from i to the token. */
  lemma TokenCoversIffChained<H(!new), V(!new)>(tasks: seq<Task<H, V>>, init: map<H, V>, i: nat, token: nat)
    requires i <= token < |tasks|
    ensures TokenCovers(tasks, init, i, token) <==> Reaches(tasks, i, token)
  {
    if Reaches(tasks, i, token) {
      forall es | Exec(Initial(init), es).Some?
        ensures var s := Exec(Initial(init), es).value;
                s.tasks == tasks && token in s.finished ==> i in s.finished
      {
        InitialInv(init);
        ExecKeepsInv(Initial(init), init, es);
        var s := Exec(Initial(init), es).value;
        if s.tasks == tasks && token in s.finished {
          FinishedFollowsChain(s, i, token);
        }
      }
    } else {
      var es := UnchainedTaskMayLag(tasks, init, i, token);
      InitialInv(init);
      ExecKeepsInv(Initial(init), init, es);
    }
  }
}
