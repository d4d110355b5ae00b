/** The asynchronous KVSP backend: what its API calls do to its own state.

    Tasks are executed by the runtime (see BackendRuns); this module is the code
    around it: handle registries, the evaluation key, captures, submissions with their
    heap-held completion states, the completion callback and shutdown.
 */
module Backend {
  import opened Options
  import opened Runtime

  type Thread = nat

  type KeyId = nat

  type Handle = nat

  /** A value the frontend passes by reference. TLWE vectors and TRLWE/TRGSW variables
      are registered in two separate tables. */
  datatype Address = Tlwe(at: nat) | Variable(at: nat)

  datatype IyokanGate = GateAnd | GateNand | GateAndNot | GateOr | GateNor | GateOrNot | GateXor | GateXnor

  datatype Call =
    | BinaryCall(gate: IyokanGate, output: Address, left: Address, right: Address, key: KeyId)
    | NotCall(output: Address, input: Address)
    | MuxCall(output: Address, select: Address, whenTrue: Address, whenFalse: Address, key: KeyId)
    | CmuxCall(output: Address, select: Address, whenTrue: Address, whenFalse: Address)
    | MuxWoSECall(output: Address, select: Address, whenTrue: Address, whenFalse: Address, key: KeyId)

  function KeyOf(call: Call): Option<KeyId> {
    match call
    case BinaryCall(_, _, _, _, k) => Some(k)
    case NotCall(_, _) => None
    case MuxCall(_, _, _, _, k) => Some(k)
    case CmuxCall(_, _, _, _) => None
    case MuxWoSECall(_, _, _, _, k) => Some(k)
  }

  datatype Codelet =
    | BinaryCodelet(gate: IyokanGate) | NotCodelet | MuxCodelet | MuxWoSECodelet
    | CmuxCodelet | CmuxInPlaceTrueCodelet | CmuxInPlaceFalseCodelet

  /** Which codelet a call submits: the CMUX has two in-place variants. */
  function CodeletOf(call: Call): Codelet {
    match call
    case BinaryCall(g, _, _, _, _) => BinaryCodelet(g)
    case NotCall(_, _) => NotCodelet
    case MuxCall(_, _, _, _, _) => MuxCodelet
    case MuxWoSECall(_, _, _, _, _) => MuxWoSECodelet
    case CmuxCall(out, _, t, f) =>
      if out == t then CmuxInPlaceTrueCodelet else if out == f then CmuxInPlaceFalseCodelet else CmuxCodelet
  }

  /** The buffers of the submission, in order, with their access modes. */
  function Buffers(call: Call): seq<Access<Address>> {
    match call
    case BinaryCall(_, out, l, r, _) => [Access(out, W), Access(l, R), Access(r, R)]
    case NotCall(out, i) => [Access(out, W), Access(i, R)]
    case MuxCall(out, s, t, f, _) => [Access(out, W), Access(s, R), Access(t, R), Access(f, R)]
    case MuxWoSECall(out, s, t, f, _) => [Access(out, W), Access(s, R), Access(t, R), Access(f, R)]
    case CmuxCall(out, s, t, f) =>
      if out == t then [Access(out, RW), Access(s, R), Access(f, R)]
      else if out == f then [Access(out, RW), Access(s, R), Access(t, R)]
      else [Access(out, W), Access(s, R), Access(t, R), Access(f, R)]
  }

  datatype Submission = Submission(call: Call, handles: seq<Handle>, ref: nat, thread: Thread)

  /** An open capture: the task it would return, and how many submissions preceded it. */
  datatype Capture = Capture(last: Option<nat>, since: nat)

  datatype Api = Api(
    running: bool,
    stopped: bool,
    key: Option<KeyId>,
    tlwe: map<nat, Handle>,
    variables: map<nat, Handle>,
    addresses: seq<Address>,          // the runtime's record of each handle's address
    captures: map<Thread, Capture>,
    blocked: map<Thread, nat>,        // threads polling a task
    tasks: seq<Submission>,
    notified: set<nat>,               // tasks whose state reads finished
    nextRef: nat,
    live: set<nat>,                   // heap references not yet deleted
    frees: multiset<nat>,             // every delete so far
    released: multiset<Handle>)       // every unregister so far

  const Idle: Api := Api(false, false, None, map[], map[], [], map[], map[], [], {}, 0, {}, multiset{}, multiset{})

  // ---------- specification of the steps ----------

  function Find(tlwe: map<nat, Handle>, variables: map<nat, Handle>, a: Address): Option<Handle> {
    match a
    case Tlwe(p) => if p in tlwe then Some(tlwe[p]) else None
    case Variable(p) => if p in variables then Some(variables[p]) else None
  }

  function Lookup(s: Api, a: Address): Option<Handle> { Find(s.tlwe, s.variables, a) }

  function Registered(s: Api, a: Address): (r: Api)
    ensures Lookup(r, a).Some?
  {
    if Lookup(s, a).Some? then s
    else
      var h := |s.addresses|;
      match a
      case Tlwe(p) => s.(tlwe := s.tlwe[p := h], addresses := s.addresses + [a])
      case Variable(p) => s.(variables := s.variables[p := h], addresses := s.addresses + [a])
  }

  function RegisteredAll(s: Api, buffers: seq<Access<Address>>): Api {
    if buffers == [] then s
    else Registered(RegisteredAll(s, buffers[..|buffers| - 1]), buffers[|buffers| - 1].handle)
  }

  function HandlesAt(s: Api, buffers: seq<Access<Address>>): seq<Handle> {
    seq(|buffers|, i requires 0 <= i < |buffers| =>
      var h := Lookup(s, buffers[i].handle);
      if h.Some? then h.value else 0)
  }

  /** The key check of a keyed call: None where the call throws. */
  function WithKey(s: Api, key: Option<KeyId>): Option<Api> {
    if key.None? || s.key == key then Some(s)
    else if s.key.None? then Some(s.(key := key))
    else None
  }

  function Begun(s: Api, t: Thread): Api {
    if t in s.captures then s else s.(captures := s.captures[t := Capture(None, |s.tasks|)])
  }

  function Ended(s: Api, t: Thread): Api {
    s.(captures := s.captures - {t})
  }

  function Recorded(s: Api, t: Thread, sub: Submission): Api {
    var i, tasks := |s.tasks|, s.tasks + [sub];
    if t in s.captures then s.(tasks := tasks, captures := s.captures[t := s.captures[t].(last := Some(i))])
    else s.(tasks := tasks, blocked := s.blocked[t := i])
  }

  /** After registration: allocate the completion state and insert the task. */
  function Inserted(s: Api, t: Thread, call: Call, accepted: bool): Api {
    var r := s.nextRef;
    if !accepted then s.(nextRef := r + 1, frees := s.frees + multiset{r})
    else
      var sub := Submission(call, HandlesAt(s, Buffers(call)), r, t);
      Recorded(s.(nextRef := r + 1, live := s.live + {r}), t, sub)
  }

  /** Runtime started, key checked, buffers registered. */
  function Prepared(s: Api, call: Call): Option<Api> {
    var keyed := WithKey(s.(running := true), KeyOf(call));
    if keyed.None? then None else Some(RegisteredAll(keyed.value, Buffers(call)))
  }

  /** A gate call by thread t; `accepted` is the runtime's answer to the insertion. */
  function Called(s: Api, t: Thread, call: Call, accepted: bool): Api {
    var ready := Prepared(s, call);
    if ready.None? then s.(running := true) else Inserted(ready.value, t, call, accepted)
  }

  function Awaited(s: Api, t: Thread): Api {
    if t in s.captures && s.captures[t].last.Some? then s.(blocked := s.blocked[t := s.captures[t].last.value]) else s
  }

  function Resumed(s: Api, t: Thread): Api {
    s.(blocked := s.blocked - {t})
  }

  /** The completion callback of task i. */
  function Notified(s: Api, i: nat): Api
    requires i < |s.tasks|
  {
    s.(notified := s.notified + {i}, live := s.live - {s.tasks[i].ref}, frees := s.frees + multiset{s.tasks[i].ref})
  }

  /** How often the two clean-up loops unregister each handle. */
  ghost function Releases(table: map<nat, Handle>, keys: set<nat>): multiset<Handle>
    requires keys <= table.Keys
  {
    if keys == {} then multiset{}
    else
      var a :| a in keys;
      Releases(table, keys - {a}) + multiset{table[a]}
  }

  ghost function AllReleased(s: Api): multiset<Handle> {
    s.released + Releases(s.tlwe, s.tlwe.Keys) + Releases(s.variables, s.variables.Keys)
  }

  function Cleared(s: Api, released: multiset<Handle>): Api {
    s.(running := false, stopped := true, key := None, tlwe := map[], variables := map[], released := released)
  }

  ghost function ShutDown(s: Api): Api {
    if !s.running then s
    else Cleared(s, AllReleased(s))
  }

  lemma ReleasesStep(table: map<nat, Handle>, keys: set<nat>, a: nat)
    requires keys <= table.Keys && a in keys
    ensures Releases(table, keys) == Releases(table, keys - {a}) + multiset{table[a]}
    decreases keys
  {
    var b :| b in keys && Releases(table, keys) == Releases(table, keys - {b}) + multiset{table[b]};
    if a != b {
      ReleasesStep(table, keys - {b}, a);
      ReleasesStep(table, keys - {a}, b);
      assert keys - {b} - {a} == keys - {a} - {b};
    }
  }

  // ---------- the program ----------

  class Controller {
    var running: bool
    var stopped: bool
    var key: Option<KeyId>
    var tlwe: map<nat, Handle>
    var variables: map<nat, Handle>
    var addresses: seq<Address>
    var captures: map<Thread, Capture>
    var blocked: map<Thread, nat>
    var tasks: seq<Submission>
    var notified: set<nat>
    var nextRef: nat
    var live: set<nat>
    var frees: multiset<nat>
    var released: multiset<Handle>

    function Value(): Api
      reads this
    {
      Api(running, stopped, key, tlwe, variables, addresses, captures, blocked, tasks, notified, nextRef, live, frees, released)
    }

    ghost predicate Valid()
      reads this
    {
      forall r :: r in live ==> r < nextRef
    }

    constructor ()
      ensures Valid() && Value() == Idle
    {
      running, stopped, key := false, false, None;
      tlwe, variables, addresses := map[], map[], [];
      captures, blocked := map[], map[];
      tasks, notified := [], {};
      nextRef, live, frees, released := 0, {}, multiset{}, multiset{};
    }

    method HandleFor(a: Address) returns (h: Handle)
      modifies this`tlwe, this`variables, this`addresses
      ensures Value() == Registered(old(Value()), a)
      ensures Lookup(Value(), a) == Some(h)
      ensures old(Lookup(Value(), a)).Some? ==> addresses == old(addresses) && old(Lookup(Value(), a)) == Some(h)
      ensures old(Lookup(Value(), a)).None? ==> addresses == old(addresses) + [a] && h == old(|addresses|)
    {
      match a {
        case Tlwe(p) =>
          if p in tlwe {
            return tlwe[p];
          }
          h := |addresses|;
          tlwe := tlwe[p := h];
        case Variable(p) =>
          if p in variables {
            return variables[p];
          }
          h := |addresses|;
          variables := variables[p := h];
      }
      addresses := addresses + [a];
    }

    method EnsureKey(k: KeyId) returns (ok: bool)
      modifies this`key
      ensures ok ==> WithKey(old(Value()), Some(k)) == Some(Value())
      ensures !ok ==> WithKey(old(Value()), Some(k)).None? && Value() == old(Value())
      ensures ok <==> old(key).None? || old(key) == Some(k)
      ensures key == if old(key).None? then Some(k) else old(key)
    {
      if key.None? {
        key := Some(k);
      } else if key != Some(k) {
        return false;
      }
      return true;
    }

    /** The runtime is started, and then the key of a keyed call is checked. */
    method EnsureStarpu(k: Option<KeyId>) returns (ok: bool)
      modifies this`running, this`key
      ensures ok ==> WithKey(old(Value()).(running := true), k) == Some(Value())
      ensures !ok ==> WithKey(old(Value()).(running := true), k).None? && Value() == old(Value()).(running := true)
      ensures ok <==> k.None? || old(key).None? || old(key) == k
      ensures ok && k.Some? ==> key == k
    {
      running := true;
      ok := true;
      if k.Some? {
        ok := EnsureKey(k.value);
      }
    }

    method BeginCapture(t: Thread) returns (ok: bool)
      modifies this`captures
      ensures Value() == Begun(old(Value()), t)
      ensures ok <==> t !in old(captures)
      ensures t in captures && (ok ==> captures[t].last.None?)
      ensures forall u :: u != t ==> (u in captures <==> u in old(captures))
      ensures forall u :: u in old(captures) ==> captures[u] == old(captures[u])
    {
      if t in captures {
        return false;
      }
      captures := captures[t := Capture(None, |tasks|)];
      return true;
    }

    /** The token is the last submission of the capture, if there was one. */
    method EndCapture(t: Thread) returns (ok: bool, token: Option<nat>)
      modifies this`captures
      ensures Value() == Ended(old(Value()), t)
      ensures ok <==> t in old(captures)
      ensures token == if ok then old(captures[t].last) else None
      ensures t !in captures && forall u :: u in old(captures) && u != t ==> u in captures && captures[u] == old(captures[u])
    {
      if t !in captures {
        return false, None;
      }
      token := captures[t].last;
      captures := captures - {t};
      return true, token;
    }

    method AwaitCapture(t: Thread) returns (ok: bool)
      modifies this`blocked
      ensures Value() == Awaited(old(Value()), t)
      ensures ok <==> t in captures
      ensures ok && captures[t].last.Some? ==> t in blocked && Some(blocked[t]) == captures[t].last
      ensures forall u :: u != t && u in old(blocked) ==> u in blocked && blocked[u] == old(blocked[u])
    {
      if t !in captures {
        return false;
      }
      if captures[t].last.Some? {
        blocked := blocked[t := captures[t].last.value];
      }
      return true;
    }

    method RegisterBuffers(buffers: seq<Access<Address>>) returns (handles: seq<Handle>)
      modifies this`tlwe, this`variables, this`addresses
      ensures Value() == RegisteredAll(old(Value()), buffers)
      ensures handles == HandlesAt(Value(), buffers)
    {
      handles := [];
      for i := 0 to |buffers|
        invariant Value() == RegisteredAll(old(Value()), buffers[..i])
        invariant handles == HandlesAt(Value(), buffers[..i])
        invariant forall k :: 0 <= k < i ==> Lookup(Value(), buffers[k].handle).Some?
      {
        RegisteredNext(old(Value()), buffers, i);
        var h := HandleFor(buffers[i].handle);
        handles := handles + [h];
      }
      assert buffers[..|buffers|] == buffers;
    }

    /** An accepted task goes to the open capture of its thread, or its thread waits for it. */
    method Record(t: Thread, sub: Submission)
      modifies this`tasks, this`captures, this`blocked
      ensures Value() == Recorded(old(Value()), t, sub)
      ensures |tasks| == old(|tasks|) + 1 && tasks[old(|tasks|)] == sub
      ensures t in old(captures) ==> t in captures && captures[t].last == Some(old(|tasks|)) && blocked == old(blocked)
      ensures t !in old(captures) ==> t in blocked && blocked[t] == old(|tasks|) && captures == old(captures)
    {
      var i := |tasks|;
      tasks := tasks + [sub];
      if t in captures {
        captures := captures[t := captures[t].(last := Some(i))];
      } else {
        blocked := blocked[t := i];
      }
    }

    /** Hold the completion state on the heap and insert the task; give the heap reference
        back if the insertion fails. */
    method Insert(t: Thread, call: Call, handles: seq<Handle>, accepted: bool) returns (ok: bool)
      requires Valid() && handles == HandlesAt(Value(), Buffers(call))
      modifies this`nextRef, this`live, this`frees, this`tasks, this`captures, this`blocked
      ensures Valid() && Value() == Inserted(old(Value()), t, call, accepted)
      ensures ok == accepted
      ensures live == if ok then old(live) + {old(nextRef)} else old(live)
      ensures frees == if ok then old(frees) else old(frees) + multiset{old(nextRef)}
      ensures |tasks| == old(|tasks|) + if ok then 1 else 0
    {
      var r := nextRef;
      nextRef, live := nextRef + 1, live + {r};
      if !accepted {
        live, frees := live - {r}, frees + multiset{r};
        assert live == old(live);
        return false;
      }
      Record(t, Submission(call, handles, r, t));
      return true;
    }

    method Submit(t: Thread, call: Call, accepted: bool) returns (ok: bool)
      requires Valid()
      modifies this`tlwe, this`variables, this`addresses, this`nextRef, this`live, this`frees, this`tasks, this`captures, this`blocked
      ensures Valid() && Value() == Inserted(RegisteredAll(old(Value()), Buffers(call)), t, call, accepted)
      ensures ok == accepted
      ensures |tasks| == old(|tasks|) + if ok then 1 else 0
    {
      var handles := RegisterBuffers(Buffers(call));
      ok := Insert(t, call, handles, accepted);
    }

    /** A gate, MUX or CMUX call: key check, submission, then capture or wait. */
    method Run(t: Thread, call: Call, accepted: bool) returns (ok: bool)
      requires Valid()
      modifies this
      ensures Valid() && Value() == Called(old(Value()), t, call, accepted)
      ensures ok <==> accepted && (KeyOf(call).None? || old(key).None? || old(key) == KeyOf(call))
      ensures running && |tasks| == old(|tasks|) + if ok then 1 else 0
      ensures ok && KeyOf(call).Some? ==> key == KeyOf(call)
      ensures KeyOf(call).Some? && old(key).Some? && old(key) != KeyOf(call) ==> Value() == old(Value()).(running := true)
    {
      ok := EnsureStarpu(KeyOf(call));
      if !ok {
        return;
      }
      ok := Submit(t, call, accepted);
    }

    /** The runtime's completion callback. */
    method TaskCompleted(i: nat)
      requires Valid() && i < |tasks|
      modifies this`notified, this`live, this`frees
      ensures Valid() && Value() == Notified(old(Value()), i)
      ensures i in notified && tasks[i].ref !in live && frees[tasks[i].ref] == old(frees[tasks[i].ref]) + 1
    {
      notified := notified + {i};
      live, frees := live - {tasks[i].ref}, frees + multiset{tasks[i].ref};
    }

    method ReleaseTable(table: map<nat, Handle>)
      modifies this`released
      ensures released == old(released) + Releases(table, table.Keys)
    {
      var keys := table.Keys;
      while keys != {}
        invariant keys <= table.Keys
        invariant released + Releases(table, keys) == old(released) + Releases(table, table.Keys)
      {
        var a :| a in keys;
        ReleasesStep(table, keys, a);
        released := released + multiset{table[a]};
        keys := keys - {a};
      }
    }

    method Forget()
      modifies this`running, this`stopped, this`key, this`tlwe, this`variables
      ensures Value() == Cleared(old(Value()), released)
    {
      tlwe, variables := map[], map[];
      key := None;
      running, stopped := false, true;
    }

    method ReleaseAll()
      modifies this`released
      ensures released == AllReleased(old(Value()))
    {
      ReleaseTable(tlwe);
      ReleaseTable(variables);
    }

    method Shutdown()
      modifies this`running, this`stopped, this`key, this`tlwe, this`variables, this`released
      ensures Value() == ShutDown(old(Value()))
      ensures !running && (old(running) ==> tlwe == map[] && variables == map[] && key.None?)
    {
      if !running {
        return;
      }
      ReleaseAll();
      Forget();
    }
  }

  lemma RegisteredNext(s: Api, buffers: seq<Access<Address>>, i: nat)
    requires i < |buffers|
    requires forall k :: 0 <= k < i ==> Lookup(RegisteredAll(s, buffers[..i]), buffers[k].handle).Some?
    ensures var s' := RegisteredAll(s, buffers[..i + 1]);
            && s' == Registered(RegisteredAll(s, buffers[..i]), buffers[i].handle)
            && (forall k :: 0 <= k <= i ==> Lookup(s', buffers[k].handle).Some?)
            && HandlesAt(s', buffers[..i + 1])
               == HandlesAt(RegisteredAll(s, buffers[..i]), buffers[..i]) + [Lookup(s', buffers[i].handle).value]
  {
    var s0 := RegisteredAll(s, buffers[..i]);
    assert buffers[..i + 1] == buffers[..i] + [buffers[i]];
    assert buffers[..i + 1][..i] == buffers[..i];
    HandlesKept(s0, buffers[..i], buffers[i].handle);
    forall k | 0 <= k < i
      ensures Lookup(Registered(s0, buffers[i].handle), buffers[k].handle).Some?
    {
      assert buffers[..i][k] == buffers[k];
    }
  }

  lemma HandlesKept(s: Api, buffers: seq<Access<Address>>, a: Address)
    requires forall i :: 0 <= i < |buffers| ==> Lookup(s, buffers[i].handle).Some?
    ensures HandlesAt(Registered(s, a), buffers) == HandlesAt(s, buffers)
    ensures forall i :: 0 <= i < |buffers| ==> Lookup(Registered(s, a), buffers[i].handle) == Lookup(s, buffers[i].handle)
  {
  }
}
