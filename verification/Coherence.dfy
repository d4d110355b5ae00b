/** Host and device copies of one datum.

    Every handle has a copy in main memory and one on an accelerator; the runtime
    tracks which are valid, fetches a copy before a task reads it and invalidates the
    other copy when a task writes. Host code touches main memory directly: it reads
    after acquiring the handle for reading (`synchronizeOutput`), and after writing it
    marks the write (`markIyokanTLWEHostWrite` and the two variable forms), which
    invalidates the device copy if the value has a handle and does nothing if not.

    The submission order of this model contains the marked host writes as well: each
    counts as a task writing one constant, placed where its mark happened.
 */
module Coherence {
  import opened Options
  import opened Runtime

  datatype Node = Host | Device

  datatype Cell<V> = Cell(host: V, device: V, hostValid: bool, deviceValid: bool, registered: bool) {
    function Current(): V { if hostValid then host else device }

    ghost predicate Coherent() {
      && (hostValid || deviceValid)
      && (hostValid && deviceValid ==> host == device)
      && (!registered ==> hostValid && !deviceValid)
    }

    function Register(): Cell<V> {
      if registered then this else Cell(host, device, true, false, true)
    }

    /** Make the copy on `node` valid. */
    function Fetch(node: Node): Cell<V> {
      match node
      case Host => if hostValid then this else this.(host := device, hostValid := true)
      case Device => if deviceValid then this else this.(device := host, deviceValid := true)
    }

    function At(node: Node): V { if node == Host then host else device }

    /** `node` overwrites the datum. */
    function Put(node: Node, v: V): Cell<V> {
      match node
      case Host => this.(host := v, hostValid := true, deviceValid := false)
      case Device => this.(device := v, deviceValid := true, hostValid := false)
    }
  }

  /** `unmarked` holds, for each value overwritten by the host and not yet marked,
      what the runtime still believes it to be. */
  datatype Memory<!H, !V> = Memory(
    tasks: seq<Task<H, V>>,
    started: set<nat>,
    finished: set<nat>,
    placed: map<nat, Node>,
    views: map<nat, seq<Option<V>>>,
    cells: map<H, Cell<V>>,
    unmarked: map<H, V>)

  datatype Action<!H, !V> =
    | Submitted(task: Task<H, V>)
    | Started(index: nat, node: Node)
    | Completed(index: nat)
    | HostStore(handle: H, value: V)
    | Marked(handle: H)
    | Synchronized(handle: H)

  ghost function Boot<H, V>(ram: map<H, V>, junk: V): Memory<H, V> {
    Memory([], {}, {}, map[], map[], map h | h in ram :: Cell(ram[h], junk, true, false, false), map[])
  }

  /** The runtime's single-copy view of the same state. */
  ghost function Abs<H, V>(m: Memory<H, V>): State<H, V> {
    State(m.tasks, m.started, m.finished, m.views,
          map h | h in m.cells :: if h in m.unmarked then m.unmarked[h] else m.cells[h].Current())
  }

  ghost predicate Quiet<H, V>(m: Memory<H, V>, h: H) {
    forall i :: 0 <= i < |m.tasks| && Touches(m.tasks[i], h) ==> i in m.finished
  }

  ghost function HostTask<H, V>(h: H, v: V): Task<H, V> {
    Task([Access(h, W)], (view, i) => v)
  }

  ghost predicate Possible<H(!new), V>(m: Memory<H, V>, a: Action<H, V>) {
    match a
    // A caller marks its own store before it submits work on the value.
    case Submitted(t) => forall h :: h in m.unmarked ==> !Touches(t, h)
    case Started(i, _) => Enabled(Abs(m), Start(i))
    case Completed(i) => Enabled(Abs(m), Finish(i)) && i in m.placed
    // A caller stores only to values no unfinished task uses.
    case HostStore(h, _) => h in m.cells && h !in m.unmarked && Quiet(m, h)
    case Marked(h) => h in m.cells && h in m.unmarked && Quiet(m, h)
    case Synchronized(h) =>
      && h in m.cells && h !in m.unmarked
      && (forall i :: 0 <= i < |m.tasks| && Writes(m.tasks[i], h) ==> i in m.finished)
  }

  ghost function NodeView<H, V>(t: Task<H, V>, cells: map<H, Cell<V>>, node: Node): seq<Option<V>> {
    seq(|t.accesses|, i requires 0 <= i < |t.accesses| =>
      var a := t.accesses[i];
      if a.mode != W && a.handle in cells then Some(cells[a.handle].At(node)) else None)
  }

  /** Task t runs as submission i on `node`: fetches its copies and reads them. */
  ghost function Launched<H, V>(m: Memory<H, V>, i: nat, t: Task<H, V>, node: Node): Memory<H, V> {
    var cells := map h | h in m.cells :: if Reads(t, h) then m.cells[h].Fetch(node) else m.cells[h];
    m.(started := m.started + {i}, placed := m.placed[i := node],
       views := m.views[i := NodeView(t, cells, node)], cells := cells)
  }

  /** It ends: its results are written on the node it ran on. */
  ghost function Ended<H, V>(m: Memory<H, V>, i: nat, t: Task<H, V>): Memory<H, V>
    requires i in m.placed && i in m.views
  {
    m.(finished := m.finished + {i},
       cells := map h | h in m.cells ::
         var w := LastWriter(t.accesses, h);
         if w >= 0 then m.cells[h].Put(m.placed[i], t.body(m.views[i], w)) else m.cells[h])
  }

  ghost function Stored<H, V>(m: Memory<H, V>, h: H, v: V): Memory<H, V>
    requires h in m.cells
  {
    m.(unmarked := m.unmarked[h := m.cells[h].Current()], cells := m.cells[h := m.cells[h].(host := v)])
  }

  /** The store to h is marked: a write by the host if h has a handle, and recorded as one. */
  ghost function AfterMark<H, V>(m: Memory<H, V>, h: H, registered: bool): Memory<H, V>
    requires h in m.cells
  {
    var c := m.cells[h];
    var n := |m.tasks|;
    var t := HostTask(h, c.host);
    Memory(m.tasks + [t], m.started + {n}, m.finished + {n}, m.placed[n := Host],
           m.views[n := View(t, Abs(m).store)],
           m.cells[h := if registered then c.Put(Host, c.host) else c],
           m.unmarked - {h})
  }

  ghost function Fetched<H, V>(m: Memory<H, V>, h: H): Memory<H, V>
    requires h in m.cells
  {
    m.(cells := m.cells[h := m.cells[h].Fetch(Host)])
  }

  ghost function Next<H(!new), V>(m: Memory<H, V>, a: Action<H, V>): Memory<H, V>
    requires Possible(m, a)
  {
    match a
    case Submitted(t) =>
      m.(tasks := m.tasks + [t],
         cells := map h | h in m.cells :: if Touches(t, h) then m.cells[h].Register() else m.cells[h])
    case Started(i, node) => Launched(m, i, m.tasks[i], node)
    case Completed(i) => Ended(m, i, m.tasks[i])
    case HostStore(h, v) => Stored(m, h, v)
    case Marked(h) => AfterMark(m, h, m.cells[h].registered)
    case Synchronized(h) => Fetched(m, h)
  }

  ghost function Trace<H(!new), V>(m: Memory<H, V>, acts: seq<Action<H, V>>): Option<Memory<H, V>>
    decreases |acts|
  {
    if acts == [] then Some(m)
    else if !Possible(m, acts[0]) then None
    else Trace(Next(m, acts[0]), acts[1..])
  }

  // ---------- the invariant ----------

  ghost predicate CellsOk<H, V>(m: Memory<H, V>) {
    && m.unmarked.Keys <= m.cells.Keys
    && (forall h :: h in m.unmarked ==> Quiet(m, h) && (!m.cells[h].registered ==> m.cells[h].hostValid && !m.cells[h].deviceValid))
    && (forall h :: h in m.cells && h !in m.unmarked ==> m.cells[h].Coherent())
    && (forall h, i :: h in m.cells && 0 <= i < |m.tasks| && i !in m.finished && Touches(m.tasks[i], h)
         ==> m.cells[h].registered)
  }

  ghost predicate MInv<H(!new), V>(m: Memory<H, V>, ram: map<H, V>) {
    && CellsOk(m)
    && m.placed.Keys == m.started
    && Inv(Abs(m), ram)
  }

  /** Cell bookkeeping only looks at which tasks are unfinished. */
  lemma QuietKept<H, V>(m: Memory<H, V>, m': Memory<H, V>, h: H)
    requires Quiet(m, h) && m.tasks <= m'.tasks && m.finished <= m'.finished
    requires forall i :: |m.tasks| <= i < |m'.tasks| ==> i in m'.finished || !Touches(m'.tasks[i], h)
    ensures Quiet(m', h)
  {
    forall i | 0 <= i < |m'.tasks| && Touches(m'.tasks[i], h)
      ensures i in m'.finished
    {
      if i < |m.tasks| {
        assert m.tasks[i] == m'.tasks[i];
      }
    }
  }

  lemma SubmittedCells<H(!new), V>(m: Memory<H, V>, t: Task<H, V>)
    requires CellsOk(m) && Possible(m, Submitted(t))
    ensures CellsOk(Next(m, Submitted(t)))
  {
    var m' := Next(m, Submitted(t));
    forall h | h in m'.unmarked
      ensures Quiet(m', h)
    {
      QuietKept(m, m', h);
    }
  }

  lemma SubmittedAbs<H(!new), V>(m: Memory<H, V>, t: Task<H, V>)
    requires CellsOk(m) && Possible(m, Submitted(t))
    ensures Abs(Next(m, Submitted(t))) == Step(Abs(m), Submit(t))
  {
    assert Abs(Next(m, Submitted(t))).store == Abs(m).store;
  }

  lemma SubmittedRefines<H(!new), V>(m: Memory<H, V>, ram: map<H, V>, t: Task<H, V>)
    requires MInv(m, ram) && Possible(m, Submitted(t))
    ensures MInv(Next(m, Submitted(t)), ram)
  {
    SubmittedAbs(m, t);
    StepKeepsInv(Abs(m), ram, Submit(t));
    SubmittedCells(m, t);
  }

  /** A task about to run uses only registered, marked, coherent cells. */
  lemma UsedCell<H(!new), V>(m: Memory<H, V>, i: nat, h: H)
    requires CellsOk(m) && i < |m.tasks| && i !in m.finished && Touches(m.tasks[i], h) && h in m.cells
    ensures h !in m.unmarked && m.cells[h].registered && m.cells[h].Coherent()
  {
    assert h in m.unmarked ==> Quiet(m, h);
  }

  lemma StartedView<H(!new), V>(m: Memory<H, V>, i: nat, node: Node)
    requires CellsOk(m) && Possible(m, Started(i, node)) && i !in m.finished
    ensures Next(m, Started(i, node)).views[i] == View(m.tasks[i], Abs(m).store)
  {
    var t := m.tasks[i];
    var m' := Next(m, Started(i, node));
    forall k | 0 <= k < |t.accesses|
      ensures m'.views[i][k] == View(t, Abs(m).store)[k]
    {
      var a := t.accesses[k];
      if a.mode != W && a.handle in m.cells {
        assert Reads(t, a.handle) && Touches(t, a.handle);
        UsedCell(m, i, a.handle);
      }
    }
  }

  lemma StartedStore<H(!new), V>(m: Memory<H, V>, i: nat, node: Node)
    requires CellsOk(m) && Possible(m, Started(i, node)) && i !in m.finished
    ensures Abs(Next(m, Started(i, node))).store == Abs(m).store
  {
    var m' := Next(m, Started(i, node));
    forall h | h in m.cells
      ensures Abs(m').store[h] == Abs(m).store[h]
    {
      if Reads(m.tasks[i], h) {
        UsedCell(m, i, h);
      }
    }
  }

  lemma StartedAbs<H(!new), V>(m: Memory<H, V>, i: nat, node: Node)
    requires CellsOk(m) && Possible(m, Started(i, node)) && i !in m.finished
    ensures Abs(Next(m, Started(i, node))) == Step(Abs(m), Start(i))
  {
    StartedView(m, i, node);
    StartedStore(m, i, node);
  }

  lemma StartedCells<H(!new), V>(m: Memory<H, V>, i: nat, node: Node)
    requires CellsOk(m) && Possible(m, Started(i, node)) && i !in m.finished
    ensures CellsOk(Next(m, Started(i, node)))
  {
    var m' := Next(m, Started(i, node));
    forall h | h in m.cells
      ensures m'.cells[h] == m.cells[h] || (h !in m.unmarked && m.cells[h].Coherent() && m'.cells[h] == m.cells[h].Fetch(node))
    {
      if Reads(m.tasks[i], h) {
        UsedCell(m, i, h);
      }
    }
    forall h | h in m'.unmarked
      ensures Quiet(m', h)
    {
      QuietKept(m, m', h);
    }
  }

  lemma NotFinished<H(!new), V>(m: Memory<H, V>, ram: map<H, V>, i: nat, node: Node)
    requires Inv(Abs(m), ram) && Possible(m, Started(i, node))
    ensures i !in m.finished
  {
  }

  lemma StartedInv<H(!new), V>(m: Memory<H, V>, ram: map<H, V>, i: nat, node: Node)
    requires CellsOk(m) && Inv(Abs(m), ram) && Possible(m, Started(i, node))
    ensures Inv(Abs(Next(m, Started(i, node))), ram)
  {
    NotFinished(m, ram, i, node);
    StartedAbs(m, i, node);
    StartKeepsInv(Abs(m), ram, i);
  }

  lemma StartedRefines<H(!new), V>(m: Memory<H, V>, ram: map<H, V>, i: nat, node: Node)
    requires MInv(m, ram) && Possible(m, Started(i, node))
    ensures MInv(Next(m, Started(i, node)), ram)
  {
    StartedInv(m, ram, i, node);
    NotFinished(m, ram, i, node);
    StartedCells(m, i, node);
  }

  lemma CompletedAbs<H(!new), V>(m: Memory<H, V>, i: nat)
    requires CellsOk(m) && Possible(m, Completed(i))
    ensures Abs(Next(m, Completed(i))) == Step(Abs(m), Finish(i))
  {
    var m' := Next(m, Completed(i));
    var t := m.tasks[i];
    forall h | h in m.cells
      ensures Abs(m').store[h] == Commit(t, m.views[i], Abs(m).store)[h]
    {
      if LastWriter(t.accesses, h) >= 0 {
        assert Writes(t, h) && Touches(t, h);
        UsedCell(m, i, h);
      }
    }
    assert Abs(m').store == Commit(t, m.views[i], Abs(m).store);
  }

  lemma CompletedCells<H(!new), V>(m: Memory<H, V>, i: nat)
    requires CellsOk(m) && Possible(m, Completed(i))
    ensures CellsOk(Next(m, Completed(i)))
  {
    var m' := Next(m, Completed(i));
    forall h | h in m.cells
      ensures m'.cells[h] == m.cells[h]
           || (h !in m.unmarked && m.cells[h].registered && m'.cells[h].registered && m'.cells[h].Coherent())
    {
      if LastWriter(m.tasks[i].accesses, h) >= 0 {
        assert Writes(m.tasks[i], h) && Touches(m.tasks[i], h);
        UsedCell(m, i, h);
      }
    }
    forall h | h in m'.unmarked
      ensures Quiet(m', h)
    {
      QuietKept(m, m', h);
    }
  }

  lemma CompletedRefines<H(!new), V>(m: Memory<H, V>, ram: map<H, V>, i: nat)
    requires MInv(m, ram) && Possible(m, Completed(i))
    ensures MInv(Next(m, Completed(i)), ram)
  {
    CompletedAbs(m, i);
    CompletedCells(m, i);
    StepKeepsInv(Abs(m), ram, Finish(i));
  }

  lemma HostStoreRefines<H(!new), V>(m: Memory<H, V>, ram: map<H, V>, h: H, v: V)
    requires MInv(m, ram) && Possible(m, HostStore(h, v))
    ensures MInv(Next(m, HostStore(h, v)), ram)
    ensures Abs(Next(m, HostStore(h, v))) == Abs(m)
  {
    var m' := Next(m, HostStore(h, v));
    assert Abs(m').store == Abs(m).store;
    forall g | g in m'.unmarked
      ensures Quiet(m', g)
    {
      QuietKept(m, m', g);
    }
  }

  lemma HostTaskTouches<H(!new), V>(h: H, v: V)
    ensures var t := HostTask(h, v);
            forall g :: (Writes(t, g) <==> g == h) && (Touches(t, g) <==> g == h) && !Reads(t, g)
  {
    var t := HostTask(h, v);
    assert t.accesses[0].handle == h;
  }

  lemma MarkedEvents<H(!new), V>(s: State<H, V>, h: H, v: V) returns (s3: State<H, V>)
    requires Ordered(s)
    requires forall i :: 0 <= i < |s.tasks| && Touches(s.tasks[i], h) ==> i in s.finished
    ensures var t := HostTask(h, v);
            var n := |s.tasks|;
            && s3 == State(s.tasks + [t], s.started + {n}, s.finished + {n}, s.views[n := View(t, s.store)],
                           if h in s.store then s.store[h := v] else s.store)
            && Enabled(Step(s, Submit(t)), Start(n))
            && Enabled(Step(Step(s, Submit(t)), Start(n)), Finish(n))
            && s3 == Step(Step(Step(s, Submit(t)), Start(n)), Finish(n))
  {
    var t := HostTask(h, v);
    var n := |s.tasks|;
    var s1 := Step(s, Submit(t));
    HostTaskTouches(h, v);
    assert n !in s.started;
    forall j | 0 <= j < n && Conflict(s1.tasks[j], t)
      ensures j in s1.finished
    {
      assert Touches(s.tasks[j], h);
    }
    s3 := Step(Step(s1, Start(n)), Finish(n));
    assert s3.store == if h in s.store then s.store[h := v] else s.store;
  }

  lemma MarkedEventsInv<H(!new), V>(s: State<H, V>, ram: map<H, V>, h: H, v: V) returns (s3: State<H, V>)
    requires Inv(s, ram)
    requires forall i :: 0 <= i < |s.tasks| && Touches(s.tasks[i], h) ==> i in s.finished
    ensures var t := HostTask(h, v);
            var n := |s.tasks|;
            s3 == State(s.tasks + [t], s.started + {n}, s.finished + {n}, s.views[n := View(t, s.store)],
                        if h in s.store then s.store[h := v] else s.store)
    ensures Inv(s3, ram)
  {
    var n := |s.tasks|;
    s3 := MarkedEvents(s, h, v);
    var s1 := Step(s, Submit(HostTask(h, v)));
    StepKeepsInv(s, ram, Submit(HostTask(h, v)));
    StepKeepsInv(s1, ram, Start(n));
    StepKeepsInv(Step(s1, Start(n)), ram, Finish(n));
  }

  lemma MarkedAbs<H(!new), V>(m: Memory<H, V>, h: H)
    requires CellsOk(m) && Possible(m, Marked(h))
    ensures var s, t, n := Abs(m), HostTask(h, m.cells[h].host), |m.tasks|;
            Abs(Next(m, Marked(h))) ==
            State(s.tasks + [t], s.started + {n}, s.finished + {n}, s.views[n := View(t, s.store)],
                  s.store[h := m.cells[h].host])
  {
    assert Abs(Next(m, Marked(h))).store == Abs(m).store[h := m.cells[h].host];
  }

  lemma MarkedInv<H(!new), V>(m: Memory<H, V>, ram: map<H, V>, h: H)
    requires MInv(m, ram) && Possible(m, Marked(h))
    ensures Inv(Abs(Next(m, Marked(h))), ram)
  {
    MarkedAbs(m, h);
    var s3 := MarkedEventsInv(Abs(m), ram, h, m.cells[h].host);
  }

  lemma MarkedCells<H(!new), V>(m: Memory<H, V>, h: H)
    requires CellsOk(m) && Possible(m, Marked(h))
    ensures CellsOk(Next(m, Marked(h)))
  {
    var m' := Next(m, Marked(h));
    forall g | g in m'.unmarked
      ensures Quiet(m', g)
    {
      QuietKept(m, m', g);
    }
  }

  lemma MarkedRefines<H(!new), V>(m: Memory<H, V>, ram: map<H, V>, h: H)
    requires MInv(m, ram) && Possible(m, Marked(h))
    ensures MInv(Next(m, Marked(h)), ram)
  {
    MarkedInv(m, ram, h);
    MarkedCells(m, h);
  }

  lemma SynchronizedAbs<H(!new), V>(m: Memory<H, V>, h: H)
    requires CellsOk(m) && Possible(m, Synchronized(h))
    ensures Abs(Next(m, Synchronized(h))) == Abs(m)
  {
    assert Abs(Next(m, Synchronized(h))).store == Abs(m).store;
  }

  lemma SynchronizedRefines<H(!new), V>(m: Memory<H, V>, ram: map<H, V>, h: H)
    requires MInv(m, ram) && Possible(m, Synchronized(h))
    ensures MInv(Next(m, Synchronized(h)), ram)
    ensures Abs(Next(m, Synchronized(h))) == Abs(m)
  {
    SynchronizedAbs(m, h);
    SynchronizedCells(m, h);
  }

  lemma SynchronizedCells<H(!new), V>(m: Memory<H, V>, h: H)
    requires CellsOk(m) && Possible(m, Synchronized(h))
    ensures CellsOk(Next(m, Synchronized(h)))
  {
    var m' := Next(m, Synchronized(h));
    forall g | g in m'.unmarked
      ensures Quiet(m', g)
    {
      QuietKept(m, m', g);
    }
  }

  lemma {:induction false} TraceKeepsMInv<H(!new), V>(m: Memory<H, V>, ram: map<H, V>, acts: seq<Action<H, V>>)
    requires MInv(m, ram) && Trace(m, acts).Some?
    ensures MInv(Trace(m, acts).value, ram)
    decreases |acts|
  {
    if acts != [] {
      match acts[0] {
        case Submitted(t) => SubmittedRefines(m, ram, t);
        case Started(i, node) => StartedRefines(m, ram, i, node);
        case Completed(i) => CompletedRefines(m, ram, i);
        case HostStore(h, v) => HostStoreRefines(m, ram, h, v);
        case Marked(h) => MarkedRefines(m, ram, h);
        case Synchronized(h) => SynchronizedRefines(m, ram, h);
      }
      TraceKeepsMInv(Next(m, acts[0]), ram, acts[1..]);
    }
  }

  lemma BootMInv<H(!new), V>(ram: map<H, V>, junk: V)
    ensures MInv(Boot(ram, junk), ram)
  {
    var m := Boot(ram, junk);
    assert Abs(m).store == ram;
    InitialInv(ram);
  }

  // ---------- the two promises ----------

  /** A host read after synchronizing sees the last write in submission order, whoever
      made it, whichever copies exist and whether or not the value has a handle. */
  lemma HostReadIsCoherent<H(!new), V>(ram: map<H, V>, junk: V, acts: seq<Action<H, V>>, h: H)
    requires Trace(Boot(ram, junk), acts).Some?
    requires Possible(Trace(Boot(ram, junk), acts).value, Synchronized(h))
    ensures var m := Trace(Boot(ram, junk), acts).value;
            && h in ram
            && Next(m, Synchronized(h)).cells[h].host == Sequential(m.tasks, ram)[h]
  {
    BootMInv(ram, junk);
    TraceKeepsMInv(Boot(ram, junk), ram, acts);
    var m := Trace(Boot(ram, junk), acts).value;
    assert WrittenUpTo(Abs(m), h, |m.tasks|);
    assert m.tasks[..|m.tasks|] == m.tasks;
    assert Abs(m).store.Keys == m.cells.Keys;
  }

  /** Every task that has started, on either node, was handed exactly the values left by
      the submissions and marked host writes before it. */
  lemma TaskReadIsCoherent<H(!new), V>(ram: map<H, V>, junk: V, acts: seq<Action<H, V>>, i: nat)
    requires Trace(Boot(ram, junk), acts).Some? && i in Trace(Boot(ram, junk), acts).value.started
    ensures var m := Trace(Boot(ram, junk), acts).value;
            && i < |m.tasks| && i in m.views
            && m.views[i] == View(m.tasks[i], Sequential(m.tasks[..i], ram))
  {
    BootMInv(ram, junk);
    TraceKeepsMInv(Boot(ram, junk), ram, acts);
  }

  /** A caller may write: a value that every task on it has finished with can be stored to and
      the store marked, and its value is then the stored one, entered in the order. */
  lemma HostWriteRuns<H(!new), V>(m: Memory<H, V>, ram: map<H, V>, h: H, v: V)
    requires MInv(m, ram) && h in m.cells && h !in m.unmarked
    requires forall i :: 0 <= i < |m.tasks| && Touches(m.tasks[i], h) ==> i in m.finished
    ensures Trace(m, [HostStore(h, v), Marked(h)]).Some?
    ensures var m' := Trace(m, [HostStore(h, v), Marked(h)]).value;
            && m'.tasks == m.tasks + [HostTask(h, v)] && m'.unmarked == m.unmarked
            && h in m'.cells && m'.cells[h].host == v && m'.cells[h].hostValid && !m'.cells[h].deviceValid
  {
    var acts: seq<Action<H, V>> := [HostStore(h, v), Marked(h)];
    var m1 := Next(m, HostStore(h, v));
    assert m.cells[h].Coherent();
    assert acts[1..] == [Marked(h)] && acts[1..][1..] == [];
    assert Possible(m1, Marked(h));
    var m2 := Next(m1, Marked(h));
    assert Trace(m1, acts[1..]) == Trace(m2, []);
    assert m2.unmarked == m.unmarked;
  }

  // ---------- single-copy runs on two nodes ----------

  /** A run of the plain machine as memory actions, each task on a chosen node. */
  function Placed<H, V>(e: Event<H, V>, node: nat -> Node): Action<H, V> {
    match e
    case Submit(t) => Submitted(t)
    case Start(i) => Started(i, node(i))
    case Finish(i) => Completed(i)
  }

  function PlacedAll<H, V>(es: seq<Event<H, V>>, node: nat -> Node): (r: seq<Action<H, V>>)
    ensures |r| == |es| && forall k :: 0 <= k < |es| ==> r[k] == Placed(es[k], node)
  {
    seq(|es|, k requires 0 <= k < |es| => Placed(es[k], node))
  }

  lemma PlacedSubmit<H(!new), V>(m: Memory<H, V>, ram: map<H, V>, t: Task<H, V>)
    requires MInv(m, ram) && m.unmarked == map[]
    ensures Possible(m, Submitted(t)) && MInv(Next(m, Submitted(t)), ram)
    ensures Abs(Next(m, Submitted(t))) == Step(Abs(m), Submit(t))
  {
    SubmittedRefines(m, ram, t);
    SubmittedAbs(m, t);
  }

  lemma PlacedStart<H(!new), V>(m: Memory<H, V>, ram: map<H, V>, i: nat, node: Node)
    requires MInv(m, ram) && Enabled(Abs(m), Start(i))
    ensures Possible(m, Started(i, node)) && MInv(Next(m, Started(i, node)), ram)
    ensures Abs(Next(m, Started(i, node))) == Step(Abs(m), Start(i))
  {
    NotFinished(m, ram, i, node);
    StartedAbs(m, i, node);
    StartedRefines(m, ram, i, node);
  }

  lemma PlacedFinish<H(!new), V>(m: Memory<H, V>, ram: map<H, V>, i: nat)
    requires MInv(m, ram) && Enabled(Abs(m), Finish(i))
    ensures Possible(m, Completed(i)) && MInv(Next(m, Completed(i)), ram)
    ensures Abs(Next(m, Completed(i))) == Step(Abs(m), Finish(i))
  {
    CompletedAbs(m, i);
    CompletedRefines(m, ram, i);
  }

  /** Every task that has started runs where it was to. */
  ghost predicate OnNodes<H, V>(m: Memory<H, V>, node: nat -> Node) {
    forall i :: i in m.placed ==> m.placed[i] == node(i)
  }

  lemma PlacedNode<H(!new), V>(m: Memory<H, V>, e: Event<H, V>, node: nat -> Node)
    requires OnNodes(m, node) && Possible(m, Placed(e, node))
    ensures OnNodes(Next(m, Placed(e, node)), node) && Next(m, Placed(e, node)).unmarked == m.unmarked
  {
  }

  lemma PlacedStep<H(!new), V>(m: Memory<H, V>, ram: map<H, V>, e: Event<H, V>, node: nat -> Node)
    requires MInv(m, ram) && m.unmarked == map[] && Enabled(Abs(m), e)
    ensures Possible(m, Placed(e, node)) && MInv(Next(m, Placed(e, node)), ram)
    ensures Abs(Next(m, Placed(e, node))) == Step(Abs(m), e)
  {
    match e
    case Submit(t) => PlacedSubmit(m, ram, t);
    case Start(i) => PlacedStart(m, ram, i, node(i));
    case Finish(i) => PlacedFinish(m, ram, i);
  }

  lemma PlacedFirst<H(!new), V>(m: Memory<H, V>, es: seq<Event<H, V>>, node: nat -> Node)
    requires es != [] && Possible(m, Placed(es[0], node))
    ensures Trace(m, PlacedAll(es, node)) == Trace(Next(m, Placed(es[0], node)), PlacedAll(es[1..], node))
  {
    assert PlacedAll(es, node)[1..] == PlacedAll(es[1..], node);
  }

  /** Two copies do not restrict the runtime: every run of the plain machine, with its tasks on
      whichever nodes, is a run on two memories, with the same values. */
  lemma {:induction false} PlacedRun<H(!new), V>(m: Memory<H, V>, ram: map<H, V>, es: seq<Event<H, V>>, node: nat -> Node)
    requires MInv(m, ram) && m.unmarked == map[] && OnNodes(m, node) && Exec(Abs(m), es).Some?
    ensures Trace(m, PlacedAll(es, node)).Some?
    ensures var m' := Trace(m, PlacedAll(es, node)).value;
            Some(Abs(m')) == Exec(Abs(m), es) && m'.unmarked == map[] && OnNodes(m', node) && m'.placed.Keys == m'.started
    decreases |es|
  {
    if es != [] {
      PlacedStep(m, ram, es[0], node);
      PlacedNode(m, es[0], node);
      PlacedFirst(m, es, node);
      PlacedRun(Next(m, Placed(es[0], node)), ram, es[1..], node);
    }
  }
}
