/**
 * What instrumentation changes in a target process: function objects, the attributes bound to
 * them, and the records kept by the monitor command and by the injector. Each step is given as
 * its effect on the whole state; the imperative commands are proved to have exactly this effect.
 */
module WrapperState {
  import opened Options
  import opened MonitorStats

  /** A function object, named by the order in which it was allocated. */
  type Fn = nat
  /** An attribute slot `parent.attr_name`. */
  type Binding = nat

  /**
   * A function object. A wrapper closes over its watch id and the function it calls (`func`), and
   * carries a `__wrapped__` attribute. A function of the program may itself have been decorated.
   */
  datatype FuncObj =
    | Plain(decorated: Option<Fn>)
    | MonitorFn(watchId: Id, func: Fn, wrapped: Fn)
    | ProbeFn(watchId: Id, func: Fn, wrapped: Fn)
  {
    /** The `__wrapped__` attribute. */
    function Wrapped(): Option<Fn> {
      if Plain? then decorated else Some(wrapped)
    }
  }

  datatype MonitorRec = MonitorRec(
    wrapper: Fn, original: Fn, ownedRoot: Option<Fn>, at: Binding, aliases: set<Binding>)

  datatype ProbeRec = ProbeRec(
    wrapper: Fn, original: Fn, rootOriginal: Fn, previous: Option<Fn>, at: Binding, aliases: set<Binding>)

  /** `next` is the next function object to be allocated. */
  datatype State = State(
    heap: map<Fn, FuncObj>,
    next: Fn,
    bindings: map<Binding, Fn>,
    monitors: map<Id, MonitorRec>,
    probes: map<Id, ProbeRec>,
    stats: map<Id, Stats>)

  /** How a call ended. Python's `except Exception` does not see an interpreter exit. */
  datatype Outcome = Returned | Raised | Exited

  /** The bindings other than `b` that hold `f`. */
  function Aliases(bindings: map<Binding, Fn>, f: Fn, b: Binding): set<Binding> {
    set x | x in bindings && bindings[x] == f && x != b
  }

  /** Every binding that held `from` now holds `to`. */
  function Rebind(bindings: map<Binding, Fn>, from: Fn, to: Fn): map<Binding, Fn> {
    map x | x in bindings :: if bindings[x] == from then to else bindings[x]
  }

  /** The wrappers that are registered, by either command. */
  ghost function LiveWrappers(s: State): set<Fn> {
    (set k | k in s.probes :: s.probes[k].wrapper) + (set k | k in s.monitors :: s.monitors[k].wrapper)
  }

  /** The root original a record knows for the wrapper `f`, if `f` is a registered wrapper. */
  function KnownRoot(s: State, f: Fn): Option<Fn> {
    if f !in s.heap then None
    else match s.heap[f] {
      case Plain(_) => None
      case ProbeFn(k, _, _) =>
        if k in s.probes && s.probes[k].wrapper == f then Some(s.probes[k].rootOriginal) else None
      case MonitorFn(k, _, _) =>
        if k in s.monitors && s.monitors[k].wrapper == f then s.monitors[k].ownedRoot else None
    }
  }

  /** Starting a monitor on what `b` holds. */
  function Started(s: State, id: Id, b: Binding): State
    requires b in s.bindings
  {
    var f := s.bindings[b];
    s.(heap := s.heap[s.next := MonitorFn(id, f, f)],
       next := s.next + 1,
       bindings := Rebind(s.bindings, f, s.next),
       monitors := s.monitors[id := MonitorRec(s.next, f, KnownRoot(s, f), b, Aliases(s.bindings, f, b))],
       stats := s.stats[id := ZERO])
  }

  /** Is `f` the wrapper of a registered probe? */
  predicate IsProbeWrapper(s: State, f: Fn) {
    f in s.heap && s.heap[f].ProbeFn? && s.heap[f].watchId in s.probes && s.probes[s.heap[f].watchId].wrapper == f
  }

  /** Injecting a probe on what `b` holds. */
  function Injected(s: State, id: Id, b: Binding): State
    requires b in s.bindings
  {
    var f := s.bindings[b];
    var shared := IsProbeWrapper(s, f);
    var root := if shared then s.probes[s.heap[f].watchId].rootOriginal else f;
    s.(heap := s.heap[s.next := ProbeFn(id, f, f)],
       next := s.next + 1,
       bindings := Rebind(s.bindings, f, s.next),
       probes := s.probes[id :=
         ProbeRec(s.next, f, root, if shared then Some(f) else None, b, Aliases(s.bindings, f, b))])
  }

  function Redirect(f: Fn, from: Fn, to: Fn): Fn {
    if f == from then to else f
  }

  /** A wrapper whose references to `from` now go to `to`. */
  function RedirectObj(o: FuncObj, from: Fn, to: Fn): FuncObj {
    match o
    case Plain(_) => o
    case MonitorFn(k, f, w) => MonitorFn(k, Redirect(f, from, to), Redirect(w, from, to))
    case ProbeFn(k, f, w) => ProbeFn(k, Redirect(f, from, to), Redirect(w, from, to))
  }

  /** The root that takes the place of a stopped monitor's wrapper. */
  function RootAfter(m: MonitorRec): Fn {
    m.ownedRoot.Or(m.original)
  }

  function RedirectMonitor(r: MonitorRec, m: MonitorRec): MonitorRec {
    r.(original := Redirect(r.original, m.wrapper, m.original),
       ownedRoot := if r.ownedRoot == Some(m.wrapper) then Some(RootAfter(m)) else r.ownedRoot)
  }

  function RedirectProbe(r: ProbeRec, m: MonitorRec): ProbeRec {
    r.(original := Redirect(r.original, m.wrapper, m.original),
       previous := if r.previous == Some(m.wrapper) then Some(m.original) else r.previous,
       rootOriginal := Redirect(r.rootOriginal, m.wrapper, RootAfter(m)))
  }

  /**
   * Stopping a monitor: its wrapper is replaced, in every binding, in every live wrapper and in
   * every record, by what it stood on; as a root, by its own root when it has one.
   */
  ghost function Stopped(s: State, id: Id): State
    requires id in s.monitors
  {
    var m := s.monitors[id];
    var live := LiveWrappers(s) - {m.wrapper};
    s.(heap := map f | f in s.heap ::
                 if f in live then RedirectObj(s.heap[f], m.wrapper, m.original) else s.heap[f],
       bindings := Rebind(s.bindings, m.wrapper, m.original),
       monitors := map k | k in s.monitors && k != id :: RedirectMonitor(s.monitors[k], m),
       probes := map k | k in s.probes :: RedirectProbe(s.probes[k], m),
       stats := s.stats - {id})
  }

  /** Following `func` from `f` enters exactly the functions of `trace`, ending in a plain one. */
  ghost predicate Runs(heap: map<Fn, FuncObj>, f: Fn, trace: seq<Fn>)
    decreases |trace|
  {
    trace != [] && trace[0] == f && f in heap &&
    match heap[f]
    case Plain(_) => |trace| == 1
    case MonitorFn(_, g, _) => Runs(heap, g, trace[1..])
    case ProbeFn(_, g, _) => Runs(heap, g, trace[1..])
  }

  /** A call has at most one course. */
  lemma {:induction false} RunsUnique(heap: map<Fn, FuncObj>, f: Fn, t: seq<Fn>, u: seq<Fn>)
    requires Runs(heap, f, t) && Runs(heap, f, u)
    ensures t == u
    decreases |t|
  {
    if !heap[f].Plain? {
      RunsUnique(heap, heap[f].func, t[1..], u[1..]);
    }
    assert t == [f] + t[1..] && u == [f] + u[1..];
  }

  /** The monitors whose wrappers a call enters record it, unless the interpreter is exiting. */
  ghost function Recorded(s: State, trace: seq<Fn>, outcome: Outcome, cost: Id -> real): State {
    if outcome == Exited then s
    else
      s.(stats := map k | k in s.stats ::
           if exists f :: f in trace && f in s.heap && s.heap[f].MonitorFn? && s.heap[f].watchId == k
           then Record(s.stats[k], Sample(outcome == Returned, cost(k)))
           else s.stats[k])
  }

  /** One step of the system; a call carries the duration each monitor will measure. */
  datatype Event =
    | Start(id: Id, at: Binding)
    | Inject(id: Id, at: Binding)
    | Stop(id: Id)
    | Call(at: Binding, outcome: Outcome, cost: Id -> real)

  /** `s'` can follow `s` by the event `e`. */
  ghost predicate Step(s: State, e: Event, s': State) {
    match e
    case Start(id, b) => s' == if b in s.bindings then Started(s, id, b) else s
    case Inject(id, b) => s' == if b in s.bindings then Injected(s, id, b) else s
    case Stop(id) => s' == if id in s.monitors then Stopped(s, id) else s
    case Call(b, outcome, cost) =>
      if b in s.bindings
      then exists trace :: Runs(s.heap, s.bindings[b], trace) && s' == Recorded(s, trace, outcome, cost)
      else s' == s
  }

  /** Watch ids are never those of a registered monitor or probe. */
  predicate Fresh(s: State, e: Event) {
    match e
    case Start(id, _) => id !in s.monitors
    case Inject(id, _) => id !in s.probes
    case Stop(_) => true
    case Call(_, _, _) => true
  }
}
