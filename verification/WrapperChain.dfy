/**
 * What the pointers of a `WrapperState` stand for: for each function of the program, a stack of
 * live wrappers, newest first. Every step keeps the correspondence, so a call through a binding
 * enters exactly the stack and then the function itself.
 */
module WrapperChain {
  import opened Options
  import opened MonitorStats
  import opened WrapperState

  /** One live wrapper. */
  datatype Layer = Layer(fn: Fn, id: Id, probe: bool)

  /**
   * The instrumentation of the program without any pointer: the stack of each instrumented or
   * instrumentable function, the function each wrapper ends in, the function each binding was
   * born with, and the calls each live monitor has seen.
   */
  datatype Chains = Chains(
    stacks: map<Fn, seq<Layer>>,
    home: map<Fn, Fn>,
    origin: map<Binding, Fn>,
    calls: map<Id, seq<Sample>>)

  // ----- the reference machine

  /** A new wrapper goes on top of the stack of the function that `b` was born with. */
  function Push(a: Chains, b: Binding, l: Layer): Chains
    requires b in a.origin && a.origin[b] in a.stacks
  {
    var f := a.origin[b];
    a.(stacks := a.stacks[f := [l] + a.stacks[f]], home := a.home[l.fn := f])
  }

  /** The stack with monitor `id` taken out, wherever it is. */
  function Without(st: seq<Layer>, id: Id): seq<Layer> {
    if st == [] then []
    else if !st[0].probe && st[0].id == id then st[1..]
    else [st[0]] + Without(st[1..], id)
  }

  function Remove(a: Chains, id: Id): Chains {
    a.(stacks := map f | f in a.stacks :: Without(a.stacks[f], id), calls := a.calls - {id})
  }

  /** Is `id` a monitor of this stack? */
  predicate Monitors(st: seq<Layer>, id: Id) {
    st != [] && ((!st[0].probe && st[0].id == id) || Monitors(st[1..], id))
  }

  /** Is `id` a probe of this stack? */
  predicate Probes(st: seq<Layer>, id: Id) {
    st != [] && ((st[0].probe && st[0].id == id) || Probes(st[1..], id))
  }

  /** A call through `b` that did not exit is seen once by each monitor on the same function. */
  function Seen(a: Chains, b: Binding, outcome: Outcome, cost: Id -> real): Chains
    requires b in a.origin && a.origin[b] in a.stacks
  {
    if outcome == Exited then a
    else
      a.(calls := map k | k in a.calls ::
           if Monitors(a.stacks[a.origin[b]], k)
           then a.calls[k] + [Sample(outcome == Returned, cost(k))]
           else a.calls[k])
  }

  ghost predicate WellFormed(a: Chains) {
    forall b :: b in a.origin ==> a.origin[b] in a.stacks
  }

  /** One event of the reference machine; `w` is the function object a new wrapper gets. */
  function Advance(a: Chains, e: Event, w: Fn): (r: Chains)
    requires WellFormed(a)
    ensures WellFormed(r) && r.origin == a.origin && r.stacks.Keys == a.stacks.Keys
  {
    match e
    case Start(id, b) =>
      if b in a.origin then Push(a, b, Layer(w, id, false)).(calls := a.calls[id := []]) else a
    case Inject(id, b) =>
      if b in a.origin then Push(a, b, Layer(w, id, true)) else a
    case Stop(id) => Remove(a, id)
    case Call(b, outcome, cost) =>
      if b in a.origin then Seen(a, b, outcome, cost) else a
  }

  // ----- the correspondence

  /** What the top of a stack over `f` is called by: its newest wrapper, or `f` itself. */
  function Top(st: seq<Layer>, f: Fn): Fn {
    if st == [] then f else st[0].fn
  }

  predicate HasProbe(st: seq<Layer>) {
    st != [] && (st[0].probe || HasProbe(st[1..]))
  }

  predicate HasMonitor(st: seq<Layer>, x: Fn) {
    st != [] && ((!st[0].probe && st[0].fn == x) || HasMonitor(st[1..], x))
  }

  /** A root recorded above the stack `st`: the true original, or a live monitor of the stack. */
  predicate RootOk(x: Fn, f: Fn, st: seq<Layer>) {
    x == f || HasMonitor(st, x)
  }

  /** A root recorded by a monitor above `st` lies beneath some probe of `st`. */
  predicate OwnedOk(x: Fn, f: Fn, st: seq<Layer>) {
    st != [] && if st[0].probe then RootOk(x, f, st[1..]) || OwnedOk(x, f, st[1..]) else OwnedOk(x, f, st[1..])
  }

  /** The cells and the record of the layer `l`, whose stack continues with `below` down to `f`. */
  ghost predicate LayerOk(s: State, f: Fn, bs: set<Binding>, l: Layer, below: seq<Layer>) {
    var next := Top(below, f);
    && l.fn in s.heap
    && if l.probe then
         && l.id in s.probes
         && s.heap[l.fn] == ProbeFn(l.id, next, next)
         && var r := s.probes[l.id];
         && r.wrapper == l.fn
         && r.original == next
         && RootOk(r.rootOriginal, f, below)
         && (r.previous.Some? ==> r.previous.value == next && below != [] && below[0].probe)
         && bs <= {r.at} + r.aliases
       else
         && l.id in s.monitors
         && s.heap[l.fn] == MonitorFn(l.id, next, next)
         && var r := s.monitors[l.id];
         && r.wrapper == l.fn
         && r.original == next
         && (if HasProbe(below) then r.ownedRoot.Some? && OwnedOk(r.ownedRoot.value, f, below) else r.ownedRoot.None?)
         && bs <= {r.at} + r.aliases
  }

  /** All layers of a stack over `f` are linked as they should be, and get older downwards. */
  ghost predicate Linked(s: State, f: Fn, bs: set<Binding>, st: seq<Layer>) {
    st != [] ==>
      && LayerOk(s, f, bs, st[0], st[1..])
      && st[0].fn > Top(st[1..], f)
      && Linked(s, f, bs, st[1..])
  }

  /** The bindings of the functions born as `f`. */
  ghost function BornAs(a: Chains, f: Fn): set<Binding> {
    set b | b in a.origin && a.origin[b] == f
  }

  /** The function `f` of the program and its stack. */
  ghost predicate StackOk(s: State, a: Chains, f: Fn)
    requires f in a.stacks
  {
    && f in s.heap && s.heap[f].Plain?
    && Linked(s, f, BornAs(a, f), a.stacks[f])
    && forall l :: l in a.stacks[f] ==> l.fn in a.home && a.home[l.fn] == f
  }

  /** A registered wrapper is a layer of the stack it was pushed on. */
  ghost predicate Placed(a: Chains, l: Layer) {
    l.fn in a.home && a.home[l.fn] in a.stacks && l in a.stacks[a.home[l.fn]]
  }

  /** What a function of the program was decorated from is such a function too. */
  ghost predicate DecoratesPlain(heap: map<Fn, FuncObj>, f: Fn)
    requires f in heap
  {
    heap[f].Plain? && heap[f].decorated.Some? ==>
      heap[f].decorated.value in heap && heap[heap[f].decorated.value].Plain?
  }

  /** Function objects are allocated in order; decorated functions of the program wrap such functions. */
  ghost predicate HeapOk(s: State, a: Chains) {
    && (forall f :: f in s.heap ==> f < s.next)
    && (forall f :: f in a.home ==> f < s.next)
    && (forall f :: f in s.heap ==> DecoratesPlain(s.heap, f))
  }

  ghost predicate StacksOk(s: State, a: Chains) {
    forall f :: f in a.stacks ==> StackOk(s, a, f)
  }

  /** Every record belongs to a layer of some stack. */
  ghost predicate RecordsOk(s: State, a: Chains) {
    && (forall k :: k in s.monitors ==> Placed(a, Layer(s.monitors[k].wrapper, k, false)))
    && (forall k :: k in s.probes ==> Placed(a, Layer(s.probes[k].wrapper, k, true)))
  }

  /** Every binding holds the top of its stack. */
  ghost predicate BindingsOk(s: State, a: Chains)
    requires WellFormed(a)
  {
    && s.bindings.Keys == a.origin.Keys
    && forall b :: b in s.bindings ==> s.bindings[b] == Top(a.stacks[a.origin[b]], a.origin[b])
  }

  /** The counters of every live monitor tally the calls it has seen. */
  ghost predicate StatsOk(s: State, a: Chains) {
    && s.stats.Keys == a.calls.Keys == s.monitors.Keys
    && forall k :: k in s.stats ==> s.stats[k] == Tally(a.calls[k])
  }

  ghost predicate Pointers(s: State, a: Chains) {
    WellFormed(a) && HeapOk(s, a) && StacksOk(s, a) && RecordsOk(s, a) && BindingsOk(s, a)
  }

  ghost predicate Rep(s: State, a: Chains) {
    Pointers(s, a) && StatsOk(s, a)
  }

  // ----- facts about one stack

  /** What stands beneath the layer `l` of a stack. */
  function Beneath(st: seq<Layer>, l: Layer): (below: seq<Layer>)
    requires l in st
    ensures |below| < |st| && st[|st| - |below|..] == below && st[|st| - |below| - 1] == l
  {
    if st[0] == l then st[1..] else Beneath(st[1..], l)
  }

  /** Every layer of a linked stack has its own stack beneath it. */
  lemma {:induction false} LayerFacts(s: State, f: Fn, bs: set<Binding>, st: seq<Layer>, l: Layer) returns (below: seq<Layer>)
    requires Linked(s, f, bs, st) && l in st
    ensures below == Beneath(st, l)
    ensures LayerOk(s, f, bs, l, below) && l.fn > Top(below, f) && Linked(s, f, bs, below)
    ensures forall x :: x in below ==> x in st
  {
    if l == st[0] {
      below := st[1..];
    } else {
      below := LayerFacts(s, f, bs, st[1..], l);
    }
  }

  /** Layers lie strictly above everything beneath them. */
  lemma {:induction false} Descending(s: State, f: Fn, bs: set<Binding>, st: seq<Layer>)
    requires Linked(s, f, bs, st)
    ensures Top(st, f) >= f
    ensures forall x :: x in st ==> f < x.fn <= Top(st, f)
  {
    if st != [] {
      Descending(s, f, bs, st[1..]);
    }
  }

  lemma {:induction false} MonitorIn(st: seq<Layer>, x: Fn)
    requires HasMonitor(st, x)
    ensures exists l :: l in st && l.fn == x && !l.probe
  {
    if !st[0].probe && st[0].fn == x {
      assert st[0] in st;
    } else {
      MonitorIn(st[1..], x);
    }
  }

  lemma {:induction false} OwnedIsRoot(x: Fn, f: Fn, st: seq<Layer>)
    requires OwnedOk(x, f, st)
    ensures HasProbe(st) && RootOk(x, f, st)
  {
    if !(st[0].probe && RootOk(x, f, st[1..])) {
      OwnedIsRoot(x, f, st[1..]);
    }
  }

  lemma {:induction false} MonitorsLayer(st: seq<Layer>, id: Id)
    ensures Monitors(st, id) <==> exists l :: l in st && !l.probe && l.id == id
  {
    if st != [] {
      MonitorsLayer(st[1..], id);
      assert st == [st[0]] + st[1..];
    }
  }

  lemma {:induction false} ProbesLayer(st: seq<Layer>, id: Id)
    ensures Probes(st, id) <==> exists l :: l in st && l.probe && l.id == id
  {
    if st != [] {
      ProbesLayer(st[1..], id);
      assert st == [st[0]] + st[1..];
    }
  }

  // ----- starting: a new layer on top

  /** The wrapper and the record of `l` are the same in both states. */
  ghost predicate SameLayer(s: State, s': State, l: Layer) {
    && (l.fn in s.heap ==> l.fn in s'.heap && s'.heap[l.fn] == s.heap[l.fn])
    && (l.probe && l.id in s.probes ==> l.id in s'.probes && s'.probes[l.id] == s.probes[l.id])
    && (!l.probe && l.id in s.monitors ==> l.id in s'.monitors && s'.monitors[l.id] == s.monitors[l.id])
  }

  /** A stack stays linked as long as its own wrappers and records stay as they are. */
  lemma {:induction false} LinkedFrame(s: State, s': State, f: Fn, bs: set<Binding>, st: seq<Layer>)
    requires Linked(s, f, bs, st)
    requires forall l :: l in st ==> SameLayer(s, s', l)
    ensures Linked(s', f, bs, st)
  {
    if st != [] {
      assert st[0] in st;
      assert forall l :: l in st[1..] ==> l in st;
      LinkedFrame(s, s', f, bs, st[1..]);
    }
  }

  /** The layers of a linked stack are registered. */
  lemma LayersRegistered(s: State, f: Fn, bs: set<Binding>, st: seq<Layer>)
    requires Linked(s, f, bs, st)
    ensures forall l :: l in st ==> l.fn in s.heap && !s.heap[l.fn].Plain? && l.fn in LiveWrappers(s)
    ensures forall l :: l in st && l.probe ==>
              l.id in s.probes && s.heap[l.fn].ProbeFn? && s.heap[l.fn].watchId == l.id && s.probes[l.id].wrapper == l.fn
    ensures forall l :: l in st && !l.probe ==>
              l.id in s.monitors && s.heap[l.fn].MonitorFn? && s.heap[l.fn].watchId == l.id && s.monitors[l.id].wrapper == l.fn
  {
    forall l | l in st
      ensures l.fn in s.heap && !s.heap[l.fn].Plain? && l.fn in LiveWrappers(s)
      ensures l.probe ==> l.id in s.probes && s.heap[l.fn].ProbeFn? && s.heap[l.fn].watchId == l.id && s.probes[l.id].wrapper == l.fn
      ensures !l.probe ==> l.id in s.monitors && s.heap[l.fn].MonitorFn? && s.heap[l.fn].watchId == l.id && s.monitors[l.id].wrapper == l.fn
    {
      var below := LayerFacts(s, f, bs, st, l);
    }
  }

  /** Different functions have different tops. */
  lemma TopsDiffer(s: State, a: Chains, f: Fn, g: Fn)
    requires Rep(s, a) && f in a.stacks && g in a.stacks
    requires Top(a.stacks[f], f) == Top(a.stacks[g], g)
    ensures f == g
  {
    assert StackOk(s, a, f) && StackOk(s, a, g);
    LayersRegistered(s, f, BornAs(a, f), a.stacks[f]);
    LayersRegistered(s, g, BornAs(a, g), a.stacks[g]);
    if a.stacks[f] != [] {
      assert a.stacks[f][0] in a.stacks[f];
    }
    if a.stacks[g] != [] {
      assert a.stacks[g][0] in a.stacks[g];
    }
  }

  /** The bindings that hold the top of `f`'s stack are those born as `f`. */
  lemma HoldersOfTop(s: State, a: Chains, f: Fn)
    requires Rep(s, a) && f in a.stacks
    ensures forall b :: b in s.bindings ==> (s.bindings[b] == Top(a.stacks[f], f) <==> a.origin[b] == f)
  {
    forall b | b in s.bindings && s.bindings[b] == Top(a.stacks[f], f) ensures a.origin[b] == f {
      TopsDiffer(s, a, f, a.origin[b]);
    }
  }

  /** `s'` differs from `s` by one new wrapper `l`, bound wherever `b`'s function was bound. */
  ghost predicate Pushed(s: State, s': State, b: Binding, l: Layer)
    requires b in s.bindings
  {
    && l.fn == s.next && s'.next == s.next + 1
    && l.fn in s'.heap && s'.heap == s.heap[l.fn := s'.heap[l.fn]] && !s'.heap[l.fn].Plain?
    && s'.bindings == Rebind(s.bindings, s.bindings[b], l.fn)
    && if l.probe then
         && l.id !in s.probes && s'.monitors == s.monitors
         && l.id in s'.probes && s'.probes == s.probes[l.id := s'.probes[l.id]] && s'.probes[l.id].wrapper == l.fn
       else
         && l.id !in s.monitors && s'.probes == s.probes
         && l.id in s'.monitors && s'.monitors == s.monitors[l.id := s'.monitors[l.id]] && s'.monitors[l.id].wrapper == l.fn
  }

  lemma PushOnStack(s: State, s': State, f: Fn, bs: set<Binding>, st: seq<Layer>, l: Layer)
    requires Linked(s, f, bs, st)
    requires f in s.heap && forall g :: g in s.heap ==> g < l.fn
    requires forall x :: x in st ==> SameLayer(s, s', x)
    requires LayerOk(s', f, bs, l, st)
    ensures Linked(s', f, bs, [l] + st)
  {
    LinkedFrame(s, s', f, bs, st);
    assert ([l] + st)[1..] == st;
    if st != [] {
      assert LayerOk(s, f, bs, st[0], st[1..]);
    }
  }

  lemma OldLayersSame(s: State, s': State, f: Fn, bs: set<Binding>, st: seq<Layer>, b: Binding, l: Layer)
    requires Linked(s, f, bs, st) && b in s.bindings && Pushed(s, s', b, l)
    requires forall g :: g in s.heap ==> g < s.next
    ensures forall x :: x in st ==> SameLayer(s, s', x) && x.fn != l.fn
  {
    LayersRegistered(s, f, bs, st);
  }

  lemma PushStack(s: State, a: Chains, s': State, b: Binding, l: Layer, g: Fn)
    requires b in s.bindings && b in a.origin && a.origin[b] in a.stacks && g in a.stacks
    requires HeapOk(s, a) && StackOk(s, a, g) && Pushed(s, s', b, l)
    requires LayerOk(s', a.origin[b], BornAs(a, a.origin[b]), l, a.stacks[a.origin[b]])
    ensures StackOk(s', Push(a, b, l), g)
  {
    var bs, st := BornAs(a, g), a.stacks[g];
    assert BornAs(Push(a, b, l), g) == bs;
    OldLayersSame(s, s', g, bs, st, b, l);
    LinkedFrame(s, s', g, bs, st);
    if g == a.origin[b] {
      PushOnStack(s, s', g, bs, st, l);
    }
  }

  lemma PushBindings(s: State, a: Chains, s': State, b: Binding, l: Layer)
    requires Rep(s, a) && b in s.bindings && Pushed(s, s', b, l)
    ensures WellFormed(Push(a, b, l)) && BindingsOk(s', Push(a, b, l))
  {
    HoldersOfTop(s, a, a.origin[b]);
  }

  lemma PushRecords(s: State, a: Chains, s': State, b: Binding, l: Layer)
    requires b in s.bindings && b in a.origin && a.origin[b] in a.stacks
    requires HeapOk(s, a) && RecordsOk(s, a) && Pushed(s, s', b, l)
    ensures RecordsOk(s', Push(a, b, l))
  {
    var a' := Push(a, b, l);
    assert l in a'.stacks[a.origin[b]];
    forall m: Layer | Placed(a, m) ensures Placed(a', m) {
      assert m.fn != l.fn;
    }
    forall k | k in s'.monitors ensures Placed(a', Layer(s'.monitors[k].wrapper, k, false)) {
      if k != l.id || l.probe {
        assert Placed(a, Layer(s.monitors[k].wrapper, k, false));
      }
    }
    forall k | k in s'.probes ensures Placed(a', Layer(s'.probes[k].wrapper, k, true)) {
      if k != l.id || !l.probe {
        assert Placed(a, Layer(s.probes[k].wrapper, k, true));
      }
    }
  }

  /** One new wrapper on top of a stack keeps the pointers in correspondence. */
  lemma PushRep(s: State, a: Chains, s': State, b: Binding, l: Layer)
    requires Rep(s, a) && b in s.bindings && Pushed(s, s', b, l)
    requires LayerOk(s', a.origin[b], BornAs(a, a.origin[b]), l, a.stacks[a.origin[b]])
    ensures Pointers(s', Push(a, b, l))
  {
    var a' := Push(a, b, l);
    forall g | g in a'.stacks ensures StackOk(s', a', g) {
      assert StackOk(s, a, g);
      PushStack(s, a, s', b, l, g);
    }
    PushBindings(s, a, s', b, l);
    PushRecords(s, a, s', b, l);
    PushHeap(s, a, s', b, l);
  }

  lemma PushHeap(s: State, a: Chains, s': State, b: Binding, l: Layer)
    requires b in s.bindings && b in a.origin && a.origin[b] in a.stacks
    requires HeapOk(s, a) && Pushed(s, s', b, l)
    ensures HeapOk(s', Push(a, b, l))
  {
    forall f | f in s'.heap ensures DecoratesPlain(s'.heap, f) {
      if f in s.heap {
        assert DecoratesPlain(s.heap, f);
      }
    }
  }

  /** The correspondence of pointers does not depend on the recorded calls. */
  lemma PointersIgnoreCalls(s: State, a: Chains, calls: map<Id, seq<Sample>>)
    requires Pointers(s, a)
    ensures Pointers(s, a.(calls := calls))
  {
    var a' := a.(calls := calls);
    forall g | g in a'.stacks ensures StackOk(s, a', g) {
      assert StackOk(s, a, g);
      assert BornAs(a', g) == BornAs(a, g);
    }
    forall m: Layer | Placed(a, m) ensures Placed(a', m) {}
  }

  lemma StartPushes(s: State, id: Id, b: Binding)
    requires b in s.bindings && id !in s.monitors
    ensures Pushed(s, Started(s, id, b), b, Layer(s.next, id, false))
  {
  }

  lemma StartCounts(s: State, a: Chains, id: Id, b: Binding)
    requires b in s.bindings && b in a.origin && a.origin[b] in a.stacks && StatsOk(s, a)
    ensures StatsOk(Started(s, id, b), Push(a, b, Layer(s.next, id, false)).(calls := a.calls[id := []]))
  {
  }

  /** Starting a monitor keeps the correspondence. */
  lemma StartRep(s: State, a: Chains, id: Id, b: Binding)
    requires Rep(s, a) && b in s.bindings && id !in s.monitors
    ensures Rep(Started(s, id, b), Push(a, b, Layer(s.next, id, false)).(calls := a.calls[id := []]))
  {
    var l := Layer(s.next, id, false);
    NewMonitorLayer(s, a, id, b);
    StartPushes(s, id, b);
    StartCounts(s, a, id, b);
    var s' := Started(s, id, b);
    PushRep(s, a, s', b, l);
    PointersIgnoreCalls(s', Push(a, b, l), a.calls[id := []]);
  }

  /** The new record knows every binding of its function. */
  lemma NewMonitorKnowsBindings(s: State, a: Chains, id: Id, b: Binding)
    requires Rep(s, a) && b in s.bindings && id !in s.monitors
    ensures var r := Started(s, id, b).monitors[id]; BornAs(a, a.origin[b]) <= {r.at} + r.aliases
  {
    HoldersOfTop(s, a, a.origin[b]);
  }

  lemma NewMonitorLayer(s: State, a: Chains, id: Id, b: Binding)
    requires Rep(s, a) && b in s.bindings && id !in s.monitors
    ensures LayerOk(Started(s, id, b), a.origin[b], BornAs(a, a.origin[b]), Layer(s.next, id, false), a.stacks[a.origin[b]])
  {
    var f := a.origin[b];
    var st := a.stacks[f];
    assert StackOk(s, a, f);
    NewMonitorKnowsBindings(s, a, id, b);
    assert s.bindings[b] == Top(st, f) by {
      HoldersOfTop(s, a, f);
    }
    if st != [] {
      assert LayerOk(s, f, BornAs(a, f), st[0], st[1..]);
    }
  }

  lemma NewProbeLayer(s: State, a: Chains, id: Id, b: Binding)
    requires Rep(s, a) && b in s.bindings && id !in s.probes
    ensures LayerOk(Injected(s, id, b), a.origin[b], BornAs(a, a.origin[b]), Layer(s.next, id, true), a.stacks[a.origin[b]])
  {
    var f := a.origin[b];
    var st := a.stacks[f];
    assert StackOk(s, a, f);
    HoldersOfTop(s, a, f);
    if st != [] {
      assert LayerOk(s, f, BornAs(a, f), st[0], st[1..]);
    }
  }

  /** Injecting a probe keeps the correspondence. */
  lemma InjectRep(s: State, a: Chains, id: Id, b: Binding)
    requires Rep(s, a) && b in s.bindings && id !in s.probes
    ensures Rep(Injected(s, id, b), Push(a, b, Layer(s.next, id, true)))
  {
    NewProbeLayer(s, a, id, b);
    PushRep(s, a, Injected(s, id, b), b, Layer(s.next, id, true));
  }

  // ----- stopping: a layer out of the middle

  lemma {:induction false} WithoutKeeps(st: seq<Layer>, id: Id)
    ensures forall l :: l in Without(st, id) ==> l in st
    ensures forall l :: l in st && (l.probe || l.id != id) ==> l in Without(st, id)
    ensures HasProbe(Without(st, id)) == HasProbe(st)
    ensures !Monitors(st, id) ==> Without(st, id) == st
  {
    if st != [] {
      WithoutKeeps(st[1..], id);
      assert st == [st[0]] + st[1..];
    }
  }

  /** After the stop of `m`, a root of the stack is a root of what is left of it. */
  lemma {:induction false} RootStop(s: State, f: Fn, bs: set<Binding>, st: seq<Layer>, id: Id, x: Fn)
    requires id in s.monitors && Linked(s, f, bs, st) && Monitors(st, id)
    requires RootOk(x, f, st) && s.monitors[id].wrapper != f
    ensures RootOk(Redirect(x, s.monitors[id].wrapper, RootAfter(s.monitors[id])), f, Without(st, id))
  {
    var m := s.monitors[id];
    if !st[0].probe && st[0].id == id {
      var below := st[1..];
      if x == m.wrapper && m.ownedRoot.Some? {
        OwnedIsRoot(m.ownedRoot.value, f, below);
      }
    } else if x != f && !(!st[0].probe && st[0].fn == x) {
      RootStop(s, f, bs, st[1..], id, x);
    } else if x != f {
      MonitorsLayer(st[1..], id);
      LayersRegistered(s, f, bs, st[1..]);
      Descending(s, f, bs, st[1..]);
      assert x != m.wrapper && Without(st, id)[0] == st[0];
    }
  }

  /** The same for a root recorded above a probe of the stack. */
  lemma {:induction false} OwnedStop(s: State, f: Fn, bs: set<Binding>, st: seq<Layer>, id: Id, x: Fn)
    requires id in s.monitors && Linked(s, f, bs, st) && Monitors(st, id)
    requires OwnedOk(x, f, st) && s.monitors[id].wrapper != f
    ensures OwnedOk(Redirect(x, s.monitors[id].wrapper, RootAfter(s.monitors[id])), f, Without(st, id))
  {
    var m := s.monitors[id];
    if !st[0].probe && st[0].id == id {
      OwnedIsRoot(x, f, st[1..]);
      Descending(s, f, bs, st[1..]);
      if x != f {
        MonitorIn(st[1..], x);
      }
      assert x != m.wrapper;
    } else {
      assert Without(st, id)[1..] == Without(st[1..], id);
      if st[0].probe && RootOk(x, f, st[1..]) {
        RootStop(s, f, bs, st[1..], id, x);
      } else {
        OwnedStop(s, f, bs, st[1..], id, x);
      }
    }
  }

  /** A root recorded above a monitor that stands directly on `m` is not `m`. */
  lemma OwnedSkipsNext(s: State, f: Fn, bs: set<Binding>, st: seq<Layer>, x: Fn)
    requires Linked(s, f, bs, st) && st != [] && !st[0].probe && OwnedOk(x, f, st)
    ensures x != st[0].fn
  {
    OwnedIsRoot(x, f, st[1..]);
    Descending(s, f, bs, st[1..]);
    if x != f {
      MonitorIn(st[1..], x);
    }
  }

  /** `s'` is `s` after the stop of monitor `id`, as far as the layer `l` is concerned. */
  ghost predicate LayerStopped(s: State, s': State, id: Id, l: Layer)
    requires id in s.monitors
  {
    var m := s.monitors[id];
    && (l.fn in s.heap ==> l.fn in s'.heap && s'.heap[l.fn] == RedirectObj(s.heap[l.fn], m.wrapper, m.original))
    && (l.probe && l.id in s.probes ==> l.id in s'.probes && s'.probes[l.id] == RedirectProbe(s.probes[l.id], m))
    && (!l.probe && l.id in s.monitors ==> l.id in s'.monitors && s'.monitors[l.id] == RedirectMonitor(s.monitors[l.id], m))
  }

  lemma TopStop(s: State, f: Fn, bs: set<Binding>, st: seq<Layer>, id: Id)
    requires id in s.monitors && Linked(s, f, bs, st) && s.monitors[id].wrapper != f
    requires forall l :: l in st && l.fn == s.monitors[id].wrapper ==> !l.probe && l.id == id
    ensures Top(Without(st, id), f) == Redirect(Top(st, f), s.monitors[id].wrapper, s.monitors[id].original)
    ensures st != [] && st[0].probe ==> Without(st, id) != [] && Without(st, id)[0] == st[0]
  {
    if st != [] {
      assert st[0] in st;
      assert LayerOk(s, f, bs, st[0], st[1..]);
    }
  }

  /** A layer above or beside the stopped monitor is linked to what is left beneath it. */
  lemma LayerStop(s: State, s': State, f: Fn, bs: set<Binding>, l: Layer, below: seq<Layer>, id: Id)
    requires id in s.monitors && LayerOk(s, f, bs, l, below) && Linked(s, f, bs, below)
    requires l.fn != s.monitors[id].wrapper && s.monitors[id].wrapper != f
    requires forall x :: x in below && x.fn == s.monitors[id].wrapper ==> !x.probe && x.id == id
    requires Monitors(below, id) || (forall x :: x in below ==> x.fn != s.monitors[id].wrapper)
    requires LayerStopped(s, s', id, l)
    ensures LayerOk(s', f, bs, l, Without(below, id))
  {
    var m := s.monitors[id];
    TopStop(s, f, bs, below, id);
    WithoutKeeps(below, id);
    if l.probe {
      var r := s.probes[l.id].rootOriginal;
      RootLeft(s, f, bs, below, id, r);
    } else if HasProbe(below) {
      OwnedLeft(s, f, bs, below, id, s.monitors[l.id].ownedRoot.value);
    }
  }

  lemma RootLeft(s: State, f: Fn, bs: set<Binding>, st: seq<Layer>, id: Id, x: Fn)
    requires id in s.monitors && Linked(s, f, bs, st) && s.monitors[id].wrapper != f && RootOk(x, f, st)
    requires Monitors(st, id) || (forall l :: l in st ==> l.fn != s.monitors[id].wrapper)
    ensures RootOk(Redirect(x, s.monitors[id].wrapper, RootAfter(s.monitors[id])), f, Without(st, id))
  {
    if Monitors(st, id) {
      RootStop(s, f, bs, st, id, x);
    } else {
      WithoutKeeps(st, id);
      if x != f {
        MonitorIn(st, x);
      }
    }
  }

  lemma OwnedLeft(s: State, f: Fn, bs: set<Binding>, st: seq<Layer>, id: Id, x: Fn)
    requires id in s.monitors && Linked(s, f, bs, st) && s.monitors[id].wrapper != f && OwnedOk(x, f, st)
    requires Monitors(st, id) || (forall l :: l in st ==> l.fn != s.monitors[id].wrapper)
    ensures OwnedOk(Redirect(x, s.monitors[id].wrapper, RootAfter(s.monitors[id])), f, Without(st, id))
  {
    if Monitors(st, id) {
      OwnedStop(s, f, bs, st, id, x);
    } else {
      WithoutKeeps(st, id);
      OwnedIsRoot(x, f, st);
      if x != f {
        MonitorIn(st, x);
      }
    }
  }

  /** Taking monitor `id` out of a linked stack leaves a linked stack. */
  lemma {:induction false} LinkedStop(s: State, s': State, f: Fn, bs: set<Binding>, st: seq<Layer>, id: Id)
    requires id in s.monitors && Linked(s, f, bs, st) && s.monitors[id].wrapper != f
    requires forall l :: l in st && l.fn == s.monitors[id].wrapper ==> !l.probe && l.id == id
    requires forall l :: l in st && !l.probe && l.id == id ==> l.fn == s.monitors[id].wrapper
    requires forall l :: l in st && l.fn != s.monitors[id].wrapper ==> LayerStopped(s, s', id, l)
    ensures Linked(s', f, bs, Without(st, id))
  {
    if st != [] {
      var l, below := st[0], st[1..];
      assert l in st && forall x :: x in below ==> x in st;
      MonitorsLayer(below, id);
      WithoutKeeps(below, id);
      LinkedStop(s, s', f, bs, below, id);
      if !l.probe && l.id == id {
        Descending(s, f, bs, below);
        assert Without(below, id) == below;
      } else {
        LayerStop(s, s', f, bs, l, below, id);
        assert Without(st, id)[1..] == Without(below, id);
        Descending(s, f, bs, below);
        TopStop(s, f, bs, below, id);
        TopLeft(s, f, bs, below, id);
      }
    }
  }

  /** What is left of a stack has no newer top. */
  lemma TopLeft(s: State, f: Fn, bs: set<Binding>, st: seq<Layer>, id: Id)
    requires Linked(s, f, bs, st)
    ensures Top(Without(st, id), f) <= Top(st, f)
  {
    Descending(s, f, bs, st);
    WithoutKeeps(st, id);
    if Without(st, id) != [] {
      assert Without(st, id)[0] in Without(st, id);
    }
  }

  // ----- stopping: the whole state

  /** Two layers with the same wrapper are the same layer. */
  lemma WrapperDeterminesLayer(s: State, a: Chains, f: Fn, l: Layer, id: Id)
    requires StacksOk(s, a) && RecordsOk(s, a)
    requires f in a.stacks && l in a.stacks[f] && id in s.monitors
    ensures !l.probe && l.id == id <==> l.fn == s.monitors[id].wrapper
    ensures l.fn == s.monitors[id].wrapper ==> a.home[l.fn] == f
    ensures s.monitors[id].wrapper in s.heap && s.heap[s.monitors[id].wrapper].MonitorFn?
    ensures l.fn in LiveWrappers(s)
  {
    assert StackOk(s, a, f);
    LayersRegistered(s, f, BornAs(a, f), a.stacks[f]);
    var _ := RecordFacts(s, a, id);
  }

  /** The cells of a live monitor agree with its record. */
  lemma RecordFacts(s: State, a: Chains, id: Id) returns (below: seq<Layer>)
    requires StacksOk(s, a) && RecordsOk(s, a) && id in s.monitors
    ensures var m := s.monitors[id];
      && m.wrapper in a.home && a.home[m.wrapper] in a.stacks
      && Layer(m.wrapper, id, false) in a.stacks[a.home[m.wrapper]]
      && LayerOk(s, a.home[m.wrapper], BornAs(a, a.home[m.wrapper]), Layer(m.wrapper, id, false), below)
      && Linked(s, a.home[m.wrapper], BornAs(a, a.home[m.wrapper]), below)
      && m.wrapper > m.original && m.original == Top(below, a.home[m.wrapper])
      && a.home[m.wrapper] in s.heap && s.heap[a.home[m.wrapper]].Plain?
  {
    var l := Layer(s.monitors[id].wrapper, id, false);
    assert Placed(a, l);
    assert StackOk(s, a, a.home[l.fn]);
    below := LayerFacts(s, a.home[l.fn], BornAs(a, a.home[l.fn]), a.stacks[a.home[l.fn]], l);
  }

  /** The cells of a live probe agree with its record. */
  lemma ProbeFacts(s: State, a: Chains, id: Id) returns (below: seq<Layer>)
    requires StacksOk(s, a) && RecordsOk(s, a) && id in s.probes
    ensures var p := s.probes[id];
      && p.wrapper in a.home && a.home[p.wrapper] in a.stacks
      && Layer(p.wrapper, id, true) in a.stacks[a.home[p.wrapper]]
      && below == Beneath(a.stacks[a.home[p.wrapper]], Layer(p.wrapper, id, true))
      && LayerOk(s, a.home[p.wrapper], BornAs(a, a.home[p.wrapper]), Layer(p.wrapper, id, true), below)
      && Linked(s, a.home[p.wrapper], BornAs(a, a.home[p.wrapper]), below)
      && p.wrapper > p.original && p.original == Top(below, a.home[p.wrapper])
      && a.home[p.wrapper] in s.heap && s.heap[a.home[p.wrapper]].Plain?
  {
    var l := Layer(s.probes[id].wrapper, id, true);
    assert Placed(a, l);
    assert StackOk(s, a, a.home[l.fn]);
    below := LayerFacts(s, a.home[l.fn], BornAs(a, a.home[l.fn]), a.stacks[a.home[l.fn]], l);
  }

  lemma StopLayer(s: State, a: Chains, id: Id, f: Fn, l: Layer)
    requires StacksOk(s, a) && RecordsOk(s, a) && id in s.monitors
    requires f in a.stacks && l in a.stacks[f] && l.fn != s.monitors[id].wrapper
    ensures LayerStopped(s, Stopped(s, id), id, l)
  {
    WrapperDeterminesLayer(s, a, f, l, id);
  }

  lemma StopStack(s: State, a: Chains, id: Id, f: Fn)
    requires StacksOk(s, a) && RecordsOk(s, a) && id in s.monitors && f in a.stacks
    ensures StackOk(Stopped(s, id), Remove(a, id), f)
    ensures Top(Without(a.stacks[f], id), f) == Redirect(Top(a.stacks[f], f), s.monitors[id].wrapper, s.monitors[id].original)
  {
    var s', a', st := Stopped(s, id), Remove(a, id), a.stacks[f];
    assert StackOk(s, a, f);
    assert BornAs(a', f) == BornAs(a, f);
    forall l | l in st
      ensures !l.probe && l.id == id <==> l.fn == s.monitors[id].wrapper
      ensures l.fn != s.monitors[id].wrapper ==> LayerStopped(s, s', id, l)
    {
      WrapperDeterminesLayer(s, a, f, l, id);
      if l.fn != s.monitors[id].wrapper {
        StopLayer(s, a, id, f, l);
      }
    }
    var _ := RecordFacts(s, a, id);
    assert s.monitors[id].wrapper != f;
    LinkedStop(s, s', f, BornAs(a, f), st, id);
    WithoutKeeps(st, id);
    TopStop(s, f, BornAs(a, f), st, id);
    PlainStays(s, a, id, f);
  }

  /** Functions of the program are not rewritten. */
  lemma PlainStays(s: State, a: Chains, id: Id, f: Fn)
    requires id in s.monitors && f in s.heap
    ensures f in Stopped(s, id).heap && (s.heap[f].Plain? ==> Stopped(s, id).heap[f] == s.heap[f])
    ensures Stopped(s, id).heap[f].Plain? ==> s.heap[f].Plain?
  {
  }

  lemma StopRecords(s: State, a: Chains, id: Id)
    requires StacksOk(s, a) && RecordsOk(s, a) && id in s.monitors
    ensures RecordsOk(Stopped(s, id), Remove(a, id))
  {
    var s', a' := Stopped(s, id), Remove(a, id);
    forall k | k in s'.monitors ensures Placed(a', Layer(s'.monitors[k].wrapper, k, false)) {
      assert Placed(a, Layer(s.monitors[k].wrapper, k, false));
      WithoutKeeps(a.stacks[a.home[s.monitors[k].wrapper]], id);
    }
    forall k | k in s'.probes ensures Placed(a', Layer(s'.probes[k].wrapper, k, true)) {
      assert Placed(a, Layer(s.probes[k].wrapper, k, true));
      WithoutKeeps(a.stacks[a.home[s.probes[k].wrapper]], id);
    }
  }

  lemma StopHeap(s: State, a: Chains, id: Id)
    requires HeapOk(s, a) && id in s.monitors
    ensures HeapOk(Stopped(s, id), Remove(a, id))
  {
    var s' := Stopped(s, id);
    forall f | f in s'.heap ensures DecoratesPlain(s'.heap, f) {
      assert DecoratesPlain(s.heap, f);
      PlainStays(s, a, id, f);
      if s.heap[f].Plain? && s.heap[f].decorated.Some? {
        PlainStays(s, a, id, s.heap[f].decorated.value);
      }
    }
  }

  lemma StopBindings(s: State, a: Chains, id: Id)
    requires WellFormed(a) && StacksOk(s, a) && RecordsOk(s, a) && BindingsOk(s, a) && id in s.monitors
    ensures WellFormed(Remove(a, id)) && BindingsOk(Stopped(s, id), Remove(a, id))
  {
    forall b | b in s.bindings
      ensures Stopped(s, id).bindings[b] == Top(Without(a.stacks[a.origin[b]], id), a.origin[b])
    {
      StopStack(s, a, id, a.origin[b]);
    }
  }

  lemma StopStacks(s: State, a: Chains, id: Id)
    requires StacksOk(s, a) && RecordsOk(s, a) && id in s.monitors
    ensures StacksOk(Stopped(s, id), Remove(a, id))
  {
    forall f | f in Remove(a, id).stacks ensures StackOk(Stopped(s, id), Remove(a, id), f) {
      StopStack(s, a, id, f);
    }
  }

  lemma StopStats(s: State, a: Chains, id: Id)
    requires StatsOk(s, a) && id in s.monitors
    ensures StatsOk(Stopped(s, id), Remove(a, id))
  {
  }

  /** Stopping a monitor, wherever it is in its stack, keeps the correspondence. */
  lemma StopRep(s: State, a: Chains, id: Id)
    requires Rep(s, a) && id in s.monitors
    ensures Rep(Stopped(s, id), Remove(a, id))
  {
    StopStacks(s, a, id);
    StopRecords(s, a, id);
    StopHeap(s, a, id);
    StopBindings(s, a, id);
    StopStats(s, a, id);
  }

  // ----- calls

  /** The functions a stack over `f` consists of, `f` last. */
  function Course(st: seq<Layer>, f: Fn): seq<Fn> {
    if st == [] then [f] else [st[0].fn] + Course(st[1..], f)
  }

  /** Calling the top of a stack enters each of its wrappers once, newest first, and then `f` once. */
  lemma {:induction false} StackRuns(s: State, f: Fn, bs: set<Binding>, st: seq<Layer>)
    requires Linked(s, f, bs, st) && f in s.heap && s.heap[f].Plain?
    ensures Runs(s.heap, Top(st, f), Course(st, f))
    ensures forall k :: Monitors(st, k) <==>
              exists g :: g in Course(st, f) && g in s.heap && s.heap[g].MonitorFn? && s.heap[g].watchId == k
  {
    if st != [] {
      var c := Course(st[1..], f);
      StackRuns(s, f, bs, st[1..]);
      assert Course(st, f)[1..] == c;
      assert LayerOk(s, f, bs, st[0], st[1..]);
      forall k ensures Monitors(st, k) <==>
          exists g :: g in Course(st, f) && g in s.heap && s.heap[g].MonitorFn? && s.heap[g].watchId == k
      {
        assert Course(st, f) == [st[0].fn] + c;
        if Monitors(st[1..], k) {
          var g :| g in c && g in s.heap && s.heap[g].MonitorFn? && s.heap[g].watchId == k;
          assert g in Course(st, f);
        }
        assert st[0].fn in Course(st, f);
      }
    }
  }

  /** A call through `b` has one course: the stack of the function `b` was born with, then that function. */
  lemma CallCourse(s: State, a: Chains, b: Binding)
    requires Rep(s, a) && b in s.bindings
    ensures forall t :: Runs(s.heap, s.bindings[b], t) <==> t == Course(a.stacks[a.origin[b]], a.origin[b])
  {
    var f := a.origin[b];
    assert StackOk(s, a, f);
    StackRuns(s, f, BornAs(a, f), a.stacks[f]);
    forall t | Runs(s.heap, s.bindings[b], t) ensures t == Course(a.stacks[f], f) {
      RunsUnique(s.heap, s.bindings[b], t, Course(a.stacks[f], f));
    }
  }

  lemma CallStats(s: State, a: Chains, b: Binding, outcome: Outcome, cost: Id -> real)
    requires b in a.origin && a.origin[b] in a.stacks && StackOk(s, a, a.origin[b]) && StatsOk(s, a)
    ensures StatsOk(Recorded(s, Course(a.stacks[a.origin[b]], a.origin[b]), outcome, cost), Seen(a, b, outcome, cost))
  {
    var f := a.origin[b];
    var s' := Recorded(s, Course(a.stacks[f], f), outcome, cost);
    var a' := Seen(a, b, outcome, cost);
    StackRuns(s, f, BornAs(a, f), a.stacks[f]);
    forall k | k in s'.stats ensures s'.stats[k] == Tally(a'.calls[k]) {
      TallyMore(a.calls[k], Sample(outcome == Returned, cost(k)));
    }
  }

  /** A call keeps the correspondence. */
  lemma CallRep(s: State, a: Chains, b: Binding, outcome: Outcome, cost: Id -> real)
    requires Rep(s, a) && b in s.bindings
    ensures Rep(Recorded(s, Course(a.stacks[a.origin[b]], a.origin[b]), outcome, cost), Seen(a, b, outcome, cost))
  {
    var s' := Recorded(s, Course(a.stacks[a.origin[b]], a.origin[b]), outcome, cost);
    var a' := Seen(a, b, outcome, cost);
    assert StackOk(s, a, a.origin[b]);
    CallStats(s, a, b, outcome, cost);
    SamePointers(s, s', a);
    PointersIgnoreCalls(s', a, a'.calls);
  }

  lemma SamePointers(s: State, s': State, a: Chains)
    requires Pointers(s, a) && s' == s.(stats := s'.stats)
    ensures Pointers(s', a)
  {
    forall f | f in a.stacks ensures StackOk(s', a, f) {
      assert StackOk(s, a, f);
      LinkedFrame(s, s', f, BornAs(a, f), a.stacks[f]);
    }
  }

  // ----- whole runs

  /** Every step keeps the correspondence with the reference machine. */
  lemma StepRep(s: State, a: Chains, e: Event, s': State)
    requires Rep(s, a) && Fresh(s, e) && Step(s, e, s')
    ensures Rep(s', Advance(a, e, s.next))
  {
    match e
    case Start(id, b) =>
      if b in s.bindings { StartRep(s, a, id, b); }
    case Inject(id, b) =>
      if b in s.bindings { InjectRep(s, a, id, b); }
    case Stop(id) =>
      if id in s.monitors {
        StopRep(s, a, id);
      } else {
        StopUnknown(s, a, id);
      }
    case Call(b, outcome, cost) =>
      if b in s.bindings {
        CallCourse(s, a, b);
        CallRep(s, a, b, outcome, cost);
      }
  }

  lemma UnknownInStack(s: State, f: Fn, bs: set<Binding>, st: seq<Layer>, id: Id)
    requires Linked(s, f, bs, st) && id !in s.monitors
    ensures Without(st, id) == st
  {
    LayersRegistered(s, f, bs, st);
    MonitorsLayer(st, id);
    WithoutKeeps(st, id);
  }

  /** Stopping a monitor that is not registered changes nothing. */
  lemma StopUnknown(s: State, a: Chains, id: Id)
    requires StacksOk(s, a) && StatsOk(s, a) && id !in s.monitors
    ensures Remove(a, id) == a
  {
    forall f | f in a.stacks ensures Without(a.stacks[f], id) == a.stacks[f] {
      assert StackOk(s, a, f);
      UnknownInStack(s, f, BornAs(a, f), a.stacks[f], id);
    }
    assert a.calls - {id} == a.calls;
  }
}
