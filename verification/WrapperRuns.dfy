/**
 * What holds in every state reachable by any interleaving of monitor starts, probe injections,
 * monitor stops and calls, from a program that carries no instrumentation.
 */
module WrapperRuns {
  import opened Options
  import opened MonitorStats
  import opened WrapperState
  import opened WrapperChain

  /** A program without instrumentation; its functions may be decorated in any way. */
  ghost predicate Pristine(s: State) {
    && (forall f :: f in s.heap ==> f < s.next && s.heap[f].Plain? && DecoratesPlain(s.heap, f))
    && (forall b :: b in s.bindings ==> s.bindings[b] in s.heap)
    && s.monitors == map[] && s.probes == map[] && s.stats == map[]
  }

  function Birth(s: State): Chains {
    Chains(map f | f in s.heap :: [], map[], s.bindings, map[])
  }

  /** A history: the states passed through, and the event between each two of them. */
  datatype Run = Run(states: seq<State>, events: seq<Event>)

  ghost predicate Valid(r: Run) {
    && |r.states| == |r.events| + 1
    && Pristine(r.states[0])
    && forall i :: 0 <= i < |r.events| ==> Fresh(r.states[i], r.events[i]) && Step(r.states[i], r.events[i], r.states[i + 1])
  }

  /** The reference machine after the first `n` events. */
  ghost function Reference(r: Run, n: nat): (a: Chains)
    requires Valid(r) && n <= |r.events|
    ensures WellFormed(a) && a.origin == r.states[0].bindings && a.stacks.Keys == r.states[0].heap.Keys
  {
    if n == 0 then Birth(r.states[0]) else Advance(Reference(r, n - 1), r.events[n - 1], r.states[n - 1].next)
  }

  /** Every reachable state corresponds to the reference machine. */
  lemma {:induction false} ReachableRep(r: Run, n: nat)
    requires Valid(r) && n <= |r.events|
    ensures Rep(r.states[n], Reference(r, n))
  {
    if n == 0 {
      assert forall f :: f in r.states[0].heap ==> StackOk(r.states[0], Birth(r.states[0]), f);
    } else {
      ReachableRep(r, n - 1);
      StepRep(r.states[n - 1], Reference(r, n - 1), r.events[n - 1], r.states[n]);
    }
  }

  // ----- what a call runs

  /** Monitor `id` was started on the function `f` by this event. */
  predicate StartsOn(r: Run, e: Event, id: Id, f: Fn)
    requires |r.states| > 0
  {
    e.Start? && e.id == id && e.at in r.states[0].bindings && r.states[0].bindings[e.at] == f
  }

  /** Among the first `n` events `id` was started on `f`, and not stopped since. */
  ghost predicate LiveSince(r: Run, n: nat, id: Id, f: Fn)
    requires Valid(r) && n <= |r.events|
  {
    exists i :: 0 <= i < n && StartsOn(r, r.events[i], id, f) && NoStop(r.events[i + 1..n], id)
  }

  predicate Stops(e: Event, id: Id) {
    e.Stop? && e.id == id
  }

  predicate NoStop(es: seq<Event>, id: Id) {
    forall i :: 0 <= i < |es| ==> !Stops(es[i], id)
  }

  /** Probe `id` was injected on the function `f` by this event. */
  predicate InjectsOn(r: Run, e: Event, id: Id, f: Fn)
    requires |r.states| > 0
  {
    e.Inject? && e.id == id && e.at in r.states[0].bindings && r.states[0].bindings[e.at] == f
  }

  /** Among the first `n` events `id` was injected on `f`. Probes are never taken out here. */
  ghost predicate InjectedOn(r: Run, n: nat, id: Id, f: Fn)
    requires Valid(r) && n <= |r.events|
  {
    exists i :: 0 <= i < n && InjectsOn(r, r.events[i], id, f)
  }

  lemma NoStopPrefix(es: seq<Event>, more: seq<Event>, id: Id)
    requires NoStop(es + more, id)
    ensures NoStop(es, id) && NoStop(more, id)
  {
    forall i | 0 <= i < |es| ensures !Stops(es[i], id) {
      assert (es + more)[i] == es[i];
    }
    forall i | 0 <= i < |more| ensures !Stops(more[i], id) {
      assert (es + more)[|es| + i] == more[i];
    }
  }

  lemma LiveSinceBefore(r: Run, n: nat, id: Id, f: Fn)
    requires Valid(r) && 0 < n <= |r.events| && LiveSince(r, n, id, f)
    ensures StartsOn(r, r.events[n - 1], id, f) || (LiveSince(r, n - 1, id, f) && !Stops(r.events[n - 1], id))
  {
    var i :| 0 <= i < n && StartsOn(r, r.events[i], id, f) && NoStop(r.events[i + 1..n], id);
    if i < n - 1 {
      var last := [r.events[n - 1]];
      assert r.events[i + 1..n] == r.events[i + 1..n - 1] + last;
      NoStopPrefix(r.events[i + 1..n - 1], last, id);
      assert !Stops(last[0], id);
    }
  }

  lemma LiveSinceAfter(r: Run, n: nat, id: Id, f: Fn)
    requires Valid(r) && 0 < n <= |r.events|
    requires StartsOn(r, r.events[n - 1], id, f) || (LiveSince(r, n - 1, id, f) && !Stops(r.events[n - 1], id))
    ensures LiveSince(r, n, id, f)
  {
    if StartsOn(r, r.events[n - 1], id, f) {
      assert NoStop(r.events[n - 1 + 1..n], id);
    } else {
      var i :| 0 <= i < n - 1 && StartsOn(r, r.events[i], id, f) && NoStop(r.events[i + 1..n - 1], id);
      assert r.events[i + 1..n] == r.events[i + 1..n - 1] + [r.events[n - 1]];
      assert NoStop(r.events[i + 1..n], id);
    }
  }

  lemma LiveSinceStep(r: Run, n: nat, id: Id, f: Fn)
    requires Valid(r) && 0 < n <= |r.events|
    ensures LiveSince(r, n, id, f) <==>
              StartsOn(r, r.events[n - 1], id, f) || (LiveSince(r, n - 1, id, f) && !Stops(r.events[n - 1], id))
  {
    if LiveSince(r, n, id, f) {
      LiveSinceBefore(r, n, id, f);
    }
    if StartsOn(r, r.events[n - 1], id, f) || (LiveSince(r, n - 1, id, f) && !Stops(r.events[n - 1], id)) {
      LiveSinceAfter(r, n, id, f);
    }
  }

  lemma {:induction false} WithoutMonitors(st: seq<Layer>, id: Id, k: Id)
    requires forall i, j :: 0 <= i < j < |st| && !st[i].probe && !st[j].probe ==> st[i].id != st[j].id
    ensures Monitors(Without(st, id), k) <==> Monitors(st, k) && k != id
  {
    if st != [] {
      if !st[0].probe && st[0].id == id {
        MonitorsLayer(st[1..], id);
      } else {
        WithoutMonitors(st[1..], id, k);
      }
    }
  }

  /** The monitors of a stack have distinct ids. */
  lemma DistinctMonitors(s: State, f: Fn, bs: set<Binding>, st: seq<Layer>)
    requires Linked(s, f, bs, st)
    ensures forall i, j :: 0 <= i < j < |st| && !st[i].probe && !st[j].probe ==> st[i].id != st[j].id
    ensures forall i, j :: 0 <= i < j < |st| ==> st[i].fn > st[j].fn
  {
    if st != [] {
      DistinctMonitors(s, f, bs, st[1..]);
      Descending(s, f, bs, st[1..]);
      LayersRegistered(s, f, bs, st);
      forall j | 0 < j < |st|
        ensures st[0].fn > st[j].fn && (!st[0].probe && !st[j].probe ==> st[0].id != st[j].id)
      {
        assert st[j] == st[1..][j - 1] && st[0] in st && st[j] in st;
      }
    }
  }

  ghost predicate DistinctIds(st: seq<Layer>) {
    forall i, j :: 0 <= i < j < |st| && !st[i].probe && !st[j].probe ==> st[i].id != st[j].id
  }

  lemma DistinctAt(r: Run, n: nat, f: Fn)
    requires Valid(r) && n <= |r.events| && f in r.states[0].heap
    ensures DistinctIds(Reference(r, n).stacks[f])
  {
    ReachableRep(r, n);
    var s, a := r.states[n], Reference(r, n);
    assert StackOk(s, a, f);
    DistinctMonitors(s, f, BornAs(a, f), a.stacks[f]);
  }

  /** How one event changes which monitors are stacked on `f`. */
  lemma AdvanceMonitors(a: Chains, e: Event, w: Fn, f: Fn, id: Id)
    requires WellFormed(a) && f in a.stacks && DistinctIds(a.stacks[f])
    ensures Monitors(Advance(a, e, w).stacks[f], id) <==>
              || (e.Start? && e.id == id && e.at in a.origin && a.origin[e.at] == f)
              || (Monitors(a.stacks[f], id) && !Stops(e, id))
  {
    match e
    case Start(k, b) =>
      assert ([Layer(w, k, false)] + a.stacks[f])[1..] == a.stacks[f];
    case Inject(k, b) =>
      assert ([Layer(w, k, true)] + a.stacks[f])[1..] == a.stacks[f];
    case Stop(k) =>
      WithoutMonitors(a.stacks[f], k, id);
    case Call(_, _, _) =>
  }

  /** The monitors stacked on a function are those started on it and not stopped since. */
  lemma {:induction false} StackedIffLive(r: Run, n: nat, id: Id, f: Fn)
    requires Valid(r) && n <= |r.events| && f in r.states[0].heap
    ensures Monitors(Reference(r, n).stacks[f], id) <==> LiveSince(r, n, id, f)
  {
    if n > 0 {
      StackedIffLive(r, n - 1, id, f);
      LiveSinceStep(r, n, id, f);
      StackedStep(r, n, id, f);
    }
  }

  lemma StackedStep(r: Run, n: nat, id: Id, f: Fn)
    requires Valid(r) && 0 < n <= |r.events| && f in r.states[0].heap
    ensures Monitors(Reference(r, n).stacks[f], id) <==>
              || StartsOn(r, r.events[n - 1], id, f)
              || (Monitors(Reference(r, n - 1).stacks[f], id) && !Stops(r.events[n - 1], id))
  {
    DistinctAt(r, n - 1, f);
    AdvanceMonitors(Reference(r, n - 1), r.events[n - 1], r.states[n - 1].next, f, id);
  }

  lemma {:induction false} WithoutProbes(st: seq<Layer>, id: Id, k: Id)
    ensures Probes(Without(st, id), k) <==> Probes(st, k)
  {
    if st != [] && !(!st[0].probe && st[0].id == id) {
      WithoutProbes(st[1..], id, k);
      assert Without(st, id)[1..] == Without(st[1..], id);
    }
  }

  /** How one event changes which probes are stacked on `f`. */
  lemma AdvanceProbes(a: Chains, e: Event, w: Fn, f: Fn, id: Id)
    requires WellFormed(a) && f in a.stacks
    ensures Probes(Advance(a, e, w).stacks[f], id) <==>
              || (e.Inject? && e.id == id && e.at in a.origin && a.origin[e.at] == f)
              || Probes(a.stacks[f], id)
  {
    match e
    case Start(k, b) =>
      assert ([Layer(w, k, false)] + a.stacks[f])[1..] == a.stacks[f];
    case Inject(k, b) =>
      assert ([Layer(w, k, true)] + a.stacks[f])[1..] == a.stacks[f];
    case Stop(k) =>
      WithoutProbes(a.stacks[f], k, id);
    case Call(_, _, _) =>
  }

  /** The probes stacked on a function are those injected on it. */
  lemma {:induction false} StackedIffInjected(r: Run, n: nat, id: Id, f: Fn)
    requires Valid(r) && n <= |r.events| && f in r.states[0].heap
    ensures Probes(Reference(r, n).stacks[f], id) <==> InjectedOn(r, n, id, f)
  {
    if n > 0 {
      StackedIffInjected(r, n - 1, id, f);
      AdvanceProbes(Reference(r, n - 1), r.events[n - 1], r.states[n - 1].next, f, id);
      if InjectsOn(r, r.events[n - 1], id, f) {
        assert InjectedOn(r, n, id, f);
      }
    }
  }

  /** The wrappers of registered probes on the course of a stack are the stack's own probes. */
  lemma ProbesOnCourse(s: State, a: Chains, f: Fn, k: Id)
    requires StacksOk(s, a) && RecordsOk(s, a) && f in a.stacks
    ensures k in s.probes && s.probes[k].wrapper in Course(a.stacks[f], f) <==> Probes(a.stacks[f], k)
  {
    var st := a.stacks[f];
    assert StackOk(s, a, f);
    ProbesLayer(st, k);
    LayersRegistered(s, f, BornAs(a, f), st);
    CourseShape(s, f, BornAs(a, f), st);
    if k in s.probes && s.probes[k].wrapper in Course(st, f) {
      var _ := ProbeFacts(s, a, k);
      var l :| l in st && l.fn == s.probes[k].wrapper;
      assert s.heap[l.fn].ProbeFn? && s.heap[l.fn].watchId == k;
    }
  }

  /** The wrappers of registered monitors on the course of a stack are the stack's own monitors. */
  lemma MonitorsOnCourse(s: State, a: Chains, f: Fn, k: Id)
    requires StacksOk(s, a) && RecordsOk(s, a) && f in a.stacks
    ensures k in s.monitors && s.monitors[k].wrapper in Course(a.stacks[f], f) <==> Monitors(a.stacks[f], k)
  {
    var st := a.stacks[f];
    assert StackOk(s, a, f);
    MonitorsLayer(st, k);
    LayersRegistered(s, f, BornAs(a, f), st);
    CourseShape(s, f, BornAs(a, f), st);
    if k in s.monitors && s.monitors[k].wrapper in Course(st, f) {
      var _ := RecordFacts(s, a, k);
      var l :| l in st && l.fn == s.monitors[k].wrapper;
      WrapperDeterminesLayer(s, a, f, l, k);
    }
  }

  /**
   * In every reachable state, a call through a binding has exactly one course. It enters wrappers
   * in the order newest first, no wrapper twice, and ends in the function the binding was born
   * with. It enters the wrappers of exactly the monitors started on that function and not stopped
   * since, and of exactly the probes injected on it.
   */
  lemma CallEntersLiveWrappers(r: Run, n: nat, b: Binding) returns (trace: seq<Fn>)
    requires Valid(r) && n <= |r.events| && b in r.states[n].bindings
    ensures b in r.states[0].bindings
    ensures forall t :: Runs(r.states[n].heap, r.states[n].bindings[b], t) <==> t == trace
    ensures trace != [] && trace[|trace| - 1] == r.states[0].bindings[b]
    ensures forall i, j :: 0 <= i < j < |trace| ==> trace[i] > trace[j]
    ensures forall i :: 0 <= i < |trace| - 1 ==> trace[i] in LiveWrappers(r.states[n])
    ensures forall k :: (k in r.states[n].monitors && r.states[n].monitors[k].wrapper in trace) <==>
                        LiveSince(r, n, k, r.states[0].bindings[b])
    ensures forall k :: (k in r.states[n].probes && r.states[n].probes[k].wrapper in trace) <==>
                        InjectedOn(r, n, k, r.states[0].bindings[b])
  {
    ReachableRep(r, n);
    var s, a := r.states[n], Reference(r, n);
    trace := CallTrace(s, a, b);
    forall k ensures (k in s.monitors && s.monitors[k].wrapper in trace) <==> LiveSince(r, n, k, a.origin[b]) {
      StackedIffLive(r, n, k, a.origin[b]);
    }
    forall k ensures (k in s.probes && s.probes[k].wrapper in trace) <==> InjectedOn(r, n, k, a.origin[b]) {
      StackedIffInjected(r, n, k, a.origin[b]);
    }
  }

  /** The same in terms of the stack of the function the binding was born with. */
  lemma CallTrace(s: State, a: Chains, b: Binding) returns (trace: seq<Fn>)
    requires Rep(s, a) && b in s.bindings
    ensures b in a.origin && a.origin[b] in a.stacks
    ensures forall t :: Runs(s.heap, s.bindings[b], t) <==> t == trace
    ensures trace != [] && trace[|trace| - 1] == a.origin[b]
    ensures forall i, j :: 0 <= i < j < |trace| ==> trace[i] > trace[j]
    ensures forall i :: 0 <= i < |trace| - 1 ==> trace[i] in LiveWrappers(s)
    ensures forall k :: (k in s.monitors && s.monitors[k].wrapper in trace) <==> Monitors(a.stacks[a.origin[b]], k)
    ensures forall k :: (k in s.probes && s.probes[k].wrapper in trace) <==> Probes(a.stacks[a.origin[b]], k)
  {
    var f := a.origin[b];
    assert StackOk(s, a, f);
    CallCourse(s, a, b);
    trace := Course(a.stacks[f], f);
    CourseShape(s, f, BornAs(a, f), a.stacks[f]);
    forall k ensures (k in s.monitors && s.monitors[k].wrapper in trace) <==> Monitors(a.stacks[f], k) {
      MonitorsOnCourse(s, a, f, k);
    }
    forall k ensures (k in s.probes && s.probes[k].wrapper in trace) <==> Probes(a.stacks[f], k) {
      ProbesOnCourse(s, a, f, k);
    }
  }

  /** The course of a stack lists its wrappers from the top, then the function. */
  lemma {:induction false} CourseShape(s: State, f: Fn, bs: set<Binding>, st: seq<Layer>)
    requires Linked(s, f, bs, st)
    ensures |Course(st, f)| == |st| + 1 && Course(st, f)[|st|] == f
    ensures forall i :: 0 <= i < |st| ==> Course(st, f)[i] == st[i].fn && st[i].fn in LiveWrappers(s)
    ensures forall i, j :: 0 <= i < j <= |st| ==> Course(st, f)[i] > Course(st, f)[j]
    ensures forall g :: g in Course(st, f) <==> g == f || exists l :: l in st && l.fn == g
  {
    if st != [] {
      CourseShape(s, f, bs, st[1..]);
      Descending(s, f, bs, st[1..]);
      LayersRegistered(s, f, bs, st);
      var c := Course(st[1..], f);
      assert Course(st, f) == [st[0].fn] + c;
      forall j | 0 < j <= |st| ensures st[0].fn > Course(st, f)[j] {
        assert Course(st, f)[j] == c[j - 1];
        if j < |st| {
          assert c[j - 1] == st[1..][j - 1].fn && st[1..][j - 1] in st[1..];
        }
      }
      forall i | 0 <= i < |st| ensures Course(st, f)[i] == st[i].fn && st[i].fn in LiveWrappers(s) {
        assert st[i] in st;
      }
      assert forall l :: l in st <==> l == st[0] || l in st[1..];
    }
  }


  /** So every registered probe lies on the course of the function it was injected on. */
  lemma ProbeWasInjected(r: Run, n: nat, k: Id) returns (f: Fn)
    requires Valid(r) && n <= |r.events| && k in r.states[n].probes
    ensures f in r.states[0].heap && InjectedOn(r, n, k, f)
  {
    ReachableRep(r, n);
    var s, a := r.states[n], Reference(r, n);
    var _ := ProbeFacts(s, a, k);
    f := a.home[s.probes[k].wrapper];
    ProbesLayer(a.stacks[f], k);
    StackedIffInjected(r, n, k, f);
  }

  /** And every registered monitor on that of the function it was started on. */
  lemma MonitorWasStarted(r: Run, n: nat, k: Id) returns (f: Fn)
    requires Valid(r) && n <= |r.events| && k in r.states[n].monitors
    ensures f in r.states[0].heap && LiveSince(r, n, k, f)
  {
    ReachableRep(r, n);
    var s, a := r.states[n], Reference(r, n);
    var _ := RecordFacts(s, a, k);
    f := a.home[s.monitors[k].wrapper];
    MonitorsLayer(a.stacks[f], k);
    StackedIffLive(r, n, k, f);
  }

  // ----- what the records and the cells hold

  /** `x` is a function of the program or a registered wrapper. */
  ghost predicate LiveOrPlain(s: State, x: Fn) {
    x in LiveWrappers(s) || (x in s.heap && s.heap[x].Plain?)
  }

  /** A registered monitor, wrapper above or not. */
  ghost predicate LiveMonitorOrPlain(s: State, x: Fn) {
    (exists k :: k in s.monitors && s.monitors[k].wrapper == x) || (x in s.heap && s.heap[x].Plain?)
  }

  lemma RootIsLive(s: State, f: Fn, bs: set<Binding>, st: seq<Layer>, x: Fn)
    requires Linked(s, f, bs, st) && f in s.heap && s.heap[f].Plain? && RootOk(x, f, st)
    ensures LiveMonitorOrPlain(s, x) && LiveOrPlain(s, x)
  {
    LayersRegistered(s, f, bs, st);
    if x != f {
      MonitorIn(st, x);
    }
  }

  lemma TopIsLive(s: State, f: Fn, bs: set<Binding>, st: seq<Layer>)
    requires Linked(s, f, bs, st) && f in s.heap && s.heap[f].Plain?
    ensures LiveOrPlain(s, Top(st, f))
  {
    LayersRegistered(s, f, bs, st);
    if st != [] {
      assert st[0] in st;
    }
  }

  /** `w` was the wrapper of a monitor stopped by one of the first `n` events. */
  ghost predicate StoppedBefore(r: Run, n: nat, w: Fn)
    requires Valid(r) && n <= |r.events|
  {
    exists i :: 0 <= i < n && StopsWrapper(r.states[i], r.events[i], w)
  }

  predicate StopsWrapper(s: State, e: Event, w: Fn) {
    e.Stop? && e.id in s.monitors && s.monitors[e.id].wrapper == w
  }

  /** A wrapper that is not registered, and too old to be allocated again. */
  ghost predicate Dead(s: State, w: Fn) {
    w < s.next && w in s.heap && !s.heap[w].Plain? && w !in LiveWrappers(s)
  }

  /** No other record has the wrapper of a registered monitor. */
  lemma WrapperIsItsOwn(s: State, a: Chains, id: Id)
    requires StacksOk(s, a) && RecordsOk(s, a) && id in s.monitors
    ensures var w := s.monitors[id].wrapper;
      && w in s.heap && !s.heap[w].Plain?
      && (forall k :: k in s.monitors && k != id ==> s.monitors[k].wrapper != w)
      && (forall k :: k in s.probes ==> s.probes[k].wrapper != w)
  {
    var w := s.monitors[id].wrapper;
    MonitorRecordOk(s, a, id);
    forall k | k in s.monitors && k != id ensures s.monitors[k].wrapper != w {
      MonitorRecordOk(s, a, k);
    }
    forall k | k in s.probes ensures s.probes[k].wrapper != w {
      ProbeRecordOk(s, a, k);
    }
  }

  /** A stop leaves its wrapper dead. */
  lemma StopKills(s: State, a: Chains, id: Id)
    requires Rep(s, a) && id in s.monitors
    ensures Dead(Stopped(s, id), s.monitors[id].wrapper)
  {
    OldMonitor(s, a, id);
    WrapperIsItsOwn(s, a, id);
    NotLiveAfterStop(s, id);
  }

  lemma NotLiveAfterStop(s: State, id: Id)
    requires id in s.monitors && s.monitors[id].wrapper in s.heap && !s.heap[s.monitors[id].wrapper].Plain?
    requires forall k :: k in s.monitors && k != id ==> s.monitors[k].wrapper != s.monitors[id].wrapper
    requires forall k :: k in s.probes ==> s.probes[k].wrapper != s.monitors[id].wrapper
    ensures var w, s' := s.monitors[id].wrapper, Stopped(s, id);
      w in s'.heap && !s'.heap[w].Plain? && w !in LiveWrappers(s')
  {
  }

  /** Nothing revives a dead wrapper, even when its id is used again. */
  lemma DeadStays(s: State, e: Event, s': State, w: Fn)
    requires Dead(s, w) && Step(s, e, s')
    ensures Dead(s', w)
  {
  }

  lemma StoppedNow(r: Run, n: nat, w: Fn)
    requires Valid(r) && 0 < n <= |r.events| && StopsWrapper(r.states[n - 1], r.events[n - 1], w)
    ensures Dead(r.states[n], w)
  {
    ReachableRep(r, n - 1);
    StopStepKills(r.states[n - 1], Reference(r, n - 1), r.events[n - 1], r.states[n], w);
  }

  lemma StopStepKills(s: State, a: Chains, e: Event, s': State, w: Fn)
    requires Rep(s, a) && StopsWrapper(s, e, w) && Step(s, e, s')
    ensures Dead(s', w)
  {
    StopKills(s, a, e.id);
  }

  lemma StoppedEarlier(r: Run, n: nat, w: Fn)
    requires Valid(r) && 0 < n <= |r.events| && StoppedBefore(r, n, w)
    requires !StopsWrapper(r.states[n - 1], r.events[n - 1], w)
    ensures StoppedBefore(r, n - 1, w)
  {
    var i :| 0 <= i < n && StopsWrapper(r.states[i], r.events[i], w);
  }

  lemma {:induction false} StoppedIsDead(r: Run, n: nat, w: Fn)
    requires Valid(r) && n <= |r.events| && StoppedBefore(r, n, w)
    ensures Dead(r.states[n], w)
  {
    if StopsWrapper(r.states[n - 1], r.events[n - 1], w) {
      StoppedNow(r, n, w);
    } else {
      StoppedEarlier(r, n, w);
      StoppedIsDead(r, n - 1, w);
      DeadStays(r.states[n - 1], r.events[n - 1], r.states[n], w);
    }
  }

  /** Neither a binding, nor a record, nor the cells of a registered wrapper have `w`. */
  ghost predicate NothingHas(s: State, w: Fn) {
    && (forall b :: b in s.bindings ==> s.bindings[b] != w)
    && (forall k :: k in s.monitors ==> MonitorLacks(s, s.monitors[k], w))
    && (forall k :: k in s.probes ==> ProbeLacks(s, s.probes[k], w))
  }

  ghost predicate MonitorLacks(s: State, m: MonitorRec, w: Fn) {
    && m.wrapper != w && m.original != w && m.ownedRoot != Some(w)
    && m.wrapper in s.heap && s.heap[m.wrapper].MonitorFn?
    && s.heap[m.wrapper].func != w && s.heap[m.wrapper].wrapped != w
  }

  ghost predicate ProbeLacks(s: State, p: ProbeRec, w: Fn) {
    && p.wrapper != w && p.original != w && p.rootOriginal != w && p.previous != Some(w)
    && p.wrapper in s.heap && s.heap[p.wrapper].ProbeFn?
    && s.heap[p.wrapper].func != w && s.heap[p.wrapper].wrapped != w
  }

  /**
   * In every reachable state nothing refers to the wrapper of a monitor stopped before: not a
   * binding, not an `original`, a recorded root or a `previous_wrapper`, not the `func` cell or
   * the `__wrapped__` attribute of a registered wrapper. So no call enters it.
   */
  lemma NothingRefersToStopped(r: Run, n: nat, w: Fn)
    requires Valid(r) && n <= |r.events| && StoppedBefore(r, n, w)
    ensures NothingHas(r.states[n], w)
    ensures forall b, t :: b in r.states[n].bindings && Runs(r.states[n].heap, r.states[n].bindings[b], t) ==> w !in t
  {
    StoppedIsDead(r, n, w);
    ReferencesAreLive(r, n);
    var s := r.states[n];
    assert !LiveOrPlain(s, w) && !LiveMonitorOrPlain(s, w);
    forall k | k in s.monitors ensures MonitorLacks(s, s.monitors[k], w) {
      assert MonitorRecordLive(s, k);
    }
    forall k | k in s.probes ensures ProbeLacks(s, s.probes[k], w) {
      assert ProbeRecordLive(s, k);
    }
    forall b, t | b in s.bindings && Runs(s.heap, s.bindings[b], t) ensures w !in t {
      var trace := CallEntersLiveWrappers(r, n, b);
      assert t == trace;
      ReachableRep(r, n);
      assert StackOk(s, Reference(r, n), Reference(r, n).origin[b]);
    }
  }

  /**
   * In every reachable state the `func` cell, the `__wrapped__` attribute and the `original` of
   * every live monitor and probe, and what every binding holds, is a live wrapper or a function of
   * the program; every recorded root is a live monitor or a function of the program; a
   * `previous_wrapper` is a live probe.
   */
  lemma ReferencesAreLive(r: Run, n: nat)
    requires Valid(r) && n <= |r.events|
    ensures var s := r.states[n];
      && (forall b :: b in s.bindings ==> LiveOrPlain(s, s.bindings[b]))
      && (forall k :: k in s.monitors ==> MonitorRecordLive(s, k))
      && (forall k :: k in s.probes ==> ProbeRecordLive(s, k))
  {
    ReachableRep(r, n);
    var s, a := r.states[n], Reference(r, n);
    forall b | b in s.bindings ensures LiveOrPlain(s, s.bindings[b]) {
      assert StackOk(s, a, a.origin[b]);
      TopIsLive(s, a.origin[b], BornAs(a, a.origin[b]), a.stacks[a.origin[b]]);
    }
    forall k | k in s.monitors ensures MonitorRecordLive(s, k) {
      MonitorRecordOk(s, a, k);
    }
    forall k | k in s.probes ensures ProbeRecordLive(s, k) {
      ProbeRecordOk(s, a, k);
    }
  }

  ghost predicate MonitorRecordLive(s: State, k: Id)
    requires k in s.monitors
  {
    var m := s.monitors[k];
    && m.wrapper in s.heap && s.heap[m.wrapper] == MonitorFn(k, m.original, m.original)
    && LiveOrPlain(s, m.original)
    && (m.ownedRoot.Some? ==> LiveMonitorOrPlain(s, m.ownedRoot.value))
  }

  ghost predicate ProbeRecordLive(s: State, k: Id)
    requires k in s.probes
  {
    var p := s.probes[k];
    && p.wrapper in s.heap && s.heap[p.wrapper] == ProbeFn(k, p.original, p.original)
    && LiveOrPlain(s, p.original)
    && LiveMonitorOrPlain(s, p.rootOriginal)
    && (p.previous.Some? ==> p.previous.value == p.original && IsProbeWrapper(s, p.original))
  }

  lemma MonitorRecordOk(s: State, a: Chains, k: Id)
    requires StacksOk(s, a) && RecordsOk(s, a) && k in s.monitors
    ensures MonitorRecordLive(s, k)
  {
    var below := RecordFacts(s, a, k);
    var m := s.monitors[k];
    var f := a.home[m.wrapper];
    TopIsLive(s, f, BornAs(a, f), below);
    if m.ownedRoot.Some? {
      OwnedIsRoot(m.ownedRoot.value, f, below);
      RootIsLive(s, f, BornAs(a, f), below, m.ownedRoot.value);
    }
  }

  lemma ProbeRecordOk(s: State, a: Chains, k: Id)
    requires StacksOk(s, a) && RecordsOk(s, a) && k in s.probes
    ensures ProbeRecordLive(s, k)
  {
    var below := ProbeFacts(s, a, k);
    var p := s.probes[k];
    var f := a.home[p.wrapper];
    TopIsLive(s, f, BornAs(a, f), below);
    RootIsLive(s, f, BornAs(a, f), below, p.rootOriginal);
    if p.previous.Some? {
      LayersRegistered(s, f, BornAs(a, f), below);
      assert below[0] in below;
    }
  }

  /** Once every monitor is stopped, the root of every probe is the function it was injected on. */
  lemma RootsWithoutMonitors(r: Run, n: nat, k: Id, f: Fn)
    requires Valid(r) && n <= |r.events| && r.states[n].monitors == map[]
    requires f in r.states[0].heap && InjectedOn(r, n, k, f)
    ensures k in r.states[n].probes && r.states[n].probes[k].rootOriginal == f
  {
    ReachableRep(r, n);
    StackedIffInjected(r, n, k, f);
    var s, a := r.states[n], Reference(r, n);
    assert StackOk(s, a, f);
    ProbeHome(s, a, k, f);
    RootIsHome(s, a, k);
  }

  lemma RootIsHome(s: State, a: Chains, k: Id)
    requires Rep(s, a) && s.monitors == map[] && k in s.probes
    ensures s.probes[k].wrapper in a.home && a.home[s.probes[k].wrapper] in a.stacks
    ensures s.probes[k].rootOriginal == a.home[s.probes[k].wrapper]
  {
    var p := s.probes[k];
    var below := ProbeFacts(s, a, k);
    var g := a.home[p.wrapper];
    if p.rootOriginal != g {
      MonitorIn(below, p.rootOriginal);
      LayersRegistered(s, g, BornAs(a, g), below);
      assert false;
    }
  }

  lemma NothingStacked(s: State, f: Fn, bs: set<Binding>, st: seq<Layer>)
    requires Linked(s, f, bs, st) && s.monitors == map[] && s.probes == map[]
    ensures st == []
  {
  }

  /** With no live wrapper, every binding holds the object it held at birth. */
  lemma NothingLiveRestoresBindings(r: Run, n: nat)
    requires Valid(r) && n <= |r.events| && r.states[n].monitors == map[] && r.states[n].probes == map[]
    ensures r.states[n].bindings == r.states[0].bindings
  {
    ReachableRep(r, n);
    var s, a := r.states[n], Reference(r, n);
    forall b | b in s.bindings ensures s.bindings[b] == r.states[0].bindings[b] {
      var f := a.origin[b];
      assert StackOk(s, a, f);
      NothingStacked(s, f, BornAs(a, f), a.stacks[f]);
    }
  }

  // ----- where a record comes from

  /** `e` instruments what `b` holds in `s`. */
  predicate Instruments(s: State, e: Event, b: Binding) {
    (e.Start? || e.Inject?) && e.at == b && b in s.bindings
  }

  /** The bindings other than `b` that hold the same object. */
  ghost predicate OtherHolders(s: State, b: Binding, others: set<Binding>)
    requires b in s.bindings
  {
    forall x :: x in others <==> x in s.bindings && x != b && s.bindings[x] == s.bindings[b]
  }

  ghost predicate HoldsProbe(s: State, b: Binding)
    requires b in s.bindings
  {
    exists j :: j in s.probes && s.probes[j].wrapper == s.bindings[b]
  }

  /**
   * The record of a probe names the binding it was injected on and the others that held the same
   * object then; and it has a previous wrapper exactly when that object was a probe's wrapper.
   */
  lemma {:induction false} ProbeRecordOrigin(r: Run, n: nat, k: Id) returns (i: nat)
    requires Valid(r) && n <= |r.events| && k in r.states[n].probes
    ensures i < n && r.events[i].Inject? && r.events[i].id == k
    ensures var s, p := r.states[i], r.states[n].probes[k];
      && Instruments(s, r.events[i], p.at) && OtherHolders(s, p.at, p.aliases)
      && (p.previous.Some? <==> HoldsProbe(s, p.at))
  {
    var s, e, s' := r.states[n - 1], r.events[n - 1], r.states[n];
    ProbeRecordStep(s, e, s', k);
    if k in s.probes {
      i := ProbeRecordOrigin(r, n - 1, k);
    } else {
      i := n - 1;
      ReachableRep(r, i);
      HoldsProbeIff(s, Reference(r, i), e.at);
    }
  }

  lemma ProbeRecordStep(s: State, e: Event, s': State, k: Id)
    requires Step(s, e, s') && Fresh(s, e) && k in s'.probes
    ensures k in s.probes ==>
              var p, q := s.probes[k], s'.probes[k];
              q.at == p.at && q.aliases == p.aliases && (q.previous.Some? <==> p.previous.Some?)
    ensures k !in s.probes ==>
              && e.Inject? && e.id == k && e.at in s.bindings && s'.probes[k].at == e.at
              && s'.probes[k].aliases == Aliases(s.bindings, s.bindings[e.at], e.at)
              && (s'.probes[k].previous.Some? <==> IsProbeWrapper(s, s.bindings[e.at]))
  {
  }

  lemma HoldsProbeIff(s: State, a: Chains, b: Binding)
    requires Rep(s, a) && b in s.bindings
    ensures HoldsProbe(s, b) <==> IsProbeWrapper(s, s.bindings[b])
  {
    forall j | j in s.probes && s.probes[j].wrapper == s.bindings[b] ensures IsProbeWrapper(s, s.bindings[b]) {
      ProbeRecordOk(s, a, j);
    }
  }

  /** The record of a monitor names the binding it was started on and the others that held the same object then. */
  lemma {:induction false} MonitorRecordOrigin(r: Run, n: nat, k: Id) returns (i: nat)
    requires Valid(r) && n <= |r.events| && k in r.states[n].monitors
    ensures i < n && r.events[i].Start? && r.events[i].id == k
    ensures var s, m := r.states[i], r.states[n].monitors[k];
      Instruments(s, r.events[i], m.at) && OtherHolders(s, m.at, m.aliases)
  {
    var s, e, s' := r.states[n - 1], r.events[n - 1], r.states[n];
    MonitorRecordStep(s, e, s', k);
    if k in s.monitors {
      i := MonitorRecordOrigin(r, n - 1, k);
    } else {
      i := n - 1;
    }
  }

  lemma MonitorRecordStep(s: State, e: Event, s': State, k: Id)
    requires Step(s, e, s') && Fresh(s, e) && k in s'.monitors
    ensures k in s.monitors ==> s'.monitors[k].at == s.monitors[k].at && s'.monitors[k].aliases == s.monitors[k].aliases
    ensures k !in s.monitors ==>
              && e.Start? && e.id == k && e.at in s.bindings && s'.monitors[k].at == e.at
              && s'.monitors[k].aliases == Aliases(s.bindings, s.bindings[e.at], e.at)
  {
  }

  // ----- whole-run counts

  /** A call through a binding born as `f`, that the interpreter did not exit from. */
  predicate CallsFn(r: Run, e: Event, f: Fn)
    requires |r.states| > 0
  {
    e.Call? && e.outcome != Exited && e.at in r.states[0].bindings && r.states[0].bindings[e.at] == f
  }

  /** The calls of `f` among the first `n` events, since monitor `id` was last started on `f`. */
  ghost function CallsSince(r: Run, n: nat, id: Id, f: Fn): seq<Sample>
    requires Valid(r) && n <= |r.events|
  {
    if n == 0 || StartsOn(r, r.events[n - 1], id, f) then []
    else if CallsFn(r, r.events[n - 1], f)
    then CallsSince(r, n - 1, id, f) + [Sample(r.events[n - 1].outcome == Returned, r.events[n - 1].cost(id))]
    else CallsSince(r, n - 1, id, f)
  }

  /** How one event changes what a monitor that stays stacked on `f` has seen. */
  lemma AdvanceSeen(a: Chains, e: Event, w: Fn, f: Fn, id: Id)
    requires WellFormed(a) && f in a.stacks && Monitors(a.stacks[f], id) && id in a.calls
    requires e.Start? ==> e.id != id
    requires !Stops(e, id)
    requires e.Call? && e.at in a.origin && a.origin[e.at] != f ==> !Monitors(a.stacks[a.origin[e.at]], id)
    ensures id in Advance(a, e, w).calls
    ensures Advance(a, e, w).calls[id] == a.calls[id] +
              if e.Call? && e.outcome != Exited && e.at in a.origin && a.origin[e.at] == f
              then [Sample(e.outcome == Returned, e.cost(id))] else []
  {
  }

  /** A monitor is stacked on one function only. */
  lemma StackedOnce(s: State, a: Chains, f: Fn, g: Fn, id: Id)
    requires StacksOk(s, a) && RecordsOk(s, a) && f in a.stacks && g in a.stacks
    requires Monitors(a.stacks[f], id) && Monitors(a.stacks[g], id)
    ensures f == g
  {
    MonitorsLayer(a.stacks[f], id);
    MonitorsLayer(a.stacks[g], id);
    assert StackOk(s, a, f) && StackOk(s, a, g);
    LayersRegistered(s, f, BornAs(a, f), a.stacks[f]);
    LayersRegistered(s, g, BornAs(a, g), a.stacks[g]);
  }

  lemma {:induction false} SeenSince(r: Run, n: nat, id: Id, f: Fn)
    requires Valid(r) && n <= |r.events| && f in r.states[0].heap
    requires Monitors(Reference(r, n).stacks[f], id)
    ensures id in Reference(r, n).calls && Reference(r, n).calls[id] == CallsSince(r, n, id, f)
  {
    if n > 0 {
      var s, a, e := r.states[n - 1], Reference(r, n - 1), r.events[n - 1];
      DistinctAt(r, n - 1, f);
      AdvanceMonitors(a, e, s.next, f, id);
      if !StartsOn(r, e, id, f) {
        SeenSince(r, n - 1, id, f);
        StackedIsRegistered(r, n - 1, id, f);
        SeenAlone(r, n - 1, id, f);
        AdvanceSeen(a, e, s.next, f, id);
      }
    }
  }

  lemma SeenAlone(r: Run, n: nat, id: Id, f: Fn)
    requires Valid(r) && n <= |r.events| && f in r.states[0].heap
    requires Monitors(Reference(r, n).stacks[f], id)
    ensures forall g :: g in Reference(r, n).stacks && g != f ==> !Monitors(Reference(r, n).stacks[g], id)
  {
    ReachableRep(r, n);
    forall g | g in Reference(r, n).stacks && Monitors(Reference(r, n).stacks[g], id) ensures g == f {
      StackedOnce(r.states[n], Reference(r, n), f, g, id);
    }
  }

  lemma StackedIsRegistered(r: Run, n: nat, id: Id, f: Fn)
    requires Valid(r) && n <= |r.events| && f in r.states[0].heap
    requires Monitors(Reference(r, n).stacks[f], id)
    ensures id in r.states[n].monitors
  {
    ReachableRep(r, n);
    var s, a := r.states[n], Reference(r, n);
    assert StackOk(s, a, f);
    MonitorsOnCourse(s, a, f, id);
  }

  /**
   * The counters of a live monitor are those of the calls made, through any binding of its
   * function, since it was started: all of them, split into returned and raised, and with
   * non-negative durations the sum lies between the extremes scaled by their number.
   */
  lemma LiveMonitorCounts(r: Run, n: nat, id: Id, f: Fn)
    requires Valid(r) && n <= |r.events| && f in r.states[0].heap && LiveSince(r, n, id, f)
    ensures id in r.states[n].stats && r.states[n].stats[id] == Tally(CallsSince(r, n, id, f))
    ensures var t, calls := r.states[n].stats[id], CallsSince(r, n, id, f);
      t.total == |calls| == t.success + t.fail && t.success == Successes(calls) && t.sum == TotalDuration(calls)
    ensures (forall c :: c in CallsSince(r, n, id, f) ==> c.duration >= 0.0) && CallsSince(r, n, id, f) != [] ==>
              var t := r.states[n].stats[id];
              t.min.Some? && Times(t.min.value, t.total) <= t.sum <= Times(t.max, t.total)
  {
    StackedIffLive(r, n, id, f);
    SeenSince(r, n, id, f);
    ReachableRep(r, n);
    var calls := CallsSince(r, n, id, f);
    TallyCounts(calls);
    TallySum(calls);
    if (forall c :: c in calls ==> c.duration >= 0.0) && calls != [] {
      TallyMean(calls);
    }
  }

  // ----- undoing and reordering

  ghost predicate OlderMonitor(s: State, k: Id)
    requires k in s.monitors
  {
    var m := s.monitors[k];
    m.wrapper < s.next && m.original < s.next && (m.ownedRoot.Some? ==> m.ownedRoot.value < s.next)
  }

  ghost predicate OlderProbe(s: State, k: Id)
    requires k in s.probes
  {
    var p := s.probes[k];
    p.wrapper < s.next && p.original < s.next && p.rootOriginal < s.next && (p.previous.Some? ==> p.previous.value < s.next)
  }

  ghost predicate OlderCells(s: State, g: Fn)
    requires g in s.heap
  {
    g < s.next && (s.heap[g].Plain? || (s.heap[g].func < s.next && s.heap[g].wrapped < s.next))
  }

  /** Nothing refers to an object that is still to be allocated. */
  ghost predicate Older(s: State) {
    && (forall b :: b in s.bindings ==> s.bindings[b] < s.next)
    && (forall k :: k in s.monitors ==> OlderMonitor(s, k))
    && (forall k :: k in s.probes ==> OlderProbe(s, k))
    && (forall g :: g in s.heap && g in LiveWrappers(s) ==> OlderCells(s, g))
  }

  lemma RepIsOlder(s: State, a: Chains)
    requires Rep(s, a)
    ensures Older(s) && s.next !in LiveWrappers(s)
  {
    forall b | b in s.bindings ensures s.bindings[b] < s.next {
      BoundIsOld(s, a, b);
    }
    forall k | k in s.monitors ensures OlderMonitor(s, k) {
      OldMonitor(s, a, k);
    }
    forall k | k in s.probes ensures OlderProbe(s, k) {
      OldProbe(s, a, k);
    }
    RepCellsOlder(s, a);
    NextIsNotLive(s);
  }

  lemma RepCellsOlder(s: State, a: Chains)
    requires Rep(s, a)
    ensures forall g :: g in s.heap && g in LiveWrappers(s) ==> OlderCells(s, g)
  {
    forall g | g in s.heap && g in LiveWrappers(s) ensures OlderCells(s, g) {
      LiveIsOld(s, a, g);
    }
  }

  lemma NextIsNotLive(s: State)
    requires (forall k :: k in s.monitors ==> OlderMonitor(s, k)) && (forall k :: k in s.probes ==> OlderProbe(s, k))
    ensures s.next !in LiveWrappers(s)
  {
  }

  lemma UndoMonitors(s: State, id: Id, b: Binding)
    requires Older(s) && b in s.bindings && id !in s.monitors
    ensures Stopped(Started(s, id, b), id).monitors == s.monitors
    ensures Stopped(Started(s, id, b), id).probes == s.probes
  {
    var s' := Stopped(Started(s, id, b), id);
    forall k | k in s.monitors ensures k in s'.monitors && s'.monitors[k] == s.monitors[k] {
      assert OlderMonitor(s, k);
    }
    forall k | k in s.probes ensures s'.probes[k] == s.probes[k] {
      assert OlderProbe(s, k);
    }
  }

  lemma UndoHeap(s: State, id: Id, b: Binding, g: Fn)
    requires Older(s) && b in s.bindings && id !in s.monitors && g in s.heap && g < s.next
    ensures g in Stopped(Started(s, id, b), id).heap && Stopped(Started(s, id, b), id).heap[g] == s.heap[g]
  {
    var s1 := Started(s, id, b);
    if g in LiveWrappers(s1) - {s.next} {
      assert g in LiveWrappers(s);
      assert OlderCells(s, g);
    }
  }

  /** Stopping a monitor right after starting it leaves nothing of it behind but a dead object. */
  lemma StartThenStopUndoes(s: State, a: Chains, id: Id, b: Binding)
    requires Rep(s, a) && b in s.bindings && id !in s.monitors
    ensures var s' := Stopped(Started(s, id, b), id);
      && s'.bindings == s.bindings && s'.monitors == s.monitors && s'.probes == s.probes && s'.stats == s.stats
      && forall g :: g in s.heap ==> g in s'.heap && s'.heap[g] == s.heap[g]
  {
    RepIsOlder(s, a);
    assert id !in s.stats;
    assert forall g :: g in s.heap ==> g < s.next;
    Undo(s, id, b);
  }

  lemma Undo(s: State, id: Id, b: Binding)
    requires Older(s) && b in s.bindings && id !in s.monitors && id !in s.stats
    requires forall g :: g in s.heap ==> g < s.next
    ensures var s' := Stopped(Started(s, id, b), id);
      && s'.bindings == s.bindings && s'.monitors == s.monitors && s'.probes == s.probes && s'.stats == s.stats
      && forall g :: g in s.heap ==> g in s'.heap && s'.heap[g] == s.heap[g]
  {
    var s' := Stopped(Started(s, id, b), id);
    UndoMonitors(s, id, b);
    forall g | g in s.heap ensures g in s'.heap && s'.heap[g] == s.heap[g] {
      UndoHeap(s, id, b, g);
    }
    assert s'.bindings == s.bindings;
    assert s'.stats == s.stats;
  }

  lemma BoundIsOld(s: State, a: Chains, b: Binding)
    requires Rep(s, a) && b in s.bindings
    ensures s.bindings[b] < s.next
  {
    var f := a.origin[b];
    assert StackOk(s, a, f);
    LayersRegistered(s, f, BornAs(a, f), a.stacks[f]);
    if a.stacks[f] != [] {
      assert a.stacks[f][0] in a.stacks[f];
    }
  }

  lemma OldMonitor(s: State, a: Chains, k: Id)
    requires HeapOk(s, a) && StacksOk(s, a) && RecordsOk(s, a) && k in s.monitors
    ensures var m := s.monitors[k];
      && m.wrapper in s.heap && m.wrapper < s.next && m.original < s.next
      && s.heap[m.wrapper] == MonitorFn(k, m.original, m.original)
      && (m.ownedRoot.Some? ==> m.ownedRoot.value < s.next)
  {
    MonitorRecordOk(s, a, k);
    var below := RecordFacts(s, a, k);
    var m := s.monitors[k];
    if m.ownedRoot.Some? {
      OwnedIsRoot(m.ownedRoot.value, a.home[m.wrapper], below);
      RootIsOld(s, a.home[m.wrapper], BornAs(a, a.home[m.wrapper]), below, m.ownedRoot.value);
    }
  }

  lemma OldProbe(s: State, a: Chains, k: Id)
    requires HeapOk(s, a) && StacksOk(s, a) && RecordsOk(s, a) && k in s.probes
    ensures var p := s.probes[k];
      && p.wrapper in s.heap && p.original < s.next && p.rootOriginal < s.next
      && (p.previous.Some? ==> p.previous.value < s.next)
      && s.heap[p.wrapper] == ProbeFn(k, p.original, p.original)
  {
    ProbeRecordOk(s, a, k);
    var below := ProbeFacts(s, a, k);
    var p := s.probes[k];
    RootIsOld(s, a.home[p.wrapper], BornAs(a, a.home[p.wrapper]), below, p.rootOriginal);
  }

  lemma RootIsOld(s: State, f: Fn, bs: set<Binding>, st: seq<Layer>, x: Fn)
    requires Linked(s, f, bs, st) && f in s.heap && RootOk(x, f, st)
    ensures x in s.heap
  {
    LayersRegistered(s, f, bs, st);
    if x != f {
      MonitorIn(st, x);
    }
  }

  lemma LiveIsOld(s: State, a: Chains, g: Fn)
    requires HeapOk(s, a) && StacksOk(s, a) && RecordsOk(s, a) && g in LiveWrappers(s)
    ensures g in s.heap && (s.heap[g].Plain? || (s.heap[g].func < s.next && s.heap[g].wrapped < s.next))
  {
    if k :| k in s.monitors && s.monitors[k].wrapper == g {
      OldMonitor(s, a, k);
    } else {
      var k :| k in s.probes && s.probes[k].wrapper == g;
      OldProbe(s, a, k);
    }
  }

  lemma {:induction false} WithoutCommutes(st: seq<Layer>, i: Id, j: Id)
    requires i != j
    ensures Without(Without(st, i), j) == Without(Without(st, j), i)
  {
    if st != [] {
      WithoutCommutes(st[1..], i, j);
    }
  }

  /** States with the same stacks bind and run the same. */
  lemma SameStacksSameCalls(x: State, p: Chains, y: State, q: Chains)
    requires Rep(x, p) && Rep(y, q) && p.stacks == q.stacks && p.origin == q.origin
    ensures x.bindings == y.bindings
    ensures forall b, t :: b in x.bindings ==> (Runs(x.heap, x.bindings[b], t) <==> Runs(y.heap, y.bindings[b], t))
  {
    forall b | b in x.bindings
      ensures x.bindings[b] == y.bindings[b]
      ensures forall t :: Runs(x.heap, x.bindings[b], t) <==> Runs(y.heap, y.bindings[b], t)
    {
      CallCourse(x, p, b);
      CallCourse(y, q, b);
    }
  }

  lemma StopTwice(s: State, a: Chains, i: Id, j: Id)
    requires Rep(s, a) && i in s.monitors && j in s.monitors && i != j
    ensures Rep(Stopped(Stopped(s, i), j), Remove(Remove(a, i), j))
  {
    StopRep(s, a, i);
    StopRep(Stopped(s, i), Remove(a, i), j);
  }

  /** Two monitors can be stopped in either order: the bindings and every call come out the same. */
  lemma StopsCommute(s: State, a: Chains, i: Id, j: Id)
    requires Rep(s, a) && i in s.monitors && j in s.monitors && i != j
    ensures var x, y := Stopped(Stopped(s, i), j), Stopped(Stopped(s, j), i);
      && x.bindings == y.bindings
      && forall b, t :: b in x.bindings ==> (Runs(x.heap, x.bindings[b], t) <==> Runs(y.heap, y.bindings[b], t))
  {
    StopTwice(s, a, i, j);
    StopTwice(s, a, j, i);
    RemoveCommutes(a, i, j);
    SameStacksSameCalls(Stopped(Stopped(s, i), j), Remove(Remove(a, i), j), Stopped(Stopped(s, j), i), Remove(Remove(a, j), i));
  }

  lemma RemoveCommutes(a: Chains, i: Id, j: Id)
    requires i != j
    ensures Remove(Remove(a, i), j).stacks == Remove(Remove(a, j), i).stacks
  {
    forall f | f in a.stacks
      ensures Remove(Remove(a, i), j).stacks[f] == Remove(Remove(a, j), i).stacks[f]
    {
      WithoutCommutes(a.stacks[f], i, j);
    }
  }

  // ----- what stands beneath a recorded root

  /** The part of a stack that begins with the monitor `x`, or nothing for the function itself. */
  lemma {:induction false} RootStack(s: State, f: Fn, bs: set<Binding>, st: seq<Layer>, x: Fn) returns (sub: seq<Layer>)
    requires Linked(s, f, bs, st) && f in s.heap && s.heap[f].Plain? && RootOk(x, f, st)
    ensures Linked(s, f, bs, sub) && Top(sub, f) == x
    ensures KnownRoot(s, x).None? <==> !HasProbe(sub)
  {
    if x == f {
      sub := [];
    } else {
      assert LayerOk(s, f, bs, st[0], st[1..]);
      if !st[0].probe && st[0].fn == x {
        LayersRegistered(s, f, bs, st);
        assert st[0] in st;
        assert KnownRoot(s, x) == s.monitors[st[0].id].ownedRoot;
        sub := st;
      } else {
        sub := RootStack(s, f, bs, st[1..], x);
      }
    }
  }

  /** The wrappers a course enters are monitors, all of them. */
  ghost predicate EntersOnlyMonitors(s: State, trace: seq<Fn>) {
    forall i :: 0 <= i < |trace| - 1 ==> trace[i] in s.heap && s.heap[trace[i]].MonitorFn?
  }

  lemma {:induction false} NoProbeOnCourse(s: State, f: Fn, bs: set<Binding>, st: seq<Layer>)
    requires Linked(s, f, bs, st)
    ensures EntersOnlyMonitors(s, Course(st, f)) <==> !HasProbe(st)
  {
    if st != [] {
      NoProbeOnCourse(s, f, bs, st[1..]);
      var c, d := Course(st, f), Course(st[1..], f);
      assert c == [st[0].fn] + d;
      assert LayerOk(s, f, bs, st[0], st[1..]);
      CourseShape(s, f, bs, st);
      if EntersOnlyMonitors(s, c) {
        assert c[0] == st[0].fn;
        forall i | 0 <= i < |d| - 1 ensures d[i] in s.heap && s.heap[d[i]].MonitorFn? {
          assert d[i] == c[i + 1];
        }
      }
      if EntersOnlyMonitors(s, d) && !st[0].probe {
        forall i | 0 <= i < |c| - 1 ensures c[i] in s.heap && s.heap[c[i]].MonitorFn? {
          assert i > 0 ==> c[i] == d[i - 1];
        }
      }
    }
  }

  /**
   * In every reachable state, following the cells from a probe's recorded root ends in the function
   * the probe was injected on, and meets only monitors on the way exactly when that root, looked
   * up as a target, has no root of its own.
   */
  lemma RootBeneath(r: Run, n: nat, k: Id, f: Fn) returns (trace: seq<Fn>)
    requires Valid(r) && n <= |r.events| && f in r.states[0].heap && InjectedOn(r, n, k, f)
    ensures k in r.states[n].probes
    ensures forall t :: Runs(r.states[n].heap, r.states[n].probes[k].rootOriginal, t) <==> t == trace
    ensures trace != [] && trace[|trace| - 1] == f
    ensures EntersOnlyMonitors(r.states[n], trace) <==> KnownRoot(r.states[n], r.states[n].probes[k].rootOriginal).None?
  {
    ReachableRep(r, n);
    StackedIffInjected(r, n, k, f);
    var s, a := r.states[n], Reference(r, n);
    assert StackOk(s, a, f);
    ProbeHome(s, a, k, f);
    var below := ProbeFacts(s, a, k);
    var x := s.probes[k].rootOriginal;
    var sub := RootStack(s, f, BornAs(a, f), below, x);
    StackRuns(s, f, BornAs(a, f), sub);
    NoProbeOnCourse(s, f, BornAs(a, f), sub);
    CourseShape(s, f, BornAs(a, f), sub);
    trace := Course(sub, f);
    forall t | Runs(s.heap, x, t) ensures t == trace {
      RunsUnique(s.heap, x, t, trace);
    }
  }

  lemma ProbeHome(s: State, a: Chains, k: Id, f: Fn)
    requires StacksOk(s, a) && RecordsOk(s, a) && f in a.stacks && Probes(a.stacks[f], k)
    ensures k in s.probes && s.probes[k].wrapper in a.home && a.home[s.probes[k].wrapper] == f
  {
    assert StackOk(s, a, f);
    ProbesLayer(a.stacks[f], k);
    LayersRegistered(s, f, BornAs(a, f), a.stacks[f]);
  }

  /** A program of one function, bound once. */
  const ONE_FUNCTION := State(map[0 := Plain(None)], 1, map[0 := 0], map[], map[], map[])

  /** A probe, a monitor, and a probe again on one function: the second probe's root is the monitor, over a probe. */
  lemma RootOverProbe()
    ensures Pristine(ONE_FUNCTION)
    ensures var s := Injected(Started(Injected(ONE_FUNCTION, 1, 0), 1, 0), 2, 0);
      s.probes[2].rootOriginal == s.monitors[1].wrapper && s.monitors[1].original == s.probes[1].wrapper
  {
  }
}
