/**
 * The commands that instrument a process, updating function objects, bindings and records in
 * place. Each is proved to have the effect that `WrapperState` gives for it.
 */
module Instrumentation {
  import opened Options
  import opened MonitorStats
  import opened WrapperState
  import opened WrapperChain
  import opened WrapperRuns

  /** The cells of every registered wrapper agree with its record. */
  ghost predicate Linkage(s: State) {
    && (forall k :: k in s.monitors ==>
          s.monitors[k].wrapper in s.heap &&
          s.heap[s.monitors[k].wrapper] == MonitorFn(k, s.monitors[k].original, s.monitors[k].original))
    && (forall k :: k in s.probes ==>
          s.probes[k].wrapper in s.heap &&
          s.heap[s.probes[k].wrapper] == ProbeFn(k, s.probes[k].original, s.probes[k].original))
  }

  /**
   * What the commands rely on. It is said of the records, the cells and the bindings alone, and
   * holds in every state that corresponds to stacks of wrappers (`RepReady`).
   */
  ghost predicate Ready(s: State) {
    && Linkage(s) && s.next !in s.heap
    && (forall b :: b in s.bindings ==> s.bindings[b] in s.heap)
    && (forall f :: f in s.heap ==> DecoratesPlain(s.heap, f))
    && forall k :: k in s.monitors ==> Stoppable(s, k)
  }

  lemma RepLinkage(s: State, a: Chains)
    requires Rep(s, a)
    ensures Linkage(s)
  {
    forall k | k in s.monitors
      ensures s.monitors[k].wrapper in s.heap &&
              s.heap[s.monitors[k].wrapper] == MonitorFn(k, s.monitors[k].original, s.monitors[k].original)
    {
      OldMonitor(s, a, k);
    }
    forall k | k in s.probes
      ensures s.probes[k].wrapper in s.heap &&
              s.heap[s.probes[k].wrapper] == ProbeFn(k, s.probes[k].original, s.probes[k].original)
    {
      ProbeRecordOk(s, a, k);
    }
  }

  lemma RepBound(s: State, a: Chains)
    requires Rep(s, a)
    ensures forall b :: b in s.bindings ==> s.bindings[b] in s.heap
  {
    forall b | b in s.bindings ensures s.bindings[b] in s.heap {
      var f := a.origin[b];
      assert StackOk(s, a, f);
      LayersRegistered(s, f, BornAs(a, f), a.stacks[f]);
      if a.stacks[f] != [] {
        assert a.stacks[f][0] in a.stacks[f];
      }
    }
  }

  /** Every state that corresponds to stacks of wrappers is one the commands can work on. */
  lemma RepReady(s: State, a: Chains)
    requires Rep(s, a)
    ensures Ready(s)
  {
    RepLinkage(s, a);
    RepBound(s, a);
    forall k | k in s.monitors ensures Stoppable(s, k) {
      RepStoppable(s, a, k);
    }
  }

  /** So the preconditions of the commands below hold in every reachable state. */
  lemma ReachableReady(r: Run, n: nat)
    requires Valid(r) && n <= |r.events|
    ensures Ready(r.states[n]) && r.states[n].stats.Keys == r.states[n].monitors.Keys
    ensures forall b :: b in r.states[n].bindings ==> Callable(r.states[n], b)
  {
    ReachableRep(r, n);
    var s, a := r.states[n], Reference(r, n);
    RepReady(s, a);
    forall b | b in s.bindings ensures Callable(s, b) {
      var f := a.origin[b];
      assert StackOk(s, a, f);
      assert StandsAt(s, b, f, BornAs(a, f), a.stacks[f]);
    }
  }

  /** A stack over the plain function `home` is what `b` holds. */
  ghost predicate StandsAt(s: State, b: Binding, home: Fn, bs: set<Binding>, st: seq<Layer>)
    requires b in s.bindings
  {
    s.bindings[b] == Top(st, home) && Linked(s, home, bs, st) && home in s.heap && s.heap[home].Plain?
  }

  ghost predicate Callable(s: State, b: Binding)
    requires b in s.bindings
  {
    exists home, bs, st :: StandsAt(s, b, home, bs, st)
  }

  lemma RepStoppable(s: State, a: Chains, id: Id)
    requires Rep(s, a) && id in s.monitors
    ensures Stoppable(s, id)
  {
    StopStandsOn(s, a, id);
    StopHolders(s, a, id);
    forall k | k in s.monitors && k != id ensures OtherMonitor(s.monitors[k], s.monitors[id]) {
      StopOtherMonitor(s, a, id, k);
    }
    forall k | k in s.probes ensures OtherProbe(s.probes[k], s.monitors[id]) {
      StopOtherProbe(s, a, id, k);
    }
  }

  // ----- facts about the monitor being stopped

  /** What stands under the stopped monitor: a live wrapper, or the function of the program itself. */
  ghost predicate StandsOn(s: State, m: MonitorRec) {
    m.original in LiveWrappers(s) || (m.original in s.heap && s.heap[m.original].Plain? && RootAfter(m) == m.original)
  }

  /** How another monitor's record may refer to the stopped one. */
  ghost predicate OtherMonitor(r: MonitorRec, m: MonitorRec) {
    && r.wrapper != m.wrapper
    && (r.original == m.wrapper ==> r.ownedRoot != Some(m.wrapper) && (r.ownedRoot.None? ==> m.ownedRoot.None?))
  }

  /** How a probe's record may refer to the stopped monitor. */
  ghost predicate OtherProbe(p: ProbeRec, m: MonitorRec) {
    && p.wrapper != m.wrapper
    && (p.previous.Some? ==> p.previous.value == p.original)
    && (p.rootOriginal == m.wrapper ==> m.original != p.wrapper)
  }

  /** The ways in which a stopped monitor can be referred to. */
  ghost predicate Stoppable(s: State, id: Id)
    requires id in s.monitors
  {
    var m := s.monitors[id];
    && StandsOn(s, m) && m.original != m.wrapper
    && (forall b :: b in s.bindings && s.bindings[b] == m.wrapper ==> b == m.at || b in m.aliases)
    && (forall k :: k in s.monitors && k != id ==> OtherMonitor(s.monitors[k], m))
    && (forall k :: k in s.probes ==> OtherProbe(s.probes[k], m))
  }

  lemma StopStandsOn(s: State, a: Chains, id: Id)
    requires Rep(s, a) && id in s.monitors
    ensures StandsOn(s, s.monitors[id]) && s.monitors[id].original != s.monitors[id].wrapper
  {
    var below := RecordFacts(s, a, id);
    var f := a.home[s.monitors[id].wrapper];
    LayersRegistered(s, f, BornAs(a, f), below);
    if below != [] {
      assert below[0] in below;
    }
  }

  lemma StopOtherMonitor(s: State, a: Chains, id: Id, k: Id)
    requires StacksOk(s, a) && RecordsOk(s, a) && id in s.monitors && k in s.monitors && k != id
    ensures OtherMonitor(s.monitors[k], s.monitors[id])
  {
    var m, r := s.monitors[id], s.monitors[k];
    var under := RecordFacts(s, a, id);
    var below := RecordFacts(s, a, k);
    var f := a.home[r.wrapper];
    if r.original == m.wrapper {
      LayersRegistered(s, f, BornAs(a, f), below);
      assert below != [];
      assert below[0] in below;
      assert LayerOk(s, f, BornAs(a, f), below[0], below[1..]);
      if r.ownedRoot.Some? {
        OwnedSkipsNext(s, f, BornAs(a, f), below, r.ownedRoot.value);
      }
    }
  }

  lemma StopOtherProbe(s: State, a: Chains, id: Id, k: Id)
    requires StacksOk(s, a) && RecordsOk(s, a) && id in s.monitors && k in s.probes
    ensures OtherProbe(s.probes[k], s.monitors[id])
  {
    var m, p := s.monitors[id], s.probes[k];
    var under := RecordFacts(s, a, id);
    var below := ProbeFacts(s, a, k);
    var f := a.home[p.wrapper];
    LayersRegistered(s, f, BornAs(a, f), below);
    Descending(s, f, BornAs(a, f), below);
    if p.rootOriginal == m.wrapper && p.rootOriginal != f {
      MonitorIn(below, p.rootOriginal);
    }
  }

  /** The bindings that hold a monitor's wrapper are those its record names. */
  lemma StopHolders(s: State, a: Chains, id: Id)
    requires Rep(s, a) && id in s.monitors
    ensures forall b :: b in s.bindings && s.bindings[b] == s.monitors[id].wrapper ==>
              b == s.monitors[id].at || b in s.monitors[id].aliases
  {
    var m := s.monitors[id];
    var below := RecordFacts(s, a, id);
    forall b | b in s.bindings && s.bindings[b] == m.wrapper ensures b == m.at || b in m.aliases {
      var f := a.origin[b];
      HolderBorn(s, a, id, b);
      assert b in BornAs(a, f);
    }
  }

  lemma HolderBorn(s: State, a: Chains, id: Id, b: Binding)
    requires Rep(s, a) && id in s.monitors && b in s.bindings && s.bindings[b] == s.monitors[id].wrapper
    ensures s.monitors[id].wrapper in a.home && a.home[s.monitors[id].wrapper] == a.origin[b]
  {
    var below := RecordFacts(s, a, id);
    var f := a.origin[b];
    assert StackOk(s, a, f);
    if a.stacks[f] != [] {
      assert a.stacks[f][0] in a.stacks[f];
    }
  }

  /** `f` is the wrapper of a registered monitor other than `id` that is not in `todo`. */
  ghost predicate OfMonitor(s: State, f: Fn, id: Id, todo: set<Id>)
    requires f in s.heap
  {
    && s.heap[f].MonitorFn? && s.heap[f].watchId in s.monitors && s.heap[f].watchId != id
    && s.heap[f].watchId !in todo && s.monitors[s.heap[f].watchId].wrapper == f
  }

  /** `f` is the wrapper of a registered probe that is not in `todo`. */
  ghost predicate OfProbe(s: State, f: Fn, todo: set<Id>)
    requires f in s.heap
  {
    && s.heap[f].ProbeFn? && s.heap[f].watchId in s.probes
    && s.heap[f].watchId !in todo && s.probes[s.heap[f].watchId].wrapper == f
  }

  /** The live wrappers without the stopped one are the wrappers of the other records. */
  lemma LiveWithout(s: State, id: Id)
    requires Linkage(s) && id in s.monitors
    ensures LiveWrappers(s) - {s.monitors[id].wrapper} ==
            (set k | k in s.probes :: s.probes[k].wrapper) + (set k | k in s.monitors - {id} :: (s.monitors - {id})[k].wrapper)
  {
    forall k | k in s.monitors ensures s.monitors[k].wrapper == s.monitors[id].wrapper <==> k == id {
      assert s.heap[s.monitors[k].wrapper].watchId == k && s.heap[s.monitors[id].wrapper].watchId == id;
    }
    forall k | k in s.probes ensures s.probes[k].wrapper != s.monitors[id].wrapper {
      assert s.heap[s.probes[k].wrapper].ProbeFn?;
    }
    forall k | k in s.monitors && k != id ensures k in s.monitors - {id} {}
  }

  /**
   * The wrapper objects while the stop of monitor `id` is under way: those of the monitors and
   * the probes still to do are as they were, those of the others point past the stopped one.
   */
  ghost predicate HeapRepaired(heap: map<Fn, FuncObj>, s: State, id: Id, monitorsToDo: set<Id>, probesToDo: set<Id>)
    requires id in s.monitors
  {
    && heap.Keys == s.heap.Keys
    && forall f :: f in s.heap ==>
         heap[f] == if OfMonitor(s, f, id, monitorsToDo) || OfProbe(s, f, probesToDo)
                    then RedirectObj(s.heap[f], s.monitors[id].wrapper, s.monitors[id].original)
                    else s.heap[f]
  }

  lemma RepairOneMonitor(heap: map<Fn, FuncObj>, s: State, id: Id, todo: set<Id>, k: Id)
    requires Linkage(s) && id in s.monitors && k in s.monitors && k in todo && k != id
    requires HeapRepaired(heap, s, id, todo, s.probes.Keys)
    ensures var w := s.monitors[k].wrapper;
      && w in heap && heap[w] == s.heap[w] == MonitorFn(k, s.monitors[k].original, s.monitors[k].original)
      && HeapRepaired(heap[w := RedirectObj(heap[w], s.monitors[id].wrapper, s.monitors[id].original)], s, id, todo - {k}, s.probes.Keys)
  {
    var w := s.monitors[k].wrapper;
    assert s.heap[w] == MonitorFn(k, s.monitors[k].original, s.monitors[k].original);
  }

  lemma RepairOneProbe(heap: map<Fn, FuncObj>, s: State, id: Id, todo: set<Id>, k: Id)
    requires Linkage(s) && id in s.monitors && k in s.probes && k in todo
    requires HeapRepaired(heap, s, id, {}, todo)
    ensures var w := s.probes[k].wrapper;
      && w in heap && heap[w] == s.heap[w] == ProbeFn(k, s.probes[k].original, s.probes[k].original)
      && HeapRepaired(heap[w := RedirectObj(heap[w], s.monitors[id].wrapper, s.monitors[id].original)], s, id, {}, todo - {k})
  {
    var w := s.probes[k].wrapper;
    assert s.heap[w] == ProbeFn(k, s.probes[k].original, s.probes[k].original);
  }

  lemma MonitorsAreStopped(ms: map<Id, MonitorRec>, s: State, id: Id)
    requires id in s.monitors && ms.Keys == s.monitors.Keys - {id}
    requires forall k :: k in ms ==> ms[k] == RedirectMonitor(s.monitors[k], s.monitors[id])
    ensures ms == Stopped(s, id).monitors
  {
  }

  lemma ProbesAreStopped(ps: map<Id, ProbeRec>, s: State, id: Id)
    requires id in s.monitors && ps.Keys == s.probes.Keys
    requires forall k :: k in ps ==> ps[k] == RedirectProbe(s.probes[k], s.monitors[id])
    ensures ps == Stopped(s, id).probes
  {
  }

  /** A heap repaired for every record is the heap after the stop. */
  lemma RepairedIsStopped(heap: map<Fn, FuncObj>, s: State, id: Id)
    requires Linkage(s) && id in s.monitors && HeapRepaired(heap, s, id, {}, {})
    ensures heap == Stopped(s, id).heap
  {
    forall f | f in s.heap
      ensures OfMonitor(s, f, id, {}) || OfProbe(s, f, {}) <==> f in LiveWrappers(s) - {s.monitors[id].wrapper}
    {
      if f in LiveWrappers(s) {
        if k :| k in s.monitors && s.monitors[k].wrapper == f {
          assert s.heap[f].watchId == k;
        }
      }
      assert s.heap[s.monitors[id].wrapper].watchId == id;
    }
  }

  /** The instrumented process: its objects and bindings, and the records of both commands. */
  class Process {
    var heap: map<Fn, FuncObj>
    var next: Fn
    var bindings: map<Binding, Fn>
    var monitors: map<Id, MonitorRec>
    var instrumented: map<Id, ProbeRec>
    const manager: MonitorManager

    ghost function View(): State
      reads this, manager
    {
      State(heap, next, bindings, monitors, instrumented, manager.stats)
    }

    constructor (heap: map<Fn, FuncObj>, next: Fn, bindings: map<Binding, Fn>)
      ensures View() == State(heap, next, bindings, map[], map[], map[]) && fresh(manager)
    {
      this.heap, this.next, this.bindings := heap, next, bindings;
      monitors, instrumented := map[], map[];
      manager := new MonitorManager();
    }

    /** The key of the probe whose wrapper is `f`. */
    method ActiveProbe(f: Fn) returns (found: Option<Id>)
      ensures found.Some? ==> found.value in instrumented && instrumented[found.value].wrapper == f
      ensures found.None? ==> forall k :: k in instrumented ==> instrumented[k].wrapper != f
    {
      var todo := instrumented.Keys;
      while todo != {}
        invariant todo <= instrumented.Keys
        invariant forall k :: k in instrumented && k !in todo ==> instrumented[k].wrapper != f
      {
        var k :| k in todo;
        if instrumented[k].wrapper == f {
          return Some(k);
        }
        todo := todo - {k};
      }
      return None;
    }

    /** The root that the record of the wrapper `f` knows, probes looked up before monitors. */
    method KnownPeekaRoot(f: Fn) returns (root: Option<Fn>)
      requires Linkage(View())
      ensures root == KnownRoot(View(), f)
    {
      var probe := ActiveProbe(f);
      if probe.Some? {
        return Some(instrumented[probe.value].rootOriginal);
      }
      var todo := monitors.Keys;
      while todo != {}
        invariant todo <= monitors.Keys
        invariant forall k :: k in monitors && k !in todo ==> monitors[k].wrapper != f
      {
        var k :| k in todo;
        if monitors[k].wrapper == f {
          return monitors[k].ownedRoot;
        }
        todo := todo - {k};
      }
      return None;
    }

    /** Set a binding and all its aliases to `f`. */
    method ReplaceAll(b: Binding, aliases: set<Binding>, f: Fn)
      requires b in bindings && aliases <= bindings.Keys
      modifies this`bindings
      ensures bindings == map x | x in old(bindings) :: if x == b || x in aliases then f else old(bindings)[x]
    {
      bindings := bindings[b := f];
      var todo := aliases;
      while todo != {}
        invariant todo <= aliases && bindings.Keys == old(bindings).Keys
        invariant forall x :: x in bindings ==>
                    bindings[x] == if x == b || (x in aliases && x !in todo) then f else old(bindings)[x]
      {
        var x :| x in todo;
        bindings := bindings[x := f];
        todo := todo - {x};
      }
    }

    /** Starts a monitor on what `b` holds; None when there is no such target. */
    method StartMonitor(id: Id, b: Binding) returns (wrapper: Option<Fn>)
      requires Ready(View()) && id !in monitors
      modifies this, manager
      ensures wrapper.Some? <==> b in old(bindings)
      ensures wrapper.None? ==> View() == old(View())
      ensures wrapper.Some? ==> View() == Started(old(View()), id, b) && bindings[b] == wrapper.value
    {
      if b !in bindings {
        return None;
      }
      var target := bindings[b];
      var aliases := set x | x in bindings && bindings[x] == target && x != b;
      var w := next;
      heap := heap[w := MonitorFn(id, target, target)];
      next := next + 1;
      var owned := KnownPeekaRoot(target);
      assert owned == KnownRoot(old(View()), target);
      manager.StartMonitor(id);
      monitors := monitors[id := MonitorRec(w, target, owned, b, aliases)];
      ReplaceAll(b, aliases, w);
      assert bindings == Rebind(old(bindings), target, w);
      wrapper := Some(w);
    }

    /** Injects a probe on what `b` holds; None when there is no such target. */
    method Inject(id: Id, b: Binding) returns (wrapper: Option<Fn>)
      requires Ready(View()) && id !in instrumented
      modifies this
      ensures wrapper.Some? <==> b in old(bindings)
      ensures wrapper.None? ==> View() == old(View())
      ensures wrapper.Some? ==> View() == Injected(old(View()), id, b) && bindings[b] == wrapper.value
    {
      if b !in bindings {
        return None;
      }
      ghost var s := View();
      var target := bindings[b];
      var aliases := set x | x in bindings && bindings[x] == target && x != b;
      var w := next;
      heap := heap[w := ProbeFn(id, target, target)];
      next := next + 1;
      var shared := ActiveProbe(target);
      var root, previous := target, None;
      if shared.Some? {
        root, previous := instrumented[shared.value].rootOriginal, Some(target);
      }
      assert Linkage(s) && s.probes == instrumented;
      assert shared.Some? ==> s.heap[s.probes[shared.value].wrapper].watchId == shared.value;
      assert shared.Some? <==> IsProbeWrapper(s, target);
      instrumented := instrumented[id := ProbeRec(w, target, root, previous, b, aliases)];
      ReplaceAll(b, aliases, w);
      assert bindings == Rebind(old(bindings), target, w);
      wrapper := Some(w);
    }

    /**
     * The nearest registered wrapper below `w` along `__wrapped__`, looking at most 32 objects
     * down and never at one object twice.
     */
    method NearestLowerLiveWrapper(w: Fn, live: set<Fn>) returns (found: Option<Fn>)
      requires w in heap && !heap[w].Plain? && heap[w].wrapped in heap
      requires forall f :: f in heap ==> DecoratesPlain(heap, f)
      requires forall f :: f in live && f in heap ==> !heap[f].Plain?
      requires heap[w].wrapped in live || heap[heap[w].wrapped].Plain?
      ensures found == if heap[w].wrapped in live then Some(heap[w].wrapped) else None
    {
      var candidate := heap[w].Wrapped();
      var visited := {};
      var i := 0;
      while i < 32
        invariant i == 0 ==> candidate == Some(heap[w].wrapped) && visited == {}
        invariant i > 0 ==> heap[w].wrapped !in live
        invariant i > 0 && candidate.Some? ==> candidate.value in heap && heap[candidate.value].Plain?
      {
        if candidate.None? || candidate.value in visited {
          return None;
        }
        visited := visited + {candidate.value};
        if candidate.value in live {
          return candidate;
        }
        assert DecoratesPlain(heap, candidate.value);
        var lower := heap[candidate.value].Wrapped();
        if lower == candidate {
          return None;
        }
        candidate := lower;
        i := i + 1;
      }
      return None;
    }

    /** Points a wrapper that called `from` at `to`: its `__wrapped__`, then its `func` cell. */
    method Retarget(w: Fn, from: Fn, to: Fn)
      requires w in heap && !heap[w].Plain?
      modifies this`heap
      ensures heap == old(heap)[w := RedirectObj(old(heap)[w], from, to)]
    {
      if heap[w].wrapped == from {
        heap := heap[w := heap[w].(wrapped := to)];
      }
      if heap[w].func == from {
        heap := heap[w := heap[w].(func := to)];
      }
      assert heap == old(heap)[w := heap[w]];
    }

    /** What takes the place of the stopped monitor's wrapper. */
    method Replacement(m: MonitorRec, ghost s: State) returns (r: Fn)
      requires Linkage(s) && StandsOn(s, m) && s.heap == heap
      requires forall f :: f in heap ==> DecoratesPlain(heap, f)
      requires m.wrapper in heap && heap[m.wrapper].MonitorFn? && heap[m.wrapper].wrapped == m.original
      requires m.original in heap && m.original != m.wrapper
      requires LiveWrappers(s) - {m.wrapper} ==
               (set k | k in instrumented :: instrumented[k].wrapper) + (set k | k in monitors :: monitors[k].wrapper)
      ensures r == m.original
    {
      var live := (set k | k in instrumented :: instrumented[k].wrapper) + (set k | k in monitors :: monitors[k].wrapper);
      var lower := NearestLowerLiveWrapper(m.wrapper, live);
      if lower.Some? {
        r := lower.value;
      } else if m.original in live {
        r := m.original;
      } else if m.ownedRoot.Some? && m.ownedRoot.value !in live {
        r := m.ownedRoot.value;
      } else {
        r := m.original;
      }
    }

    /** The monitors not in `todo` have been repaired, the others and the probes not yet. */
    ghost predicate MonitorsRepaired(s: State, id: Id, todo: set<Id>)
      requires id in s.monitors
      reads this
    {
      && todo <= monitors.Keys && monitors.Keys == s.monitors.Keys - {id}
      && (forall k :: k in monitors ==>
            monitors[k] == if k in todo then s.monitors[k] else RedirectMonitor(s.monitors[k], s.monitors[id]))
      && HeapRepaired(heap, s, id, todo, s.probes.Keys)
    }

    /** The monitors and the probes not in `todo` have been repaired. */
    ghost predicate ProbesRepaired(s: State, id: Id, todo: set<Id>)
      requires id in s.monitors
      reads this
    {
      && todo <= instrumented.Keys && instrumented.Keys == s.probes.Keys
      && (forall k :: k in instrumented ==>
            instrumented[k] == if k in todo then s.probes[k] else RedirectProbe(s.probes[k], s.monitors[id]))
      && HeapRepaired(heap, s, id, {}, todo)
    }

    /** Repairs the records and the wrappers of the other monitors. */
    method RepairMonitors(m: MonitorRec, r: Fn, ghost s: State, ghost id: Id)
      requires Linkage(s) && id in s.monitors && s.monitors[id] == m && r == m.original
      requires forall k :: k in s.monitors && k != id ==> OtherMonitor(s.monitors[k], m)
      requires s.heap == heap && monitors == s.monitors - {id}
      modifies this`monitors, this`heap
      ensures MonitorsRepaired(s, id, {})
    {
      var todo := monitors.Keys;
      while todo != {}
        invariant MonitorsRepaired(s, id, todo)
      {
        var k :| k in todo;
        RepairMonitorAt(k, m, r, s, id, todo);
        todo := todo - {k};
      }
    }

    method RepairMonitorAt(k: Id, m: MonitorRec, r: Fn, ghost s: State, ghost id: Id, ghost todo: set<Id>)
      requires Linkage(s) && id in s.monitors && s.monitors[id] == m && r == m.original
      requires forall k :: k in s.monitors && k != id ==> OtherMonitor(s.monitors[k], m)
      requires MonitorsRepaired(s, id, todo) && k in todo
      modifies this`monitors, this`heap
      ensures MonitorsRepaired(s, id, todo - {k})
    {
      assert OtherMonitor(s.monitors[k], m);
      RepairOneMonitor(heap, s, id, todo, k);
      var repaired := RepairMonitor(monitors[k], m, r);
      monitors := monitors[k := repaired];
    }

    /** Repairs one monitor: its `original` and its root. */
    method RepairMonitor(p: MonitorRec, m: MonitorRec, r: Fn) returns (q: MonitorRec)
      requires OtherMonitor(p, m) && r == m.original
      requires p.wrapper in heap && heap[p.wrapper].MonitorFn?
      requires heap[p.wrapper].func == heap[p.wrapper].wrapped == p.original
      modifies this`heap
      ensures q == RedirectMonitor(p, m)
      ensures heap == old(heap)[p.wrapper := RedirectObj(old(heap)[p.wrapper], m.wrapper, m.original)]
    {
      q := p;
      if q.original == m.wrapper {
        Retarget(q.wrapper, m.wrapper, r);
        q := q.(original := r);
        if q.ownedRoot.None? {
          q := q.(ownedRoot := m.ownedRoot);
        }
      } else {
        if q.ownedRoot == Some(m.wrapper) {
          q := q.(ownedRoot := Some(m.ownedRoot.Or(m.original)));
        }
        assert heap == heap[p.wrapper := heap[p.wrapper]];
      }
    }

    /** Repairs the records and the wrappers of the probes. */
    method RepairProbes(m: MonitorRec, r: Fn, ghost s: State, ghost id: Id)
      requires Linkage(s) && id in s.monitors && s.monitors[id] == m && r == m.original && r != m.wrapper
      requires forall k :: k in s.probes ==> OtherProbe(s.probes[k], m)
      requires HeapRepaired(heap, s, id, {}, s.probes.Keys) && instrumented == s.probes
      modifies this`instrumented, this`heap
      ensures ProbesRepaired(s, id, {})
    {
      var todo := instrumented.Keys;
      while todo != {}
        invariant ProbesRepaired(s, id, todo)
      {
        var k :| k in todo;
        RepairProbeAt(k, m, r, s, id, todo);
        todo := todo - {k};
      }
    }

    method RepairProbeAt(k: Id, m: MonitorRec, r: Fn, ghost s: State, ghost id: Id, ghost todo: set<Id>)
      requires Linkage(s) && id in s.monitors && s.monitors[id] == m && r == m.original && r != m.wrapper
      requires forall k :: k in s.probes ==> OtherProbe(s.probes[k], m)
      requires ProbesRepaired(s, id, todo) && k in todo
      modifies this`instrumented, this`heap
      ensures ProbesRepaired(s, id, todo - {k})
    {
      assert OtherProbe(s.probes[k], m);
      RepairOneProbe(heap, s, id, todo, k);
      var repaired := RepairProbe(instrumented[k], m, r);
      instrumented := instrumented[k := repaired];
    }

    /** Repairs one probe: `original`, then `previous_wrapper`, then `root_original`. */
    method RepairProbe(p: ProbeRec, m: MonitorRec, r: Fn) returns (q: ProbeRec)
      requires OtherProbe(p, m) && r == m.original && r != m.wrapper
      requires p.wrapper in heap && heap[p.wrapper].ProbeFn?
      requires heap[p.wrapper].func == heap[p.wrapper].wrapped == p.original
      modifies this`heap
      ensures q == RedirectProbe(p, m)
      ensures heap == old(heap)[p.wrapper := RedirectObj(old(heap)[p.wrapper], m.wrapper, m.original)]
    {
      q := p;
      if q.original == m.wrapper {
        Retarget(q.wrapper, m.wrapper, r);
        q := q.(original := r);
      }
      if q.previous == Some(m.wrapper) {
        Retarget(q.wrapper, m.wrapper, r);
        q := q.(previous := Some(r));
      }
      if q.rootOriginal == m.wrapper {
        if m.original != q.wrapper {
          q := q.(rootOriginal := m.ownedRoot.Or(r));
        }
      }
      assert heap[p.wrapper] == RedirectObj(old(heap)[p.wrapper], m.wrapper, m.original);
    }

    /** Every binding the record names that still holds the stopped wrapper gets the replacement. */
    method RestoreBindings(m: MonitorRec, r: Fn)
      requires forall b :: b in bindings && bindings[b] == m.wrapper ==> b == m.at || b in m.aliases
      requires r != m.wrapper
      modifies this`bindings
      ensures bindings == Rebind(old(bindings), m.wrapper, r)
    {
      if m.at in bindings && bindings[m.at] == m.wrapper {
        bindings := bindings[m.at := r];
      }
      var todo := m.aliases;
      while todo != {}
        invariant todo <= m.aliases && bindings.Keys == old(bindings).Keys
        invariant forall b :: b in bindings ==>
                    bindings[b] == if old(bindings)[b] == m.wrapper && (b == m.at || (b in m.aliases && b !in todo))
                                   then r else old(bindings)[b]
      {
        var b :| b in todo;
        if b in bindings && bindings[b] == m.wrapper {
          bindings := bindings[b := r];
        }
        todo := todo - {b};
      }
    }

    /** The pointer surgery of a stop, once the record is gone and the replacement is known. */
    method TakeOut(id: Id, m: MonitorRec, r: Fn, ghost s: State)
      requires Linkage(s) && id in s.monitors && m == s.monitors[id] && Stoppable(s, id) && r == m.original
      requires View() == s.(monitors := s.monitors - {id})
      modifies this
      ensures View() == Stopped(s, id).(stats := s.stats)
    {
      RepairRecords(id, m, r, s);
      RepairedIsStopped(heap, s, id);
      RestoreBindings(m, r);
    }

    method RepairRecords(id: Id, m: MonitorRec, r: Fn, ghost s: State)
      requires Linkage(s) && id in s.monitors && m == s.monitors[id] && Stoppable(s, id) && r == m.original
      requires s.heap == heap && monitors == s.monitors - {id} && instrumented == s.probes
      modifies this`monitors, this`instrumented, this`heap
      ensures monitors == Stopped(s, id).monitors && instrumented == Stopped(s, id).probes
      ensures HeapRepaired(heap, s, id, {}, {})
    {
      RepairMonitors(m, r, s, id);
      MonitorsAreStopped(monitors, s, id);
      RepairProbes(m, r, s, id);
      ProbesAreStopped(instrumented, s, id);
    }

    /** The replacement is computed after the record has been removed. */
    method FindReplacement(id: Id, m: MonitorRec, ghost s: State) returns (r: Fn)
      requires Ready(s) && id in s.monitors && m == s.monitors[id]
      requires View() == s.(monitors := s.monitors - {id})
      ensures r == m.original
    {
      assert Stoppable(s, id);
      LiveWithout(s, id);
      assert m.original in heap by {
        if m.original in LiveWrappers(s) {
          if k :| k in s.monitors && s.monitors[k].wrapper == m.original {
            assert s.monitors[k].wrapper in s.heap;
          }
        }
      }
      r := Replacement(m, s);
    }

    /** Stops a monitor, wherever it is in its stack; an unknown id changes nothing. */
    method StopMonitor(id: Id) returns (final: Option<Stats>)
      requires Ready(View()) && manager.stats.Keys == monitors.Keys
      modifies this, manager
      ensures id !in old(monitors) ==> final.None? && View() == old(View())
      ensures id in old(monitors) ==> final == Some(old(manager.stats)[id]) && View() == Stopped(old(View()), id)
    {
      if id !in monitors {
        return None;
      }
      ghost var s := View();
      var m := monitors[id];
      monitors := monitors - {id};
      var r := FindReplacement(id, m, s);
      TakeOut(id, m, r, s);
      final := manager.StopMonitor(id);
    }

    /**
     * Calls `f`: each wrapper calls the function its cell holds, and a monitor records the outcome
     * on the way out, unless the interpreter is exiting.
     */
    method Invoke(f: Fn, outcome: Outcome, cost: Id -> real, ghost s: State, ghost home: Fn, ghost bs: set<Binding>, ghost st: seq<Layer>)
      returns (trace: seq<Fn>)
      requires s.heap == heap && home in heap && heap[home].Plain? && Linked(s, home, bs, st) && f == Top(st, home)
      modifies manager
      ensures trace == Course(st, home)
      ensures manager.stats == map k | k in old(manager.stats) ::
                if outcome != Exited && Monitors(st, k)
                then Record(old(manager.stats)[k], Sample(outcome == Returned, cost(k)))
                else old(manager.stats)[k]
      decreases |st|
    {
      assert st != [] ==> LayerOk(s, home, bs, st[0], st[1..]);
      match heap[f]
      case Plain(_) =>
        trace := [f];
      case MonitorFn(k, g, _) =>
        DistinctMonitors(s, home, bs, st);
        OnceMonitored(st);
        var inner := Invoke(g, outcome, cost, s, home, bs, st[1..]);
        if outcome != Exited {
          manager.RecordCall(k, outcome == Returned, cost(k));
        }
        trace := [f] + inner;
      case ProbeFn(_, g, _) =>
        var inner := Invoke(g, outcome, cost, s, home, bs, st[1..]);
        trace := [f] + inner;
    }

    /**
     * A call through `b` runs to its end and is recorded by every monitor it enters.
     */
    method Call(b: Binding, outcome: Outcome, cost: Id -> real) returns (trace: seq<Fn>)
      requires b in bindings && Callable(View(), b)
      modifies manager
      ensures Runs(heap, bindings[b], trace)
      ensures View() == Recorded(old(View()), trace, outcome, cost)
    {
      ghost var s := View();
      ghost var home, bs, st :| StandsAt(s, b, home, bs, st);
      StackRuns(s, home, bs, st);
      trace := Invoke(bindings[b], outcome, cost, s, home, bs, st);
      assert manager.stats == Recorded(s, trace, outcome, cost).stats;
    }
  }

  /** The top monitor of a stack with distinct ids does not occur again beneath. */
  lemma OnceMonitored(st: seq<Layer>)
    requires DistinctIds(st) && st != [] && !st[0].probe
    ensures !Monitors(st[1..], st[0].id)
  {
    MonitorsLayer(st[1..], st[0].id);
    forall l | l in st[1..] && !l.probe ensures l.id != st[0].id {
      var j :| 0 <= j < |st[1..]| && st[1..][j] == l;
      assert st[j + 1] == l;
    }
  }
}
