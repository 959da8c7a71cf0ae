/**
 * The flusher and the producers of one connection taking turns: the queue lock is released
 * between taking an observation out and putting it back, so producers can run in between.
 * Observations are named by the order in which they were enqueued.
 */
module FlushInterleaving {
  import opened Options
  import opened ObservationQueue

  /**
   * `held`, `batch`, `processed` and `localDropped` are the flusher's own; `uncounted` counts the
   * observations that a push-back evicts without any counter of the source noticing.
   */
  datatype Machine = Machine(
    queue: seq<nat>,
    enqueued: nat,
    flushing: bool,
    held: Option<nat>,
    batch: seq<nat>,
    processed: nat,
    localDropped: nat,
    closing: bool,
    producedSincePop: bool,
    delivered: seq<nat>,
    dropped: nat,
    uncounted: nat,
    lost: nat)

  const START := Machine([], 0, false, None, [], 0, 0, false, false, [], 0, 0, 0)

  datatype Action =
    | Produce            // one `_enqueue_observation`
    | BeginFlush
    | Pop                // the first locked section of the loop
    | Reject             // the held observation cannot be encoded or is too big
    | Accept             // its frame joins the batch
    | PushBack           // it does not fit: the second locked section
    | Finish(sent: bool) // counters, then the send

  predicate Enabled(m: Machine, a: Action) {
    match a
    case Produce => true
    case BeginFlush => !m.flushing
    case Pop => m.flushing && m.held.None? && !m.closing && m.processed < MAX_BATCH_COUNT && m.queue != []
    case Reject => m.held.Some?
    case Accept => m.held.Some?
    case PushBack => m.held.Some? && m.batch != []
    case Finish(_) => m.flushing && m.held.None?
  }

  /** `deque.append` on a bounded deque: a full one loses its oldest element. */
  function Append(q: seq<nat>, x: nat): seq<nat> {
    (if |q| >= CAPACITY then q[1..] else q) + [x]
  }

  /** `deque.appendleft` on a bounded deque: a full one loses its newest element. */
  function AppendLeft(q: seq<nat>, x: nat): seq<nat> {
    [x] + if |q| >= CAPACITY then q[..|q| - 1] else q
  }

  function Act(m: Machine, a: Action): Machine
    requires Enabled(m, a)
  {
    match a
    case Produce =>
      m.(queue := Append(m.queue, m.enqueued), enqueued := m.enqueued + 1, producedSincePop := true,
         dropped := m.dropped + if |m.queue| >= CAPACITY then 1 else 0)
    case BeginFlush => m.(flushing := true, batch := [], processed := 0, localDropped := 0, closing := false)
    case Pop => m.(held := Some(m.queue[0]), queue := m.queue[1..], producedSincePop := false)
    case Reject => m.(held := None, processed := m.processed + 1, localDropped := m.localDropped + 1)
    case Accept => m.(held := None, processed := m.processed + 1, batch := m.batch + [m.held.value])
    case PushBack =>
      m.(held := None, closing := true, queue := AppendLeft(m.queue, m.held.value),
         uncounted := m.uncounted + if |m.queue| >= CAPACITY then 1 else 0)
    case Finish(sent) =>
      m.(flushing := false, batch := [], localDropped := 0, processed := 0,
         dropped := m.dropped + m.localDropped,
         delivered := if sent then m.delivered + m.batch else m.delivered,
         lost := m.lost + if sent then 0 else |m.batch|)
  }

  function Held(m: Machine): seq<nat> {
    if m.held.Some? then [m.held.value] else []
  }

  /** Everything not dropped, oldest first: delivered, then under way, then waiting. */
  function InOrder(m: Machine): seq<nat> {
    m.delivered + m.batch + Held(m) + m.queue
  }

  predicate Increasing(s: seq<nat>) {
    forall i, j :: 0 <= i < j < |s| ==> s[i] < s[j]
  }

  predicate Below(s: seq<nat>, n: nat) {
    forall i :: 0 <= i < |s| ==> s[i] < n
  }

  predicate Ordered(m: Machine) {
    Increasing(InOrder(m)) && Below(InOrder(m), m.enqueued)
  }

  predicate Counted(m: Machine) {
    && |m.queue| <= CAPACITY
    && m.enqueued == |m.delivered| + |m.batch| + |Held(m)| + |m.queue| + m.dropped + m.localDropped + m.uncounted + m.lost
    && (m.held.Some? ==> m.flushing && (m.producedSincePop || |m.queue| < CAPACITY))
    && (!m.flushing ==> m.batch == [] && m.localDropped == 0)
  }

  /** A subsequence that leaves out one contiguous piece. */
  lemma CutOut(s: seq<nat>, x: seq<nat>, y: seq<nat>, z: seq<nat>, n: nat)
    requires s == x + y + z && Increasing(s) && Below(s, n)
    ensures Increasing(x + z) && Below(x + z, n)
  {
    var t := x + z;
    forall i | 0 <= i < |t| ensures t[i] < n {
      assert t[i] == s[if i < |x| then i else i + |y|];
    }
    forall i, j | 0 <= i < j < |t| ensures t[i] < t[j] {
      assert t[i] == s[if i < |x| then i else i + |y|] && t[j] == s[if j < |x| then j else j + |y|];
    }
  }

  lemma ActCounts(m: Machine, a: Action)
    requires Counted(m) && Enabled(m, a)
    ensures Counted(Act(m, a))
  {
  }

  lemma SameOrder(m: Machine, w: Machine)
    requires Ordered(m) && InOrder(w) == InOrder(m) && w.enqueued >= m.enqueued
    ensures Ordered(w)
  {
  }

  lemma ProduceOrder(m: Machine)
    requires Ordered(m)
    ensures Ordered(Act(m, Produce))
  {
    var early := m.delivered + m.batch + Held(m);
    var kept := if |m.queue| >= CAPACITY then m.queue[1..] else m.queue;
    var oldest := if |m.queue| >= CAPACITY then m.queue[..1] else [];
    assert InOrder(m) == early + oldest + kept;
    CutOut(InOrder(m), early, oldest, kept, m.enqueued);
    assert InOrder(Act(m, Produce)) == early + kept + [m.enqueued];
  }

  lemma PushBackOrder(m: Machine)
    requires Ordered(m) && Enabled(m, PushBack)
    ensures Ordered(Act(m, PushBack))
  {
    var early := m.delivered + m.batch + Held(m);
    var n := if |m.queue| >= CAPACITY then |m.queue| - 1 else |m.queue|;
    assert InOrder(m) == (early + m.queue[..n]) + m.queue[n..] + [];
    CutOut(InOrder(m), early + m.queue[..n], m.queue[n..], [], m.enqueued);
    assert InOrder(Act(m, PushBack)) == early + m.queue[..n] + [];
  }

  lemma LeaveOutOrder(m: Machine, w: Machine, x: seq<nat>, y: seq<nat>, z: seq<nat>)
    requires Ordered(m) && InOrder(m) == x + y + z && InOrder(w) == x + z && w.enqueued == m.enqueued
    ensures Ordered(w)
  {
    CutOut(InOrder(m), x, y, z, m.enqueued);
  }

  /** Whatever happens, what is not dropped stays in the order it was enqueued. */
  lemma ActOrders(m: Machine, a: Action)
    requires Ordered(m) && Counted(m) && Enabled(m, a)
    ensures Ordered(Act(m, a))
  {
    var w := Act(m, a);
    match a
    case Produce => ProduceOrder(m);
    case BeginFlush => SameOrder(m, w);
    case Pop =>
      assert InOrder(w) == InOrder(m);
      SameOrder(m, w);
    case Reject =>
      LeaveOutOrder(m, w, m.delivered + m.batch, [m.held.value], m.queue);
    case Accept =>
      assert InOrder(w) == InOrder(m);
      SameOrder(m, w);
    case PushBack => PushBackOrder(m);
    case Finish(sent) =>
      if sent {
        assert InOrder(w) == InOrder(m);
        SameOrder(m, w);
      } else {
        assert InOrder(m) == m.delivered + m.batch + m.queue;
        LeaveOutOrder(m, w, m.delivered, m.batch, m.queue);
      }
  }

  /** A run: each action is enabled in the state it finds. */
  ghost predicate IsRun(actions: seq<Action>)
    decreases |actions|, 0
  {
    actions == [] || (IsRun(actions[..|actions| - 1]) && Enabled(After(actions[..|actions| - 1]), actions[|actions| - 1]))
  }

  ghost function After(actions: seq<Action>): Machine
    requires IsRun(actions)
    decreases |actions|, 1
  {
    if actions == [] then START else Act(After(actions[..|actions| - 1]), actions[|actions| - 1])
  }

  lemma {:induction false} RunKeeps(actions: seq<Action>)
    requires IsRun(actions)
    ensures Ordered(After(actions)) && Counted(After(actions))
  {
    if actions != [] {
      RunKeeps(actions[..|actions| - 1]);
      ActOrders(After(actions[..|actions| - 1]), actions[|actions| - 1]);
      ActCounts(After(actions[..|actions| - 1]), actions[|actions| - 1]);
    }
  }

  lemma RunStep(actions: seq<Action>, a: Action)
    requires IsRun(actions) && Enabled(After(actions), a)
    ensures IsRun(actions + [a]) && After(actions + [a]) == Act(After(actions), a)
  {
    assert (actions + [a])[..|actions|] == actions;
  }

  lemma {:induction false} RunPrefix(actions: seq<Action>, i: nat)
    requires IsRun(actions) && i <= |actions|
    ensures IsRun(actions[..i])
  {
    if i < |actions| {
      RunPrefix(actions[..|actions| - 1], i);
      assert actions[..|actions| - 1][..i] == actions[..i];
    } else {
      assert actions[..i] == actions;
    }
  }

  /** No flush takes more than 64 observations, and each is in its batch or counted by it. */
  lemma {:induction false} FlushesAreBounded(actions: seq<Action>)
    requires IsRun(actions)
    ensures var m := After(actions);
      && m.processed == |m.batch| + m.localDropped
      && m.processed + |Held(m)| <= MAX_BATCH_COUNT
  {
    if actions != [] {
      FlushesAreBounded(actions[..|actions| - 1]);
    }
  }

  // ----- the events that unbalance the counters

  /** The `i`-th action puts an observation back on a full queue. */
  ghost predicate PutsBackOnFull(actions: seq<Action>, i: nat)
    requires i < |actions|
  {
    actions[i] == PushBack && IsRun(actions[..i]) && |After(actions[..i]).queue| == CAPACITY
  }

  /** The `i`-th action fails to send a batch that is not empty. */
  ghost predicate LosesBatch(actions: seq<Action>, i: nat)
    requires i < |actions|
  {
    actions[i] == Finish(false) && IsRun(actions[..i]) && After(actions[..i]).batch != []
  }

  ghost predicate NeverPutsBackOnFull(actions: seq<Action>) {
    forall i :: 0 <= i < |actions| ==> !PutsBackOnFull(actions, i)
  }

  ghost predicate NeverLosesBatch(actions: seq<Action>) {
    forall i :: 0 <= i < |actions| ==> !LosesBatch(actions, i)
  }

  lemma NeverBefore(actions: seq<Action>)
    requires IsRun(actions) && actions != []
    ensures var before, last := actions[..|actions| - 1], |actions| - 1;
      && (NeverPutsBackOnFull(actions) <==> NeverPutsBackOnFull(before) && !PutsBackOnFull(actions, last))
      && (NeverLosesBatch(actions) <==> NeverLosesBatch(before) && !LosesBatch(actions, last))
  {
    var before := actions[..|actions| - 1];
    forall i | 0 <= i < |before|
      ensures PutsBackOnFull(before, i) <==> PutsBackOnFull(actions, i)
      ensures LosesBatch(before, i) <==> LosesBatch(actions, i)
    {
      SameBefore(actions, i);
    }
  }

  lemma SameBefore(actions: seq<Action>, i: nat)
    requires i < |actions| - 1
    ensures var before := actions[..|actions| - 1];
      && (PutsBackOnFull(before, i) <==> PutsBackOnFull(actions, i))
      && (LosesBatch(before, i) <==> LosesBatch(actions, i))
  {
    assert actions[..|actions| - 1][..i] == actions[..i];
  }

  lemma {:induction false} SlackIff(actions: seq<Action>)
    requires IsRun(actions)
    ensures After(actions).uncounted == 0 <==> NeverPutsBackOnFull(actions)
    ensures After(actions).lost == 0 <==> NeverLosesBatch(actions)
  {
    if actions != [] {
      var before, last := actions[..|actions| - 1], |actions| - 1;
      SlackIff(before);
      NeverBefore(actions);
      RunKeeps(before);
      assert actions[..last] == before;
    }
  }

  /**
   * Over every interleaving deliveries are in enqueue order, and the counters of the source never
   * claim more than was enqueued. Between flushes they balance exactly when no observation was put
   * back on a full queue and no batch was lost to a failed send.
   */
  lemma CountersOverRuns(actions: seq<Action>)
    requires IsRun(actions)
    ensures var m := After(actions);
      && Increasing(m.delivered + m.queue)
      && m.enqueued >= |m.delivered| + m.dropped + |m.queue|
      && (!m.flushing ==>
            (m.enqueued == |m.delivered| + m.dropped + |m.queue|
             <==> NeverPutsBackOnFull(actions) && NeverLosesBatch(actions)))
  {
    RunKeeps(actions);
    SlackIff(actions);
    var m := After(actions);
    CutOut(InOrder(m), m.delivered, m.batch + Held(m), m.queue, m.enqueued) by {
      assert InOrder(m) == m.delivered + (m.batch + Held(m)) + m.queue;
    }
  }

  /** Did a producer run after the last pop of a schedule? */
  predicate ProducedSincePop(actions: seq<Action>) {
    actions != [] &&
    match actions[|actions| - 1]
    case Produce => true
    case Pop => false
    case _ => ProducedSincePop(actions[..|actions| - 1])
  }

  lemma {:induction false} ProducedIsRecorded(actions: seq<Action>)
    requires IsRun(actions)
    ensures After(actions).producedSincePop == ProducedSincePop(actions)
  {
    if actions != [] {
      ProducedIsRecorded(actions[..|actions| - 1]);
    }
  }

  /** No producer runs between a pop and the push-back of what it took. */
  predicate Undisturbed(actions: seq<Action>) {
    forall i :: 0 <= i < |actions| && actions[i] == PushBack ==> !ProducedSincePop(actions[..i])
  }

  /** On such a schedule only failed sends unbalance the counters. */
  lemma UndisturbedBalances(actions: seq<Action>)
    requires IsRun(actions) && Undisturbed(actions) && !After(actions).flushing
    ensures var m := After(actions);
      m.enqueued == |m.delivered| + m.dropped + |m.queue| <==> NeverLosesBatch(actions)
  {
    forall i | 0 <= i < |actions| ensures !PutsBackOnFull(actions, i) {
      RunPrefix(actions, i);
      if actions[i] == PushBack {
        RunPrefix(actions, i + 1);
        assert actions[..i + 1][..i] == actions[..i];
        ProducedIsRecorded(actions[..i]);
        RunKeeps(actions[..i]);
      }
    }
    CountersOverRuns(actions);
  }

  // ----- a run that evicts an observation uncounted

  function Produces(n: nat): seq<Action> {
    if n == 0 then [] else Produces(n - 1) + [Produce]
  }

  lemma {:induction false} ProducesRun(n: nat)
    requires n <= CAPACITY
    ensures IsRun(Produces(n))
    ensures forall i :: 0 <= i < n ==> |After(Produces(n)).queue| == n && After(Produces(n)).queue[i] == i
    ensures var m := After(Produces(n)); |m.queue| == n && !m.flushing && m == START.(queue := m.queue, enqueued := n, producedSincePop := n > 0)
  {
    if n > 0 {
      ProducesRun(n - 1);
      RunStep(Produces(n - 1), Produce);
    }
  }

  /** A full queue, one frame in the batch, and the next observation popped. */
  lemma SecondPopped() returns (actions: seq<Action>)
    ensures IsRun(actions)
    ensures var m := After(actions);
      && m == START.(queue := m.queue, enqueued := CAPACITY, flushing := true, held := Some(1), batch := [0], processed := 1,
                     producedSincePop := false)
      && |m.queue| == CAPACITY - 2 && forall i :: 0 <= i < |m.queue| ==> m.queue[i] == i + 2
  {
    ProducesRun(CAPACITY);
    actions := Produces(CAPACITY);
    RunStep(actions, BeginFlush);
    actions := actions + [BeginFlush];
    RunStep(actions, Pop);
    actions := actions + [Pop];
    RunStep(actions, Accept);
    actions := actions + [Accept];
    RunStep(actions, Pop);
    actions := actions + [Pop];
  }

  /**
   * A full queue, one frame in the batch, the next observation popped, two produced, and it put
   * back: the newest observation is gone.
   */
  lemma PushBackEvicts() returns (actions: seq<Action>)
    ensures IsRun(actions) && !After(actions).flushing
    ensures NeverLosesBatch(actions) && !NeverPutsBackOnFull(actions)
    ensures var m := After(actions);
      && m.enqueued == CAPACITY + 2 && m.delivered == [0] && m.dropped == 0
      && |m.queue| == CAPACITY && forall i :: 0 <= i < CAPACITY ==> m.queue[i] == i + 1
  {
    actions := SecondPopped();
    var m := After(actions);
    RunStep(actions, Produce);
    actions := actions + [Produce];
    RunStep(actions, Produce);
    actions := actions + [Produce];
    assert After(actions).queue == m.queue + [CAPACITY, CAPACITY + 1];
    RunStep(actions, PushBack);
    actions := actions + [PushBack];
    assert After(actions).queue == [1] + m.queue + [CAPACITY];
    RunStep(actions, Finish(true));
    actions := actions + [Finish(true)];
    SlackIff(actions);
  }

  /** A push-back evicts an observation uncounted only if a producer ran since the pop. */
  lemma PushBackEvictsOnlyAfterProduce(actions: seq<Action>)
    requires IsRun(actions) && Enabled(After(actions), PushBack)
    ensures Act(After(actions), PushBack).uncounted > After(actions).uncounted ==> ProducedSincePop(actions)
  {
    RunKeeps(actions);
    ProducedIsRecorded(actions);
  }
}
