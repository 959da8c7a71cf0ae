/**
 * The sampling profiler: one sample walks every thread's stack from leaf to root and counts,
 * per function key, the stacks it leads (`own`) and the samples it occurs in (`total`).
 */
module TopSampler {

  /** A function key: name, file and current line of a frame. */
  type Key = nat

  /** One thread when it is sampled: does it belong to the profiler itself, and its stack, leaf first. */
  datatype Thread = Thread(peeka: bool, stack: seq<Key>)
  datatype Count = Count(own: nat, total: nat)
  type Sample = seq<Thread>

  // ---------------------------------------------------------------- what the counts mean

  predicate Shown(filter: bool, t: Thread) {
    !(filter && t.peeka)
  }

  /** Does a key occur in a stack that is counted? */
  predicate Occurs(filter: bool, sample: Sample, k: Key) {
    sample != []
    && (Occurs(filter, sample[..|sample| - 1], k)
        || (Shown(filter, sample[|sample| - 1]) && k in sample[|sample| - 1].stack))
  }

  lemma {:induction false} OccursIff(filter: bool, sample: Sample, k: Key)
    ensures Occurs(filter, sample, k) <==> exists t :: t in sample && (filter ==> !t.peeka) && k in t.stack
  {
    if sample != [] {
      var last, rest := sample[|sample| - 1], sample[..|sample| - 1];
      OccursIff(filter, rest, k);
      assert sample == rest + [last];
      assert forall t :: t in sample <==> t in rest || t == last;
    }
  }

  predicate Leads(filter: bool, t: Thread, k: Key) {
    Shown(filter, t) && t.stack != [] && t.stack[0] == k
  }

  lemma LeadsIff(filter: bool, t: Thread, k: Key)
    ensures Leads(filter, t, k) <==> (filter ==> !t.peeka) && exists rest :: t.stack == [k] + rest
  {
    if t.stack != [] {
      assert t.stack == [t.stack[0]] + t.stack[1..];
    }
  }

  /** The number of counted stacks in one sample that a key leads. */
  function Led(filter: bool, sample: Sample, k: Key): nat {
    if sample == [] then 0
    else Led(filter, sample[..|sample| - 1], k) + if Leads(filter, sample[|sample| - 1], k) then 1 else 0
  }

  /** The number of counted stacks in one sample. */
  function Stacks(filter: bool, sample: Sample): nat {
    if sample == [] then 0
    else
      var last := sample[|sample| - 1];
      Stacks(filter, sample[..|sample| - 1]) + if Shown(filter, last) && last.stack != [] then 1 else 0
  }

  function LedOver(filter: bool, history: seq<Sample>, k: Key): nat {
    if history == [] then 0
    else LedOver(filter, history[..|history| - 1], k) + Led(filter, history[|history| - 1], k)
  }

  function StacksOver(filter: bool, history: seq<Sample>): nat {
    if history == [] then 0
    else StacksOver(filter, history[..|history| - 1]) + Stacks(filter, history[|history| - 1])
  }

  /** The number of samples in which a key occurs. */
  function SamplesWith(filter: bool, history: seq<Sample>, k: Key): nat {
    if history == [] then 0
    else
      SamplesWith(filter, history[..|history| - 1], k)
      + if Occurs(filter, history[|history| - 1], k) then 1 else 0
  }

  /** The counters agree with a history of samples: a row for each key that occurred, and no other. */
  ghost predicate Agrees(filter: bool, stats: map<Key, Count>, samples: nat, history: seq<Sample>) {
    && samples == |history|
    && (forall k :: k in stats <==> SamplesWith(filter, history, k) > 0)
    && (forall k :: k in stats ==>
      stats[k] == Count(LedOver(filter, history, k), SamplesWith(filter, history, k)))
  }

  lemma {:induction false} SamplesWithBound(filter: bool, history: seq<Sample>, k: Key)
    ensures SamplesWith(filter, history, k) <= |history|
  {
    if history != [] {
      SamplesWithBound(filter, history[..|history| - 1], k);
    }
  }

  lemma {:induction false} LedOccurs(filter: bool, sample: Sample, k: Key)
    ensures Led(filter, sample, k) > 0 ==> Occurs(filter, sample, k)
  {
    if sample != [] {
      LedOccurs(filter, sample[..|sample| - 1], k);
    }
  }

  lemma {:induction false} LedOverOccurs(filter: bool, history: seq<Sample>, k: Key)
    ensures LedOver(filter, history, k) > 0 ==> SamplesWith(filter, history, k) > 0
  {
    if history != [] {
      LedOverOccurs(filter, history[..|history| - 1], k);
      LedOccurs(filter, history[|history| - 1], k);
    }
  }

  // ---------------------------------------------------------------- sums of own counts

  ghost function Sum(keys: set<Key>, f: Key -> nat): nat {
    if keys == {} then 0
    else
      var k :| k in keys;
      f(k) + Sum(keys - {k}, f)
  }

  lemma {:induction false} SumPick(keys: set<Key>, f: Key -> nat, x: Key)
    requires x in keys
    ensures Sum(keys, f) == f(x) + Sum(keys - {x}, f)
  {
    var k :| k in keys && Sum(keys, f) == f(k) + Sum(keys - {k}, f);
    if k != x {
      SumPick(keys - {k}, f, x);
      SumPick(keys - {x}, f, k);
      assert keys - {k} - {x} == keys - {x} - {k};
    }
  }

  lemma {:induction false} SumEqual(keys: set<Key>, f: Key -> nat, g: Key -> nat)
    requires forall k :: k in keys ==> f(k) == g(k)
    ensures Sum(keys, f) == Sum(keys, g)
  {
    if keys != {} {
      var x :| x in keys;
      SumPick(keys, f, x);
      SumPick(keys, g, x);
      SumEqual(keys - {x}, f, g);
    }
  }

  lemma {:induction false} SumPlus(keys: set<Key>, f: Key -> nat, g: Key -> nat)
    ensures Sum(keys, k => f(k) + g(k)) == Sum(keys, f) + Sum(keys, g)
  {
    var h: Key -> nat := k => f(k) + g(k);
    if keys != {} {
      var x :| x in keys;
      SumPick(keys, f, x);
      SumPick(keys, g, x);
      SumPick(keys, h, x);
      SumPlus(keys - {x}, f, g);
    }
  }

  /** A function that is 1 at one key at most. */
  lemma {:induction false} SumIndicator(keys: set<Key>, f: Key -> nat, x: Key, on: bool)
    requires on ==> x in keys
    requires forall k :: k in keys ==> f(k) == if on && k == x then 1 else 0
    ensures Sum(keys, f) == if on then 1 else 0
  {
    if keys != {} {
      var k :| k in keys && (on ==> k == x);
      SumPick(keys, f, k);
      SumIndicator(keys - {k}, f, x, false);
    }
  }

  /** In one sample: summed over any keys that cover the leaves, the led stacks are all the counted stacks. */
  lemma {:induction false} LedSum(filter: bool, sample: Sample, keys: set<Key>)
    requires forall t :: t in sample && Shown(filter, t) && t.stack != [] ==> t.stack[0] in keys
    ensures Sum(keys, k => Led(filter, sample, k)) == Stacks(filter, sample)
  {
    if sample == [] {
      SumIndicator(keys, k => Led(filter, sample, k), 0, false);
    } else {
      var last, rest := sample[|sample| - 1], sample[..|sample| - 1];
      var on := Shown(filter, last) && last.stack != [];
      LedSum(filter, rest, keys);
      var now: Key -> nat := k => if Leads(filter, last, k) then 1 else 0;
      SumIndicator(keys, now, if on then last.stack[0] else 0, on);
      SumPlus(keys, k => Led(filter, rest, k), now);
      SumEqual(keys, k => Led(filter, sample, k),
        k => ((k: Key) => Led(filter, rest, k))(k) + now(k));
      assert Sum(keys, k => Led(filter, sample, k)) == Sum(keys, k => Led(filter, rest, k)) + Sum(keys, now);
    }
  }

  lemma {:induction false} LedOverSum(filter: bool, history: seq<Sample>, keys: set<Key>)
    requires forall k :: SamplesWith(filter, history, k) > 0 ==> k in keys
    ensures Sum(keys, k => LedOver(filter, history, k)) == StacksOver(filter, history)
  {
    if history == [] {
      SumIndicator(keys, k => LedOver(filter, history, k), 0, false);
    } else {
      var last, rest := history[|history| - 1], history[..|history| - 1];
      LedOverSum(filter, rest, keys);
      forall t | t in last && Shown(filter, t) && t.stack != []
        ensures t.stack[0] in keys
      {
        OccursIff(filter, last, t.stack[0]);
        assert SamplesWith(filter, history, t.stack[0]) > 0;
      }
      LedSum(filter, last, keys);
      SumPlus(keys, k => LedOver(filter, rest, k), k => Led(filter, last, k));
      SumEqual(keys, k => LedOver(filter, history, k),
        k => ((k: Key) => LedOver(filter, rest, k))(k) + ((k: Key) => Led(filter, last, k))(k));
    }
  }

  ghost function OwnSum(stats: map<Key, Count>): nat {
    Sum(stats.Keys, k => if k in stats then stats[k].own else 0)
  }

  /** What a reader of the counters may conclude from a history without a failed or interrupted sample. */
  lemma CountersMean(filter: bool, stats: map<Key, Count>, samples: nat, history: seq<Sample>)
    requires Agrees(filter, stats, samples, history)
    ensures forall k :: k in stats ==> 1 <= stats[k].total <= samples
    ensures OwnSum(stats) == StacksOver(filter, history)
  {
    forall k | k in stats
      ensures stats[k].total <= samples
    {
      SamplesWithBound(filter, history, k);
    }
    LedOverSum(filter, history, stats.Keys);
    SumEqual(stats.Keys, k => if k in stats then stats[k].own else 0, k => LedOver(filter, history, k));
  }

  // ---------------------------------------------------------------- one frame

  function Touched(stats: map<Key, Count>, seen: set<Key>, k: Key, leaf: bool): map<Key, Count> {
    var c := if k in stats then stats[k] else Count(0, 0);
    stats[k := Count(c.own + (if leaf then 1 else 0), c.total + (if k in seen then 0 else 1))]
  }

  /** The counters in the middle of a sample that began with `stats`, after threads `done`. */
  ghost predicate Midway(filter: bool, stats: map<Key, Count>, now: map<Key, Count>, seen: set<Key>, done: Sample) {
    && (forall k :: k in seen <==> Occurs(filter, done, k))
    && (forall k :: k in now <==> k in stats || k in seen)
    && (forall k :: k in now ==>
      var c := if k in stats then stats[k] else Count(0, 0);
      now[k] == Count(c.own + Led(filter, done, k), c.total + if k in seen then 1 else 0))
  }

  lemma MidwaySkip(filter: bool, stats: map<Key, Count>, now: map<Key, Count>, seen: set<Key>, done: Sample, t: Thread)
    requires Midway(filter, stats, now, seen, done) && (!Shown(filter, t) || t.stack == [])
    ensures Midway(filter, stats, now, seen, done + [t])
  {
    forall k
      ensures Occurs(filter, done + [t], k) <==> Occurs(filter, done, k)
      ensures Led(filter, done + [t], k) == Led(filter, done, k)
    {
      OccursMore(filter, done, t, k);
      LedMore(filter, done, t, k);
    }
  }

  lemma OccursMore(filter: bool, done: Sample, t: Thread, x: Key)
    ensures Occurs(filter, done + [t], x) <==> Occurs(filter, done, x) || (Shown(filter, t) && x in t.stack)
  {
    assert (done + [t])[..|done|] == done;
  }

  lemma LedMore(filter: bool, done: Sample, t: Thread, x: Key)
    ensures Led(filter, done + [t], x) == Led(filter, done, x) + if Leads(filter, t, x) then 1 else 0
  {
    assert (done + [t])[..|done|] == done;
  }

  /** What one visited frame adds, key by key. */
  lemma MidwayTouch(filter: bool, stats: map<Key, Count>, now: map<Key, Count>, seen: set<Key>,
                    before: Sample, after: Sample, k: Key, leaf: bool)
    requires Midway(filter, stats, now, seen, before)
    requires forall x :: Occurs(filter, after, x) <==> Occurs(filter, before, x) || x == k
    requires forall x :: Led(filter, after, x) == Led(filter, before, x) + if leaf && x == k then 1 else 0
    ensures Midway(filter, stats, Touched(now, seen, k, leaf), seen + {k}, after)
  {
    LedOccurs(filter, before, k);
    var next := Touched(now, seen, k, leaf);
    forall x | x in next
      ensures
        var c := if x in stats then stats[x] else Count(0, 0);
        next[x] == Count(c.own + Led(filter, after, x), c.total + if x in seen + {k} then 1 else 0)
    {
      assert Led(filter, after, x) == Led(filter, before, x) + if leaf && x == k then 1 else 0;
    }
  }

  /** One more frame up the same stack. */
  lemma MidwayUp(filter: bool, stats: map<Key, Count>, now: map<Key, Count>, seen: set<Key>, done: Sample,
                 stack: seq<Key>, k: Key, peeka: bool)
    requires Shown(filter, Thread(peeka, stack))
    requires Midway(filter, stats, now, seen, done + [Thread(peeka, stack)])
    ensures Midway(filter, stats, Touched(now, seen, k, stack == []), seen + {k}, done + [Thread(peeka, stack + [k])])
  {
    var t, u := Thread(peeka, stack), Thread(peeka, stack + [k]);
    forall x
      ensures Occurs(filter, done + [u], x) <==> Occurs(filter, done + [t], x) || x == k
      ensures Led(filter, done + [u], x) == Led(filter, done + [t], x) + if stack == [] && x == k then 1 else 0
    {
      OccursMore(filter, done, t, x);
      OccursMore(filter, done, u, x);
      LedMore(filter, done, t, x);
      LedMore(filter, done, u, x);
    }
    MidwayTouch(filter, stats, now, seen, done + [t], done + [u], k, stack == []);
  }

  /** The counters and the seen keys after the first `i` frames of a stack. */
  ghost function Walked(stats: map<Key, Count>, seen: set<Key>, stack: seq<Key>, i: nat): (map<Key, Count>, set<Key>)
    requires i <= |stack|
  {
    if i == 0 then (stats, seen)
    else
      var (now, soFar) := Walked(stats, seen, stack, i - 1);
      (Touched(now, soFar, stack[i - 1], i == 1), soFar + {stack[i - 1]})
  }

  lemma MidStackUp(filter: bool, stats: map<Key, Count>, now: map<Key, Count>, seen: set<Key>, done: Sample,
                   t: Thread, i: nat)
    requires i < |t.stack| && Shown(filter, t)
    requires Midway(filter, stats, now, seen, done + [Thread(t.peeka, t.stack[..i])])
    ensures Midway(filter, stats, Touched(now, seen, t.stack[i], i == 0), seen + {t.stack[i]},
                   done + [Thread(t.peeka, t.stack[..i + 1])])
  {
    MidwayUp(filter, stats, now, seen, done, t.stack[..i], t.stack[i], t.peeka);
    assert t.stack[..i] + [t.stack[i]] == t.stack[..i + 1];
  }

  ghost predicate WalkedTo(filter: bool, stats: map<Key, Count>, now: map<Key, Count>, seen: set<Key>, done: Sample,
                           t: Thread, i: nat)
    requires i <= |t.stack|
  {
    var w := Walked(now, seen, t.stack, i);
    Midway(filter, stats, w.0, w.1, done + [Thread(t.peeka, t.stack[..i])])
  }

  lemma WalkedStep(filter: bool, stats: map<Key, Count>, now: map<Key, Count>, seen: set<Key>, done: Sample,
                   t: Thread, i: nat)
    requires i < |t.stack| && Shown(filter, t) && WalkedTo(filter, stats, now, seen, done, t, i)
    ensures WalkedTo(filter, stats, now, seen, done, t, i + 1)
  {
    var w := Walked(now, seen, t.stack, i);
    MidStackUp(filter, stats, w.0, w.1, done, t, i);
  }

  lemma {:induction false} WalkedMidway(filter: bool, stats: map<Key, Count>, now: map<Key, Count>, seen: set<Key>,
                                        done: Sample, t: Thread, i: nat)
    requires i <= |t.stack| && Shown(filter, t) && Midway(filter, stats, now, seen, done)
    ensures WalkedTo(filter, stats, now, seen, done, t, i)
  {
    if i == 0 {
      MidwaySkip(filter, stats, now, seen, done, Thread(t.peeka, []));
      assert t.stack[..0] == [];
    } else {
      WalkedMidway(filter, stats, now, seen, done, t, i - 1);
      WalkedStep(filter, stats, now, seen, done, t, i - 1);
    }
  }

  lemma MidwayEnds(filter: bool, stats: map<Key, Count>, samples: nat, history: seq<Sample>,
                   now: map<Key, Count>, seen: set<Key>, sample: Sample)
    requires Agrees(filter, stats, samples, history) && Midway(filter, stats, now, seen, sample)
    ensures Agrees(filter, now, samples + 1, history + [sample])
  {
    var more := history + [sample];
    assert more[..|more| - 1] == history;
    forall k
      ensures k in now <==> SamplesWith(filter, more, k) > 0
      ensures k in now ==> now[k] == Count(LedOver(filter, more, k), SamplesWith(filter, more, k))
    {
      LedOverOccurs(filter, history, k);
      LedOccurs(filter, sample, k);
    }
  }

  // ---------------------------------------------------------------- the sampler

  class Top {
    const filterPeeka: bool
    var stats: map<Key, Count>
    var totalSamples: nat

    /** The samples completed since the last reset. */
    ghost var history: seq<Sample>

    ghost predicate Valid()
      reads this
    {
      Agrees(filterPeeka, stats, totalSamples, history)
    }

    constructor (filterPeeka: bool)
      ensures Valid() && history == [] && this.filterPeeka == filterPeeka
    {
      this.filterPeeka := filterPeeka;
      stats, totalSamples, history := map[], 0, [];
    }

    method Reset()
      modifies this
      ensures Valid() && history == [] && stats == map[] && totalSamples == 0
    {
      stats, totalSamples, history := map[], 0, [];
    }

    /** One frame, under the lock. */
    method Visit(k: Key, isLeaf: bool, seen: set<Key>) returns (seenAfter: set<Key>)
      modifies this`stats
      ensures stats == Touched(old(stats), seen, k, isLeaf) && seenAfter == seen + {k}
    {
      if k !in stats {
        stats := stats[k := Count(0, 0)];
      }
      if isLeaf {
        stats := stats[k := stats[k].(own := stats[k].own + 1)];
      }
      seenAfter := seen;
      if k !in seen {
        stats := stats[k := stats[k].(total := stats[k].total + 1)];
        seenAfter := seen + {k};
      }
    }

    /** Walk one stack from leaf to root. */
    method Walk(stack: seq<Key>, seen: set<Key>) returns (seenAfter: set<Key>)
      modifies this`stats
      ensures (stats, seenAfter) == Walked(old(stats), seen, stack, |stack|)
    {
      seenAfter := seen;
      var isLeaf, i := true, 0;
      while i < |stack|
        invariant i <= |stack| && isLeaf == (i == 0)
        invariant (stats, seenAfter) == Walked(old(stats), seen, stack, i)
      {
        seenAfter := Visit(stack[i], isLeaf, seenAfter);
        i, isLeaf := i + 1, false;
      }
    }

    /** One turn of the sampling loop in which nothing fails. */
    method TakeSample(frames: Sample)
      requires Valid()
      modifies this
      ensures Valid() && history == old(history) + [frames]
    {
      var seenInSample: set<Key> := {};
      for i := 0 to |frames|
        invariant totalSamples == old(totalSamples) && history == old(history)
        invariant Midway(filterPeeka, old(stats), stats, seenInSample, frames[..i])
      {
        assert frames[..i + 1] == frames[..i] + [frames[i]];
        if filterPeeka && frames[i].peeka {
          MidwaySkip(filterPeeka, old(stats), stats, seenInSample, frames[..i], frames[i]);
          continue;
        }
        WalkedMidway(filterPeeka, old(stats), stats, seenInSample, frames[..i], frames[i], |frames[i].stack|);
        assert frames[i].stack[..|frames[i].stack|] == frames[i].stack;
        seenInSample := Walk(frames[i].stack, seenInSample);
      }
      assert frames[..|frames|] == frames;
      MidwayEnds(filterPeeka, old(stats), totalSamples, history, stats, seenInSample, frames);
      totalSamples := totalSamples + 1;
      history := history + [frames];
    }
  }

  // ---------------------------------------------------------------- failures and resets inside a sample

  /**
   * The lock is taken frame by frame, so a reset may fall inside a sample; and a sample that
   * raises is dropped where it stands, without being counted. What can raise is the test for the
   * profiler's own threads, which reads a thread handle twice: a stop whose join timed out may set
   * the handle to None in between.
   */
  datatype Act = Begin | Frame(k: Key, leaf: bool) | Finish | Fail | Reset

  datatype Machine = Machine(stats: map<Key, Count>, samples: nat, busy: bool, seen: set<Key>)

  const IDLE := Machine(map[], 0, false, {})

  predicate Enabled(m: Machine, a: Act) {
    a == Reset || m.busy == (a != Begin)
  }

  function Next(m: Machine, a: Act): Machine {
    match a
    case Begin => m.(busy := true, seen := {})
    case Frame(k, leaf) => m.(stats := Touched(m.stats, m.seen, k, leaf), seen := m.seen + {k})
    case Finish => m.(samples := m.samples + 1, busy := false)
    case Fail => m.(busy := false)
    case Reset => m.(stats := map[], samples := 0)
  }

  function Run(acts: seq<Act>): Machine {
    if acts == [] then IDLE else Next(Run(acts[..|acts| - 1]), acts[|acts| - 1])
  }

  predicate Possible(acts: seq<Act>) {
    acts == []
    || (Possible(acts[..|acts| - 1]) && Enabled(Run(acts[..|acts| - 1]), acts[|acts| - 1]))
  }

  lemma RunStep(acts: seq<Act>, a: Act)
    ensures Run(acts + [a]) == Next(Run(acts), a)
    ensures Possible(acts + [a]) <==> Possible(acts) && Enabled(Run(acts), a)
  {
    assert (acts + [a])[..|acts|] == acts;
  }

  /** The total that is reported for a key. */
  function Total(m: Machine, k: Key): nat {
    if k in m.stats then m.stats[k].total else 0
  }

  /** The key has been visited since the latest sample began. */
  predicate Visited(acts: seq<Act>, k: Key) {
    acts != [] &&
    var before := acts[..|acts| - 1];
    match acts[|acts| - 1]
    case Begin => false
    case Frame(x, _) => x == k || Visited(before, k)
    case _ => Visited(before, k)
  }

  /** Its first visit in that sample came after the last reset. */
  predicate VisitedFresh(acts: seq<Act>, k: Key) {
    acts != [] &&
    var before := acts[..|acts| - 1];
    match acts[|acts| - 1]
    case Begin => false
    case Reset => false
    case Frame(x, _) => (x == k && !Visited(before, k)) || VisitedFresh(before, k)
    case _ => VisitedFresh(before, k)
  }

  /** The samples completed since the last reset in which the key was visited. */
  function CompletedWith(acts: seq<Act>, k: Key): nat {
    if acts == [] then 0
    else
      var before := acts[..|acts| - 1];
      match acts[|acts| - 1]
      case Reset => 0
      case Finish => CompletedWith(before, k) + if Visited(before, k) then 1 else 0
      case _ => CompletedWith(before, k)
  }

  /** The samples that failed since the last reset, after a first visit of the key since then. */
  function FailedWith(acts: seq<Act>, k: Key): nat {
    if acts == [] then 0
    else
      var before := acts[..|acts| - 1];
      match acts[|acts| - 1]
      case Reset => 0
      case Fail => FailedWith(before, k) + if VisitedFresh(before, k) then 1 else 0
      case _ => FailedWith(before, k)
  }

  /** The samples completed since the last reset that the reset fell into after the key was visited. */
  function CutWith(acts: seq<Act>, k: Key): nat {
    if acts == [] then 0
    else
      var before := acts[..|acts| - 1];
      match acts[|acts| - 1]
      case Reset => 0
      case Finish => CutWith(before, k) + if Visited(before, k) && !VisitedFresh(before, k) then 1 else 0
      case _ => CutWith(before, k)
  }

  lemma {:induction false} SeenIsVisited(acts: seq<Act>, k: Key)
    ensures k in Run(acts).seen <==> Visited(acts, k)
  {
    if acts != [] {
      SeenIsVisited(acts[..|acts| - 1], k);
    }
  }

  /**
   * What a total is, in every run: the completed samples with the key, and the failed ones, and
   * the running one, but not the one that a reset fell into after the key was visited.
   */
  lemma {:induction false} TotalsOverRuns(acts: seq<Act>, k: Key)
    requires Possible(acts)
    ensures Total(Run(acts), k) + CutWith(acts, k)
         == CompletedWith(acts, k) + FailedWith(acts, k) + if Run(acts).busy && VisitedFresh(acts, k) then 1 else 0
  {
    if acts != [] {
      var before := acts[..|acts| - 1];
      TotalsOverRuns(before, k);
      SeenIsVisited(before, k);
      FreshIsVisited(before, k);
    }
  }

  lemma {:induction false} FreshIsVisited(acts: seq<Act>, k: Key)
    ensures VisitedFresh(acts, k) ==> Visited(acts, k)
  {
    if acts != [] {
      FreshIsVisited(acts[..|acts| - 1], k);
    }
  }

  /** At most one completed sample can have the last reset in it. */
  lemma {:induction false} CutAtMostOnce(acts: seq<Act>, k: Key)
    requires Possible(acts)
    ensures CutWith(acts, k) <= 1
    ensures CutWith(acts, k) == 1 && Run(acts).busy ==> (Visited(acts, k) <==> VisitedFresh(acts, k))
  {
    if acts != [] {
      CutAtMostOnce(acts[..|acts| - 1], k);
      FreshIsVisited(acts[..|acts| - 1], k);
    }
  }

  /** The `i`-th act drops a sample that had counted the key, and no reset follows. */
  predicate DropsCounted(acts: seq<Act>, i: nat, k: Key)
    requires i < |acts|
  {
    acts[i] == Fail && VisitedFresh(acts[..i], k) && Reset !in acts[i..]
  }

  /** The `i`-th act completes a sample in which a reset fell after the key was visited, and no other follows. */
  predicate CompletesCut(acts: seq<Act>, i: nat, k: Key)
    requires i < |acts|
  {
    acts[i] == Finish && Visited(acts[..i], k) && !VisitedFresh(acts[..i], k) && Reset !in acts[i..]
  }

  lemma EventsBefore(acts: seq<Act>, i: nat, k: Key)
    requires i < |acts| - 1
    ensures var before, last := acts[..|acts| - 1], acts[|acts| - 1];
      && (DropsCounted(acts, i, k) <==> DropsCounted(before, i, k) && last != Reset)
      && (CompletesCut(acts, i, k) <==> CompletesCut(before, i, k) && last != Reset)
  {
    var before, last := acts[..|acts| - 1], acts[|acts| - 1];
    assert acts[..i] == before[..i];
    assert acts[i..] == before[i..] + [last];
  }

  /** Both numbers are zero exactly when no event of their kind happened. */
  lemma {:induction false} NoSuchEventIff(acts: seq<Act>, k: Key)
    ensures FailedWith(acts, k) == 0 <==> forall i :: 0 <= i < |acts| ==> !DropsCounted(acts, i, k)
    ensures CutWith(acts, k) == 0 <==> forall i :: 0 <= i < |acts| ==> !CompletesCut(acts, i, k)
  {
    if acts != [] {
      var n := |acts| - 1;
      NoSuchEventIff(acts[..n], k);
      DropsStep(acts, k);
      CutsStep(acts, k);
    }
  }

  lemma DropsStep(acts: seq<Act>, k: Key)
    requires acts != []
    ensures var n, last := |acts| - 1, acts[|acts| - 1];
      (exists i :: 0 <= i < |acts| && DropsCounted(acts, i, k)) <==>
        || (last == Fail && VisitedFresh(acts[..n], k))
        || (last != Reset && exists i :: 0 <= i < n && DropsCounted(acts[..n], i, k))
  {
    var n, last := |acts| - 1, acts[|acts| - 1];
    assert acts[n..] == [last];
    if i :| 0 <= i < |acts| && DropsCounted(acts, i, k) {
      if i < n {
        EventsBefore(acts, i, k);
      }
    }
    if last == Fail && VisitedFresh(acts[..n], k) {
      assert DropsCounted(acts, n, k);
    }
    if last != Reset {
      if i :| 0 <= i < n && DropsCounted(acts[..n], i, k) {
        EventsBefore(acts, i, k);
        assert DropsCounted(acts, i, k);
      }
    }
  }

  lemma CutsStep(acts: seq<Act>, k: Key)
    requires acts != []
    ensures var n, last := |acts| - 1, acts[|acts| - 1];
      (exists i :: 0 <= i < |acts| && CompletesCut(acts, i, k)) <==>
        || (last == Finish && Visited(acts[..n], k) && !VisitedFresh(acts[..n], k))
        || (last != Reset && exists i :: 0 <= i < n && CompletesCut(acts[..n], i, k))
  {
    var n, last := |acts| - 1, acts[|acts| - 1];
    assert acts[n..] == [last];
    if i :| 0 <= i < |acts| && CompletesCut(acts, i, k) {
      if i < n {
        EventsBefore(acts, i, k);
      }
    }
    if last == Finish && Visited(acts[..n], k) && !VisitedFresh(acts[..n], k) {
      assert CompletesCut(acts, n, k);
    }
    if last != Reset {
      if i :| 0 <= i < n && CompletesCut(acts[..n], i, k) {
        EventsBefore(acts, i, k);
        assert CompletesCut(acts, i, k);
      }
    }
  }

  /** No failed sample counted the key, and no reset fell after it was visited in the same sample. */
  predicate Undisturbed(acts: seq<Act>, k: Key) {
    forall i :: 0 <= i < |acts| ==> !DropsCounted(acts, i, k) && !CompletesCut(acts, i, k)
  }

  /**
   * Between samples a total is the number of completed samples with its key exactly when neither
   * disturbance happened since the last reset, or both did and cancel: one failed sample counted
   * the key, and the reset cut it out of another.
   */
  lemma TotalsMeanIff(acts: seq<Act>, k: Key)
    requires Possible(acts) && !Run(acts).busy
    ensures Total(Run(acts), k) == CompletedWith(acts, k)
       <==> Undisturbed(acts, k)
            || (FailedWith(acts, k) == 1 && exists i :: 0 <= i < |acts| && CompletesCut(acts, i, k))
  {
    TotalsOverRuns(acts, k);
    CutAtMostOnce(acts, k);
    NoSuchEventIff(acts, k);
  }

  lemma {:induction false} CompletedBound(acts: seq<Act>, k: Key)
    ensures CompletedWith(acts, k) <= Run(acts).samples
  {
    if acts != [] {
      CompletedBound(acts[..|acts| - 1], k);
    }
  }

  /**
   * Between samples a total is within the number of samples exactly when the key was counted by no
   * more failed samples than there are completed ones without it or cut.
   */
  lemma TotalsBetweenSamples(acts: seq<Act>, k: Key)
    requires Possible(acts) && !Run(acts).busy
    ensures Total(Run(acts), k) <= Run(acts).samples
       <==> FailedWith(acts, k) <= (Run(acts).samples - CompletedWith(acts, k)) + CutWith(acts, k)
    ensures Undisturbed(acts, k) ==> Total(Run(acts), k) == CompletedWith(acts, k) <= Run(acts).samples
  {
    TotalsOverRuns(acts, k);
    CompletedBound(acts, k);
    NoSuchEventIff(acts, k);
  }

  /** Each failed sample can push a total past the samples. */
  lemma {:induction false} FailuresPushTotals(n: nat, k: Key) returns (acts: seq<Act>)
    ensures Possible(acts) && !Run(acts).busy && Run(acts).samples == 0
    ensures Total(Run(acts), k) == FailedWith(acts, k) == n
  {
    if n == 0 {
      acts := [];
    } else {
      var first := FailuresPushTotals(n - 1, k);
      RunStep(first, Begin);
      RunStep(first + [Begin], Frame(k, true));
      acts := first + [Begin] + [Frame(k, true)] + [Fail];
      RunStep(first + [Begin] + [Frame(k, true)], Fail);
      FailingStep(first, k);
    }
  }

  lemma FailingStep(first: seq<Act>, k: Key)
    ensures FailedWith(first + [Begin] + [Frame(k, true)] + [Fail], k) == FailedWith(first, k) + 1
  {
    var a, b := first + [Begin], first + [Begin] + [Frame(k, true)];
    assert a[..|a| - 1] == first && b[..|b| - 1] == a;
    assert (b + [Fail])[..|b|] == b;
    assert !Visited(a, k) && VisitedFresh(b, k);
    assert FailedWith(b, k) == FailedWith(a, k) == FailedWith(first, k);
  }

  /** A reset inside a sample: the key leads a later stack of that sample and its total stays 0. */
  lemma ResetInsideSample(k: Key)
    ensures
      var acts := [Begin] + [Frame(k, true)] + [Reset] + [Frame(k, true)] + [Finish];
      && Possible(acts) && Run(acts).samples == 1 && Run(acts).stats == map[k := Count(1, 0)]
      && CompletedWith(acts, k) == 1
  {
    RunStep([], Begin);
    assert [] + [Begin] == [Begin];
    RunStep([Begin], Frame(k, true));
    RunStep([Begin] + [Frame(k, true)], Reset);
    RunStep([Begin] + [Frame(k, true)] + [Reset], Frame(k, true));
    var last := [Begin] + [Frame(k, true)] + [Reset] + [Frame(k, true)];
    RunStep(last, Finish);
    SeenIsVisited(last, k);
    var reset := [Begin] + [Frame(k, true)] + [Reset];
    assert CompletedWith(reset, k) == 0;
    assert last[..3] == reset && CompletedWith(last, k) == 0;
    assert (last + [Finish])[..4] == last;
  }

  /** One act more: what each of the numbers becomes. */
  lemma CountStep(acts: seq<Act>, a: Act, k: Key)
    ensures Visited(acts + [a], k) <==> a != Begin && ((a.Frame? && a.k == k) || Visited(acts, k))
    ensures VisitedFresh(acts + [a], k) <==>
              a != Begin && a != Reset && ((a.Frame? && a.k == k && !Visited(acts, k)) || VisitedFresh(acts, k))
    ensures CompletedWith(acts + [a], k)
         == if a == Reset then 0 else CompletedWith(acts, k) + if a == Finish && Visited(acts, k) then 1 else 0
  {
    assert (acts + [a])[..|acts|] == acts;
  }

  /** A reset cut the key out of one sample, and a failed sample counted it: the total comes out right. */
  lemma DisturbancesCancel(k: Key) returns (acts: seq<Act>)
    ensures Possible(acts) && !Run(acts).busy && !Undisturbed(acts, k)
    ensures Total(Run(acts), k) == CompletedWith(acts, k) == Run(acts).samples == 1
  {
    acts := [];
    RunStep(acts, Begin); CountStep(acts, Begin, k);
    acts := acts + [Begin];
    RunStep(acts, Frame(k, true)); CountStep(acts, Frame(k, true), k);
    acts := acts + [Frame(k, true)];
    RunStep(acts, Reset); CountStep(acts, Reset, k);
    acts := acts + [Reset];
    RunStep(acts, Finish); CountStep(acts, Finish, k);
    acts := acts + [Finish];
    RunStep(acts, Begin); CountStep(acts, Begin, k);
    acts := acts + [Begin];
    RunStep(acts, Frame(k, true)); CountStep(acts, Frame(k, true), k);
    acts := acts + [Frame(k, true)];
    RunStep(acts, Fail); CountStep(acts, Fail, k);
    var before := acts;
    acts := acts + [Fail];
    assert acts[..6] == before && acts[6..] == [Fail];
    assert DropsCounted(acts, 6, k);
  }
}
