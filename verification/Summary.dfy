/**
 * Bounding a result summary by a number of keys and a number of encoded bytes. Both loops of the
 * algorithm can run for ever; the methods give up when no further round can make a difference.
 */
module Summary {
  import opened Options
  import opened Json
  import opened Shrink
  import opened ShrinkCycles
  import opened Squeeze
  import opened TopLoop

  // ----- the methods

  datatype Pruned = Pruned(summary: seq<Entry>, truncated: bool)

  /** The entries that are kept. */
  function Kept(data: seq<Entry>, maxKeys: nat): seq<Entry> {
    if |data| > maxKeys then data[..maxKeys] else data
  }

  /** The last resort on a text, after `n` rounds and not earlier. */
  ghost predicate SqueezedAfter(key: string, s: string, maxSize: nat, n: nat, r: seq<Entry>) {
    && r == [Entry(key, Str(SqueezeRounds(s, n)))]
    && StopsAt(key, s, maxSize, n) && NotStopped(key, s, maxSize, n)
  }

  /** What the last resort makes of a summary. */
  ghost predicate ForceFitted(d: seq<Entry>, maxSize: nat, r: seq<Entry>) {
    if d == [] then r == []
    else if d[0].value.Str? then exists n: nat :: SqueezedAfter(d[0].key, d[0].value.s, maxSize, n, r)
    else r == [Entry(d[0].key, Str(SENTINEL))]
  }

  /** The last resort on this summary runs for ever. */
  ghost predicate ForcedForEver(d: seq<Entry>, maxSize: nat) {
    d != [] && d[0].value.Str? && !SqueezeEnds(d[0].key, d[0].value.s, maxSize)
  }

  /** The last resort: one key and a text; None when it would run for ever. */
  method ForceFit(d: seq<Entry>, maxSize: nat) returns (r: Option<seq<Entry>>)
    ensures r.Some? ==> ForceFitted(d, maxSize, r.value)
    ensures r.None? <==> ForcedForEver(d, maxSize)
  {
    if d == [] {
      return Some([]);
    }
    if !d[0].value.Str? {
      return Some([Entry(d[0].key, Str(SENTINEL))]);
    }
    r := SqueezeLoop(d[0].key, d[0].value.s, maxSize);
  }

  /** Bytes of the summary that keeps one key and a text. */
  method OneSize(key: string, text: string) returns (size: nat)
    ensures size == KeyCost(key) + CharsSize(text)
  {
    size := DictSize([Entry(key, Str(text))]);
    OneEntrySize(key, text);
  }

  method SqueezeOnce(text: string) returns (t: string)
    ensures t == SqueezeText(text)
  {
    if |text| <= |SENTINEL| + 8 {
      t := SENTINEL;
    } else {
      t := text[..Max8(|text| / 2)] + SENTINEL;
    }
  }

  /** The last resort is about to look at `text` for the `n`-th time. */
  ghost predicate SqueezingAt(key: string, s: string, maxSize: nat, n: nat, text: string, size: int) {
    text == SqueezeRounds(s, n) && size == KeyCost(key) + CharsSize(text) && NotStopped(key, s, maxSize, n)
  }

  lemma SqueezeGoesOn(key: string, s: string, maxSize: nat, n: nat, text: string, size: int)
    requires SqueezingAt(key, s, maxSize, n, text, size) && size > maxSize && text != SENTINEL
    ensures NotStopped(key, s, maxSize, n + 1) && SqueezeRounds(s, n + 1) == SqueezeText(text)
  {
    SqueezeOn(key, s, maxSize, n);
  }

  lemma SqueezeDone(key: string, s: string, maxSize: nat, n: nat, text: string, size: int)
    requires SqueezingAt(key, s, maxSize, n, text, size) && (size <= maxSize || text == SENTINEL)
    ensures SqueezedAfter(key, s, maxSize, n, [Entry(key, Str(text))]) && SqueezeEnds(key, s, maxSize)
  {
  }

  lemma SqueezeForEver(key: string, s: string, maxSize: nat)
    requires NotStopped(key, s, maxSize, TextRest(s) + 2)
    ensures !SqueezeEnds(key, s, maxSize)
  {
    SqueezeEndsEarlyOrNever(key, s, maxSize);
  }

  /** The loop of it; None when it would run for ever, which a bound on its rounds decides. */
  method SqueezeLoop(key: string, s: string, maxSize: nat) returns (r: Option<seq<Entry>>)
    ensures r.Some? ==> exists n: nat :: SqueezedAfter(key, s, maxSize, n, r.value)
    ensures r.None? <==> !SqueezeEnds(key, s, maxSize)
  {
    var text, n, rounds := s, 0, TextRest(s) + 1;
    var size := OneSize(key, text);
    while size > maxSize && text != SENTINEL
      invariant n <= rounds && SqueezingAt(key, s, maxSize, n, text, size)
      decreases rounds - n
    {
      SqueezeGoesOn(key, s, maxSize, n, text, size);
      if n == rounds {
        SqueezeForEver(key, s, maxSize);
        return None;
      }
      text := SqueezeOnce(text);
      size := OneSize(key, text);
      n := n + 1;
    }
    r := Some([Entry(key, Str(text))]);
    SqueezeDone(key, s, maxSize, n, text, size);
  }

  /** The outcome when the outer loop has stopped after `n` rounds. */
  ghost predicate PrunedAfter(data: seq<Entry>, maxSize: nat, maxKeys: nat, p: Pruned, n: nat) {
    var first := Kept(data, maxKeys);
    var last := TopRounds(first, n);
    && StopsAfter(first, maxSize, n)
    && if DictSize(last) <= maxSize
       then p == Pruned(last, |data| > maxKeys || n > 0)
       else p.truncated && ForceFitted(last, maxSize, p.summary)
  }

  /** What pruning returns when both loops have ended. */
  ghost predicate PrunedFrom(data: seq<Entry>, maxSize: nat, maxKeys: nat, p: Pruned) {
    exists n: nat :: PrunedAfter(data, maxSize, maxKeys, p, n)
  }

  /** The keys of the input, as many as are kept. */
  method KeepKeys(data: seq<Entry>, maxKeys: nat) returns (pruned: seq<Entry>, truncated: bool)
    ensures pruned == Kept(data, maxKeys) && truncated == (|data| > maxKeys)
  {
    pruned, truncated := [], false;
    var index := 0;
    while index < |data|
      invariant index <= |data| && index <= maxKeys && pruned == data[..index]
    {
      if index >= maxKeys {
        truncated := true;
        return;
      }
      pruned := pruned + [data[index]];
      index := index + 1;
    }
  }

  /** The outer loop is about to look at `pruned` for the `n`-th time. */
  ghost predicate ShrinkingAt(first: seq<Entry>, maxSize: nat, n: nat, pruned: seq<Entry>) {
    pruned == TopRounds(first, n) && RunsOn(first, maxSize, n)
  }

  lemma ShrinkGoesOn(first: seq<Entry>, maxSize: nat, n: nat, pruned: seq<Entry>)
    requires ShrinkingAt(first, maxSize, n, pruned) && !Stops(pruned, maxSize)
    ensures ShrinkingAt(first, maxSize, n + 1, ShrinkTop(pruned)) && RunsOn(first, maxSize, n + 1)
  {
    RunOn(first, maxSize, n);
  }

  lemma ShrinkDone(first: seq<Entry>, maxSize: nat, n: nat, pruned: seq<Entry>)
    requires ShrinkingAt(first, maxSize, n, pruned) && Stops(pruned, maxSize)
    ensures StopsAfter(first, maxSize, n) && pruned == TopRounds(first, n) && Terminates(first, maxSize)
  {
    assert StopsBy(first, maxSize, n);
  }

  lemma ShrinkForEver(first: seq<Entry>, maxSize: nat)
    requires RunsOn(first, maxSize, RoundBound(first))
    ensures !Terminates(first, maxSize)
  {
    EndsEarlyOrNever(first, maxSize);
  }

  /** The outer loop; None when it would run for ever, which a bound on its rounds decides. */
  method ShrinkLoop(first: seq<Entry>, maxSize: nat) returns (r: Option<(seq<Entry>, nat)>)
    ensures r.Some? ==> StopsAfter(first, maxSize, r.value.1) && r.value.0 == TopRounds(first, r.value.1)
    ensures r.None? <==> !Terminates(first, maxSize)
  {
    var pruned, n, rounds := first, 0, RoundBound(first);
    while DictSize(pruned) > maxSize
      invariant n <= rounds && ShrinkingAt(first, maxSize, n, pruned)
      decreases rounds - n
    {
      var next := ShrinkTop(pruned);
      if next == pruned {
        break;
      }
      ShrinkGoesOn(first, maxSize, n, pruned);
      if n == rounds {
        ShrinkForEver(first, maxSize);
        return None;
      }
      pruned := next;
      n := n + 1;
    }
    ShrinkDone(first, maxSize, n, pruned);
    r := Some((pruned, n));
  }

  /** Pruning has an outcome. */
  ghost predicate Returns(data: seq<Entry>, maxSize: nat, maxKeys: nat) {
    exists p :: PrunedFrom(data, maxSize, maxKeys, p)
  }

  /** Bounds a summary; None exactly for the summaries on which one of the loops runs for ever. */
  method PruneResultSummary(data: seq<Entry>, maxSize: nat, maxKeys: nat) returns (r: Option<Pruned>)
    ensures r.Some? ==> PrunedFrom(data, maxSize, maxKeys, r.value)
    ensures r.None? <==> !Returns(data, maxSize, maxKeys)
    ensures |data| <= maxKeys && DictSize(data) <= maxSize ==> r == Some(Pruned(data, false))
    ensures r.Some? ==> (r.value.truncated <==> |data| > maxKeys || DictSize(data) > maxSize)
  {
    var first, truncated := KeepKeys(data, maxKeys);
    var shrunk := ShrinkLoop(first, maxSize);
    if shrunk.None? {
      OuterForEver(data, maxSize, maxKeys);
      return None;
    }
    var (pruned, n) := shrunk.value;
    truncated := truncated || n > 0;
    if DictSize(pruned) > maxSize {
      var forced := ForceFit(pruned, maxSize);
      if forced.None? {
        LastResortForEver(data, maxSize, maxKeys, n);
        return None;
      }
      r := Some(Pruned(forced.value, true));
    } else {
      r := Some(Pruned(pruned, truncated));
    }
    assert PrunedAfter(data, maxSize, maxKeys, r.value, n);
    assert PrunedFrom(data, maxSize, maxKeys, r.value);
    FlaggedIff(data, maxSize, maxKeys, r.value);
  }

  /** A summary comes back unflagged, and then as it was, exactly when it is within both limits. */
  lemma FlaggedIff(data: seq<Entry>, maxSize: nat, maxKeys: nat, p: Pruned)
    requires PrunedFrom(data, maxSize, maxKeys, p)
    ensures !p.truncated <==> |data| <= maxKeys && DictSize(data) <= maxSize
    ensures !p.truncated ==> p.summary == data
  {
    var n: nat :| PrunedAfter(data, maxSize, maxKeys, p, n);
    var first := Kept(data, maxKeys);
    assert TopRounds(first, 0) == first;
    assert n > 0 ==> !StopsBy(first, maxSize, 0);
  }

  lemma OuterForEver(data: seq<Entry>, maxSize: nat, maxKeys: nat)
    requires !Terminates(Kept(data, maxKeys), maxSize)
    ensures !Returns(data, maxSize, maxKeys)
    ensures |data| > maxKeys || DictSize(data) > maxSize
  {
    var first := Kept(data, maxKeys);
    assert TopRounds(first, 0) == first && !StopsBy(first, maxSize, 0);
  }

  lemma LastResortForEver(data: seq<Entry>, maxSize: nat, maxKeys: nat, n: nat)
    requires StopsAfter(Kept(data, maxKeys), maxSize, n) && TooBig(Kept(data, maxKeys), maxSize, n)
    requires ForcedForEver(TopRounds(Kept(data, maxKeys), n), maxSize)
    ensures !Returns(data, maxSize, maxKeys)
    ensures |data| > maxKeys || DictSize(data) > maxSize
  {
    var first := Kept(data, maxKeys);
    assert TopRounds(first, 0) == first;
    assert n > 0 ==> !StopsBy(first, maxSize, 0);
    forall p, m: nat ensures !PrunedAfter(data, maxSize, maxKeys, p, m) {
      NeverForced(TopRounds(first, n), maxSize, p.summary);
      assert m == n || !StopsAfter(first, maxSize, m);
    }
  }

  lemma NeverForced(d: seq<Entry>, maxSize: nat, r: seq<Entry>)
    requires ForcedForEver(d, maxSize)
    ensures !ForceFitted(d, maxSize, r)
  {
    forall n: nat ensures !SqueezedAfter(d[0].key, d[0].value.s, maxSize, n, r) {
      assert !StopsAt(d[0].key, d[0].value.s, maxSize, n);
    }
  }

  /** Nothing kept is restless, and the first key leaves room. */
  predicate Prunable(data: seq<Entry>, maxSize: nat, maxKeys: nat) {
    NoneRestless(Kept(data, maxKeys)) && (data != [] ==> Room(data[0].key, maxSize))
  }

  /** Then pruning returns. */
  lemma PrunableReturns(data: seq<Entry>, maxSize: nat, maxKeys: nat)
    requires Prunable(data, maxSize, maxKeys)
    ensures Returns(data, maxSize, maxKeys)
  {
    var first := Kept(data, maxKeys);
    var n := QuietTerminates(first, maxSize);
    var m := FirstStop(first, maxSize, n);
    var last := TopRounds(first, m);
    var forced := last;
    if DictSize(last) > maxSize {
      forced := ForcedWithRoom(last, maxSize);
    }
    var p := Pruned(forced, DictSize(last) > maxSize || |data| > maxKeys || m > 0);
    assert PrunedAfter(data, maxSize, maxKeys, p, m);
    assert PrunedFrom(data, maxSize, maxKeys, p);
  }

  lemma {:induction false} FirstStop(d: seq<Entry>, maxSize: nat, n: nat) returns (m: nat)
    requires StopsBy(d, maxSize, n)
    ensures m <= n && StopsAfter(d, maxSize, m)
    decreases n
  {
    if k: nat :| k < n && StopsBy(d, maxSize, k) {
      m := FirstStop(d, maxSize, k);
    } else {
      m := n;
    }
  }

  lemma ForcedWithRoom(d: seq<Entry>, maxSize: nat) returns (r: seq<Entry>)
    requires d != [] ==> Room(d[0].key, maxSize)
    ensures ForceFitted(d, maxSize, r)
  {
    if d == [] {
      r := [];
    } else if d[0].value.Str? {
      var n := SqueezeFitsWithRoom(d[0].key, d[0].value.s, maxSize);
      var k := FirstSqueezed(d[0].key, d[0].value.s, maxSize, n);
      r := [Entry(d[0].key, Str(SqueezeRounds(d[0].value.s, k)))];
      assert SqueezedAfter(d[0].key, d[0].value.s, maxSize, k, r);
    } else {
      r := [Entry(d[0].key, Str(SENTINEL))];
    }
  }

  lemma {:induction false} FirstSqueezed(key: string, s: string, maxSize: nat, n: nat) returns (m: nat)
    requires StopsAt(key, s, maxSize, n)
    ensures m <= n && StopsAt(key, s, maxSize, m) && NotStopped(key, s, maxSize, m)
    decreases n
  {
    if k: nat :| k < n && StopsAt(key, s, maxSize, k) {
      m := FirstSqueezed(key, s, maxSize, k);
    } else {
      m := n;
    }
  }

  // ----- what the result promises

  lemma ForceFittedFits(d: seq<Entry>, maxSize: nat, r: seq<Entry>)
    requires ForceFitted(d, maxSize, r) && d != [] && Room(d[0].key, maxSize)
    ensures DictSize(r) <= maxSize
  {
    SentinelSize();
    OneEntrySize(d[0].key, SENTINEL);
    if d[0].value.Str? {
      var n: nat :| SqueezedAfter(d[0].key, d[0].value.s, maxSize, n, r);
      var k := SqueezeFitsWithRoom(d[0].key, d[0].value.s, maxSize);
      OneEntrySize(d[0].key, SqueezeRounds(d[0].value.s, n));
    }
  }

  /**
   * A pruned summary has at most the allowed keys; one that is not flagged is the input; and when
   * the first key leaves room, it fits the budget.
   */
  lemma PrunedWithinBounds(data: seq<Entry>, maxSize: nat, maxKeys: nat, p: Pruned)
    requires PrunedFrom(data, maxSize, maxKeys, p)
    ensures |p.summary| <= maxKeys
    ensures !p.truncated ==> p.summary == data && DictSize(data) <= maxSize
    ensures maxSize >= 2 && (data != [] ==> Room(data[0].key, maxSize)) ==> DictSize(p.summary) <= maxSize
  {
    var n: nat :| PrunedAfter(data, maxSize, maxKeys, p, n);
    var last := TopRounds(Kept(data, maxKeys), n);
    if DictSize(last) > maxSize {
      ForcedIsShort(last, maxSize, p.summary);
      if data != [] && Room(data[0].key, maxSize) {
        ForceFittedFits(last, maxSize, p.summary);
      }
    }
  }

  lemma ForcedIsShort(d: seq<Entry>, maxSize: nat, r: seq<Entry>)
    requires ForceFitted(d, maxSize, r)
    ensures |r| <= 1 && (d == [] ==> r == [])
  {
  }

  lemma FlagSize()
    ensures EntriesSize([FLAG]) == 18
  {
    FlagKeySize();
    OneEntry(FLAG);
  }

  lemma FlagKeySize()
    ensures StringSize("_truncated") == 12
  {
    var key := "_truncated";
    assert |key| == 10;
    PlainSize(key);
  }

  lemma OneEntry(e: Entry)
    ensures EntriesSize([e]) == StringSize(e.key) + 2 + Size(e.value)
  {
    assert EntriesSize([e]) == StringSize(e.key) + 2 + Size(e.value) + EntriesSize([]);
  }

  const FLAG := Entry("_truncated", Scalar("True", 4))

  /** What callers store: a truncated summary also says so. */
  function Stored(p: Pruned): seq<Entry> {
    if p.truncated && !HasKey(p.summary, "_truncated") then p.summary + [FLAG] else p.summary
  }

  /** What is stored has at most one more key and at most 20 more bytes. */
  lemma StoredWithinBounds(data: seq<Entry>, maxSize: nat, maxKeys: nat, p: Pruned)
    requires PrunedFrom(data, maxSize, maxKeys, p) && maxSize >= 2
    requires data != [] ==> Room(data[0].key, maxSize)
    ensures |Stored(p)| <= maxKeys + 1
    ensures DictSize(Stored(p)) <= maxSize + 20
  {
    PrunedWithinBounds(data, maxSize, maxKeys, p);
    EntriesSizeConcat(p.summary, [FLAG]);
    FlagSize();
  }

  /** Callers store an unflagged summary as it was, and a flagged one with everything in it and the flag. */
  lemma StoredSays(data: seq<Entry>, maxSize: nat, maxKeys: nat, p: Pruned)
    requires PrunedFrom(data, maxSize, maxKeys, p)
    ensures |data| <= maxKeys && DictSize(data) <= maxSize ==> Stored(p) == data
    ensures p.truncated ==> HasKey(Stored(p), "_truncated") && p.summary <= Stored(p)
  {
    FlaggedIff(data, maxSize, maxKeys, p);
    if p.truncated && !HasKey(p.summary, "_truncated") {
      assert Stored(p)[|p.summary|].key == "_truncated";
    }
  }

  /** `w` is `v` after some rounds of shrinking. */
  ghost predicate Form(v: Json, w: Json) {
    exists k: nat :: Reaches(v, k, w)
  }

  /**
   * What is left in a summary: the first keys in their order, each with its value after some rounds
   * of shrinking; or, as the last resort, the first key alone with a text.
   */
  lemma PrunedKeeps(data: seq<Entry>, maxSize: nat, maxKeys: nat, p: Pruned)
    requires PrunedFrom(data, maxSize, maxKeys, p)
    ensures |p.summary| <= |data| && forall i :: 0 <= i < |p.summary| ==> p.summary[i].key == data[i].key
    ensures || (|p.summary| == |Kept(data, maxKeys)|
                && forall i :: 0 <= i < |p.summary| ==> Form(data[i].value, p.summary[i].value))
            || (|p.summary| == 1 && p.summary[0].value.Str?)
  {
    var n: nat :| PrunedAfter(data, maxSize, maxKeys, p, n);
    var first := Kept(data, maxKeys);
    if DictSize(TopRounds(first, n)) <= maxSize {
      FormsAfter(data, maxKeys, n);
    } else {
      ForcedKeeps(TopRounds(first, n), maxSize, p.summary);
    }
  }

  lemma FormsAfter(data: seq<Entry>, maxKeys: nat, n: nat)
    ensures var r := TopRounds(Kept(data, maxKeys), n);
      && |r| == |Kept(data, maxKeys)| <= |data|
      && forall i :: 0 <= i < |r| ==> r[i].key == data[i].key && Form(data[i].value, r[i].value)
  {
    var first := Kept(data, maxKeys);
    forall i | 0 <= i < |first| ensures Form(data[i].value, TopRounds(first, n)[i].value) {
      TopRoundsForms(first, n, i);
      assert first[i] == data[i];
    }
  }

  lemma ForcedKeeps(d: seq<Entry>, maxSize: nat, r: seq<Entry>)
    requires ForceFitted(d, maxSize, r)
    ensures d == [] ==> r == []
    ensures d != [] ==> |r| == 1 && r[0].key == d[0].key && r[0].value.Str?
  {
  }

  lemma TopRoundsForms(d: seq<Entry>, n: nat, i: nat)
    requires i < |d|
    ensures Form(d[i].value, TopRounds(d, n)[i].value)
  {
    var e := TopRounds(d, n);
    RoundsAreConfigurations(d, n);
    ConfigurationsMean(d, e);
    OrbitToMeans(d[i].value, Transient(d[i].value) + 3, e[i].value);
    var k: nat :| k < Transient(d[i].value) + 3 && Reaches(d[i].value, k, e[i].value);
  }

  lemma ForcedOnce(d: seq<Entry>, maxSize: nat, r: seq<Entry>, q: seq<Entry>)
    requires ForceFitted(d, maxSize, r) && ForceFitted(d, maxSize, q)
    ensures r == q
  {
    if d != [] && d[0].value.Str? {
      var i: nat :| SqueezedAfter(d[0].key, d[0].value.s, maxSize, i, r);
      var j: nat :| SqueezedAfter(d[0].key, d[0].value.s, maxSize, j, q);
      assert i == j;
    }
  }

  /** Pruning has at most one outcome. */
  lemma PrunedOnce(data: seq<Entry>, maxSize: nat, maxKeys: nat, p: Pruned, q: Pruned)
    requires PrunedFrom(data, maxSize, maxKeys, p) && PrunedFrom(data, maxSize, maxKeys, q)
    ensures p == q
  {
    var m: nat :| PrunedAfter(data, maxSize, maxKeys, p, m);
    var n: nat :| PrunedAfter(data, maxSize, maxKeys, q, n);
    assert m == n;
    var last := TopRounds(Kept(data, maxKeys), n);
    if DictSize(last) > maxSize {
      ForcedOnce(last, maxSize, p.summary, q.summary);
    }
  }
}
