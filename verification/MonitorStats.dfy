/**
 * Performance statistics of monitored functions: the accumulator one monitor owns, and the
 * manager that keeps one accumulator per monitor.
 */
module MonitorStats {
  import opened Options

  type Id = nat

  /** One recorded call: whether it returned, and how long it took in milliseconds. */
  datatype Sample = Sample(success: bool, duration: real)

  /** The raw counters; `min` is None while the source holds +infinity. */
  datatype Stats = Stats(total: nat, success: nat, fail: nat, sum: real, min: Option<real>, max: real)

  const ZERO := Stats(0, 0, 0, 0.0, None, 0.0)

  function Record(s: Stats, c: Sample): Stats {
    Stats(
      s.total + 1,
      if c.success then s.success + 1 else s.success,
      if c.success then s.fail else s.fail + 1,
      s.sum + c.duration,
      Some(if s.min.Some? && s.min.value <= c.duration then s.min.value else c.duration),
      if s.max >= c.duration then s.max else c.duration)
  }

  /** The counters after a history of calls, oldest first. */
  function Tally(calls: seq<Sample>): Stats {
    if calls == [] then ZERO else Record(Tally(calls[..|calls| - 1]), calls[|calls| - 1])
  }

  lemma TallyMore(calls: seq<Sample>, more: Sample)
    ensures Tally(calls + [more]) == Record(Tally(calls), more)
  {
    assert (calls + [more])[..|calls|] == calls;
  }

  function Successes(calls: seq<Sample>): nat {
    if calls == [] then 0 else Successes(calls[..|calls| - 1]) + if calls[|calls| - 1].success then 1 else 0
  }

  /** The durations of a history added up. */
  function TotalDuration(calls: seq<Sample>): real {
    if calls == [] then 0.0 else calls[0].duration + TotalDuration(calls[1..])
  }

  lemma {:induction false} DurationsAdd(calls: seq<Sample>, more: seq<Sample>)
    ensures TotalDuration(calls + more) == TotalDuration(calls) + TotalDuration(more)
  {
    if calls == [] {
      assert calls + more == more;
    } else {
      assert (calls + more)[1..] == calls[1..] + more;
      DurationsAdd(calls[1..], more);
    }
  }

  /** The sum is that of all recorded durations. */
  lemma {:induction false} TallySum(calls: seq<Sample>)
    ensures Tally(calls).sum == TotalDuration(calls)
  {
    if calls != [] {
      var before, last := calls[..|calls| - 1], calls[|calls| - 1];
      TallySum(before);
      DurationsAdd(before, [last]);
      assert TotalDuration([last]) == last.duration + TotalDuration([]);
      assert calls == before + [last];
    }
  }

  /** The counters count what their names say. */
  lemma {:induction false} TallyCounts(calls: seq<Sample>)
    ensures Tally(calls).total == |calls| == Tally(calls).success + Tally(calls).fail
    ensures Tally(calls).success == Successes(calls)
  {
    if calls != [] {
      TallyCounts(calls[..|calls| - 1]);
    }
  }

  /** The extremes bound every recorded duration, and both are attained. */
  lemma {:induction false} TallyExtremes(calls: seq<Sample>)
    requires forall c :: c in calls ==> c.duration >= 0.0
    ensures Tally(calls).min.None? <==> calls == []
    ensures Tally(calls).max >= 0.0
    ensures forall c :: c in calls ==> Tally(calls).min.value <= c.duration <= Tally(calls).max
    ensures calls != [] ==> exists c :: c in calls && c.duration == Tally(calls).min.value
    ensures calls != [] ==> exists c :: c in calls && c.duration == Tally(calls).max
  {
    if calls != [] {
      var before, last := calls[..|calls| - 1], calls[|calls| - 1];
      assert calls == before + [last];
      assert last in calls;
      TallyExtremes(before);
      if before != [] {
        var lo :| lo in before && lo.duration == Tally(before).min.value;
        var hi :| hi in before && hi.duration == Tally(before).max;
        assert lo in calls && hi in calls;
      }
    }
  }

  /** `n` times `x`. */
  ghost function Times(x: real, n: nat): real {
    n as real * x
  }

  lemma TimesStep(lo: real, hi: real, n: nat)
    requires lo <= hi
    ensures Times(lo, n) <= Times(hi, n)
    ensures Times(lo, n + 1) == Times(lo, n) + lo
  {
    assert n as real >= 0.0;
    assert Times(hi, n) - Times(lo, n) == n as real * (hi - lo);
  }

  /** The sum of the durations lies between the extremes scaled by the number of calls. */
  lemma {:induction false} TallyMean(calls: seq<Sample>)
    requires forall c :: c in calls ==> c.duration >= 0.0
    requires calls != []
    ensures Tally(calls).min.Some?
    ensures Times(Tally(calls).min.value, |calls|) <= Tally(calls).sum <= Times(Tally(calls).max, |calls|)
  {
    var before, last := calls[..|calls| - 1], calls[|calls| - 1];
    assert calls == before + [last];
    TallyExtremes(calls);
    assert last in calls;
    var s, t := Tally(before), Tally(calls);
    if before == [] {
      TimesStep(t.min.value, t.min.value, 0);
      TimesStep(t.max, t.max, 0);
    } else {
      TallyMean(before);
      TimesStep(t.min.value, s.min.value, |before|);
      TimesStep(s.max, t.max, |before|);
      TimesStep(t.max, t.max, |before|);
    }
  }

  /** The report of one monitor, before the source rounds it for display. */
  datatype Report = Report(total: nat, success: nat, fail: nat, failRate: real, avg: real, min: real, max: real)

  /** Keeps one accumulator per monitor id. */
  class MonitorManager {
    var stats: map<Id, Stats>

    constructor ()
      ensures stats == map[]
    {
      stats := map[];
    }

    method StartMonitor(id: Id)
      modifies this
      ensures stats == old(stats)[id := ZERO]
    {
      stats := stats[id := ZERO];
    }

    method StopMonitor(id: Id) returns (final: Option<Stats>)
      modifies this
      ensures final == if id in old(stats) then Some(old(stats)[id]) else None
      ensures stats == old(stats) - {id}
    {
      if id !in stats {
        assert stats - {id} == stats;
        return None;
      }
      final := Some(stats[id]);
      stats := stats - {id};
    }

    /** A call recorded for a monitor that is gone changes nothing. */
    method RecordCall(id: Id, success: bool, duration: real)
      modifies this
      ensures stats == if id in old(stats) then old(stats)[id := Record(old(stats)[id], Sample(success, duration))] else old(stats)
    {
      if id !in stats {
        return;
      }
      var s := stats[id];
      s := s.(total := s.total + 1);
      if success {
        s := s.(success := s.success + 1);
      } else {
        s := s.(fail := s.fail + 1);
      }
      s := s.(sum := s.sum + duration);
      s := s.(min := Some(if s.min.Some? && s.min.value <= duration then s.min.value else duration));
      s := s.(max := if s.max >= duration then s.max else duration);
      stats := stats[id := s];
    }

    /**
     * The report of a monitor whose counters tally a history of non-negative durations: the failure
     * rate and the average are the true ones, and the average lies between the extremes.
     */
    method GetStats(id: Id, ghost calls: seq<Sample>) returns (r: Option<Report>)
      requires id in stats ==> stats[id] == Tally(calls)
      requires forall c :: c in calls ==> c.duration >= 0.0
      ensures r.Some? <==> id in stats
      ensures r.Some? ==> r.value.total == |calls| && r.value.success == Successes(calls)
      ensures r.Some? ==> Times(r.value.failRate, |calls|) == (|calls| - Successes(calls)) as real
      ensures r.Some? ==> Times(r.value.avg, |calls|) == TotalDuration(calls)
      ensures r.Some? ==> 0.0 <= r.value.failRate <= 1.0 && r.value.min <= r.value.avg <= r.value.max
      ensures r.Some? ==> forall c :: c in calls ==> r.value.min <= c.duration <= r.value.max
    {
      if id !in stats {
        return None;
      }
      var raw := stats[id];
      TallyCounts(calls);
      TallySum(calls);
      TallyExtremes(calls);
      var failRate := if raw.total > 0 then raw.fail as real / raw.total as real else 0.0;
      var avg := if raw.total > 0 then raw.sum / raw.total as real else 0.0;
      var lowest := if raw.min.Some? then raw.min.value else 0.0;
      if raw.total > 0 {
        TallyMean(calls);
        QuotientBounds(raw.sum, raw.total, lowest, raw.max);
        QuotientBounds(raw.fail as real, raw.total, 0.0, 1.0);
      }
      r := Some(Report(raw.total, raw.success, raw.fail, failRate, avg, lowest, raw.max));
    }
  }

  /** A quotient lies between the bounds whose multiples enclose the numerator. */
  lemma QuotientBounds(x: real, n: nat, lo: real, hi: real)
    requires n > 0 && Times(lo, n) <= x <= Times(hi, n)
    ensures Times(x / n as real, n) == x
    ensures lo <= x / n as real <= hi
  {
    var q := x / n as real;
    assert Times(q, n) == x;
    if q < lo {
      TimesGap(q, lo, n);
    } else if q > hi {
      TimesGap(hi, q, n);
    }
  }

  lemma {:induction false} TimesGap(lo: real, hi: real, n: nat)
    requires n > 0 && lo < hi
    ensures Times(lo, n) < Times(hi, n)
    decreases n
  {
    OneMore(lo, n - 1);
    OneMore(hi, n - 1);
    if n > 1 {
      TimesGap(lo, hi, n - 1);
    }
  }

  lemma OneMore(x: real, n: nat)
    ensures Times(x, n + 1) == Times(x, n) + x
    ensures Times(x, 0) == 0.0
  {
    assert (n + 1) as real == n as real + 1.0;
  }
}
