/**
 * Shrinking a value again and again always ends in a cycle of at most three values, after a number
 * of rounds that can be read off the value.
 */
module ShrinkCycles {
  import opened Iteration
  import opened Json
  import opened Shrink

  /** From round `t` on, `v` repeats with a period of three (a fixed point does so too). */
  predicate Cycles(v: Json, t: nat) {
    Repeats(ShrinkValue, v, t)
  }

  lemma RoundsAdd(v: Json, m: nat, n: nat)
    ensures Rounds(v, m + n) == Rounds(Rounds(v, m), n)
  {
    IterateAdd(ShrinkValue, v, m, n);
  }

  lemma RoundsLast(v: Json, n: nat)
    ensures Rounds(v, n + 1) == ShrinkValue(Rounds(v, n))
  {
    IterateLast(ShrinkValue, v, n);
  }

  lemma CyclesLater(v: Json, t: nat, u: nat)
    requires Cycles(v, t) && t <= u
    ensures Cycles(v, u)
  {
    RepeatsLater(ShrinkValue, v, t, u);
  }

  lemma CyclesAround(v: Json, t: nat, n: nat)
    requires Cycles(v, t)
    ensures Rounds(v, t + 3 * n) == Rounds(v, t)
  {
    RepeatsAround(ShrinkValue, v, t, n);
  }

  lemma FixedCycles(v: Json, t: nat)
    requires ShrinkValue(Rounds(v, t)) == Rounds(v, t)
    ensures Cycles(v, t)
  {
    FixedRepeats(ShrinkValue, v, t);
  }

  // ----- several values side by side

  function RoundsAll(vs: seq<Json>, n: nat): (r: seq<Json>)
    ensures |r| == |vs| && forall i :: 0 <= i < |r| ==> r[i] == Rounds(vs[i], n)
  {
    seq(|vs|, i requires 0 <= i < |vs| => Rounds(vs[i], n))
  }

  predicate CyclesAll(vs: seq<Json>, t: nat) {
    forall i :: 0 <= i < |vs| ==> Cycles(vs[i], t)
  }

  /** None of the values changes any more. */
  predicate FixedAt(vs: seq<Json>, n: nat) {
    ShrinkItems(RoundsAll(vs, n)) == RoundsAll(vs, n)
  }

  lemma RoundsAllLast(vs: seq<Json>, n: nat)
    ensures RoundsAll(vs, n + 1) == ShrinkItems(RoundsAll(vs, n))
  {
    forall i | 0 <= i < |vs| ensures RoundsAll(vs, n + 1)[i] == ShrinkItems(RoundsAll(vs, n))[i] {
      RoundsLast(vs[i], n);
    }
  }

  lemma {:induction false} AllFixedStay(vs: seq<Json>, m: nat, n: nat)
    requires FixedAt(vs, m) && m <= n
    ensures RoundsAll(vs, n) == RoundsAll(vs, m)
    decreases n
  {
    if m < n {
      AllFixedStay(vs, m, n - 1);
      RoundsAllLast(vs, n - 1);
    }
  }

  /** Values that cycle from `t` on and ever come to rest are at rest at `t`. */
  lemma FixedInTime(vs: seq<Json>, t: nat, m: nat)
    requires CyclesAll(vs, t) && FixedAt(vs, m)
    ensures FixedAt(vs, t)
  {
    var late := t + 3 * m;
    AllFixedStay(vs, m, late);
    forall i | 0 <= i < |vs| ensures RoundsAll(vs, late)[i] == RoundsAll(vs, t)[i] {
      CyclesAround(vs[i], t, m);
    }
    assert RoundsAll(vs, late) == RoundsAll(vs, t);
  }

  // ----- dicts

  function Values(entries: seq<Entry>): (vs: seq<Json>)
    ensures |vs| == |entries| && forall i :: 0 <= i < |vs| ==> vs[i] == entries[i].value
  {
    seq(|entries|, i requires 0 <= i < |entries| => entries[i].value)
  }

  /** The entries with other values. */
  function With(entries: seq<Entry>, vs: seq<Json>): (r: seq<Entry>)
    requires |vs| == |entries|
    ensures |r| == |entries| && forall i :: 0 <= i < |r| ==> r[i] == Entry(entries[i].key, vs[i])
  {
    seq(|entries|, i requires 0 <= i < |entries| => Entry(entries[i].key, vs[i]))
  }

  lemma ShrinkWith(entries: seq<Entry>, vs: seq<Json>)
    requires |vs| == |entries|
    ensures ShrinkEntries(With(entries, vs)) == With(entries, ShrinkItems(vs))
  {
    forall i | 0 <= i < |entries|
      ensures ShrinkEntries(With(entries, vs))[i] == With(entries, ShrinkItems(vs))[i]
    {
      ShrinkWithAt(entries, vs, i);
    }
  }

  lemma ShrinkWithAt(entries: seq<Entry>, vs: seq<Json>, i: nat)
    requires |vs| == |entries| && i < |entries|
    ensures ShrinkEntries(With(entries, vs))[i] == With(entries, ShrinkItems(vs))[i]
  {
    var w := With(entries, vs);
    assert w[i] == Entry(entries[i].key, vs[i]);
  }

  lemma SameWith(entries: seq<Entry>, vs: seq<Json>, ws: seq<Json>)
    requires |vs| == |ws| == |entries|
    ensures With(entries, vs) == With(entries, ws) <==> vs == ws
  {
    if With(entries, vs) == With(entries, ws) {
      forall i | 0 <= i < |vs| ensures vs[i] == ws[i] {
        assert With(entries, vs)[i] == With(entries, ws)[i];
      }
    }
  }

  /** One round on a small dict whose values still change. */
  lemma SmallDictStep(entries: seq<Entry>, vs: seq<Json>)
    requires |vs| == |entries| && 0 < |entries| <= 3
    ensures ShrinkValue(Dict(With(entries, vs)))
         == if ShrinkItems(vs) == vs then Dict([TRUNCATED]) else Dict(With(entries, ShrinkItems(vs)))
  {
    ShrinkWith(entries, vs);
    SameWith(entries, vs, ShrinkItems(vs));
  }

  lemma {:induction false} SmallDictRounds(entries: seq<Entry>, n: nat)
    requires 0 < |entries| <= 3
    requires forall m: nat :: m < n ==> !FixedAt(Values(entries), m)
    ensures Rounds(Dict(entries), n) == Dict(With(entries, RoundsAll(Values(entries), n)))
    decreases n
  {
    var vs := Values(entries);
    if n == 0 {
      assert With(entries, RoundsAll(vs, 0)) == entries;
    } else {
      SmallDictRounds(entries, n - 1);
      assert !FixedAt(vs, n - 1);
      SmallDictNext(entries, n - 1);
    }
  }

  lemma SmallDictNext(entries: seq<Entry>, n: nat)
    requires 0 < |entries| <= 3
    requires Rounds(Dict(entries), n) == Dict(With(entries, RoundsAll(Values(entries), n)))
    ensures Rounds(Dict(entries), n + 1)
         == if FixedAt(Values(entries), n) then Dict([TRUNCATED]) else Dict(With(entries, RoundsAll(Values(entries), n + 1)))
  {
    RoundsLast(Dict(entries), n);
    SmallDictStep(entries, RoundsAll(Values(entries), n));
    RoundsAllLast(Values(entries), n);
  }

  /** A dict of at most three entries cycles with its values, or comes to the three-cycle. */
  lemma SmallDictCycles(entries: seq<Entry>, t: nat)
    requires 0 < |entries| <= 3 && CyclesAll(Values(entries), t)
    ensures Cycles(Dict(entries), t + 1)
  {
    var vs := Values(entries);
    if m: nat :| FixedAt(vs, m) {
      FixedInTime(vs, t, m);
      SmallDictMarked(entries, t);
    } else {
      SmallDictRounds(entries, t);
      SmallDictRounds(entries, t + 3);
      SameRounds(vs, t);
      CyclesLater(Dict(entries), t, t + 1);
    }
  }

  lemma SmallDictMarked(entries: seq<Entry>, t: nat)
    requires 0 < |entries| <= 3 && FixedAt(Values(entries), t)
    ensures Cycles(Dict(entries), t + 1)
  {
    var k := SmallDictToMark(entries, t);
    AtMarkCycles(Dict(entries), k + 1, t + 1);
  }

  lemma AtMarkCycles(v: Json, k: nat, t: nat)
    requires k <= t && Rounds(v, k) == Dict([TRUNCATED])
    ensures Cycles(v, t)
  {
    TruncatedCycles(v, k);
    CyclesLater(v, k, t);
  }

  lemma SmallDictToMark(entries: seq<Entry>, t: nat) returns (k: nat)
    requires 0 < |entries| <= 3 && FixedAt(Values(entries), t)
    ensures k <= t && Rounds(Dict(entries), k + 1) == Dict([TRUNCATED])
  {
    k := FirstFixed(Values(entries), t);
    SmallDictRounds(entries, k);
    SmallDictNext(entries, k);
  }

  lemma {:induction false} FirstFixed(vs: seq<Json>, t: nat) returns (k: nat)
    requires FixedAt(vs, t)
    ensures k <= t && FixedAt(vs, k) && forall m: nat :: m < k ==> !FixedAt(vs, m)
    decreases t
  {
    if m: nat :| m < t && FixedAt(vs, m) {
      k := FirstFixed(vs, m);
    } else {
      k := t;
    }
  }

  lemma SameRounds(vs: seq<Json>, t: nat)
    requires CyclesAll(vs, t)
    ensures RoundsAll(vs, t + 3) == RoundsAll(vs, t)
  {
    forall i | 0 <= i < |vs| ensures RoundsAll(vs, t + 3)[i] == RoundsAll(vs, t)[i] {
      assert Cycles(vs[i], t);
    }
  }

  lemma TruncatedCycles(v: Json, t: nat)
    requires Rounds(v, t) == Dict([TRUNCATED])
    ensures Cycles(v, t)
  {
    ThreeCycle();
    RoundsAdd(v, t, 3);
  }

  lemma {:induction false} MarkAppends(entries: seq<Entry>)
    requires !HasKey(entries, "truncated")
    ensures Mark(entries) == entries + [TRUNCATED]
  {
    if entries != [] {
      assert entries[0].key != "truncated";
      forall i | 0 <= i < |entries[1..]| ensures entries[1..][i].key != "truncated" {
        assert entries[1..][i] == entries[i + 1];
      }
      MarkAppends(entries[1..]);
    }
  }

  /** Marking replaces one entry that has the key. */
  lemma {:induction false} MarkReplaces(entries: seq<Entry>) returns (k: nat)
    requires HasKey(entries, "truncated")
    ensures k < |entries| && Mark(entries) == entries[k := TRUNCATED]
  {
    if entries[0].key == "truncated" {
      k := 0;
    } else {
      var i :| 0 <= i < |entries| && entries[i].key == "truncated";
      assert entries[1..][i - 1].key == "truncated";
      k := MarkReplaces(entries[1..]);
      k := k + 1;
      assert entries[k := TRUNCATED] == [entries[0]] + entries[1..][k - 1 := TRUNCATED];
    }
  }

  /** One round on the three entries that a big dict keeps, if none of them is the mark. */
  lemma BigDictStep(entries: seq<Entry>, head: seq<Entry>, vs: seq<Json>)
    requires |entries| > 3 && |head| == |vs| == 3 && !HasKey(head, "truncated")
    requires entries[..3] == With(head, vs)
    ensures ShrinkValue(Dict(entries)) == Dict(With(head, ShrinkItems(vs)) + [TRUNCATED])
  {
    ShrinkWith(head, vs);
    var next := With(head, ShrinkItems(vs));
    forall i | 0 <= i < |next| ensures next[i].key != "truncated" {
      assert next[i].key == head[i].key;
    }
    MarkAppends(next);
  }

  lemma {:induction false} BigDictRounds(entries: seq<Entry>, n: nat)
    requires |entries| > 3 && !HasKey(entries[..3], "truncated") && n > 0
    ensures Rounds(Dict(entries), n) == Dict(With(entries[..3], RoundsAll(Values(entries[..3]), n)) + [TRUNCATED])
    decreases n
  {
    if n == 1 {
      BigDictFirst(entries);
    } else {
      BigDictRounds(entries, n - 1);
      BigDictNext(entries, n - 1);
    }
  }

  lemma BigDictFirst(entries: seq<Entry>)
    requires |entries| > 3 && !HasKey(entries[..3], "truncated")
    ensures Rounds(Dict(entries), 1) == Dict(With(entries[..3], RoundsAll(Values(entries[..3]), 1)) + [TRUNCATED])
  {
    var head, vs := entries[..3], Values(entries[..3]);
    assert RoundsAll(vs, 0) == vs && With(head, vs) == head;
    RoundsLast(Dict(entries), 0);
    RoundsAllLast(vs, 0);
    BigDictStep(entries, head, vs);
  }

  lemma BigDictNext(entries: seq<Entry>, n: nat)
    requires |entries| > 3 && !HasKey(entries[..3], "truncated")
    requires Rounds(Dict(entries), n) == Dict(With(entries[..3], RoundsAll(Values(entries[..3]), n)) + [TRUNCATED])
    ensures Rounds(Dict(entries), n + 1) == Dict(With(entries[..3], RoundsAll(Values(entries[..3]), n + 1)) + [TRUNCATED])
  {
    var head, vs := entries[..3], Values(entries[..3]);
    var now := With(head, RoundsAll(vs, n));
    RoundsLast(Dict(entries), n);
    RoundsAllLast(vs, n);
    assert (now + [TRUNCATED])[..3] == now;
    BigDictStep(now + [TRUNCATED], head, RoundsAll(vs, n));
  }

  lemma BigDictCycles(entries: seq<Entry>, t: nat)
    requires |entries| > 3 && CyclesAll(Values(entries[..3]), t)
    ensures Cycles(Dict(entries), t + 4)
  {
    if HasKey(entries[..3], "truncated") {
      MarkedDictCycles(entries, t);
    } else {
      BigDictRounds(entries, t + 4);
      BigDictRounds(entries, t + 7);
      CyclesAllLater(Values(entries[..3]), t, t + 4);
      SameRounds(Values(entries[..3]), t + 4);
    }
  }

  lemma MarkedDictCycles(entries: seq<Entry>, t: nat)
    requires |entries| > 3 && CyclesAll(Values(entries[..3]), t) && HasKey(entries[..3], "truncated")
    ensures Cycles(Dict(entries), t + 4)
  {
    var head := entries[..3];
    KeysKept(head, "truncated");
    var k := MarkReplaces(ShrinkEntries(head));
    var small := ShrinkEntries(head)[k := TRUNCATED];
    assert ShrinkValue(Dict(entries)) == Dict(small);
    forall i | 0 <= i < 3 ensures Cycles(Values(small)[i], t + 2) {
      assert Cycles(Values(head)[i], t);
      MarkedCycles(head[i].value, small[i].value, t);
    }
    SmallDictCycles(small, t + 2);
    OneRoundLater(Dict(entries), t + 3);
  }

  lemma OneRoundLater(v: Json, t: nat)
    requires Cycles(ShrinkValue(v), t)
    ensures Cycles(v, t + 1)
  {
    RepeatsFromNext(ShrinkValue, v, t);
  }

  lemma CyclesAllLater(vs: seq<Json>, t: nat, u: nat)
    requires CyclesAll(vs, t) && t <= u
    ensures CyclesAll(vs, u)
  {
    forall i | 0 <= i < |vs| ensures Cycles(vs[i], u) {
      CyclesLater(vs[i], t, u);
    }
  }

  /** An entry that was shrunk once, or was marked. */
  lemma MarkedCycles(v: Json, w: Json, t: nat)
    requires Cycles(v, t) && (w == ShrinkValue(v) || w == TRUNCATED.value)
    ensures Cycles(w, t + 2)
  {
    if w == ShrinkValue(v) {
      CyclesLater(v, t, t + 3);
      RepeatsFromNext(ShrinkValue, v, t + 2);
    } else {
      MarkCycles();
      CyclesLater(w, 2, t + 2);
    }
  }

  /** The value of the mark is a text after one round, and at rest after two. */
  lemma MarkCycles()
    ensures Cycles(TRUNCATED.value, 2)
  {
    RoundsLast(TRUNCATED.value, 0);
    RoundsLast(TRUNCATED.value, 1);
    FixedCycles(TRUNCATED.value, 2);
  }

  // ----- lists

  lemma SmallListNext(items: seq<Json>, n: nat)
    requires 0 < |items| <= 3 && Rounds(List(items), n) == List(RoundsAll(items, n))
    ensures Rounds(List(items), n + 1)
         == if FixedAt(items, n) then List([Str(SENTINEL)]) else List(RoundsAll(items, n + 1))
  {
    RoundsLast(List(items), n);
    RoundsAllLast(items, n);
  }

  lemma {:induction false} SmallListRounds(items: seq<Json>, n: nat)
    requires 0 < |items| <= 3
    requires forall m: nat :: m < n ==> !FixedAt(items, m)
    ensures Rounds(List(items), n) == List(RoundsAll(items, n))
    decreases n
  {
    if n == 0 {
      assert RoundsAll(items, 0) == items;
    } else {
      SmallListRounds(items, n - 1);
      assert !FixedAt(items, n - 1);
      SmallListNext(items, n - 1);
    }
  }

  lemma SmallListCycles(items: seq<Json>, t: nat)
    requires 0 < |items| <= 3 && CyclesAll(items, t)
    ensures Cycles(List(items), t + 1)
  {
    if m: nat :| FixedAt(items, m) {
      FixedInTime(items, t, m);
      SmallListRests(items, t);
    } else {
      SmallListRounds(items, t);
      SmallListRounds(items, t + 3);
      SameRounds(items, t);
      CyclesLater(List(items), t, t + 1);
    }
  }

  lemma SmallListRests(items: seq<Json>, t: nat)
    requires 0 < |items| <= 3 && FixedAt(items, t)
    ensures Cycles(List(items), t + 1)
  {
    var k := FirstFixed(items, t);
    SmallListRounds(items, k);
    SmallListNext(items, k);
    MarkedListFixed();
    FixedCycles(List(items), k + 1);
    CyclesLater(List(items), k + 1, t + 1);
  }

  lemma MarkedListFixed()
    ensures ShrinkValue(List([Str(SENTINEL)])) == List([Str(SENTINEL)])
  {
    assert ShrinkItems([Str(SENTINEL)]) == [Str(SENTINEL)];
  }

  lemma {:induction false} BigListRounds(items: seq<Json>, n: nat)
    requires |items| > 3 && n > 0
    ensures Rounds(List(items), n) == List(RoundsAll(items[..3], n) + [Str(SENTINEL)])
    decreases n
  {
    RoundsLast(List(items), n - 1);
    RoundsAllLast(items[..3], n - 1);
    var now := RoundsAll(items[..3], n - 1);
    assert n == 1 ==> now == items[..3];
    if n > 1 {
      BigListRounds(items, n - 1);
      assert (now + [Str(SENTINEL)])[..3] == now;
    }
  }

  lemma BigListCycles(items: seq<Json>, t: nat)
    requires |items| > 3 && CyclesAll(items[..3], t)
    ensures Cycles(List(items), t + 1)
  {
    BigListRounds(items, t + 1);
    BigListRounds(items, t + 4);
    CyclesAllLater(items[..3], t, t + 1);
    SameRounds(items[..3], t + 1);
  }

  // ----- every value

  /** A round from which a value certainly cycles. */
  function Transient(v: Json): nat {
    match v
    case Str(_) => Rest(v)
    case Scalar(_, _) => Rest(v)
    case List(items) => 1 + TransientItems(items, 3)
    case Dict(entries) => 4 + TransientEntries(entries, 3)
  }

  function TransientItems(items: seq<Json>, n: nat): nat {
    if items == [] || n == 0 then 0 else Transient(items[0]) + TransientItems(items[1..], n - 1)
  }

  function TransientEntries(entries: seq<Entry>, n: nat): nat {
    if entries == [] || n == 0 then 0 else Transient(entries[0].value) + TransientEntries(entries[1..], n - 1)
  }

  lemma {:induction false} TransientItem(items: seq<Json>, n: nat, i: nat)
    requires i < |items| && i < n
    ensures Transient(items[i]) <= TransientItems(items, n)
  {
    if i > 0 {
      TransientItem(items[1..], n - 1, i - 1);
    }
  }

  lemma {:induction false} TransientEntry(entries: seq<Entry>, n: nat, i: nat)
    requires i < |entries| && i < n
    ensures Transient(entries[i].value) <= TransientEntries(entries, n)
  {
    if i > 0 {
      TransientEntry(entries[1..], n - 1, i - 1);
    }
  }

  /** Every value cycles with period three from that round on. */
  lemma {:induction false} EveryValueCycles(v: Json)
    ensures Cycles(v, Transient(v))
  {
    match v
    case Str(_) =>
      RestAfter(v, Rest(v));
      FixedCycles(v, Rest(v));
    case Scalar(_, _) =>
      RestAfter(v, Rest(v));
      FixedCycles(v, Rest(v));
    case List(items) =>
      var t := TransientItems(items, 3);
      var head := if |items| > 3 then items[..3] else items;
      forall i | 0 <= i < |head| ensures Cycles(head[i], t) {
        EveryValueCycles(items[i]);
        TransientItem(items, 3, i);
        CyclesLater(items[i], Transient(items[i]), t);
      }
      if items == [] {
        FixedAfter(v, t + 1);
      } else if |items| > 3 {
        BigListCycles(items, t);
      } else {
        SmallListCycles(items, t);
      }
    case Dict(entries) =>
      var t := TransientEntries(entries, 3);
      var head := if |entries| > 3 then entries[..3] else entries;
      forall i | 0 <= i < |head| ensures Cycles(Values(head)[i], t) {
        EveryValueCycles(entries[i].value);
        TransientEntry(entries, 3, i);
        CyclesLater(entries[i].value, Transient(entries[i].value), t);
      }
      if entries == [] {
        FixedAfter(v, t + 4);
      } else if |entries| > 3 {
        BigDictCycles(entries, t);
      } else {
        SmallDictCycles(entries, t);
        CyclesLater(v, t + 1, t + 4);
      }
  }

  lemma {:induction false} FixedAfter(v: Json, n: nat)
    requires ShrinkValue(v) == v
    ensures Rounds(v, n) == v && Cycles(v, n)
    decreases n
  {
    if n > 0 {
      FixedAfter(v, n - 1);
    }
    FixedCycles(v, 0);
    CyclesLater(v, 0, n);
  }

  // ----- the values a value can become

  function OrbitTo(v: Json, n: nat): set<Json> {
    if n == 0 then {} else OrbitTo(v, n - 1) + {Rounds(v, n - 1)}
  }

  predicate Reaches(v: Json, i: nat, w: Json) {
    Rounds(v, i) == w
  }

  lemma {:induction false} OrbitToMeans(v: Json, n: nat, w: Json)
    ensures w in OrbitTo(v, n) <==> exists i: nat :: i < n && Reaches(v, i, w)
    decreases n
  {
    if n > 0 {
      OrbitToMeans(v, n - 1, w);
      assert Reaches(v, n - 1, w) <==> w == Rounds(v, n - 1);
    }
  }

  lemma {:induction false} OrbitToSize(v: Json, n: nat)
    ensures |OrbitTo(v, n)| <= n
    decreases n
  {
    if n > 0 {
      OrbitToSize(v, n - 1);
      var before, next := OrbitTo(v, n - 1), Rounds(v, n - 1);
      assert next in before ==> before + {next} == before;
    }
  }

  function Orbit(v: Json): set<Json> {
    OrbitTo(v, Transient(v) + 3)
  }

  lemma {:induction false} InOrbit(v: Json, n: nat)
    ensures Rounds(v, n) in Orbit(v)
    decreases n
  {
    if n < Transient(v) + 3 {
      OrbitToMeans(v, Transient(v) + 3, Rounds(v, n));
      assert Reaches(v, n, Rounds(v, n));
    } else {
      EveryValueCycles(v);
      CyclesLater(v, Transient(v), n - 3);
      InOrbit(v, n - 3);
    }
  }

  /** Shrinking does not leave them. */
  lemma OrbitClosed(v: Json, w: Json)
    requires w in Orbit(v)
    ensures ShrinkValue(w) in Orbit(v)
  {
    OrbitToMeans(v, Transient(v) + 3, w);
    var i: nat :| i < Transient(v) + 3 && Reaches(v, i, w);
    RoundsLast(v, i);
    InOrbit(v, i + 1);
  }
}
