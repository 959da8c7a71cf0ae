/** Applying one function again and again. */
module Iteration {

  function Iterate<T>(f: T -> T, x: T, n: nat): T
    decreases n
  {
    if n == 0 then x else Iterate(f, f(x), n - 1)
  }

  lemma {:induction false} IterateAdd<T>(f: T -> T, x: T, m: nat, n: nat)
    ensures Iterate(f, x, m + n) == Iterate(f, Iterate(f, x, m), n)
    decreases m
  {
    if m > 0 {
      IterateAdd(f, f(x), m - 1, n);
    }
  }

  lemma IterateLast<T>(f: T -> T, x: T, n: nat)
    ensures Iterate(f, x, n + 1) == f(Iterate(f, x, n))
  {
    IterateAdd(f, x, n, 1);
    assert Iterate(f, Iterate(f, x, n), 1) == Iterate(f, f(Iterate(f, x, n)), 0);
  }

  /** A set that `f` does not leave holds every iterate. */
  lemma {:induction false} StaysIn<T>(f: T -> T, s: set<T>, x: T, n: nat)
    requires x in s && forall y :: y in s ==> f(y) in s
    ensures Iterate(f, x, n) in s
    decreases n
  {
    if n > 0 {
      StaysIn(f, s, f(x), n - 1);
    }
  }

  /** More elements than a set has contain one twice. */
  lemma {:induction false} Pigeonhole<T>(xs: seq<T>, s: set<T>) returns (i: nat, j: nat)
    requires |xs| > |s| && forall x :: x in xs ==> x in s
    ensures i < j < |xs| && xs[i] == xs[j]
    decreases |xs|
  {
    j := |xs| - 1;
    if k :| 0 <= k < j && xs[k] == xs[j] {
      i := k;
    } else {
      forall x | x in xs[..j] ensures x in s - {xs[j]} {
      }
      assert |s - {xs[j]}| == |s| - 1;
      i, j := Pigeonhole(xs[..j], s - {xs[j]});
    }
  }

  /** Every iterate is one of the first `|s|` ones. */
  lemma SeenEarly<T>(f: T -> T, s: set<T>, x: T, n: nat) returns (k: nat)
    requires x in s && forall y :: y in s ==> f(y) in s
    ensures k < |s| && Iterate(f, x, k) == Iterate(f, x, n)
  {
    var xs := seq(|s| + 1, i requires 0 <= i => Iterate(f, x, i));
    forall y | y in xs ensures y in s {
      var i :| 0 <= i < |xs| && xs[i] == y;
      StaysIn(f, s, x, i);
    }
    var i, j := Pigeonhole(xs, s);
    assert xs[i] == Iterate(f, x, i) && xs[j] == Iterate(f, x, j);
    k := SeenBefore(f, x, i, j, n);
  }

  lemma {:induction false} SeenBefore<T>(f: T -> T, x: T, i: nat, j: nat, n: nat) returns (k: nat)
    requires i < j && Iterate(f, x, i) == Iterate(f, x, j)
    ensures k < j && Iterate(f, x, k) == Iterate(f, x, n)
    decreases n
  {
    if n < j {
      k := n;
    } else {
      IterateAdd(f, x, i, n - j);
      IterateAdd(f, x, j, n - j);
      k := SeenBefore(f, x, i, j, i + (n - j));
    }
  }

  /**
   * If every step outside `p` lowers a measure or changes nothing, and no step raises it, then a
   * sequence in which every step changes something is inside `p` from some point on.
   */
  lemma {:induction false} EventuallyInside<T(!new)>(f: T -> T, p: T -> bool, measure: T -> nat, x: T) returns (m: nat)
    requires forall y :: measure(f(y)) <= measure(y)
    requires forall y :: !p(y) && f(y) != y ==> measure(f(y)) < measure(y)
    requires forall n: nat :: f(Iterate(f, x, n)) != Iterate(f, x, n)
    ensures forall n: nat :: n >= m ==> p(Iterate(f, x, n))
    decreases measure(x)
  {
    if k: nat :| !p(Iterate(f, x, k)) {
      MeasureFalls(f, measure, x, k);
      IterateLast(f, x, k);
      var y := Iterate(f, x, k + 1);
      forall n: nat ensures f(Iterate(f, y, n)) != Iterate(f, y, n) {
        IterateAdd(f, x, k + 1, n);
      }
      var later := EventuallyInside(f, p, measure, y);
      m := k + 1 + later;
      forall n: nat | n >= m ensures p(Iterate(f, x, n)) {
        IterateAdd(f, x, k + 1, n - (k + 1));
      }
    } else {
      m := 0;
    }
  }

  lemma {:induction false} MeasureFalls<T(!new)>(f: T -> T, measure: T -> nat, x: T, n: nat)
    requires forall y :: measure(f(y)) <= measure(y)
    ensures measure(Iterate(f, x, n)) <= measure(x)
    decreases n
  {
    if n > 0 {
      MeasureFalls(f, measure, f(x), n - 1);
    }
  }

  /** A property that `f` keeps holds of every iterate. */
  lemma {:induction false} Keeps<T(!new)>(f: T -> T, p: T -> bool, x: T, n: nat)
    requires p(x) && forall y :: p(y) ==> p(f(y))
    ensures p(Iterate(f, x, n))
    decreases n
  {
    if n > 0 {
      Keeps(f, p, f(x), n - 1);
    }
  }

  /** What `f` does to images under `g` is what `h` does beneath. */
  lemma {:induction false} Simulates<T(!new), U>(f: U -> U, g: T -> U, h: T -> T, p: T -> bool, x: T, n: nat)
    requires p(x) && forall y :: p(y) ==> f(g(y)) == g(h(y)) && p(h(y))
    ensures Iterate(f, g(x), n) == g(Iterate(h, x, n))
    decreases n
  {
    if n > 0 {
      Simulates(f, g, h, p, h(x), n - 1);
    }
  }

  /** Where every iterate from `m` on still moves, none before is fixed either. */
  lemma NeverFixed<T(!new)>(f: T -> T, p: T -> bool, x: T, m: nat, n: nat)
    requires forall y :: p(y) ==> f(y) != y
    requires forall k: nat :: k >= m ==> p(Iterate(f, x, k))
    ensures f(Iterate(f, x, n)) != Iterate(f, x, n)
  {
    assert p(Iterate(f, x, n + m));
    if f(Iterate(f, x, n)) == Iterate(f, x, n) {
      FixedStays(f, x, n, n + m);
    }
  }

  // ----- a period of three

  /** From `t` on the iterates repeat with a period of three (a fixed point does so too). */
  predicate Repeats<T(==)>(f: T -> T, x: T, t: nat) {
    Iterate(f, x, t + 3) == Iterate(f, x, t)
  }

  lemma RepeatsLater<T>(f: T -> T, x: T, t: nat, u: nat)
    requires Repeats(f, x, t) && t <= u
    ensures Repeats(f, x, u)
  {
    var n := u - t;
    IterateAdd(f, x, t, n);
    IterateAdd(f, x, t + 3, n);
    assert (t + 3) + n == u + 3;
  }

  /** Going around any number of times changes nothing. */
  lemma {:induction false} RepeatsAround<T>(f: T -> T, x: T, t: nat, n: nat)
    requires Repeats(f, x, t)
    ensures Iterate(f, x, t + 3 * n) == Iterate(f, x, t)
    decreases n
  {
    if n > 0 {
      RepeatsAround(f, x, t, n - 1);
      RepeatsLater(f, x, t, t + 3 * (n - 1));
    }
  }

  lemma FixedRepeats<T>(f: T -> T, x: T, t: nat)
    requires f(Iterate(f, x, t)) == Iterate(f, x, t)
    ensures Repeats(f, x, t)
  {
    FixedStays(f, x, t, t + 3);
  }

  lemma RepeatsFromNext<T>(f: T -> T, x: T, t: nat)
    ensures Repeats(f, x, t + 1) <==> Repeats(f, f(x), t)
  {
  }

  /** A fixed point is never left. */
  lemma {:induction false} FixedStays<T>(f: T -> T, x: T, m: nat, n: nat)
    requires f(Iterate(f, x, m)) == Iterate(f, x, m) && m <= n
    ensures Iterate(f, x, n) == Iterate(f, x, m)
    decreases n
  {
    if m < n {
      FixedStays(f, x, m, n - 1);
      IterateLast(f, x, n - 1);
    }
  }
}
