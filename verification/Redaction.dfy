/**
 * Redaction of payloads before they are stored in a diagnostic case: values under secret-looking
 * keys are replaced, the home directory is replaced inside strings, and long strings are cut.
 * The source works in place on a deep copy; here the tree is a value that each loop rebuilds.
 */
module Redaction {
  import opened Json

  const REDACTED := "<redacted>"
  const HOME_MARK := "<home>"
  const SUFFIX := "...[truncated]"
  const LIMIT := 4096
  const TOKENS := ["KEY", "TOKEN", "SECRET", "PASSWORD", "CREDENTIAL"]

  /** What redaction takes from its surroundings: the upper-casing of strings and the home directory. */
  datatype Env = Env(upper: string -> string, home: string)

  datatype Reason = SecretKey | HomePath | Oversized
  datatype Step = Field(key: string) | At(index: nat)
  datatype Marker = Marker(path: seq<Step>, reason: Reason, replacement: string)

  // ---------------------------------------------------------------- strings

  predicate Starts(s: string, w: string) {
    |w| <= |s| && s[..|w|] == w
  }

  predicate Within(w: string, s: string) {
    exists i :: 0 <= i <= |s| && Starts(s[i..], w)
  }

  predicate LooksSecret(env: Env, key: string) {
    exists t :: t in TOKENS && Within(t, env.upper(key))
  }

  /** `s.replace(home, "<home>")`: non-overlapping occurrences from the left. */
  function Replace(s: string, home: string): string
    requires home != []
  {
    if |s| < |home| then s
    else if Starts(s, home) then HOME_MARK + Replace(s[|home|..], home)
    else [s[0]] + Replace(s[1..], home)
  }

  function RedactHome(home: string, s: string): string {
    if home == [] || home == "/" then s else Replace(s, home)
  }

  function Cut(s: string): string {
    if |s| > LIMIT then s[..LIMIT] + SUFFIX else s
  }

  function RedactString(home: string, s: string): string {
    Cut(RedactHome(home, s))
  }

  /** A home directory below the root whose name does not use the characters of the mark. */
  predicate Plain(home: string) {
    |home| > 1 && home[0] == '/' && '<' !in home && '>' !in home
  }

  /** The home directory ends the way the cut mark begins, so a cut can complete it. */
  predicate Clash(home: string) {
    exists n :: 1 <= n <= |SUFFIX| && Clashes(home, n)
  }

  predicate Clashes(home: string, n: nat) {
    n < |home| <= LIMIT + n && n <= |SUFFIX| && home[|home| - n..] == SUFFIX[..n]
  }

  lemma {:induction false} ReplaceStart(s: string, home: string, w: string)
    requires home != [] && '<' !in w && Starts(Replace(s, home), w)
    ensures Starts(s, w)
  {
    if w != [] && |s| >= |home| {
      assert Replace(s, home)[0] == w[0];
      assert !Starts(s, home);
      var r := Replace(s[1..], home);
      assert Replace(s, home)[1..] == r;
      assert r[..|w| - 1] == Replace(s, home)[..|w|][1..];
      ReplaceStart(s[1..], home, w[1..]);
      assert s[..|w|] == [s[0]] + s[1..][..|w| - 1];
      assert w == [w[0]] + w[1..];
    }
  }

  /** After replacing, no occurrence is left. */
  lemma {:induction false} ReplaceRemoves(s: string, home: string)
    requires Plain(home)
    ensures !Within(home, Replace(s, home))
  {
    var r := Replace(s, home);
    forall i | 0 <= i <= |r|
      ensures !Starts(r[i..], home)
    {
      if |s| < |home| {
      } else if Starts(s, home) {
        var rest := s[|home|..];
        ReplaceRemoves(rest, home);
        if i >= 6 {
          assert r[i..] == Replace(rest, home)[i - 6..];
        } else {
          assert r[i..][0] == HOME_MARK[i] != '/';
        }
      } else {
        ReplaceRemoves(s[1..], home);
        if i > 0 {
          assert r[i..] == Replace(s[1..], home)[i - 1..];
        } else if Starts(r, home) {
          ReplaceStart(s, home, home);
          assert false;
        } else {
          assert r[0..] == r;
        }
      }
    }
  }

  /** Around the first occurrence the text stays, and what follows it is treated likewise. */
  lemma {:induction false} ReplaceAround(a: string, home: string, b: string)
    requires home != [] && forall i :: 0 <= i < |a| ==> !Starts((a + home + b)[i..], home)
    ensures Replace(a + home + b, home) == a + HOME_MARK + Replace(b, home)
  {
    var s := a + home + b;
    if a == [] {
      assert s == home + b;
      assert s[..|home|] == home && s[|home|..] == b;
      assert [] + HOME_MARK == HOME_MARK;
    } else {
      assert s[0..] == s;
      assert s[1..] == a[1..] + home + b;
      forall i | 0 <= i < |a[1..]| ensures !Starts((a[1..] + home + b)[i..], home) {
        assert (a[1..] + home + b)[i..] == s[i + 1..];
      }
      ReplaceAround(a[1..], home, b);
      assert a + HOME_MARK + Replace(b, home) == [a[0]] + (a[1..] + HOME_MARK + Replace(b, home));
    }
  }

  /** Where there is no occurrence, nothing is replaced. */
  lemma {:induction false} ReplaceNothing(s: string, home: string)
    requires home != [] && !Within(home, s)
    ensures Replace(s, home) == s
  {
    if |s| >= |home| {
      assert s[0..] == s;
      assert !Starts(s, home);
      forall i | 0 <= i <= |s[1..]|
        ensures !Starts(s[1..][i..], home)
      {
        assert s[1..][i..] == s[i + 1..];
      }
      ReplaceNothing(s[1..], home);
      assert s == [s[0]] + s[1..];
    }
  }

  lemma NotInside(w: string, s: string)
    requires w != [] && w[0] !in s
    ensures !Within(w, s)
  {
    forall i | 0 <= i <= |s|
      ensures !Starts(s[i..], w)
    {
      if i < |s| {
        assert s[i..][0] == s[i];
      }
    }
  }

  lemma AcrossTheCut(p: string, q: string, i: nat, k: nat)
    requires i <= |p| <= i + k <= |p| + |q|
    ensures (p + q)[i..][..k][|p| - i..] == q[..i + k - |p|]
  {
  }

  /** Where a cut string could show the home directory: before the cut, in the suffix, or across. */
  lemma CutKeepsOutAt(t: string, home: string, i: nat)
    requires Plain(home) && !Within(home, t) && !Clash(home)
    requires |t| > LIMIT && i <= |Cut(t)|
    ensures !Starts(Cut(t)[i..], home)
  {
    var u := Cut(t);
    if |u| < i + |home| {
    } else if i >= LIMIT {
      assert u[i..][0] == SUFFIX[i - LIMIT] != '/';
    } else if i + |home| <= LIMIT {
      assert u[i..][..|home|] == t[i..][..|home|];
      assert !Starts(t[i..], home);
    } else {
      var n := i + |home| - LIMIT;
      AcrossTheCut(t[..LIMIT], SUFFIX, i, |home|);
      assert !Clashes(home, n);
    }
  }

  /** A cut string shows the home directory only when it did before, or when the two clash. */
  lemma CutKeepsOut(t: string, home: string)
    requires Plain(home) && !Within(home, t) && !Clash(home)
    ensures !Within(home, Cut(t))
  {
    if |t| > LIMIT {
      forall i | 0 <= i <= |Cut(t)|
        ensures !Starts(Cut(t)[i..], home)
      {
        CutKeepsOutAt(t, home, i);
      }
    }
  }

  /** Redacting a string leaves the home directory in it for no string, given no clash. */
  lemma StringHidesHome(home: string, s: string)
    requires Plain(home) && !Clash(home)
    ensures !Within(home, RedactString(home, s))
  {
    ReplaceRemoves(s, home);
    CutKeepsOut(Replace(s, home), home);
  }

  lemma StringSettles(home: string, s: string)
    requires Plain(home) ==> !Clash(home)
    requires Plain(home) || home == [] || home == "/"
    ensures RedactString(home, RedactString(home, s)) == RedactString(home, s)
  {
    var r := RedactString(home, s);
    if Plain(home) {
      StringHidesHome(home, s);
      ReplaceNothing(r, home);
    }
    assert Cut(r) == r;
  }

  function Fill(n: nat): (s: string)
    ensures |s| == n && forall i :: 0 <= i < n ==> s[i] == 'x'
  {
    seq(n, _ => 'x')
  }

  lemma ReplaceAfter(c: char, s: string, home: string)
    requires home != [] && home[0] != c
    ensures Replace([c] + s, home) == [c] + Replace(s, home)
  {
    var t := [c] + s;
    assert t[1..] == s;
    assert |home| <= |t| ==> t[..|home|][0] == c;
  }

  lemma {:induction false} ReplaceAfterFill(n: nat, s: string, home: string)
    requires Plain(home)
    ensures Replace(Fill(n) + s, home) == Fill(n) + Replace(s, home)
  {
    if n == 0 {
      assert Fill(0) + s == s;
      assert Fill(0) + Replace(s, home) == Replace(s, home);
    } else {
      assert Fill(n) + s == ['x'] + (Fill(n - 1) + s);
      ReplaceAfter('x', Fill(n - 1) + s, home);
      ReplaceAfterFill(n - 1, s, home);
      assert Fill(n) + Replace(s, home) == ['x'] + (Fill(n - 1) + Replace(s, home));
    }
  }

  /** The value whose cut completes a home directory that clashes. */
  function Completed(home: string, n: nat): string
    requires Clashes(home, n)
  {
    Fill(LIMIT + n - |home|) + (home[..|home| - n] + "y")
  }

  /** The first pass does not see a home directory that only the cut completes. */
  lemma CompletedUnseen(home: string, n: nat)
    requires Plain(home) && 1 <= n && Clashes(home, n)
    ensures Replace(Completed(home, n), home) == Completed(home, n)
  {
    var tail := home[..|home| - n] + "y";
    assert home[|home| - n..][0] == '.';
    forall i | 0 <= i <= |tail|
      ensures !Starts(tail[i..], home)
    {
      if i + |home| <= |tail| {
        assert tail[i..][..|home|][|home| - 1] == 'y' != home[|home| - 1];
      }
    }
    ReplaceNothing(tail, home);
    ReplaceAfterFill(LIMIT + n - |home|, tail, home);
  }

  /** What the first pass makes of it. */
  lemma CompletedCut(home: string, n: nat)
    requires Plain(home) && 1 <= n && Clashes(home, n)
    ensures RedactString(home, Completed(home, n)) == Fill(LIMIT + n - |home|) + (home[..|home| - n] + SUFFIX)
  {
    CompletedUnseen(home, n);
    var s := Completed(home, n);
    assert |s| == LIMIT + 1;
    assert s[..LIMIT] == Fill(LIMIT + n - |home|) + home[..|home| - n];
  }

  lemma CompletedStarts(home: string, n: nat)
    requires Plain(home) && Clashes(home, n)
    ensures Starts(home[..|home| - n] + SUFFIX, home)
  {
    assert home == home[..|home| - n] + home[|home| - n..];
    assert (home[..|home| - n] + SUFFIX)[..|home|] == home[..|home| - n] + SUFFIX[..n];
  }

  lemma ShownBehind(k: nat, rest: string, home: string)
    requires Starts(rest, home)
    ensures Within(home, Fill(k) + rest)
  {
    var u := Fill(k) + rest;
    assert u[k..] == rest;
    assert Starts(u[k..], home);
  }

  /** A pass over a string with the home directory behind `k` characters replaces it. */
  lemma ShownAt(k: nat, rest: string, home: string)
    requires Plain(home) && Starts(rest, home) && k < LIMIT
    ensures (Fill(k) + rest)[k] == '/'
    ensures k < |RedactString(home, Fill(k) + rest)| && RedactString(home, Fill(k) + rest)[k] == '<'
  {
    assert rest[0] == rest[..|home|][0];
    ReplaceAfterFill(k, rest, home);
    assert Replace(rest, home)[0] == '<';
  }

  /** The first pass leaves the home directory readable; a second one replaces it. */
  lemma ClashShows(home: string, n: nat)
    requires Plain(home) && 1 <= n && Clashes(home, n)
    ensures Within(home, RedactString(home, Completed(home, n)))
    ensures RedactString(home, RedactString(home, Completed(home, n))) != RedactString(home, Completed(home, n))
  {
    CompletedCut(home, n);
    CompletedStarts(home, n);
    ShownBehind(LIMIT + n - |home|, home[..|home| - n] + SUFFIX, home);
    ShownAt(LIMIT + n - |home|, home[..|home| - n] + SUFFIX, home);
  }

  // ---------------------------------------------------------------- trees

  function Redact(env: Env, v: Json): Json {
    match v
    case Dict(entries) => Dict(RedactEntries(env, entries))
    case List(items) => List(RedactItems(env, items))
    case Str(s) => Str(RedactString(env.home, s))
    case Scalar(_, _) => v
  }

  function RedactEntry(env: Env, e: Entry): Json {
    if LooksSecret(env, e.key) then Str(REDACTED) else Redact(env, e.value)
  }

  function RedactEntries(env: Env, entries: seq<Entry>): (r: seq<Entry>)
    ensures |r| == |entries|
    ensures forall i :: 0 <= i < |r| ==>
      r[i].key == entries[i].key && r[i].value == RedactEntry(env, entries[i])
  {
    if entries == [] then []
    else [Entry(entries[0].key, RedactEntry(env, entries[0]))] + RedactEntries(env, entries[1..])
  }

  function RedactItems(env: Env, items: seq<Json>): (r: seq<Json>)
    ensures |r| == |items|
    ensures forall i :: 0 <= i < |r| ==> r[i] == Redact(env, items[i])
  {
    if items == [] then [] else [Redact(env, items[0])] + RedactItems(env, items[1..])
  }

  /** Markers found below one step, seen from above it. */
  function Below(step: Step, ms: seq<Marker>): (r: seq<Marker>)
    ensures |r| == |ms|
    ensures forall i :: 0 <= i < |r| ==> r[i] == Marker([step] + ms[i].path, ms[i].reason, ms[i].replacement)
  {
    seq(|ms|, i requires 0 <= i < |ms| => Marker([step] + ms[i].path, ms[i].reason, ms[i].replacement))
  }

  function StringMarkers(home: string, s: string): seq<Marker> {
    var h := RedactHome(home, s);
    (if h != s then [Marker([], HomePath, h)] else [])
    + (if |h| > LIMIT then [Marker([], Oversized, Cut(h))] else [])
  }

  /** The markers of a value, in the order they are appended, with paths from that value. */
  function Markers(env: Env, v: Json): seq<Marker> {
    match v
    case Dict(entries) => EntryMarkers(env, entries)
    case List(items) => ItemMarkers(env, items)
    case Str(s) => StringMarkers(env.home, s)
    case Scalar(_, _) => []
  }

  function MarkersOfEntry(env: Env, e: Entry): seq<Marker> {
    if LooksSecret(env, e.key) then [Marker([Field(e.key)], SecretKey, REDACTED)]
    else Below(Field(e.key), Markers(env, e.value))
  }

  function EntryMarkers(env: Env, entries: seq<Entry>): seq<Marker> {
    if entries == [] then []
    else EntryMarkers(env, entries[..|entries| - 1]) + MarkersOfEntry(env, entries[|entries| - 1])
  }

  function ItemMarkers(env: Env, items: seq<Json>): seq<Marker> {
    if items == [] then []
    else
      ItemMarkers(env, items[..|items| - 1])
      + Below(At(|items| - 1), Markers(env, items[|items| - 1]))
  }

  // ---------------------------------------------------------------- what is left

  /** At every depth, a secret-looking key has nothing but the mark under it. */
  predicate Sealed(env: Env, v: Json) {
    match v
    case Dict(entries) => forall e :: e in entries ==>
      if LooksSecret(env, e.key) then e.value == Str(REDACTED) else Sealed(env, e.value)
    case List(items) => forall x :: x in items ==> Sealed(env, x)
    case _ => true
  }

  lemma {:induction false} NoSecretLeft(env: Env, v: Json)
    ensures Sealed(env, Redact(env, v))
  {
    match v
    case Dict(entries) =>
      forall i | 0 <= i < |entries|
        ensures Sealed(env, Redact(env, entries[i].value))
      {
        NoSecretLeft(env, entries[i].value);
      }
    case List(items) =>
      forall i | 0 <= i < |items|
        ensures Sealed(env, Redact(env, items[i]))
      {
        NoSecretLeft(env, items[i]);
      }
    case _ =>
  }

  /** Same keys in the same order, same lengths, same leaves, strings where strings were. */
  predicate SameShape(env: Env, v: Json, r: Json) {
    match (v, r)
    case (Dict(es), Dict(fs)) =>
      && |es| == |fs|
      && forall i :: 0 <= i < |es| ==>
        es[i].key == fs[i].key && (LooksSecret(env, es[i].key) || SameShape(env, es[i].value, fs[i].value))
    case (List(xs), List(ys)) =>
      |xs| == |ys| && forall i :: 0 <= i < |xs| ==> SameShape(env, xs[i], ys[i])
    case (Str(_), Str(_)) => true
    case (Scalar(_, _), _) => v == r
    case _ => false
  }

  lemma {:induction false} ShapeKept(env: Env, v: Json)
    ensures SameShape(env, v, Redact(env, v))
  {
    match v
    case Dict(entries) =>
      forall i | 0 <= i < |entries|
        ensures SameShape(env, entries[i].value, Redact(env, entries[i].value))
      {
        ShapeKept(env, entries[i].value);
      }
    case List(items) =>
      forall i | 0 <= i < |items|
        ensures SameShape(env, items[i], Redact(env, items[i]))
      {
        ShapeKept(env, items[i]);
      }
    case _ =>
  }

  /** Every string value in a tree, at any depth. */
  ghost function Strings(v: Json): set<string> {
    match v
    case Dict(entries) => set i, s | 0 <= i < |entries| && s in Strings(entries[i].value) :: s
    case List(items) => set i, s | 0 <= i < |items| && s in Strings(items[i]) :: s
    case Str(s) => {s}
    case Scalar(_, _) => {}
  }

  /** No string value shows the home directory or is longer than a cut one. */
  lemma {:induction false} NoHomeLeft(env: Env, v: Json, s: string)
    requires s in Strings(Redact(env, v))
    ensures |s| <= LIMIT + |SUFFIX|
    ensures Plain(env.home) && !Clash(env.home) ==> !Within(env.home, s)
  {
    match v
    case Dict(entries) =>
      var i :| 0 <= i < |entries| && s in Strings(RedactEntries(env, entries)[i].value);
      if LooksSecret(env, entries[i].key) {
        assert s == REDACTED;
        if Plain(env.home) {
          NotInside(env.home, s);
        }
      } else {
        NoHomeLeft(env, entries[i].value, s);
      }
    case List(items) =>
      var i :| 0 <= i < |items| && s in Strings(RedactItems(env, items)[i]);
      NoHomeLeft(env, items[i], s);
    case Str(t) =>
      if Plain(env.home) && !Clash(env.home) {
        StringHidesHome(env.home, t);
      }
    case Scalar(_, _) =>
  }

  // ---------------------------------------------------------------- redacting twice

  lemma {:induction false} RedactSettles(env: Env, v: Json)
    requires Plain(env.home) || env.home == [] || env.home == "/"
    requires Plain(env.home) ==> !Clash(env.home)
    ensures Redact(env, Redact(env, v)) == Redact(env, v)
  {
    match v
    case Dict(entries) =>
      var once := RedactEntries(env, entries);
      forall i | 0 <= i < |entries|
        ensures RedactEntries(env, once)[i] == once[i]
      {
        if !LooksSecret(env, entries[i].key) {
          RedactSettles(env, entries[i].value);
        }
      }
      assert RedactEntries(env, once) == once;
    case List(items) =>
      var once := RedactItems(env, items);
      forall i | 0 <= i < |items|
        ensures RedactItems(env, once)[i] == once[i]
      {
        RedactSettles(env, items[i]);
      }
      assert RedactItems(env, once) == once;
    case Str(s) => StringSettles(env.home, s);
    case Scalar(_, _) =>
  }

  predicate Settled(env: Env, v: Json) {
    Redact(env, Redact(env, v)) == Redact(env, v)
  }

  /** Redacting twice is redacting once, for every payload, exactly when home and cut mark do not clash. */
  lemma RedactTwiceIff(env: Env)
    requires Plain(env.home)
    ensures (forall v :: Settled(env, v)) <==> !Clash(env.home)
  {
    if Clash(env.home) {
      var n :| 1 <= n <= |SUFFIX| && Clashes(env.home, n);
      ClashShows(env.home, n);
      var v := Str(Completed(env.home, n));
      assert !Settled(env, v);
    } else {
      forall v ensures Settled(env, v) {
        RedactSettles(env, v);
      }
    }
  }

  // ---------------------------------------------------------------- the markers explain every change

  /** Dicts have distinct keys. */
  predicate WellKeyed(v: Json) {
    match v
    case Dict(entries) =>
      && (forall i, j :: 0 <= i < j < |entries| ==> entries[i].key != entries[j].key)
      && (forall e :: e in entries ==> WellKeyed(e.value))
    case List(items) => forall x :: x in items ==> WellKeyed(x)
    case _ => true
  }

  /** `v` with the string `w` put at a path; paths that lead nowhere change nothing. */
  function Put(v: Json, path: seq<Step>, w: string): Json
    decreases path
  {
    if path == [] then Str(w)
    else match (path[0], v)
      case (Field(k), Dict(entries)) =>
        Dict(seq(|entries|, i requires 0 <= i < |entries| =>
          if entries[i].key == k then Entry(k, Put(entries[i].value, path[1..], w)) else entries[i]))
      case (At(n), List(items)) =>
        if n < |items| then List(items[n := Put(items[n], path[1..], w)]) else v
      case _ => v
  }

  /** Follow the markers in order, writing each replacement at its path. */
  function Follow(v: Json, ms: seq<Marker>): Json {
    if ms == [] then v
    else Put(Follow(v, ms[..|ms| - 1]), ms[|ms| - 1].path, ms[|ms| - 1].replacement)
  }

  lemma {:induction false} FollowConcat(v: Json, ms: seq<Marker>, ns: seq<Marker>)
    ensures Follow(v, ms + ns) == Follow(Follow(v, ms), ns)
  {
    if ns == [] {
      assert ms + ns == ms;
    } else {
      assert (ms + ns)[..|ms + ns| - 1] == ms + ns[..|ns| - 1];
      FollowConcat(v, ms, ns[..|ns| - 1]);
    }
  }

  /** Markers below one field change that field only, as they would change its value alone. */
  lemma {:induction false} FollowField(entries: seq<Entry>, i: nat, ms: seq<Marker>)
    requires i < |entries|
    requires forall j :: 0 <= j < |entries| && j != i ==> entries[j].key != entries[i].key
    ensures Follow(Dict(entries), Below(Field(entries[i].key), ms))
         == Dict(entries[i := Entry(entries[i].key, Follow(entries[i].value, ms))])
  {
    var key := entries[i].key;
    if ms == [] {
      assert entries[i := Entry(key, entries[i].value)] == entries;
    } else {
      var m := ms[|ms| - 1];
      FollowField(entries, i, ms[..|ms| - 1]);
      var b := Below(Field(key), ms);
      assert b[..|ms| - 1] == Below(Field(key), ms[..|ms| - 1]);
      assert b[|ms| - 1].path[1..] == m.path;
      var mid := entries[i := Entry(key, Follow(entries[i].value, ms[..|ms| - 1]))];
      var last := Put(Dict(mid), b[|ms| - 1].path, m.replacement);
      assert last.entries == entries[i := Entry(key, Follow(entries[i].value, ms))];
    }
  }

  lemma {:induction false} FollowAt(items: seq<Json>, i: nat, ms: seq<Marker>)
    requires i < |items|
    ensures Follow(List(items), Below(At(i), ms)) == List(items[i := Follow(items[i], ms)])
  {
    if ms == [] {
      assert items[i := items[i]] == items;
    } else {
      var m := ms[|ms| - 1];
      FollowAt(items, i, ms[..|ms| - 1]);
      var b := Below(At(i), ms);
      assert b[..|ms| - 1] == Below(At(i), ms[..|ms| - 1]);
      assert b[|ms| - 1].path[1..] == m.path;
      var mid := items[i := Follow(items[i], ms[..|ms| - 1])];
      assert mid[i := Follow(items[i], ms)] == items[i := Follow(items[i], ms)];
    }
  }

  /** The entries of a dict after the first `n` of them were redacted. */
  function EntriesTo(env: Env, entries: seq<Entry>, n: nat): (r: seq<Entry>)
    requires n <= |entries|
    ensures |r| == |entries|
    ensures forall i :: 0 <= i < |r| ==> r[i].key == entries[i].key
    ensures forall i :: 0 <= i < n ==> r[i].value == RedactEntry(env, entries[i])
    ensures forall i :: n <= i < |r| ==> r[i] == entries[i]
  {
    RedactEntries(env, entries[..n]) + entries[n..]
  }

  function ItemsTo(env: Env, items: seq<Json>, n: nat): (r: seq<Json>)
    requires n <= |items|
    ensures |r| == |items|
    ensures forall i :: 0 <= i < n ==> r[i] == Redact(env, items[i])
    ensures forall i :: n <= i < |r| ==> r[i] == items[i]
  {
    RedactItems(env, items[..n]) + items[n..]
  }

  lemma EntriesStep(env: Env, entries: seq<Entry>, i: nat)
    requires i < |entries|
    ensures EntriesTo(env, entries, i)[i := Entry(entries[i].key, RedactEntry(env, entries[i]))]
         == EntriesTo(env, entries, i + 1)
  {
  }

  lemma EntryMarkersStep(env: Env, entries: seq<Entry>, i: nat)
    requires i < |entries|
    ensures EntryMarkers(env, entries[..i + 1]) == EntryMarkers(env, entries[..i]) + MarkersOfEntry(env, entries[i])
  {
    assert entries[..i + 1][..i] == entries[..i];
  }

  lemma ItemsStep(env: Env, items: seq<Json>, i: nat)
    requires i < |items|
    ensures ItemsTo(env, items, i)[i := Redact(env, items[i])] == ItemsTo(env, items, i + 1)
  {
  }

  lemma ItemMarkersStep(env: Env, items: seq<Json>, i: nat)
    requires i < |items|
    ensures ItemMarkers(env, items[..i + 1]) == ItemMarkers(env, items[..i]) + Below(At(i), Markers(env, items[i]))
    ensures |ItemMarkers(env, items[..i + 1])| == |ItemMarkers(env, items[..i])| + |Markers(env, items[i])|
  {
    assert items[..i + 1][..i] == items[..i];
  }

  lemma EntriesAll(env: Env, entries: seq<Entry>)
    ensures EntriesTo(env, entries, 0) == entries
    ensures EntriesTo(env, entries, |entries|) == RedactEntries(env, entries)
    ensures entries[..|entries|] == entries
  {
  }

  lemma ItemsAll(env: Env, items: seq<Json>)
    ensures ItemsTo(env, items, 0) == items
    ensures ItemsTo(env, items, |items|) == RedactItems(env, items)
    ensures items[..|items|] == items
  {
  }

  /** Replaying the markers on the original payload gives the redacted one. */
  lemma {:induction false} MarkersExplain(env: Env, v: Json)
    requires WellKeyed(v)
    ensures Follow(v, Markers(env, v)) == Redact(env, v)
    decreases v, 1, 0
  {
    match v
    case Dict(entries) =>
      EntriesExplained(env, entries, |entries|);
      EntriesAll(env, entries);
    case List(items) =>
      ItemsExplained(env, items, |items|);
      ItemsAll(env, items);
    case Str(s) =>
      var h := RedactHome(env.home, s);
      var first := if h != s then [Marker([], HomePath, h)] else [];
      var second := if |h| > LIMIT then [Marker([], Oversized, Cut(h))] else [];
      FollowConcat(v, first, second);
      assert Follow(v, first) == Str(h);
    case Scalar(_, _) =>
  }

  lemma {:induction false} EntriesExplained(env: Env, entries: seq<Entry>, n: nat)
    requires n <= |entries| && WellKeyed(Dict(entries))
    ensures Follow(Dict(entries), EntryMarkers(env, entries[..n])) == Dict(EntriesTo(env, entries, n))
    decreases Dict(entries), 0, n
  {
    if n == 0 {
      EntriesAll(env, entries);
    } else {
      EntriesExplained(env, entries, n - 1);
      EntryMarkersStep(env, entries, n - 1);
      FollowConcat(Dict(entries), EntryMarkers(env, entries[..n - 1]), MarkersOfEntry(env, entries[n - 1]));
      EntryExplained(env, EntriesTo(env, entries, n - 1), n - 1);
      EntriesStep(env, entries, n - 1);
    }
  }

  lemma {:induction false} EntryExplained(env: Env, mid: seq<Entry>, i: nat)
    requires i < |mid| && WellKeyed(mid[i].value)
    requires forall j :: 0 <= j < |mid| && j != i ==> mid[j].key != mid[i].key
    ensures Follow(Dict(mid), MarkersOfEntry(env, mid[i]))
         == Dict(mid[i := Entry(mid[i].key, RedactEntry(env, mid[i]))])
    decreases mid[i].value, 2, 0
  {
    var e := mid[i];
    if LooksSecret(env, e.key) {
      var m := Marker([], SecretKey, REDACTED);
      FollowField(mid, i, [m]);
      assert [Field(e.key)] + m.path == [Field(e.key)];
      assert Below(Field(e.key), [m]) == MarkersOfEntry(env, e);
      assert Follow(e.value, [m]) == Put(Follow(e.value, [m][..0]), [], REDACTED);
    } else {
      MarkersExplain(env, e.value);
      FollowField(mid, i, Markers(env, e.value));
    }
  }

  lemma {:induction false} ItemsExplained(env: Env, items: seq<Json>, n: nat)
    requires n <= |items| && WellKeyed(List(items))
    ensures Follow(List(items), ItemMarkers(env, items[..n])) == List(ItemsTo(env, items, n))
    decreases List(items), 0, n
  {
    if n == 0 {
      ItemsAll(env, items);
    } else {
      ItemsExplained(env, items, n - 1);
      ItemsExplainedStep(env, items, n - 1);
    }
  }

  lemma {:induction false} ItemsExplainedStep(env: Env, items: seq<Json>, i: nat)
    requires i < |items| && WellKeyed(items[i])
    requires Follow(List(items), ItemMarkers(env, items[..i])) == List(ItemsTo(env, items, i))
    ensures Follow(List(items), ItemMarkers(env, items[..i + 1])) == List(ItemsTo(env, items, i + 1))
    decreases List(items), 0, i
  {
    ItemMarkersStep(env, items, i);
    FollowConcat(List(items), ItemMarkers(env, items[..i]), Below(At(i), Markers(env, items[i])));
    ItemExplained(env, ItemsTo(env, items, i), i);
    ItemsStep(env, items, i);
  }

  lemma {:induction false} ItemExplained(env: Env, mid: seq<Json>, i: nat)
    requires i < |mid| && WellKeyed(mid[i])
    ensures Follow(List(mid), Below(At(i), Markers(env, mid[i]))) == List(mid[i := Redact(env, mid[i])])
    decreases mid[i], 2, 0
  {
    MarkersExplain(env, mid[i]);
    FollowAt(mid, i, Markers(env, mid[i]));
  }

  // ---------------------------------------------------------------- what each marker says

  /** The string `s` is reached from `v` along `path`. */
  ghost predicate Leads(v: Json, path: seq<Step>, s: string)
    decreases |path|
  {
    if path == [] then v == Str(s)
    else match (path[0], v)
      case (Field(k), Dict(entries)) => exists e :: e in entries && e.key == k && Leads(e.value, path[1..], s)
      case (At(n), List(items)) => n < |items| && Leads(items[n], path[1..], s)
      case _ => false
  }

  /** Does a path end in a field that is redacted for its name? */
  predicate EndsInSecret(env: Env, path: seq<Step>) {
    path != [] && path[|path| - 1].Field? && LooksSecret(env, path[|path| - 1].key)
  }

  /** What a marker claims about the value it was made for. */
  ghost predicate Truthful(env: Env, v: Json, m: Marker) {
    match m.reason
    case SecretKey => EndsInSecret(env, m.path) && m.replacement == REDACTED
    case HomePath =>
      exists s :: Leads(v, m.path, s) && RedactHome(env.home, s) != s && m.replacement == RedactHome(env.home, s)
    case Oversized =>
      exists s :: Leads(v, m.path, s) && |RedactHome(env.home, s)| > LIMIT && m.replacement == Cut(RedactHome(env.home, s))
  }

  lemma TruthfulBelow(env: Env, v: Json, x: Json, step: Step, m: Marker)
    requires Truthful(env, x, m)
    requires forall path, s :: Leads(x, path, s) ==> Leads(v, [step] + path, s)
    ensures Truthful(env, v, Marker([step] + m.path, m.reason, m.replacement))
  {
    if m.reason == SecretKey {
      assert ([step] + m.path)[|m.path|] == m.path[|m.path| - 1];
    } else {
      var s :| Leads(x, m.path, s)
        && (m.reason == HomePath ==> RedactHome(env.home, s) != s && m.replacement == RedactHome(env.home, s))
        && (m.reason == Oversized ==> |RedactHome(env.home, s)| > LIMIT && m.replacement == Cut(RedactHome(env.home, s)));
      assert Leads(v, [step] + m.path, s);
    }
  }

  /** Every marker gives the true reason for its replacement. */
  lemma {:induction false} MarkersTruthful(env: Env, v: Json, m: Marker)
    requires m in Markers(env, v)
    ensures Truthful(env, v, m)
    decreases v, 1, 0
  {
    match v
    case Dict(entries) =>
      var e := FromEntry(env, entries, m);
      EntryTruthful(env, entries, e, m);
    case List(items) =>
      var i, n := FromItem(env, items, m);
      MarkersTruthful(env, items[i], n);
      forall path, s | Leads(items[i], path, s) ensures Leads(v, [At(i)] + path, s) {
        assert ([At(i)] + path)[1..] == path;
      }
      TruthfulBelow(env, v, items[i], At(i), n);
    case Str(s) =>
      assert Leads(v, [], s);
    case Scalar(_, _) =>
  }

  lemma EntryTruthful(env: Env, entries: seq<Entry>, e: Entry, m: Marker)
    requires e in entries && m in MarkersOfEntry(env, e)
    ensures Truthful(env, Dict(entries), m)
    decreases Dict(entries), 0, 0
  {
    if !LooksSecret(env, e.key) {
      var i :| 0 <= i < |Markers(env, e.value)| && Below(Field(e.key), Markers(env, e.value))[i] == m;
      var n := Markers(env, e.value)[i];
      MarkersTruthful(env, e.value, n);
      forall path, s | Leads(e.value, path, s) ensures Leads(Dict(entries), [Field(e.key)] + path, s) {
        assert ([Field(e.key)] + path)[1..] == path;
      }
      TruthfulBelow(env, Dict(entries), e.value, Field(e.key), n);
    }
  }

  lemma {:induction false} FromEntry(env: Env, entries: seq<Entry>, m: Marker) returns (e: Entry)
    requires m in EntryMarkers(env, entries)
    ensures e in entries && m in MarkersOfEntry(env, e)
  {
    var last := |entries| - 1;
    if m in MarkersOfEntry(env, entries[last]) {
      e := entries[last];
    } else {
      e := FromEntry(env, entries[..last], m);
    }
  }

  lemma {:induction false} FromItem(env: Env, items: seq<Json>, m: Marker) returns (i: nat, n: Marker)
    requires m in ItemMarkers(env, items)
    ensures i < |items| && n in Markers(env, items[i]) && m == Marker([At(i)] + n.path, n.reason, n.replacement)
  {
    var last := |items| - 1;
    var mine := Below(At(last), Markers(env, items[last]));
    if j :| 0 <= j < |mine| && mine[j] == m {
      i, n := last, Markers(env, items[last])[j];
    } else {
      i, n := FromItem(env, items[..last], m);
    }
  }

  /** Nothing to redact: no secret-looking key, no string with the home directory, none too long. */
  predicate Harmless(env: Env, v: Json) {
    match v
    case Dict(entries) => forall e :: e in entries ==> !LooksSecret(env, e.key) && Harmless(env, e.value)
    case List(items) => forall x :: x in items ==> Harmless(env, x)
    case Str(s) => RedactString(env.home, s) == s && |s| <= LIMIT
    case Scalar(_, _) => true
  }

  /** The trail is empty exactly for the payloads with nothing to redact. */
  lemma {:induction false} NoMarkersIff(env: Env, v: Json)
    ensures Markers(env, v) == [] <==> Harmless(env, v)
    decreases v, 1, 0
  {
    match v
    case Dict(entries) =>
      NoEntryMarkersIff(env, entries, |entries|);
      assert entries[..|entries|] == entries;
      assert Harmless(env, v) <==> forall i :: 0 <= i < |entries| ==>
        !LooksSecret(env, entries[i].key) && Harmless(env, entries[i].value);
    case List(items) =>
      NoItemMarkersIff(env, items, |items|);
      assert items[..|items|] == items;
      assert Harmless(env, v) <==> forall i :: 0 <= i < |items| ==> Harmless(env, items[i]);
    case _ =>
  }

  lemma {:induction false} NoEntryMarkersIff(env: Env, entries: seq<Entry>, n: nat)
    requires n <= |entries|
    ensures EntryMarkers(env, entries[..n]) == []
      <==> forall i :: 0 <= i < n ==> !LooksSecret(env, entries[i].key) && Harmless(env, entries[i].value)
    decreases Dict(entries), 0, n
  {
    if n > 0 {
      var e := entries[n - 1];
      NoEntryMarkersIff(env, entries, n - 1);
      EntryMarkersStep(env, entries, n - 1);
      NoMarkersIff(env, e.value);
      assert |MarkersOfEntry(env, e)| == 0 <==> !LooksSecret(env, e.key) && Harmless(env, e.value);
    }
  }

  lemma NoItemMarkersStep(env: Env, items: seq<Json>, i: nat)
    requires i < |items|
    ensures |ItemMarkers(env, items[..i + 1])| == 0
       <==> |ItemMarkers(env, items[..i])| == 0 && |Markers(env, items[i])| == 0
  {
    ItemMarkersStep(env, items, i);
  }

  lemma {:induction false} NoItemMarkersIff(env: Env, items: seq<Json>, n: nat)
    requires n <= |items|
    ensures |ItemMarkers(env, items[..n])| == 0 <==> forall i :: 0 <= i < n ==> Harmless(env, items[i])
    decreases List(items), 0, n
  {
    if n > 0 {
      NoItemMarkersIff(env, items, n - 1);
      NoMarkersIff(env, items[n - 1]);
      NoItemMarkersStep(env, items, n - 1);
    }
  }

  // ---------------------------------------------------------------- the loops

  /** Markers of a value found at `path`. */
  function Under(path: seq<Step>, ms: seq<Marker>): (r: seq<Marker>)
    ensures |r| == |ms|
    ensures forall i :: 0 <= i < |r| ==> r[i] == Marker(path + ms[i].path, ms[i].reason, ms[i].replacement)
  {
    seq(|ms|, i requires 0 <= i < |ms| => Marker(path + ms[i].path, ms[i].reason, ms[i].replacement))
  }

  lemma UnderBelow(path: seq<Step>, step: Step, ms: seq<Marker>)
    ensures Under(path, Below(step, ms)) == Under(path + [step], ms)
  {
    forall i | 0 <= i < |ms|
      ensures Under(path, Below(step, ms))[i] == Under(path + [step], ms)[i]
    {
      assert path + ([step] + ms[i].path) == (path + [step]) + ms[i].path;
    }
  }

  lemma UnderConcat(path: seq<Step>, ms: seq<Marker>, ns: seq<Marker>)
    ensures Under(path, ms + ns) == Under(path, ms) + Under(path, ns)
  {
  }

  /** The trail when the loop over the items of a dict has handled `n` of them. */
  ghost function TrailOfEntries(env: Env, entries: seq<Entry>, n: nat, path: seq<Step>, markers: seq<Marker>): seq<Marker>
    requires n <= |entries|
  {
    if n == 0 then markers
    else TrailOfEntries(env, entries, n - 1, path, markers) + Under(path, MarkersOfEntry(env, entries[n - 1]))
  }

  ghost function TrailOfItems(env: Env, items: seq<Json>, n: nat, path: seq<Step>, markers: seq<Marker>): seq<Marker>
    requires n <= |items|
  {
    if n == 0 then markers
    else TrailOfItems(env, items, n - 1, path, markers) + Under(path + [At(n - 1)], Markers(env, items[n - 1]))
  }

  lemma {:induction false} TrailOfEntriesIs(env: Env, entries: seq<Entry>, n: nat, path: seq<Step>, markers: seq<Marker>)
    requires n <= |entries|
    ensures TrailOfEntries(env, entries, n, path, markers) == markers + Under(path, EntryMarkers(env, entries[..n]))
  {
    if n > 0 {
      TrailOfEntriesIs(env, entries, n - 1, path, markers);
      EntryMarkersStep(env, entries, n - 1);
      UnderConcat(path, EntryMarkers(env, entries[..n - 1]), MarkersOfEntry(env, entries[n - 1]));
    }
  }

  lemma {:induction false} TrailOfItemsIs(env: Env, items: seq<Json>, n: nat, path: seq<Step>, markers: seq<Marker>)
    requires n <= |items|
    ensures TrailOfItems(env, items, n, path, markers) == markers + Under(path, ItemMarkers(env, items[..n]))
  {
    if n > 0 {
      TrailOfItemsIs(env, items, n - 1, path, markers);
      ItemMarkersStep(env, items, n - 1);
      UnderBelow(path, At(n - 1), Markers(env, items[n - 1]));
      UnderConcat(path, ItemMarkers(env, items[..n - 1]), Below(At(n - 1), Markers(env, items[n - 1])));
    }
  }

  method RedactText(home: string, s: string, path: seq<Step>, markers: seq<Marker>)
      returns (r: string, all: seq<Marker>)
    ensures r == RedactString(home, s)
    ensures all == markers + Under(path, StringMarkers(home, s))
  {
    r, all := s, markers;
    var redacted := RedactHome(home, s);
    if redacted != r {
      all := all + [Marker(path, HomePath, redacted)];
      r := redacted;
    }
    if |r| > LIMIT {
      var truncated := r[..LIMIT] + SUFFIX;
      all := all + [Marker(path, Oversized, truncated)];
      r := truncated;
    }
    assert path + [] == path;
    assert all == markers + Under(path, StringMarkers(home, s));
  }

  /** The recursive walk: the value it leaves, and the markers it appends under `path`. */
  method RedactInPlace(env: Env, v: Json, path: seq<Step>, markers: seq<Marker>)
      returns (r: Json, all: seq<Marker>)
    ensures r == Redact(env, v)
    ensures all == markers + Under(path, Markers(env, v))
    decreases v, 1
  {
    match v
    case Dict(entries) =>
      var done;
      done, all := RedactFields(env, entries, path, markers);
      r := Dict(done);
    case List(items) =>
      var done;
      done, all := RedactElements(env, items, path, markers);
      r := List(done);
    case Str(s) =>
      var text;
      text, all := RedactText(env.home, s, path, markers);
      r := Str(text);
    case Scalar(_, _) =>
      r, all := v, markers;
  }

  method RedactFields(env: Env, entries: seq<Entry>, path: seq<Step>, markers: seq<Marker>)
      returns (value: seq<Entry>, all: seq<Marker>)
    ensures value == RedactEntries(env, entries)
    ensures all == markers + Under(path, EntryMarkers(env, entries))
    decreases Dict(entries), 0, 1
  {
    value, all := entries, markers;
    EntriesAll(env, entries);
    for i := 0 to |entries|
      invariant value == EntriesTo(env, entries, i)
      invariant all == TrailOfEntries(env, entries, i, path, markers)
    {
      value, all := RedactField(env, entries, i, value, path, all);
    }
    TrailOfEntriesIs(env, entries, |entries|, path, markers);
  }

  /** One turn of the loop over the items of a dict. */
  method RedactField(env: Env, entries: seq<Entry>, i: nat, before: seq<Entry>, path: seq<Step>, markers: seq<Marker>)
      returns (value: seq<Entry>, all: seq<Marker>)
    requires i < |entries| && before == EntriesTo(env, entries, i)
    ensures value == EntriesTo(env, entries, i + 1)
    ensures all == markers + Under(path, MarkersOfEntry(env, entries[i]))
    decreases Dict(entries), 0, 0
  {
    var e := entries[i];
    EntriesStep(env, entries, i);
    if LooksSecret(env, e.key) {
      value := before[i := Entry(e.key, Str(REDACTED))];
      all := markers + [Marker(path + [Field(e.key)], SecretKey, REDACTED)];
    } else {
      var item;
      item, all := RedactInPlace(env, e.value, path + [Field(e.key)], markers);
      UnderBelow(path, Field(e.key), Markers(env, e.value));
      value := before[i := Entry(e.key, item)];
    }
  }

  method RedactElements(env: Env, items: seq<Json>, path: seq<Step>, markers: seq<Marker>)
      returns (value: seq<Json>, all: seq<Marker>)
    ensures value == RedactItems(env, items)
    ensures all == markers + Under(path, ItemMarkers(env, items))
    decreases List(items), 0, 1
  {
    value, all := items, markers;
    ItemsAll(env, items);
    for i := 0 to |items|
      invariant value == ItemsTo(env, items, i)
      invariant all == TrailOfItems(env, items, i, path, markers)
    {
      value, all := RedactElement(env, items, i, value, path, all);
    }
    TrailOfItemsIs(env, items, |items|, path, markers);
  }

  /** One turn of the loop over the elements of a list. */
  method RedactElement(env: Env, items: seq<Json>, i: nat, before: seq<Json>, path: seq<Step>, markers: seq<Marker>)
      returns (value: seq<Json>, all: seq<Marker>)
    requires i < |items| && before == ItemsTo(env, items, i)
    ensures value == ItemsTo(env, items, i + 1)
    ensures all == markers + Under(path + [At(i)], Markers(env, items[i]))
    decreases List(items), 0, 0
  {
    var item;
    item, all := RedactInPlace(env, items[i], path + [At(i)], markers);
    value := before[i := item];
    ItemsStep(env, items, i);
  }

  /** A payload of a case section: redacted, with a trail of markers that explains every change. */
  method RedactPayload(env: Env, payload: Json) returns (r: Json, markers: seq<Marker>)
    ensures r == Redact(env, payload) && Sealed(env, r)
    ensures markers == Markers(env, payload)
    ensures WellKeyed(payload) ==> Follow(payload, markers) == r
  {
    r, markers := RedactInPlace(env, payload, [], []);
    assert Under([], Markers(env, payload)) == Markers(env, payload) by {
      forall i | 0 <= i < |Markers(env, payload)|
        ensures Under([], Markers(env, payload))[i] == Markers(env, payload)[i]
      {
        assert [] + Markers(env, payload)[i].path == Markers(env, payload)[i].path;
      }
    }
    NoSecretLeft(env, payload);
    if WellKeyed(payload) {
      MarkersExplain(env, payload);
    }
  }
}
