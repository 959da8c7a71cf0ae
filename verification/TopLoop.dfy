/**
 * The outer loop of the summariser: round by round the largest value of a summary is shrunk, until
 * the summary fits its budget or a round changes nothing. It can run for ever; the lemmas say
 * exactly when, and within how many rounds it ends otherwise.
 */
module TopLoop {
  import opened Iteration
  import opened Json
  import opened Shrink
  import opened ShrinkCycles

  // ----- one round of the outer loop

  /** The first of the largest values. */
  function Largest(d: seq<Entry>): (i: nat)
    requires d != []
    ensures i < |d|
    ensures forall j :: 0 <= j < |d| ==> Size(d[j].value) <= Size(d[i].value)
    ensures forall j :: 0 <= j < i ==> Size(d[j].value) < Size(d[i].value)
  {
    if |d| == 1 then 0
    else
      var i := Largest(d[..|d| - 1]);
      if Size(d[|d| - 1].value) > Size(d[i].value) then |d| - 1 else i
  }

  /** The summary with its largest value shrunk once. */
  function ShrinkTop(d: seq<Entry>): (r: seq<Entry>)
    ensures |r| == |d| && forall i :: 0 <= i < |d| ==> r[i].key == d[i].key
  {
    if d == [] then []
    else d[Largest(d) := Entry(d[Largest(d)].key, ShrinkValue(d[Largest(d)].value))]
  }

  function TopRounds(d: seq<Entry>, n: nat): (r: seq<Entry>)
    ensures |r| == |d| && forall i :: 0 <= i < |d| ==> r[i].key == d[i].key
  {
    KeysStay(d, n);
    Iterate(ShrinkTop, d, n)
  }

  predicate SameKeys(d: seq<Entry>, e: seq<Entry>) {
    |e| == |d| && forall i :: 0 <= i < |d| ==> e[i].key == d[i].key
  }

  /** Keys are never shrunk. */
  lemma KeysStay(d: seq<Entry>, n: nat)
    ensures SameKeys(d, Iterate(ShrinkTop, d, n))
  {
    Keeps(ShrinkTop, e => SameKeys(d, e), d, n);
  }

  lemma TopRoundsLast(d: seq<Entry>, n: nat)
    ensures TopRounds(d, n + 1) == ShrinkTop(TopRounds(d, n))
  {
    IterateLast(ShrinkTop, d, n);
  }

  /** The outer loop stops here: the summary fits, or shrinking it changes nothing. */
  predicate Stops(d: seq<Entry>, maxSize: nat) {
    DictSize(d) <= maxSize || ShrinkTop(d) == d
  }

  /** The outer loop stops after exactly `n` rounds. */
  ghost predicate StopsAfter(d: seq<Entry>, maxSize: nat, n: nat) {
    StopsBy(d, maxSize, n) && RunsOn(d, maxSize, n)
  }

  /** The outer loop does not stop in the first `n` rounds. */
  ghost predicate RunsOn(d: seq<Entry>, maxSize: nat, n: nat) {
    forall i: nat :: i < n ==> !StopsBy(d, maxSize, i)
  }

  lemma RunOn(d: seq<Entry>, maxSize: nat, n: nat)
    requires RunsOn(d, maxSize, n) && !Stops(TopRounds(d, n), maxSize)
    ensures RunsOn(d, maxSize, n + 1) && TopRounds(d, n + 1) == ShrinkTop(TopRounds(d, n))
  {
    TopRoundsLast(d, n);
  }

  predicate StopsBy(d: seq<Entry>, maxSize: nat, n: nat) {
    Stops(TopRounds(d, n), maxSize)
  }

  ghost predicate Terminates(d: seq<Entry>, maxSize: nat) {
    exists n: nat :: StopsBy(d, maxSize, n)
  }

  // ----- when the outer loop ends

  predicate NoneRestless(d: seq<Entry>) {
    forall i :: 0 <= i < |d| ==> !Restless(d[i].value)
  }

  lemma {:induction false} RestEntriesUpdate(d: seq<Entry>, i: nat, e: Entry)
    requires i < |d|
    ensures RestEntries(d[i := e]) == RestEntries(d) - Rest(d[i].value) + Rest(e.value)
    ensures RestEntries(d) >= Rest(d[i].value)
  {
    if i == 0 {
      assert d[i := e][1..] == d[1..];
    } else {
      assert d[i := e][1..] == d[1..][i - 1 := e];
      RestEntriesUpdate(d[1..], i - 1, e);
    }
  }

  /** A round changes nothing or brings the summary strictly closer to rest. */
  lemma TopSettles(d: seq<Entry>)
    requires NoneRestless(d)
    ensures NoneRestless(ShrinkTop(d))
    ensures ShrinkTop(d) == d || RestEntries(ShrinkTop(d)) < RestEntries(d)
    ensures RestEntries(ShrinkTop(d)) <= RestEntries(d)
  {
    if d != [] {
      var i := Largest(d);
      Settles(d[i].value);
      RestEntriesUpdate(d, i, ShrinkTop(d)[i]);
      if Rest(d[i].value) == 0 {
        assert ShrinkTop(d)[i] == d[i];
      }
    }
  }

  lemma StopsLater(d: seq<Entry>, maxSize: nat, n: nat)
    ensures StopsBy(d, maxSize, n + 1) == StopsBy(ShrinkTop(d), maxSize, n)
  {
    assert TopRounds(d, n + 1) == TopRounds(ShrinkTop(d), n);
  }

  /** The outer loop ends on every summary none of whose values is restless. */
  lemma {:induction false} QuietTerminates(d: seq<Entry>, maxSize: nat) returns (n: nat)
    requires NoneRestless(d)
    ensures n <= RestEntries(d) && StopsBy(d, maxSize, n)
    decreases RestEntries(d)
  {
    TopSettles(d);
    if Stops(d, maxSize) {
      n := 0;
      assert TopRounds(d, 0) == d;
    } else {
      n := QuietTerminates(ShrinkTop(d), maxSize);
      StopsLater(d, maxSize, n);
      n := n + 1;
    }
  }

  lemma OneKeyRounds(key: string, v: Json, n: nat)
    ensures TopRounds([Entry(key, v)], n) == [Entry(key, Rounds(v, n))]
  {
    forall w ensures ShrinkTop([Entry(key, w)]) == [Entry(key, ShrinkValue(w))] {
      OneKeyRound(key, w);
    }
    Simulates(ShrinkTop, w => [Entry(key, w)], ShrinkValue, _ => true, v, n);
  }

  lemma OneKeyRound(key: string, v: Json)
    ensures ShrinkTop([Entry(key, v)]) == [Entry(key, ShrinkValue(v))]
  {
  }

  lemma OneKeyRestless(key: string, v: Json, maxSize: nat)
    requires Restless(v) && maxSize < 2
    ensures !Terminates([Entry(key, v)], maxSize)
  {
    forall n: nat ensures !StopsBy([Entry(key, v)], maxSize, n) {
      OneKeyRounds(key, v, n);
      RestlessForEver(v, n);
      OneKeyRounds(key, Rounds(v, n), 1);
      assert ShrinkTop([Entry(key, Rounds(v, n))]) == [Entry(key, ShrinkValue(Rounds(v, n)))];
    }
  }

  /** On a summary of one key the outer loop ends for every budget exactly when the value is not restless. */
  lemma OneKeyTerminatesIff(key: string, v: Json)
    ensures (forall maxSize: nat :: Terminates([Entry(key, v)], maxSize)) <==> !Restless(v)
  {
    if Restless(v) {
      OneKeyRestless(key, v, 0);
    } else {
      forall maxSize: nat ensures Terminates([Entry(key, v)], maxSize) {
        var n := QuietTerminates([Entry(key, v)], maxSize);
      }
    }
  }

  /** A dict of one entry whose value is itself restless keeps its key for ever. */
  lemma StuckKey(key: string, v: Json, n: nat)
    requires Restless(v)
    ensures Rounds(Dict([Entry(key, v)]), n) == Dict([Entry(key, Rounds(v, n))])
  {
    forall w | Restless(w)
      ensures ShrinkValue(Dict([Entry(key, w)])) == Dict([Entry(key, ShrinkValue(w))]) && Restless(ShrinkValue(w))
    {
      StuckRound(key, w);
    }
    Simulates(ShrinkValue, w => Dict([Entry(key, w)]), ShrinkValue, Restless, v, n);
  }

  lemma StuckRound(key: string, v: Json)
    requires Restless(v)
    ensures ShrinkValue(Dict([Entry(key, v)])) == Dict([Entry(key, ShrinkValue(v))]) && Restless(ShrinkValue(v))
  {
    RestlessStays(v);
    assert ShrinkEntries([Entry(key, v)]) == [Entry(key, ShrinkValue(v))];
  }

  /**
   * Under any budget, the default one included, a key of at least that many characters above a
   * restless value makes the outer loop run for ever.
   */
  lemma LongKeyDiverges(top: string, key: string, v: Json, maxSize: nat)
    requires Restless(v) && |key| >= maxSize
    ensures !Terminates([Entry(top, Dict([Entry(key, v)]))], maxSize)
  {
    var d := [Entry(top, Dict([Entry(key, v)]))];
    forall n: nat ensures !StopsBy(d, maxSize, n) {
      var w := Rounds(v, n);
      OneKeyRounds(top, Dict([Entry(key, v)]), n);
      StuckKey(key, v, n);
      CharsSizeBounds(key);
      RestlessForEver(Dict([Entry(key, v)]), n);
      assert EntriesSize([Entry(key, w)]) >= StringSize(key);
      assert EntriesSize([Entry(top, Dict([Entry(key, w)]))]) >= Size(Dict([Entry(key, w)]));
      assert ShrinkTop([Entry(top, Dict([Entry(key, w)]))]) == [Entry(top, ShrinkValue(Dict([Entry(key, w)])))];
    }
  }

  // ----- when the outer loop runs for ever

  /** The round after `n` others shrinks a restless value. */
  predicate ShrinksRestless(d: seq<Entry>, n: nat) {
    RestlessOnTop(TopRounds(d, n))
  }

  predicate RestlessOnTop(d: seq<Entry>) {
    d != [] && Restless(d[Largest(d)].value)
  }

  /** After `n` rounds the summary is still too big. */
  predicate TooBig(d: seq<Entry>, maxSize: nat, n: nat) {
    DictSize(TopRounds(d, n)) > maxSize
  }

  ghost predicate AlwaysTooBig(d: seq<Entry>, maxSize: nat) {
    forall n: nat :: TooBig(d, maxSize, n)
  }

  ghost predicate RestlessFrom(d: seq<Entry>, m: nat) {
    forall n: nat :: n >= m ==> ShrinksRestless(d, n)
  }

  lemma ShrinkingRestlessChanges(d: seq<Entry>)
    requires RestlessOnTop(d)
    ensures ShrinkTop(d) != d
  {
    var i := Largest(d);
    RestlessStays(d[i].value);
    assert ShrinkTop(d)[i].value != d[i].value;
  }

  /** The measure of the values that are not restless. */
  function QuietRest(d: seq<Entry>): nat {
    if d == [] then 0
    else (if Restless(d[0].value) then 0 else Rest(d[0].value)) + QuietRest(d[1..])
  }

  lemma {:induction false} QuietRestUpdate(d: seq<Entry>, i: nat, e: Entry)
    requires i < |d| && (Restless(d[i].value) <==> Restless(e.value))
    ensures Restless(e.value) ==> QuietRest(d[i := e]) == QuietRest(d)
    ensures !Restless(e.value) ==> QuietRest(d[i := e]) + Rest(d[i].value) == QuietRest(d) + Rest(e.value)
  {
    if i == 0 {
      assert d[i := e][1..] == d[1..];
    } else {
      assert d[i := e][1..] == d[1..][i - 1 := e];
      QuietRestUpdate(d[1..], i - 1, e);
    }
  }

  /** A round that shrinks a restless value leaves the measure; one that changes another lowers it. */
  lemma RoundOnRest(d: seq<Entry>)
    requires d != []
    ensures QuietRest(ShrinkTop(d)) <= QuietRest(d)
    ensures !Restless(d[Largest(d)].value) && ShrinkTop(d) != d ==> QuietRest(ShrinkTop(d)) < QuietRest(d)
  {
    var i := Largest(d);
    var e := Entry(d[i].key, ShrinkValue(d[i].value));
    if Restless(d[i].value) {
      RestlessStays(d[i].value);
    } else {
      Settles(d[i].value);
      assert e.value == d[i].value ==> d[i := e] == d;
    }
    QuietRestUpdate(d, i, e);
  }

  lemma RestFalls(d: seq<Entry>)
    ensures QuietRest(ShrinkTop(d)) <= QuietRest(d)
    ensures !RestlessOnTop(d) && ShrinkTop(d) != d ==> QuietRest(ShrinkTop(d)) < QuietRest(d)
  {
    if d != [] {
      RoundOnRest(d);
    }
  }

  /** A loop that never ends shrinks only restless values from some round on. */
  lemma EventuallyRestless(d: seq<Entry>, maxSize: nat) returns (m: nat)
    requires !Terminates(d, maxSize)
    ensures RestlessFrom(d, m)
  {
    forall e ensures QuietRest(ShrinkTop(e)) <= QuietRest(e) {
      RestFalls(e);
    }
    forall e | !RestlessOnTop(e) && ShrinkTop(e) != e ensures QuietRest(ShrinkTop(e)) < QuietRest(e) {
      RestFalls(e);
    }
    forall n: nat ensures ShrinkTop(Iterate(ShrinkTop, d, n)) != Iterate(ShrinkTop, d, n) {
      assert !StopsBy(d, maxSize, n);
    }
    m := EventuallyInside(ShrinkTop, RestlessOnTop, QuietRest, d);
    forall n: nat | n >= m ensures ShrinksRestless(d, n) {
      assert RestlessOnTop(Iterate(ShrinkTop, d, n));
    }
  }

  /**
   * The outer loop runs for ever exactly when the summary never fits and from some round on every
   * round shrinks a restless value.
   */
  lemma DivergesIff(d: seq<Entry>, maxSize: nat)
    ensures !Terminates(d, maxSize) <==> AlwaysTooBig(d, maxSize) && exists m: nat :: RestlessFrom(d, m)
  {
    if !Terminates(d, maxSize) {
      var m := EventuallyRestless(d, maxSize);
      forall n: nat ensures TooBig(d, maxSize, n) {
        assert !StopsBy(d, maxSize, n);
      }
    }
    if AlwaysTooBig(d, maxSize) {
      if m: nat :| RestlessFrom(d, m) {
        RestlessNeverStops(d, maxSize, m);
      }
    }
  }

  lemma RestlessNeverStops(d: seq<Entry>, maxSize: nat, m: nat)
    requires AlwaysTooBig(d, maxSize) && RestlessFrom(d, m)
    ensures !Terminates(d, maxSize)
  {
    forall e | RestlessOnTop(e) ensures ShrinkTop(e) != e {
      ShrinkingRestlessChanges(e);
    }
    forall k: nat | k >= m ensures RestlessOnTop(Iterate(ShrinkTop, d, k)) {
      assert ShrinksRestless(d, k);
    }
    forall n: nat ensures !StopsBy(d, maxSize, n) {
      assert TooBig(d, maxSize, n);
      NeverFixed(ShrinkTop, RestlessOnTop, d, m, n);
    }
  }

  /** A restless value that stays the largest keeps the loop running while the budget is exceeded. */
  lemma OnTopForEver(d: seq<Entry>, maxSize: nat, i: nat)
    requires i < |d| && Restless(d[i].value) && AlwaysTooBig(d, maxSize)
    requires forall n: nat :: Largest(TopRounds(d, n)) == i
    ensures !Terminates(d, maxSize)
  {
    forall n: nat ensures ShrinksRestless(d, n) {
      OneShrinks(d, i, n);
      RestlessForEver(d[i].value, n);
    }
    assert RestlessFrom(d, 0);
    DivergesIff(d, maxSize);
  }

  /** As long as one value stays the largest, the rounds are its own. */
  lemma {:induction false} OneShrinks(d: seq<Entry>, i: nat, n: nat)
    requires i < |d| && forall k: nat :: k < n ==> Largest(TopRounds(d, k)) == i
    ensures TopRounds(d, n) == d[i := Entry(d[i].key, Rounds(d[i].value, n))]
    decreases n
  {
    if n == 0 {
      assert d == d[i := Entry(d[i].key, d[i].value)];
    } else {
      OneShrinks(d, i, n - 1);
      assert Largest(TopRounds(d, n - 1)) == i;
      OneShrinksNext(d, i, n - 1);
    }
  }

  lemma OneShrinksNext(d: seq<Entry>, i: nat, n: nat)
    requires i < |d| && Largest(TopRounds(d, n)) == i
    requires TopRounds(d, n) == d[i := Entry(d[i].key, Rounds(d[i].value, n))]
    ensures TopRounds(d, n + 1) == d[i := Entry(d[i].key, Rounds(d[i].value, n + 1))]
  {
    TopRoundsLast(d, n);
    RoundsLast(d[i].value, n);
    ShrinkLargest(TopRounds(d, n), i);
  }

  lemma ShrinkLargest(d: seq<Entry>, i: nat)
    requires i < |d| && Largest(d) == i
    ensures ShrinkTop(d) == d[i := Entry(d[i].key, ShrinkValue(d[i].value))]
  {
  }

  /** The characters of all keys. */
  function KeyChars(d: seq<Entry>): nat {
    if d == [] then 0 else |d[0].key| + KeyChars(d[1..])
  }

  lemma {:induction false} KeysNeedBytes(d: seq<Entry>)
    ensures DictSize(d) >= KeyChars(d) + 2
  {
    if d != [] {
      CharsSizeBounds(d[0].key);
      KeysNeedBytes(d[1..]);
    }
  }

  lemma {:induction false} SameKeyChars(d: seq<Entry>, e: seq<Entry>)
    requires |d| == |e| && forall i :: 0 <= i < |d| ==> d[i].key == e[i].key
    ensures KeyChars(d) == KeyChars(e)
  {
    if d != [] {
      forall i | 0 <= i < |d[1..]| ensures d[1..][i].key == e[1..][i].key {
        assert d[1..][i] == d[i + 1] && e[1..][i] == e[i + 1];
      }
      SameKeyChars(d[1..], e[1..]);
    }
  }

  /** With as many characters in the keys as the budget the summary never fits. */
  lemma LongKeysNeverFit(d: seq<Entry>, maxSize: nat)
    requires KeyChars(d) >= maxSize
    ensures AlwaysTooBig(d, maxSize)
  {
    forall n: nat ensures TooBig(d, maxSize, n) {
      SameKeyChars(d, TopRounds(d, n));
      KeysNeedBytes(TopRounds(d, n));
    }
  }

  /** All the other values are smaller than the `i`-th is in any of its rounds. */
  predicate Towers(d: seq<Entry>, i: nat)
    requires i < |d|
  {
    forall j, n :: 0 <= j < |d| && j != i && 0 <= n < Transient(d[i].value) + 3 ==>
      Size(d[j].value) < Size(Rounds(d[i].value, n))
  }

  lemma TowersFrom(d: seq<Entry>, i: nat, n: nat)
    requires i < |d| && Towers(d, i)
    ensures Largest(d[i := Entry(d[i].key, Rounds(d[i].value, n))]) == i
  {
    var v := d[i].value;
    InOrbit(v, n);
    OrbitToMeans(v, Transient(v) + 3, Rounds(v, n));
    var k: nat :| k < Transient(v) + 3 && Reaches(v, k, Rounds(v, n));
    var e := d[i := Entry(d[i].key, Rounds(v, n))];
    forall j | 0 <= j < |d| && j != i ensures Size(e[j].value) < Size(e[i].value) {
      assert Size(d[j].value) < Size(Rounds(v, k));
    }
  }

  lemma {:induction false} TowersStays(d: seq<Entry>, i: nat, n: nat)
    requires i < |d| && Towers(d, i)
    ensures Largest(TopRounds(d, n)) == i
    decreases n
  {
    forall k: nat | k < n ensures Largest(TopRounds(d, k)) == i {
      TowersStays(d, i, k);
    }
    OneShrinks(d, i, n);
    TowersFrom(d, i, n);
  }

  /**
   * Long keys over a restless value that towers over the others: whatever the number of keys, the
   * loop runs for ever. The condition looks at finitely many rounds of one value.
   */
  lemma LongKeysDiverge(d: seq<Entry>, maxSize: nat, i: nat)
    requires i < |d| && Restless(d[i].value) && Towers(d, i) && KeyChars(d) >= maxSize
    ensures !Terminates(d, maxSize)
  {
    LongKeysNeverFit(d, maxSize);
    forall n: nat ensures Largest(TopRounds(d, n)) == i {
      TowersStays(d, i, n);
    }
    OnTopForEver(d, maxSize, i);
  }

  /** The three forms of the smallest restless value, none below 19 bytes. */
  lemma {:induction false} MarkForms(n: nat)
    ensures Rounds(Dict([TRUNCATED]), n) in
              {Dict([TRUNCATED]), Dict([Entry("truncated", Str("True"))]), Dict([Entry("truncated", Str(SENTINEL))])}
  {
    ThreeCycle();
    if n >= 3 {
      MarkForms(n - 3);
      RoundsAdd(Dict([TRUNCATED]), 3, n - 3);
    }
  }

  lemma MarkFormSize(key: string, v: Json)
    requires |key| == 9 && Size(v) >= 4
    ensures Size(Dict([Entry(key, v)])) >= 19
  {
    CharsSizeBounds(key);
    assert EntriesSize([Entry(key, v)]) == StringSize(key) + 2 + Size(v) + EntriesSize([]);
  }

  /**
   * A summary of any number of long keys, one of whose values is `{"truncated": True}` and whose
   * other values take less than 19 bytes, such as numbers and flags: the loop runs for ever.
   */
  lemma MarkUnderLongKeysDiverges(d: seq<Entry>, maxSize: nat, i: nat)
    requires i < |d| && d[i].value == Dict([TRUNCATED]) && KeyChars(d) >= maxSize
    requires forall j :: 0 <= j < |d| && j != i ==> Size(d[j].value) < 19
    ensures !Terminates(d, maxSize)
  {
    forall n: nat ensures Size(Rounds(d[i].value, n)) >= 19 {
      MarkForms(n);
      CharsSizeBounds("True");
      CharsSizeBounds(SENTINEL);
      MarkFormSize("truncated", Scalar("True", 4));
      MarkFormSize("truncated", Str("True"));
      MarkFormSize("truncated", Str(SENTINEL));
    }
    LongKeysDiverge(d, maxSize, i);
  }

  // ----- it ends early or never

  /** The summaries whose values are values that those of `d` can become. */
  function Configurations(d: seq<Entry>): set<seq<Entry>> {
    if d == [] then {[]}
    else Extended(Configurations(d[..|d| - 1]), d[|d| - 1].key, Orbit(d[|d| - 1].value))
  }

  function Extended(cs: set<seq<Entry>>, key: string, vs: set<Json>): set<seq<Entry>> {
    set c, v | c in cs && v in vs :: c + [Entry(key, v)]
  }

  /** As many as that at most; a loop that ends does so in fewer rounds. */
  function RoundBound(d: seq<Entry>): nat {
    if d == [] then 1 else RoundBound(d[..|d| - 1]) * (Transient(d[|d| - 1].value) + 3)
  }

  lemma {:induction false} ConfigurationsMean(d: seq<Entry>, e: seq<Entry>)
    ensures e in Configurations(d) <==>
              |e| == |d| && forall i :: 0 <= i < |d| ==> e[i].key == d[i].key && e[i].value in Orbit(d[i].value)
  {
    if d != [] {
      var n := |d| - 1;
      ExtendedMeans(Configurations(d[..n]), d[n].key, Orbit(d[n].value), e);
      if e != [] {
        ConfigurationsMean(d[..n], e[..|e| - 1]);
      }
    }
  }

  lemma ExtendedMeans(cs: set<seq<Entry>>, key: string, vs: set<Json>, e: seq<Entry>)
    ensures e in Extended(cs, key, vs) <==>
              e != [] && e[..|e| - 1] in cs && e[|e| - 1].key == key && e[|e| - 1].value in vs
  {
    if e in Extended(cs, key, vs) {
      var c, v :| c in cs && v in vs && e == c + [Entry(key, v)];
      assert e[..|e| - 1] == c;
    }
    if e != [] && e[..|e| - 1] in cs && e[|e| - 1].key == key && e[|e| - 1].value in vs {
      assert e == e[..|e| - 1] + [Entry(key, e[|e| - 1].value)];
    }
  }

  lemma StartIsConfiguration(d: seq<Entry>)
    ensures d in Configurations(d)
  {
    forall i | 0 <= i < |d| ensures d[i].value in Orbit(d[i].value) {
      InOrbit(d[i].value, 0);
    }
    ConfigurationsMean(d, d);
  }

  lemma ConfigurationsClosed(d: seq<Entry>, e: seq<Entry>)
    requires e in Configurations(d)
    ensures ShrinkTop(e) in Configurations(d)
  {
    ConfigurationsMean(d, e);
    if d != [] {
      var i := Largest(e);
      ShrinkLargest(e, i);
      OrbitClosed(d[i].value, e[i].value);
      ConfigurationsMean(d, ShrinkTop(e));
    }
  }

  lemma {:induction false} ExtendedSize(cs: set<seq<Entry>>, key: string, vs: set<Json>)
    ensures |Extended(cs, key, vs)| <= |cs| * |vs|
    decreases |vs|
  {
    if vs == {} {
      assert Extended(cs, key, vs) == {};
    } else {
      var v :| v in vs;
      var rest := vs - {v};
      ExtendedSize(cs, key, rest);
      OneExtendedSize(cs, key, v);
      ExtendedUnion(cs, key, rest, v);
      assert vs == rest + {v};
      UnionSize(Extended(cs, key, rest), Extended(cs, key, {v}));
      assert |cs| * |vs| == |cs| * |rest| + |cs|;
    }
  }

  lemma ExtendedUnion(cs: set<seq<Entry>>, key: string, vs: set<Json>, v: Json)
    ensures Extended(cs, key, vs + {v}) == Extended(cs, key, vs) + Extended(cs, key, {v})
  {
  }

  lemma UnionSize(a: set<seq<Entry>>, b: set<seq<Entry>>)
    ensures |a + b| <= |a| + |b|
  {
  }

  lemma {:induction false} OneExtendedSize(cs: set<seq<Entry>>, key: string, v: Json)
    ensures |Extended(cs, key, {v})| <= |cs|
    decreases |cs|
  {
    if cs == {} {
      assert Extended(cs, key, {v}) == {};
    } else {
      var c :| c in cs;
      var rest := cs - {c};
      OneExtendedSize(rest, key, v);
      var longer := c + [Entry(key, v)];
      forall x ensures x in Extended(cs, key, {v}) <==> x in Extended(rest, key, {v}) + {longer} {
        if x in Extended(cs, key, {v}) && x != longer {
          var b :| b in cs && x == b + [Entry(key, v)];
          assert b in rest;
        }
        if x == longer {
          assert c in cs && v in {v};
        }
      }
      assert Extended(cs, key, {v}) == Extended(rest, key, {v}) + {longer};
      UnionSize(Extended(rest, key, {v}), {longer});
    }
  }

  lemma {:induction false} ConfigurationsSize(d: seq<Entry>)
    ensures |Configurations(d)| <= RoundBound(d)
  {
    if d != [] {
      var n := |d| - 1;
      ConfigurationsSize(d[..n]);
      ExtendedByOrbit(Configurations(d[..n]), d[n].key, d[n].value, RoundBound(d[..n]));
    }
  }

  lemma ExtendedByOrbit(cs: set<seq<Entry>>, key: string, v: Json, bound: nat)
    requires |cs| <= bound
    ensures |Extended(cs, key, Orbit(v))| <= bound * (Transient(v) + 3)
  {
    var t, vs := Transient(v) + 3, Orbit(v);
    OrbitToSize(v, t);
    ExtendedWithin(cs, key, vs, bound, t);
  }

  lemma ExtendedWithin(cs: set<seq<Entry>>, key: string, vs: set<Json>, bound: nat, t: nat)
    requires |cs| <= bound && |vs| <= t
    ensures |Extended(cs, key, vs)| <= bound * t
  {
    ExtendedSize(cs, key, vs);
    Product(|cs|, |vs|, bound, t);
  }

  lemma Product(a: nat, b: nat, c: nat, d: nat)
    requires a <= c && b <= d
    ensures a * b <= c * d
  {
    assert a * b <= a * d;
    assert a * d <= c * d;
  }

  lemma RoundsAreConfigurations(d: seq<Entry>, n: nat)
    ensures TopRounds(d, n) in Configurations(d)
  {
    StartIsConfiguration(d);
    forall e | e in Configurations(d) ensures ShrinkTop(e) in Configurations(d) {
      ConfigurationsClosed(d, e);
    }
    StaysIn(ShrinkTop, Configurations(d), d, n);
  }

  /** The outer loop ends within `RoundBound` rounds, or never. */
  lemma EndsEarlyOrNever(d: seq<Entry>, maxSize: nat)
    ensures Terminates(d, maxSize) <==> exists n: nat :: n < RoundBound(d) && StopsBy(d, maxSize, n)
  {
    if n: nat :| StopsBy(d, maxSize, n) {
      var s := Configurations(d);
      StartIsConfiguration(d);
      forall e | e in s ensures ShrinkTop(e) in s {
        ConfigurationsClosed(d, e);
      }
      ConfigurationsSize(d);
      var k := SeenEarly(ShrinkTop, s, d, n);
      assert StopsBy(d, maxSize, k);
    }
  }
}
