/**
 * Shrinking one value of a summary. Repeated shrinking is a step on values; this module decides
 * for which values it comes to rest.
 */
module Shrink {
  import opened Iteration
  import opened Json

  const SENTINEL := "...[truncated]"

  function Max8(n: nat): nat {
    if n < 8 then 8 else n
  }

  /** Half of a long text followed by the marker. */
  function Cut(s: string): string
    requires |s| > |SENTINEL|
  {
    s[..Max8(|s| / 2)] + SENTINEL
  }

  /** What is kept is half of the text, and 8 characters of a text of 15. */
  lemma CutKeeps(s: string)
    requires |s| > |SENTINEL|
    ensures Cut(s) == (if |s| == 15 then s[..8] else s[..|s| / 2]) + SENTINEL
  {
    assert |SENTINEL| == 14;
  }

  const TRUNCATED := Entry("truncated", Scalar("True", 4))

  /** One round of shrinking. */
  function ShrinkValue(v: Json): Json {
    match v
    case Str(s) => if |s| <= |SENTINEL| then Str(SENTINEL) else Str(Cut(s))
    case List(items) =>
      if items == [] then v
      else if |items| > 3 then List(ShrinkItems(items[..3]) + [Str(SENTINEL)])
      else if ShrinkItems(items) == items then List([Str(SENTINEL)])
      else List(ShrinkItems(items))
    case Dict(entries) =>
      if entries == [] then v
      else if |entries| > 3 then Dict(Mark(ShrinkEntries(entries[..3])))
      else if ShrinkEntries(entries) == entries then Dict([TRUNCATED])
      else Dict(ShrinkEntries(entries))
    case Scalar(text, _) => if |text| <= |SENTINEL| then Str(text) else Str(Cut(text))
  }

  function ShrinkItems(items: seq<Json>): (r: seq<Json>)
    ensures |r| == |items|
    ensures forall i :: 0 <= i < |items| ==> r[i] == ShrinkValue(items[i])
  {
    if items == [] then [] else [ShrinkValue(items[0])] + ShrinkItems(items[1..])
  }

  function ShrinkEntries(entries: seq<Entry>): (r: seq<Entry>)
    ensures |r| == |entries|
    ensures forall i :: 0 <= i < |entries| ==> r[i] == Entry(entries[i].key, ShrinkValue(entries[i].value))
  {
    if entries == [] then []
    else [Entry(entries[0].key, ShrinkValue(entries[0].value))] + ShrinkEntries(entries[1..])
  }

  /** `entries["truncated"] = True`: in place when the key is there, else at the end. */
  function Mark(entries: seq<Entry>): (r: seq<Entry>)
    ensures HasKey(entries, "truncated") ==> |r| == |entries|
    ensures !HasKey(entries, "truncated") ==> r == entries + [TRUNCATED]
  {
    if entries == [] then [TRUNCATED]
    else if entries[0].key == "truncated" then [TRUNCATED] + entries[1..]
    else [entries[0]] + Mark(entries[1..])
  }

  predicate HasKey(entries: seq<Entry>, key: string) {
    exists i :: 0 <= i < |entries| && entries[i].key == key
  }

  /** `n` rounds. */
  function Rounds(v: Json, n: nat): Json {
    Iterate(ShrinkValue, v, n)
  }

  // ----- which values never come to rest

  /**
   * The values that shrink for ever: a non-empty dict of at most three entries, a larger dict one
   * of whose first three entries does or has the key "truncated", and a list one of whose first
   * three items does.
   */
  predicate Restless(v: Json) {
    match v
    case Str(_) => false
    case Scalar(_, _) => false
    case List(items) => RestlessItems(items, 3)
    case Dict(entries) =>
      entries != [] && (|entries| <= 3 || HasKey(entries[..3], "truncated") || RestlessEntries(entries, 3))
  }

  predicate RestlessItems(items: seq<Json>, n: nat)
    ensures RestlessItems(items, n) <==> exists i :: 0 <= i < |items| && i < n && Restless(items[i])
  {
    if items == [] || n == 0 then false
    else
      assert forall i :: 0 < i < |items| ==> items[i] == items[1..][i - 1];
      Restless(items[0]) || RestlessItems(items[1..], n - 1)
  }

  predicate RestlessEntries(entries: seq<Entry>, n: nat)
    ensures RestlessEntries(entries, n) <==> exists i :: 0 <= i < |entries| && i < n && Restless(entries[i].value)
  {
    if entries == [] || n == 0 then false
    else
      assert forall i :: 0 < i < |entries| ==> entries[i] == entries[1..][i - 1];
      Restless(entries[0].value) || RestlessEntries(entries[1..], n - 1)
  }

  /** A restless value shrinks to another restless value. */
  lemma {:induction false} RestlessStays(v: Json)
    requires Restless(v)
    ensures Restless(ShrinkValue(v)) && ShrinkValue(v) != v
  {
    match v
    case List(items) =>
      var i :| 0 <= i < |items| && i < 3 && Restless(items[i]);
      RestlessStays(items[i]);
      var head := if |items| > 3 then items[..3] else items;
      assert ShrinkItems(head)[i] == ShrinkValue(items[i]);
      assert ShrinkValue(v).items[i] == ShrinkValue(items[i]);
    case Dict(entries) =>
      if |entries| > 3 && !HasKey(entries[..3], "truncated") {
        var i :| 0 <= i < |entries| && i < 3 && Restless(entries[i].value);
        RestlessStays(entries[i].value);
        KeysKept(entries[..3], "truncated");
        assert ShrinkValue(v).entries[i] == Entry(entries[i].key, ShrinkValue(entries[i].value));
      } else if |entries| > 3 {
        KeysKept(entries[..3], "truncated");
      } else if entries == [TRUNCATED] {
        assert ShrinkEntries(entries)[0].value == Str("True");
      }
  }

  lemma KeysKept(entries: seq<Entry>, key: string)
    ensures HasKey(ShrinkEntries(entries), key) <==> HasKey(entries, key)
  {
    var r := ShrinkEntries(entries);
    if HasKey(entries, key) {
      var i :| 0 <= i < |entries| && entries[i].key == key;
      assert r[i].key == key;
    }
    if HasKey(r, key) {
      var i :| 0 <= i < |r| && r[i].key == key;
      assert entries[i].key == key;
    }
  }

  // ----- the other values come to rest

  /** How many rounds a text still needs at most. It settles at 27 or 28 characters, or as the marker. */
  function TextRest(s: string): nat {
    if |s| <= |SENTINEL| then (if s == SENTINEL then 0 else 1)
    else if Cut(s) == s then 0
    else if |s| < 27 then 28 - |s|
    else if |s| <= 28 then 1
    else |s| - 27
  }

  /** How many rounds a value that is not restless still needs at most. */
  function Rest(v: Json): nat {
    match v
    case Str(s) => TextRest(s)
    case Scalar(text, _) => 1 + TextRest(if |text| <= |SENTINEL| then text else Cut(text))
    case List(items) =>
      if items == [] then 0
      else if |items| > 3 then RestItems(items[..3]) + (if items[3..] == [Str(SENTINEL)] then 0 else 1)
      else RestItems(items) + (if items == [Str(SENTINEL)] then 0 else 1)
    case Dict(entries) =>
      if |entries| <= 3 then 0
      else RestEntries(entries[..3]) + (if entries[3..] == [TRUNCATED] then 0 else 1)
  }

  function RestItems(items: seq<Json>): nat {
    if items == [] then 0 else Rest(items[0]) + RestItems(items[1..])
  }

  function RestEntries(entries: seq<Entry>): nat {
    if entries == [] then 0 else Rest(entries[0].value) + RestEntries(entries[1..])
  }

  lemma TextSettles(s: string)
    ensures var t := if |s| <= |SENTINEL| then SENTINEL else Cut(s);
      (TextRest(s) == 0 ==> t == s) && (TextRest(s) > 0 ==> TextRest(t) < TextRest(s))
  {
    if |s| > |SENTINEL| {
      var t := Cut(s);
      if 27 <= |s| <= 28 {
        assert t[..Max8(|t| / 2)] == s[..Max8(|s| / 2)];
        assert Cut(t) == t;
      }
    }
  }

  /** A value that is not restless either is at rest, or gets strictly closer to it. */
  lemma {:induction false} Settles(v: Json)
    requires !Restless(v)
    ensures !Restless(ShrinkValue(v))
    ensures Rest(v) == 0 ==> ShrinkValue(v) == v
    ensures Rest(v) > 0 ==> Rest(ShrinkValue(v)) < Rest(v)
    decreases v, 1
  {
    match v
    case Str(s) =>
      TextSettles(s);
    case Scalar(text, _) =>
    case List(items) =>
      if |items| > 3 {
        forall i | 0 <= i < 3 ensures !Restless(items[..3][i]) {
          assert items[..3][i] == items[i];
        }
        SettlesItems(items[..3]);
        var r := ShrinkItems(items[..3]) + [Str(SENTINEL)];
        assert r[..3] == ShrinkItems(items[..3]) && r[3..] == [Str(SENTINEL)];
        assert items == items[..3] + items[3..];
      } else {
        SettlesItems(items);
        assert ShrinkItems([Str(SENTINEL)]) == [Str(SENTINEL)] && RestItems([Str(SENTINEL)]) == 0;
        assert |ShrinkItems(items)| <= 3;
      }
    case Dict(entries) =>
      if |entries| > 3 {
        forall i | 0 <= i < 3 ensures !Restless(entries[..3][i].value) {
          assert entries[..3][i] == entries[i];
        }
        SettlesEntries(entries[..3]);
        KeysKept(entries[..3], "truncated");
        var r := ShrinkEntries(entries[..3]) + [TRUNCATED];
        assert r[..3] == ShrinkEntries(entries[..3]) && r[3..] == [TRUNCATED];
        assert entries == entries[..3] + entries[3..];
      }
  }

  lemma {:induction false} SettlesItems(items: seq<Json>)
    requires forall i :: 0 <= i < |items| ==> !Restless(items[i])
    ensures forall i :: 0 <= i < |items| ==> !Restless(ShrinkItems(items)[i])
    ensures RestItems(items) == 0 ==> ShrinkItems(items) == items
    ensures RestItems(items) > 0 ==> RestItems(ShrinkItems(items)) < RestItems(items)
    decreases items, 0
  {
    if items != [] {
      Settles(items[0]);
      SettlesItems(items[1..]);
      assert ShrinkItems(items)[1..] == ShrinkItems(items[1..]);
      assert items == [items[0]] + items[1..];
    }
  }

  lemma {:induction false} SettlesEntries(entries: seq<Entry>)
    requires forall i :: 0 <= i < |entries| ==> !Restless(entries[i].value)
    ensures forall i :: 0 <= i < |entries| ==> !Restless(ShrinkEntries(entries)[i].value)
    ensures RestEntries(entries) == 0 ==> ShrinkEntries(entries) == entries
    ensures RestEntries(entries) > 0 ==> RestEntries(ShrinkEntries(entries)) < RestEntries(entries)
    decreases entries, 0
  {
    if entries != [] {
      Settles(entries[0].value);
      SettlesEntries(entries[1..]);
      assert ShrinkEntries(entries)[1..] == ShrinkEntries(entries[1..]);
      assert entries == [entries[0]] + entries[1..];
    }
  }

  lemma {:induction false} RestAfter(v: Json, n: nat)
    requires !Restless(v)
    ensures n >= Rest(v) ==> ShrinkValue(Rounds(v, n)) == Rounds(v, n)
    decreases n
  {
    Settles(v);
    if n > 0 {
      RestAfter(ShrinkValue(v), n - 1);
    }
  }

  lemma {:induction false} RestlessForEver(v: Json, n: nat)
    requires Restless(v)
    ensures Restless(Rounds(v, n)) && ShrinkValue(Rounds(v, n)) != Rounds(v, n)
    decreases n
  {
    RestlessStays(v);
    if n > 0 {
      RestlessForEver(ShrinkValue(v), n - 1);
    }
  }

  /** Repeated shrinking of a value reaches a fixed point exactly when the value is not restless. */
  lemma ComesToRest(v: Json)
    ensures (exists n :: ShrinkValue(Rounds(v, n)) == Rounds(v, n)) <==> !Restless(v)
  {
    if Restless(v) {
      forall n ensures ShrinkValue(Rounds(v, n)) != Rounds(v, n) {
        RestlessForEver(v, n);
      }
    } else {
      RestAfter(v, Rest(v));
    }
  }

  /** The three-cycle of the smallest restless dict. */
  lemma ThreeCycle()
    ensures var a := Dict([TRUNCATED]);
      && Rounds(a, 1) == Dict([Entry("truncated", Str("True"))])
      && Rounds(a, 2) == Dict([Entry("truncated", Str(SENTINEL))])
      && Rounds(a, 3) == a
  {
    var a := Dict([TRUNCATED]);
    var b := Dict([Entry("truncated", Str("True"))]);
    var c := Dict([Entry("truncated", Str(SENTINEL))]);
    assert ShrinkEntries(a.entries) == b.entries != a.entries;
    assert ShrinkEntries(b.entries) == c.entries != b.entries;
    assert ShrinkEntries(c.entries) == c.entries;
    assert Rounds(a, 3) == Rounds(b, 2) == Rounds(c, 1) == Rounds(a, 0);
    assert Rounds(a, 2) == Rounds(b, 1) == Rounds(c, 0);
    assert Rounds(a, 1) == Rounds(b, 0);
  }
}
