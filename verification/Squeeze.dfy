/**
 * The last resort of the pruning of a summary: one key, whose text is squeezed round by round
 * until it fits or is the marker. This can go on for ever; lemmas say when it does not.
 */
module Squeeze {
  import opened Json
  import opened Shrink

  /** One round on the only value that is kept. */
  function SqueezeText(s: string): string {
    if |s| <= |SENTINEL| + 8 then SENTINEL else Cut(s)
  }

  function SqueezeRounds(s: string, n: nat): string
    decreases n
  {
    if n == 0 then s else SqueezeRounds(SqueezeText(s), n - 1)
  }

  lemma {:induction false} SqueezeRoundsLast(s: string, n: nat)
    ensures SqueezeRounds(s, n + 1) == SqueezeText(SqueezeRounds(s, n))
    decreases n
  {
    if n > 0 {
      SqueezeRoundsLast(SqueezeText(s), n - 1);
    }
  }

  /** Bytes of a summary with this key and an empty text. */
  function KeyCost(key: string): nat {
    2 + StringSize(key) + 2 + 2
  }

  lemma OneEntrySize(key: string, s: string)
    ensures DictSize([Entry(key, Str(s))]) == KeyCost(key) + CharsSize(s)
  {
    assert EntriesSize([Entry(key, Str(s))]) == StringSize(key) + 2 + StringSize(s) + EntriesSize([]);
  }

  /** The summary fits after `n` rounds. */
  predicate FitsAt(key: string, s: string, maxSize: nat, n: nat) {
    KeyCost(key) + CharsSize(SqueezeRounds(s, n)) <= maxSize
  }

  /** The loop stops after `n` rounds at the latest. */
  predicate StopsAt(key: string, s: string, maxSize: nat, n: nat) {
    FitsAt(key, s, maxSize, n) || SqueezeRounds(s, n) == SENTINEL
  }

  /** The loop has not stopped in the first `n` rounds. */
  ghost predicate NotStopped(key: string, s: string, maxSize: nat, n: nat) {
    forall i: nat :: i < n ==> !StopsAt(key, s, maxSize, i)
  }

  lemma SqueezeOn(key: string, s: string, maxSize: nat, n: nat)
    requires NotStopped(key, s, maxSize, n) && !StopsAt(key, s, maxSize, n)
    ensures NotStopped(key, s, maxSize, n + 1)
    ensures SqueezeRounds(s, n + 1) == SqueezeText(SqueezeRounds(s, n))
  {
    SqueezeRoundsLast(s, n);
  }

  ghost predicate SqueezeEnds(key: string, s: string, maxSize: nat) {
    exists n: nat :: StopsAt(key, s, maxSize, n)
  }

  /** The longest a settled text can be encoded: 14 escaped characters and the marker. */
  const SETTLED_BYTES := 98

  lemma {:induction false} PlainSize(s: string)
    requires forall i :: 0 <= i < |s| ==> 0x20 <= s[i] as int < 0x80 && s[i] != '\"' && s[i] != '\\'
    ensures CharsSize(s) == |s|
  {
    if s != [] {
      PlainSize(s[1..]);
    }
  }

  /** The marker is 14 bytes. */
  lemma SentinelSize()
    ensures CharsSize(SENTINEL) == 14
  {
    PlainSize(SENTINEL);
  }

  /** A text that a round leaves as it is has few bytes. */
  lemma SettledSize(s: string)
    requires |s| > |SENTINEL| && Cut(s) == s
    ensures |s| <= 28 && CharsSize(s) <= SETTLED_BYTES
  {
    var keep := Max8(|s| / 2);
    CharsSizeConcat(s[..keep], SENTINEL);
    CharsSizeBounds(s[..keep]);
    SentinelSize();
  }

  /** A long text stays long, and after enough rounds a round leaves it as it is. */
  lemma {:induction false} SqueezeSettles(s: string, n: nat)
    requires |s| > 22
    ensures |SqueezeRounds(s, n)| > 22
    ensures n >= TextRest(s) ==> Cut(SqueezeRounds(s, n)) == SqueezeRounds(s, n)
    decreases n
  {
    TextSettles(s);
    if n > 0 {
      SqueezeSettles(SqueezeText(s), n - 1);
    }
  }

  lemma SqueezeRest(s: string, n: nat)
    requires |s| > 22 && n >= TextRest(s)
    ensures SqueezeRounds(s, n + 1) == SqueezeRounds(s, n)
  {
    SqueezeSettles(s, n);
    SqueezeRoundsLast(s, n);
  }

  lemma {:induction false} SqueezeConstant(s: string, n: nat)
    requires |s| > 22 && n >= TextRest(s)
    ensures SqueezeRounds(s, n) == SqueezeRounds(s, TextRest(s))
    decreases n
  {
    if n > TextRest(s) {
      SqueezeConstant(s, n - 1);
      SqueezeRest(s, n - 1);
    }
  }

  lemma ShortIsMarked(s: string)
    requires |s| <= 22
    ensures SqueezeRounds(s, 1) == SENTINEL
  {
    assert SqueezeRounds(s, 1) == SqueezeRounds(SqueezeText(s), 0);
  }

  /** The loop ends early, within `TextRest(s) + 1` rounds, or never. */
  lemma SqueezeEndsEarlyOrNever(key: string, s: string, maxSize: nat)
    ensures SqueezeEnds(key, s, maxSize) <==> exists n: nat :: n <= TextRest(s) + 1 && StopsAt(key, s, maxSize, n)
  {
    if |s| <= 22 {
      ShortIsMarked(s);
      assert StopsAt(key, s, maxSize, 1);
    } else if n: nat :| StopsAt(key, s, maxSize, n) {
      if n > TextRest(s) {
        SqueezeConstant(s, n);
        assert StopsAt(key, s, maxSize, TextRest(s));
      }
    }
  }

  /** Is there room, next to this key, for every text that squeezing can settle on? */
  predicate Room(key: string, maxSize: nat) {
    KeyCost(key) + SETTLED_BYTES <= maxSize
  }

  /** With room the loop ends soon, and wherever it ends the summary fits. */
  lemma SqueezeFitsWithRoom(key: string, s: string, maxSize: nat) returns (n: nat)
    requires Room(key, maxSize)
    ensures n <= TextRest(s) + 1 && StopsAt(key, s, maxSize, n)
    ensures forall k: nat :: StopsAt(key, s, maxSize, k) ==> FitsAt(key, s, maxSize, k)
  {
    SentinelSize();
    if |s| <= 22 {
      ShortIsMarked(s);
      n := 1;
    } else {
      n := TextRest(s);
      SqueezeSettles(s, n);
      SettledSize(SqueezeRounds(s, n));
    }
  }

  /** For every text the last resort ends with a summary that fits. */
  ghost predicate AlwaysFits(key: string, maxSize: nat) {
    forall s: string :: EndsFitting(key, s, maxSize)
  }

  ghost predicate EndsFitting(key: string, s: string, maxSize: nat) {
    exists n: nat :: StopsAt(key, s, maxSize, n) && FitsAt(key, s, maxSize, n)
  }

  /** `n` characters that are encoded in six bytes each. */
  function Escaped(n: nat): (s: string)
    ensures |s| == n && forall i :: 0 <= i < n ==> s[i] as int == 1
  {
    if n == 0 then [] else [1 as char] + Escaped(n - 1)
  }

  lemma {:induction false} EscapedSize(s: string)
    requires forall i :: 0 <= i < |s| ==> s[i] as int == 1
    ensures CharsSize(s) == 6 * |s|
  {
    if s != [] {
      EscapedSize(s[1..]);
    }
  }

  lemma {:induction false} StaysPut(t: string, n: nat)
    requires SqueezeText(t) == t
    ensures SqueezeRounds(t, n) == t
    decreases n
  {
    if n > 0 {
      StaysPut(t, n - 1);
    }
  }

  lemma WorstRounds(s: string, t: string)
    requires SqueezeText(s) == t && SqueezeText(t) == t
    ensures forall n: nat :: SqueezeRounds(s, n) == s || SqueezeRounds(s, n) == t
  {
    forall n: nat ensures SqueezeRounds(s, n) == s || SqueezeRounds(s, n) == t {
      if n > 0 {
        StaysPut(t, n - 1);
      }
    }
  }

  /** Fourteen escaped characters and the marker: a settled text of the largest size. */
  lemma WorstText(s: string)
    requires |s| == 28 && forall i :: 0 <= i < |s| ==> s[i] as int == 1
    ensures forall n: nat :: CharsSize(SqueezeRounds(s, n)) >= SETTLED_BYTES
  {
    var t := Cut(s);
    TextSettles(s);
    EscapedSize(s);
    WorstCut(s);
    WorstRounds(s, t);
  }

  lemma SumOfHead(head: string)
    requires |head| == 14 && forall i :: 0 <= i < |head| ==> head[i] as int == 1
    ensures CharsSize(head + SENTINEL) == SETTLED_BYTES
  {
    EscapedSize(head);
    SentinelSize();
    CharsSizeConcat(head, SENTINEL);
  }

  lemma WorstCut(s: string)
    requires |s| == 28 && forall i :: 0 <= i < |s| ==> s[i] as int == 1
    ensures |Cut(s)| == 28 && CharsSize(Cut(s)) == SETTLED_BYTES
  {
    assert Max8(|s| / 2) == 14;
    SumOfHead(s[..14]);
  }

  /**
   * The last resort ends with a summary that fits, for every text, exactly when the key leaves
   * room for the longest settled text.
   */
  lemma SqueezeAlwaysFitsIff(key: string, maxSize: nat)
    ensures AlwaysFits(key, maxSize) <==> Room(key, maxSize)
  {
    if Room(key, maxSize) {
      forall s: string ensures EndsFitting(key, s, maxSize) {
        var n := SqueezeFitsWithRoom(key, s, maxSize);
      }
    } else {
      WorstText(Escaped(28));
      assert !EndsFitting(key, Escaped(28), maxSize);
    }
  }
}
