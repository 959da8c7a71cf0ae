/**
 * The buffer of one result consumer: what offering a record does under each backpressure policy,
 * and what a client sees that pages through the buffer with a cursor.
 */
module ConsumerBuffer {
  import opened Options

  /** What one record carries: its source, its kind and its bounded payload. */
  type Content = nat

  datatype Status = Active | Draining | Closed | Failed
  datatype Policy = DropOldest | DropNewest | Fail
  datatype Record = Record(sequence: nat, content: Content)

  /** One consumer; the buffer and the next sequence number are kept beside it in the source. */
  datatype Consumer = Consumer(
    status: Status,
    policy: Policy,
    maxBufferSize: nat,
    bufferSize: nat,
    dropped: nat,
    records: seq<Record>,
    next: nat)

  predicate Terminal(c: Consumer) {
    c.status == Closed || c.status == Failed
  }

  function Fresh(policy: Policy, maxBufferSize: nat): Consumer {
    Consumer(Active, policy, maxBufferSize, 0, 0, [], 0)
  }

  function Push(c: Consumer, kept: seq<Record>, dropped: nat, x: Content): Consumer {
    c.(records := kept + [Record(c.next, x)], next := c.next + 1, dropped := dropped, bufferSize := |kept| + 1)
  }

  /** The consumer after one record was offered to it. */
  function Offer(c: Consumer, x: Content): Consumer {
    if Terminal(c) then c
    else if |c.records| < c.maxBufferSize then Push(c, c.records, c.dropped, x)
    else match c.policy
      case DropNewest => c.(dropped := c.dropped + 1, bufferSize := |c.records|)
      case Fail => c.(status := Failed, bufferSize := |c.records|)
      case DropOldest => Push(c, if c.records == [] then [] else c.records[1..], c.dropped + 1, x)
  }

  /** Does offering a record report success? */
  predicate Accepts(c: Consumer) {
    !Terminal(c) && !(c.policy == Fail && |c.records| >= c.maxBufferSize)
  }

  function OfferAll(c: Consumer, xs: seq<Content>): Consumer {
    if xs == [] then c else Offer(OfferAll(c, xs[..|xs| - 1]), xs[|xs| - 1])
  }

  /** An offer reports success exactly when it leaves the consumer open. */
  lemma AcceptsIff(c: Consumer, x: Content)
    ensures Accepts(c) <==> !Terminal(Offer(c, x))
  {
  }

  /** The retained sequence numbers are the contiguous block that ends just before the next one. */
  ghost predicate Block(c: Consumer) {
    && |c.records| <= c.maxBufferSize && 0 < c.maxBufferSize
    && c.bufferSize == |c.records| <= c.next
    && forall i :: 0 <= i < |c.records| ==> c.records[i].sequence == c.next - |c.records| + i
  }

  lemma OfferKeepsBlock(c: Consumer, x: Content)
    requires Block(c)
    ensures Block(Offer(c, x))
  {
  }

  function Contents(rs: seq<Record>): (xs: seq<Content>)
    ensures |xs| == |rs| && forall i :: 0 <= i < |rs| ==> xs[i] == rs[i].content
  {
    seq(|rs|, i requires 0 <= i < |rs| => rs[i].content)
  }

  function Min(a: nat, b: nat): nat {
    if a < b then a else b
  }

  /** Under `drop_oldest` a consumer holds exactly the last records that were offered. */
  lemma {:induction false} DropOldestKeepsLast(max: nat, xs: seq<Content>)
    requires max > 0
    ensures var c := OfferAll(Fresh(DropOldest, max), xs); var kept := Min(max, |xs|);
      && Block(c) && c.status == Active && c.policy == DropOldest && c.maxBufferSize == max && c.next == |xs|
      && Contents(c.records) == xs[|xs| - kept..]
      && c.dropped == |xs| - kept
  {
    if xs != [] {
      DropOldestKeepsLast(max, xs[..|xs| - 1]);
      KeptLast(OfferAll(Fresh(DropOldest, max), xs[..|xs| - 1]), max, xs);
    }
  }

  /** One more offer to a consumer that keeps the last records. */
  lemma KeptLast(b: Consumer, max: nat, xs: seq<Content>)
    requires xs != [] && Block(b) && b.policy == DropOldest && b.status == Active && b.maxBufferSize == max
    requires Contents(b.records) == xs[..|xs| - 1][|xs| - 1 - Min(max, |xs| - 1)..]
    ensures Block(Offer(b, xs[|xs| - 1]))
    ensures Contents(Offer(b, xs[|xs| - 1]).records) == xs[|xs| - Min(max, |xs|)..]
  {
    var c, kept := Offer(b, xs[|xs| - 1]), Min(max, |xs|);
    OfferKeepsBlock(b, xs[|xs| - 1]);
    assert |Contents(b.records)| == Min(max, |xs| - 1);
    forall i | 0 <= i < kept ensures Contents(c.records)[i] == xs[|xs| - kept + i] {
      if i < kept - 1 {
        var j := if |xs| - 1 < max then i else i + 1;
        assert c.records[i] == b.records[j];
        assert Contents(b.records)[j] == b.records[j].content;
      }
    }
  }

  /** Under `drop_newest` a consumer holds exactly the first records that were offered. */
  lemma {:induction false} DropNewestKeepsFirst(max: nat, xs: seq<Content>)
    requires max > 0
    ensures var c := OfferAll(Fresh(DropNewest, max), xs); var kept := Min(max, |xs|);
      && Block(c) && c.status == Active && c.policy == DropNewest && c.maxBufferSize == max && c.next == kept
      && Contents(c.records) == xs[..kept]
      && c.dropped == |xs| - kept
  {
    if xs != [] {
      DropNewestKeepsFirst(max, xs[..|xs| - 1]);
      KeptFirst(OfferAll(Fresh(DropNewest, max), xs[..|xs| - 1]), max, xs);
    }
  }

  /** Under `fail` a consumer holds the first records that were offered, and has failed once one did not fit. */
  lemma {:induction false} FailKeepsFirst(max: nat, xs: seq<Content>)
    requires max > 0
    ensures var c := OfferAll(Fresh(Fail, max), xs); var kept := Min(max, |xs|);
      && Block(c) && c.policy == Fail && c.maxBufferSize == max && c.next == kept
      && Contents(c.records) == xs[..kept]
      && c.dropped == 0
      && c.status == if |xs| > max then Failed else Active
  {
    if xs != [] {
      FailKeepsFirst(max, xs[..|xs| - 1]);
      KeptFirst(OfferAll(Fresh(Fail, max), xs[..|xs| - 1]), max, xs);
    }
  }

  /** One more offer to a consumer that keeps the first records. */
  lemma KeptFirst(b: Consumer, max: nat, xs: seq<Content>)
    requires xs != [] && Block(b) && b.policy != DropOldest && b.maxBufferSize == max
    requires Contents(b.records) == xs[..|xs| - 1][..Min(max, |xs| - 1)]
    requires Terminal(b) ==> |xs| - 1 > max
    ensures Block(Offer(b, xs[|xs| - 1])) && Contents(Offer(b, xs[|xs| - 1]).records) == xs[..Min(max, |xs|)]
  {
    var c := Offer(b, xs[|xs| - 1]);
    OfferKeepsBlock(b, xs[|xs| - 1]);
    assert |b.records| == Min(max, |xs| - 1);
    forall i | 0 <= i < |b.records| ensures Contents(c.records)[i] == xs[i] {
      assert c.records[i] == b.records[i];
      assert Contents(b.records)[i] == b.records[i].content;
    }
  }

  /** A closed or failed consumer never changes again. */
  lemma {:induction false} TerminalIsFinal(c: Consumer, xs: seq<Content>)
    requires Terminal(c)
    ensures OfferAll(c, xs) == c
  {
    if xs != [] {
      TerminalIsFinal(c, xs[..|xs| - 1]);
    }
  }

  // ----- paging

  /** The records a drain may return. */
  function Eligible(rs: seq<Record>, after: Option<int>): seq<Record> {
    if rs == [] then []
    else (if after.None? || rs[0].sequence > after.value then [rs[0]] else []) + Eligible(rs[1..], after)
  }

  datatype Page = Page(records: seq<Record>, nextSequence: int, hasMore: bool)

  /** What a drain returns. */
  function PageAfter(c: Consumer, limit: nat, after: Option<int>): Page
    requires limit > 0
  {
    var eligible := Eligible(c.records, after);
    var selected := if |eligible| > limit then eligible[..limit] else eligible;
    Page(selected,
         if selected != [] then selected[|selected| - 1].sequence else after.Or(0),
         |eligible| > |selected|)
  }

  /** How many records of a block that begins with number `first` a cursor has passed. */
  function Passed(rs: seq<Record>, first: nat, after: int): (k: nat)
    ensures k <= |rs|
  {
    if after < first then 0 else if after - first + 1 > |rs| then |rs| else after - first + 1
  }

  lemma EligibleStep(rs: seq<Record>, first: nat, after: int)
    requires rs != [] && rs[0].sequence == first
    requires Eligible(rs[1..], Some(after)) == rs[1..][Passed(rs[1..], first + 1, after)..]
    ensures Eligible(rs, Some(after)) == rs[Passed(rs, first, after)..]
  {
    var k := Passed(rs[1..], first + 1, after);
    if after < first {
      assert k == 0 && rs[1..][0..] == rs[1..];
      assert [rs[0]] + rs[1..] == rs == rs[0..];
    } else {
      assert Passed(rs, first, after) == k + 1;
      assert rs[1..][k..] == rs[k + 1..];
      assert [] + rs[k + 1..] == rs[k + 1..];
    }
  }

  /** On a contiguous block the eligible records are a suffix of it. */
  lemma {:induction false} EligibleIsSuffix(rs: seq<Record>, first: nat, after: int)
    requires forall i :: 0 <= i < |rs| ==> rs[i].sequence == first + i
    ensures Eligible(rs, Some(after)) == rs[Passed(rs, first, after)..]
  {
    if rs != [] {
      EligibleIsSuffix(rs[1..], first + 1, after);
      EligibleStep(rs, first, after);
    }
  }

  lemma {:induction false} EligibleFromStart(rs: seq<Record>)
    ensures Eligible(rs, None) == Eligible(rs, Some(-1)) == rs
  {
    if rs != [] {
      EligibleFromStart(rs[1..]);
    }
  }

  /** A first drain without a cursor is one from -1, except for the cursor it hands back when empty. */
  lemma FirstDrain(c: Consumer, limit: nat)
    requires limit > 0
    ensures PageAfter(c, limit, None).records == PageAfter(c, limit, Some(-1)).records
    ensures PageAfter(c, limit, None) == PageAfter(c, limit, Some(-1)) <==> c.records != []
  {
    EligibleFromStart(c.records);
  }

  /** An empty first drain makes the client skip record 0, though it is retained. */
  lemma EmptyFirstDrainSkips(policy: Policy, max: nat, x: Content, limit: nat)
    requires max > 0 && limit > 0
    ensures var c := Fresh(policy, max); var d := Offer(c, x); var cursor := PageAfter(c, limit, None).nextSequence;
      && d.records == [Record(0, x)]
      && PageAfter(d, limit, Some(cursor)).records == []
      && PageAfter(d, limit, Some(-1)).records == [Record(0, x)]
  {
    var d := Offer(Fresh(policy, max), x);
    assert d.records[1..] == [];
    assert Eligible(d.records, Some(0)) == [] && Eligible(d.records, Some(-1)) == [Record(0, x)];
  }

  /** What a client does: records are offered by others, and the client drains from its cursor. */
  datatype Event = Offered(x: Content) | Drained(limit: nat)

  /** A client, the consumer it reads, everything it has seen, and everything ever stored. */
  datatype Reader = Reader(c: Consumer, cursor: int, seen: seq<Record>, stored: seq<Content>)

  function Read(r: Reader, e: Event): Reader
    requires e.Drained? ==> e.limit > 0
  {
    match e
    case Offered(x) =>
      var d := Offer(r.c, x);
      r.(c := d, stored := if d.next > r.c.next then r.stored + [x] else r.stored)
    case Drained(limit) =>
      var p := PageAfter(r.c, limit, Some(r.cursor));
      r.(cursor := p.nextSequence, seen := r.seen + p.records)
  }

  predicate Limited(es: seq<Event>) {
    forall i :: 0 <= i < |es| && es[i].Drained? ==> es[i].limit > 0
  }

  function ReadAll(r: Reader, es: seq<Event>): Reader
    requires Limited(es)
  {
    if es == [] then r else Read(ReadAll(r, es[..|es| - 1]), es[|es| - 1])
  }

  /** The first sequence number that is still retained. */
  function FirstKept(c: Consumer): int {
    c.next - |c.records|
  }

  predicate Saw(seen: seq<Record>, n: int) {
    exists i :: 0 <= i < |seen| && seen[i].sequence == n
  }

  /** What a reader that started at -1 has seen. */
  ghost predicate Follows(r: Reader) {
    && Block(r.c) && |r.stored| == r.c.next && -1 <= r.cursor < r.c.next
    && (forall i :: 0 <= i < |r.c.records| ==> r.c.records[i].content == r.stored[r.c.records[i].sequence])
    && (forall i :: 0 <= i < |r.seen| ==> 0 <= r.seen[i].sequence <= r.cursor && r.seen[i].content == r.stored[r.seen[i].sequence])
    && (forall i, j :: 0 <= i < j < |r.seen| ==> r.seen[i].sequence < r.seen[j].sequence)
    && (forall n :: 0 <= n <= r.cursor && !Saw(r.seen, n) ==> n < FirstKept(r.c))
  }

  lemma OfferFollows(r: Reader, x: Content)
    requires Follows(r)
    ensures Follows(Read(r, Offered(x)))
  {
    OfferKeepsBlock(r.c, x);
    var w := Read(r, Offered(x));
    forall i | 0 <= i < |w.c.records| ensures w.c.records[i].content == w.stored[w.c.records[i].sequence] {
      if w.c.next > r.c.next && i < |w.c.records| - 1 {
        var j := if |r.c.records| < r.c.maxBufferSize then i else i + 1;
        assert w.c.records[i] == r.c.records[j];
      }
    }
  }

  /** A page is a contiguous piece of the block, starting right after the cursor or at the oldest record. */
  lemma PageShape(c: Consumer, limit: nat, after: int) returns (k: nat)
    requires Block(c) && limit > 0 && -1 <= after < c.next
    ensures var p := PageAfter(c, limit, Some(after));
      && k + |p.records| <= |c.records| && p.records == c.records[k..k + |p.records|]
      && k == (if after < FirstKept(c) then 0 else after + 1 - FirstKept(c))
      && p.nextSequence == (if p.records == [] then after else FirstKept(c) + k + |p.records| - 1)
      && |p.records| == Min(limit, |c.records| - k)
  {
    EligibleIsSuffix(c.records, FirstKept(c), after);
    k := if after < FirstKept(c) then 0 else after + 1 - FirstKept(c);
  }

  lemma DrainFollows(r: Reader, limit: nat)
    requires Follows(r) && limit > 0
    ensures Follows(Read(r, Drained(limit)))
  {
    var k := PageShape(r.c, limit, r.cursor);
    var page := PageAfter(r.c, limit, Some(r.cursor)).records;
    DrainSeen(r, Read(r, Drained(limit)), page, k);
    DrainSkips(r, Read(r, Drained(limit)), page, k);
  }

  /** `w` is `r` after it read the page that starts at place `k` of the buffer. */
  ghost predicate PageRead(r: Reader, w: Reader, page: seq<Record>, k: nat) {
    && k + |page| <= |r.c.records| && page == r.c.records[k..k + |page|]
    && k == (if r.cursor < FirstKept(r.c) then 0 else r.cursor + 1 - FirstKept(r.c))
    && w == r.(cursor := if page == [] then r.cursor else FirstKept(r.c) + k + |page| - 1, seen := r.seen + page)
  }

  lemma DrainSeen(r: Reader, w: Reader, page: seq<Record>, k: nat)
    requires Follows(r) && PageRead(r, w, page, k)
    ensures forall i :: 0 <= i < |w.seen| ==> 0 <= w.seen[i].sequence <= w.cursor < |w.stored| && w.seen[i].content == w.stored[w.seen[i].sequence]
    ensures forall i, j :: 0 <= i < j < |w.seen| ==> w.seen[i].sequence < w.seen[j].sequence
  {
    forall i | |r.seen| <= i < |w.seen|
      ensures w.seen[i] == r.c.records[k + (i - |r.seen|)]
      ensures w.seen[i].sequence == FirstKept(r.c) + k + (i - |r.seen|)
    {
      assert w.seen[i] == page[i - |r.seen|];
    }
  }

  lemma DrainSkips(r: Reader, w: Reader, page: seq<Record>, k: nat)
    requires Follows(r) && PageRead(r, w, page, k)
    ensures forall n :: 0 <= n <= w.cursor && !Saw(w.seen, n) ==> n < FirstKept(w.c)
  {
    var first := FirstKept(r.c);
    forall n | 0 <= n <= r.cursor && Saw(r.seen, n) ensures Saw(w.seen, n) {
      var i :| 0 <= i < |r.seen| && r.seen[i].sequence == n;
      assert w.seen[i] == r.seen[i];
    }
    forall n | r.cursor < n <= w.cursor && n >= first ensures Saw(w.seen, n) {
      assert w.seen[|r.seen| + (n - first - k)] == page[n - first - k] == r.c.records[n - first];
    }
  }

  /**
   * Over any interleaving of offers and drains, a client that starts at -1 sees strictly increasing
   * sequence numbers, each record as it was stored, and every number it skipped had already been
   * evicted when it was passed over.
   */
  lemma {:induction false} PagingIsExact(policy: Policy, max: nat, es: seq<Event>)
    requires max > 0 && Limited(es)
    ensures Follows(ReadAll(Reader(Fresh(policy, max), -1, [], []), es))
  {
    if es != [] {
      PagingIsExact(policy, max, es[..|es| - 1]);
      var r := ReadAll(Reader(Fresh(policy, max), -1, [], []), es[..|es| - 1]);
      match es[|es| - 1]
      case Offered(x) => OfferFollows(r, x);
      case Drained(limit) => DrainFollows(r, limit);
    }
  }

  /** The records of `n` drains in a row while nothing is offered. */
  function Pages(c: Consumer, limit: nat, after: int, n: nat): seq<Record>
    requires limit > 0
    decreases n
  {
    if n == 0 then []
    else
      var p := PageAfter(c, limit, Some(after));
      p.records + Pages(c, limit, p.nextSequence, n - 1)
  }

  /** After a page, what is eligible is what was eligible without the page. */
  lemma EligibleAfterPage(c: Consumer, limit: nat, after: int)
    requires Block(c) && limit > 0 && -1 <= after < c.next
    ensures var p := PageAfter(c, limit, Some(after));
      && -1 <= p.nextSequence < c.next
      && Eligible(c.records, Some(after)) == p.records + Eligible(c.records, Some(p.nextSequence))
      && (Eligible(c.records, Some(after)) != [] ==> p.records != [])
  {
    var k := PageShape(c, limit, after);
    var p := PageAfter(c, limit, Some(after));
    EligibleIsRest(c, after, k);
    SplitAt(c.records, k, |p.records|);
    if p.records != [] {
      EligibleIsRest(c, p.nextSequence, k + |p.records|);
    } else {
      assert p.records + Eligible(c.records, Some(after)) == Eligible(c.records, Some(after));
    }
  }

  lemma SplitAt(rs: seq<Record>, k: nat, n: nat)
    requires k + n <= |rs|
    ensures rs[k..] == rs[k..k + n] + rs[k + n..]
  {
  }

  lemma EligibleIsRest(c: Consumer, after: int, k: nat)
    requires Block(c) && -1 <= after < c.next
    requires k == if after < FirstKept(c) then 0 else after + 1 - FirstKept(c)
    ensures k <= |c.records| && Eligible(c.records, Some(after)) == c.records[k..]
  {
    EligibleIsSuffix(c.records, FirstKept(c), after);
  }

  /** A page says that there is more exactly when the drain after it is not empty. */
  lemma HasMoreIff(c: Consumer, limit: nat, after: Option<int>, again: nat)
    requires Block(c) && limit > 0 && again > 0
    requires after.Some? ==> -1 <= after.value < c.next
    requires after.None? ==> c.records != []
    ensures PageAfter(c, limit, after).hasMore
       <==> PageAfter(c, again, Some(PageAfter(c, limit, after).nextSequence)).records != []
  {
    FirstDrain(c, limit);
    var from := after.Or(-1);
    assert PageAfter(c, limit, after) == PageAfter(c, limit, Some(from));
    EligibleAfterPage(c, limit, from);
  }

  /** Without offers the pages add up to all eligible records, however small they are. */
  lemma {:induction false} PagesAreComplete(c: Consumer, limit: nat, after: int, n: nat)
    requires Block(c) && limit > 0 && -1 <= after < c.next
    requires n >= |Eligible(c.records, Some(after))|
    ensures Pages(c, limit, after, n) == Eligible(c.records, Some(after))
    decreases n
  {
    if n > 0 {
      EligibleAfterPage(c, limit, after);
      PagesAreComplete(c, limit, PageAfter(c, limit, Some(after)).nextSequence, n - 1);
    }
  }
}
