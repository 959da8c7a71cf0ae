/**
 * The bounded observation queue of one stream connection: producers append, the flusher sends
 * bounded batches, and counters account for every observation.
 */
module ObservationQueue {
  import opened Options
  import opened Wire

  const CAPACITY := 1024
  const MAX_BATCH_COUNT := 64
  const MAX_BATCH_BYTES := 256 * 1024

  /** What is queued: frame bytes, or an object and its JSON encoding if it has one. */
  datatype Item = Raw(data: bytes) | Object(json: Option<bytes>)

  predicate Encodable(x: Item) {
    match x
    case Raw(data) => OBS <= data
    case Object(json) => json.Some? && |json.value| < WORD
  }

  /** The OBS frame of an item. */
  function Encode(x: Item): (frame: Option<bytes>)
    ensures frame.Some? <==> Encodable(x)
    ensures frame.Some? ==> OBS <= frame.value
  {
    match x
    case Raw(data) => if OBS <= data then Some(data) else None
    case Object(json) =>
      if json.Some? && |json.value| < WORD then Some(EncodeFrame(Frame(false, json.value))) else None
  }

  predicate TooBig(x: Item) {
    Encodable(x) && |Encode(x).value| > MAX_BATCH_BYTES
  }

  /** An item that can be sent. */
  predicate Good(x: Item) {
    Encodable(x) && !TooBig(x)
  }

  /** Sendable are objects that have a JSON text, and raw frames, that fit into a batch. */
  lemma GoodIff(x: Item)
    ensures x.Object? ==> (Good(x) <==> x.json.Some? && 8 + |x.json.value| <= MAX_BATCH_BYTES)
    ensures x.Raw? ==> (Good(x) <==> OBS <= x.data && |x.data| <= MAX_BATCH_BYTES)
  {
  }

  /** The sendable items, in order. */
  function GoodOnes(xs: seq<Item>): (r: seq<Item>)
    ensures forall i :: 0 <= i < |r| ==> Good(r[i])
    ensures |r| <= |xs|
  {
    if xs == [] then []
    else GoodOnes(xs[..|xs| - 1]) + if Good(xs[|xs| - 1]) then [xs[|xs| - 1]] else []
  }

  function CountUnencodable(xs: seq<Item>): nat {
    if xs == [] then 0 else CountUnencodable(xs[..|xs| - 1]) + if Encodable(xs[|xs| - 1]) then 0 else 1
  }

  function CountTooBig(xs: seq<Item>): nat {
    if xs == [] then 0 else CountTooBig(xs[..|xs| - 1]) + if TooBig(xs[|xs| - 1]) then 1 else 0
  }

  ghost predicate AllGood(xs: seq<Item>) {
    forall i :: 0 <= i < |xs| ==> Good(xs[i])
  }

  function Join(parts: seq<bytes>): bytes {
    if parts == [] then [] else Join(parts[..|parts| - 1]) + parts[|parts| - 1]
  }

  ghost function Encodings(xs: seq<Item>): (r: seq<bytes>)
    requires AllGood(xs)
    ensures |r| == |xs| && forall i :: 0 <= i < |r| ==> r[i] == Encode(xs[i]).value
  {
    seq(|xs|, i requires 0 <= i < |xs| && AllGood(xs) => assert Good(xs[i]); Encode(xs[i]).value)
  }

  /** The frames of sendable items one after the other. */
  ghost function Frames(xs: seq<Item>): bytes
    requires AllGood(xs)
  {
    Join(Encodings(xs))
  }

  lemma {:induction false} EachItemOnce(xs: seq<Item>)
    ensures |GoodOnes(xs)| + CountUnencodable(xs) + CountTooBig(xs) == |xs|
  {
    if xs != [] {
      EachItemOnce(xs[..|xs| - 1]);
    }
  }

  lemma {:induction false} GoodOnesConcat(xs: seq<Item>, ys: seq<Item>)
    ensures GoodOnes(xs + ys) == GoodOnes(xs) + GoodOnes(ys)
  {
    if ys == [] {
      assert xs + ys == xs;
    } else {
      var zs := xs + ys;
      assert zs[..|zs| - 1] == xs + ys[..|ys| - 1];
      GoodOnesConcat(xs, ys[..|ys| - 1]);
    }
  }

  lemma {:induction false} JoinConcat(ps: seq<bytes>, qs: seq<bytes>)
    ensures Join(ps + qs) == Join(ps) + Join(qs)
  {
    if qs == [] {
      assert ps + qs == ps;
    } else {
      assert (ps + qs)[..|ps + qs| - 1] == ps + qs[..|qs| - 1];
      JoinConcat(ps, qs[..|qs| - 1]);
    }
  }

  lemma FramesConcat(xs: seq<Item>, ys: seq<Item>)
    requires AllGood(xs) && AllGood(ys)
    ensures AllGood(xs + ys) && Frames(xs + ys) == Frames(xs) + Frames(ys)
  {
    assert AllGood(xs + ys);
    assert Encodings(xs + ys) == Encodings(xs) + Encodings(ys);
    JoinConcat(Encodings(xs), Encodings(ys));
  }

  lemma FramesSnoc(xs: seq<Item>, x: Item)
    requires AllGood(xs) && Good(x)
    ensures AllGood(xs + [x]) && Frames(xs + [x]) == Frames(xs) + Encode(x).value
  {
    assert AllGood(xs + [x]);
    assert Encodings(xs + [x])[..|xs|] == Encodings(xs);
  }

  lemma NoFramesNoItems(xs: seq<Item>)
    requires AllGood(xs)
    ensures Frames(xs) == [] <==> xs == []
  {
    if xs != [] {
      assert Good(xs[|xs| - 1]);
      assert OBS <= Encodings(xs)[|xs| - 1];
    }
  }

  // ----- what a reader gets

  /** An object, or raw bytes that are one whole frame. */
  predicate WholeFrame(x: Item) {
    x.Raw? ==> Complete(x.data) && AfterFrame(x.data) == []
  }

  predicate AllWhole(xs: seq<Item>) {
    forall i :: 0 <= i < |xs| ==> WholeFrame(xs[i])
  }

  /** The JSON text that an item carries. */
  function Text(x: Item): bytes
    requires Good(x) && WholeFrame(x)
  {
    match x
    case Raw(data) => Payload(data)
    case Object(json) => json.value
  }

  /** A reader of the frames of sendable items gets their texts, one for each, and nothing is left over. */
  ghost predicate ReadsAs(sent: bytes, xs: seq<Item>) {
    && Remainder(sent) == [] && |Payloads(sent)| == |xs|
    && forall i :: 0 <= i < |xs| ==> Good(xs[i]) && WholeFrame(xs[i]) && Payloads(sent)[i] == Text(xs[i])
  }

  lemma EncodedReads(x: Item, more: bytes)
    requires Good(x) && WholeFrame(x)
    ensures var s := Encode(x).value + more; Complete(s) && Payload(s) == Text(x) && AfterFrame(s) == more
  {
    match x
    case Raw(data) =>
      CompleteMore(data, more);
      assert [] + more == more;
    case Object(json) =>
      FrameComplete(Frame(false, json.value), more);
  }

  lemma {:induction false} FramesRead(xs: seq<Item>)
    requires AllGood(xs) && AllWhole(xs)
    ensures ReadsAs(Frames(xs), xs)
  {
    if xs != [] {
      var first, rest := [xs[0]], xs[1..];
      FramesRead(rest);
      assert xs == first + rest;
      FramesConcat(first, rest);
      OneFrame(xs[0]);
      EncodedReads(xs[0], Frames(rest));
    }
  }

  lemma OneFrame(x: Item)
    requires Good(x)
    ensures AllGood([x]) && Frames([x]) == Encode(x).value
  {
    FramesSnoc([], x);
    assert [] + [x] == [x] && Frames([]) == [];
  }

  lemma {:induction false} GoodOnesWhole(xs: seq<Item>)
    requires AllWhole(xs)
    ensures AllWhole(GoodOnes(xs))
  {
    if xs != [] {
      GoodOnesWhole(xs[..|xs| - 1]);
    }
  }

  /** The batch made from the first `taken` items of a queue. */
  datatype Batch = Batch(frames: bytes, encoded: nat, unencodable: nat, tooBig: nat)

  ghost predicate BatchOf(b: Batch, xs: seq<Item>) {
    && b.frames == Frames(GoodOnes(xs)) && b.encoded == |GoodOnes(xs)|
    && b.unencodable == CountUnencodable(xs) && b.tooBig == CountTooBig(xs)
  }

  /** A batch accounts for each item it was made from, and sends bytes exactly when it sends items. */
  lemma BatchAccounts(b: Batch, xs: seq<Item>)
    requires BatchOf(b, xs)
    ensures b.encoded + b.unencodable + b.tooBig == |xs|
    ensures b.frames == [] <==> b.encoded == 0
  {
    EachItemOnce(xs);
    NoFramesNoItems(GoodOnes(xs));
  }

  lemma BatchReads(xs: seq<Item>)
    ensures AllWhole(xs) ==> ReadsAs(Frames(GoodOnes(xs)), GoodOnes(xs))
  {
    if AllWhole(xs) {
      GoodOnesWhole(xs);
      FramesRead(GoodOnes(xs));
    }
  }

  /** How a batch grows by one item. */
  lemma BatchGrows(b: Batch, xs: seq<Item>, x: Item)
    requires BatchOf(b, xs)
    ensures !Encodable(x) ==> BatchOf(b.(unencodable := b.unencodable + 1), xs + [x])
    ensures TooBig(x) ==> BatchOf(b.(tooBig := b.tooBig + 1), xs + [x])
    ensures Good(x) ==> BatchOf(b.(frames := b.frames + Encode(x).value, encoded := b.encoded + 1), xs + [x])
  {
    var ys := xs + [x];
    assert ys[..|ys| - 1] == xs && ys[|ys| - 1] == x;
    assert GoodOnes(ys) == GoodOnes(xs) + if Good(x) then [x] else [];
    assert GoodOnes(xs) + [] == GoodOnes(xs);
    if Good(x) {
      FramesSnoc(GoodOnes(xs), x);
    }
  }

  /** The frames of one batch after another. */
  lemma FramesGrow(xs: seq<Item>, n: nat, m: nat)
    requires n + m <= |xs|
    ensures Frames(GoodOnes(xs[..n + m])) == Frames(GoodOnes(xs[..n])) + Frames(GoodOnes(xs[n..][..m]))
    ensures |GoodOnes(xs[..n + m])| == |GoodOnes(xs[..n])| + |GoodOnes(xs[n..][..m])|
    ensures xs[n..][m..] == xs[n + m..]
  {
    GoodOnesConcat(xs[..n], xs[n..][..m]);
    assert xs[..n + m] == xs[..n] + xs[n..][..m];
    FramesConcat(GoodOnes(xs[..n]), GoodOnes(xs[n..][..m]));
  }

  /** The item `x` cannot join `n` bytes in one batch. */
  predicate Overflows(n: nat, x: Item) {
    Good(x) && n + |Encode(x).value| > MAX_BATCH_BYTES
  }

  lemma OverflowsIff(n: nat, x: Item)
    ensures x.Object? ==>
              (Overflows(n, x) <==> x.json.Some? && 8 + |x.json.value| <= MAX_BATCH_BYTES < n + 8 + |x.json.value|)
    ensures x.Raw? ==> (Overflows(n, x) <==> OBS <= x.data && |x.data| <= MAX_BATCH_BYTES < n + |x.data|)
  {
  }

  /** Adds one item to a batch, as a frame or as a drop; false when its frame does not fit. */
  method AddToBatch(b: Batch, observation: Item, ghost xs: seq<Item>) returns (added: bool, c: Batch)
    requires BatchOf(b, xs) && |b.frames| <= MAX_BATCH_BYTES
    ensures added == !Overflows(|b.frames|, observation)
    ensures added ==> BatchOf(c, xs + [observation]) && |c.frames| <= MAX_BATCH_BYTES
    ensures !added ==> c == b && b.frames != []
  {
    BatchGrows(b, xs, observation);
    var frame := Encode(observation);
    if frame.None? {
      return true, b.(unencodable := b.unencodable + 1);
    }
    if |frame.value| > MAX_BATCH_BYTES {
      return true, b.(tooBig := b.tooBig + 1);
    }
    if |b.frames| + |frame.value| > MAX_BATCH_BYTES {
      return false, b;
    }
    return true, b.(frames := b.frames + frame.value, encoded := b.encoded + 1);
  }

  class StreamQueue {
    var queue: seq<Item>
    var enqueued: nat
    var delivered: nat
    var dropped: nat
    var encodeDropped: nat
    var oversizeDropped: nat
    var drainDropped: nat
    var slowEvicted: nat
    /** Overflows and observations lost to failed sends: the source does not count the latter. */
    ghost var overflowed: nat
    ghost var lost: nat

    constructor ()
      ensures Balanced() && queue == [] && lost == 0 && enqueued == 0
    {
      queue := [];
      enqueued, delivered, dropped, encodeDropped, oversizeDropped, drainDropped, slowEvicted := 0, 0, 0, 0, 0, 0, 0;
      overflowed, lost := 0, 0;
    }

    /** Every observation ever enqueued is delivered, counted as dropped, still queued, or lost to a failed send. */
    ghost predicate Balanced()
      reads this
    {
      && |queue| <= CAPACITY
      && dropped == overflowed + encodeDropped + oversizeDropped
      && enqueued == delivered + dropped + drainDropped + |queue| + lost
    }

    /** A full queue loses its oldest item. */
    method Enqueue(x: Item)
      requires Balanced()
      modifies this
      ensures Balanced() && lost == old(lost) && delivered == old(delivered)
      ensures queue == (if |old(queue)| == CAPACITY then old(queue)[1..] else old(queue)) + [x]
      ensures enqueued == old(enqueued) + 1
      ensures dropped == old(dropped) + if |old(queue)| == CAPACITY then 1 else 0
    {
      if |queue| == CAPACITY {
        dropped := dropped + 1;
        overflowed := overflowed + 1;
        queue := queue[1..];
      }
      queue := queue + [x];
      enqueued := enqueued + 1;
    }

    /** Pops items into a batch until a limit is reached; the item that does not fit goes back. */
    method TakeBatch() returns (b: Batch, taken: nat)
      modifies this`queue
      ensures taken <= |old(queue)| && queue == old(queue)[taken..]
      ensures BatchOf(b, old(queue)[..taken])
      ensures taken <= MAX_BATCH_COUNT && |b.frames| <= MAX_BATCH_BYTES
      ensures taken == |old(queue)| || taken == MAX_BATCH_COUNT || Overflows(|b.frames|, old(queue)[taken])
      ensures old(queue) != [] ==> taken > 0
    {
      ghost var start := queue;
      b := Batch([], 0, 0, 0);
      taken := 0;
      while taken < MAX_BATCH_COUNT
        invariant taken <= |start| && taken <= MAX_BATCH_COUNT && queue == start[taken..]
        invariant BatchOf(b, start[..taken]) && |b.frames| <= MAX_BATCH_BYTES
        invariant taken == 0 ==> b.frames == []
      {
        if queue == [] {
          break;
        }
        var observation := queue[0];
        queue := queue[1..];
        assert start[..taken + 1] == start[..taken] + [observation];
        var added;
        added, b := AddToBatch(b, observation, start[..taken]);
        if !added {
          queue := [observation] + queue;
          assert queue == start[taken..];
          break;
        }
        taken := taken + 1;
      }
    }

    /**
     * Sends one batch. The batch is made of the sendable items among the first `taken` ones, in
     * order; it is as long as the limits allow, and a non-empty queue always gives up an item.
     */
    method Flush(sendSucceeds: bool) returns (alive: bool, sent: bytes, taken: nat)
      requires Balanced()
      modifies this
      ensures Balanced() && enqueued == old(enqueued)
      ensures taken <= |old(queue)| && queue == old(queue)[taken..]
      ensures sent == Frames(GoodOnes(old(queue)[..taken]))
      ensures AllWhole(old(queue)[..taken]) ==> ReadsAs(sent, GoodOnes(old(queue)[..taken]))
      ensures taken <= MAX_BATCH_COUNT && |sent| <= MAX_BATCH_BYTES
      ensures taken == |old(queue)| || taken == MAX_BATCH_COUNT || Overflows(|sent|, old(queue)[taken])
      ensures old(queue) != [] ==> taken > 0
      ensures alive == (sent == [] || sendSucceeds)
      ensures encodeDropped == old(encodeDropped) + CountUnencodable(old(queue)[..taken])
      ensures oversizeDropped == old(oversizeDropped) + CountTooBig(old(queue)[..taken])
      ensures dropped == old(dropped) + CountUnencodable(old(queue)[..taken]) + CountTooBig(old(queue)[..taken])
      ensures delivered == old(delivered) + if alive then |GoodOnes(old(queue)[..taken])| else 0
      ensures slowEvicted == old(slowEvicted) + if alive then 0 else 1
      ensures lost == old(lost) + if alive then 0 else |GoodOnes(old(queue)[..taken])|
    {
      ghost var start := queue;
      var b;
      b, taken := TakeBatch();
      BatchAccounts(b, start[..taken]);
      BatchReads(start[..taken]);
      sent := b.frames;
      alive := Settle(b, sendSucceeds);
    }

    /** Sends a batch and counts what became of its items. */
    method Settle(b: Batch, sendSucceeds: bool) returns (alive: bool)
      requires b.frames == [] <==> b.encoded == 0
      modifies this`dropped, this`encodeDropped, this`oversizeDropped, this`slowEvicted, this`lost, this`delivered
      ensures alive == (b.frames == [] || sendSucceeds)
      ensures dropped == old(dropped) + b.unencodable + b.tooBig
      ensures encodeDropped == old(encodeDropped) + b.unencodable
      ensures oversizeDropped == old(oversizeDropped) + b.tooBig
      ensures delivered == old(delivered) + if alive then b.encoded else 0
      ensures slowEvicted == old(slowEvicted) + if alive then 0 else 1
      ensures lost == old(lost) + if alive then 0 else b.encoded
    {
      if b.unencodable + b.tooBig > 0 {
        dropped := dropped + b.unencodable + b.tooBig;
        encodeDropped := encodeDropped + b.unencodable;
        oversizeDropped := oversizeDropped + b.tooBig;
      }
      if b.frames == [] {
        return true;
      }
      if !sendSucceeds {
        slowEvicted := slowEvicted + 1;
        lost := lost + b.encoded;
        return false;
      }
      delivered := delivered + b.encoded;
      alive := true;
    }

    /**
     * Flushing again and again with sends that succeed and no producers empties the queue, and
     * what was sent is the frames of all sendable items in order.
     */
    method FlushAll() returns (sent: bytes)
      requires Balanced()
      modifies this
      ensures Balanced() && queue == [] && lost == old(lost)
      ensures sent == Frames(GoodOnes(old(queue)))
      ensures AllWhole(old(queue)) ==> ReadsAs(sent, GoodOnes(old(queue)))
      ensures delivered == old(delivered) + |GoodOnes(old(queue))|
    {
      ghost var start := queue;
      ghost var n: nat := 0;
      sent := [];
      while queue != []
        invariant Balanced() && lost == old(lost)
        invariant n <= |start| && queue == start[n..]
        invariant sent == Frames(GoodOnes(start[..n]))
        invariant delivered == old(delivered) + |GoodOnes(start[..n])|
        decreases |queue|
      {
        var alive, more, taken := Flush(true);
        FramesGrow(start, n, taken);
        sent := sent + more;
        n := n + taken;
      }
      assert start[..n] == start;
      BatchReads(start);
    }

    /** What is left when the agent stops is discarded and counted. */
    method Drain()
      requires Balanced()
      modifies this
      ensures Balanced() && queue == [] && lost == old(lost)
      ensures drainDropped == old(drainDropped) + |old(queue)|
    {
      var remaining := |queue|;
      if remaining <= 0 {
        return;
      }
      drainDropped := drainDropped + remaining;
      queue := [];
    }
  }
}
