/**
 * The byte stream an agent sends: observation and log frames, each a four-byte prefix, a length
 * word and a payload, and responses, each a length word and a payload. This module says what a
 * stream means; the readers are proved against it.
 */
module Wire {
  import opened Options

  type byte = x: int | 0 <= x < 256
  type bytes = seq<byte>

  const WORD := 0x1_0000_0000

  /** "OBS:" and "LOG:" in ASCII. */
  const OBS: bytes := [0x4f, 0x42, 0x53, 0x3a]
  const LOG: bytes := [0x4c, 0x4f, 0x47, 0x3a]

  predicate IsPrefix(w: bytes) {
    w == OBS || w == LOG
  }

  /** A length as four bytes, most significant first. */
  function Be32(n: nat): (w: bytes)
    requires n < WORD
    ensures |w| == 4
  {
    [n / 0x100_0000, n / 0x1_0000 % 0x100, n / 0x100 % 0x100, n % 0x100]
  }

  function FromBe32(w: bytes): (n: nat)
    requires |w| == 4
    ensures n < WORD
  {
    w[0] as int * 0x100_0000 + w[1] as int * 0x1_0000 + w[2] as int * 0x100 + w[3] as int
  }

  lemma LengthRoundTrip(n: nat)
    requires n < WORD
    ensures FromBe32(Be32(n)) == n
  {
    var a, b, c, d := n / 0x100_0000, n / 0x1_0000 % 0x100, n / 0x100 % 0x100, n % 0x100;
    assert n / 0x100 == n / 0x1_0000 * 0x100 + c;
    assert n / 0x1_0000 == a * 0x100 + b;
  }

  lemma WordRoundTrip(w: bytes)
    requires |w| == 4
    ensures Be32(FromBe32(w)) == w
  {
    var n, a, b, c := FromBe32(w), w[0] as int, w[1] as int, w[2] as int;
    assert n / 0x100_0000 == a && n / 0x1_0000 == a * 0x100 + b && n / 0x100 == (a * 0x100 + b) * 0x100 + c;
  }

  /** Words compare like the numbers they stand for, most significant byte first. */
  predicate Before(v: bytes, w: bytes)
    requires |v| == |w|
  {
    v != [] && (v[0] < w[0] || (v[0] == w[0] && Before(v[1..], w[1..])))
  }

  lemma LengthOrder(m: nat, n: nat)
    requires m < WORD && n < WORD
    ensures m < n <==> Before(Be32(m), Be32(n))
  {
    LengthRoundTrip(m);
    LengthRoundTrip(n);
    WordOrder(Be32(m), Be32(n));
  }

  lemma WordOrder(v: bytes, w: bytes)
    requires |v| == 4 && |w| == 4
    ensures FromBe32(v) < FromBe32(w) <==> Before(v, w)
  {
    BeforeStep(v, w, 0);
    BeforeStep(v, w, 1);
    BeforeStep(v, w, 2);
    BeforeStep(v, w, 3);
    assert v[0..] == v && w[0..] == w && !Before(v[4..], w[4..]);
  }

  lemma BeforeStep(v: bytes, w: bytes, i: nat)
    requires |v| == |w| && i < |v|
    ensures Before(v[i..], w[i..]) <==> v[i] < w[i] || (v[i] == w[i] && Before(v[i + 1..], w[i + 1..]))
  {
    assert v[i..][1..] == v[i + 1..] && w[i..][1..] == w[i + 1..];
  }

  // ----- what a sender writes

  datatype Frame = Frame(log: bool, payload: bytes)

  predicate Sendable(f: Frame) {
    |f.payload| < WORD
  }

  function EncodeFrame(f: Frame): bytes
    requires Sendable(f)
  {
    (if f.log then LOG else OBS) + Be32(|f.payload|) + f.payload
  }

  function EncodeFrames(fs: seq<Frame>): bytes
    requires forall i :: 0 <= i < |fs| ==> Sendable(fs[i])
  {
    if fs == [] then [] else EncodeFrame(fs[0]) + EncodeFrames(fs[1..])
  }

  /** A response whose length word would read as a prefix cannot be told from a frame. */
  predicate Answerable(p: bytes) {
    0 < |p| < WORD && !IsPrefix(Be32(|p|))
  }

  function EncodeResponse(p: bytes): bytes
    requires |p| < WORD
  {
    Be32(|p|) + p
  }

  // ----- what a stream means

  /** A whole frame at the front of `s`. */
  predicate Complete(s: bytes) {
    |s| >= 8 && IsPrefix(s[..4]) && |s| >= 8 + FromBe32(s[4..8])
  }

  function Payload(s: bytes): bytes
    requires Complete(s)
  {
    s[8..8 + FromBe32(s[4..8])]
  }

  function AfterFrame(s: bytes): (r: bytes)
    requires Complete(s)
    ensures |r| < |s|
  {
    s[8 + FromBe32(s[4..8])..]
  }

  /** The first response of a stream and what follows it, behind any number of frames. */
  function Answer(s: bytes): Option<(bytes, bytes)> {
    if Complete(s) then Answer(AfterFrame(s))
    else if |s| < 4 || IsPrefix(s[..4]) then None
    else
      var n := FromBe32(s[..4]);
      if |s| < 4 + n then None else Some((s[4..4 + n], s[4 + n..]))
  }

  /** No frame in front of the first response has an empty payload. */
  predicate NoEmptyFrame(s: bytes) {
    Complete(s) ==> Payload(s) != [] && NoEmptyFrame(AfterFrame(s))
  }

  /** The payloads of the whole frames at the front of a stream, in order. */
  function Payloads(s: bytes): seq<bytes> {
    if Complete(s) then [Payload(s)] + Payloads(AfterFrame(s)) else []
  }

  /** What follows them. */
  function Remainder(s: bytes): bytes {
    if Complete(s) then Remainder(AfterFrame(s)) else s
  }

  /** The stream consists of frames, the last of which may be cut short. */
  predicate Framed(s: bytes) {
    var t := Remainder(s);
    if |t| < 4 then t <= OBS || t <= LOG else IsPrefix(t[..4])
  }

  // ----- round trips

  lemma FrameComplete(f: Frame, rest: bytes)
    requires Sendable(f)
    ensures var s := EncodeFrame(f) + rest;
      Complete(s) && Payload(s) == f.payload && AfterFrame(s) == rest
  {
    var s := EncodeFrame(f) + rest;
    LengthRoundTrip(|f.payload|);
    assert s[..4] == if f.log then LOG else OBS;
    assert s[4..8] == Be32(|f.payload|);
  }

  lemma ResponseRoundTrip(p: bytes, rest: bytes)
    requires Answerable(p)
    ensures Answer(EncodeResponse(p) + rest) == Some((p, rest)) && NoEmptyFrame(EncodeResponse(p) + rest)
  {
    LengthRoundTrip(|p|);
    var s := EncodeResponse(p) + rest;
    assert s == Be32(|p|) + p + rest;
    assert s[..4] == Be32(|p|) && s[4..4 + |p|] == p && s[4 + |p|..] == rest;
  }

  /** Frames and then a response read back as that response, and leave what follows. */
  lemma {:induction false} AnswerRoundTrip(fs: seq<Frame>, p: bytes, rest: bytes)
    requires (forall i :: 0 <= i < |fs| ==> Sendable(fs[i])) && Answerable(p)
    ensures Answer(EncodeFrames(fs) + EncodeResponse(p) + rest) == Some((p, rest))
    ensures (forall i :: 0 <= i < |fs| ==> fs[i].payload != []) <==> NoEmptyFrame(EncodeFrames(fs) + EncodeResponse(p) + rest)
  {
    var s := EncodeFrames(fs) + EncodeResponse(p) + rest;
    if fs == [] {
      assert s == EncodeResponse(p) + rest;
      ResponseRoundTrip(p, rest);
    } else {
      var later := EncodeFrames(fs[1..]) + EncodeResponse(p) + rest;
      assert s == EncodeFrame(fs[0]) + later;
      FrameComplete(fs[0], later);
      AnswerRoundTrip(fs[1..], p, rest);
    }
  }

  /** Every stream with an answer is frames, then that answer, then what it leaves. */
  lemma {:induction false} AnswerSplits(s: bytes) returns (fs: seq<Frame>)
    requires Answer(s).Some?
    ensures forall i :: 0 <= i < |fs| ==> Sendable(fs[i])
    ensures var (p, rest) := Answer(s).value;
      && |p| < WORD && (p != [] ==> Answerable(p))
      && s == EncodeFrames(fs) + EncodeResponse(p) + rest
    decreases |s|
  {
    if Complete(s) {
      var more := AnswerSplits(AfterFrame(s));
      var f := FrameSplits(s);
      fs := [f] + more;
      FramesCons(f, more);
      var (p, rest) := Answer(s).value;
      RegroupFour(EncodeFrame(f), EncodeFrames(more), EncodeResponse(p), rest);
    } else {
      fs := [];
      ResponseSplits(s);
    }
  }

  lemma FramesCons(f: Frame, more: seq<Frame>)
    requires Sendable(f) && forall i :: 0 <= i < |more| ==> Sendable(more[i])
    ensures EncodeFrames([f] + more) == EncodeFrame(f) + EncodeFrames(more)
  {
    assert ([f] + more)[1..] == more;
  }

  lemma RegroupFour(a: bytes, b: bytes, c: bytes, d: bytes)
    ensures a + (b + c + d) == (a + b) + c + d
  {
  }

  lemma ResponseSplits(s: bytes)
    requires !Complete(s) && Answer(s).Some?
    ensures var (p, rest) := Answer(s).value;
      && |p| < WORD && (p != [] ==> Answerable(p))
      && s == [] + EncodeResponse(p) + rest
  {
    var (p, rest) := Answer(s).value;
    WordRoundTrip(s[..4]);
    assert |p| == FromBe32(s[..4]) && s == s[..4] + p + rest;
  }

  lemma FrameSplits(s: bytes) returns (f: Frame)
    requires Complete(s)
    ensures Sendable(f) && f.payload == Payload(s) && s == EncodeFrame(f) + AfterFrame(s)
  {
    f := Frame(s[..4] == LOG, Payload(s));
    WordRoundTrip(s[4..8]);
    assert s == s[..4] + s[4..8] + Payload(s) + AfterFrame(s);
  }

  /** Encoded frames, the last possibly cut short, read back as the payloads of the whole ones. */
  lemma {:induction false} FramesRoundTrip(fs: seq<Frame>, cut: bytes, last: Frame)
    requires (forall i :: 0 <= i < |fs| ==> Sendable(fs[i])) && Sendable(last)
    requires cut <= EncodeFrame(last) && cut != EncodeFrame(last)
    ensures var s := EncodeFrames(fs) + cut;
      && Framed(s) && Remainder(s) == cut && |Payloads(s)| == |fs|
      && forall i :: 0 <= i < |fs| ==> Payloads(s)[i] == fs[i].payload
  {
    var s := EncodeFrames(fs) + cut;
    if fs == [] {
      assert s == cut;
      CutFrame(last, cut);
    } else {
      var later := EncodeFrames(fs[1..]) + cut;
      assert s == EncodeFrame(fs[0]) + later;
      FrameComplete(fs[0], later);
      FramesRoundTrip(fs[1..], cut, last);
    }
  }

  lemma CutFrame(f: Frame, cut: bytes)
    requires Sendable(f) && cut <= EncodeFrame(f) && cut != EncodeFrame(f)
    ensures !Complete(cut) && Framed(cut) && Payloads(cut) == []
  {
    var s := EncodeFrame(f);
    var prefix := if f.log then LOG else OBS;
    assert s[..4] == prefix;
    if |cut| < 4 {
      assert cut == prefix[..|cut|];
    } else {
      assert cut[..4] == s[..4];
      if |cut| >= 8 {
        assert cut[4..8] == s[4..8] == Be32(|f.payload|);
        LengthRoundTrip(|f.payload|);
      }
    }
  }

  // ----- streams that arrive in pieces

  /** A frame at the front stays the frame at the front when more bytes arrive. */
  lemma CompleteMore(s: bytes, more: bytes)
    requires Complete(s)
    ensures Complete(s + more) && Payload(s + more) == Payload(s) && AfterFrame(s + more) == AfterFrame(s) + more
  {
    assert (s + more)[..4] == s[..4] && (s + more)[4..8] == s[4..8];
  }

  /** What has arrived of a framed stream is framed. */
  lemma {:induction false} FramedSoFar(s: bytes, more: bytes)
    requires Framed(s + more)
    ensures Framed(s)
    decreases |s|
  {
    if Complete(s) {
      CompleteMore(s, more);
      FramedSoFar(AfterFrame(s), more);
    } else {
      NotCompleteFramed(s, more);
    }
  }

  lemma NotCompleteFramed(s: bytes, more: bytes)
    requires Framed(s + more) && !Complete(s)
    ensures Framed(s)
  {
    var t := s + more;
    if |t| >= 4 {
      assert IsPrefix(t[..4]);
      if |s| >= 4 {
        assert s[..4] == t[..4];
      } else {
        assert s == t[..4][..|s|];
      }
    } else {
      assert s == t[..|s|];
    }
  }

  lemma FramedAfter(s: bytes)
    requires Framed(s) && Complete(s)
    ensures Framed(AfterFrame(s)) && Payloads(s) == [Payload(s)] + Payloads(AfterFrame(s)) && Remainder(s) == Remainder(AfterFrame(s))
  {
  }

  // ----- many responses

  /** One exchange: the frames that arrive before a response, and the response. */
  datatype Exchange = Exchange(frames: seq<Frame>, response: bytes)

  predicate Exchangeable(x: Exchange) {
    Answerable(x.response) && forall i :: 0 <= i < |x.frames| ==> Sendable(x.frames[i]) && x.frames[i].payload != []
  }

  function EncodeExchange(x: Exchange): bytes
    requires Exchangeable(x)
  {
    EncodeFrames(x.frames) + EncodeResponse(x.response)
  }

  function EncodeExchanges(xs: seq<Exchange>): bytes
    requires forall i :: 0 <= i < |xs| ==> Exchangeable(xs[i])
  {
    if xs == [] then []
    else
      assert Exchangeable(xs[0]);
      EncodeExchange(xs[0]) + EncodeExchanges(xs[1..])
  }

  /** The responses that `n` reads in a row return, each starting where the one before it ended. */
  function Answers(s: bytes, n: nat): Option<(seq<bytes>, bytes)>
    decreases n
  {
    if n == 0 then Some(([], s))
    else match Answer(s) {
      case None => None
      case Some((p, rest)) =>
        match Answers(rest, n - 1) {
          case None => None
          case Some((ps, end)) => Some(([p] + ps, end))
        }
    }
  }

  lemma Regroup(a: bytes, b: bytes, c: bytes)
    ensures a + (b + c) == (a + b) + c
  {
  }

  lemma FirstExchange(xs: seq<Exchange>)
    requires xs != [] && forall i :: 0 <= i < |xs| ==> Exchangeable(xs[i])
    ensures EncodeExchanges(xs) == EncodeExchange(xs[0]) + EncodeExchanges(xs[1..])
  {
  }

  /** The answer to the first of several exchanges, and the stream behind it. */
  lemma NextExchange(xs: seq<Exchange>, rest: bytes)
    requires xs != [] && forall i :: 0 <= i < |xs| ==> Exchangeable(xs[i])
    ensures Answer(EncodeExchanges(xs) + rest) == Some((xs[0].response, EncodeExchanges(xs[1..]) + rest))
    ensures NoEmptyFrame(EncodeExchanges(xs) + rest) && xs[0].response != []
  {
    assert Exchangeable(xs[0]);
    FirstExchange(xs);
    Regroup(EncodeExchange(xs[0]), EncodeExchanges(xs[1..]), rest);
    AnswerRoundTrip(xs[0].frames, xs[0].response, EncodeExchanges(xs[1..]) + rest);
  }

  /** Reading stays on frame boundaries: any number of exchanges reads back as their responses. */
  lemma {:induction false} ExchangesRoundTrip(xs: seq<Exchange>, rest: bytes)
    requires forall i :: 0 <= i < |xs| ==> Exchangeable(xs[i])
    ensures Answers(EncodeExchanges(xs) + rest, |xs|).Some?
    ensures Answers(EncodeExchanges(xs) + rest, |xs|).value.1 == rest
    ensures |Answers(EncodeExchanges(xs) + rest, |xs|).value.0| == |xs|
    ensures forall i :: 0 <= i < |xs| ==> Answers(EncodeExchanges(xs) + rest, |xs|).value.0[i] == xs[i].response
  {
    var s := EncodeExchanges(xs) + rest;
    if xs == [] {
      assert s == rest;
    } else {
      NextExchange(xs, rest);
      ExchangesRoundTrip(xs[1..], rest);
    }
  }
}
