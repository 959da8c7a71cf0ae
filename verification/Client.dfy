/**
 * The readers of the wire: the unbuffered one (there are three copies of it) and the buffered
 * streaming client. What a socket delivers, and in which pieces, is arbitrary.
 */
module Client {
  import opened Options
  import opened Wire

  /** What a socket will do next: deliver a piece, or time out once. In the end the peer has closed. */
  datatype Arrival = Piece(data: bytes) | Timeout

  /** All bytes that will still be delivered. */
  function Incoming(arrivals: seq<Arrival>): bytes {
    if arrivals == [] then []
    else (if arrivals[0].Piece? then arrivals[0].data else []) + Incoming(arrivals[1..])
  }

  predicate NonEmptyPieces(arrivals: seq<Arrival>) {
    forall i :: 0 <= i < |arrivals| && arrivals[i].Piece? ==> arrivals[i].data != []
  }

  /** No timeout will happen. */
  predicate Quiet(arrivals: seq<Arrival>) {
    forall i :: 0 <= i < |arrivals| ==> arrivals[i].Piece?
  }

  /** Every piece is a single byte. */
  predicate Trickling(arrivals: seq<Arrival>) {
    forall i :: 0 <= i < |arrivals| ==> arrivals[i].Piece? && |arrivals[i].data| == 1
  }

  class Socket {
    var arrivals: seq<Arrival>

    ghost predicate Valid()
      reads this
    {
      NonEmptyPieces(arrivals)
    }

    /** What a reader can rely on whatever it has read: nothing is lost or invented. */
    twostate predicate Delivered(data: bytes)
      reads this
    {
      && Incoming(old(arrivals)) == data + Incoming(arrivals)
      && (Quiet(old(arrivals)) ==> Quiet(arrivals))
      && (Trickling(old(arrivals)) ==> Trickling(arrivals))
    }

    /** Up to `max` bytes of the next piece; empty when the peer has closed; None on a timeout. */
    method Recv(max: nat) returns (chunk: Option<bytes>)
      requires Valid() && max > 0
      modifies this
      ensures Valid()
      ensures Delivered(chunk.Or([]))
      ensures chunk.None? ==> !Quiet(old(arrivals)) && |arrivals| < |old(arrivals)|
      ensures chunk.Some? ==> |chunk.value| <= max
      ensures chunk == Some([]) <==> old(arrivals) == []
      ensures chunk.Some? && Trickling(old(arrivals)) ==> |chunk.value| <= 1
      ensures |Incoming(arrivals)| + |arrivals| <= |Incoming(old(arrivals))| + |old(arrivals)|
      ensures old(arrivals) != [] ==> |Incoming(arrivals)| + |arrivals| < |Incoming(old(arrivals))| + |old(arrivals)|
    {
      if arrivals == [] {
        return Some([]);
      }
      var first := arrivals[0];
      assert arrivals == [first] + arrivals[1..];
      match first
      case Timeout =>
        arrivals := arrivals[1..];
        chunk := None;
      case Piece(data) =>
        if |data| <= max {
          arrivals := arrivals[1..];
          chunk := Some(data);
        } else {
          chunk := Some(data[..max]);
          ghost var later := arrivals[1..];
          arrivals := [Piece(data[max..])] + arrivals[1..];
          assert arrivals[1..] == later;
          assert data == data[..max] + data[max..];
        }
    }
  }

  // ----- the unbuffered reader

  /** Exactly `size` bytes, or nothing on a timeout or when the peer has closed. */
  method RecvExact(sock: Socket, size: nat) returns (r: bytes)
    requires sock.Valid()
    modifies sock
    ensures sock.Valid()
    ensures r != [] ==> |r| == size
    ensures r != [] || size == 0 ==> sock.Delivered(r)
    ensures Quiet(old(sock.arrivals)) && |Incoming(old(sock.arrivals))| >= size ==> |r| == size && sock.Delivered(r)
    ensures |Incoming(sock.arrivals)| <= |Incoming(old(sock.arrivals))|
  {
    ghost var start := sock.arrivals;
    r := [];
    var remaining: nat := size;
    while remaining > 0
      invariant |r| + remaining == size && sock.Valid()
      invariant Incoming(start) == r + Incoming(sock.arrivals)
      invariant Quiet(start) ==> Quiet(sock.arrivals)
      invariant Trickling(start) ==> Trickling(sock.arrivals)
      decreases |Incoming(sock.arrivals)| + |sock.arrivals|
    {
      var chunk := sock.Recv(remaining);
      Regroup(r, chunk.Or([]), Incoming(sock.arrivals));
      if chunk.None? {
        return [];
      }
      if chunk.value == [] {
        return [];
      }
      r := r + chunk.value;
      remaining := remaining - |chunk.value|;
    }
  }

  /** What `Answer` says about a stream whose first word is a whole control header. */
  lemma SkipFrame(s: bytes, prefix: bytes, word: bytes, payload: bytes, rest: bytes)
    requires IsPrefix(prefix) && |word| == 4 && |payload| == FromBe32(word)
    requires s == prefix + (word + (payload + rest))
    ensures Complete(s) && Payload(s) == payload && AfterFrame(s) == rest && Answer(s) == Answer(rest)
  {
    assert s[..4] == prefix && s[4..8] == word;
    assert s[8..8 + |payload|] == payload && s[8 + |payload|..] == rest;
  }

  lemma ReadAnswer(s: bytes, word: bytes, payload: bytes, rest: bytes)
    requires |word| == 4 && !IsPrefix(word) && |payload| == FromBe32(word)
    requires s == word + (payload + rest)
    ensures Answer(s) == Some((payload, rest)) && !Complete(s)
  {
    assert s[..4] == word;
    assert s[4..4 + |payload|] == payload && s[4 + |payload|..] == rest;
  }

  /** A stream that has an answer has all the bytes that reading it takes. */
  lemma AnswerNeeds(s: bytes)
    requires Answer(s).Some?
    ensures |s| >= 4
    ensures IsPrefix(s[..4]) ==> Complete(s)
    ensures !IsPrefix(s[..4]) ==> |s| >= 4 + FromBe32(s[..4])
  {
  }

  /** Skips the rest of a frame whose prefix has been read; false when it does not arrive. */
  method SkipRest(sock: Socket, ghost prefix: bytes) returns (ok: bool)
    requires sock.Valid() && IsPrefix(prefix)
    modifies sock
    ensures sock.Valid() && |Incoming(sock.arrivals)| <= |Incoming(old(sock.arrivals))|
    ensures ok ==> Answer(prefix + Incoming(old(sock.arrivals))) == Answer(Incoming(sock.arrivals))
    ensures Quiet(old(sock.arrivals)) && Answer(prefix + Incoming(old(sock.arrivals))).Some? ==> ok && Quiet(sock.arrivals)
  {
    ghost var s := prefix + Incoming(sock.arrivals);
    ghost var live := Quiet(sock.arrivals) && Answer(s).Some?;
    assert s[..4] == prefix;
    if live {
      AnswerNeeds(s);
    }
    var word := RecvExact(sock, 4);
    if word == [] {
      return false;
    }
    assert s == prefix + (word + Incoming(sock.arrivals));
    assert s[4..8] == word;
    var n := FromBe32(word);
    var payload: bytes := [];
    if n != 0 {
      payload := RecvExact(sock, n);
      if payload == [] {
        return false;
      }
    }
    SkipFrame(s, prefix, word, payload, Incoming(sock.arrivals));
    ok := true;
  }

  /** The word that starts the next response, behind any number of frames; empty when it does not arrive. */
  method RecvResponseHeader(sock: Socket) returns (word: bytes)
    requires sock.Valid()
    modifies sock
    ensures sock.Valid()
    ensures word != [] ==> |word| == 4 && !IsPrefix(word)
    ensures word != [] ==> Answer(word + Incoming(sock.arrivals)) == Answer(Incoming(old(sock.arrivals)))
    ensures Quiet(old(sock.arrivals)) && Answer(Incoming(old(sock.arrivals))).Some? ==> word != [] && Quiet(sock.arrivals)
  {
    word := FirstWord(sock);
    while word == OBS || word == LOG
      invariant sock.Valid() && (word != [] ==> |word| == 4)
      invariant word != [] ==> Answer(word + Incoming(sock.arrivals)) == Answer(Incoming(old(sock.arrivals)))
      invariant Quiet(old(sock.arrivals)) && Answer(Incoming(old(sock.arrivals))).Some? ==> word != [] && Quiet(sock.arrivals)
      decreases |word| + |Incoming(sock.arrivals)|
    {
      var ok := SkipRest(sock, word);
      if !ok {
        return [];
      }
      word := FirstWord(sock);
    }
  }

  /** The next four bytes. */
  method FirstWord(sock: Socket) returns (word: bytes)
    requires sock.Valid()
    modifies sock
    ensures sock.Valid() && |Incoming(sock.arrivals)| <= |Incoming(old(sock.arrivals))|
    ensures word != [] ==> |word| == 4 && Incoming(old(sock.arrivals)) == word + Incoming(sock.arrivals)
    ensures Quiet(old(sock.arrivals)) && Answer(Incoming(old(sock.arrivals))).Some? ==> word != [] && Quiet(sock.arrivals)
  {
    if Answer(Incoming(sock.arrivals)).Some? {
      AnswerNeeds(Incoming(sock.arrivals));
    }
    word := RecvExact(sock, 4);
  }

  /**
   * One response read without a buffer. Whatever is returned is the answer of the stream, and
   * the socket is left right behind it; without timeouts every non-empty answer is returned.
   */
  method ReadResponse(sock: Socket) returns (r: Option<bytes>)
    requires sock.Valid()
    modifies sock
    ensures sock.Valid()
    ensures r.Some? ==> r.value != [] && Answer(Incoming(old(sock.arrivals))) == Some((r.value, Incoming(sock.arrivals)))
    ensures Quiet(old(sock.arrivals)) ==>
              (r.Some? <==> Answer(Incoming(old(sock.arrivals))).Some? && Answer(Incoming(old(sock.arrivals))).value.0 != [])
  {
    ghost var s := Incoming(sock.arrivals);
    ghost var quiet := Quiet(sock.arrivals);
    var word := RecvResponseHeader(sock);
    if word == [] {
      return None;
    }
    ghost var t := word + Incoming(sock.arrivals);
    assert t[..4] == word;
    var n := FromBe32(word);
    if quiet && Answer(s).Some? {
      AnswerNeeds(t);
    }
    var data := RecvExact(sock, n);
    if data == [] {
      if quiet && Answer(s).Some? {
        ReadAnswer(t, word, [], Incoming(sock.arrivals));
      }
      return None;
    }
    assert t == word + (data + Incoming(sock.arrivals));
    ReadAnswer(t, word, data, Incoming(sock.arrivals));
    r := Some(data);
  }

  // ----- the buffered streaming client

  /** How a command ended. */
  datatype Response =
    | Received(payload: bytes)
    | NoResponse
    | TruncatedFrame
    | TruncatedPayload
    | Incomplete

  /** How a command ends on a stream that is read to its end, one word and one payload at a time. */
  function Ending(s: bytes): Response {
    if |s| < 4 then NoResponse
    else if IsPrefix(s[..4]) then
      if |s| < 8 then TruncatedFrame
      else if !Complete(s) || Payload(s) == [] then TruncatedPayload
      else Ending(AfterFrame(s))
    else
      var n := FromBe32(s[..4]);
      if n == 0 || |s| < 4 + n then Incomplete else Received(s[4..4 + n])
  }

  /** A non-empty answer is received exactly when no frame before it is empty. */
  lemma {:induction false} AnswerEnds(s: bytes)
    ensures Answer(s).Some? && Answer(s).value.0 != [] ==> (Ending(s).Received? <==> NoEmptyFrame(s))
    ensures Ending(s).Received? ==> Answer(s).Some? && Answer(s).value.0 == Ending(s).payload
    decreases |s|
  {
    if Complete(s) {
      AnswerEnds(AfterFrame(s));
    }
  }

  /** Behind non-empty frames the command ends as it ends on what follows them. */
  lemma {:induction false} EndsBehindFrames(fs: seq<Frame>, rest: bytes)
    requires forall i :: 0 <= i < |fs| ==> Sendable(fs[i]) && fs[i].payload != []
    ensures Ending(EncodeFrames(fs) + rest) == Ending(rest)
  {
    if fs == [] {
      assert EncodeFrames(fs) + rest == rest;
    } else {
      var later := EncodeFrames(fs[1..]) + rest;
      assert EncodeFrames(fs) + rest == EncodeFrame(fs[0]) + later;
      FrameComplete(fs[0], later);
      EndsBehindFrames(fs[1..], rest);
    }
  }

  /** Where a frame is cut short decides how the command fails. */
  lemma CutFrameEnds(fs: seq<Frame>, last: Frame, cut: bytes)
    requires forall i :: 0 <= i < |fs| ==> Sendable(fs[i]) && fs[i].payload != []
    requires Sendable(last) && cut <= EncodeFrame(last) && cut != EncodeFrame(last)
    ensures Ending(EncodeFrames(fs) + cut)
         == if |cut| < 4 then NoResponse else if |cut| < 8 then TruncatedFrame else TruncatedPayload
  {
    EndsBehindFrames(fs, cut);
    CutFrame(last, cut);
  }

  /** So does where the response is cut short; a whole one is received. */
  lemma CutResponseEnds(fs: seq<Frame>, p: bytes, cut: bytes)
    requires forall i :: 0 <= i < |fs| ==> Sendable(fs[i]) && fs[i].payload != []
    requires Answerable(p) && cut <= EncodeResponse(p)
    ensures Ending(EncodeFrames(fs) + cut)
         == if |cut| < 4 then NoResponse else if cut != EncodeResponse(p) then Incomplete else Received(p)
  {
    EndsBehindFrames(fs, cut);
    LengthRoundTrip(|p|);
    if |cut| >= 4 {
      assert cut[..4] == EncodeResponse(p)[..4] == Be32(|p|);
      assert |cut| == 4 + |p| ==> cut == EncodeResponse(p) && cut[4..4 + |p|] == p;
    }
  }

  /** What one payload decodes to; only a JSON object or another non-null value is an observation. */
  datatype Decoded = Observation | Null | BadJson | BadText

  /** What one extraction yields. */
  datatype Extracted = Yielded(payload: bytes) | Nothing | Crashed

  predicate OccursAt(hay: bytes, needle: bytes, i: int) {
    0 <= i && i + |needle| <= |hay| && hay[i..i + |needle|] == needle
  }

  predicate PrefixAt(s: bytes, i: int) {
    OccursAt(s, OBS, i) || OccursAt(s, LOG, i)
  }

  /** No prefix begins before the `n`-th byte. */
  predicate NoPrefixBefore(s: bytes, n: nat) {
    forall i :: 0 <= i < n ==> !PrefixAt(s, i)
  }

  /** The stream is one of frames behind `skip` bytes in which no prefix begins. */
  ghost predicate Clear(s: bytes, skip: nat) {
    skip <= |s| && NoPrefixBefore(s, skip) && Framed(s[skip..])
  }

  /** A whole frame is in the buffer, behind `skip` bytes of garbage. */
  predicate FrameWaits(buffer: bytes, skip: nat) {
    skip <= |buffer| && Complete(buffer[skip..])
  }

  /** What an extraction may make of a buffer that holds `frames` behind garbage. */
  ghost predicate TakesFrame(decode: bytes -> Decoded, before: bytes, frames: bytes, r: Extracted, after: bytes) {
    && (Complete(frames) ==>
          && after == AfterFrame(frames)
          && r == (match decode(Payload(frames))
                   case Observation => Yielded(Payload(frames))
                   case BadText => Crashed
                   case _ => Nothing))
    && (Framed(frames) && !Complete(frames) ==> r == Nothing && (after == before || after == frames))
  }

  lemma NoFrameWithoutPrefix(s: bytes, i: nat)
    requires i <= |s| && NoPrefixBefore(s, |s|)
    ensures !Complete(s[i..])
  {
    if |s[i..]| >= 4 {
      assert !PrefixAt(s, i);
      assert s[i..][..4] == s[i..i + 4];
    }
  }

  /** Behind less garbage than there is before the first prefix, no frame can begin. */
  lemma FirstPrefixOnly(s: bytes, at: nat, i: nat)
    requires PrefixAt(s, at) && NoPrefixBefore(s, at) && i <= |s| && NoPrefixBefore(s, i)
    ensures i == at || (i < at && !Complete(s[i..]) && !Framed(s[i..]))
  {
    assert i <= at;
    if i < at {
      assert |s[i..]| >= 4 && s[i..][..4] == s[i..i + 4];
      assert !PrefixAt(s, i);
    }
  }

  /** What of a clear stream is in the buffer. */
  lemma BufferIsClear(buffer: bytes, incoming: bytes, skip: nat)
    requires Clear(buffer + incoming, skip)
    ensures skip <= |buffer| ==> NoPrefixBefore(buffer, skip) && Framed(buffer[skip..])
    ensures skip > |buffer| ==> NoPrefixBefore(buffer, |buffer|)
    ensures FrameWaits(buffer, skip) ==>
              var s := (buffer + incoming)[skip..];
              Complete(s) && Payload(s) == Payload(buffer[skip..]) && AfterFrame(s) == AfterFrame(buffer[skip..]) + incoming
  {
    var s := buffer + incoming;
    forall i | 0 <= i < skip ensures !PrefixAt(buffer, i) {
      assert !PrefixAt(s, i);
      assert i + 4 <= |buffer| ==> buffer[i..i + 4] == s[i..i + 4];
    }
    if skip <= |buffer| {
      assert s[skip..] == buffer[skip..] + incoming;
      FramedSoFar(buffer[skip..], incoming);
      if Complete(buffer[skip..]) {
        CompleteMore(buffer[skip..], incoming);
      }
    }
  }

  /** How many of the payloads are no text at all. */
  function BadTexts(payloads: seq<bytes>, decode: bytes -> Decoded): nat {
    if payloads == [] then 0
    else (if decode(payloads[0]).BadText? then 1 else 0) + BadTexts(payloads[1..], decode)
  }

  /** The first place where `needle` occurs in `hay`, or -1. */
  method Find(hay: bytes, needle: bytes) returns (at: int)
    ensures at == -1 || OccursAt(hay, needle, at)
    ensures forall i :: OccursAt(hay, needle, i) ==> 0 <= at <= i
  {
    var i := 0;
    while i + |needle| <= |hay|
      invariant 0 <= i
      invariant forall j :: OccursAt(hay, needle, j) ==> i <= j
    {
      if hay[i..i + |needle|] == needle {
        return i;
      }
      i := i + 1;
    }
    return -1;
  }

  /** The observations among the payloads of a stream. */
  function Observations(payloads: seq<bytes>, decode: bytes -> Decoded): seq<bytes> {
    if payloads == [] then []
    else (if decode(payloads[0]).Observation? then [payloads[0]] else []) + Observations(payloads[1..], decode)
  }

  /** Every payload decodes to an observation. */
  predicate AllObservations(payloads: seq<bytes>, decode: bytes -> Decoded) {
    forall i :: 0 <= i < |payloads| ==> decode(payloads[i]).Observation?
  }

  lemma {:induction false} AllObservationsKept(payloads: seq<bytes>, decode: bytes -> Decoded)
    requires AllObservations(payloads, decode)
    ensures Observations(payloads, decode) == payloads
  {
    if payloads != [] {
      AllObservationsKept(payloads[1..], decode);
    }
  }

  class StreamingClient {
    var buffer: bytes
    const sock: Socket

    constructor (sock: Socket)
      ensures this.sock == sock && buffer == []
    {
      this.sock := sock;
      buffer := [];
    }

    /** Everything received and not consumed, and everything still to come. */
    ghost function Stream(): bytes
      reads this, sock
    {
      buffer + Incoming(sock.arrivals)
    }

    /** Exactly `size` bytes, from the buffer first. A failure loses nothing. */
    method RecvExact(size: nat) returns (r: bytes)
      requires sock.Valid()
      modifies this, sock
      ensures sock.Valid()
      ensures r != [] ==> |r| == size
      ensures old(Stream()) == r + Stream()
      ensures Quiet(old(sock.arrivals)) ==> Quiet(sock.arrivals)
      ensures Quiet(old(sock.arrivals)) && |old(Stream())| >= size ==> |r| == size
      ensures Trickling(old(sock.arrivals)) ==> Trickling(sock.arrivals)
      ensures Trickling(old(sock.arrivals)) && |old(buffer)| <= size && |r| == size ==> buffer == []
    {
      while |buffer| < size
        invariant sock.Valid() && Stream() == old(Stream())
        invariant Quiet(old(sock.arrivals)) ==> Quiet(sock.arrivals)
        invariant Trickling(old(sock.arrivals)) ==> Trickling(sock.arrivals)
        invariant Trickling(old(sock.arrivals)) && |old(buffer)| <= size ==> |buffer| <= size
        decreases |Incoming(sock.arrivals)| + |sock.arrivals|
      {
        var chunk := sock.Recv(4096);
        Regroup(buffer, chunk.Or([]), Incoming(sock.arrivals));
        if chunk.None? || chunk.value == [] {
          return [];
        }
        buffer := buffer + chunk.value;
      }
      Regroup(buffer[..size], buffer[size..], Incoming(sock.arrivals));
      assert buffer == buffer[..size] + buffer[size..];
      r := buffer[..size];
      buffer := buffer[size..];
    }

    /** Removes whole frames from the front of the buffer, never waiting for more. */
    method DrainFrames()
      modifies this`buffer
      ensures Answer(Stream()) == Answer(old(Stream()))
      ensures NoEmptyFrame(old(Stream())) ==> NoEmptyFrame(Stream()) && Ending(Stream()) == Ending(old(Stream()))
      ensures buffer == Remainder(old(buffer)) && |buffer| <= |old(buffer)|
    {
      while |buffer| >= 4 && (buffer[..4] == OBS || buffer[..4] == LOG)
        invariant Answer(Stream()) == Answer(old(Stream()))
        invariant NoEmptyFrame(old(Stream())) ==> NoEmptyFrame(Stream()) && Ending(Stream()) == Ending(old(Stream()))
        invariant Remainder(buffer) == Remainder(old(buffer)) && |buffer| <= |old(buffer)|
        decreases |buffer|
      {
        if |buffer| < 8 {
          break;
        }
        var total := 8 + FromBe32(buffer[4..8]);
        if |buffer| < total {
          break;
        }
        CompleteMore(buffer, Incoming(sock.arrivals));
        buffer := buffer[total..];
      }
    }

    /** Skips the rest of a frame whose prefix has been read; None when the frame was skipped. */
    method SkipRest(ghost prefix: bytes) returns (failure: Option<Response>)
      requires sock.Valid() && IsPrefix(prefix)
      modifies this, sock
      ensures sock.Valid() && |Stream()| <= |old(Stream())|
      ensures failure.Some? ==> !failure.value.Received?
      ensures failure.None? ==> Answer(prefix + old(Stream())) == Answer(Stream())
      ensures failure.None? && NoEmptyFrame(prefix + old(Stream())) ==> NoEmptyFrame(Stream())
      ensures Quiet(old(sock.arrivals)) ==>
                && Quiet(sock.arrivals)
                && Ending(prefix + old(Stream())) == if failure.Some? then failure.value else Ending(Stream())
      ensures Trickling(old(sock.arrivals)) && old(buffer) == [] && failure.None? ==>
                Trickling(sock.arrivals) && buffer == []
    {
      ghost var s := prefix + Stream();
      assert s[..4] == prefix;
      var word := RecvExact(4);
      if word == [] {
        return Some(TruncatedFrame);
      }
      assert s == prefix + (word + Stream());
      assert s[4..8] == word;
      var payload := RecvExact(FromBe32(word));
      if payload == [] {
        return Some(TruncatedPayload);
      }
      SkipFrame(s, prefix, word, payload, Stream());
      failure := None;
    }

    /** Drains the buffer and reads the next four bytes. */
    method NextWord() returns (word: bytes)
      requires sock.Valid()
      modifies this, sock
      ensures sock.Valid() && |word| + |Stream()| <= |old(Stream())|
      ensures word != [] ==> |word| == 4
      ensures Answer(word + Stream()) == Answer(old(Stream()))
      ensures NoEmptyFrame(old(Stream())) ==>
                NoEmptyFrame(word + Stream()) && Ending(word + Stream()) == Ending(old(Stream()))
      ensures Quiet(old(sock.arrivals)) ==> Quiet(sock.arrivals) && (word == [] ==> |word + Stream()| < 4)
      ensures old(buffer) == [] ==> word + Stream() == old(Stream())
      ensures Trickling(old(sock.arrivals)) && old(buffer) == [] && word != [] ==> Trickling(sock.arrivals) && buffer == []
    {
      DrainFrames();
      ghost var s := Stream();
      word := RecvExact(4);
      assert word + Stream() == s;
    }

    /** Reads past any number of frames to the word that starts the response, or fails. */
    method ResponseWord() returns (word: bytes, failure: Option<Response>)
      requires sock.Valid()
      modifies this, sock
      ensures sock.Valid()
      ensures failure.Some? ==> !failure.value.Received?
      ensures failure.None? ==> |word| == 4 && !IsPrefix(word) && Answer(word + Stream()) == Answer(old(Stream()))
      ensures Quiet(old(sock.arrivals)) && Plain(old(sock.arrivals), old(buffer), old(Stream())) ==>
                && Quiet(sock.arrivals)
                && Ending(old(Stream())) == if failure.Some? then failure.value else Ending(word + Stream())
    {
      ghost var start := Stream();
      ghost var exact := Quiet(sock.arrivals) && Plain(sock.arrivals, buffer, start);
      word := NextWord();
      while word == OBS || word == LOG
        invariant sock.Valid() && (word != [] ==> |word| == 4)
        invariant Answer(word + Stream()) == Answer(start)
        invariant exact ==> Quiet(sock.arrivals) && Ending(word + Stream()) == Ending(start)
        invariant exact && word != [] ==> Plain(sock.arrivals, buffer, word + Stream())
        invariant exact && word == [] ==> |word + Stream()| < 4
        decreases |word| + |Stream()|
      {
        failure := SkipRest(word);
        if failure.Some? {
          return;
        }
        word := NextWord();
      }
      failure := if word == [] then Some(NoResponse) else None;
    }

    /**
     * One response read through the buffer, as `send_command` does after sending. Whatever is
     * returned is the answer of the stream, and buffer and socket together are left right behind
     * it. Without timeouts, and with no empty frame or byte by byte, how the command ends is
     * determined by the stream, however it is cut into pieces: a non-empty answer is returned
     * unless a frame before it is empty, and each failure says where the stream broke off.
     */
    method ReadResponse() returns (r: Response)
      requires sock.Valid()
      modifies this, sock
      ensures sock.Valid()
      ensures r.Received? ==> r.payload != [] && Answer(old(Stream())) == Some((r.payload, Stream()))
      ensures Quiet(old(sock.arrivals)) && Plain(old(sock.arrivals), old(buffer), old(Stream())) ==>
                Quiet(sock.arrivals) && r == Ending(old(Stream()))
      ensures Answered(old(sock.arrivals), old(Stream())) && NoEmptyFrame(old(Stream())) ==> r.Received?
      ensures Answered(old(sock.arrivals), old(Stream())) && Trickling(old(sock.arrivals)) && old(buffer) == [] ==>
                (r.Received? <==> NoEmptyFrame(old(Stream())))
    {
      AnswerEnds(Stream());
      var word, failure := ResponseWord();
      if failure.Some? {
        return failure.value;
      }
      ghost var t := word + Stream();
      assert t[..4] == word && !Complete(t);
      var data := RecvExact(FromBe32(word));
      ghost var rest := Stream();
      assert t == word + (data + rest);
      if data == [] {
        return Incomplete;
      }
      ReadAnswer(t, word, data, rest);
      assert t[4..4 + |data|] == data;
      r := Received(data);
    }

    /**
     * One exchange after the other over the same connection: on a stream of exchanges without
     * empty frames every response is returned, however the stream is cut into pieces, and the
     * client is left right behind the last one.
     */
    method ReadResponses(ghost xs: seq<Exchange>, ghost rest: bytes, n: nat) returns (responses: seq<bytes>)
      requires sock.Valid() && Quiet(sock.arrivals) && n == |xs|
      requires forall i :: 0 <= i < |xs| ==> Exchangeable(xs[i])
      requires Stream() == EncodeExchanges(xs) + rest
      modifies this, sock
      ensures sock.Valid() && Quiet(sock.arrivals) && Stream() == rest
      ensures |responses| == |xs| && forall i :: 0 <= i < |xs| ==> responses[i] == xs[i].response
    {
      responses := [];
      for i := 0 to n
        invariant sock.Valid() && Quiet(sock.arrivals) && Stream() == EncodeExchanges(xs[i..]) + rest
        invariant |responses| == i && forall j :: 0 <= j < i ==> responses[j] == xs[j].response
      {
        NextExchange(xs[i..], rest);
        assert xs[i..][0] == xs[i] && xs[i..][1..] == xs[i + 1..];
        var r := ReadResponse();
        responses := responses + [r.payload];
      }
      assert xs[n..] == [];
    }

    /** Drops what comes before the first prefix in the buffer; false when there is no prefix. */
    method Resynchronize() returns (found: bool)
      modifies this`buffer
      ensures found ==>
                && IsSuffix(buffer, old(buffer))
                && PrefixAt(old(buffer), |old(buffer)| - |buffer|)
                && NoPrefixBefore(old(buffer), |old(buffer)| - |buffer|)
      ensures !found ==> buffer == old(buffer) && NoPrefixBefore(buffer, |buffer|)
    {
      if |buffer| >= 4 && buffer[..4] == OBS {
        return true;
      } else if |buffer| >= 4 && buffer[..4] == LOG {
        return true;
      }
      var obs := Find(buffer, OBS);
      var log := Find(buffer, LOG);
      if obs == -1 && log == -1 {
        return false;
      }
      if obs == -1 {
        buffer := buffer[log..];
      } else if log == -1 || obs < log {
        buffer := buffer[obs..];
      } else {
        buffer := buffer[log..];
      }
      found := true;
    }

    /**
     * Takes one frame out of the buffer, if a whole one is there; a payload that decodes to
     * nothing is consumed without a result. Bytes before the first prefix make no difference:
     * where `i` of them are garbage, the frame is the one behind them.
     */
    method ExtractObservation(decode: bytes -> Decoded) returns (r: Extracted)
      modifies this`buffer
      ensures IsSuffix(buffer, old(buffer))
      ensures r.Yielded? ==> |buffer| < |old(buffer)|
      ensures forall i :: 0 <= i <= |old(buffer)| && NoPrefixBefore(old(buffer), i) ==>
                TakesFrame(decode, old(buffer), old(buffer)[i..], r, buffer)
      ensures NoPrefixBefore(old(buffer), |old(buffer)|) ==> r == Nothing && buffer == old(buffer)
    {
      ghost var start := buffer;
      var found := Resynchronize();
      if !found {
        forall i | 0 <= i <= |start| && NoPrefixBefore(start, i)
          ensures TakesFrame(decode, start, start[i..], Nothing, start)
        {
          NoFrameWithoutPrefix(start, i);
        }
        return Nothing;
      }
      ghost var at, behind := |start| - |buffer|, buffer;
      forall i | 0 <= i <= |start| && NoPrefixBefore(start, i)
        ensures i == at || (i < at && !Complete(start[i..]) && !Framed(start[i..]))
      {
        FirstPrefixOnly(start, at, i);
      }
      if |buffer| < 8 {
        return Nothing;
      }
      var total := 8 + FromBe32(buffer[4..8]);
      if |buffer| < total {
        return Nothing;
      }
      var data := buffer[8..total];
      buffer := buffer[total..];
      match decode(data)
      case Observation => r := Yielded(data);
      case BadText => r := Crashed;
      case Null => r := Nothing;
      case BadJson => r := Nothing;
    }

    /**
     * Hands out the observations of the whole frames in the buffer, until one yields nothing. The
     * stream is one of frames behind `skip` bytes of garbage, of which `left` remain.
     */
    method DrainObservations(decode: bytes -> Decoded, ghost skip: nat)
        returns (handed: seq<bytes>, crashed: bool, ghost left: nat)
      requires Clear(Stream(), skip)
      modifies this`buffer
      ensures Drained(decode, old(Stream())[skip..], handed, Stream(), left, crashed)
      ensures AllObservations(Payloads(old(Stream())[skip..]), decode) ==> !crashed && !FrameWaits(buffer, left)
    {
      handed, crashed, left := [], false, skip;
      ghost var start := Stream()[skip..];
      while true
        invariant Drained(decode, start, handed, Stream(), left, false)
        decreases |buffer|
      {
        ghost var before := buffer;
        var r := ExtractObservation(decode);
        left := DrainStep(decode, start, handed, before, Incoming(sock.arrivals), left, r, buffer);
        match r
        case Yielded(data) =>
          handed := handed + [data];
        case Nothing =>
          return;
        case Crashed =>
          crashed := true;
          return;
      }
    }

    /**
     * Hands out observations until the peer has closed the stream or a payload is no text. On a
     * stream of frames behind `skip` bytes of garbage nothing is lost and nothing reordered, however
     * it is cut into pieces: what was handed out, followed by the observations that are still to
     * come, are all observations of the stream. When every payload is an observation, all of them
     * are handed out and only the cut frame stays behind; no whole frame may have been waiting in
     * the buffer if nothing arrives. `left` counts the garbage that remains.
     */
    method StreamObservations(decode: bytes -> Decoded, ghost skip: nat)
        returns (handed: seq<bytes>, crashed: bool, ghost left: nat)
      requires sock.Valid() && Clear(Stream(), skip)
      modifies this, sock
      ensures !crashed ==> sock.arrivals == [] && Stream() == buffer
      ensures left <= |Stream()|
      ensures BadTexts(Payloads(old(Stream())[skip..]), decode)
           == BadTexts(Payloads(Stream()[left..]), decode) + if crashed then 1 else 0
      ensures Observations(Payloads(old(Stream())[skip..]), decode)
           == handed + Observations(Payloads(Stream()[left..]), decode)
      ensures AllObservations(Payloads(old(Stream())[skip..]), decode) && !FrameWaits(old(buffer), skip) ==>
                && !crashed && handed == Payloads(old(Stream())[skip..])
                && buffer[left..] == Remainder(old(Stream())[skip..])
    {
      handed, crashed, left := [], false, skip;
      ghost var start := Stream()[skip..];
      ghost var fine := AllObservations(Payloads(start), decode) && !FrameWaits(buffer, skip);
      while true
        invariant sock.Valid() && Drained(decode, start, handed, Stream(), left, false)
        invariant fine ==> !FrameWaits(buffer, left)
        decreases |Incoming(sock.arrivals)| + |sock.arrivals|
      {
        ghost var s := Stream()[left..];
        var chunk := Receive();
        if chunk.None? {
          continue;
        }
        if chunk.value == [] {
          if fine {
            NothingLeft(decode, start, handed, Stream(), left);
          }
          return;
        }
        var more, failed;
        more, failed, left := DrainObservations(decode, left);
        DrainedTwice(decode, start, handed, s, more, Stream(), left, failed);
        handed := handed + more;
        if failed {
          crashed := true;
          return;
        }
      }
    }

    /** Appends the next piece to the buffer. */
    method Receive() returns (chunk: Option<bytes>)
      requires sock.Valid()
      modifies this`buffer, sock
      ensures sock.Valid() && Stream() == old(Stream())
      ensures chunk == Some([]) ==> sock.arrivals == [] && Stream() == buffer
      ensures chunk.None? || chunk.value == [] ==> buffer == old(buffer)
      ensures chunk != Some([]) ==>
                |Incoming(sock.arrivals)| + |sock.arrivals| < |Incoming(old(sock.arrivals))| + |old(sock.arrivals)|
    {
      chunk := sock.Recv(4096);
      if chunk.Some? {
        buffer := buffer + chunk.value;
      }
    }
  }

  /**
   * Between the framed streams `start` and `now`, exactly the observations `handed` were taken out;
   * frames without an observation may have been taken out as well.
   */
  ghost predicate Account(start: bytes, handed: seq<bytes>, now: bytes, decode: bytes -> Decoded) {
    && Framed(now)
    && Observations(Payloads(start), decode) == handed + Observations(Payloads(now), decode)
    && (AllObservations(Payloads(start), decode) ==> AllObservations(Payloads(now), decode))
    && Remainder(now) == Remainder(start)
  }

  /** Of the frames `start`, `handed` were handed out and those behind `left` bytes of `now` are still to come; a crash has taken out one that is no text. */
  ghost predicate Drained(
    decode: bytes -> Decoded, start: bytes, handed: seq<bytes>, now: bytes, left: nat, crashed: bool)
  {
    && Clear(now, left) && Account(start, handed, now[left..], decode)
    && BadTexts(Payloads(start), decode) == BadTexts(Payloads(now[left..]), decode) + if crashed then 1 else 0
  }

  /** One extraction, whatever is in the buffer and whatever is still to come. */
  lemma DrainStep(decode: bytes -> Decoded, start: bytes, handed: seq<bytes>, before: bytes, incoming: bytes, left: nat,
                  r: Extracted, after: bytes) returns (now: nat)
    requires Drained(decode, start, handed, before + incoming, left, false)
    requires left <= |before| && NoPrefixBefore(before, left) ==> TakesFrame(decode, before, before[left..], r, after)
    requires NoPrefixBefore(before, |before|) ==> r == Nothing && after == before
    ensures Drained(decode, start, if r.Yielded? then handed + [r.payload] else handed, after + incoming, now, r.Crashed?)
    ensures AllObservations(Payloads(start), decode) ==> !r.Crashed? && (r.Nothing? ==> !FrameWaits(after, now))
  {
    BufferIsClear(before, incoming, left);
    if FrameWaits(before, left) {
      now := 0;
      FrameStep(decode, start, handed, (before + incoming)[left..], r);
      assert (after + incoming)[0..] == after + incoming;
    } else if left <= |before| && after == before[left..] {
      now := 0;
      assert after + incoming == (before + incoming)[left..] == (after + incoming)[0..];
      assert after[0..] == after;
    } else {
      now := left;
    }
  }

  /** The frame at the front of the stream, taken out. */
  lemma FrameStep(decode: bytes -> Decoded, start: bytes, handed: seq<bytes>, now: bytes, r: Extracted)
    requires Account(start, handed, now, decode) && Complete(now)
    requires BadTexts(Payloads(start), decode) == BadTexts(Payloads(now), decode)
    requires r == (match decode(Payload(now))
                   case Observation => Yielded(Payload(now))
                   case BadText => Crashed
                   case _ => Nothing)
    ensures Account(start, if r.Yielded? then handed + [r.payload] else handed, AfterFrame(now), decode)
    ensures BadTexts(Payloads(start), decode) == BadTexts(Payloads(AfterFrame(now)), decode) + if r.Crashed? then 1 else 0
    ensures AllObservations(Payloads(start), decode) ==> r.Yielded?
  {
    AccountStep(start, handed, now, decode);
    var ps, later := Payloads(now), Payloads(AfterFrame(now));
    assert ps == [Payload(now)] + later && ps[1..] == later;
  }

  lemma DrainedTwice(decode: bytes -> Decoded, start: bytes, handed: seq<bytes>, mid: bytes, more: seq<bytes>, now: bytes, left: nat, crashed: bool)
    requires Account(start, handed, mid, decode) && Drained(decode, mid, more, now, left, crashed)
    requires BadTexts(Payloads(start), decode) == BadTexts(Payloads(mid), decode)
    ensures Drained(decode, start, handed + more, now, left, crashed)
  {
    AccountTwice(start, handed, mid, more, now[left..], decode);
  }

  lemma NothingLeft(decode: bytes -> Decoded, start: bytes, handed: seq<bytes>, now: bytes, left: nat)
    requires Drained(decode, start, handed, now, left, false) && AllObservations(Payloads(start), decode)
    requires !FrameWaits(now, left)
    ensures handed == Payloads(start) && now[left..] == Remainder(start)
  {
    AllObservationsKept(Payloads(start), decode);
    assert Payloads(now[left..]) == [] && Observations([], decode) == [];
  }

  lemma ObservationsCons(p: bytes, qs: seq<bytes>, decode: bytes -> Decoded)
    ensures Observations([p] + qs, decode) == (if decode(p).Observation? then [p] else []) + Observations(qs, decode)
    ensures AllObservations([p] + qs, decode) <==> decode(p).Observation? && AllObservations(qs, decode)
  {
    var ps := [p] + qs;
    assert ps[0] == p && ps[1..] == qs;
    if AllObservations(ps, decode) {
      assert decode(ps[0]).Observation?;
      forall i | 0 <= i < |qs| ensures decode(qs[i]).Observation? {
        assert ps[i + 1] == qs[i];
      }
    }
  }

  lemma AccountStep(start: bytes, handed: seq<bytes>, now: bytes, decode: bytes -> Decoded)
    requires Account(start, handed, now, decode) && Complete(now)
    ensures Account(start, if decode(Payload(now)).Observation? then handed + [Payload(now)] else handed, AfterFrame(now), decode)
    ensures AllObservations(Payloads(start), decode) ==> decode(Payload(now)).Observation?
  {
    FramedAfter(now);
    ObservationsCons(Payload(now), Payloads(AfterFrame(now)), decode);
  }

  lemma AccountTwice(a: bytes, h: seq<bytes>, b: bytes, k: seq<bytes>, c: bytes, decode: bytes -> Decoded)
    requires Account(a, h, b, decode) && Account(b, k, c, decode)
    ensures Account(a, h + k, c, decode)
  {
    assert h + (k + Observations(Payloads(c), decode)) == h + k + Observations(Payloads(c), decode);
  }

  predicate IsSuffix(s: bytes, t: bytes) {
    |s| <= |t| && s == t[|t| - |s|..]
  }

  /** The stream in single bytes. */
  function Trickle(s: bytes): (arrivals: seq<Arrival>)
    ensures |arrivals| == |s| && forall i :: 0 <= i < |s| ==> arrivals[i] == Piece([s[i]])
  {
    seq(|s|, i requires 0 <= i < |s| => Piece([s[i]]))
  }

  lemma {:induction false} TrickleDelivers(s: bytes)
    ensures Incoming(Trickle(s)) == s
    ensures Trickling(Trickle(s)) && Quiet(Trickle(s)) && NonEmptyPieces(Trickle(s))
  {
    if s != [] {
      TrickleDelivers(s[1..]);
      assert Trickle(s)[1..] == Trickle(s[1..]);
      assert s == [s[0]] + s[1..];
    }
  }

  /** An empty control frame and a response of one byte, byte by byte: the buffered client must fail on it. */
  lemma EmptyFrameStream(b: byte)
    ensures var s := EncodeFrames([Frame(false, [])]) + EncodeResponse([b]) + [];
      && Incoming(Trickle(s)) == s && Trickling(Trickle(s)) && NonEmptyPieces(Trickle(s))
      && Answered(Trickle(s), s) && Answer(s) == Some(([b], []))
      && !NoEmptyFrame(s)
  {
    var s := EncodeFrames([Frame(false, [])]) + EncodeResponse([b]) + [];
    TrickleDelivers(s);
    assert Be32(1)[3] == 1 && Be32(1)[0] == 0;
    AnswerRoundTrip([Frame(false, [])], [b], []);
  }

  /** No frame is empty, or nothing is buffered and the bytes come one by one. */
  ghost predicate Plain(arrivals: seq<Arrival>, buffer: bytes, stream: bytes) {
    NoEmptyFrame(stream) || (Trickling(arrivals) && buffer == [])
  }

  /** The stream has a non-empty answer and no timeout will happen. */
  ghost predicate Answered(arrivals: seq<Arrival>, stream: bytes) {
    Quiet(arrivals) && Answer(stream).Some? && Answer(stream).value.0 != []
  }
}
