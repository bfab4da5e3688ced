/** Splitting a byte stream into frames, and why the splits of the stream do not matter. */
module Framing {
  import opened Bytes
  import opened Protocol

  datatype Frame = Frame(header: Header, body: bytes)

  /** FrameReader::parse on the readable bytes; `rest` is what stays in the buffer. */
  datatype Verdict = NeedMore | ProtocolError | Complete(frame: Frame, rest: bytes)

  /** setMaxFrameSize clamps to the header size. */
  type Limit = n: nat | HEADER_SIZE <= n witness HEADER_SIZE

  function MaxBody(limit: Limit): nat {
    if limit - HEADER_SIZE < MAX_BODY_LEN then limit - HEADER_SIZE else MAX_BODY_LEN
  }

  function ParseFrame(limit: Limit, s: bytes): Verdict {
    if |s| < HEADER_SIZE then NeedMore
    else
      match DecodeHeader(s)
      case None => ProtocolError
      case Some(h) =>
        if h.bodyLen > MaxBody(limit) then ProtocolError
        else if |s| < HEADER_SIZE + h.bodyLen then NeedMore
        else Complete(Frame(h, s[HEADER_SIZE..HEADER_SIZE + h.bodyLen]), s[HEADER_SIZE + h.bodyLen..])
  }

  function EncodeFrame(f: Frame): (s: bytes)
    ensures |s| == HEADER_SIZE + |f.body|
  {
    EncodeHeader(f.header) + f.body
  }

  predicate Sendable(limit: Limit, f: Frame) {
    f.header.magic == MAGIC && f.header.bodyLen == |f.body| <= MaxBody(limit)
  }

  /**
   * The verdict, told from the bytes: 16 bytes are needed, the first two must be
   * the magic, the body may have 16 MiB and the frame the limit, and then the
   * whole body is needed.
   */
  lemma VerdictFromBytes(limit: Limit, s: bytes)
    ensures var v := ParseFrame(limit, s);
      if |s| < 16 then v == NeedMore
      else
        var n := LittleEndian(s[12..16]);
        if s[0] != 0x52 || s[1] != 0x4E || n > 16 * 1024 * 1024 || 16 + n > limit then v == ProtocolError
        else if |s| < 16 + n then v == NeedMore
        else v.Complete? && Layout(v.frame.header, s) && v.frame.body == s[16..16 + n] && v.rest == s[16 + n..]
  {
    if |s| >= 16 {
      if s[0] == 0x52 && s[1] == 0x4E {
        assert s[..2] == [0x52, 0x4E] && GetU16(s[..2]) == 0x4E52;
      }
      U32IsLittleEndian(s[12..16]);
      if DecodeHeader(s).Some? {
        DecodedLayout(s, DecodeHeader(s).value);
      }
    }
  }

  /** An encoded frame is read back exactly, whatever follows it. */
  lemma FrameRoundTrip(limit: Limit, f: Frame, rest: bytes)
    requires Sendable(limit, f)
    ensures ParseFrame(limit, EncodeFrame(f) + rest) == Complete(f, rest)
  {
    var s := EncodeFrame(f) + rest;
    assert s == EncodeHeader(f.header) + (f.body + rest);
    HeaderRoundTrip(f.header, f.body + rest);
    var end := HEADER_SIZE + |f.body|;
    assert s[HEADER_SIZE..end] == f.body && s[end..] == rest;
  }

  /** A frame that is read was on the wire, up to its reserved byte, and is within the limit. */
  lemma CompleteIsSendable(limit: Limit, s: bytes)
    requires ParseFrame(limit, s).Complete?
    ensures var v := ParseFrame(limit, s);
      Sendable(limit, v.frame) && |s| >= 16 && s[7 := 0] == EncodeFrame(v.frame) + v.rest
  {
    var v := ParseFrame(limit, s);
    HeaderReencodes(s);
    assert s[7 := 0] == s[..16][7 := 0] + v.frame.body + v.rest;
  }

  /** kOk and kProtocolError do not depend on bytes that arrive later. */
  lemma VerdictStable(limit: Limit, s: bytes, t: bytes)
    requires ParseFrame(limit, s) != NeedMore
    ensures ParseFrame(limit, s + t) ==
      match ParseFrame(limit, s)
      case ProtocolError => ProtocolError
      case Complete(f, rest) => Complete(f, rest + t)
  {
    DecodeHeaderPrefix(s, t);
    if ParseFrame(limit, s).Complete? {
      var n := HEADER_SIZE + ParseFrame(limit, s).frame.header.bodyLen;
      assert (s + t)[HEADER_SIZE..n] == s[HEADER_SIZE..n] && (s + t)[n..] == s[n..] + t;
    }
  }

  /** The longest text that can still be waiting for more is one byte short of the largest frame. */
  lemma NeedMoreIsShort(limit: Limit, s: bytes)
    requires ParseFrame(limit, s) == NeedMore
    ensures |s| < HEADER_SIZE + MaxBody(limit) || |s| < HEADER_SIZE
    ensures |s| < limit
  {
  }

  // ----- Draining a buffer -----

  /** What a read loop extracts: frames, what stays buffered, and whether it met a protocol error. */
  datatype Drained = Drained(frames: seq<Frame>, rest: bytes, bad: bool)

  function Drain(limit: Limit, s: bytes): Drained
    decreases |s|
  {
    match ParseFrame(limit, s)
    case NeedMore => Drained([], s, false)
    case ProtocolError => Drained([], s, true)
    case Complete(f, rest) =>
      var d := Drain(limit, rest);
      Drained([f] + d.frames, d.rest, d.bad)
  }

  /** One more read: append the chunk and drain again. After an error nothing is parsed any more. */
  function Feed(limit: Limit, d: Drained, chunk: bytes): Drained {
    if d.bad then d.(rest := d.rest + chunk)
    else
      var e := Drain(limit, d.rest + chunk);
      Drained(d.frames + e.frames, e.rest, e.bad)
  }

  function FeedAll(limit: Limit, chunks: seq<bytes>): Drained {
    if chunks == [] then Drained([], [], false)
    else Feed(limit, FeedAll(limit, chunks[..|chunks| - 1]), chunks[|chunks| - 1])
  }

  /** Draining what is there and then the rest is draining everything at once. */
  lemma {:induction false} DrainConcat(limit: Limit, s: bytes, t: bytes)
    ensures Drain(limit, s + t) == Feed(limit, Drain(limit, s), t)
    decreases |s|
  {
    match ParseFrame(limit, s)
    case NeedMore =>
      assert [] + Drain(limit, s + t).frames == Drain(limit, s + t).frames;
    case ProtocolError =>
      VerdictStable(limit, s, t);
    case Complete(f, rest) =>
      VerdictStable(limit, s, t);
      DrainConcat(limit, rest, t);
      var d, e := Drain(limit, rest), Drain(limit, Drain(limit, rest).rest + t);
      assert [f] + (d.frames + e.frames) == [f] + d.frames + e.frames;
  }

  lemma DrainNothing(limit: Limit)
    ensures Drain(limit, []) == Drained([], [], false)
  {
  }

  /** However the stream is cut into reads, the frames found are those of the whole stream. */
  lemma {:induction false} ChunkingIrrelevant(limit: Limit, chunks: seq<bytes>)
    ensures FeedAll(limit, chunks) == Drain(limit, Flatten(chunks))
  {
    if chunks == [] {
      DrainNothing(limit);
    } else {
      var init, last := chunks[..|chunks| - 1], chunks[|chunks| - 1];
      ChunkingIrrelevant(limit, init);
      FeedLast(limit, init, last, FeedAll(limit, init));
      assert chunks == init + [last];
    }
  }

  lemma FeedLast(limit: Limit, init: seq<bytes>, last: bytes, d: Drained)
    requires d == Drain(limit, Flatten(init))
    ensures Drain(limit, Flatten(init + [last])) == Feed(limit, d, last)
  {
    FlattenSnoc(init, last);
    DrainConcat(limit, Flatten(init), last);
  }

  ghost predicate AllSendable(limit: Limit, fs: seq<Frame>) { forall i :: 0 <= i < |fs| ==> Sendable(limit, fs[i]) }

  ghost function EncodeFrames(fs: seq<Frame>): bytes {
    if fs == [] then [] else EncodeFrame(fs[0]) + EncodeFrames(fs[1..])
  }

  lemma {:induction false} EncodeFramesAppend(fs: seq<Frame>, gs: seq<Frame>)
    ensures EncodeFrames(fs + gs) == EncodeFrames(fs) + EncodeFrames(gs)
  {
    if fs == [] {
      assert fs + gs == gs;
    } else {
      assert (fs + gs)[1..] == fs[1..] + gs;
      EncodeFramesAppend(fs[1..], gs);
      Associate(EncodeFrame(fs[0]), EncodeFrames(fs[1..]), EncodeFrames(gs));
    }
  }

  lemma EncodeFramesSnoc(fs: seq<Frame>, f: Frame)
    ensures EncodeFrames(fs + [f]) == EncodeFrames(fs) + EncodeFrame(f)
  {
    EncodeFramesAppend(fs, [f]);
    assert EncodeFrame(f) + [] == EncodeFrame(f);
  }

  lemma DrainFirst(limit: Limit, s: bytes, f: Frame, rest: bytes)
    requires ParseFrame(limit, s) == Complete(f, rest)
    ensures Drain(limit, s) == Drain(limit, rest).(frames := [f] + Drain(limit, rest).frames)
  {
  }

  lemma {:induction false} DrainFrames(limit: Limit, fs: seq<Frame>)
    requires AllSendable(limit, fs)
    ensures Drain(limit, EncodeFrames(fs)) == Drained(fs, [], false)
  {
    if fs == [] {
      DrainNothing(limit);
    } else {
      var rest := EncodeFrames(fs[1..]);
      FrameRoundTrip(limit, fs[0], rest);
      DrainFirst(limit, EncodeFrame(fs[0]) + rest, fs[0], rest);
      DrainFrames(limit, fs[1..]);
      assert fs == [fs[0]] + fs[1..];
    }
  }

  /** Any list of frames, cut into reads in any way, comes out as that list. */
  lemma FramesSurviveChunking(limit: Limit, fs: seq<Frame>, chunks: seq<bytes>)
    requires AllSendable(limit, fs) && Flatten(chunks) == EncodeFrames(fs)
    ensures FeedAll(limit, chunks) == Drained(fs, [], false)
  {
    ChunkingIrrelevant(limit, chunks);
    DrainFrames(limit, fs);
  }
}
