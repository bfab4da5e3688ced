/** One server connection: a function from the bytes received to the frames sent. */
module ServerStream {
  import opened Bytes
  import opened Protocol
  import opened Framing
  import opened Registry

  /** `inputLimit` 0 means "follow the frame limit". */
  datatype Config = Config(limit: Limit, inputLimit: nat, serializer: byte, table: Table)

  /** setMaxInputBufferSize clamps an explicit limit to the header size. */
  function InputLimit(cfg: Config): nat {
    if cfg.inputLimit == 0 then cfg.limit
    else if cfg.inputLimit < HEADER_SIZE then HEADER_SIZE
    else cfg.inputLimit
  }

  function ResponseFrame(id: uint32, r: Response): Frame
    requires ResponseFits(r.payload)
  {
    Frame(Header(MAGIC, VERSION, RESPONSE, 0, r.status, r.serializer, id, |r.payload|), r.payload)
  }

  /** What one frame leads to: an answer, an answer after which the stream is closed, or just closing. */
  datatype Reply = Answer(frame: Frame) | Final(frame: Frame) | Drop

  /** rejectAndClose answers with serializer id 0. */
  function Reject(id: uint32, status: byte): Reply { Final(ResponseFrame(id, Response(status, [], 0))) }

  function HandleRequest(cfg: Config, f: Frame): Reply {
    match DecodeRequest(f.body)
    case None => Reject(f.header.requestId, MALFORMED_BODY)
    case Some(r) =>
      var (status, payload) := Dispatch(cfg.table, r);
      if ResponseFits(payload)
      then Answer(ResponseFrame(f.header.requestId, Response(status, payload, f.header.serializer)))
      else Drop
  }

  function ReplyTo(cfg: Config, f: Frame): Reply {
    if f.header.version != VERSION then Reject(f.header.requestId, UNSUPPORTED_VERSION)
    else if f.header.kind != REQUEST then Reject(f.header.requestId, UNSUPPORTED_MSG_TYPE)
    else if f.header.flags != 0 then Reject(f.header.requestId, UNSUPPORTED_FLAG)
    else if f.header.serializer != cfg.serializer then
      Answer(ResponseFrame(f.header.requestId, Response(UNSUPPORTED_SERIALIZER, [], f.header.serializer)))
    else HandleRequest(cfg, f)
  }

  /** Does onMessage return after this frame, leaving what follows unparsed? A malformed body does not stop the loop. */
  predicate StopsLoop(f: Frame) {
    f.header.version != VERSION || f.header.kind != REQUEST || f.header.flags != 0
  }

  /** The reply to a stream that can no longer be framed: BODY_TOO_LARGE if the header decodes. */
  function ReplyToBad(s: bytes): Reply {
    match DecodeHeader(s)
    case Some(h) => Reject(h.requestId, BODY_TOO_LARGE)
    case None => Drop
  }

  /**
   * A connection: whether sends are still accepted, the unparsed input, and the
   * frames accepted for sending. Sends on a closing connection are ignored.
   */
  datatype Conn = Conn(open: bool, buffered: bytes, sent: seq<Frame>)

  function Emit(c: Conn, r: Reply): Conn {
    if !c.open then c
    else
      match r
      case Answer(f) => c.(sent := c.sent + [f])
      case Final(f) => c.(sent := c.sent + [f], open := false)
      case Drop => c.(open := false)
  }

  /** RpcServer::onMessage. */
  function OnMessage(cfg: Config, c: Conn): Conn
    decreases |c.buffered|
  {
    match ParseFrame(cfg.limit, c.buffered)
    case NeedMore => if |c.buffered| > InputLimit(cfg) then c.(open := false) else c
    case ProtocolError => Emit(c, ReplyToBad(c.buffered))
    case Complete(f, rest) =>
      var c1 := Emit(c, ReplyTo(cfg, f)).(buffered := rest);
      if StopsLoop(f) then c1 else OnMessage(cfg, c1)
  }

  function Receive(cfg: Config, c: Conn, chunk: bytes): Conn {
    OnMessage(cfg, c.(buffered := c.buffered + chunk))
  }

  const FRESH := Conn(true, [], [])

  function ReceiveAll(cfg: Config, chunks: seq<bytes>): Conn {
    if chunks == [] then FRESH else Receive(cfg, ReceiveAll(cfg, chunks[..|chunks| - 1]), chunks[|chunks| - 1])
  }

  // ----- The reference: replies to the frames of the whole stream -----

  /** Replies in order, up to and including the first that ends the stream. */
  function Replies(cfg: Config, fs: seq<Frame>): (seq<Frame>, bool) {
    if fs == [] then ([], true)
    else
      match ReplyTo(cfg, fs[0])
      case Answer(f) =>
        var (more, open) := Replies(cfg, fs[1..]);
        ([f] + more, open)
      case Final(f) => ([f], false)
      case Drop => ([], false)
  }

  /** What the server sends for an input stream, and whether it still accepts sends afterwards. */
  function Serve(cfg: Config, s: bytes): (seq<Frame>, bool) { ServeFrames(cfg, Drain(cfg.limit, s)) }

  function ServeFrames(cfg: Config, d: Drained): (seq<Frame>, bool) {
    var (sent, open) := Replies(cfg, d.frames);
    if open && d.bad then
      match ReplyToBad(d.rest)
      case Answer(f) => (sent + [f], true)
      case Final(f) => (sent + [f], false)
      case Drop => (sent, false)
    else (sent, open)
  }

  /** The input limit cannot fire: it is at least one byte short of the largest frame. */
  predicate RoomyInput(cfg: Config) { InputLimit(cfg) >= HEADER_SIZE + MaxBody(cfg.limit) - 1 }

  lemma DefaultInputIsRoomy(cfg: Config)
    requires cfg.inputLimit == 0
    ensures RoomyInput(cfg)
  {
  }

  /** Once sends are refused, nothing more is sent. */
  lemma {:induction false} ClosedStaysClosed(cfg: Config, c: Conn)
    requires !c.open
    ensures !OnMessage(cfg, c).open && OnMessage(cfg, c).sent == c.sent
    decreases |c.buffered|
  {
    match ParseFrame(cfg.limit, c.buffered)
    case Complete(f, rest) => if !StopsLoop(f) { ClosedStaysClosed(cfg, c.(buffered := rest)); }
    case _ =>
  }

  /** `r` has sent what `s` calls for since `before`; only a tight input limit closes it earlier. */
  ghost predicate Served(cfg: Config, before: seq<Frame>, s: bytes, r: Conn) {
    var (sent, open) := Serve(cfg, s);
    && r.sent == before + sent && (r.open ==> open) && (RoomyInput(cfg) && open ==> r.open)
    && (open ==> r.buffered == Drain(cfg.limit, s).rest)
  }

  /** One call of onMessage on an open connection sends the replies to its frames. */
  lemma {:induction false} OnMessageServes(cfg: Config, c: Conn)
    requires c.open
    ensures Served(cfg, c.sent, c.buffered, OnMessage(cfg, c))
    decreases |c.buffered|
  {
    match ParseFrame(cfg.limit, c.buffered)
    case NeedMore => assert c.sent + [] == c.sent;
    case ProtocolError =>
      assert c.sent + [] == c.sent;
      if ReplyToBad(c.buffered).Final? {
        assert [] + [ReplyToBad(c.buffered).frame] == [ReplyToBad(c.buffered).frame];
      }
    case Complete(f, rest) => OnFrameServes(cfg, c, f, rest);
  }

  lemma {:induction false} OnFrameServes(cfg: Config, c: Conn, f: Frame, rest: bytes)
    requires c.open && ParseFrame(cfg.limit, c.buffered) == Complete(f, rest)
    ensures Served(cfg, c.sent, c.buffered, OnMessage(cfg, c))
    decreases |c.buffered|, 0
  {
    var c1 := Emit(c, ReplyTo(cfg, f)).(buffered := rest);
    if ReplyTo(cfg, f).Answer? {
      OnMessageServes(cfg, c1);
      OnAnswerServes(cfg, c, f, rest, ReplyTo(cfg, f).frame);
    } else {
      ClosingFirst(cfg, c.buffered, rest, f);
      if !StopsLoop(f) {
        ClosedStaysClosed(cfg, c1);
      }
      assert c.sent + [] == c.sent;
    }
  }

  lemma OnAnswerServes(cfg: Config, c: Conn, f: Frame, rest: bytes, reply: Frame)
    requires c.open && ParseFrame(cfg.limit, c.buffered) == Complete(f, rest) && ReplyTo(cfg, f) == Answer(reply)
    requires Served(cfg, c.sent + [reply], rest, OnMessage(cfg, Conn(true, rest, c.sent + [reply])))
    ensures Served(cfg, c.sent, c.buffered, OnMessage(cfg, c))
  {
    AnswerFirst(cfg, c.buffered, rest, f, reply);
    PushThenRest(c.sent, reply, Serve(cfg, rest).0);
  }

  /** After a closing reply nothing further is served. */
  lemma ClosingFirst(cfg: Config, s: bytes, rest: bytes, f: Frame)
    requires ParseFrame(cfg.limit, s) == Complete(f, rest) && !ReplyTo(cfg, f).Answer?
    ensures Serve(cfg, s) == (if ReplyTo(cfg, f).Final? then [ReplyTo(cfg, f).frame] else [], false)
  {
  }

  lemma AnswerFirst(cfg: Config, s: bytes, rest: bytes, f: Frame, reply: Frame)
    requires ParseFrame(cfg.limit, s) == Complete(f, rest) && ReplyTo(cfg, f) == Answer(reply)
    ensures Serve(cfg, s) == ([reply] + Serve(cfg, rest).0, Serve(cfg, rest).1)
  {
    var d := Drain(cfg.limit, rest);
    var fs := [f] + d.frames;
    assert fs[1..] == d.frames;
    var (sent, open) := Replies(cfg, d.frames);
    if open && d.bad && !ReplyToBad(d.rest).Drop? {
      var last := [ReplyToBad(d.rest).frame];
      assert [reply] + sent + last == [reply] + (sent + last);
    }
  }

  lemma {:induction false} RepliesConcat(cfg: Config, fs: seq<Frame>, gs: seq<Frame>)
    ensures var (a, open) := Replies(cfg, fs);
      Replies(cfg, fs + gs) == if open then (a + Replies(cfg, gs).0, Replies(cfg, gs).1) else (a, false)
  {
    if fs == [] {
      assert fs + gs == gs && [] + Replies(cfg, gs).0 == Replies(cfg, gs).0;
    } else {
      assert (fs + gs)[1..] == fs[1..] + gs;
      RepliesConcat(cfg, fs[1..], gs);
      if ReplyTo(cfg, fs[0]).Answer? {
        var f := ReplyTo(cfg, fs[0]).frame;
        var (a, open) := Replies(cfg, fs[1..]);
        assert [f] + a + Replies(cfg, gs).0 == [f] + (a + Replies(cfg, gs).0);
      }
    }
  }

  /** An open stream goes on: more frames, and how the input ends now. */
  lemma ServeOn(cfg: Config, d: Drained, e: Drained)
    requires ServeFrames(cfg, d).1
    ensures !d.bad
    ensures ServeFrames(cfg, Drained(d.frames + e.frames, e.rest, e.bad))
         == (ServeFrames(cfg, d).0 + ServeFrames(cfg, e).0, ServeFrames(cfg, e).1)
  {
    RepliesConcat(cfg, d.frames, e.frames);
    if Replies(cfg, e.frames).1 && e.bad && !ReplyToBad(e.rest).Drop? {
      Associate(Replies(cfg, d.frames).0, Replies(cfg, e.frames).0, [ReplyToBad(e.rest).frame]);
    }
  }

  lemma ServeConcat(cfg: Config, s: bytes, t: bytes)
    requires Serve(cfg, s).1
    ensures var rest := Drain(cfg.limit, s).rest + t;
      Serve(cfg, s + t) == (Serve(cfg, s).0 + Serve(cfg, rest).0, Serve(cfg, rest).1)
    ensures Drain(cfg.limit, s + t).rest == Drain(cfg.limit, Drain(cfg.limit, s).rest + t).rest
  {
    var d := Drain(cfg.limit, s);
    DrainConcat(cfg.limit, s, t);
    ServeOn(cfg, d, Drain(cfg.limit, d.rest + t));
  }

  lemma ServeClosed(cfg: Config, s: bytes, t: bytes)
    requires !Serve(cfg, s).1
    ensures Serve(cfg, s + t) == Serve(cfg, s)
  {
    var d := Drain(cfg.limit, s);
    DrainConcat(cfg.limit, s, t);
    if d.bad {
      BadReplyStable(cfg, s, t);
    } else {
      RepliesConcat(cfg, d.frames, Drain(cfg.limit, d.rest + t).frames);
    }
  }

  lemma BadReplyStable(cfg: Config, s: bytes, t: bytes)
    requires Drain(cfg.limit, s).bad
    ensures var rest := Drain(cfg.limit, s).rest; ReplyToBad(rest + t) == ReplyToBad(rest)
  {
    BadRest(cfg.limit, s);
    DecodeHeaderPrefix(Drain(cfg.limit, s).rest, t);
  }

  lemma {:induction false} BadRest(limit: Limit, s: bytes)
    requires Drain(limit, s).bad
    ensures |Drain(limit, s).rest| >= HEADER_SIZE
    decreases |s|
  {
    if ParseFrame(limit, s).Complete? {
      BadRest(limit, ParseFrame(limit, s).rest);
    }
  }

  /**
   * The server is a stream function: with a roomy input limit, what is sent
   * depends only on the bytes received and not on how reads cut them.
   */
  lemma {:induction false} ServerIsStreamFunction(cfg: Config, chunks: seq<bytes>)
    requires RoomyInput(cfg)
    ensures var c := ReceiveAll(cfg, chunks);
      (c.sent, c.open) == Serve(cfg, Flatten(chunks))
      && (c.open ==> c.buffered == Drain(cfg.limit, Flatten(chunks)).rest)
  {
    if chunks == [] {
      DrainNothing(cfg.limit);
    } else {
      var init, last := chunks[..|chunks| - 1], chunks[|chunks| - 1];
      assert chunks == init + [last];
      FlattenSnoc(init, last);
      ServerIsStreamFunction(cfg, init);
      ReceiveNext(cfg, ReceiveAll(cfg, init), Flatten(init), last);
    }
  }

  lemma ReceiveNext(cfg: Config, c: Conn, s: bytes, t: bytes)
    requires RoomyInput(cfg) && (c.sent, c.open) == Serve(cfg, s)
    requires c.open ==> c.buffered == Drain(cfg.limit, s).rest
    ensures var r := Receive(cfg, c, t);
      (r.sent, r.open) == Serve(cfg, s + t) && (r.open ==> r.buffered == Drain(cfg.limit, s + t).rest)
  {
    if c.open {
      ServeConcat(cfg, s, t);
      OnMessageServes(cfg, c.(buffered := c.buffered + t));
    } else {
      ClosedStaysClosed(cfg, c.(buffered := c.buffered + t));
      ServeClosed(cfg, s, t);
    }
  }

  // ----- With any input limit -----

  /** What has been sent is the beginning of what the stream calls for; all of it while the connection is open. */
  ghost predicate ServedSoFar(cfg: Config, s: bytes, c: Conn) {
    var (sent, open) := Serve(cfg, s);
    c.sent <= sent && (c.open ==> open && c.sent == sent && c.buffered == Drain(cfg.limit, s).rest)
  }

  lemma ServesPrefix(cfg: Config, c: Conn, s: bytes, t: bytes)
    requires ServedSoFar(cfg, s, c)
    ensures ServedSoFar(cfg, s + t, Receive(cfg, c, t))
  {
    if Serve(cfg, s).1 {
      ServeConcat(cfg, s, t);
    } else {
      ServeClosed(cfg, s, t);
    }
    if c.open {
      OnMessageServes(cfg, c.(buffered := c.buffered + t));
    } else {
      ClosedStaysClosed(cfg, c.(buffered := c.buffered + t));
    }
  }

  lemma {:induction false} AlwaysServedSoFar(cfg: Config, chunks: seq<bytes>)
    ensures ServedSoFar(cfg, Flatten(chunks), ReceiveAll(cfg, chunks))
  {
    if chunks == [] {
      DrainNothing(cfg.limit);
    } else {
      var init, last := chunks[..|chunks| - 1], chunks[|chunks| - 1];
      assert chunks == init + [last];
      FlattenSnoc(init, last);
      AlwaysServedSoFar(cfg, init);
      ServesPrefix(cfg, ReceiveAll(cfg, init), Flatten(init), last);
    }
  }

  // ----- What the replies are -----

  /**
   * Non-terminal answers echo the request id and the serializer id; terminal
   * ones echo the request id.
   */
  lemma RepliesEcho(cfg: Config, f: Frame)
    ensures var r := ReplyTo(cfg, f);
      && (r.Answer? ==> r.frame.header.requestId == f.header.requestId
                        && r.frame.header.serializer == f.header.serializer
                        && r.frame.header.kind == RESPONSE)
      && (r.Final? ==> r.frame.header.requestId == f.header.requestId && r.frame.header.kind == RESPONSE)
  {
  }

  /** The i-th frame sent is the reply to the i-th frame received, and only the last can be terminal. */
  lemma {:induction false} ReplyPerRequest(cfg: Config, fs: seq<Frame>, i: nat)
    requires i < |Replies(cfg, fs).0|
    ensures |Replies(cfg, fs).0| <= |fs|
    ensures var r := ReplyTo(cfg, fs[i]);
      !r.Drop? && Replies(cfg, fs).0[i] == r.frame && (r.Final? ==> i == |Replies(cfg, fs).0| - 1)
    ensures Replies(cfg, fs).1 ==> |Replies(cfg, fs).0| == |fs|
  {
    if ReplyTo(cfg, fs[0]).Answer? {
      var more := Replies(cfg, fs[1..]).0;
      if i > 0 {
        ReplyPerRequest(cfg, fs[1..], i - 1);
      } else if more != [] {
        ReplyPerRequest(cfg, fs[1..], 0);
      } else {
        NoReplies(cfg, fs[1..]);
      }
    }
  }

  lemma NoReplies(cfg: Config, fs: seq<Frame>)
    requires Replies(cfg, fs).0 == []
    ensures Replies(cfg, fs).1 <==> fs == []
  {
  }

  lemma {:induction false} RepliesSize(cfg: Config, fs: seq<Frame>)
    ensures |Replies(cfg, fs).0| <= |fs| && (Replies(cfg, fs).1 ==> |Replies(cfg, fs).0| == |fs|)
    ensures forall i :: 0 <= i < |Replies(cfg, fs).0| && ReplyTo(cfg, fs[i]).Final? ==> !Replies(cfg, fs).1
  {
    if fs != [] {
      RepliesSize(cfg, fs[1..]);
      assert forall i :: 0 < i < |fs| ==> fs[i] == fs[1..][i - 1];
    }
  }

  /** The id of the request in the i-th place: a frame, or the header of one that is too large. */
  function RequestIdAt(d: Drained, i: nat): uint32 {
    if i < |d.frames| then d.frames[i].header.requestId
    else if DecodeHeader(d.rest).Some? then DecodeHeader(d.rest).value.requestId
    else 0
  }

  /** `sent` are responses to the requests of `d` in order, all but a closing one with their serializer ids. */
  ghost predicate Answers(d: Drained, sent: seq<Frame>, open: bool, i: nat)
    requires i < |sent|
  {
    && |sent| <= |d.frames| + (if d.bad then 1 else 0) && (open ==> |sent| == |d.frames| && !d.bad)
    && sent[i].header.kind == RESPONSE && sent[i].header.requestId == RequestIdAt(d, i)
    && (i < |sent| - 1 || open ==> i < |d.frames| && sent[i].header.serializer == d.frames[i].header.serializer)
    && (i == |d.frames| ==> sent[i].header.status == 0x05 && sent[i].body == [] && !open)
  }

  lemma FrameAnswered(cfg: Config, d: Drained, i: nat)
    requires i < |Replies(cfg, d.frames).0|
    ensures var (sent, open) := ServeFrames(cfg, d); i < |sent| && Answers(d, sent, open, i)
  {
    RepliesSize(cfg, d.frames);
    ReplyPerRequest(cfg, d.frames, i);
    RepliesEcho(cfg, d.frames[i]);
  }

  lemma BadFrameAnswered(cfg: Config, d: Drained, i: nat)
    requires |Replies(cfg, d.frames).0| <= i < |ServeFrames(cfg, d).0|
    ensures var (sent, open) := ServeFrames(cfg, d); Answers(d, sent, open, i)
  {
    RepliesSize(cfg, d.frames);
  }

  /**
   * What a peer sees of any run, however its bytes are cut: one response per
   * request, in order, with the request's id; every response but the one that
   * closes the stream carries the request's serializer id too; a frame that is
   * too large is answered last.
   */
  lemma ResponsesAnswerRequests(cfg: Config, chunks: seq<bytes>, i: nat)
    requires i < |ReceiveAll(cfg, chunks).sent|
    ensures var c := ReceiveAll(cfg, chunks); Answers(Drain(cfg.limit, Flatten(chunks)), c.sent, c.open, i)
  {
    var d := Drain(cfg.limit, Flatten(chunks));
    AlwaysServedSoFar(cfg, chunks);
    if i < |Replies(cfg, d.frames).0| {
      FrameAnswered(cfg, d, i);
    } else {
      BadFrameAnswered(cfg, d, i);
    }
  }

  // ----- A tighter input limit -----

  /** The largest frame, with a serializer the server does not speak. */
  function LargestFrame(cfg: Config): (f: Frame)
    ensures Sendable(cfg.limit, f)
  {
    var n := MaxBody(cfg.limit);
    Frame(Header(MAGIC, VERSION, REQUEST, 0, 0, if cfg.serializer == 0 then 1 else 0, 7, n), seq(n, _ => 0))
  }

  lemma LargestFrameParses(cfg: Config)
    ensures var w := EncodeFrame(LargestFrame(cfg)); ParseFrame(cfg.limit, w) == Complete(LargestFrame(cfg), [])
  {
    var w := EncodeFrame(LargestFrame(cfg));
    FrameRoundTrip(cfg.limit, LargestFrame(cfg), []);
    assert w + [] == w;
  }

  /** One byte short of a frame is not a frame. */
  lemma ShortOfFrame(limit: Limit, s: bytes, t: bytes, f: Frame)
    requires ParseFrame(limit, s + t) == Complete(f, []) && t != []
    ensures ParseFrame(limit, s) == NeedMore
  {
    if ParseFrame(limit, s) != NeedMore {
      VerdictStable(limit, s, t);
    }
  }

  lemma ReceiveSnoc(cfg: Config, chunks: seq<bytes>, last: bytes)
    ensures ReceiveAll(cfg, chunks + [last]) == Receive(cfg, ReceiveAll(cfg, chunks), last)
  {
  }

  ghost predicate ChunkingIndependent(cfg: Config) {
    forall xs, ys :: Flatten(xs) == Flatten(ys) ==> ReceiveAll(cfg, xs).sent == ReceiveAll(cfg, ys).sent
  }

  lemma AnsweredInOneRead(cfg: Config, w: bytes, f: Frame, reply: Frame)
    requires ParseFrame(cfg.limit, w) == Complete(f, []) && ReplyTo(cfg, f) == Answer(reply)
    ensures ReceiveAll(cfg, [w]).sent == [reply]
  {
    ReceiveSnoc(cfg, [], w);
    assert [] + [w] == [w] && [] + w == w;
    var c := Conn(true, [], [reply]);
    assert OnMessage(cfg, c) == c;
    assert [] + [reply] == [reply];
  }

  lemma DroppedInTwoReads(cfg: Config, s: bytes, t: bytes)
    requires ParseFrame(cfg.limit, s) == NeedMore && |s| > InputLimit(cfg)
    ensures ReceiveAll(cfg, [s, t]).sent == []
  {
    ReceiveSnoc(cfg, [], s);
    ReceiveSnoc(cfg, [s], t);
    assert [] + [s] == [s] && [s] + [t] == [s, t] && [] + s == s;
    var c := ReceiveAll(cfg, [s]);
    ClosedStaysClosed(cfg, c.(buffered := c.buffered + t));
  }

  lemma CutBeforeLastByte(cfg: Config, w: bytes, f: Frame, reply: Frame)
    requires ParseFrame(cfg.limit, w) == Complete(f, []) && ReplyTo(cfg, f) == Answer(reply)
    requires |w| - 1 > InputLimit(cfg)
    ensures var s, t := w[..|w| - 1], w[|w| - 1..];
      Flatten([w]) == Flatten([s, t]) && ReceiveAll(cfg, [w]).sent == [reply] && ReceiveAll(cfg, [s, t]).sent == []
  {
    var s, t := w[..|w| - 1], w[|w| - 1..];
    assert s + t == w;
    ShortOfFrame(cfg.limit, s, t, f);
    AnsweredInOneRead(cfg, w, f, reply);
    DroppedInTwoReads(cfg, s, t);
    SameBytes(s, t);
    assert Flatten([w]) == Flatten([s, t]);
  }

  lemma SameBytes(s: bytes, t: bytes)
    ensures Flatten([s + t]) == Flatten([s, t])
  {
    FlattenSnoc([s], t);
    assert [s] + [t] == [s, t];
    assert Flatten([s]) == s && Flatten([s + t]) == s + t;
  }

  /** With a tighter limit the largest frame is answered in one read and dropped in two. */
  lemma TightInputDependsOnChunking(cfg: Config)
    requires !RoomyInput(cfg)
    ensures var w := EncodeFrame(LargestFrame(cfg)); var s, t := w[..|w| - 1], w[|w| - 1..];
      Flatten([w]) == Flatten([s, t]) && |ReceiveAll(cfg, [w]).sent| == 1 && ReceiveAll(cfg, [s, t]).sent == []
  {
    var f := LargestFrame(cfg);
    LargestFrameParses(cfg);
    CutBeforeLastByte(cfg, EncodeFrame(f), f, ReplyTo(cfg, f).frame);
  }

  /** Independence of chunking holds exactly when the input limit cannot fire. */
  lemma ChunkingIndependentIffRoomy(cfg: Config)
    ensures ChunkingIndependent(cfg) <==> RoomyInput(cfg)
  {
    if RoomyInput(cfg) {
      forall xs, ys | Flatten(xs) == Flatten(ys) ensures ReceiveAll(cfg, xs).sent == ReceiveAll(cfg, ys).sent {
        ServerIsStreamFunction(cfg, xs);
        ServerIsStreamFunction(cfg, ys);
      }
    } else {
      TightInputDependsOnChunking(cfg);
      assert ReceiveAll(cfg, [EncodeFrame(LargestFrame(cfg))]).sent != [];
    }
  }
}
