/**
 * Which handlers a server runs for an input stream, and when that depends on
 * how reads cut it: a frame that stops onMessage's loop leaves what follows in
 * the same read unparsed until the next read, if there is one.
 */
module ServerHandlers {
  import opened Bytes
  import opened Protocol
  import opened Framing
  import opened ServerStream

  /** The request a frame makes the server dispatch. */
  function Dispatched(cfg: Config, f: Frame): seq<Request> {
    if StopsLoop(f) || f.header.serializer != cfg.serializer || DecodeRequest(f.body).None? then []
    else [DecodeRequest(f.body).value]
  }

  function AllDispatched(cfg: Config, fs: seq<Frame>): seq<Request> {
    if fs == [] then [] else Dispatched(cfg, fs[0]) + AllDispatched(cfg, fs[1..])
  }

  // ----- One call of onMessage -----

  /** The requests dispatched by one onMessage on this buffer. */
  function Log(cfg: Config, s: bytes): seq<Request>
    decreases |s|
  {
    match ParseFrame(cfg.limit, s)
    case Complete(f, rest) => Dispatched(cfg, f) + if StopsLoop(f) then [] else Log(cfg, rest)
    case _ => []
  }

  /** What it leaves in the buffer. */
  function LeftOver(cfg: Config, s: bytes): bytes
    decreases |s|
  {
    match ParseFrame(cfg.limit, s)
    case Complete(f, rest) => if StopsLoop(f) then rest else LeftOver(cfg, rest)
    case _ => s
  }

  lemma {:induction false} LeftOverIsBuffered(cfg: Config, c: Conn)
    ensures OnMessage(cfg, c).buffered == LeftOver(cfg, c.buffered)
    decreases |c.buffered|
  {
    match ParseFrame(cfg.limit, c.buffered)
    case Complete(f, rest) =>
      if !StopsLoop(f) {
        LeftOverIsBuffered(cfg, Emit(c, ReplyTo(cfg, f)).(buffered := rest));
      }
    case _ =>
  }

  /** The requests dispatched over successive reads, with `b` left over before. */
  function LogFrom(cfg: Config, b: bytes, chunks: seq<bytes>): seq<Request>
    decreases |chunks|
  {
    if chunks == [] then []
    else Log(cfg, b + chunks[0]) + LogFrom(cfg, LeftOver(cfg, b + chunks[0]), chunks[1..])
  }

  // ----- Frames read so far -----

  ghost predicate HasStop(fs: seq<Frame>) { exists i :: 0 <= i < |fs| && StopsLoop(fs[i]) }

  lemma {:induction false} DispatchedConcat(cfg: Config, fs: seq<Frame>, gs: seq<Frame>)
    ensures AllDispatched(cfg, fs + gs) == AllDispatched(cfg, fs) + AllDispatched(cfg, gs)
  {
    if fs == [] {
      assert fs + gs == gs && [] + AllDispatched(cfg, gs) == AllDispatched(cfg, gs);
    } else {
      assert (fs + gs)[1..] == fs[1..] + gs && (fs + gs)[0] == fs[0];
      DispatchedConcat(cfg, fs[1..], gs);
      Associate(Dispatched(cfg, fs[0]), AllDispatched(cfg, fs[1..]), AllDispatched(cfg, gs));
    }
  }

  lemma DispatchedFirst(cfg: Config, f: Frame, fs: seq<Frame>)
    ensures AllDispatched(cfg, [f] + fs) == Dispatched(cfg, f) + AllDispatched(cfg, fs)
  {
    assert ([f] + fs)[1..] == fs;
  }

  /** `gs` are the frames one onMessage reads off `s`. */
  ghost predicate Took(cfg: Config, s: bytes, gs: seq<Frame>) {
    var e := Drain(cfg.limit, LeftOver(cfg, s));
    && Drain(cfg.limit, s) == Drained(gs + e.frames, e.rest, e.bad)
    && Log(cfg, s) == AllDispatched(cfg, gs) && (e.frames != [] ==> HasStop(gs))
  }

  lemma {:induction false} TakesFrames(cfg: Config, s: bytes) returns (gs: seq<Frame>)
    ensures Took(cfg, s, gs)
    decreases |s|
  {
    match ParseFrame(cfg.limit, s) {
      case Complete(f, rest) =>
        var e := Drain(cfg.limit, rest);
        DrainFirst(cfg.limit, s, f, rest);
        if StopsLoop(f) {
          gs := [f];
          assert StopsLoop(gs[0]);
          DispatchedFirst(cfg, f, []);
          assert [f] + [] == [f];
        } else {
          var more := TakesFrames(cfg, rest);
          gs := [f] + more;
          TookFirst(cfg, s, f, rest, more);
        }
      case _ =>
        gs := [];
        var e := Drain(cfg.limit, s);
        assert [] + e.frames == e.frames;
    }
  }

  lemma TookFirst(cfg: Config, s: bytes, f: Frame, rest: bytes, more: seq<Frame>)
    requires ParseFrame(cfg.limit, s) == Complete(f, rest) && !StopsLoop(f) && Took(cfg, rest, more)
    ensures Took(cfg, s, [f] + more)
  {
    var e := Drain(cfg.limit, LeftOver(cfg, s));
    DrainFirst(cfg.limit, s, f, rest);
    DispatchedFirst(cfg, f, more);
    Associate([f], more, e.frames);
    if i :| 0 <= i < |more| && StopsLoop(more[i]) {
      assert ([f] + more)[i + 1] == more[i];
    }
  }

  /** More bytes arrive behind what was left. */
  lemma TookThen(cfg: Config, s: bytes, gs: seq<Frame>, t: bytes)
    requires Took(cfg, s, gs)
    ensures Drain(cfg.limit, s + t).frames == gs + Drain(cfg.limit, LeftOver(cfg, s) + t).frames
  {
    var e := Drain(cfg.limit, LeftOver(cfg, s));
    DrainConcat(cfg.limit, s, t);
    DrainConcat(cfg.limit, LeftOver(cfg, s), t);
    if !e.bad {
      Associate(gs, e.frames, Drain(cfg.limit, e.rest + t).frames);
    }
  }

  /**
   * However the stream is cut, the handlers run are those of the frames `gs`
   * read so far, in order; frames `hs` are left unread only behind a stop.
   */
  lemma {:induction false} LogSpans(cfg: Config, b: bytes, chunks: seq<bytes>, prior: bool)
    returns (gs: seq<Frame>, hs: seq<Frame>)
    requires prior || Drain(cfg.limit, b).frames == []
    ensures Drain(cfg.limit, b + Flatten(chunks)).frames == gs + hs && LogFrom(cfg, b, chunks) == AllDispatched(cfg, gs)
    ensures hs != [] ==> prior || HasStop(gs)
    decreases |chunks|
  {
    if chunks == [] {
      gs, hs := [], Drain(cfg.limit, b).frames;
      assert b + Flatten(chunks) == b && [] + hs == hs;
    } else {
      var s, rest := b + chunks[0], Flatten(chunks[1..]);
      var first := TakesFrames(cfg, s);
      var more;
      more, hs := LogSpans(cfg, LeftOver(cfg, s), chunks[1..], prior || HasStop(first));
      gs := first + more;
      TookThen(cfg, s, first, rest);
      DispatchedConcat(cfg, first, more);
      Associate(b, chunks[0], rest);
      Associate(first, more, hs);
      if i :| 0 <= i < |first| && StopsLoop(first[i]) {
        assert gs[i] == first[i];
      } else if i :| 0 <= i < |more| && StopsLoop(more[i]) {
        assert gs[|first| + i] == more[i];
      }
    }
  }

  // ----- When the cuts do not matter -----

  /** The frames behind the first that stops the loop. */
  function BehindStop(fs: seq<Frame>): seq<Frame> {
    if fs == [] then [] else if StopsLoop(fs[0]) then fs[1..] else BehindStop(fs[1..])
  }

  lemma {:induction false} UnreadIsBehind(cfg: Config, gs: seq<Frame>, hs: seq<Frame>)
    requires HasStop(gs) && AllDispatched(cfg, BehindStop(gs + hs)) == []
    ensures AllDispatched(cfg, hs) == []
  {
    assert (gs + hs)[1..] == gs[1..] + hs && (gs + hs)[0] == gs[0];
    if StopsLoop(gs[0]) {
      DispatchedConcat(cfg, gs[1..], hs);
    } else {
      var i :| 0 <= i < |gs| && StopsLoop(gs[i]);
      assert gs[1..][i - 1] == gs[i];
      UnreadIsBehind(cfg, gs[1..], hs);
    }
  }

  /** In one read the handlers stop at the first stop. */
  lemma {:induction false} OneReadStops(cfg: Config, s: bytes)
    ensures var fs := Drain(cfg.limit, s).frames;
      Log(cfg, s) + AllDispatched(cfg, BehindStop(fs)) == AllDispatched(cfg, fs)
    decreases |s|
  {
    match ParseFrame(cfg.limit, s)
    case Complete(f, rest) =>
      var d := Drain(cfg.limit, rest);
      DrainFirst(cfg.limit, s, f, rest);
      DispatchedFirst(cfg, f, d.frames);
      assert ([f] + d.frames)[1..] == d.frames;
      if StopsLoop(f) {
        assert [] + [] + AllDispatched(cfg, d.frames) == AllDispatched(cfg, d.frames);
      } else {
        OneReadStops(cfg, rest);
        Associate(Dispatched(cfg, f), Log(cfg, rest), AllDispatched(cfg, BehindStop(d.frames)));
      }
    case _ =>
  }

  /** The stream cut at every frame. */
  function Pieces(cfg: Config, s: bytes): seq<bytes>
    decreases |s|
  {
    match ParseFrame(cfg.limit, s)
    case Complete(f, rest) => [s[..|s| - |rest|]] + Pieces(cfg, rest)
    case _ => [s]
  }

  lemma PieceParses(limit: Limit, s: bytes, f: Frame, rest: bytes)
    requires ParseFrame(limit, s) == Complete(f, rest)
    ensures var p := s[..|s| - |rest|]; p + rest == s && ParseFrame(limit, p) == Complete(f, [])
  {
    var p := s[..|s| - |rest|];
    assert p + rest == s;
    DecodeHeaderPrefix(p, rest);
    assert p[HEADER_SIZE..] == f.body;
  }

  lemma {:induction false} PieceByPiece(cfg: Config, s: bytes)
    ensures Flatten(Pieces(cfg, s)) == s
    ensures LogFrom(cfg, [], Pieces(cfg, s)) == AllDispatched(cfg, Drain(cfg.limit, s).frames)
    decreases |s|
  {
    match ParseFrame(cfg.limit, s)
    case Complete(f, rest) =>
      var p, more := s[..|s| - |rest|], Pieces(cfg, rest);
      PieceParses(cfg.limit, s, f, rest);
      PieceByPiece(cfg, rest);
      DrainFirst(cfg.limit, s, f, rest);
      DispatchedFirst(cfg, f, Drain(cfg.limit, rest).frames);
      OnePiece(cfg, p, f, more);
    case _ =>
      assert [] + s == s && s + [] == s && [s][1..] == [];
  }

  lemma OnePiece(cfg: Config, p: bytes, f: Frame, more: seq<bytes>)
    requires ParseFrame(cfg.limit, p) == Complete(f, [])
    ensures LogFrom(cfg, [], [p] + more) == Dispatched(cfg, f) + LogFrom(cfg, [], more)
    ensures Flatten([p] + more) == p + Flatten(more)
  {
    assert ([p] + more)[1..] == more && [] + p == p;
    WholePiece(cfg, p, f);
  }

  lemma WholePiece(cfg: Config, p: bytes, f: Frame)
    requires ParseFrame(cfg.limit, p) == Complete(f, [])
    ensures Log(cfg, p) == Dispatched(cfg, f) && LeftOver(cfg, p) == []
  {
    assert ParseFrame(cfg.limit, []) == NeedMore;
    assert Dispatched(cfg, f) + [] == Dispatched(cfg, f);
  }

  /** No two cuts of this stream make the server run different handlers. */
  ghost predicate HandlersIndependent(cfg: Config, s: bytes) {
    forall xs, ys :: Flatten(xs) == s && Flatten(ys) == s ==> LogFrom(cfg, [], xs) == LogFrom(cfg, [], ys)
  }

  lemma LogIsAll(cfg: Config, s: bytes, chunks: seq<bytes>)
    requires Flatten(chunks) == s && AllDispatched(cfg, BehindStop(Drain(cfg.limit, s).frames)) == []
    ensures LogFrom(cfg, [], chunks) == AllDispatched(cfg, Drain(cfg.limit, s).frames)
  {
    assert [] + s == s && ParseFrame(cfg.limit, []) == NeedMore;
    var gs, hs := LogSpans(cfg, [], chunks, false);
    DispatchedConcat(cfg, gs, hs);
    if hs != [] {
      UnreadIsBehind(cfg, gs, hs);
    }
  }

  /**
   * Which handlers run is a function of the stream alone exactly when no frame
   * that would be dispatched stands behind one that stops the loop.
   */
  lemma HandlersIndependentIff(cfg: Config, s: bytes)
    ensures HandlersIndependent(cfg, s) <==> AllDispatched(cfg, BehindStop(Drain(cfg.limit, s).frames)) == []
  {
    var fs := Drain(cfg.limit, s).frames;
    if AllDispatched(cfg, BehindStop(fs)) == [] {
      forall xs, ys | Flatten(xs) == s && Flatten(ys) == s ensures LogFrom(cfg, [], xs) == LogFrom(cfg, [], ys) {
        LogIsAll(cfg, s, xs);
        LogIsAll(cfg, s, ys);
      }
    } else {
      OneReadStops(cfg, s);
      PieceByPiece(cfg, s);
      OneRead(cfg, s);
      assert |Log(cfg, s)| < |AllDispatched(cfg, fs)|;
    }
  }

  lemma OneRead(cfg: Config, s: bytes)
    ensures Flatten([s]) == s && LogFrom(cfg, [], [s]) == Log(cfg, s)
  {
    assert [s][1..] == [] && [] + s == s && s + [] == s && Log(cfg, s) + [] == Log(cfg, s);
  }

  /** A request behind a frame with a bad version, type or flag: not dispatched in the same read, dispatched in the next. */
  lemma LateRequestRuns(cfg: Config, g: Frame, f: Frame, r: Request)
    requires Sendable(cfg.limit, g) && (g.header.version != 1 || g.header.kind != 1 || g.header.flags != 0)
    requires Sendable(cfg.limit, f) && Dispatched(cfg, f) == [r]
    ensures LogFrom(cfg, [], [EncodeFrame(g) + EncodeFrame(f)]) == []
    ensures LogFrom(cfg, [], [EncodeFrame(g), EncodeFrame(f)]) == [r]
  {
    var a, b := EncodeFrame(g), EncodeFrame(f);
    FrameRoundTrip(cfg.limit, g, b);
    OneRead(cfg, a + b);
    FrameRoundTrip(cfg.limit, g, []);
    FrameRoundTrip(cfg.limit, f, []);
    assert a + [] == a && b + [] == b;
    OnePiece(cfg, b, f, []);
    OnePiece(cfg, a, g, [b]);
    assert [b] + [] == [b] && [a] + [b] == [a, b];
    assert [] + ([r] + []) == [r];
  }
}
