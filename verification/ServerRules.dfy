/**
 * The rules by which the server answers, told from the header and body of each
 * frame alone: which frames it refuses and how, which it serves, and when it
 * closes the connection.
 */
module ServerRules {
  import opened Bytes
  import opened Protocol
  import opened Framing
  import opened Registry
  import opened ServerStream
  import opened ServerHandlers

  /** A request of this version, without flags. */
  predicate Plain(h: Header) { h.version == 1 && h.kind == 1 && h.flags == 0 }

  ghost predicate IsEnvelope(body: bytes) { exists r :: EncodeRequest(r) == Some(body) }

  /** The status is the one the frame calls for, where the frame alone decides it. */
  ghost predicate StatusFollows(serializer: byte, f: Frame, status: byte) {
    var h := f.header;
    && (status == 0x01 <==> h.version != 1)
    && (h.version == 1 ==> (status == 0x02 <==> h.kind != 1))
    && (h.version == 1 && h.kind == 1 ==> (status == 0x03 <==> h.flags != 0))
    && (Plain(h) ==> (status == 0x0D <==> h.serializer != serializer))
    && (Plain(h) && h.serializer == serializer ==> (status == 0x06 <==> !IsEnvelope(f.body)))
  }

  /** The statuses after which the connection is closed. */
  predicate Terminal(status: byte) { status == 0x01 || status == 0x02 || status == 0x03 || status == 0x06 }

  /** A response frame: a good header, no payload with a refusal, and serializer id 0 when it closes. */
  predicate WellFormed(f: Frame, got: Frame) {
    var status := got.header.status;
    && got.header == Header(0x4E52, 1, 2, 0, status, if Terminal(status) then 0 else f.header.serializer,
                            f.header.requestId, got.header.bodyLen)
    && got.header.bodyLen == |got.body|
    && (Terminal(status) || status == 0x0D ==> got.body == [])
  }

  lemma EnvelopeDecodes(body: bytes)
    ensures IsEnvelope(body) <==> DecodeRequest(body).Some?
    ensures forall r :: EncodeRequest(r) == Some(body) <==> DecodeRequest(body) == Some(r)
  {
    forall r ensures EncodeRequest(r) == Some(body) <==> DecodeRequest(body) == Some(r) {
      EnvelopeBijection(r, body);
    }
    if DecodeRequest(body).Some? {
      assert EncodeRequest(DecodeRequest(body).value) == Some(body);
    }
  }

  lemma ReplyFollows(cfg: Config, f: Frame)
    requires !ReplyTo(cfg, f).Drop?
    ensures var r := ReplyTo(cfg, f); var status := r.frame.header.status;
      StatusFollows(cfg.serializer, f, status) && WellFormed(f, r.frame) && (r.Final? <==> Terminal(status))
  {
    EnvelopeDecodes(f.body);
  }

  /** The i-th response is the reply to the i-th frame, however the input was cut. */
  lemma SentIsReply(cfg: Config, chunks: seq<bytes>, i: nat)
    requires i < |ReceiveAll(cfg, chunks).sent| && i < |Drain(cfg.limit, Flatten(chunks)).frames|
    ensures var c := ReceiveAll(cfg, chunks); var r := ReplyTo(cfg, Drain(cfg.limit, Flatten(chunks)).frames[i]);
      !r.Drop? && c.sent[i] == r.frame && (r.Final? ==> i == |c.sent| - 1 && !c.open)
  {
    var fs := Drain(cfg.limit, Flatten(chunks)).frames;
    AlwaysServedSoFar(cfg, chunks);
    RepliesSize(cfg, fs);
    if i < |Replies(cfg, fs).0| {
      ReplyPerRequest(cfg, fs, i);
    } else {
      ServedBeyond(cfg, Drain(cfg.limit, Flatten(chunks)), i);
    }
  }

  /** Beyond the replies to whole frames there is only the one to a frame that is too large. */
  lemma ServedBeyond(cfg: Config, d: Drained, i: nat)
    requires |Replies(cfg, d.frames).0| <= i < |ServeFrames(cfg, d).0|
    ensures i == |d.frames|
  {
    RepliesSize(cfg, d.frames);
  }

  /**
   * In every run, however the input is cut and whatever the input limit: the
   * status of the i-th response follows from the i-th frame; a refused version,
   * type, flag or body is answered last and closes the connection; a request
   * that is served gets what the registrations make due for it.
   */
  lemma ResponsesFollowRules(cfg: Config, chunks: seq<bytes>, i: nat, offers: seq<Offer>, r: Request)
    requires i < |ReceiveAll(cfg, chunks).sent| && i < |Drain(cfg.limit, Flatten(chunks)).frames|
    ensures var c := ReceiveAll(cfg, chunks); var f := Drain(cfg.limit, Flatten(chunks)).frames[i];
      var status := c.sent[i].header.status;
      && StatusFollows(cfg.serializer, f, status) && WellFormed(f, c.sent[i])
      && (Terminal(status) ==> i == |c.sent| - 1 && !c.open)
      && (Plain(f.header) && f.header.serializer == cfg.serializer && EncodeRequest(r) == Some(f.body)
          && cfg.table == RegisterAll(offers) && Undotted(offers) && DOT !in r.service ==>
            Due(Accepted(offers), r, status, c.sent[i].body))
  {
    var f := Drain(cfg.limit, Flatten(chunks)).frames[i];
    SentIsReply(cfg, chunks, i);
    ReplyFollows(cfg, f);
    EnvelopeDecodes(f.body);
    if Undotted(offers) && DOT !in r.service {
      DispatchIsDue(offers, r);
    }
  }

  // ----- When the connection stays open -----

  /** The frame leaves the connection open: an other serializer, or a request whose result can be sent. */
  ghost predicate Keeps(cfg: Config, f: Frame) {
    && Plain(f.header)
    && (f.header.serializer != cfg.serializer
        || exists r :: EncodeRequest(r) == Some(f.body) && |Dispatch(cfg.table, r).1| <= 0x100_0000)
  }

  lemma AnswerIffKeeps(cfg: Config, f: Frame)
    ensures ReplyTo(cfg, f).Answer? <==> Keeps(cfg, f)
  {
    EnvelopeDecodes(f.body);
    if DecodeRequest(f.body).Some? {
      assert EncodeRequest(DecodeRequest(f.body).value) == Some(f.body);
    }
  }

  lemma {:induction false} OpenIffAllKeep(cfg: Config, fs: seq<Frame>)
    ensures Replies(cfg, fs).1 <==> forall i :: 0 <= i < |fs| ==> Keeps(cfg, fs[i])
  {
    if fs != [] {
      AnswerIffKeeps(cfg, fs[0]);
      OpenIffAllKeep(cfg, fs[1..]);
      assert forall i :: 0 < i < |fs| ==> fs[i] == fs[1..][i - 1];
    }
  }

  /**
   * With a roomy input limit the connection is open after the input exactly when
   * every frame of it keeps it open and no part of it is unreadable; then every
   * frame has its response. An unreadable part behind such frames is answered
   * exactly when it begins with the magic, that is, when only its size is wrong.
   */
  lemma OpenIff(cfg: Config, chunks: seq<bytes>)
    requires RoomyInput(cfg)
    ensures var c, d := ReceiveAll(cfg, chunks), Drain(cfg.limit, Flatten(chunks));
      var kept := forall i :: 0 <= i < |d.frames| ==> Keeps(cfg, d.frames[i]);
      && (c.open <==> kept && !d.bad)
      && (kept ==> |c.sent| == |d.frames| + if d.bad && [0x52, 0x4E] <= d.rest then 1 else 0)
  {
    var d := Drain(cfg.limit, Flatten(chunks));
    ServerIsStreamFunction(cfg, chunks);
    OpenIffAllKeep(cfg, d.frames);
    RepliesSize(cfg, d.frames);
    if d.bad {
      BadRest(cfg.limit, Flatten(chunks));
      MagicBytes(d.rest);
    }
  }

  /** One onMessage leaves an open connection open exactly if no reply closes it and not too much is left over. */
  lemma {:induction false} OnMessageOpen(cfg: Config, c: Conn)
    requires c.open
    ensures OnMessage(cfg, c).open <==>
      Serve(cfg, c.buffered).1 && |Drain(cfg.limit, c.buffered).rest| <= InputLimit(cfg)
    decreases |c.buffered|
  {
    match ParseFrame(cfg.limit, c.buffered)
    case Complete(f, rest) =>
      if ReplyTo(cfg, f).Answer? {
        AnswerFirst(cfg, c.buffered, rest, f, ReplyTo(cfg, f).frame);
        OnMessageOpen(cfg, Emit(c, ReplyTo(cfg, f)).(buffered := rest));
      } else {
        ClosingFirst(cfg, c.buffered, rest, f);
        OnMessageServes(cfg, c);
      }
    case _ => OnMessageServes(cfg, c);
  }

  /**
   * With any input limit: the next read leaves the connection open exactly when
   * every frame so far keeps it open, no part of the input is unreadable, and
   * what is left over is within the configured limit, which is the frame limit if
   * none is set and never less than a header.
   */
  lemma OpenAfterRead(cfg: Config, chunks: seq<bytes>, t: bytes)
    requires ReceiveAll(cfg, chunks).open
    ensures var d := Drain(cfg.limit, Flatten(chunks + [t])); var n := cfg.inputLimit;
      ReceiveAll(cfg, chunks + [t]).open <==>
        && (forall i :: 0 <= i < |d.frames| ==> Keeps(cfg, d.frames[i])) && !d.bad
        && |d.rest| <= if n == 0 then cfg.limit else if n < 16 then 16 else n
  {
    var c, s := ReceiveAll(cfg, chunks), Flatten(chunks);
    AlwaysServedSoFar(cfg, chunks);
    ReceiveSnoc(cfg, chunks, t);
    FlattenSnoc(chunks, t);
    OnMessageOpen(cfg, c.(buffered := c.buffered + t));
    ServeConcat(cfg, s, t);
    OpenIffAllKeep(cfg, Drain(cfg.limit, s + t).frames);
  }

  lemma MagicBytes(s: bytes)
    requires |s| >= 16
    ensures DecodeHeader(s).Some? <==> [0x52, 0x4E] <= s
  {
    U16Reencodes(s[..2]);
    assert s[..2] == [0x52, 0x4E] ==> GetU16(s[..2]) == 0x4E52;
  }

  // ----- Which handlers run -----

  /** The requests in frames that are plain, of the right serializer, and well formed. */
  ghost function Servable(serializer: byte, fs: seq<Frame>): seq<Request> {
    if fs == [] then []
    else if Plain(fs[0].header) && fs[0].header.serializer == serializer && IsEnvelope(fs[0].body) then
      var r :| EncodeRequest(r) == Some(fs[0].body);
      [r] + Servable(serializer, fs[1..])
    else Servable(serializer, fs[1..])
  }

  lemma {:induction false} DispatchedAreServable(cfg: Config, fs: seq<Frame>)
    ensures AllDispatched(cfg, fs) == Servable(cfg.serializer, fs)
  {
    if fs != [] {
      EnvelopeDecodes(fs[0].body);
      DispatchedAreServable(cfg, fs[1..]);
    }
  }

  /** In every run the handlers called are those for the servable frames among the first `n`, in order. */
  lemma HandlersFollowRules(cfg: Config, chunks: seq<bytes>) returns (n: nat)
    ensures n <= |Drain(cfg.limit, Flatten(chunks)).frames|
    ensures LogFrom(cfg, [], chunks) == Servable(cfg.serializer, Drain(cfg.limit, Flatten(chunks)).frames[..n])
  {
    assert [] + Flatten(chunks) == Flatten(chunks) && ParseFrame(cfg.limit, []) == NeedMore;
    var gs, hs := LogSpans(cfg, [], chunks, false);
    n := |gs|;
    assert (gs + hs)[..n] == gs;
    DispatchedAreServable(cfg, gs);
  }

  /** The frames in front of the first that is not plain. */
  function Leading(fs: seq<Frame>): seq<Frame> {
    if fs == [] || !Plain(fs[0].header) then [] else [fs[0]] + Leading(fs[1..])
  }

  lemma {:induction false} LogIsLeading(cfg: Config, s: bytes)
    ensures Log(cfg, s) == AllDispatched(cfg, Leading(Drain(cfg.limit, s).frames))
    decreases |s|
  {
    match ParseFrame(cfg.limit, s)
    case Complete(f, rest) =>
      var d := Drain(cfg.limit, rest);
      DrainFirst(cfg.limit, s, f, rest);
      assert ([f] + d.frames)[1..] == d.frames;
      if Plain(f.header) {
        LogIsLeading(cfg, rest);
        DispatchedFirst(cfg, f, Leading(d.frames));
      }
    case _ =>
  }

  /** In one read the handlers called are those for the servable frames before the first frame that is not plain. */
  lemma OneReadRuns(cfg: Config, s: bytes)
    ensures LogFrom(cfg, [], [s]) == Servable(cfg.serializer, Leading(Drain(cfg.limit, s).frames))
  {
    OneRead(cfg, s);
    LogIsLeading(cfg, s);
    DispatchedAreServable(cfg, Leading(Drain(cfg.limit, s).frames));
  }
}
