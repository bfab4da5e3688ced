/**
 * A client and a server joined by two in-order byte streams that deliver any
 * prefix in any pieces: every answer a call gets is the server's answer to
 * that call's own request.
 */
module Session {
  import opened Bytes
  import opened Protocol
  import opened Framing
  import opened Registry
  import S = ServerStream
  import opened ClientSession

  /** `up` and `down` count the bytes delivered to the server and to the client. */
  datatype System = System(client: Client, server: S.Conn, up: nat, down: nat)

  datatype Move = Local(a: Act) | Deadline(id: uint32) | Disconnected | ToServer(n: nat) | ToClient(n: nat)

  function Requests(c: Client): seq<Frame> {
    seq(|c.issued|, i requires 0 <= i < |c.issued| => RequestFrame(c.serializer, c.issued[i]))
  }

  /** Everything the client has sent. */
  ghost function Upstream(s: System): bytes { EncodeFrames(Requests(s.client)) }

  /** Everything the server has sent. */
  ghost function Downstream(s: System): bytes { EncodeFrames(s.server.sent) }

  function Connected(serializer: byte, limit: Limit): System {
    System(Initial(serializer, limit).(linked := true, sendable := true), S.FRESH, 0, 0)
  }

  ghost function Next(cfg: S.Config, order: Order, s: System, m: Move): System
    requires LawfulOrder(order)
  {
    match m
    case Local(a) => s.(client := Run(s.client, a))
    case Deadline(id) => s.(client := OnTimeout(s.client, id))
    case Disconnected => s.(client := OnConnection(order, s.client, false))
    case ToServer(n) => if s.up + n > |Upstream(s)| then s else DeliverUp(cfg, s, n)
    case ToClient(n) => if s.down + n > |Downstream(s)| || s.client.stuck then s else DeliverDown(order, s, n)
  }

  /** The next `n` bytes reach the server. */
  ghost function DeliverUp(cfg: S.Config, s: System, n: nat): System
    requires s.up + n <= |Upstream(s)|
  {
    s.(server := S.OnMessage(cfg, Fed(Requests(s.client), s.server, s.up, n)), up := s.up + n)
  }

  ghost function Fed(reqs: seq<Frame>, c: S.Conn, up: nat, n: nat): S.Conn
    requires up + n <= |EncodeFrames(reqs)|
  {
    c.(buffered := c.buffered + EncodeFrames(reqs)[up..up + n])
  }

  ghost function WithChunk(c: Client, sent: seq<Frame>, down: nat, n: nat): Client
    requires down + n <= |EncodeFrames(sent)|
  {
    c.(buffered := c.buffered + EncodeFrames(sent)[down..down + n])
  }

  /** The next `n` bytes reach the client. */
  ghost function DeliverDown(order: Order, s: System, n: nat): System
    requires LawfulOrder(order) && s.down + n <= |Downstream(s)|
  {
    s.(client := OnMessage(order, WithChunk(s.client, s.server.sent, s.down, n)), down := s.down + n)
  }

  ghost function Reach(cfg: S.Config, order: Order, s: System, ms: seq<Move>): System
    requires LawfulOrder(order)
  {
    if ms == [] then s else Next(cfg, order, Reach(cfg, order, s, ms[..|ms| - 1]), ms[|ms| - 1])
  }

  // ----- What the server owes for a request -----

  function Expected(cfg: S.Config, f: Frame): S.Reply {
    if |f.body| > MaxBody(cfg.limit) then S.Reject(f.header.requestId, BODY_TOO_LARGE) else S.ReplyTo(cfg, f)
  }

  /** The response a call deserves, told from its request alone. */
  function Ideal(cfg: S.Config, serializer: byte, r: Request): Response {
    if EncodeRequest(r).Some? && |EncodeRequest(r).value| > MaxBody(cfg.limit) then Response(BODY_TOO_LARGE, [], 0)
    else if serializer != cfg.serializer then Response(UNSUPPORTED_SERIALIZER, [], serializer)
    else
      var (status, payload) := Dispatch(cfg.table, r);
      Response(status, payload, serializer)
  }

  function ResponseOf(f: Frame): Response { Response(f.header.status, f.body, f.header.serializer) }

  /** The envelope survives the trip, so the server's reply is the ideal one for the request. */
  lemma ExpectedIsIdeal(cfg: S.Config, serializer: byte, i: Issue, r: Request)
    requires EncodeRequest(r) == Some(i.body)
    ensures var e := Expected(cfg, RequestFrame(serializer, i));
      !e.Drop? ==> ResponseOf(e.frame) == Ideal(cfg, serializer, r) && e.frame.header.requestId == i.id
  {
    EnvelopeBijection(r, i.body);
  }

  // ----- Reading a stream of whole frames -----

  predicate WellFramed(f: Frame) { f.header.magic == MAGIC && f.header.bodyLen == |f.body| }

  ghost predicate AllWellFramed(fs: seq<Frame>) { forall i :: 0 <= i < |fs| ==> WellFramed(fs[i]) }

  /** A reader at a frame boundary sees that frame, part of it, or that it is too large. */
  lemma NextFrame(limit: Limit, f: Frame, rest: bytes, s: bytes)
    requires WellFramed(f) && s <= EncodeFrame(f) + rest
    ensures match ParseFrame(limit, s)
      case NeedMore => true
      case ProtocolError => |f.body| > MaxBody(limit) && DecodeHeader(s) == Some(f.header)
      case Complete(g, t) => g == f && |f.body| <= MaxBody(limit) && s == EncodeFrame(f) + t
  {
    var w := EncodeFrame(f) + rest;
    var t := w[|s|..];
    assert w == s + t;
    assert w == EncodeHeader(f.header) + (f.body + rest) by { Associate(EncodeHeader(f.header), f.body, rest); }
    HeaderRoundTrip(f.header, f.body + rest);
    if |s| >= HEADER_SIZE {
      DecodeHeaderPrefix(s, t);
      if ParseFrame(limit, s).Complete? {
        var n := HEADER_SIZE + |f.body|;
        assert s[..n] == w[..n] == EncodeFrame(f);
        assert s == s[..n] + s[n..];
        assert s[HEADER_SIZE..n] == EncodeFrame(f)[HEADER_SIZE..n] == f.body;
      }
    }
  }

  /** `buffered` is what is left of `seen`, a prefix of the stream of `fs`, after `q` whole frames. */
  ghost predicate AtFrame(fs: seq<Frame>, seen: bytes, q: nat, buffered: bytes) {
    && AllWellFramed(fs) && q <= |fs|
    && seen <= EncodeFrames(fs)
    && seen == EncodeFrames(fs[..q]) + buffered
  }

  lemma SplitAt(fs: seq<Frame>, q: nat)
    requires q < |fs|
    ensures EncodeFrames(fs) == EncodeFrames(fs[..q]) + (EncodeFrame(fs[q]) + EncodeFrames(fs[q + 1..]))
  {
    assert fs == fs[..q] + fs[q..];
    EncodeFramesAppend(fs[..q], fs[q..]);
    assert fs[q..][0] == fs[q] && fs[q..][1..] == fs[q + 1..];
  }

  lemma OneMore(fs: seq<Frame>, q: nat)
    requires q < |fs|
    ensures EncodeFrames(fs[..q + 1]) == EncodeFrames(fs[..q]) + EncodeFrame(fs[q])
  {
    assert fs[..q + 1] == fs[..q] + [fs[q]];
    EncodeFramesSnoc(fs[..q], fs[q]);
  }

  lemma PrefixCancel(a: bytes, s: bytes, t: bytes)
    requires a + s <= a + t
    ensures s <= t
  {
    assert (a + s)[|a|..] == s && (a + t)[|a|..] == t;
    assert (a + t)[..|a| + |s|] == a + s;
    assert (a + t)[|a|..|a| + |s|] == s;
  }

  /** What parsing yields at a frame boundary. */
  lemma ReadsNextFrame(limit: Limit, fs: seq<Frame>, seen: bytes, q: nat, buffered: bytes)
    requires AtFrame(fs, seen, q, buffered)
    ensures match ParseFrame(limit, buffered)
      case NeedMore => true
      case ProtocolError =>
        q < |fs| && |fs[q].body| > MaxBody(limit) && DecodeHeader(buffered) == Some(fs[q].header)
      case Complete(f, rest) =>
        q < |fs| && f == fs[q] && |f.body| <= MaxBody(limit) && AtFrame(fs, seen, q + 1, rest)
  {
    if q == |fs| {
      assert fs[..q] == fs;
      assert buffered == [];
    } else {
      SplitAt(fs, q);
      var tail := EncodeFrames(fs[q + 1..]);
      PrefixCancel(EncodeFrames(fs[..q]), buffered, EncodeFrame(fs[q]) + tail);
      NextFrame(limit, fs[q], tail, buffered);
      if ParseFrame(limit, buffered).Complete? {
        OneMore(fs, q);
        Associate(EncodeFrames(fs[..q]), EncodeFrame(fs[q]), ParseFrame(limit, buffered).rest);
      }
    }
  }

  /** The next `n` bytes of the stream arrive. */
  lemma MoreArrives(fs: seq<Frame>, at: nat, n: nat, q: nat, buffered: bytes)
    requires at + n <= |EncodeFrames(fs)| && AtFrame(fs, EncodeFrames(fs)[..at], q, buffered)
    ensures AtFrame(fs, EncodeFrames(fs)[..at + n], q, buffered + EncodeFrames(fs)[at..at + n])
  {
    var w := EncodeFrames(fs);
    var chunk := w[at..at + n];
    assert w[..at + n] == w[..at] + chunk;
    Associate(EncodeFrames(fs[..q]), buffered, chunk);
  }

  /** The stream grows at its end. */
  lemma StreamGrows(fs: seq<Frame>, gs: seq<Frame>, seen: bytes, q: nat, buffered: bytes)
    requires AtFrame(fs, seen, q, buffered) && AllWellFramed(gs) && fs <= gs
    ensures AtFrame(gs, seen, q, buffered) && EncodeFrames(fs) <= EncodeFrames(gs)
  {
    assert gs == fs + gs[|fs|..];
    EncodeFramesAppend(fs, gs[|fs|..]);
    assert gs[..q] == fs[..q];
  }

  // ----- The server's side -----

  /** The frames sent are, one for one, the replies owed to the first requests. */
  ghost predicate Replies(cfg: S.Config, reqs: seq<Frame>, sent: seq<Frame>) {
    && |sent| <= |reqs|
    && forall k :: 0 <= k < |sent| ==> !Expected(cfg, reqs[k]).Drop? && sent[k] == Expected(cfg, reqs[k]).frame
  }

  ghost predicate Serving(cfg: S.Config, reqs: seq<Frame>, c: S.Conn, seen: bytes, q: nat) {
    && AtFrame(reqs, seen, q, c.buffered) && Replies(cfg, reqs, c.sent)
    && (c.open ==> |c.sent| == q)
  }

  lemma {:induction false} ServerKeepsServing(cfg: S.Config, reqs: seq<Frame>, c: S.Conn, seen: bytes, q: nat)
    returns (q': nat)
    requires Serving(cfg, reqs, c, seen, q)
    ensures Serving(cfg, reqs, S.OnMessage(cfg, c), seen, q')
    ensures c.sent <= S.OnMessage(cfg, c).sent
    decreases |c.buffered|
  {
    q' := q;
    match ParseFrame(cfg.limit, c.buffered) {
      case NeedMore => ClosesServing(cfg, reqs, c, seen, q);
      case ProtocolError => RefusesFrame(cfg, reqs, c, seen, q);
      case Complete(f, rest) =>
        ServesFrame(cfg, reqs, c, seen, q, f, rest);
        var c1 := S.Emit(c, S.ReplyTo(cfg, f)).(buffered := rest);
        if S.StopsLoop(f) {
          q' := q + 1;
        } else {
          q' := ServerKeepsServing(cfg, reqs, c1, seen, q + 1);
        }
    }
  }

  lemma ClosesServing(cfg: S.Config, reqs: seq<Frame>, c: S.Conn, seen: bytes, q: nat)
    requires Serving(cfg, reqs, c, seen, q)
    ensures Serving(cfg, reqs, c.(open := false), seen, q)
  {
  }

  lemma ServesFrame(cfg: S.Config, reqs: seq<Frame>, c: S.Conn, seen: bytes, q: nat, f: Frame, rest: bytes)
    requires Serving(cfg, reqs, c, seen, q) && ParseFrame(cfg.limit, c.buffered) == Complete(f, rest)
    ensures var c' := S.Emit(c, S.ReplyTo(cfg, f)).(buffered := rest);
      Serving(cfg, reqs, c', seen, q + 1) && c.sent <= c'.sent
  {
    ReadsNextFrame(cfg.limit, reqs, seen, q, c.buffered);
    ReplyAppended(cfg, reqs, c, q);
  }

  lemma RefusesFrame(cfg: S.Config, reqs: seq<Frame>, c: S.Conn, seen: bytes, q: nat)
    requires Serving(cfg, reqs, c, seen, q) && ParseFrame(cfg.limit, c.buffered) == ProtocolError
    ensures var c' := S.Emit(c, S.ReplyToBad(c.buffered)); Serving(cfg, reqs, c', seen, q) && c.sent <= c'.sent
  {
    ReadsNextFrame(cfg.limit, reqs, seen, q, c.buffered);
    ReplyAppended(cfg, reqs, c, q);
  }

  /** Carrying out the reply owed to request `q` keeps the replies in step. */
  lemma ReplyAppended(cfg: S.Config, reqs: seq<Frame>, c: S.Conn, q: nat)
    requires Replies(cfg, reqs, c.sent) && q < |reqs| && (c.open ==> |c.sent| == q)
    ensures var c' := S.Emit(c, Expected(cfg, reqs[q]));
      Replies(cfg, reqs, c'.sent) && c.sent <= c'.sent && (c'.open ==> |c'.sent| == q + 1)
  {
  }

  // ----- The client's side -----

  /** Bodies on the wire are the encoded requests of their calls. */
  ghost predicate IssuesEncode(c: Client) {
    forall i :: 0 <= i < |c.issued| ==>
      c.issued[i].call < |c.requests| && EncodeRequest(c.requests[c.issued[i].call]) == Some(c.issued[i].body)
  }

  /** While the counter has not come round, ids count up, and an id on the wire belongs to its call. */
  ghost predicate Numbered(c: Client) {
    && c.nextId == (c.taken + 1) % ID_SPACE
    && (forall id :: id in c.pendings ==> 1 <= id <= c.taken)
    && (forall id :: id in c.timedOutSet ==> 1 <= id <= c.taken)
    && (forall i :: 0 <= i < |c.issued| ==> 1 <= c.issued[i].id <= c.taken)
    && (forall i :: 0 <= i < |c.issued| && c.issued[i].id in c.pendings ==>
          c.pendings[c.issued[i].id].call == c.issued[i].call)
  }

  /** Every answer from the wire is the ideal response to the call's request. */
  ghost predicate Justified(cfg: S.Config, c: Client) {
    forall i :: 0 <= i < |c.done| && c.done[i].answered ==>
      c.done[i].call < |c.requests| && c.done[i].response == Ideal(cfg, c.serializer, c.requests[c.done[i].call])
  }

  ghost predicate Correlated(cfg: S.Config, c: Client) {
    IssuesEncode(c) && (c.taken < ID_SPACE ==> Numbered(c) && Justified(cfg, c))
  }

  /** Requests and issues only grow, and ids are never given back. */
  predicate Grew(c: Client, c': Client) {
    && c.requests <= c'.requests && c.issued <= c'.issued && c.taken <= c'.taken && c.serializer == c'.serializer
  }

  lemma EnterIssues(c: Client, id: uint32, p: Pending, body: Body)
    requires IssuesEncode(c) && p.call < |c.requests| && EncodeRequest(c.requests[p.call]) == Some(body)
    ensures IssuesEncode(Enter(c, id, p, body))
  {
  }

  /** Before the counter comes round, the next id is free and so is the one taken. */
  lemma NextIdIsFree(c: Client)
    requires Numbered(c) && c.taken + 1 < ID_SPACE
    ensures Allocate(c) == Some(c.nextId) && c.nextId == c.taken + 1
  {
    assert Free(c, c.nextId);
    assert Scan(c, c.nextId, ID_SPACE) == Some(c.nextId);
  }

  lemma EnterNumbers(c: Client, p: Pending, body: Body)
    requires Numbered(c) && c.taken + 1 < ID_SPACE
    ensures Numbered(Enter(c, c.taken + 1, p, body))
  {
  }

  lemma EnterKeeps(cfg: S.Config, c: Client, p: Pending, body: Body)
    requires Correlated(cfg, c) && Allocate(c).Some?
    requires p.call < |c.requests| && EncodeRequest(c.requests[p.call]) == Some(body)
    ensures var c' := Enter(c, Allocate(c).value, p, body); Correlated(cfg, c') && Grew(c, c')
  {
    EnterIssues(c, Allocate(c).value, p, body);
    if c.taken + 1 < ID_SPACE {
      NextIdIsFree(c);
      EnterNumbers(c, p, body);
    }
  }

  /** A completion the client makes up itself does not disturb correlation. */
  lemma LocalCompletion(cfg: S.Config, c: Client, d: Completion)
    requires Correlated(cfg, c) && !d.answered
    ensures Correlated(cfg, c.(done := c.done + [d]))
  {
  }

  lemma RequestAppended(cfg: S.Config, c: Client, r: Request)
    requires Correlated(cfg, c)
    ensures var c' := c.(requests := c.requests + [r]); Correlated(cfg, c') && Grew(c, c')
  {
  }

  lemma {:induction false} RunKeeps(cfg: S.Config, c: Client, a: Act)
    requires Correlated(cfg, c)
    ensures Correlated(cfg, Run(c, a)) && Grew(c, Run(c, a))
    decreases a, 1
  {
    if !c.stuck && a.StartCall? {
      if c.linked && EncodeRequest(a.request).Some? {
        IssueKeeps(cfg, c, a);
      } else {
        RefusalKeeps(cfg, c, a);
      }
    }
  }

  /** A call that ends before anything is sent. */
  lemma {:induction false} RefusalKeeps(cfg: S.Config, c: Client, a: Act)
    requires Correlated(cfg, c) && !c.stuck && a.StartCall? && (!c.linked || EncodeRequest(a.request).None?)
    ensures Correlated(cfg, Run(c, a)) && Grew(c, Run(c, a))
    decreases a, 0
  {
    var c0 := c.(requests := c.requests + [a.request]);
    var response := if c.linked then BAD_REQUEST_RESPONSE else CLOSED_RESPONSE;
    RequestAppended(cfg, c, a.request);
    LocalFinish(cfg, c0, Completion(|c.requests|, response, false), a.after);
  }

  /** A call that gets an id, or waits for one forever. */
  lemma IssueKeeps(cfg: S.Config, c: Client, a: Act)
    requires Correlated(cfg, c) && !c.stuck && a.StartCall? && c.linked && EncodeRequest(a.request).Some?
    ensures Correlated(cfg, Run(c, a)) && Grew(c, Run(c, a))
  {
    var c0 := c.(requests := c.requests + [a.request]);
    RequestAppended(cfg, c, a.request);
    if Allocate(c0).Some? {
      EnterKeeps(cfg, c0, Pending(|c.requests|, a.after, a.timed), EncodeRequest(a.request).value);
    }
  }

  lemma {:induction false} LocalFinish(cfg: S.Config, c: Client, d: Completion, acts: seq<Act>)
    requires Correlated(cfg, c) && !d.answered
    ensures Correlated(cfg, Finish(c, d, acts)) && Grew(c, Finish(c, d, acts))
    decreases acts, 3
  {
    LocalCompletion(cfg, c, d);
    RunAllKeeps(cfg, c.(done := c.done + [d]), acts);
  }

  lemma {:induction false} RunAllKeeps(cfg: S.Config, c: Client, acts: seq<Act>)
    requires Correlated(cfg, c)
    ensures Correlated(cfg, RunAll(c, acts)) && Grew(c, RunAll(c, acts))
    decreases acts, 2
  {
    if acts != [] {
      RunKeeps(cfg, c, acts[0]);
      RunAllKeeps(cfg, Run(c, acts[0]), acts[1..]);
    }
  }

  lemma FinishKeeps(cfg: S.Config, c: Client, d: Completion, acts: seq<Act>)
    requires Correlated(cfg, c.(done := c.done + [d]))
    ensures Correlated(cfg, Finish(c, d, acts)) && Grew(c, Finish(c, d, acts))
  {
    RunAllKeeps(cfg, c.(done := c.done + [d]), acts);
  }

  lemma TimeoutKeeps(cfg: S.Config, c: Client, id: uint32)
    requires Correlated(cfg, c)
    ensures Correlated(cfg, OnTimeout(c, id)) && Grew(c, OnTimeout(c, id))
  {
    if !c.stuck && id in c.pendings {
      var p := c.pendings[id];
      var c1 := Remember(Take(c, id), id);
      var d := Completion(p.call, TIMEOUT_RESPONSE, false);
      RememberedKeeps(cfg, c, id);
      LocalFinish(cfg, c1, d, p.after);
    }
  }

  lemma RememberedKeeps(cfg: S.Config, c: Client, id: uint32)
    requires Correlated(cfg, c) && id in c.pendings
    ensures Correlated(cfg, Remember(Take(c, id), id))
  {
    TakenKeeps(cfg, c, id);
    var c1 := Take(c, id);
    var c2 := Remember(c1, id);
    assert c2 == c1.(timedOut := c2.timedOut, timedOutSet := c2.timedOutSet);
  }

  lemma TakenKeeps(cfg: S.Config, c: Client, id: uint32)
    requires Correlated(cfg, c) && id in c.pendings
    ensures Correlated(cfg, Take(c, id))
  {
  }

  lemma {:induction false} FailLoopKeeps(cfg: S.Config, c: Client)
    requires Correlated(cfg, c)
    ensures Correlated(cfg, FailLoop(c)) && Grew(c, FailLoop(c))
    decreases |c.failing|
  {
    if !c.stuck && c.failing != [] {
      var p := c.failing[0];
      var c1 := NextFailing(c);
      var d := Completion(p.call, CLOSED_RESPONSE, false);
      LocalFinish(cfg, c1, d, p.after);
      FailLoopKeeps(cfg, Finish(c1, d, p.after));
    }
  }

  lemma FailAllKeeps(cfg: S.Config, order: Order, c: Client)
    requires LawfulOrder(order) && Correlated(cfg, c)
    ensures Correlated(cfg, FailAll(order, c)) && Grew(c, FailAll(order, c))
  {
    if !c.stuck {
      FailLoopKeeps(cfg, c.(pendings := map[], failing := Entries(c.pendings, order(c.pendings))));
    }
  }

  lemma BufferIrrelevant(cfg: S.Config, c: Client, buffered: bytes)
    requires Correlated(cfg, c)
    ensures var c' := c.(buffered := buffered); Correlated(cfg, c') && Requests(c') == Requests(c)
  {
  }

  lemma SendableIrrelevant(cfg: S.Config, c: Client, linked: bool, sendable: bool)
    requires Correlated(cfg, c)
    ensures Correlated(cfg, c.(linked := linked, sendable := sendable))
  {
  }

  lemma FailConnectionKeeps(cfg: S.Config, order: Order, c: Client)
    requires LawfulOrder(order) && Correlated(cfg, c)
    ensures Correlated(cfg, FailConnection(order, c)) && Grew(c, FailConnection(order, c))
  {
    FailAllKeeps(cfg, order, c);
    var c1 := FailAll(order, c);
    SendableIrrelevant(cfg, c1, c1.linked, false);
  }

  /** The frame at position `p` carries the id and the ideal response of the request at position `p`. */
  lemma ReplyAt(cfg: S.Config, c: Client, sent: seq<Frame>, p: nat)
    requires IssuesEncode(c) && Replies(cfg, Requests(c), sent) && p < |sent|
    ensures sent[p].header.requestId == c.issued[p].id
    ensures ResponseOf(sent[p]) == Ideal(cfg, c.serializer, c.requests[c.issued[p].call])
  {
    assert sent[p] == Expected(cfg, Requests(c)[p]).frame;
    ExpectedIsIdeal(cfg, c.serializer, c.issued[p], c.requests[c.issued[p].call]);
  }

  /** Recording the response to a pending call keeps everything justified. */
  lemma AnswerRecorded(cfg: S.Config, c: Client, p: nat, response: Response)
    requires Correlated(cfg, c) && p < |c.issued| && c.issued[p].id in c.pendings
    requires response == Ideal(cfg, c.serializer, c.requests[c.issued[p].call])
    ensures var id := c.issued[p].id;
      Correlated(cfg, Take(c, id).(
                         done := c.done + [Completion(c.pendings[id].call, response, true)]))
  {
  }

  lemma AnswerFinished(cfg: S.Config, c: Client, id: uint32, response: Response)
    requires id in c.pendings
    requires Correlated(cfg, Take(c, id).(
                                done := c.done + [Completion(c.pendings[id].call, response, true)]))
    ensures var p := c.pendings[id];
      var c' := Finish(Take(c, id), Completion(p.call, response, true), p.after);
      Correlated(cfg, c') && Grew(c, c')
  {
    var p := c.pendings[id];
    FinishKeeps(cfg, Take(c, id), Completion(p.call, response, true), p.after);
  }

  lemma AnswerKeeps(cfg: S.Config, order: Order, c: Client, sent: seq<Frame>, p: nat)
    requires LawfulOrder(order) && !c.stuck && Correlated(cfg, c)
    requires Replies(cfg, Requests(c), sent) && p < |sent|
    ensures var c' := OnFrame(order, c, sent[p]); Correlated(cfg, c') && Grew(c, c')
  {
    var f := sent[p];
    var id := f.header.requestId;
    ReplyAt(cfg, c, sent, p);
    if !GoesOn(c, f) {
      FailConnectionKeeps(cfg, order, c);
    } else if id in c.pendings {
      AnswerRecorded(cfg, c, p, ResponseOf(f));
      AnswerFinished(cfg, c, id, ResponseOf(f));
    }
  }

  ghost predicate Listening(cfg: S.Config, c: Client, sent: seq<Frame>, seen: bytes, p: nat) {
    Correlated(cfg, c) && Replies(cfg, Requests(c), sent) && AtFrame(sent, seen, p, c.buffered)
  }

  lemma RepliesGrow(cfg: S.Config, c: Client, c': Client, sent: seq<Frame>)
    requires Grew(c, c') && Replies(cfg, Requests(c), sent)
    ensures Replies(cfg, Requests(c'), sent) && Requests(c) <= Requests(c')
  {
  }

  lemma StillListening(cfg: S.Config, c: Client, c': Client, sent: seq<Frame>, seen: bytes, p: nat)
    requires Listening(cfg, c, sent, seen, p)
    requires Correlated(cfg, c') && Grew(c, c') && c'.buffered == c.buffered
    ensures Listening(cfg, c', sent, seen, p)
  {
    RepliesGrow(cfg, c, c', sent);
  }

  lemma FrameKeepsListening(cfg: S.Config, order: Order, c: Client, sent: seq<Frame>, seen: bytes, p: nat)
    requires LawfulOrder(order) && !c.stuck && p < |sent|
    requires Listening(cfg, c, sent, seen, p + 1)
    ensures var c' := OnFrame(order, c, sent[p]); Listening(cfg, c', sent, seen, p + 1) && Grew(c, c')
  {
    AnswerKeeps(cfg, order, c, sent, p);
    StillListening(cfg, c, OnFrame(order, c, sent[p]), sent, seen, p + 1);
  }

  lemma FaultKeepsListening(cfg: S.Config, order: Order, c: Client, sent: seq<Frame>, seen: bytes, p: nat)
    requires LawfulOrder(order) && Listening(cfg, c, sent, seen, p)
    ensures var c' := FailConnection(order, c); Listening(cfg, c', sent, seen, p) && Grew(c, c')
  {
    FailConnectionKeeps(cfg, order, c);
    StillListening(cfg, c, FailConnection(order, c), sent, seen, p);
  }

  /** Only the position in the stream changes. */
  lemma Repositioned(cfg: S.Config, c: Client, sent: seq<Frame>, seen: bytes, p: nat, rest: bytes)
    requires Correlated(cfg, c) && Replies(cfg, Requests(c), sent) && AtFrame(sent, seen, p, rest)
    ensures Listening(cfg, c.(buffered := rest), sent, seen, p)
  {
    BufferIrrelevant(cfg, c, rest);
  }

  lemma {:induction false} ClientKeepsListening(
    cfg: S.Config, order: Order, c: Client, sent: seq<Frame>, seen: bytes, p: nat) returns (p': nat)
    requires LawfulOrder(order) && Listening(cfg, c, sent, seen, p)
    ensures Listening(cfg, OnMessage(order, c), sent, seen, p') && Grew(c, OnMessage(order, c))
    decreases |c.buffered|
  {
    p' := p;
    if !c.stuck {
      ReadsNextFrame(c.limit, sent, seen, p, c.buffered);
      match ParseFrame(c.limit, c.buffered) {
        case NeedMore =>
        case ProtocolError => FaultKeepsListening(cfg, order, c, sent, seen, p);
        case Complete(f, rest) =>
          Repositioned(cfg, c, sent, seen, p + 1, rest);
          FrameKeepsListening(cfg, order, c.(buffered := rest), sent, seen, p);
          var c1 := OnFrame(order, c.(buffered := rest), f);
          if GoesOn(c, f) {
            p' := ClientKeepsListening(cfg, order, c1, sent, seen, p + 1);
          } else {
            p' := p + 1;
          }
      }
    }
  }

  // ----- The whole system -----

  /** Both readers stand at frame boundaries of the other side's stream, and every answer is justified. */
  ghost predicate InStep(cfg: S.Config, s: System, q: nat, p: nat) {
    && s.up <= |Upstream(s)| && s.down <= |Downstream(s)|
    && Serving(cfg, Requests(s.client), s.server, Upstream(s)[..s.up], q)
    && Listening(cfg, s.client, s.server.sent, Downstream(s)[..s.down], p)
  }

  lemma RequestsWellFramed(c: Client)
    ensures AllWellFramed(Requests(c))
  {
  }

  /** The client sends more: nothing already delivered changes. */
  lemma ClientMoves(cfg: S.Config, s: System, c: Client, q: nat, p: nat)
    requires InStep(cfg, s, q, p) && Correlated(cfg, c) && Grew(s.client, c) && c.buffered == s.client.buffered
    ensures InStep(cfg, s.(client := c), q, p)
  {
    var s' := s.(client := c);
    RepliesGrow(cfg, s.client, c, s.server.sent);
    RequestsWellFramed(c);
    StreamGrows(Requests(s.client), Requests(c), Upstream(s)[..s.up], q, s.server.buffered);
    assert Upstream(s')[..s.up] == Upstream(s)[..s.up];
  }

  lemma ServerChunk(cfg: S.Config, reqs: seq<Frame>, c: S.Conn, up: nat, n: nat, q: nat)
    requires up + n <= |EncodeFrames(reqs)| && Serving(cfg, reqs, c, EncodeFrames(reqs)[..up], q)
    ensures Serving(cfg, reqs, Fed(reqs, c, up, n), EncodeFrames(reqs)[..up + n], q)
  {
  }

  lemma ServerReads(cfg: S.Config, reqs: seq<Frame>, c: S.Conn, up: nat, n: nat, q: nat) returns (q': nat)
    requires up + n <= |EncodeFrames(reqs)| && Serving(cfg, reqs, c, EncodeFrames(reqs)[..up], q)
    ensures var c' := S.OnMessage(cfg, Fed(reqs, c, up, n));
      Serving(cfg, reqs, c', EncodeFrames(reqs)[..up + n], q') && c.sent <= c'.sent
  {
    ServerChunk(cfg, reqs, c, up, n, q);
    q' := ServerKeepsServing(cfg, reqs, Fed(reqs, c, up, n), EncodeFrames(reqs)[..up + n], q);
  }

  lemma ServerMoves(cfg: S.Config, s: System, n: nat, q: nat, p: nat) returns (q': nat)
    requires InStep(cfg, s, q, p) && s.up + n <= |Upstream(s)|
    ensures InStep(cfg, DeliverUp(cfg, s, n), q', p)
  {
    q' := ServerReads(cfg, Requests(s.client), s.server, s.up, n, q);
    ServerAdvanced(cfg, s, S.OnMessage(cfg, Fed(Requests(s.client), s.server, s.up, n)), s.up + n, q, q', p);
  }

  /** The server has read on and sent more. */
  lemma ServerAdvanced(cfg: S.Config, s: System, server: S.Conn, up: nat, q: nat, q': nat, p: nat)
    requires InStep(cfg, s, q, p) && s.server.sent <= server.sent && up <= |Upstream(s)|
    requires Serving(cfg, Requests(s.client), server, Upstream(s)[..up], q')
    ensures InStep(cfg, s.(server := server, up := up), q', p)
  {
    SentWellFramed(cfg, Requests(s.client), server.sent);
    StreamGrows(s.server.sent, server.sent, Downstream(s)[..s.down], p, s.client.buffered);
    assert EncodeFrames(server.sent)[..s.down] == Downstream(s)[..s.down];
  }

  lemma SentWellFramed(cfg: S.Config, reqs: seq<Frame>, sent: seq<Frame>)
    requires Replies(cfg, reqs, sent)
    ensures AllWellFramed(sent)
  {
  }

  /** The client has read on and sent more. */
  lemma ClientAdvanced(cfg: S.Config, s: System, c: Client, down: nat, q: nat, p: nat, p': nat)
    requires InStep(cfg, s, q, p) && Grew(s.client, c) && down <= |Downstream(s)|
    requires Listening(cfg, c, s.server.sent, Downstream(s)[..down], p')
    ensures InStep(cfg, s.(client := c, down := down), q, p')
  {
    RequestsWellFramed(c);
    RepliesGrow(cfg, s.client, c, s.server.sent);
    StreamGrows(Requests(s.client), Requests(c), Upstream(s)[..s.up], q, s.server.buffered);
    assert EncodeFrames(Requests(c))[..s.up] == Upstream(s)[..s.up];
  }

  lemma ClientChunk(cfg: S.Config, c: Client, sent: seq<Frame>, down: nat, n: nat, p: nat)
    requires down + n <= |EncodeFrames(sent)| && Listening(cfg, c, sent, EncodeFrames(sent)[..down], p)
    ensures Listening(cfg, WithChunk(c, sent, down, n), sent, EncodeFrames(sent)[..down + n], p)
  {
    MoreArrives(sent, down, n, p, c.buffered);
    Repositioned(cfg, c, sent, EncodeFrames(sent)[..down + n], p, WithChunk(c, sent, down, n).buffered);
  }

  lemma ClientReadsOn(cfg: S.Config, order: Order, c: Client, sent: seq<Frame>, down: nat, n: nat, p: nat)
    returns (p': nat)
    requires LawfulOrder(order)
    requires down + n <= |EncodeFrames(sent)| && Listening(cfg, c, sent, EncodeFrames(sent)[..down], p)
    ensures var c' := OnMessage(order, WithChunk(c, sent, down, n));
      Listening(cfg, c', sent, EncodeFrames(sent)[..down + n], p') && Grew(c, c')
  {
    ClientChunk(cfg, c, sent, down, n, p);
    p' := ClientKeepsListening(cfg, order, WithChunk(c, sent, down, n), sent, EncodeFrames(sent)[..down + n], p);
  }

  lemma ClientReads(cfg: S.Config, order: Order, s: System, n: nat, q: nat, p: nat) returns (p': nat)
    requires LawfulOrder(order) && InStep(cfg, s, q, p) && s.down + n <= |Downstream(s)|
    ensures InStep(cfg, DeliverDown(order, s, n), q, p')
  {
    p' := ClientReadsOn(cfg, order, s.client, s.server.sent, s.down, n, p);
    var c := OnMessage(order, WithChunk(s.client, s.server.sent, s.down, n));
    ClientAdvanced(cfg, s, c, s.down + n, q, p, p');
  }

  lemma ClientActs(cfg: S.Config, order: Order, s: System, m: Move, q: nat, p: nat)
    requires LawfulOrder(order) && InStep(cfg, s, q, p) && (m.Local? || m.Deadline?)
    ensures InStep(cfg, Next(cfg, order, s, m), q, p)
  {
    if m.Local? {
      RunKeeps(cfg, s.client, m.a);
      ClientMoves(cfg, s, Run(s.client, m.a), q, p);
    } else {
      TimeoutKeeps(cfg, s.client, m.id);
      ClientMoves(cfg, s, OnTimeout(s.client, m.id), q, p);
    }
  }

  lemma ClientDrops(cfg: S.Config, order: Order, s: System, q: nat, p: nat)
    requires LawfulOrder(order) && InStep(cfg, s, q, p)
    ensures InStep(cfg, Next(cfg, order, s, Disconnected), q, p)
  {
    if !s.client.stuck {
      SendableIrrelevant(cfg, s.client, false, false);
      FailAllKeeps(cfg, order, s.client.(linked := false, sendable := false));
    }
    ClientMoves(cfg, s, OnConnection(order, s.client, false), q, p);
  }

  lemma NextInStep(cfg: S.Config, order: Order, s: System, m: Move, q: nat, p: nat) returns (q': nat, p': nat)
    requires LawfulOrder(order) && InStep(cfg, s, q, p)
    ensures InStep(cfg, Next(cfg, order, s, m), q', p')
  {
    q', p' := q, p;
    if m.ToServer? {
      if s.up + m.n <= |Upstream(s)| {
        q' := ServerMoves(cfg, s, m.n, q, p);
      }
    } else if m.ToClient? {
      if s.down + m.n <= |Downstream(s)| && !s.client.stuck {
        p' := ClientReads(cfg, order, s, m.n, q, p);
      }
    } else if m.Disconnected? {
      ClientDrops(cfg, order, s, q, p);
    } else {
      ClientActs(cfg, order, s, m, q, p);
    }
  }

  lemma {:induction false} AlwaysInStep(
    cfg: S.Config, order: Order, serializer: byte, limit: Limit, ms: seq<Move>) returns (q: nat, p: nat)
    requires LawfulOrder(order)
    ensures InStep(cfg, Reach(cfg, order, Connected(serializer, limit), ms), q, p)
  {
    if ms == [] {
      q, p := 0, 0;
    } else {
      q, p := AlwaysInStep(cfg, order, serializer, limit, ms[..|ms| - 1]);
      q, p := NextInStep(cfg, order, Reach(cfg, order, Connected(serializer, limit), ms[..|ms| - 1]),
                         ms[|ms| - 1], q, p);
    }
  }

  /**
   * End to end: in every run, with any chunking, any calls in flight and any
   * timeouts, as long as the 32-bit id counter has not come round, a call
   * completed by a response from the wire got the server's answer to that
   * call's own request: what the registrations `offers` make due for it.
   */
  lemma EndToEnd(
    cfg: S.Config, order: Order, serializer: byte, limit: Limit, ms: seq<Move>, i: nat, offers: seq<Offer>)
    requires LawfulOrder(order)
    requires var c := Reach(cfg, order, Connected(serializer, limit), ms).client;
      c.taken < ID_SPACE && i < |c.done| && c.done[i].answered
    ensures var c := Reach(cfg, order, Connected(serializer, limit), ms).client;
      c.done[i].call < |c.requests|
      && c.done[i].response == Ideal(cfg, c.serializer, c.requests[c.done[i].call])
    ensures var c := Reach(cfg, order, Connected(serializer, limit), ms).client;
      var r, got := c.requests[c.done[i].call], c.done[i].response;
      if EncodeRequest(r).Some? && |EncodeRequest(r).value| > MaxBody(cfg.limit) then got == Response(0x05, [], 0)
      else if c.serializer != cfg.serializer then got == Response(0x0D, [], c.serializer)
      else
        && got.serializer == cfg.serializer
        && (cfg.table == RegisterAll(offers) && Undotted(offers) && DOT !in r.service ==>
              Due(Accepted(offers), r, got.status, got.payload))
  {
    var q, p := AlwaysInStep(cfg, order, serializer, limit, ms);
    var c := Reach(cfg, order, Connected(serializer, limit), ms).client;
    if Undotted(offers) && DOT !in c.requests[c.done[i].call].service {
      DispatchIsDue(offers, c.requests[c.done[i].call]);
    }
  }
}
