/**
 * Sessions in which nothing is too large and nobody disconnects: the client
 * never fails its connection over a late response, and once both streams are
 * delivered no call sent is still pending.
 */
module SessionProgress {
  import opened Bytes
  import opened Protocol
  import opened Framing
  import opened Registry
  import S = ServerStream
  import opened ClientSession
  import opened Session

  // ----- Well-behaved sessions -----

  /** The request and its response fit the limits of both ends. */
  predicate Modest(cfg: S.Config, limit: Limit, r: Request) {
    EncodeRequest(r).Some? ==>
      |EncodeRequest(r).value| <= MaxBody(cfg.limit) && |Dispatch(cfg.table, r).1| <= MaxBody(limit)
  }

  /** Serializers match, ids are left, and every request made so far is modest. */
  ghost predicate Fine(cfg: S.Config, c: Client) {
    && c.serializer == cfg.serializer && c.taken + 1 < ID_SPACE
    && forall i :: 0 <= i < |c.requests| ==> Modest(cfg, c.limit, c.requests[i])
  }

  lemma FineBefore(cfg: S.Config, c: Client, c': Client)
    requires Grew(c, c') && c'.limit == c.limit && Fine(cfg, c')
    ensures Fine(cfg, c)
  {
    forall i | 0 <= i < |c.requests| ensures Modest(cfg, c.limit, c.requests[i]) {
      assert c.requests[i] == c'.requests[i];
    }
  }

  // ----- The client -----

  /** No completion was made up for a lost connection. */
  ghost predicate NoneFailed(c: Client) {
    forall i :: 0 <= i < |c.done| && !c.done[i].answered ==> c.done[i].response != CLOSED_RESPONSE
  }

  ghost predicate Finished(c: Client, call: nat) { exists j :: 0 <= j < |c.done| && c.done[j].call == call }

  lemma StillFinished(c: Client, d: Completion, call: nat)
    requires Finished(c, call) || d.call == call
    ensures Finished(c.(done := c.done + [d]), call)
  {
    var c' := c.(done := c.done + [d]);
    if d.call == call {
      assert c'.done[|c.done|] == d;
    } else {
      var j :| 0 <= j < |c.done| && c.done[j].call == call;
      assert c'.done[j] == c.done[j];
    }
  }

  /** Every call sent is pending under its id or has been completed. */
  ghost predicate SentIsKept(c: Client) {
    forall i :: 0 <= i < |c.issued| ==> c.issued[i].id in c.pendings || Finished(c, c.issued[i].call)
  }

  /**
   * The first `p` responses have been read: their calls are not pending, and the
   * others sent are pending or remembered. Ids on the wire rise.
   */
  ghost predicate Tuned(c: Client, p: nat) {
    && !c.stuck && c.linked && p <= |c.issued| && NoneFailed(c) && SentIsKept(c)
    && (forall i, j :: 0 <= i < j < |c.issued| ==> c.issued[i].id < c.issued[j].id)
    && (forall i :: 0 <= i < p ==> c.issued[i].id !in c.pendings)
    && (forall i :: p <= i < |c.issued| ==> c.issued[i].id in c.pendings || c.issued[i].id in c.timedOutSet)
  }

  lemma RisingSnoc(issued: seq<Issue>, x: Issue)
    requires forall i, j :: 0 <= i < j < |issued| ==> issued[i].id < issued[j].id
    requires forall i :: 0 <= i < |issued| ==> issued[i].id < x.id
    ensures forall i, j :: 0 <= i < j < |issued + [x]| ==> (issued + [x])[i].id < (issued + [x])[j].id
  {
  }

  /** A call sent with a new id is one more that waits. */
  lemma WaitingSnoc(issued: seq<Issue>, x: Issue, m: map<uint32, Pending>, late: set<uint32>, entry: Pending, p: nat)
    requires p <= |issued| && forall i :: 0 <= i < |issued| ==> issued[i].id < x.id
    requires forall i :: 0 <= i < p ==> issued[i].id !in m
    requires forall i :: p <= i < |issued| ==> issued[i].id in m || issued[i].id in late
    ensures forall i :: 0 <= i < p ==> (issued + [x])[i].id !in m[x.id := entry]
    ensures forall i :: p <= i < |issued + [x]| ==> (issued + [x])[i].id in m[x.id := entry] || (issued + [x])[i].id in late
  {
  }

  lemma EnterTuned(c: Client, p: nat, entry: Pending, body: Body)
    requires Numbered(c) && c.taken + 1 < ID_SPACE && Tuned(c, p)
    ensures Tuned(Enter(c, c.taken + 1, entry, body), p)
  {
    var x := Issue(c.taken + 1, entry.call, body);
    EnterKept(c, entry, body);
    RisingSnoc(c.issued, x);
    WaitingSnoc(c.issued, x, c.pendings, c.timedOutSet, entry, p);
    var c' := Enter(c, c.taken + 1, entry, body);
    assert c'.done == c.done && c'.timedOutSet == c.timedOutSet && c'.pendings == c.pendings[x.id := entry];
    assert c'.issued == if c.sendable then c.issued + [x] else c.issued;
    assert NoneFailed(c');
  }

  lemma EnterKept(c: Client, entry: Pending, body: Body)
    requires SentIsKept(c) && c.taken + 1 < ID_SPACE
    ensures SentIsKept(Enter(c, c.taken + 1, entry, body))
  {
    var c' := Enter(c, c.taken + 1, entry, body);
    forall i | 0 <= i < |c'.issued| ensures c'.issued[i].id in c'.pendings || Finished(c', c'.issued[i].call) {
      if i < |c.issued| {
        assert c'.issued[i] == c.issued[i] && (Finished(c, c.issued[i].call) ==> Finished(c', c.issued[i].call));
      }
    }
  }

  lemma LocalTuned(c: Client, p: nat, d: Completion)
    requires Tuned(c, p) && (d.answered || d.response != CLOSED_RESPONSE)
    ensures Tuned(c.(done := c.done + [d]), p)
  {
    var c' := c.(done := c.done + [d]);
    forall i | 0 <= i < |c.issued| ensures c'.issued[i].id in c'.pendings || Finished(c', c'.issued[i].call) {
      if c.issued[i].id !in c.pendings {
        StillFinished(c, d, c.issued[i].call);
      }
    }
  }

  /** A pending call is completed and taken out of the table. */
  lemma CompletedIsKept(c: Client, id: uint32, d: Completion)
    requires Numbered(c) && SentIsKept(c) && id in c.pendings && d.call == c.pendings[id].call
    ensures SentIsKept(Take(c, id).(done := c.done + [d]))
  {
    var c' := Take(c, id).(done := c.done + [d]);
    forall i | 0 <= i < |c.issued| ensures c'.issued[i].id in c'.pendings || Finished(c', c'.issued[i].call) {
      if c.issued[i].id !in c'.pendings {
        StillFinished(c, d, c.issued[i].call);
        assert c'.done == (c.(done := c.done + [d])).done;
        var j :| 0 <= j < |c'.done| && c'.done[j].call == c.issued[i].call;
      }
    }
  }

  lemma {:induction false} RunTuned(cfg: S.Config, c: Client, a: Act, p: nat)
    requires Correlated(cfg, c) && Tuned(c, p) && Run(c, a).taken + 1 < ID_SPACE
    ensures Tuned(Run(c, a), p)
    decreases a, 1
  {
    if a.StartCall? {
      RunKeeps(cfg, c, a);
      if EncodeRequest(a.request).None? {
        RefusalTuned(cfg, c, a, p);
      } else {
        IssueTuned(cfg, c, a, p);
      }
    }
  }

  lemma {:induction false} RefusalTuned(cfg: S.Config, c: Client, a: Act, p: nat)
    requires Correlated(cfg, c) && Tuned(c, p) && Run(c, a).taken + 1 < ID_SPACE
    requires a.StartCall? && EncodeRequest(a.request).None?
    ensures Tuned(Run(c, a), p)
    decreases a, 0
  {
    var c0, d := c.(requests := c.requests + [a.request]), Completion(|c.requests|, BAD_REQUEST_RESPONSE, false);
    RequestAppended(cfg, c, a.request);
    LocalCompletion(cfg, c0, d);
    MoreRequestsTuned(c, p, a.request);
    LocalTuned(c0, p, d);
    RunAllTuned(cfg, c0.(done := c0.done + [d]), a.after, p);
  }

  lemma IssueTuned(cfg: S.Config, c: Client, a: Act, p: nat)
    requires Correlated(cfg, c) && Tuned(c, p) && c.taken + 1 < ID_SPACE
    requires a.StartCall? && EncodeRequest(a.request).Some?
    ensures Tuned(Run(c, a), p)
  {
    var c0 := c.(requests := c.requests + [a.request]);
    RequestAppended(cfg, c, a.request);
    NextIdIsFree(c0);
    MoreRequestsTuned(c, p, a.request);
    EnterTuned(c0, p, Pending(|c.requests|, a.after, a.timed), EncodeRequest(a.request).value);
  }

  lemma MoreRequestsTuned(c: Client, p: nat, r: Request)
    requires Tuned(c, p)
    ensures Tuned(c.(requests := c.requests + [r]), p)
  {
    var c' := c.(requests := c.requests + [r]);
    forall k | Finished(c, k) ensures Finished(c', k) {
      var j :| 0 <= j < |c.done| && c.done[j].call == k;
      assert c'.done[j] == c.done[j];
    }
  }

  lemma {:induction false} RunAllTuned(cfg: S.Config, c: Client, acts: seq<Act>, p: nat)
    requires Correlated(cfg, c) && Tuned(c, p) && RunAll(c, acts).taken + 1 < ID_SPACE
    ensures Tuned(RunAll(c, acts), p)
    decreases acts, 2
  {
    if acts != [] {
      RunKeeps(cfg, c, acts[0]);
      RunAllKeeps(cfg, Run(c, acts[0]), acts[1..]);
      RunTuned(cfg, c, acts[0], p);
      RunAllTuned(cfg, Run(c, acts[0]), acts[1..], p);
    }
  }

  /** A call times out and its id is remembered, with room for it. */
  lemma RememberTuned(c: Client, id: uint32, p: nat, d: Completion)
    requires Numbered(c) && Tuned(c, p) && id in c.pendings && |c.timedOutSet| < MAX_REMEMBERED
    requires d.call == c.pendings[id].call && d.response != CLOSED_RESPONSE
    ensures var c' := Remember(Take(c, id), id);
      Tuned(c'.(done := c'.done + [d]), p) && |c'.timedOutSet| <= |c.timedOutSet| + 1
  {
    CompletedIsKept(c, id, d);
    var c1 := Take(c, id).(done := c.done + [d]);
    var c2 := Remember(Take(c, id), id);
    assert c2.(done := c2.done + [d]) == c1.(timedOut := c2.timedOut, timedOutSet := c2.timedOutSet);
    KeptEither(c1, c2.timedOut, c2.timedOutSet);
  }

  lemma KeptEither(c: Client, timedOut: seq<uint32>, timedOutSet: set<uint32>)
    requires SentIsKept(c)
    ensures SentIsKept(c.(timedOut := timedOut, timedOutSet := timedOutSet))
  {
    var c' := c.(timedOut := timedOut, timedOutSet := timedOutSet);
    forall i | 0 <= i < |c.issued| && Finished(c, c.issued[i].call) ensures Finished(c', c'.issued[i].call) {
      var j :| 0 <= j < |c.done| && c.done[j].call == c.issued[i].call;
      assert c'.done[j] == c.done[j];
    }
  }

  lemma TimeoutTuned(cfg: S.Config, c: Client, id: uint32, p: nat)
    requires Correlated(cfg, c) && Tuned(c, p) && |c.timedOutSet| < MAX_REMEMBERED
    requires OnTimeout(c, id).taken + 1 < ID_SPACE
    ensures Tuned(OnTimeout(c, id), p) && |OnTimeout(c, id).timedOutSet| <= |c.timedOutSet| + 1
  {
    if id in c.pendings {
      var entry, c1 := c.pendings[id], Remember(Take(c, id), id);
      var d := Completion(entry.call, TIMEOUT_RESPONSE, false);
      TimeoutKeeps(cfg, c, id);
      RememberTuned(c, id, p, d);
      RememberedKeeps(cfg, c, id);
      LocalCompletion(cfg, c1, d);
      RunAllTuned(cfg, c1.(done := c1.done + [d]), entry.after, p);
    }
  }

  /** The response at position `p` is one the client accepts the form of. */
  lemma ReplyIsModest(cfg: S.Config, c: Client, sent: seq<Frame>, p: nat)
    requires Fine(cfg, c) && IssuesEncode(c) && Replies(cfg, Requests(c), sent) && p < |sent|
    ensures var h := sent[p].header;
      && h.version == VERSION && h.kind == RESPONSE && h.serializer == c.serializer && h.requestId == c.issued[p].id
      && |sent[p].body| <= MaxBody(c.limit) && ResponseFits(sent[p].body)
  {
    var i := c.issued[p];
    var r := c.requests[i.call];
    assert sent[p] == Expected(cfg, Requests(c)[p]).frame && Modest(cfg, c.limit, r);
    EnvelopeBijection(r, i.body);
  }

  lemma TakeTuned(c: Client, p: nat, d: Completion)
    requires Numbered(c) && Tuned(c, p) && p < |c.issued| && c.issued[p].id in c.pendings
    requires d.call == c.pendings[c.issued[p].id].call && d.answered
    ensures Tuned(Take(c, c.issued[p].id).(done := c.done + [d]), p + 1)
  {
    var id := c.issued[p].id;
    var c' := Take(c, id).(done := c.done + [d]);
    CompletedIsKept(c, id, d);
    forall i | p + 1 <= i < |c'.issued| ensures c'.issued[i].id in c'.pendings || c'.issued[i].id in c'.timedOutSet {
      assert c.issued[p].id < c.issued[i].id;
    }
  }

  /** Reading the response at position `p`: it completes its call, or comes late and is ignored. */
  lemma AnswerTuned(cfg: S.Config, order: Order, c: Client, sent: seq<Frame>, p: nat)
    requires LawfulOrder(order) && Correlated(cfg, c) && Replies(cfg, Requests(c), sent) && p < |sent|
    requires Tuned(c, p) && Fine(cfg, c) && OnFrame(order, c, sent[p]).taken + 1 < ID_SPACE
    ensures GoesOn(c, sent[p])
    ensures var c' := OnFrame(order, c, sent[p]);
      Tuned(c', p + 1) && c'.timedOutSet == c.timedOutSet && c'.limit == c.limit
  {
    ReplyIsModest(cfg, c, sent, p);
    var f, id := sent[p], c.issued[p].id;
    if id in c.pendings {
      var entry := c.pendings[id];
      var d := Completion(entry.call, ResponseOf(f), true);
      ReplyAt(cfg, c, sent, p);
      AnswerRecorded(cfg, c, p, ResponseOf(f));
      TakeTuned(c, p, d);
      RunAllTuned(cfg, Take(c, id).(done := c.done + [d]), entry.after, p + 1);
    }
  }

  /** Every frame of one onMessage is one it goes on after, and no byte of it is refused. */
  ghost predicate Undisturbed(order: Order, c: Client)
    requires LawfulOrder(order)
    decreases |c.buffered|
  {
    match ParseFrame(c.limit, c.buffered)
    case NeedMore => true
    case ProtocolError => false
    case Complete(f, rest) => GoesOn(c, f) && Undisturbed(order, OnFrame(order, c.(buffered := rest), f))
  }

  lemma BufferTuned(c: Client, p: nat, rest: bytes)
    requires Tuned(c, p)
    ensures Tuned(c.(buffered := rest), p)
  {
  }

  /** All has been read that could be, in good order, up to response `p`. */
  ghost predicate ReadOn(cfg: S.Config, c: Client, r: Client, sent: seq<Frame>, seen: bytes, p: nat) {
    && Listening(cfg, r, sent, seen, p) && Tuned(r, p) && Grew(c, r)
    && ParseFrame(r.limit, r.buffered) == NeedMore && r.timedOutSet == c.timedOutSet && r.limit == c.limit
  }

  /** The client's state is fine, and stays so with the requests and ids of `r`. */
  ghost predicate FineTo(cfg: S.Config, c: Client, r: Client) {
    Fine(cfg, c.(taken := r.taken, requests := r.requests))
  }

  /** What is next in the buffer is the next response, and within the limits. */
  lemma NextIsReadable(cfg: S.Config, order: Order, c: Client, sent: seq<Frame>, seen: bytes, p: nat)
    requires LawfulOrder(order) && Listening(cfg, c, sent, seen, p) && Tuned(c, p)
    requires FineTo(cfg, c, OnMessage(order, c))
    ensures Fine(cfg, c)
    ensures match ParseFrame(c.limit, c.buffered)
      case NeedMore => true
      case ProtocolError => false
      case Complete(f, rest) => p < |sent| && f == sent[p] && AtFrame(sent, seen, p + 1, rest)
  {
    var r := OnMessage(order, c);
    var _ := ClientKeepsListening(cfg, order, c, sent, seen, p);
    FineBefore(cfg, c, c.(taken := r.taken, requests := r.requests));
    ReadsNextFrame(c.limit, sent, seen, p, c.buffered);
    if p < |sent| {
      ReplyIsModest(cfg, c, sent, p);
    }
  }

  /** One onMessage of the client, in a session that is fine to its end. */
  lemma {:induction false} ClientGoesOn(
    cfg: S.Config, order: Order, c: Client, sent: seq<Frame>, seen: bytes, p: nat) returns (p': nat)
    requires LawfulOrder(order) && Listening(cfg, c, sent, seen, p) && Tuned(c, p)
    requires FineTo(cfg, c, OnMessage(order, c))
    ensures ReadOn(cfg, c, OnMessage(order, c), sent, seen, p') && Undisturbed(order, c)
    decreases |c.buffered|
  {
    p' := p;
    NextIsReadable(cfg, order, c, sent, seen, p);
    if ParseFrame(c.limit, c.buffered).Complete? {
      var f, rest := ParseFrame(c.limit, c.buffered).frame, ParseFrame(c.limit, c.buffered).rest;
      var c1 := FrameGoesOn(cfg, order, c, sent, seen, p, f, rest);
      p' := ClientGoesOn(cfg, order, c1, sent, seen, p + 1);
      ReadOnThrough(cfg, c, c1, OnMessage(order, c), sent, seen, p');
    }
  }

  lemma ReadOnThrough(cfg: S.Config, c: Client, c1: Client, r: Client, sent: seq<Frame>, seen: bytes, p: nat)
    requires Grew(c, c1) && c1.limit == c.limit && c1.timedOutSet == c.timedOutSet && ReadOn(cfg, c1, r, sent, seen, p)
    ensures ReadOn(cfg, c, r, sent, seen, p)
  {
  }

  /** One frame of it. */
  lemma FrameGoesOn(
    cfg: S.Config, order: Order, c: Client, sent: seq<Frame>, seen: bytes, p: nat, f: Frame, rest: bytes)
    returns (c1: Client)
    requires LawfulOrder(order) && Listening(cfg, c, sent, seen, p) && Tuned(c, p) && Fine(cfg, c)
    requires FineTo(cfg, c, OnMessage(order, c))
    requires ParseFrame(c.limit, c.buffered) == Complete(f, rest) && p < |sent| && f == sent[p]
    requires AtFrame(sent, seen, p + 1, rest)
    ensures c1 == OnFrame(order, c.(buffered := rest), f) && OnMessage(order, c) == OnMessage(order, c1) && GoesOn(c, f)
    ensures Listening(cfg, c1, sent, seen, p + 1) && Tuned(c1, p + 1) && Grew(c, c1)
    ensures c1.limit == c.limit && c1.timedOutSet == c.timedOutSet && FineTo(cfg, c1, OnMessage(order, c1))
  {
    var c0 := c.(buffered := rest);
    Repositioned(cfg, c, sent, seen, p + 1, rest);
    BufferTuned(c, p, rest);
    ReplyIsModest(cfg, c0, sent, p);
    assert GoesOn(c0, f);
    FrameKeepsListening(cfg, order, c0, sent, seen, p);
    c1 := OnFrame(order, c0, f);
    var _ := ClientKeepsListening(cfg, order, c1, sent, seen, p + 1);
    AnswerTuned(cfg, order, c0, sent, p);
  }

  // ----- The server -----

  /** Every request is answered and none stops the loop. */
  ghost predicate AllAnswered(cfg: S.Config, reqs: seq<Frame>) {
    forall k :: 0 <= k < |reqs| ==> Answerable(cfg, reqs[k])
  }

  predicate Answerable(cfg: S.Config, f: Frame) {
    !S.StopsLoop(f) && |f.body| <= MaxBody(cfg.limit) && S.ReplyTo(cfg, f).Answer?
  }

  lemma ModestIsAnswerable(cfg: S.Config, c: Client)
    requires Fine(cfg, c) && IssuesEncode(c)
    ensures AllAnswered(cfg, Requests(c))
  {
    forall k | 0 <= k < |c.issued| ensures Answerable(cfg, Requests(c)[k]) {
      var i := c.issued[k];
      assert Modest(cfg, c.limit, c.requests[i.call]);
      EnvelopeBijection(c.requests[i.call], i.body);
    }
  }

  /** The server is open and has answered all it could read. */
  ghost predicate Ready(cfg: S.Config, c: S.Conn) { c.open && ParseFrame(cfg.limit, c.buffered) == NeedMore }

  lemma {:induction false} ServerGoesOn(cfg: S.Config, reqs: seq<Frame>, c: S.Conn, seen: bytes, q: nat)
    returns (q': nat)
    requires S.RoomyInput(cfg) && Serving(cfg, reqs, c, seen, q) && AllAnswered(cfg, reqs) && c.open
    ensures Serving(cfg, reqs, S.OnMessage(cfg, c), seen, q') && Ready(cfg, S.OnMessage(cfg, c))
    ensures c.sent <= S.OnMessage(cfg, c).sent
    decreases |c.buffered|
  {
    q' := q;
    ReadsNextFrame(cfg.limit, reqs, seen, q, c.buffered);
    assert q < |reqs| ==> Answerable(cfg, reqs[q]);
    match ParseFrame(cfg.limit, c.buffered) {
      case NeedMore => NeedMoreIsShort(cfg.limit, c.buffered);
      case ProtocolError =>
      case Complete(f, rest) =>
        ServesFrame(cfg, reqs, c, seen, q, f, rest);
        q' := ServerGoesOn(cfg, reqs, S.Emit(c, S.ReplyTo(cfg, f)).(buffered := rest), seen, q + 1);
    }
  }

  // ----- The whole system -----

  /** Both ends have read all they could, and the client waits for exactly what it sent. */
  ghost predicate Flowing(cfg: S.Config, s: System, q: nat, p: nat, timeouts: nat) {
    && InStep(cfg, s, q, p) && Tuned(s.client, p) && Ready(cfg, s.server)
    && ParseFrame(s.client.limit, s.client.buffered) == NeedMore && |s.client.timedOutSet| <= timeouts
  }

  function Timeouts(ms: seq<Move>): nat {
    if ms == [] then 0 else Timeouts(ms[..|ms| - 1]) + if ms[|ms| - 1].Deadline? then 1 else 0
  }

  /** What a move does to the client, as far as the whole run goes. */
  lemma NextGrows(cfg: S.Config, order: Order, s: System, m: Move, q: nat, p: nat)
    requires LawfulOrder(order) && InStep(cfg, s, q, p)
    ensures Grew(s.client, Next(cfg, order, s, m).client)
  {
    match m
    case Local(a) => RunKeeps(cfg, s.client, a);
    case Deadline(id) => TimeoutKeeps(cfg, s.client, id);
    case Disconnected =>
      if !s.client.stuck {
        SendableIrrelevant(cfg, s.client, false, false);
        FailAllKeeps(cfg, order, s.client.(linked := false, sendable := false));
      }
    case ToServer(n) =>
    case ToClient(n) =>
      if s.down + n <= |Downstream(s)| && !s.client.stuck {
        var _ := ClientReadsOn(cfg, order, s.client, s.server.sent, s.down, n, p);
      }
  }

  lemma ServerFlows(cfg: S.Config, order: Order, s: System, n: nat, q: nat, p: nat, t: nat) returns (q': nat)
    requires LawfulOrder(order) && S.RoomyInput(cfg) && Flowing(cfg, s, q, p, t) && Fine(cfg, s.client)
    requires s.up + n <= |Upstream(s)|
    ensures Flowing(cfg, DeliverUp(cfg, s, n), q', p, t)
  {
    var reqs := Requests(s.client);
    ModestIsAnswerable(cfg, s.client);
    ServerChunk(cfg, reqs, s.server, s.up, n, q);
    var fed := Fed(reqs, s.server, s.up, n);
    q' := ServerGoesOn(cfg, reqs, fed, EncodeFrames(reqs)[..s.up + n], q);
    ServerAdvanced(cfg, s, S.OnMessage(cfg, fed), s.up + n, q, q', p);
  }

  lemma ClientFlows(cfg: S.Config, order: Order, s: System, n: nat, q: nat, p: nat, t: nat) returns (p': nat)
    requires LawfulOrder(order) && Flowing(cfg, s, q, p, t) && s.down + n <= |Downstream(s)|
    requires FineTo(cfg, s.client, DeliverDown(order, s, n).client)
    ensures Flowing(cfg, DeliverDown(order, s, n), q, p', t)
    ensures Undisturbed(order, WithChunk(s.client, s.server.sent, s.down, n))
    ensures DeliverDown(order, s, n).client.limit == s.client.limit
  {
    var c := WithChunk(s.client, s.server.sent, s.down, n);
    ClientChunk(cfg, s.client, s.server.sent, s.down, n, p);
    BufferTuned(s.client, p, c.buffered);
    p' := ClientGoesOn(cfg, order, c, s.server.sent, EncodeFrames(s.server.sent)[..s.down + n], p);
    ClientReadsFlow(cfg, s, OnMessage(order, c), s.down + n, q, p, p', t);
  }

  lemma ClientReadsFlow(cfg: S.Config, s: System, r: Client, down: nat, q: nat, p: nat, p': nat, t: nat)
    requires Flowing(cfg, s, q, p, t) && down <= |Downstream(s)|
    requires Listening(cfg, r, s.server.sent, Downstream(s)[..down], p') && Tuned(r, p') && Grew(s.client, r)
    requires ParseFrame(r.limit, r.buffered) == NeedMore && r.timedOutSet == s.client.timedOutSet
    ensures Flowing(cfg, s.(client := r, down := down), q, p', t)
  {
    ClientAdvanced(cfg, s, r, down, q, p, p');
  }

  lemma LocalFlows(cfg: S.Config, order: Order, s: System, a: Act, q: nat, p: nat, t: nat)
    requires LawfulOrder(order) && Flowing(cfg, s, q, p, t) && Run(s.client, a).taken + 1 < ID_SPACE
    ensures Flowing(cfg, s.(client := Run(s.client, a)), q, p, t)
  {
    RunTuned(cfg, s.client, a, p);
    ClientActs(cfg, order, s, Local(a), q, p);
  }

  lemma DeadlineFlows(cfg: S.Config, order: Order, s: System, id: uint32, q: nat, p: nat, t: nat)
    requires LawfulOrder(order) && Flowing(cfg, s, q, p, t) && OnTimeout(s.client, id).taken + 1 < ID_SPACE
    requires t < MAX_REMEMBERED
    ensures Flowing(cfg, s.(client := OnTimeout(s.client, id)), q, p, t + 1)
    ensures OnTimeout(s.client, id).limit == s.client.limit
  {
    TimeoutTuned(cfg, s.client, id, p);
    ClientActs(cfg, order, s, Deadline(id), q, p);
  }

  lemma NextFlows(cfg: S.Config, order: Order, s: System, m: Move, q: nat, p: nat, t: nat) returns (q': nat, p': nat)
    requires LawfulOrder(order) && S.RoomyInput(cfg) && Flowing(cfg, s, q, p, t) && !m.Disconnected?
    requires FineTo(cfg, s.client, Next(cfg, order, s, m).client) && (m.Deadline? ==> t < MAX_REMEMBERED)
    ensures Flowing(cfg, Next(cfg, order, s, m), q', p', t + if m.Deadline? then 1 else 0)
    ensures Next(cfg, order, s, m).client.limit == s.client.limit
  {
    q', p' := q, p;
    var s' := Next(cfg, order, s, m);
    if m.Local? {
      LocalFlows(cfg, order, s, m.a, q, p, t);
    } else if m.Deadline? {
      DeadlineFlows(cfg, order, s, m.id, q, p, t);
    } else if m.ToServer? {
      FineBefore(cfg, s.client, s.client);
      if s.up + m.n <= |Upstream(s)| {
        q' := ServerFlows(cfg, order, s, m.n, q, p, t);
      }
    } else if s.down + m.n <= |Downstream(s)| {
      p' := ClientFlows(cfg, order, s, m.n, q, p, t);
    }
  }

  /**
   * A session in which serializers match, everything fits the limits, nobody
   * disconnects, ids are left, and no remembered id has been pushed out.
   */
  ghost predicate Calm(cfg: S.Config, order: Order, serializer: byte, limit: Limit, ms: seq<Move>)
    requires LawfulOrder(order)
  {
    && S.RoomyInput(cfg) && Disconnected !in ms && Timeouts(ms) <= 1024
    && Fine(cfg, Reach(cfg, order, Connected(serializer, limit), ms).client.(limit := limit))
  }

  lemma CalmBefore(cfg: S.Config, order: Order, serializer: byte, limit: Limit, ms: seq<Move>)
    requires LawfulOrder(order) && ms != [] && Calm(cfg, order, serializer, limit, ms)
    ensures Calm(cfg, order, serializer, limit, ms[..|ms| - 1])
  {
    var s := Reach(cfg, order, Connected(serializer, limit), ms[..|ms| - 1]);
    var q, p := AlwaysInStep(cfg, order, serializer, limit, ms[..|ms| - 1]);
    NextGrows(cfg, order, s, ms[|ms| - 1], q, p);
    FineBefore(cfg, s.client.(limit := limit), Next(cfg, order, s, ms[|ms| - 1]).client.(limit := limit));
  }

  lemma {:induction false} CalmFlows(cfg: S.Config, order: Order, serializer: byte, limit: Limit, ms: seq<Move>)
    returns (q: nat, p: nat)
    requires LawfulOrder(order) && Calm(cfg, order, serializer, limit, ms)
    ensures var s := Reach(cfg, order, Connected(serializer, limit), ms);
      Flowing(cfg, s, q, p, Timeouts(ms)) && s.client.limit == limit
  {
    if ms == [] {
      q, p := 0, 0;
    } else {
      var init, m := ms[..|ms| - 1], ms[|ms| - 1];
      var s := Reach(cfg, order, Connected(serializer, limit), init);
      CalmBefore(cfg, order, serializer, limit, ms);
      q, p := CalmFlows(cfg, order, serializer, limit, init);
      CalmNext(cfg, order, s, m, q, p, limit);
      q, p := NextFlows(cfg, order, s, m, q, p, Timeouts(init));
    }
  }

  lemma CalmNext(cfg: S.Config, order: Order, s: System, m: Move, q: nat, p: nat, limit: Limit)
    requires LawfulOrder(order) && InStep(cfg, s, q, p) && s.client.limit == limit
    requires Fine(cfg, Next(cfg, order, s, m).client.(limit := limit))
    ensures FineTo(cfg, s.client, Next(cfg, order, s, m).client)
  {
    NextGrows(cfg, order, s, m, q, p);
  }

  /**
   * What the remembered ids are for: in a calm session every frame the client
   * reads is one it goes on after, late responses included, so it never fails
   * its connection and no call ends for want of one.
   */
  lemma LateResponsesAreHarmless(cfg: S.Config, order: Order, serializer: byte, limit: Limit, ms: seq<Move>, n: nat)
    requires LawfulOrder(order)
    requires var s := Reach(cfg, order, Connected(serializer, limit), ms); s.down + n <= |Downstream(s)|
    requires Calm(cfg, order, serializer, limit, ms + [ToClient(n)])
    ensures var s := Reach(cfg, order, Connected(serializer, limit), ms);
      Undisturbed(order, WithChunk(s.client, s.server.sent, s.down, n))
    ensures var c := Reach(cfg, order, Connected(serializer, limit), ms + [ToClient(n)]).client;
      !c.stuck && c.linked && NoneFailed(c)
  {
    var all := ms + [ToClient(n)];
    assert all[..|all| - 1] == ms && all[|all| - 1] == ToClient(n);
    var s := Reach(cfg, order, Connected(serializer, limit), ms);
    CalmBefore(cfg, order, serializer, limit, all);
    var q, p := CalmFlows(cfg, order, serializer, limit, ms);
    CalmNext(cfg, order, s, ToClient(n), q, p, limit);
    p := ClientFlows(cfg, order, s, n, q, p, Timeouts(ms));
  }

  /** A reader that has all bytes of the stream and needs more has read every frame. */
  lemma ReadToEnd(limit: Limit, fs: seq<Frame>, q: nat, buffered: bytes)
    requires AtFrame(fs, EncodeFrames(fs), q, buffered) && ParseFrame(limit, buffered) == NeedMore
    requires forall k :: 0 <= k < |fs| ==> |fs[k].body| <= MaxBody(limit)
    ensures q == |fs|
  {
    if q < |fs| {
      SplitAt(fs, q);
      var rest := EncodeFrames(fs[q + 1..]);
      var tail := EncodeFrame(fs[q]) + rest;
      assert buffered == tail by {
        assert (EncodeFrames(fs[..q]) + buffered)[|EncodeFrames(fs[..q])|..] == buffered;
        assert (EncodeFrames(fs[..q]) + tail)[|EncodeFrames(fs[..q])|..] == tail;
      }
      FrameRoundTrip(limit, fs[q], rest);
    }
  }

  /**
   * Progress: when both streams have been delivered to the end in a calm
   * session, the server has answered every request sent, and every call that was
   * sent is completed and no longer pending.
   */
  lemma DeliveredMeansDone(cfg: S.Config, order: Order, serializer: byte, limit: Limit, ms: seq<Move>)
    requires LawfulOrder(order) && Calm(cfg, order, serializer, limit, ms)
    requires var s := Reach(cfg, order, Connected(serializer, limit), ms);
      s.up == |Upstream(s)| && s.down == |Downstream(s)|
    ensures var s := Reach(cfg, order, Connected(serializer, limit), ms);
      && |s.server.sent| == |s.client.issued|
      && forall i :: 0 <= i < |s.client.issued| ==>
           s.client.issued[i].id !in s.client.pendings && Finished(s.client, s.client.issued[i].call)
  {
    var s := Reach(cfg, order, Connected(serializer, limit), ms);
    var q, p := CalmFlows(cfg, order, serializer, limit, ms);
    var c, reqs := s.client, Requests(s.client);
    ModestIsAnswerable(cfg, c);
    assert Upstream(s)[..s.up] == Upstream(s) && Downstream(s)[..s.down] == Downstream(s);
    forall k | 0 <= k < |reqs| ensures |reqs[k].body| <= MaxBody(cfg.limit) {
      assert Answerable(cfg, reqs[k]);
    }
    ReadToEnd(cfg.limit, reqs, q, s.server.buffered);
    forall k | 0 <= k < |s.server.sent| ensures |s.server.sent[k].body| <= MaxBody(c.limit) {
      ReplyIsModest(cfg, c, s.server.sent, k);
    }
    ReadToEnd(c.limit, s.server.sent, p, c.buffered);
  }
}
