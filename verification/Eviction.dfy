/** The limit of the remembered ids: after 1025 timeouts the first id is forgotten, and its late response is fatal. */
module SessionEviction {
  import opened Bytes
  import opened Protocol
  import opened Framing
  import opened Registry
  import S = ServerStream
  import opened ClientSession
  import opened ClientProofs
  import opened Session
  import opened SessionProgress

  /** `n` calls, each of which times out before the next. */
  function Rounds(r: Request, n: nat): seq<Move> {
    if n == 0 then [] else Rounds(r, n - 1) + [Local(StartCall(r, true, [])), Deadline(n % ID_SPACE)]
  }

  /** The last ids up to `n`, oldest first, at most 1024 of them. */
  ghost predicate Recent(ids: seq<uint32>, n: nat) {
    && |ids| == (if n < MAX_REMEMBERED then n else MAX_REMEMBERED)
    && forall i :: 0 <= i < |ids| ==> ids[i] == n - |ids| + i + 1
  }

  /** `n` calls have been sent and have timed out. */
  ghost predicate After(c: Client, n: nat, r: Request)
    requires EncodeRequest(r).Some?
  {
    && c.linked && c.sendable && !c.stuck && c.pendings == map[]
    && c.taken == n && c.nextId == (n + 1) % ID_SPACE && c.buffered == [] && |c.requests| == n
    && Recent(c.timedOut, n) && Enumerates(c.timedOut, c.timedOutSet)
    && (if n == 0 then c.issued == [] else c.issued != [] && c.issued[0] == Issue(1, 0, EncodeRequest(r).value))
  }

  lemma {:induction false} RecentGrows(ids: seq<uint32>, n: nat)
    requires n + 1 < ID_SPACE && Recent(ids, n)
    ensures Recent(if n < MAX_REMEMBERED then ids + [n + 1] else ids[1..] + [n + 1], n + 1)
  {
  }

  lemma {:induction false} RememberRecent(c: Client, n: nat)
    requires n + 1 < ID_SPACE && Recent(c.timedOut, n) && Enumerates(c.timedOut, c.timedOutSet)
    ensures var c' := Remember(c, n + 1); Recent(c'.timedOut, n + 1) && Enumerates(c'.timedOut, c'.timedOutSet)
  {
    if n < MAX_REMEMBERED {
      RoomForAnother(c, n);
    } else {
      OldestGoes(c, n);
    }
  }

  lemma {:induction false} RoomForAnother(c: Client, n: nat)
    requires n < MAX_REMEMBERED && Recent(c.timedOut, n) && Enumerates(c.timedOut, c.timedOutSet)
    ensures var c' := Remember(c, n + 1); Recent(c'.timedOut, n + 1) && Enumerates(c'.timedOut, c'.timedOutSet)
  {
    EnumerationSize(c.timedOut, c.timedOutSet);
    RecentGrows(c.timedOut, n);
    NotRecent(c, n + 1, n);
    PushedId(c.timedOut, n + 1, c.timedOutSet);
  }

  lemma {:induction false} OldestGoes(c: Client, n: nat)
    requires MAX_REMEMBERED <= n && n + 1 < ID_SPACE && Recent(c.timedOut, n) && Enumerates(c.timedOut, c.timedOutSet)
    ensures var c' := Remember(c, n + 1); Recent(c'.timedOut, n + 1) && Enumerates(c'.timedOut, c'.timedOutSet)
  {
    EnumerationSize(c.timedOut, c.timedOutSet);
    RecentGrows(c.timedOut, n);
    NotRecent(c, n + 1, n);
    Replaced(c.timedOut, c.timedOutSet, n + 1);
  }

  lemma {:induction false} Replaced(ids: seq<uint32>, keys: set<uint32>, id: uint32)
    requires Enumerates(ids, keys) && ids != [] && id !in keys
    ensures Enumerates(ids[1..] + [id], keys - {ids[0]} + {id})
  {
    RestEnumerates(ids, keys);
    PushedId(ids[1..], id, keys - {ids[0]});
  }

  /** Ids that are too new or too old are not remembered. */
  lemma {:induction false} NotRecent(c: Client, id: uint32, n: nat)
    requires Recent(c.timedOut, n) && Enumerates(c.timedOut, c.timedOutSet) && (id > n || id + MAX_REMEMBERED <= n)
    ensures id !in c.timedOutSet
  {
    assert id !in c.timedOut;
  }

  /** A call goes out under id `n + 1`. */
  lemma {:induction false} CallGoesOut(c: Client, n: nat, r: Request)
    requires n + 2 < ID_SPACE && EncodeRequest(r).Some? && After(c, n, r)
    ensures Run(c, StartCall(r, true, []))
         == Enter(c.(requests := c.requests + [r]), n + 1, Pending(n, [], true), EncodeRequest(r).value)
  {
    NotRecent(c, n + 1, n);
    FreeIdIsTaken(c, n + 1, r);
  }

  lemma {:induction false} FreeIdIsTaken(c: Client, id: uint32, r: Request)
    requires !c.stuck && c.linked && c.nextId == id && Free(c, id) && EncodeRequest(r).Some?
    ensures Run(c, StartCall(r, true, []))
         == Enter(c.(requests := c.requests + [r]), id, Pending(|c.requests|, [], true), EncodeRequest(r).value)
  {
    FirstTry(c.(requests := c.requests + [r]), id, ID_SPACE);
  }

  lemma {:induction false} FirstTry(c: Client, id: uint32, tries: nat)
    requires Free(c, id) && tries > 0
    ensures Scan(c, id, tries) == Some(id)
  {
  }

  lemma {:induction false} OneRound(c: Client, n: nat, r: Request)
    requires n + 2 < ID_SPACE && EncodeRequest(r).Some? && After(c, n, r)
    ensures var c' := OnTimeout(Run(c, StartCall(r, true, [])), n + 1);
      After(c', n + 1, r) && c'.serializer == c.serializer && c'.limit == c.limit
  {
    CallGoesOut(c, n, r);
    var c1 := Enter(c.(requests := c.requests + [r]), n + 1, Pending(n, [], true), EncodeRequest(r).value);
    var c2 := Take(c1, n + 1);
    assert c2.pendings == map[];
    RememberRecent(c2, n);
    var c3 := Remember(c2, n + 1);
    var d := Completion(n, TIMEOUT_RESPONSE, false);
    assert OnTimeout(c1, n + 1) == c3.(done := c3.done + [d]);
  }

  /** After `n` rounds nothing has reached the server yet. */
  ghost predicate Waiting(s: System, n: nat, r: Request, serializer: byte, limit: Limit)
    requires EncodeRequest(r).Some?
  {
    && After(s.client, n, r) && s.server == S.FRESH && s.up == 0 && s.down == 0
    && s.client.serializer == serializer && s.client.limit == limit
  }

  lemma {:induction false} RoundsReach(cfg: S.Config, order: Order, serializer: byte, limit: Limit, r: Request, n: nat)
    requires LawfulOrder(order) && n + 1 < ID_SPACE && EncodeRequest(r).Some?
    ensures Waiting(Reach(cfg, order, Connected(serializer, limit), Rounds(r, n)), n, r, serializer, limit)
    ensures Timeouts(Rounds(r, n)) == n
  {
    if n == 0 {
      assert Waiting(Connected(serializer, limit), 0, r, serializer, limit);
    } else {
      RoundsReach(cfg, order, serializer, limit, r, n - 1);
      LastRound(r, n);
      var before, start := Rounds(r, n - 1), Connected(serializer, limit);
      TwoMoves(cfg, order, start, before, Local(StartCall(r, true, [])), Deadline(n));
      RoundNext(cfg, order, Reach(cfg, order, start, before), r, n - 1, serializer, limit);
    }
  }

  lemma {:induction false} LastRound(r: Request, n: nat)
    requires 0 < n < ID_SPACE
    ensures Rounds(r, n) == Rounds(r, n - 1) + [Local(StartCall(r, true, [])), Deadline(n)]
  {
  }

  lemma {:induction false} RoundNext(
    cfg: S.Config, order: Order, s: System, r: Request, n: nat, serializer: byte, limit: Limit)
    requires LawfulOrder(order) && n + 2 < ID_SPACE && EncodeRequest(r).Some? && Waiting(s, n, r, serializer, limit)
    ensures var s' := Next(cfg, order, Next(cfg, order, s, Local(StartCall(r, true, []))), Deadline(n + 1));
      Waiting(s', n + 1, r, serializer, limit)
  {
    OneRound(s.client, n, r);
  }

  lemma {:induction false} TwoMoves(cfg: S.Config, order: Order, s: System, ms: seq<Move>, a: Move, b: Move)
    requires LawfulOrder(order)
    ensures Reach(cfg, order, s, ms + [a, b]) == Next(cfg, order, Next(cfg, order, Reach(cfg, order, s, ms), a), b)
    ensures Timeouts(ms + [a, b]) == Timeouts(ms) + (if a.Deadline? then 1 else 0) + if b.Deadline? then 1 else 0
  {
    var all := ms + [a, b];
    assert all[..|all| - 1] == ms + [a] && (ms + [a])[..|ms|] == ms;
  }

  /** The response to the first call, if the server got it. */
  function FirstReply(cfg: S.Config, r: Request): Frame
    requires ResponseFits(Dispatch(cfg.table, r).1)
  {
    S.ResponseFrame(1, Response(Dispatch(cfg.table, r).0, Dispatch(cfg.table, r).1, cfg.serializer))
  }

  function FirstRequest(cfg: S.Config, r: Request): Frame
    requires EncodeRequest(r).Some?
  {
    RequestFrame(cfg.serializer, Issue(1, 0, EncodeRequest(r).value))
  }

  /** The server reads the first request alone and answers it. */
  lemma {:induction false} FirstIsServed(cfg: S.Config, limit: Limit, r: Request)
    requires EncodeRequest(r).Some? && Modest(cfg, limit, r)
    ensures S.OnMessage(cfg, S.FRESH.(buffered := [] + EncodeFrame(FirstRequest(cfg, r)))).sent == [FirstReply(cfg, r)]
  {
    var f := FirstRequest(cfg, r);
    var w := EncodeFrame(f);
    EnvelopeBijection(r, EncodeRequest(r).value);
    FrameRoundTrip(cfg.limit, f, []);
    assert w + [] == w && [] + w == w;
    LoneFrame(cfg, w, f, FirstReply(cfg, r));
  }

  lemma {:induction false} LoneFrame(cfg: S.Config, w: bytes, f: Frame, reply: Frame)
    requires ParseFrame(cfg.limit, w) == Complete(f, []) && S.ReplyTo(cfg, f) == S.Answer(reply) && !S.StopsLoop(f)
    ensures S.OnMessage(cfg, S.FRESH.(buffered := w)).sent == [reply]
  {
    assert ParseFrame(cfg.limit, []) == NeedMore;
    assert [] + [reply] == [reply];
  }

  /** A response under an id that is neither pending nor remembered fails the connection. */
  lemma {:induction false} UnknownIdIsFatal(order: Order, c: Client, f: Frame)
    requires LawfulOrder(order) && Sendable(c.limit, f) && c.buffered == EncodeFrame(f)
    requires !c.stuck && c.linked && c.pendings == map[] && f.header.requestId !in c.timedOutSet
    ensures !OnMessage(order, c).sendable
  {
    FrameRoundTrip(c.limit, f, []);
    assert EncodeFrame(f) + [] == EncodeFrame(f);
    var c0 := c.(buffered := []);
    assert Enumerates(order(c0.pendings), c0.pendings.Keys) && c0.pendings.Keys == {};
    EnumerationSize(order(c0.pendings), {});
    assert Entries(c0.pendings, order(c0.pendings)) == [];
    assert FailAll(order, c0) == c0.(pendings := map[], failing := []);
  }

  /**
   * 1025 calls time out; then the response to the first arrives. Its id was
   * pushed out of the remembered ones, so the client fails a connection on
   * which nothing has gone wrong.
   */
  lemma {:induction false} EvictedIdIsFatal(cfg: S.Config, order: Order, limit: Limit, r: Request)
    requires LawfulOrder(order) && EncodeRequest(r).Some? && Modest(cfg, limit, r)
    ensures var first := Rounds(r, 1025);
      var up, down := |EncodeFrame(FirstRequest(cfg, r))|, |EncodeFrame(FirstReply(cfg, r))|;
      && Reach(cfg, order, Connected(cfg.serializer, limit), first).client.sendable
      && !Reach(cfg, order, Connected(cfg.serializer, limit), first + [ToServer(up), ToClient(down)]).client.sendable
      && Timeouts(first) == 1025
  {
    var n := MAX_REMEMBERED + 1;
    var start, first := Connected(cfg.serializer, limit), Rounds(r, n);
    var w, v := EncodeFrame(FirstRequest(cfg, r)), EncodeFrame(FirstReply(cfg, r));
    RoundsReach(cfg, order, cfg.serializer, limit, r, n);
    var s := Reach(cfg, order, start, first);
    TwoMoves(cfg, order, start, first, ToServer(|w|), ToClient(|v|));
    var s1 := FirstArrives(cfg, order, s, limit, r, n);
    ReplyArrives(cfg, order, s1, limit, r, n);
  }

  lemma {:induction false} FirstArrives(cfg: S.Config, order: Order, s: System, limit: Limit, r: Request, n: nat) returns (s1: System)
    requires LawfulOrder(order) && EncodeRequest(r).Some? && Modest(cfg, limit, r) && 0 < n && n + 1 < ID_SPACE
    requires After(s.client, n, r) && s.server == S.FRESH && s.up == 0 && s.down == 0 && s.client.serializer == cfg.serializer
    ensures s1 == Next(cfg, order, s, ToServer(|EncodeFrame(FirstRequest(cfg, r))|))
    ensures s1.client == s.client && s1.server.sent == [FirstReply(cfg, r)] && s1.down == 0
  {
    var w, reqs := EncodeFrame(FirstRequest(cfg, r)), Requests(s.client);
    assert reqs[0] == FirstRequest(cfg, r);
    assert Upstream(s) == w + EncodeFrames(reqs[1..]);
    assert Upstream(s)[0..0 + |w|] == w;
    FirstIsServed(cfg, limit, r);
    s1 := Next(cfg, order, s, ToServer(|w|));
  }

  lemma {:induction false} ReplyArrives(cfg: S.Config, order: Order, s: System, limit: Limit, r: Request, n: nat)
    requires LawfulOrder(order) && EncodeRequest(r).Some? && Modest(cfg, limit, r) && MAX_REMEMBERED < n && n + 1 < ID_SPACE
    requires After(s.client, n, r) && s.server.sent == [FirstReply(cfg, r)] && s.down == 0 && s.client.limit == limit
    ensures !Next(cfg, order, s, ToClient(|EncodeFrame(FirstReply(cfg, r))|)).client.sendable
  {
    var f, v := FirstReply(cfg, r), EncodeFrame(FirstReply(cfg, r));
    NotRecent(s.client, 1, n);
    OnlyFrame(cfg, order, s, f);
    UnknownIdIsFatal(order, s.client.(buffered := v), f);
  }

  lemma {:induction false} OnlyFrame(cfg: S.Config, order: Order, s: System, f: Frame)
    requires LawfulOrder(order) && s.server.sent == [f] && s.down == 0 && s.client.buffered == [] && !s.client.stuck
    ensures Next(cfg, order, s, ToClient(|EncodeFrame(f)|)).client == OnMessage(order, s.client.(buffered := EncodeFrame(f)))
  {
    EncodeOne(f);
    ChunkIsFrame(s.client, f);
  }

  lemma {:induction false} EncodeOne(f: Frame)
    ensures EncodeFrames([f]) == EncodeFrame(f)
  {
    assert EncodeFrames([f]) == EncodeFrame(f) + EncodeFrames([f][1..]);
  }

  lemma {:induction false} ChunkIsFrame(c: Client, f: Frame)
    requires c.buffered == [] && EncodeFrames([f]) == EncodeFrame(f)
    ensures WithChunk(c, [f], 0, |EncodeFrame(f)|) == c.(buffered := EncodeFrame(f))
  {
    var v := EncodeFrame(f);
    assert v[0..0 + |v|] == v && [] + v == v;
  }
}
