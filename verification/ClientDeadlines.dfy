/** Deadline timers: set exactly for the pending calls that have a deadline, in every run. */
module ClientDeadlines {
  import opened Bytes
  import opened Protocol
  import opened Framing
  import opened ClientSession
  import opened ClientProofs

  ghost function Timed(m: map<uint32, Pending>): map<uint32, Pending> {
    map id | id in m && m[id].timed :: m[id]
  }

  function TimedFailing(ps: seq<Pending>, k: nat): nat {
    if ps == [] then 0 else (if ps[0].timed && ps[0].call == k then 1 else 0) + TimedFailing(ps[1..], k)
  }

  /** Timers set for call `k`, less its entries that have a deadline. */
  ghost function Stray(c: Client, k: nat): int {
    c.armed[k] - PendingCount(Timed(c.pendings), k) - TimedFailing(c.failing, k)
  }

  function TimedFor(p: Pending, k: nat): nat { if p.timed && p.call == k then 1 else 0 }

  lemma TimedAdded(m: map<uint32, Pending>, id: uint32, p: Pending, k: nat)
    requires id !in m
    ensures PendingCount(Timed(m[id := p]), k) == PendingCount(Timed(m), k) + TimedFor(p, k)
  {
    if p.timed {
      PendingAdded(Timed(m), id, p, k);
      assert Timed(m[id := p]) == Timed(m)[id := p];
    } else {
      assert Timed(m[id := p]) == Timed(m);
    }
  }

  lemma TimedRemoved(m: map<uint32, Pending>, id: uint32, k: nat)
    requires id in m
    ensures PendingCount(Timed(m), k) == PendingCount(Timed(m - {id}), k) + TimedFor(m[id], k)
  {
    TimedAdded(m - {id}, id, m[id], k);
    assert (m - {id})[id := m[id]] == m;
  }

  lemma EnterTimes(c: Client, id: uint32, p: Pending, body: Body, k: nat)
    requires id !in c.pendings
    ensures Stray(Enter(c, id, p, body), k) == Stray(c, k)
  {
    TimedAdded(c.pendings, id, p, k);
  }

  lemma TakeStops(c: Client, id: uint32, k: nat)
    requires id in c.pendings && Stray(c, k) == 0
    ensures Stray(Take(c, id), k) == 0
  {
    TimedRemoved(c.pendings, id, k);
  }

  lemma {:induction false} RunTimes(c: Client, a: Act, k: nat)
    ensures Stray(Run(c, a), k) == Stray(c, k)
    decreases a, 1
  {
    if !c.stuck && a.StartCall? {
      var n := |c.requests|;
      var c0 := c.(requests := c.requests + [a.request]);
      if !c.linked {
        RunAllTimes(c0.(done := c0.done + [Completion(n, CLOSED_RESPONSE, false)]), a.after, k);
      } else if EncodeRequest(a.request).None? {
        RunAllTimes(c0.(done := c0.done + [Completion(n, BAD_REQUEST_RESPONSE, false)]), a.after, k);
      } else if Allocate(c0).Some? {
        EnterTimes(c0, Allocate(c0).value, Pending(n, a.after, a.timed), EncodeRequest(a.request).value, k);
      }
    }
  }

  lemma {:induction false} RunAllTimes(c: Client, acts: seq<Act>, k: nat)
    ensures Stray(RunAll(c, acts), k) == Stray(c, k)
    decreases acts, 2
  {
    if acts != [] {
      RunTimes(c, acts[0], k);
      RunAllTimes(Run(c, acts[0]), acts[1..], k);
    }
  }

  lemma FinishTimes(c: Client, d: Completion, acts: seq<Act>, k: nat)
    ensures Stray(Finish(c, d, acts), k) == Stray(c, k)
  {
    RunAllTimes(c.(done := c.done + [d]), acts, k);
  }

  lemma TimeoutStops(c: Client, id: uint32, k: nat)
    requires Stray(c, k) == 0
    ensures Stray(OnTimeout(c, id), k) == 0
  {
    if !c.stuck && id in c.pendings {
      var p := c.pendings[id];
      TakeStops(c, id, k);
      FinishTimes(Remember(Take(c, id), id), Completion(p.call, TIMEOUT_RESPONSE, false), p.after, k);
    }
  }

  lemma {:induction false} FailLoopStops(c: Client, k: nat)
    requires Stray(c, k) == 0
    ensures Stray(FailLoop(c), k) == 0
    decreases |c.failing|
  {
    if !c.stuck && c.failing != [] {
      var p := c.failing[0];
      var d := Completion(p.call, CLOSED_RESPONSE, false);
      FinishTimes(NextFailing(c), d, p.after, k);
      FailLoopStops(Finish(NextFailing(c), d, p.after), k);
    }
  }

  lemma {:induction false} EntriesTimed(m: map<uint32, Pending>, ids: seq<uint32>, k: nat)
    requires Enumerates(ids, m.Keys)
    ensures TimedFailing(Entries(m, ids), k) == PendingCount(Timed(m), k)
    decreases |ids|
  {
    if ids == [] {
      assert Timed(m) == map[];
      NothingPending(k);
    } else {
      var id, rest := ids[0], ids[1..];
      EntriesSplit(m, ids);
      EntriesTimed(m - {id}, rest, k);
      TimedRemoved(m, id, k);
    }
  }

  lemma FailAllStops(order: Order, c: Client, k: nat)
    requires LawfulOrder(order) && Settled(c) && Stray(c, k) == 0
    ensures Stray(FailAll(order, c), k) == 0
  {
    if !c.stuck {
      var ids := order(c.pendings);
      assert Enumerates(ids, c.pendings.Keys);
      var c1 := c.(pendings := map[], failing := Entries(c.pendings, ids));
      EntriesTimed(c.pendings, ids, k);
      assert Timed(map[]) == map[];
      NothingPending(k);
      FailLoopStops(c1, k);
    }
  }

  lemma OnFrameStops(order: Order, c: Client, f: Frame, k: nat)
    requires LawfulOrder(order) && !c.stuck && c.failing == [] && Stray(c, k) == 0
    ensures Stray(OnFrame(order, c, f), k) == 0
  {
    var id := f.header.requestId;
    if !GoesOn(c, f) {
      FailAllStops(order, c, k);
    } else if id in c.pendings {
      var p := c.pendings[id];
      TakeStops(c, id, k);
      FinishTimes(Take(c, id), Completion(p.call, Response(f.header.status, f.body, f.header.serializer), true),
                  p.after, k);
    }
  }

  lemma {:induction false} OnMessageStops(order: Order, c: Client, k: nat)
    requires LawfulOrder(order) && Settled(c) && Stray(c, k) == 0
    ensures Stray(OnMessage(order, c), k) == 0
    decreases |c.buffered|
  {
    if !c.stuck {
      match ParseFrame(c.limit, c.buffered)
      case NeedMore =>
      case ProtocolError => FailAllStops(order, c, k);
      case Complete(f, rest) =>
        var c0 := c.(buffered := rest);
        OnFrameStops(order, c0, f, k);
        OnFrameConserves(order, c0, f, k);
        if GoesOn(c, f) {
          OnMessageStops(order, OnFrame(order, c0, f), k);
        }
    }
  }

  lemma StepStops(order: Order, c: Client, e: Event, k: nat)
    requires LawfulOrder(order) && Settled(c) && Stray(c, k) == 0
    ensures Stray(Step(order, c, e), k) == 0
  {
    match e
    case Post(a) => RunTimes(c, a, k);
    case Expire(id) => TimeoutStops(c, id, k);
    case Bytes(chunk) => if !c.stuck { OnMessageStops(order, c.(buffered := c.buffered + chunk), k); }
    case Link(up) => if !c.stuck && !up { FailAllStops(order, c.(linked := false, sendable := false), k); }
  }

  lemma {:induction false} NoStray(order: Order, serializer: byte, limit: Limit, es: seq<Event>, k: nat)
    requires LawfulOrder(order)
    ensures Stray(Steps(order, Initial(serializer, limit), es), k) == 0
  {
    var c0 := Initial(serializer, limit);
    if es == [] {
      assert Timed(map[]) == map[];
      NothingPending(k);
    } else {
      var init := es[..|es| - 1];
      NoStray(order, serializer, limit, init, k);
      EveryCallInOnePlace(order, serializer, limit, init);
      StepStops(order, Steps(order, c0, init), es[|es| - 1], k);
    }
  }

  /**
   * In every run a deadline timer is set for a call exactly while it is pending
   * and has a deadline, and one timer only: completing a call, however that
   * comes about, leaves no timer behind. While no id has been used twice, an
   * expiry that finds its id pending is that call's own timer.
   */
  lemma DeadlinesFollowCalls(order: Order, serializer: byte, limit: Limit, es: seq<Event>, k: nat)
    requires LawfulOrder(order) && !Steps(order, Initial(serializer, limit), es).stuck
    requires Steps(order, Initial(serializer, limit), es).taken < ID_SPACE
    ensures var c := Steps(order, Initial(serializer, limit), es);
      && c.armed[k] <= 1
      && (k in c.armed <==> exists id :: id in c.pendings && c.pendings[id].timed && c.pendings[id].call == k)
  {
    var c := Steps(order, Initial(serializer, limit), es);
    EveryCallInOnePlace(order, serializer, limit, es);
    NoStray(order, serializer, limit, es, k);
    assert Places(c, k) == Started(c, k);
    var ids := PendingIds(Timed(c.pendings), k);
    assert ids <= PendingIds(c.pendings, k);
    FewerIds(ids, PendingIds(c.pendings, k));
    if id :| id in c.pendings && c.pendings[id].timed && c.pendings[id].call == k {
      assert id in ids;
    }
    if k in c.armed {
      assert |ids| > 0;
      var id :| id in ids;
    }
  }

  lemma FewerIds(a: set<uint32>, b: set<uint32>)
    requires a <= b
    ensures |a| <= |b|
  {
    assert b == a + (b - a);
  }
}
