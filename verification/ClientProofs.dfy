/** What every run of the client keeps: calls are conserved and request ids stay apart. */
module ClientProofs {
  import opened Bytes
  import opened Protocol
  import opened Framing
  import opened ClientSession

  // ----- Where a call is -----

  ghost function PendingIds(m: map<uint32, Pending>, k: nat): set<uint32> {
    set id | id in m && m[id].call == k
  }

  ghost function PendingCount(m: map<uint32, Pending>, k: nat): nat { |PendingIds(m, k)| }

  function FailingCount(ps: seq<Pending>, k: nat): nat {
    if ps == [] then 0 else (if ps[0].call == k then 1 else 0) + FailingCount(ps[1..], k)
  }

  function DoneCount(ds: seq<Completion>, k: nat): nat {
    if ds == [] then 0 else DoneCount(ds[..|ds| - 1], k) + if ds[|ds| - 1].call == k then 1 else 0
  }

  /** The call whose id allocation never returns. */
  function HungCount(c: Client, k: nat): nat { if c.stuck && k + 1 == |c.requests| then 1 else 0 }

  /** In how many places call number `k` is found. */
  ghost function Places(c: Client, k: nat): nat {
    PendingCount(c.pendings, k) + FailingCount(c.failing, k) + DoneCount(c.done, k) + HungCount(c, k)
  }

  /** Every call started is in exactly one place; no other call is anywhere. */
  ghost predicate Conserved(c: Client) {
    forall k :: Places(c, k) == Started(c, k)
  }

  function Started(c: Client, k: nat): nat { if k < |c.requests| then 1 else 0 }

  ghost function Excess(c: Client, k: nat): int { Places(c, k) - Started(c, k) }

  lemma NothingPending(k: nat)
    ensures PendingCount(map[], k) == 0
  {
  }

  lemma IdsAdded(m: map<uint32, Pending>, id: uint32, p: Pending, k: nat)
    requires id !in m
    ensures id !in PendingIds(m, k)
    ensures PendingIds(m[id := p], k) == PendingIds(m, k) + if p.call == k then {id} else {}
  {
  }

  lemma PendingAdded(m: map<uint32, Pending>, id: uint32, p: Pending, k: nat)
    requires id !in m
    ensures PendingCount(m[id := p], k) == PendingCount(m, k) + if p.call == k then 1 else 0
  {
    IdsAdded(m, id, p, k);
  }

  lemma PendingRemoved(m: map<uint32, Pending>, id: uint32, k: nat)
    requires id in m
    ensures PendingCount(m, k) == PendingCount(m - {id}, k) + if m[id].call == k then 1 else 0
  {
    PendingAdded(m - {id}, id, m[id], k);
    assert (m - {id})[id := m[id]] == m;
  }

  lemma DonePushed(ds: seq<Completion>, d: Completion, k: nat)
    ensures DoneCount(ds + [d], k) == DoneCount(ds, k) + if d.call == k then 1 else 0
  {
  }

  // ----- Conservation, operation by operation -----

  lemma {:induction false} RunConserves(c: Client, a: Act, k: nat)
    ensures Excess(Run(c, a), k) == Excess(c, k)
    decreases a, 1
  {
    if !c.stuck && a.StartCall? {
      StartConserves(c, a, k);
    }
  }

  lemma {:induction false} StartConserves(c: Client, a: Act, k: nat)
    requires !c.stuck && a.StartCall?
    ensures Excess(Run(c, a), k) == Excess(c, k)
    decreases a, 0
  {
    var n := |c.requests|;
    var c0 := c.(requests := c.requests + [a.request]);
    assert Excess(c0, k) == Excess(c, k) - if n == k then 1 else 0;
    if !c.linked {
      FinishConserves(c0, Completion(n, CLOSED_RESPONSE, false), a.after, k);
    } else if EncodeRequest(a.request).None? {
      FinishConserves(c0, Completion(n, BAD_REQUEST_RESPONSE, false), a.after, k);
    } else if Allocate(c0).Some? {
      PendingAdded(c0.pendings, Allocate(c0).value, Pending(n, a.after, a.timed), k);
    }
  }

  lemma {:induction false} FinishConserves(c: Client, d: Completion, acts: seq<Act>, k: nat)
    requires !c.stuck
    ensures Excess(Finish(c, d, acts), k) == Excess(c, k) + if d.call == k then 1 else 0
    decreases acts, 3
  {
    DonePushed(c.done, d, k);
    RunAllConserves(c.(done := c.done + [d]), acts, k);
  }

  lemma {:induction false} RunAllConserves(c: Client, acts: seq<Act>, k: nat)
    ensures Excess(RunAll(c, acts), k) == Excess(c, k)
    decreases acts, 2
  {
    if acts != [] {
      RunConserves(c, acts[0], k);
      RunAllConserves(Run(c, acts[0]), acts[1..], k);
    }
  }

  lemma TimeoutConserves(c: Client, id: uint32, k: nat)
    ensures Excess(OnTimeout(c, id), k) == Excess(c, k)
  {
    if !c.stuck && id in c.pendings {
      var p := c.pendings[id];
      var c1 := Remember(Take(c, id), id);
      PendingRemoved(c.pendings, id, k);
      FinishConserves(c1, Completion(p.call, TIMEOUT_RESPONSE, false), p.after, k);
    }
  }

  lemma {:induction false} FailLoopConserves(c: Client, k: nat)
    ensures Excess(FailLoop(c), k) == Excess(c, k)
    decreases |c.failing|
  {
    if !c.stuck && c.failing != [] {
      var p := c.failing[0];
      var c1 := NextFailing(c);
      var d := Completion(p.call, CLOSED_RESPONSE, false);
      FinishConserves(c1, d, p.after, k);
      FailLoopConserves(Finish(c1, d, p.after), k);
    }
  }

  lemma RestEnumerates(ids: seq<uint32>, keys: set<uint32>)
    requires Enumerates(ids, keys) && ids != []
    ensures ids[0] in keys && Enumerates(ids[1..], keys - {ids[0]})
  {
    assert forall x :: x in ids <==> x == ids[0] || x in ids[1..];
  }

  lemma EntriesSplit(m: map<uint32, Pending>, ids: seq<uint32>)
    requires Enumerates(ids, m.Keys) && ids != []
    ensures Enumerates(ids[1..], (m - {ids[0]}).Keys)
    ensures Entries(m, ids) == [m[ids[0]]] + Entries(m - {ids[0]}, ids[1..])
  {
    RestEnumerates(ids, m.Keys);
    assert (m - {ids[0]}).Keys == m.Keys - {ids[0]};
  }

  /** Moving the table out keeps every call: the list holds exactly the pending calls. */
  lemma {:induction false} EntriesCount(m: map<uint32, Pending>, ids: seq<uint32>, k: nat)
    requires Enumerates(ids, m.Keys)
    ensures FailingCount(Entries(m, ids), k) == PendingCount(m, k)
    decreases |ids|
  {
    if ids == [] {
      assert m.Keys == {};
      NothingPending(k);
    } else {
      var id, rest := ids[0], ids[1..];
      EntriesSplit(m, ids);
      EntriesCount(m - {id}, rest, k);
      PendingRemoved(m, id, k);
    }
  }

  lemma FailAllConserves(order: Order, c: Client, k: nat)
    requires LawfulOrder(order) && (c.stuck || c.failing == [])
    ensures Excess(FailAll(order, c), k) == Excess(c, k)
  {
    if !c.stuck {
      var ids := order(c.pendings);
      assert Enumerates(ids, c.pendings.Keys);
      EntriesCount(c.pendings, ids, k);
      FailLoopConserves(c.(pendings := map[], failing := Entries(c.pendings, ids)), k);
      NothingPending(k);
    }
  }

  /** Between events nothing is left in a moved-out table unless the loop hangs. */
  predicate Settled(c: Client) { c.stuck || c.failing == [] }

  lemma {:induction false} FailLoopSettles(c: Client)
    ensures Settled(FailLoop(c))
    decreases |c.failing|
  {
    if !c.stuck && c.failing != [] {
      var p := c.failing[0];
      FailLoopSettles(Finish(NextFailing(c), Completion(p.call, CLOSED_RESPONSE, false), p.after));
    }
  }

  lemma FailConnectionConserves(order: Order, c: Client, k: nat)
    requires LawfulOrder(order) && Settled(c)
    ensures Settled(FailConnection(order, c)) && Excess(FailConnection(order, c), k) == Excess(c, k)
  {
    FailAllConserves(order, c, k);
    if !c.stuck {
      FailLoopSettles(c.(pendings := map[], failing := Entries(c.pendings, order(c.pendings))));
    }
  }

  lemma OnFrameConserves(order: Order, c: Client, f: Frame, k: nat)
    requires LawfulOrder(order) && !c.stuck && c.failing == []
    ensures Settled(OnFrame(order, c, f)) && Excess(OnFrame(order, c, f), k) == Excess(c, k)
  {
    var id := f.header.requestId;
    if !GoesOn(c, f) {
      FailConnectionConserves(order, c, k);
    } else if id in c.pendings {
      var p := c.pendings[id];
      PendingRemoved(c.pendings, id, k);
      FinishConserves(Take(c, id),
                      Completion(p.call, Response(f.header.status, f.body, f.header.serializer), true), p.after, k);
    }
  }

  lemma {:induction false} OnMessageConserves(order: Order, c: Client, k: nat)
    requires LawfulOrder(order) && Settled(c)
    ensures Settled(OnMessage(order, c)) && Excess(OnMessage(order, c), k) == Excess(c, k)
    decreases |c.buffered|
  {
    if !c.stuck {
      match ParseFrame(c.limit, c.buffered)
      case NeedMore =>
      case ProtocolError => FailConnectionConserves(order, c, k);
      case Complete(f, rest) =>
        var c0 := c.(buffered := rest);
        OnFrameConserves(order, c0, f, k);
        if GoesOn(c, f) {
          OnMessageConserves(order, OnFrame(order, c0, f), k);
        }
    }
  }

  lemma StepConserves(order: Order, c: Client, e: Event, k: nat)
    requires LawfulOrder(order) && Settled(c)
    ensures Settled(Step(order, c, e)) && Excess(Step(order, c, e), k) == Excess(c, k)
  {
    match e
    case Post(a) => RunConserves(c, a, k);
    case Expire(id) => TimeoutConserves(c, id, k);
    case Bytes(chunk) =>
      if !c.stuck {
        OnMessageConserves(order, c.(buffered := c.buffered + chunk), k);
      }
    case Link(up) =>
      if !c.stuck && !up {
        var c1 := c.(linked := false, sendable := false);
        FailAllConserves(order, c1, k);
        FailLoopSettles(c1.(pendings := map[], failing := Entries(c.pendings, order(c.pendings))));
      }
  }

  /**
   * Exactly-once completion: in every run each call is pending, being failed,
   * completed once or hung in id allocation, and never two of these.
   */
  lemma {:induction false} EveryCallInOnePlace(order: Order, serializer: byte, limit: Limit, es: seq<Event>)
    requires LawfulOrder(order)
    ensures var c := Steps(order, Initial(serializer, limit), es); Settled(c) && Conserved(c)
  {
    var c0 := Initial(serializer, limit);
    if es == [] {
      forall k: nat ensures Places(c0, k) == Started(c0, k) {
        NothingPending(k);
      }
    } else {
      var init, e := es[..|es| - 1], es[|es| - 1];
      EveryCallInOnePlace(order, serializer, limit, init);
      var c := Steps(order, c0, init);
      StepConserves(order, c, e, 0);
      forall k: nat ensures Places(Step(order, c, e), k) == Started(Step(order, c, e), k) {
        StepConserves(order, c, e, k);
      }
    }
  }

  /** Completed at most once, and not while still pending. */
  lemma CompletedOnce(c: Client, i: nat, j: nat)
    requires Conserved(c) && i < |c.done| && j < |c.done| && c.done[i].call == c.done[j].call
    ensures i == j
    ensures forall id :: id in c.pendings ==> c.pendings[id].call != c.done[i].call
  {
    var k := c.done[i].call;
    assert Places(c, k) == Started(c, k);
    if i < j {
      DoneTwice(c.done, i, j);
    } else if j < i {
      DoneTwice(c.done, j, i);
    }
    DoneCounted(c.done, i);
    forall id | id in c.pendings ensures c.pendings[id].call != k {
      if c.pendings[id].call == k {
        PendingRemoved(c.pendings, id, k);
      }
    }
  }

  lemma {:induction false} DoneCounted(ds: seq<Completion>, i: nat)
    requires i < |ds|
    ensures DoneCount(ds, ds[i].call) >= 1
  {
    if i < |ds| - 1 {
      DoneCounted(ds[..|ds| - 1], i);
    }
  }

  lemma {:induction false} DoneTwice(ds: seq<Completion>, i: nat, j: nat)
    requires i < j < |ds| && ds[i].call == ds[j].call
    ensures DoneCount(ds, ds[i].call) >= 2
  {
    if j == |ds| - 1 {
      DoneCounted(ds[..|ds| - 1], i);
    } else {
      DoneTwice(ds[..|ds| - 1], i, j);
    }
  }

  // ----- Ids and links -----

  /**
   * Id 0, the pending ids and the remembered ids are apart; the deque lists the
   * remembered set without repetition and holds at most 1024 ids; nothing is
   * pending on a client without a connection.
   */
  ghost predicate IdsApart(c: Client) {
    && 0 !in c.pendings && 0 !in c.timedOutSet
    && (forall id :: id in c.pendings ==> id !in c.timedOutSet)
    && Enumerates(c.timedOut, c.timedOutSet) && |c.timedOut| <= 1024
    && (!c.linked ==> c.pendings == map[])
  }

  lemma {:induction false} RunKeepsIds(c: Client, a: Act)
    requires IdsApart(c)
    ensures IdsApart(Run(c, a))
    decreases a, 1
  {
    if !c.stuck && a.StartCall? {
      var n := |c.requests|;
      var c0 := c.(requests := c.requests + [a.request]);
      if !c.linked {
        RunAllKeepsIds(c0.(done := c0.done + [Completion(n, CLOSED_RESPONSE, false)]), a.after);
      } else if EncodeRequest(a.request).None? {
        RunAllKeepsIds(c0.(done := c0.done + [Completion(n, BAD_REQUEST_RESPONSE, false)]), a.after);
      }
    }
  }

  lemma {:induction false} RunAllKeepsIds(c: Client, acts: seq<Act>)
    requires IdsApart(c)
    ensures IdsApart(RunAll(c, acts))
    decreases acts, 2
  {
    if acts != [] {
      RunKeepsIds(c, acts[0]);
      RunAllKeepsIds(Run(c, acts[0]), acts[1..]);
    }
  }

  /** The deque and the set have the same size. */
  lemma {:induction false} EnumerationSize(s: seq<uint32>, keys: set<uint32>)
    requires Enumerates(s, keys)
    ensures |s| == |keys|
  {
    if s == [] {
      assert keys == {};
    } else {
      RestEnumerates(s, keys);
      EnumerationSize(s[1..], keys - {s[0]});
      assert keys == (keys - {s[0]}) + {s[0]};
    }
  }

  /** Remembering a fresh id keeps the bounded FIFO and its set in step. */
  lemma RememberKeepsIds(c: Client, id: uint32)
    requires IdsApart(c) && id in c.pendings
    ensures IdsApart(Remember(Take(c, id), id))
  {
    EnumerationSize(c.timedOut, c.timedOutSet);
    var c1 := Remember(Take(c, id), id);
    if |c.timedOutSet| >= MAX_REMEMBERED {
      var front, rest := c.timedOut[0], c.timedOut[1..];
      assert forall x :: x in c.timedOut <==> x == front || x in rest;
      assert front !in rest;
      PushedId(rest, id, c.timedOutSet - {front});
    } else {
      PushedId(c.timedOut, id, c.timedOutSet);
    }
  }

  lemma PushedId(s: seq<uint32>, id: uint32, keys: set<uint32>)
    requires Enumerates(s, keys) && id !in keys
    ensures Enumerates(s + [id], keys + {id})
  {
  }

  lemma FailAllKeepsIds(order: Order, c: Client)
    requires LawfulOrder(order) && IdsApart(c)
    ensures IdsApart(FailAll(order, c))
  {
    if !c.stuck {
      FailLoopKeepsIds(c.(pendings := map[], failing := Entries(c.pendings, order(c.pendings))));
    }
  }

  lemma {:induction false} FailLoopKeepsIds(c: Client)
    requires IdsApart(c)
    ensures IdsApart(FailLoop(c))
    decreases |c.failing|
  {
    if !c.stuck && c.failing != [] {
      var p := c.failing[0];
      var c1 := NextFailing(c).(done := c.done + [Completion(p.call, CLOSED_RESPONSE, false)]);
      RunAllKeepsIds(c1, p.after);
      FailLoopKeepsIds(RunAll(c1, p.after));
    }
  }

  lemma OnFrameKeepsIds(order: Order, c: Client, f: Frame)
    requires LawfulOrder(order) && IdsApart(c)
    ensures IdsApart(OnFrame(order, c, f))
  {
    var id := f.header.requestId;
    if !GoesOn(c, f) {
      FailAllKeepsIds(order, c);
    } else if id in c.pendings {
      var p := c.pendings[id];
      var d := Completion(p.call, Response(f.header.status, f.body, f.header.serializer), true);
      RunAllKeepsIds(Take(c, id).(done := c.done + [d]), p.after);
    }
  }

  lemma {:induction false} OnMessageKeepsIds(order: Order, c: Client)
    requires LawfulOrder(order) && IdsApart(c)
    ensures IdsApart(OnMessage(order, c))
    decreases |c.buffered|
  {
    if !c.stuck {
      match ParseFrame(c.limit, c.buffered)
      case NeedMore =>
      case ProtocolError => FailAllKeepsIds(order, c);
      case Complete(f, rest) =>
        var c0 := c.(buffered := rest);
        OnFrameKeepsIds(order, c0, f);
        if GoesOn(c, f) {
          OnMessageKeepsIds(order, OnFrame(order, c0, f));
        }
    }
  }

  lemma StepKeepsIds(order: Order, c: Client, e: Event)
    requires LawfulOrder(order) && IdsApart(c)
    ensures IdsApart(Step(order, c, e))
  {
    match e
    case Post(a) => RunKeepsIds(c, a);
    case Expire(id) =>
      if !c.stuck && id in c.pendings {
        var c1 := Remember(Take(c, id), id);
        RememberKeepsIds(c, id);
        RunAllKeepsIds(c1.(done := c1.done + [Completion(c.pendings[id].call, TIMEOUT_RESPONSE, false)]),
                       c.pendings[id].after);
      }
    case Bytes(chunk) => if !c.stuck { OnMessageKeepsIds(order, c.(buffered := c.buffered + chunk)); }
    case Link(up) =>
      if !c.stuck && !up {
        FailLoopKeepsIds(c.(linked := false, sendable := false, pendings := map[],
                            failing := Entries(c.pendings, order(c.pendings))));
      }
  }

  /** Request ids stay apart in every run. */
  lemma {:induction false} IdsStayApart(order: Order, serializer: byte, limit: Limit, es: seq<Event>)
    requires LawfulOrder(order)
    ensures IdsApart(Steps(order, Initial(serializer, limit), es))
  {
    if es != [] {
      IdsStayApart(order, serializer, limit, es[..|es| - 1]);
      StepKeepsIds(order, Steps(order, Initial(serializer, limit), es[..|es| - 1]), es[|es| - 1]);
    }
  }

  /** Once connection-down has been handled, nothing is pending and nothing is left to fail. */
  lemma DownLeavesNothingPending(order: Order, serializer: byte, limit: Limit, es: seq<Event>)
    requires LawfulOrder(order)
    ensures var c := Steps(order, Initial(serializer, limit), es + [Link(false)]);
      !c.stuck ==> !c.linked && c.pendings == map[] && c.failing == []
  {
    var all := es + [Link(false)];
    assert all[..|all| - 1] == es;
    EveryCallInOnePlace(order, serializer, limit, all);
    IdsStayApart(order, serializer, limit, all);
  }
}
