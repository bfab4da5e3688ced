/**
 * What a caller is told, in every run of the client: a call the client ends
 * itself learns why from its status, and a call ended from the wire gets the
 * content of a response frame under its own id.
 */
module ClientRules {
  import opened Bytes
  import opened Protocol
  import opened Framing
  import opened ClientSession
  import opened ClientProofs

  // ----- Told from the events -----

  /** Is the connection up after these events? The last to say so decides. */
  function LinkUp(es: seq<Event>): bool {
    es != [] && if es[|es| - 1].Link? then es[|es| - 1].up else LinkUp(es[..|es| - 1])
  }

  /** Call `k` was started while the connection was up. */
  ghost predicate StartedLinked(order: Order, c0: Client, es: seq<Event>, k: nat)
    requires LawfulOrder(order)
  {
    es != []
    && if k < |Steps(order, c0, es[..|es| - 1]).requests| then StartedLinked(order, c0, es[..|es| - 1], k) else LinkUp(es)
  }

  /** The deadline of the id under which `c` has call `k` pending expires. */
  predicate Expires(c: Client, e: Event, k: nat) {
    e.Expire? && !c.stuck && e.id in c.pendings && c.pendings[e.id].call == k
  }

  /** The deadline of call `k` expired while it was pending. */
  ghost predicate TimedOut(order: Order, c0: Client, es: seq<Event>, k: nat)
    requires LawfulOrder(order)
  {
    es != []
    && (TimedOut(order, c0, es[..|es| - 1], k) || Expires(Steps(order, c0, es[..|es| - 1]), es[|es| - 1], k))
  }

  // ----- Within one step -----

  /** One step: the state before it, the frames it can read, and the call whose deadline it is. */
  datatype Context = Context(before: Client, fs: seq<Frame>, timed: Option<nat>)

  /** A response of this version in the client's own format. */
  predicate GoodResponse(serializer: byte, h: Header) { h.version == 1 && h.kind == 2 && h.serializer == serializer }

  predicate IsNew(x: Context, k: nat) { |x.before.requests| <= k }

  /** The status of a call that the client ends itself. */
  function OwnStatus(x: Context, c: Client, k: nat): byte
    requires k < |c.requests|
  {
    if x.timed == Some(k) then 0x0A
    else if IsNew(x, k) && c.linked && EncodeRequest(c.requests[k]).None? then 0x0C
    else 0x0B
  }

  /** The completion carries a response frame for the id its call was pending under. */
  ghost predicate FromFrame(x: Context, d: Completion, f: Frame) {
    && f in x.fs && GoodResponse(x.before.serializer, f.header)
    && d.response == Response(f.header.status, f.body, f.header.serializer)
    && (IsNew(x, d.call) || (f.header.requestId in x.before.pendings && x.before.pendings[f.header.requestId].call == d.call))
  }

  ghost predicate Fair(x: Context, c: Client, d: Completion) {
    && d.call < |c.requests|
    && if d.answered then exists f :: FromFrame(x, d, f) else d.response == Response(OwnStatus(x, c, d.call), [], 0)
  }

  /** A call in the table, or moved out of it, could be encoded. */
  predicate Encodes(c: Client, k: nat) { k < |c.requests| && EncodeRequest(c.requests[k]).Some? }

  ghost predicate PendingEncode(c: Client) {
    && (forall id :: id in c.pendings ==> Encodes(c, c.pendings[id].call))
    && (forall i :: 0 <= i < |c.failing| ==> Encodes(c, c.failing[i].call))
    && (c.stuck ==> c.requests != [] && Encodes(c, |c.requests| - 1))
  }

  /** A pending call was pending under the same id before the step, or is new. */
  predicate KnownPending(x: Context, id: uint32, p: Pending) {
    IsNew(x, p.call) || (id in x.before.pendings && x.before.pendings[id].call == p.call)
  }

  /** Every completion of the step so far is fair. */
  ghost predicate Told(x: Context, c: Client) {
    && x.before.requests <= c.requests && x.before.done <= c.done && c.serializer == x.before.serializer
    && (x.timed.Some? ==> x.timed.value < |x.before.requests|)
    && (forall j :: |x.before.done| <= j < |c.done| ==> Fair(x, c, c.done[j]))
    && (forall id :: id in c.pendings ==> KnownPending(x, id, c.pendings[id]))
    && PendingEncode(c)
  }

  /** The same calls, completions and link, with fewer or the same entries in the tables. */
  lemma StillTold(x: Context, c: Client, c': Client)
    requires Told(x, c) && c'.requests == c.requests && c'.done == c.done && c'.linked == c.linked
    requires c'.serializer == c.serializer && c'.stuck == c.stuck
    requires forall id :: id in c'.pendings ==> id in c.pendings && c'.pendings[id] == c.pendings[id]
    requires forall i :: 0 <= i < |c'.failing| ==>
      c'.failing[i] in c.failing || exists id :: id in c.pendings && c.pendings[id] == c'.failing[i]
    ensures Told(x, c')
  {
    forall j | |x.before.done| <= j < |c'.done| ensures Fair(x, c', c'.done[j]) {
      assert Fair(x, c, c.done[j]);
    }
  }

  lemma DoneTold(x: Context, c: Client, d: Completion)
    requires Told(x, c) && Fair(x, c, d)
    ensures Told(x, c.(done := c.done + [d]))
  {
    var c' := c.(done := c.done + [d]);
    forall j | |x.before.done| <= j < |c'.done| ensures Fair(x, c', c'.done[j]) {
      if j < |c.done| {
        assert Fair(x, c, c.done[j]);
      }
    }
  }

  lemma StartTold(x: Context, c: Client, r: Request)
    requires Told(x, c) && !c.stuck
    ensures Told(x, c.(requests := c.requests + [r]))
  {
    var c' := c.(requests := c.requests + [r]);
    forall k | 0 <= k < |c.requests| ensures c'.requests[k] == c.requests[k] {
    }
    forall j | |x.before.done| <= j < |c'.done| ensures Fair(x, c', c'.done[j]) {
      assert Fair(x, c, c.done[j]);
    }
  }

  lemma EnterTold(x: Context, c: Client, id: uint32, p: Pending, body: Body)
    requires Told(x, c) && IsNew(x, p.call) && Encodes(c, p.call) && !c.stuck
    ensures Told(x, Enter(c, id, p, body))
  {
    var c' := Enter(c, id, p, body);
    forall j | |x.before.done| <= j < |c'.done| ensures Fair(x, c', c'.done[j]) {
      assert Fair(x, c, c.done[j]);
    }
  }

  lemma {:induction false} RunTold(x: Context, c: Client, a: Act)
    requires Told(x, c)
    ensures Told(x, Run(c, a))
    decreases a, 1
  {
    if !c.stuck {
      match a
      case Disconnect => StillTold(x, c, c.(sendable := false));
      case StartCall(request, timed, after) =>
        var n, c0 := |c.requests|, c.(requests := c.requests + [request]);
        StartTold(x, c, request);
        if !c.linked {
          FinishTold(x, c0, Completion(n, CLOSED_RESPONSE, false), after);
        } else if EncodeRequest(request).None? {
          FinishTold(x, c0, Completion(n, BAD_REQUEST_RESPONSE, false), after);
        } else if Allocate(c0).Some? {
          EnterTold(x, c0, Allocate(c0).value, Pending(n, after, timed), EncodeRequest(request).value);
        } else {
          HangTold(x, c0);
        }
    }
  }

  lemma HangTold(x: Context, c: Client)
    requires Told(x, c) && c.requests != [] && Encodes(c, |c.requests| - 1)
    ensures Told(x, c.(stuck := true))
  {
    forall j | |x.before.done| <= j < |c.done| ensures Fair(x, c.(stuck := true), c.done[j]) {
      assert Fair(x, c, c.done[j]);
    }
  }

  lemma {:induction false} FinishTold(x: Context, c: Client, d: Completion, after: seq<Act>)
    requires Told(x, c) && Fair(x, c, d)
    ensures Told(x, Finish(c, d, after))
    decreases after, 3
  {
    DoneTold(x, c, d);
    RunAllTold(x, c.(done := c.done + [d]), after);
  }

  lemma {:induction false} RunAllTold(x: Context, c: Client, acts: seq<Act>)
    requires Told(x, c)
    ensures Told(x, RunAll(c, acts))
    decreases acts, 2
  {
    if acts != [] {
      RunTold(x, c, acts[0]);
      RunAllTold(x, Run(c, acts[0]), acts[1..]);
    }
  }

  /** At the beginning of a step nobody has been told anything. */
  lemma NothingTold(x: Context, c: Client)
    requires PendingEncode(c) && c.requests == x.before.requests && c.done == x.before.done
    requires c.serializer == x.before.serializer && c.pendings == x.before.pendings
    requires x.timed.Some? ==> x.timed.value < |x.before.requests|
    ensures Told(x, c)
  {
  }

  lemma TimeoutTold(c: Client, id: uint32)
    requires PendingEncode(c) && !c.stuck && id in c.pendings
    ensures Told(Context(c, [], Some(c.pendings[id].call)), OnTimeout(c, id))
  {
    var p := c.pendings[id];
    var x := Context(c, [], Some(p.call));
    var c1 := Remember(Take(c, id), id);
    NothingTold(x, c);
    StillTold(x, c, c1);
    FinishTold(x, c1, Completion(p.call, TIMEOUT_RESPONSE, false), p.after);
  }

  lemma {:induction false} FailLoopTold(x: Context, c: Client)
    requires Told(x, c) && x.timed.None?
    ensures Told(x, FailLoop(c))
    decreases |c.failing|
  {
    if !c.stuck && c.failing != [] {
      var p, c1 := c.failing[0], NextFailing(c);
      var d := Completion(p.call, CLOSED_RESPONSE, false);
      StillTold(x, c, c1);
      FinishTold(x, c1, d, p.after);
      FailLoopTold(x, Finish(c1, d, p.after));
    }
  }

  lemma FailAllTold(x: Context, order: Order, c: Client)
    requires LawfulOrder(order) && Told(x, c) && x.timed.None?
    ensures Told(x, FailAll(order, c))
  {
    if !c.stuck {
      assert Enumerates(order(c.pendings), c.pendings.Keys);
      var moved := Entries(c.pendings, order(c.pendings));
      forall i | 0 <= i < |moved| ensures exists id :: id in c.pendings && c.pendings[id] == moved[i] {
        assert order(c.pendings)[i] in c.pendings;
      }
      StillTold(x, c, c.(pendings := map[], failing := moved));
      FailLoopTold(x, c.(pendings := map[], failing := moved));
    }
  }

  lemma FailConnectionTold(x: Context, order: Order, c: Client)
    requires LawfulOrder(order) && Told(x, c) && x.timed.None?
    ensures Told(x, FailConnection(order, c))
  {
    FailAllTold(x, order, c);
    StillTold(x, FailAll(order, c), FailConnection(order, c));
  }

  lemma OnFrameTold(x: Context, order: Order, c: Client, f: Frame)
    requires LawfulOrder(order) && Told(x, c) && x.timed.None? && f in x.fs
    ensures Told(x, OnFrame(order, c, f))
  {
    var id := f.header.requestId;
    if !GoesOn(c, f) {
      FailConnectionTold(x, order, c);
    } else if id in c.pendings {
      var p := c.pendings[id];
      var d := Completion(p.call, Response(f.header.status, f.body, f.header.serializer), true);
      assert KnownPending(x, id, p);
      assert FromFrame(x, d, f);
      StillTold(x, c, Take(c, id));
      FinishTold(x, Take(c, id), d, p.after);
    }
  }

  lemma {:induction false} OnMessageTold(x: Context, order: Order, c: Client)
    requires LawfulOrder(order) && Told(x, c) && x.timed.None?
    requires forall f :: f in Drain(c.limit, c.buffered).frames ==> f in x.fs
    ensures Told(x, OnMessage(order, c))
    decreases |c.buffered|
  {
    if !c.stuck {
      match ParseFrame(c.limit, c.buffered)
      case NeedMore =>
      case ProtocolError => FailConnectionTold(x, order, c);
      case Complete(f, rest) =>
        var c0 := c.(buffered := rest);
        DrainFirst(c.limit, c.buffered, f, rest);
        assert f in Drain(c.limit, c.buffered).frames;
        StillTold(x, c, c0);
        OnFrameTold(x, order, c0, f);
        if GoesOn(c, f) {
          SameLimit(order, c0, f);
          OnMessageTold(x, order, OnFrame(order, c0, f));
        }
    }
  }

  lemma SameLimit(order: Order, c: Client, f: Frame)
    requires LawfulOrder(order) && GoesOn(c, f)
    ensures OnFrame(order, c, f).limit == c.limit
  {
  }

  // ----- One step -----

  /** What the step `e` from `c` can tell. */
  function ContextOf(c: Client, e: Event): Context {
    Context(c, if e.Bytes? then Drain(c.limit, c.buffered + e.chunk).frames else [],
            if e.Expire? && !c.stuck && e.id in c.pendings then Some(c.pendings[e.id].call) else None)
  }

  lemma StepTold(order: Order, c: Client, e: Event)
    requires LawfulOrder(order) && PendingEncode(c)
    ensures Told(ContextOf(c, e), Step(order, c, e))
  {
    var x := ContextOf(c, e);
    NothingTold(x, c);
    if !c.stuck {
      match e
      case Post(a) => RunTold(x, c, a);
      case Expire(id) => if id in c.pendings { TimeoutTold(c, id); }
      case Bytes(chunk) =>
        var c1 := c.(buffered := c.buffered + chunk);
        StillTold(x, c, c1);
        OnMessageTold(x, order, c1);
      case Link(up) =>
        var c1 := c.(linked := up, sendable := up);
        NothingTold(x, c1);
        if !up {
          FailAllTold(x, order, c1);
        }
    }
  }

  // ----- Every run -----

  /** The completion of a call the client ended itself says why. */
  ghost predicate Explained(order: Order, c0: Client, es: seq<Event>, d: Completion)
    requires LawfulOrder(order)
  {
    var c := Steps(order, c0, es);
    && d.call < |c.requests|
    && d.response == Response(
         if TimedOut(order, c0, es, d.call) then 0x0A
         else if StartedLinked(order, c0, es, d.call) && EncodeRequest(c.requests[d.call]).None? then 0x0C
         else 0x0B, [], 0)
  }

  /** Call `k` has been completed. */
  predicate IsDone(c: Client, k: nat) { DoneCount(c.done, k) >= 1 }

  /** Timed-out calls could be encoded; they are over, and so are calls refused at once. */
  ghost predicate Settles(order: Order, c0: Client, es: seq<Event>, k: nat)
    requires LawfulOrder(order)
  {
    var c := Steps(order, c0, es);
    && (TimedOut(order, c0, es, k) ==> Encodes(c, k) && IsDone(c, k))
    && (k < |c.requests| && StartedLinked(order, c0, es, k) && !Encodes(c, k) ==> IsDone(c, k))
  }

  ghost predicate History(order: Order, c0: Client, es: seq<Event>)
    requires LawfulOrder(order)
  {
    var c := Steps(order, c0, es);
    && PendingEncode(c) && (!c.stuck ==> c.linked == LinkUp(es))
    && (forall k :: Settles(order, c0, es, k))
    && (forall j :: 0 <= j < |c.done| && !c.done[j].answered ==> Explained(order, c0, es, c.done[j]))
  }

  lemma {:induction false} DoneGrows(ds: seq<Completion>, more: seq<Completion>, k: nat)
    requires ds <= more
    ensures DoneCount(more, k) >= DoneCount(ds, k)
  {
    if |ds| < |more| {
      DoneGrows(ds, more[..|more| - 1], k);
    } else {
      assert ds == more;
    }
  }

  /** A call in two places cannot be. */
  lemma OncePending(c: Client, id: uint32, k: nat)
    requires Conserved(c) && id in c.pendings && c.pendings[id].call == k
    ensures !IsDone(c, k)
  {
    assert Places(c, k) == Started(c, k);
    PendingRemoved(c.pendings, id, k);
  }

  lemma {:induction false} NotFailing(ps: seq<Pending>, k: nat)
    requires forall i :: 0 <= i < |ps| ==> ps[i].call != k
    ensures FailingCount(ps, k) == 0
  {
    if ps != [] {
      NotFailing(ps[1..], k);
    }
  }

  /** A call that cannot be encoded is not kept anywhere, so it is over. */
  lemma RefusedIsDone(c: Client, k: nat)
    requires Conserved(c) && PendingEncode(c) && k < |c.requests| && !Encodes(c, k)
    ensures IsDone(c, k)
  {
    assert Places(c, k) == Started(c, k);
    assert PendingIds(c.pendings, k) == {};
    NotFailing(c.failing, k);
  }

  /** A step that sees the deadline of a pending call completes it. */
  lemma ExpiredIsDone(order: Order, c: Client, e: Event, k: nat)
    requires LawfulOrder(order) && PendingEncode(c) && Expires(c, e, k)
    ensures IsDone(Step(order, c, e), k)
  {
    var p := c.pendings[e.id];
    var c1 := Remember(Take(c, e.id), e.id);
    var d := Completion(p.call, TIMEOUT_RESPONSE, false);
    var c2 := c1.(done := c1.done + [d]);
    NothingTold(Context(c2, [], None), c2);
    RunAllTold(Context(c2, [], None), c2, p.after);
    DoneCounted(c2.done, |c1.done|);
    DoneGrows(c2.done, RunAll(c2, p.after).done, k);
  }

  /** The link follows the events. */
  lemma LinkFollows(order: Order, c: Client, e: Event, up: bool)
    requires LawfulOrder(order) && !c.stuck && c.linked == up
    ensures Step(order, c, e).linked == if e.Link? then e.up else up
  {
    if e.Bytes? {
      ReadKeepsLink(order, c.(buffered := c.buffered + e.chunk));
    }
  }

  lemma {:induction false} ReadKeepsLink(order: Order, c: Client)
    requires LawfulOrder(order)
    ensures OnMessage(order, c).linked == c.linked
    decreases |c.buffered|
  {
    if !c.stuck && ParseFrame(c.limit, c.buffered).Complete? {
      var f, rest := ParseFrame(c.limit, c.buffered).frame, ParseFrame(c.limit, c.buffered).rest;
      if GoesOn(c, f) {
        ReadKeepsLink(order, OnFrame(order, c.(buffered := rest), f));
      }
    }
  }

  /** What one step adds to the history of call `k`. */
  lemma StepSettles(order: Order, c0: Client, es: seq<Event>, e: Event, k: nat)
    requires LawfulOrder(order) && History(order, c0, es)
    requires Conserved(Steps(order, c0, es + [e])) && Told(ContextOf(Steps(order, c0, es), e), Steps(order, c0, es + [e]))
    ensures Settles(order, c0, es + [e], k)
  {
    var all := es + [e];
    assert all[..|all| - 1] == es;
    var c, c' := Steps(order, c0, es), Steps(order, c0, all);
    assert Settles(order, c0, es, k);
    DoneGrows(c.done, c'.done, k);
    if Expires(c, e, k) {
      ExpiredIsDone(order, c, e, k);
    }
    if k < |c'.requests| && !Encodes(c', k) {
      RefusedIsDone(c', k);
    }
    assert k < |c.requests| ==> c'.requests[k] == c.requests[k];
  }

  /** An earlier completion stays explained. */
  lemma StaysExplained(order: Order, c0: Client, es: seq<Event>, e: Event, d: Completion)
    requires LawfulOrder(order) && Explained(order, c0, es, d) && IsDone(Steps(order, c0, es), d.call)
    requires Conserved(Steps(order, c0, es)) && Steps(order, c0, es).requests <= Steps(order, c0, es + [e]).requests
    ensures Explained(order, c0, es + [e], d)
  {
    var all := es + [e];
    assert all[..|all| - 1] == es;
    var c := Steps(order, c0, es);
    if Expires(c, e, d.call) {
      OncePending(c, e.id, d.call);
    }
    assert Steps(order, c0, all).requests[d.call] == c.requests[d.call];
  }

  /** A call completed in this step was not over before it. */
  lemma NotDoneBefore(c: Client, c': Client, j: nat)
    requires Conserved(c') && c.done <= c'.done && |c.done| <= j < |c'.done|
    ensures !IsDone(c, c'.done[j].call)
  {
    var k := c'.done[j].call;
    assert Places(c', k) == Started(c', k);
    var init := c'.done[..j];
    DoneGrows(c.done, init, k);
    assert c'.done[..j + 1] == init + [c'.done[j]];
    DonePushed(init, c'.done[j], k);
    DoneGrows(c'.done[..j + 1], c'.done, k);
  }

  /** A completion of this step is explained. */
  lemma NowExplained(order: Order, c0: Client, es: seq<Event>, e: Event, j: nat)
    requires LawfulOrder(order) && History(order, c0, es) && !Steps(order, c0, es).stuck
    requires Conserved(Steps(order, c0, es + [e])) && Told(ContextOf(Steps(order, c0, es), e), Steps(order, c0, es + [e]))
    requires Steps(order, c0, es + [e]).linked == LinkUp(es + [e])
    requires |Steps(order, c0, es).done| <= j < |Steps(order, c0, es + [e]).done|
    requires !Steps(order, c0, es + [e]).done[j].answered
    ensures Explained(order, c0, es + [e], Steps(order, c0, es + [e]).done[j])
  {
    var all := es + [e];
    assert all[..|all| - 1] == es;
    var c, c' := Steps(order, c0, es), Steps(order, c0, all);
    var d, x := c'.done[j], ContextOf(c, e);
    assert Fair(x, c', d);
    NotDoneBefore(c, c', j);
    assert Settles(order, c0, es, d.call);
    assert d.call < |c.requests| ==> c'.requests[d.call] == c.requests[d.call];
    assert x.timed == Some(d.call) <==> Expires(c, e, d.call);
  }

  lemma StepHistory(order: Order, c0: Client, es: seq<Event>, e: Event)
    requires LawfulOrder(order) && History(order, c0, es)
    requires Conserved(Steps(order, c0, es)) && Conserved(Steps(order, c0, es + [e]))
    ensures History(order, c0, es + [e])
  {
    var all := es + [e];
    assert all[..|all| - 1] == es;
    var c, c' := Steps(order, c0, es), Steps(order, c0, all);
    StepTold(order, c, e);
    forall k: nat ensures Settles(order, c0, all, k) {
      StepSettles(order, c0, es, e, k);
    }
    if !c.stuck {
      LinkFollows(order, c, e, LinkUp(es));
    }
    forall j | 0 <= j < |c'.done| && !c'.done[j].answered ensures Explained(order, c0, all, c'.done[j]) {
      if j < |c.done| {
        DoneCounted(c.done, j);
        StaysExplained(order, c0, es, e, c.done[j]);
      } else {
        NowExplained(order, c0, es, e, j);
      }
    }
  }

  lemma {:induction false} AlwaysHistory(order: Order, serializer: byte, limit: Limit, es: seq<Event>)
    requires LawfulOrder(order)
    ensures History(order, Initial(serializer, limit), es)
  {
    var c0 := Initial(serializer, limit);
    if es == [] {
      forall k: nat ensures Settles(order, c0, es, k) {
      }
    } else {
      var init, e := es[..|es| - 1], es[|es| - 1];
      assert es == init + [e];
      AlwaysHistory(order, serializer, limit, init);
      EveryCallInOnePlace(order, serializer, limit, init);
      EveryCallInOnePlace(order, serializer, limit, es);
      StepHistory(order, c0, init, e);
    }
  }

  /**
   * A call that the client ended itself, in any run: never a success, never a
   * payload; TIMEOUT exactly when its deadline expired while it was pending,
   * BAD_REQUEST exactly when it was started on a live connection and its request
   * cannot be encoded, and CONNECTION_CLOSED otherwise.
   */
  lemma CallersAreTold(order: Order, serializer: byte, limit: Limit, es: seq<Event>, j: nat)
    requires LawfulOrder(order)
    requires var c := Steps(order, Initial(serializer, limit), es); j < |c.done| && !c.done[j].answered
    ensures var c0 := Initial(serializer, limit); var c := Steps(order, c0, es); var d := c.done[j];
      && d.call < |c.requests| && d.response.payload == [] && d.response.serializer == 0
      && (d.response.status == 0x0A <==> TimedOut(order, c0, es, d.call))
      && (d.response.status == 0x0C <==>
            StartedLinked(order, c0, es, d.call) && EncodeRequest(c.requests[d.call]).None?)
      && (d.response.status != 0x0A && d.response.status != 0x0C ==> d.response.status == 0x0B)
  {
    var c0 := Initial(serializer, limit);
    AlwaysHistory(order, serializer, limit, es);
    assert Settles(order, c0, es, Steps(order, c0, es).done[j].call);
  }

  /**
   * A call ended from the wire, in any run: in the step that completed it a
   * response frame of the client's version and serializer came in under the id
   * the call was pending under (or a call started in that very step), and the
   * caller got its status and body.
   */
  lemma AnswersComeFromFrames(order: Order, serializer: byte, limit: Limit, es: seq<Event>, e: Event, j: nat)
    requires LawfulOrder(order)
    requires var c := Steps(order, Initial(serializer, limit), es); var c' := Step(order, c, e);
      |c.done| <= j < |c'.done| && c'.done[j].answered
    ensures var c := Steps(order, Initial(serializer, limit), es); var d := Step(order, c, e).done[j];
      e.Bytes? && exists f ::
        && f in Drain(c.limit, c.buffered + e.chunk).frames && GoodResponse(c.serializer, f.header)
        && d.response == Response(f.header.status, f.body, f.header.serializer)
        && (d.call >= |c.requests|
            || (f.header.requestId in c.pendings && c.pendings[f.header.requestId].call == d.call))
  {
    var c := Steps(order, Initial(serializer, limit), es);
    AlwaysHistory(order, serializer, limit, es);
    StepTold(order, c, e);
    var x, c' := ContextOf(c, e), Step(order, c, e);
    assert Fair(x, c', c'.done[j]);
    var f :| FromFrame(x, c'.done[j], f);
  }

  // ----- Frames that end the connection -----

  /** The transport is never reopened, the link stays, and calls are only added. */
  predicate Later(c: Client, c': Client) {
    (c'.sendable ==> c.sendable) && c'.linked == c.linked && |c.requests| <= |c'.requests|
  }

  /** Every pending call has number `n` or a later one. */
  ghost predicate OnlyFrom(c: Client, n: nat) { forall id :: id in c.pendings ==> c.pendings[id].call >= n }

  lemma {:induction false} RunLater(c: Client, a: Act, n: nat)
    requires n <= |c.requests|
    ensures Later(c, Run(c, a)) && (OnlyFrom(c, n) ==> OnlyFrom(Run(c, a), n))
    decreases a, 1
  {
    if !c.stuck && a.StartCall? {
      var k, c0 := |c.requests|, c.(requests := c.requests + [a.request]);
      if !c.linked {
        FinishLater(c0, Completion(k, CLOSED_RESPONSE, false), a.after, n);
      } else if EncodeRequest(a.request).None? {
        FinishLater(c0, Completion(k, BAD_REQUEST_RESPONSE, false), a.after, n);
      }
    }
  }

  lemma {:induction false} FinishLater(c: Client, d: Completion, after: seq<Act>, n: nat)
    requires n <= |c.requests|
    ensures Later(c, Finish(c, d, after)) && (OnlyFrom(c, n) ==> OnlyFrom(Finish(c, d, after), n))
    decreases after, 3
  {
    RunAllLater(c.(done := c.done + [d]), after, n);
  }

  lemma {:induction false} RunAllLater(c: Client, acts: seq<Act>, n: nat)
    requires n <= |c.requests|
    ensures Later(c, RunAll(c, acts)) && (OnlyFrom(c, n) ==> OnlyFrom(RunAll(c, acts), n))
    decreases acts, 2
  {
    if acts != [] {
      RunLater(c, acts[0], n);
      RunAllLater(Run(c, acts[0]), acts[1..], n);
    }
  }

  lemma {:induction false} FailLoopLater(c: Client, n: nat)
    requires n <= |c.requests| && OnlyFrom(c, n)
    ensures Later(c, FailLoop(c)) && OnlyFrom(FailLoop(c), n)
    decreases |c.failing|
  {
    if !c.stuck && c.failing != [] {
      var p := c.failing[0];
      var c1, d := NextFailing(c), Completion(p.call, CLOSED_RESPONSE, false);
      FinishLater(c1, d, p.after, n);
      FailLoopLater(Finish(c1, d, p.after), n);
    }
  }

  lemma FailAllLater(order: Order, c: Client, n: nat)
    requires LawfulOrder(order) && n <= |c.requests| && !c.stuck
    ensures Later(c, FailAll(order, c)) && OnlyFrom(FailAll(order, c), n)
  {
    FailLoopLater(c.(pendings := map[], failing := Entries(c.pendings, order(c.pendings))), n);
  }

  /** Nothing is sent any more, and of the calls before number `n` none is left pending. */
  ghost predicate Ended(c: Client, n: nat) { !c.sendable && OnlyFrom(c, n) }

  lemma FailConnectionEnds(order: Order, c: Client, n: nat)
    requires LawfulOrder(order) && n <= |c.requests| && !c.stuck && (c.sendable ==> c.linked)
    ensures Later(c, FailConnection(order, c)) && (!FailConnection(order, c).stuck ==> Ended(FailConnection(order, c), n))
  {
    FailAllLater(order, c, n);
  }

  lemma OnFrameLater(order: Order, c: Client, f: Frame)
    requires LawfulOrder(order) && !c.stuck && GoesOn(c, f)
    ensures Later(c, OnFrame(order, c, f))
  {
    var id := f.header.requestId;
    if id in c.pendings {
      var p := c.pendings[id];
      FinishLater(Take(c, id), Completion(p.call, Response(f.header.status, f.body, f.header.serializer), true),
                  p.after, 0);
    }
  }

  /** There is something in the input that no server of this protocol sends to this client. */
  ghost predicate Alien(serializer: byte, d: Drained) {
    d.bad || exists i :: 0 <= i < |d.frames| && !GoodResponse(serializer, d.frames[i].header)
  }

  lemma AlienBehind(limit: Limit, serializer: byte, s: bytes, f: Frame, rest: bytes)
    requires ParseFrame(limit, s) == Complete(f, rest) && GoodResponse(serializer, f.header)
    ensures Alien(serializer, Drain(limit, s)) <==> Alien(serializer, Drain(limit, rest))
  {
    var d, e := Drain(limit, s), Drain(limit, rest);
    DrainFirst(limit, s, f, rest);
    assert forall i :: 0 < i < |d.frames| ==> d.frames[i] == e.frames[i - 1];
    if i :| 0 <= i < |e.frames| && !GoodResponse(serializer, e.frames[i].header) {
      assert d.frames[i + 1] == e.frames[i];
    }
  }

  lemma {:induction false} OnMessageLater(order: Order, c: Client, n: nat)
    requires LawfulOrder(order) && n <= |c.requests| && !c.stuck && (c.sendable ==> c.linked)
    ensures var r := OnMessage(order, c);
      Later(c, r) && (Alien(c.serializer, Drain(c.limit, c.buffered)) && !r.stuck ==> Ended(r, n))
    decreases |c.buffered|
  {
    match ParseFrame(c.limit, c.buffered)
    case NeedMore =>
    case ProtocolError => FailConnectionEnds(order, c, n);
    case Complete(f, rest) =>
      var c0 := c.(buffered := rest);
      if GoesOn(c, f) {
        AlienBehind(c.limit, c.serializer, c.buffered, f, rest);
        OnFrameLater(order, c0, f);
        if !OnFrame(order, c0, f).stuck {
          OnMessageLater(order, OnFrame(order, c0, f), n);
        }
      } else {
        FailConnectionEnds(order, c0, n);
      }
  }

  lemma {:induction false} SendableIsLinked(order: Order, serializer: byte, limit: Limit, es: seq<Event>)
    requires LawfulOrder(order)
    ensures var c := Steps(order, Initial(serializer, limit), es); c.sendable ==> c.linked
  {
    if es != [] {
      var c, e := Steps(order, Initial(serializer, limit), es[..|es| - 1]), es[|es| - 1];
      SendableIsLinked(order, serializer, limit, es[..|es| - 1]);
      if !c.stuck {
        match e
        case Post(a) => RunLater(c, a, 0);
        case Expire(id) =>
          if id in c.pendings {
            var c1 := Remember(Take(c, id), id);
            FinishLater(c1, Completion(c.pendings[id].call, TIMEOUT_RESPONSE, false), c.pendings[id].after, 0);
          }
        case Bytes(chunk) => OnMessageLater(order, c.(buffered := c.buffered + chunk), 0);
        case Link(up) =>
          if !up {
            FailAllLater(order, c.(linked := false, sendable := false), 0);
          }
      }
    }
  }

  /**
   * Input that is not a frame, or a frame of another version, type or
   * serializer, ends the connection in any run: nothing is sent any more, and no
   * call started before that read is left pending.
   */
  lemma AlienInputEndsConnection(order: Order, serializer: byte, limit: Limit, es: seq<Event>, chunk: bytes)
    requires LawfulOrder(order)
    requires var c := Steps(order, Initial(serializer, limit), es);
      !c.stuck && Alien(c.serializer, Drain(c.limit, c.buffered + chunk))
    ensures var c := Steps(order, Initial(serializer, limit), es); var c' := Step(order, c, Bytes(chunk));
      !c'.stuck ==> !c'.sendable && forall id :: id in c'.pendings ==> c'.pendings[id].call >= |c.requests|
  {
    var c := Steps(order, Initial(serializer, limit), es);
    SendableIsLinked(order, serializer, limit, es);
    OnMessageLater(order, c.(buffered := c.buffered + chunk), |c.requests|);
  }

  // ----- What is sent -----

  /**
   * A call started on a live connection goes out at once: its frame carries its
   * own request under an id that was free, and that id now stands for the call.
   */
  lemma CallGoesOut(order: Order, c: Client, r: Request, timed: bool, after: seq<Act>)
    requires LawfulOrder(order) && !c.stuck && EncodeRequest(r).Some? && exists id :: Free(c, id)
    ensures var up := Step(order, c, Link(true)); var c' := Step(order, up, Post(StartCall(r, timed, after)));
      && !c'.stuck && c'.requests == c.requests + [r] && |c'.issued| == |c.issued| + 1 && c.issued <= c'.issued
      && var i := c'.issued[|c.issued|];
         && i.call == |c.requests| && EncodeRequest(r) == Some(i.body)
         && i.id != 0 && i.id !in c.pendings && i.id !in c.timedOutSet
         && c'.pendings == c.pendings[i.id := Pending(|c.requests|, after, timed)]
  {
    var up := c.(linked := true, sendable := true);
    var c0 := up.(requests := c.requests + [r]);
    var id :| Free(c, id);
    assert Free(c0, id);
    AllocateFindsFreeId(c0);
  }

  /** The transport is closed and nothing is sent. */
  predicate Silent(c: Client, c': Client) { c'.issued == c.issued && !c'.sendable }

  lemma {:induction false} RunSilent(c: Client, a: Act)
    requires !c.sendable
    ensures Silent(c, Run(c, a))
    decreases a, 1
  {
    if !c.stuck && a.StartCall? {
      var k, c0 := |c.requests|, c.(requests := c.requests + [a.request]);
      if !c.linked {
        FinishSilent(c0, Completion(k, CLOSED_RESPONSE, false), a.after);
      } else if EncodeRequest(a.request).None? {
        FinishSilent(c0, Completion(k, BAD_REQUEST_RESPONSE, false), a.after);
      }
    }
  }

  lemma {:induction false} FinishSilent(c: Client, d: Completion, after: seq<Act>)
    requires !c.sendable
    ensures Silent(c, Finish(c, d, after))
    decreases after, 3
  {
    RunAllSilent(c.(done := c.done + [d]), after);
  }

  lemma {:induction false} RunAllSilent(c: Client, acts: seq<Act>)
    requires !c.sendable
    ensures Silent(c, RunAll(c, acts))
    decreases acts, 2
  {
    if acts != [] {
      RunSilent(c, acts[0]);
      RunAllSilent(Run(c, acts[0]), acts[1..]);
    }
  }

  lemma {:induction false} FailLoopSilent(c: Client)
    requires !c.sendable
    ensures Silent(c, FailLoop(c))
    decreases |c.failing|
  {
    if !c.stuck && c.failing != [] {
      var p := c.failing[0];
      var c1, d := NextFailing(c), Completion(p.call, CLOSED_RESPONSE, false);
      FinishSilent(c1, d, p.after);
      FailLoopSilent(Finish(c1, d, p.after));
    }
  }

  lemma FailAllSilent(order: Order, c: Client)
    requires LawfulOrder(order) && !c.sendable
    ensures Silent(c, FailAll(order, c))
  {
    if !c.stuck {
      FailLoopSilent(c.(pendings := map[], failing := Entries(c.pendings, order(c.pendings))));
    }
  }

  lemma {:induction false} OnMessageSilent(order: Order, c: Client)
    requires LawfulOrder(order) && !c.sendable
    ensures Silent(c, OnMessage(order, c))
    decreases |c.buffered|
  {
    if !c.stuck {
      match ParseFrame(c.limit, c.buffered)
      case NeedMore =>
      case ProtocolError => FailAllSilent(order, c);
      case Complete(f, rest) =>
        var c0 := c.(buffered := rest);
        OnFrameSilent(order, c0, f);
        if GoesOn(c, f) {
          OnMessageSilent(order, OnFrame(order, c0, f));
        }
    }
  }

  lemma OnFrameSilent(order: Order, c: Client, f: Frame)
    requires LawfulOrder(order) && !c.sendable
    ensures Silent(c, OnFrame(order, c, f))
  {
    var id := f.header.requestId;
    if !GoesOn(c, f) {
      FailAllSilent(order, c);
    } else if id in c.pendings {
      FinishSilent(Take(c, id),
                   Completion(c.pendings[id].call, Response(f.header.status, f.body, f.header.serializer), true),
                   c.pendings[id].after);
    }
  }

  lemma StepSilent(order: Order, c: Client, e: Event)
    requires LawfulOrder(order) && !c.sendable && e != Link(true)
    ensures Silent(c, Step(order, c, e))
  {
    match e
    case Post(a) => RunSilent(c, a);
    case Expire(id) =>
      if !c.stuck && id in c.pendings {
        FinishSilent(Remember(Take(c, id), id), Completion(c.pendings[id].call, TIMEOUT_RESPONSE, false),
                     c.pendings[id].after);
      }
    case Bytes(chunk) => OnMessageSilent(order, c.(buffered := c.buffered + chunk));
    case Link(up) => FailAllSilent(order, c.(linked := false, sendable := false));
  }

  /** After disconnect() or connection-down nothing is sent in any run, until a connection comes up. */
  lemma {:induction false} NothingSentWhenClosed(order: Order, c: Client, end: Event, es: seq<Event>)
    requires LawfulOrder(order) && !c.stuck && (end == Post(Disconnect) || end == Link(false)) && Link(true) !in es
    ensures var c1 := Step(order, c, end); !c1.sendable && Silent(c1, Steps(order, c1, es))
    ensures end == Post(Disconnect) ==> Step(order, c, end).issued == c.issued
  {
    var c1 := Step(order, c, end);
    if end == Link(false) {
      FailAllSilent(order, c.(linked := false, sendable := false));
    }
    if es != [] {
      NothingSentWhenClosed(order, c, end, es[..|es| - 1]);
      StepSilent(order, Steps(order, c1, es[..|es| - 1]), es[|es| - 1]);
    }
  }

  // ----- Completions run last -----

  /** What a completion does, as events of their own. */
  function AsPosts(acts: seq<Act>): seq<Event> { seq(|acts|, i requires 0 <= i < |acts| => Post(acts[i])) }

  lemma {:induction false} RunAllSnoc(c: Client, acts: seq<Act>, last: Act)
    ensures RunAll(c, acts + [last]) == Run(RunAll(c, acts), last)
    decreases |acts|
  {
    if acts == [] {
      assert acts + [last] == [last] && [last][1..] == [];
    } else {
      assert (acts + [last])[1..] == acts[1..] + [last] && (acts + [last])[0] == acts[0];
      RunAllSnoc(Run(c, acts[0]), acts[1..], last);
    }
  }

  lemma {:induction false} ScriptIsPosts(order: Order, c: Client, acts: seq<Act>)
    requires LawfulOrder(order)
    ensures RunAll(c, acts) == Steps(order, c, AsPosts(acts))
    decreases |acts|
  {
    if acts != [] {
      var init, last := acts[..|acts| - 1], acts[|acts| - 1];
      assert acts == init + [last] && AsPosts(acts)[..|acts| - 1] == AsPosts(init);
      ScriptIsPosts(order, c, init);
      RunAllSnoc(c, init, last);
    }
  }

  lemma FinishThenPosts(order: Order, c: Client, d: Completion, after: seq<Act>)
    requires LawfulOrder(order)
    ensures Finish(c, d, after) == Steps(order, Finish(c, d, []), AsPosts(after))
  {
    ScriptIsPosts(order, c.(done := c.done + [d]), after);
  }

  /** The same client, but call `id` has a completion that does nothing. */
  function Hushed(c: Client, id: uint32): Client
    requires id in c.pendings
  {
    c.(pendings := c.pendings[id := c.pendings[id].(after := [])])
  }

  lemma HushedTake(c: Client, id: uint32)
    requires id in c.pendings
    ensures Take(Hushed(c, id), id) == Take(c, id)
  {
    assert Hushed(c, id).pendings - {id} == c.pendings - {id};
  }

  /**
   * A completion runs once its call is out of the table and nothing else is left
   * to do, so what it starts has the effect it would have as the next events.
   */
  lemma CompletionsComeLast(order: Order, c: Client, id: uint32, f: Frame)
    requires LawfulOrder(order) && !c.stuck && id in c.pendings
    ensures Step(order, c, Expire(id)) == Steps(order, Step(order, Hushed(c, id), Expire(id)), AsPosts(c.pendings[id].after))
    ensures GoesOn(c, f) && f.header.requestId == id ==>
      OnFrame(order, c, f) == Steps(order, OnFrame(order, Hushed(c, id), f), AsPosts(c.pendings[id].after))
  {
    var p := c.pendings[id];
    HushedTake(c, id);
    FinishThenPosts(order, Remember(Take(c, id), id), Completion(p.call, TIMEOUT_RESPONSE, false), p.after);
    FinishThenPosts(order, Take(c, id),
                    Completion(p.call, Response(f.header.status, f.body, f.header.serializer), true), p.after);
  }

  /** So does the completion of a call that is refused at once. */
  lemma RefusalsComeLast(order: Order, c: Client, r: Request, timed: bool, after: seq<Act>)
    requires LawfulOrder(order) && !c.stuck && (!c.linked || EncodeRequest(r).None?)
    ensures Step(order, c, Post(StartCall(r, timed, after)))
         == Steps(order, Step(order, c, Post(StartCall(r, timed, []))), AsPosts(after))
  {
    var c0, n := c.(requests := c.requests + [r]), |c.requests|;
    var d := Completion(n, if !c.linked then CLOSED_RESPONSE else BAD_REQUEST_RESPONSE, false);
    FinishThenPosts(order, c0, d, after);
    assert Run(c, StartCall(r, timed, [])) == Finish(c0, d, []);
    assert Run(c, StartCall(r, timed, after)) == Finish(c0, d, after);
  }

  // ----- No call is dropped at the start -----

  /** A completion and what it starts come after what is there already. */
  lemma FinishExtends(c: Client, d: Completion, after: seq<Act>)
    requires PendingEncode(c)
    ensures c.requests <= Finish(c, d, after).requests && c.done + [d] <= Finish(c, d, after).done
  {
    var c1 := c.(done := c.done + [d]);
    var x := Context(c1, [], None);
    assert PendingEncode(c1);
    NothingTold(x, c1);
    RunAllTold(x, c1, after);
  }

  lemma RecordedEncodes(c: Client, r: Request)
    requires PendingEncode(c) && !c.stuck
    ensures PendingEncode(c.(requests := c.requests + [r]))
  {
    var c' := c.(requests := c.requests + [r]);
    assert forall k :: 0 <= k < |c.requests| ==> c'.requests[k] == c.requests[k];
  }

  /**
   * In every run a call that is started takes the next number, with its request.
   * Without a connection, or if it cannot be encoded, it is completed at once; else
   * it is pending if an id is free, and otherwise the client hangs over it.
   */
  lemma StartedCallsAreKept(
    order: Order, serializer: byte, limit: Limit, es: seq<Event>, r: Request, timed: bool, after: seq<Act>)
    requires LawfulOrder(order) && !Steps(order, Initial(serializer, limit), es).stuck
    ensures var c := Steps(order, Initial(serializer, limit), es); var n := |c.requests|;
      var c' := Step(order, c, Post(StartCall(r, timed, after)));
      && c.requests + [r] <= c'.requests
      && if !LinkUp(es) || EncodeRequest(r).None? then |c.done| < |c'.done| && c'.done[|c.done|].call == n
         else if exists id :: Free(c, id) then exists id :: id in c'.pendings && c'.pendings[id] == Pending(n, after, timed)
         else c'.stuck && c'.requests == c.requests + [r] && c'.pendings == c.pendings
  {
    var c0 := Initial(serializer, limit);
    var c := Steps(order, c0, es);
    var n, c1 := |c.requests|, c.(requests := c.requests + [r]);
    AlwaysHistory(order, serializer, limit, es);
    if !c.linked || EncodeRequest(r).None? {
      var d := Completion(n, if !c.linked then CLOSED_RESPONSE else BAD_REQUEST_RESPONSE, false);
      RecordedEncodes(c, r);
      FinishExtends(c1, d, after);
      assert Run(c, StartCall(r, timed, after)) == Finish(c1, d, after);
    } else {
      assert forall id :: Free(c1, id) <==> Free(c, id);
      AllocateFindsFreeId(c1);
      if Allocate(c1).Some? {
        var id := Allocate(c1).value;
        assert id in Enter(c1, id, Pending(n, after, timed), EncodeRequest(r).value).pendings;
      }
    }
  }
}
