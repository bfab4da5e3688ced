/** A timer goes off when it was asked to: expirations and callbacks, told from the events of a run alone. */
module TimerRequests {
  import opened Bytes
  import opened Timers
  import opened TimerProofs
  import opened TimerTheorems

  // ----- Told from the events -----

  /** What addTimer was called with, and the address of the timer it made. */
  datatype Asked = Asked(addr: nat, when: int, repeat: bool, interval: nat)

  function Ask(e: Event): seq<Asked> {
    match e
    case AddLocal(addr, when, repeat, interval) => [Asked(addr, when, repeat, interval)]
    case AddRemote(addr, when, repeat, interval) => [Asked(addr, when, repeat, interval)]
    case _ => []
  }

  /** The calls of addTimer in a run, in order. */
  function Requests(h: seq<Timed>): seq<Asked> {
    if h == [] then [] else Requests(h[..|h| - 1]) + Ask(h[|h| - 1].e)
  }

  /** The handle names the timer of some request. */
  predicate Made(h: seq<Timed>, id: TimerId) {
    1 <= id.sequence <= |Requests(h)| && Requests(h)[id.sequence - 1].addr == id.addr
  }

  function RequestOf(h: seq<Timed>, id: TimerId): Asked
    requires Made(h, id)
  {
    Requests(h)[id.sequence - 1]
  }

  /** A batch that begins with `id` in it. */
  predicate Takes(x: Timed, id: TimerId) { x.e.Begin? && id in x.e.batch }

  /** In how many batches `id` has been. */
  function Rounds(h: seq<Timed>, id: TimerId): nat {
    if h == [] then 0 else Rounds(h[..|h| - 1], id) + if Takes(h[|h| - 1], id) then 1 else 0
  }

  /** When the first of them began, and the last. */
  function FirstBatch(h: seq<Timed>, id: TimerId): int {
    if h == [] then 0
    else if Rounds(h[..|h| - 1], id) > 0 then FirstBatch(h[..|h| - 1], id)
    else h[|h| - 1].t
  }

  function LastBatch(h: seq<Timed>, id: TimerId): int {
    if h == [] then 0 else if Takes(h[|h| - 1], id) then h[|h| - 1].t else LastBatch(h[..|h| - 1], id)
  }

  /** When `id` is due next: as asked, and then one interval after the last batch it was in. */
  function NextDue(h: seq<Timed>, id: TimerId): int
    requires Made(h, id)
  {
    if Rounds(h, id) == 0 then RequestOf(h, id).when else LastBatch(h, id) + RequestOf(h, id).interval
  }

  lemma OneMore(h: seq<Timed>, x: Timed, id: TimerId)
    ensures Requests(h + [x]) == Requests(h) + Ask(x.e)
    ensures Rounds(h + [x], id) == Rounds(h, id) + if Takes(x, id) then 1 else 0
    ensures Rounds(h, id) > 0 ==> FirstBatch(h + [x], id) == FirstBatch(h, id)
    ensures Rounds(h, id) == 0 && Takes(x, id) ==> FirstBatch(h + [x], id) == x.t
    ensures LastBatch(h + [x], id) == if Takes(x, id) then x.t else LastBatch(h, id)
  {
    assert (h + [x])[..|h|] == h;
  }

  // ----- What every run keeps -----

  /** Handles are numbered as the requests. */
  predicate Numbered(q: Queue, h: seq<Timed>) {
    |q.issued| == |Requests(h)| && forall i :: 0 <= i < |q.issued| ==> q.issued[i] == TimerId(Requests(h)[i].addr, i + 1)
  }

  /** Waiting for its time, in the heap or on the way there. */
  predicate Waits(q: Queue, id: TimerId) { id in q.heap || InsertTask(id) in q.tasks }

  /** A live timer is as it was asked for, and expires when it is due. */
  predicate Kept(q: Queue, h: seq<Timed>, id: TimerId)
    requires Live(q, id)
  {
    && Made(h, id)
    && var a, timer := RequestOf(h, id), q.mem[id.addr];
       && timer.repeat == a.repeat && timer.interval == a.interval
       && (Rounds(h, id) == 0 || (Rounds(h, id) == 1 && id in q.batch) ==> timer.expiration == a.when)
       && (Waits(q, id) ==> timer.expiration == NextDue(h, id))
       && (id in q.batch ==> Rounds(h, id) > 0 && LastBatch(h, id) == q.batchTime)
  }

  ghost predicate AsAsked(q: Queue, h: seq<Timed>, id: TimerId) {
    && multiset(q.ran)[id] + RunsLeft(q, id) == Rounds(h, id)
    && (Rounds(h, id) > 0 ==> Made(h, id) && FirstBatch(h, id) >= RequestOf(h, id).when)
    && (Live(q, id) ==> Kept(q, h, id))
  }

  /** Nothing about `id` changes but, perhaps, that it leaves a place. */
  lemma StaysKept(q: Queue, h: seq<Timed>, id: TimerId, q': Queue, h': seq<Timed>)
    requires Live(q, id) && Kept(q, h, id) && Live(q', id) && q'.mem[id.addr] == q.mem[id.addr]
    requires Made(h', id) && RequestOf(h', id) == RequestOf(h, id)
    requires Rounds(h', id) == Rounds(h, id) && LastBatch(h', id) == LastBatch(h, id)
    requires (Waits(q', id) ==> Waits(q, id)) && (id in q'.batch ==> id in q.batch) && q'.batchTime == q.batchTime
    ensures Kept(q', h', id)
  {
  }

  lemma MadeLater(h: seq<Timed>, x: Timed, id: TimerId)
    requires Made(h, id)
    ensures Made(h + [x], id) && RequestOf(h + [x], id) == RequestOf(h, id)
  {
    OneMore(h, x, id);
  }

  // ----- Callbacks are counted -----

  /** Callbacks of `id` that ran or will run in the batch under way. */
  ghost function Runs(q: Queue, id: TimerId): nat { multiset(q.ran)[id] + RunsLeft(q, id) }

  lemma CancelRuns(q: Queue, id: TimerId, retry: bool, x: TimerId)
    ensures Runs(CancelInLoop(q, id, retry), x) == Runs(q, x)
  {
  }

  lemma CallbackRuns(q: Queue, id: TimerId)
    requires q.running && q.next < |q.batch|
    ensures Runs(q.(ran := q.ran + [q.batch[q.next]], next := q.next + 1), id) == Runs(q, id)
  {
    assert q.batch[q.next..] == [q.batch[q.next]] + q.batch[q.next + 1..];
  }

  lemma BeginRuns(q: Queue, batch: seq<TimerId>, t: int, id: TimerId)
    requires !q.running && IsBatch(q, batch, t)
    ensures Runs(StartBatch(q, batch, t), id) == Runs(q, id) + if id in batch then 1 else 0
  {
    AtMostOnce(batch, id);
    assert batch[0..] == batch;
    assert id in batch <==> id in multiset(batch);
  }

  lemma EndRuns(q: Queue, front: Option<TimerId>, t: int, id: TimerId)
    requires q.running && q.next == |q.batch|
    ensures Runs(FinishBatch(ResetAll(q, t), front, t), id) == Runs(q, id)
  {
    ResetKeepsTasks(q, t);
    assert q.batch[|q.batch|..] == [];
  }

  lemma StepRuns(q: Queue, e: Event, t: int, id: TimerId)
    requires Enabled(q, e, t)
    ensures Runs(Apply(q, e, t), id) == Runs(q, id) + if Takes(Timed(e, t), id) then 1 else 0
  {
    var q1 := q.(now := t);
    ClockFirst(q, e, t);
    assert Runs(q1, id) == Runs(q, id);
    match e
    case CancelLocal(x) => CancelRuns(q1, x, true, id);
    case RunTask =>
      if q.tasks[0].CancelTask? {
        CancelRuns(q1.(tasks := q.tasks[1..]), q.tasks[0].id, q.tasks[0].retry, id);
      }
    case Begin(batch) => BeginRuns(q1, batch, t, id);
    case Callback => CallbackRuns(q1, id);
    case End(front) => EndRuns(q1, front, t, id);
    case _ =>
  }

  // ----- Live timers stay as asked, event by event -----

  /** `id` is as asked if it is alive. */
  predicate KeptIfLive(q: Queue, h: seq<Timed>, id: TimerId) { Live(q, id) ==> Kept(q, h, id) }

  lemma NewKept(q: Queue, h: seq<Timed>, x: Timed, q': Queue, id: TimerId)
    requires Always(q) && Numbered(q, h) && AsAsked(q, h, id) && Ask(x.e) != []
    requires var a := Ask(x.e)[0]; var q1 := Allocate(q, a.addr, a.when, a.repeat, a.interval);
      a.addr !in q.mem && q'.mem == q1.mem && q'.batch == q.batch && q'.batchTime == q.batchTime
      && (Waits(q', id) ==> Waits(q, id) || id == TimerId(a.addr, |q.issued| + 1))
    ensures KeptIfLive(q', h + [x], id)
  {
    var made := TimerId(Ask(x.e)[0].addr, |q.issued| + 1);
    OneMore(h, x, id);
    if id == made {
      if id in q.batch {
        Located(q, id);
      }
    } else if Live(q', id) {
      assert Live(q, id);
      MadeLater(h, x, id);
      StaysKept(q, h, id, q', h + [x]);
    }
  }

  /** No new timer, no batch begun: whoever is alive was so before. */
  lemma OldKept(q: Queue, h: seq<Timed>, x: Timed, q': Queue, id: TimerId)
    requires KeptIfLive(q, h, id) && Ask(x.e) == [] && !Takes(x, id)
    requires Live(q', id) ==> Live(q, id) && q'.mem[id.addr] == q.mem[id.addr]
    requires (Waits(q', id) ==> Waits(q, id)) && (id in q'.batch ==> id in q.batch) && q'.batchTime == q.batchTime
    ensures KeptIfLive(q', h + [x], id)
  {
    OneMore(h, x, id);
    if Live(q', id) {
      MadeLater(h, x, id);
      StaysKept(q, h, id, q', h + [x]);
    }
  }

  lemma CancelKept(q: Queue, h: seq<Timed>, x: Timed, y: TimerId, retry: bool, id: TimerId)
    requires KeptIfLive(q, h, id) && Ask(x.e) == [] && !Takes(x, id)
    ensures KeptIfLive(CancelInLoop(q, y, retry), h + [x], id)
  {
    OldKept(q, h, x, CancelInLoop(q, y, retry), id);
  }

  lemma TaskKept(q: Queue, h: seq<Timed>, x: Timed, t: int, id: TimerId)
    requires KeptIfLive(q, h, id) && Ask(x.e) == [] && !Takes(x, id) && q.tasks != []
    ensures KeptIfLive(RunFirstTask(q, t), h + [x], id)
  {
    var q1 := q.(tasks := q.tasks[1..]);
    assert q.tasks == [q.tasks[0]] + q.tasks[1..];
    match q.tasks[0]
    case InsertTask(y) => OldKept(q, h, x, Insert(q1, y, t), id);
    case CancelTask(y, retry) =>
      assert KeptIfLive(q1, h, id);
      CancelKept(q1, h, x, y, retry, id);
  }

  lemma BeginKept(q: Queue, h: seq<Timed>, batch: seq<TimerId>, t: int, id: TimerId)
    requires Owned(q) && q.batch == [] && AsAsked(q, h, id) && IsBatch(q, batch, t)
    ensures KeptIfLive(StartBatch(q, batch, t), h + [Timed(Begin(batch), t)], id)
    ensures id in batch ==> Live(q, id) && (Rounds(h, id) == 0 ==> t >= RequestOf(h, id).when)
  {
    var x := Timed(Begin(batch), t);
    OneMore(h, x, id);
    assert id in batch <==> Due(q, id, t);
    if id in batch {
      Located(q, id);
      MadeLater(h, x, id);
    } else if Live(q, id) {
      MadeLater(h, x, id);
    }
  }

  lemma ResetOneKept(q: Queue, h: seq<Timed>, t: int, id: TimerId)
    requires Owned(q) && q.batch != [] && KeptIfLive(q, h, id)
    ensures KeptIfLive(ResetOne(q, t), h, id) && ResetOne(q, t).batchTime == q.batchTime
  {
    if id == q.batch[0] {
      FirstKept(q, h, t);
    } else {
      OthersKept(q, h, t, id);
    }
  }

  /** The timer taken from the batch is due again one interval after it began, if it is not freed. */
  lemma FirstKept(q: Queue, h: seq<Timed>, t: int)
    requires Owned(q) && q.batch != [] && KeptIfLive(q, h, q.batch[0])
    ensures KeptIfLive(ResetOne(q, t), h, q.batch[0]) && ResetOne(q, t).batchTime == q.batchTime
  {
    var id := q.batch[0];
    Located(q, id);
    ResetOneCases(q, t);
    assert q.batch == [id] + q.batch[1..];
    assert id !in q.batch[1..];
  }

  lemma OthersKept(q: Queue, h: seq<Timed>, t: int, id: TimerId)
    requires Owned(q) && q.batch != [] && KeptIfLive(q, h, id) && id != q.batch[0]
    ensures KeptIfLive(ResetOne(q, t), h, id) && ResetOne(q, t).batchTime == q.batchTime
  {
    Located(q, q.batch[0]);
    ResetOneCases(q, t);
    if Live(ResetOne(q, t), id) {
      StaysKept(q, h, id, ResetOne(q, t), h);
    }
  }

  lemma {:induction false} ResetKept(q: Queue, h: seq<Timed>, t: int, id: TimerId)
    requires Owned(q) && KeptIfLive(q, h, id)
    ensures KeptIfLive(ResetAll(q, t), h, id) && ResetAll(q, t).batchTime == q.batchTime
    decreases |q.batch|
  {
    if q.batch != [] {
      ResetOneOwned(q, t);
      ResetOneKept(q, h, t, id);
      ResetKept(ResetOne(q, t), h, t, id);
    }
  }

  lemma EndKept(q: Queue, h: seq<Timed>, front: Option<TimerId>, t: int, id: TimerId)
    requires Owned(q) && KeptIfLive(q, h, id)
    ensures KeptIfLive(FinishBatch(ResetAll(q, t), front, t), h + [Timed(End(front), t)], id)
  {
    ResetKept(q, h, t, id);
    OldKept(ResetAll(q, t), h, Timed(End(front), t), FinishBatch(ResetAll(q, t), front, t), id);
  }

  lemma AddKept(q: Queue, h: seq<Timed>, e: Event, t: int, id: TimerId)
    requires Always(q) && Numbered(q, h) && AsAsked(q, h, id) && Enabled(q, e, t) && (e.AddLocal? || e.AddRemote?)
    ensures KeptIfLive(Apply(q, e, t), h + [Timed(e, t)], id)
  {
    AddChanges(q, e, t, id);
    NewKept(q, h, Timed(e, t), Apply(q, e, t), id);
  }

  /** addTimer changes the memory and where the new timer waits. */
  lemma AddChanges(q: Queue, e: Event, t: int, id: TimerId)
    requires Enabled(q, e, t) && Ask(e) != []
    ensures var a, r := Ask(e)[0], Apply(q, e, t);
      && a.addr !in q.mem && r.mem == Allocate(q, a.addr, a.when, a.repeat, a.interval).mem
      && r.batch == q.batch && r.batchTime == q.batchTime
      && (Waits(r, id) ==> Waits(q, id) || id == TimerId(a.addr, |q.issued| + 1))
  {
  }

  /** What other posters and the kernel do. */
  lemma PostKept(q: Queue, h: seq<Timed>, e: Event, t: int, id: TimerId)
    requires AsAsked(q, h, id) && Enabled(q, e, t) && (e.CancelLocal? || e.CancelRemote? || e.Fire?)
    ensures KeptIfLive(Apply(q, e, t), h + [Timed(e, t)], id)
  {
    var x := Timed(e, t);
    match e
    case CancelLocal(y) =>
      ClockAsAsked(q, h, t, id);
      CancelKept(q.(now := t), h, x, y, true, id);
    case CancelRemote(y) => OldKept(q, h, x, Apply(q, e, t), id);
    case Fire => OldKept(q, h, x, Apply(q, e, t), id);
  }

  /** What the loop does. */
  lemma LoopKept(q: Queue, h: seq<Timed>, e: Event, t: int, id: TimerId)
    requires Owned(q) && BatchSets(q) && AsAsked(q, h, id) && Enabled(q, e, t) && q.now == t
    requires e.RunTask? || e.Begin? || e.Callback? || e.End?
    ensures KeptIfLive(Apply(q, e, t), h + [Timed(e, t)], id)
  {
    var x := Timed(e, t);
    match e
    case RunTask => TaskKept(q, h, x, t, id);
    case Begin(batch) => BeginKept(q, h, batch, t, id);
    case Callback => OldKept(q, h, x, Apply(q, e, t), id);
    case End(front) => EndKept(q, h, front, t, id);
  }

  lemma ClockAsAsked(q: Queue, h: seq<Timed>, t: int, id: TimerId)
    requires AsAsked(q, h, id)
    ensures AsAsked(q.(now := t), h, id)
  {
  }

  lemma StepKept(q: Queue, h: seq<Timed>, e: Event, t: int, id: TimerId)
    requires Always(q) && Numbered(q, h) && AsAsked(q, h, id) && Enabled(q, e, t)
    ensures KeptIfLive(Apply(q, e, t), h + [Timed(e, t)], id)
  {
    if e.RunTask? || e.Begin? || e.Callback? || e.End? {
      SamePlacesOwned(q, q.(now := t));
      ClockFirst(q, e, t);
      ClockAsAsked(q, h, t, id);
      LoopKept(q.(now := t), h, e, t, id);
    } else if e.AddLocal? || e.AddRemote? {
      AddKept(q, h, e, t, id);
    } else {
      PostKept(q, h, e, t, id);
    }
  }

  // ----- Every run -----

  /** Only addTimer makes handles. */
  lemma StepIssues(q: Queue, e: Event, t: int)
    requires Enabled(q, e, t)
    ensures Apply(q, e, t).issued == q.issued + if Ask(e) == [] then [] else [TimerId(Ask(e)[0].addr, |q.issued| + 1)]
  {
    assert q.issued + [] == q.issued;
    if e.End? {
      ResetKeepsTasks(q.(now := t), t);
    }
  }

  lemma StepNumbered(q: Queue, h: seq<Timed>, e: Event, t: int)
    requires Numbered(q, h) && Enabled(q, e, t)
    ensures Numbered(Apply(q, e, t), h + [Timed(e, t)])
  {
    StepIssues(q, e, t);
    MoreNumbered(q.issued, h, Timed(e, t), Apply(q, e, t));
  }

  lemma MoreNumbered(issued: seq<TimerId>, h: seq<Timed>, x: Timed, q': Queue)
    requires |issued| == |Requests(h)|
    requires forall i :: 0 <= i < |issued| ==> issued[i] == TimerId(Requests(h)[i].addr, i + 1)
    requires q'.issued == issued + if Ask(x.e) == [] then [] else [TimerId(Ask(x.e)[0].addr, |issued| + 1)]
    ensures Numbered(q', h + [x])
  {
    OneMore(h, x, TimerId(0, 0));
  }

  lemma StepAsAsked(q: Queue, h: seq<Timed>, e: Event, t: int, id: TimerId)
    requires Always(q) && Numbered(q, h) && AsAsked(q, h, id) && Enabled(q, e, t)
    ensures AsAsked(Apply(q, e, t), h + [Timed(e, t)], id)
  {
    var x := Timed(e, t);
    OneMore(h, x, id);
    StepRuns(q, e, t, id);
    StepKept(q, h, e, t, id);
    if Rounds(h, id) > 0 {
      MadeLater(h, x, id);
    } else if Takes(x, id) {
      BeginKept(q, h, e.batch, t, id);
      MadeLater(h, x, id);
    }
  }

  ghost predicate Good(q: Queue, h: seq<Timed>, id: TimerId) { Always(q) && Numbered(q, h) && AsAsked(q, h, id) }

  lemma StepGood(q: Queue, h: seq<Timed>, x: Timed, id: TimerId)
    requires Good(q, h, id) && Enabled(q, x.e, x.t)
    ensures Good(Apply(q, x.e, x.t), h + [x], id)
  {
    StepAlways(q, x.e, x.t);
    StepNumbered(q, h, x.e, x.t);
    StepAsAsked(q, h, x.e, x.t, id);
  }

  lemma {:induction false} RunSnoc(q: Queue, es: seq<Timed>, x: Timed)
    requires CanRun(q, es + [x])
    ensures CanRun(q, es) && Enabled(RunAll(q, es), x.e, x.t) && RunAll(q, es + [x]) == Apply(RunAll(q, es), x.e, x.t)
    decreases |es|
  {
    if es == [] {
      assert es + [x] == [x] && [x][1..] == [];
    } else {
      assert (es + [x])[1..] == es[1..] + [x] && (es + [x])[0] == es[0];
      RunSnoc(Apply(q, es[0].e, es[0].t), es[1..], x);
    }
  }

  lemma {:induction false} FromEmpty(es: seq<Timed>, id: TimerId)
    requires CanRun(EMPTY, es)
    ensures Good(RunAll(EMPTY, es), es, id)
  {
    if es == [] {
      EmptyAlways();
    } else {
      var init, x := es[..|es| - 1], es[|es| - 1];
      assert es == init + [x];
      RunSnoc(EMPTY, init, x);
      FromEmpty(init, id);
      StepGood(RunAll(EMPTY, init), init, x, id);
    }
  }

  /**
   * A timer is what was asked for, in every run from an empty queue. The handles
   * are those of the calls of addTimer, in order. A live timer repeats as asked;
   * until its first callback it expires at the time asked for, and in the heap it
   * expires one interval after the last batch it was in. Its callbacks, run or
   * left in the batch under way, are as many as the batches it was in, and the
   * first of these did not begin before the time asked for.
   */
  lemma TimersAsAsked(es: seq<Timed>, id: TimerId)
    requires CanRun(EMPTY, es)
    ensures var q := RunAll(EMPTY, es);
      && (id in q.issued <==> Made(es, id))
      && (Live(q, id) ==>
            && Made(es, id) && q.mem[id.addr].repeat == RequestOf(es, id).repeat
            && q.mem[id.addr].interval == RequestOf(es, id).interval
            && (id !in q.ran ==> Exp(q, id) == RequestOf(es, id).when)
            && (id in q.heap ==> Exp(q, id) == NextDue(es, id)))
      && multiset(q.ran)[id] + RunsLeft(q, id) == Rounds(es, id)
      && (Rounds(es, id) > 0 ==> Made(es, id) && FirstBatch(es, id) >= RequestOf(es, id).when)
  {
    var q := RunAll(EMPTY, es);
    FromEmpty(es, id);
    RunsLeftAtMostOne(q, id);
    if Made(es, id) {
      assert q.issued[id.sequence - 1] == id;
    }
  }

  /**
   * And it is not late: a batch begun with it in the heap takes it exactly when
   * it is due by then, and outside a batch the kernel timer goes off by then.
   */
  lemma DueTimersAreTaken(es: seq<Timed>, batch: seq<TimerId>, t: int, id: TimerId)
    requires CanRun(EMPTY, es) && id in RunAll(EMPTY, es).heap && Enabled(RunAll(EMPTY, es), Begin(batch), t)
    ensures Made(es, id) && (id in batch <==> t >= NextDue(es, id))
    ensures var fd := RunAll(EMPTY, es).fd; !fd.Idle? && fd.deadline <= Max(NextDue(es, id), fd.since + MIN_DELAY)
  {
    var q := RunAll(EMPTY, es);
    FromEmpty(es, id);
    Located(q, id);
    NoMissedDeadline(es, id);
    assert id in batch <==> Due(q, id, t);
  }

  // ----- The kernel timer is not early either -----

  /** The kernel timer was set at `t` for a timer that expires at `when`: then, or 100 microseconds on if that is later. */
  predicate ArmedFor(q: Queue, when: int, t: int) {
    q.fd == Armed(if when >= t + 100 then when else t + 100, t)
  }

  /** A timer earlier than all in the heap sets the kernel timer; another leaves it alone. */
  lemma AddArms(q: Queue, addr: nat, when: int, repeat: bool, interval: nat, t: int)
    requires Always(q) && Enabled(q, AddLocal(addr, when, repeat, interval), t)
    ensures var r := Apply(q, AddLocal(addr, when, repeat, interval), t);
      if forall x :: x in q.heap ==> when < Exp(q, x) then ArmedFor(r, when, t) else r.fd == q.fd
  {
    var q1 := Allocate(q.(now := t), addr, when, repeat, interval);
    forall x | x in q.heap ensures Exp(q1, x) == Exp(q, x) {
      Located(q, x);
    }
  }

  /** At the end of a batch the kernel timer is set for the earliest timer in the heap. */
  lemma EndArms(q: Queue, front: Option<TimerId>, t: int)
    requires Always(q) && Enabled(q, End(front), t)
    ensures var r := Apply(q, End(front), t);
      front.Some? && Exp(r, front.value) > 0 ==>
        ArmedFor(r, Exp(r, front.value), t) && forall x :: x in r.heap ==> Exp(r, front.value) <= Exp(r, x)
  {
  }

  // ----- Posted timers arrive -----

  function TasksRun(es: seq<Timed>): nat {
    if es == [] then 0 else (if es[0].e.RunTask? then 1 else 0) + TasksRun(es[1..])
  }

  /** Tasks are run from the front and posted at the back; only addTimer posts an insert. */
  lemma StepQueue(q: Queue, e: Event, t: int)
    requires Enabled(q, e, t)
    ensures (if e.RunTask? then q.tasks[1..] else q.tasks) <= Apply(q, e, t).tasks
    ensures forall id :: InsertTask(id) in Apply(q, e, t).tasks ==>
      InsertTask(id) in (if e.RunTask? then q.tasks[1..] else q.tasks) || id.sequence == |q.issued| + 1
    ensures |q.issued| <= |Apply(q, e, t).issued|
  {
    StepIssues(q, e, t);
    if e.End? {
      ResetKeepsTasks(q.(now := t), t);
    }
  }

  lemma {:induction false} StaysInserted(q: Queue, es: seq<Timed>, id: TimerId)
    requires CanRun(q, es) && id.sequence <= |q.issued| && InsertTask(id) !in q.tasks
    ensures InsertTask(id) !in RunAll(q, es).tasks
    decreases |es|
  {
    if es != [] {
      var q1 := Apply(q, es[0].e, es[0].t);
      StepQueue(q, es[0].e, es[0].t);
      assert es[0].e.RunTask? ==> forall x :: x in q.tasks[1..] ==> x in q.tasks;
      StaysInserted(q1, es[1..], id);
    }
  }

  lemma {:induction false} InsertWithin(q: Queue, es: seq<Timed>, i: nat, id: TimerId)
    requires Always(q) && CanRun(q, es) && i < |q.tasks| && q.tasks[i] == InsertTask(id) && TasksRun(es) > i
    ensures InsertTask(id) !in RunAll(q, es).tasks
    decreases |es|
  {
    var e, t := es[0].e, es[0].t;
    var q1 := Apply(q, e, t);
    StepQueue(q, e, t);
    StepAlways(q, e, t);
    Located(q, id);
    if e.RunTask? && i == 0 {
      OnlyOnce(q.tasks, InsertTask(id));
      StaysInserted(q1, es[1..], id);
    } else {
      InsertWithin(q1, es[1..], if e.RunTask? then i - 1 else i, id);
    }
  }

  lemma OnlyOnce(tasks: seq<Task>, x: Task)
    requires tasks != [] && tasks[0] == x && multiset(tasks)[x] <= 1
    ensures x !in tasks[1..]
  {
    assert tasks == [tasks[0]] + tasks[1..];
  }

  /**
   * A timer added from another thread reaches the heap: once the loop has run
   * the tasks queued up to its insert, it is in the heap, in the batch or freed.
   */
  lemma PostedTimersArrive(es: seq<Timed>, more: seq<Timed>, i: nat)
    requires CanRun(EMPTY, es) && CanRun(RunAll(EMPTY, es), more) && TasksRun(more) > i
    requires var q := RunAll(EMPTY, es); i < |q.tasks| && q.tasks[i].InsertTask?
    ensures var id, r := RunAll(EMPTY, es).tasks[i].id, RunAll(RunAll(EMPTY, es), more);
      id in r.heap || id in r.batch || id in r.freed
  {
    var q := RunAll(EMPTY, es);
    var id, r := q.tasks[i].id, RunAll(q, more);
    EmptyAlways();
    AlwaysInRuns(EMPTY, es);
    AlwaysInRuns(q, more);
    Located(q, id);
    InsertWithin(q, more, i, id);
    StaysIssued(q, more, id);
    IssuedOnce(r, id);
    assert Places(r, id) == multiset(r.issued)[id];
  }

  lemma {:induction false} StaysIssued(q: Queue, es: seq<Timed>, id: TimerId)
    requires CanRun(q, es) && id in q.issued
    ensures id in RunAll(q, es).issued
    decreases |es|
  {
    if es != [] {
      StepIssues(q, es[0].e, es[0].t);
      StaysIssued(Apply(q, es[0].e, es[0].t), es[1..], id);
    }
  }

  // ----- A tick is used up -----

  /** Events after which the kernel timer may have been set. */
  predicate Sets(e: Event) { e.AddLocal? || e.RunTask? || e.End? }

  lemma {:induction false} StaysUnset(q: Queue, es: seq<Timed>)
    requires !q.fd.Armed? && CanRun(q, es) && forall i :: 0 <= i < |es| ==> !Sets(es[i].e)
    ensures !RunAll(q, es).fd.Armed?
    decreases |es|
  {
    if es != [] {
      StaysUnset(Apply(q, es[0].e, es[0].t), es[1..]);
    }
  }

  /** The kernel timer goes off once each time it is set, whatever batches begin in between. */
  lemma FiresOncePerSetting(q: Queue, t: int, es: seq<Timed>, t': int)
    requires Enabled(q, Fire, t) && CanRun(Apply(q, Fire, t), es + [Timed(Fire, t')])
    ensures exists i :: 0 <= i < |es| && Sets(es[i].e)
  {
    var q1 := Apply(q, Fire, t);
    RunSnoc(q1, es, Timed(Fire, t'));
    if forall i :: 0 <= i < |es| ==> !Sets(es[i].e) {
      StaysUnset(q1, es);
    }
  }

  /** Beginning a batch leaves nothing to read of a tick that brought it about, and a tick still to come alone. */
  lemma TickIsConsumed(q: Queue, batch: seq<TimerId>, t: int)
    requires Enabled(q, Begin(batch), t)
    ensures !Apply(q, Begin(batch), t).fd.Fired?
    ensures q.fd.Armed? ==> Apply(q, Begin(batch), t).fd == q.fd
  {
  }
}
