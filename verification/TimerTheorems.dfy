/** Deadlines, cancellation and the invariants over whole runs of the timer queue. */
module TimerTheorems {
  import opened Bytes
  import opened Timers
  import opened TimerProofs

  // ----- Posted work -----

  /** A retried cancel never stands in front of the insert it was waiting for. */
  ghost predicate TasksOrdered(q: Queue) {
    && (forall i :: 0 <= i < |q.tasks| && q.tasks[i].CancelTask? ==> q.tasks[i].id.sequence <= |q.issued|)
    && (forall i, j :: 0 <= i < j < |q.tasks| && q.tasks[i].CancelTask? && !q.tasks[i].retry ==>
          q.tasks[j] != InsertTask(q.tasks[i].id))
  }

  lemma {:induction false} ResetKeepsTasks(q: Queue, t: int)
    ensures ResetAll(q, t).tasks == q.tasks && ResetAll(q, t).issued == q.issued && ResetAll(q, t).ran == q.ran
    ensures ResetAll(q, t).running == q.running && ResetAll(q, t).batch == []
    decreases |q.batch|
  {
    if q.batch != [] {
      ResetKeepsTasks(ResetOne(q, t), t);
    }
  }

  lemma PostKeepsOrder(q: Queue, q': Queue, task: Task)
    requires TasksOrdered(q) && q'.tasks == q.tasks + [task] && |q.issued| <= |q'.issued|
    requires if task.InsertTask? then task.id.sequence == |q.issued| + 1 else task.id.sequence <= |q'.issued|
    ensures TasksOrdered(q')
  {
    forall i, j | 0 <= i < j < |q'.tasks| && q'.tasks[i].CancelTask? && !q'.tasks[i].retry
      ensures q'.tasks[j] != InsertTask(q'.tasks[i].id)
    {
      assert q'.tasks[i] == q.tasks[i];
      assert j < |q.tasks| ==> q'.tasks[j] == q.tasks[j];
    }
  }

  lemma CancelKeepsOrder(q: Queue, id: TimerId, retry: bool)
    requires TasksOrdered(q) && id.sequence <= |q.issued|
    ensures TasksOrdered(CancelInLoop(q, id, retry))
  {
  }

  lemma TakeKeepsOrder(q: Queue)
    requires TasksOrdered(q) && q.tasks != []
    ensures TasksOrdered(q.(tasks := q.tasks[1..]))
  {
    var rest := q.tasks[1..];
    assert forall i :: 0 <= i < |rest| ==> rest[i] == q.tasks[i + 1];
  }

  lemma StepTasks(q0: Queue, e: Event, t: int)
    requires TasksOrdered(q0) && Enabled(q0, e, t)
    ensures TasksOrdered(Apply(q0, e, t))
  {
    var q := q0.(now := t);
    match e
    case AddRemote(addr, when, repeat, interval) =>
      PostKeepsOrder(q, Apply(q0, e, t), InsertTask(TimerId(addr, |q.issued| + 1)));
    case CancelLocal(id) => CancelKeepsOrder(q, id, true);
    case CancelRemote(id) => PostKeepsOrder(q, Apply(q0, e, t), CancelTask(id, true));
    case RunTask =>
      TakeKeepsOrder(q);
      if q.tasks[0].CancelTask? {
        CancelKeepsOrder(q.(tasks := q.tasks[1..]), q.tasks[0].id, q.tasks[0].retry);
      }
    case End(front) => ResetKeepsTasks(q, t);
    case _ =>
  }

  // ----- Deadlines -----

  function Max(a: int, b: int): int { if a < b then b else a }

  /** The kernel timer is set or has gone off, no later than the front needs (or 100us after it was set). */
  ghost predicate Covered(q: Queue) {
    !q.fd.Idle? && forall x :: x in q.heap ==> q.fd.deadline <= Max(Exp(q, x), q.fd.since + MIN_DELAY)
  }

  /** Inside a batch only an invalid front, which the end of the batch will not re-arm for, must be covered. */
  ghost predicate Needs(q: Queue) {
    if q.running then exists x :: x in q.heap && Exp(q, x) <= 0 else q.heap != {}
  }

  ghost predicate OnTime(q: Queue) { Needs(q) ==> Covered(q) }

  lemma InsertOnTime(q: Queue, id: TimerId, t: int)
    requires OnTime(q)
    ensures OnTime(Insert(q, id, t))
  {
    var q' := Insert(q, id, t);
    assert forall x :: Exp(q', x) == Exp(q, x);
    if Earliest(q, Exp(q, id)) {
      assert Covered(q');
    } else {
      var y :| y in q.heap && Exp(q, y) <= Exp(q, id);
      if Needs(q') {
        if q.running {
          var x :| x in q'.heap && Exp(q', x) <= 0;
          assert x in q.heap || Exp(q, y) <= 0;
        }
        assert Needs(q);
      }
    }
  }

  /** A smaller heap with the same expirations needs no earlier deadline. */
  lemma FewerOnTime(q: Queue, q': Queue)
    requires OnTime(q) && q'.heap <= q.heap && q'.fd == q.fd && q'.running == q.running
    requires forall x :: x in q'.heap ==> Exp(q', x) == Exp(q, x)
    ensures OnTime(q')
  {
  }

  lemma HeapAddresses(q: Queue, id: TimerId, x: TimerId)
    requires Owned(q) && x in q.heap && id !in q.heap && Live(q, id)
    ensures x.addr != id.addr
  {
    Located(q, x);
  }

  lemma CancelOnTime(q: Queue, id: TimerId, retry: bool)
    requires OnTime(q)
    ensures OnTime(CancelInLoop(q, id, retry))
  {
  }

  lemma AllocateOnTime(q: Queue, addr: nat, when: int, repeat: bool, interval: nat)
    requires Owned(q) && OnTime(q) && addr !in q.mem
    ensures OnTime(Allocate(q, addr, when, repeat, interval))
  {
    var q' := Allocate(q, addr, when, repeat, interval);
    forall x | x in q'.heap ensures Exp(q', x) == Exp(q, x) {
      Located(q, x);
    }
    FewerOnTime(q, q');
  }

  lemma ResetOneOnTime(q: Queue, t: int)
    requires Owned(q) && OnTime(q) && q.batch != []
    ensures OnTime(ResetOne(q, t))
  {
    var id, q1 := q.batch[0], q.(batch := q.batch[1..]);
    Located(q, id);
    ResetOneCases(q, t);
    forall x | x in q.heap ensures x.addr != id.addr {
      HeapAddresses(q, id, x);
    }
    if id in q.canceling {
      FewerOnTime(q, ResetOne(q, t));
    } else if q.mem[id.addr].repeat {
      FewerOnTime(q, Restarted(q1, id));
      InsertOnTime(Restarted(q1, id), id, t);
    } else {
      FewerOnTime(q, ResetOne(q, t));
    }
  }

  lemma {:induction false} ResetAllOnTime(q: Queue, t: int)
    requires Owned(q) && OnTime(q)
    ensures OnTime(ResetAll(q, t))
    decreases |q.batch|
  {
    if q.batch != [] {
      ResetOneOnTime(q, t);
      ResetOneOwned(q, t);
      ResetAllOnTime(ResetOne(q, t), t);
    }
  }

  /** Leaving the batch: the front is re-armed, or is an invalid time that is covered already. */
  lemma FinishOnTime(q: Queue, front: Option<TimerId>, t: int)
    requires OnTime(q) && q.running
    requires if front.Some? then IsFront(q, front.value) else q.heap == {}
    ensures OnTime(FinishBatch(q, front, t))
  {
  }

  lemma StartOnTime(q: Queue, batch: seq<TimerId>, t: int)
    requires IsBatch(q, batch, t) && t > 0
    ensures OnTime(StartBatch(q, batch, t))
  {
  }

  lemma StepOnTime(q0: Queue, e: Event, t: int)
    requires Owned(q0) && OnTime(q0) && q0.now > 0 && Enabled(q0, e, t)
    ensures OnTime(Apply(q0, e, t))
  {
    var q := q0.(now := t);
    SamePlacesOwned(q0, q);
    FewerOnTime(q0, q);
    match e
    case AddLocal(addr, when, repeat, interval) =>
      AllocateOnTime(q, addr, when, repeat, interval);
      InsertOnTime(Allocate(q, addr, when, repeat, interval), TimerId(addr, |q.issued| + 1), t);
    case AddRemote(addr, when, repeat, interval) =>
      AllocateOnTime(q, addr, when, repeat, interval);
      FewerOnTime(Allocate(q, addr, when, repeat, interval), Apply(q0, e, t));
    case CancelLocal(id) => CancelOnTime(q, id, true);
    case CancelRemote(id) => FewerOnTime(q, Apply(q0, e, t));
    case RunTask =>
      var q1 := q.(tasks := q.tasks[1..]);
      FewerOnTime(q, q1);
      if q.tasks[0].InsertTask? {
        InsertOnTime(q1, q.tasks[0].id, t);
      } else {
        CancelOnTime(q1, q.tasks[0].id, q.tasks[0].retry);
      }
    case Fire => FireOnTime(q);
    case Begin(batch) => StartOnTime(q, batch, t);
    case Callback => FewerOnTime(q, Apply(q0, e, t));
    case End(front) =>
      ResetAllOnTime(q, t);
      ResetKeepsTasks(q, t);
      FinishOnTime(ResetAll(q, t), front, t);
  }

  lemma FireOnTime(q: Queue)
    requires OnTime(q) && q.fd.Armed?
    ensures OnTime(q.(fd := Fired(q.fd.deadline, q.fd.since)))
  {
  }

  // ----- Every run -----

  ghost predicate Always(q: Queue) {
    Placed(q) && BatchSets(q) && TasksOrdered(q) && OnTime(q) && q.now > 0
  }

  lemma StepAlways(q: Queue, e: Event, t: int)
    requires Always(q) && Enabled(q, e, t)
    ensures Always(Apply(q, e, t))
  {
    StepPlaced(q, e, t);
    StepBatchSets(q, e, t);
    StepTasks(q, e, t);
    StepOnTime(q, e, t);
    if e.End? {
      ResetKeepsClock(q.(now := t), t);
    }
  }

  lemma {:induction false} ResetKeepsClock(q: Queue, t: int)
    ensures ResetAll(q, t).now == q.now
    decreases |q.batch|
  {
    if q.batch != [] {
      ResetKeepsClock(ResetOne(q, t), t);
    }
  }

  /** The invariants hold in every state of every run. */
  lemma {:induction false} AlwaysInRuns(q: Queue, es: seq<Timed>)
    requires Always(q) && CanRun(q, es)
    ensures Always(RunAll(q, es))
    decreases |es|
  {
    if es != [] {
      StepAlways(q, es[0].e, es[0].t);
      AlwaysInRuns(Apply(q, es[0].e, es[0].t), es[1..]);
    }
  }

  /**
   * Timer ownership: every timer ever created is in exactly one of a pending
   * insert, the heap, the current batch, or freed once; the handles in the heap
   * are the active set; outside a batch its sets are empty.
   */
  lemma TimersAreOwned(es: seq<Timed>, id: TimerId)
    requires CanRun(EMPTY, es)
    ensures var q := RunAll(EMPTY, es);
      && Places(q, id) == (if id in q.issued then 1 else 0)
      && (Live(q, id) <==> id in q.issued && id !in q.freed)
      && q.active == q.heap
      && (!q.running ==> q.batch == [] && q.expired == {} && q.canceling == {})
  {
    var q := RunAll(EMPTY, es);
    EmptyAlways();
    AlwaysInRuns(EMPTY, es);
    IssuedOnce(q, id);
    assert Places(q, id) == multiset(q.issued)[id];
  }

  lemma EmptyAlways()
    ensures Always(EMPTY)
  {
  }

  /** No missed deadline: outside a batch a non-empty heap is covered by the kernel timer. */
  lemma NoMissedDeadline(es: seq<Timed>, id: TimerId)
    requires CanRun(EMPTY, es)
    requires var q := RunAll(EMPTY, es); !q.running && id in q.heap
    ensures var q := RunAll(EMPTY, es);
      !q.fd.Idle? && q.fd.deadline <= Max(Exp(q, id), q.fd.since + MIN_DELAY)
  {
    EmptyAlways();
    AlwaysInRuns(EMPTY, es);
  }

  // ----- Cancellation -----

  /** Cancelled for good: gone, or in the running batch and marked. */
  ghost predicate Doomed(q: Queue, id: TimerId) {
    && id.sequence <= |q.issued|
    && id !in q.heap && InsertTask(id) !in q.tasks
    && (id in q.batch ==> q.running && id in q.canceling)
  }

  /** Callbacks of `id` still to run in the current batch. */
  ghost function RunsLeft(q: Queue, id: TimerId): nat {
    if q.running && q.next <= |q.batch| then multiset(q.batch[q.next..])[id] else 0
  }

  /** A cancel takes effect at once, or its retry stands behind the pending insert. */
  lemma CancelTakesEffect(q: Queue, id: TimerId, retry: bool)
    requires Always(q) && id.sequence <= |q.issued|
    ensures var q' := CancelInLoop(q, id, retry);
      || Doomed(q', id)
      || (InsertTask(id) in q.tasks && (retry ==> q'.tasks == q.tasks + [CancelTask(id, false)]))
    ensures id in q.heap || id in q.batch ==> CancelInLoop(q, id, retry).tasks == q.tasks
  {
    if id in q.active {
      Located(q, id);
      TakeFromHeap(q, id);
    } else if q.running && id in q.expired {
      Located(q, id);
    }
  }

  /** The retry finds its timer inserted: it always takes effect, and is not posted again. */
  lemma RetryTakesEffect(q: Queue, id: TimerId, t: int)
    requires Always(q) && !q.running && q.tasks != [] && q.tasks[0] == CancelTask(id, false)
    ensures Doomed(RunFirstTask(q, t), id) && RunFirstTask(q, t).tasks == q.tasks[1..]
  {
    var q1 := q.(tasks := q.tasks[1..]);
    forall j | 0 <= j < |q1.tasks| ensures q1.tasks[j] != InsertTask(id) {
      assert q.tasks[j + 1] == q1.tasks[j];
    }
    if id in q.active {
      Located(q, id);
      TakeFromHeap(q, id);
    }
  }

  /** A handle frees the timer it names and no other, whatever lives at its address now. */
  lemma CancelSparesOthers(q: Queue, id: TimerId, retry: bool, x: TimerId)
    requires Always(q) && Live(q, x) && x != id
    ensures var q' := CancelInLoop(q, id, retry);
      && Live(q', x) && q'.mem[x.addr] == q.mem[x.addr] && q'.batch == q.batch
      && (x in q.heap <==> x in q'.heap)
      && (InsertTask(x) in q.tasks <==> InsertTask(x) in q'.tasks)
  {
    if id in q.active {
      Located(q, id);
      TakeFromHeap(q, id);
    }
  }

  lemma {:induction false} ResetSkipsDoomed(q: Queue, id: TimerId, t: int)
    requires Owned(q) && id !in q.heap && (id in q.batch ==> id in q.canceling)
    ensures id !in ResetAll(q, t).heap
    decreases |q.batch|
  {
    if q.batch != [] {
      Located(q, q.batch[0]);
      ResetOneCases(q, t);
      ResetOneOwned(q, t);
      ResetOneDoomed(q, id, t);
      ResetSkipsDoomed(ResetOne(q, t), id, t);
    }
  }

  lemma ResetOneDoomed(q: Queue, id: TimerId, t: int)
    requires Owned(q) && q.batch != [] && id !in q.heap && (id in q.batch ==> id in q.canceling)
    ensures var r := ResetOne(q, t); id !in r.heap && (id in r.batch ==> id in r.canceling)
  {
    Located(q, q.batch[0]);
    assert q.batch == [q.batch[0]] + q.batch[1..];
  }

  /** Still cancelled, and no more callbacks of `id` run or left than before. */
  ghost predicate NoMore(q: Queue, q': Queue, id: TimerId) {
    Doomed(q', id) && multiset(q'.ran)[id] + RunsLeft(q', id) <= multiset(q.ran)[id] + RunsLeft(q, id)
  }

  lemma AddDoomed(q: Queue, id: TimerId, x: TimerId, t: int)
    requires Doomed(q, id) && x != id
    ensures NoMore(q, Insert(q, x, t), id) && NoMore(q, q.(tasks := q.tasks + [InsertTask(x)]), id)
  {
  }

  lemma NewDoomed(q: Queue, id: TimerId, addr: nat, when: int, repeat: bool, interval: nat, t: int)
    requires Doomed(q, id)
    ensures var q1 := Allocate(q, addr, when, repeat, interval);
      var x := TimerId(addr, |q.issued| + 1);
      NoMore(q, Insert(q1, x, t), id) && NoMore(q, q1.(tasks := q.tasks + [InsertTask(x)]), id)
  {
  }

  lemma CancelDoomed(q: Queue, id: TimerId, x: TimerId, retry: bool)
    requires Doomed(q, id)
    ensures NoMore(q, CancelInLoop(q, x, retry), id)
  {
  }

  lemma TaskDoomed(q: Queue, id: TimerId, t: int)
    requires Doomed(q, id) && q.tasks != []
    ensures NoMore(q, RunFirstTask(q, t), id)
  {
    var q1 := q.(tasks := q.tasks[1..]);
    assert NoMore(q, q1, id);
    match q.tasks[0]
    case InsertTask(x) => AddDoomed(q1, id, x, t);
    case CancelTask(x, retry) => CancelDoomed(q1, id, x, retry);
  }

  lemma BeginDoomed(q: Queue, id: TimerId, batch: seq<TimerId>, t: int)
    requires Doomed(q, id) && IsBatch(q, batch, t)
    ensures NoMore(q, StartBatch(q, batch, t), id)
  {
    assert id in batch <==> Due(q, id, t);
    assert multiset(batch)[id] == 0;
    assert batch[0..] == batch;
  }

  lemma CallbackDoomed(q: Queue, id: TimerId)
    requires Doomed(q, id) && q.running && q.next < |q.batch|
    ensures NoMore(q, q.(ran := q.ran + [q.batch[q.next]], next := q.next + 1), id)
  {
    assert q.batch[q.next..] == [q.batch[q.next]] + q.batch[q.next + 1..];
  }

  lemma EndDoomed(q: Queue, id: TimerId, front: Option<TimerId>, t: int)
    requires Owned(q) && Doomed(q, id)
    ensures NoMore(q, FinishBatch(ResetAll(q, t), front, t), id)
  {
    ResetSkipsDoomed(q, id, t);
    ResetKeepsTasks(q, t);
  }

  /** What posters and the kernel do. */
  lemma PostDoomed(q: Queue, id: TimerId, e: Event, t: int)
    requires Doomed(q, id) && Enabled(q, e, t) && q.now == t
    requires e.AddLocal? || e.AddRemote? || e.CancelLocal? || e.CancelRemote? || e.Fire?
    ensures NoMore(q, Apply(q, e, t), id)
  {
    match e
    case AddLocal(addr, when, repeat, interval) => NewDoomed(q, id, addr, when, repeat, interval, t);
    case AddRemote(addr, when, repeat, interval) => NewDoomed(q, id, addr, when, repeat, interval, t);
    case CancelLocal(x) => CancelDoomed(q, id, x, true);
    case CancelRemote(x) =>
    case Fire =>
  }

  /** What the loop does. */
  lemma LoopDoomed(q: Queue, id: TimerId, e: Event, t: int)
    requires Owned(q) && Doomed(q, id) && Enabled(q, e, t) && q.now == t
    requires e.RunTask? || e.Begin? || e.Callback? || e.End?
    ensures NoMore(q, Apply(q, e, t), id)
  {
    match e
    case RunTask => TaskDoomed(q, id, t);
    case Begin(batch) => BeginDoomed(q, id, batch, t);
    case Callback => CallbackDoomed(q, id);
    case End(front) => EndDoomed(q, id, front, t);
  }

  /** The clock moves first. */
  lemma ClockFirst(q: Queue, e: Event, t: int)
    requires Enabled(q, e, t)
    ensures Enabled(q.(now := t), e, t) && Apply(q.(now := t), e, t) == Apply(q, e, t)
  {
    assert forall x :: Due(q, x, t) == Due(q.(now := t), x, t) && Exp(q, x) == Exp(q.(now := t), x);
  }

  lemma StepDoomed(q: Queue, id: TimerId, e: Event, t: int)
    requires Owned(q) && Doomed(q, id) && Enabled(q, e, t)
    ensures NoMore(q, Apply(q, e, t), id)
  {
    var q1 := q.(now := t);
    SamePlacesOwned(q, q1);
    ClockFirst(q, e, t);
    if e.RunTask? || e.Begin? || e.Callback? || e.End? {
      LoopDoomed(q1, id, e, t);
    } else {
      PostDoomed(q1, id, e, t);
    }
  }

  /**
   * Cancel semantics: from the moment a cancel has taken effect, in every run
   * the timer never comes back to the heap, and its callback runs at most once
   * more, and then only if it was still to run in the batch under way.
   */
  lemma {:induction false} CancelIsFinal(q: Queue, id: TimerId, es: seq<Timed>)
    requires Always(q) && Doomed(q, id) && CanRun(q, es)
    ensures var q' := RunAll(q, es);
      && Doomed(q', id)
      && multiset(q'.ran)[id] <= multiset(q.ran)[id] + RunsLeft(q, id)
      && RunsLeft(q, id) <= (if id in q.batch then 1 else 0)
    decreases |es|
  {
    RunsLeftAtMostOne(q, id);
    if es != [] {
      var q1 := Apply(q, es[0].e, es[0].t);
      StepDoomed(q, id, es[0].e, es[0].t);
      StepAlways(q, es[0].e, es[0].t);
      CancelIsFinal(q1, id, es[1..]);
    }
  }

  lemma RunsLeftAtMostOne(q: Queue, id: TimerId)
    requires Always(q)
    ensures RunsLeft(q, id) <= (if id in q.batch then 1 else 0)
  {
    if id in q.batch && q.running {
      Located(q, id);
      assert q.batch == q.batch[..q.next] + q.batch[q.next..];
    }
  }

  // ----- What a batch does -----

  /** In batch `b`, with log `base` before it: the callbacks run so far are its first timers, in order. */
  ghost predicate InBatch(q: Queue, base: seq<TimerId>, b: seq<TimerId>) {
    q.running && q.batch == b && q.next <= |b| && q.ran == base + b[..q.next]
  }

  lemma CancelKeepsBatch(q: Queue, id: TimerId, retry: bool, base: seq<TimerId>, b: seq<TimerId>)
    requires InBatch(q, base, b)
    ensures InBatch(CancelInLoop(q, id, retry), base, b)
  {
  }

  lemma StepInBatch(q0: Queue, e: Event, t: int, base: seq<TimerId>, b: seq<TimerId>)
    requires InBatch(q0, base, b) && Enabled(q0, e, t) && !e.End?
    ensures InBatch(Apply(q0, e, t), base, b)
  {
    if e.Callback? {
      assert b[..q0.next + 1] == b[..q0.next] + [b[q0.next]];
      Associate(base, b[..q0.next], [b[q0.next]]);
    } else if e.CancelLocal? {
      CancelKeepsBatch(q0.(now := t), e.id, true, base, b);
    }
  }

  lemma {:induction false} RunInBatch(q: Queue, es: seq<Timed>, base: seq<TimerId>, b: seq<TimerId>)
    requires InBatch(q, base, b) && CanRun(q, es) && forall i :: 0 <= i < |es| ==> !es[i].e.End?
    ensures InBatch(RunAll(q, es), base, b)
    decreases |es|
  {
    if es != [] {
      StepInBatch(q, es[0].e, es[0].t, base, b);
      RunInBatch(Apply(q, es[0].e, es[0].t), es[1..], base, b);
    }
  }

  lemma BeginInBatch(q: Queue, b: seq<TimerId>, t: int)
    requires Enabled(q, Begin(b), t)
    ensures InBatch(Apply(q, Begin(b), t), q.ran, b)
  {
    assert q.ran + b[..0] == q.ran;
  }

  lemma EndOfBatch(q: Queue, base: seq<TimerId>, b: seq<TimerId>, front: Option<TimerId>, t: int)
    requires InBatch(q, base, b) && Enabled(q, End(front), t)
    ensures !Apply(q, End(front), t).running && Apply(q, End(front), t).ran == base + b
  {
    assert b[..|b|] == b;
    ResetKeepsTasks(q.(now := t), t);
  }

  /**
   * A whole batch, from the read of the kernel timer in `q` to the end of reset
   * after `q'`, with any adds, cancels and posts in between: its timers have run
   * in order, and every timer due at its beginning exactly once, no other at all.
   */
  lemma {:induction false} BatchRunsTheDue(q: Queue, b: seq<TimerId>, t: int, es: seq<Timed>, q': Queue, front: Option<TimerId>, t': int)
    requires Enabled(q, Begin(b), t) && CanRun(Apply(q, Begin(b), t), es) && q' == RunAll(Apply(q, Begin(b), t), es)
    requires (forall i :: 0 <= i < |es| ==> !es[i].e.End?) && Enabled(q', End(front), t')
    ensures !Apply(q', End(front), t').running && Apply(q', End(front), t').ran == q.ran + b
    ensures forall id :: multiset(Apply(q', End(front), t').ran)[id] == multiset(q.ran)[id] + if Due(q, id, t) then 1 else 0
  {
    forall id ensures multiset(q.ran + b)[id] == multiset(q.ran)[id] + if Due(q, id, t) then 1 else 0 {
      AtMostOnce(b, id);
      assert id in b <==> Due(q, id, t);
      assert id in b <==> id in multiset(b);
    }
    BeginInBatch(q, b, t);
    RunInBatch(Apply(q, Begin(b), t), es, q.ran, b);
    EndOfBatch(q', q.ran, b, front, t');
  }

  /** A round of reset leaves every timer outside the batch where and as it was. */
  lemma ResetOneSpares(q: Queue, t: int, id: TimerId)
    requires Owned(q) && q.batch != [] && id != q.batch[0]
    ensures var r := ResetOne(q, t);
      && (id in r.heap <==> id in q.heap) && (id in q.heap ==> Exp(r, id) == Exp(q, id))
      && (id in q.freed ==> id in r.freed) && r.batchTime == q.batchTime
  {
    Located(q, q.batch[0]);
    ResetOneCases(q, t);
    if id in q.heap {
      HeapAddresses(q, q.batch[0], id);
    }
  }

  lemma {:induction false} ResetSpares(q: Queue, t: int, id: TimerId)
    requires Owned(q) && id !in q.batch
    ensures var r := ResetAll(q, t);
      && (id in r.heap <==> id in q.heap) && (id in q.heap ==> Exp(r, id) == Exp(q, id))
      && (id in q.freed ==> id in r.freed)
    decreases |q.batch|
  {
    if q.batch != [] {
      ResetOneOwned(q, t);
      ResetOneSpares(q, t, id);
      ResetSpares(ResetOne(q, t), t, id);
    }
  }

  /** A restarted timer is back in the heap one interval after the batch began; the others are freed. */
  ghost predicate Outcome(q: Queue, r: Queue, id: TimerId)
    requires id.addr in q.mem
  {
    if id !in q.canceling && q.mem[id.addr].repeat then
      id in r.heap && Exp(r, id) == q.batchTime + q.mem[id.addr].interval
    else
      id in r.freed && id !in r.heap
  }

  lemma FirstOutcome(q: Queue, t: int)
    requires Owned(q) && q.batch != []
    ensures q.batch[0].addr in q.mem && Outcome(q, ResetOne(q, t), q.batch[0]) && q.batch[0] !in ResetOne(q, t).batch
  {
    var id := q.batch[0];
    Located(q, id);
    ResetOneCases(q, t);
    assert q.batch == [id] + q.batch[1..];
  }

  /** A timer later in the batch is untouched by the first round. */
  lemma LaterUntouched(q: Queue, t: int, id: TimerId)
    requires Owned(q) && q.batch != [] && id in q.batch && id != q.batch[0]
    ensures var r := ResetOne(q, t);
      && id in r.batch && id.addr in q.mem && id.addr in r.mem && r.mem[id.addr] == q.mem[id.addr]
      && (id in r.canceling <==> id in q.canceling) && r.batchTime == q.batchTime
  {
    Located(q, q.batch[0]);
    Located(q, id);
    ResetOneCases(q, t);
    assert q.batch == [q.batch[0]] + q.batch[1..];
  }

  /** reset decides each timer of the batch on its own, whatever the others do. */
  lemma {:induction false} ResetOutcome(q: Queue, t: int, id: TimerId)
    requires Owned(q) && id in q.batch
    ensures id.addr in q.mem && Outcome(q, ResetAll(q, t), id)
    decreases |q.batch|
  {
    ResetOneOwned(q, t);
    if id == q.batch[0] {
      FirstOutcome(q, t);
      ResetSpares(ResetOne(q, t), t, id);
    } else {
      LaterUntouched(q, t, id);
      ResetOutcome(ResetOne(q, t), t, id);
    }
  }
}
