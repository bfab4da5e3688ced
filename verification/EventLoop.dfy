/**
 * Handing tasks to the loop: a queue behind a mutex, an eventfd to wake the
 * poll, and a batch swapped out and run. Each step is atomic; posting threads
 * and the loop interleave freely, and a poster can pause between its push and
 * its wakeup.
 */
module LoopProtocol {
  /** A posted functor; `posts` is what it queues itself when it runs. */
  datatype Functor = Functor(id: nat, posts: seq<Functor>)

  /** `Head` is the test of quit_ at the top of the loop; `wake` says the wakeup channel is still to be handled. */
  datatype Phase = Outside | Head | Polling | Dispatching(wake: bool) | Running

  /**
   * `posters` and `quitters` are threads that have pushed, or set quit_, and
   * have not yet written the eventfd. `posted` logs pushes in mutex order.
   */
  datatype Loop = Loop(
    phase: Phase, quit: bool, signalled: bool,
    queue: seq<Functor>, batch: seq<Functor>,
    posters: nat, quitters: nat,
    posted: seq<Functor>, executed: seq<Functor>)

  const FRESH := Loop(Outside, false, false, [], [], 0, 0, [], [])

  datatype Event =
    | Push(f: Functor)
    | Wake
    | PostInLoop(f: Functor)
    | Enter
    | Again
    | PollReturns(wake: bool)
    | HandleWakeup
    | Swap
    | RunOne
    | FinishRun
    | Quit
    | QuitInLoop
    | WakeQuit

  /** Code on the loop thread runs outside loop(), in handlers and in functors. */
  predicate LoopThreadRuns(l: Loop) { l.phase.Outside? || l.phase.Dispatching? || l.phase.Running? }

  /** poll() reports the wakeup channel only if the eventfd is signalled; it may also time out or report others. */
  predicate Enabled(l: Loop, e: Event) {
    match e
    case Push(_) => true
    case Wake => l.posters > 0
    case PostInLoop(_) => LoopThreadRuns(l)
    case Enter => l.phase.Outside?
    case Again => l.phase.Head?
    case PollReturns(wake) => l.phase.Polling? && (wake ==> l.signalled)
    case HandleWakeup => l.phase == Dispatching(true)
    case Swap => l.phase == Dispatching(false)
    case RunOne => l.phase.Running? && l.batch != []
    case FinishRun => l.phase.Running? && l.batch == []
    case Quit => true
    case QuitInLoop => LoopThreadRuns(l)
    case WakeQuit => l.quitters > 0
  }

  function Enqueue(l: Loop, f: Functor): Loop { l.(queue := l.queue + [f], posted := l.posted + [f]) }

  function Apply(l: Loop, e: Event): Loop
    requires Enabled(l, e)
  {
    match e
    case Push(f) => Enqueue(l, f).(posters := l.posters + 1)
    case Wake => l.(posters := l.posters - 1, signalled := true)
    case PostInLoop(f) => Enqueue(l, f).(signalled := l.signalled || l.phase.Running?)
    case Enter => l.(phase := Head, quit := false)
    case Again => l.(phase := if l.quit then Outside else Polling)
    case PollReturns(wake) => l.(phase := Dispatching(wake))
    case HandleWakeup => l.(phase := Dispatching(false), signalled := false)
    case Swap => l.(phase := Running, batch := l.queue, queue := [])
    case RunOne => l.(executed := l.executed + [l.batch[0]], batch := l.batch[1..])
    case FinishRun => l.(phase := Head)
    case Quit => l.(quit := true, quitters := l.quitters + 1)
    case QuitInLoop => l.(quit := true)
    case WakeQuit => l.(quitters := l.quitters - 1, signalled := true)
  }

  predicate CanRun(l: Loop, es: seq<Event>)
    decreases |es|
  {
    es == [] || (Enabled(l, es[0]) && CanRun(Apply(l, es[0]), es[1..]))
  }

  function RunAll(l: Loop, es: seq<Event>): Loop
    requires CanRun(l, es)
    decreases |es|
  {
    if es == [] then l else RunAll(Apply(l, es[0]), es[1..])
  }

  lemma {:induction false} RunAppend(l: Loop, es: seq<Event>, fs: seq<Event>)
    requires CanRun(l, es) && CanRun(RunAll(l, es), fs)
    ensures CanRun(l, es + fs) && RunAll(l, es + fs) == RunAll(RunAll(l, es), fs)
    decreases |es|
  {
    if es == [] {
      assert es + fs == fs;
    } else {
      assert (es + fs)[1..] == es[1..] + fs;
      RunAppend(Apply(l, es[0]), es[1..], fs);
    }
  }

  lemma Single(l: Loop, e: Event)
    requires Enabled(l, e)
    ensures CanRun(l, [e]) && RunAll(l, [e]) == Apply(l, e)
  {
  }

  lemma Prepend(l: Loop, e: Event, es: seq<Event>)
    requires Enabled(l, e) && CanRun(Apply(l, e), es)
    ensures CanRun(l, [e] + es) && RunAll(l, [e] + es) == RunAll(Apply(l, e), es)
  {
  }

  // ----- No lost task -----

  /** Executed tasks, then the rest of the batch, then the queue, are the posting order; batches run only inside. */
  ghost predicate InOrder(l: Loop) {
    l.executed + l.batch + l.queue == l.posted && (l.batch != [] ==> l.phase.Running?)
  }

  lemma StepInOrder(l: Loop, e: Event)
    requires InOrder(l) && Enabled(l, e)
    ensures InOrder(Apply(l, e))
  {
    var l' := Apply(l, e);
    match e
    case Push(f) => assert l.executed + l.batch + (l.queue + [f]) == (l.executed + l.batch + l.queue) + [f];
    case PostInLoop(f) => assert l.executed + l.batch + (l.queue + [f]) == (l.executed + l.batch + l.queue) + [f];
    case Swap => assert l.executed + l.queue + [] == l.executed + [] + l.queue;
    case RunOne =>
      assert l.batch == [l.batch[0]] + l.batch[1..];
      assert l'.executed + l'.batch == l.executed + l.batch;
    case _ =>
  }

  /** The tasks pushed in a run, in mutex order. */
  function Pushed(es: seq<Event>): seq<Functor> {
    if es == [] then [] else (if es[0].Push? || es[0].PostInLoop? then [es[0].f] else []) + Pushed(es[1..])
  }

  /**
   * In every interleaving no task is lost, repeated or overtaken: executed tasks,
   * then the rest of the batch, then the queue, are what was there before
   * followed by the pushes of the run.
   */
  lemma {:induction false} NoLostTask(l: Loop, es: seq<Event>)
    requires InOrder(l) && CanRun(l, es)
    ensures var r := RunAll(l, es);
      InOrder(r) && r.executed + r.batch + r.queue == l.executed + l.batch + l.queue + Pushed(es)
    decreases |es|
  {
    if es == [] {
      assert l.posted + [] == l.posted;
    } else {
      var here := if es[0].Push? || es[0].PostInLoop? then [es[0].f] else [];
      var l1 := Apply(l, es[0]);
      StepInOrder(l, es[0]);
      assert l1.posted == l.posted + here;
      NoLostTask(l1, es[1..]);
      assert l.posted + here + Pushed(es[1..]) == l.posted + (here + Pushed(es[1..]));
    }
  }

  // ----- No lost wakeup -----

  /** Somebody will wake the poll, or already has. */
  predicate Woken(l: Loop) { l.queue == [] || l.signalled || l.posters > 0 }

  /** poll() could block with a task waiting and nobody about to wake it. */
  predicate Stuck(l: Loop) { l.phase.Polling? && !Woken(l) }

  /** poll() could block after quit() with nobody about to wake it. */
  predicate QuitStuck(l: Loop) { l.phase.Polling? && l.quit && !l.signalled && l.quitters == 0 }

  /** While dispatching, the swap to come takes the whole queue, so no wakeup is owed. */
  predicate Watched(l: Loop) { l.phase.Head? || l.phase.Polling? || l.phase.Running? ==> Woken(l) }

  lemma StepWatched(l: Loop, e: Event)
    requires Watched(l) && Enabled(l, e) && (e.Enter? ==> Woken(l))
    ensures Watched(Apply(l, e))
  {
  }

  lemma {:induction false} RunWatched(l: Loop, es: seq<Event>)
    requires Watched(l) && CanRun(l, es) && Enter !in es
    ensures Watched(RunAll(l, es))
    decreases |es|
  {
    if es != [] {
      StepWatched(l, es[0]);
      RunWatched(Apply(l, es[0]), es[1..]);
    }
  }

  /**
   * No lost wakeup, and exactly when: entering loop() is safe in every
   * interleaving that follows if and only if nothing waits in the queue, or the
   * eventfd is signalled, or a poster has yet to write it.
   */
  lemma EnterIsSafeIff(l: Loop)
    requires l.phase.Outside?
    ensures Woken(l) <==>
      forall es :: CanRun(Apply(l, Enter), es) && Enter !in es ==> !Stuck(RunAll(Apply(l, Enter), es))
  {
    var l1 := Apply(l, Enter);
    if Woken(l) {
      forall es | CanRun(l1, es) && Enter !in es ensures !Stuck(RunAll(l1, es)) {
        RunWatched(l1, es);
      }
    } else {
      var es := [Again];
      assert es[1..] == [];
      assert CanRun(l1, es) && Stuck(RunAll(l1, es));
    }
  }

  /** In every run, a quit() from another thread ends the poll it meets: whatever is queued, and entered again or not. */
  lemma {:induction false} QuitIsHeard(l: Loop, es: seq<Event>)
    requires !QuitStuck(l) && CanRun(l, es)
    ensures !QuitStuck(RunAll(l, es))
    decreases |es|
  {
    if es != [] {
      QuitIsHeard(Apply(l, es[0]), es[1..]);
    }
  }

  /** Pushes, less the wakeups that followed. */
  function Owed(es: seq<Event>): int {
    if es == [] then 0 else (if es[0].Push? then 1 else if es[0].Wake? then -1 else 0) + Owed(es[1..])
  }

  /** Calls of quit() from other threads, less the wakeups that followed. */
  function QuitOwed(es: seq<Event>): int {
    if es == [] then 0 else (if es[0].Quit? then 1 else if es[0].WakeQuit? then -1 else 0) + QuitOwed(es[1..])
  }

  /** Each thread writes the eventfd once for each push and each quit(). */
  lemma {:induction false} WritersFollowEvents(l: Loop, es: seq<Event>)
    requires CanRun(l, es)
    ensures RunAll(l, es).posters == l.posters + Owed(es) && RunAll(l, es).quitters == l.quitters + QuitOwed(es)
    decreases |es|
  {
    if es != [] {
      WritersFollowEvents(Apply(l, es[0]), es[1..]);
    }
  }

  /**
   * A loop() entered safely does not sleep over anything: in every interleaving,
   * when it polls and the threads that pushed or asked to quit have written
   * their wakeups, a waiting task or a quit() lets the poll return.
   */
  lemma PollReturnsForWork(l: Loop, es: seq<Event>)
    requires l.phase.Outside? && Woken(l) && CanRun(Apply(l, Enter), es) && Enter !in es
    requires RunAll(Apply(l, Enter), es).phase.Polling?
    ensures var r := RunAll(Apply(l, Enter), es);
      && (r.queue != [] && l.posters + Owed(es) == 0 ==> Enabled(r, PollReturns(true)))
      && (r.quit && l.quitters + QuitOwed(es) == 0 ==> Enabled(r, PollReturns(true)))
  {
    var l1 := Apply(l, Enter);
    WritersFollowEvents(l1, es);
    RunWatched(l1, es);
    QuitIsHeard(l1, es);
  }

  /** Asked to quit, and inside loop() until the next test of the flag. */
  predicate Leaving(l: Loop) { l.quit && !l.phase.Outside? }

  lemma {:induction false} StaysLeaving(l: Loop, es: seq<Event>)
    requires Leaving(l) && CanRun(l, es) && Again !in es
    ensures Leaving(RunAll(l, es))
    decreases |es|
  {
    if es != [] {
      StaysLeaving(Apply(l, es[0]), es[1..]);
    }
  }

  lemma {:induction false} RunsApart(l: Loop, es: seq<Event>, fs: seq<Event>)
    requires CanRun(l, es + fs)
    ensures CanRun(l, es) && CanRun(RunAll(l, es), fs) && RunAll(l, es + fs) == RunAll(RunAll(l, es), fs)
    decreases |es|
  {
    if es == [] {
      assert es + fs == fs;
    } else {
      assert (es + fs)[0] == es[0] && (es + fs)[1..] == es[1..] + fs;
      RunsApart(Apply(l, es[0]), es[1..], fs);
    }
  }

  /** The flag is tested next at the end of `es`. */
  ghost predicate LeavesAtNextTest(l: Loop) {
    forall es :: CanRun(l, es + [Again]) && Again !in es ==> RunAll(l, es + [Again]).phase.Outside?
  }

  /**
   * quit() ends the loop at the next test of the flag, in every interleaving,
   * exactly when loop() is running at the call: a quit() before loop() is
   * forgotten, because entering loop() clears the flag.
   */
  lemma QuitLeavesIff(l: Loop)
    ensures LeavesAtNextTest(Apply(l, Quit)) <==> !l.phase.Outside?
    ensures LoopThreadRuns(l) ==> (LeavesAtNextTest(Apply(l, QuitInLoop)) <==> !l.phase.Outside?)
  {
    FlaggedLeavesIff(Apply(l, Quit));
    if LoopThreadRuns(l) {
      FlaggedLeavesIff(Apply(l, QuitInLoop));
    }
  }

  lemma FlaggedLeavesIff(l: Loop)
    requires l.quit
    ensures LeavesAtNextTest(l) <==> !l.phase.Outside?
  {
    if l.phase.Outside? {
      Single(Apply(l, Enter), Again);
      Prepend(l, Enter, [Again]);
      assert !RunAll(l, [Enter] + [Again]).phase.Outside?;
    } else {
      forall es | CanRun(l, es + [Again]) && Again !in es ensures RunAll(l, es + [Again]).phase.Outside? {
        RunsApart(l, es, [Again]);
        StaysLeaving(l, es);
        Single(RunAll(l, es), Again);
      }
    }
  }

  lemma {:induction false} StaysInside(l: Loop, es: seq<Event>)
    requires !l.phase.Outside? && !l.quit && CanRun(l, es) && Quit !in es && QuitInLoop !in es
    ensures !RunAll(l, es).phase.Outside?
    decreases |es|
  {
    if es != [] {
      assert es[0] in es && forall e :: e in es[1..] ==> e in es;
      StaysInside(Apply(l, es[0]), es[1..]);
    }
  }

  /** loop() returns for no other reason: in every interleaving without a quit() since it was entered it goes on. */
  lemma OnlyQuitEndsLoop(l: Loop, es: seq<Event>)
    requires l.phase.Outside? && CanRun(Apply(l, Enter), es) && Quit !in es && QuitInLoop !in es
    ensures !RunAll(Apply(l, Enter), es).phase.Outside?
  {
    StaysInside(Apply(l, Enter), es);
  }

  predicate Writes(e: Event) { e.Wake? || e.WakeQuit? || e.PostInLoop? }

  lemma {:induction false} StaysSilent(l: Loop, es: seq<Event>)
    requires !l.signalled && CanRun(l, es) && forall i :: 0 <= i < |es| ==> !Writes(es[i])
    ensures !RunAll(l, es).signalled
    decreases |es|
  {
    if es != [] {
      StaysSilent(Apply(l, es[0]), es[1..]);
    }
  }

  /** A wakeup is used up: once handled, poll() reports the eventfd again only after somebody has written it again. */
  lemma WakeupIsConsumed(l: Loop, es: seq<Event>)
    requires Enabled(l, HandleWakeup) && CanRun(Apply(l, HandleWakeup), es + [PollReturns(true)])
    ensures exists i :: 0 <= i < |es| && Writes(es[i])
  {
    var l1 := Apply(l, HandleWakeup);
    RunsApart(l1, es, [PollReturns(true)]);
    if forall i :: 0 <= i < |es| ==> !Writes(es[i]) {
      StaysSilent(l1, es);
    }
  }

  /** quit() from another thread, complete with its wakeup, then loop(): it polls on. */
  lemma QuitBeforeLoopForgotten()
    ensures var es := [Quit, WakeQuit, Enter, Again];
      CanRun(FRESH, es) && RunAll(FRESH, es).phase.Polling? && !RunAll(FRESH, es).quit
  {
    var l1 := Apply(FRESH, Quit);
    var l2 := Apply(l1, WakeQuit);
    Single(Apply(l2, Enter), Again);
    Prepend(l2, Enter, [Again]);
    Prepend(l1, WakeQuit, [Enter] + [Again]);
    Prepend(FRESH, Quit, [WakeQuit] + ([Enter] + [Again]));
    assert [Quit, WakeQuit, Enter, Again] == [Quit] + ([WakeQuit] + ([Enter] + [Again]));
  }

  /** The loop thread queues a task before calling loop(): nobody wakes the poll. */
  lemma PostBeforeLoopSleeps(f: Functor)
    ensures CanRun(FRESH, [PostInLoop(f), Enter, Again]) && Stuck(RunAll(FRESH, [PostInLoop(f), Enter, Again]))
  {
    var l1 := Apply(FRESH, PostInLoop(f));
    var l2 := Apply(l1, Enter);
    Single(l2, Again);
    Prepend(l1, Enter, [Again]);
    Prepend(FRESH, PostInLoop(f), [Enter] + [Again]);
    assert [PostInLoop(f), Enter, Again] == [PostInLoop(f)] + ([Enter] + [Again]);
  }

  // ----- One iteration runs everything queued before it -----

  /** The tasks `p` are queued, then in the batch, then executed, as the iteration goes on. */
  ghost predicate Advancing(l: Loop, p: seq<Functor>) {
    InOrder(l) && match l.phase
      case Dispatching(_) => p <= l.posted
      case Running => p <= l.executed + l.batch
      case Head => p <= l.executed
      case _ => false
  }

  lemma StepAdvancing(l: Loop, p: seq<Functor>, e: Event)
    requires Advancing(l, p) && Enabled(l, e) && !e.Again?
    ensures Advancing(Apply(l, e), p)
  {
    StepInOrder(l, e);
    if e.RunOne? {
      assert l.executed + [l.batch[0]] + l.batch[1..] == l.executed + l.batch;
    } else if e.Swap? {
      assert l.executed + [] + l.queue == l.executed + l.queue;
    }
  }

  lemma {:induction false} RunAdvancing(l: Loop, p: seq<Functor>, es: seq<Event>)
    requires Advancing(l, p) && CanRun(l, es) && Again !in es
    ensures Advancing(RunAll(l, es), p)
    decreases |es|
  {
    if es != [] {
      StepAdvancing(l, p, es[0]);
      RunAdvancing(Apply(l, es[0]), p, es[1..]);
    }
  }

  /**
   * Whatever ended the poll, and however posters and functors interleave with
   * the iteration, when it comes to its end every task posted before the poll
   * returned has been executed.
   */
  lemma IterationRunsAll(l: Loop, wake: bool, es: seq<Event>)
    requires InOrder(l) && Enabled(l, PollReturns(wake))
    requires CanRun(Apply(l, PollReturns(wake)), es) && Again !in es
    ensures var r := RunAll(Apply(l, PollReturns(wake)), es);
      && (r.phase.Head? ==> l.posted <= r.executed)
      && (r.phase.Running? ==> l.posted <= r.executed + r.batch)
  {
    RunAdvancing(Apply(l, PollReturns(wake)), l.posted, es);
  }

  function Repeat(e: Event, n: nat): (es: seq<Event>)
    ensures |es| == n
  {
    if n == 0 then [] else [e] + Repeat(e, n - 1)
  }

  lemma {:induction false} BatchRuns(l: Loop)
    requires l.phase.Running?
    ensures CanRun(l, Repeat(RunOne, |l.batch|))
    ensures RunAll(l, Repeat(RunOne, |l.batch|)) == l.(executed := l.executed + l.batch, batch := [])
    decreases |l.batch|
  {
    if l.batch == [] {
      assert l.executed + [] == l.executed;
    } else {
      var l1 := Apply(l, RunOne);
      BatchRuns(l1);
      assert Repeat(RunOne, |l.batch|)[1..] == Repeat(RunOne, |l1.batch|);
      assert l.executed + [l.batch[0]] + l.batch[1..] == l.executed + l.batch;
    }
  }

  /** The loop's own steps for a whole batch. */
  function Drain(l: Loop): seq<Event> { [Swap] + (Repeat(RunOne, |l.queue|) + [FinishRun]) }

  /** The loop's own steps from poll() returning to the next test of the flag. */
  function Iteration(l: Loop, wake: bool): seq<Event> {
    [PollReturns(wake)] + ((if wake then [HandleWakeup] else []) + Drain(l))
  }

  lemma DrainRuns(l: Loop)
    requires l.phase == Dispatching(false)
    ensures CanRun(l, Drain(l))
    ensures RunAll(l, Drain(l)) == l.(phase := Head, queue := [], batch := [], executed := l.executed + l.queue)
  {
    var l1 := Apply(l, Swap);
    var es := Repeat(RunOne, |l.queue|);
    BatchRuns(l1);
    Single(RunAll(l1, es), FinishRun);
    RunAppend(l1, es, [FinishRun]);
    Prepend(l, Swap, es + [FinishRun]);
  }

  /** Undisturbed, the loop's own steps lead through the iteration: everything posted is executed, and the flag is next. */
  lemma IterationCanFinish(l: Loop, wake: bool)
    requires InOrder(l) && Enabled(l, PollReturns(wake))
    ensures CanRun(l, Iteration(l, wake))
    ensures var r := RunAll(l, Iteration(l, wake));
      r.executed == l.posted && r.phase.Head? && r.queue == [] && r.batch == []
  {
    var l1 := Apply(l, PollReturns(wake));
    var drain := Drain(l);
    var rest := (if wake then [HandleWakeup] else []) + drain;
    if wake {
      DrainRuns(Apply(l1, HandleWakeup));
      Prepend(l1, HandleWakeup, drain);
    } else {
      DrainRuns(l1);
      assert rest == drain;
    }
    Prepend(l, PollReturns(wake), rest);
    assert l.executed + l.batch + l.queue == l.executed + l.queue;
  }
}

/** EventLoop's task queue, on the loop thread. */
module EventLoops {
  import opened LoopProtocol

  /** What running these functors does: each is executed, then what it queues is queued. */
  function Steps(fs: seq<Functor>): seq<Event> {
    if fs == [] then [] else Steps(fs[..|fs| - 1]) + RunAndPost(fs[|fs| - 1])
  }

  function RunAndPost(f: Functor): seq<Event> { [RunOne] + Posts(f.posts) }

  function Posts(fs: seq<Functor>): seq<Event> {
    if fs == [] then [] else Posts(fs[..|fs| - 1]) + [PostInLoop(fs[|fs| - 1])]
  }

  lemma PostsGrow(l: Loop, fs: seq<Functor>, i: nat)
    requires i < |fs| && CanRun(l, Posts(fs[..i])) && Enabled(RunAll(l, Posts(fs[..i])), PostInLoop(fs[i]))
    ensures CanRun(l, Posts(fs[..i + 1]))
    ensures RunAll(l, Posts(fs[..i + 1])) == Apply(RunAll(l, Posts(fs[..i])), PostInLoop(fs[i]))
  {
    assert fs[..i + 1][..i] == fs[..i];
    Single(RunAll(l, Posts(fs[..i])), PostInLoop(fs[i]));
    RunAppend(l, Posts(fs[..i]), [PostInLoop(fs[i])]);
  }

  lemma StepsGrow(l: Loop, fs: seq<Functor>, i: nat, before: Loop)
    requires i < |fs| && CanRun(l, Steps(fs[..i])) && before == RunAll(l, Steps(fs[..i]))
    requires CanRun(before, RunAndPost(fs[i]))
    ensures CanRun(l, Steps(fs[..i + 1])) && RunAll(l, Steps(fs[..i + 1])) == RunAll(before, RunAndPost(fs[i]))
    ensures fs[i..][1..] == fs[i + 1..]
  {
    assert fs[..i + 1][..i] == fs[..i];
    RunAppend(l, Steps(fs[..i]), RunAndPost(fs[i]));
  }

  class EventLoop {
    var phase: Phase
    var quit: bool
    var signalled: bool
    var queue: seq<Functor>
    ghost var batch: seq<Functor>
    ghost var posters: nat
    ghost var quitters: nat
    ghost var posted: seq<Functor>
    ghost var executed: seq<Functor>

    ghost function State(): Loop
      reads this
    {
      Loop(phase, quit, signalled, queue, batch, posters, quitters, posted, executed)
    }

    constructor ()
      ensures State() == FRESH
    {
      phase, quit, signalled, queue, batch := Outside, false, false, [], [];
      posters, quitters, posted, executed := 0, 0, [], [];
    }

    method Wakeup()
      modifies `signalled
      ensures signalled
    {
      signalled := true;
    }

    /** queueInLoop: from another thread, or from inside a running batch, the poll is woken after the push. */
    method QueueInLoop(f: Functor, inLoop: bool)
      requires inLoop ==> Enabled(State(), PostInLoop(f))
      modifies `queue, `posted, `signalled
      ensures inLoop ==> State() == Apply(old(State()), PostInLoop(f))
      ensures !inLoop ==> State() == Apply(Apply(old(State()), Push(f)), Wake)
    {
      queue := queue + [f];
      posted := posted + [f];
      if !inLoop || phase.Running? {
        Wakeup();
      }
    }

    method HandleWakeup()
      requires Enabled(State(), Event.HandleWakeup)
      modifies `phase, `signalled
      ensures State() == Apply(old(State()), Event.HandleWakeup)
    {
      phase := Dispatching(false);
      signalled := false;
    }

    /** quit() */
    method RequestQuit(inLoop: bool)
      requires inLoop ==> LoopThreadRuns(State())
      modifies `quit, `signalled
      ensures inLoop ==> State() == Apply(old(State()), QuitInLoop)
      ensures !inLoop ==> State() == Apply(Apply(old(State()), Quit), WakeQuit)
    {
      quit := true;
      if !inLoop {
        Wakeup();
      }
    }

    method PostAll(fs: seq<Functor>)
      requires phase.Running?
      modifies `queue, `posted, `signalled
      ensures CanRun(old(State()), Posts(fs)) && State() == RunAll(old(State()), Posts(fs))
    {
      ghost var l := State();
      var i := 0;
      while i < |fs|
        invariant 0 <= i <= |fs| && phase.Running?
        invariant CanRun(l, Posts(fs[..i])) && State() == RunAll(l, Posts(fs[..i]))
      {
        PostsGrow(l, fs, i);
        QueueInLoop(fs[i], true);
        i := i + 1;
      }
      assert fs[..|fs|] == fs;
    }

    /** A functor runs and queues its own tasks. */
    method RunFunctor(f: Functor)
      requires phase.Running? && batch != [] && f == batch[0]
      modifies this
      ensures phase.Running? && batch == old(batch[1..])
      ensures CanRun(old(State()), RunAndPost(f)) && State() == RunAll(old(State()), RunAndPost(f))
    {
      ghost var l := State();
      executed := executed + [f];
      batch := batch[1..];
      assert State() == Apply(l, RunOne);
      PostAll(f.posts);
      Prepend(l, RunOne, Posts(f.posts));
    }

    method SwapOut() returns (functors: seq<Functor>)
      requires phase == Dispatching(false)
      modifies `phase, `queue, `batch
      ensures functors == old(queue) && phase.Running? && batch == functors
      ensures State() == Apply(old(State()), Swap)
    {
      phase := Running;
      functors := queue;
      batch, queue := queue, [];
    }

    /** Swap the queue out and run it; what the functors queue stays for the next iteration. */
    method DoPendingFunctors()
      requires phase == Dispatching(false)
      modifies this
      ensures phase.Running? && batch == []
      ensures CanRun(Apply(old(State()), Swap), Steps(old(queue)))
      ensures State() == RunAll(Apply(old(State()), Swap), Steps(old(queue)))
    {
      var functors := SwapOut();
      ghost var l := State();
      var i := 0;
      while i < |functors|
        invariant 0 <= i <= |functors| && phase.Running? && batch == functors[i..]
        invariant CanRun(l, Steps(functors[..i])) && State() == RunAll(l, Steps(functors[..i]))
      {
        ghost var before := State();
        RunFunctor(functors[i]);
        StepsGrow(l, functors, i, before);
        i := i + 1;
      }
      assert functors[..|functors|] == functors;
    }
  }
}
