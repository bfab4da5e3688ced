/**
 * The life of a connection, told from its events: when it accepts messages, what
 * it has read, what the end of input does to unwritten bytes, and that a forced
 * close closes.
 */
module ConnectionLife {
  import opened Bytes
  import opened Connections

  // ----- End of input -----

  /** Nothing goes wrong, except that the peer may close its side. */
  predicate Peaceful(c: Conn, e: Event) { e.Eof? || Calm(c, e) }

  predicate PeacefulRun(c: Conn, es: seq<Event>)
    requires CanRun(c, es)
    decreases |es|
  {
    es == [] || (Peaceful(c, es[0]) && PeacefulRun(Apply(c, es[0]), es[1..]))
  }

  ghost predicate NeverLosesPeacefully(c: Conn) {
    forall es :: CanRun(c, es) && PeacefulRun(c, es) ==> Gone(RunAll(c, es)) == Gone(c)
  }

  /** A forced close is still queued. */
  predicate CloseQueued(tasks: seq<Task>) { exists i :: 0 <= i < |tasks| && tasks[i].CloseTask? }

  lemma {:induction false} CalmIsPeaceful(c: Conn, es: seq<Event>)
    requires CanRun(c, es) && CalmRun(c, es)
    ensures PeacefulRun(c, es)
    decreases |es|
  {
    if es != [] {
      CalmIsPeaceful(Apply(c, es[0]), es[1..]);
    }
  }

  /** With nothing queued and no close asked for, a further end of input closes only an empty buffer. */
  lemma {:induction false} PeacefulLosesNothing(c: Conn, es: seq<Event>)
    requires Closing(c) && Unclosed(c) && AllEmpty(Queued(c.tasks)) && CanRun(c, es) && PeacefulRun(c, es)
    ensures Gone(RunAll(c, es)) == Gone(c)
    decreases |es|
  {
    if es != [] {
      var c1 := Apply(c, es[0]);
      StepLosesNothing(c, es[0]);
      if es[0].Eof? && c.output == [] {
        NothingToLose(c1, es[1..]);
      } else {
        if !es[0].Eof? {
          CalmStepStaysOpen(c, es[0]);
        }
        PeacefulLosesNothing(c1, es[1..]);
      }
    }
  }

  /** The queue of a closed connection is thrown away. */
  lemma {:induction false} ClosedQueueIsLost(c: Conn) returns (es: seq<Event>)
    requires Inv(c) && c.phase.Disconnected? && !AllEmpty(Queued(c.tasks))
    ensures CanRun(c, es) && CalmRun(c, es) && Gone(RunAll(c, es)) > Gone(c)
    decreases |c.tasks|
  {
    var e := RunTask(if c.shut then Fatal else Refused);
    HeadOrTail(c.tasks);
    var c1 := Apply(c, e);
    StepInv(c, e);
    if c.tasks[0].SendTask? && c.tasks[0].message != [] {
      es := [];
    } else {
      es := ClosedQueueIsLost(c1);
    }
    PrependCalm(c, e, es);
    es := [e] + es;
  }

  /** A queued close comes before the buffer has drained. */
  lemma {:induction false} CloseAbandons(c: Conn) returns (es: seq<Event>)
    requires Inv(c) && Open(c) && c.output != [] && CloseQueued(c.tasks)
    ensures CanRun(c, es) && CalmRun(c, es) && Gone(RunAll(c, es)) > Gone(c)
    decreases |c.tasks|
  {
    var e := RunTask(Refused);
    var c1 := Apply(c, e);
    StepInv(c, e);
    if c.tasks[0].CloseTask? {
      es := [];
    } else {
      var i :| 0 <= i < |c.tasks| && c.tasks[i].CloseTask?;
      assert c1.tasks[i - 1] == c.tasks[i];
      es := CloseAbandons(c1);
    }
    PrependCalm(c, e, es);
    es := [e] + es;
  }

  lemma EofLoses(c: Conn) returns (es: seq<Event>)
    requires Inv(c) && Open(c) && (!AllEmpty(Queued(c.tasks)) || (c.output != [] && CloseQueued(c.tasks)))
    ensures var c1 := Apply(c, Eof); CanRun(c1, es) && PeacefulRun(c1, es) && Gone(RunAll(c1, es)) > Gone(c1)
  {
    var c1 := Apply(c, Eof);
    StepInv(c, Eof);
    if c.output == [] {
      es := ClosedQueueIsLost(c1);
    } else if CloseQueued(c.tasks) {
      es := CloseAbandons(c1);
    } else {
      es := DrainThenLost(c1);
      NothingAbandoned(c1, es);
    }
    CalmIsPeaceful(c1, es);
  }

  /** Without a close, only bytes given up are gone. */
  lemma NothingAbandoned(c: Conn, es: seq<Event>)
    requires !c.phase.Disconnected? && !CloseQueued(c.tasks) && CanRun(c, es) && CalmRun(c, es)
    ensures Gone(RunAll(c, es)) == RunAll(c, es).lost && Gone(c) == c.lost
  {
    CalmStaysOpen(c, es);
  }

  /**
   * The peer closes its side while bytes are unwritten: the connection finishes
   * writing. In runs in which nothing else goes wrong nothing is lost exactly
   * when no other thread's message is queued and no forced close waits behind
   * unwritten bytes. The closed callback is called at once exactly when nothing
   * is left to write.
   */
  lemma EofIsOrderlyIff(c: Conn)
    requires Inv(c) && Open(c)
    ensures NeverLosesPeacefully(Apply(c, Eof)) <==>
      AllEmpty(Queued(c.tasks)) && (c.output == [] || !CloseQueued(c.tasks))
    ensures Apply(c, Eof).downs == c.downs + if c.output == [] then 1 else 0
  {
    var c1 := Apply(c, Eof);
    StepInv(c, Eof);
    if !AllEmpty(Queued(c.tasks)) || (c.output != [] && CloseQueued(c.tasks)) {
      var es := EofLoses(c);
    } else {
      forall es | CanRun(c1, es) && PeacefulRun(c1, es) ensures Gone(RunAll(c1, es)) == Gone(c1) {
        if c.output == [] {
          NothingToLose(c1, es);
        } else {
          PeacefulLosesNothing(c1, es);
        }
      }
    }
  }

  // ----- Longer runs -----

  lemma {:induction false} RunThen(c: Conn, es: seq<Event>, more: seq<Event>)
    requires CanRun(c, es) && CanRun(RunAll(c, es), more)
    ensures CanRun(c, es + more) && RunAll(c, es + more) == RunAll(RunAll(c, es), more)
    decreases |es|
  {
    if es == [] {
      assert es + more == more;
    } else {
      assert (es + more)[1..] == es[1..] + more && (es + more)[0] == es[0];
      RunThen(Apply(c, es[0]), es[1..], more);
    }
  }

  lemma RunOne(c: Conn, e: Event)
    requires Enabled(c, e)
    ensures CanRun(c, [e]) && RunAll(c, [e]) == Apply(c, e)
  {
    assert [e][1..] == [];
  }

  /** After the end of input the buffer drains, the write side shuts, and every byte not given up was written. */
  lemma EofDrains(es: seq<Event>)
    requires CanRun(FRESH, es) && Open(RunAll(FRESH, es)) && RunAll(FRESH, es).output != []
    ensures var c := RunAll(FRESH, es); var all := es + [Eof] + [Writable(Took(|c.output|))];
      CanRun(FRESH, all) && RunAll(FRESH, all).shut && RunAll(FRESH, all).output == []
      && RunAll(FRESH, all).wire == Surviving(FRESH, all)
  {
    var c := RunAll(FRESH, es);
    var c1, e := Apply(c, Eof), Writable(Took(|c.output|));
    RunInv(FRESH, es);
    RunOne(c, Eof);
    RunThen(FRESH, es, [Eof]);
    RunOne(c1, e);
    RunThen(FRESH, es + [Eof], [e]);
    SendPathIsStream(es + [Eof] + [e]);
  }

  lemma {:induction false} RunSnoc(c: Conn, es: seq<Event>, e: Event)
    requires CanRun(c, es + [e])
    ensures CanRun(c, es) && Enabled(RunAll(c, es), e) && RunAll(c, es + [e]) == Apply(RunAll(c, es), e)
    decreases |es|
  {
    if es == [] {
      assert es + [e] == [e] && [e][1..] == [];
    } else {
      assert (es + [e])[1..] == es[1..] + [e] && (es + [e])[0] == es[0];
      RunSnoc(Apply(c, es[0]), es[1..], e);
    }
  }

  // ----- Phases and input, told from the events -----

  predicate Ends(e: Event) { e.Shutdown? || e.PostShutdown? || e.ForceClose? || e.Eof? || e.Hangup? }

  /** Established, and nothing since that ends it. */
  predicate Accepting(es: seq<Event>) {
    es != [] && (es[|es| - 1].Establish? || (Accepting(es[..|es| - 1]) && !Ends(es[|es| - 1])))
  }

  /** The event closes the connection: a hang-up, the end of input with nothing to write, or a forced close being run. */
  predicate Closes(c: Conn, e: Event) {
    e.Hangup? || (e.Eof? && c.output == []) || (e.RunTask? && c.tasks != [] && c.tasks[0].CloseTask?)
  }

  /** All bytes read. */
  function Received(es: seq<Event>): bytes {
    if es == [] then []
    else Received(es[..|es| - 1]) + if es[|es| - 1].Readable? then es[|es| - 1].chunk else []
  }

  lemma StepPhase(c: Conn, e: Event)
    requires Inv(c) && Enabled(c, e)
    ensures Apply(c, e).phase.Connected? <==> e.Establish? || (c.phase.Connected? && !Ends(e))
    ensures Apply(c, e).phase.Connecting? <==> c.phase.Connecting? && !e.Establish?
    ensures Apply(c, e).phase.Disconnected? <==> c.phase.Disconnected? || (Open(c) && Closes(c, e))
    ensures Apply(c, e).input == c.input + if e.Readable? then e.chunk else []
  {
    assert c.input + [] == c.input;
  }

  /**
   * In every run a connection accepts messages exactly from its establishment to
   * the first shutdown, forced close, end of input or hang-up, and its input is
   * what was read, in order.
   */
  lemma {:induction false} PhaseFollowsEvents(es: seq<Event>)
    requires CanRun(FRESH, es)
    ensures var c := RunAll(FRESH, es);
      && (c.phase.Connected? <==> Accepting(es)) && (c.phase.Connecting? <==> Establish !in es)
      && c.input == Received(es)
  {
    if es != [] {
      var init, e := es[..|es| - 1], es[|es| - 1];
      assert es == init + [e];
      RunSnoc(FRESH, init, e);
      PhaseFollowsEvents(init);
      RunInv(FRESH, init);
      StepPhase(RunAll(FRESH, init), e);
    }
  }

  /** A connection goes down at the event that closes it, and at no other. */
  lemma ClosedByEvent(es: seq<Event>, e: Event)
    requires CanRun(FRESH, es + [e])
    ensures CanRun(FRESH, es)
    ensures var c, r := RunAll(FRESH, es), RunAll(FRESH, es + [e]);
      r.downs == c.downs + if Open(c) && Closes(c, e) then 1 else 0
  {
    RunSnoc(FRESH, es, e);
    RunInv(FRESH, es);
    RunInv(FRESH, es + [e]);
    StepPhase(RunAll(FRESH, es), e);
  }

  // ----- A forced close closes -----

  /** How many queued tasks the loop has run. */
  function TasksRun(es: seq<Event>): nat {
    if es == [] then 0 else (if es[0].RunTask? then 1 else 0) + TasksRun(es[1..])
  }

  lemma {:induction false} ClosesWithin(c: Conn, es: seq<Event>, i: nat)
    requires CanRun(c, es) && !c.phase.Connecting? && TasksRun(es) > i
    requires c.phase.Disconnected? || (i < |c.tasks| && c.tasks[i].CloseTask?)
    ensures RunAll(c, es).phase.Disconnected?
    decreases |es|
  {
    var e, c1 := es[0], Apply(c, es[0]);
    if c1.phase.Disconnected? {
      StaysClosed(c1, es[1..]);
    } else if e.RunTask? {
      assert c1.tasks == c.tasks[1..];
      ClosesWithin(c1, es[1..], i - 1);
    } else {
      assert c.tasks <= c1.tasks;
      ClosesWithin(c1, es[1..], i);
    }
  }

  lemma {:induction false} StaysClosed(c: Conn, es: seq<Event>)
    requires CanRun(c, es) && c.phase.Disconnected?
    ensures RunAll(c, es).phase.Disconnected?
    decreases |es|
  {
    if es != [] {
      StaysClosed(Apply(c, es[0]), es[1..]);
    }
  }

  /** After forceClose() the connection is down once the loop has run what was queued at the call and the close itself. */
  lemma ForceCloseCloses(c: Conn, es: seq<Event>)
    requires Open(c) && CanRun(Apply(c, ForceClose), es) && TasksRun(es) > |c.tasks|
    ensures RunAll(Apply(c, ForceClose), es).phase.Disconnected?
  {
    ClosesWithin(Apply(c, ForceClose), es, |c.tasks|);
  }

  // ----- What the kernel took -----

  /** The bytes an event hands to the kernel directly, if nothing is ahead of them, or from the buffer. */
  function Offered(c: Conn, e: Event): bytes
    requires Enabled(c, e)
  {
    if e.Writable? then c.output
    else if c.output == [] && !c.phase.Disconnected? then Message(c, e)
    else []
  }

  /** What the kernel reports taken of it. */
  function Taken(c: Conn, e: Event): bytes
    requires Enabled(c, e)
  {
    var offered := Offered(c, e);
    if (e.Writable? || e.Send? || e.RunTask?) && Written(e.o) <= |offered| then offered[..Written(e.o)] else []
  }

  /** Everything the kernel took in a run. */
  function AllTaken(c: Conn, es: seq<Event>): bytes
    requires CanRun(c, es)
    decreases |es|
  {
    if es == [] then [] else Taken(c, es[0]) + AllTaken(Apply(c, es[0]), es[1..])
  }

  lemma StepWrites(c: Conn, e: Event)
    requires Inv(c) && Enabled(c, e)
    ensures Apply(c, e).wire == c.wire + Taken(c, e)
  {
    assert c.wire + [] == c.wire;
  }

  /** In every run what the kernel took is what was written: no byte reported taken is kept back or sent twice. */
  lemma {:induction false} WireIsTaken(c: Conn, es: seq<Event>)
    requires Inv(c) && CanRun(c, es)
    ensures RunAll(c, es).wire == c.wire + AllTaken(c, es)
    decreases |es|
  {
    if es == [] {
      assert c.wire + [] == c.wire;
    } else {
      StepInv(c, es[0]);
      StepWrites(c, es[0]);
      WireIsTaken(Apply(c, es[0]), es[1..]);
      Associate(c.wire, Taken(c, es[0]), AllTaken(Apply(c, es[0]), es[1..]));
    }
  }
}
