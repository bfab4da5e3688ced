/**
 * A connection's send path as a state machine on the loop thread: a fast path
 * to the kernel, an output buffer drained on writability, and shutdown that
 * waits for it. What the kernel does with a write is an input.
 */
module Connections {
  import opened Bytes

  datatype Phase = Connecting | Connected | Disconnecting | Disconnected

  /** A write(2): bytes taken, EAGAIN or another harmless error, or EPIPE/ECONNRESET. */
  datatype Outcome = Took(n: nat) | Refused | Fatal

  datatype Task = SendTask(message: bytes) | ShutdownTask | CloseTask

  /**
   * `wire` is what the kernel took, `kept` every message not given up, in the
   * order handled, `lost` the bytes of those given up. `posted` are the messages
   * queued by other threads, `ran` how many of them have been handled. `downs`
   * counts the connection callback's calls for a closed connection.
   */
  datatype Conn = Conn(
    phase: Phase, writing: bool, shut: bool, output: bytes, input: bytes,
    wire: bytes, kept: bytes, lost: nat,
    tasks: seq<Task>, posted: seq<bytes>, ran: nat, downs: nat)

  const FRESH := Conn(Connecting, false, false, [], [], [], [], 0, [], [], 0, 0)

  predicate Open(c: Conn) { c.phase.Connected? || c.phase.Disconnecting? }

  function Written(o: Outcome): nat { if o.Took? then o.n else 0 }

  // ----- Operations -----

  /** Hand the message to the kernel if nothing is ahead of it, and buffer what it did not take. */
  function SendInLoop(c: Conn, m: bytes, o: Outcome): Conn
    requires Written(o) <= |m|
  {
    if c.phase.Disconnected? then c.(lost := c.lost + |m|)
    else if c.writing || c.output != [] then Buffered(c.(kept := c.kept + m), m)
    else if o.Fatal? then c.(lost := c.lost + |m|)
    else Buffered(c.(kept := c.kept + m, wire := c.wire + m[..Written(o)]), m[Written(o)..])
  }

  function Buffered(c: Conn, rest: bytes): Conn {
    if rest == [] then c else c.(output := c.output + rest, writing := true)
  }

  function ShutdownInLoop(c: Conn): Conn { if c.writing then c else c.(shut := true) }

  /** handleWrite: the front of the buffer goes out; when it is empty, a shutdown that waited goes ahead. */
  function HandleWrite(c: Conn, o: Outcome): Conn
    requires Written(o) <= |c.output|
  {
    if !c.writing || Written(o) == 0 then c
    else
      var c1 := c.(wire := c.wire + c.output[..Written(o)], output := c.output[Written(o)..]);
      if c1.output != [] then c1
      else
        var c2 := c1.(writing := false);
        if c.phase.Disconnecting? then ShutdownInLoop(c2) else c2
  }

  function HandleClose(c: Conn): Conn
    requires Open(c)
  {
    c.(phase := Disconnected, writing := false, downs := c.downs + 1)
  }

  /** The peer closed its side: finish writing first if there is anything to write. */
  function HandleEof(c: Conn): Conn
    requires Open(c)
  {
    if c.output != [] then c.(phase := Disconnecting) else HandleClose(c)
  }

  function RunFirst(c: Conn, o: Outcome): Conn
    requires c.tasks != [] && (c.tasks[0].SendTask? ==> Written(o) <= |c.tasks[0].message|)
  {
    var c1 := c.(tasks := c.tasks[1..]);
    match c.tasks[0]
    case SendTask(m) => SendInLoop(c1.(ran := c.ran + 1), m, o)
    case ShutdownTask => ShutdownInLoop(c1)
    case CloseTask => if Open(c) then HandleClose(c1) else c1
  }

  // ----- Events -----

  datatype Event =
    | Establish
    | Send(m: bytes, o: Outcome)
    | PostSend(m: bytes)
    | RunTask(o: Outcome)
    | Writable(o: Outcome)
    | Readable(chunk: bytes)
    | Eof
    | Hangup
    | Shutdown
    | PostShutdown
    | ForceClose

  /** The kernel takes at most what it is offered, and nothing once the write side is shut. */
  predicate Possible(c: Conn, o: Outcome, offered: nat) {
    Written(o) <= offered && (c.shut && offered > 0 ==> o.Fatal?)
  }

  /** Channel events come only while the channel is enabled. */
  predicate Enabled(c: Conn, e: Event) {
    match e
    case Establish => c.phase.Connecting?
    case Send(m, o) => Possible(c, o, |m|)
    case RunTask(o) => c.tasks != [] && if c.tasks[0].SendTask? then Possible(c, o, |c.tasks[0].message|) else true
    case Writable(o) => c.writing && Possible(c, o, |c.output|)
    case Readable(_) => Open(c)
    case Eof => Open(c)
    case Hangup => Open(c)
    case _ => true
  }

  /** Sends are ignored unless connected; a shutdown or close from another thread queues its second half. */
  function Apply(c: Conn, e: Event): Conn
    requires Enabled(c, e)
  {
    match e
    case Establish => c.(phase := Connected)
    case Send(m, o) => if c.phase.Connected? then SendInLoop(c, m, o) else c
    case PostSend(m) =>
      if c.phase.Connected? then c.(tasks := c.tasks + [SendTask(m)], posted := c.posted + [m]) else c
    case RunTask(o) => RunFirst(c, o)
    case Writable(o) => HandleWrite(c, o)
    case Readable(chunk) => c.(input := c.input + chunk)
    case Eof => HandleEof(c)
    case Hangup => HandleClose(c)
    case Shutdown => if c.phase.Connected? then ShutdownInLoop(c.(phase := Disconnecting)) else c
    case PostShutdown =>
      if c.phase.Connected? then c.(phase := Disconnecting, tasks := c.tasks + [ShutdownTask]) else c
    case ForceClose =>
      if Open(c) then c.(phase := Disconnecting, tasks := c.tasks + [CloseTask]) else c
  }

  predicate CanRun(c: Conn, es: seq<Event>)
    decreases |es|
  {
    es == [] || (Enabled(c, es[0]) && CanRun(Apply(c, es[0]), es[1..]))
  }

  function RunAll(c: Conn, es: seq<Event>): Conn
    requires CanRun(c, es)
    decreases |es|
  {
    if es == [] then c else RunAll(Apply(c, es[0]), es[1..])
  }

  // ----- What every run keeps -----

  /** The messages waiting in the loop's queue. */
  function Queued(tasks: seq<Task>): seq<bytes> {
    if tasks == [] then []
    else Carried(tasks[0]) + Queued(tasks[1..])
  }

  /** The message of a task, if it has one. */
  function Carried(t: Task): seq<bytes> { if t.SendTask? then [t.message] else [] }

  lemma {:induction false} QueuedSnoc(tasks: seq<Task>, t: Task)
    ensures Queued(tasks + [t]) == Queued(tasks) + Carried(t)
  {
    if tasks == [] {
      assert tasks + [t] == [t] && [t][1..] == [];
      assert Queued([t]) == Carried(t) + Queued([]);
    } else {
      var rest := tasks[1..];
      QueuedSnoc(rest, t);
      assert (tasks + [t])[1..] == rest + [t] && (tasks + [t])[0] == tasks[0];
      assert Queued(tasks + [t]) == Carried(tasks[0]) + Queued(rest + [t]);
      Associate(Carried(tasks[0]), Queued(rest), Carried(t));
    }
  }

  /**
   * The kernel's bytes followed by the buffer are the messages in order; write
   * interest is on exactly while the buffer holds something; the write side is
   * shut only when every byte was taken; posted messages are handled in order.
   */
  ghost predicate Inv(c: Conn) {
    && c.wire + c.output == c.kept
    && (if c.phase.Disconnected? then !c.writing else (c.writing <==> c.output != []))
    && (c.shut && !c.phase.Disconnected? ==> c.output == [])
    && (c.shut ==> !c.phase.Connecting? && !c.phase.Connected?)
    && c.ran <= |c.posted| && Queued(c.tasks) == c.posted[c.ran..]
    && c.downs == (if c.phase.Disconnected? then 1 else 0)
    && (c.phase.Connecting? || c.phase.Connected? ==> forall i :: 0 <= i < |c.tasks| ==> c.tasks[i].SendTask?)
  }

  lemma SendInv(c: Conn, m: bytes, o: Outcome)
    requires Inv(c) && Possible(c, o, |m|)
    ensures Inv(SendInLoop(c, m, o))
  {
    var n := Written(o);
    assert m == m[..n] + m[n..];
    if c.writing || c.output != [] {
      Associate(c.wire, c.output, m);
    } else {
      assert c.output + m[n..] == m[n..];
      Associate(c.wire, m[..n], m[n..]);
      assert c.wire == c.kept;
    }
  }

  lemma WriteInv(c: Conn, o: Outcome)
    requires Inv(c) && Written(o) <= |c.output|
    ensures Inv(HandleWrite(c, o))
  {
    var n := Written(o);
    assert c.output == c.output[..n] + c.output[n..];
    Associate(c.wire, c.output[..n], c.output[n..]);
  }

  lemma TaskInv(c: Conn, o: Outcome)
    requires Inv(c) && Enabled(c, RunTask(o))
    ensures Inv(RunFirst(c, o))
  {
    var c1 := c.(tasks := c.tasks[1..]);
    match c.tasks[0]
    case SendTask(m) =>
      var c2 := c1.(ran := c.ran + 1);
      assert Queued(c.tasks) == [m] + Queued(c.tasks[1..]);
      assert c.posted[c.ran..][1..] == c.posted[c.ran + 1..];
      assert Inv(c2);
      SendInv(c2, m, o);
    case _ =>
      assert Queued(c.tasks) == Queued(c.tasks[1..]);
      assert Inv(c1);
  }

  lemma PostInv(c: Conn, t: Task, c': Conn)
    requires Inv(c) && c'.tasks == c.tasks + [t]
    requires c'.posted == c.posted + Carried(t) && c'.ran == c.ran
    ensures c'.ran <= |c'.posted| && Queued(c'.tasks) == c'.posted[c'.ran..]
  {
    QueuedSnoc(c.tasks, t);
  }

  lemma StepInv(c: Conn, e: Event)
    requires Inv(c) && Enabled(c, e)
    ensures Inv(Apply(c, e))
  {
    match e
    case Send(m, o) => SendInv(c, m, o);
    case PostSend(m) => if c.phase.Connected? { PostInv(c, SendTask(m), Apply(c, e)); }
    case RunTask(o) => TaskInv(c, o);
    case Writable(o) => WriteInv(c, o);
    case PostShutdown => if c.phase.Connected? { PostInv(c, ShutdownTask, Apply(c, e)); }
    case ForceClose => if Open(c) { PostInv(c, CloseTask, Apply(c, e)); }
    case _ =>
  }

  lemma {:induction false} RunInv(c: Conn, es: seq<Event>)
    requires Inv(c) && CanRun(c, es)
    ensures Inv(RunAll(c, es))
    decreases |es|
  {
    if es != [] {
      StepInv(c, es[0]);
      RunInv(Apply(c, es[0]), es[1..]);
    }
  }

  // ----- The stream, told from the events alone -----

  /** The message an event hands to the send path: of a send while connected, or of the queued send being run. */
  function Message(c: Conn, e: Event): bytes
    requires Enabled(c, e)
  {
    match e
    case Send(m, _) => if c.phase.Connected? then m else []
    case RunTask(_) => if c.tasks[0].SendTask? then c.tasks[0].message else []
    case _ => []
  }

  /** The message is given up: the connection is closed, or the kernel refuses it for good with nothing ahead of it. */
  predicate GivenUp(c: Conn, e: Event) {
    c.phase.Disconnected? || (c.output == [] && (e.Send? || e.RunTask?) && e.o.Fatal?)
  }

  /** All messages handed to the send path in a run, in order. */
  function Handled(c: Conn, es: seq<Event>): bytes
    requires CanRun(c, es)
    decreases |es|
  {
    if es == [] then [] else Message(c, es[0]) + Handled(Apply(c, es[0]), es[1..])
  }

  /** Those of them that are not given up. */
  function Surviving(c: Conn, es: seq<Event>): bytes
    requires CanRun(c, es)
    decreases |es|
  {
    if es == [] then []
    else (if GivenUp(c, es[0]) then [] else Message(c, es[0])) + Surviving(Apply(c, es[0]), es[1..])
  }

  /** The messages other threads send while connected, in order. */
  function Posted(c: Conn, es: seq<Event>): seq<bytes>
    requires CanRun(c, es)
    decreases |es|
  {
    if es == [] then []
    else (if es[0].PostSend? && c.phase.Connected? then [es[0].m] else []) + Posted(Apply(c, es[0]), es[1..])
  }

  lemma SendHandles(c: Conn, m: bytes, o: Outcome)
    requires Written(o) <= |m| && (!c.phase.Disconnected? ==> (c.writing <==> c.output != []))
    ensures var r := SendInLoop(c, m, o); var gone := c.phase.Disconnected? || (c.output == [] && o.Fatal?);
      && r.kept == c.kept + (if gone then [] else m) && r.lost == c.lost + (if gone then |m| else 0)
      && r.posted == c.posted
  {
    assert c.kept + [] == c.kept;
  }

  /** Nothing but sends and queued tasks hands bytes over. */
  lemma OthersHandleNothing(c: Conn, e: Event)
    requires Enabled(c, e) && !e.Send? && !e.RunTask?
    ensures Apply(c, e).kept == c.kept && Apply(c, e).lost == c.lost
    ensures Apply(c, e).posted == c.posted + (if e.PostSend? && c.phase.Connected? then [e.m] else [])
  {
    assert c.posted + [] == c.posted;
  }

  lemma TaskHandles(c: Conn, o: Outcome)
    requires Inv(c) && Enabled(c, RunTask(o))
    ensures var r, e := RunFirst(c, o), RunTask(o);
      && r.kept == c.kept + (if GivenUp(c, e) then [] else Message(c, e))
      && r.lost == c.lost + (if GivenUp(c, e) then |Message(c, e)| else 0) && r.posted == c.posted
  {
    var c1 := c.(tasks := c.tasks[1..]);
    if c.tasks[0].SendTask? {
      SendHandles(c1.(ran := c.ran + 1), c.tasks[0].message, o);
    } else {
      assert c.kept + [] == c.kept;
    }
  }

  lemma StepHandles(c: Conn, e: Event)
    requires Inv(c) && Enabled(c, e)
    ensures var r, m := Apply(c, e), Message(c, e);
      && r.kept == c.kept + (if GivenUp(c, e) then [] else m)
      && r.lost == c.lost + (if GivenUp(c, e) then |m| else 0)
      && r.posted == c.posted + (if e.PostSend? && c.phase.Connected? then [e.m] else [])
  {
    assert c.kept + [] == c.kept && c.posted + [] == c.posted;
    match e
    case Send(m, o) =>
      if c.phase.Connected? {
        SendHandles(c, m, o);
      }
    case RunTask(o) => TaskHandles(c, o);
    case _ => OthersHandleNothing(c, e);
  }

  /** What is kept, given up and queued in a run is what its events say. */
  lemma {:induction false} RunHandles(c: Conn, es: seq<Event>)
    requires Inv(c) && CanRun(c, es)
    ensures var r := RunAll(c, es);
      && r.kept == c.kept + Surviving(c, es)
      && r.lost + |Surviving(c, es)| == c.lost + |Handled(c, es)|
      && (r.lost == c.lost ==> Surviving(c, es) == Handled(c, es))
      && r.lost >= c.lost && r.posted == c.posted + Posted(c, es)
    decreases |es|
  {
    if es == [] {
      assert c.kept + [] == c.kept && c.posted + [] == c.posted;
    } else {
      var e := es[0];
      var r, m := Apply(c, e), if GivenUp(c, e) then [] else Message(c, e);
      StepInv(c, e);
      StepHandles(c, e);
      RunHandles(r, es[1..]);
      Associate(c.kept, m, Surviving(r, es[1..]));
      Associate(c.posted, if e.PostSend? && c.phase.Connected? then [e.m] else [], Posted(r, es[1..]));
    }
  }

  /**
   * The send path is an order-preserving stream, in every run: bytes taken by
   * the kernel, then the buffer, are exactly the messages handed to it and not
   * given up, in order; every other byte is counted as lost. Messages of other
   * threads are handled in the order posted. Once the write side is shut on an
   * open connection, all bytes were taken.
   */
  lemma SendPathIsStream(es: seq<Event>)
    requires CanRun(FRESH, es)
    ensures var c := RunAll(FRESH, es);
      && c.wire + c.output == Surviving(FRESH, es)
      && c.lost + |Surviving(FRESH, es)| == |Handled(FRESH, es)|
      && (c.lost == 0 ==> c.wire + c.output == Handled(FRESH, es))
      && (!c.phase.Disconnected? ==> (c.writing <==> c.output != []))
      && (c.shut && !c.phase.Disconnected? ==> c.wire == Surviving(FRESH, es))
      && c.ran <= |Posted(FRESH, es)| && Queued(c.tasks) == Posted(FRESH, es)[c.ran..]
      && (c.downs == 1 <==> c.phase.Disconnected?) && c.downs <= 1
  {
    RunInv(FRESH, es);
    RunHandles(FRESH, es);
    var c := RunAll(FRESH, es);
    assert [] + Surviving(FRESH, es) == Surviving(FRESH, es) && [] + Posted(FRESH, es) == Posted(FRESH, es);
    assert c.output == [] ==> c.wire + c.output == c.wire;
  }

  /**
   * SHUT_WR overtakes buffered bytes exactly when the connection was closed
   * before with bytes left: in every run, at the very step that shuts.
   */
  lemma ShutsUnwrittenIffClosed(es: seq<Event>, e: Event)
    requires CanRun(FRESH, es) && Enabled(RunAll(FRESH, es), e)
    requires !RunAll(FRESH, es).shut && Apply(RunAll(FRESH, es), e).shut
    ensures var c := RunAll(FRESH, es); var r := Apply(c, e);
      r.wire != r.kept <==> c.phase.Disconnected? && c.output != []
  {
    var c := RunAll(FRESH, es);
    RunInv(FRESH, es);
    StepInv(c, e);
    var r := Apply(c, e);
    assert r.output != [] ==> |r.wire| < |r.kept|;
  }

  lemma HangupThenShut(c: Conn)
    requires Open(c) && c.tasks == [ShutdownTask]
    ensures var es := [Hangup, RunTask(Refused)];
      CanRun(c, es) && RunAll(c, es).shut && RunAll(c, es).kept == c.kept && RunAll(c, es).wire == c.wire
  {
    Prepend(Apply(c, Hangup), RunTask(Refused), []);
    Prepend(c, Hangup, [RunTask(Refused)] + []);
    assert [Hangup, RunTask(Refused)] == [Hangup] + ([RunTask(Refused)] + []);
  }

  /** A hang-up with bytes in the buffer, then the queued half of a shutdown. */
  lemma ClosedThenShut()
    ensures var es := [Establish, Send([7], Refused), PostShutdown, Hangup, RunTask(Refused)];
      CanRun(FRESH, es) && RunAll(FRESH, es).shut && RunAll(FRESH, es).kept == [7] && RunAll(FRESH, es).wire == []
  {
    var c1 := FRESH.(phase := Connected);
    var c2 := c1.(writing := true, output := [7], kept := [7]);
    assert c2 == Apply(c1, Send([7], Refused));
    var t2 := [Hangup, RunTask(Refused)];
    HangupThenShut(Apply(c2, PostShutdown));
    var t3 := [PostShutdown] + t2;
    Prepend(c2, PostShutdown, t2);
    Prepend(c1, Send([7], Refused), t3);
    Prepend(FRESH, Establish, [Send([7], Refused)] + t3);
    assert [Establish, Send([7], Refused), PostShutdown, Hangup, RunTask(Refused)]
      == [Establish] + ([Send([7], Refused)] + t3);
  }

  lemma Prepend(c: Conn, e: Event, es: seq<Event>)
    requires Enabled(c, e) && CanRun(Apply(c, e), es)
    ensures CanRun(c, [e] + es) && RunAll(c, [e] + es) == RunAll(Apply(c, e), es)
  {
    assert ([e] + es)[1..] == es;
  }

  /** SHUT_WR is done: from then on the kernel takes nothing. */
  ghost predicate Sealed(c: Conn) { Inv(c) && c.shut }

  lemma StepSealed(c: Conn, e: Event)
    requires Sealed(c) && Enabled(c, e)
    ensures Sealed(Apply(c, e)) && Apply(c, e).wire == c.wire
  {
    StepInv(c, e);
  }

  /** After SHUT_WR no byte reaches the kernel any more. */
  lemma {:induction false} NothingAfterShut(c: Conn, es: seq<Event>)
    requires Sealed(c) && CanRun(c, es)
    ensures Sealed(RunAll(c, es)) && RunAll(c, es).wire == c.wire
    decreases |es|
  {
    if es != [] {
      StepSealed(c, es[0]);
      NothingAfterShut(Apply(c, es[0]), es[1..]);
    }
  }

  // ----- When shutdown() loses what other threads have sent -----

  predicate AllEmpty(ms: seq<bytes>) { forall i :: 0 <= i < |ms| ==> ms[i] == [] }

  /** shutdown() or forceClose() was called, or the connection is closed: nothing more is accepted. */
  ghost predicate Closing(c: Conn) { Inv(c) && (c.phase.Disconnecting? || c.phase.Disconnected?) }

  /**
   * An event of a run in which nothing else goes wrong: the kernel reports no
   * fatal error before SHUT_WR, and nobody closes the connection.
   */
  predicate Calm(c: Conn, e: Event) {
    match e
    case Send(_, o) => o.Fatal? ==> c.shut
    case RunTask(o) => o.Fatal? ==> c.shut
    case Writable(o) => o.Fatal? ==> c.shut
    case Eof => false
    case Hangup => false
    case ForceClose => false
    case _ => true
  }

  predicate CalmRun(c: Conn, es: seq<Event>)
    requires CanRun(c, es)
    decreases |es|
  {
    es == [] || (Calm(c, es[0]) && CalmRun(Apply(c, es[0]), es[1..]))
  }

  /** Bytes that will never be written: given up, or left in the buffer of a closed connection. */
  function Gone(c: Conn): nat { c.lost + if c.phase.Disconnected? then |c.output| else 0 }

  /** No run from here, or no calm run, loses a byte more. */
  ghost predicate NeverLoses(c: Conn) { forall es :: CanRun(c, es) ==> Gone(RunAll(c, es)) == Gone(c) }

  ghost predicate NeverLosesCalmly(c: Conn) {
    forall es :: CanRun(c, es) && CalmRun(c, es) ==> Gone(RunAll(c, es)) == Gone(c)
  }

  lemma TailEmpty(tasks: seq<Task>)
    requires tasks != [] && AllEmpty(Queued(tasks))
    ensures AllEmpty(Queued(tasks[1..])) && (tasks[0].SendTask? ==> tasks[0].message == [])
  {
    var head, rest := Carried(tasks[0]), Queued(tasks[1..]);
    assert Queued(tasks) == head + rest;
    forall i | 0 <= i < |rest| ensures rest[i] == [] {
      assert (head + rest)[|head| + i] == rest[i];
    }
    assert head != [] ==> (head + rest)[0] == head[0];
  }

  lemma TaskLosesNothing(c: Conn, o: Outcome)
    requires Enabled(c, RunTask(o)) && AllEmpty(Queued(c.tasks))
    ensures RunFirst(c, o).lost == c.lost && RunFirst(c, o).tasks == c.tasks[1..] && AllEmpty(Queued(c.tasks[1..]))
  {
    TailEmpty(c.tasks);
  }

  lemma EventLosesNothing(c: Conn, e: Event)
    requires !c.phase.Connecting? && !c.phase.Connected? && Enabled(c, e) && AllEmpty(Queued(c.tasks))
    ensures Apply(c, e).lost == c.lost && AllEmpty(Queued(Apply(c, e).tasks))
  {
    match e
    case RunTask(o) => TaskLosesNothing(c, o);
    case ForceClose => QueuedSnoc(c.tasks, CloseTask);
    case _ =>
  }

  lemma StepLosesNothing(c: Conn, e: Event)
    requires Closing(c) && Enabled(c, e) && AllEmpty(Queued(c.tasks))
    ensures Closing(Apply(c, e)) && Apply(c, e).lost == c.lost && AllEmpty(Queued(Apply(c, e).tasks))
  {
    StepInv(c, e);
    EventLosesNothing(c, e);
  }

  lemma {:induction false} LosesNothing(c: Conn, es: seq<Event>)
    requires Closing(c) && CanRun(c, es) && AllEmpty(Queued(c.tasks))
    ensures RunAll(c, es).lost == c.lost
    decreases |es|
  {
    if es != [] {
      StepLosesNothing(c, es[0]);
      LosesNothing(Apply(c, es[0]), es[1..]);
    }
  }

  lemma PrependCalm(c: Conn, e: Event, es: seq<Event>)
    requires Enabled(c, e) && CanRun(Apply(c, e), es) && Calm(c, e) && CalmRun(Apply(c, e), es)
    ensures CanRun(c, [e] + es) && CalmRun(c, [e] + es) && RunAll(c, [e] + es) == RunAll(Apply(c, e), es)
  {
    assert ([e] + es)[1..] == es;
  }

  /** After SHUT_WR the loop runs its queue and the kernel refuses every write. */
  lemma {:induction false} QueuedIsLost(c: Conn) returns (es: seq<Event>)
    requires Sealed(c) && !AllEmpty(Queued(c.tasks))
    ensures CanRun(c, es) && CalmRun(c, es) && RunAll(c, es).lost > c.lost
    decreases |c.tasks|
  {
    var e := RunTask(Fatal);
    var c1 := Apply(c, e);
    StepSealed(c, e);
    HeadOrTail(c.tasks);
    if c.tasks[0].SendTask? && c.tasks[0].message != [] {
      es := [];
    } else {
      es := QueuedIsLost(c1);
    }
    PrependCalm(c, e, es);
    es := [e] + es;
  }

  lemma HeadOrTail(tasks: seq<Task>)
    requires !AllEmpty(Queued(tasks))
    ensures tasks != [] && ((tasks[0].SendTask? && tasks[0].message != []) || !AllEmpty(Queued(tasks[1..])))
  {
    assert Queued(tasks) == Carried(tasks[0]) + Queued(tasks[1..]);
  }

  /** The buffer drains while a shutdown waits: SHUT_WR, and the queue is lost. */
  lemma DrainThenLost(c: Conn) returns (es: seq<Event>)
    requires Inv(c) && c.phase.Disconnecting? && (c.writing || c.shut) && !AllEmpty(Queued(c.tasks))
    ensures CanRun(c, es) && CalmRun(c, es) && RunAll(c, es).lost > c.lost
  {
    if c.shut {
      es := QueuedIsLost(c);
    } else {
      var e := Writable(Took(|c.output|));
      StepInv(c, e);
      es := QueuedIsLost(Apply(c, e));
      PrependCalm(c, e, es);
      es := [e] + es;
    }
  }

  /** With nothing queued and nothing buffered there is nothing to lose. */
  lemma {:induction false} NothingToLose(c: Conn, es: seq<Event>)
    requires Closing(c) && CanRun(c, es) && AllEmpty(Queued(c.tasks)) && c.output == []
    ensures Gone(RunAll(c, es)) == Gone(c) == c.lost
    decreases |es|
  {
    if es != [] {
      StepLosesNothing(c, es[0]);
      StaysEmpty(c, es[0]);
      NothingToLose(Apply(c, es[0]), es[1..]);
    }
  }

  lemma StaysEmpty(c: Conn, e: Event)
    requires Closing(c) && Enabled(c, e) && AllEmpty(Queued(c.tasks)) && c.output == []
    ensures Apply(c, e).output == []
  {
    if e.RunTask? {
      TailEmpty(c.tasks);
    }
  }

  /** Nobody has asked for a close. */
  predicate Unclosed(c: Conn) { !c.phase.Disconnected? && forall i :: 0 <= i < |c.tasks| ==> !c.tasks[i].CloseTask? }

  lemma {:induction false} CalmStaysOpen(c: Conn, es: seq<Event>)
    requires Unclosed(c) && CanRun(c, es) && CalmRun(c, es)
    ensures Unclosed(RunAll(c, es))
    decreases |es|
  {
    if es != [] {
      CalmStepStaysOpen(c, es[0]);
      CalmStaysOpen(Apply(c, es[0]), es[1..]);
    }
  }

  lemma CalmStepStaysOpen(c: Conn, e: Event)
    requires Unclosed(c) && Enabled(c, e) && Calm(c, e)
    ensures Unclosed(Apply(c, e))
  {
    var r := Apply(c, e);
    if e.RunTask? {
      assert r.tasks == c.tasks[1..];
    }
  }

  lemma CalmWithNothingQueued(c: Conn)
    requires Closing(c) && Unclosed(c) && AllEmpty(Queued(c.tasks))
    ensures NeverLosesCalmly(c)
  {
    forall es | CanRun(c, es) && CalmRun(c, es) ensures Gone(RunAll(c, es)) == Gone(c) {
      LosesNothing(c, es);
      CalmStaysOpen(c, es);
    }
  }

  /** A byte in the buffer is abandoned when the peer hangs up. */
  lemma HangupAbandons(c: Conn)
    requires Open(c) && c.output != []
    ensures CanRun(c, [Hangup]) && Gone(RunAll(c, [Hangup])) > Gone(c)
  {
    Prepend(c, Hangup, []);
    assert [Hangup] == [Hangup] + [];
  }

  /**
   * shutdown() on the loop thread is documented to finish writing pending data
   * first. In runs in which nothing else goes wrong that is so exactly when no
   * other thread's message is still queued at the call. Against every run, with
   * kernel faults and a peer that hangs up, nothing is ever lost exactly when
   * nothing is queued and nothing buffered at the call.
   */
  lemma ShutdownIsOrderlyIff(c: Conn)
    requires Inv(c) && c.phase.Connected?
    ensures NeverLosesCalmly(Apply(c, Shutdown)) <==> AllEmpty(Queued(c.tasks))
    ensures NeverLoses(Apply(c, Shutdown)) <==> AllEmpty(Queued(c.tasks)) && c.output == []
  {
    var c1 := Apply(c, Shutdown);
    StepInv(c, Shutdown);
    if !AllEmpty(Queued(c.tasks)) {
      var es := DrainThenLost(c1);
    } else {
      CalmWithNothingQueued(c1);
      if c.output == [] {
        forall es | CanRun(c1, es) ensures Gone(RunAll(c1, es)) == Gone(c1) {
          NothingToLose(c1, es);
        }
      } else {
        HangupAbandons(c1);
      }
    }
  }

  // ----- shutdown() from another thread -----

  /** How many of the messages are not empty. */
  function NonEmpty(ms: seq<bytes>): nat {
    if ms == [] then 0 else (if ms[0] == [] then 0 else 1) + NonEmpty(ms[1..])
  }

  lemma {:induction false} NonEmptyIsZero(ms: seq<bytes>)
    ensures NonEmpty(ms) == 0 <==> AllEmpty(ms)
  {
    if ms != [] {
      NonEmptyIsZero(ms[1..]);
      assert forall i :: 0 <= i < |ms| ==> ms[i] == if i == 0 then ms[0] else ms[1..][i - 1];
      assert forall i :: 0 <= i < |ms| - 1 ==> ms[1..][i] == ms[i + 1];
    }
  }

  function Weight(t: Task): nat { if t.SendTask? && t.message != [] then 1 else 0 }

  lemma NonEmptyTail(tasks: seq<Task>)
    requires tasks != []
    ensures NonEmpty(Queued(tasks)) == Weight(tasks[0]) + NonEmpty(Queued(tasks[1..]))
  {
    var rest := Queued(tasks[1..]);
    assert Queued(tasks) == Carried(tasks[0]) + rest;
    if tasks[0].SendTask? {
      assert ([tasks[0].message] + rest)[1..] == rest;
    } else {
      assert [] + rest == rest;
    }
  }

  /** Nothing is being written, and one message is left, ahead of the queued shutdown. */
  ghost predicate OneAhead(c: Conn) {
    && Inv(c) && c.phase.Disconnecting? && !c.writing && !c.shut && NonEmpty(Queued(c.tasks)) == 1
    && SendsFirst(c.tasks)
  }

  /** The first `n` tasks are sends, and all messages are among them. */
  ghost predicate Leads(tasks: seq<Task>, n: nat) {
    n <= |tasks| && (forall i :: 0 <= i < n ==> tasks[i].SendTask?) && AllEmpty(Queued(tasks[n..]))
  }

  ghost predicate SendsFirst(tasks: seq<Task>) { exists n: nat :: Leads(tasks, n) }

  lemma FirstIsSend(tasks: seq<Task>)
    requires SendsFirst(tasks) && NonEmpty(Queued(tasks)) > 0
    ensures tasks != [] && tasks[0].SendTask? && SendsFirst(tasks[1..])
    ensures NonEmpty(Queued(tasks)) == Weight(tasks[0]) + NonEmpty(Queued(tasks[1..]))
    ensures NonEmpty(Queued(tasks[1..])) == 0 <==> AllEmpty(Queued(tasks[1..]))
  {
    var n: nat :| Leads(tasks, n);
    NonEmptyIsZero(Queued(tasks));
    assert tasks[0..] == tasks;
    NonEmptyTail(tasks);
    NonEmptyIsZero(Queued(tasks[1..]));
    assert tasks[1..][n - 1..] == tasks[n..];
    assert Leads(tasks[1..], n - 1);
  }

  lemma TaskOneAhead(c: Conn, o: Outcome)
    requires OneAhead(c) && Enabled(c, RunTask(o)) && !o.Fatal?
    ensures var r := RunFirst(c, o); r.lost == c.lost && (OneAhead(r) || (Closing(r) && AllEmpty(Queued(r.tasks))))
  {
    TaskInv(c, o);
    FirstIsSend(c.tasks);
    assert RunFirst(c, o).tasks == c.tasks[1..];
  }

  lemma StepOneAhead(c: Conn, e: Event)
    requires OneAhead(c) && Enabled(c, e) && Calm(c, e)
    ensures var r := Apply(c, e); r.lost == c.lost && (OneAhead(r) || (Closing(r) && AllEmpty(Queued(r.tasks))))
  {
    if e.RunTask? {
      TaskOneAhead(c, e.o);
    } else {
      assert Apply(c, e) == if e.Readable? then c.(input := c.input + e.chunk) else c;
    }
  }

  lemma {:induction false} OneAheadLosesNothing(c: Conn, es: seq<Event>)
    requires OneAhead(c) && CanRun(c, es) && CalmRun(c, es)
    ensures RunAll(c, es).lost == c.lost
    decreases |es|
  {
    if es != [] {
      var r := Apply(c, es[0]);
      StepOneAhead(c, es[0]);
      if OneAhead(r) {
        OneAheadLosesNothing(r, es[1..]);
      } else {
        LosesNothing(r, es[1..]);
      }
    }
  }

  lemma CalmWithOneAhead(c: Conn)
    requires OneAhead(c) && Unclosed(c)
    ensures NeverLosesCalmly(c)
  {
    forall es | CanRun(c, es) && CalmRun(c, es) ensures Gone(RunAll(c, es)) == Gone(c) {
      OneAheadLosesNothing(c, es);
      CalmStaysOpen(c, es);
    }
  }

  /** The kernel refuses the first message for now: it is buffered, drains alone, and the rest is lost. */
  lemma {:induction false} SecondIsLost(c: Conn) returns (es: seq<Event>)
    requires Inv(c) && c.phase.Disconnecting? && !c.writing && !c.shut && NonEmpty(Queued(c.tasks)) >= 2
    requires SendsFirst(c.tasks)
    ensures CanRun(c, es) && CalmRun(c, es) && RunAll(c, es).lost > c.lost
    decreases |c.tasks|
  {
    FirstIsSend(c.tasks);
    var e := RunTask(Refused);
    StepInv(c, e);
    var r := Apply(c, e);
    if c.tasks[0].message == [] {
      es := SecondIsLost(r);
    } else {
      es := DrainThenLost(r);
    }
    PrependCalm(c, e, es);
    es := [e] + es;
  }

  /** At most one message waits, and then none is being written. */
  predicate Uncrowded(c: Conn) {
    AllEmpty(Queued(c.tasks)) || (NonEmpty(Queued(c.tasks)) == 1 && !c.writing)
  }

  lemma PostShutdownLeads(c: Conn)
    requires Inv(c) && c.phase.Connected?
    ensures var r := Apply(c, PostShutdown);
      && SendsFirst(r.tasks) && Queued(r.tasks) == Queued(c.tasks) && Inv(r) && r.phase.Disconnecting?
      && !r.shut && Unclosed(r) && r.writing == c.writing
  {
    StepInv(c, PostShutdown);
    QueuedSnoc(c.tasks, ShutdownTask);
    var r := Apply(c, PostShutdown);
    assert r.tasks[|c.tasks|..] == [ShutdownTask];
    assert Queued([ShutdownTask]) == Carried(ShutdownTask) + Queued([ShutdownTask][1..]);
    assert Leads(r.tasks, |c.tasks|);
  }

  /** A closing connection with the queued messages ahead of the second half of its shutdown. */
  lemma ClosingIsOrderlyIff(c: Conn)
    requires Inv(c) && c.phase.Disconnecting? && !c.shut && Unclosed(c) && SendsFirst(c.tasks)
    ensures NeverLosesCalmly(c) <==> Uncrowded(c)
  {
    NonEmptyIsZero(Queued(c.tasks));
    if AllEmpty(Queued(c.tasks)) {
      CalmWithNothingQueued(c);
    } else if c.writing {
      var es := DrainThenLost(c);
    } else if NonEmpty(Queued(c.tasks)) == 1 {
      CalmWithOneAhead(c);
    } else {
      var es := SecondIsLost(c);
    }
  }

  /**
   * shutdown() from another thread queues its second half behind the messages,
   * but lets a draining buffer shut first. Nothing is lost in any calm run
   * exactly when no message is queued at the call, or one is and no write is
   * under way.
   */
  lemma PostedShutdownIsOrderlyIff(c: Conn)
    requires Inv(c) && c.phase.Connected?
    ensures NeverLosesCalmly(Apply(c, PostShutdown)) <==> Uncrowded(c)
  {
    PostShutdownLeads(c);
    ClosingIsOrderlyIff(Apply(c, PostShutdown));
  }

  /** A message posted before shutdown() on the loop thread, and lost without any kernel fault before it. */
  lemma PostedMessageLost()
    ensures var es := [Establish, PostSend([7]), Shutdown, RunTask(Fatal)];
      CanRun(FRESH, es) && CalmRun(FRESH, es) && RunAll(FRESH, es).lost == 1 && RunAll(FRESH, es).wire == []
  {
    var es := [Establish, PostSend([7]), Shutdown, RunTask(Fatal)];
    var c1 := Apply(FRESH, Establish);
    var c2 := Apply(c1, PostSend([7]));
    var c3 := Apply(c2, Shutdown);
    assert c3.tasks == [SendTask([7])] && c3.shut;
    PrependCalm(c3, RunTask(Fatal), []);
    PrependCalm(c2, Shutdown, [RunTask(Fatal)]);
    PrependCalm(c1, PostSend([7]), [Shutdown, RunTask(Fatal)]);
    PrependCalm(FRESH, Establish, es[1..]);
  }

  /** A buffered byte drains, the waiting shutdown goes ahead, and the kernel refuses the queued message. */
  lemma DrainShutsFirst(c: Conn)
    requires c.phase.Disconnecting? && c.writing && !c.shut && c.output == [2] && c.wire == [1] && c.lost == 0
    requires c.tasks == [SendTask([7]), ShutdownTask]
    ensures var es := [Writable(Took(1)), RunTask(Fatal)];
      CanRun(c, es) && CalmRun(c, es) && RunAll(c, es).lost == 1 && RunAll(c, es).wire == [1, 2]
  {
    var c1 := Apply(c, Writable(Took(1)));
    assert c1.wire == [1, 2] && c1.shut && c1.tasks == c.tasks;
    PrependCalm(c1, RunTask(Fatal), []);
    PrependCalm(c, Writable(Took(1)), [RunTask(Fatal)] + []);
    assert [Writable(Took(1)), RunTask(Fatal)] == [Writable(Took(1))] + ([RunTask(Fatal)] + []);
  }

  /** One other thread sends and then shuts down, while an earlier message drains: its own message is lost. */
  lemma OwnMessageLost()
    ensures var es := [Establish, Send([1, 2], Took(1)), PostSend([7]), PostShutdown, Writable(Took(1)), RunTask(Fatal)];
      CanRun(FRESH, es) && CalmRun(FRESH, es) && RunAll(FRESH, es).lost == 1 && RunAll(FRESH, es).wire == [1, 2]
  {
    var c1 := Apply(FRESH, Establish);
    var c2 := Apply(c1, Send([1, 2], Took(1)));
    assert c2.wire == [1] && c2.output == [2];
    var c3 := Apply(c2, PostSend([7]));
    var c4 := Apply(c3, PostShutdown);
    var t2 := [Writable(Took(1)), RunTask(Fatal)];
    DrainShutsFirst(c4);
    var t3 := [PostShutdown] + t2;
    PrependCalm(c3, PostShutdown, t2);
    var t4 := [PostSend([7])] + t3;
    PrependCalm(c2, PostSend([7]), t3);
    PrependCalm(c1, Send([1, 2], Took(1)), t4);
    PrependCalm(FRESH, Establish, [Send([1, 2], Took(1))] + t4);
    assert [Establish, Send([1, 2], Took(1)), PostSend([7]), PostShutdown, Writable(Took(1)), RunTask(Fatal)]
      == [Establish] + ([Send([1, 2], Took(1))] + t4);
  }
}
