/**
 * One connection attempt at a time: its state, the descriptor it holds, and
 * callbacks that may start or stop again from inside. Descriptors are numbered
 * in the order they are opened.
 */
module Connecting {
  import opened Bytes

  datatype Phase = Disconnected | Connecting | Connected | Failed

  /** A call to start() or stop(). A callback is the finite list of calls it makes. */
  datatype Call = Start(attempt: Attempt) | Stop

  /** What the kernel does with socket() and connect(), and what the error callback then does. */
  datatype Attempt = NoSocket(reaction: seq<Call>) | RefusedAtOnce(reaction: seq<Call>) | InProgress

  /** What getsockopt(SO_ERROR) and the self-connect test say on writability. */
  datatype Verdict = SocketError | SelfConnect | Good

  /** Which callbacks are set, and whether attempts have a deadline. */
  datatype Config = Config(onNew: bool, onError: bool, timed: bool)

  /**
   * `starts` counts accepted starts and numbers the attempts; `stops` counts
   * attempts stopped in flight. `armed` is the attempt whose deadline timer is
   * set, `due` the attempt whose deadline is in the batch of timers now running:
   * its callback will run even if the timer is cancelled meanwhile.
   */
  datatype Connector = Connector(
    config: Config, phase: Phase, sockfd: Option<nat>, channel: bool, armed: Option<nat>, due: Option<nat>,
    sockets: nat, delivered: seq<nat>, closed: seq<nat>,
    starts: nat, successes: nat, errors: nat, stops: nat)

  function Initial(config: Config): Connector {
    Connector(config, Disconnected, None, false, None, None, 0, [], [], 0, 0, 0, 0)
  }

  // ----- Operations -----

  function CloseSockfd(c: Connector): Connector {
    if c.sockfd.Some? then c.(closed := c.closed + [c.sockfd.value], sockfd := None) else c
  }

  /** cancelTimeout, removeChannel and closeSockfd. */
  function Release(c: Connector): Connector { CloseSockfd(c.(armed := None, channel := false)) }

  function OpenSocket(c: Connector): Connector {
    c.(sockfd := Some(c.sockets), sockets := c.sockets + 1, channel := true)
  }

  /** The attempt failed; its callback comes last and may start again. */
  function Fail(c: Connector, reaction: seq<Call>): Connector
    decreases reaction, 1
  {
    var c1 := Release(c.(phase := Failed, errors := c.errors + 1));
    if c.config.onError then RunCalls(c1, reaction) else c1
  }

  function Connect(c: Connector, a: Attempt): Connector
    decreases a, 0
  {
    match a
    case NoSocket(reaction) => Fail(c, reaction)
    case RefusedAtOnce(reaction) => Fail(OpenSocket(c), reaction)
    case InProgress => OpenSocket(c).(armed := if c.config.timed then Some(c.starts) else None)
  }

  function StartInLoop(c: Connector, a: Attempt): Connector
    decreases a, 1
  {
    if c.phase.Connecting? || c.phase.Connected? then c
    else Connect(c.(phase := Phase.Connecting, starts := c.starts + 1), a)
  }

  function StopInLoop(c: Connector): Connector {
    if c.phase.Connecting? then Release(c.(phase := Disconnected, stops := c.stops + 1))
    else if c.phase.Failed? then c.(phase := Disconnected)
    else c
  }

  function RunCall(c: Connector, call: Call): Connector
    decreases call, 0
  {
    match call
    case Start(a) => StartInLoop(c, a)
    case Stop => StopInLoop(c)
  }

  function RunCalls(c: Connector, calls: seq<Call>): Connector
    decreases calls, 0
  {
    if calls == [] then c else RunCalls(RunCall(c, calls[0]), calls[1..])
  }

  /** The descriptor leaves the connector before the callback sees it. */
  function FinishConnect(c: Connector, reaction: seq<Call>): Connector {
    var c1 := c.(armed := None, channel := false, sockfd := None, phase := Connected, successes := c.successes + 1);
    if c.sockfd.None? then c1
    else if c.config.onNew then RunCalls(c1.(delivered := c.delivered + [c.sockfd.value]), reaction)
    else c1.(closed := c.closed + [c.sockfd.value])
  }

  function HandleWrite(c: Connector, v: Verdict, reaction: seq<Call>): Connector {
    if !c.phase.Connecting? then c
    else if v.Good? then FinishConnect(c, reaction)
    else Fail(c, reaction)
  }

  /** handleError and handleTimeout: they fail whatever attempt is in flight. */
  function HandleFailure(c: Connector, reaction: seq<Call>): Connector {
    if c.phase.Connecting? then Fail(c, reaction) else c
  }

  // ----- Runs -----

  datatype Event =
    | Called(call: Call)
    | Writable(v: Verdict, reaction: seq<Call>)
    | Error(reaction: seq<Call>)
    | Expire
    | Timeout(reaction: seq<Call>)

  /** A batch of timers begins with the armed deadline in it; later in the batch its callback runs. */
  function Step(c: Connector, e: Event): Connector {
    match e
    case Called(call) => RunCall(c, call)
    case Writable(v, reaction) => HandleWrite(c, v, reaction)
    case Error(reaction) => HandleFailure(c, reaction)
    case Expire => if c.due.None? then c.(due := c.armed) else c
    case Timeout(reaction) => if c.due.None? then c else HandleFailure(c.(due := None), reaction)
  }

  function Steps(c: Connector, es: seq<Event>): Connector {
    if es == [] then c else Step(Steps(c, es[..|es| - 1]), es[|es| - 1])
  }

  // ----- Conservation -----

  /** In how many places descriptor `fd` is: held, delivered or closed. */
  ghost function Places(c: Connector, fd: nat): nat {
    (if c.sockfd == Some(fd) then 1 else 0) + multiset(c.delivered)[fd] + multiset(c.closed)[fd]
  }

  /** Every descriptor ever opened is in one place, and no other is anywhere. */
  ghost predicate Accounted(c: Connector) {
    forall fd: nat :: Places(c, fd) == if fd < c.sockets then 1 else 0
  }

  /** Every accepted start has ended one way, but for the one in flight. */
  predicate Counted(c: Connector) {
    c.starts == c.successes + c.errors + c.stops + if c.phase.Connecting? then 1 else 0
  }

  /** Only an attempt in flight holds a descriptor and its channel, or a deadline. */
  predicate Tidy(c: Connector) {
    (c.phase.Connecting? <==> c.sockfd.Some?) && (c.channel <==> c.sockfd.Some?)
    && c.armed == (if c.sockfd.Some? && c.config.timed then Some(c.starts) else None)
    && (c.due.Some? ==> c.due.value <= c.starts)
  }

  ghost predicate Inv(c: Connector) { Accounted(c) && Counted(c) && Tidy(c) }

  /** An attempt under way: between the start and its outcome the descriptor may be missing still. */
  ghost predicate Trying(c: Connector) {
    Accounted(c) && Counted(c) && c.phase.Connecting? && (c.due.Some? ==> c.due.value <= c.starts)
  }

  lemma ReleaseAccounted(c: Connector)
    requires Accounted(c)
    ensures Accounted(Release(c)) && Release(c).sockfd.None? && !Release(c).channel && Release(c).armed.None?
  {
    var r := Release(c);
    forall fd: nat ensures Places(r, fd) == Places(c, fd) {
    }
  }

  lemma OpenAccounted(c: Connector)
    requires Accounted(c) && c.sockfd.None?
    ensures Accounted(OpenSocket(c))
  {
    var r := OpenSocket(c);
    forall fd: nat ensures Places(r, fd) == if fd < r.sockets then 1 else 0 {
      assert Places(c, fd) == if fd < c.sockets then 1 else 0;
    }
  }

  lemma FailInv(c: Connector, reaction: seq<Call>)
    requires Trying(c)
    ensures Inv(Fail(c, reaction))
    decreases reaction, 1
  {
    var c0 := c.(phase := Failed, errors := c.errors + 1);
    assert forall fd: nat :: Places(c0, fd) == Places(c, fd);
    ReleaseAccounted(c0);
    if c.config.onError {
      CallsInv(Release(c0), reaction);
    }
  }

  lemma ConnectInv(c: Connector, a: Attempt)
    requires Trying(c) && c.sockfd.None?
    ensures Inv(Connect(c, a))
    decreases a, 0
  {
    OpenAccounted(c);
    match a
    case NoSocket(reaction) => FailInv(c, reaction);
    case RefusedAtOnce(reaction) => FailInv(OpenSocket(c), reaction);
    case InProgress =>
      var c1 := OpenSocket(c);
      assert forall fd: nat :: Places(Connect(c, a), fd) == Places(c1, fd);
  }

  lemma CallInv(c: Connector, call: Call)
    requires Inv(c)
    ensures Inv(RunCall(c, call))
    decreases call, 0
  {
    match call
    case Start(a) =>
      if !c.phase.Connecting? && !c.phase.Connected? {
        var c1 := c.(phase := Phase.Connecting, starts := c.starts + 1);
        assert forall fd: nat :: Places(c1, fd) == Places(c, fd);
        ConnectInv(c1, a);
      }
    case Stop =>
      var c1 := c.(phase := Disconnected, stops := c.stops + 1);
      assert forall fd: nat :: Places(c1, fd) == Places(c, fd);
      ReleaseAccounted(c1);
      assert forall fd: nat :: Places(c.(phase := Disconnected), fd) == Places(c, fd);
  }

  lemma {:induction false} CallsInv(c: Connector, calls: seq<Call>)
    requires Inv(c)
    ensures Inv(RunCalls(c, calls))
    decreases calls, 0
  {
    if calls != [] {
      CallInv(c, calls[0]);
      CallsInv(RunCall(c, calls[0]), calls[1..]);
    }
  }

  lemma FinishInv(c: Connector, reaction: seq<Call>)
    requires Inv(c) && c.phase.Connecting?
    ensures Inv(FinishConnect(c, reaction))
  {
    var fd0 := c.sockfd.value;
    var c1 := c.(armed := None, channel := false, sockfd := None, phase := Connected, successes := c.successes + 1);
    var given := c1.(delivered := c.delivered + [fd0]);
    var dropped := c1.(closed := c.closed + [fd0]);
    assert forall fd: nat :: Places(given, fd) == Places(c, fd) && Places(dropped, fd) == Places(c, fd);
    if c.config.onNew {
      CallsInv(given, reaction);
    }
  }

  lemma StepInv(c: Connector, e: Event)
    requires Inv(c)
    ensures Inv(Step(c, e))
  {
    match e
    case Called(call) => CallInv(c, call);
    case Writable(v, reaction) =>
      if c.phase.Connecting? {
        if v.Good? { FinishInv(c, reaction); } else { FailInv(c, reaction); }
      }
    case Error(reaction) => if c.phase.Connecting? { FailInv(c, reaction); }
    case Expire => assert forall fd: nat :: Places(Step(c, e), fd) == Places(c, fd);
    case Timeout(reaction) =>
      var c1 := c.(due := None);
      assert forall fd: nat :: Places(c1, fd) == Places(c, fd);
      if c.phase.Connecting? { FailInv(c1, reaction); }
  }

  lemma {:induction false} StepsInv(config: Config, es: seq<Event>)
    ensures Inv(Steps(Initial(config), es))
  {
    if es != [] {
      StepsInv(config, es[..|es| - 1]);
      StepInv(Steps(Initial(config), es[..|es| - 1]), es[|es| - 1]);
    }
  }

  /**
   * Attempts and descriptors are conserved in every run, with callbacks that
   * start and stop from inside: each accepted start has succeeded, failed or
   * been stopped, or is in flight; each opened descriptor is held, was delivered
   * once or was closed once.
   */
  lemma AttemptsConserved(config: Config, es: seq<Event>, fd: nat)
    ensures var c := Steps(Initial(config), es);
      && c.starts == c.successes + c.errors + c.stops + (if c.phase.Connecting? then 1 else 0)
      && Places(c, fd) == (if fd < c.sockets then 1 else 0)
      && (c.sockfd.Some? <==> c.phase.Connecting?)
      && c.armed == (if c.phase.Connecting? && config.timed then Some(c.starts) else None)
      && (!config.onNew ==> c.delivered == [])
  {
    StepsInv(config, es);
    DeliveredIfGood(config, es);
  }

  // ----- Which outcome an event leads to -----

  /** Attempts only end in these ways; what has ended stays ended. */
  predicate Grew(c: Connector, c': Connector) {
    && c'.config == c.config && c'.delivered == c.delivered && c'.successes == c.successes
    && c.errors <= c'.errors && c.stops <= c'.stops && c.closed <= c'.closed && c'.due == c.due
  }

  lemma {:induction false} CallsGrow(c: Connector, calls: seq<Call>)
    ensures Grew(c, RunCalls(c, calls))
    decreases calls, 0
  {
    if calls != [] {
      CallGrows(c, calls[0]);
      CallsGrow(RunCall(c, calls[0]), calls[1..]);
    }
  }

  /** A failure is counted, its descriptor closed, and then the callback runs. */
  lemma FailGrows(c: Connector, reaction: seq<Call>)
    ensures var r := Fail(c, reaction);
      Grew(c, r) && c.errors < r.errors && (c.sockfd.Some? ==> c.sockfd.value in r.closed)
    decreases reaction, 1
  {
    var c1 := Release(c.(phase := Failed, errors := c.errors + 1));
    CallsGrow(c1, reaction);
    if c.sockfd.Some? {
      assert c1.closed[|c.closed|] == c.sockfd.value;
    }
  }

  lemma CallGrows(c: Connector, call: Call)
    ensures Grew(c, RunCall(c, call))
    decreases call, 0
  {
    match call
    case Stop =>
    case Start(a) => ConnectGrows(c.(phase := Phase.Connecting, starts := c.starts + 1), a);
  }

  lemma ConnectGrows(c: Connector, a: Attempt)
    ensures Grew(c, Connect(c, a))
    decreases a, 0
  {
    match a
    case NoSocket(reaction) => FailGrows(c, reaction);
    case RefusedAtOnce(reaction) => FailGrows(OpenSocket(c), reaction);
    case InProgress =>
  }

  /** Writability without an error, on a socket not connected to itself. */
  predicate IsGood(e: Event) { e.Writable? && e.v.Good? }

  /** What fails the attempt in flight: another verdict, an error event, or a deadline in the running batch. */
  predicate IsFailure(c: Connector, e: Event) {
    (e.Writable? && !e.v.Good?) || e.Error? || (e.Timeout? && c.due.Some?)
  }

  /** Once connected, a callback that starts or stops changes nothing. */
  lemma {:induction false} ConnectedStays(c: Connector, calls: seq<Call>)
    requires c.phase.Connected?
    ensures RunCalls(c, calls) == c
    decreases calls, 0
  {
    if calls != [] {
      assert RunCall(c, calls[0]) == if calls[0].Start? then StartInLoop(c, calls[0].attempt) else StopInLoop(c);
      ConnectedStays(c, calls[1..]);
    }
  }

  /** An attempt that ends well: its descriptor is delivered if somebody takes it, and closed otherwise. */
  lemma GoodEnds(c: Connector, e: Event)
    requires Inv(c) && c.phase.Connecting? && IsGood(e)
    ensures var r := Step(c, e);
      && r.phase.Connected? && r.successes == c.successes + 1 && r.errors == c.errors && r.stops == c.stops
      && r.delivered == c.delivered + (if c.config.onNew then [c.sockfd.value] else [])
      && r.closed == c.closed + (if c.config.onNew then [] else [c.sockfd.value])
      && r.config == c.config && r.starts == c.starts && r.due == c.due
  {
    var c1 := c.(armed := None, channel := false, sockfd := None, phase := Connected, successes := c.successes + 1);
    ConnectedStays(c1.(delivered := c.delivered + [c.sockfd.value]), e.reaction);
    assert c.delivered + [] == c.delivered && c.closed + [] == c.closed;
  }

  /** An attempt that ends badly is counted as an error, and one that is stopped is not; both give the descriptor back. */
  lemma BadEnds(c: Connector, e: Event)
    requires Inv(c) && c.phase.Connecting? && (IsFailure(c, e) || e == Called(Stop))
    ensures var r := Step(c, e);
      && Grew(c.(due := r.due), r) && c.sockfd.value in r.closed
      && if e.Called? then r.phase.Disconnected? && r.errors == c.errors && r.stops == c.stops + 1 else c.errors < r.errors
  {
    if e.Called? {
      assert Step(c, e).closed[|c.closed|] == c.sockfd.value;
    } else {
      FailGrows(if e.Timeout? then c.(due := None) else c, e.reaction);
    }
  }

  /** No other event ends an attempt, and no such event does anything without one. */
  lemma OthersEndNothing(c: Connector, e: Event)
    requires Inv(c)
    requires if c.phase.Connecting? then !IsGood(e) && !IsFailure(c, e) && e != Called(Stop) else !e.Called?
    ensures Step(c, e) == c.(due := Step(c, e).due)
  {
    if e.Called? {
      assert RunCall(c, e.call) == StartInLoop(c, e.call.attempt);
    }
  }

  lemma OthersGrow(c: Connector, e: Event)
    requires Inv(c) && !(c.phase.Connecting? && IsGood(e))
    ensures Grew(c.(due := Step(c, e).due), Step(c, e))
  {
    if e.Called? {
      CallGrows(c, e.call);
    } else if c.phase.Connecting? && IsFailure(c, e) {
      BadEnds(c, e);
    } else {
      OthersEndNothing(c, e);
    }
  }

  /** The descriptors of the attempts that a good writability event met, in order. */
  function Met(config: Config, es: seq<Event>): seq<nat> {
    if es == [] then []
    else
      var c, e := Steps(Initial(config), es[..|es| - 1]), es[|es| - 1];
      Met(config, es[..|es| - 1]) + if IsGood(e) && c.sockfd.Some? then [c.sockfd.value] else []
  }

  /**
   * In every run the attempts that succeeded are those met by writability without
   * an error, and their descriptors, in that order, are what was delivered if
   * there is a new-connection callback.
   */
  lemma {:induction false} DeliveredIfGood(config: Config, es: seq<Event>)
    ensures var c := Steps(Initial(config), es);
      && c.config == config && c.successes == |Met(config, es)|
      && c.delivered == if config.onNew then Met(config, es) else []
  {
    if es != [] {
      var c, e := Steps(Initial(config), es[..|es| - 1]), es[|es| - 1];
      DeliveredIfGood(config, es[..|es| - 1]);
      StepsInv(config, es[..|es| - 1]);
      if c.phase.Connecting? && IsGood(e) {
        GoodEnds(c, e);
      } else {
        OthersGrow(c, e);
      }
    }
  }

  // ----- What a callback does -----

  /** The calls a callback makes, as events of their own. */
  function AsEvents(calls: seq<Call>): seq<Event> { seq(|calls|, i requires 0 <= i < |calls| => Called(calls[i])) }

  lemma {:induction false} RunCallsSnoc(c: Connector, calls: seq<Call>, last: Call)
    ensures RunCalls(c, calls + [last]) == RunCall(RunCalls(c, calls), last)
    decreases |calls|
  {
    if calls == [] {
      assert calls + [last] == [last] && [last][1..] == [];
    } else {
      assert (calls + [last])[1..] == calls[1..] + [last] && (calls + [last])[0] == calls[0];
      RunCallsSnoc(RunCall(c, calls[0]), calls[1..], last);
    }
  }

  lemma {:induction false} CallsAreEvents(c: Connector, calls: seq<Call>)
    ensures RunCalls(c, calls) == Steps(c, AsEvents(calls))
    decreases |calls|
  {
    if calls != [] {
      var init, last := calls[..|calls| - 1], calls[|calls| - 1];
      assert calls == init + [last];
      assert AsEvents(calls)[..|calls| - 1] == AsEvents(init);
      CallsAreEvents(c, init);
      RunCallsSnoc(c, init, last);
    }
  }

  /** The same event, with a callback that does nothing. */
  function Quiet(e: Event): Event {
    match e
    case Writable(v, _) => Writable(v, [])
    case Error(_) => Error([])
    case Timeout(_) => Timeout([])
    case Called(Start(NoSocket(_))) => Called(Start(NoSocket([])))
    case Called(Start(RefusedAtOnce(_))) => Called(Start(RefusedAtOnce([])))
    case _ => e
  }

  function ReactionTo(e: Event): seq<Call> {
    match e
    case Writable(_, reaction) => reaction
    case Error(reaction) => reaction
    case Timeout(reaction) => reaction
    case Called(Start(NoSocket(reaction))) => reaction
    case Called(Start(RefusedAtOnce(reaction))) => reaction
    case _ => []
  }

  /** The event fails an attempt: the one in flight, or the one it starts. */
  predicate FailsOne(c: Connector, e: Event) {
    if c.phase.Connecting? then IsFailure(c, e)
    else !c.phase.Connected? && e.Called? && e.call.Start? && !e.call.attempt.InProgress?
  }

  /**
   * The error callback runs once everything is cleaned up, so what it calls is
   * what a caller could have called right after the failure; without a callback
   * nothing follows. A failure that nobody reacts to leaves the connector failed,
   * with nothing held, and free to start again.
   */
  lemma CallbackComesLast(c: Connector, e: Event)
    requires Inv(c) && FailsOne(c, e)
    ensures var quiet := Step(c, Quiet(e));
      && Step(c, e) == Steps(quiet, if c.config.onError then AsEvents(ReactionTo(e)) else [])
      && quiet.phase.Failed? && quiet.errors == c.errors + 1
      && quiet.sockfd.None? && !quiet.channel && quiet.armed.None?
  {
    CallsAreEvents(Step(c, Quiet(e)), ReactionTo(e));
    if e.Called? {
      StartFails(c, e.call.attempt, ReactionTo(e));
      StartFails(c, Quiet(e).call.attempt, []);
    }
  }

  lemma StartFails(c: Connector, a: Attempt, reaction: seq<Call>)
    requires !c.phase.Connecting? && !c.phase.Connected? && (a == NoSocket(reaction) || a == RefusedAtOnce(reaction))
    ensures var c1 := c.(phase := Phase.Connecting, starts := c.starts + 1);
      Step(c, Called(Start(a))) == Fail(if a.NoSocket? then c1 else OpenSocket(c1), reaction)
  {
    var c1 := c.(phase := Phase.Connecting, starts := c.starts + 1);
    assert RunCall(c, Start(a)) == StartInLoop(c, a);
    assert StartInLoop(c, a) == Connect(c1, a);
  }

  /** stop() leaves no failure behind, and does nothing to a connection made. */
  lemma StopResets(c: Connector)
    requires Inv(c)
    ensures var r := Step(c, Called(Stop));
      if c.phase.Connected? then r == c else r.phase.Disconnected? && r.sockfd.None? && r.armed.None? && r.errors == c.errors
  {
  }

  /** A deadline in the running batch stays due until its callback runs, whatever is started or stopped. */
  lemma DueUntilRun(c: Connector, e: Event)
    requires Inv(c) && c.due.Some? && !e.Timeout?
    ensures Step(c, e).due == c.due
  {
    match e
    case Called(call) => CallGrows(c, call);
    case Writable(v, reaction) =>
      if c.phase.Connecting? {
        if v.Good? { GoodEnds(c, e); } else { FailGrows(c, reaction); }
      }
    case Error(reaction) => FailGrows(c, reaction);
    case Expire =>
  }

  // ----- Whose deadline it is -----

  /** While attempt `n` is in flight, only its own deadline is due. */
  predicate OwnDeadline(c: Connector, n: nat) {
    c.starts > n || (c.starts == n && (c.phase.Connecting? ==> c.due.None? || c.due.value == n))
  }

  lemma {:induction false} CallsKeepDeadline(c: Connector, calls: seq<Call>, n: nat)
    requires OwnDeadline(c, n)
    ensures OwnDeadline(RunCalls(c, calls), n)
    decreases calls, 0
  {
    if calls != [] {
      CallKeepsDeadline(c, calls[0], n);
      CallsKeepDeadline(RunCall(c, calls[0]), calls[1..], n);
    }
  }

  lemma FailKeepsDeadline(c: Connector, reaction: seq<Call>, n: nat)
    requires c.starts >= n
    ensures OwnDeadline(Fail(c, reaction), n)
    decreases reaction, 1
  {
    CallsKeepDeadline(Release(c.(phase := Failed, errors := c.errors + 1)), reaction, n);
  }

  lemma ConnectKeepsDeadline(c: Connector, a: Attempt, n: nat)
    requires c.starts > n
    ensures OwnDeadline(Connect(c, a), n)
    decreases a, 0
  {
    match a
    case NoSocket(reaction) => FailKeepsDeadline(c, reaction, n);
    case RefusedAtOnce(reaction) => FailKeepsDeadline(OpenSocket(c), reaction, n);
    case InProgress =>
  }

  lemma CallKeepsDeadline(c: Connector, call: Call, n: nat)
    requires OwnDeadline(c, n)
    ensures OwnDeadline(RunCall(c, call), n)
    decreases call, 0
  {
    match call
    case Stop =>
    case Start(a) =>
      if !c.phase.Connecting? && !c.phase.Connected? {
        ConnectKeepsDeadline(c.(phase := Phase.Connecting, starts := c.starts + 1), a, n);
      }
  }

  lemma FinishKeepsDeadline(c: Connector, reaction: seq<Call>, n: nat)
    requires OwnDeadline(c, n) && c.sockfd.Some?
    ensures OwnDeadline(FinishConnect(c, reaction), n)
  {
    var c1 := c.(armed := None, channel := false, sockfd := None, phase := Connected, successes := c.successes + 1);
    CallsKeepDeadline(c1.(delivered := c.delivered + [c.sockfd.value]), reaction, n);
  }

  lemma StepKeepsDeadline(c: Connector, e: Event, n: nat)
    requires Inv(c) && OwnDeadline(c, n)
    ensures OwnDeadline(Step(c, e), n)
  {
    match e
    case Called(call) => CallKeepsDeadline(c, call, n);
    case Writable(v, reaction) =>
      if c.phase.Connecting? {
        FinishKeepsDeadline(c, reaction, n);
        FailKeepsDeadline(c, reaction, n);
      }
    case Error(reaction) => FailKeepsDeadline(c, reaction, n);
    case Expire =>
    case Timeout(reaction) => FailKeepsDeadline(c.(due := None), reaction, n);
  }

  lemma {:induction false} StepsKeepDeadline(c: Connector, es: seq<Event>, n: nat)
    requires Inv(c) && OwnDeadline(c, n)
    ensures Inv(Steps(c, es)) && OwnDeadline(Steps(c, es), n)
  {
    if es != [] {
      StepsKeepDeadline(c, es[..|es| - 1], n);
      StepInv(Steps(c, es[..|es| - 1]), es[|es| - 1]);
      StepKeepsDeadline(Steps(c, es[..|es| - 1]), es[|es| - 1], n);
    }
  }

  /** In no run is the attempt just started met by the deadline of another. */
  ghost predicate SafeFromOthers(c: Connector) {
    forall es :: var r := Steps(c, es);
      r.starts == c.starts && r.phase.Connecting? && r.due.Some? ==> r.due.value == c.starts
  }

  /**
   * A deadline is cancelled with its attempt, but one that is already in the
   * running batch of timers still calls handleTimeout, which fails whatever
   * attempt is in flight. So start() is safe from earlier deadlines exactly when
   * none is still to run in the batch.
   */
  lemma StartIsSafeIff(c: Connector)
    requires Inv(c) && (c.phase.Disconnected? || c.phase.Failed?)
    ensures SafeFromOthers(StartInLoop(c, InProgress)) <==> c.due.None?
    ensures c.due.Some? ==> Step(StartInLoop(c, InProgress), Timeout([])).phase.Failed?
  {
    var c1 := StartInLoop(c, InProgress);
    CallInv(c, Start(InProgress));
    if c.due.None? {
      forall es ensures var r := Steps(c1, es);
        r.starts == c1.starts && r.phase.Connecting? && r.due.Some? ==> r.due.value == c1.starts
      {
        StepsKeepDeadline(c1, es, c1.starts);
      }
    } else {
      assert Steps(c1, []) == c1;
    }
  }

  /** A timer callback stops and starts again in the batch where the first deadline is due: the second attempt fails. */
  lemma StaleDeadlineFailsRetry(config: Config)
    requires config.timed
    ensures var es := [Called(Start(InProgress)), Expire, Called(Stop), Called(Start(InProgress)), Timeout([])];
      var before, after := Steps(Initial(config), es[..4]), Steps(Initial(config), es);
      before.phase.Connecting? && before.armed == Some(2) && before.due == Some(1) && after.phase.Failed?
  {
    var es := [Called(Start(InProgress)), Expire, Called(Stop), Called(Start(InProgress)), Timeout([])];
    var c := Initial(config);
    var c1 := Step(c, es[0]);
    assert es[..1][..0] == [] && Steps(c, es[..1]) == c1;
    assert es[..2][..1] == es[..1] && Steps(c, es[..2]) == Step(c1, es[1]);
    assert es[..3][..2] == es[..2] && Steps(c, es[..3]) == Step(Step(c1, es[1]), es[2]);
    assert es[..4][..3] == es[..3] && es[..5][..4] == es[..4] && es[..5] == es;
  }
}

/** Connector's handlers updating its fields, against the machine. */
module Connectors {
  import opened Bytes
  import M = Connecting

  class Connector {
    const config: M.Config
    var phase: M.Phase
    var sockfd: Option<nat>
    var channel: bool
    var armed: Option<nat>
    var due: Option<nat>
    ghost var sockets: nat
    ghost var delivered: seq<nat>
    ghost var closed: seq<nat>
    var starts: nat
    ghost var successes: nat
    ghost var errors: nat
    ghost var stops: nat
    var nextFd: nat

    ghost function State(): M.Connector
      reads this
    {
      M.Connector(config, phase, sockfd, channel, armed, due, sockets, delivered, closed, starts, successes, errors, stops)
    }

    /** The kernel hands out descriptors; they are numbered in order. */
    ghost predicate Valid()
      reads this
    {
      nextFd == sockets && M.Inv(State())
    }

    constructor (config: M.Config)
      ensures Valid() && State() == M.Initial(config)
    {
      this.config := config;
      phase, sockfd, channel, armed, due, nextFd := M.Disconnected, None, false, None, None, 0;
      sockets, delivered, closed, starts, successes, errors, stops := 0, [], [], 0, 0, 0, 0;
    }

    method Release()
      modifies `sockfd, `channel, `armed, `closed
      ensures State() == M.Release(old(State()))
    {
      armed := None;
      channel := false;
      if sockfd.Some? {
        closed := closed + [sockfd.value];
        sockfd := None;
      }
    }

    method Fail(reaction: seq<M.Call>)
      requires nextFd == sockets
      modifies this
      ensures nextFd == sockets && State() == M.Fail(old(State()), reaction)
      decreases reaction, 1
    {
      phase := M.Failed;
      errors := errors + 1;
      Release();
      if config.onError {
        RunCalls(reaction);
      }
    }

    method OpenSocket()
      requires nextFd == sockets
      modifies `sockfd, `channel, `nextFd, `sockets
      ensures nextFd == sockets && State() == M.OpenSocket(old(State()))
    {
      sockfd := Some(nextFd);
      nextFd, sockets := nextFd + 1, sockets + 1;
      channel := true;
    }

    method Connect(a: M.Attempt)
      requires nextFd == sockets
      modifies this
      ensures nextFd == sockets && State() == M.Connect(old(State()), a)
      decreases a, 0
    {
      match a
      case NoSocket(reaction) => Fail(reaction);
      case RefusedAtOnce(reaction) =>
        OpenSocket();
        Fail(reaction);
      case InProgress =>
        OpenSocket();
        armed := if config.timed then Some(starts) else None;
    }

    method StartInLoop(a: M.Attempt)
      requires nextFd == sockets
      modifies this
      ensures nextFd == sockets && State() == M.StartInLoop(old(State()), a)
      decreases a, 1
    {
      if phase.Connecting? || phase.Connected? {
        return;
      }
      phase := M.Phase.Connecting;
      starts := starts + 1;
      Connect(a);
    }

    method StopInLoop()
      modifies this
      ensures nextFd == old(nextFd) && State() == M.StopInLoop(old(State()))
    {
      if phase.Connecting? {
        phase := M.Disconnected;
        stops := stops + 1;
        Release();
      } else if phase.Failed? {
        phase := M.Disconnected;
      }
    }

    method RunCall(call: M.Call)
      requires nextFd == sockets
      modifies this
      ensures nextFd == sockets && State() == M.RunCall(old(State()), call)
      decreases call, 0
    {
      match call
      case Start(a) => StartInLoop(a);
      case Stop => StopInLoop();
    }

    /** The calls a callback makes, one after the other. */
    method RunCalls(calls: seq<M.Call>)
      requires nextFd == sockets
      modifies this
      ensures nextFd == sockets && State() == M.RunCalls(old(State()), calls)
      decreases calls, 0
    {
      ghost var c := State();
      var i := 0;
      while i < |calls|
        invariant 0 <= i <= |calls| && nextFd == sockets
        invariant M.RunCalls(c, calls) == M.RunCalls(State(), calls[i..])
      {
        assert calls[i..][1..] == calls[i + 1..];
        RunCall(calls[i]);
        i := i + 1;
      }
    }

    method FinishConnect(reaction: seq<M.Call>)
      requires nextFd == sockets && sockfd.Some?
      modifies this
      ensures nextFd == sockets && State() == M.FinishConnect(old(State()), reaction)
    {
      armed := None;
      channel := false;
      var fd := sockfd.value;
      sockfd := None;
      phase := M.Connected;
      successes := successes + 1;
      if config.onNew {
        delivered := delivered + [fd];
        RunCalls(reaction);
      } else {
        closed := closed + [fd];
      }
    }

    method HandleWrite(v: M.Verdict, reaction: seq<M.Call>)
      requires Valid()
      modifies this
      ensures Valid() && State() == M.Step(old(State()), M.Writable(v, reaction))
    {
      M.StepInv(State(), M.Writable(v, reaction));
      if !phase.Connecting? {
        return;
      }
      if v.Good? {
        FinishConnect(reaction);
      } else {
        Fail(reaction);
      }
    }

    method HandleError(reaction: seq<M.Call>)
      requires Valid()
      modifies this
      ensures Valid() && State() == M.Step(old(State()), M.Error(reaction))
    {
      M.StepInv(State(), M.Error(reaction));
      if phase.Connecting? {
        Fail(reaction);
      }
    }

    /** A batch of timers begins; the deadline is in it if it has expired. */
    method TimersBegin()
      requires Valid()
      modifies `due
      ensures Valid() && State() == M.Step(old(State()), M.Expire)
    {
      M.StepInv(State(), M.Expire);
      if due.None? {
        due := armed;
      }
    }

    /** The callback of the deadline timer in the running batch. */
    method HandleTimeout(reaction: seq<M.Call>)
      requires Valid() && due.Some?
      modifies this
      ensures Valid() && State() == M.Step(old(State()), M.Timeout(reaction))
    {
      M.StepInv(State(), M.Timeout(reaction));
      due := None;
      if phase.Connecting? {
        Fail(reaction);
      }
    }

    method Start(a: M.Attempt)
      requires Valid()
      modifies this
      ensures Valid() && State() == M.Step(old(State()), M.Called(M.Start(a)))
    {
      M.StepInv(State(), M.Called(M.Start(a)));
      StartInLoop(a);
    }

    method Stop()
      requires Valid()
      modifies this
      ensures Valid() && State() == M.Step(old(State()), M.Called(M.Stop))
    {
      M.StepInv(State(), M.Called(M.Stop));
      StopInLoop();
    }
  }
}
