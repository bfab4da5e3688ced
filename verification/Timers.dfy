/**
 * The timer queue as a state machine. Timers live at addresses that are reused
 * after they are freed; a handle is an address and a sequence number that is
 * never reused. Callbacks run one by one inside a batch, and whatever they add
 * or cancel happens between those steps.
 */
module Timers {
  import opened Bytes

  datatype TimerId = TimerId(addr: nat, sequence: nat)

  /** `interval` is in microseconds, after the conversion in `Timestamp::operator+=`. */
  datatype Timer = Timer(sequence: nat, expiration: int, repeat: bool, interval: nat)

  /** The kernel timer: `since` is when it was last set, `deadline` when it goes or went off. */
  datatype Fd = Idle | Armed(deadline: int, since: int) | Fired(deadline: int, since: int)

  /** Work posted to the loop. */
  datatype Task = InsertTask(id: TimerId) | CancelTask(id: TimerId, retry: bool)

  /**
   * `mem` holds the live timers, `issued` every handle ever made. `heap` and
   * `active` are timers_ and activeTimers_. While `running`, `batch` is the
   * expired vector and `next` the callback to run; `freed` and `ran` are logs.
   */
  datatype Queue = Queue(
    mem: map<nat, Timer>, issued: seq<TimerId>,
    heap: set<TimerId>, active: set<TimerId>,
    running: bool, batch: seq<TimerId>, next: nat, batchTime: int,
    expired: set<TimerId>, canceling: set<TimerId>,
    tasks: seq<Task>, fd: Fd, now: int,
    ran: seq<TimerId>, freed: seq<TimerId>)

  const EMPTY := Queue(map[], [], {}, {}, false, [], 0, 0, {}, {}, [], Idle, 1, [], [])

  function Exp(q: Queue, id: TimerId): int { if id.addr in q.mem then q.mem[id.addr].expiration else 0 }

  predicate Live(q: Queue, id: TimerId) { id.addr in q.mem && q.mem[id.addr].sequence == id.sequence }

  // ----- Arming -----

  const MIN_DELAY: int := 100

  /** howMuchTimeFromNow, in microseconds: never less than 100. */
  function Delay(when: int, now: int): int { if when - now < MIN_DELAY then MIN_DELAY else when - now }

  /** The timespec it is split into: seconds and nanoseconds. */
  function Timespec(us: int): (int, int) { (us / 1000000, us % 1000000 * 1000) }

  lemma TimespecIsDelay(when: int, now: int)
    ensures var (sec, nsec) := Timespec(Delay(when, now));
      && sec * 1000000000 + nsec == (if when - now >= 100 then when - now else 100) * 1000
      && 0 <= nsec < 1000000000 && 0 <= sec
  {
  }

  function Arm(q: Queue, when: int, t: int): Queue { q.(fd := Armed(t + Delay(when, t), t)) }

  // ----- Operations -----

  /** Is `when` earlier than everything in the heap? */
  predicate Earliest(q: Queue, when: int) { forall x :: x in q.heap ==> when < Exp(q, x) }

  function Insert(q: Queue, id: TimerId, t: int): Queue {
    var q1 := q.(heap := q.heap + {id}, active := q.active + {id});
    if Earliest(q, Exp(q, id)) then Arm(q1, Exp(q, id), t) else q1
  }

  /** `new Timer`: the constructor bumps the global sequence. */
  function Allocate(q: Queue, addr: nat, when: int, repeat: bool, interval: nat): Queue {
    var n := |q.issued| + 1;
    q.(mem := q.mem[addr := Timer(n, when, repeat, interval)], issued := q.issued + [TimerId(addr, n)])
  }

  /** `delete` of whatever timer is at this address now. */
  function Free(q: Queue, addr: nat): Queue {
    if addr in q.mem then
      q.(mem := q.mem - {addr}, freed := q.freed + [TimerId(addr, q.mem[addr].sequence)])
    else q
  }

  function CancelInLoop(q: Queue, id: TimerId, retry: bool): Queue {
    if id in q.active then
      Free(q.(active := q.active - {id}, heap := set x | x in q.heap && x.addr != id.addr), id.addr)
    else if q.running && id in q.expired then q.(canceling := q.canceling + {id})
    else if retry then q.(tasks := q.tasks + [CancelTask(id, false)])
    else q
  }

  /** One round of reset's loop. */
  function ResetOne(q: Queue, t: int): (q': Queue)
    requires q.batch != []
    ensures q'.batch == q.batch[1..]
  {
    var id := q.batch[0];
    var q1 := q.(batch := q.batch[1..]);
    if id in q.canceling then Free(q1.(canceling := q.canceling - {id}), id.addr)
    else if id.addr in q.mem && q.mem[id.addr].repeat then
      Insert(q1.(mem := q.mem[id.addr := q.mem[id.addr].(expiration := q.batchTime + q.mem[id.addr].interval)]), id, t)
    else Free(q1, id.addr)
  }

  function ResetAll(q: Queue, t: int): Queue
    decreases |q.batch|
  {
    if q.batch == [] then q else ResetAll(ResetOne(q, t), t)
  }

  /** `id` is at the front of the heap. */
  predicate IsFront(q: Queue, id: TimerId) { id in q.heap && forall x :: x in q.heap ==> Exp(q, id) <= Exp(q, x) }

  /** The end of reset: re-arm for the front if it is a valid time, and leave the batch. */
  function FinishBatch(q: Queue, front: Option<TimerId>, t: int): Queue {
    var q1 := if front.Some? && Exp(q, front.value) > 0 then Arm(q, Exp(q, front.value), t) else q;
    q1.(running := false, next := 0, expired := {})
  }

  // ----- Events -----

  datatype Event =
    | AddLocal(addr: nat, when: int, repeat: bool, interval: nat)
    | AddRemote(addr: nat, when: int, repeat: bool, interval: nat)
    | CancelLocal(id: TimerId)
    | CancelRemote(id: TimerId)
    | RunTask
    | Fire
    | Begin(batch: seq<TimerId>)
    | Callback
    | End(front: Option<TimerId>)

  predicate Due(q: Queue, id: TimerId, t: int) { id in q.heap && Exp(q, id) <= t }

  /** getExpired: exactly the timers due, earliest first. */
  ghost predicate IsBatch(q: Queue, batch: seq<TimerId>, t: int) {
    && Distinct(batch) && (forall id :: id in batch <==> Due(q, id, t))
    && forall i, j :: 0 <= i < j < |batch| ==> Exp(q, batch[i]) <= Exp(q, batch[j])
  }

  /** What can happen at time `t`. The clock is monotonic and positive; a cancelled handle was issued before. */
  ghost predicate Enabled(q: Queue, e: Event, t: int) {
    && q.now <= t
    && match e
       case AddLocal(addr, _, _, _) => addr !in q.mem
       case AddRemote(addr, _, _, _) => addr !in q.mem
       case CancelLocal(id) => id.sequence <= |q.issued|
       case CancelRemote(id) => id.sequence <= |q.issued|
       case RunTask => !q.running && q.tasks != []
       case Fire => q.fd.Armed? && q.fd.deadline <= t
       case Begin(batch) => !q.running && IsBatch(q, batch, t)
       case Callback => q.running && q.next < |q.batch|
       case End(front) =>
         q.running && q.next == |q.batch|
         && var q1 := ResetAll(q.(now := t), t); if front.Some? then IsFront(q1, front.value) else q1.heap == {}
  }

  function RunFirstTask(q: Queue, t: int): Queue
    requires q.tasks != []
  {
    var q1 := q.(tasks := q.tasks[1..]);
    match q.tasks[0]
    case InsertTask(id) => Insert(q1, id, t)
    case CancelTask(id, retry) => CancelInLoop(q1, id, retry)
  }

  function Ids(s: seq<TimerId>): set<TimerId> { set id | id in s }

  /** handleRead up to the callbacks. The read drains a timer that went off; an event overtaken by a re-arm reads nothing. */
  function StartBatch(q: Queue, batch: seq<TimerId>, t: int): Queue {
    var ids := Ids(batch);
    q.(heap := q.heap - ids, active := q.active - ids, running := true, batch := batch, next := 0,
       batchTime := t, expired := ids, fd := if q.fd.Fired? then Idle else q.fd)
  }

  ghost function Apply(q0: Queue, e: Event, t: int): Queue
    requires Enabled(q0, e, t)
  {
    var q := q0.(now := t);
    match e
    case AddLocal(addr, when, repeat, interval) =>
      Insert(Allocate(q, addr, when, repeat, interval), TimerId(addr, |q.issued| + 1), t)
    case AddRemote(addr, when, repeat, interval) =>
      Allocate(q, addr, when, repeat, interval).(tasks := q.tasks + [InsertTask(TimerId(addr, |q.issued| + 1))])
    case CancelLocal(id) => CancelInLoop(q, id, true)
    case CancelRemote(id) => q.(tasks := q.tasks + [CancelTask(id, true)])
    case RunTask => RunFirstTask(q, t)
    case Fire => q.(fd := Fired(q.fd.deadline, q.fd.since))
    case Begin(batch) => StartBatch(q, batch, t)
    case Callback => q.(ran := q.ran + [q.batch[q.next]], next := q.next + 1)
    case End(front) => FinishBatch(ResetAll(q, t), front, t)
  }

  datatype Timed = Timed(e: Event, t: int)

  ghost predicate CanRun(q: Queue, es: seq<Timed>)
    decreases |es|
  {
    es == [] || (Enabled(q, es[0].e, es[0].t) && CanRun(Apply(q, es[0].e, es[0].t), es[1..]))
  }

  ghost function RunAll(q: Queue, es: seq<Timed>): Queue
    requires CanRun(q, es)
    decreases |es|
  {
    if es == [] then q else RunAll(Apply(q, es[0].e, es[0].t), es[1..])
  }

  // ----- Ownership -----

  /** In how many places a timer is: heap, current batch, a pending insert, or freed. */
  ghost function Places(q: Queue, id: TimerId): nat {
    multiset(q.heap)[id] + multiset(q.batch)[id] + multiset(q.tasks)[InsertTask(id)] + multiset(q.freed)[id]
  }

  ghost predicate Owned(q: Queue) {
    && (forall id :: Places(q, id) == multiset(q.issued)[id])
    && (forall id :: (if Live(q, id) then 1 else 0) + multiset(q.freed)[id] == multiset(q.issued)[id])
    && (forall i :: 0 <= i < |q.issued| ==> q.issued[i].sequence == i + 1)
  }

  lemma IssuedOnce(q: Queue, id: TimerId)
    requires forall i :: 0 <= i < |q.issued| ==> q.issued[i].sequence == i + 1
    ensures multiset(q.issued)[id] <= 1
    ensures id in q.issued ==> 1 <= id.sequence <= |q.issued|
    ensures multiset(q.issued)[id] == 1 <==> id in q.issued
  {
    AtMostOnce(q.issued, id);
  }

  lemma {:induction false} AtMostOnce(s: seq<TimerId>, id: TimerId)
    requires forall i, j :: 0 <= i < j < |s| ==> s[i] != s[j]
    ensures multiset(s)[id] <= 1
  {
    if s != [] {
      var init, last := s[..|s| - 1], s[|s| - 1];
      assert s == init + [last];
      AtMostOnce(init, id);
    }
  }

  /** A timer in the heap, the batch or a pending insert is live and nowhere else. */
  lemma Located(q: Queue, id: TimerId)
    requires Owned(q)
    requires id in q.heap || id in q.batch || InsertTask(id) in q.tasks
    ensures Live(q, id) && id in q.issued && id !in q.freed && id.sequence <= |q.issued|
    ensures multiset(q.heap)[id] + multiset(q.batch)[id] + multiset(q.tasks)[InsertTask(id)] == 1
  {
    IssuedOnce(q, id);
    assert Places(q, id) == multiset(q.issued)[id];
    assert id in q.heap ==> multiset(q.heap)[id] == 1;
    assert id in q.batch ==> multiset(q.batch)[id] >= 1;
    assert InsertTask(id) in q.tasks ==> multiset(q.tasks)[InsertTask(id)] >= 1;
  }
}
