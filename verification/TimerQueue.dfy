/**
 * TimerQueue with its own containers: a heap in a vector, the ordered set of
 * active handles, the batch and its sets. A Timer pointer stands together with
 * the constant sequence number of the timer it points to.
 */
module TimerQueues {
  import opened Bytes
  import opened Timers
  import opened TimerProofs
  import opened TimerTheorems
  import Heap

  function Expiration(mem: map<nat, Timer>): TimerId -> int {
    (id: TimerId) => if id.addr in mem then mem[id.addr].expiration else 0
  }

  lemma SameKeys(h: seq<TimerId>, k: TimerId -> int, k': TimerId -> int)
    requires Heap.IsHeap(h, k) && forall i :: 0 <= i < |h| ==> k(h[i]) == k'(h[i])
    ensures Heap.IsHeap(h, k')
  {
    forall i | 0 < i < |h| ensures Heap.Ordered(h, k', i) {
      assert Heap.Ordered(h, k, i);
    }
  }

  lemma TwiceCounts(h: seq<TimerId>, i: nat, j: nat)
    requires i < j < |h| && h[i] == h[j]
    ensures multiset(h)[h[i]] >= 2
  {
    assert h == h[..j] + ([h[j]] + h[j + 1..]);
    assert h[i] == h[..j][i];
    assert h[i] in multiset(h[..j]);
  }

  /** Rearranging a vector of different timers. */
  lemma Rearranged(v: seq<TimerId>, h: seq<TimerId>)
    requires Distinct(v) && multiset(h) == multiset(v)
    ensures Distinct(h) && Ids(h) == Ids(v)
  {
    forall i, j | 0 <= i < j < |h| ensures h[i] != h[j] {
      AtMostOnce(v, h[i]);
      if h[i] == h[j] {
        TwiceCounts(h, i, j);
      }
    }
    forall x ensures x in Ids(h) <==> x in Ids(v) {
      assert x in h <==> x in multiset(h);
      assert x in v <==> x in multiset(v);
    }
  }

  lemma PopSplits(v: seq<TimerId>, h: seq<TimerId>, front: TimerId)
    requires Distinct(v) && multiset(h) + multiset{front} == multiset(v)
    ensures Distinct([front] + h) && Ids(v) == Ids(h) + {front}
  {
    assert multiset([front] + h) == multiset(v);
    Rearranged(v, [front] + h);
    assert Ids([front] + h) == Ids(h) + {front};
  }

  lemma TailDistinct(front: TimerId, h: seq<TimerId>)
    requires Distinct([front] + h)
    ensures Distinct(h)
  {
    assert forall k :: 0 <= k < |h| ==> h[k] == ([front] + h)[k + 1];
  }

  /** `due` has been popped off a heap of the timers `all`; `rest` is what is left. */
  ghost predicate Popped(all: set<TimerId>, key: TimerId -> int, t: int, rest: seq<TimerId>, due: seq<TimerId>) {
    && Distinct(due) && Ids(rest) == all - Ids(due) && Ids(due) <= all
    && (forall i :: 0 <= i < |due| ==> key(due[i]) <= t)
    && (forall i, j :: 0 <= i < |due| && 0 <= j < |rest| ==> key(due[i]) <= key(rest[j]))
    && (forall i, j :: 0 <= i < j < |due| ==> key(due[i]) <= key(due[j]))
  }

  lemma PopStep(all: set<TimerId>, key: TimerId -> int, t: int, v: seq<TimerId>, h: seq<TimerId>, due: seq<TimerId>)
    requires Popped(all, key, t, v, due) && v != [] && key(v[0]) <= t
    requires Distinct([v[0]] + h) && Ids(v) == Ids(h) + {v[0]}
    requires forall i :: 0 <= i < |v| ==> key(v[0]) <= key(v[i])
    ensures Popped(all, key, t, h, due + [v[0]])
  {
    var front, due' := v[0], due + [v[0]];
    assert front in Ids(v);
    assert Ids(due') == Ids(due) + {front};
    assert front !in Ids(h) by {
      forall k | 0 <= k < |h| ensures h[k] != front {
        assert ([front] + h)[k + 1] == h[k] && ([front] + h)[0] == front;
      }
    }
    forall i, j | 0 <= i < |due'| && 0 <= j < |h| ensures key(due'[i]) <= key(h[j]) {
      assert h[j] in Ids(h) && h[j] in Ids(v);
      var k :| 0 <= k < |v| && v[k] == h[j];
    }
  }

  lemma PoppedIsBatch(q: Queue, t: int, rest: seq<TimerId>, due: seq<TimerId>)
    requires Popped(q.heap, Expiration(q.mem), t, rest, due)
    requires forall i :: 0 <= i < |rest| ==> Expiration(q.mem)(rest[i]) > t
    ensures IsBatch(q, due, t)
  {
    forall x ensures x in due <==> Due(q, x, t) {
      assert x in Ids(due) || x in Ids(rest) || x !in q.heap;
    }
  }

  lemma SameBatch(q: Queue, due: seq<TimerId>, t: int)
    requires IsBatch(q.(now := t), due, t)
    ensures IsBatch(q, due, t)
  {
  }

  class TimerQueue {
    var mem: map<nat, Timer>
    var timers: seq<TimerId>
    var active: set<TimerId>
    var calling: bool
    var batch: seq<TimerId>
    var next: nat
    var batchTime: int
    var expired: set<TimerId>
    var canceling: set<TimerId>
    var tasks: seq<Task>
    var fd: Fd
    var now: int
    var issued: seq<TimerId>
    ghost var ran: seq<TimerId>
    ghost var freed: seq<TimerId>

    ghost function State(): Queue
      reads this
    {
      Queue(mem, issued, Ids(timers), active, calling, batch, next, batchTime, expired, canceling,
            tasks, fd, now, ran, freed)
    }

    /** The vector is a heap of different timers. */
    ghost predicate Shape()
      reads this
    {
      Distinct(timers) && Heap.IsHeap(timers, Expiration(mem))
    }

    ghost predicate Valid()
      reads this
    {
      Shape() && Always(State())
    }

    constructor ()
      ensures Valid() && State() == EMPTY
    {
      mem, timers, active, calling, batch, next, batchTime := map[], [], {}, false, [], 0, 0;
      expired, canceling, tasks, fd, now, issued, ran, freed := {}, {}, [], Idle, 1, [], [], [];
      new;
      EmptyAlways();
    }

    lemma LeastFront()
      requires Shape() && timers != []
      ensures forall i :: 0 <= i < |timers| ==> Expiration(mem)(timers[0]) <= Expiration(mem)(timers[i])
    {
      forall i | 0 <= i < |timers| ensures Expiration(mem)(timers[0]) <= Expiration(mem)(timers[i]) {
        Heap.FrontIsLeast(timers, Expiration(mem), i);
      }
    }

    /** The front of the vector is a front of the queue. */
    lemma FrontOfHeap()
      requires Shape() && timers != []
      ensures IsFront(State(), timers[0])
    {
      forall x | x in Ids(timers) ensures Exp(State(), timers[0]) <= Exp(State(), x) {
        var i :| 0 <= i < |timers| && timers[i] == x;
        LeastFront();
      }
    }

    method ResetTimerfd(when: int, t: int)
      modifies `fd
      ensures State() == Arm(old(State()), when, t)
    {
      fd := Armed(t + Delay(when, t), t);
    }

    method Insert(id: TimerId, t: int) returns (earliestChanged: bool)
      requires Shape() && id !in timers
      modifies `timers, `active, `fd
      ensures Shape() && State() == Timers.Insert(old(State()), id, t)
      ensures earliestChanged == Earliest(old(State()), Exp(old(State()), id))
    {
      earliestChanged := IsEarliest(id);
      Push(id);
      active := active + {id};
      if earliestChanged {
        ResetTimerfd(Expiration(mem)(id), t);
      }
    }

    method IsEarliest(id: TimerId) returns (earliest: bool)
      requires Shape()
      ensures earliest == Earliest(State(), Exp(State(), id))
    {
      if timers == [] {
        return true;
      }
      FrontOfHeap();
      assert timers[0] in Ids(timers);
      return Expiration(mem)(id) < Expiration(mem)(timers[0]);
    }

    method Push(id: TimerId)
      requires Shape() && id !in timers
      modifies `timers
      ensures Shape() && Ids(timers) == old(Ids(timers)) + {id}
    {
      var v := timers + [id];
      assert v[..|v| - 1] == timers;
      assert Ids(v) == Ids(timers) + {id};
      timers := Heap.PushHeap(v, Expiration(mem));
      Rearranged(v, timers);
    }

    /** `delete timer` */
    method Delete(addr: nat)
      requires Distinct(timers) && (forall x :: x in timers ==> x.addr != addr)
      requires Heap.IsHeap(timers, Expiration(mem))
      modifies `mem, `freed
      ensures Shape() && State() == Free(old(State()), addr)
    {
      if addr in mem {
        freed := freed + [TimerId(addr, mem[addr].sequence)];
        mem := mem - {addr};
        SameKeys(timers, old(Expiration(mem)), Expiration(mem));
      }
    }

    /** std::find, erase and std::make_heap. */
    method EraseFromHeap(addr: nat)
      requires Shape()
      requires forall i, j :: 0 <= i < j < |timers| ==> timers[i].addr != timers[j].addr
      modifies `timers
      ensures Shape() && Ids(timers) == set x | x in old(Ids(timers)) && x.addr != addr
    {
      var i := 0;
      while i < |timers| && timers[i].addr != addr
        invariant i <= |timers| && forall k :: 0 <= k < i ==> timers[k].addr != addr
      {
        i := i + 1;
      }
      if i < |timers| {
        var v := timers[..i] + timers[i + 1..];
        assert forall k :: 0 <= k < |v| ==> v[k] == timers[if k < i then k else k + 1];
        assert Distinct(v);
        forall x ensures x in Ids(v) <==> x in old(Ids(timers)) && x.addr != addr {
          if x in timers && x.addr != addr {
            var k :| 0 <= k < |timers| && timers[k] == x;
            assert v[if k < i then k else k - 1] == x;
          }
        }
        timers := Heap.MakeHeap(v, Expiration(mem));
        Rearranged(v, timers);
      }
    }

    lemma AddressesApart()
      requires Distinct(timers) && Owned(State())
      ensures forall i, j :: 0 <= i < j < |timers| ==> timers[i].addr != timers[j].addr
    {
      forall i, j | 0 <= i < j < |timers| ensures timers[i].addr != timers[j].addr {
        Located(State(), timers[i]);
        Located(State(), timers[j]);
      }
    }

    method CancelInLoop(id: TimerId, retry: bool)
      requires Shape() && Placed(State())
      modifies `mem, `timers, `active, `canceling, `tasks, `freed
      ensures Shape() && State() == Timers.CancelInLoop(old(State()), id, retry)
    {
      if id in active {
        active := active - {id};
        AddressesApart();
        EraseFromHeap(id.addr);
        forall x | x in timers ensures x.addr != id.addr {
          assert x in Ids(timers);
        }
        Delete(id.addr);
      } else if calling && id in expired {
        canceling := canceling + {id};
      } else if retry {
        tasks := tasks + [CancelTask(id, false)];
      }
    }

    /** getExpired: pop while the front is due. */
    method GetExpired(t: int) returns (due: seq<TimerId>)
      requires Shape()
      modifies `timers, `active
      ensures Shape() && IsBatch(old(State()), due, t)
      ensures State() == old(State()).(heap := old(State()).heap - Ids(due), active := old(State()).active - Ids(due))
    {
      due := [];
      ghost var q := State();
      var key := Expiration(mem);
      while timers != [] && key(timers[0]) <= t
        invariant Shape() && Popped(q.heap, key, t, timers, due)
        invariant active == q.active - Ids(due)
        decreases |timers|
      {
        LeastFront();
        ghost var before, due0 := timers, due;
        active := active - {timers[0]};
        var front;
        timers, front := Heap.PopHeap(timers, key);
        PopSplits(before, timers, front);
        PopStep(q.heap, key, t, before, timers, due);
        due := due + [front];
        assert Ids(due) == Ids(due0) + {front};
        TailDistinct(front, timers);
      }
      if timers != [] {
        LeastFront();
      }
      PoppedIsBatch(q, t, timers, due);
    }

    lemma BatchApart(id: TimerId)
      requires Owned(State()) && id in batch
      ensures Live(State(), id) && id !in timers && forall x :: x in timers ==> x.addr != id.addr
    {
      var q := State();
      Located(q, id);
      assert id !in q.heap;
      forall x | x in timers ensures x.addr != id.addr {
        HeapAddresses(q, id, x);
      }
    }

    method Restart(id: TimerId)
      requires Shape() && id.addr in mem && forall x :: x in timers ==> x.addr != id.addr
      modifies `mem
      ensures Shape() && State() == Restarted(old(State()), id)
    {
      mem := mem[id.addr := mem[id.addr].(expiration := batchTime + mem[id.addr].interval)];
      SameKeys(timers, old(Expiration(mem)), Expiration(mem));
    }

    /** The body of reset's loop. */
    method ResetFirst(t: int)
      requires Shape() && Owned(State()) && batch != []
      modifies `mem, `timers, `active, `batch, `canceling, `fd, `freed
      ensures Shape() && State() == Timers.ResetOne(old(State()), t)
    {
      var id := batch[0];
      BatchApart(id);
      ResetOneCases(State(), t);
      batch := batch[1..];
      if id in canceling {
        canceling := canceling - {id};
        Delete(id.addr);
      } else if mem[id.addr].repeat {
        Restart(id);
        var _ := Insert(id, t);
      } else {
        Delete(id.addr);
      }
    }

    method Reset(t: int) returns (front: Option<TimerId>)
      requires Shape() && Owned(State())
      modifies `mem, `timers, `active, `batch, `canceling, `fd, `freed
      ensures var q := ResetAll(old(State()), t);
        && Shape() && (if front.Some? then IsFront(q, front.value) else q.heap == {})
        && State() == if front.Some? && Exp(q, front.value) > 0 then Arm(q, Exp(q, front.value), t) else q
    {
      ghost var q := State();
      while batch != []
        invariant Shape() && Owned(State()) && ResetAll(State(), t) == ResetAll(q, t)
        decreases |batch|
      {
        ResetOneOwned(State(), t);
        ResetFirst(t);
      }
      front := None;
      if timers != [] {
        FrontOfHeap();
        front := Some(timers[0]);
        var when := Expiration(mem)(timers[0]);
        if when > 0 {
          ResetTimerfd(when, t);
        }
      }
    }

    /** `new Timer` at an address that is free. */
    method NewTimer(addr: nat, when: int, repeat: bool, interval: nat) returns (id: TimerId)
      requires Shape() && Owned(State()) && addr !in mem
      modifies `mem, `issued
      ensures Shape() && State() == Allocate(old(State()), addr, when, repeat, interval)
      ensures id == TimerId(addr, |old(issued)| + 1) && id !in timers
    {
      id := TimerId(addr, |issued| + 1);
      forall x | x in timers ensures x.addr != addr {
        Located(State(), x);
      }
      mem := mem[addr := Timer(|issued| + 1, when, repeat, interval)];
      issued := issued + [id];
      SameKeys(timers, old(Expiration(mem)), Expiration(mem));
    }

    method RunTask(t: int)
      requires Shape() && Placed(State()) && tasks != []
      modifies `mem, `timers, `active, `canceling, `tasks, `fd, `freed
      ensures Shape() && State() == RunFirstTask(old(State()), t)
    {
      TakeTask(State());
      var task := tasks[0];
      tasks := tasks[1..];
      match task
      case InsertTask(id) =>
        InHandIsLive(State(), id);
        assert id !in Ids(timers);
        var _ := Insert(id, t);
      case CancelTask(id, retry) => CancelInLoop(id, retry);
    }

    /** handleRead up to the callbacks. */
    method StartBatch(t: int)
      requires Shape()
      modifies `timers, `active, `batch, `next, `batchTime, `expired, `calling, `fd
      ensures Shape() && IsBatch(old(State()), batch, t) && State() == Timers.StartBatch(old(State()), batch, t)
    {
      var due := GetExpired(t);
      EnterBatch(due, t);
    }

    method EnterBatch(due: seq<TimerId>, t: int)
      requires Shape()
      modifies `batch, `next, `batchTime, `expired, `calling, `fd
      ensures Shape() && batch == due
      ensures State() == old(State()).(batch := due, next := 0, batchTime := t, expired := Ids(due), running := true,
        fd := if old(fd).Fired? then Idle else old(fd))
    {
      if fd.Fired? {
        fd := Idle;
      }
      batch, expired := due, Ids(due);
      next, batchTime, calling := 0, t, true;
    }

    /** handleRead after the callbacks. */
    method FinishBatch(t: int) returns (front: Option<TimerId>)
      requires Shape() && Owned(State())
      modifies `mem, `timers, `active, `batch, `canceling, `fd, `freed, `calling, `next, `expired
      ensures Shape() && State() == Timers.FinishBatch(ResetAll(old(State()), t), front, t)
      ensures var q := ResetAll(old(State()), t); if front.Some? then IsFront(q, front.value) else q.heap == {}
    {
      front := Reset(t);
      calling, next, expired := false, 0, {};
    }

    method QueueInLoop(task: Task)
      requires Shape()
      modifies `tasks
      ensures Shape() && State() == old(State()).(tasks := old(State()).tasks + [task])
    {
      tasks := tasks + [task];
    }

    method InsertNew(addr: nat, when: int, repeat: bool, interval: nat, t: int) returns (id: TimerId)
      requires Shape() && Owned(State()) && addr !in mem
      modifies `mem, `issued, `timers, `active, `fd
      ensures id == TimerId(addr, |old(issued)| + 1) && Shape()
      ensures State() == Timers.Insert(Allocate(old(State()), addr, when, repeat, interval), id, t)
    {
      id := NewTimer(addr, when, repeat, interval);
      var _ := Insert(id, t);
    }

    method PostInsert(addr: nat, when: int, repeat: bool, interval: nat) returns (id: TimerId)
      requires Shape() && Owned(State()) && addr !in mem
      modifies `mem, `issued, `tasks
      ensures id == TimerId(addr, |old(issued)| + 1) && Shape()
      ensures State() == Allocate(old(State()), addr, when, repeat, interval).(tasks := old(tasks) + [InsertTask(id)])
    {
      id := NewTimer(addr, when, repeat, interval);
      QueueInLoop(InsertTask(id));
    }

    method RunCallback()
      requires Shape() && next < |batch|
      modifies `ran, `next
      ensures Shape()
      ensures State() == old(State()).(ran := old(State()).ran + [old(batch[next])], next := old(next) + 1)
    {
      ran := ran + [batch[next]];
      next := next + 1;
    }

    method Tick(t: int)
      requires Shape() && Owned(State()) && State().active == State().heap
      modifies `now
      ensures Shape() && Placed(State()) && State() == old(State()).(now := t)
    {
      SamePlacesOwned(State(), State().(now := t));
      now := t;
    }

    // ----- The events -----

    /** addTimer from the loop thread: insert at once. */
    method AddTimer(addr: nat, when: int, repeat: bool, interval: nat, t: int) returns (id: TimerId)
      requires Valid() && Enabled(State(), AddLocal(addr, when, repeat, interval), t)
      modifies this
      ensures Valid() && State() == Apply(old(State()), AddLocal(addr, when, repeat, interval), t)
      ensures id == TimerId(addr, |old(issued)| + 1)
    {
      ghost var q := State();
      Tick(t);
      id := InsertNew(addr, when, repeat, interval, t);
      StepAlways(q, AddLocal(addr, when, repeat, interval), t);
    }

    /** addTimer from another thread: the insert is posted. */
    method PostTimer(addr: nat, when: int, repeat: bool, interval: nat, t: int) returns (id: TimerId)
      requires Valid() && Enabled(State(), AddRemote(addr, when, repeat, interval), t)
      modifies this
      ensures Valid() && State() == Apply(old(State()), AddRemote(addr, when, repeat, interval), t)
      ensures id == TimerId(addr, |old(issued)| + 1)
    {
      ghost var q := State();
      Tick(t);
      id := PostInsert(addr, when, repeat, interval);
      StepAlways(q, AddRemote(addr, when, repeat, interval), t);
    }

    method Cancel(id: TimerId, t: int)
      requires Valid() && Enabled(State(), CancelLocal(id), t)
      modifies this
      ensures Valid() && State() == Apply(old(State()), CancelLocal(id), t)
    {
      StepAlways(State(), CancelLocal(id), t);
      Tick(t);
      CancelInLoop(id, true);
    }

    /** cancel from another thread: posted. */
    method PostCancel(id: TimerId, t: int)
      requires Valid() && Enabled(State(), CancelRemote(id), t)
      modifies this
      ensures Valid() && State() == Apply(old(State()), CancelRemote(id), t)
    {
      ghost var q := State();
      Tick(t);
      QueueInLoop(CancelTask(id, true));
      StepAlways(q, CancelRemote(id), t);
    }

    /** One posted functor. */
    method RunPosted(t: int)
      requires Valid() && Enabled(State(), Event.RunTask, t)
      modifies this
      ensures Valid() && State() == Apply(old(State()), Event.RunTask, t)
    {
      StepAlways(State(), Event.RunTask, t);
      Tick(t);
      RunTask(t);
    }

    method BeginBatch(t: int)
      requires Valid() && !calling && now <= t
      modifies this
      ensures Valid() && IsBatch(old(State()), batch, t) && State() == Apply(old(State()), Begin(batch), t)
    {
      ghost var q := State();
      Tick(t);
      StartBatch(t);
      SameBatch(q, batch, t);
      StepAlways(q, Begin(batch), t);
    }

    /** The next callback of the batch runs. */
    method RunNext(t: int)
      requires Valid() && Enabled(State(), Callback, t)
      modifies this
      ensures Valid() && State() == Apply(old(State()), Callback, t)
    {
      StepAlways(State(), Callback, t);
      Tick(t);
      RunCallback();
    }

    method EndBatch(t: int) returns (front: Option<TimerId>)
      requires Valid() && calling && next == |batch| && now <= t
      modifies this
      ensures Valid() && Enabled(old(State()), End(front), t) && State() == Apply(old(State()), End(front), t)
    {
      ghost var q := State();
      Tick(t);
      front := FinishBatch(t);
      StepAlways(q, End(front), t);
    }
  }
}
