/** What every run of the timer queue keeps. */
module TimerProofs {
  import opened Timers

  // ----- Ownership moves -----

  /** `id` has been taken from its place and not yet put anywhere. */
  ghost predicate InHand(q: Queue, id: TimerId) {
    && (forall x :: Places(q, x) + (if x == id then 1 else 0) == multiset(q.issued)[x])
    && (forall x :: (if Live(q, x) then 1 else 0) + multiset(q.freed)[x] == multiset(q.issued)[x])
    && (forall i :: 0 <= i < |q.issued| ==> q.issued[i].sequence == i + 1)
  }

  lemma InHandIsLive(q: Queue, id: TimerId)
    requires InHand(q, id)
    ensures Live(q, id) && id in q.issued && id !in q.heap && id !in q.batch && InsertTask(id) !in q.tasks && id !in q.freed
  {
    IssuedOnce(q, id);
    assert Places(q, id) + 1 == multiset(q.issued)[id];
  }

  lemma AllocateGives(q: Queue, addr: nat, when: int, repeat: bool, interval: nat)
    requires Owned(q) && addr !in q.mem
    ensures InHand(Allocate(q, addr, when, repeat, interval), TimerId(addr, |q.issued| + 1))
  {
    var id := TimerId(addr, |q.issued| + 1);
    var q' := Allocate(q, addr, when, repeat, interval);
    forall x ensures AtHand(q', id, x) {
      AllocatedOnce(q, addr, when, repeat, interval, x);
    }
    AtHandEverywhere(q', id);
  }

  /** InHand, for one handle. */
  ghost predicate AtHand(q: Queue, id: TimerId, x: TimerId) {
    && Places(q, x) + (if x == id then 1 else 0) == multiset(q.issued)[x]
    && (if Live(q, x) then 1 else 0) + multiset(q.freed)[x] == multiset(q.issued)[x]
  }

  lemma AtHandEverywhere(q: Queue, id: TimerId)
    requires forall x :: AtHand(q, id, x)
    requires forall i :: 0 <= i < |q.issued| ==> q.issued[i].sequence == i + 1
    ensures InHand(q, id)
  {
    forall x
      ensures Places(q, x) + (if x == id then 1 else 0) == multiset(q.issued)[x]
      ensures (if Live(q, x) then 1 else 0) + multiset(q.freed)[x] == multiset(q.issued)[x]
    {
      assert AtHand(q, id, x);
    }
  }

  lemma AllocatedOnce(q: Queue, addr: nat, when: int, repeat: bool, interval: nat, x: TimerId)
    requires Owned(q) && addr !in q.mem
    ensures AtHand(Allocate(q, addr, when, repeat, interval), TimerId(addr, |q.issued| + 1), x)
  {
    NewHasNoPlace(q, addr, when, repeat, interval, x);
    NewIsLive(q, addr, when, repeat, interval, x);
  }

  lemma NewHasNoPlace(q: Queue, addr: nat, when: int, repeat: bool, interval: nat, x: TimerId)
    requires Owned(q)
    ensures Places(Allocate(q, addr, when, repeat, interval), x) == multiset(q.issued)[x]
  {
    assert Places(q, x) == multiset(q.issued)[x];
  }

  /** The new timer is live, at an address where none was. */
  lemma NewIsLive(q: Queue, addr: nat, when: int, repeat: bool, interval: nat, x: TimerId)
    requires Owned(q) && addr !in q.mem
    ensures var q' := Allocate(q, addr, when, repeat, interval); var id := TimerId(addr, |q.issued| + 1);
      (if Live(q', x) then 1 else 0) == (if Live(q, x) then 1 else 0) + (if x == id then 1 else 0)
  {
    IssuedOnce(q, x);
  }

  lemma PlaceInHeap(q: Queue, id: TimerId, t: int)
    requires InHand(q, id)
    ensures Owned(Insert(q, id, t))
  {
    InHandIsLive(q, id);
    var q' := Insert(q, id, t);
    assert multiset(q'.heap) == multiset(q.heap) + multiset{id};
    forall x ensures Places(q', x) == multiset(q'.issued)[x] {
      assert Places(q, x) + (if x == id then 1 else 0) == multiset(q.issued)[x];
    }
    assert forall x :: Live(q', x) == Live(q, x);
  }

  lemma PlaceInTasks(q: Queue, id: TimerId)
    requires InHand(q, id)
    ensures Owned(q.(tasks := q.tasks + [InsertTask(id)]))
  {
    var q' := q.(tasks := q.tasks + [InsertTask(id)]);
    forall x ensures Places(q', x) == multiset(q'.issued)[x] {
      assert Places(q, x) + (if x == id then 1 else 0) == multiset(q.issued)[x];
    }
    assert forall x :: Live(q', x) == Live(q, x);
  }

  lemma PlaceInFreed(q: Queue, id: TimerId)
    requires InHand(q, id)
    ensures Owned(Free(q, id.addr)) && Free(q, id.addr).freed == q.freed + [id]
  {
    InHandIsLive(q, id);
    var q' := Free(q, id.addr);
    assert multiset(q'.freed) == multiset(q.freed) + multiset{id};
    forall x
      ensures Places(q', x) == multiset(q'.issued)[x]
      ensures (if Live(q', x) then 1 else 0) + multiset(q'.freed)[x] == multiset(q'.issued)[x]
    {
      assert Places(q, x) + (if x == id then 1 else 0) == multiset(q.issued)[x];
      assert (if Live(q, x) then 1 else 0) + multiset(q.freed)[x] == multiset(q.issued)[x];
    }
  }

  /** Removing a live timer by its address removes exactly that timer. */
  lemma TakeFromHeap(q: Queue, id: TimerId)
    requires Owned(q) && id in q.heap
    ensures (set x | x in q.heap && x.addr != id.addr) == q.heap - {id}
    ensures InHand(q.(heap := q.heap - {id}), id)
  {
    forall x | x in q.heap ensures x.addr == id.addr <==> x == id {
      Located(q, x);
      Located(q, id);
    }
    var q' := q.(heap := q.heap - {id});
    assert multiset(q.heap) == multiset(q'.heap) + multiset{id};
    forall x ensures Places(q', x) + (if x == id then 1 else 0) == multiset(q'.issued)[x] {
      assert Places(q, x) == multiset(q.issued)[x];
    }
    assert forall x :: Live(q', x) == Live(q, x);
  }

  lemma TakeFromBatch(q: Queue)
    requires Owned(q) && q.batch != []
    ensures InHand(q.(batch := q.batch[1..]), q.batch[0])
  {
    var id, q' := q.batch[0], q.(batch := q.batch[1..]);
    assert q.batch == [id] + q.batch[1..];
    forall x ensures Places(q', x) + (if x == id then 1 else 0) == multiset(q'.issued)[x] {
      assert Places(q, x) == multiset(q.issued)[x];
    }
    assert forall x :: Live(q', x) == Live(q, x);
  }

  lemma TakeTask(q: Queue)
    requires Owned(q) && q.tasks != []
    ensures q.tasks[0].InsertTask? ==> InHand(q.(tasks := q.tasks[1..]), q.tasks[0].id)
    ensures q.tasks[0].CancelTask? ==> Owned(q.(tasks := q.tasks[1..]))
  {
    var q' := q.(tasks := q.tasks[1..]);
    assert q.tasks == [q.tasks[0]] + q.tasks[1..];
    forall x ensures Places(q', x) + (if q.tasks[0] == InsertTask(x) then 1 else 0) == multiset(q'.issued)[x] {
      assert Places(q, x) == multiset(q.issued)[x];
    }
    assert forall x :: Live(q', x) == Live(q, x);
  }

  /** Fields that say nothing about where timers are. */
  predicate SamePlaces(q: Queue, q': Queue) {
    && q'.mem == q.mem && q'.issued == q.issued && q'.heap == q.heap && q'.batch == q.batch
    && q'.tasks == q.tasks && q'.freed == q.freed
  }

  lemma SamePlacesOwned(q: Queue, q': Queue)
    requires SamePlaces(q, q')
    ensures Owned(q) <==> Owned(q')
    ensures forall id :: InHand(q, id) <==> InHand(q', id)
  {
    assert forall x :: Places(q', x) == Places(q, x) && Live(q', x) == Live(q, x);
  }

  // ----- Ownership, event by event -----

  /** The sets that shadow the batch: all empty outside it. */
  ghost predicate BatchSets(q: Queue) {
    if q.running then
      q.expired == Ids(q.batch) && q.canceling <= q.expired && q.next <= |q.batch| && q.batchTime > 0
    else
      q.batch == [] && q.expired == {} && q.canceling == {} && q.next == 0
  }

  /** Every timer is in one place, and the active set is the set of handles in the heap. */
  ghost predicate Placed(q: Queue) { Owned(q) && q.active == q.heap }

  lemma CancelPlaced(q: Queue, id: TimerId, retry: bool)
    requires Placed(q)
    ensures Placed(CancelInLoop(q, id, retry))
  {
    if id in q.active {
      TakeFromHeap(q, id);
      var q1 := q.(heap := q.heap - {id});
      PlaceInFreed(q1, id);
      SamePlacesOwned(Free(q1, id.addr), CancelInLoop(q, id, retry));
    } else if q.running && id in q.expired {
      SamePlacesOwned(q, CancelInLoop(q, id, retry));
    } else if retry {
      PostCancelOwned(q, id, false);
    }
  }

  lemma PostCancelOwned(q: Queue, id: TimerId, retry: bool)
    requires Owned(q)
    ensures Owned(q.(tasks := q.tasks + [CancelTask(id, retry)]))
  {
    var q' := q.(tasks := q.tasks + [CancelTask(id, retry)]);
    forall x ensures Places(q', x) == multiset(q'.issued)[x] {
      assert Places(q, x) == multiset(q.issued)[x];
    }
    assert forall x :: Live(q', x) == Live(q, x);
  }

  function Restarted(q: Queue, id: TimerId): Queue
    requires id.addr in q.mem
  {
    q.(mem := q.mem[id.addr := q.mem[id.addr].(expiration := q.batchTime + q.mem[id.addr].interval)])
  }

  /** Restarting a timer in hand only changes its expiration. */
  lemma RestartInHand(q: Queue, id: TimerId, t: int)
    requires InHand(q, id) && id.addr in q.mem
    ensures Owned(Insert(Restarted(q, id), id, t))
  {
    var q' := Restarted(q, id);
    assert forall x :: Places(q', x) == Places(q, x) && Live(q', x) == Live(q, x);
    PlaceInHeap(q', id, t);
  }

  lemma FreeCanceled(q: Queue, id: TimerId)
    requires InHand(q, id)
    ensures Owned(Free(q.(canceling := q.canceling - {id}), id.addr))
  {
    SamePlacesOwned(q, q.(canceling := q.canceling - {id}));
    PlaceInFreed(q.(canceling := q.canceling - {id}), id);
  }

  /** What one round of reset does with the timer taken from the batch. */
  lemma ResetOneCases(q: Queue, t: int)
    requires q.batch != [] && q.batch[0].addr in q.mem
    ensures var id, q1 := q.batch[0], q.(batch := q.batch[1..]);
      ResetOne(q, t) ==
      if id in q.canceling then Free(q1.(canceling := q.canceling - {id}), id.addr)
      else if q.mem[id.addr].repeat then Insert(Restarted(q1, id), id, t)
      else Free(q1, id.addr)
  {
  }

  lemma ResetOneOwned(q: Queue, t: int)
    requires Owned(q) && q.batch != []
    ensures Owned(ResetOne(q, t))
  {
    var id, q1 := q.batch[0], q.(batch := q.batch[1..]);
    TakeFromBatch(q);
    InHandIsLive(q1, id);
    ResetOneCases(q, t);
    if id in q.canceling {
      FreeCanceled(q1, id);
    } else if q.mem[id.addr].repeat {
      RestartInHand(q1, id, t);
    } else {
      PlaceInFreed(q1, id);
    }
  }

  lemma ResetOneSets(q: Queue, t: int)
    requires q.batch != [] && q.active == q.heap && q.canceling <= Ids(q.batch)
    ensures var r := ResetOne(q, t); r.active == r.heap && r.canceling <= Ids(r.batch)
  {
  }

  lemma {:induction false} ResetAllPlaced(q: Queue, t: int)
    requires Placed(q) && q.canceling <= Ids(q.batch)
    ensures Placed(ResetAll(q, t)) && ResetAll(q, t).batch == [] && ResetAll(q, t).canceling == {}
    decreases |q.batch|
  {
    if q.batch != [] {
      ResetOneOwned(q, t);
      ResetOneSets(q, t);
      ResetAllPlaced(ResetOne(q, t), t);
    }
  }

  lemma StartBatchPlaced(q: Queue, batch: seq<TimerId>, t: int)
    requires Placed(q) && q.batch == [] && IsBatch(q, batch, t)
    ensures Placed(StartBatch(q, batch, t))
  {
    var q' := StartBatch(q, batch, t);
    forall x ensures Places(q', x) == multiset(q'.issued)[x] {
      assert Places(q, x) == multiset(q.issued)[x];
      AtMostOnce(batch, x);
      assert x in batch <==> Due(q, x, t);
      assert multiset(q'.heap)[x] == if x in q.heap && x !in batch then 1 else 0;
      assert multiset(batch)[x] == if x in batch then 1 else 0;
    }
    assert forall x :: Live(q', x) == Live(q, x);
  }

  lemma RunTaskPlaced(q: Queue, t: int)
    requires Placed(q) && q.tasks != []
    ensures Placed(RunFirstTask(q, t))
  {
    TakeTask(q);
    var q1 := q.(tasks := q.tasks[1..]);
    match q.tasks[0]
    case InsertTask(id) => PlaceInHeap(q1, id, t);
    case CancelTask(id, retry) => CancelPlaced(q1, id, retry);
  }

  lemma AddPlaced(q: Queue, addr: nat, when: int, repeat: bool, interval: nat, t: int)
    requires Placed(q) && addr !in q.mem
    ensures var q1 := Allocate(q, addr, when, repeat, interval);
      var id := TimerId(addr, |q.issued| + 1);
      Placed(Insert(q1, id, t)) && Placed(q1.(tasks := q1.tasks + [InsertTask(id)]))
  {
    var q1 := Allocate(q, addr, when, repeat, interval);
    var id := TimerId(addr, |q.issued| + 1);
    AllocateGives(q, addr, when, repeat, interval);
    PlaceInHeap(q1, id, t);
    PlaceInTasks(q1, id);
  }

  lemma StepPlaced(q0: Queue, e: Event, t: int)
    requires Placed(q0) && BatchSets(q0) && Enabled(q0, e, t)
    ensures Placed(Apply(q0, e, t))
  {
    var q := q0.(now := t);
    SamePlacesOwned(q0, q);
    match e
    case AddLocal(addr, when, repeat, interval) => AddPlaced(q, addr, when, repeat, interval, t);
    case AddRemote(addr, when, repeat, interval) => AddPlaced(q, addr, when, repeat, interval, t);
    case CancelLocal(id) => CancelPlaced(q, id, true);
    case CancelRemote(id) => PostCancelOwned(q, id, true);
    case RunTask => RunTaskPlaced(q, t);
    case Fire => SamePlacesOwned(q, Apply(q0, e, t));
    case Begin(batch) => StartBatchPlaced(q, batch, t);
    case Callback => SamePlacesOwned(q, Apply(q0, e, t));
    case End(front) =>
      ResetAllPlaced(q, t);
      SamePlacesOwned(ResetAll(q, t), Apply(q0, e, t));
  }

  lemma StepBatchSets(q0: Queue, e: Event, t: int)
    requires Placed(q0) && BatchSets(q0) && q0.now > 0 && Enabled(q0, e, t)
    ensures BatchSets(Apply(q0, e, t))
  {
    if e.End? {
      SamePlacesOwned(q0, q0.(now := t));
      ResetAllPlaced(q0.(now := t), t);
    }
  }
}
