/** The client object: its tables change in place, step by step as the state machine says. */
module RpcClients {
  import opened Bytes
  import Buffers
  import opened Protocol
  import opened Framing
  import opened ClientSession
  import RpcServers

  class RpcClient {
    const serializer: byte
    const reader: RpcServers.FrameReader
    const input: Buffers.Buffer
    /** The order in which the hash table of pending calls is walked. */
    const order: Order

    var linked: bool
    var sendable: bool
    var stuck: bool
    var pendings: map<uint32, Pending>
    var failing: seq<Pending>
    /** The calls whose deadline timer is set. */
    var armed: multiset<nat>
    var timedOutIds: seq<uint32>
    var timedOutIdSet: set<uint32>
    var nextRequestId: uint32

    // What has happened so far: ids taken, calls started, completions run and frames sent.
    var taken: nat
    var requests: seq<Request>
    var done: seq<Completion>
    var issued: seq<Issue>

    constructor (serializer: byte, reader: RpcServers.FrameReader, input: Buffers.Buffer, order: Order)
      requires input.Valid() && input.Contents() == [] && LawfulOrder(order)
      ensures Valid() && State() == Initial(serializer, reader.maxFrameSize)
      ensures this.reader == reader && this.input == input && this.order == order
    {
      this.serializer, this.reader, this.input, this.order := serializer, reader, input, order;
      linked, sendable, stuck, pendings, failing, armed := false, false, false, map[], [], multiset{};
      timedOutIds, timedOutIdSet, nextRequestId := [], {}, 1;
      taken, requests, done, issued := 0, [], [], [];
    }

    ghost predicate Valid()
      reads this, input
    {
      input.Valid() && LawfulOrder(order)
    }

    ghost function State(): Client
      requires Valid()
      reads this, reader, input, input.store
    {
      Client(serializer, reader.maxFrameSize, linked, sendable, stuck, pendings, failing, armed,
             timedOutIds, timedOutIdSet, nextRequestId, taken, requests, done, issued, input.Contents())
    }

    /** Tries ids from the counter on, across wraparound, until one is free. */
    method AllocateRequestId() returns (id: uint32)
      requires Valid() && Allocate(State()).Some?
      modifies `nextRequestId
      ensures Some(id) == old(Allocate(State())) && nextRequestId == Successor(id)
    {
      ghost var c := State();
      ghost var tries := ID_SPACE;
      while true
        invariant Scan(c, nextRequestId, tries) == Allocate(c)
        decreases tries
      {
        id := nextRequestId;
        nextRequestId := Successor(nextRequestId);
        if id != 0 && id !in pendings && id !in timedOutIdSet {
          return;
        }
        tries := tries - 1;
      }
    }

    method StartCallInLoop(request: Request, timed: bool, after: seq<Act>)
      requires Valid() && !stuck
      modifies this
      ensures State() == old(Run(State(), StartCall(request, timed, after)))
      decreases after, 2
    {
      var n := |requests|;
      requests := requests + [request];
      if !linked {
        CompleteCall(Completion(n, CLOSED_RESPONSE, false), after);
        return;
      }
      var body := EncodeRequest(request);
      if body.None? {
        CompleteCall(Completion(n, BAD_REQUEST_RESPONSE, false), after);
        return;
      }
      EnterCall(Pending(n, after, timed), body.value);
    }

    /** Give the call an id, record it, then send its frame. */
    method EnterCall(p: Pending, body: Body)
      requires Valid() && !stuck
      modifies this
      ensures State() == old(match Allocate(State())
        case None => State().(stuck := true)
        case Some(id) => Enter(State(), id, p, body))
    {
      SameAllocation(State(), Tables());
      if Allocate(Tables()).None? {
        stuck := true;
        return;
      }
      var id := AllocateRequestId();
      Record(id, p, body);
    }

    method Record(id: uint32, p: Pending, body: Body)
      requires Valid() && nextRequestId == Successor(id)
      modifies this
      ensures State() == old(Enter(State(), id, p, body))
    {
      taken, pendings := taken + 1, pendings[id := p];
      StartTimer(p);
      SendRequest(Issue(id, p.call, body));
    }

    method StartTimer(p: Pending)
      requires Valid()
      modifies `armed
      ensures State() == old(State()).(armed := if p.timed then old(armed) + multiset{p.call} else old(armed))
    {
      if p.timed {
        armed := armed + multiset{p.call};
      }
    }

    /** The transport ignores sends once it is closing. */
    method SendRequest(i: Issue)
      requires Valid()
      modifies `issued
      ensures State() == old(State()).(issued := if sendable then old(issued) + [i] else old(issued))
    {
      if sendable {
        issued := issued + [i];
      }
    }

    /** Run a completion: it may start calls or disconnect. */
    method CompleteCall(d: Completion, after: seq<Act>)
      requires Valid() && !stuck
      modifies this
      ensures State() == old(Finish(State(), d, after))
      decreases after, 1
    {
      done := done + [d];
      ghost var goal := RunAll(State(), after);
      var i := 0;
      assert after[0..] == after;
      while i < |after| && !stuck
        invariant 0 <= i <= |after|
        invariant RunAll(State(), after[i..]) == goal
      {
        assert after[i..][1..] == after[i + 1..];
        Execute(after[i]);
        i := i + 1;
      }
      StuckStays(State(), after[i..]);
    }

    static lemma {:induction false} StuckStays(c: Client, acts: seq<Act>)
      requires c.stuck || acts == []
      ensures RunAll(c, acts) == c
    {
      if acts != [] {
        StuckStays(c, acts[1..]);
      }
    }

    method Execute(a: Act)
      requires Valid() && !stuck
      modifies this
      ensures State() == old(Run(State(), a))
      decreases a, 0
    {
      match a
      case Disconnect => sendable := false;
      case StartCall(request, timed, after) => StartCallInLoop(request, timed, after);
    }

    // ----- Deadlines -----

    /** The timer of a call that is over is cancelled, or has just fired. */
    method StopTimer(p: Pending)
      requires Valid()
      modifies `armed
      ensures armed == Disarm(old(armed), p)
    {
      if p.timed {
        armed := armed - multiset{p.call};
      }
    }

    /** Erase a pending call, with its timer. */
    method TakePending(id: uint32) returns (p: Pending)
      requires Valid() && id in pendings
      modifies `pendings, `armed
      ensures p == old(pendings[id]) && State() == old(Take(State(), id))
    {
      p := pendings[id];
      pendings := pendings - {id};
      StopTimer(p);
    }

    method TakeFailing() returns (p: Pending)
      requires Valid() && failing != []
      modifies `failing, `armed
      ensures p == old(failing[0]) && State() == old(NextFailing(State()))
    {
      p := failing[0];
      failing := failing[1..];
      StopTimer(p);
    }

    method RememberTimedOut(id: uint32)
      requires Valid()
      modifies `timedOutIds, `timedOutIdSet
      ensures State() == old(Remember(State(), id))
    {
      if |timedOutIdSet| >= MAX_REMEMBERED && timedOutIds != [] {
        timedOutIdSet := timedOutIdSet - {timedOutIds[0]};
        timedOutIds := timedOutIds[1..];
      }
      timedOutIds := timedOutIds + [id];
      timedOutIdSet := timedOutIdSet + {id};
    }

    method OnTimeout(id: uint32)
      requires Valid()
      modifies this
      ensures State() == old(ClientSession.OnTimeout(State(), id))
    {
      if stuck || id !in pendings {
        return;
      }
      var pending := TakePending(id);
      RememberTimedOut(id);
      CompleteCall(Completion(pending.call, TIMEOUT_RESPONSE, false), pending.after);
    }

    // ----- Failure -----

    method FailAllPending()
      requires Valid() && !stuck
      modifies this
      ensures State() == old(FailAll(order, State()))
    {
      assert Enumerates(order(pendings), pendings.Keys);
      failing := Entries(pendings, order(pendings));
      pendings := map[];
      ghost var goal := FailLoop(State());
      while failing != [] && !stuck
        invariant FailLoop(State()) == goal
        decreases |failing|
      {
        var pending := TakeFailing();
        CompleteCall(Completion(pending.call, CLOSED_RESPONSE, false), pending.after);
      }
    }

    method FailConnection()
      requires Valid() && !stuck
      modifies this
      ensures State() == old(ClientSession.FailConnection(order, State()))
    {
      FailAllPending();
      if !stuck && linked {
        sendable := false;
      }
    }

    // ----- Input -----

    /** One complete frame; `goOn` is false where onMessage returns. */
    method HandleFrame(header: Header, body: bytes) returns (goOn: bool)
      requires Valid() && !stuck
      modifies this
      ensures goOn == old(GoesOn(State(), Frame(header, body)))
      ensures State() == old(OnFrame(order, State(), Frame(header, body)))
    {
      if header.version != VERSION || header.kind != RESPONSE {
        FailConnection();
        return false;
      }
      if header.serializer != serializer {
        FailConnection();
        return false;
      }
      if !ResponseFits(body) {
        FailConnection();
        return false;
      }
      if header.requestId !in pendings {
        if header.requestId in timedOutIdSet {
          return true;
        }
        FailConnection();
        return false;
      }
      var pending := TakePending(header.requestId);
      CompleteCall(Completion(pending.call, Response(header.status, body, header.serializer), true), pending.after);
      return true;
    }

    method OnMessage()
      requires Valid() && !stuck
      modifies this, input`readIndex, input`writeIndex
      ensures Valid() && State() == old(ClientSession.OnMessage(order, State()))
    {
      ghost var goal := ClientSession.OnMessage(order, State());
      var goOn := true;
      while goOn && !stuck
        invariant Valid()
        invariant goal == if goOn then ClientSession.OnMessage(order, State()) else State()
        decreases goOn, |input.Contents()|
      {
        var result, header, body := reader.Parse(input);
        if result == RpcServers.More {
          return;
        }
        if result == RpcServers.Error {
          FailConnection();
          return;
        }
        goOn := HandleFrame(header, body);
      }
    }

    method OnConnection(up: bool)
      requires Valid() && !stuck
      modifies this
      ensures State() == old(ClientSession.OnConnection(order, State(), up))
    {
      if up {
        linked, sendable := true, true;
      } else {
        linked, sendable := false, false;
        FailAllPending();
      }
    }

    /** The part of the state id allocation looks at. */
    function Tables(): Client
      reads this
    {
      Initial(0, HEADER_SIZE).(pendings := pendings, timedOutSet := timedOutIdSet, nextId := nextRequestId)
    }

    static lemma SameAllocation(c: Client, d: Client)
      requires c.pendings == d.pendings && c.timedOutSet == d.timedOutSet && c.nextId == d.nextId
      ensures Allocate(c) == Allocate(d)
    {
      SameScan(c, d, c.nextId, ID_SPACE);
    }

    static lemma {:induction false} SameScan(c: Client, d: Client, id: uint32, tries: nat)
      requires c.pendings == d.pendings && c.timedOutSet == d.timedOutSet
      ensures Scan(c, id, tries) == Scan(d, id, tries)
      decreases tries
    {
      if tries > 0 && !Free(c, id) {
        SameScan(c, d, Successor(id), tries - 1);
      }
    }
  }
}
