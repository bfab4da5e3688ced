/**
 * The loop-thread half of the RPC client as a state machine: pending calls,
 * request ids, deadlines and completions that start further calls.
 */
module ClientSession {
  import opened Bytes
  import opened Protocol
  import opened Framing

  const ID_SPACE: nat := 0x1_0000_0000
  const MAX_REMEMBERED: nat := 1024

  /**
   * What a completion does when it runs: start further calls, each with its own
   * completion, or disconnect. A finite script; every finite run has one.
   */
  datatype Act = StartCall(request: Request, timed: bool, after: seq<Act>) | Disconnect

  /** A pending call: its number in order of starting, its completion, and whether it has a deadline. */
  datatype Pending = Pending(call: nat, after: seq<Act>, timed: bool)

  /** How a call ended; `answered` marks a response that came off the wire. */
  datatype Completion = Completion(call: nat, response: Response, answered: bool)

  /** A request frame handed to a transport that accepted it. */
  datatype Issue = Issue(id: uint32, call: nat, body: Body)

  /**
   * `linked` is connection_ set and connected_; `sendable` is the transport
   * still in kConnected. `failing` is the table failAllPending moved out and
   * has not finished. `armed` are the calls with a deadline timer set. `stuck`
   * is allocateRequestId looping forever.
   */
  datatype Client = Client(
    serializer: byte, limit: Limit,
    linked: bool, sendable: bool, stuck: bool,
    pendings: map<uint32, Pending>, failing: seq<Pending>, armed: multiset<nat>,
    timedOut: seq<uint32>, timedOutSet: set<uint32>,
    nextId: uint32, taken: nat,
    requests: seq<Request>, done: seq<Completion>, issued: seq<Issue>,
    buffered: bytes)

  /** The iteration order of the hash table: any enumeration of its keys. */
  type Order = map<uint32, Pending> -> seq<uint32>

  ghost predicate LawfulOrder(order: Order) {
    forall m :: Enumerates(order(m), m.Keys)
  }

  ghost predicate Enumerates(s: seq<uint32>, keys: set<uint32>) {
    Distinct(s) && forall id :: id in s <==> id in keys
  }

  /** Some enumeration of a set. */
  ghost function Listing(keys: set<uint32>): (s: seq<uint32>)
    ensures Enumerates(s, keys)
  {
    if keys == {} then []
    else
      var id :| id in keys;
      [id] + Listing(keys - {id})
  }

  lemma LawfulOrderExists()
    ensures exists order: Order :: LawfulOrder(order)
  {
    var order: Order := (m: map<uint32, Pending>) => Listing(m.Keys);
    assert LawfulOrder(order);
  }

  function Initial(serializer: byte, limit: Limit): Client {
    Client(serializer, limit, false, false, false, map[], [], multiset{}, [], {}, 1, 0, [], [], [], [])
  }

  const CLOSED_RESPONSE := Response(CONNECTION_CLOSED, [], 0)
  const BAD_REQUEST_RESPONSE := Response(BAD_REQUEST, [], 0)
  const TIMEOUT_RESPONSE := Response(TIMEOUT, [], 0)

  // ----- Request ids -----

  function Successor(id: uint32): uint32 { (id + 1) % ID_SPACE }

  predicate Free(c: Client, id: uint32) { id != 0 && id !in c.pendings && id !in c.timedOutSet }

  /** allocateRequestId: the first free id from `id` on, trying each id of the 32-bit counter once. */
  function Scan(c: Client, id: uint32, tries: nat): (r: Option<uint32>)
    ensures r.Some? ==> Free(c, r.value)
    decreases tries
  {
    if tries == 0 then None
    else if Free(c, id) then Some(id)
    else Scan(c, Successor(id), tries - 1)
  }

  function Allocate(c: Client): (r: Option<uint32>)
    ensures r.Some? ==> Free(c, r.value)
  {
    Scan(c, c.nextId, ID_SPACE)
  }

  /** How many increments lead from `id` to `target` around the counter. */
  function Distance(id: uint32, target: uint32): nat {
    if id <= target then target - id else target + ID_SPACE - id
  }

  lemma {:induction false} ScanFinds(c: Client, id: uint32, tries: nat, target: uint32)
    requires Free(c, target) && Distance(id, target) < tries
    ensures Scan(c, id, tries).Some?
    decreases tries
  {
    if !Free(c, id) {
      assert Distance(Successor(id), target) == Distance(id, target) - 1;
      ScanFinds(c, Successor(id), tries - 1, target);
    }
  }

  /** Across wraparound, an id is found exactly when one is free. */
  lemma AllocateFindsFreeId(c: Client)
    ensures Allocate(c).Some? <==> exists id :: Free(c, id)
  {
    if id :| Free(c, id) {
      ScanFinds(c, c.nextId, ID_SPACE, id);
    }
  }

  // ----- Steps -----

  function RequestFrame(serializer: byte, i: Issue): Frame {
    Frame(Header(MAGIC, VERSION, REQUEST, 0, STATUS_OK, serializer, i.id, |i.body|), i.body)
  }

  /** What running completions never touches. */
  predicate SameFrame(c: Client, c': Client) {
    && c'.serializer == c.serializer && c'.limit == c.limit && c'.linked == c.linked
    && c'.buffered == c.buffered && c'.failing == c.failing
    && c'.timedOut == c.timedOut && c'.timedOutSet == c.timedOutSet
  }

  /** startCallInLoop and disconnect, with everything the completion sets off. */
  function Run(c: Client, a: Act): (c': Client)
    ensures SameFrame(c, c')
    decreases a, 1
  {
    if c.stuck then c
    else
      match a
      case Disconnect => c.(sendable := false)
      case StartCall(request, timed, after) =>
        var n := |c.requests|;
        var c0 := c.(requests := c.requests + [request]);
        if !c.linked then Finish(c0, Completion(n, CLOSED_RESPONSE, false), after)
        else
          match EncodeRequest(request)
          case None => Finish(c0, Completion(n, BAD_REQUEST_RESPONSE, false), after)
          case Some(body) =>
            match Allocate(c0)
            case None => c0.(stuck := true)
            case Some(id) =>
              Enter(c0, id, Pending(n, after, timed), body)
  }

  /** Record the call under its id, set its deadline, then hand the frame to the transport. */
  function Enter(c: Client, id: uint32, p: Pending, body: Body): Client {
    c.(pendings := c.pendings[id := p],
       armed := if p.timed then c.armed + multiset{p.call} else c.armed,
       nextId := Successor(id),
       taken := c.taken + 1,
       issued := if c.sendable then c.issued + [Issue(id, p.call, body)] else c.issued)
  }

  /** Run a completion: the call is over, then its script runs. */
  function Finish(c: Client, done: Completion, after: seq<Act>): (c': Client)
    ensures SameFrame(c, c')
    decreases after, 3
  {
    RunAll(c.(done := c.done + [done]), after)
  }

  function RunAll(c: Client, acts: seq<Act>): (c': Client)
    ensures SameFrame(c, c')
    decreases acts, 2
  {
    if acts == [] then c else RunAll(Run(c, acts[0]), acts[1..])
  }

  /** The timer of a call that is over: cancelled, or it has just fired. */
  function Disarm(armed: multiset<nat>, p: Pending): multiset<nat> {
    if p.timed then armed - multiset{p.call} else armed
  }

  /** Take a call out of the table. */
  function Take(c: Client, id: uint32): Client
    requires id in c.pendings
  {
    c.(pendings := c.pendings - {id}, armed := Disarm(c.armed, c.pendings[id]))
  }

  function NextFailing(c: Client): Client
    requires c.failing != []
  {
    c.(failing := c.failing[1..], armed := Disarm(c.armed, c.failing[0]))
  }

  function Remember(c: Client, id: uint32): Client {
    if |c.timedOutSet| >= MAX_REMEMBERED && c.timedOut != [] then
      c.(timedOutSet := c.timedOutSet - {c.timedOut[0]} + {id}, timedOut := c.timedOut[1..] + [id])
    else c.(timedOutSet := c.timedOutSet + {id}, timedOut := c.timedOut + [id])
  }

  function OnTimeout(c: Client, id: uint32): Client {
    if c.stuck || id !in c.pendings then c
    else
      var p := c.pendings[id];
      Finish(Remember(Take(c, id), id), Completion(p.call, TIMEOUT_RESPONSE, false), p.after)
  }

  /** The loop of failAllPending over the moved-out table. */
  function FailLoop(c: Client): (c': Client)
    ensures SameFrame(c, c'.(failing := c.failing))
    decreases |c.failing|
  {
    if c.stuck || c.failing == [] then c
    else
      var p := c.failing[0];
      FailLoop(Finish(NextFailing(c), Completion(p.call, CLOSED_RESPONSE, false), p.after))
  }

  function Entries(m: map<uint32, Pending>, ids: seq<uint32>): seq<Pending>
    requires forall i :: 0 <= i < |ids| ==> ids[i] in m
  {
    seq(|ids|, i requires 0 <= i < |ids| => m[ids[i]])
  }

  ghost function FailAll(order: Order, c: Client): (c': Client)
    requires LawfulOrder(order)
    ensures c'.buffered == c.buffered
  {
    if c.stuck then c
    else
      assert Enumerates(order(c.pendings), c.pendings.Keys);
      var moved := Entries(c.pendings, order(c.pendings));
      FailLoop(c.(pendings := map[], failing := moved))
  }

  ghost function FailConnection(order: Order, c: Client): (c': Client)
    requires LawfulOrder(order)
    ensures c'.buffered == c.buffered
  {
    var c1 := FailAll(order, c);
    if c1.stuck || !c1.linked then c1 else c1.(sendable := false)
  }

  ghost function OnFrame(order: Order, c: Client, f: Frame): (c': Client)
    requires LawfulOrder(order)
    ensures c'.buffered == c.buffered
  {
    var id := f.header.requestId;
    if f.header.version != VERSION || f.header.kind != RESPONSE || f.header.serializer != c.serializer
       || !ResponseFits(f.body) then FailConnection(order, c)
    else if id in c.pendings then
      var p := c.pendings[id];
      Finish(Take(c, id),
             Completion(p.call, Response(f.header.status, f.body, f.header.serializer), true), p.after)
    else if id in c.timedOutSet then c
    else FailConnection(order, c)
  }

  /** Does onMessage go on after this frame? */
  predicate GoesOn(c: Client, f: Frame) {
    && f.header.version == VERSION && f.header.kind == RESPONSE && f.header.serializer == c.serializer
    && ResponseFits(f.body) && (f.header.requestId in c.pendings || f.header.requestId in c.timedOutSet)
  }

  ghost function OnMessage(order: Order, c: Client): Client
    requires LawfulOrder(order)
    decreases |c.buffered|
  {
    if c.stuck then c
    else
      match ParseFrame(c.limit, c.buffered)
      case NeedMore => c
      case ProtocolError => FailConnection(order, c)
      case Complete(f, rest) =>
        var c1 := OnFrame(order, c.(buffered := rest), f);
        if GoesOn(c, f) then OnMessage(order, c1) else c1
  }

  ghost function OnConnection(order: Order, c: Client, up: bool): Client
    requires LawfulOrder(order)
  {
    if c.stuck then c
    else if up then c.(linked := true, sendable := true)
    else FailAll(order, c.(linked := false, sendable := false))
  }

  // ----- Runs -----

  datatype Event = Post(a: Act) | Expire(id: uint32) | Bytes(chunk: bytes) | Link(up: bool)

  ghost function Step(order: Order, c: Client, e: Event): Client
    requires LawfulOrder(order)
  {
    match e
    case Post(a) => Run(c, a)
    case Expire(id) => OnTimeout(c, id)
    case Bytes(chunk) => if c.stuck then c else OnMessage(order, c.(buffered := c.buffered + chunk))
    case Link(up) => OnConnection(order, c, up)
  }

  ghost function Steps(order: Order, c: Client, es: seq<Event>): Client
    requires LawfulOrder(order)
  {
    if es == [] then c else Step(order, Steps(order, c, es[..|es| - 1]), es[|es| - 1])
  }
}
