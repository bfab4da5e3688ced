/** Routing of requests to handlers. */
module Registry {
  import opened Bytes
  import opened Protocol

  datatype Outcome = Returned(payload: bytes) | Threw
  type Handler = bytes -> Outcome

  const DOT: byte := 0x2E

  function MakeKey(service: bytes, name: bytes): bytes { service + [DOT] + name }

  /** The frozen tables a server dispatches from. */
  datatype Table = Table(methods: map<bytes, Handler>, services: set<bytes>)

  /** dispatch, with a throwing handler mapped to INTERNAL_ERROR as handleRequest does. */
  function Dispatch(t: Table, r: Request): (status_payload: (byte, bytes)) {
    var key := MakeKey(r.service, r.name);
    if key !in t.methods then
      (if r.service in t.services then UNKNOWN_METHOD else UNKNOWN_SERVICE, [])
    else
      match t.methods[key](r.payload)
      case Returned(p) => (STATUS_OK, p)
      case Threw => (INTERNAL_ERROR, [])
  }

  /**
   * Two names share a key exactly when they are equal or one is the other with
   * a dotted part moved between service and method.
   */
  lemma KeysCollide(s1: bytes, m1: bytes, s2: bytes, m2: bytes)
    requires |s1| <= |s2|
    ensures MakeKey(s1, m1) == MakeKey(s2, m2) <==>
      (s1 == s2 && m1 == m2) || exists mid :: s2 == s1 + [DOT] + mid && m1 == mid + [DOT] + m2
  {
    var k1, k2 := MakeKey(s1, m1), MakeKey(s2, m2);
    if k1 == k2 {
      assert k1[..|s1|] == s1 && k2[..|s2|] == s2;
      assert k1[|s1| + 1..] == m1 && k2[|s2| + 1..] == m2;
      if |s1| < |s2| {
        var mid := s2[|s1| + 1..];
        assert s2 == s2[..|s1|] + [s2[|s1|]] + mid;
        assert s2[..|s1|] == k1[..|s1|] && s2[|s1|] == k1[|s1|];
        assert m1 == k1[|s1| + 1..|s2|] + [k1[|s2|]] + k1[|s2| + 1..];
        assert mid == k1[|s1| + 1..|s2|];
      } else {
        assert s1 == s2 && m1 == m2;
      }
    }
    if mid: bytes :| s2 == s1 + [DOT] + mid && m1 == mid + [DOT] + m2 {
      assert k1 == s1 + [DOT] + mid + [DOT] + m2;
    }
  }

  /** Services without a dot never alias: the key determines service and method. */
  lemma UndottedServicesDoNotAlias(s1: bytes, m1: bytes, s2: bytes, m2: bytes)
    requires DOT !in s1 && DOT !in s2
    ensures MakeKey(s1, m1) == MakeKey(s2, m2) <==> s1 == s2 && m1 == m2
  {
    forall s: bytes, mid: bytes ensures DOT in s + [DOT] + mid {
      assert (s + [DOT] + mid)[|s|] == DOT;
    }
    if |s1| <= |s2| {
      KeysCollide(s1, m1, s2, m2);
    } else {
      KeysCollide(s2, m2, s1, m1);
    }
  }

  /** "a.b"/"c" and "a"/"b.c" do alias: a handler answers for a name it was not registered under. */
  lemma DottedNamesAlias(h: Handler, p: bytes)
    ensures var t := Table(map[MakeKey([0x61, 0x2E, 0x62], [0x63]) := h], {[0x61, 0x2E, 0x62]});
      Dispatch(t, Request([0x61], [0x62, 0x2E, 0x63], p)) == Dispatch(t, Request([0x61, 0x2E, 0x62], [0x63], p))
  {
    assert MakeKey([0x61], [0x62, 0x2E, 0x63]) == MakeKey([0x61, 0x2E, 0x62], [0x63]);
  }

  // ----- Dispatch, told from the registrations alone -----

  /** A call of registerMethod, and one that was accepted. */
  datatype Offer = Offer(service: bytes, name: bytes, fn: Option<Handler>)

  datatype Entry = Entry(service: bytes, name: bytes, handler: Handler)

  /** registerMethod on an unfrozen registry. */
  function Register(t: Table, o: Offer): Table {
    if o.service == [] || o.name == [] || o.fn.None? || MakeKey(o.service, o.name) in t.methods then t
    else Table(t.methods[MakeKey(o.service, o.name) := o.fn.value], t.services + {o.service})
  }

  function RegisterAll(offers: seq<Offer>): Table {
    if offers == [] then Table(map[], {}) else Register(RegisterAll(offers[..|offers| - 1]), offers[|offers| - 1])
  }

  ghost predicate Known(log: seq<Entry>, service: bytes) { exists i :: 0 <= i < |log| && log[i].service == service }

  ghost predicate Taken(log: seq<Entry>, service: bytes, name: bytes) {
    exists i :: 0 <= i < |log| && log[i].service == service && log[i].name == name
  }

  /** The offers that are complete and the first for their pair, in order. */
  ghost function Accepted(offers: seq<Offer>): seq<Entry> {
    if offers == [] then []
    else
      var log, o := Accepted(offers[..|offers| - 1]), offers[|offers| - 1];
      if |o.service| == 0 || |o.name| == 0 || o.fn.None? || Taken(log, o.service, o.name) then log
      else log + [Entry(o.service, o.name, o.fn.value)]
  }

  /** What a request is due from these registrations: its own handler's result, or which name is unknown. */
  ghost predicate Due(log: seq<Entry>, r: Request, status: byte, payload: bytes) {
    && (forall i :: 0 <= i < |log| && log[i].service == r.service && log[i].name == r.name ==>
          match log[i].handler(r.payload)
          case Returned(p) => status == 0x00 && payload == p
          case Threw => status == 0x09 && payload == [])
    && (!Taken(log, r.service, r.name) ==> payload == [] && status == if Known(log, r.service) then 0x08 else 0x07)
  }

  ghost predicate Undotted(offers: seq<Offer>) { forall i :: 0 <= i < |offers| ==> DOT !in offers[i].service }

  /** The tables hold exactly the log, under keys that tell the pairs apart. */
  ghost predicate Holds(t: Table, log: seq<Entry>) {
    && (forall i :: 0 <= i < |log| ==> HoldsEntry(t, log[i]))
    && (forall key :: key in t.methods ==> Keyed(log, key))
    && (forall service :: service in t.services ==> Known(log, service))
  }

  ghost predicate HoldsEntry(t: Table, e: Entry) {
    && DOT !in e.service && e.service in t.services
    && KeyOf(e) in t.methods && t.methods[KeyOf(e)] == e.handler
  }

  function KeyOf(e: Entry): bytes { MakeKey(e.service, e.name) }

  ghost predicate Keyed(log: seq<Entry>, key: bytes) { exists i :: 0 <= i < |log| && KeyOf(log[i]) == key }

  lemma KeyIsTaken(t: Table, log: seq<Entry>, service: bytes, name: bytes)
    requires Holds(t, log) && DOT !in service
    ensures MakeKey(service, name) in t.methods <==> Taken(log, service, name)
  {
    if MakeKey(service, name) in t.methods {
      assert Keyed(log, MakeKey(service, name));
      var i :| 0 <= i < |log| && KeyOf(log[i]) == MakeKey(service, name);
      assert HoldsEntry(t, log[i]);
      UndottedServicesDoNotAlias(service, name, log[i].service, log[i].name);
    }
    if i :| 0 <= i < |log| && log[i].service == service && log[i].name == name {
      assert HoldsEntry(t, log[i]);
    }
  }

  lemma KnownGrows(log: seq<Entry>, e: Entry)
    ensures forall key :: Keyed(log, key) || key == KeyOf(e) ==> Keyed(log + [e], key)
    ensures forall service :: Known(log, service) || service == e.service ==> Known(log + [e], service)
  {
    assert (log + [e])[|log|] == e;
    assert forall i :: 0 <= i < |log| ==> (log + [e])[i] == log[i];
  }

  /** A new entry under a new key. */
  lemma EntryHolds(t: Table, log: seq<Entry>, e: Entry, t': Table)
    requires Holds(t, log) && DOT !in e.service && KeyOf(e) !in t.methods
    requires t'.methods == t.methods[KeyOf(e) := e.handler] && t'.services == t.services + {e.service}
    ensures Holds(t', log + [e])
  {
    var log' := log + [e];
    KnownGrows(log, e);
    forall i | 0 <= i < |log'| ensures HoldsEntry(t', log'[i]) {
      if i < |log| {
        assert log'[i] == log[i];
        EntryKept(t, log[i], e, t');
      }
    }
    forall key | key in t'.methods ensures Keyed(log', key) {
      assert key in t.methods || key == KeyOf(e);
    }
    forall service | service in t'.services ensures Known(log', service) {
      assert service in t.services || service == e.service;
    }
  }

  lemma EntryKept(t: Table, e0: Entry, e: Entry, t': Table)
    requires HoldsEntry(t, e0) && KeyOf(e) !in t.methods
    requires t'.methods == t.methods[KeyOf(e) := e.handler] && t'.services == t.services + {e.service}
    ensures HoldsEntry(t', e0)
  {
  }

  lemma {:induction false} RegistrationsHold(offers: seq<Offer>)
    requires Undotted(offers)
    ensures Holds(RegisterAll(offers), Accepted(offers))
  {
    if offers != [] {
      var init, o := offers[..|offers| - 1], offers[|offers| - 1];
      var t, log := RegisterAll(init), Accepted(init);
      RegistrationsHold(init);
      KeyIsTaken(t, log, o.service, o.name);
      if |o.service| != 0 && |o.name| != 0 && o.fn.Some? && !Taken(log, o.service, o.name) {
        EntryHolds(t, log, Entry(o.service, o.name, o.fn.value), Register(t, o));
      }
    }
  }

  /** With a handler of its own, a request gets that handler's result. */
  lemma OwnHandlerAnswers(t: Table, e: Entry, r: Request)
    requires HoldsEntry(t, e) && e.service == r.service && e.name == r.name
    ensures var (status, payload) := Dispatch(t, r);
      match e.handler(r.payload)
      case Returned(p) => status == 0x00 && payload == p
      case Threw => status == 0x09 && payload == []
  {
    assert KeyOf(e) == MakeKey(r.service, r.name);
  }

  lemma ServiceIsKnown(t: Table, log: seq<Entry>, service: bytes)
    requires Holds(t, log)
    ensures service in t.services <==> Known(log, service)
  {
    if i :| 0 <= i < |log| && log[i].service == service {
      assert HoldsEntry(t, log[i]);
    }
  }

  /**
   * Routing: after any registrations with undotted service names, a request to
   * an undotted service gets what its own handler makes of its payload, or is
   * told which of the two names is unknown.
   */
  lemma DispatchIsDue(offers: seq<Offer>, r: Request)
    requires Undotted(offers) && DOT !in r.service
    ensures var (status, payload) := Dispatch(RegisterAll(offers), r); Due(Accepted(offers), r, status, payload)
  {
    var t, log := RegisterAll(offers), Accepted(offers);
    RegistrationsHold(offers);
    forall i | 0 <= i < |log| && log[i].service == r.service && log[i].name == r.name
      ensures var (status, payload) := Dispatch(t, r);
        match log[i].handler(r.payload)
        case Returned(p) => status == 0x00 && payload == p
        case Threw => status == 0x09 && payload == []
    {
      assert HoldsEntry(t, log[i]);
      OwnHandlerAnswers(t, log[i], r);
    }
    KeyIsTaken(t, log, r.service, r.name);
    ServiceIsKnown(t, log, r.service);
  }

  class ServiceRegistry {
    var methods: map<bytes, Handler>
    var services: set<bytes>
    var frozen: bool

    ghost function Tables(): Table
      reads this
    {
      Table(methods, services)
    }

    constructor ()
      ensures Tables() == Table(map[], {}) && !frozen
    {
      methods, services, frozen := map[], {}, false;
    }

    /** Refuses empty names, a missing handler, a taken key and a frozen registry; never replaces. */
    method RegisterMethod(service: bytes, name: bytes, fn: Option<Handler>) returns (added: bool)
      modifies this
      ensures added == (!old(frozen) && service != [] && name != [] && fn.Some?
                        && MakeKey(service, name) !in old(methods))
      ensures frozen == old(frozen)
      ensures Tables() == if old(frozen) then old(Tables()) else Register(old(Tables()), Offer(service, name, fn))
      ensures !added ==> Tables() == old(Tables())
    {
      if frozen || service == [] || name == [] || fn.None? {
        return false;
      }
      var key := MakeKey(service, name);
      if key in methods {
        return false;
      }
      methods := methods[key := fn.value];
      services := services + {service};
      return true;
    }

    method Freeze()
      modifies `frozen
      ensures frozen
    {
      frozen := true;
    }

    /** Every registered handler is reachable and every other name is a miss, unless keys alias. */
    method Lookup(r: Request) returns (status: byte, payload: bytes)
      ensures (status, payload) == Dispatch(Tables(), r)
    {
      var key := MakeKey(r.service, r.name);
      if key !in methods {
        return if r.service in services then UNKNOWN_METHOD else UNKNOWN_SERVICE, [];
      }
      match methods[key](r.payload)
      case Returned(p) => return STATUS_OK, p;
      case Threw => return INTERNAL_ERROR, [];
    }
  }
}
