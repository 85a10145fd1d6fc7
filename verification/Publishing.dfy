/**
 The objects of the delivery path, updated in place: payloads, endpoints, the endpoint sink and the
 publisher. Each method is proved to do to the objects what the function of the same name in
 Payloads and Delivery does to their values, so that everything proved about those holds here.
 */
module Publishing {
  import opened Sequences
  import P = Payloads
  import opened Delivery
  import opened DeliveryInvariant
  import opened DeliverySteps
  import opened DeliveryRuns

  type Event = P.Event
  type Nonce = P.Nonce

  class Payload {
    /** Stands for the identity of the object: payloads are numbered as they are made. */
    const id: nat

    var events: seq<Event>
    var lastSequence: int
    var sequenceLen: int
    var ackEvents: int
    var processed: int
    var nonce: Nonce
    var resending: bool

    ghost var orig: seq<Event>
    ghost var base: int
    ghost var acked: int

    ghost function Value(): P.Payload
      reads this
    {
      P.Payload(events, lastSequence, sequenceLen, ackEvents, processed, nonce, resending, orig, base, acked)
    }

    constructor (id: nat, events: seq<Event>)
      ensures this.id == id && Value() == P.NewPayload(events)
    {
      this.id := id;
      this.events, lastSequence, sequenceLen, ackEvents, processed := events, 0, |events|, 0, 0;
      nonce, resending := "", false;
      orig, base, acked := events, 0, 0;
    }

    method Ack(sequence: int) returns (lines: int, complete: bool)
      modifies this
      ensures Value() == old(Value()).Ack(sequence)
      ensures lines == old(Value()).AckLines(sequence) && complete == old(Value()).AckFull(sequence)
    {
      acked := Max(acked, base + Min(sequence, |orig| - base));
      if sequence <= lastSequence {
        return 0, false;
      } else if sequence >= sequenceLen {
        lines := sequenceLen - lastSequence;
        ackEvents := |events|;
        lastSequence := sequence;
        return lines, true;
      }
      lines := sequence - lastSequence;
      ackEvents := ackEvents + lines;
      lastSequence := sequence;
      return lines, false;
    }

    method ResetSequence()
      modifies this`lastSequence, this`sequenceLen
      ensures Value() == old(Value()).ResetSequence()
    {
      lastSequence := 0;
      sequenceLen := |events| - ackEvents;
    }

    predicate HasAck()
      reads this
    {
      ackEvents != 0
    }

    predicate Complete()
      reads this
    {
      |events| == ackEvents
    }

    method Rollup() returns (rollup: seq<Event>)
      requires 0 <= ackEvents <= |events|
      modifies this`events, this`ackEvents, this`processed
      ensures Value() == old(Value()).Rollup() && rollup == old(Value()).RolledUp()
    {
      processed := processed + ackEvents;
      rollup := events[..ackEvents];
      events := events[ackEvents..];
      ackEvents := 0;
    }
  }

  class Endpoint {
    const server: Server

    var status: Status
    var pendingPayloads: map<Nonce, Payload>
    var numPayloads: int
    /** The calls of transport.Shutdown(). */
    var shutdowns: nat

    ghost function Value(): Delivery.Endpoint
      reads this
    {
      Delivery.Endpoint(status, map x | x in pendingPayloads :: pendingPayloads[x].id, numPayloads, shutdowns)
    }

    constructor (server: Server)
      ensures this.server == server && Value() == NewEndpoint && pendingPayloads == map[]
    {
      this.server := server;
      status, pendingPayloads, numPayloads, shutdowns := Idle, map[], 0, 0;
    }

    /** queuePayload panics unless the endpoint is active. */
    method QueuePayload(payload: Payload, draws: seq<Nonce>)
      requires status == Active
      modifies this`pendingPayloads, this`numPayloads, payload`nonce, payload`base
      ensures payload.Value() == old(payload.Value()).(nonce := old(Named(payload, draws))).Transmitted()
      ensures pendingPayloads == old(pendingPayloads)[payload.nonce := payload]
      ensures Value() == Queued(old(Value()), payload.nonce, payload.id)
    {
      if payload.nonce == "" {
        payload.nonce := Generate(draws);
      }
      pendingPayloads := pendingPayloads[payload.nonce := payload];
      numPayloads := numPayloads + 1;
      payload.base := |payload.orig| - (|payload.events| - payload.ackEvents);
    }

    /** The nonce that a payload has once it is queued here. */
    ghost function Named(payload: Payload, draws: seq<Nonce>): Nonce
      reads this, payload`nonce
    {
      if payload.nonce == "" then Drawn(draws, Value().pending) else payload.nonce
    }

    /** Generates nonces until one is not pending here. */
    method Generate(draws: seq<Nonce>) returns (nonce: Nonce)
      ensures nonce == Drawn(draws, Value().pending)
    {
      var k := 0;
      assert draws[0..] == draws;
      while k < |draws|
        invariant k <= |draws| && Drawn(draws[k..], Value().pending) == Drawn(draws, Value().pending)
      {
        if draws[k] !in pendingPayloads {
          return draws[k];
        }
        assert draws[k..][1..] == draws[k + 1..];
        k := k + 1;
      }
      nonce := "";
    }

    /** The endpoint's part of an acknowledgement. One with a nonce that is not pending may be a duplicate, and is
        ignored. */
    method ProcessAck(x: Nonce, sequence: int) returns (payload: Payload?, firstAck: bool, lines: int, complete: bool)
      modifies this`pendingPayloads, this`numPayloads, if x in pendingPayloads then {pendingPayloads[x]} else {}
      ensures payload == if x in old(pendingPayloads) then old(pendingPayloads)[x] else null
      ensures payload == null ==>
        !complete && pendingPayloads == old(pendingPayloads) && numPayloads == old(numPayloads)
      ensures payload != null ==>
        && firstAck == !old(pendingPayloads[x].HasAck())
        && payload.Value() == old(pendingPayloads[x].Value()).Ack(sequence)
        && lines == old(pendingPayloads[x].Value()).AckLines(sequence)
        && complete == old(pendingPayloads[x].Value()).AckFull(sequence)
        && pendingPayloads == (if complete then old(pendingPayloads) - {x} else old(pendingPayloads))
        && numPayloads == (if complete then old(numPayloads) - 1 else old(numPayloads))
    {
      if x !in pendingPayloads {
        return null, false, 0, false;
      }
      payload := pendingPayloads[x];
      firstAck := !payload.HasAck();
      lines, complete := payload.Ack(sequence);
      if complete {
        pendingPayloads := pendingPayloads - {x};
        numPayloads := numPayloads - 1;
      }
    }

    /** Hands back all pending payloads, in whatever order the map yields them. */
    method PullBackPending() returns (pending: seq<Payload>)
      modifies this`pendingPayloads, this`numPayloads
      ensures forall p :: p in pending <==> p in old(pendingPayloads).Values
      ensures pendingPayloads == map[] && numPayloads == 0
      ensures (forall x, y :: x in old(pendingPayloads) && y in old(pendingPayloads) && x != y ==>
                 old(pendingPayloads)[x] != old(pendingPayloads)[y]) ==> NoDup(pending)
    {
      pending := [];
      ghost var names: seq<Nonce> := [];
      var rest := pendingPayloads.Keys;
      while rest != {}
        invariant rest <= pendingPayloads.Keys && |names| == |pending|
        invariant forall i :: 0 <= i < |names| ==>
          names[i] in pendingPayloads && names[i] !in rest && pending[i] == pendingPayloads[names[i]]
        invariant NoDup(names)
        invariant forall x :: x in pendingPayloads && x !in rest ==> pendingPayloads[x] in pending
        decreases rest
      {
        var x :| x in rest;
        pending, names := pending + [pendingPayloads[x]], names + [x];
        rest := rest - {x};
      }
      pendingPayloads := map[];
      numPayloads := 0;
    }

    method ShutdownTransport()
      modifies this`shutdowns
      ensures Value() == Delivery.ShutdownTransport(old(Value()))
    {
      if status == Closing {
        shutdowns := shutdowns + 1;
      }
    }
  }

  ghost function Names(list: seq<Endpoint>): seq<Server> {
    seq(|list|, i requires 0 <= i < |list| => list[i].server)
  }

  lemma {:induction false} NamesWithout(list: seq<Endpoint>, e: Endpoint)
    requires forall i :: 0 <= i < |list| && list[i].server == e.server ==> list[i] == e
    ensures Names(Without(list, e)) == Without(Names(list), e.server)
  {
    if list != [] {
      assert Names(list)[1..] == Names(list[1..]);
      NamesWithout(list[1..], e);
      if list[0] != e {
        assert Names(Without(list, e)) == [list[0].server] + Names(Without(list[1..], e));
      }
    }
  }

  lemma {:induction false} ShutdownAllSnoc(k: Delivery.Sink, servers: seq<Server>, sv: Server)
    requires ListsMatchStatus(k)
    ensures ShutdownAll(k, servers + [sv]) == ShutdownEndpoint(ShutdownAll(k, servers), sv)
    decreases |servers|
  {
    if servers == [] {
      assert servers + [sv] == [sv];
      assert ShutdownAll(k, [sv]) == ShutdownAll(ShutdownEndpoint(k, sv), []);
    } else {
      assert (servers + [sv])[1..] == servers[1..] + [sv];
      ShutdownAllSnoc(ShutdownEndpoint(k, servers[0]), servers[1..], sv);
    }
  }

  class Sink {
    var endpoints: map<Server, Endpoint>
    var readyList: seq<Endpoint>
    var failedList: seq<Endpoint>

    /** The value of the sink. */
    ghost var value: Delivery.Sink

    /** The endpoint is the one registered for its server. */
    ghost predicate Has(e: Endpoint)
      reads this
    {
      e.server in endpoints && endpoints[e.server] == e
    }

    ghost predicate AllKnown(list: seq<Endpoint>)
      reads this
    {
      forall e :: e in list ==> Has(e)
    }

    ghost predicate Valid()
      reads this, endpoints.Values
    {
      && value.endpoints.Keys == endpoints.Keys
      && (forall sv :: sv in endpoints ==> endpoints[sv].server == sv && endpoints[sv].Value() == value.endpoints[sv])
      && value.ready == Names(readyList) && value.failed == Names(failedList)
      && AllKnown(readyList) && AllKnown(failedList)
    }

    /** The endpoints other than e have the values recorded, and the lists are as recorded in k. */
    ghost predicate ValidBut(e: Endpoint, k: Delivery.Sink)
      reads this, endpoints.Values
    {
      && k.endpoints.Keys == endpoints.Keys
      && (forall sv :: sv in endpoints ==>
            endpoints[sv].server == sv && (endpoints[sv] != e ==> endpoints[sv].Value() == k.endpoints[sv]))
      && k.ready == Names(readyList) && k.failed == Names(failedList)
      && AllKnown(readyList) && AllKnown(failedList)
    }

    /** Records what has become of an endpoint, and of the lists. */
    ghost method Record(e: Endpoint, k: Delivery.Sink)
      requires Has(e) && ValidBut(e, k)
      modifies this`value
      ensures Valid() && value == Put(k, e.server, e.Value())
    {
      value := Put(k, e.server, e.Value());
    }

    constructor ()
      ensures Valid() && value == Delivery.Sink(map[], [], []) && endpoints == map[]
    {
      endpoints, readyList, failedList, value := map[], [], [], Delivery.Sink(map[], [], []);
    }

    /** The ready endpoint that the estimated delivery times favour. */
    method Choose(preference: nat) returns (e: Endpoint)
      requires Valid() && ListsMatchStatus(value) && readyList != []
      ensures value.ready != [] && e.server == Best(value, preference) && Has(e) && e.status == Active
    {
      e := readyList[preference % |readyList|];
      assert Names(readyList)[preference % |readyList|] == e.server;
      assert e.server in value.ready;
    }

    /** The nonce that a payload has once it is queued. */
    ghost function Named(p: Payload, preference: nat, draws: seq<Nonce>): Nonce
      requires ListsMatchStatus(value)
      reads this, p`nonce
    {
      if value.ready == [] then ""
      else if p.nonce == "" then Drawn(draws, value.endpoints[Best(value, preference)].pending)
      else p.nonce
    }

    /** Queues a payload on the chosen ready endpoint, if there is one. */
    method QueuePayload(p: Payload, preference: nat, draws: seq<Nonce>) returns (e: Endpoint?)
      requires Valid() && ListsMatchStatus(value)
      modifies p`nonce, p`base, this`value, endpoints.Values`pendingPayloads, endpoints.Values`numPayloads
      ensures Valid() && (e == null <==> old(value).ready == [])
      ensures e == null ==> value == old(value) && p.Value() == old(p.Value())
      ensures e != null ==>
        && Has(e) && e.server == Best(old(value), preference)
        && p.Value() == old(p.Value()).(nonce := old(Named(p, preference, draws))).Transmitted()
        && value == Put(old(value), e.server, Queued(old(value).endpoints[e.server], p.nonce, p.id))
        && e.pendingPayloads == old(e.pendingPayloads)[p.nonce := p]
      ensures forall sv :: sv in endpoints && (e == null || sv != e.server) ==>
        endpoints[sv].pendingPayloads == old(endpoints[sv].pendingPayloads)
    {
      if readyList == [] {
        return null;
      }
      e := QueueOnBest(p, preference, draws);
    }

    /** The chosen endpoint is active, so that it cannot panic. */
    method QueueOnBest(p: Payload, preference: nat, draws: seq<Nonce>) returns (e: Endpoint)
      requires Valid() && ListsMatchStatus(value) && readyList != []
      modifies p`nonce, p`base, this`value, endpoints.Values`pendingPayloads, endpoints.Values`numPayloads
      ensures Valid() && Has(e) && old(value).ready != [] && e.server == Best(old(value), preference)
      ensures p.Value() ==
        old(p.Value()).(nonce := old(Named(p, preference, draws))).Transmitted()
      ensures value == Put(old(value), e.server, Queued(old(value).endpoints[e.server], p.nonce, p.id))
      ensures e.pendingPayloads == old(e.pendingPayloads)[p.nonce := p]
      ensures forall sv :: sv in endpoints && sv != e.server ==>
        endpoints[sv].pendingPayloads == old(endpoints[sv].pendingPayloads)
    {
      e := Choose(preference);
      e.QueuePayload(p, draws);
      Record(e, value);
    }

    method Register(server: Server)
      requires Valid() && ListsMatchStatus(value) && server !in endpoints
      modifies this`endpoints, this`value
      ensures Valid() && value == AddEndpoint(old(value), server)
      ensures endpoints.Keys == old(endpoints).Keys + {server} && fresh(endpoints[server])
      ensures endpoints[server].pendingPayloads == map[]
      ensures forall sv :: sv in old(endpoints) ==> endpoints[sv] == old(endpoints)[sv]
    {
      var e := new Endpoint(server);
      endpoints := endpoints[server := e];
      assert AllKnown(readyList) && AllKnown(failedList);
      value := AddEndpoint(value, server);
    }

    lemma WithoutKnown(list: seq<Endpoint>, e: Endpoint)
      requires AllKnown(list) && Has(e)
      ensures AllKnown(Without(list, e)) && Names(Without(list, e)) == Without(Names(list), e.server)
    {
      forall i | 0 <= i < |list| && list[i].server == e.server ensures list[i] == e {
        assert list[i] in list;
      }
      NamesWithout(list, e);
    }

    /** Takes the endpoint off the list its status puts it on. */
    method Unlist(e: Endpoint)
      requires Valid() && ListsMatchStatus(value) && Has(e)
      modifies this`readyList, this`failedList
      ensures Names(readyList) == Unlisted(value, e.server).ready
      ensures Names(failedList) == Unlisted(value, e.server).failed
      ensures AllKnown(readyList) && AllKnown(failedList)
      ensures e !in readyList && e !in failedList
    {
      WithoutKnown(readyList, e);
      WithoutKnown(failedList, e);
      if e.status == Active {
        readyList := Without(readyList, e);
      } else if e.status == Failed {
        failedList := Without(failedList, e);
      }
      NotNamed(readyList, e, Unlisted(value, e.server).ready);
      NotNamed(failedList, e, Unlisted(value, e.server).failed);
    }

    lemma NotNamed(list: seq<Endpoint>, e: Endpoint, names: seq<Server>)
      requires names == Names(list) && e.server !in names
      ensures e !in list
    {
      forall i | 0 <= i < |list| ensures list[i] != e {
        assert names[i] in names;
      }
    }

    /** A server that has no endpoint is ignored. */
    method RemoveEndpoint(server: Server)
      requires Valid() && ListsMatchStatus(value)
      modifies this
      ensures Valid() && endpoints == old(endpoints) - {server}
      ensures value ==
        if server in old(value).endpoints then Delivery.RemoveEndpoint(old(value), server) else old(value)
    {
      if server in endpoints {
        RemoveKnown(endpoints[server]);
      } else {
        assert endpoints - {server} == endpoints;
      }
    }

    method RemoveKnown(e: Endpoint)
      requires Valid() && ListsMatchStatus(value) && Has(e)
      modifies this
      ensures Valid() && value == Delivery.RemoveEndpoint(old(value), e.server)
      ensures endpoints == old(endpoints) - {e.server}
    {
      Unlist(e);
      endpoints := endpoints - {e.server};
      value := Delivery.RemoveEndpoint(value, e.server);
      assert AllKnown(readyList) && AllKnown(failedList);
    }

    /** The part of markActive before the observer is told. */
    method Activate(e: Endpoint)
      requires Valid() && ListsMatchStatus(value) && Has(e)
      modifies this`readyList, this`value, e`status
      ensures Valid() && value == Delivery.Activate(old(value), e.server)
    {
      value := Delivery.Activate(value, e.server);
      if e.status == Idle {
        e.status := Active;
        readyList := readyList + [e];
      }
    }

    /** The part of moveFailed before the observer is told. */
    method MoveFailed(e: Endpoint)
      requires Valid() && ListsMatchStatus(value) && Has(e)
      modifies this`readyList, this`failedList, this`value, e`status
      ensures Valid() && value == Delivery.MoveFailed(old(value), e.server)
    {
      if e.status == Active {
        Unlist(e);
        e.status := Failed;
        failedList := [e] + failedList;
        value := Delivery.MoveFailed(value, e.server);
        assert Names(failedList) == [e.server] + Names(failedList[1..]);
      }
    }

    method RecoverFailed(e: Endpoint)
      requires Valid() && ListsMatchStatus(value) && Has(e)
      modifies this`readyList, this`failedList, this`value, e`status
      ensures Valid() && value == Delivery.RecoverFailed(old(value), e.server)
    {
      if e.status == Failed {
        Unlist(e);
        e.status := Idle;
        value := Delivery.RecoverFailed(value, e.server);
      }
    }

    /** The endpoint's pending payloads, in the order its map yields them. */
    method PullBackPending(e: Endpoint) returns (pending: seq<Payload>)
      requires Valid() && ListsMatchStatus(value) && Has(e)
      modifies this`value, e`pendingPayloads, e`numPayloads
      ensures Valid() && e.pendingPayloads == map[]
      ensures value == Put(old(value), e.server, old(value).endpoints[e.server].(pending := map[], numPayloads := 0))
      ensures forall p :: p in pending <==> p in old(e.pendingPayloads).Values
      ensures (forall x, y :: x in old(e.pendingPayloads) && y in old(e.pendingPayloads) && x != y ==>
                 old(e.pendingPayloads)[x] != old(e.pendingPayloads)[y]) ==> NoDup(pending)
    {
      assert e.Value() == value.endpoints[e.server];
      pending := e.PullBackPending();
      Record(e, value);
    }

    /** The endpoint's part of an acknowledgement. */
    method EndpointAck(e: Endpoint, x: Nonce, sequence: int)
      returns (p: Payload, firstAck: bool, lines: int, complete: bool)
      requires Valid() && Has(e) && x in e.pendingPayloads
      modifies this`value, e`pendingPayloads, e`numPayloads, e.pendingPayloads[x]
      ensures Valid() && p == old(e.pendingPayloads)[x] && firstAck == !old(e.pendingPayloads[x].HasAck())
      ensures p.Value() == old(e.pendingPayloads[x].Value()).Ack(sequence)
      ensures lines == old(e.pendingPayloads[x].Value()).AckLines(sequence)
      ensures complete == old(e.pendingPayloads[x].Value()).AckFull(sequence)
      ensures e.pendingPayloads == if complete then old(e.pendingPayloads) - {x} else old(e.pendingPayloads)
      ensures var f := old(value).endpoints[e.server];
        && x in f.pending && f.pending[x] == p.id
        && value == if complete
                    then Put(old(value), e.server, f.(pending := f.pending - {x}, numPayloads := f.numPayloads - 1))
                    else old(value)
    {
      ghost var f := value.endpoints[e.server];
      assert f == e.Value();
      p, firstAck, lines, complete := e.ProcessAck(x, sequence);
      if complete {
        assert e.Value().pending == f.pending - {x};
        Record(e, value);
      }
    }

    /** The sink's part: a closing endpoint with nothing left pending has its transport shut down. */
    method FinishClosing(e: Endpoint)
      requires Valid() && Has(e)
      modifies this`value, e`shutdowns
      ensures Valid()
      ensures var f := old(value).endpoints[e.server];
        value == if f.status != Closing || f.numPayloads > 0 then old(value)
                 else Put(old(value), e.server, Delivery.ShutdownTransport(f))
    {
      assert e.Value() == value.endpoints[e.server];
      if e.status == Closing && e.numPayloads <= 0 {
        e.ShutdownTransport();
        Record(e, value);
      }
    }

    /** The part of ShutdownEndpoint that concerns an endpoint not yet closing. */
    method Close(e: Endpoint)
      requires Valid() && ListsMatchStatus(value) && Has(e) && e.status != Closing
      modifies this`readyList, this`failedList, this`value, e`status, e`shutdowns
      ensures Valid() && value == Delivery.ShutdownEndpoint(old(value), e.server)
    {
      Unlist(e);
      e.status := Closing;
      if e.numPayloads == 0 {
        e.ShutdownTransport();
      }
      Record(e, Unlisted(value, e.server));
    }

    method ShutdownEndpoint(server: Server) returns (ok: bool)
      requires Valid() && ListsMatchStatus(value)
      modifies this`readyList, this`failedList, this`value, endpoints.Values`status, endpoints.Values`shutdowns
      ensures Valid() && value == Delivery.ShutdownEndpoint(old(value), server)
      ensures ok == (server in endpoints && old(value).endpoints[server].status != Closing)
    {
      if server !in endpoints || endpoints[server].status == Closing {
        return false;
      }
      Close(endpoints[server]);
      ok := true;
    }

    /** Shutdown, which closes the endpoints in whatever order the map yields them. */
    method Shutdown() returns (ghost order: seq<Server>)
      requires Valid() && ListsMatchStatus(value)
      modifies this`readyList, this`failedList, this`value, endpoints.Values`status, endpoints.Values`shutdowns
      ensures Valid() && IsOrder(order, endpoints.Keys)
      ensures value == ShutdownAll(old(value), order)
    {
      order := [];
      ghost var start := value;
      var rest := endpoints.Keys;
      while rest != {}
        invariant ShutDown(start, order, rest)
        decreases rest
      {
        var server :| server in rest;
        ShutdownNext(server, start, order, rest);
        order := order + [server];
        rest := rest - {server};
      }
    }

    /** All endpoints but the rest have been shut down. */
    ghost predicate ShutDown(start: Delivery.Sink, order: seq<Server>, rest: set<Server>)
      reads this, endpoints.Values
    {
      && rest <= endpoints.Keys && NoDup(order)
      && (forall sv :: sv in order <==> sv in endpoints && sv !in rest)
      && Valid() && ListsMatchStatus(value) && ListsMatchStatus(start) && value == ShutdownAll(start, order)
    }

    method ShutdownNext(server: Server, ghost start: Delivery.Sink, ghost order: seq<Server>, ghost rest: set<Server>)
      requires ShutDown(start, order, rest) && server in rest
      modifies this`readyList, this`failedList, this`value, endpoints.Values`status, endpoints.Values`shutdowns
      ensures ShutDown(start, order + [server], rest - {server})
    {
      ShutdownAllSnoc(start, order, server);
      var ok := ShutdownEndpoint(server);
    }
  }

  ghost function Ids(ps: seq<Payload>): seq<nat> {
    seq(|ps|, i requires 0 <= i < |ps| => ps[i].id)
  }

  lemma {:induction false} IdsWithout(list: seq<Payload>, p: Payload)
    requires forall i :: 0 <= i < |list| && list[i].id == p.id ==> list[i] == p
    ensures Ids(Without(list, p)) == Without(Ids(list), p.id)
  {
    if list != [] {
      assert Ids(list)[1..] == Ids(list[1..]);
      IdsWithout(list[1..], p);
      if list[0] != p {
        assert Ids(Without(list, p)) == [list[0].id] + Ids(Without(list[1..], p));
      }
    }
  }

  class Publisher {
    const sink: Sink
    const maxPending: int

    var payloadList: seq<Payload>
    var resendList: seq<Payload>
    var numPayloads: int
    var outOfSync: int
    var lineCount: int
    var nextSpool: Option<seq<Event>>
    /** Whether the channel from the spooler is being read. */
    var spoolOpen: bool
    var shuttingDown: bool
    /** The acknowledged events added to the registrar's spool, one sequence an event. */
    var registrarSpool: seq<seq<Event>>
    /** Numbers the payloads. */
    var made: nat

    /** Every payload made, by number. */
    ghost var all: seq<Payload>
    /** The value of the publisher, its sink and its payloads. */
    ghost var value: State

    ghost predicate Known(p: Payload)
      reads this
    {
      p.id < |all| && all[p.id] == p
    }

    ghost predicate AllKnown(list: seq<Payload>)
      reads this
    {
      forall p :: p in list ==> Known(p)
    }

    ghost predicate PendingKnown()
      reads this, sink, sink.endpoints.Values
    {
      forall sv, x :: sv in sink.endpoints && x in sink.endpoints[sv].pendingPayloads ==>
        Known(sink.endpoints[sv].pendingPayloads[x])
    }

    /** The payloads have the values recorded. */
    ghost predicate PayloadsHave(values: seq<P.Payload>)
      reads this, all
    {
      && made == |all| == |values|
      && (forall i :: 0 <= i < |all| ==> all[i].id == i && all[i].Value() == values[i])
    }

    /** The fields of the publisher have the values recorded. */
    ghost predicate FieldsHave(s: State)
      reads this
    {
      && AllKnown(payloadList) && s.payloadList == Ids(payloadList)
      && AllKnown(resendList) && s.resendList == Ids(resendList)
      && s.numPayloads == numPayloads && s.maxPending == maxPending
      && s.outOfSync == outOfSync && s.lineCount == lineCount
      && s.nextSpool == nextSpool && s.spoolOpen == spoolOpen && s.shuttingDown == shuttingDown
      && s.released == Flatten(registrarSpool)
    }

    ghost predicate Valid()
      reads this, sink, sink.endpoints.Values, all
    {
      && sink.Valid() && sink.value == value.sink
      && PayloadsHave(value.payloads) && FieldsHave(value) && PendingKnown()
    }

    /** The payloads other than p have the values recorded. */
    ghost predicate PayloadsHaveBut(p: Payload, values: seq<P.Payload>)
      reads this, all
    {
      && made == |all| == |values|
      && (forall i :: 0 <= i < |all| ==> all[i].id == i && (all[i] != p ==> all[i].Value() == values[i]))
    }

    /** Records what has become of the sink. */
    ghost method RecordSink()
      requires sink.Valid() && PayloadsHave(value.payloads) && FieldsHave(value) && PendingKnown()
      modifies this`value
      ensures Valid() && value == old(value).(sink := sink.value)
    {
      value := value.(sink := sink.value);
    }

    /** Records what has become of a payload and the sink. */
    ghost method Record(p: Payload)
      requires sink.Valid() && Known(p) && PayloadsHaveBut(p, value.payloads) && FieldsHave(value) && PendingKnown()
      modifies this`value
      ensures Valid() && p.id < |old(value).payloads|
      ensures value == old(value).(payloads := old(value).payloads[p.id := p.Value()], sink := sink.value)
    {
      value := value.(payloads := value.payloads[p.id := p.Value()], sink := sink.value);
    }

    constructor (maxPending: int)
      ensures Valid() && value == Init(maxPending)
    {
      sink := new Sink();
      this.maxPending := maxPending;
      payloadList, resendList, numPayloads, outOfSync, lineCount := [], [], 0, 0, 0;
      nextSpool, spoolOpen, shuttingDown, registrarSpool, made := None, true, false, [], 0;
      all, value := [], Init(maxPending);
    }

    /** The nonce that payload id, which has this one, has once it is sent. */
    ghost function NonceFor(s: State, nonce: Nonce, id: nat, env: Env): Nonce
      requires Wf(s) && CanQueue(s.sink)
    {
      if nonce == "" then Drawn(env.draws, s.sink.endpoints[Best(s.sink, env.pick(id))].pending) else nonce
    }

    lemma SendPayloadUnfolds(s: State, id: nat, env: Env, q: P.Payload)
      requires Wf(s) && id < |s.payloads| && CanQueue(s.sink)
      requires var p := s.payloads[id];
        q == p.(nonce := NonceFor(s, p.nonce, id, env)).Transmitted()
      ensures var sv := Best(s.sink, env.pick(id));
        Delivery.SendPayload(s, id, env) ==
        s.(payloads := s.payloads[id := q], sink := Put(s.sink, sv, Queued(s.sink.endpoints[sv], q.nonce, id)))
    {
    }

    /** Hands the payload to the sink. */
    method QueueOnSink(p: Payload, env: Env)
      requires Valid() && Wf(value) && Known(p) && sink.readyList != []
      modifies p`nonce, p`base, sink`value
      modifies sink.endpoints.Values`pendingPayloads, sink.endpoints.Values`numPayloads
      ensures sink.Valid() && PendingKnown() && FieldsHave(value)
      ensures CanQueue(value.sink)
      ensures p.Value() ==
        old(p.Value()).(nonce := NonceFor(value, old(p.nonce), p.id, env)).Transmitted()
      ensures var sv := Best(value.sink, env.pick(p.id));
        sink.value == Put(value.sink, sv, Queued(value.sink.endpoints[sv], p.nonce, p.id))
    {
      var e := sink.QueuePayload(p, env.pick(p.id), env.draws);
      forall sv, x | sv in sink.endpoints && x in sink.endpoints[sv].pendingPayloads
        ensures Known(sink.endpoints[sv].pendingPayloads[x])
      {
        if sv == e.server {
          assert sink.endpoints[sv] == e;
        }
      }
    }

    method SendPayload(p: Payload, env: Env)
      requires Valid() && Wf(value) && Known(p) && sink.readyList != []
      modifies this`value, p`nonce, p`base, sink`value
      modifies sink.endpoints.Values`pendingPayloads, sink.endpoints.Values`numPayloads
      ensures Valid() && CanQueue(old(value).sink) && value == Delivery.SendPayload(old(value), p.id, env)
    {
      QueueOnSink(p, env);
      SendPayloadUnfolds(value, p.id, env, p.Value());
      Record(p);
    }

    /** Wraps a spool into a new payload at the back of the payload list. */
    method List(events: seq<Event>) returns (p: Payload)
      requires Valid() && Wf(value)
      modifies this`payloadList, this`numPayloads, this`made, this`all, this`value
      ensures Valid() && value == Listed(old(value), events)
      ensures p.id == |old(all)| && Known(p) && fresh(p)
    {
      p := Make(events);
      PutOnPayloadList(p);
    }

    method PutOnPayloadList(p: Payload)
      requires Valid() && Known(p)
      modifies this`payloadList, this`numPayloads, this`value
      ensures Valid()
      ensures value == old(value).(payloadList := old(value).payloadList + [p.id],
        numPayloads := old(value).numPayloads + 1)
    {
      payloadList := payloadList + [p];
      numPayloads := numPayloads + 1;
      value := value.(payloadList := value.payloadList + [p.id], numPayloads := value.numPayloads + 1);
    }

    method Make(events: seq<Event>) returns (p: Payload)
      requires Valid()
      modifies this`made, this`all, this`value
      ensures Valid() && value == old(value).(payloads := old(value).payloads + [P.NewPayload(events)])
      ensures p.id == |old(all)| == |old(value).payloads| && Known(p) && fresh(p)
    {
      p := new Payload(made, events);
      all, made := all + [p], made + 1;
      value := value.(payloads := value.payloads + [P.NewPayload(events)]);
      assert PayloadsHave(value.payloads);
      assert FieldsHave(value);
    }

    /** Wraps a spool into a new payload and sends it. */
    method SendEvents(events: seq<Event>, env: Env)
      requires Valid() && Wf(value) && sink.readyList != []
      modifies this`payloadList, this`numPayloads, this`made, this`all, this`value, sink`value
      modifies sink.endpoints.Values`pendingPayloads, sink.endpoints.Values`numPayloads
      ensures Valid() && CanQueue(old(value).sink) && value == Delivery.SendEvents(old(value), events, env)
    {
      var p := List(events);
      SendPayload(p, env);
    }

    lemma KnownOnce(list: seq<Payload>, p: Payload)
      requires AllKnown(list) && Known(p)
      ensures AllKnown(Without(list, p)) && Ids(Without(list, p)) == Without(Ids(list), p.id)
    {
      forall i | 0 <= i < |list| && list[i].id == p.id ensures list[i] == p {
        assert list[i] in list;
      }
      IdsWithout(list, p);
    }

    /** Takes a payload off the resend list once it is sent. */
    method TakeOffResendList(p: Payload)
      requires Valid() && Wf(value) && Known(p)
      modifies p`resending, p`lastSequence, p`sequenceLen, this`resendList, this`value
      ensures Valid() && value == Resent(old(value), p.id)
    {
      p.resending := false;
      p.ResetSequence();
      Record(p);
      RemoveFromResendList(p);
    }

    /** One turn of the loop of tryQueueHeld. */
    method ResendFront(env: Env)
      requires Valid() && Wf(value) && sink.readyList != [] && resendList != []
      modifies this`value, this`resendList, sink`value, all
      modifies sink.endpoints.Values`pendingPayloads, sink.endpoints.Values`numPayloads
      ensures Valid() && CanQueue(old(value).sink) && old(value).resendList != []
      ensures value == ResendOne(old(value), env) && |resendList| < |old(resendList)|
    {
      var p := resendList[0];
      assert p in resendList && value.resendList[0] == p.id;
      SendPayload(p, env);
      TakeOffResendList(p);
    }

    /** The loop of tryQueueHeld. */
    method ResendHeld(env: Env) returns (didSend: bool)
      requires Valid() && Wf(value) && sink.readyList != []
      modifies this`value, this`resendList, sink`value, all
      modifies sink.endpoints.Values`pendingPayloads, sink.endpoints.Values`numPayloads
      ensures Valid() && CanQueue(old(value).sink) && value == ResendAll(old(value), env)
      ensures didSend == (old(resendList) != [])
    {
      ReadyMeansCanQueue();
      didSend := false;
      ghost var result := ResendAll(value, env);
      while resendList != []
        invariant Resending(env, result)
        invariant if didSend then old(resendList) != [] else resendList == old(resendList)
        decreases |resendList|
      {
        ResendNext(env, result);
        didSend := true;
      }
      AllResent(env, result);
    }

    lemma AllResent(env: Env, result: State)
      requires Resending(env, result) && resendList == []
      ensures Valid() && value == result
    {
      ReadyMeansCanQueue();
    }

    ghost predicate Resending(env: Env, result: State)
      reads this, sink, sink.endpoints.Values, all
    {
      Valid() && Wf(value) && CanQueue(value.sink) && ResendAll(value, env) == result
    }

    method ResendNext(env: Env, ghost result: State)
      requires Resending(env, result) && resendList != []
      modifies this`value, this`resendList, sink`value, all
      modifies sink.endpoints.Values`pendingPayloads, sink.endpoints.Values`numPayloads
      ensures Resending(env, result) && |resendList| < |old(resendList)|
    {
      ReadyMeansCanQueue();
      ResendFront(env);
    }

    lemma ReadyMeansCanQueue()
      requires Valid()
      ensures CanQueue(value.sink) <==> sink.readyList != []
      ensures value.resendList == [] <==> resendList == []
    {
    }

    /** The part of tryQueueHeld that sends the held spool. */
    method SendHeld(env: Env)
      requires Valid() && Wf(value) && sink.readyList != [] && nextSpool.Some?
      modifies this`payloadList, this`numPayloads, this`made, this`all, this`value, this`nextSpool, this`spoolOpen
      modifies sink`value, sink.endpoints.Values`pendingPayloads, sink.endpoints.Values`numPayloads
      ensures Valid() && CanQueue(old(value).sink)
      ensures value == Delivery.SendEvents(old(value), old(nextSpool).value, env).(nextSpool := None, spoolOpen := true)
    {
      SendEvents(nextSpool.value, env);
      ReadAgain();
    }

    /** The held spool is gone, so that the channel is read again. */
    method ReadAgain()
      requires Valid()
      modifies this`value, this`nextSpool, this`spoolOpen
      ensures Valid() && value == old(value).(nextSpool := None, spoolOpen := true)
    {
      nextSpool := None;
      spoolOpen := true;
      value := value.(nextSpool := None, spoolOpen := true);
    }

    /** The rest of tryQueueHeld, once there is something to send and somewhere to send it. */
    method QueueHeld(env: Env) returns (sent: bool)
      requires Valid() && Wf(value) && sink.readyList != [] && !shuttingDown && EventsHeld(value)
      modifies this, sink`value, sink.endpoints.Values`pendingPayloads, sink.endpoints.Values`numPayloads, all
      ensures Valid() && value == Delivery.TryQueueHeld(old(value), env) && sent == Sends(old(value))
    {
      ReadyMeansCanQueue();
      sent := false;
      if resendList != [] {
        sent := ResendHeld(env);
      } else if numPayloads < maxPending {
        SendHeld(env);
        sent := true;
      }
    }

    method TryQueueHeld(env: Env) returns (sent: bool)
      requires Valid() && Wf(value)
      modifies this, sink`value, sink.endpoints.Values`pendingPayloads, sink.endpoints.Values`numPayloads, all
      ensures Valid() && value == Delivery.TryQueueHeld(old(value), env) && sent == Sends(old(value))
    {
      ReadyMeansCanQueue();
      sent := false;
      if !shuttingDown && (resendList != [] || nextSpool.Some?) && sink.readyList != [] {
        sent := QueueHeld(env);
      }
    }

    /** A spool arrives from the spooler: it is sent, or held for want of room or of an endpoint. */
    method SpoolArrives(spool: seq<Event>, env: Env)
      requires Valid() && Wf(value)
      modifies this, sink`value, sink.endpoints.Values`pendingPayloads, sink.endpoints.Values`numPayloads
      ensures Valid() && value == Delivery.SpoolArrives(old(value), spool, env)
    {
      ReadyMeansCanQueue();
      value := value.(received := value.received + spool);
      if numPayloads < maxPending && resendList == [] && sink.readyList != [] {
        SendEvents(spool, env);
      } else {
        Hold(spool);
      }
    }

    /** The spool is held, and the channel not read until it is gone. */
    method Hold(spool: seq<Event>)
      requires Valid()
      modifies this`nextSpool, this`spoolOpen, this`value
      ensures Valid() && value == old(value).(nextSpool := Some(spool), spoolOpen := false)
    {
      nextSpool := Some(spool);
      spoolOpen := false;
      value := value.(nextSpool := Some(spool), spoolOpen := false);
    }

    method RequeueOne(p: Payload)
      requires Valid() && Wf(value) && Known(p)
      modifies this`resendList, this`value, p`resending, p`lastSequence, p`sequenceLen
      ensures Valid() && value == Delivery.RequeueOne(old(value), p.id)
    {
      p.resending := true;
      p.ResetSequence();
      Record(p);
      PutOnResendList(p);
    }

    method PutOnResendList(p: Payload)
      requires Valid() && Known(p)
      modifies this`resendList, this`value
      ensures Valid() && value == old(value).(resendList := old(value).resendList + [p.id])
    {
      resendList := resendList + [p];
      value := value.(resendList := value.resendList + [p.id]);
    }

    /** The loop of pullBackPending. */
    method Requeue(list: seq<Payload>)
      requires Valid() && Wf(value) && AllKnown(list)
      modifies this`resendList, this`value, all
      ensures Valid() && (forall i :: 0 <= i < |list| ==> Ids(list)[i] < |old(value).payloads|)
      ensures value == Delivery.Requeue(old(value), Ids(list))
    {
      KnownInRange(list);
      ghost var result := Delivery.Requeue(value, Ids(list));
      assert Ids(list)[0..] == Ids(list);
      var i := 0;
      while i < |list|
        invariant 0 <= i <= |list| && Requeuing(list, i, result)
      {
        RequeueNext(list, i, result);
        i := i + 1;
      }
    }

    /** The payloads from the one numbered i on are still to be put on the resend list. */
    ghost predicate Requeuing(list: seq<Payload>, i: nat, result: State)
      reads this, sink, sink.endpoints.Values, all
    {
      && i <= |list| && Valid() && Wf(value) && AllKnown(list)
      && (forall k :: 0 <= k < |list| ==> Ids(list)[k] < |value.payloads|)
      && Delivery.Requeue(value, Ids(list)[i..]) == result
    }

    method RequeueNext(list: seq<Payload>, i: nat, ghost result: State)
      requires i < |list| && Requeuing(list, i, result)
      modifies this`resendList, this`value, all
      ensures Requeuing(list, i + 1, result)
    {
      assert list[i] in list;
      assert Ids(list)[i..][1..] == Ids(list)[i + 1..];
      RequeueOne(list[i]);
    }

    lemma KnownInRange(list: seq<Payload>)
      requires Valid() && AllKnown(list)
      ensures forall i :: 0 <= i < |list| ==> Ids(list)[i] < |value.payloads|
    {
      forall i | 0 <= i < |list| ensures Ids(list)[i] < |value.payloads| {
        assert list[i] in list;
      }
    }

    method PullBackPending(list: seq<Payload>, env: Env)
      requires Valid() && Wf(value) && AllKnown(list)
      modifies this, sink`value, sink.endpoints.Values`pendingPayloads, sink.endpoints.Values`numPayloads, all
      ensures Valid() && (forall i :: 0 <= i < |list| ==> Ids(list)[i] < |old(value).payloads|)
      ensures value == Delivery.PullBackPending(old(value), Ids(list), env)
    {
      Requeue(list);
      var sent := TryQueueHeld(env);
    }

    // --- Acknowledgements ---

    /** The resend-list clause of OnAck. */
    method OffResendList(p: Payload)
      requires Valid() && Wf(value) && Known(p)
      modifies this`resendList, this`value, p`resending
      ensures Valid() && value == Delivery.OffResendList(old(value), p.id)
    {
      assert value.payloads[p.id] == p.Value();
      if p.resending && p.Complete() {
        p.resending := false;
        Record(p);
        RemoveFromResendList(p);
      }
    }

    method RemoveFromResendList(p: Payload)
      requires Valid() && Known(p)
      modifies this`resendList, this`value
      ensures Valid() && value == old(value).(resendList := Without(old(value).resendList, p.id))
    {
      KnownOnce(resendList, p);
      resendList := Without(resendList, p);
      value := value.(resendList := Without(value.resendList, p.id));
    }

    /** One turn of the loop of OnAck, for the payload at the front. */
    method RollFront(p: Payload, sync: int) returns (dropped: bool)
      requires Valid() && Wf(value) && Known(p) && payloadList != [] && p == payloadList[0]
      requires 0 <= p.ackEvents <= |p.events|
      modifies this`payloadList, this`outOfSync, this`registrarSpool, this`value
      modifies p`events, p`ackEvents, p`processed
      ensures Valid() && old(value).payloadList != [] && value == Delivery.RollFront(old(value), sync)
      ensures dropped == old(value).payloads[p.id].Rollup().Complete()
      ensures payloadList == if dropped then old(payloadList)[1..] else old(payloadList)
    {
      assert p.Value() == value.payloads[p.id];
      RollUp(p);
      dropped := p.Complete();
      if dropped {
        RemoveFront(sync - 1);
      }
    }

    /** Hands the acknowledged events of a payload over to the registrar. */
    method RollUp(p: Payload)
      requires Valid() && Known(p) && 0 <= p.ackEvents <= |p.events|
      modifies this`registrarSpool, this`value, p`events, p`ackEvents, p`processed
      ensures Valid() && p.id < |old(value).payloads|
      ensures var q := old(value).payloads[p.id];
        value == old(value).(released := old(value).released + q.RolledUp(),
                             payloads := old(value).payloads[p.id := q.Rollup()])
    {
      var rollup := TakeAcked(p);
      Release(rollup);
    }

    method TakeAcked(p: Payload) returns (rollup: seq<Event>)
      requires Valid() && Known(p) && 0 <= p.ackEvents <= |p.events|
      modifies this`value, p`events, p`ackEvents, p`processed
      ensures Valid() && p.id < |old(value).payloads| && rollup == old(value).payloads[p.id].RolledUp()
      ensures value == old(value).(payloads := old(value).payloads[p.id := old(value).payloads[p.id].Rollup()])
    {
      assert p.Value() == value.payloads[p.id];
      rollup := CutAcked(p);
      Record(p);
    }

    method CutAcked(p: Payload) returns (rollup: seq<Event>)
      requires Valid() && Known(p) && 0 <= p.ackEvents <= |p.events|
      modifies p`events, p`ackEvents, p`processed
      ensures sink.Valid() && sink.value == value.sink && FieldsHave(value) && PendingKnown()
      ensures PayloadsHaveBut(p, value.payloads)
      ensures rollup == old(p.Value()).RolledUp() && p.Value() == old(p.Value()).Rollup()
    {
      assert p.Value().SplitPoint() == p.ackEvents;
      rollup := p.Rollup();
    }

    /** Adds an event to the registrar's spool. */
    method Release(rollup: seq<Event>)
      requires Valid()
      modifies this`registrarSpool, this`value
      ensures Valid() && value == old(value).(released := old(value).released + rollup)
    {
      FlattenSnoc(registrarSpool, rollup);
      registrarSpool := registrarSpool + [rollup];
      value := value.(released := value.released + rollup);
    }

    method RemoveFront(sync: int)
      requires Valid() && payloadList != []
      modifies this`payloadList, this`outOfSync, this`value
      ensures Valid() && payloadList == old(payloadList)[1..]
      ensures old(value).payloadList != []
      ensures value == old(value).(payloadList := old(value).payloadList[1..], outOfSync := sync)
    {
      assert Ids(payloadList)[1..] == Ids(payloadList[1..]);
      assert forall p :: p in payloadList[1..] ==> p in payloadList;
      payloadList := payloadList[1..];
      outOfSync := sync;
      value := value.(payloadList := value.payloadList[1..], outOfSync := sync);
    }

    /** The payloads slice their events within bounds. */
    ghost predicate Sliceable(s: State) {
      forall i :: 0 <= i < |s.payloads| ==> 0 <= s.payloads[i].ackEvents <= |s.payloads[i].events|
    }

    /** The loop of OnAck. */
    method Drain() returns (numComplete: nat)
      requires Valid() && Wf(value) && payloadList != [] && Sliceable(value)
      modifies this`payloadList, this`outOfSync, this`registrarSpool, this`value, all
      ensures Valid() && old(value).payloadList != []
      ensures (value, numComplete) == Delivery.Drain(old(value), old(outOfSync) + 1)
    {
      ghost var result := Delivery.Drain(value, outOfSync + 1);
      var p := payloadList[0];
      var sync := outOfSync + 1;
      numComplete := 0;
      while p.HasAck()
        invariant Valid() && Wf(value) && Sliceable(value) && payloadList != [] && p == payloadList[0] && Known(p)
        invariant Delivery.Drain(value, sync).0 == result.0
        invariant Delivery.Drain(value, sync).1 + numComplete == result.1
        decreases |payloadList|
      {
        var dropped := DrainNext(p, sync);
        if !dropped {
          return;
        }
        sync := sync - 1;
        numComplete := numComplete + 1;
        if payloadList == [] {
          return;
        }
        assert payloadList[0] in payloadList;
        p := payloadList[0];
      }
    }

    method DrainNext(p: Payload, sync: int) returns (dropped: bool)
      requires Valid() && Wf(value) && Sliceable(value) && payloadList != [] && p == payloadList[0] && Known(p)
      requires p.HasAck() && value.payloadList != []
      modifies this`payloadList, this`outOfSync, this`registrarSpool, this`value
      modifies p`events, p`ackEvents, p`processed
      ensures Valid() && Wf(value) && Sliceable(value)
      ensures payloadList == if dropped then old(payloadList)[1..] else old(payloadList)
      ensures Delivery.Drain(old(value), sync) ==
        if !dropped then (value, 0)
        else if payloadList == [] then (value, 1)
        else (Delivery.Drain(value, sync - 1).0, Delivery.Drain(value, sync - 1).1 + 1)
    {
      DrainUnfolds(value, sync);
      StillSliceable(value, sync);
      dropped := RollFront(p, sync);
    }

    lemma StillSliceable(s: State, sync: int)
      requires Wf(s) && Sliceable(s) && s.payloadList != []
      ensures Sliceable(Delivery.RollFront(s, sync))
    {
    }

    /** The ordering clause of OnAck, for the front. */
    method FrontAcked()
      requires Valid() && Wf(value) && payloadList != [] && Sliceable(value)
      modifies this`payloadList, this`outOfSync, this`numPayloads, this`registrarSpool, this`value, all
      ensures Valid() && old(value).payloadList != [] && value == Delivery.FrontAcked(old(value))
    {
      var numComplete := Drain();
      CountOff(numComplete);
    }

    method CountOff(n: nat)
      requires Valid() && Wf(value)
      modifies this`numPayloads, this`value
      ensures Valid() && value == Gone(old(value), n)
    {
      numPayloads := numPayloads - n;
      value := Gone(value, n);
    }

    /** The ordering clause of OnAck. */
    method InOrder(p: Payload, firstAck: bool)
      requires Valid() && Wf(value) && Known(p) && payloadList != [] && Sliceable(value)
      modifies this`payloadList, this`outOfSync, this`numPayloads, this`registrarSpool, this`value, all
      ensures Valid() && value == Delivery.InOrder(old(value), p.id, firstAck)
    {
      FrontIsFirst(p);
      if p == payloadList[0] {
        FrontAcked();
      } else if firstAck {
        outOfSync := outOfSync + 1;
        value := value.(outOfSync := value.outOfSync + 1);
      }
    }

    /** The ordering and counting of OnAck. */
    method Ordered(p: Payload, firstAck: bool, lines: int)
      requires Valid() && Wf(value) && Known(p) && payloadList != [] && Sliceable(value)
      modifies this`payloadList, this`outOfSync, this`numPayloads, this`lineCount
      modifies this`registrarSpool, this`value, all
      ensures Valid() && value == Delivery.Ordered(old(value), p.id, firstAck, lines)
    {
      InOrder(p, firstAck);
      CountLines(lines);
    }

    method CountLines(lines: int)
      requires Valid()
      modifies this`lineCount, this`value
      ensures Valid() && value == old(value).(lineCount := old(value).lineCount + lines)
    {
      lineCount := lineCount + lines;
      value := value.(lineCount := value.lineCount + lines);
    }

    lemma FrontIsFirst(p: Payload)
      requires Valid() && Known(p) && payloadList != []
      ensures value.payloadList != [] && (p == payloadList[0] <==> p.id == value.payloadList[0])
    {
      assert payloadList[0] in payloadList;
    }

    /** An empty payload list would be a nil front element; it is never empty when a payload is pending. */
    method OnAck(p: Payload, firstAck: bool, lines: int, env: Env)
      requires Valid() && Wf(value) && Known(p) && payloadList != [] && Sliceable(value)
      modifies this, sink`value, sink.endpoints.Values`pendingPayloads, sink.endpoints.Values`numPayloads, all
      ensures Valid() && value == Delivery.OnAck(old(value), p.id, firstAck, lines, env)
    {
      var complete := p.Complete();
      OffResendList(p);
      Ordered(p, firstAck, lines);
      if complete {
        var sent := TryQueueHeld(env);
      }
    }

    /** An acknowledgement of a payload that is pending on the endpoint, up to the sink's part. */
    method AckPending(e: Endpoint, x: Nonce, sequence: int, env: Env) returns (complete: bool)
      requires Valid() && Wf(value) && sink.Has(e) && x in e.pendingPayloads
        && x in value.sink.endpoints[e.server].pending
      requires var t := Delivery.EndpointAck(value, e.server, x, sequence); t.payloadList != [] && Sliceable(t)
      modifies this, sink`value, sink.endpoints.Values`pendingPayloads, sink.endpoints.Values`numPayloads, all
      ensures Valid() && value == PendingAcked(old(value), e.server, x, sequence, env)
      ensures complete == old(value).payloads[old(value).sink.endpoints[e.server].pending[x]].AckFull(sequence)
    {
      var p, firstAck, lines;
      p, firstAck, lines, complete := EndpointAck(e, x, sequence);
      assert payloadList != [] by {
        ReadyToAck();
      }
      OnAck(p, firstAck, lines, env);
    }

    lemma ReadyToAck()
      requires Valid()
      ensures value.payloadList == [] <==> payloadList == []
    {
    }

    lemma AckReady(s: State, sv: Server, x: Nonce, sequence: nat)
      requires Inv(s) && sv in s.sink.endpoints && x in s.sink.endpoints[sv].pending
      ensures var t := Delivery.EndpointAck(s, sv, x, sequence); t.payloadList != [] && Sliceable(t)
    {
      EndpointAckKeeps(s, sv, x, sequence);
      var t := Delivery.EndpointAck(s, sv, x, sequence);
      forall i | 0 <= i < |t.payloads| ensures 0 <= t.payloads[i].ackEvents <= |t.payloads[i].events| {
        assert t.payloads[i].DataOk();
      }
    }

    /** An acknowledgement arrives from an endpoint. Those with an unknown nonce may be duplicates. */
    method ProcessAck(e: Endpoint, x: Nonce, sequence: nat, env: Env)
      requires Valid() && Inv(value) && sink.Has(e)
      modifies this, sink`value, sink.endpoints.Values, all
      ensures Valid() && value == Delivery.ProcessAck(old(value), e.server, x, sequence, env)
    {
      assert e.Value() == value.sink.endpoints[e.server];
      if x in e.pendingPayloads {
        AckReady(value, e.server, x, sequence);
        ProcessAckUnfolds(value, e.server, x, sequence, env);
        AckKnown(e, x, sequence, env);
      }
    }

    method AckKnown(e: Endpoint, x: Nonce, sequence: int, env: Env)
      requires Valid() && Wf(value) && sink.Has(e) && x in e.pendingPayloads
        && x in value.sink.endpoints[e.server].pending
      requires var t := Delivery.EndpointAck(value, e.server, x, sequence); t.payloadList != [] && Sliceable(t)
      modifies this, sink`value, sink.endpoints.Values, all
      ensures Valid()
      ensures var t := PendingAcked(old(value), e.server, x, sequence, env);
        value == if old(value).payloads[old(value).sink.endpoints[e.server].pending[x]].AckFull(sequence)
                 then Delivery.FinishClosing(t, e.server) else t
    {
      var complete := AckPending(e, x, sequence, env);
      if complete {
        FinishClosing(e);
      }
    }

    /** The endpoint's part of an acknowledgement. */
    method EndpointAck(e: Endpoint, x: Nonce, sequence: int)
      returns (p: Payload, firstAck: bool, lines: int, complete: bool)
      requires Valid() && Wf(value) && sink.Has(e) && x in e.pendingPayloads
      modifies this`value, sink`value, e`pendingPayloads, e`numPayloads, e.pendingPayloads[x]
      ensures Valid() && Known(p) && x in old(value).sink.endpoints[e.server].pending
      ensures value == Delivery.EndpointAck(old(value), e.server, x, sequence)
      ensures p.id == old(value).sink.endpoints[e.server].pending[x]
      ensures var q := old(value).payloads[p.id];
        firstAck == !q.HasAck() && lines == q.AckLines(sequence) && complete == q.AckFull(sequence)
    {
      p, firstAck, lines, complete := AckAtSink(e, x, sequence);
      Record(p);
    }

    method AckAtSink(e: Endpoint, x: Nonce, sequence: int)
      returns (p: Payload, firstAck: bool, lines: int, complete: bool)
      requires Valid() && Wf(value) && sink.Has(e) && x in e.pendingPayloads
      modifies sink`value, e`pendingPayloads, e`numPayloads, e.pendingPayloads[x]
      ensures sink.Valid() && PayloadsHaveBut(p, value.payloads) && FieldsHave(value) && PendingKnown() && Known(p)
      ensures x in value.sink.endpoints[e.server].pending && p.id == value.sink.endpoints[e.server].pending[x]
      ensures var q := value.payloads[p.id];
        firstAck == !q.HasAck() && lines == q.AckLines(sequence) && complete == q.AckFull(sequence)
      ensures Delivery.EndpointAck(value, e.server, x, sequence) ==
        value.(payloads := value.payloads[p.id := p.Value()], sink := sink.value)
    {
      PendingIsKnown(e, x);
      p, firstAck, lines, complete := sink.EndpointAck(e, x, sequence);
      StillKnown(e);
      EndpointAckUnfolds(value, e.server, x, sequence, p.Value(), sink.value);
    }

    twostate lemma StillKnown(e: Endpoint)
      requires old(PendingKnown()) && unchanged(this) && unchanged(sink`endpoints) && sink.Has(e)
      requires forall x :: x in sink.endpoints && sink.endpoints[x] != e ==> unchanged(sink.endpoints[x])
      requires forall x :: x in e.pendingPayloads ==>
        x in old(e.pendingPayloads) && e.pendingPayloads[x] == old(e.pendingPayloads[x])
      ensures PendingKnown()
    {
      forall sv, y | sv in sink.endpoints && y in sink.endpoints[sv].pendingPayloads
        ensures Known(sink.endpoints[sv].pendingPayloads[y])
      {
        assert y in old(sink.endpoints[sv].pendingPayloads);
      }
    }

    lemma EndpointAckUnfolds(s: State, sv: Server, x: Nonce, sequence: int, q: P.Payload, k: Delivery.Sink)
      requires Wf(s) && sv in s.sink.endpoints && x in s.sink.endpoints[sv].pending
      requires var f := s.sink.endpoints[sv];
        var p := s.payloads[f.pending[x]];
        && q == p.Ack(sequence)
        && k == if p.AckFull(sequence)
                then Put(s.sink, sv, f.(pending := f.pending - {x}, numPayloads := f.numPayloads - 1))
                else s.sink
      ensures var id := s.sink.endpoints[sv].pending[x];
        Delivery.EndpointAck(s, sv, x, sequence) == s.(payloads := s.payloads[id := q], sink := k)
    {
    }

    lemma PendingIsKnown(e: Endpoint, x: Nonce)
      requires Valid() && sink.Has(e) && x in e.pendingPayloads
      ensures Known(e.pendingPayloads[x]) && value.payloads[e.pendingPayloads[x].id] == e.pendingPayloads[x].Value()
      ensures x in value.sink.endpoints[e.server].pending
      ensures value.sink.endpoints[e.server].pending[x] == e.pendingPayloads[x].id
    {
      assert value.sink.endpoints[e.server] == e.Value();
    }

    /** The sink's part: a closing endpoint with nothing left pending has its transport shut down. */
    method FinishClosing(e: Endpoint)
      requires Valid() && Wf(value) && sink.Has(e)
      modifies this`value, sink`value, e`shutdowns
      ensures Valid() && value == Delivery.FinishClosing(old(value), e.server)
    {
      sink.FinishClosing(e);
      RecordSink();
    }

    // --- Status changes ---

    /** markActive: an idle endpoint becomes ready, and held payloads are tried. */
    method MarkActive(e: Endpoint, env: Env)
      requires Valid() && Wf(value) && sink.Has(e)
      modifies this, sink`value, sink`readyList, e`status
      modifies sink.endpoints.Values`pendingPayloads, sink.endpoints.Values`numPayloads, all
      ensures Valid() && value == Delivery.MarkActive(old(value), e.server, env)
    {
      assert e.Value() == value.sink.endpoints[e.server];
      var wasIdle := e.status == Idle;
      ActivateOnly(e);
      if wasIdle && e.numPayloads == 0 {
        var sent := TryQueueHeld(env);
      }
    }

    method ActivateOnly(e: Endpoint)
      requires Valid() && Wf(value) && sink.Has(e)
      modifies this`value, sink`value, sink`readyList, e`status
      ensures Valid() && value == old(value).(sink := Delivery.Activate(old(value).sink, e.server))
    {
      sink.Activate(e);
      RecordSink();
    }

    /** A transport has started: a failed endpoint recovers, to be marked active after a delay. */
    method Started(e: Endpoint, env: Env)
      requires Valid() && Wf(value) && sink.Has(e)
      modifies this, sink`value, sink`readyList, sink`failedList, e`status
      modifies sink.endpoints.Values`pendingPayloads, sink.endpoints.Values`numPayloads, all
      ensures Valid() && value == Delivery.Started(old(value), e.server, env)
    {
      assert e.Value() == value.sink.endpoints[e.server];
      if e.status == Failed {
        sink.RecoverFailed(e);
        RecordSink();
      } else {
        MarkActive(e, env);
      }
    }

    method ForceFailure(e: Endpoint)
      requires Valid() && Wf(value) && sink.Has(e)
      modifies this`value, sink`value, sink`readyList, sink`failedList, e`status
      ensures Valid() && value == Delivery.ForceFailure(old(value), e.server)
    {
      sink.MoveFailed(e);
      RecordSink();
    }

    /** The endpoint's pending payloads leave it. */
    method TakePending(e: Endpoint) returns (pending: seq<Payload>)
      requires Valid() && Wf(value) && sink.Has(e) && PendingNamed(BookOf(value))
      modifies this`value, sink`value, e`pendingPayloads, e`numPayloads
      ensures Valid() && AllKnown(pending)
      ensures var k := old(value).sink;
        value == old(value).(sink := Put(k, e.server, k.endpoints[e.server].(pending := map[], numPayloads := 0)))
      ensures OrderOf(old(value), e.server, Ids(pending))
    {
      PendingDistinct(e);
      pending := sink.PullBackPending(e);
      PendingOrder(e.server, old(e.pendingPayloads), pending, old(value));
      RecordSink();
    }

    lemma PendingDistinct(e: Endpoint)
      requires Valid() && sink.Has(e) && PendingNamed(BookOf(value))
      ensures forall x, y :: x in e.pendingPayloads && y in e.pendingPayloads && x != y ==>
        e.pendingPayloads[x] != e.pendingPayloads[y]
      ensures forall p :: p in e.pendingPayloads.Values ==> Known(p)
      ensures forall x :: x in e.pendingPayloads ==>
        x in value.sink.endpoints[e.server].pending
          && value.sink.endpoints[e.server].pending[x] == e.pendingPayloads[x].id
      ensures value.sink.endpoints[e.server].pending.Keys == e.pendingPayloads.Keys
    {
      var m := value.sink.endpoints[e.server].pending;
      assert e.Value() == value.sink.endpoints[e.server];
      forall x, y | x in e.pendingPayloads && y in e.pendingPayloads && x != y
        ensures e.pendingPayloads[x] != e.pendingPayloads[y]
      {
        assert x in m && value.payloads[m[x]].nonce == x && y in m && value.payloads[m[y]].nonce == y;
      }
    }

    lemma PendingOrder(sv: Server, m: map<Nonce, Payload>, pending: seq<Payload>, s: State)
      requires sv in s.sink.endpoints && s.sink.endpoints[sv].pending.Keys == m.Keys
      requires forall x :: x in m ==> s.sink.endpoints[sv].pending[x] == m[x].id
      requires NoDup(pending) && AllKnown(pending) && forall p :: p in pending <==> p in m.Values
      ensures OrderOf(s, sv, Ids(pending))
    {
      var ids := Ids(pending);
      var values := s.sink.endpoints[sv].pending.Values;
      forall i, j | 0 <= i < j < |ids| ensures ids[i] != ids[j] {
        assert pending[i] in pending && pending[j] in pending;
      }
      forall id: nat ensures id in ids <==> id in values {
        if id in ids {
          var i :| 0 <= i < |ids| && ids[i] == id;
          assert pending[i] in pending;
          var x :| x in m && m[x] == pending[i];
          assert s.sink.endpoints[sv].pending[x] == id;
        }
        if id in values {
          var x :| x in s.sink.endpoints[sv].pending && s.sink.endpoints[sv].pending[x] == id;
          assert m[x] in pending;
          var i :| 0 <= i < |pending| && pending[i] == m[x];
          assert ids[i] == id;
        }
      }
    }

    /** Everything pending on the endpoint is pulled back and redelivered. */
    method PullBackAll(e: Endpoint, env: Env) returns (ghost order: seq<nat>)
      requires Valid() && Wf(value) && sink.Has(e) && PendingNamed(BookOf(value))
      modifies this, sink`value, sink.endpoints.Values`pendingPayloads, sink.endpoints.Values`numPayloads, all
      ensures Valid() && OrderOf(old(value), e.server, order)
      ensures forall i :: 0 <= i < |order| ==> order[i] < |old(value).payloads|
      ensures var k := old(value).sink;
        var l := Put(k, e.server, k.endpoints[e.server].(pending := map[], numPayloads := 0));
        Wf(old(value).(sink := l)) && value == Delivery.PullBackPending(old(value).(sink := l), order, env)
    {
      OrderlyEmptying(value, e.server);
      var pending := TakePending(e);
      order := Ids(pending);
      PullBackPending(pending, env);
    }

    lemma OrderlyEmptying(s: State, sv: Server)
      requires Wf(s) && sv in s.sink.endpoints
      ensures Wf(s.(sink := Put(s.sink, sv, s.sink.endpoints[sv].(pending := map[], numPayloads := 0))))
    {
    }

    lemma FailureLeavesPending(s: State, sv: Server, order: seq<nat>)
      requires Wf(s) && sv in s.sink.endpoints
      ensures PendingNamed(BookOf(s)) ==> PendingNamed(BookOf(Delivery.ForceFailure(s, sv)))
      ensures OrderOf(Delivery.ForceFailure(s, sv), sv, order) ==> OrderOf(s, sv, order)
    {
    }

    /** A transport has failed. */
    method EndpointFailed(e: Endpoint, env: Env) returns (ghost order: seq<nat>)
      requires Valid() && Wf(value) && sink.Has(e) && PendingNamed(BookOf(value))
      modifies this, sink`value, sink`readyList, sink`failedList, e`status
      modifies sink.endpoints.Values`pendingPayloads, sink.endpoints.Values`numPayloads, all
      ensures Valid() && OrderOf(old(value), e.server, order)
      ensures forall i :: 0 <= i < |order| ==> order[i] < |old(value).payloads|
      ensures value == Delivery.EndpointFailed(old(value), e.server, order, env)
    {
      ghost var s := value;
      assert e.Value() == s.sink.endpoints[e.server];
      if e.status == Active && e.numPayloads != 0 {
        ForceFailure(e);
        FailureLeavesPending(s, e.server, []);
        order := PullBackAll(e, env);
        FailureLeavesPending(s, e.server, order);
      } else {
        order := SomeSeq(s.sink.endpoints[e.server].pending.Values);
        OrderInRange(s, e.server, order);
        if e.status == Active {
          ForceFailure(e);
        }
      }
    }

    method RemoveEndpoint(e: Endpoint)
      requires Valid() && Wf(value) && sink.Has(e)
      modifies this`value, sink
      ensures Valid() && value == old(value).(sink := Delivery.RemoveEndpoint(old(value).sink, e.server))
      ensures sink.endpoints == old(sink.endpoints) - {e.server}
    {
      sink.RemoveEndpoint(e.server);
      RecordSink();
    }

    method Register(server: Server)
      requires Valid() && Wf(value) && server !in sink.endpoints
      modifies this`value, sink`endpoints, sink`value
      ensures Valid() && server !in old(value).sink.endpoints
      ensures value == old(value).(sink := AddEndpoint(old(value).sink, server))
    {
      sink.Register(server);
      RecordSink();
    }

    /** The pending payloads of an endpoint that is no longer in the sink leave it. */
    method EmptyRemoved(e: Endpoint, ghost s: State) returns (pending: seq<Payload>)
      requires Valid() && e.server !in sink.endpoints
      requires e.server in s.sink.endpoints && e.pendingPayloads.Keys == s.sink.endpoints[e.server].pending.Keys
      requires forall x :: x in e.pendingPayloads ==> s.sink.endpoints[e.server].pending[x] == e.pendingPayloads[x].id
      requires forall p :: p in e.pendingPayloads.Values ==> Known(p)
      requires forall x, y :: x in e.pendingPayloads && y in e.pendingPayloads && x != y ==>
        e.pendingPayloads[x] != e.pendingPayloads[y]
      modifies e`pendingPayloads, e`numPayloads
      ensures Valid() && value == old(value)
      ensures AllKnown(pending) && OrderOf(s, e.server, Ids(pending))
    {
      pending := e.PullBackPending();
      PendingOrder(e.server, old(e.pendingPayloads), pending, s);
    }

    /** What was pending on an endpoint that is no longer in the sink is redelivered. */
    method PullBackRemoved(e: Endpoint, env: Env, ghost s: State) returns (ghost order: seq<nat>)
      requires Valid() && Wf(value) && e.server !in sink.endpoints
      requires e.server in s.sink.endpoints && e.pendingPayloads.Keys == s.sink.endpoints[e.server].pending.Keys
      requires forall x :: x in e.pendingPayloads ==> s.sink.endpoints[e.server].pending[x] == e.pendingPayloads[x].id
      requires forall p :: p in e.pendingPayloads.Values ==> Known(p)
      requires forall x, y :: x in e.pendingPayloads && y in e.pendingPayloads && x != y ==>
        e.pendingPayloads[x] != e.pendingPayloads[y]
      modifies this, sink`value, sink.endpoints.Values`pendingPayloads, sink.endpoints.Values`numPayloads
      modifies e`pendingPayloads, e`numPayloads, all
      ensures Valid() && OrderOf(s, e.server, order) && sink.endpoints == old(sink.endpoints)
      ensures forall i :: 0 <= i < |order| ==> order[i] < |old(value).payloads|
      ensures value == Delivery.PullBackPending(old(value), order, env)
    {
      var pending := EmptyRemoved(e, s);
      order := Ids(pending);
      PullBackPending(pending, env);
    }

    /** OnFinish and the registration that follows it, after the endpoint was removed. */
    method OnFinish(e: Endpoint, readd: bool, env: Env, ghost s: State) returns (ghost order: seq<nat>)
      requires Valid() && Wf(value) && e.server !in sink.endpoints && !shuttingDown
      requires e.server in s.sink.endpoints && e.pendingPayloads.Keys == s.sink.endpoints[e.server].pending.Keys
      requires forall x :: x in e.pendingPayloads ==> s.sink.endpoints[e.server].pending[x] == e.pendingPayloads[x].id
      requires forall p :: p in e.pendingPayloads.Values ==> Known(p)
      requires forall x, y :: x in e.pendingPayloads && y in e.pendingPayloads && x != y ==>
        e.pendingPayloads[x] != e.pendingPayloads[y]
      requires forall id :: id in s.sink.endpoints[e.server].pending.Values ==> id < |value.payloads|
      modifies this, sink`value, sink`endpoints, sink.endpoints.Values`pendingPayloads,
        sink.endpoints.Values`numPayloads
      modifies e`pendingPayloads, e`numPayloads, all
      ensures Valid() && OrderOf(s, e.server, order)
      ensures forall i :: 0 <= i < |order| ==> order[i] < |old(value).payloads|
      ensures var t := if old(e.numPayloads) == 0 then old(value) else Delivery.PullBackPending(old(value), order, env);
        && e.server !in t.sink.endpoints
        && value == if readd then t.(sink := AddEndpoint(t.sink, e.server)) else t
    {
      if e.numPayloads != 0 {
        order := PullBackRemoved(e, env, s);
      } else {
        order := SomeSeq(s.sink.endpoints[e.server].pending.Values);
        forall i | 0 <= i < |order| ensures order[i] < |value.payloads| {
          assert order[i] in order;
        }
      }
      if readd {
        Register(e.server);
      }
    }

    /** A transport has finished: its endpoint is removed, what was pending on it is pulled back, and it
        is registered again if the method wants that. Nothing is pulled back while shutting down. */
    method EndpointFinished(e: Endpoint, readd: bool, env: Env) returns (ghost order: seq<nat>)
      requires Valid() && Wf(value) && sink.Has(e) && PendingNamed(BookOf(value))
      modifies this, sink, sink.endpoints.Values`pendingPayloads, sink.endpoints.Values`numPayloads, all
      ensures Valid() && OrderOf(old(value), e.server, order)
      ensures forall i :: 0 <= i < |order| ==> order[i] < |old(value).payloads|
      ensures value == Delivery.EndpointFinished(old(value), e.server, readd, order, env)
    {
      ghost var s := value;
      assert e.Value() == s.sink.endpoints[e.server];
      PendingDistinct(e);
      order := SomeSeq(s.sink.endpoints[e.server].pending.Values);
      OrderInRange(s, e.server, order);
      RemoveEndpoint(e);
      if !shuttingDown {
        order := OnFinish(e, readd, env, s);
      }
    }

    /** One endpoint is to be closed. */
    method CloseEndpoint(server: Server) returns (ok: bool)
      requires Valid() && Wf(value)
      modifies this`value, sink`value, sink`readyList, sink`failedList
      modifies sink.endpoints.Values`status, sink.endpoints.Values`shutdowns
      ensures Valid() && value == old(value).(sink := Delivery.ShutdownEndpoint(old(value).sink, server))
      ensures ok == (server in old(value).sink.endpoints && old(value).sink.endpoints[server].status != Closing)
    {
      ok := sink.ShutdownEndpoint(server);
      RecordSink();
    }

    method StopReading()
      requires Valid()
      modifies this`spoolOpen, this`nextSpool, this`shuttingDown, this`value
      ensures Valid()
      ensures value == old(value).(spoolOpen := false, nextSpool := None, shuttingDown := true,
                                   dropped := old(value).dropped + Held(old(value)))
    {
      spoolOpen, nextSpool, shuttingDown := false, None, true;
      value := value.(spoolOpen := false, nextSpool := None, shuttingDown := true,
        dropped := value.dropped + Held(value));
    }

    /** Shutdown begins: nothing more is read or held, and every endpoint is closed. */
    method Shutdown() returns (ghost servers: seq<Server>)
      requires Valid() && Wf(value)
      modifies this, sink`value, sink`readyList, sink`failedList
      modifies sink.endpoints.Values`status, sink.endpoints.Values`shutdowns
      ensures Valid() && IsOrder(servers, old(value).sink.endpoints.Keys)
      ensures value == Delivery.Shutdown(old(value), servers)
    {
      StopReading();
      servers := CloseAll();
    }

    /** Every endpoint is closed. */
    method CloseAll() returns (ghost servers: seq<Server>)
      requires Valid() && Wf(value)
      modifies this`value, sink`value, sink`readyList, sink`failedList
      modifies sink.endpoints.Values`status, sink.endpoints.Values`shutdowns
      ensures Valid() && IsOrder(servers, old(value).sink.endpoints.Keys)
      ensures value == old(value).(sink := ShutdownAll(old(value).sink, servers))
    {
      servers := sink.Shutdown();
      RecordSink();
    }

    // --- One iteration ---

    /** A transport failed, or finished: the order is that in which the program iterates the endpoint's map. */
    method PerformPullBack(wanted: Step) returns (ghost step: Step)
      requires Valid() && Inv(value) && Possible(value, wanted) && (wanted.FailedStep? || wanted.FinishedStep?)
      modifies this, sink, sink.endpoints.Values, all
      ensures Valid() && SameButOrder(wanted, step) && ClearStep(old(value), step, value)
    {
      var e := sink.endpoints[wanted.server];
      ghost var order;
      if wanted.FailedStep? {
        order := EndpointFailed(e, wanted.env);
      } else {
        order := EndpointFinished(e, wanted.readd, wanted.env);
      }
      step := wanted.(order := order);
    }

    /** The other steps that concern an endpoint. */
    method PerformOn(wanted: Step)
      requires Valid() && Inv(value) && Possible(value, wanted)
      requires wanted.AckStep? || wanted.StartedStep? || wanted.BackoffStep? || wanted.TimeoutStep?
      modifies this, sink, sink.endpoints.Values, all
      ensures Valid() && ClearStep(old(value), wanted, value)
    {
      var e := sink.endpoints[wanted.server];
      match wanted {
        case AckStep(_, x, sequence, env) => ProcessAck(e, x, sequence, env);
        case StartedStep(_, env) => Started(e, env);
        case BackoffStep(_, env) => MarkActive(e, env);
        case TimeoutStep(_) => ForceFailure(e);
      }
    }

    /** The steps that concern an endpoint that may not be there, and spools. */
    method PerformOther(wanted: Step)
      requires Valid() && Inv(value) && Possible(value, wanted)
      requires wanted.SpoolStep? || wanted.AddStep? || wanted.CloseStep?
      modifies this, sink, sink.endpoints.Values, all
      ensures Valid() && ClearStep(old(value), wanted, value)
    {
      match wanted {
        case SpoolStep(spool, env) => SpoolArrives(spool, env);
        case AddStep(server) => Register(server);
        case CloseStep(server) => var ok := CloseEndpoint(server);
      }
    }

    method PerformShutdown() returns (ghost step: Step)
      requires Valid() && Inv(value) && !shuttingDown
      modifies this, sink, sink.endpoints.Values
      ensures Valid() && step.ShutdownStep? && ClearStep(old(value), step, value)
    {
      ghost var servers := Shutdown();
      step := ShutdownStep(servers);
    }

    /** One iteration of the publisher's loop, or one callback of its timers, on the objects: it is a step of the state
        machine, so that the invariant is kept; and the registrar has been given, of the accepted events, the
        longest prefix that is acknowledged and does not go past an empty spool. */
    method Iterate(wanted: Step) returns (ghost step: Step)
      requires Valid() && Inv(value) && Possible(value, wanted)
      modifies this, sink, sink.endpoints.Values, all
      ensures Valid() && Inv(value) && SameButOrder(wanted, step) && ClearStep(old(value), step, value)
      ensures Flatten(registrarSpool) == Releasable(value.payloads)
    {
      ghost var s := value;
      if wanted.FailedStep? || wanted.FinishedStep? {
        step := PerformPullBack(wanted);
      } else if wanted.AckStep? || wanted.StartedStep? || wanted.BackoffStep? || wanted.TimeoutStep? {
        PerformOn(wanted);
        step := wanted;
      } else if wanted.ShutdownStep? {
        step := PerformShutdown();
      } else {
        PerformOther(wanted);
        step := wanted;
      }
      Kept(s, step, value);
    }

    lemma Kept(s: State, step: Step, t: State)
      requires Inv(s) && ClearStep(s, step, t)
      ensures Inv(t) && t.released == Releasable(t.payloads)
    {
      StepKeeps(s, step);
      ReleasedIsAckedPrefix(t);
    }
  }

  /** The step can happen, and sends no payload again to an endpoint on which another is pending under its nonce,
      whatever the order in which maps are iterated. */
  ghost predicate Possible(s: State, step: Step)
    requires Wf(s)
  {
    match step
    case FailedStep(sv, _, env) =>
      sv in s.sink.endpoints && forall order :: OrderOf(s, sv, order) ==> ReadyFor(s, FailedStep(sv, order, env))
    case FinishedStep(sv, readd, _, env) =>
      sv in s.sink.endpoints && forall order :: OrderOf(s, sv, order) ==>
        ReadyFor(s, FinishedStep(sv, readd, order, env))
    case ShutdownStep(_) => !s.shuttingDown
    case _ => ReadyFor(s, step)
  }

  ghost predicate ReadyFor(s: State, step: Step)
    requires Wf(s)
  {
    Enabled(s, step) && Clear(s, step)
  }

  ghost predicate SameButOrder(wanted: Step, step: Step) {
    match wanted
    case FailedStep(sv, _, env) => step.FailedStep? && step.server == sv && step.env == env
    case FinishedStep(sv, readd, _, env) =>
      step.FinishedStep? && step.server == sv && step.readd == readd && step.env == env
    case ShutdownStep(_) => step.ShutdownStep?
    case _ => step == wanted
  }

  /** A map can be iterated in some order. */
  lemma {:induction false} SomeSeq(values: set<nat>) returns (order: seq<nat>)
    ensures IsOrder(order, values)
    decreases values
  {
    if values == {} {
      order := [];
    } else {
      var v :| v in values;
      var rest := SomeSeq(values - {v});
      order := [v] + rest;
    }
  }
}
