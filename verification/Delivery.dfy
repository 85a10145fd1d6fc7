/**
 The acknowledgement protocol as a state machine on values: the publisher
 (lc-lib/publisher/publisher.go), the endpoint sink and its endpoints (lc-lib/endpoint).

 A payload is named by the order in which it was made, an endpoint by its server. Every
 function below is one routine of the program. What the program leaves to chance or to the
 outside is an argument: which ready endpoint has the best delivery time, the random nonces drawn,
 the iteration order of a map, and whether the method wants a finished endpoint back.
 */
module Delivery {
  import opened Sequences
  import opened Payloads

  type Server = string

  datatype Status = Idle | Active | Failed | Closing

  /** `shutdowns` counts the calls of transport.Shutdown(). */
  datatype Endpoint = Endpoint(status: Status, pending: map<Nonce, nat>, numPayloads: int, shutdowns: nat)

  const NewEndpoint := Endpoint(Idle, map[], 0, 0)

  datatype Sink = Sink(endpoints: map<Server, Endpoint>, ready: seq<Server>, failed: seq<Server>)

  /** The last three fields are history: the events handed to the registrar, the events received
      from the spooler, and the held events given up at shutdown. */
  datatype State = State(
    payloads: seq<Payload>, payloadList: seq<nat>, resendList: seq<nat>,
    numPayloads: int, maxPending: int, outOfSync: int, lineCount: int,
    nextSpool: Option<seq<Event>>, spoolOpen: bool, shuttingDown: bool,
    sink: Sink,
    released: seq<Event>, received: seq<Event>, dropped: seq<Event>)

  function Init(maxPending: int): State {
    State([], [], [], 0, maxPending, 0, 0, None, true, false, Sink(map[], [], []), [], [], [])
  }

  /** The choices a step leaves open: a preference among ready endpoints for each payload, and the
      nonces generated, one after the other, if a payload without one is queued. */
  datatype Env = Env(pick: nat -> nat, draws: seq<Nonce>)

  /** An endpoint is on the ready list exactly when it is active and on the failed list exactly when
      it has failed, once each. */
  ghost predicate ListsMatchStatus(k: Sink) {
    && NoDup(k.ready) && NoDup(k.failed)
    && (forall sv :: sv in k.ready <==> sv in k.endpoints && k.endpoints[sv].status == Active)
    && (forall sv :: sv in k.failed <==> sv in k.endpoints && k.endpoints[sv].status == Failed)
  }

  /** References lead somewhere. */
  ghost predicate Wf(s: State) {
    && (forall i :: 0 <= i < |s.payloadList| ==> s.payloadList[i] < |s.payloads|)
    && (forall i :: 0 <= i < |s.resendList| ==> s.resendList[i] < |s.payloads|)
    && (forall sv, x :: sv in s.sink.endpoints && x in s.sink.endpoints[sv].pending ==>
          s.sink.endpoints[sv].pending[x] < |s.payloads|)
    && ListsMatchStatus(s.sink)
  }

  /** Nothing but pending payloads differs. */
  ghost predicate SameStatus(k: Sink, l: Sink) {
    && k.ready == l.ready && k.failed == l.failed
    && k.endpoints.Keys == l.endpoints.Keys
    && (forall sv :: sv in k.endpoints ==>
          && k.endpoints[sv].status == l.endpoints[sv].status
          && k.endpoints[sv].shutdowns == l.endpoints[sv].shutdowns)
  }

  // --- The sink and its endpoints ---

  predicate CanQueue(k: Sink) { k.ready != [] }

  function Best(k: Sink, preference: nat): (sv: Server)
    requires k.ready != []
    ensures sv in k.ready
  {
    k.ready[preference % |k.ready|]
  }

  function Put(k: Sink, sv: Server, e: Endpoint): Sink {
    k.(endpoints := k.endpoints[sv := e])
  }

  /** The loop that generates nonces until one is not pending on the endpoint. A nonce is never empty, so that the
      empty one stands for draws that are all pending. */
  function Drawn(draws: seq<Nonce>, pending: map<Nonce, nat>): (x: Nonce)
    ensures x == "" || (x in draws && x !in pending)
  {
    if draws == [] then "" else if draws[0] !in pending then draws[0] else Drawn(draws[1..], pending)
  }

  /** queuePayload, on an endpoint that is given the payload under nonce x. */
  function Queued(e: Endpoint, x: Nonce, id: nat): Endpoint {
    e.(pending := e.pending[x := id], numPayloads := e.numPayloads + 1)
  }

  function ShutdownTransport(e: Endpoint): Endpoint {
    if e.status != Closing then e else e.(shutdowns := e.shutdowns + 1)
  }

  /** Removes sv from the ready or failed list according to its status. */
  function Unlisted(k: Sink, sv: Server): (r: Sink)
    requires sv in k.endpoints && ListsMatchStatus(k)
    ensures NoDup(r.ready) && NoDup(r.failed) && r.endpoints == k.endpoints
    ensures forall x :: x in r.ready <==> x in k.ready && x != sv
    ensures forall x :: x in r.failed <==> x in k.failed && x != sv
  {
    WithoutMembers(k.ready, sv);
    WithoutMembers(k.failed, sv);
    match k.endpoints[sv].status
    case Active => k.(ready := Without(k.ready, sv))
    case Failed => k.(failed := Without(k.failed, sv))
    case _ => k
  }

  function AddEndpoint(k: Sink, sv: Server): (r: Sink)
    requires ListsMatchStatus(k) && sv !in k.endpoints
    ensures ListsMatchStatus(r)
  {
    Put(k, sv, NewEndpoint)
  }

  function RemoveEndpoint(k: Sink, sv: Server): (r: Sink)
    requires sv in k.endpoints && ListsMatchStatus(k)
    ensures ListsMatchStatus(r)
  {
    Unlisted(k, sv).(endpoints := k.endpoints - {sv})
  }

  function Activate(k: Sink, sv: Server): (r: Sink)
    requires sv in k.endpoints && ListsMatchStatus(k)
    ensures ListsMatchStatus(r)
  {
    if k.endpoints[sv].status != Idle then k
    else Put(k, sv, k.endpoints[sv].(status := Active)).(ready := k.ready + [sv])
  }

  function MoveFailed(k: Sink, sv: Server): (r: Sink)
    requires sv in k.endpoints && ListsMatchStatus(k)
    ensures ListsMatchStatus(r)
  {
    if k.endpoints[sv].status != Active then k
    else Put(Unlisted(k, sv), sv, k.endpoints[sv].(status := Failed)).(failed := [sv] + k.failed)
  }

  function RecoverFailed(k: Sink, sv: Server): (r: Sink)
    requires sv in k.endpoints && ListsMatchStatus(k)
    ensures ListsMatchStatus(r)
  {
    if k.endpoints[sv].status != Failed then k
    else Put(Unlisted(k, sv), sv, k.endpoints[sv].(status := Idle))
  }

  function ShutdownEndpoint(k: Sink, sv: Server): (r: Sink)
    requires ListsMatchStatus(k)
    ensures ListsMatchStatus(r)
  {
    if sv !in k.endpoints || k.endpoints[sv].status == Closing then k
    else
      var e := k.endpoints[sv].(status := Closing);
      Put(Unlisted(k, sv), sv, if e.numPayloads != 0 then e else ShutdownTransport(e))
  }

  function ShutdownAll(k: Sink, servers: seq<Server>): (r: Sink)
    requires ListsMatchStatus(k)
    ensures ListsMatchStatus(r)
    decreases |servers|
  {
    if servers == [] then k else ShutdownAll(ShutdownEndpoint(k, servers[0]), servers[1..])
  }

  // --- Sending ---

  /** Endpoint.queuePayload on server sv: the payload gets a nonce if it has none, becomes
      pending there, and its unacknowledged events are written to the transport. */
  function QueueOn(s: State, id: nat, sv: Server, draws: seq<Nonce>): (r: State)
    requires Wf(s) && id < |s.payloads| && sv in s.sink.endpoints
    ensures Wf(r) && |r.payloads| == |s.payloads| && SameStatus(r.sink, s.sink)
  {
    var p := s.payloads[id];
    var x := if p.nonce == "" then Drawn(draws, s.sink.endpoints[sv].pending) else p.nonce;
    s.(payloads := s.payloads[id := p.(nonce := x).Transmitted()],
       sink := Put(s.sink, sv, Queued(s.sink.endpoints[sv], x, id)))
  }

  function SendPayload(s: State, id: nat, env: Env): (r: State)
    requires Wf(s) && id < |s.payloads| && CanQueue(s.sink)
    ensures Wf(r) && |r.payloads| == |s.payloads| && SameStatus(r.sink, s.sink)
  {
    QueueOn(s, id, Best(s.sink, env.pick(id)), env.draws)
  }

  /** Wraps a spool into a new payload at the back of the payload list. */
  function Listed(s: State, events: seq<Event>): (r: State)
    requires Wf(s)
    ensures Wf(r)
  {
    s.(payloads := s.payloads + [NewPayload(events)],
       payloadList := s.payloadList + [|s.payloads|],
       numPayloads := s.numPayloads + 1)
  }

  function SendEvents(s: State, events: seq<Event>, env: Env): (r: State)
    requires Wf(s) && CanQueue(s.sink)
    ensures Wf(r) && SameStatus(r.sink, s.sink)
  {
    SendPayload(Listed(s, events), |s.payloads|, env)
  }

  /** Takes a payload off the resend list once it is sent. */
  function Resent(s: State, id: nat): (r: State)
    requires Wf(s) && id < |s.payloads|
    ensures Wf(r)
  {
    s.(payloads := s.payloads[id := s.payloads[id].(resending := false).ResetSequence()],
       resendList := Without(s.resendList, id))
  }

  function ResendOne(s: State, env: Env): (r: State)
    requires Wf(s) && CanQueue(s.sink) && s.resendList != []
    ensures Wf(r) && SameStatus(r.sink, s.sink) && |r.resendList| < |s.resendList|
  {
    Resent(SendPayload(s, s.resendList[0], env), s.resendList[0])
  }

  function ResendAll(s: State, env: Env): (r: State)
    requires Wf(s) && CanQueue(s.sink)
    ensures Wf(r) && SameStatus(r.sink, s.sink)
    decreases |s.resendList|
  {
    if s.resendList == [] then s else ResendAll(ResendOne(s, env), env)
  }

  predicate EventsHeld(s: State) {
    s.resendList != [] || s.nextSpool.Some?
  }

  /** Whether tryQueueHeld has something to send and an endpoint to send it to. */
  predicate Sends(s: State) {
    !s.shuttingDown && CanQueue(s.sink) && (s.resendList != [] || (s.nextSpool.Some? && s.numPayloads < s.maxPending))
  }

  function TryQueueHeld(s: State, env: Env): (r: State)
    requires Wf(s)
    ensures Wf(r) && SameStatus(r.sink, s.sink)
  {
    if s.shuttingDown || !EventsHeld(s) || !CanQueue(s.sink) then s
    else if s.resendList != [] then ResendAll(s, env)
    else if s.numPayloads < s.maxPending then
      SendEvents(s, s.nextSpool.value, env).(nextSpool := None, spoolOpen := true)
    else s
  }

  function SpoolArrives(s: State, spool: seq<Event>, env: Env): (r: State)
    requires Wf(s)
    ensures Wf(r)
  {
    var s1 := s.(received := s.received + spool);
    if s.numPayloads < s.maxPending && s.resendList == [] && CanQueue(s.sink) then
      SendEvents(s1, spool, env)
    else
      s1.(nextSpool := Some(spool), spoolOpen := false)
  }

  // --- Pulling back ---

  function RequeueOne(s: State, id: nat): (r: State)
    requires Wf(s) && id < |s.payloads|
    ensures Wf(r) && |r.payloads| == |s.payloads| && r.sink == s.sink
  {
    s.(payloads := s.payloads[id := s.payloads[id].(resending := true).ResetSequence()],
       resendList := s.resendList + [id])
  }

  /** Puts the payloads on the resend list in the given order. */
  function Requeue(s: State, ids: seq<nat>): (r: State)
    requires Wf(s) && forall i :: 0 <= i < |ids| ==> ids[i] < |s.payloads|
    ensures Wf(r) && |r.payloads| == |s.payloads| && r.sink == s.sink
    decreases |ids|
  {
    if ids == [] then s else Requeue(RequeueOne(s, ids[0]), ids[1..])
  }

  /** The pending payloads of a finished or failed endpoint go back for redelivery; `order` is the
      order in which its map of them is iterated. */
  function PullBackPending(s: State, order: seq<nat>, env: Env): (r: State)
    requires Wf(s) && forall i :: 0 <= i < |order| ==> order[i] < |s.payloads|
    ensures Wf(r) && SameStatus(r.sink, s.sink)
  {
    TryQueueHeld(Requeue(s, order), env)
  }

  // --- Acknowledgements ---

  /** One turn of the loop of OnAck: the acknowledged events of the payload at the front are handed over,
      and the payload leaves the list if that completes it. */
  function RollFront(s: State, outOfSync: int): (r: State)
    requires Wf(s) && s.payloadList != []
    ensures Wf(r) && |r.payloads| == |s.payloads| && r.sink == s.sink
  {
    var id := s.payloadList[0];
    var p := s.payloads[id];
    var s1 := s.(released := s.released + p.RolledUp(), payloads := s.payloads[id := p.Rollup()]);
    if !p.Rollup().Complete() then s1
    else s1.(payloadList := s.payloadList[1..], outOfSync := outOfSync - 1)
  }

  /** The loop of OnAck, which goes on to the next payload for as long as payloads turn out complete. Also
      returns how many payloads left the list. */
  function Drain(s: State, outOfSync: int): (r: (State, nat))
    requires Wf(s) && s.payloadList != []
    ensures Wf(r.0) && |r.0.payloads| == |s.payloads| && r.0.sink == s.sink
    decreases |s.payloadList|
  {
    var p := s.payloads[s.payloadList[0]];
    var t := RollFront(s, outOfSync);
    if !p.HasAck() then (s, 0)
    else if !p.Rollup().Complete() then (t, 0)
    else if t.payloadList == [] then (t, 1)
    else
      var (r, n) := Drain(t, outOfSync - 1);
      (r, n + 1)
  }

  /** The resend-list clause of OnAck. */
  function OffResendList(s: State, id: nat): (r: State)
    requires Wf(s) && id < |s.payloads|
    ensures Wf(r) && |r.payloads| == |s.payloads| && r.sink == s.sink
  {
    if s.payloads[id].resending && s.payloads[id].Complete() then
      s.(payloads := s.payloads[id := s.payloads[id].(resending := false)],
         resendList := Without(s.resendList, id))
    else s
  }

  function Gone(s: State, n: nat): (r: State)
    requires Wf(s)
    ensures Wf(r)
  {
    s.(numPayloads := s.numPayloads - n)
  }

  /** An acknowledgement for the front: the loop, and the payloads that left are counted off. */
  function FrontAcked(s: State): (r: State)
    requires Wf(s) && s.payloadList != []
    ensures Wf(r) && |r.payloads| == |s.payloads| && r.sink == s.sink
  {
    var r := Drain(s, s.outOfSync + 1);
    Gone(r.0, r.1)
  }

  /** The ordering clause of OnAck. */
  function InOrder(s: State, id: nat, firstAck: bool): (r: State)
    requires Wf(s)
    ensures Wf(r) && |r.payloads| == |s.payloads| && r.sink == s.sink
  {
    if s.payloadList != [] && id == s.payloadList[0] then
      FrontAcked(s)
    else if firstAck then
      s.(outOfSync := s.outOfSync + 1)
    else s
  }

  /** OnAck up to the point where held payloads are tried again. */
  function Ordered(s: State, id: nat, firstAck: bool, lines: int): (r: State)
    requires Wf(s)
    ensures Wf(r) && |r.payloads| == |s.payloads| && r.sink == s.sink
  {
    var t := InOrder(s, id, firstAck);
    t.(lineCount := t.lineCount + lines)
  }

  function OnAck(s: State, id: nat, firstAck: bool, lines: int, env: Env): (r: State)
    requires Wf(s) && id < |s.payloads|
    ensures Wf(r) && SameStatus(r.sink, s.sink)
  {
    var t := Ordered(OffResendList(s, id), id, firstAck, lines);
    if s.payloads[id].Complete() then TryQueueHeld(t, env) else t
  }

  /** The endpoint's part of an acknowledgement: the payload takes it, and leaves the pending map when
      it is reported complete. */
  function EndpointAck(s: State, sv: Server, x: Nonce, sequence: int): (r: State)
    requires Wf(s) && sv in s.sink.endpoints && x in s.sink.endpoints[sv].pending
    ensures Wf(r)
  {
    var e := s.sink.endpoints[sv];
    var p := s.payloads[e.pending[x]];
    s.(payloads := s.payloads[e.pending[x] := p.Ack(sequence)],
       sink := if p.AckFull(sequence)
               then Put(s.sink, sv, e.(pending := e.pending - {x}, numPayloads := e.numPayloads - 1))
               else s.sink)
  }

  /** The sink's part: a closing endpoint with nothing left pending has its transport shut down. */
  function FinishClosing(s: State, sv: Server): (r: State)
    requires Wf(s) && sv in s.sink.endpoints
    ensures Wf(r)
  {
    var e := s.sink.endpoints[sv];
    if e.status != Closing || e.numPayloads > 0 then s
    else s.(sink := Put(s.sink, sv, ShutdownTransport(e)))
  }

  function ProcessAck(s: State, sv: Server, x: Nonce, sequence: int, env: Env): (r: State)
    requires Wf(s) && sv in s.sink.endpoints
    ensures Wf(r)
  {
    var e := s.sink.endpoints[sv];
    if x !in e.pending then s
    else
      var id := e.pending[x];
      var p := s.payloads[id];
      var s1 := OnAck(EndpointAck(s, sv, x, sequence), id, !p.HasAck(), p.AckLines(sequence), env);
      if p.AckFull(sequence) then FinishClosing(s1, sv) else s1
  }

  // --- Status changes ---

  function MarkActive(s: State, sv: Server, env: Env): (r: State)
    requires Wf(s) && sv in s.sink.endpoints
    ensures Wf(r)
  {
    var e := s.sink.endpoints[sv];
    var s1 := s.(sink := Activate(s.sink, sv));
    if e.status != Idle || e.numPayloads != 0 then s1 else TryQueueHeld(s1, env)
  }

  function Started(s: State, sv: Server, env: Env): (r: State)
    requires Wf(s) && sv in s.sink.endpoints
    ensures Wf(r)
  {
    if s.sink.endpoints[sv].status == Failed then s.(sink := RecoverFailed(s.sink, sv))
    else MarkActive(s, sv, env)
  }

  function ForceFailure(s: State, sv: Server): (r: State)
    requires Wf(s) && sv in s.sink.endpoints
    ensures Wf(r)
  {
    s.(sink := MoveFailed(s.sink, sv))
  }

  /** MoveFailed on an active endpoint, whose pending payloads are then taken away. */
  function FailedEmpty(k: Sink, sv: Server): (r: Sink)
    requires sv in k.endpoints && ListsMatchStatus(k)
    ensures ListsMatchStatus(r)
  {
    var l := MoveFailed(k, sv);
    Put(l, sv, l.endpoints[sv].(pending := map[], numPayloads := 0))
  }

  function EndpointFailed(s: State, sv: Server, order: seq<nat>, env: Env): (r: State)
    requires Wf(s) && sv in s.sink.endpoints
    requires forall i :: 0 <= i < |order| ==> order[i] < |s.payloads|
    ensures Wf(r)
  {
    var e := s.sink.endpoints[sv];
    if e.status != Active then s
    else if e.numPayloads == 0 then ForceFailure(s, sv)
    else PullBackPending(s.(sink := FailedEmpty(s.sink, sv)), order, env)
  }

  function EndpointFinished(s: State, sv: Server, readd: bool, order: seq<nat>, env: Env): (r: State)
    requires Wf(s) && sv in s.sink.endpoints
    requires forall i :: 0 <= i < |order| ==> order[i] < |s.payloads|
    ensures Wf(r)
  {
    var s1 := s.(sink := RemoveEndpoint(s.sink, sv));
    if s.shuttingDown then s1
    else
      var s2 := if s.sink.endpoints[sv].numPayloads == 0 then s1 else PullBackPending(s1, order, env);
      if readd then s2.(sink := AddEndpoint(s2.sink, sv)) else s2
  }

  function Shutdown(s: State, servers: seq<Server>): (r: State)
    requires Wf(s)
    ensures Wf(r)
  {
    PendingSurvives(s.sink, servers);
    s.(spoolOpen := false, nextSpool := None, shuttingDown := true,
       dropped := s.dropped + Held(s),
       sink := ShutdownAll(s.sink, servers))
  }

  /** Shutting endpoints down leaves their pending payloads where they are. */
  lemma {:induction false} PendingSurvives(k: Sink, servers: seq<Server>)
    requires ListsMatchStatus(k)
    ensures ShutdownAll(k, servers).endpoints.Keys == k.endpoints.Keys
    ensures forall sv :: sv in k.endpoints ==>
      && ShutdownAll(k, servers).endpoints[sv].pending == k.endpoints[sv].pending
      && ShutdownAll(k, servers).endpoints[sv].numPayloads == k.endpoints[sv].numPayloads
    decreases |servers|
  {
    if servers != [] {
      PendingSurvives(ShutdownEndpoint(k, servers[0]), servers[1..]);
    }
  }

  /** The events received but not yet wrapped into a payload. */
  function Held(s: State): seq<Event> {
    if s.nextSpool.Some? then s.nextSpool.value else []
  }

  // --- Steps ---

  /** One iteration of the publisher's loop, or one callback of its timers. */
  datatype Step =
    | SpoolStep(spool: seq<Event>, env: Env)
    | AckStep(server: Server, ack: Nonce, sequence: nat, env: Env)
    | StartedStep(server: Server, env: Env)
    | FailedStep(server: Server, order: seq<nat>, env: Env)
    | FinishedStep(server: Server, readd: bool, order: seq<nat>, env: Env)
    | BackoffStep(server: Server, env: Env)
    | TimeoutStep(server: Server)
    | AddStep(server: Server)
    | CloseStep(server: Server)
    | ShutdownStep(servers: seq<Server>)

  /** An order in which a Go map with these elements may be iterated. */
  ghost predicate IsOrder<T(!new)>(order: seq<T>, elements: set<T>) {
    && NoDup(order)
    && (forall x :: x in order <==> x in elements)
  }

  ghost predicate OrderOf(s: State, sv: Server, order: seq<nat>) {
    sv in s.sink.endpoints && IsOrder(order, s.sink.endpoints[sv].pending.Values)
  }

  lemma OrderInRange(s: State, sv: Server, order: seq<nat>)
    requires Wf(s) && OrderOf(s, sv, order)
    ensures forall i :: 0 <= i < |order| ==> order[i] < |s.payloads|
  {
    forall i | 0 <= i < |order| ensures order[i] < |s.payloads| {
      assert order[i] in order;
      var x :| x in s.sink.endpoints[sv].pending && s.sink.endpoints[sv].pending[x] == order[i];
    }
  }

  /** When a step can happen: spools only arrive while the channel is read, and events only come from
      endpoints in the sink. */
  ghost predicate Happens(s: State, step: Step) {
    match step
    case SpoolStep(_, _) => s.spoolOpen
    case AckStep(sv, _, _, _) => sv in s.sink.endpoints
    case StartedStep(sv, _) => sv in s.sink.endpoints
    case FailedStep(sv, order, _) => OrderOf(s, sv, order)
    case FinishedStep(sv, _, order, _) => OrderOf(s, sv, order)
    case BackoffStep(sv, _) => sv in s.sink.endpoints
    case TimeoutStep(sv) => sv in s.sink.endpoints
    case AddStep(sv) => sv !in s.sink.endpoints
    case CloseStep(_) => true
    case ShutdownStep(servers) => !s.shuttingDown && IsOrder(servers, s.sink.endpoints.Keys)
  }

  /** The payload made next would get a nonce: some draw is not pending on the endpoint it would go to. */
  predicate Draws(s: State, env: Env)
    requires ListsMatchStatus(s.sink)
  {
    CanQueue(s.sink) ==> Drawn(env.draws, s.sink.endpoints[Best(s.sink, env.pick(|s.payloads|))].pending) != ""
  }

  /** Where OnAck stands when it comes to try what is held. */
  function AckOrdered(s: State, sv: Server, x: Nonce, sequence: int): (r: State)
    requires Wf(s) && sv in s.sink.endpoints && x in s.sink.endpoints[sv].pending
    ensures Wf(r)
  {
    var id := s.sink.endpoints[sv].pending[x];
    var p := s.payloads[id];
    Ordered(OffResendList(EndpointAck(s, sv, x, sequence), id), id, !p.HasAck(), p.AckLines(sequence))
  }

  /** Where markActive stands when it comes to try what is held. */
  function Activated(s: State, sv: Server): (r: Option<State>)
    requires Wf(s) && sv in s.sink.endpoints
    ensures r.Some? ==> Wf(r.value)
  {
    var e := s.sink.endpoints[sv];
    if e.status != Idle || e.numPayloads != 0 then None else Some(s.(sink := Activate(s.sink, sv)))
  }

  /** Where OnFail stands when it comes to try what is held. */
  function FailedPulled(s: State, sv: Server, order: seq<nat>): (r: Option<State>)
    requires Wf(s) && sv in s.sink.endpoints && forall i :: 0 <= i < |order| ==> order[i] < |s.payloads|
    ensures r.Some? ==> Wf(r.value)
  {
    if s.sink.endpoints[sv].status != Active || s.sink.endpoints[sv].numPayloads == 0 then None
    else Some(Requeue(s.(sink := FailedEmpty(s.sink, sv)), order))
  }

  /** Where OnFinish stands when it comes to try what is held. */
  function FinishedPulled(s: State, sv: Server, order: seq<nat>): (r: Option<State>)
    requires Wf(s) && sv in s.sink.endpoints && forall i :: 0 <= i < |order| ==> order[i] < |s.payloads|
    ensures r.Some? ==> Wf(r.value)
  {
    if s.shuttingDown || s.sink.endpoints[sv].numPayloads == 0 then None
    else Some(Requeue(s.(sink := RemoveEndpoint(s.sink, sv)), order))
  }

  /** Where a step stands when it comes to try what is held, if it does. */
  ghost function Trying(s: State, step: Step): (r: Option<State>)
    requires Wf(s) && Happens(s, step)
    ensures r.Some? ==> Wf(r.value)
    ensures step.TimeoutStep? || step.AddStep? || step.CloseStep? || step.ShutdownStep? ==> r.None?
  {
    match step
    case AckStep(sv, x, sequence, _) =>
      if x in s.sink.endpoints[sv].pending && s.payloads[s.sink.endpoints[sv].pending[x]].Ack(sequence).Complete()
      then Some(AckOrdered(s, sv, x, sequence)) else None
    case StartedStep(sv, _) => Activated(s, sv)
    case BackoffStep(sv, _) => Activated(s, sv)
    case FailedStep(sv, order, _) => OrderInRange(s, sv, order); FailedPulled(s, sv, order)
    case FinishedStep(sv, _, order, _) => OrderInRange(s, sv, order); FinishedPulled(s, sv, order)
    case _ => None
  }

  /** A step of the program: it can happen, and the loop that draws nonces ends. */
  ghost predicate Enabled(s: State, step: Step)
    requires Wf(s)
  {
    && Happens(s, step)
    && (step.SpoolStep? ==> Draws(s, step.env))
    && (Trying(s, step).Some? ==> Draws(Trying(s, step).value, step.env))
  }

  /** None of the payloads sent again goes to an endpoint on which another is pending under its nonce, of which
      the program makes sure only for payloads that have none yet. */
  predicate ResendsClear(s: State, env: Env)
    requires Wf(s) && CanQueue(s.sink)
    decreases |s.resendList|
  {
    s.resendList == [] || (ResendClear(s, env) && ResendsClear(ResendOne(s, env), env))
  }

  predicate ResendClear(s: State, env: Env)
    requires Wf(s) && CanQueue(s.sink) && s.resendList != []
  {
    s.payloads[s.resendList[0]].nonce !in s.sink.endpoints[Best(s.sink, env.pick(s.resendList[0]))].pending
  }

  predicate TryClear(s: State, env: Env)
    requires Wf(s)
  {
    s.shuttingDown || !CanQueue(s.sink) || ResendsClear(s, env)
  }

  /** The step sends no payload again to an endpoint on which another is pending under its nonce. */
  ghost predicate Clear(s: State, step: Step)
    requires Wf(s) && Happens(s, step)
  {
    Trying(s, step).Some? ==> TryClear(Trying(s, step).value, step.env)
  }

  ghost function Apply(s: State, step: Step): (r: State)
    requires Wf(s) && Happens(s, step)
    ensures Wf(r)
  {
    match step
    case SpoolStep(spool, env) => SpoolArrives(s, spool, env)
    case AckStep(sv, x, sequence, env) => ProcessAck(s, sv, x, sequence, env)
    case StartedStep(sv, env) => Started(s, sv, env)
    case FailedStep(sv, order, env) => OrderInRange(s, sv, order); EndpointFailed(s, sv, order, env)
    case FinishedStep(sv, readd, order, env) => OrderInRange(s, sv, order); EndpointFinished(s, sv, readd, order, env)
    case BackoffStep(sv, env) => MarkActive(s, sv, env)
    case TimeoutStep(sv) => ForceFailure(s, sv)
    case AddStep(sv) => s.(sink := AddEndpoint(s.sink, sv))
    case CloseStep(sv) => s.(sink := ShutdownEndpoint(s.sink, sv))
    case ShutdownStep(servers) => Shutdown(s, servers)
  }
}
