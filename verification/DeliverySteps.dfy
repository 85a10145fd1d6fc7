/** Every step of the acknowledgement protocol keeps the invariant. */
module DeliverySteps {
  import opened Sequences
  import opened Payloads
  import opened Delivery
  import opened DeliveryInvariant
  import opened DeliveryBook

  // --- Sending ---

  /** A payload that has a nonce keeps it. */
  lemma SentAgain(s: State, id: nat, env: Env)
    requires Wf(s) && CanQueue(s.sink) && id < |s.payloads| && s.payloads[id].nonce != ""
    ensures var p, sv := s.payloads[id], Best(s.sink, env.pick(id));
      SendPayload(s, id, env) ==
        s.(payloads := s.payloads[id := p.Transmitted()],
           sink := Put(s.sink, sv, Queued(s.sink.endpoints[sv], p.nonce, id)))
  {
    var p := s.payloads[id];
    assert p.(nonce := p.nonce) == p;
  }

  lemma {:induction false} ResendOneMoves(s: State, env: Env)
    requires Wf(s) && CanQueue(s.sink) && s.resendList != []
    requires s.payloads[s.resendList[0]].DataOk() && s.payloads[s.resendList[0]].nonce != "" && ResendClear(s, env)
    ensures var id := s.resendList[0]; var t := ResendOne(s, env);
      && MovedTo(BookOf(s), BookOf(t), id, Best(s.sink, env.pick(id)))
      && NoncesUnchanged(BookOf(s), BookOf(t))
      && t == s.(payloads := t.payloads, resendList := s.resendList[1..], sink := t.sink)
  {
    var id := s.resendList[0];
    var p := s.payloads[id];
    SentAgain(s, id, env);
    assert ResendOne(s, env).payloads == s.payloads[id := p.Transmitted().(resending := false).ResetSequence()];
  }

  /** Renumbering and moving payloads changes no counter. */
  lemma SameProgressKeepsCounters(s: State, t: State)
    requires CountersOk(s) && AllData(t.payloads) && AllSameProgress(s.payloads, t.payloads)
    requires t == s.(payloads := t.payloads, resendList := t.resendList, sink := t.sink)
    ensures CountersOk(t)
  {
    SameProgressSameTotals(s.payloads, t.payloads);
  }

  lemma ResendOneKeeps(s: State, env: Env)
    requires Inv(s) && CanQueue(s.sink) && s.resendList != [] && ResendClear(s, env)
    ensures var t := ResendOne(s, env);
      Inv(t) && NoncesUnchanged(BookOf(s), BookOf(t)) && t.resendList == s.resendList[1..]
  {
    var id := s.resendList[0];
    var t := ResendOne(s, env);
    assert s.payloads[id].DataOk();
    ResendOneMoves(s, env);
    MovedToKeeps(BookOf(s), BookOf(t), id, Best(s.sink, env.pick(id)));
    RenumberedKeepsOrder(BookOf(s), BookOf(t), id);
    SameProgressKeepsCounters(s, t);
  }

  lemma {:induction false} ResendAllKeeps(s: State, env: Env)
    requires Inv(s) && CanQueue(s.sink) && ResendsClear(s, env)
    ensures Inv(ResendAll(s, env)) && ResendAll(s, env).resendList == []
    decreases |s.resendList|
  {
    if s.resendList != [] {
      ResendOneKeeps(s, env);
      ResendAllKeeps(ResendOne(s, env), env);
    }
  }

  /** The nonce that the payload made next gets. */
  function NextNonce(s: State, env: Env): (x: Nonce)
    requires ListsMatchStatus(s.sink) && CanQueue(s.sink)
    ensures Draws(s, env) ==> x != "" && x !in s.sink.endpoints[Best(s.sink, env.pick(|s.payloads|))].pending
  {
    Drawn(env.draws, s.sink.endpoints[Best(s.sink, env.pick(|s.payloads|))].pending)
  }

  lemma SendEventsAppends(s: State, events: seq<Event>, env: Env)
    requires Wf(s) && CanQueue(s.sink) && Draws(s, env)
    ensures var t := SendEvents(s, events, env);
      && Appended(BookOf(s), BookOf(t), events, Best(s.sink, env.pick(|s.payloads|)), NextNonce(s, env))
      && t == s.(payloads := t.payloads, payloadList := t.payloadList, numPayloads := s.numPayloads + 1, sink := t.sink)
  {
    var t := Listed(s, events);
    var n := |s.payloads|;
    var q := NewPayload(events).(nonce := NextNonce(s, env)).Transmitted();
    assert t.payloads[n := q] == s.payloads + [q];
  }

  /** A payload made from held or arriving events balances the counters. */
  lemma AppendedCounts(s: State, t: State, events: seq<Event>, sv: Server, nonce: Nonce)
    requires CountersOk(s) && !s.shuttingDown && s.numPayloads < s.maxPending
    requires Appended(BookOf(s), BookOf(t), events, sv, nonce)
    requires t == s.(payloads := t.payloads, payloadList := t.payloadList, numPayloads := s.numPayloads + 1,
                     sink := t.sink, received := t.received, nextSpool := None, spoolOpen := true)
    requires t.received == Accepted(s.payloads) + events
    ensures CountersOk(t)
  {
    var q := NewPayload(events).(nonce := nonce).Transmitted();
    NewPayloadOk(events, nonce);
    TotalsOfSnoc(s.payloads, q);
    assert HandedOver(t.payloads) == HandedOver(s.payloads) + [];
    assert t.received == Accepted(t.payloads) + [] + [];
  }

  lemma HeldSentKeeps(s: State, env: Env)
    requires Inv(s) && !s.shuttingDown && s.nextSpool.Some? && s.numPayloads < s.maxPending
    requires CanQueue(s.sink) && Draws(s, env)
    ensures Inv(SendEvents(s, s.nextSpool.value, env).(nextSpool := None, spoolOpen := true))
  {
    var events := s.nextSpool.value;
    var sv := Best(s.sink, env.pick(|s.payloads|));
    var t := SendEvents(s, events, env).(nextSpool := None, spoolOpen := true);
    SendEventsAppends(s, events, env);
    AppendedKeeps(BookOf(s), BookOf(t), events, sv, NextNonce(s, env));
    assert s.received == Accepted(s.payloads) + events + [];
    AppendedCounts(s, t, events, sv, NextNonce(s, env));
  }

  lemma TryQueueHeldKeeps(s: State, env: Env)
    requires Inv(s) && Draws(s, env) && TryClear(s, env)
    ensures Inv(TryQueueHeld(s, env))
  {
    if !s.shuttingDown && EventsHeld(s) && CanQueue(s.sink) {
      if s.resendList != [] {
        ResendAllKeeps(s, env);
      } else if s.numPayloads < s.maxPending {
        HeldSentKeeps(s, env);
      }
    }
  }

  lemma OpenMeansNothingHeld(s: State)
    requires CountersOk(s) && s.spoolOpen
    ensures !s.shuttingDown && s.nextSpool.None? && s.received == Accepted(s.payloads)
  {
    assert Accepted(s.payloads) + [] + [] == Accepted(s.payloads);
  }

  lemma SpoolSentKeeps(s: State, spool: seq<Event>, env: Env)
    requires Inv(s) && s.spoolOpen && s.numPayloads < s.maxPending
    requires CanQueue(s.sink) && Draws(s, env)
    ensures Inv(SendEvents(s.(received := s.received + spool), spool, env))
  {
    var s1 := s.(received := s.received + spool);
    var sv := Best(s.sink, env.pick(|s.payloads|));
    var t := SendEvents(s1, spool, env);
    OpenMeansNothingHeld(s);
    SendEventsAppends(s1, spool, env);
    AppendedCounts(s, t, spool, sv, NextNonce(s, env));
    AppendedKeeps(BookOf(s), BookOf(t), spool, sv, NextNonce(s, env));
  }

  lemma SpoolHeldKeeps(s: State, spool: seq<Event>)
    requires Inv(s) && s.spoolOpen
    ensures Inv(s.(received := s.received + spool, nextSpool := Some(spool), spoolOpen := false))
  {
    assert s.received + spool == Accepted(s.payloads) + spool + [];
  }

  lemma SpoolArrivesKeeps(s: State, spool: seq<Event>, env: Env)
    requires Inv(s) && s.spoolOpen && Draws(s, env)
    ensures Inv(SpoolArrives(s, spool, env))
  {
    if s.numPayloads < s.maxPending && s.resendList == [] && CanQueue(s.sink) {
      SpoolSentKeeps(s, spool, env);
    } else {
      SpoolHeldKeeps(s, spool);
    }
  }

  // --- Endpoints change status ---

  lemma StatusChangeKeeps(s: State, k: Sink)
    requires Inv(s) && SamePending(s.sink, k) && TransportsOk(k) && Wf(s.(sink := k))
    ensures Inv(s.(sink := k))
  {
    SinkChangeKeeps(BookOf(s), BookOf(s.(sink := k)));
  }

  lemma ActivateKeeps(s: State, sv: Server)
    requires Inv(s) && sv in s.sink.endpoints
    ensures Inv(s.(sink := Activate(s.sink, sv)))
  {
    ActivateOk(s.sink, sv);
    StatusChangeKeeps(s, Activate(s.sink, sv));
  }

  /** What is held can be tried, if it is to be. */
  ghost predicate Ready(trying: Option<State>, env: Env)
    requires trying.Some? ==> Wf(trying.value)
  {
    trying.Some? ==> Draws(trying.value, env) && TryClear(trying.value, env)
  }

  lemma MarkActiveKeeps(s: State, sv: Server, env: Env)
    requires Inv(s) && sv in s.sink.endpoints && Ready(Activated(s, sv), env)
    ensures Inv(MarkActive(s, sv, env))
  {
    ActivateKeeps(s, sv);
    if Activated(s, sv).Some? {
      TryQueueHeldKeeps(s.(sink := Activate(s.sink, sv)), env);
    }
  }

  lemma RecoverFailedKeeps(s: State, sv: Server)
    requires Inv(s) && sv in s.sink.endpoints
    ensures Inv(s.(sink := RecoverFailed(s.sink, sv)))
  {
    RecoverFailedOk(s.sink, sv);
    StatusChangeKeeps(s, RecoverFailed(s.sink, sv));
  }

  lemma StartedKeeps(s: State, sv: Server, env: Env)
    requires Inv(s) && sv in s.sink.endpoints && Ready(Activated(s, sv), env)
    ensures Inv(Started(s, sv, env))
  {
    if s.sink.endpoints[sv].status == Failed {
      RecoverFailedKeeps(s, sv);
    } else {
      MarkActiveKeeps(s, sv, env);
    }
  }

  lemma ForceFailureKeeps(s: State, sv: Server)
    requires Inv(s) && sv in s.sink.endpoints
    ensures Inv(ForceFailure(s, sv))
  {
    MoveFailedOk(s.sink, sv);
    StatusChangeKeeps(s, MoveFailed(s.sink, sv));
  }

  lemma AddEndpointKeeps(s: State, sv: Server)
    requires Inv(s) && sv !in s.sink.endpoints
    ensures Inv(s.(sink := AddEndpoint(s.sink, sv)))
  {
    AddEndpointOk(s.sink, sv);
    StatusChangeKeeps(s, AddEndpoint(s.sink, sv));
  }

  lemma ShutdownEndpointKeeps(s: State, sv: Server)
    requires Inv(s)
    ensures Inv(s.(sink := ShutdownEndpoint(s.sink, sv)))
  {
    ShutdownEndpointOk(s.sink, sv);
    StatusChangeKeeps(s, ShutdownEndpoint(s.sink, sv));
  }

  lemma {:induction false} ShutdownAllKeeps(s: State, servers: seq<Server>)
    requires Inv(s)
    ensures Inv(s.(sink := ShutdownAll(s.sink, servers)))
    decreases |servers|
  {
    if servers != [] {
      ShutdownEndpointKeeps(s, servers[0]);
      ShutdownAllKeeps(s.(sink := ShutdownEndpoint(s.sink, servers[0])), servers[1..]);
    } else {
      assert s.(sink := s.sink) == s;
    }
  }

  function Flagged(s: State): State {
    s.(spoolOpen := false, nextSpool := None, shuttingDown := true, dropped := s.dropped + Held(s))
  }

  lemma FlaggedCounts(s: State)
    requires CountersOk(s) && !s.shuttingDown
    ensures CountersOk(Flagged(s))
  {
    assert s.received == Accepted(s.payloads) + [] + (s.dropped + Held(s));
  }

  /** From now on nothing is received or held. */
  lemma FlaggedKeeps(s: State)
    requires Inv(s) && !s.shuttingDown
    ensures Inv(Flagged(s))
  {
    FlaggedCounts(s);
    SinkChangeKeeps(BookOf(s), BookOf(Flagged(s)));
  }

  lemma ShutdownKeeps(s: State, servers: seq<Server>)
    requires Inv(s) && !s.shuttingDown
    ensures Inv(Shutdown(s, servers))
  {
    var u := s.(sink := ShutdownAll(s.sink, servers));
    ShutdownAllKeeps(s, servers);
    FlaggedKeeps(u);
    assert Held(u) == Held(s);
  }

  // --- Pulling back ---

  lemma RequeueOneIsPulled(s: State, id: nat)
    requires Wf(s) && id < |s.payloads| && s.payloads[id].DataOk()
    ensures var t := RequeueOne(s, id);
      && Pulled(BookOf(s), BookOf(t), id) && NoncesUnchanged(BookOf(s), BookOf(t))
      && t == s.(payloads := t.payloads, resendList := t.resendList)
  {
  }

  lemma RequeueOneKeeps(s: State, id: nat, floating: set<nat>)
    requires Sound(s, floating) && CountersOk(s) && Drained(BookOf(s)) && id in floating
    ensures id < |s.payloads|
    ensures var t := RequeueOne(s, id);
      Sound(t, floating - {id}) && CountersOk(t) && Drained(BookOf(t)) && NoncesUnchanged(BookOf(s), BookOf(t))
  {
    assert s.payloads[id].DataOk();
    var t := RequeueOne(s, id);
    RequeueOneIsPulled(s, id);
    PulledKeeps(BookOf(s), BookOf(t), id, floating);
    RenumberedKeepsOrder(BookOf(s), BookOf(t), id);
    SameProgressKeepsCounters(s, t);
  }

  lemma TailListsRest<T(!new)>(ids: seq<T>, elements: set<T>)
    requires ids != [] && IsOrder(ids, elements)
    ensures ids[0] in elements && IsOrder(ids[1..], elements - {ids[0]})
  {
    assert ids == [ids[0]] + ids[1..];
    assert ids[0] in ids;
  }

  lemma {:induction false} RequeueKeeps(s: State, ids: seq<nat>, floating: set<nat>)
    requires Sound(s, floating) && CountersOk(s) && Drained(BookOf(s)) && IsOrder(ids, floating)
    requires forall i :: 0 <= i < |ids| ==> ids[i] < |s.payloads|
    ensures Inv(Requeue(s, ids)) && NoncesUnchanged(BookOf(s), BookOf(Requeue(s, ids)))
    decreases |ids|
  {
    if ids == [] {
      assert floating == {};
    } else {
      TailListsRest(ids, floating);
      RequeueOneKeeps(s, ids[0], floating);
      RequeueKeeps(RequeueOne(s, ids[0]), ids[1..], floating - {ids[0]});
    }
  }

  /** Emptying one endpoint and queueing what it held for resending. */
  lemma RequeuedKeeps(s: State, k: Sink, sv: Server, order: seq<nat>)
    requires Inv(s) && Emptied(BookOf(s), BookOf(s.(sink := k)), sv) && TransportsOk(k) && Wf(s.(sink := k))
    requires OrderOf(s, sv, order)
    ensures forall i :: 0 <= i < |order| ==> order[i] < |s.payloads|
    ensures Inv(Requeue(s.(sink := k), order))
  {
    var t, floating := s.(sink := k), s.sink.endpoints[sv].pending.Values;
    OrderInRange(s, sv, order);
    EmptiedKeeps(BookOf(s), BookOf(t), sv);
    SinkKeepsCounters(s, k);
    assert Sound(t, floating);
    RequeueKeeps(t, order, floating);
  }

  lemma PullBackKeeps(s: State, k: Sink, sv: Server, order: seq<nat>, env: Env)
    requires Inv(s) && Emptied(BookOf(s), BookOf(s.(sink := k)), sv) && TransportsOk(k) && Wf(s.(sink := k))
    requires OrderOf(s, sv, order) && forall i :: 0 <= i < |order| ==> order[i] < |s.payloads|
    requires Ready(Some(Requeue(s.(sink := k), order)), env)
    ensures Inv(PullBackPending(s.(sink := k), order, env))
  {
    var t := s.(sink := k);
    RequeuedKeeps(s, k, sv, order);
    TryQueueHeldKeeps(Requeue(t, order), env);
  }

  lemma FailedEmptied(s: State, sv: Server)
    requires Wf(s) && sv in s.sink.endpoints && s.sink.endpoints[sv].status == Active
    ensures Wf(s.(sink := FailedEmpty(s.sink, sv)))
    ensures Emptied(BookOf(s), BookOf(s.(sink := FailedEmpty(s.sink, sv))), sv)
  {
  }

  lemma EndpointFailedKeeps(s: State, sv: Server, order: seq<nat>, env: Env)
    requires Inv(s) && OrderOf(s, sv, order) && forall i :: 0 <= i < |order| ==> order[i] < |s.payloads|
    requires Ready(FailedPulled(s, sv, order), env)
    ensures Inv(EndpointFailed(s, sv, order, env))
  {
    var e := s.sink.endpoints[sv];
    if e.status == Active && e.numPayloads == 0 {
      ForceFailureKeeps(s, sv);
    } else if e.status == Active {
      FailedEmptied(s, sv);
      FailedEmptyOk(s.sink, sv);
      PullBackKeeps(s, FailedEmpty(s.sink, sv), sv, order, env);
    }
  }

  lemma RemovedEmptied(s: State, sv: Server)
    requires Wf(s) && sv in s.sink.endpoints
    ensures Wf(s.(sink := RemoveEndpoint(s.sink, sv)))
    ensures Emptied(BookOf(s), BookOf(s.(sink := RemoveEndpoint(s.sink, sv))), sv)
  {
  }

  lemma RemovedKeeps(s: State, sv: Server)
    requires Inv(s) && sv in s.sink.endpoints
    requires s.shuttingDown || s.sink.endpoints[sv].numPayloads == 0
    ensures Inv(s.(sink := RemoveEndpoint(s.sink, sv)))
  {
    var t := s.(sink := RemoveEndpoint(s.sink, sv));
    RemoveEndpointOk(s.sink, sv);
    RemovedEmptied(s, sv);
    RemovedSound(BookOf(s), BookOf(t), sv);
    SinkKeepsCounters(s, t.sink);
  }

  lemma SinkKeepsCounters(s: State, k: Sink)
    requires CountersOk(s)
    ensures CountersOk(s.(sink := k))
  {
  }

  lemma RemovedSound(s: Book, t: Book, sv: Server)
    requires BookOk(s, {}) && Emptied(s, t, sv) && TransportsOk(t.sink)
    requires s.shuttingDown || s.sink.endpoints[sv].numPayloads == 0
    ensures BookOk(t, {}) && (Drained(s) ==> Drained(t))
  {
    var floating := s.sink.endpoints[sv].pending.Values;
    EmptiedKeeps(s, t, sv);
    assert s.shuttingDown || floating == {};
    NothingFloats(t, floating);
  }

  lemma EndpointFinishedKeeps(s: State, sv: Server, readd: bool, order: seq<nat>, env: Env)
    requires Inv(s) && OrderOf(s, sv, order) && forall i :: 0 <= i < |order| ==> order[i] < |s.payloads|
    requires Ready(FinishedPulled(s, sv, order), env)
    ensures Inv(EndpointFinished(s, sv, readd, order, env))
  {
    var s1 := s.(sink := RemoveEndpoint(s.sink, sv));
    if s.shuttingDown || s.sink.endpoints[sv].numPayloads == 0 {
      RemovedKeeps(s, sv);
      ReaddKeeps(s1, sv, readd);
    } else {
      RemovedPulledKeeps(s, sv, order, env);
      ReaddKeeps(PullBackPending(s1, order, env), sv, readd);
    }
  }

  lemma ReaddKeeps(s: State, sv: Server, readd: bool)
    requires Inv(s) && sv !in s.sink.endpoints
    ensures readd ==> Inv(s.(sink := AddEndpoint(s.sink, sv)))
  {
    AddEndpointKeeps(s, sv);
  }

  lemma RemovedPulledKeeps(s: State, sv: Server, order: seq<nat>, env: Env)
    requires Inv(s) && OrderOf(s, sv, order) && forall i :: 0 <= i < |order| ==> order[i] < |s.payloads|
    requires Ready(Some(Requeue(s.(sink := RemoveEndpoint(s.sink, sv)), order)), env)
    ensures Inv(PullBackPending(s.(sink := RemoveEndpoint(s.sink, sv)), order, env))
    ensures sv !in PullBackPending(s.(sink := RemoveEndpoint(s.sink, sv)), order, env).sink.endpoints
  {
    RemoveEndpointOk(s.sink, sv);
    RemovedEmptied(s, sv);
    PullBackKeeps(s, RemoveEndpoint(s.sink, sv), sv, order, env);
  }

  // --- Acknowledgements ---

  lemma RollFrontRollsUp(s: State, outOfSync: int)
    requires Wf(s) && s.payloadList != [] && s.payloadList[0] == First(BookOf(s))
    requires s.payloads[s.payloadList[0]].HasAck()
    ensures RolledUp(BookOf(s), BookOf(RollFront(s, outOfSync)))
    ensures NoncesUnchanged(BookOf(s), BookOf(RollFront(s, outOfSync)))
  {
  }

  lemma RollFrontCounts(s: State, outOfSync: int, lines: int, gone: int)
    requires InOrderOk(BookOf(s)) && CountersBut(s, lines, gone) && s.payloadList != [] && Wf(s)
    requires s.payloads[s.payloadList[0]].HasAck()
    ensures CountersBut(RollFront(s, outOfSync), lines,
                        if s.payloads[s.payloadList[0]].Rollup().Complete() then gone + 1 else gone)
  {
    var id := s.payloadList[0];
    var p := s.payloads[id];
    assert id == First(BookOf(s)) && p.DataOk();
    RollupFacts(p);
    TotalsOfProgress(s.payloads, id, p.Rollup());
  }

  lemma RollFrontKeeps(s: State, outOfSync: int, lines: int, gone: int)
    requires Sound(s, {}) && CountersBut(s, lines, gone) && s.payloadList != []
    requires s.payloads[s.payloadList[0]].HasAck()
    ensures var t := RollFront(s, outOfSync);
      && Sound(t, {}) && NoncesUnchanged(BookOf(s), BookOf(t))
      && (if s.payloads[s.payloadList[0]].Rollup().Complete()
          then CountersBut(t, lines, gone + 1) && t.payloadList == s.payloadList[1..]
          else CountersBut(t, lines, gone) && Drained(BookOf(t)))
  {
    assert s.payloadList[0] == First(BookOf(s));
    RollFrontRollsUp(s, outOfSync);
    RolledUpKeeps(BookOf(s), BookOf(RollFront(s, outOfSync)));
    RollFrontCounts(s, outOfSync, lines, gone);
  }

  /** The loop of OnAck leaves no acknowledged event behind at the front. */
  lemma {:induction false} DrainKeeps(s: State, outOfSync: int, lines: int, gone: int)
    requires Sound(s, {}) && CountersBut(s, lines, gone) && s.payloadList != []
    ensures var (t, n) := Drain(s, outOfSync);
      Sound(t, {}) && CountersBut(t, lines, gone + n) && Drained(BookOf(t)) && NoncesUnchanged(BookOf(s), BookOf(t))
    decreases |s.payloadList|
  {
    var p := s.payloads[s.payloadList[0]];
    if !p.HasAck() {
      assert s.payloadList[0] == First(BookOf(s));
    } else {
      var t := RollFront(s, outOfSync);
      RollFrontKeeps(s, outOfSync, lines, gone);
      if p.Rollup().Complete() && t.payloadList != [] {
        DrainKeeps(t, outOfSync - 1, lines, gone + 1);
      }
    }
  }

  /** Counters are not part of the books. */
  lemma CountersApart(s: State, t: State)
    requires Sound(s, {}) && Drained(BookOf(s))
    requires t == s.(numPayloads := t.numPayloads, outOfSync := t.outOfSync, lineCount := t.lineCount)
    ensures Sound(t, {}) && Drained(BookOf(t)) && t.payloads == s.payloads
  {
    assert BookOf(t) == BookOf(s);
  }

  lemma GoneCounted(d: State, n: nat, lines: int)
    requires Sound(d, {}) && CountersBut(d, lines, n) && Drained(BookOf(d))
    ensures Sound(Gone(d, n), {}) && CountersBut(Gone(d, n), lines, 0) && Drained(BookOf(Gone(d, n)))
    ensures Gone(d, n).payloads == d.payloads
  {
    CountersApart(d, Gone(d, n));
  }

  lemma FrontAckedUnfolds(s: State)
    requires Wf(s) && s.payloadList != []
    ensures var r := Drain(s, s.outOfSync + 1); FrontAcked(s) == Gone(r.0, r.1)
  {
  }

  lemma FrontAckedKeeps(s: State, lines: int)
    requires Sound(s, {}) && CountersBut(s, lines, 0) && s.payloadList != []
    ensures var t := FrontAcked(s);
      Sound(t, {}) && CountersBut(t, lines, 0) && Drained(BookOf(t)) && NoncesUnchanged(BookOf(s), BookOf(t))
  {
    var r := Drain(s, s.outOfSync + 1);
    DrainKeeps(s, s.outOfSync + 1, lines, 0);
    FrontAckedUnfolds(s);
    GoneCounted(r.0, r.1, lines);
  }

  /** The ordering clause of OnAck, after the acknowledgement of payload id. */
  lemma InOrderKeeps(s: State, id: nat, firstAck: bool, lines: int)
    requires Sound(s, {}) && CountersBut(s, lines, 0) && s.payloadList != []
    requires id != s.payloadList[0] ==> Drained(BookOf(s))
    ensures var t := InOrder(s, id, firstAck);
      Sound(t, {}) && CountersBut(t, lines, 0) && Drained(BookOf(t)) && NoncesUnchanged(BookOf(s), BookOf(t))
  {
    if id == s.payloadList[0] {
      FrontAckedKeeps(s, lines);
    } else {
      CountersApart(s, s.(outOfSync := s.outOfSync + 1));
    }
  }

  lemma LinesCounted(s: State, lines: int)
    requires Sound(s, {}) && CountersBut(s, lines, 0) && Drained(BookOf(s))
    ensures Inv(s.(lineCount := s.lineCount + lines))
  {
    CountersApart(s, s.(lineCount := s.lineCount + lines));
  }

  lemma OrderedKeeps(s: State, id: nat, firstAck: bool, lines: int)
    requires Sound(s, {}) && CountersBut(s, lines, 0) && s.payloadList != []
    requires id != s.payloadList[0] ==> Drained(BookOf(s))
    ensures Inv(Ordered(s, id, firstAck, lines))
  {
    var t := InOrder(s, id, firstAck);
    InOrderKeeps(s, id, firstAck, lines);
    LinesCounted(t, lines);
  }

  lemma OnAckKeeps(s: State, id: nat, firstAck: bool, lines: int, env: Env)
    requires Sound(s, {}) && CountersBut(s, lines, 0) && s.payloadList != [] && id < |s.payloads|
    requires id != s.payloadList[0] ==> Drained(BookOf(s))
    requires !s.payloads[id].resending
    requires s.payloads[id].Complete() ==> Ready(Some(Ordered(s, id, firstAck, lines)), env)
    ensures Inv(OnAck(s, id, firstAck, lines, env))
  {
    OrderedKeeps(s, id, firstAck, lines);
    if s.payloads[id].Complete() {
      TryQueueHeldKeeps(Ordered(s, id, firstAck, lines), env);
    }
  }

  lemma EndpointAckIsAcked(s: State, sv: Server, x: Nonce, sequence: nat)
    requires Wf(s) && PendingNamed(BookOf(s)) && sv in s.sink.endpoints && x in s.sink.endpoints[sv].pending
    ensures var id := s.sink.endpoints[sv].pending[x]; var p := s.payloads[id];
      && Holds(BookOf(s), sv, id)
      && Acked(BookOf(s), BookOf(EndpointAck(s, sv, x, sequence)), sv, id, p.AckFull(sequence))
      && NoncesUnchanged(BookOf(s), BookOf(EndpointAck(s, sv, x, sequence)))
  {
  }

  lemma EndpointAckCounts(s: State, sv: Server, x: Nonce, sequence: nat)
    requires Wf(s) && CountersOk(s) && sv in s.sink.endpoints && x in s.sink.endpoints[sv].pending
    requires var p := s.payloads[s.sink.endpoints[sv].pending[x]];
      Answers(p, p.Ack(sequence), p.AckLines(sequence), p.AckFull(sequence))
    ensures CountersBut(EndpointAck(s, sv, x, sequence),
                        s.payloads[s.sink.endpoints[sv].pending[x]].AckLines(sequence), 0)
  {
    var id := s.sink.endpoints[sv].pending[x];
    assert s.payloads[id].DataOk();
    TotalsOfProgress(s.payloads, id, s.payloads[id].Ack(sequence));
    assert HandedOver(s.payloads) + [] == HandedOver(s.payloads);
  }

  /** What is known of a payload that is pending somewhere. */
  lemma PendingFacts(s: State, sv: Server, x: Nonce)
    requires Inv(s) && sv in s.sink.endpoints && x in s.sink.endpoints[sv].pending
    ensures var id := s.sink.endpoints[sv].pending[x]; var p := s.payloads[id];
      && Holds(BookOf(s), sv, id)
      && p.DataOk() && p.Numbered(p.base) && Deliverable(p) && !p.resending
      && First(BookOf(s)) <= id && s.payloads[id].nonce == x
      && s.payloadList != [] && (id != s.payloadList[0] ==> id != First(BookOf(s)))
      && s.sink.endpoints[sv].shutdowns == 0
  {
    var id := s.sink.endpoints[sv].pending[x];
    assert s.payloads[id].nonce == x;
    assert Holds(BookOf(s), sv, id);
    assert s.payloads[id].DataOk();
  }

  lemma EndpointAckKeeps(s: State, sv: Server, x: Nonce, sequence: nat)
    requires Inv(s) && sv in s.sink.endpoints && x in s.sink.endpoints[sv].pending
    ensures var id := s.sink.endpoints[sv].pending[x]; var t := EndpointAck(s, sv, x, sequence);
      && Sound(t, {}) && CountersBut(t, s.payloads[id].AckLines(sequence), 0)
      && t.payloadList != [] && (id != t.payloadList[0] ==> Drained(BookOf(t)))
      && !t.payloads[id].resending && NoncesUnchanged(BookOf(s), BookOf(t))
  {
    var id := s.sink.endpoints[sv].pending[x];
    var p := s.payloads[id];
    PendingFacts(s, sv, x);
    EndpointAckIsAcked(s, sv, x, sequence);
    PendingAck(p, sequence);
    AckedKeeps(BookOf(s), BookOf(EndpointAck(s, sv, x, sequence)), sv, id, p.AckLines(sequence), p.AckFull(sequence));
    EndpointAckCounts(s, sv, x, sequence);
  }

  lemma FinishClosingKeeps(s: State, sv: Server)
    requires Inv(s) && sv in s.sink.endpoints && s.sink.endpoints[sv].shutdowns == 0
    ensures Inv(FinishClosing(s, sv))
  {
    var e := s.sink.endpoints[sv];
    if e.status == Closing && e.numPayloads <= 0 {
      ShutdownTransportOk(s.sink, sv);
      StatusChangeKeeps(s, Put(s.sink, sv, ShutdownTransport(e)));
    }
  }

  lemma DrainUnfolds(s: State, outOfSync: int)
    requires Wf(s) && s.payloadList != [] && s.payloads[s.payloadList[0]].HasAck()
    ensures var t := RollFront(s, outOfSync);
      Drain(s, outOfSync) ==
      if !s.payloads[s.payloadList[0]].Rollup().Complete() then (t, 0)
      else if t.payloadList == [] then (t, 1)
      else (Drain(t, outOfSync - 1).0, Drain(t, outOfSync - 1).1 + 1)
  {
  }

  /** An acknowledgement of a pending payload, up to the sink's part. */
  function PendingAcked(s: State, sv: Server, x: Nonce, sequence: int, env: Env): (r: State)
    requires Wf(s) && sv in s.sink.endpoints && x in s.sink.endpoints[sv].pending
    ensures Wf(r) && sv in r.sink.endpoints && r.sink.endpoints[sv].shutdowns == s.sink.endpoints[sv].shutdowns
  {
    var id := s.sink.endpoints[sv].pending[x];
    OnAck(EndpointAck(s, sv, x, sequence), id, !s.payloads[id].HasAck(), s.payloads[id].AckLines(sequence), env)
  }

  lemma PendingAckedKeeps(s: State, sv: Server, x: Nonce, sequence: nat, env: Env)
    requires Inv(s) && sv in s.sink.endpoints && x in s.sink.endpoints[sv].pending
    requires Ready(Trying(s, AckStep(sv, x, sequence, env)), env)
    ensures Inv(PendingAcked(s, sv, x, sequence, env)) && s.sink.endpoints[sv].shutdowns == 0
  {
    var id := s.sink.endpoints[sv].pending[x];
    var p := s.payloads[id];
    var t := EndpointAck(s, sv, x, sequence);
    PendingFacts(s, sv, x);
    EndpointAckKeeps(s, sv, x, sequence);
    OnAckKeeps(t, id, !p.HasAck(), p.AckLines(sequence), env);
  }

  lemma ProcessAckUnfolds(s: State, sv: Server, x: Nonce, sequence: int, env: Env)
    requires Wf(s) && sv in s.sink.endpoints && x in s.sink.endpoints[sv].pending
    ensures ProcessAck(s, sv, x, sequence, env) ==
      if s.payloads[s.sink.endpoints[sv].pending[x]].AckFull(sequence)
      then FinishClosing(PendingAcked(s, sv, x, sequence, env), sv)
      else PendingAcked(s, sv, x, sequence, env)
  {
  }

  lemma ProcessAckKeeps(s: State, sv: Server, x: Nonce, sequence: nat, env: Env)
    requires Inv(s) && sv in s.sink.endpoints && Ready(Trying(s, AckStep(sv, x, sequence, env)), env)
    ensures Inv(ProcessAck(s, sv, x, sequence, env))
  {
    if x in s.sink.endpoints[sv].pending {
      ProcessAckUnfolds(s, sv, x, sequence, env);
      PendingAckedKeeps(s, sv, x, sequence, env);
      FinishClosingKeeps(PendingAcked(s, sv, x, sequence, env), sv);
    }
  }

  // --- Any step ---

  /** Whatever happens next, the invariant is kept, unless a payload is sent again to an endpoint on which another is
      pending under its nonce. */
  lemma StepKeeps(s: State, step: Step)
    requires Inv(s) && Enabled(s, step) && Clear(s, step)
    ensures Inv(Apply(s, step))
  {
    match step
    case SpoolStep(spool, env) => SpoolArrivesKeeps(s, spool, env);
    case AckStep(sv, x, sequence, env) => ReadyToTry(s, step); ProcessAckKeeps(s, sv, x, sequence, env);
    case StartedStep(sv, env) => ReadyToTry(s, step); StartedKeeps(s, sv, env);
    case FailedStep(sv, order, env) =>
      ReadyToTry(s, step); OrderInRange(s, sv, order); EndpointFailedKeeps(s, sv, order, env);
    case FinishedStep(sv, readd, order, env) =>
      ReadyToTry(s, step); OrderInRange(s, sv, order); EndpointFinishedKeeps(s, sv, readd, order, env);
    case BackoffStep(sv, env) => ReadyToTry(s, step); MarkActiveKeeps(s, sv, env);
    case TimeoutStep(sv) => ForceFailureKeeps(s, sv);
    case AddStep(sv) => AddEndpointKeeps(s, sv);
    case CloseStep(sv) => ShutdownEndpointKeeps(s, sv);
    case ShutdownStep(servers) => ShutdownKeeps(s, servers);
  }

  lemma ReadyToTry(s: State, step: Step)
    requires Wf(s) && Enabled(s, step) && Clear(s, step)
    requires step.AckStep? || step.StartedStep? || step.FailedStep? || step.FinishedStep? || step.BackoffStep?
    ensures Ready(Trying(s, step), step.env)
    ensures step.StartedStep? || step.BackoffStep? ==> Trying(s, step) == Activated(s, step.server)
  {
  }
}
