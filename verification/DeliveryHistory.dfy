/**
 What a step of the acknowledgement protocol, and a run of them, can do to what came before: history
 only grows, closing endpoints stay closing, an empty spool blocks all that follows it, and
 the out-of-sync counter only drifts upwards.
 */
module DeliveryHistory {
  import opened Sequences
  import opened Payloads
  import opened Delivery
  import opened DeliveryInvariant
  import opened DeliverySteps
  import opened DeliveryRuns

  // --- History grows ---

  /** Payloads keep their events and their acknowledgements, the registrar is only told more, and new
      payloads wrap the held spool or the incoming one. */
  ghost predicate Later(s: State, t: State, incoming: Option<seq<Event>>) {
    && |s.payloads| <= |t.payloads|
    && (forall i :: 0 <= i < |s.payloads| ==>
          t.payloads[i].orig == s.payloads[i].orig && s.payloads[i].acked <= t.payloads[i].acked)
    && (forall i :: |s.payloads| <= i < |t.payloads| ==>
          Some(t.payloads[i].orig) == s.nextSpool || Some(t.payloads[i].orig) == incoming)
    && (t.nextSpool.Some? ==> t.nextSpool == s.nextSpool || t.nextSpool == incoming)
    && s.released <= t.released && t.maxPending == s.maxPending
    && (s.shuttingDown ==> t.shuttingDown)
  }

  lemma LaterTransitive(s: State, t: State, u: State, incoming: Option<seq<Event>>)
    requires Later(s, t, incoming) && Later(t, u, None)
    ensures Later(s, u, incoming)
  {
    forall i | 0 <= i < |u.payloads|
      ensures i < |s.payloads| ==>
        u.payloads[i].orig == s.payloads[i].orig && s.payloads[i].acked <= u.payloads[i].acked
      ensures i >= |s.payloads| ==> Some(u.payloads[i].orig) == s.nextSpool || Some(u.payloads[i].orig) == incoming
    {
      if i < |t.payloads| {
        assert u.payloads[i].orig == t.payloads[i].orig && t.payloads[i].acked <= u.payloads[i].acked;
      }
    }
  }

  lemma ResendOneLater(s: State, env: Env)
    requires Wf(s) && CanQueue(s.sink) && s.resendList != []
    ensures Later(s, ResendOne(s, env), None)
  {
  }

  lemma {:induction false} ResendAllLater(s: State, env: Env)
    requires Wf(s) && CanQueue(s.sink)
    ensures Later(s, ResendAll(s, env), None)
    decreases |s.resendList|
  {
    if s.resendList != [] {
      var t := ResendOne(s, env);
      ResendOneLater(s, env);
      ResendAllLater(t, env);
      LaterTransitive(s, t, ResendAll(t, env), None);
    }
  }

  lemma SendEventsLater(s: State, events: seq<Event>, env: Env)
    requires Wf(s) && CanQueue(s.sink)
    ensures Later(s, SendEvents(s, events, env), Some(events))
  {
  }

  lemma TryQueueHeldLater(s: State, env: Env)
    requires Wf(s)
    ensures Later(s, TryQueueHeld(s, env), None)
  {
    if !s.shuttingDown && EventsHeld(s) && CanQueue(s.sink) {
      if s.resendList != [] {
        ResendAllLater(s, env);
      } else {
        SendEventsLater(s, s.nextSpool.value, env);
      }
    }
  }

  lemma SpoolArrivesLater(s: State, spool: seq<Event>, env: Env)
    requires Wf(s)
    ensures Later(s, SpoolArrives(s, spool, env), Some(spool))
  {
    if CanQueue(s.sink) {
      SendEventsLater(s.(received := s.received + spool), spool, env);
    }
  }

  lemma {:induction false} RequeueLater(s: State, ids: seq<nat>)
    requires Wf(s) && forall i :: 0 <= i < |ids| ==> ids[i] < |s.payloads|
    ensures Later(s, Requeue(s, ids), None)
    decreases |ids|
  {
    if ids != [] {
      RequeueLater(RequeueOne(s, ids[0]), ids[1..]);
      LaterTransitive(s, RequeueOne(s, ids[0]), Requeue(s, ids), None);
    }
  }

  lemma PullBackLater(s: State, order: seq<nat>, env: Env)
    requires Wf(s) && forall i :: 0 <= i < |order| ==> order[i] < |s.payloads|
    ensures Later(s, PullBackPending(s, order, env), None)
  {
    RequeueLater(s, order);
    TryQueueHeldLater(Requeue(s, order), env);
    LaterTransitive(s, Requeue(s, order), PullBackPending(s, order, env), None);
  }

  lemma {:induction false} DrainLater(s: State, outOfSync: int)
    requires Wf(s) && s.payloadList != []
    ensures Later(s, Drain(s, outOfSync).0, None)
    decreases |s.payloadList|
  {
    var p := s.payloads[s.payloadList[0]];
    var t := RollFront(s, outOfSync);
    assert Later(s, t, None);
    if p.HasAck() && p.Rollup().Complete() && t.payloadList != [] {
      DrainLater(t, outOfSync - 1);
      LaterTransitive(s, t, Drain(t, outOfSync - 1).0, None);
    }
  }

  lemma OrderedLater(s: State, id: nat, firstAck: bool, lines: int)
    requires Wf(s)
    ensures Later(s, Ordered(s, id, firstAck, lines), None)
  {
    if s.payloadList != [] {
      DrainLater(s, s.outOfSync + 1);
    }
  }

  lemma OnAckLater(s: State, id: nat, firstAck: bool, lines: int, env: Env)
    requires Wf(s) && id < |s.payloads|
    ensures Later(s, OnAck(s, id, firstAck, lines, env), None)
  {
    var s1 := OffResendList(s, id);
    var s2 := Ordered(s1, id, firstAck, lines);
    OrderedLater(s1, id, firstAck, lines);
    LaterTransitive(s, s1, s2, None);
    TryQueueHeldLater(s2, env);
    LaterTransitive(s, s2, TryQueueHeld(s2, env), None);
  }

  lemma EndpointAckLater(s: State, sv: Server, x: Nonce, sequence: int)
    requires Wf(s) && sv in s.sink.endpoints && x in s.sink.endpoints[sv].pending
    ensures Later(s, EndpointAck(s, sv, x, sequence), None)
  {
  }

  lemma PendingAckedLater(s: State, sv: Server, x: Nonce, sequence: int, env: Env)
    requires Wf(s) && sv in s.sink.endpoints && x in s.sink.endpoints[sv].pending
    ensures Later(s, PendingAcked(s, sv, x, sequence, env), None)
  {
    var id := s.sink.endpoints[sv].pending[x];
    var p := s.payloads[id];
    var s1 := EndpointAck(s, sv, x, sequence);
    EndpointAckLater(s, sv, x, sequence);
    OnAckLater(s1, id, !p.HasAck(), p.AckLines(sequence), env);
    LaterTransitive(s, s1, PendingAcked(s, sv, x, sequence, env), None);
  }

  lemma FinishClosingLater(s: State, sv: Server)
    requires Wf(s) && sv in s.sink.endpoints
    ensures Later(s, FinishClosing(s, sv), None)
  {
  }

  lemma ProcessAckLater(s: State, sv: Server, x: Nonce, sequence: int, env: Env)
    requires Wf(s) && sv in s.sink.endpoints
    ensures Later(s, ProcessAck(s, sv, x, sequence, env), None)
  {
    if x in s.sink.endpoints[sv].pending {
      var t := PendingAcked(s, sv, x, sequence, env);
      ProcessAckUnfolds(s, sv, x, sequence, env);
      PendingAckedLater(s, sv, x, sequence, env);
      FinishClosingLater(t, sv);
      LaterTransitive(s, t, FinishClosing(t, sv), None);
    }
  }

  lemma MarkActiveLater(s: State, sv: Server, env: Env)
    requires Wf(s) && sv in s.sink.endpoints
    ensures Later(s, MarkActive(s, sv, env), None)
  {
    TryQueueHeldLater(s.(sink := Activate(s.sink, sv)), env);
  }

  lemma OtherSinkLater(s: State, k: Sink, order: seq<nat>, env: Env)
    requires Wf(s) && ListsMatchStatus(k) && forall i :: 0 <= i < |order| ==> order[i] < |s.payloads|
    requires Wf(s.(sink := k))
    ensures Later(s, PullBackPending(s.(sink := k), order, env), None)
  {
    PullBackLater(s.(sink := k), order, env);
  }

  lemma EndpointFailedLater(s: State, sv: Server, order: seq<nat>, env: Env)
    requires Wf(s) && sv in s.sink.endpoints && forall i :: 0 <= i < |order| ==> order[i] < |s.payloads|
    ensures Later(s, EndpointFailed(s, sv, order, env), None)
  {
    var e := s.sink.endpoints[sv];
    if e.status == Active && e.numPayloads != 0 {
      OtherSinkLater(s, FailedEmpty(s.sink, sv), order, env);
    }
  }

  lemma EndpointFinishedLater(s: State, sv: Server, readd: bool, order: seq<nat>, env: Env)
    requires Wf(s) && sv in s.sink.endpoints && forall i :: 0 <= i < |order| ==> order[i] < |s.payloads|
    ensures Later(s, EndpointFinished(s, sv, readd, order, env), None)
  {
    PullBackLater(s.(sink := RemoveEndpoint(s.sink, sv)), order, env);
  }

  function Incoming(step: Step): Option<seq<Event>> {
    if step.SpoolStep? then Some(step.spool) else None
  }

  lemma StepLater(s: State, step: Step)
    requires Wf(s) && Happens(s, step)
    ensures Later(s, Apply(s, step), Incoming(step))
  {
    match step
    case SpoolStep(spool, env) => SpoolArrivesLater(s, spool, env);
    case AckStep(sv, x, sequence, env) => ProcessAckLater(s, sv, x, sequence, env);
    case StartedStep(sv, env) => MarkActiveLater(s, sv, env);
    case FailedStep(sv, order, env) => OrderInRange(s, sv, order); EndpointFailedLater(s, sv, order, env);
    case FinishedStep(sv, readd, order, env) =>
      OrderInRange(s, sv, order); EndpointFinishedLater(s, sv, readd, order, env);
    case BackoffStep(sv, env) => MarkActiveLater(s, sv, env);
    case TimeoutStep(sv) =>
    case AddStep(sv) =>
    case CloseStep(sv) =>
    case ShutdownStep(servers) =>
  }

  /** What the registrar was told, accepted events and acknowledgements are never taken back. */
  ghost predicate Extends(s: State, t: State) {
    && s.released <= t.released
    && |s.payloads| <= |t.payloads|
    && (forall i :: 0 <= i < |s.payloads| ==>
          t.payloads[i].orig == s.payloads[i].orig && s.payloads[i].acked <= t.payloads[i].acked)
  }

  lemma ExtendsTransitive(s: State, t: State, u: State)
    requires Extends(s, t) && Extends(t, u)
    ensures Extends(s, u)
  {
    forall i | 0 <= i < |s.payloads|
      ensures u.payloads[i].orig == s.payloads[i].orig && s.payloads[i].acked <= u.payloads[i].acked
    {
      assert t.payloads[i].orig == s.payloads[i].orig;
    }
  }

  lemma StepExtends(s: State, step: Step)
    requires Wf(s) && Happens(s, step)
    ensures Extends(s, Apply(s, step))
  {
    StepLater(s, step);
  }

  ghost predicate Growing(states: seq<State>) {
    forall i :: 0 <= i < |states| - 1 ==> Extends(states[i], states[i + 1])
  }

  lemma {:induction false} GrowingExtends(states: seq<State>, m: nat, n: nat)
    requires Growing(states) && m <= n < |states|
    ensures Extends(states[m], states[n])
  {
    if m < n {
      GrowingExtends(states, m, n - 1);
      assert Extends(states[n - 1], states[n - 1 + 1]);
      ExtendsTransitive(states[m], states[n - 1], states[n]);
    }
  }

  lemma RunExtends(states: seq<State>, steps: seq<Step>, maxPending: int, m: nat, n: nat)
    requires IsTrace(states, steps, maxPending) && m <= n < |states|
    ensures Extends(states[m], states[n])
  {
    forall i | 0 <= i < |states| - 1 ensures Extends(states[i], states[i + 1]) {
      assert StepTo(states[i], steps[i], states[i + 1]);
      StepExtends(states[i], steps[i]);
    }
    GrowingExtends(states, m, n);
  }

  // --- Empty spools ---

  /** No empty spool was accepted, nor is one held. */
  ghost predicate NoEmptySpool(s: State) {
    && (forall i :: 0 <= i < |s.payloads| ==> s.payloads[i].orig != [])
    && s.nextSpool != Some([])
  }

  lemma {:induction false} RunWithoutEmptySpool(states: seq<State>, steps: seq<Step>, maxPending: int, n: nat)
    requires IsTrace(states, steps, maxPending) && n < |states|
    requires forall i :: 0 <= i < |steps| && steps[i].SpoolStep? ==> steps[i].spool != []
    ensures NoEmptySpool(states[n])
  {
    if n > 0 {
      RunWithoutEmptySpool(states, steps, maxPending, n - 1);
      assert StepTo(states[n - 1], steps[n - 1], states[n - 1 + 1]);
      StepWithoutEmptySpool(states[n - 1], steps[n - 1]);
    }
  }

  lemma StepWithoutEmptySpool(s: State, step: Step)
    requires Wf(s) && Happens(s, step) && NoEmptySpool(s) && (step.SpoolStep? ==> step.spool != [])
    ensures NoEmptySpool(Apply(s, step))
  {
    StepLater(s, step);
    LaterWithoutEmptySpool(s, Apply(s, step), Incoming(step));
  }

  lemma LaterWithoutEmptySpool(s: State, t: State, incoming: Option<seq<Event>>)
    requires Later(s, t, incoming) && NoEmptySpool(s) && incoming != Some([])
    ensures NoEmptySpool(t)
  {
    forall i | 0 <= i < |t.payloads| ensures t.payloads[i].orig != [] {
      if i < |s.payloads| {
        assert t.payloads[i].orig == s.payloads[i].orig;
      }
    }
  }

  /** In every state of every run in which the spooler sends no empty spool, the events handed to the
      registrar are exactly the longest acknowledged prefix of the accepted events. */
  lemma RegistrarSeesAckedPrefix(states: seq<State>, steps: seq<Step>, maxPending: int, n: nat)
    requires IsRun(states, steps, maxPending) && n < |states|
    requires forall i :: 0 <= i < |steps| && steps[i].SpoolStep? ==> steps[i].spool != []
    ensures var s := states[n];
      && TruePrefix(Acks(s.payloads)) <= |Accepted(s.payloads)|
      && s.released == Accepted(s.payloads)[..TruePrefix(Acks(s.payloads))]
  {
    var s := states[n];
    RunKeeps(states, steps, maxPending, n);
    RunIsTrace(states, steps, maxPending);
    RunWithoutEmptySpool(states, steps, maxPending, n);
    ReleasedIsAckedPrefix(s);
    AcksLength(s.payloads);
    assert s.payloads[..FirstEmpty(s.payloads)] == s.payloads;
  }

  lemma {:induction false} HandedOverBelow(ps: seq<Payload>, k: nat, id: nat)
    requires SplitAt(ps, k) && k <= id < |ps| && ps[id].orig == []
    ensures HandedOver(ps) <= Accepted(ps[..id])
  {
    var p, rest := ps[0], ps[1..];
    assert p.DataOk();
    if k > 0 {
      assert ps[..id][0] == p && ps[..id][1..] == rest[..id - 1];
      HandedOverBelow(rest, k - 1, id - 1);
      assert p.orig[..p.processed] == p.orig;
      assert HandedOver(ps) == p.orig + HandedOver(rest) && Accepted(ps[..id]) == p.orig + Accepted(rest[..id - 1]);
    } else {
      NothingHandedOver(rest);
      assert HandedOver(ps) == p.orig[..p.processed];
      if id > 0 {
        assert ps[..id][0] == p;
        assert Accepted(ps[..id]) == p.orig + Accepted(ps[..id][1..]);
      }
    }
  }

  /** Once an empty spool is accepted, nothing behind it is ever handed to the registrar, whatever is
      acknowledged; and its payload takes up a place on the list for good. */
  lemma EmptySpoolBlocks(states: seq<State>, steps: seq<Step>, maxPending: int, m: nat, n: nat, id: nat)
    requires IsRun(states, steps, maxPending) && m <= n < |states|
    requires id < |states[m].payloads| && states[m].payloads[id].orig == []
    ensures id < |states[n].payloads| && id in states[n].payloadList
    ensures states[n].released <= Accepted(states[n].payloads[..id])
  {
    var t := states[n];
    RunKeeps(states, steps, maxPending, n);
    RunIsTrace(states, steps, maxPending);
    RunExtends(states, steps, maxPending, m, n);
    assert t.payloads[id].orig == [];
    InvSplits(t);
    assert First(BookOf(t)) <= id;
    HandedOverBelow(t.payloads, First(BookOf(t)), id);
    ListedFrom(BookOf(t), id);
  }

  // --- Endpoints ---

  predicate IsClosing(k: Sink, sv: Server) {
    sv in k.endpoints && k.endpoints[sv].status == Closing
  }

  lemma ClosingAfterAck(s: State, x: Server, nonce: Nonce, sequence: int, env: Env, sv: Server)
    requires Wf(s) && x in s.sink.endpoints && IsClosing(s.sink, sv)
    ensures IsClosing(ProcessAck(s, x, nonce, sequence, env).sink, sv)
  {
    if nonce in s.sink.endpoints[x].pending {
      ProcessAckUnfolds(s, x, nonce, sequence, env);
      var id := s.sink.endpoints[x].pending[nonce];
      var t := EndpointAck(s, x, nonce, sequence);
      assert IsClosing(t.sink, sv);
      assert SameStatus(PendingAcked(s, x, nonce, sequence, env).sink, t.sink);
    }
  }

  lemma ClosingAfterActivation(s: State, x: Server, env: Env, sv: Server)
    requires Wf(s) && x in s.sink.endpoints && IsClosing(s.sink, sv)
    ensures IsClosing(MarkActive(s, x, env).sink, sv)
  {
    assert IsClosing(Activate(s.sink, x), sv);
  }

  lemma ClosingAfterFailure(s: State, x: Server, order: seq<nat>, env: Env, sv: Server)
    requires Wf(s) && x in s.sink.endpoints && IsClosing(s.sink, sv)
    requires forall i :: 0 <= i < |order| ==> order[i] < |s.payloads|
    ensures IsClosing(EndpointFailed(s, x, order, env).sink, sv)
  {
    assert IsClosing(MoveFailed(s.sink, x), sv);
  }

  lemma ClosingAfterFinish(s: State, x: Server, readd: bool, order: seq<nat>, env: Env, sv: Server)
    requires Wf(s) && x in s.sink.endpoints && IsClosing(s.sink, sv) && x != sv
    requires forall i :: 0 <= i < |order| ==> order[i] < |s.payloads|
    ensures IsClosing(EndpointFinished(s, x, readd, order, env).sink, sv)
  {
    assert IsClosing(RemoveEndpoint(s.sink, x), sv);
  }

  lemma ClosingStays(s: State, step: Step, sv: Server)
    requires Wf(s) && Happens(s, step) && IsClosing(s.sink, sv)
    requires !(step.FinishedStep? && step.server == sv)
    ensures IsClosing(Apply(s, step).sink, sv)
  {
    match step
    case SpoolStep(spool, env) =>
    case AckStep(x, nonce, sequence, env) => ClosingAfterAck(s, x, nonce, sequence, env, sv);
    case StartedStep(x, env) => ClosingAfterActivation(s, x, env, sv);
    case FailedStep(x, order, env) => OrderInRange(s, x, order); ClosingAfterFailure(s, x, order, env, sv);
    case FinishedStep(x, readd, order, env) =>
      OrderInRange(s, x, order); ClosingAfterFinish(s, x, readd, order, env, sv);
    case BackoffStep(x, env) => ClosingAfterActivation(s, x, env, sv);
    case TimeoutStep(x) =>
    case AddStep(x) =>
    case CloseStep(x) =>
    case ShutdownStep(servers) => ClosingSurvives(s.sink, servers, sv);
  }

  lemma {:induction false} ClosingSurvives(k: Sink, servers: seq<Server>, sv: Server)
    requires ListsMatchStatus(k) && IsClosing(k, sv)
    ensures IsClosing(ShutdownAll(k, servers), sv)
    decreases |servers|
  {
    if servers != [] { ClosingSurvives(ShutdownEndpoint(k, servers[0]), servers[1..], sv); }
  }

  /** The life of endpoints, in every state of every run: an endpoint is on the ready list exactly when
      it is active and on the failed list exactly when it has failed; whatever endpoint is picked
      for a payload is active; a transport is shut down at most once, only when its endpoint is
      closing, and only with nothing pending. */
  lemma EndpointLifecycle(states: seq<State>, steps: seq<Step>, maxPending: int, n: nat, sv: Server, preference: nat)
    requires IsRun(states, steps, maxPending) && n < |states|
    ensures var k := states[n].sink;
      && (sv in k.ready <==> sv in k.endpoints && k.endpoints[sv].status == Active)
      && (sv in k.failed <==> sv in k.endpoints && k.endpoints[sv].status == Failed)
      && (CanQueue(k) ==> Best(k, preference) in k.endpoints && k.endpoints[Best(k, preference)].status == Active)
      && (sv in k.endpoints ==>
            && k.endpoints[sv].shutdowns <= 1
            && (k.endpoints[sv].shutdowns == 1 ==>
                  k.endpoints[sv].status == Closing && k.endpoints[sv].pending == map[]))
  {
    RunKeeps(states, steps, maxPending, n);
  }

  /** An endpoint that is closing stays so until it finishes. */
  lemma ClosingIsNeverLeft(states: seq<State>, steps: seq<Step>, maxPending: int, n: nat, sv: Server)
    requires IsTrace(states, steps, maxPending) && n < |steps|
    requires IsClosing(states[n].sink, sv) && !(steps[n].FinishedStep? && steps[n].server == sv)
    ensures IsClosing(states[n + 1].sink, sv)
  {
    assert StepTo(states[n], steps[n], states[n + 1]);
    ClosingStays(states[n], steps[n], sv);
  }
}
