/**
 Nonces. The program draws a nonce anew while it is pending on the endpoint that a payload goes to, but a payload
 that has one keeps it when it is sent again, and may then meet another under the same nonce. Every step but
 such a one keeps the books; and such a one loses a payload.
 */
module DeliveryClashes {
  import opened Sequences
  import opened Payloads
  import opened Delivery
  import opened DeliveryInvariant
  import opened DeliveryBook
  import opened DeliverySteps

  /** The endpoint counts more payloads than are pending on it. */
  ghost predicate Surplus(k: Sink, sv: Server) {
    sv in k.endpoints && |k.endpoints[sv].pending| < k.endpoints[sv].numPayloads
  }

  lemma PutSize(m: map<Nonce, nat>, x: Nonce, id: nat)
    ensures |m[x := id]| == if x in m then |m| else |m| + 1
  {
    if x in m {
      assert m[x := id].Keys == m.Keys;
    } else {
      assert m[x := id].Keys == m.Keys + {x};
    }
    assert |m[x := id]| == |m[x := id].Keys| && |m| == |m.Keys|;
  }

  /** Queueing a payload under nonce x keeps the count of pending
      payloads right, and everything that was pending still pending, exactly when nothing was
      pending under x. */
  lemma NonceCollision(e: Endpoint, x: Nonce, id: nat)
    requires e.numPayloads == |e.pending|
    ensures Queued(e, x, id).numPayloads == |Queued(e, x, id).pending| <==> x !in e.pending
    ensures (forall y :: y in e.pending ==>
               y in Queued(e, x, id).pending && Queued(e, x, id).pending[y] == e.pending[y])
            <==> x !in e.pending || e.pending[x] == id
  {
    PutSize(e.pending, x, id);
    if x in e.pending {
      assert Queued(e, x, id).pending[x] == id;
    }
  }

  lemma ResendOneCounts(s: State, env: Env)
    requires Wf(s) && CanQueue(s.sink) && s.resendList != [] && s.payloads[s.resendList[0]].nonce != ""
    ensures var t := ResendOne(s, env);
      && (forall sv :: Surplus(s.sink, sv) ==> Surplus(t.sink, sv))
      && (PendingCounted(s.sink) && ResendClear(s, env) ==> PendingCounted(t.sink))
      && (PendingCounted(s.sink) && !ResendClear(s, env) ==>
            Surplus(t.sink, Best(s.sink, env.pick(s.resendList[0]))))
  {
    var id := s.resendList[0];
    var sv := Best(s.sink, env.pick(id));
    PutSize(s.sink.endpoints[sv].pending, s.payloads[id].nonce, id);
    assert ResendOne(s, env).sink == Put(s.sink, sv, Queued(s.sink.endpoints[sv], s.payloads[id].nonce, id));
  }

  lemma ResendOneNamed(s: State, env: Env)
    requires Wf(s) && CanQueue(s.sink) && s.resendList != [] && AllNamed(s.payloads)
    ensures AllNamed(ResendOne(s, env).payloads)
  {
  }

  lemma {:induction false} SurplusStays(s: State, env: Env, sv: Server)
    requires Wf(s) && CanQueue(s.sink) && AllNamed(s.payloads) && Surplus(s.sink, sv)
    ensures Surplus(ResendAll(s, env).sink, sv)
    decreases |s.resendList|
  {
    if s.resendList != [] {
      ResendOneCounts(s, env);
      ResendOneNamed(s, env);
      SurplusStays(ResendOne(s, env), env, sv);
    }
  }

  lemma {:induction false} ResendAllCounts(s: State, env: Env) returns (sv: Server)
    requires Wf(s) && CanQueue(s.sink) && AllNamed(s.payloads) && PendingCounted(s.sink) && !ResendsClear(s, env)
    ensures Surplus(ResendAll(s, env).sink, sv)
    decreases |s.resendList|
  {
    var t := ResendOne(s, env);
    ResendOneCounts(s, env);
    ResendOneNamed(s, env);
    if ResendClear(s, env) {
      sv := ResendAllCounts(t, env);
    } else {
      sv := Best(s.sink, env.pick(s.resendList[0]));
      SurplusStays(t, env, sv);
    }
  }

  lemma AckTriesLast(s: State, step: Step, sv: Server)
    requires step.AckStep? && Wf(s) && Happens(s, step) && Trying(s, step).Some?
    requires Surplus(TryQueueHeld(Trying(s, step).value, step.env).sink, sv)
    ensures Surplus(Apply(s, step).sink, sv)
  {
    ProcessAckUnfolds(s, step.server, step.ack, step.sequence, step.env);
    PendingAckedTries(s, step.server, step.ack, step.sequence, step.env);
  }

  /** What a step tries is all it does to what is pending, but for an endpoint it adds. */
  lemma TriesLast(s: State, step: Step, sv: Server)
    requires Wf(s) && Happens(s, step) && Trying(s, step).Some?
    requires Surplus(TryQueueHeld(Trying(s, step).value, step.env).sink, sv)
    ensures Surplus(Apply(s, step).sink, sv)
  {
    match step
    case AckStep(server, x, sequence, env) => AckTriesLast(s, step, sv);
    case StartedStep(server, env) =>
    case FailedStep(server, order, env) => OrderInRange(s, server, order);
    case FinishedStep(server, readd, order, env) =>
      OrderInRange(s, server, order);
      FinishedAdds(s, server, readd, order, env);
    case BackoffStep(server, env) =>
  }

  lemma PendingAckedTries(s: State, sv: Server, x: Nonce, sequence: int, env: Env)
    requires Wf(s) && sv in s.sink.endpoints && x in s.sink.endpoints[sv].pending
    requires s.payloads[s.sink.endpoints[sv].pending[x]].Ack(sequence).Complete()
    ensures PendingAcked(s, sv, x, sequence, env) == TryQueueHeld(AckOrdered(s, sv, x, sequence), env)
  {
  }

  lemma FinishedAdds(s: State, sv: Server, readd: bool, order: seq<nat>, env: Env)
    requires Wf(s) && sv in s.sink.endpoints && forall i :: 0 <= i < |order| ==> order[i] < |s.payloads|
    requires FinishedPulled(s, sv, order).Some?
    ensures var t := TryQueueHeld(FinishedPulled(s, sv, order).value, env);
      && sv !in t.sink.endpoints
      && EndpointFinished(s, sv, readd, order, env) == if readd then t.(sink := AddEndpoint(t.sink, sv)) else t
  {
  }

  /** A state that a step reaches before it tries what is held is in order. */
  lemma TryingCounted(s: State, step: Step)
    requires Inv(s) && Happens(s, step) && Trying(s, step).Some?
    ensures AllNamed(Trying(s, step).value.payloads) && PendingCounted(Trying(s, step).value.sink)
  {
    var t := Trying(s, step).value;
    match step
    case AckStep(sv, x, sequence, env) =>
      var id := s.sink.endpoints[sv].pending[x];
      var p := s.payloads[id];
      PendingFacts(s, sv, x);
      EndpointAckKeeps(s, sv, x, sequence);
      OrderedKeeps(EndpointAck(s, sv, x, sequence), id, !p.HasAck(), p.AckLines(sequence));
    case StartedStep(sv, env) => ActivateKeeps(s, sv);
    case BackoffStep(sv, env) => ActivateKeeps(s, sv);
    case FailedStep(sv, order, env) =>
      FailedEmptied(s, sv);
      FailedEmptyOk(s.sink, sv);
      RequeuedKeeps(s, FailedEmpty(s.sink, sv), sv, order);
    case FinishedStep(sv, readd, order, env) =>
      RemoveEndpointOk(s.sink, sv);
      RemovedEmptied(s, sv);
      RequeuedKeeps(s, RemoveEndpoint(s.sink, sv), sv, order);
  }

  /** A step keeps the invariant, and in particular the counts of pending payloads right, if and only if it sends no
      payload again to an endpoint on which another is pending under its nonce. */
  lemma ClearExactly(s: State, step: Step)
    requires Inv(s) && Enabled(s, step)
    ensures Clear(s, step) <==> Inv(Apply(s, step))
    ensures Clear(s, step) <==> PendingCounted(Apply(s, step).sink)
  {
    if Clear(s, step) {
      StepKeeps(s, step);
    } else {
      var t := Trying(s, step).value;
      TryingCounted(s, step);
      var sv := ResendAllCounts(t, step.env);
      TriesLast(s, step, sv);
    }
  }

  /** What such a step loses: the payload that was pending under the nonce is still to be delivered, but it is pending
      nowhere any more, and is not to be sent again. */
  lemma ClashLoses(s: State, env: Env)
    requires Inv(s) && CanQueue(s.sink) && s.resendList != [] && !ResendClear(s, env)
    ensures var id := s.resendList[0]; var e := s.sink.endpoints[Best(s.sink, env.pick(id))];
      var t := ResendOne(s, env); var lost := e.pending[s.payloads[id].nonce];
      && lost != id && t.payloads[lost] == s.payloads[lost] && Deliverable(t.payloads[lost])
      && lost !in t.resendList && !t.payloads[lost].resending && forall sv :: !Holds(BookOf(t), sv, lost)
  {
    var id := s.resendList[0];
    var sv := Best(s.sink, env.pick(id));
    var x := s.payloads[id].nonce;
    var lost := s.sink.endpoints[sv].pending[x];
    PendingFacts(s, sv, x);
    assert id in s.resendList && s.payloads[id].resending;
    assert Holds(BookOf(s), sv, lost);
    var t := ResendOne(s, env);
    assert t.sink == Put(s.sink, sv, Queued(s.sink.endpoints[sv], x, id));
    forall other ensures !Holds(BookOf(t), other, lost) {
      if other != sv {
        assert Holds(BookOf(t), other, lost) ==> Holds(BookOf(s), other, lost);
      }
    }
  }
}
