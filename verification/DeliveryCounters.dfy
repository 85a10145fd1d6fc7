/** What the publisher's counters count. */
module DeliveryCounters {
  import opened Sequences
  import opened Payloads
  import opened Delivery
  import opened DeliveryInvariant
  import opened DeliveryBook
  import opened DeliverySteps
  import opened DeliveryRuns
  import opened DeliveryHistory

  // --- Payloads and lines ---

  function CountTrue(flags: seq<bool>): nat {
    if flags == [] then 0 else (if flags[0] then 1 else 0) + CountTrue(flags[1..])
  }

  lemma {:induction false} CountTrueSplit(a: seq<bool>, b: seq<bool>)
    ensures CountTrue(a + b) == CountTrue(a) + CountTrue(b)
  {
    if a == [] {
      assert a + b == b;
    } else {
      assert (a + b)[1..] == a[1..] + b;
      CountTrueSplit(a[1..], b);
    }
  }

  lemma {:induction false} CountTrueBelow(n: nat, k: nat)
    requires k <= n
    ensures CountTrue(seq(n, i => i < k)) == k
    decreases n
  {
    var flags := seq(n, i => i < k);
    if n > 0 {
      if k == 0 {
        assert flags[1..] == seq(n - 1, i => i < 0);
        CountTrueBelow(n - 1, 0);
      } else {
        assert flags[1..] == seq(n - 1, i => i < k - 1);
        CountTrueBelow(n - 1, k - 1);
      }
    }
  }

  lemma {:induction false} TotalCountsAcks(ps: seq<Payload>)
    requires AllData(ps)
    ensures TotalAcked(ps) == CountTrue(Acks(ps))
  {
    if ps != [] {
      assert ps[0].DataOk();
      TotalCountsAcks(ps[1..]);
      CountTrueSplit(seq(|ps[0].orig|, i => i < ps[0].acked), Acks(ps[1..]));
      CountTrueBelow(|ps[0].orig|, ps[0].acked);
    }
  }

  /** numPayloads counts the payload list, which never outgrows the configured limit; lineCount counts
      the acknowledged events, each once however often it was sent. */
  lemma CountersCount(states: seq<State>, steps: seq<Step>, maxPending: int, n: nat)
    requires IsRun(states, steps, maxPending) && n < |states|
    ensures states[n].numPayloads == |states[n].payloadList| <= Max(maxPending, 0)
    ensures states[n].lineCount == CountTrue(Acks(states[n].payloads))
  {
    RunKeeps(states, steps, maxPending, n);
    RunIsTrace(states, steps, maxPending);
    LimitStays(states, steps, maxPending, n);
    TotalCountsAcks(states[n].payloads);
  }

  lemma {:induction false} LimitStays(states: seq<State>, steps: seq<Step>, maxPending: int, n: nat)
    requires IsTrace(states, steps, maxPending) && n < |states|
    ensures states[n].maxPending == maxPending
  {
    if n > 0 {
      LimitStays(states, steps, maxPending, n - 1);
      assert StepTo(states[n - 1], steps[n - 1], states[n - 1 + 1]);
      StepLater(states[n - 1], steps[n - 1]);
    }
  }

  /** An acknowledgement that the endpoint passes on is counted right, also for a payload that is complete, which of
      those pending only one without events can be. */
  lemma PendingAckCounts(
    states: seq<State>, steps: seq<Step>, maxPending: int, n: nat, sv: Server, x: Nonce, sequence: nat)
    requires IsRun(states, steps, maxPending) && n < |states|
    requires sv in states[n].sink.endpoints && x in states[n].sink.endpoints[sv].pending
    ensures states[n].sink.endpoints[sv].pending[x] < |states[n].payloads|
    ensures var p := states[n].payloads[states[n].sink.endpoints[sv].pending[x]];
      && p.AckLines(sequence) == p.Ack(sequence).acked - p.acked
      && (p.Complete() ==> p.orig == [] && p.AckLines(sequence) == 0)
  {
    RunKeeps(states, steps, maxPending, n);
    PendingFacts(states[n], sv, x);
    PendingAck(states[n].payloads[states[n].sink.endpoints[sv].pending[x]], sequence);
  }

  // --- Out of sync ---

  /** How many payloads from index `from` on hold acknowledged events that are not handed over. */
  function HoldingBack(ps: seq<Payload>, from: nat): nat
    decreases |ps| - from
  {
    if from >= |ps| then 0
    else (if ps[from].HasAck() then 1 else 0) + HoldingBack(ps, from + 1)
  }

  lemma {:induction false} HoldingBackSame(ps: seq<Payload>, qs: seq<Payload>, from: nat)
    requires |ps| <= |qs|
    requires forall i :: from <= i < |ps| ==> ps[i].HasAck() == qs[i].HasAck()
    requires forall i :: |ps| <= i < |qs| ==> !qs[i].HasAck()
    ensures HoldingBack(ps, from) == HoldingBack(qs, from)
    decreases |qs| - from
  {
    if from < |qs| { HoldingBackSame(ps, qs, from + 1); }
  }

  lemma {:induction false} HoldingBackUpdate(ps: seq<Payload>, id: nat, q: Payload, from: nat)
    requires from <= id < |ps|
    ensures HoldingBack(ps[id := q], from) ==
      HoldingBack(ps, from) - (if ps[id].HasAck() then 1 else 0) + (if q.HasAck() then 1 else 0)
    decreases id - from
  {
    if from == id {
      HoldingBackSame(ps, ps[id := q], from + 1);
    } else {
      HoldingBackUpdate(ps, id, q, from + 1);
    }
  }

  /** Index of the payload at the front of the list, as a natural number. */
  function Front(s: State): nat {
    Max(First(BookOf(s)), 0)
  }

  /** By how much outOfSync exceeds the number of payloads behind the front that hold acknowledged
      events back. */
  function Excess(s: State): int {
    s.outOfSync - HoldingBack(s.payloads, Front(s) + 1)
  }

  /** Nothing that the out-of-sync count is about differs. */
  ghost predicate SameSync(s: State, t: State) {
    && t.outOfSync == s.outOfSync && Front(t) == Front(s)
    && |s.payloads| <= |t.payloads|
    && (forall i :: 0 <= i < |s.payloads| ==>
          s.payloads[i].HasAck() == t.payloads[i].HasAck() && s.payloads[i].processed == t.payloads[i].processed)
    && (forall i :: |s.payloads| <= i < |t.payloads| ==> !t.payloads[i].HasAck() && t.payloads[i].processed == 0)
  }

  lemma SameSyncSameExcess(s: State, t: State)
    requires SameSync(s, t)
    ensures Excess(s) == Excess(t)
  {
    HoldingBackSame(s.payloads, t.payloads, Front(s) + 1);
  }

  lemma SameSyncTransitive(s: State, t: State, u: State)
    requires SameSync(s, t) && SameSync(t, u)
    ensures SameSync(s, u)
  {
    forall i | 0 <= i < |u.payloads|
      ensures i < |s.payloads| ==>
        s.payloads[i].HasAck() == u.payloads[i].HasAck() && s.payloads[i].processed == u.payloads[i].processed
      ensures i >= |s.payloads| ==> !u.payloads[i].HasAck() && u.payloads[i].processed == 0
    {
      if i < |t.payloads| { assert t.payloads[i].HasAck() == u.payloads[i].HasAck(); }
    }
  }

  lemma ResendOneSync(s: State, env: Env)
    requires Wf(s) && CanQueue(s.sink) && s.resendList != []
    ensures SameSync(s, ResendOne(s, env))
  {
  }

  lemma {:induction false} ResendAllSync(s: State, env: Env)
    requires Wf(s) && CanQueue(s.sink)
    ensures SameSync(s, ResendAll(s, env))
    decreases |s.resendList|
  {
    if s.resendList != [] {
      var t := ResendOne(s, env);
      ResendOneSync(s, env);
      ResendAllSync(t, env);
      SameSyncTransitive(s, t, ResendAll(t, env));
    }
  }

  lemma SendEventsSync(s: State, events: seq<Event>, env: Env)
    requires Wf(s) && CanQueue(s.sink)
    ensures SameSync(s, SendEvents(s, events, env))
  {
  }

  lemma TryQueueHeldSync(s: State, env: Env)
    requires Wf(s)
    ensures SameSync(s, TryQueueHeld(s, env))
  {
    if !s.shuttingDown && EventsHeld(s) && CanQueue(s.sink) {
      if s.resendList != [] {
        ResendAllSync(s, env);
      } else {
        SendEventsSync(s, s.nextSpool.value, env);
      }
    }
  }

  lemma {:induction false} RequeueSync(s: State, ids: seq<nat>)
    requires Wf(s) && forall i :: 0 <= i < |ids| ==> ids[i] < |s.payloads|
    ensures SameSync(s, Requeue(s, ids))
    decreases |ids|
  {
    if ids != [] {
      RequeueSync(RequeueOne(s, ids[0]), ids[1..]);
      SameSyncTransitive(s, RequeueOne(s, ids[0]), Requeue(s, ids));
    }
  }

  lemma PullBackSync(s: State, k: Sink, order: seq<nat>, env: Env)
    requires Wf(s) && Wf(s.(sink := k)) && forall i :: 0 <= i < |order| ==> order[i] < |s.payloads|
    ensures SameSync(s, PullBackPending(s.(sink := k), order, env))
  {
    var t := s.(sink := k);
    RequeueSync(t, order);
    TryQueueHeldSync(Requeue(t, order), env);
    SameSyncTransitive(t, Requeue(t, order), PullBackPending(t, order, env));
  }

  /** The front moved on to a payload that was acknowledged in part, and stopped there. */
  ghost predicate FrontLeftPartial(s: State, t: State) {
    Front(t) > Front(s) && Front(t) < |t.payloads| && t.payloads[Front(t)].processed > 0
  }

  lemma RollFrontSync(s: State, outOfSync: int)
    requires Wf(s) && InOrderOk(BookOf(s)) && s.payloadList != [] && s.payloads[s.payloadList[0]].HasAck()
    ensures var t := RollFront(s, outOfSync); var gone := s.payloads[s.payloadList[0]].Rollup().Complete();
      && s.payloadList[0] == Front(s) && InOrderOk(BookOf(t))
      && Front(t) == (if gone then Front(s) + 1 else Front(s))
      && t.outOfSync == (if gone then outOfSync - 1 else s.outOfSync)
      && HoldingBack(t.payloads, Front(s) + 1) == HoldingBack(s.payloads, Front(s) + 1)
      && (gone && t.payloadList != [] ==>
            Front(t) < |t.payloads| && t.payloadList[0] == Front(t) && t.payloads[Front(t)].processed == 0)
  {
    var t := RollFront(s, outOfSync);
    RollFrontRollsUp(s, outOfSync);
    RolledUpKeepsOrder(BookOf(s), BookOf(t));
    HoldingBackSame(s.payloads, t.payloads, Front(s) + 1);
  }

  /** Whether the payload behind one that is dropped is rolled up too. */
  lemma NextFront(t: State, outOfSync: int)
    requires Wf(t) && InOrderOk(BookOf(t)) && t.payloadList != []
    requires t.payloadList[0] == Front(t) < |t.payloads| && t.payloads[Front(t)].processed == 0
    ensures var (u, n) := Drain(t, outOfSync);
      && (n == 0 ==> u.payloadList != [] && Front(u) == Front(t) < |u.payloads|
                     && (u.payloads[Front(u)].processed > 0 <==> t.payloads[Front(t)].HasAck()))
      && (n > 0 ==> t.payloads[Front(t)].HasAck())
  {
    assert t.payloads[Front(t)].DataOk();
  }

  /** The loop of OnAck takes one off outOfSync for each of the n payloads it drops, and so misses the
      payload that becomes the front in part. */
  ghost predicate DrainedSync(s: State, t: State, n: nat, outOfSync: int) {
    && Front(t) == Front(s) + n
    && (n == 0 ==>
          t.outOfSync == s.outOfSync && HoldingBack(t.payloads, Front(t) + 1) == HoldingBack(s.payloads, Front(s) + 1))
    && (n > 0 ==>
          && t.outOfSync == outOfSync - n
          && HoldingBack(t.payloads, Front(t) + 1)
             == HoldingBack(s.payloads, Front(s) + 1) - (n - 1) - (if FrontLeftPartial(s, t) then 1 else 0))
  }

  lemma DrainedSyncStep(s: State, t: State, u: State, n: nat, outOfSync: int)
    requires Front(t) == Front(s) + 1 < |t.payloads| && t.outOfSync == outOfSync - 1
    requires HoldingBack(t.payloads, Front(s) + 1) == HoldingBack(s.payloads, Front(s) + 1)
    requires DrainedSync(t, u, n, outOfSync - 1)
    requires n == 0 ==> u.payloadList != [] && Front(u) < |u.payloads|
                        && (u.payloads[Front(u)].processed > 0 <==> t.payloads[Front(t)].HasAck())
    requires n > 0 ==> t.payloads[Front(t)].HasAck()
    ensures DrainedSync(s, u, n + 1, outOfSync)
  {
    assert HoldingBack(t.payloads, Front(t)) ==
      (if t.payloads[Front(t)].HasAck() then 1 else 0) + HoldingBack(t.payloads, Front(t) + 1);
    if n > 0 {
      assert FrontLeftPartial(s, u) == FrontLeftPartial(t, u);
    }
  }

  lemma {:induction false} DrainExcess(s: State, outOfSync: int)
    requires Wf(s) && InOrderOk(BookOf(s)) && s.payloadList != []
    ensures DrainedSync(s, Drain(s, outOfSync).0, Drain(s, outOfSync).1, outOfSync)
    decreases |s.payloadList|
  {
    var p := s.payloads[s.payloadList[0]];
    if p.HasAck() {
      var t := RollFront(s, outOfSync);
      DrainUnfolds(s, outOfSync);
      RollFrontSync(s, outOfSync);
      if p.Rollup().Complete() {
        if t.payloadList == [] {
          assert Front(t) == |t.payloads|;
        } else {
          var r := Drain(t, outOfSync - 1);
          NextFront(t, outOfSync - 1);
          DrainExcess(t, outOfSync - 1);
          DrainedSyncStep(s, t, r.0, r.1, outOfSync);
        }
      }
    }
  }

  /** The first payload from index `from` on whose events are not all acknowledged, or that has none. */
  function FirstUndone(ps: seq<Payload>, from: nat): (k: nat)
    ensures from <= k && (from <= |ps| ==> k <= |ps|)
    decreases |ps| - from
  {
    if from < |ps| && ps[from].HasAck() && ps[from].Complete() then FirstUndone(ps, from + 1) else from
  }

  lemma {:induction false} FirstUndoneSame(ps: seq<Payload>, qs: seq<Payload>, from: nat)
    requires |ps| == |qs| && forall i :: from <= i < |ps| ==> ps[i] == qs[i]
    ensures FirstUndone(ps, from) == FirstUndone(qs, from)
    decreases |ps| - from
  {
    if from < |ps| {
      FirstUndoneSame(ps, qs, from + 1);
    }
  }

  /** The payloads from the front on that are acknowledged are followed by one that is acknowledged in part. */
  predicate PartialNext(ps: seq<Payload>, front: nat) {
    var k := FirstUndone(ps, front);
    front < k < |ps| && ps[k].HasAck()
  }

  /** The loop of OnAck goes as far as payloads are acknowledged. */
  lemma {:induction false} DrainForeseen(s: State, outOfSync: int)
    requires Wf(s) && InOrderOk(BookOf(s)) && s.payloadList != []
    ensures var t := Drain(s, outOfSync).0;
      && s.payloadList[0] == Front(s) < |s.payloads| && |t.payloads| == |s.payloads|
      && Front(t) == FirstUndone(s.payloads, Front(s))
      && (Front(t) < |t.payloads| ==>
            t.payloads[Front(t)].processed ==
              s.payloads[Front(t)].processed + s.payloads[Front(t)].ackEvents)
    decreases |s.payloadList|
  {
    var f := Front(s);
    var p := s.payloads[s.payloadList[0]];
    assert p.DataOk();
    if p.HasAck() {
      var t := RollFront(s, outOfSync);
      DrainUnfolds(s, outOfSync);
      RollFrontSync(s, outOfSync);
      FirstUndoneSame(s.payloads, t.payloads, f + 1);
      if p.Complete() {
        if t.payloadList == [] {
          assert Front(t) == |t.payloads|;
        } else {
          DrainForeseen(t, outOfSync - 1);
        }
      }
    }
  }

  lemma FrontAckedForeseen(s: State)
    requires Wf(s) && InOrderOk(BookOf(s)) && s.payloadList != []
    ensures FrontLeftPartial(s, FrontAcked(s)) <==> PartialNext(s.payloads, Front(s))
  {
    var k := FirstUndone(s.payloads, Front(s));
    DrainForeseen(s, s.outOfSync + 1);
    FrontAckedUnfolds(s);
    if Front(s) < k < |s.payloads| {
      assert s.payloads[k].DataOk() && s.payloads[k].processed == 0;
    }
  }

  lemma OrderedForeseen(s: State, id: nat, firstAck: bool, lines: int)
    requires Wf(s) && InOrderOk(BookOf(s)) && s.payloadList != [] && s.payloadList[0] == Front(s)
    ensures FrontLeftPartial(s, Ordered(s, id, firstAck, lines)) <==>
      id == Front(s) && PartialNext(s.payloads, Front(s))
  {
    if id == Front(s) {
      FrontAckedForeseen(s);
    }
  }

  lemma OnAckForeseen(s: State, id: nat, firstAck: bool, lines: int, env: Env)
    requires Wf(s) && InOrderOk(BookOf(s)) && s.payloadList != [] && s.payloadList[0] == Front(s)
    requires id < |s.payloads| && !s.payloads[id].resending
    ensures FrontLeftPartial(s, OnAck(s, id, firstAck, lines, env)) <==>
      id == Front(s) && PartialNext(s.payloads, Front(s))
  {
    var t := Ordered(s, id, firstAck, lines);
    OrderedForeseen(s, id, firstAck, lines);
    TryQueueHeldSync(t, env);
    PartialKept(s, t, TryQueueHeld(t, env));
  }

  /** Payload `front` becomes q, which is acknowledged completely, and of the payloads behind it, the first that is not
      is acknowledged in part. */
  predicate MeetsPartial(ps: seq<Payload>, front: nat, q: Payload) {
    && q.HasAck() && q.Complete()
    && var k := FirstUndone(ps, front + 1);
       k < |ps| && ps[k].HasAck()
  }

  lemma NextOfAcked(ps: seq<Payload>, front: nat, q: Payload)
    requires front < |ps|
    ensures PartialNext(ps[front := q], front) <==> MeetsPartial(ps, front, q)
  {
    FirstUndoneSame(ps, ps[front := q], front + 1);
  }

  /** The acknowledgement is for the payload at the front, and has the front move on to a payload that is acknowledged
      in part. */
  ghost predicate FrontMeetsPartial(s: State, step: Step) {
    && step.AckStep? && step.server in s.sink.endpoints
    && step.ack in s.sink.endpoints[step.server].pending
    && (var id := s.sink.endpoints[step.server].pending[step.ack];
        id == Front(s) < |s.payloads| && MeetsPartial(s.payloads, id, s.payloads[id].Ack(step.sequence)))
  }

  lemma FrontOfAcked(s: State, sv: Server, x: Nonce, sequence: nat)
    requires Inv(s) && sv in s.sink.endpoints && x in s.sink.endpoints[sv].pending
    ensures var id := s.sink.endpoints[sv].pending[x]; var t := EndpointAck(s, sv, x, sequence);
      && InOrderOk(BookOf(t)) && t.payloadList != [] && t.payloadList[0] == Front(t) == Front(s)
      && !t.payloads[id].resending && t.payloads == s.payloads[id := s.payloads[id].Ack(sequence)]
  {
    EndpointAckExcess(s, sv, x, sequence);
    EndpointAckKeeps(s, sv, x, sequence);
  }

  lemma PendingAckedForeseen(s: State, sv: Server, x: Nonce, sequence: nat, env: Env)
    requires Inv(s) && sv in s.sink.endpoints && x in s.sink.endpoints[sv].pending
    ensures var id := s.sink.endpoints[sv].pending[x];
      FrontLeftPartial(s, PendingAcked(s, sv, x, sequence, env)) <==>
      id == Front(s) && PartialNext(s.payloads[id := s.payloads[id].Ack(sequence)], id)
  {
    var id := s.sink.endpoints[sv].pending[x];
    var t := EndpointAck(s, sv, x, sequence);
    FrontOfAcked(s, sv, x, sequence);
    OnAckForeseen(t, id, !s.payloads[id].HasAck(), s.payloads[id].AckLines(sequence), env);
    PartialFrom(s, t, PendingAcked(s, sv, x, sequence, env));
  }

  lemma PartialFrom(s: State, t: State, u: State)
    requires Front(s) == Front(t)
    ensures FrontLeftPartial(s, u) == FrontLeftPartial(t, u)
  {
  }

  lemma FinishedClosingSync(s: State, sv: Server)
    requires Wf(s) && sv in s.sink.endpoints
    ensures SameSync(s, FinishClosing(s, sv))
  {
  }

  lemma ProcessAckForeseen(s: State, sv: Server, x: Nonce, sequence: nat, env: Env)
    requires Inv(s) && sv in s.sink.endpoints && x in s.sink.endpoints[sv].pending
    ensures FrontLeftPartial(s, ProcessAck(s, sv, x, sequence, env)) <==>
      FrontMeetsPartial(s, AckStep(sv, x, sequence, env))
  {
    var id := s.sink.endpoints[sv].pending[x];
    var u := PendingAcked(s, sv, x, sequence, env);
    PendingAckedForeseen(s, sv, x, sequence, env);
    NextOfAcked(s.payloads, id, s.payloads[id].Ack(sequence));
    ProcessAckUnfolds(s, sv, x, sequence, env);
    FinishedClosingSync(u, sv);
    PartialKept(s, u, FinishClosing(u, sv));
  }

  // --- One step's drift ---

  /** A first acknowledgement, for a payload that is not at the front, that covers no event. */
  ghost predicate EmptyFirstAck(s: State, step: Step) {
    && step.AckStep? && step.server in s.sink.endpoints
    && step.ack in s.sink.endpoints[step.server].pending
    && (var id := s.sink.endpoints[step.server].pending[step.ack];
        id < |s.payloads| && id != Front(s) && !s.payloads[id].HasAck() && s.payloads[id].AckLines(step.sequence) == 0)
  }

  lemma AckAddsLines(p: Payload, sequence: int)
    requires p.DataOk() && p.Numbered(p.base) && Deliverable(p) && 0 <= sequence
    ensures p.Ack(sequence).ackEvents == p.ackEvents + p.AckLines(sequence) && p.AckLines(sequence) >= 0
  {
  }

  lemma FrontIsListed(s: State, id: nat)
    requires InOrderOk(BookOf(s)) && First(BookOf(s)) <= id < |s.payloads|
    ensures s.payloadList != [] && s.payloadList[0] == Front(s) <= id
  {
  }

  lemma ProgressExcess(s: State, t: State, id: nat, q: Payload)
    requires Front(s) <= id < |s.payloads| && t.payloads == s.payloads[id := q] && Front(t) == Front(s)
    requires s.payloads[id].HasAck() ==> q.HasAck()
    ensures HoldingBack(t.payloads, Front(t) + 1) == HoldingBack(s.payloads, Front(s) + 1)
              + (if id != Front(s) && !s.payloads[id].HasAck() && q.HasAck() then 1 else 0)
  {
    if id == Front(s) {
      HoldingBackSame(s.payloads, t.payloads, Front(s) + 1);
    } else {
      HoldingBackUpdate(s.payloads, id, q, Front(s) + 1);
    }
  }

  lemma AckedExcess(s: State, t: State, id: nat, q: Payload, lines: nat)
    requires Front(s) <= id < |s.payloads| && t.payloads == s.payloads[id := q] && t.payloadList == s.payloadList
    requires t.outOfSync == s.outOfSync && s.payloads[id].ackEvents >= 0
    requires q.ackEvents == s.payloads[id].ackEvents + lines
    ensures Front(t) == Front(s)
    ensures Excess(t) == Excess(s) - (if id != Front(s) && !s.payloads[id].HasAck() && lines != 0 then 1 else 0)
  {
    ProgressExcess(s, t, id, q);
  }

  lemma EndpointAckExcess(s: State, sv: Server, x: Nonce, sequence: nat)
    requires Inv(s) && sv in s.sink.endpoints && x in s.sink.endpoints[sv].pending
    ensures var id := s.sink.endpoints[sv].pending[x]; var p := s.payloads[id];
      var t := EndpointAck(s, sv, x, sequence);
      && s.payloadList != [] && s.payloadList[0] == Front(s) == Front(t) && Front(s) <= id
      && Excess(t) == Excess(s) - (if id != Front(s) && !p.HasAck() && p.AckLines(sequence) != 0 then 1 else 0)
  {
    var id := s.sink.endpoints[sv].pending[x];
    var p := s.payloads[id];
    PendingFacts(s, sv, x);
    FrontIsListed(s, id);
    AckAddsLines(p, sequence);
    assert p.DataOk();
    AckedExcess(s, EndpointAck(s, sv, x, sequence), id, p.Ack(sequence), p.AckLines(sequence));
  }

  lemma FrontAckedExcess(s: State)
    requires Wf(s) && InOrderOk(BookOf(s)) && s.payloadList != []
    ensures var t := FrontAcked(s);
      Excess(t) == Excess(s) + (if FrontLeftPartial(s, t) then 1 else 0)
  {
    var r := Drain(s, s.outOfSync + 1);
    DrainExcess(s, s.outOfSync + 1);
    FrontAckedUnfolds(s);
    GoneExcess(s, r.0, r.1);
  }

  lemma GoneExcess(s: State, d: State, n: nat)
    requires Wf(d) && DrainedSync(s, d, n, s.outOfSync + 1)
    ensures Excess(Gone(d, n)) == Excess(s) + (if FrontLeftPartial(s, Gone(d, n)) then 1 else 0)
  {
    assert FrontLeftPartial(s, Gone(d, n)) == FrontLeftPartial(s, d);
  }

  lemma OrderedExcess(s: State, id: nat, firstAck: bool, lines: int)
    requires Wf(s) && InOrderOk(BookOf(s)) && s.payloadList != [] && s.payloadList[0] == Front(s)
    ensures var t := Ordered(s, id, firstAck, lines);
      Excess(t) == Excess(s) + (if id != Front(s) && firstAck then 1 else 0)
                             + (if FrontLeftPartial(s, t) then 1 else 0)
  {
    var t := InOrder(s, id, firstAck);
    var u := Ordered(s, id, firstAck, lines);
    assert Excess(u) == Excess(t) && FrontLeftPartial(s, u) == FrontLeftPartial(s, t);
    if id == Front(s) {
      FrontAckedExcess(s);
    }
  }

  lemma PartialKept(s: State, t: State, u: State)
    requires SameSync(t, u)
    ensures FrontLeftPartial(s, t) == FrontLeftPartial(s, u)
  {
  }

  lemma OnAckExcess(s: State, id: nat, firstAck: bool, lines: int, env: Env)
    requires Wf(s) && InOrderOk(BookOf(s)) && s.payloadList != [] && s.payloadList[0] == Front(s)
    requires id < |s.payloads| && !s.payloads[id].resending
    ensures var t := OnAck(s, id, firstAck, lines, env);
      Excess(t) == Excess(s) + (if id != Front(s) && firstAck then 1 else 0)
                             + (if FrontLeftPartial(s, t) then 1 else 0)
  {
    var t := Ordered(s, id, firstAck, lines);
    var u := TryQueueHeld(t, env);
    OrderedExcess(s, id, firstAck, lines);
    TryQueueHeldSync(t, env);
    SameSyncSameExcess(t, u);
    PartialKept(s, t, u);
  }

  lemma PendingAckedExcess(s: State, sv: Server, x: Nonce, sequence: nat, env: Env)
    requires Inv(s) && sv in s.sink.endpoints && x in s.sink.endpoints[sv].pending
    ensures var id := s.sink.endpoints[sv].pending[x]; var p := s.payloads[id];
      var t := PendingAcked(s, sv, x, sequence, env);
      Excess(t) == Excess(s) + (if id != Front(s) && !p.HasAck() && p.AckLines(sequence) == 0 then 1 else 0)
                             + (if FrontLeftPartial(s, t) then 1 else 0)
  {
    var id := s.sink.endpoints[sv].pending[x];
    var p := s.payloads[id];
    var s1 := EndpointAck(s, sv, x, sequence);
    EndpointAckExcess(s, sv, x, sequence);
    EndpointAckKeeps(s, sv, x, sequence);
    OnAckExcess(s1, id, !p.HasAck(), p.AckLines(sequence), env);
  }

  lemma ProcessAckExcess(s: State, sv: Server, x: Nonce, sequence: nat, env: Env)
    requires Inv(s) && sv in s.sink.endpoints && x in s.sink.endpoints[sv].pending
    ensures var id := s.sink.endpoints[sv].pending[x]; var p := s.payloads[id];
      var t := ProcessAck(s, sv, x, sequence, env);
      Excess(t) == Excess(s) + (if id != Front(s) && !p.HasAck() && p.AckLines(sequence) == 0 then 1 else 0)
                             + (if FrontLeftPartial(s, t) then 1 else 0)
  {
    var u := PendingAcked(s, sv, x, sequence, env);
    var v := FinishClosing(u, sv);
    ProcessAckUnfolds(s, sv, x, sequence, env);
    PendingAckedExcess(s, sv, x, sequence, env);
    assert SameSync(u, v);
    SameSyncSameExcess(u, v);
    PartialKept(s, u, v);
  }

  lemma SpoolArrivesSync(s: State, spool: seq<Event>, env: Env)
    requires Wf(s)
    ensures SameSync(s, SpoolArrives(s, spool, env))
  {
    if CanQueue(s.sink) { SendEventsSync(s.(received := s.received + spool), spool, env); }
  }

  lemma MarkActiveSync(s: State, sv: Server, env: Env)
    requires Wf(s) && sv in s.sink.endpoints
    ensures SameSync(s, MarkActive(s, sv, env))
  {
    TryQueueHeldSync(s.(sink := Activate(s.sink, sv)), env);
  }

  lemma EndpointFailedSync(s: State, sv: Server, order: seq<nat>, env: Env)
    requires Wf(s) && sv in s.sink.endpoints && forall i :: 0 <= i < |order| ==> order[i] < |s.payloads|
    ensures SameSync(s, EndpointFailed(s, sv, order, env))
  {
    if s.sink.endpoints[sv].status == Active {
      var k := MoveFailed(s.sink, sv);
      assert ForceFailure(s, sv) == s.(sink := k);
      PullBackSync(s, Put(k, sv, k.endpoints[sv].(pending := map[], numPayloads := 0)), order, env);
    }
  }

  lemma EndpointFinishedSync(s: State, sv: Server, readd: bool, order: seq<nat>, env: Env)
    requires Wf(s) && sv in s.sink.endpoints && forall i :: 0 <= i < |order| ==> order[i] < |s.payloads|
    ensures SameSync(s, EndpointFinished(s, sv, readd, order, env))
  {
    PullBackSync(s, RemoveEndpoint(s.sink, sv), order, env);
  }

  lemma OtherStepsSync(s: State, step: Step)
    requires Wf(s) && Happens(s, step) && !step.AckStep?
    ensures SameSync(s, Apply(s, step))
  {
    match step
    case SpoolStep(spool, env) => SpoolArrivesSync(s, spool, env);
    case StartedStep(sv, env) => MarkActiveSync(s, sv, env);
    case FailedStep(sv, order, env) => OrderInRange(s, sv, order); EndpointFailedSync(s, sv, order, env);
    case FinishedStep(sv, readd, order, env) =>
      OrderInRange(s, sv, order); EndpointFinishedSync(s, sv, readd, order, env);
    case BackoffStep(sv, env) => MarkActiveSync(s, sv, env);
    case TimeoutStep(sv) =>
    case AddStep(sv) =>
    case CloseStep(sv) =>
    case ShutdownStep(servers) =>
  }

  /** The drift of outOfSync in one step, exactly: it goes up by one when a payload behind the front gets a
      first acknowledgement that covers nothing, and when the front is acknowledged completely and the
      payloads behind it up to one that is acknowledged in part; otherwise it counts precisely. */
  lemma OutOfSyncDrift(s: State, step: Step)
    requires Inv(s) && Happens(s, step)
    ensures var t := Apply(s, step);
      Excess(t) == Excess(s) + (if EmptyFirstAck(s, step) then 1 else 0) + (if FrontMeetsPartial(s, step) then 1 else 0)
  {
    if !step.AckStep? {
      OtherStepsSync(s, step);
      SameSyncSameExcess(s, Apply(s, step));
    } else if step.ack in s.sink.endpoints[step.server].pending {
      ProcessAckExcess(s, step.server, step.ack, step.sequence, step.env);
      ProcessAckForeseen(s, step.server, step.ack, step.sequence, step.env);
    }
  }

  /** The number of drifting steps among the first n of a run. */
  ghost function Drifts(states: seq<State>, steps: seq<Step>, n: nat): nat
    requires n <= |steps| < |states|
  {
    if n == 0 then 0
    else Drifts(states, steps, n - 1)
         + (if EmptyFirstAck(states[n - 1], steps[n - 1]) then 1 else 0)
         + (if FrontMeetsPartial(states[n - 1], steps[n - 1]) then 1 else 0)
  }

  /** In every run, outOfSync is the number of payloads behind the front that hold acknowledged events
      back plus the number of drifting steps so far: never less than the former, and equal to it
      exactly when no drifting step has happened. */
  lemma OutOfSyncCounts(states: seq<State>, steps: seq<Step>, maxPending: int, n: nat)
    requires IsRun(states, steps, maxPending) && n < |states|
    ensures states[n].outOfSync ==
      HoldingBack(states[n].payloads, Front(states[n]) + 1) + Drifts(states, steps, n)
  {
    forall k | 0 <= k < |steps| ensures DriftsOnce(states[k], steps[k], states[k + 1]) {
      RunKeeps(states, steps, maxPending, k);
      assert ClearStep(states[k], steps[k], states[k + 1]);
      OutOfSyncDrift(states[k], steps[k]);
    }
    DriftsAddUp(states, steps, n);
  }

  ghost predicate DriftsOnce(s: State, step: Step, t: State) {
    Excess(t) == Excess(s) + (if EmptyFirstAck(s, step) then 1 else 0) + (if FrontMeetsPartial(s, step) then 1 else 0)
  }

  lemma {:induction false} DriftsAddUp(states: seq<State>, steps: seq<Step>, n: nat)
    requires n <= |steps| < |states| && Excess(states[0]) == 0
    requires forall k :: 0 <= k < |steps| ==> DriftsOnce(states[k], steps[k], states[k + 1])
    ensures Excess(states[n]) == Drifts(states, steps, n)
  {
    if n > 0 {
      DriftsAddUp(states, steps, n - 1);
      assert DriftsOnce(states[n - 1], steps[n - 1], states[n - 1 + 1]);
    }
  }
}
