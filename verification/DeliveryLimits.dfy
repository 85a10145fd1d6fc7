/** Where the acknowledgement protocol falls short, with the exact condition. */
module DeliveryLimits {
  import opened Sequences
  import opened Payloads
  import opened Delivery
  import opened DeliveryInvariant
  import opened DeliveryRuns
  import opened DeliveryCounters

  function Nonced(nonce: Nonce): Env { Env(_ => 0, [nonce]) }

  /** One endpoint, just started. */
  function Up(): State {
    Init(4).(sink := Sink(map["s" := NewEndpoint.(status := Active)], ["s"], []))
  }

  lemma GoesUp()
    ensures var s := Init(4).(sink := AddEndpoint(Init(4).sink, "s"));
      ClearStep(Init(4), AddStep("s"), s) && ClearStep(s, StartedStep("s", Nonced("w")), Up())
  {
    var k := AddEndpoint(Init(4).sink, "s");
    assert k.endpoints == map["s" := NewEndpoint];
    var l := Activate(k, "s");
    assert l.endpoints == map["s" := NewEndpoint.(status := Active)] && l.ready == ["s"] && l.failed == [];
    assert Started(Init(4).(sink := k), "s", Nonced("w")) == Init(4).(sink := l);
  }

  /** A spool is sent to an endpoint that is ready. */
  lemma SpoolSentTo(s: State, spool: seq<Event>, env: Env, sv: Server, x: Nonce)
    requires Wf(s) && s.numPayloads < s.maxPending && s.resendList == [] && CanQueue(s.sink)
    requires sv == Best(s.sink, env.pick(|s.payloads|)) && x == Drawn(env.draws, s.sink.endpoints[sv].pending)
    ensures SpoolArrives(s, spool, env) ==
      s.(received := s.received + spool,
         payloads := s.payloads + [NewPayload(spool).(nonce := x).Transmitted()],
         payloadList := s.payloadList + [|s.payloads|],
         numPayloads := s.numPayloads + 1,
         sink := Put(s.sink, sv, Queued(s.sink.endpoints[sv], x, |s.payloads|)))
  {
    var ps := s.payloads + [NewPayload(spool)];
    var q := NewPayload(spool).(nonce := x).Transmitted();
    assert ps[|s.payloads| := q] == s.payloads + [q];
  }

  /** A spool is sent to the only endpoint. */
  lemma SpoolSent(s: State, spool: seq<Event>, x: Nonce)
    requires Wf(s) && s.numPayloads < s.maxPending && s.resendList == [] && s.sink.ready == ["s"]
    requires x !in s.sink.endpoints["s"].pending
    ensures SpoolArrives(s, spool, Nonced(x)) ==
      s.(received := s.received + spool,
         payloads := s.payloads + [NewPayload(spool).(nonce := x).Transmitted()],
         payloadList := s.payloadList + [|s.payloads|],
         numPayloads := s.numPayloads + 1,
         sink := Put(s.sink, "s", Queued(s.sink.endpoints["s"], x, |s.payloads|)))
  {
    assert Best(s.sink, 0) == "s";
    SpoolSentTo(s, spool, Nonced(x), "s", x);
  }

  function BothPending(): Sink {
    Sink(map["s" := Endpoint(Active, map["x" := 0, "y" := 1], 2, 0)], ["s"], [])
  }

  lemma SpoolUp(spool: seq<Event>) returns (s: State)
    ensures ClearStep(Up(), SpoolStep(spool, Nonced("x")), s) && Wf(s)
    ensures s == Up().(received := spool, payloads := [NewPayload(spool).(nonce := "x").Transmitted()],
      payloadList := [0], numPayloads := 1, sink := Put(Up().sink, "s", Queued(Up().sink.endpoints["s"], "x", 0)))
  {
    s := SpoolArrives(Up(), spool, Nonced("x"));
    SpoolSent(Up(), spool, "x");
    assert [] + spool == spool;
  }

  /** The two spools are sent. */
  lemma BothSent(first: seq<Event>, second: seq<Event>) returns (s: State, t: State)
    ensures ClearStep(Up(), SpoolStep(first, Nonced("x")), s) && ClearStep(s, SpoolStep(second, Nonced("y")), t)
    ensures t.payloads ==
      [NewPayload(first).(nonce := "x").Transmitted(), NewPayload(second).(nonce := "y").Transmitted()]
    ensures t.payloadList == [0, 1] && t.resendList == [] && t.nextSpool.None? && t.released == [] && t.outOfSync == 0
    ensures Wf(t) && t.sink == BothPending()
  {
    s := SpoolUp(first);
    t := SpoolArrives(s, second, Nonced("y"));
    SpoolSent(s, second, "y");
    assert t.sink.endpoints == BothPending().endpoints;
  }

  lemma Continued(states: seq<State>, steps: seq<Step>, step: Step, t: State)
    requires IsRun(states, steps, 4) && ClearStep(states[|steps|], step, t)
    ensures IsRun(states + [t], steps + [step], 4)
    ensures (states + [t])[|steps| + 1] == t
  {
    var all, taken := states + [t], steps + [step];
    forall i | 0 <= i < |taken| ensures ClearStep(all[i], taken[i], all[i + 1]) {
      if i < |steps| {
        assert all[i] == states[i] && taken[i] == steps[i] && all[i + 1] == states[i + 1];
      } else {
        assert all[i] == states[|steps|] && taken[i] == step && all[i + 1] == t;
      }
    }
  }

  /** One endpoint is started, and two spools are sent to it. */
  lemma TwoSpools(first: seq<Event>, second: seq<Event>) returns (states: seq<State>, steps: seq<Step>, u: State)
    ensures IsRun(states, steps, 4) && u == states[|steps|]
    ensures u.payloads ==
      [NewPayload(first).(nonce := "x").Transmitted(), NewPayload(second).(nonce := "y").Transmitted()]
    ensures u.payloadList == [0, 1] && u.resendList == [] && u.nextSpool.None? && u.released == [] && u.outOfSync == 0
    ensures Wf(u) && u.sink == BothPending()
  {
    GoesUp();
    var s1 := Init(4).(sink := AddEndpoint(Init(4).sink, "s"));
    states, steps := [Init(4)], [];
    Continued(states, steps, AddStep("s"), s1);
    states, steps := states + [s1], steps + [AddStep("s")];
    Continued(states, steps, StartedStep("s", Nonced("w")), Up());
    states, steps := states + [Up()], steps + [StartedStep("s", Nonced("w"))];
    var t;
    t, u := BothSent(first, second);
    Continued(states, steps, SpoolStep(first, Nonced("x")), t);
    states, steps := states + [t], steps + [SpoolStep(first, Nonced("x"))];
    Continued(states, steps, SpoolStep(second, Nonced("y")), u);
    states, steps := states + [u], steps + [SpoolStep(second, Nonced("y"))];
  }

  /** An empty spool is sent, then one with one event; that event is acknowledged. The acknowledgement never
      reaches the registrar. */
  lemma EmptySpoolExample(event: Event) returns (states: seq<State>, steps: seq<Step>, s: State)
    ensures IsRun(states, steps, 4) && s == states[|steps|]
    ensures Accepted(s.payloads) == [event] && Acks(s.payloads) == [true]
    ensures s.released == [] && BeforeEmpty(s.payloads) == 0
  {
    var u;
    states, steps, u := TwoSpools([], [event]);
    s := AfterAck(u, "s", "y", u.payloads[0], u.payloads[1]);
    AckedBehindEmpty(s.payloads, event);
    Continued(states, steps, AckStep("s", "y", 1, Nonced("z")), s);
    states, steps := states + [s], steps + [AckStep("s", "y", 1, Nonced("z"))];
  }

  lemma AckedBehindEmpty(ps: seq<Payload>, event: Event)
    requires |ps| == 2 && ps[0].orig == [] && ps[1].orig == [event] && ps[1].acked == 1 && ps[1].processed == 0
    ensures Accepted(ps) == [event] && Acks(ps) == [true] && BeforeEmpty(ps) == 0
  {
    var rest := ps[1..];
    assert rest[0] == ps[1] && rest[1..] == [];
    assert Acks(rest) == [true] && Accepted(rest) == [event];
    assert ps[..0] == [];
  }

  lemma AfterAck(s: State, sv: Server, x: Nonce, empty: Payload, p: Payload) returns (t: State)
    requires Wf(s) && s.payloads == [empty, p] && s.payloadList == [0, 1] && sv in s.sink.endpoints
    requires x in s.sink.endpoints[sv].pending && s.sink.endpoints[sv].pending[x] == 1
    requires empty.orig == [] && !empty.HasAck() && s.sink.endpoints[sv].status == Active
    requires |p.orig| == 1 && p.events == p.orig && p.lastSequence == 0 && p.sequenceLen == 1 && p.base == 0
    requires "z" !in s.sink.endpoints[sv].pending && s.sink.ready == [sv]
    requires p.ackEvents == 0 && p.acked == 0 && !p.resending && s.resendList == [] && s.nextSpool.None?
    ensures ClearStep(s, AckStep(sv, x, 1, Nonced("z")), t)
    ensures t.released == s.released && |t.payloads| == 2 && t.payloads[0] == empty
    ensures t.payloads[1].orig == p.orig && t.payloads[1].acked == 1 && t.payloads[1].processed == p.processed
  {
    t := ProcessAck(s, sv, x, 1, Nonced("z"));
    var s1 := EndpointAck(s, sv, x, 1);
    assert s1.payloads == [empty, p.Ack(1)];
    var s2 := OnAck(s1, 1, true, 1, Nonced("z"));
    assert s2.payloads == s1.payloads && s2.released == s1.released;
  }

  /** The second of two payloads is acknowledged for no event: outOfSync counts it, although it holds nothing back. */
  lemma OutOfSyncExample(first: Event, second: Event) returns (states: seq<State>, steps: seq<Step>, s: State)
    ensures IsRun(states, steps, 4) && s == states[|steps|]
    ensures s.outOfSync == 1 && HoldingBack(s.payloads, Front(s) + 1) == 0
  {
    var u;
    states, steps, u := TwoSpools([first], [second]);
    s := ProcessAck(u, "s", "y", 0, Nonced("z"));
    var t := EndpointAck(u, "s", "y", 0);
    assert t.payloads == u.payloads && s.payloads == u.payloads;
    Continued(states, steps, AckStep("s", "y", 0, Nonced("z")), s);
    states, steps := states + [s], steps + [AckStep("s", "y", 0, Nonced("z"))];
    assert Front(s) == 0 && !s.payloads[1].HasAck();
    assert HoldingBack(s.payloads, 2) == 0;
  }

  // --- Two payloads under one nonce ---

  /** Two endpoints, just started. */
  function TwoUp(): State {
    Init(4).(sink := Sink(
      map["a" := NewEndpoint.(status := Active), "b" := NewEndpoint.(status := Active)], ["a", "b"], []))
  }

  function Added(s: State, sv: Server): State
    requires Wf(s) && sv !in s.sink.endpoints
  {
    s.(sink := AddEndpoint(s.sink, sv))
  }

  /** An endpoint is added and starts, while nothing is held. */
  lemma OneMoreUp(states: seq<State>, steps: seq<Step>, sv: Server, t: State)
    returns (all: seq<State>, taken: seq<Step>)
    requires IsRun(states, steps, 4) && Wf(states[|steps|]) && !EventsHeld(states[|steps|])
    requires sv !in states[|steps|].sink.endpoints
    requires t == states[|steps|].(sink := Activate(Added(states[|steps|], sv).sink, sv))
    requires forall x :: x in states[|steps|].sink.endpoints ==> states[|steps|].sink.endpoints[x].pending == map[]
    ensures IsRun(all, taken, 4) && all[|taken|] == t
  {
    var s, u, env := states[|steps|], Added(states[|steps|], sv), Nonced("w");
    assert ClearStep(s, AddStep(sv), u);
    Continued(states, steps, AddStep(sv), u);
    all, taken := states + [u], steps + [AddStep(sv)];
    assert Started(u, sv, env) == t;
    assert ClearStep(u, StartedStep(sv, env), t);
    Continued(all, taken, StartedStep(sv, env), t);
    all, taken := all + [t], taken + [StartedStep(sv, env)];
  }

  lemma BothUp() returns (states: seq<State>, steps: seq<Step>)
    ensures IsRun(states, steps, 4) && states[|steps|] == TwoUp()
  {
    states, steps := [Init(4)], [];
    var s := Init(4).(sink := Activate(Added(Init(4), "a").sink, "a"));
    states, steps := OneMoreUp(states, steps, "a", s);
    assert s.sink == Sink(map["a" := NewEndpoint.(status := Active)], ["a"], []) by {
      assert s.sink.endpoints == map["a" := NewEndpoint.(status := Active)];
    }
    var t := s.(sink := Activate(Added(s, "b").sink, "b"));
    states, steps := OneMoreUp(states, steps, "b", t);
    assert t.sink.endpoints == TwoUp().sink.endpoints;
  }

  /** Each of the endpoints has a payload under the same nonce. */
  function SameNonce(first: Event, second: Event): State {
    TwoUp().(received := [first, second],
      payloads := [NewPayload([first]).(nonce := "x").Transmitted(), NewPayload([second]).(nonce := "x").Transmitted()],
      payloadList := [0, 1], numPayloads := 2,
      sink := Sink(
        map["a" := Endpoint(Active, map["x" := 0], 1, 0), "b" := Endpoint(Active, map["x" := 1], 1, 0)],
        ["a", "b"], []))
  }

  function FirstSent(first: Event): State {
    TwoUp().(received := [first], payloads := [NewPayload([first]).(nonce := "x").Transmitted()],
      payloadList := [0], numPayloads := 1,
      sink := Sink(
        map["a" := Endpoint(Active, map["x" := 0], 1, 0), "b" := NewEndpoint.(status := Active)], ["a", "b"], []))
  }

  lemma SpoolStepClear(s: State, spool: seq<Event>, env: Env)
    requires Wf(s) && s.spoolOpen && Draws(s, env)
    ensures ClearStep(s, SpoolStep(spool, env), SpoolArrives(s, spool, env))
  {
  }

  lemma FirstSends(first: Event)
    ensures ClearStep(TwoUp(), SpoolStep([first], Env(i => i, ["x"])), FirstSent(first))
  {
    var s, env := TwoUp(), Env(i => i, ["x"]);
    SpoolStepClear(s, [first], env);
    SpoolSentTo(s, [first], env, "a", "x");
    assert SpoolArrives(s, [first], env).sink.endpoints == FirstSent(first).sink.endpoints;
  }

  lemma SecondSends(first: Event, second: Event)
    requires Wf(FirstSent(first))
    ensures ClearStep(FirstSent(first), SpoolStep([second], Env(i => i, ["x"])), SameNonce(first, second))
  {
    var s, env := FirstSent(first), Env(i => i, ["x"]);
    SpoolStepClear(s, [second], env);
    SpoolSentTo(s, [second], env, "b", "x");
    assert SpoolArrives(s, [second], env).sink.endpoints == SameNonce(first, second).sink.endpoints;
  }

  lemma BothSame(first: Event, second: Event) returns (states: seq<State>, steps: seq<Step>)
    ensures IsRun(states, steps, 4) && states[|steps|] == SameNonce(first, second)
  {
    var env := Env(i => i, ["x"]);
    states, steps := BothUp();
    FirstSends(first);
    Continued(states, steps, SpoolStep([first], env), FirstSent(first));
    states, steps := states + [FirstSent(first)], steps + [SpoolStep([first], env)];
    RunKeeps(states, steps, 4, |steps|);
    SecondSends(first, second);
    Continued(states, steps, SpoolStep([second], env), SameNonce(first, second));
    states, steps := states + [SameNonce(first, second)], steps + [SpoolStep([second], env)];
  }

  ghost predicate ClashStep(s: State, step: Step, t: State) {
    StepTo(s, step, t) && !Clear(s, step)
  }

  /** Two spools go to two endpoints, which draw the same nonce, each for its own. Then the first endpoint fails, and
      its payload is sent again, to the second. The other payload is lost from sight: it is not acknowledged, but
      pending nowhere and not to be sent again; and the endpoint's count is off. */
  lemma CollisionExample(first: Event, second: Event)
    returns (states: seq<State>, steps: seq<Step>, step: Step, t: State)
    ensures IsRun(states, steps, 4) && ClashStep(states[|steps|], step, t)
    ensures |t.payloads| == 2 && t.payloads[1].orig == [second] && t.payloads[1].acked == 0
    ensures 1 in t.payloadList && t.resendList == [] && "b" in t.sink.endpoints
    ensures forall sv, x :: sv in t.sink.endpoints && x in t.sink.endpoints[sv].pending ==>
      t.sink.endpoints[sv].pending[x] == 0
    ensures t.sink.endpoints["b"].numPayloads == 2 && t.sink.endpoints["b"].pending == map["x" := 0]
  {
    var s, env := SameNonce(first, second), Env(i => 0, ["y"]);
    states, steps := BothSame(first, second);
    step := FailedStep("a", [0], env);
    RunKeeps(states, steps, 4, |steps|);
    OnlyOrder(map["x" := 0], 0);
    t := FailedResent(s, env);
    OnlyFirst(t.sink.endpoints);
    assert s.payloads[1] == NewPayload([second]).(nonce := "x").Transmitted();
  }

  lemma OnlyFirst(m: map<Server, Endpoint>)
    requires m == OneFailed(Endpoint(Active, map["x" := 0], 2, 0))
    ensures "b" in m && m["b"].numPayloads == 2 && m["b"].pending == map["x" := 0]
    ensures forall sv, x :: sv in m && x in m[sv].pending ==> m[sv].pending[x] == 0
  {
  }

  lemma OnlyOrder(m: map<Nonce, nat>, id: nat)
    requires m == map["x" := id]
    ensures IsOrder([id], m.Values)
  {
    assert m["x"] == id;
  }

  /** The two endpoints after the first has failed, with the second as given. */
  function OneFailed(e: Endpoint): map<Server, Endpoint> {
    map["a" := Endpoint(Failed, map[], 0, 0), "b" := e]
  }

  lemma FirstFails(k: Sink, e: Endpoint)
    requires ListsMatchStatus(k) && k.ready == ["a", "b"] && k.failed == []
    requires k.endpoints == map["a" := Endpoint(Active, map["x" := 0], 1, 0), "b" := e]
    ensures var l := FailedEmpty(k, "a"); l.endpoints == OneFailed(e) && l.ready == ["b"] && l.failed == ["a"]
  {
    assert Without(["a", "b"], "a") == ["b"] by {
      assert ["a", "b"][1..] == ["b"];
    }
  }

  /** The only payload on the resend list goes to b, under the nonce pending there. */
  lemma ResentOnto(s: State, env: Env) returns (t: State)
    requires Wf(s) && |s.payloads| == 2 && s.payloads[0].nonce == "x" && s.resendList == [0] && s.sink.ready == ["b"]
    requires s.sink.endpoints == OneFailed(Endpoint(Active, map["x" := 1], 1, 0))
    ensures CanQueue(s.sink) && !ResendsClear(s, env) && t == ResendAll(s, env)
    ensures |t.payloads| == 2 && t.payloads[1] == s.payloads[1] && t.payloadList == s.payloadList
    ensures t.resendList == [] && t.sink.endpoints == OneFailed(Endpoint(Active, map["x" := 0], 2, 0))
  {
    assert Best(s.sink, env.pick(0)) == "b";
    t := ResendOne(s, env);
    assert t.resendList == [];
    var e := s.sink.endpoints["b"];
    assert e.pending["x" := 0] == map["x" := 0];
    assert t.sink == Put(s.sink, "b", Queued(e, "x", 0));
  }

  lemma FailedResent(s: State, env: Env) returns (t: State)
    requires Wf(s) && |s.payloads| == 2 && s.payloads[0].nonce == "x" && !s.shuttingDown && s.resendList == []
    requires s.sink.ready == ["a", "b"] && s.sink.failed == []
    requires s.sink.endpoints ==
      map["a" := Endpoint(Active, map["x" := 0], 1, 0), "b" := Endpoint(Active, map["x" := 1], 1, 0)]
    requires env.draws == ["y"] && OrderOf(s, "a", [0])
    ensures ClashStep(s, FailedStep("a", [0], env), t)
    ensures |t.payloads| == 2 && t.payloads[1] == s.payloads[1]
    ensures t.payloadList == s.payloadList && t.resendList == []
    ensures t.sink.endpoints == OneFailed(Endpoint(Active, map["x" := 0], 2, 0))
  {
    FirstFails(s.sink, s.sink.endpoints["b"]);
    var u := RequeueOne(s.(sink := FailedEmpty(s.sink, "a")), 0);
    OneRequeued(s.(sink := FailedEmpty(s.sink, "a")), 0);
    t := ResentOnto(u, env);
    assert EventsHeld(u) && t == TryQueueHeld(u, env);
    assert Draws(u, env);
    FailureClashes(s, "a", [0], env, u);
  }

  lemma OneRequeued(s: State, id: nat)
    requires Wf(s) && id < |s.payloads|
    ensures Requeue(s, [id]) == RequeueOne(s, id)
  {
    assert [id][1..] == [];
    assert Requeue(RequeueOne(s, id), []) == RequeueOne(s, id);
  }

  lemma FailureClashes(s: State, sv: Server, order: seq<nat>, env: Env, u: State)
    requires Wf(s) && OrderOf(s, sv, order) && forall i :: 0 <= i < |order| ==> order[i] < |s.payloads|
    requires FailedPulled(s, sv, order) == Some(u) && Wf(u) && Draws(u, env) && !TryClear(u, env)
    ensures ClashStep(s, FailedStep(sv, order, env), TryQueueHeld(u, env))
  {
    var step := FailedStep(sv, order, env);
    assert Happens(s, step) && Trying(s, step) == Some(u);
    assert Apply(s, step) == EndpointFailed(s, sv, order, env) == TryQueueHeld(u, env);
  }
}
