/**
 The acknowledgement protocol over whole runs: what the registrar is told, what is conserved, where
 payloads are, and how endpoints live and die.
 */
module DeliveryRuns {
  import opened Sequences
  import opened Payloads
  import opened Delivery
  import opened DeliveryInvariant
  import opened DeliverySteps

  ghost predicate StepTo(s: State, step: Step, t: State) {
    Wf(s) && Enabled(s, step) && t == Apply(s, step)
  }

  /** What the publisher may do from its start. */
  ghost predicate IsTrace(states: seq<State>, steps: seq<Step>, maxPending: int) {
    && |states| == |steps| + 1
    && states[0] == Init(maxPending)
    && (forall i :: 0 <= i < |steps| ==> StepTo(states[i], steps[i], states[i + 1]))
  }

  ghost predicate ClearStep(s: State, step: Step, t: State) {
    StepTo(s, step, t) && Clear(s, step)
  }

  /** A run of the publisher from its start in which no payload is sent again to an endpoint on which another is
      pending under its nonce. */
  ghost predicate IsRun(states: seq<State>, steps: seq<Step>, maxPending: int) {
    && |states| == |steps| + 1
    && states[0] == Init(maxPending)
    && (forall i :: 0 <= i < |steps| ==> ClearStep(states[i], steps[i], states[i + 1]))
  }

  lemma RunIsTrace(states: seq<State>, steps: seq<Step>, maxPending: int)
    requires IsRun(states, steps, maxPending)
    ensures IsTrace(states, steps, maxPending)
  {
    forall i | 0 <= i < |steps| ensures StepTo(states[i], steps[i], states[i + 1]) {
      assert ClearStep(states[i], steps[i], states[i + 1]);
    }
  }

  lemma {:induction false} RunKeeps(states: seq<State>, steps: seq<Step>, maxPending: int, n: nat)
    requires IsRun(states, steps, maxPending) && n < |states|
    ensures Inv(states[n])
  {
    if n == 0 {
      InitInv(maxPending);
    } else {
      RunKeeps(states, steps, maxPending, n - 1);
      assert ClearStep(states[n - 1], steps[n - 1], states[n - 1 + 1]);
      StepKeeps(states[n - 1], steps[n - 1]);
    }
  }

  // --- The registrar is told a prefix, and as much as possible ---

  /** For every accepted event, in order, whether the wire has acknowledged it. */
  function Acks(ps: seq<Payload>): seq<bool> {
    if ps == [] then [] else seq(|ps[0].orig|, i => i < ps[0].acked) + Acks(ps[1..])
  }

  /** Payloads 0..k are handed over, payload k as far as acknowledged, and the others not at all. */
  ghost predicate SplitAt(ps: seq<Payload>, k: nat) {
    && AllData(ps) && k <= |ps|
    && (forall i :: 0 <= i < k ==> ps[i].processed == |ps[i].orig|)
    && (k < |ps| ==> !ps[k].HasAck())
    && (forall i :: k < i < |ps| ==> ps[i].processed == 0)
  }

  /** The first payload made of an empty spool, or the number of payloads when there is none. */
  function FirstEmpty(ps: seq<Payload>): (k: nat)
    ensures k <= |ps| && (k < |ps| ==> ps[k].orig == [])
    ensures forall i :: 0 <= i < k ==> ps[i].orig != []
  {
    if ps == [] || ps[0].orig == [] then 0 else 1 + FirstEmpty(ps[1..])
  }

  /** The number of events accepted before the first empty spool. */
  function BeforeEmpty(ps: seq<Payload>): nat {
    |Accepted(ps[..FirstEmpty(ps)])|
  }

  /** The longest prefix of the accepted events that is acknowledged and does not go past an empty spool. */
  function Releasable(ps: seq<Payload>): seq<Event> {
    AcksLength(ps);
    Accepted(ps)[..Min(TruePrefix(Acks(ps)), BeforeEmpty(ps))]
  }

  lemma BeforeEmptyUnfolds(ps: seq<Payload>)
    requires ps != [] && ps[0].orig != []
    ensures BeforeEmpty(ps) == |ps[0].orig| + BeforeEmpty(ps[1..])
  {
    var e := FirstEmpty(ps[1..]);
    assert ps[..e + 1][0] == ps[0] && ps[..e + 1][1..] == ps[1..][..e];
  }

  lemma {:induction false} TruePrefixSplit(a: seq<bool>, b: seq<bool>)
    requires forall i :: 0 <= i < |a| ==> a[i]
    ensures TruePrefix(a + b) == |a| + TruePrefix(b)
  {
    TruePrefixUnique(a + b, |a| + TruePrefix(b));
  }

  lemma PartlyAcked(p: Payload, rest: seq<bool>)
    requires p.DataOk() && p.acked < |p.orig|
    ensures TruePrefix(seq(|p.orig|, i => i < p.acked) + rest) == p.acked
  {
    TruePrefixUnique(seq(|p.orig|, i => i < p.acked) + rest, p.acked);
  }

  /** The front of the list, which may be an empty spool. */
  lemma AcksOfFront(ps: seq<Payload>)
    requires SplitAt(ps, 0) && ps != []
    requires ps[0].acked < |ps[0].orig| || ps[0].orig == []
    ensures HandedOver(ps) <= Accepted(ps)
    ensures |HandedOver(ps)| == Min(TruePrefix(Acks(ps)), BeforeEmpty(ps))
  {
    var p, rest := ps[0], ps[1..];
    assert p.DataOk();
    NothingHandedOver(rest);
    assert HandedOver(ps) == p.orig[..p.acked];
    if p.orig == [] {
      assert ps[..0] == [];
    } else {
      PartlyAcked(p, Acks(rest));
      BeforeEmptyUnfolds(ps);
    }
  }

  lemma {:induction false} AcksOfSplit(ps: seq<Payload>, k: nat)
    requires SplitAt(ps, k) && forall i :: 0 <= i < k ==> ps[i].orig != []
    requires k < |ps| ==> ps[k].acked < |ps[k].orig| || ps[k].orig == []
    ensures HandedOver(ps) <= Accepted(ps)
    ensures |HandedOver(ps)| == Min(TruePrefix(Acks(ps)), BeforeEmpty(ps))
  {
    if k > 0 {
      var p, rest := ps[0], ps[1..];
      assert p.DataOk();
      AcksOfSplit(rest, k - 1);
      assert p.orig[..p.processed] == p.orig;
      TruePrefixSplit(seq(|p.orig|, i => i < p.acked), Acks(rest));
      BeforeEmptyUnfolds(ps);
    } else if ps != [] {
      AcksOfFront(ps);
    }
  }

  lemma InvSplits(s: State)
    requires Inv(s)
    ensures 0 <= First(BookOf(s)) && SplitAt(s.payloads, First(BookOf(s)))
    ensures forall i :: 0 <= i < First(BookOf(s)) ==> s.payloads[i].orig != []
    ensures First(BookOf(s)) < |s.payloads| ==> Deliverable(s.payloads[First(BookOf(s))])
    ensures s.released == HandedOver(s.payloads)
  {
    var k := First(BookOf(s));
    if k < |s.payloads| {
      assert s.payloads[k].DataOk();
      assert s.payloadList != [];
    }
  }

  /** After every step, what the registrar was told is, of the accepted events, the longest prefix that is
      acknowledged and does not go past an empty spool. */
  lemma ReleasedIsAckedPrefix(s: State)
    requires Inv(s)
    ensures s.released == Releasable(s.payloads)
  {
    InvSplits(s);
    ReleasedOfSplit(s.payloads, First(BookOf(s)));
  }

  lemma ReleasedOfSplit(ps: seq<Payload>, k: nat)
    requires SplitAt(ps, k) && forall i :: 0 <= i < k ==> ps[i].orig != []
    requires k < |ps| ==> Deliverable(ps[k])
    ensures HandedOver(ps) == Releasable(ps)
  {
    AcksOfSplit(ps, k);
    AcksLength(ps);
  }

  lemma {:induction false} AcksLength(ps: seq<Payload>)
    ensures |Acks(ps)| == |Accepted(ps)|
  {
    if ps != [] { AcksLength(ps[1..]); }
  }

  // --- Conservation ---

  /** The events of the payloads still on the list. */
  function Remaining(ps: seq<Payload>): seq<Event> {
    if ps == [] then [] else ps[0].events + Remaining(ps[1..])
  }

  lemma {:induction false} AllRemaining(ps: seq<Payload>)
    requires AllData(ps) && forall i :: 0 <= i < |ps| ==> ps[i].processed == 0
    ensures Remaining(ps) == Accepted(ps)
  {
    if ps != [] {
      assert ps[0].DataOk();
      AllRemaining(ps[1..]);
    }
  }

  lemma {:induction false} NothingLost(ps: seq<Payload>, k: nat)
    requires SplitAt(ps, k)
    ensures Accepted(ps) == HandedOver(ps) + Remaining(ps[k..])
  {
    if ps == [] {
      assert ps[k..] == [];
    } else {
      var p, rest := ps[0], ps[1..];
      assert p.DataOk();
      var a, b := p.orig[..p.processed], p.events;
      assert p.orig == a + b;
      if k > 0 {
        NothingLost(rest, k - 1);
        assert rest[k - 1..] == ps[k..];
        assert b == [];
        Assoc(p.orig, HandedOver(rest), Remaining(ps[k..]));
      } else {
        NothingHandedOver(rest);
        AllRemaining(rest);
        assert ps[k..] == ps;
        assert HandedOver(ps) == a;
        Assoc(a, b, Accepted(rest));
      }
    }
  }

  /** Every event received is in exactly one place, in order: told to the registrar, in a payload on
      the list, held for want of an endpoint, or given up at shutdown. */
  lemma ReceivedIsConserved(s: State)
    requires Inv(s)
    ensures s.received ==
      s.released + Remaining(s.payloads[First(BookOf(s))..]) + Held(s) + (if s.shuttingDown then s.dropped else [])
  {
    InvSplits(s);
    NothingLost(s.payloads, First(BookOf(s)));
  }

  // --- No payload goes missing ---

  /** Where a payload is: never in two places; and, until shutdown begins, a payload with unacknowledged events is
      either on the resend list or pending, under its nonce, on exactly one endpoint. One that has events, all
      of them acknowledged, is in neither place; one without events may be in either. */
  lemma PayloadInOnePlace(s: State, id: nat)
    requires Inv(s) && id < |s.payloads|
    ensures s.payloads[id].resending <==> id in s.resendList
    ensures id in s.resendList ==> forall sv :: !Holds(BookOf(s), sv, id)
    ensures forall sv, other :: Holds(BookOf(s), sv, id) && Holds(BookOf(s), other, id) ==> other == sv
    ensures s.payloads[id].acked == |s.payloads[id].orig| > 0 ==>
      id !in s.resendList && forall sv :: !Holds(BookOf(s), sv, id)
    ensures !s.shuttingDown && s.payloads[id].acked < |s.payloads[id].orig| ==>
      id in s.resendList || exists sv :: Holds(BookOf(s), sv, id)
  {
    var b := BookOf(s);
    assert forall sv :: Holds(b, sv, id) ==> !b.payloads[id].resending && Deliverable(b.payloads[id]);
    assert id in s.resendList ==> Deliverable(b.payloads[id]);
    if !s.shuttingDown && s.payloads[id].acked < |s.payloads[id].orig| {
      assert Somewhere(b, {}, id);
    }
  }

  /** Everything pending on an endpoint is a payload on the list, and the endpoint's count of it is right. */
  lemma PendingIsListed(s: State, sv: Server, x: Nonce)
    requires Inv(s) && sv in s.sink.endpoints
    ensures s.sink.endpoints[sv].numPayloads == |s.sink.endpoints[sv].pending|
    ensures x in s.sink.endpoints[sv].pending ==>
      var id := s.sink.endpoints[sv].pending[x];
      id in s.payloadList && s.payloads[id].nonce == x && !s.payloads[id].resending
  {
    if x in s.sink.endpoints[sv].pending {
      PendingFacts(s, sv, x);
      ListedFrom(BookOf(s), s.sink.endpoints[sv].pending[x]);
    }
  }

  /** What the ring list asks of its callers, that an element put on a list is on none: an endpoint is idle
      when it is put on the ready list and active when it is put on the failed list; a payload is put on
      the resend list when it is pulled back from an endpoint, and in the order of a map, so not twice;
      and a payload made next is not one there is. */
  lemma InsertedIsOnNoList(states: seq<State>, steps: seq<Step>, maxPending: int, n: nat, sv: Server, order: seq<nat>)
    requires IsRun(states, steps, maxPending) && n < |states| && OrderOf(states[n], sv, order)
    ensures var s := states[n];
      && (s.sink.endpoints[sv].status == Idle ==> sv !in s.sink.ready && sv !in s.sink.failed)
      && (s.sink.endpoints[sv].status == Active ==> sv !in s.sink.failed)
      && NoDup(order) && (forall i :: 0 <= i < |order| ==> order[i] !in s.resendList)
      && |s.payloads| !in s.payloadList
  {
    var s := states[n];
    RunKeeps(states, steps, maxPending, n);
    forall i | 0 <= i < |order| ensures order[i] !in s.resendList {
      assert order[i] in order;
      var x :| x in s.sink.endpoints[sv].pending && s.sink.endpoints[sv].pending[x] == order[i];
      PendingFacts(s, sv, x);
    }
  }

  lemma ListedFrom(b: Book, id: nat)
    requires InOrderOk(b) && First(b) <= id < |b.payloads|
    ensures id in b.payloadList
  {
    assert b.payloadList[id - First(b)] == id;
  }
}
