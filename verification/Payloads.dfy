/**
 A payload: one spool of events on its way to an endpoint (lc-lib/payload/payload.go).

 The first seven fields are the program's. The last three are history: `orig` is the spool
 the payload was made from, `base` says that the last transmission carried `orig[base..]`,
 and `acked` is how many leading events of `orig` the acknowledgements received so far cover
 when each is read against the transmission it answers. What is proved is that the
 program's bookkeeping, which renumbers sequences and discards events, never disagrees with
 that history.
 */
module Payloads {
  import opened Sequences
  import Registrar

  /** Streams are numbered here; only their identity matters. */
  type Event = Registrar.Descriptor<nat>

  type Nonce = string

  /** The index itself, whenever it is a legal one. */
  function Index(k: int, n: nat): (r: nat)
    ensures r <= n && (0 <= k <= n ==> r == k)
  {
    if 0 <= k <= n then k else 0
  }

  datatype Payload = Payload(
    events: seq<Event>, lastSequence: int, sequenceLen: int, ackEvents: int, processed: int,
    nonce: Nonce, resending: bool,
    orig: seq<Event>, base: int, acked: int)
  {
    /** Every count and slice of the program agrees with the history. */
    ghost predicate DataOk() {
      && 0 <= base <= acked <= |orig|
      && 0 <= processed
      && 0 <= ackEvents
      && processed + ackEvents == acked
      && events == orig[processed..]
      && (Complete() ==> sequenceLen <= lastSequence)
    }

    /** Sequence numbers count events from position `from` of the spool. */
    ghost predicate Numbered(from: int) {
      lastSequence == acked - from && sequenceLen == |orig| - from
    }

    /** Sequence numbers may run past the end once the payload is complete. */
    ghost predicate Tracks() {
      DataOk() && (Complete() || Numbered(base))
    }

    predicate HasAck() { ackEvents != 0 }

    predicate Complete() { |events| == ackEvents }

    function Events(): seq<Event> {
      events[SplitPoint()..]
    }

    function RolledUp(): seq<Event> {
      events[..SplitPoint()]
    }

    function Rollup(): Payload {
      this.(processed := processed + ackEvents, events := Events(), ackEvents := 0)
    }

    /** Where the events are sliced. */
    function SplitPoint(): nat {
      Index(ackEvents, |events|)
    }

    function ResetSequence(): Payload {
      this.(lastSequence := 0, sequenceLen := |events| - ackEvents)
    }

    /** The number of events an acknowledgement is reported to cover. */
    function AckLines(sequence: int): int {
      if sequence <= lastSequence then 0
      else if sequence >= sequenceLen then sequenceLen - lastSequence
      else sequence - lastSequence
    }

    /** Whether an acknowledgement is reported to complete the payload. */
    predicate AckFull(sequence: int) {
      sequence > lastSequence && sequence >= sequenceLen
    }

    function Ack(sequence: int): Payload {
      if sequence <= lastSequence then
        Answered(sequence)
      else if sequence >= sequenceLen then
        Answered(sequence).(ackEvents := |events|, lastSequence := sequence)
      else
        Answered(sequence).(ackEvents := ackEvents + sequence - lastSequence, lastSequence := sequence)
    }

    /** History: an acknowledgement of `sequence` covers that many events of the last transmission. */
    function Answered(sequence: int): Payload {
      this.(acked := Max(acked, base + Min(sequence, |orig| - base)))
    }

    /** History: what Events() returns has just been written to a transport. */
    function Transmitted(): Payload {
      this.(base := |orig| - (|events| - ackEvents))
    }
  }

  function NewPayload(events: seq<Event>): Payload {
    Payload(events, 0, |events|, 0, 0, "", false, events, 0, 0)
  }

  // --- One operation ---

  /** Complete means that every event of the spool is acknowledged. */
  lemma CompleteMeansAcked(p: Payload)
    requires p.DataOk()
    ensures p.Complete() <==> p.acked == |p.orig|
    ensures p.Events() == p.orig[p.acked..]
    ensures p.RolledUp() == p.orig[p.processed..p.acked]
  {
  }

  /** Sequence arithmetic: an incomplete payload has exactly as many sequence numbers left as events left. */
  lemma SequenceArithmetic(p: Payload, from: int)
    requires p.DataOk() && p.Numbered(from) && !p.Complete()
    ensures p.sequenceLen - p.lastSequence == |p.events| - p.ackEvents > 0
  {
  }

  /** An acknowledgement of an incomplete payload does what the wire protocol asks: sequence numbers
      not above the last one change nothing, those past the end act as exactly the end, and the
      count reported is the number of events newly covered. */
  lemma AckFollowsWire(p: Payload, sequence: int)
    requires p.Tracks() && !p.Complete()
    ensures var q := p.Ack(sequence);
            && q.Tracks()
            && p.AckLines(sequence) == q.acked - p.acked
            && (p.AckFull(sequence) <==> q.acked == |q.orig|)
            && (sequence <= p.lastSequence ==> q == p)
            && (sequence > p.sequenceLen ==>
                  q.(lastSequence := p.sequenceLen) == p.Ack(p.sequenceLen))
  {
  }

  /** On a payload that is already complete, acknowledgements leave the data alone; the count
      reported is right exactly when the sequence is stale or the payload was never
      acknowledged beyond its end. */
  lemma AckOfCompletePayload(p: Payload, sequence: int)
    requires p.DataOk() && p.Complete()
    ensures var q := p.Ack(sequence);
            && q.DataOk() && q.Complete()
            && (p.AckLines(sequence) == q.acked - p.acked
                <==> sequence <= p.lastSequence || p.lastSequence == p.sequenceLen)
  {
  }

  /** Rolling up hands over exactly the events acknowledged since the last rollup. */
  lemma RollupAdvances(p: Payload)
    requires p.Tracks()
    ensures var q := p.Rollup();
            && q.Tracks() && !q.HasAck()
            && p.orig[..p.processed] + p.RolledUp() == p.orig[..q.processed]
            && q.processed == p.acked && q.Events() == p.Events()
  {
  }

  /** A resend transmits exactly the unacknowledged events and numbers them from one. */
  lemma ResendRenumbers(p: Payload)
    requires p.DataOk()
    ensures p.ResetSequence().DataOk() && p.ResetSequence().Numbered(p.acked)
    ensures var q := p.Transmitted().ResetSequence();
            && q.DataOk() && q.Numbered(q.base)
            && q.orig[q.base..] == p.Events()
  {
  }

  // --- Whole runs ---

  /** What can happen to a payload that has been transmitted. */
  datatype Op = Acknowledge(sequence: int) | RollUp | Resend

  function ApplyOp(p: Payload, op: Op): Payload {
    match op
    case Acknowledge(sequence) => p.Ack(sequence)
    case RollUp => p.Rollup()
    case Resend => p.Transmitted().ResetSequence()
  }

  /** The count an operation reports, as the publisher uses it: only incomplete payloads are asked. */
  function OpLines(p: Payload, op: Op): int {
    if op.Acknowledge? && !p.Complete() then p.AckLines(op.sequence) else 0
  }

  function OpRolled(p: Payload, op: Op): seq<Event> {
    if op.RollUp? then p.RolledUp() else []
  }

  lemma OpStep(p: Payload, op: Op)
    requires p.Tracks()
    ensures var q := ApplyOp(p, op);
            && q.Tracks()
            && q.orig == p.orig && p.acked <= q.acked && p.processed <= q.processed
            && OpLines(p, op) == q.acked - p.acked
            && OpRolled(p, op) == p.orig[p.processed..q.processed]
  {
    if op.Acknowledge? && p.Complete() {
      AckOfCompletePayload(p, op.sequence);
    }
  }

  /** The payload after a run, the total of the counts reported, and the events handed over. */
  function RunOps(p: Payload, ops: seq<Op>): (Payload, int, seq<Event>)
    requires p.Tracks()
    decreases |ops|
  {
    if ops == [] then (p, 0, [])
    else
      OpStep(p, ops[0]);
      var (q, lines, rolled) := RunOps(ApplyOp(p, ops[0]), ops[1..]);
      (q, OpLines(p, ops[0]) + lines, OpRolled(p, ops[0]) + rolled)
  }

  lemma SliceJoin<T>(s: seq<T>, i: nat, j: nat, k: nat)
    requires i <= j <= k <= |s|
    ensures s[i..j] + s[j..k] == s[i..k]
  {
  }

  /** Over any interleaving of acknowledgements, rollups and renumbered resends, the counts
      reported while the payload is incomplete add up to the events newly acknowledged, and
      the events handed over are consecutive and are exactly those acknowledged before the
      last rollup. */
  lemma {:induction false} RunConserves(p: Payload, ops: seq<Op>)
    requires p.Tracks()
    ensures var (q, lines, rolled) := RunOps(p, ops);
            && q.Tracks() && q.orig == p.orig
            && lines == q.acked - p.acked
            && p.processed <= q.processed
            && rolled == p.orig[p.processed..q.processed]
    decreases |ops|
  {
    if ops != [] {
      var op := ops[0];
      OpStep(p, op);
      var p1 := ApplyOp(p, op);
      RunConserves(p1, ops[1..]);
      var (q, lines, rolled) := RunOps(p1, ops[1..]);
      SliceJoin(p.orig, p.processed, p1.processed, q.processed);
      assert OpRolled(p, op) + rolled == p.orig[p.processed..q.processed];
    }
  }

  /** The sequence numbers of a run matter only up to the events they cover: a complete run, where
      every event ends up acknowledged and rolled up, hands over the spool itself. */
  lemma CompleteRunReleasesSpool(events: seq<Event>, ops: seq<Op>)
    ensures NewPayload(events).Tracks()
    ensures var (q, lines, rolled) := RunOps(NewPayload(events), ops);
            q.Complete() && !q.HasAck() ==> rolled == events && lines == |events|
  {
    RunConserves(NewPayload(events), ops);
  }
}
