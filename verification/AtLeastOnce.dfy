/**
 At-least-once delivery: whatever a stream's stored offset has passed was acknowledged and released, so that every
 other event lies behind it.
 */
module AtLeastOnce {
  import opened Sequences
  import opened Payloads
  import opened Delivery
  import opened DeliveryInvariant
  import opened DeliveryRuns
  import R = Registrar

  /** The offsets of a stream's events do not decrease, nor lie below the one it was opened at. */
  ghost predicate NonDecreasing(events: seq<Event>, stream: nat, start: int) {
    && (forall i :: 0 <= i < |events| && events[i].stream == stream ==> start <= events[i].offset)
    && (forall i, j :: 0 <= i < j < |events| && events[i].stream == events[j].stream == stream ==>
          events[i].offset <= events[j].offset)
  }

  /** The offsets of a stream's events increase, and all lie above the one it was opened at. */
  ghost predicate Increasing(events: seq<Event>, stream: nat, start: int) {
    && (forall i :: 0 <= i < |events| && events[i].stream == stream ==> start < events[i].offset)
    && (forall i, j :: 0 <= i < j < |events| && events[i].stream == events[j].stream == stream ==>
          events[i].offset < events[j].offset)
  }

  /** The stream is started no later than there, whether it was known before or is discovered on the way, and however
      often. */
  ghost predicate StartsBy(saved: R.Saved<nat>, es: seq<R.Event<nat>>, stream: nat, start: int) {
    forall offset :: offset in R.Starts(saved, es, stream) ==> offset <= start
  }

  /** Whatever happens to endpoints, payloads and acknowledgements, and whenever the program stops: let
      the registrar have processed, among any other events, any part of what the publisher sent it
      (`es`). Let the stream be started no later than `start`, from where its events were read.
      Then an event of the stream at or below its stored offset has been acknowledged and released; and the offset
      of every other one, in particular of every one the publisher still holds, lies above it. */
  lemma NothingUnacknowledgedIsSkipped(
    states: seq<State>, steps: seq<Step>, maxPending: int, n: nat,
    saved: R.Saved<nat>, es: seq<R.Event<nat>>, stream: nat, start: int, i: nat)
    requires IsRun(states, steps, maxPending) && n < |states|
    requires StartsBy(saved, es, stream, start) && stream in R.ProcessAll(saved, es)
    requires R.Acked(es) <= states[n].released
    requires Increasing(Accepted(states[n].payloads), stream, start)
    requires i < |Accepted(states[n].payloads)| && Accepted(states[n].payloads)[i].stream == stream
    ensures |Acks(states[n].payloads)| == |Accepted(states[n].payloads)|
    ensures var stored := R.ProcessAll(saved, es)[stream].offset; var event := Accepted(states[n].payloads)[i];
      && (event.offset <= stored ==> Acks(states[n].payloads)[i] && i < |states[n].released|)
      && (!Acks(states[n].payloads)[i] || i >= |states[n].released| ==> event.offset > stored)
  {
    var s := states[n];
    RunKeeps(states, steps, maxPending, n);
    ReleasedIsAckedPrefix(s);
    ReleasableIsAcked(s.payloads);
    R.StoredFrom(saved, es, stream);
    var starts := R.Starts(saved, es, stream);
    BelowStored(Accepted(s.payloads), R.Acked(es), stream, start, starts, R.ProcessAll(saved, es)[stream].offset, i);
  }

  /** The same when events may share an offset, as those do that the multiline codec cuts where a line ends: an event
      that is not acknowledged, or not released, may then also lie at the stored offset; but only when that is
      where the stream was started, or when an event with the same offset was acknowledged. */
  lemma NothingUnacknowledgedIsPassed(
    states: seq<State>, steps: seq<Step>, maxPending: int, n: nat,
    saved: R.Saved<nat>, es: seq<R.Event<nat>>, stream: nat, start: int, i: nat)
    requires IsRun(states, steps, maxPending) && n < |states|
    requires StartsBy(saved, es, stream, start) && stream in R.ProcessAll(saved, es)
    requires R.Acked(es) <= states[n].released
    requires NonDecreasing(Accepted(states[n].payloads), stream, start)
    requires i < |Accepted(states[n].payloads)| && Accepted(states[n].payloads)[i].stream == stream
    ensures |Acks(states[n].payloads)| == |Accepted(states[n].payloads)|
    ensures var stored := R.ProcessAll(saved, es)[stream].offset; var event := Accepted(states[n].payloads)[i];
      && (event.offset < stored ==> Acks(states[n].payloads)[i] && i < |states[n].released|)
      && (!Acks(states[n].payloads)[i] || i >= |states[n].released| ==>
            || event.offset > stored
            || (event.offset == stored && (stored == start || R.Descriptor(stream, stored) in R.Acked(es))))
  {
    var s := states[n];
    RunKeeps(states, steps, maxPending, n);
    ReleasedIsAckedPrefix(s);
    ReleasableIsAcked(s.payloads);
    R.StoredFrom(saved, es, stream);
    var starts := R.Starts(saved, es, stream);
    BeforeStored(Accepted(s.payloads), R.Acked(es), stream, start, starts, R.ProcessAll(saved, es)[stream].offset, i);
  }

  lemma ReleasableIsAcked(ps: seq<Payload>)
    ensures |Acks(ps)| == |Accepted(ps)| && Releasable(ps) <= Accepted(ps)
    ensures forall k :: 0 <= k < |Releasable(ps)| ==> Acks(ps)[k]
  {
    AcksLength(ps);
  }

  lemma BelowStored(
    events: seq<Event>, acked: seq<Event>, stream: nat, start: int, starts: set<int>, stored: int, i: nat)
    requires acked <= events && R.OffsetFrom(stored, stream, starts, acked)
    requires forall offset :: offset in starts ==> offset <= start
    requires Increasing(events, stream, start) && i < |events| && events[i].stream == stream
    ensures events[i].offset <= stored ==> i < |acked|
  {
    if events[i].offset <= stored {
      var k :| 0 <= k < |acked| && acked[k].stream == stream && acked[k].offset == stored;
      assert events[k] == acked[k];
    }
  }

  lemma BeforeStored(
    events: seq<Event>, acked: seq<Event>, stream: nat, start: int, starts: set<int>, stored: int, i: nat)
    requires acked <= events && R.OffsetFrom(stored, stream, starts, acked)
    requires forall offset :: offset in starts ==> offset <= start
    requires NonDecreasing(events, stream, start) && i < |events| && events[i].stream == stream
    ensures events[i].offset < stored ==> i < |acked|
    ensures events[i].offset == stored && i >= |acked| ==> stored == start || R.Descriptor(stream, stored) in acked
  {
    if events[i].offset <= stored && stored > start {
      var k :| 0 <= k < |acked| && acked[k].stream == stream && acked[k].offset == stored;
      assert events[k] == acked[k] && acked[k] == R.Descriptor(stream, stored);
    }
  }
}
