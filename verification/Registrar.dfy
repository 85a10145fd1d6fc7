/**
 The registrar (lc-lib/registrar): the resume offsets of the streams being read, updated by batches
 of events and saved under the name of each stream's file.

 A stream is a pointer in the program and any type with equality here.
 */
module Registrar {
  import opened Sequences

  /** An event descriptor: the stream it was read from and the offset to resume at. */
  datatype Descriptor<S> = Descriptor(stream: S, offset: int)

  datatype FileState = FileState(source: string, offset: int)

  datatype Event<S> =
    | Ack(events: seq<Descriptor<S>>)
    | Discover(stream: S, source: string, offset: int)
    | Renamed(stream: S, source: string)
    | Deleted(stream: S)

  type Saved<S> = map<S, FileState>

  // --- What each event does ---

  function AckOne<S>(state: Saved<S>, d: Descriptor<S>): Saved<S> {
    if d.stream !in state then state else state[d.stream := state[d.stream].(offset := d.offset)]
  }

  function AckAll<S>(state: Saved<S>, ds: seq<Descriptor<S>>): Saved<S> {
    if ds == [] then state else AckAll(AckOne(state, ds[0]), ds[1..])
  }

  function Process<S>(state: Saved<S>, e: Event<S>): Saved<S> {
    match e
    case Ack(events) => AckAll(state, events)
    case Discover(stream, source, offset) => state[stream := FileState(source, offset)]
    case Renamed(stream, source) =>
      if stream !in state then state else state[stream := state[stream].(source := source)]
    case Deleted(stream) => state - {stream}
  }

  function ProcessAll<S>(state: Saved<S>, es: seq<Event<S>>): Saved<S>
    decreases |es|
  {
    if es == [] then state else ProcessAll(Process(state, es[0]), es[1..])
  }

  lemma {:induction false} ProcessAllConcat<S>(state: Saved<S>, a: seq<Event<S>>, b: seq<Event<S>>)
    ensures ProcessAll(state, a + b) == ProcessAll(ProcessAll(state, a), b)
    decreases |a|
  {
    if a == [] {
      assert a + b == b;
    } else {
      assert (a + b)[0] == a[0] && (a + b)[1..] == a[1..] + b;
      ProcessAllConcat(Process(state, a[0]), a[1..], b);
    }
  }

  // --- What that amounts to ---

  /** The offset of the last event of a stream, or the given one when there is none. */
  function LastOffset<S(==)>(ds: seq<Descriptor<S>>, stream: S, offset: int): int {
    if ds == [] then offset
    else LastOffset(ds[1..], stream, if ds[0].stream == stream then ds[0].offset else offset)
  }

  lemma {:induction false} LastOffsetConcat<S>(a: seq<Descriptor<S>>, b: seq<Descriptor<S>>, stream: S, offset: int)
    ensures LastOffset(a + b, stream, offset) == LastOffset(b, stream, LastOffset(a, stream, offset))
  {
    if a == [] {
      assert a + b == b;
    } else {
      assert (a + b)[0] == a[0] && (a + b)[1..] == a[1..] + b;
      LastOffsetConcat(a[1..], b, stream, if a[0].stream == stream then a[0].offset else offset);
    }
  }

  /** Acknowledgements neither add, remove nor rename entries, and leave each at its last offset. */
  lemma {:induction false} AckAllKeeps<S>(state: Saved<S>, ds: seq<Descriptor<S>>, stream: S)
    ensures AckAll(state, ds).Keys == state.Keys
    ensures stream in state ==>
      AckAll(state, ds)[stream] == FileState(state[stream].source, LastOffset(ds, stream, state[stream].offset))
  {
    if ds != [] {
      AckAllKeeps(AckOne(state, ds[0]), ds[1..], stream);
    }
  }

  /** All events acknowledged in a run of batches. */
  function Acked<S>(es: seq<Event<S>>): seq<Descriptor<S>> {
    if es == [] then [] else (if es[0].Ack? then es[0].events else []) + Acked(es[1..])
  }

  /** The stream is neither discovered nor deleted in the run. */
  ghost predicate Tracked<S>(es: seq<Event<S>>, stream: S) {
    forall i :: 0 <= i < |es| && (es[i].Discover? || es[i].Deleted?) ==> es[i].stream != stream
  }

  /** However renames, and discoveries and deletions of other streams, are interleaved with
      acknowledgements, the stored offset of a stream is that of its last acknowledged event. */
  lemma {:induction false} StoredOffset<S>(state: Saved<S>, es: seq<Event<S>>, stream: S)
    requires stream in state && Tracked(es, stream)
    ensures stream in ProcessAll(state, es)
    ensures ProcessAll(state, es)[stream].offset == LastOffset(Acked(es), stream, state[stream].offset)
    decreases |es|
  {
    if es != [] {
      var e := es[0];
      assert Tracked(es[1..], stream);
      if e.Ack? {
        AckAllKeeps(state, e.events, stream);
        LastOffsetConcat(e.events, Acked(es[1..]), stream, state[stream].offset);
      } else {
        assert [] + Acked(es[1..]) == Acked(es[1..]);
      }
      StoredOffset(Process(state, e), es[1..], stream);
    }
  }

  /** The offset is one of those in `starts`, or that of an event of the stream. */
  ghost predicate OffsetFrom<S>(offset: int, stream: S, starts: set<int>, ds: seq<Descriptor<S>>) {
    offset in starts || exists i :: 0 <= i < |ds| && ds[i].stream == stream && ds[i].offset == offset
  }

  lemma OffsetFromMore<S>(offset: int, stream: S, starts: set<int>, a: seq<Descriptor<S>>, b: seq<Descriptor<S>>)
    requires OffsetFrom(offset, stream, starts, a)
    ensures OffsetFrom(offset, stream, starts, a + b)
  {
    if offset !in starts {
      var i :| 0 <= i < |a| && a[i].stream == stream && a[i].offset == offset;
      assert (a + b)[i] == a[i];
    }
  }

  lemma {:induction false} LastOffsetFrom<S>(stream: S, starts: set<int>, offset: int, before: seq<Descriptor<S>>,
    ds: seq<Descriptor<S>>)
    requires OffsetFrom(offset, stream, starts, before)
    ensures OffsetFrom(LastOffset(ds, stream, offset), stream, starts, before + ds)
    decreases |ds|
  {
    if ds == [] {
      assert before + ds == before;
    } else {
      var all := before + [ds[0]];
      OffsetFromMore(offset, stream, starts, before, [ds[0]]);
      assert all[|before|] == ds[0] && before + ds == all + ds[1..];
      LastOffsetFrom(stream, starts, if ds[0].stream == stream then ds[0].offset else offset, all, ds[1..]);
    }
  }

  /** The offsets at which a stream was started: the one it is known at, and those at which it is discovered. */
  function Starts<S(==)>(state: Saved<S>, es: seq<Event<S>>, stream: S): set<int> {
    (if stream in state then {state[stream].offset} else {})
    + set i | 0 <= i < |es| && es[i].Discover? && es[i].stream == stream :: es[i].offset
  }

  /** Whatever is discovered, renamed, deleted and acknowledged, in any order: the stored offset of a stream
      is one it was started at, or that of an acknowledged event of it. */
  lemma StoredFrom<S>(state: Saved<S>, es: seq<Event<S>>, stream: S)
    ensures stream in ProcessAll(state, es) ==>
      OffsetFrom(ProcessAll(state, es)[stream].offset, stream, Starts(state, es, stream), Acked(es))
  {
    StoredFromOn(state, es, stream, Starts(state, es, stream), []);
    assert [] + Acked(es) == Acked(es);
  }

  lemma {:induction false} StoredFromOn<S>(
    state: Saved<S>, es: seq<Event<S>>, stream: S, starts: set<int>, before: seq<Descriptor<S>>)
    requires stream in state ==> OffsetFrom(state[stream].offset, stream, starts, before)
    requires forall i :: 0 <= i < |es| && es[i].Discover? && es[i].stream == stream ==> es[i].offset in starts
    ensures stream in ProcessAll(state, es) ==>
      OffsetFrom(ProcessAll(state, es)[stream].offset, stream, starts, before + Acked(es))
    decreases |es|
  {
    if es == [] {
      assert before + [] == before;
    } else {
      var e, next := es[0], Process(state, es[0]);
      var acked := if e.Ack? then e.events else [];
      if stream in state {
        OffsetFromMore(state[stream].offset, stream, starts, before, acked);
      }
      if e.Ack? {
        AckAllKeeps(state, e.events, stream);
        if stream in state {
          LastOffsetFrom(stream, starts, state[stream].offset, before, e.events);
        }
      }
      Assoc(before, acked, Acked(es[1..]));
      StoredFromOn(next, es[1..], stream, starts, before + acked);
    }
  }

  /** Which entries there are, and under which names, does not depend on the acknowledgements. */
  ghost predicate SameSources<S>(a: Saved<S>, b: Saved<S>) {
    a.Keys == b.Keys && forall x :: x in a ==> a[x].source == b[x].source
  }

  function WithoutAcks<S>(es: seq<Event<S>>): seq<Event<S>> {
    if es == [] then [] else if es[0].Ack? then WithoutAcks(es[1..]) else [es[0]] + WithoutAcks(es[1..])
  }

  lemma ProcessSameSources<S>(a: Saved<S>, b: Saved<S>, e: Event<S>)
    requires SameSources(a, b)
    ensures e.Ack? ==> SameSources(Process(a, e), b)
    ensures !e.Ack? ==> SameSources(Process(a, e), Process(b, e))
  {
    if e.Ack? {
      forall x ensures AckAll(a, e.events).Keys == a.Keys
        ensures x in a ==> AckAll(a, e.events)[x].source == b[x].source
      {
        AckAllKeeps(a, e.events, x);
      }
    }
  }

  lemma {:induction false} AcksKeepSources<S>(a: Saved<S>, b: Saved<S>, es: seq<Event<S>>)
    requires SameSources(a, b)
    ensures SameSources(ProcessAll(a, es), ProcessAll(b, WithoutAcks(es)))
    decreases |es|
  {
    if es != [] {
      ProcessSameSources(a, b, es[0]);
      if es[0].Ack? {
        AcksKeepSources(Process(a, es[0]), b, es[1..]);
      } else {
        var rest := WithoutAcks(es[1..]);
        assert ([es[0]] + rest)[1..] == rest;
        AcksKeepSources(Process(a, es[0]), Process(b, es[0]), es[1..]);
      }
    }
  }

  /** The registrar itself: the state its loop updates batch by batch. */
  class Registrar<S(==)> {
    var state: Saved<S>

    constructor ()
      ensures state == map[]
    {
      state := map[];
    }

    /** One entry of what was saved, under the stream that the callback of LoadPrevious returned. */
    method LoadOne(stream: S, saved: FileState)
      modifies this
      ensures state == old(state)[stream := saved]
    {
      state := state[stream := saved];
    }

    /** AckEvent.Process: overwrites the offset of every stream that is known. */
    method ProcessAck(events: seq<Descriptor<S>>)
      modifies this
      ensures state == AckAll(old(state), events)
    {
      var i := 0;
      while i < |events|
        invariant 0 <= i <= |events|
        invariant AckAll(state, events[i..]) == AckAll(old(state), events)
      {
        var event := events[i];
        if event.stream in state {
          state := state[event.stream := state[event.stream].(offset := event.offset)];
        }
        assert events[i..][1..] == events[i + 1..];
        i := i + 1;
      }
    }

    /** One batch, as received by the registrar's loop. */
    method ProcessSpool(spool: seq<Event<S>>)
      modifies this
      ensures state == ProcessAll(old(state), spool)
    {
      var i := 0;
      while i < |spool|
        invariant 0 <= i <= |spool|
        invariant ProcessAll(state, spool[i..]) == ProcessAll(old(state), spool)
      {
        match spool[i] {
          case Ack(events) => ProcessAck(events);
          case Discover(stream, source, offset) => state := state[stream := FileState(source, offset)];
          case Renamed(stream, source) =>
            if stream in state {
              state := state[stream := state[stream].(source := source)];
            }
          case Deleted(stream) => state := state - {stream};
        }
        assert spool[i..][1..] == spool[i + 1..];
        i := i + 1;
      }
    }

    /** toCanonical: the state keyed by file name, and whether two streams had the same name. */
    method ToCanonical() returns (canonical: map<string, FileState>, conflict: bool)
      ensures forall x :: x in state ==> state[x].source in canonical
      ensures forall f :: f in canonical ==> exists x :: x in state && state[x].source == f && canonical[f] == state[x]
      ensures conflict <==> exists x, y :: x in state && y in state && x != y && state[x].source == state[y].source
    {
      canonical, conflict := map[], false;
      var rest := state.Keys;
      while rest != {}
        invariant rest <= state.Keys
        invariant forall x :: x in state && x !in rest ==> state[x].source in canonical
        invariant forall f :: f in canonical ==>
          exists x :: x in state && x !in rest && state[x].source == f && canonical[f] == state[x]
        invariant conflict <==>
          exists x, y :: x in state && y in state && x !in rest && y !in rest && x != y
            && state[x].source == state[y].source
        decreases rest
      {
        var x :| x in rest;
        var value := state[x];
        if value.source in canonical {
          conflict := true;
        }
        canonical := canonical[value.source := value];
        rest := rest - {x};
      }
    }
  }
}
