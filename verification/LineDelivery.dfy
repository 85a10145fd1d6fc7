/**
 What becomes of the lines of a file, all the way: read and sent on or given up by the harvester, with the plain
 codec; accepted, acknowledged and released by the publisher; recorded by the registrar; and read again
 after a restart.
 */
module LineDelivery {
  import opened Sequences
  import opened LineReader
  import opened Harvester
  import P = Payloads
  import D = Delivery
  import DI = DeliveryInvariant
  import DR = DeliveryRuns
  import A = AtLeastOnce
  import R = Registrar

  /** The lines of a file from an offset on. */
  function Lines(maxLine: nat, data: seq<byte>, from: nat): seq<LineEvent>
    requires maxLine > 0 && from <= |data|
  {
    Events(from, Split(maxLine, data[from..]))
  }

  lemma {:induction false} LineEnds(maxLine: nat, data: seq<byte>, from: nat, i: nat)
    requires maxLine > 0 && from <= |data| && i < |Lines(maxLine, data, from)|
    ensures var pieces := Split(maxLine, data[from..]);
      && |Lines(maxLine, data, from)| == |pieces|
      && Lines(maxLine, data, from)[i].offset == from + |Bytes(pieces[..i + 1])| == ResumeOffset(from, pieces, i + 1)
      && Lines(maxLine, data, from)[i].offset <= |data|
  {
    var pieces := Split(maxLine, data[from..]);
    EventsLength(from, pieces);
    EventAt(from, pieces, i);
    BytesPrefix(pieces, i + 1);
    SplitIsPrefix(maxLine, data[from..]);
  }

  /** The offsets of lines increase. */
  lemma {:induction false} OffsetsIncrease(maxLine: nat, data: seq<byte>, from: nat, i: nat, j: nat)
    requires maxLine > 0 && from <= |data| && i < j < |Lines(maxLine, data, from)|
    ensures from < Lines(maxLine, data, from)[i].offset < Lines(maxLine, data, from)[j].offset
    decreases j - i
  {
    NextOffset(maxLine, data, from, j);
    if i + 1 < j {
      OffsetsIncrease(maxLine, data, from, i, j - 1);
    } else {
      NextOffset(maxLine, data, from, i);
      if i > 0 {
        OffsetsBeyond(maxLine, data, from, i - 1);
      }
    }
  }

  lemma {:induction false} NextOffset(maxLine: nat, data: seq<byte>, from: nat, i: nat)
    requires maxLine > 0 && from <= |data| && i < |Lines(maxLine, data, from)|
    ensures var all := Lines(maxLine, data, from);
      (if i == 0 then from else all[i - 1].offset) < all[i].offset
  {
    var pieces := Split(maxLine, data[from..]);
    SplitIsProper(maxLine, data[from..]);
    LineEnds(maxLine, data, from, i);
    BytesAt(pieces, i);
    if i > 0 {
      LineEnds(maxLine, data, from, i - 1);
    }
  }

  lemma {:induction false} OffsetsBeyond(maxLine: nat, data: seq<byte>, from: nat, i: nat)
    requires maxLine > 0 && from <= |data| && i < |Lines(maxLine, data, from)|
    ensures from < Lines(maxLine, data, from)[i].offset
    decreases i
  {
    NextOffset(maxLine, data, from, i);
    if i > 0 {
      OffsetsBeyond(maxLine, data, from, i - 1);
    }
  }

  // --- Which lines were sent on ---

  /** How many of the first i were sent on. */
  function Rank(fates: seq<Fate>, i: nat): nat
    requires i <= |fates|
  {
    if i == 0 then 0 else Rank(fates, i - 1) + if fates[i - 1] == Sent then 1 else 0
  }

  lemma {:induction false} RankOfPrefix(fates: seq<Fate>, n: nat, i: nat)
    requires i <= n <= |fates|
    ensures Rank(fates[..n], i) == Rank(fates, i)
  {
    if i > 0 {
      RankOfPrefix(fates, n, i - 1);
    }
  }

  lemma {:induction false} RankGrows(fates: seq<Fate>, i: nat, j: nat)
    requires i < j <= |fates|
    ensures Rank(fates, i) + (if fates[i] == Sent then 1 else 0) <= Rank(fates, j)
    decreases j
  {
    if i < j - 1 {
      RankGrows(fates, i, j - 1);
    }
  }

  lemma {:induction false} KeptLength(events: seq<LineEvent>, fates: seq<Fate>)
    requires |fates| == |events|
    ensures |Kept(events, fates)| == Rank(fates, |fates|)
  {
    if events != [] {
      var n := |events| - 1;
      KeptLength(events[..n], fates[..n]);
      RankOfPrefix(fates, n, n);
    }
  }

  /** The events sent on, and their places among all. */
  lemma {:induction false} KeptAt(events: seq<LineEvent>, fates: seq<Fate>, i: nat)
    requires |fates| == |events| && i < |events| && fates[i] == Sent
    ensures Rank(fates, i) < |Kept(events, fates)| && Kept(events, fates)[Rank(fates, i)] == events[i]
  {
    var n := |events| - 1;
    KeptLength(events[..n], fates[..n]);
    RankOfPrefix(fates, n, n);
    if i < n {
      KeptAt(events[..n], fates[..n], i);
      RankOfPrefix(fates, n, i);
    }
  }

  lemma {:induction false} KeptFrom(events: seq<LineEvent>, fates: seq<Fate>, r: nat) returns (i: nat)
    requires |fates| == |events| && r < |Kept(events, fates)|
    ensures i < |events| && fates[i] == Sent && Rank(fates, i) == r && Kept(events, fates)[r] == events[i]
  {
    var n := |events| - 1;
    KeptLength(events[..n], fates[..n]);
    RankOfPrefix(fates, n, n);
    if r < |Kept(events[..n], fates[..n])| {
      i := KeptFrom(events[..n], fates[..n], r);
      RankOfPrefix(fates, n, i);
    } else {
      i := n;
    }
  }

  // --- A restart ---

  /** The offset of the last of the first m lines sent on, or where harvesting started. */
  function StoredAfter(sent: seq<LineEvent>, from: int, m: nat): int
    requires m <= |sent|
  {
    if m == 0 then from else sent[m - 1].offset
  }

  /** Line j was sent on and recorded, when the first m lines sent on are. */
  predicate Recorded(fates: seq<Fate>, m: nat, j: nat)
    requires j < |fates|
  {
    fates[j] == Sent && Rank(fates, j) < m
  }

  /** Reading from the end of a line yields the lines behind it. */
  lemma {:induction false} RestartBehind(maxLine: nat, data: seq<byte>, from: nat, i: nat)
    requires maxLine > 0 && from <= |data| && i < |Lines(maxLine, data, from)|
    ensures var all := Lines(maxLine, data, from);
      0 <= all[i].offset <= |data| && Lines(maxLine, data, all[i].offset) == all[i + 1..]
  {
    EventsLength(from, Split(maxLine, data[from..]));
    LineEnds(maxLine, data, from, i);
    ResumeAnywhere(maxLine, data, from, i + 1);
  }

  /** A restart reads again exactly the lines behind the last one that is recorded. */
  lemma {:induction false} RestartReads(maxLine: nat, data: seq<byte>, from: nat, fates: seq<Fate>, m: nat)
    returns (k: nat)
    requires maxLine > 0 && from <= |data| && |fates| <= |Lines(maxLine, data, from)|
    requires m <= |Kept(Lines(maxLine, data, from)[..|fates|], fates)|
    ensures var all := Lines(maxLine, data, from);
      var stored := StoredAfter(Kept(all[..|fates|], fates), from, m);
      && k <= |fates| && 0 <= stored <= |data| && Lines(maxLine, data, stored) == all[k..]
      && (m == 0 <==> k == 0)
      && (k > 0 ==> fates[k - 1] == Sent && Rank(fates, k - 1) == m - 1 && stored == all[k - 1].offset)
      && (k == 0 ==> stored == from)
  {
    var all, n := Lines(maxLine, data, from), |fates|;
    if m == 0 {
      k := 0;
      assert all[0..] == all;
    } else {
      var i := KeptFrom(all[..n], fates, m - 1);
      RestartBehind(maxLine, data, from, i);
      k := i + 1;
    }
  }

  /** What becomes of line i, when of the lines sent on the first m are recorded: it is read again if and only if it
      lies behind the offset stored; and it is not if and only if it or a later one is recorded. */
  lemma {:induction false} LineAfterRestart(maxLine: nat, data: seq<byte>, from: nat, fates: seq<Fate>, m: nat, i: nat)
    requires maxLine > 0 && from <= |data| && |fates| <= |Lines(maxLine, data, from)|
    requires m <= |Kept(Lines(maxLine, data, from)[..|fates|], fates)| && i < |Lines(maxLine, data, from)|
    ensures var all := Lines(maxLine, data, from);
      var stored := StoredAfter(Kept(all[..|fates|], fates), from, m);
      && 0 <= stored <= |data|
      && (all[i] in Lines(maxLine, data, stored) <==> stored < all[i].offset)
      && (all[i] !in Lines(maxLine, data, stored) <==>
            exists j :: i <= j < |fates| && Recorded(fates, m, j))
  {
    var all, n := Lines(maxLine, data, from), |fates|;
    var k := RestartReads(maxLine, data, from, fates, m);
    forall j | 0 <= j < |all| && j != i ensures all[j].offset != all[i].offset {
      if j < i { OffsetsIncrease(maxLine, data, from, j, i); } else { OffsetsIncrease(maxLine, data, from, i, j); }
    }
    OffsetsBeyond(maxLine, data, from, i);
    if i >= k {
      assert all[k..][i - k] == all[i];
      if k > 0 { OffsetsIncrease(maxLine, data, from, k - 1, i); }
      forall j | i <= j < n && fates[j] == Sent ensures !Recorded(fates, m, j) {
        if k > 0 { RankGrows(fates, k - 1, j); }
      }
    } else {
      assert all[i] !in all[k..] && Recorded(fates, m, k - 1);
      if i < k - 1 { OffsetsIncrease(maxLine, data, from, i, k - 1); }
    }
  }

  // --- The stream at the publisher and the registrar ---

  function OfStream(ds: seq<P.Event>, stream: nat): seq<P.Event> {
    if ds == [] then [] else (if ds[0].stream == stream then [ds[0]] else []) + OfStream(ds[1..], stream)
  }

  lemma {:induction false} OfStreamConcat(a: seq<P.Event>, b: seq<P.Event>, stream: nat)
    ensures OfStream(a + b, stream) == OfStream(a, stream) + OfStream(b, stream)
  {
    if a == [] {
      assert a + b == b;
    } else {
      assert (a + b)[0] == a[0] && (a + b)[1..] == a[1..] + b;
      OfStreamConcat(a[1..], b, stream);
      Assoc(if a[0].stream == stream then [a[0]] else [], OfStream(a[1..], stream), OfStream(b, stream));
    }
  }

  lemma {:induction false} OfStreamPrefix(a: seq<P.Event>, b: seq<P.Event>, stream: nat)
    requires a <= b
    ensures OfStream(a, stream) <= OfStream(b, stream)
  {
    assert b == a + b[|a|..];
    OfStreamConcat(a, b[|a|..], stream);
  }

  lemma {:induction false} OfStreamMembers(ds: seq<P.Event>, stream: nat, d: P.Event)
    ensures d in OfStream(ds, stream) <==> d in ds && d.stream == stream
  {
    if ds != [] {
      assert ds == [ds[0]] + ds[1..];
      OfStreamMembers(ds[1..], stream, d);
    }
  }

  lemma {:induction false} LastOfStream(ds: seq<P.Event>, stream: nat, offset: int)
    ensures R.LastOffset(ds, stream, offset) ==
      if OfStream(ds, stream) == [] then offset else OfStream(ds, stream)[|OfStream(ds, stream)| - 1].offset
  {
    if ds != [] {
      LastOfStream(ds[1..], stream, if ds[0].stream == stream then ds[0].offset else offset);
    }
  }

  function Descriptors(events: seq<LineEvent>, stream: nat): seq<P.Event> {
    seq(|events|, i requires 0 <= i < |events| => R.Descriptor(stream, events[i].offset))
  }

  lemma {:induction false} DescriptorOfLine(
    maxLine: nat, data: seq<byte>, from: nat, fates: seq<Fate>, stream: nat, m: nat, j: nat)
    requires maxLine > 0 && from <= |data| && |fates| <= |Lines(maxLine, data, from)| && j < |fates|
    requires m <= |Kept(Lines(maxLine, data, from)[..|fates|], fates)|
    ensures var all := Lines(maxLine, data, from);
      R.Descriptor(stream, all[j].offset) in Descriptors(Kept(all[..|fates|], fates), stream)[..m] <==>
      Recorded(fates, m, j)
  {
    var all, n := Lines(maxLine, data, from), |fates|;
    var sent := Kept(all[..n], fates);
    var ds, d := Descriptors(sent, stream)[..m], R.Descriptor(stream, all[j].offset);
    if fates[j] == Sent {
      KeptAt(all[..n], fates, j);
      assert Rank(fates, j) < m ==> ds[Rank(fates, j)] == d;
    }
    if d in ds {
      var r :| 0 <= r < m && ds[r] == d;
      var i := KeptFrom(all[..n], fates, r);
      if i < j { OffsetsIncrease(maxLine, data, from, i, j); }
      if j < i { OffsetsIncrease(maxLine, data, from, j, i); }
    }
  }

  /** Whatever is released was accepted, and so was sent on. */
  lemma RecordedWasSent(s: D.State, es: seq<R.Event<nat>>, stream: nat, all: seq<P.Event>)
    requires DI.Inv(s) && OfStream(DI.Accepted(s.payloads), stream) <= all
    requires OfStream(R.Acked(es), stream) <= OfStream(s.released, stream)
    ensures OfStream(R.Acked(es), stream) <= all
  {
    DR.ReleasedIsAckedPrefix(s);
    A.ReleasableIsAcked(s.payloads);
    OfStreamPrefix(s.released, DI.Accepted(s.payloads), stream);
  }

  /** What the registrar has stored for a stream that it follows: the end of the last line that it was told of. */
  lemma {:induction false} StoredIsLast(
    saved: R.Saved<nat>, es: seq<R.Event<nat>>, stream: nat, sent: seq<LineEvent>, from: int)
    requires OfStream(R.Acked(es), stream) <= Descriptors(sent, stream)
    requires stream in saved && saved[stream].offset == from && R.Tracked(es, stream)
    ensures |OfStream(R.Acked(es), stream)| <= |sent| && stream in R.ProcessAll(saved, es)
    ensures R.ProcessAll(saved, es)[stream].offset == StoredAfter(sent, from, |OfStream(R.Acked(es), stream)|)
  {
    R.StoredOffset(saved, es, stream);
    LastOfStream(R.Acked(es), stream, from);
  }

  lemma {:induction false} RecordedInRegistrar(
    maxLine: nat, data: seq<byte>, from: nat, fates: seq<Fate>, es: seq<R.Event<nat>>, stream: nat, j: nat)
    requires maxLine > 0 && from <= |data| && |fates| <= |Lines(maxLine, data, from)| && j < |fates|
    requires OfStream(R.Acked(es), stream) <=
      Descriptors(Kept(Lines(maxLine, data, from)[..|fates|], fates), stream)
    ensures R.Descriptor(stream, Lines(maxLine, data, from)[j].offset) in R.Acked(es) <==>
      Recorded(fates, |OfStream(R.Acked(es), stream)|, j)
  {
    DescriptorOfLine(maxLine, data, from, fates, stream, |OfStream(R.Acked(es), stream)|, j);
    OfStreamMembers(R.Acked(es), stream, R.Descriptor(stream, Lines(maxLine, data, from)[j].offset));
  }

  /** From the file to the registrar and back. A file is harvested from an offset on; some of its lines are sent on and
      some are given up; in whatever run of the publisher, and whenever the program stops, the registrar was told
      of some of them. Then a restart from the offset stored reads a line again if and only if it lies behind
      that offset. A line that was sent on and is not read again was recorded as acknowledged. And a line is
      lost for good if and only if it was given up and a later one of its file is recorded. */
  lemma {:induction false} LostForGood(
    states: seq<D.State>, steps: seq<D.Step>, maxPending: int, n: nat, saved: R.Saved<nat>, es: seq<R.Event<nat>>,
    stream: nat, maxLine: nat, data: seq<byte>, from: nat, fates: seq<Fate>, i: nat)
    requires DR.IsRun(states, steps, maxPending) && n < |states|
    requires maxLine > 0 && from <= |data| && |fates| <= |Lines(maxLine, data, from)|
    requires OfStream(DI.Accepted(states[n].payloads), stream) <=
      Descriptors(Kept(Lines(maxLine, data, from)[..|fates|], fates), stream)
    requires OfStream(R.Acked(es), stream) <= OfStream(states[n].released, stream)
    requires stream in saved && saved[stream].offset == from && R.Tracked(es, stream)
    requires i < |Lines(maxLine, data, from)|
    ensures stream in R.ProcessAll(saved, es)
    ensures var all := Lines(maxLine, data, from);
      var stored := R.ProcessAll(saved, es)[stream].offset;
      && 0 <= stored <= |data|
      && (all[i] in Lines(maxLine, data, stored) <==> stored < all[i].offset)
      && (all[i] !in Lines(maxLine, data, stored) ==>
            && i < |fates|
            && (fates[i] == Sent ==> R.Descriptor(stream, all[i].offset) in R.Acked(es))
            && (fates[i] != Sent ==>
                  exists j :: i < j < |fates| && R.Descriptor(stream, all[j].offset) in R.Acked(es)))
      && (forall j :: i < j < |fates| && R.Descriptor(stream, all[j].offset) in R.Acked(es) ==>
            all[i] !in Lines(maxLine, data, stored))
  {
    var all := Lines(maxLine, data, from);
    var sent := Kept(all[..|fates|], fates);
    var m := |OfStream(R.Acked(es), stream)|;
    DR.RunKeeps(states, steps, maxPending, n);
    RecordedWasSent(states[n], es, stream, Descriptors(sent, stream));
    StoredIsLast(saved, es, stream, sent, from);
    LineAfterRestart(maxLine, data, from, fates, m, i);
    forall j | 0 <= j < |fates|
      ensures R.Descriptor(stream, all[j].offset) in R.Acked(es) <==> Recorded(fates, m, j)
    {
      RecordedInRegistrar(maxLine, data, from, fates, es, stream, j);
    }
    if exists j :: i <= j < |fates| && Recorded(fates, m, j) {
      var j :| i <= j < |fates| && Recorded(fates, m, j);
      if fates[i] == Sent && i < j {
        RankGrows(fates, i, j);
      }
    }
  }

  /** What a harvester with the plain codec sends on has increasing offsets, as NothingUnacknowledgedIsSkipped asks. */
  lemma {:induction false} FileIncreases(
    events: seq<P.Event>, stream: nat, maxLine: nat, data: seq<byte>, from: nat, fates: seq<Fate>)
    requires maxLine > 0 && from <= |data| && |fates| <= |Lines(maxLine, data, from)|
    requires OfStream(events, stream) <= Descriptors(Kept(Lines(maxLine, data, from)[..|fates|], fates), stream)
    ensures A.Increasing(events, stream, from)
  {
    var all, k := Lines(maxLine, data, from), |fates|;
    var sent := Kept(all[..k], fates);
    forall i | 0 <= i < |events| && events[i].stream == stream ensures from < events[i].offset {
      var r := PlaceInStream(events, stream, i);
      var a := KeptFrom(all[..k], fates, r);
      OffsetsBeyond(maxLine, data, from, a);
    }
    forall i, j | 0 <= i < j < |events| && events[i].stream == events[j].stream == stream
      ensures events[i].offset < events[j].offset
    {
      var r, q := PlacesInStream(events, stream, i, j);
      SentIncrease(maxLine, data, from, fates, r, q);
    }
  }

  lemma {:induction false} SentIncrease(maxLine: nat, data: seq<byte>, from: nat, fates: seq<Fate>, r: nat, q: nat)
    requires maxLine > 0 && from <= |data| && |fates| <= |Lines(maxLine, data, from)|
    requires r < q < |Kept(Lines(maxLine, data, from)[..|fates|], fates)|
    ensures var sent := Kept(Lines(maxLine, data, from)[..|fates|], fates); sent[r].offset < sent[q].offset
  {
    var all, k := Lines(maxLine, data, from), |fates|;
    var a := KeptFrom(all[..k], fates, r);
    var b := KeptFrom(all[..k], fates, q);
    if b < a {
      RankGrows(fates, b, a);
    }
    OffsetsIncrease(maxLine, data, from, a, b);
  }

  lemma {:induction false} PlaceInStream(events: seq<P.Event>, stream: nat, i: nat) returns (r: nat)
    requires i < |events| && events[i].stream == stream
    ensures r < |OfStream(events, stream)| && OfStream(events, stream)[r] == events[i]
    ensures r == |OfStream(events[..i], stream)|
  {
    assert events == events[..i] + events[i..];
    OfStreamConcat(events[..i], events[i..], stream);
    r := |OfStream(events[..i], stream)|;
  }

  lemma {:induction false} PlacesInStream(events: seq<P.Event>, stream: nat, i: nat, j: nat) returns (r: nat, q: nat)
    requires i < j < |events| && events[i].stream == events[j].stream == stream
    ensures r < q < |OfStream(events, stream)|
    ensures OfStream(events, stream)[r] == events[i] && OfStream(events, stream)[q] == events[j]
  {
    q := PlaceInStream(events, stream, j);
    r := PlaceInStream(events[..j], stream, i);
    assert events[..j][..i] == events[..i];
    var s := PlaceInStream(events, stream, i);
  }

  // --- A line that is lost ---

  const TWO_LINES: seq<byte> := [97, LF, 98, LF]

  lemma BothLinesRead()
    ensures Lines(100, TWO_LINES, 0) == [LineEvent(0, 2, [97], false), LineEvent(2, 4, [98], false)]
    ensures Lines(100, TWO_LINES, 4) == []
  {
    var pieces := [Piece([97, LF], false), Piece([98, LF], false)];
    assert pieces[1..] == [Piece([98, LF], false)] && pieces[1..][1..] == [];
    assert Bytes(pieces[1..]) == [98, LF] + Bytes([]);
    assert Bytes(pieces) == [97, LF] + [98, LF] == TWO_LINES;
    assert Bytes(pieces) + [] == TWO_LINES[0..];
    SplitIsUnique(100, pieces, []);
    assert [97, LF][..1] == [97] && [98, LF][..1] == [98];
    assert Events(0, pieces) == [LineEvent(0, 2, [97], false)] + Events(2, pieces[1..]);
    assert Events(2, pieces[1..]) == [LineEvent(2, 4, [98], false)] + Events(4, []);
    assert TWO_LINES[4..] == [];
  }

  /** A file of two lines. While the first waits for the pipeline, a measurement finds that the file has not changed for
      too long, and the line is given up; the second is sent on and acknowledged. The offset stored is then the end of
      the file, and a restart reads nothing. */
  lemma LostLineExample() returns (fates: seq<Fate>, sent: seq<LineEvent>, stored: int)
    ensures fates == [FateOf(true, [Measured(StopWanted)]), FateOf(true, [Taken])]
    ensures |Lines(100, TWO_LINES, 0)| == 2 && sent == Kept(Lines(100, TWO_LINES, 0), fates)
    ensures sent == [LineEvent(2, 4, [98], false)]
    ensures var after := R.ProcessAll(map[0 := R.FileState("f", 0)], [R.Ack(Descriptors(sent, 0))]);
      0 in after && stored == after[0].offset == 4
    ensures Lines(100, TWO_LINES, stored) == []
  {
    fates := [StopMeasured, Sent];
    BothLinesRead();
    var all := Lines(100, TWO_LINES, 0);
    sent := Kept(all, fates);
    assert all[..1] == [all[0]] && fates[..1] == [StopMeasured];
    assert all[..1][..0] == [] && fates[..1][..0] == [];
    assert Kept(all[..1], fates[..1]) == [];
    var saved, ds := map[0 := R.FileState("f", 0)], Descriptors(sent, 0);
    assert ds == [R.Descriptor(0, 4)] && ds[1..] == [];
    assert R.AckAll(saved, ds) == R.AckAll(R.AckOne(saved, ds[0]), []) == R.AckOne(saved, ds[0]);
    var es: seq<R.Event<nat>> := [R.Ack(ds)];
    assert es[1..] == [];
    assert R.ProcessAll(saved, es) == R.ProcessAll(R.AckAll(saved, ds), []) == R.AckAll(saved, ds);
    stored := R.ProcessAll(saved, es)[0].offset;
  }
}
