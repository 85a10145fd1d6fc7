/**
 The harvester (lc-lib/harvester/harvester.go) with the plain codec: reads a file line by line and sends each
 line on with the offsets at which it starts and ends.

 The file only grows while it is read.
 */
module Harvester {
  import opened Sequences
  import opened LineReader

  /** What is sent on for a line: the offset to resume at after it, its text, and whether it is tagged as
      part of a line that was split. */
  datatype LineEvent = LineEvent(start: int, offset: int, text: seq<byte>, splitTag: bool)

  /** A line without its terminator. */
  function Text(p: Piece): seq<byte> {
    var n := |p.bytes|;
    if p.tooLong || n == 0 then p.bytes
    else if n > 1 && p.bytes[n - 2] == CR then p.bytes[..n - 2]
    else p.bytes[..n - 1]
  }

  lemma TextIsCut(p: Piece, newline: nat)
    requires p.bytes != []
    requires newline == if p.tooLong then 0 else if |p.bytes| > 1 && p.bytes[|p.bytes| - 2] == CR then 2 else 1
    ensures Text(p) == p.bytes[..|p.bytes| - newline]
  {
  }

  function Events(offset: int, pieces: seq<Piece>): seq<LineEvent>
    decreases |pieces|
  {
    if pieces == [] then []
    else
      var end := offset + |pieces[0].bytes|;
      [LineEvent(offset, end, Text(pieces[0]), pieces[0].tooLong)] + Events(end, pieces[1..])
  }

  lemma {:induction false} EventsConcat(offset: int, a: seq<Piece>, b: seq<Piece>)
    ensures Events(offset, a + b) == Events(offset, a) + Events(offset + |Bytes(a)|, b)
    decreases |a|
  {
    if a == [] {
      assert a + b == b;
    } else {
      var next := offset + |a[0].bytes|;
      assert (a + b)[0] == a[0] && (a + b)[1..] == a[1..] + b;
      EventsConcat(next, a[1..], b);
      assert |Bytes(a)| == |a[0].bytes| + |Bytes(a[1..])|;
      var first, rest := LineEvent(offset, next, Text(a[0]), a[0].tooLong), Events(next, a[1..]);
      var more := Events(next + |Bytes(a[1..])|, b);
      assert Events(offset, a) == [first] + rest;
      Assoc([first], rest, more);
    }
  }

  lemma {:induction false} EventAt(offset: int, pieces: seq<Piece>, i: nat)
    requires i < |pieces|
    ensures |Events(offset, pieces)| == |pieces|
    ensures Events(offset, pieces)[i] ==
      LineEvent(offset + |Bytes(pieces[..i])|, offset + |Bytes(pieces[..i + 1])|, Text(pieces[i]), pieces[i].tooLong)
    decreases |pieces|
  {
    var next, rest := offset + |pieces[0].bytes|, pieces[1..];
    EventsLength(next, rest);
    assert pieces[..i + 1][0] == pieces[0] && pieces[..i + 1][1..] == rest[..i];
    if i > 0 {
      assert pieces[..i][0] == pieces[0] && pieces[..i][1..] == rest[..i - 1];
      EventAt(next, rest, i - 1);
      assert Events(offset, pieces)[i] == Events(next, rest)[i - 1];
    }
  }

  lemma BytesAt(pieces: seq<Piece>, i: nat)
    requires i < |pieces|
    ensures Bytes(pieces[..i + 1]) == Bytes(pieces[..i]) + pieces[i].bytes
  {
    assert pieces[..i + 1] == pieces[..i] + [pieces[i]];
    BytesSnoc(pieces[..i], pieces[i]);
  }

  lemma BytesPrefix(pieces: seq<Piece>, i: nat)
    requires i <= |pieces|
    ensures Bytes(pieces[..i]) <= Bytes(pieces)
  {
    assert pieces == pieces[..i] + pieces[i..];
    BytesConcat(pieces[..i], pieces[i..]);
  }

  lemma BytesSnoc(pieces: seq<Piece>, p: Piece)
    ensures Bytes(pieces + [p]) == Bytes(pieces) + p.bytes
  {
    BytesConcat(pieces, [p]);
    assert [p][1..] == [];
    assert Bytes([p]) == p.bytes + [] == p.bytes;
  }

  lemma Between(data: seq<byte>, from: nat, a: seq<byte>, b: seq<byte>)
    requires from <= |data| && a + b <= data[from..]
    ensures from + |a| + |b| <= |data| && data[from + |a|..from + |a| + |b|] == b
  {
    assert data[from + |a|..from + |a| + |b|] == data[from..][|a|..|a| + |b|] == (a + b)[|a|..];
  }

  /** The events tile the file: the first starts at the offset harvesting started from, and each of the others
      where the one before ends. */
  lemma EventsTile(from: nat, pieces: seq<Piece>, i: nat)
    requires i < |pieces|
    ensures |Events(from, pieces)| == |pieces| && Events(from, pieces)[0].start == from
    ensures i + 1 < |pieces| ==> Events(from, pieces)[i + 1].start == Events(from, pieces)[i].offset
    ensures Events(from, pieces)[|pieces| - 1].offset == from + |Bytes(pieces)|
  {
    EventAt(from, pieces, 0);
    EventAt(from, pieces, i);
    LastOffset(from, pieces);
    if i + 1 < |pieces| {
      EventAt(from, pieces, i + 1);
    }
  }

  /** Each event covers what the file holds between its offsets: its text and a terminator, which only a part of a
      split line lacks. */
  lemma EventHolds(data: seq<byte>, from: nat, pieces: seq<Piece>, maxLine: nat, i: nat)
    requires from <= |data| && Bytes(pieces) <= data[from..] && i < |pieces| && ProperPiece(maxLine, pieces[i])
    ensures |Events(from, pieces)| == |pieces|
    ensures var e := Events(from, pieces)[i];
      && from <= e.start < e.offset <= |data|
      && if e.splitTag then data[e.start..e.offset] == e.text
         else data[e.start..e.offset] == e.text + [LF] || data[e.start..e.offset] == e.text + [CR, LF]
  {
    var a, b := Bytes(pieces[..i]), Bytes(pieces[..i + 1]);
    EventAt(from, pieces, i);
    PieceInFile(data, from, pieces, i);
    Covers(data, from, a, b, pieces[i], maxLine);
  }

  lemma PieceInFile(data: seq<byte>, from: nat, pieces: seq<Piece>, i: nat)
    requires from <= |data| && Bytes(pieces) <= data[from..] && i < |pieces|
    ensures Bytes(pieces[..i + 1]) == Bytes(pieces[..i]) + pieces[i].bytes
    ensures Bytes(pieces[..i + 1]) <= data[from..]
  {
    BytesAt(pieces, i);
    BytesPrefix(pieces, i + 1);
    PrefixOfPrefix(Bytes(pieces[..i + 1]), Bytes(pieces), data[from..]);
  }

  lemma PrefixOfPrefix(a: seq<byte>, b: seq<byte>, c: seq<byte>)
    requires a <= b && b <= c
    ensures a <= c
  {
  }

  lemma Covers(data: seq<byte>, from: nat, a: seq<byte>, b: seq<byte>, p: Piece, maxLine: nat)
    requires from <= |data| && b == a + p.bytes && b <= data[from..] && ProperPiece(maxLine, p)
    ensures from + |a| < from + |b| <= |data|
    ensures var covered := data[from + |a|..from + |b|];
      if p.tooLong then covered == Text(p) else covered == Text(p) + [LF] || covered == Text(p) + [CR, LF]
  {
    Between(data, from, a, p.bytes);
    TextIs(maxLine, p);
  }

  lemma TextIs(maxLine: nat, p: Piece)
    requires ProperPiece(maxLine, p)
    ensures if p.tooLong then p.bytes == Text(p) else p.bytes == Text(p) + [LF] || p.bytes == Text(p) + [CR, LF]
  {
    var n := |p.bytes|;
    if !p.tooLong {
      assert p.bytes == p.bytes[..n - 1] + [LF];
      if n > 1 && p.bytes[n - 2] == CR {
        assert p.bytes == p.bytes[..n - 2] + [CR, LF];
      }
    }
  }

  lemma {:induction false} EventsLength(offset: int, pieces: seq<Piece>)
    ensures |Events(offset, pieces)| == |pieces|
    decreases |pieces|
  {
    if pieces != [] {
      EventsLength(offset + |pieces[0].bytes|, pieces[1..]);
    }
  }

  /** Stopping after any line and starting again at the offset of its event gives the same lines and splits
      as going on: harvesting from there yields exactly the events that were still to come. */
  lemma ResumeAnywhere(maxLine: nat, data: seq<byte>, from: nat, k: nat)
    requires maxLine > 0 && from <= |data| && k <= |Split(maxLine, data[from..])|
    ensures var pieces := Split(maxLine, data[from..]);
      var offset := ResumeOffset(from, pieces, k);
      && 0 <= offset <= |data| && |Events(from, pieces)| == |pieces|
      && Events(from, pieces)[k..] == Events(offset, Split(maxLine, data[offset..]))
  {
    var s := data[from..];
    var pieces := Split(maxLine, s);
    SplitFrom(maxLine, s, k);
    var n := |Bytes(pieces[..k])|;
    assert data[from + n..] == s[n..];
    EventsFrom(from, pieces, k);
  }

  /** The offset of the last of the first k events, or where harvesting started. */
  function ResumeOffset(from: int, pieces: seq<Piece>, k: nat): int
    requires k <= |pieces|
  {
    EventsLength(from, pieces);
    if k == 0 then from else Events(from, pieces)[k - 1].offset
  }

  lemma EventsFrom(from: int, pieces: seq<Piece>, k: nat)
    requires k <= |pieces|
    ensures |Events(from, pieces)| == |pieces| && ResumeOffset(from, pieces, k) == from + |Bytes(pieces[..k])|
    ensures Events(from, pieces)[k..] == Events(from + |Bytes(pieces[..k])|, pieces[k..])
  {
    assert pieces == pieces[..k] + pieces[k..];
    EventsConcat(from, pieces[..k], pieces[k..]);
    EventsLength(from, pieces);
    EventsLength(from, pieces[..k]);
    if k > 0 {
      LastOffset(from, pieces[..k]);
    }
  }

  /** Splitting from the end of a piece gives the pieces behind it. */
  lemma SplitFrom(maxLine: nat, s: seq<byte>, k: nat)
    requires maxLine > 0 && k <= |Split(maxLine, s)|
    ensures var pieces := Split(maxLine, s);
      |Bytes(pieces[..k])| <= |s| && Split(maxLine, s[|Bytes(pieces[..k])|..]) == pieces[k..]
  {
    var pieces := Split(maxLine, s);
    var a, b, rest := pieces[..k], pieces[k..], LeftOver(maxLine, s);
    SplitIsProper(maxLine, s);
    assert forall i :: 0 <= i < |b| ==> b[i] == pieces[k + i];
    assert pieces == a + b;
    BytesConcat(a, b);
    Behind(s, Bytes(a), Bytes(b), rest);
    SplitIsUnique(maxLine, b, rest);
  }

  lemma Behind(s: seq<byte>, a: seq<byte>, b: seq<byte>, rest: seq<byte>)
    requires s == (a + b) + rest
    ensures |a| <= |s| && s[|a|..] == b + rest
  {
  }

  lemma {:induction false} LastOffset(from: int, pieces: seq<Piece>)
    requires pieces != []
    ensures |Events(from, pieces)| == |pieces|
    ensures Events(from, pieces)[|pieces| - 1].offset == from + |Bytes(pieces)|
    decreases |pieces|
  {
    EventsLength(from, pieces);
    if |pieces| > 1 {
      LastOffset(from + |pieces[0].bytes|, pieces[1..]);
    }
  }

  // --- What becomes of the events ---

  /** What a measurement finds, when it is due: that harvesting is to stop, since that is asked for or the file has not
      changed for too long; or that the file cannot be examined. */
  datatype Measurement = Fine | StopWanted | Broken

  /** What ends a wait for the pipeline to take an event, or goes on with it. */
  datatype Wait = StopSeen | Taken | Measured(found: Measurement)

  /** What becomes of an event: it is sent on; or it is given up, when a stop is asked for, when a measurement taken
      meanwhile wants harvesting to stop, or when it cannot be encoded. */
  datatype Fate = Sent | StopCame | StopMeasured | Unencoded

  /** The course of one call of the callback. Once the waits are used up, the event is taken. */
  datatype Call = Call(encodes: bool, waits: seq<Wait>)

  function FateOf(encodes: bool, waits: seq<Wait>): Fate
    decreases |waits|
  {
    if !encodes then Unencoded
    else if waits == [] || waits[0].Taken? then Sent
    else if waits[0].StopSeen? then StopCame
    else if waits[0].found == StopWanted then StopMeasured
    else FateOf(encodes, waits[1..])
  }

  /** The events that were not given up. */
  function Kept(events: seq<LineEvent>, fates: seq<Fate>): seq<LineEvent>
    requires |fates| == |events|
  {
    if events == [] then []
    else
      var n := |events| - 1;
      Kept(events[..n], fates[..n]) + if fates[n] == Sent then [events[n]] else []
  }

  lemma KeptSnoc(events: seq<LineEvent>, fates: seq<Fate>, event: LineEvent, fate: Fate)
    requires |fates| == |events|
    ensures Kept(events + [event], fates + [fate]) == Kept(events, fates) + if fate == Sent then [event] else []
  {
    assert (events + [event])[..|events|] == events && (fates + [fate])[..|events|] == fates;
  }

  lemma {:induction false} KeptAll(events: seq<LineEvent>, fates: seq<Fate>)
    requires |fates| == |events|
    ensures |Kept(events, fates)| <= |events|
    ensures Kept(events, fates) == events <==> forall i :: 0 <= i < |fates| ==> fates[i] == Sent
  {
    if events != [] {
      var n := |events| - 1;
      KeptAll(events[..n], fates[..n]);
      assert events == events[..n] + [events[n]];
      var kept := Kept(events[..n], fates[..n]);
      assert Kept(events, fates)[..|kept|] == kept;
      assert kept == events[..n] <==> forall i :: 0 <= i < n ==> fates[..n][i] == Sent;
    }
  }

  datatype ReadOutcome = Line | Ended | Failed | Stopped

  class Harvester {
    const reader: LineReader
    const isStream: bool
    var offset: int
    var split: bool
    var lineCount: nat
    var byteCount: nat
    /** What the plain codec reports on teardown. */
    var lastOffset: int
    var output: seq<LineEvent>

    /** Where harvesting started, the pieces read since, and what became of the events for them. */
    ghost const from: nat
    ghost var pieces: seq<Piece>
    ghost var fates: seq<Fate>

    /** What was sent on is, of the lines read, those that were not given up; the offsets are behind all of them. */
    ghost predicate Known()
      reads this
    {
      && from <= |reader.rd.data| && reader.maxLine > 0
      && offset == lastOffset == from + |Bytes(pieces)| && byteCount == |Bytes(pieces)| && lineCount == |pieces|
      && |Events(from, pieces)| == |fates| == |pieces| && output == Kept(Events(from, pieces), fates)
      && Bytes(pieces) <= reader.rd.data[from..]
      && (forall k :: 0 <= k < |pieces| ==> ProperPiece(reader.maxLine, pieces[k]))
    }

    ghost predicate Valid()
      reads this, reader, reader.buf, reader.rd
    {
      Known() && reader.Valid() && !split && reader.rd.data[from..] == Bytes(pieces) + reader.Stream()
    }

    constructor (file: Source, isStream: bool, lineBufferBytes: nat, maxLineBytes: nat)
      requires file.position <= |file.data| && lineBufferBytes > 0 && maxLineBytes > 0
      ensures Valid() && fresh(reader) && fresh(reader.buf) && reader.rd == file && from == file.position
      ensures reader.maxLine == maxLineBytes && pieces == []
    {
      var lines := new LineReader(file, lineBufferBytes, maxLineBytes);
      reader := lines;
      this.isStream := isStream;
      from := file.position;
      offset, split, lineCount, byteCount, output, pieces := file.position, false, 0, 0, [], [];
      lastOffset, fates := file.position, [];
    }

    /** Reads a line and takes off its terminator. */
    method Readline() returns (text: seq<byte>, bytesread: nat, outcome: ReadOutcome)
      requires reader.Valid() && !split
      modifies this`split, reader, reader.buf, reader.rd
      ensures reader.Valid() && (reader.buf == old(reader.buf) || fresh(reader.buf))
      ensures outcome == Line || outcome == Ended || outcome == Failed
      ensures outcome == Line ==>
        var piece := FirstPiece(reader.maxLine, old(reader.Stream()));
        && piece.Some? && old(reader.Stream()) == piece.value.bytes + reader.Stream()
        && text == Text(piece.value) && bytesread == |piece.value.bytes| && split == piece.value.tooLong
      ensures outcome != Line ==> reader.Stream() == old(reader.Stream()) && !split
      ensures |reader.rd.script| <= |old(reader.rd.script)|
      ensures outcome != Line && old(reader.rd.script) != [] ==> |reader.rd.script| < |old(reader.rd.script)|
      ensures outcome != Line && old(reader.rd.script) == [] ==> FirstPiece(reader.maxLine, reader.Buffered()).None?
      ensures Readable(old(reader.rd.script)) ==> Readable(reader.rd.script) && outcome != Failed
    {
      FirstPieceIsProper(reader.maxLine, reader.Stream());
      var line, err := reader.ReadSlice();
      if line.Some? {
        var newline := 0;
        if err == Ok {
          newline := if |line.value| > 1 && line.value[|line.value| - 2] == CR then 2 else 1;
        } else {
          split := true;
        }
        var length := |line.value|;
        TextIsCut(Piece(line.value, err == LineTooLong), newline);
        return line.value[..length - newline], length, Line;
      }
      return [], 0, if err.error == Failure then Failed else Ended;
    }

    /** The event for a line: it is sent on once the pipeline takes it, unless it is given up before. */
    method EventCallback(start: int, end: int, text: seq<byte>, call: Call)
      modifies this`output, this`split
      ensures !split
      ensures output == old(output) +
        if FateOf(call.encodes, call.waits) == Sent then [LineEvent(start, end, text, old(split))] else []
    {
      var event := LineEvent(start, end, text, split);
      split := false;
      if !call.encodes {
        return;
      }
      var k := 0;
      assert call.waits[0..] == call.waits;
      while k < |call.waits| && !call.waits[k].Taken?
        invariant k <= |call.waits| && FateOf(true, call.waits[k..]) == FateOf(true, call.waits)
      {
        if call.waits[k].StopSeen? || call.waits[k].found == StopWanted {
          return;
        }
        assert call.waits[k..][1..] == call.waits[k + 1..];
        k := k + 1;
      }
      output := output + [event];
    }

    lemma {:induction false} OneMore(p: Piece, before: seq<byte>, after: seq<byte>)
      requires from <= |reader.rd.data| && reader.rd.data[from..] == Bytes(pieces) + before && before == p.bytes + after
      ensures Bytes(pieces + [p]) == Bytes(pieces) + p.bytes
      ensures reader.rd.data[from..] == Bytes(pieces + [p]) + after
      ensures Events(from, pieces + [p]) ==
        Events(from, pieces) + [LineEvent(from + |Bytes(pieces)|, from + |Bytes(pieces + [p])|, Text(p), p.tooLong)]
    {
      BytesConcat(pieces, [p]);
      assert Bytes([p]) == p.bytes + [];
      EventsConcat(from, pieces, [p]);
      var end := from + |Bytes(pieces)| + |p.bytes|;
      assert Events(end, []) == [] && [p][1..] == [];
    }

    lemma {:induction false} OneKept(p: Piece, before: seq<byte>, after: seq<byte>, fate: Fate)
      requires Known() && reader.rd.data[from..] == Bytes(pieces) + before && before == p.bytes + after
      requires ProperPiece(reader.maxLine, p)
      ensures var all := pieces + [p];
        && |Bytes(all)| == |Bytes(pieces)| + |p.bytes| && reader.rd.data[from..] == Bytes(all) + after
        && |Events(from, all)| == |all| == |fates + [fate]|
        && Kept(Events(from, all), fates + [fate]) ==
          output + (if fate == Sent then [LineEvent(offset, offset + |p.bytes|, Text(p), p.tooLong)] else [])
        && forall k :: 0 <= k < |all| ==> ProperPiece(reader.maxLine, all[k])
    {
      OneMore(p, before, after);
      var event := LineEvent(offset, offset + |p.bytes|, Text(p), p.tooLong);
      assert Events(from, pieces + [p]) == Events(from, pieces) + [event];
      KeptSnoc(Events(from, pieces), fates, event, fate);
    }

    /** A line goes through the codec, which takes down its end before the callback is called. */
    method Forward(text: seq<byte>, bytesread: nat, call: Call, ghost p: Piece, ghost before: seq<byte>)
      requires Known() && reader.Valid()
      requires reader.rd.data[from..] == Bytes(pieces) + before && before == p.bytes + reader.Stream()
      requires ProperPiece(reader.maxLine, p) && text == Text(p) && bytesread == |p.bytes| && split == p.tooLong
      modifies this
      ensures Valid() && pieces == old(pieces) + [p]
      ensures fates == old(fates) + [FateOf(call.encodes, call.waits)]
    {
      ghost var fate := FateOf(call.encodes, call.waits);
      OneKept(p, before, reader.Stream(), fate);
      var lineOffset := offset;
      offset := offset + bytesread;
      lastOffset := offset;
      EventCallback(lineOffset, offset, text, call);
      lineCount := lineCount + 1;
      byteCount := byteCount + bytesread;
      pieces, fates := pieces + [p], fates + [fate];
    }

    /** One turn of the read loop. A measurement may stop it, and then leaves a line that was just read to be read
        again. The end of a stream stops it; that of a file only if asked to. */
    method PerformRead(found: Measurement, stopRequested: bool, call: Call) returns (outcome: ReadOutcome)
      requires Valid()
      modifies this, reader, reader.buf, reader.rd
      ensures Known() && reader.Valid() && (reader.buf == old(reader.buf) || fresh(reader.buf))
      ensures found == Fine ==> Valid()
      ensures found != Fine ==> outcome == if found == StopWanted then Stopped else Failed
      ensures outcome == Line ==> |pieces| == |old(pieces)| + 1 && old(pieces) <= pieces
      ensures fates == old(fates) + if outcome == Line then [FateOf(call.encodes, call.waits)] else []
      ensures outcome != Line ==> pieces == old(pieces)
      ensures outcome == Ended ==> !isStream && !stopRequested
      ensures found == Fine && outcome == Stopped ==> isStream || stopRequested
      ensures |reader.Stream()| <= |old(reader.Stream())|
      ensures outcome == Line ==> |reader.Stream()| < |old(reader.Stream())|
      ensures |reader.rd.script| <= |old(reader.rd.script)|
      ensures outcome != Line && found == Fine && old(reader.rd.script) != [] ==>
        |reader.rd.script| < |old(reader.rd.script)|
      ensures outcome != Line && found == Fine && old(reader.rd.script) == [] ==>
        FirstPiece(reader.maxLine, reader.Buffered()).None?
      ensures Readable(old(reader.rd.script)) ==> Readable(reader.rd.script) && (found == Fine ==> outcome != Failed)
    {
      ghost var stream := reader.Stream();
      var text, bytesread;
      text, bytesread, outcome := Readline();
      if found != Fine {
        return if found == StopWanted then Stopped else Failed;
      }
      if outcome == Line {
        ghost var p := FirstPiece(reader.maxLine, stream).value;
        FirstPieceIsProper(reader.maxLine, stream);
        Forward(text, bytesread, call, p, stream);
      } else if outcome == Ended && (isStream || stopRequested) {
        outcome := Stopped;
      }
    }

    /** What has been read is determined by how much of the file has been, whatever the sizes of the buffer and of the
        reads, and wherever reads met the end of the file. */
    lemma ReadIsSplit()
      requires Valid() && FirstPiece(reader.maxLine, reader.Buffered()).None?
      ensures from <= reader.rd.position
      ensures pieces == Split(reader.maxLine, reader.rd.data[from..reader.rd.position])
    {
      var data, position := reader.rd.data, reader.rd.position;
      var tail := data[position..];
      assert data[from..] == (Bytes(pieces) + reader.Buffered()) + tail;
      assert |data[from..]| == |Bytes(pieces) + reader.Buffered()| + |tail|;
      assert data[from..position] == Bytes(pieces) + reader.Buffered() by {
        assert data[from..position] == data[from..][..position - from];
      }
      FirstPieceIsProper(reader.maxLine, reader.Buffered());
      SplitIsUnique(reader.maxLine, pieces, reader.Buffered());
    }

    /** The read loop. Measurements and stops come at any turn, a stop in the end at the latest. Returns also what the
        codec reports on teardown, and whether the file was read to its end. */
    method Harvest(found: nat -> Measurement, stops: nat -> bool, calls: nat -> Call)
      returns (outcome: ReadOutcome, resume: int, ghost ended: bool)
      requires Valid()
      modifies this, reader, reader.buf, reader.rd
      ensures Known() && reader.Valid() && (outcome == Stopped || outcome == Failed)
      ensures old(fates) <= fates && Called(|old(fates)|, calls)
      ensures pieces <= Split(reader.maxLine, reader.rd.data[from..]) && resume == from + |Bytes(pieces)|
      ensures output == Events(from, pieces) <==> forall i :: 0 <= i < |fates| ==> fates[i] == Sent
      ensures ended ==>
        from <= reader.rd.position && pieces == Split(reader.maxLine, reader.rd.data[from..reader.rd.position])
      ensures !isStream && Undisturbed(found, stops) && Readable(old(reader.rd.script)) ==> ended && outcome == Stopped
    {
      outcome, ended := ReadLoop(found, stops, calls);
      resume := lastOffset;
      PiecesLead();
      KeptAll(Events(from, pieces), fates);
      if ended {
        ReadIsSplit();
      }
    }

    method ReadLoop(found: nat -> Measurement, stops: nat -> bool, calls: nat -> Call)
      returns (outcome: ReadOutcome, ghost ended: bool)
      requires Valid()
      modifies this, reader, reader.buf, reader.rd
      ensures Known() && reader.Valid() && (outcome == Stopped || outcome == Failed)
      ensures old(fates) <= fates && Called(|old(fates)|, calls)
      ensures ended ==> Valid() && FirstPiece(reader.maxLine, reader.Buffered()).None?
      ensures !isStream && Undisturbed(found, stops) && Readable(old(reader.rd.script)) ==> ended && outcome == Stopped
    {
      outcome, ended := Line, false;
      ghost var quiet := !isStream && Undisturbed(found, stops) && Readable(reader.rd.script);
      var k := 0;
      while outcome == Line || outcome == Ended
        invariant Reading(outcome, ended, quiet, old(fates), calls)
        invariant reader.buf == old(reader.buf) || fresh(reader.buf)
        decreases |reader.Stream()|, |reader.rd.script|, if outcome == Line || outcome == Ended then 1 else 0
      {
        assert quiet ==> found(k) == Fine && !stops(k);
        assert Reading(Line, false, quiet, old(fates), calls);
        outcome, ended := NextRead(found(k), stops(k), calls, quiet, old(fates));
        k := k + 1;
      }
    }

    /** How the read loop stands. Undisturbed, it goes on to the end of the file. */
    ghost predicate Reading(outcome: ReadOutcome, ended: bool, quiet: bool, before: seq<Fate>, calls: nat -> Call)
      reads this, reader, reader.buf, reader.rd
    {
      && Known() && reader.Valid() && before <= fates && Called(|before|, calls)
      && (outcome == Line || outcome == Ended || ended ==> Valid())
      && (ended ==> FirstPiece(reader.maxLine, reader.Buffered()).None?)
      && (quiet ==> !isStream && Readable(reader.rd.script) && outcome != Failed && (outcome == Stopped ==> ended))
    }

    method NextRead(
      found: Measurement, stopped: bool, calls: nat -> Call, ghost quiet: bool, ghost before: seq<Fate>)
      returns (outcome: ReadOutcome, ghost ended: bool)
      requires Reading(Line, false, quiet, before, calls)
      requires quiet ==> found == Fine && !stopped
      modifies this, reader, reader.buf, reader.rd
      ensures Reading(outcome, ended, quiet, before, calls) && (reader.buf == old(reader.buf) || fresh(reader.buf))
      ensures ended ==> outcome == Stopped
      ensures |reader.Stream()| <= |old(reader.Stream())| && |reader.rd.script| <= |old(reader.rd.script)|
      ensures outcome == Line ==> |reader.Stream()| < |old(reader.Stream())|
      ensures outcome == Ended ==> |reader.rd.script| < |old(reader.rd.script)|
    {
      ghost var last := reader.rd.script == [] && found == Fine;
      outcome := PerformRead(found, stopped || reader.rd.script == [], calls(lineCount));
      ended := last && outcome == Stopped;
    }

    /** What has been read of the file are the first pieces of it. */
    lemma PiecesLead()
      requires Known()
      ensures pieces <= Split(reader.maxLine, reader.rd.data[from..])
    {
      ProperPiecesLead(reader.maxLine, reader.rd.data[from..], pieces);
    }

    /** No measurement stops the loop, and no stop is asked for before the end. */
    ghost predicate Undisturbed(found: nat -> Measurement, stops: nat -> bool) {
      forall k :: found(k) == Fine && !stops(k)
    }

    ghost predicate Called(n: nat, calls: nat -> Call)
      reads `fates
    {
      forall i :: n <= i < |fates| ==> fates[i] == FateOf(calls(i).encodes, calls(i).waits)
    }
  }
}
