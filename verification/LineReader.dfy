/**
 The line reader (lc-lib/harvester/linereader.go): cuts a stream of bytes, read in chunks of any size into a
 buffer of any size, into lines of at most maxLine bytes.
 */
module LineReader {
  import opened Sequences

  type byte = x: int | 0 <= x < 256
  const LF: byte := 10
  const CR: byte := 13

  // --- What the reader is to return ---

  /** A line with its terminator or, when the line is too long, a part of it. */
  datatype Piece = Piece(bytes: seq<byte>, tooLong: bool)

  /** Where the first line feed is, or the length when there is none. */
  function LineFeed(s: seq<byte>): (n: nat)
    ensures n <= |s| && (n < |s| ==> s[n] == LF)
    ensures forall k :: 0 <= k < n ==> s[k] != LF
  {
    if s == [] || s[0] == LF then 0 else 1 + LineFeed(s[1..])
  }

  /** The first piece of a stream, once enough of it is there. */
  function FirstPiece(maxLine: nat, s: seq<byte>): Option<Piece> {
    var n := LineFeed(s);
    if n < |s| && n < maxLine then Some(Piece(s[..n + 1], false))
    else if |s| >= maxLine then Some(Piece(s[..maxLine], true))
    else None
  }

  /** All pieces of a stream, up to an incomplete last line. */
  function Split(maxLine: nat, s: seq<byte>): seq<Piece>
    requires maxLine > 0
    decreases |s|
  {
    match FirstPiece(maxLine, s)
    case None => []
    case Some(p) => [p] + Split(maxLine, s[|p.bytes|..])
  }

  function Bytes(pieces: seq<Piece>): seq<byte> {
    if pieces == [] then [] else pieces[0].bytes + Bytes(pieces[1..])
  }

  lemma {:induction false} BytesConcat(a: seq<Piece>, b: seq<Piece>)
    ensures Bytes(a + b) == Bytes(a) + Bytes(b)
  {
    if a == [] {
      assert a + b == b;
    } else {
      assert (a + b)[1..] == a[1..] + b;
      BytesConcat(a[1..], b);
    }
  }

  /** More of the stream does not change a piece that is there. */
  lemma PieceStable(maxLine: nat, s: seq<byte>, t: seq<byte>)
    requires FirstPiece(maxLine, s).Some?
    ensures FirstPiece(maxLine, s + t) == FirstPiece(maxLine, s)
  {
    var n, m := LineFeed(s), LineFeed(s + t);
    if n < |s| {
      assert (s + t)[n] == LF && m == n;
      assert (s + t)[..n + 1] == s[..n + 1];
    }
    if maxLine <= |s| {
      assert (s + t)[..maxLine] == s[..maxLine];
    }
  }

  lemma {:induction false} SplitIsPrefix(maxLine: nat, s: seq<byte>)
    requires maxLine > 0
    ensures Bytes(Split(maxLine, s)) <= s
    decreases |s|
  {
    var p := FirstPiece(maxLine, s);
    if p.Some? {
      var rest := s[|p.value.bytes|..];
      SplitIsPrefix(maxLine, rest);
      assert Split(maxLine, s)[1..] == Split(maxLine, rest);
      assert s == p.value.bytes + rest;
    }
  }

  /** What a split leaves over. */
  function LeftOver(maxLine: nat, s: seq<byte>): seq<byte>
    requires maxLine > 0
  {
    SplitIsPrefix(maxLine, s);
    s[|Bytes(Split(maxLine, s))|..]
  }

  lemma LeftOverUnfolds(maxLine: nat, s: seq<byte>)
    requires maxLine > 0
    ensures FirstPiece(maxLine, s).None? ==> LeftOver(maxLine, s) == s
    ensures FirstPiece(maxLine, s).Some? ==>
      LeftOver(maxLine, s) == LeftOver(maxLine, s[|FirstPiece(maxLine, s).value.bytes|..])
  {
    var p := FirstPiece(maxLine, s);
    if p.Some? {
      var k := |p.value.bytes|;
      SplitIsPrefix(maxLine, s);
      SplitIsPrefix(maxLine, s[k..]);
      var more := Split(maxLine, s[k..]);
      assert Split(maxLine, s)[1..] == more;
      assert s[k + |Bytes(more)|..] == s[k..][|Bytes(more)|..];
    }
  }

  /** The pieces in terms of the stream itself: a complete piece is a whole line, a piece that is too long
      has maxLine bytes and no line feed, and what is left over is a piece of neither kind. */
  ghost predicate ProperPiece(maxLine: nat, p: Piece) {
    && 0 < |p.bytes| <= maxLine
    && (forall k :: 0 <= k < |p.bytes| - 1 ==> p.bytes[k] != LF)
    && (p.bytes[|p.bytes| - 1] == LF <==> !p.tooLong)
    && (p.tooLong ==> |p.bytes| == maxLine)
  }

  ghost predicate Incomplete(maxLine: nat, rest: seq<byte>) {
    |rest| < maxLine && forall k :: 0 <= k < |rest| ==> rest[k] != LF
  }

  lemma FirstPieceIsProper(maxLine: nat, s: seq<byte>)
    requires maxLine > 0
    ensures FirstPiece(maxLine, s).None? <==> Incomplete(maxLine, s)
    ensures FirstPiece(maxLine, s).Some? ==>
      ProperPiece(maxLine, FirstPiece(maxLine, s).value) && FirstPiece(maxLine, s).value.bytes <= s
  {
    var n := LineFeed(s);
  }

  lemma {:induction false} SplitIsProper(maxLine: nat, s: seq<byte>)
    requires maxLine > 0
    ensures forall i :: 0 <= i < |Split(maxLine, s)| ==> ProperPiece(maxLine, Split(maxLine, s)[i])
    ensures s == Bytes(Split(maxLine, s)) + LeftOver(maxLine, s) && Incomplete(maxLine, LeftOver(maxLine, s))
    decreases |s|
  {
    FirstPieceIsProper(maxLine, s);
    SplitIsPrefix(maxLine, s);
    LeftOverUnfolds(maxLine, s);
    var p := FirstPiece(maxLine, s);
    if p.Some? {
      var rest := s[|p.value.bytes|..];
      var more, left := Split(maxLine, rest), LeftOver(maxLine, rest);
      SplitIsProper(maxLine, rest);
      assert Split(maxLine, s) == [p.value] + more && LeftOver(maxLine, s) == left;
      BytesOfCons(p.value, more);
      assert s == p.value.bytes + rest;
      Assoc(p.value.bytes, Bytes(more), left);
    }
  }

  lemma BytesOfCons(p: Piece, more: seq<Piece>)
    ensures Bytes([p] + more) == p.bytes + Bytes(more)
  {
    assert ([p] + more)[1..] == more;
  }

  /** Nothing else is such a split of the stream. */
  lemma {:induction false} SplitIsUnique(maxLine: nat, pieces: seq<Piece>, rest: seq<byte>)
    requires maxLine > 0 && Incomplete(maxLine, rest)
    requires forall i :: 0 <= i < |pieces| ==> ProperPiece(maxLine, pieces[i])
    ensures Split(maxLine, Bytes(pieces) + rest) == pieces
  {
    var s := Bytes(pieces) + rest;
    if pieces == [] {
      assert s == rest;
    } else {
      var p := pieces[0];
      var more := Bytes(pieces[1..]) + rest;
      assert s == p.bytes + more;
      ProperPieceIsFirst(maxLine, p, more);
      assert s[|p.bytes|..] == more;
      SplitIsUnique(maxLine, pieces[1..], rest);
    }
  }

  lemma ProperPieceIsFirst(maxLine: nat, p: Piece, more: seq<byte>)
    requires ProperPiece(maxLine, p)
    ensures FirstPiece(maxLine, p.bytes + more) == Some(p)
  {
    var s := p.bytes + more;
    var last := |p.bytes| - 1;
    assert s[last] == p.bytes[last] && forall k :: 0 <= k < last ==> s[k] == p.bytes[k];
    assert s[..last + 1] == p.bytes;
  }

  /** Splitting a stream goes on where splitting the first part of it stopped. */
  lemma SplitContinues(maxLine: nat, s: seq<byte>, t: seq<byte>)
    requires maxLine > 0
    ensures Split(maxLine, s + t) == Split(maxLine, s) + Split(maxLine, LeftOver(maxLine, s) + t)
    ensures LeftOver(maxLine, s + t) == LeftOver(maxLine, LeftOver(maxLine, s) + t)
  {
    SplitIsProper(maxLine, s);
    SplitIsProper(maxLine, LeftOver(maxLine, s) + t);
    SplitIsProper(maxLine, s + t);
    Rejoined(maxLine, s, t, Split(maxLine, s), LeftOver(maxLine, s),
             Split(maxLine, LeftOver(maxLine, s) + t), LeftOver(maxLine, LeftOver(maxLine, s) + t));
  }

  lemma Rejoined(maxLine: nat, s: seq<byte>, t: seq<byte>, a: seq<Piece>, l: seq<byte>, b: seq<Piece>, m: seq<byte>)
    requires maxLine > 0 && s == Bytes(a) + l && l + t == Bytes(b) + m && Incomplete(maxLine, m)
    requires forall i :: 0 <= i < |a| ==> ProperPiece(maxLine, a[i])
    requires forall i :: 0 <= i < |b| ==> ProperPiece(maxLine, b[i])
    ensures Split(maxLine, s + t) == a + b && s + t == Bytes(a + b) + m
  {
    BytesConcat(a, b);
    assert s + t == Bytes(a) + (l + t) == Bytes(a + b) + m;
    SplitIsUnique(maxLine, a + b, m);
  }

  /** Proper pieces at the beginning of a stream are the first of its split. */
  lemma ProperPiecesLead(maxLine: nat, s: seq<byte>, pieces: seq<Piece>)
    requires maxLine > 0 && Bytes(pieces) <= s
    requires forall i :: 0 <= i < |pieces| ==> ProperPiece(maxLine, pieces[i])
    ensures pieces <= Split(maxLine, s)
  {
    var rest := s[|Bytes(pieces)|..];
    SplitIsProper(maxLine, rest);
    SplitOfBoth(maxLine, pieces, Split(maxLine, rest), LeftOver(maxLine, rest));
    assert s == Bytes(pieces) + rest;
  }

  lemma SplitOfBoth(maxLine: nat, a: seq<Piece>, b: seq<Piece>, left: seq<byte>)
    requires maxLine > 0 && Incomplete(maxLine, left)
    requires forall i :: 0 <= i < |a| ==> ProperPiece(maxLine, a[i])
    requires forall i :: 0 <= i < |b| ==> ProperPiece(maxLine, b[i])
    ensures Split(maxLine, Bytes(a) + (Bytes(b) + left)) == a + b
  {
    BytesConcat(a, b);
    Assoc(Bytes(a), Bytes(b), left);
    SplitIsUnique(maxLine, a + b, left);
  }

  // --- The reader ---

  datatype Error = NoError | EndOfFile | Failure
  /** What one read of the file does at most: how much it returns, and with what error. */
  datatype Read = Read(size: nat, error: Error)

  /** No read fails. */
  ghost predicate Readable(script: seq<Read>) {
    forall i :: 0 <= i < |script| ==> script[i].error != Failure
  }

  /** A file that is read on, in whatever portions; it may also have grown. Once the portions are used
      up there is nothing more to read. */
  class Source {
    const data: seq<byte>
    var position: nat
    var script: seq<Read>

    constructor (data: seq<byte>, position: nat, script: seq<Read>)
      requires position <= |data|
      ensures this.data == data && this.position == position && this.script == script
    {
      this.data, this.position, this.script := data, position, script;
    }

    method Fetch(room: nat) returns (chunk: seq<byte>, error: Error)
      requires position <= |data|
      modifies this
      ensures |chunk| <= room && old(position) <= position <= |data| && chunk == data[old(position)..position]
      ensures script == if old(script) == [] then [] else old(script)[1..]
      ensures error == if old(script) == [] then EndOfFile else old(script)[0].error
      ensures old(script) == [] ==> chunk == []
    {
      if script == [] {
        return [], EndOfFile;
      }
      var n := Min(script[0].size, Min(room, |data| - position));
      chunk, error := data[position..position + n], script[0].error;
      position, script := position + n, script[1..];
    }
  }

  datatype LineError = Ok | LineTooLong | ReadError(error: Error)

  class LineReader {
    const rd: Source
    const size: nat
    const maxLine: nat

    var buf: array<byte>
    /** The contents of the buffers that were filled without a line feed. */
    var overflow: seq<seq<byte>>
    var curMax: int
    var start: nat
    var end: nat

    ghost predicate Valid()
      reads this, buf, rd
    {
      && size > 0 && maxLine > 0
      && buf.Length == size && start <= end <= buf.Length
      && rd.position <= |rd.data|
      && curMax > 0 && curMax + |Flatten(overflow)| == maxLine
      && (forall k :: 0 <= k < |Flatten(overflow)| ==> Flatten(overflow)[k] != LF)
    }

    /** The bytes read but not yet returned. */
    ghost function Buffered(): seq<byte>
      requires start <= end <= buf.Length
      reads this, buf
    {
      Flatten(overflow) + buf[start..end]
    }

    constructor (rd: Source, size: nat, maxLine: nat)
      requires rd.position <= |rd.data| && size > 0 && maxLine > 0
      ensures Valid() && Buffered() == [] && fresh(buf)
      ensures this.rd == rd && this.size == size && this.maxLine == maxLine
    {
      this.rd, this.size, this.maxLine := rd, size, maxLine;
      buf := new byte[size];
      overflow, curMax, start, end := [], maxLine, 0, 0;
    }

    /** Shifts what is in the buffer to its front and reads more behind it. */
    method Fill() returns (error: Error)
      requires Valid() && (start > 0 || end < buf.Length)
      modifies this`start, this`end, buf, rd
      ensures Valid() && start == 0 && old(rd.position) <= rd.position
      ensures buf[..end] == old(buf[start..end]) + rd.data[old(rd.position)..rd.position]
      ensures rd.script == if old(rd.script) == [] then [] else old(rd.script)[1..]
      ensures old(rd.script) == [] ==> rd.position == old(rd.position) && error != NoError
      ensures Readable(old(rd.script)) ==> Readable(rd.script) && error != Failure
    {
      if start != 0 {
        Shift();
      }
      var chunk;
      chunk, error := rd.Fetch(buf.Length - end);
      ghost var kept := buf[..end];
      forall k | 0 <= k < |chunk| {
        buf[end + k] := chunk[k];
      }
      end := end + |chunk|;
      assert buf[..end] == kept + chunk;
    }

    method Shift()
      requires start <= end <= buf.Length
      modifies this`start, this`end, buf
      ensures start == 0 && end == old(end) - old(start) && buf[..end] == old(buf[start..end])
    {
      var n := end - start;
      forall k | 0 <= k < n {
        buf[k] := buf[start + k];
      }
      end := n;
      start := 0;
    }

    /** The first line feed in the buffer; -1 when there is none. */
    method IndexByte() returns (n: int)
      requires start <= end <= buf.Length
      ensures n == -1 ==> LineFeed(buf[start..end]) == end - start
      ensures n != -1 ==> 0 <= n < end - start && n == LineFeed(buf[start..end])
    {
      n := 0;
      while n < end - start
        invariant 0 <= n <= end - start
        invariant forall k :: 0 <= k < n ==> buf[start..end][k] != LF
      {
        assert buf[start..end][n] == buf[start + n];
        if buf[start + n] == LF {
          return;
        }
        n := n + 1;
      }
      n := -1;
    }

    /** Returns the first n bytes of the buffer, behind what overflowed. */
    method Take(n: nat) returns (line: seq<byte>)
      requires Valid() && n <= end - start
      modifies this`start, this`overflow, this`curMax
      ensures Valid() && line == Flatten(old(overflow)) + old(buf[start..])[..n]
      ensures old(Buffered()) == line + Buffered()
    {
      line := buf[start..start + n];
      start := start + n;
      assert old(buf[start..end]) == line + buf[start..end];
      if overflow != [] {
        FlattenSnoc(overflow, line);
        overflow := overflow + [line];
        line := Flatten(overflow);
        overflow := [];
        curMax := maxLine;
      }
    }

    /** Sets a full buffer aside. */
    method Spill()
      requires Valid() && buf.Length <= end - start < curMax && LineFeed(buf[start..end]) == end - start
      modifies this`start, this`end, this`overflow, this`curMax, this`buf
      ensures Valid() && Buffered() == old(Buffered()) && start == end == 0 && fresh(buf)
    {
      assert buf[start..end] == buf[..];
      FlattenSnoc(overflow, buf[..]);
      start, end := 0, 0;
      overflow := overflow + [buf[..]];
      curMax := curMax - buf.Length;
      buf := new byte[size];
    }

    /** The first piece of what is buffered, found in the buffer alone. */
    lemma PieceInBuffer()
      requires Valid()
      ensures var b := buf[start..end];
        var n := LineFeed(b);
        FirstPiece(maxLine, Buffered()) ==
          if n < |b| && n < curMax then Some(Piece(Flatten(overflow) + b[..n + 1], false))
          else if |b| >= curMax then Some(Piece(Flatten(overflow) + b[..curMax], true))
          else None
    {
      var o, b := Flatten(overflow), buf[start..end];
      var n := LineFeed(b);
      var s := o + b;
      assert n < |b| ==> s[|o| + n] == LF;
      assert forall k :: 0 <= k < |o| + n ==> s[k] != LF by {
        forall k | 0 <= k < |o| + n ensures s[k] != LF {
          if k >= |o| {
            assert s[k] == b[k - |o|];
          }
        }
      }
      assert LineFeed(s) == |o| + n;
      if n < |b| {
        assert s[..|o| + n + 1] == o + b[..n + 1];
      }
      if |b| >= curMax {
        assert s[..maxLine] == o + b[..curMax];
      }
    }

    /** The bytes not yet returned, including those still to be read. */
    ghost function Stream(): seq<byte>
      requires Valid()
      reads this, buf, rd
    {
      Buffered() + rd.data[rd.position..]
    }

    /** Reads more, wherever the buffer stands. */
    method FillMore() returns (error: Error)
      requires Valid() && (start > 0 || end < buf.Length)
      modifies this`start, this`end, buf, rd
      ensures Valid() && Stream() == old(Stream()) && |Buffered()| >= |old(Buffered())|
      ensures rd.script == if old(rd.script) == [] then [] else old(rd.script)[1..]
      ensures old(rd.script) == [] ==> error != NoError && end - start == old(end) - old(start)
      ensures Readable(old(rd.script)) ==> Readable(rd.script) && error != Failure
    {
      ghost var p := rd.position;
      error := Fill();
      ghost var q := rd.position;
      assert buf[..end] == old(buf[start..end]) + rd.data[p..q];
      assert rd.data[p..] == rd.data[p..q] + rd.data[q..];
      assert buf[start..end] == buf[..end];
    }

    /** The exits of the loop of ReadSlice: a piece is there, or the last read failed. */
    method TryTake(failed: bool) returns (line: Option<seq<byte>>, tooLong: bool)
      requires Valid()
      modifies this`start, this`overflow, this`curMax
      ensures Valid() && (line.Some? ==> old(Stream()) == line.value + Stream())
      ensures line.Some? ==> FirstPiece(maxLine, old(Buffered())) == Some(Piece(line.value, tooLong))
      ensures line.None? ==> start == old(start) && overflow == old(overflow) && curMax == old(curMax)
      ensures line.None? && FirstPiece(maxLine, Buffered()).Some? ==>
        failed && FirstPiece(maxLine, Buffered()).value.tooLong
      ensures line.None? && FirstPiece(maxLine, Buffered()).None? ==>
        end - start < curMax && LineFeed(buf[start..end]) == end - start
      ensures line.None? && end - start < curMax ==> FirstPiece(maxLine, Buffered()).None?
    {
      PieceInBuffer();
      var n := IndexByte();
      if n >= 0 && n < curMax {
        var piece := Take(n + 1);
        return Some(piece), false;
      }
      if !failed && end - start >= curMax {
        var piece := Take(curMax);
        return Some(piece), true;
      }
      return None, false;
    }

    /** Returns the first piece of the stream, or nothing when a read fails before it is complete. */
    method ReadSlice() returns (line: Option<seq<byte>>, err: LineError)
      requires Valid()
      modifies this, buf, rd
      ensures Valid() && (buf == old(buf) || fresh(buf))
      ensures line.Some? <==> !err.ReadError?
      ensures line.Some? ==> old(Stream()) == line.value + Stream()
      ensures line.Some? ==> FirstPiece(maxLine, old(Stream())) == Some(Piece(line.value, err == LineTooLong))
      ensures line.None? ==> Stream() == old(Stream())
      ensures line.None? ==> FirstPiece(maxLine, Buffered()).None? || FirstPiece(maxLine, Buffered()).value.tooLong
      ensures |rd.script| <= |old(rd.script)| && (line.None? && old(rd.script) != [] ==> |rd.script| < |old(rd.script)|)
      ensures line.None? && old(rd.script) == [] ==> FirstPiece(maxLine, Buffered()).None?
      ensures Readable(old(rd.script)) ==> Readable(rd.script) && err != ReadError(Failure)
    {
      var error := NoError;
      if end == 0 {
        error := FillMore();
      }
      while true
        invariant Valid() && (buf == old(buf) || fresh(buf))
        invariant Stream() == old(Stream())
        invariant |rd.script| <= |old(rd.script)|
        invariant Readable(old(rd.script)) ==> Readable(rd.script) && error != Failure
        invariant error != NoError && old(rd.script) != [] ==> |rd.script| < |old(rd.script)|
        invariant error != NoError && old(rd.script) == [] ==> end - start < curMax
        decreases |rd.script|, if error == NoError then 1 else 0
      {
        ghost var before, rest := Buffered(), rd.data[rd.position..];
        var tooLong;
        line, tooLong := TryTake(error != NoError);
        if line.Some? {
          PieceStable(maxLine, before, rest);
          return line, if tooLong then LineTooLong else Ok;
        }
        if error != NoError {
          return None, ReadError(error);
        }
        if end - start >= buf.Length {
          Spill();
        }
        error := FillMore();
      }
    }
  }
}
