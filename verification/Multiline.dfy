/**
 The multiline codec (lc-lib/codecs/multiline.go): joins lines into events and cuts what becomes too long,
 as the lines come in.

 Whether a line matches the patterns is given with the line. The deadline of "previous timeout" is one more
 kind of input.
 */
module Multiline {
  import opened MultilineTrace
  import opened Sequences

  datatype What = Previous | Next
  datatype Emitted = Emitted(start: int, offset: int, text: string)
  datatype Input = LineIn(line: Line, matched: bool) | DeadlineIn

  // --- What the codec is to send on ---

  /** The groups that are complete, and the one being collected. */
  datatype Groups = Groups(closed: seq<seq<string>>, open: seq<string>)

  function Close(g: Groups): Groups {
    if g.open == [] then g else Groups(g.closed + [g.open], [])
  }

  function Feed(what: What, g: Groups, i: Input): Groups {
    match i
    case DeadlineIn => if what == Previous then Close(g) else g
    case LineIn(line, matched) =>
      if what == Previous then
        var h := if matched then g else Close(g);
        h.(open := h.open + [line.text])
      else
        var h := g.(open := g.open + [line.text]);
        if matched then h else Close(h)
  }

  /** The groups after a run of inputs. */
  function FeedAll(what: What, g: Groups, inputs: seq<Input>): Groups
    decreases |inputs|
  {
    if inputs == [] then g else FeedAll(what, Feed(what, g, inputs[0]), inputs[1..])
  }

  function LinesOf(inputs: seq<Input>): seq<string> {
    if inputs == [] then []
    else (if inputs[0].LineIn? then [inputs[0].line.text] else []) + LinesOf(inputs[1..])
  }

  function LinesIn(g: Groups): seq<string> {
    Flatten(g.closed) + g.open
  }

  ghost predicate NoneEmpty(groups: seq<seq<string>>) {
    forall i :: 0 <= i < |groups| ==> groups[i] != []
  }

  /** Every line goes into one group, in order, and no group is empty. */
  lemma {:induction false} GroupsCover(what: What, g: Groups, inputs: seq<Input>)
    requires NoneEmpty(g.closed)
    ensures LinesIn(FeedAll(what, g, inputs)) == LinesIn(g) + LinesOf(inputs)
      && NoneEmpty(FeedAll(what, g, inputs).closed)
    decreases |inputs|
  {
    if inputs != [] {
      var h := Feed(what, g, inputs[0]);
      FeedCovers(what, g, inputs[0]);
      GroupsCover(what, h, inputs[1..]);
      var first := if inputs[0].LineIn? then [inputs[0].line.text] else [];
      assert (LinesIn(g) + first) + LinesOf(inputs[1..]) == LinesIn(g) + (first + LinesOf(inputs[1..]));
    }
  }

  lemma FeedCovers(what: What, g: Groups, i: Input)
    requires NoneEmpty(g.closed)
    ensures NoneEmpty(Feed(what, g, i).closed)
    ensures LinesIn(Feed(what, g, i)) == LinesIn(g) + if i.LineIn? then [i.line.text] else []
  {
    CloseCovers(g);
    if i.LineIn? {
      var h := if what == Previous && !i.matched then Close(g) else g;
      var k := h.(open := h.open + [i.line.text]);
      assert LinesIn(k) == LinesIn(h) + [i.line.text];
      CloseCovers(k);
    }
  }

  lemma CloseCovers(g: Groups)
    ensures LinesIn(Close(g)) == LinesIn(g)
  {
    FlattenSnoc(g.closed, g.open);
    if g.open != [] {
      assert Flatten(g.closed + [g.open]) + [] == Flatten(g.closed) + g.open;
    }
  }

  /** A text in pieces of exactly max bytes, but for the last, which has fewer and may be empty. */
  function Chunks(max: nat, s: string): (r: seq<string>)
    requires max > 0
    ensures r != []
    decreases |s|
  {
    if |s| < max then [s] else [s[..max]] + Chunks(max, s[max..])
  }

  function AllChunks(max: nat, groups: seq<seq<string>>): seq<string>
    requires max > 0
  {
    if groups == [] then []
    else AllChunks(max, groups[..|groups| - 1]) + Chunks(max, Join(groups[|groups| - 1]))
  }

  function Expected(max: nat, g: Groups): seq<string>
    requires max > 0
  {
    AllChunks(max, g.closed) + if g.open == [] then [] else Chunks(max, Join(g.open))
  }

  lemma CloseExpected(max: nat, g: Groups)
    requires max > 0
    ensures Expected(max, Close(g)) == Expected(max, g)
  {
    if g.open != [] {
      var closed := g.closed + [g.open];
      assert closed[..|closed| - 1] == g.closed;
    }
  }

  /** The last piece is where a longer text goes on. */
  lemma {:induction false} ChunksExtend(max: nat, s: string, t: string)
    requires max > 0
    ensures var r := Chunks(max, s); Chunks(max, s + t) == r[..|r| - 1] + Chunks(max, r[|r| - 1] + t)
    decreases |s|
  {
    if |s| >= max {
      var rest := s[max..];
      assert (s + t)[..max] == s[..max] && (s + t)[max..] == rest + t;
      ChunksExtend(max, rest, t);
      var r, q := Chunks(max, s), Chunks(max, rest);
      assert r == [s[..max]] + q;
      assert r[..|r| - 1] == [s[..max]] + q[..|q| - 1];
    }
  }

  /** The pieces make up the text, and have the sizes they should have. */
  lemma {:induction false} ChunksCover(max: nat, s: string)
    requires max > 0
    ensures Flatten(Chunks(max, s)) == s
    ensures var r := Chunks(max, s);
      && (forall i :: 0 <= i < |r| - 1 ==> |r[i]| == max)
      && |r[|r| - 1]| < max
    decreases |s|
  {
    if |s| >= max {
      ChunksCover(max, s[max..]);
    } else {
      assert Flatten([s]) == s + Flatten<char>([]);
    }
  }

  ghost predicate SuffixOf(s: string, t: string) {
    |s| <= |t| && t[|t| - |s|..] == s
  }

  // --- The codec ---

  class Multiline {
    const max: nat
    const what: What
    var lastOffset: int
    var startOffset: int
    var endOffset: int
    var buffer: seq<string>
    var bufferLines: int
    var bufferLen: int
    /** What was passed to the callback. */
    var output: seq<Emitted>

    ghost var groups: Groups
    /** The texts and the offsets of the output. */
    ghost var texts: seq<string>
    ghost var stops: seq<int>
    /** What each event sent on was made of. */
    ghost var cuts: seq<Cut>
    /** The lines fed in, and where the first of them can begin. */
    ghost var fed: seq<Line>
    ghost const begin: int

    /** The buffer is within bounds, and its size is known. */
    ghost predicate Sized()
      reads `buffer, `bufferLines, `bufferLen
    {
      max > 0 && bufferLines == |buffer| && bufferLen + bufferLines == |Prefix(buffer)| <= max
    }

    /** What was sent on, and what is in the buffer, are the pieces of the groups so far. */
    ghost predicate Grouped()
      requires max > 0
      reads `texts, `buffer, `groups
    {
      && Accounted(max, texts, buffer, groups)
      && (buffer == [] <==> groups.open == [])
    }

    /** The events sent on are intervals in order, up to the offset reported on teardown. */
    ghost predicate InOrder()
      reads `output, `lastOffset, `texts, `stops
    {
      && |texts| == |stops| == |output|
      && (forall i :: 0 <= i < |output| ==> texts[i] == output[i].text && stops[i] == output[i].offset)
      && (forall i :: 0 <= i < |output| ==> begin <= output[i].start <= output[i].offset <= lastOffset)
      && (forall i, j :: 0 <= i < j < |output| ==> output[i].offset <= output[j].start)
      && lastOffset == (if output == [] then begin else output[|output| - 1].offset)
    }

    /** The events and the buffer are made of the lines fed in. */
    ghost predicate Traced()
      reads `texts, `stops, `cuts, `buffer, `fed
    {
      Traces(texts, stops, cuts, buffer, "", fed, begin)
    }

    /** What is buffered lies behind that, and ends where the last line does. */
    ghost predicate Ahead()
      reads this
    {
      && lastOffset <= EndOf(fed, begin)
      && (buffer != [] ==> fed != [] && lastOffset <= startOffset <= endOffset == EndOf(fed, begin))
    }

    ghost predicate Valid()
      reads this
    {
      Sized() && Grouped() && InOrder() && Traced() && Ahead()
    }

    constructor (max: nat, what: What, offset: int)
      requires max > 0
      ensures Valid() && groups == Groups([], []) && output == [] && fed == [] && lastOffset == begin == offset
      ensures this.max == max && this.what == what
    {
      this.max, this.what, begin := max, what, offset;
      lastOffset, startOffset, endOffset, buffer, bufferLines, bufferLen, output := offset, 0, offset, [], 0, 0, [];
      groups, texts, stops, cuts, fed := Groups([], []), [], [], [], [];
      TracesNothing(offset);
    }

    /** Sends on what is in the buffer, when so much is left of the last line. */
    method Flush(ghost left: nat)
      requires InOrder() && (buffer != [] ==> lastOffset <= startOffset <= endOffset)
      modifies `lastOffset, `buffer, `bufferLen, `bufferLines, `output, `texts, `stops, `cuts
      ensures InOrder() && buffer == []
      ensures old(buffer) == [] ==>
        && output == old(output) && texts == old(texts) && stops == old(stops) && cuts == old(cuts)
        && lastOffset == old(lastOffset) && bufferLen == old(bufferLen) && bufferLines == old(bufferLines)
      ensures old(buffer) != [] ==>
        && texts == old(texts) + [Join(old(buffer))] && stops == old(stops) + [endOffset]
        && cuts == old(cuts) + [Cut(old(buffer), |fed|, left)]
        && bufferLen == bufferLines == 0 && lastOffset == endOffset
    {
      if buffer == [] {
        return;
      }
      var text := Join(buffer);
      cuts := cuts + [Cut(buffer, |fed|, left)];
      lastOffset := endOffset;
      buffer, bufferLen, bufferLines := [], 0, 0;
      output := output + [Emitted(startOffset, endOffset, text)];
      texts, stops := texts + [text], stops + [endOffset];
    }

    /** A group is complete. */
    method CloseGroup()
      requires Valid()
      modifies `lastOffset, `buffer, `bufferLen, `bufferLines, `output, `texts, `stops, `cuts, `groups
      ensures Valid() && groups == Close(old(groups)) && groups.open == []
    {
      AccountedAfterClose(max, texts, buffer, groups);
      if buffer != [] {
        TracesFlush(texts, stops, cuts, buffer, "", fed, begin);
        SendGroup();
      }
    }

    method SendGroup()
      requires Sized() && InOrder() && Ahead() && buffer != [] && groups.open != []
      requires Accounted(max, texts + [Join(buffer)], [], Close(groups))
      requires Traces(texts + [Join(buffer)], stops + [endOffset], cuts + [Cut(buffer, |fed|, 0)], [], "", fed, begin)
      modifies `lastOffset, `buffer, `bufferLen, `bufferLines, `output, `texts, `stops, `cuts, `groups
      ensures Valid() && groups == Close(old(groups)) && groups.open == []
    {
      Flush(0);
      groups := Close(groups);
    }

    /** One turn of the loop that cuts: fills the buffer up to the maximum and sends it on. */
    method CutOff(line: Line, text: string, ghost room: nat) returns (rest: string)
      requires Sized() && InOrder() && room == max - bufferLen - bufferLines <= |text|
      requires lastOffset <= startOffset <= line.end - |text|
      modifies `lastOffset, `startOffset, `endOffset, `buffer, `bufferLen, `bufferLines, `output, `texts, `stops, `cuts
      ensures Sized() && InOrder() && lastOffset == startOffset == line.end - |rest| && rest == text[room..]
      ensures Parts(texts, stops, cuts, buffer, rest) ==
        CutOnce(Parts(old(texts), old(stops), old(cuts), old(buffer), text), room, line.end, |fed|)
    {
      var overflow := bufferLen + |text| + bufferLines - max;
      var cut := |text| - overflow;
      endOffset := line.end - overflow;
      buffer := buffer + [text[..cut]];
      bufferLines := bufferLines + 1;
      bufferLen := bufferLen + cut;
      Flush(overflow);
      startOffset := endOffset;
      rest := text[cut..];
    }

    /** The loop that cuts, for as long as the joined text would reach the maximum. */
    method CutAll(line: Line, ghost q: Parts) returns (text: string)
      requires Sized() && InOrder() && lastOffset <= startOffset <= line.end - |line.text|
      requires q == CutUp(max, Parts(texts, stops, cuts, buffer, line.text), line.end, |fed|)
      modifies `lastOffset, `startOffset, `endOffset, `buffer, `bufferLen, `bufferLines, `output, `texts, `stops, `cuts
      ensures Sized() && InOrder() && lastOffset <= startOffset <= line.end - |text|
      ensures Holds(q, text) && |Prefix(buffer)| + |text| < max
    {
      text := line.text;
      while bufferLen + |text| + bufferLines >= max
        invariant Sized() && InOrder() && lastOffset <= startOffset <= line.end - |text|
        invariant CutUp(max, Parts(texts, stops, cuts, buffer, text), line.end, |fed|) == q
        decreases |text|, |buffer|
      {
        ghost var room := max - bufferLen - bufferLines;
        CutUpUnfolds(max, Parts(texts, stops, cuts, buffer, text), room, line.end, |fed|);
        text := CutOff(line, text, room);
      }
      CutUpUnfolds(max, Parts(texts, stops, cuts, buffer, text), 0, line.end, |fed|);
    }

    /** The codec is as these parts say, with the text left of the last line. */
    ghost predicate Holds(q: Parts, text: string)
      reads `texts, `stops, `cuts, `buffer
    {
      texts == q.texts && stops == q.stops && cuts == q.cuts && buffer == q.buffer && text == q.rest
    }

    /** A line is added to the open group. */
    method Append(line: Line)
      requires Valid() && EndOf(fed, begin) <= line.start && Terminator(line) >= 0
      modifies this
      ensures Valid() && fed == old(fed) + [line]
      ensures groups == old(groups).(open := old(groups).open + [line.text])
    {
      if buffer == [] {
        startOffset := line.start;
      }
      ghost var p := Parts(texts, stops, cuts, buffer, line.text);
      ghost var g := groups.(open := groups.open + [line.text]);
      CutUpTold(max, p, groups, fed, begin, line);
      Divide(line, CutUp(max, p, line.end, |fed| + 1), g, fed + [line]);
    }

    /** The line is read and cut up, and the rest of it stored. */
    method Divide(line: Line, ghost q: Parts, ghost g: Groups, ghost lines: seq<Line>)
      requires Sized() && InOrder() && lastOffset <= startOffset <= line.end - |line.text|
      requires q == CutUp(max, Parts(texts, stops, cuts, buffer, line.text), line.end, |lines|)
      requires g.open != [] && lines != [] && line == lines[|lines| - 1] && Told(max, q, g, lines, begin)
      modifies `lastOffset, `startOffset, `endOffset, `buffer, `bufferLen, `bufferLines
      modifies `output, `texts, `stops, `cuts, `fed, `groups
      ensures Valid() && fed == lines && groups == g
    {
      fed := lines;
      var text := CutAll(line, q);
      Store(line, text, q, g);
    }

    /** What is left of the line goes into the buffer. */
    method Store(line: Line, text: string, ghost q: Parts, ghost g: Groups)
      requires Sized() && InOrder() && lastOffset <= startOffset <= line.end
      requires fed != [] && line == fed[|fed| - 1] && g.open != []
      requires Holds(q, text) && Told(max, q, g, fed, begin)
      modifies `endOffset, `buffer, `bufferLen, `bufferLines, `groups
      ensures Valid() && groups == g
    {
      endOffset := line.end;
      buffer := buffer + [text];
      bufferLines := bufferLines + 1;
      bufferLen := bufferLen + |text|;
      groups := g;
      assert texts == q.texts && buffer == q.buffer + [q.rest];
    }

    /** A line comes in. The groups, and with them all texts sent on, are what the lines and whether they
        match make of them. */
    method Event(line: Line, matched: bool)
      requires Valid() && EndOf(fed, begin) <= line.start && Terminator(line) >= 0
      modifies this
      ensures Valid() && fed == old(fed) + [line] && groups == Feed(what, old(groups), LineIn(line, matched))
    {
      if what == Previous {
        EventPrevious(line, matched);
      } else {
        EventNext(line, matched);
      }
    }

    method EventPrevious(line: Line, matched: bool)
      requires Valid() && EndOf(fed, begin) <= line.start && Terminator(line) >= 0
      modifies this
      ensures Valid() && fed == old(fed) + [line] && groups == Feed(Previous, old(groups), LineIn(line, matched))
    {
      if !matched {
        CloseGroup();
      }
      Append(line);
    }

    method EventNext(line: Line, matched: bool)
      requires Valid() && EndOf(fed, begin) <= line.start && Terminator(line) >= 0
      modifies this
      ensures Valid() && fed == old(fed) + [line] && groups == Feed(Next, old(groups), LineIn(line, matched))
    {
      Append(line);
      if !matched {
        CloseGroup();
      }
    }

    /** The deadline of the previous timeout has passed. */
    method Deadline()
      requires Valid() && what == Previous
      modifies this
      ensures Valid() && fed == old(fed) && groups == Feed(what, old(groups), DeadlineIn)
    {
      CloseGroup();
    }

    method Teardown() returns (offset: int)
      requires Valid()
      ensures offset == if output == [] then begin else output[|output| - 1].offset
    {
      offset := lastOffset;
    }

    /** The offsets sent on do not decrease. Two are the same only if the later event takes up nothing of the file. */
    lemma OffsetsDoNotDecrease(i: nat, j: nat)
      requires Valid() && i < j < |output|
      ensures begin <= output[i].offset <= output[j].offset <= lastOffset
      ensures output[i].offset == output[j].offset ==> output[j].start == output[j].offset
    {
      assert output[i].offset <= output[j].start;
    }

    /** A restart from the offset of an event reads exactly the text that was not sent on by then if, and only if, the
        event stopped at the end of a line's text, or that line has no terminator. */
    lemma RestartFromEvent(i: nat)
      requires Valid() && i < |output|
      ensures |cuts| == |output| && 0 < cuts[i].lines <= |fed| && output[i].text == Join(cuts[i].parts)
      ensures SentBy(cuts[..i + 1]) <= TextOf(fed)
      ensures var unsent := TextOf(fed)[|SentBy(cuts[..i + 1])|..];
        var t := Terminator(fed[cuts[i].lines - 1]);
        && (ReadAgain(fed, output[i].offset) == unsent <==> cuts[i].left == 0 || t == 0)
        && |unsent| - |ReadAgain(fed, output[i].offset)| == Min(cuts[i].left, t)
    {
      RestartFrom(texts, stops, cuts, buffer, fed, begin, i);
    }

    /** A restart from the offset that Teardown reports reads exactly the text that is still in the buffer if, and only
        if, the last event stopped at the end of a line's text, or that line has no terminator. */
    lemma RestartAfterTeardown()
      requires Valid()
      ensures output == [] ==> ReadAgain(fed, lastOffset) == Flatten(buffer) == TextOf(fed)
      ensures output != [] ==>
        && |cuts| == |output| && 0 < cuts[|cuts| - 1].lines <= |fed|
        && (ReadAgain(fed, lastOffset) == Flatten(buffer)
            <==> cuts[|cuts| - 1].left == 0 || Terminator(fed[cuts[|cuts| - 1].lines - 1]) == 0)
    {
      assert Flatten(buffer) + "" == Flatten(buffer);
      if output == [] {
        assert SentBy(cuts) + Flatten(buffer) == Flatten(buffer);
        EverythingAgain(fed, begin);
      } else {
        var last := |output| - 1;
        RestartFrom(texts, stops, cuts, buffer, fed, begin, last);
        assert cuts[..last + 1] == cuts;
        Remainder(SentBy(cuts), Flatten(buffer), TextOf(fed));
      }
    }
  }

  lemma Remainder(a: string, b: string, whole: string)
    requires a + b == whole
    ensures whole[|a|..] == b
  {
  }

  /** What was sent on, and what is in the buffer, is what is expected. */
  ghost predicate Accounted(max: nat, texts: seq<string>, buffer: seq<string>, groups: Groups)
    requires max > 0
  {
    texts + (if buffer == [] then [] else [Join(buffer)]) == Expected(max, groups)
  }

  lemma AccountedAfterClose(max: nat, texts: seq<string>, buffer: seq<string>, groups: Groups)
    requires max > 0 && Accounted(max, texts, buffer, groups) && (buffer == [] <==> groups.open == [])
    ensures buffer == [] ==> Close(groups) == groups
    ensures buffer != [] ==> Accounted(max, texts + [Join(buffer)], [], Close(groups))
  {
    CloseExpected(max, groups);
  }

  /** What comes out once more text is in the buffer as well. */
  ghost predicate Towards(max: nat, texts: seq<string>, text: string, target: seq<string>)
    requires max > 0
  {
    texts + Chunks(max, text) == target
  }

  /** The rest of a line's text is still to go into the buffer. */
  ghost predicate Cutting(max: nat, texts: seq<string>, buffer: seq<string>, whole: string, rest: string,
    target: seq<string>)
    requires max > 0
  {
    && Towards(max, texts, Prefix(buffer) + rest, target)
    && SuffixOf(rest, whole) && (rest == whole || buffer == [])
  }

  /** A line is to be added to the open group. */
  function Target(max: nat, groups: Groups, text: string): seq<string>
    requires max > 0
  {
    AllChunks(max, groups.closed) + Chunks(max, Join(groups.open + [text]))
  }

  lemma TowardsTarget(max: nat, texts: seq<string>, buffer: seq<string>, groups: Groups, text: string)
    requires max > 0 && Accounted(max, texts, buffer, groups) && (buffer == [] <==> groups.open == [])
    ensures Cutting(max, texts, buffer, text, text, Target(max, groups, text))
  {
    JoinSnoc(groups.open, text);
    var closed := AllChunks(max, groups.closed);
    if buffer != [] {
      var r := Chunks(max, Join(groups.open));
      var init, last := r[..|r| - 1], r[|r| - 1];
      LastOf(texts, Join(buffer), closed, r);
      ChunksExtend(max, Join(groups.open), "\n" + text);
      Assoc(Join(groups.open), "\n", text);
      Assoc(last, "\n", text);
      Assoc(closed, init, Chunks(max, Prefix(buffer) + text));
    } else {
      assert texts == texts + [] == closed + [] == closed;
      assert "" + text == text;
    }
  }

  lemma LastOf(texts: seq<string>, last: string, closed: seq<string>, r: seq<string>)
    requires texts + [last] == closed + r && r != []
    ensures texts == closed + r[..|r| - 1] && last == r[|r| - 1]
  {
    var all := closed + r;
    assert texts == all[..|all| - 1] && last == all[|all| - 1];
  }

  lemma AccountedAfterStore(max: nat, texts: seq<string>, buffer: seq<string>, groups: Groups, text: string,
    rest: string)
    requires max > 0 && |Prefix(buffer)| + |rest| < max
    requires Cutting(max, texts, buffer, text, rest, Target(max, groups, text))
    ensures Accounted(max, texts, buffer + [rest], groups.(open := groups.open + [text]))
    ensures |Prefix(buffer + [rest])| == |Prefix(buffer)| + |rest| + 1
  {
    JoinSnoc(buffer, rest);
    assert Chunks(max, Prefix(buffer) + rest) == [Prefix(buffer) + rest];
  }

  /** A turn of the loop that cuts keeps what is to come, and gets on. */
  lemma AfterCut(max: nat, texts: seq<string>, buffer: seq<string>, whole: string, text: string, room: nat,
    target: seq<string>)
    requires max > 0 && room == max - |Prefix(buffer)| <= |text|
    requires Cutting(max, texts, buffer, whole, text, target)
    ensures Cutting(max, texts + [Join(buffer + [text[..room]])], [], whole, text[room..], target)
    ensures |text[room..]| < |text| || (text[room..] == text && buffer != [])
  {
    CutText(max, texts, buffer, text, room, target);
    RestIsSuffix(text, whole, room);
    assert Prefix([]) + text[room..] == text[room..];
  }

  /** What was sent on and with what offsets, what it was made of, the buffer, and what is left of a line. */
  datatype Parts = Parts(texts: seq<string>, stops: seq<int>, cuts: seq<Cut>, buffer: seq<string>, rest: string)

  /** The buffer is filled up with as much text and sent on; `end` is where the line ends, and `lines` counts it. */
  function CutOnce(p: Parts, room: nat, end: int, lines: nat): Parts
    requires room <= |p.rest|
  {
    var full, rest := p.buffer + [p.rest[..room]], p.rest[room..];
    Parts(p.texts + [Join(full)], p.stops + [end - |rest|], p.cuts + [Cut(full, lines, |rest|)], [], rest)
  }

  /** The buffer is filled up to the maximum and sent on for as long as the line allows. */
  function CutUp(max: nat, p: Parts, end: int, lines: nat): Parts
    requires max > 0 && |Prefix(p.buffer)| <= max
    decreases |p.rest|, |p.buffer|
  {
    var room := max - |Prefix(p.buffer)|;
    if |p.rest| < room then p else CutUp(max, CutOnce(p, room, end, lines), end, lines)
  }

  lemma CutUpUnfolds(max: nat, p: Parts, room: nat, end: int, lines: nat)
    requires max > 0 && |Prefix(p.buffer)| <= max
    ensures |Prefix(p.buffer)| + |p.rest| < max ==> CutUp(max, p, end, lines) == p
    ensures room == max - |Prefix(p.buffer)| && room <= |p.rest| ==>
      && CutUp(max, p, end, lines) == CutUp(max, CutOnce(p, room, end, lines), end, lines)
      && (room == 0 ==> p.buffer != [])
  {
  }

  lemma {:induction false} CutUpKeeps(max: nat, p: Parts, whole: string, target: seq<string>, end: int, lines: nat)
    requires max > 0 && |Prefix(p.buffer)| <= max && Cutting(max, p.texts, p.buffer, whole, p.rest, target)
    ensures var q := CutUp(max, p, end, lines);
      Cutting(max, q.texts, q.buffer, whole, q.rest, target) && |Prefix(q.buffer)| + |q.rest| < max
    decreases |p.rest|, |p.buffer|
  {
    var room := max - |Prefix(p.buffer)|;
    if room <= |p.rest| {
      AfterCut(max, p.texts, p.buffer, whole, p.rest, room, target);
      CutUpKeeps(max, CutOnce(p, room, end, lines), whole, target, end, lines);
    }
  }

  /** A line is cut up and the rest of it stored: what is expected of the groups comes out. */
  lemma CutUpAccounted(max: nat, p: Parts, groups: Groups, end: int, lines: nat)
    requires max > 0 && |Prefix(p.buffer)| <= max
    requires Accounted(max, p.texts, p.buffer, groups) && (p.buffer == [] <==> groups.open == [])
    ensures var q := CutUp(max, p, end, lines);
      && Accounted(max, q.texts, q.buffer + [q.rest], groups.(open := groups.open + [p.rest]))
      && |Prefix(q.buffer + [q.rest])| == |Prefix(q.buffer)| + |q.rest| + 1 <= max
  {
    var target := Target(max, groups, p.rest);
    TowardsTarget(max, p.texts, p.buffer, groups, p.rest);
    CutUpKeeps(max, p, p.rest, target, end, lines);
    var q := CutUp(max, p, end, lines);
    AccountedAfterStore(max, q.texts, q.buffer, groups, p.rest, q.rest);
  }

  lemma CutOnceTraces(p: Parts, room: nat, fed: seq<Line>, from: int)
    requires Traces(p.texts, p.stops, p.cuts, p.buffer, p.rest, fed, from) && room <= |p.rest|
    requires fed != [] && |p.rest| <= |fed[|fed| - 1].text|
    ensures var q := CutOnce(p, room, fed[|fed| - 1].end, |fed|);
      Traces(q.texts, q.stops, q.cuts, q.buffer, q.rest, fed, from)
  {
    TracesFill(p.texts, p.stops, p.cuts, p.buffer, p.rest, fed, from, room);
    TracesFlush(p.texts, p.stops, p.cuts, p.buffer + [p.rest[..room]], p.rest[room..], fed, from);
  }

  lemma {:induction false} CutUpTracesOn(max: nat, p: Parts, fed: seq<Line>, from: int)
    requires max > 0 && |Prefix(p.buffer)| <= max && Traces(p.texts, p.stops, p.cuts, p.buffer, p.rest, fed, from)
    requires fed != [] && |p.rest| <= |fed[|fed| - 1].text|
    ensures var q := CutUp(max, p, fed[|fed| - 1].end, |fed|);
      Traces(q.texts, q.stops, q.cuts, q.buffer, q.rest, fed, from)
    decreases |p.rest|, |p.buffer|
  {
    var room := max - |Prefix(p.buffer)|;
    if room <= |p.rest| {
      CutOnceTraces(p, room, fed, from);
      CutUpTracesOn(max, CutOnce(p, room, fed[|fed| - 1].end, |fed|), fed, from);
    }
  }

  /** When the rest is stored in the buffer, what is expected of the groups comes out, and where all text came from is
      known. */
  ghost predicate Told(max: nat, q: Parts, groups: Groups, fed: seq<Line>, from: int)
    requires max > 0
  {
    && Accounted(max, q.texts, q.buffer + [q.rest], groups)
    && |Prefix(q.buffer + [q.rest])| == |Prefix(q.buffer)| + |q.rest| + 1 <= max
    && Traces(q.texts, q.stops, q.cuts, q.buffer + [q.rest], "", fed, from)
  }

  lemma CutUpTold(max: nat, p: Parts, groups: Groups, fed: seq<Line>, from: int, line: Line)
    requires max > 0 && |Prefix(p.buffer)| <= max && p.rest == line.text
    requires Accounted(max, p.texts, p.buffer, groups) && (p.buffer == [] <==> groups.open == [])
    requires Traces(p.texts, p.stops, p.cuts, p.buffer, "", fed, from)
    requires EndOf(fed, from) <= line.start && Terminator(line) >= 0
    ensures Told(max, CutUp(max, p, line.end, |fed| + 1), groups.(open := groups.open + [line.text]), fed + [line],
      from)
  {
    CutUpTraces(max, p, fed, from, line);
    CutUpAccounted(max, p, groups, line.end, |fed| + 1);
  }

  /** A line is cut up and the rest of it stored: where all text came from is known. */
  lemma CutUpTraces(max: nat, p: Parts, fed: seq<Line>, from: int, line: Line)
    requires max > 0 && |Prefix(p.buffer)| <= max && Traces(p.texts, p.stops, p.cuts, p.buffer, "", fed, from)
    requires EndOf(fed, from) <= line.start && Terminator(line) >= 0 && p.rest == line.text
    ensures var q := CutUp(max, p, line.end, |fed| + 1);
      Traces(q.texts, q.stops, q.cuts, q.buffer + [q.rest], "", fed + [line], from)
  {
    var all := fed + [line];
    TracesFeed(p.texts, p.stops, p.cuts, p.buffer, fed, from, line);
    CutUpTracesOn(max, p, all, from);
    var q := CutUp(max, p, line.end, |fed| + 1);
    TracesFill(q.texts, q.stops, q.cuts, q.buffer, q.rest, all, from, |q.rest|);
    assert q.rest[..|q.rest|] == q.rest && q.rest[|q.rest|..] == "";
  }

  lemma RestIsSuffix(text: string, whole: string, cut: nat)
    requires SuffixOf(text, whole) && cut <= |text|
    ensures SuffixOf(text[cut..], whole)
  {
  }

  lemma CutText(max: nat, texts: seq<string>, buffer: seq<string>, text: string, cut: nat, target: seq<string>)
    requires max > 0 && cut <= |text| && |Prefix(buffer)| + cut == max
    requires Towards(max, texts, Prefix(buffer) + text, target)
    ensures Towards(max, texts + [Join(buffer + [text[..cut]])], text[cut..], target)
  {
    var whole := Prefix(buffer) + text;
    JoinSnoc(buffer, text[..cut]);
    assert whole[..max] == Prefix(buffer) + text[..cut] && whole[max..] == text[cut..];
    var piece, rest := [whole[..max]], Chunks(max, whole[max..]);
    assert (texts + piece) + rest == texts + (piece + rest);
  }

  /** The lines of a run follow one another in the file, each at least as long as its text. */
  ghost predicate Successive(inputs: seq<Input>, from: int)
    decreases |inputs|
  {
    if inputs == [] then true
    else if inputs[0].DeadlineIn? then Successive(inputs[1..], from)
    else
      var line := inputs[0].line;
      from <= line.start && Terminator(line) >= 0 && Successive(inputs[1..], line.end)
  }

  /** A whole run of the codec: what it sends on, and the text still in its buffer, are for each group the pieces of
      its joined lines. */
  method Run(max: nat, what: What, offset: int, inputs: seq<Input>) returns (codec: Multiline)
    requires max > 0 && Successive(inputs, offset)
    requires what == Next ==> forall i :: 0 <= i < |inputs| ==> inputs[i].LineIn?
    ensures fresh(codec) && codec.Valid() && codec.max == max && codec.begin == offset
    ensures Accounted(max, codec.texts, codec.buffer, FeedAll(what, Groups([], []), inputs))
    ensures codec.fed == LinesFed(inputs)
  {
    codec := new Multiline(max, what, offset);
    var i := 0;
    while i < |inputs|
      invariant 0 <= i <= |inputs| && fresh(codec) && codec.Valid() && codec.max == max && codec.what == what
      invariant codec.begin == offset && Ahead(what, inputs, i, codec.groups, codec.fed, offset)
    {
      NextInput(what, inputs, i, codec.groups, codec.fed, offset);
      Feeding(codec, inputs[i]);
      i := i + 1;
    }
  }

  /** What the inputs from the one numbered i on will add up to. */
  ghost predicate Ahead(what: What, inputs: seq<Input>, i: nat, g: Groups, fed: seq<Line>, from: int)
    requires i <= |inputs|
  {
    && FeedAll(what, g, inputs[i..]) == FeedAll(what, Groups([], []), inputs)
    && fed + LinesFed(inputs[i..]) == LinesFed(inputs)
    && Successive(inputs[i..], EndOf(fed, from))
  }

  function LinesFed(inputs: seq<Input>): seq<Line> {
    if inputs == [] then [] else (if inputs[0].LineIn? then [inputs[0].line] else []) + LinesFed(inputs[1..])
  }

  lemma NextInput(what: What, inputs: seq<Input>, i: nat, g: Groups, fed: seq<Line>, from: int)
    requires i < |inputs| && Ahead(what, inputs, i, g, fed, from)
    ensures var more := if inputs[i].LineIn? then [inputs[i].line] else [];
      Ahead(what, inputs, i + 1, Feed(what, g, inputs[i]), fed + more, from)
    ensures inputs[i].LineIn? ==> EndOf(fed, from) <= inputs[i].line.start && Terminator(inputs[i].line) >= 0
  {
    var rest := inputs[i..];
    var more := if rest[0].LineIn? then [rest[0].line] else [];
    assert rest[0] == inputs[i] && rest[1..] == inputs[i + 1..];
    Assoc(fed, more, LinesFed(inputs[i + 1..]));
    assert more == [] ==> fed + more == fed;
  }

  method Feeding(codec: Multiline, input: Input)
    requires codec.Valid()
    requires input.LineIn? ==> EndOf(codec.fed, codec.begin) <= input.line.start && Terminator(input.line) >= 0
    requires input.DeadlineIn? ==> codec.what == Previous
    modifies codec
    ensures codec.Valid() && codec.groups == Feed(codec.what, old(codec.groups), input)
    ensures codec.fed == old(codec.fed) + if input.LineIn? then [input.line] else []
  {
    match input {
      case LineIn(line, matched) => codec.Event(line, matched);
      case DeadlineIn => codec.Deadline();
    }
  }

  /** A line of six characters and a line feed, and a maximum of four: the offset sent on is five, so that a
      restart reads only the last of the two characters that were not sent on. */
  method CutExample() returns (codec: Multiline)
    ensures fresh(codec) && codec.Valid() && codec.fed == [Line(0, 7, "abcdef")]
    ensures codec.texts == ["abcd"] && codec.stops == [5] && codec.buffer == ["ef"]
    ensures codec.lastOffset == 5 && ReadAgain(codec.fed, codec.lastOffset) == "f"
  {
    codec := new Multiline(4, Previous, 0);
    var line := Line(0, 7, "abcdef");
    codec.Event(line, false);
    ExampleTexts(codec.texts, codec.buffer, codec.groups);
    OneEvent(codec.texts, codec.stops, codec.cuts, codec.buffer, line, 0);
    assert codec.stops[0] == codec.lastOffset;
    assert [line][..0] == [];
    assert ReadAgain([line], 5) == "" + line.text[5..];
  }

  lemma ExampleTexts(texts: seq<string>, buffer: seq<string>, groups: Groups)
    requires groups == Groups([], ["abcdef"]) && buffer != [] && Accounted(4, texts, buffer, groups)
    ensures texts == ["abcd"] && Join(buffer) == "ef"
  {
    assert Chunks(4, "abcdef") == ["abcdef"[..4]] + Chunks(4, "abcdef"[4..]);
    assert "abcdef"[..4] == "abcd" && "abcdef"[4..] == "ef";
    assert Chunks(4, "abcdef") == ["abcd", "ef"];
    assert [] + Chunks(4, "abcdef") == Chunks(4, "abcdef");
    LastOf(texts, Join(buffer), [], Chunks(4, "abcdef"));
  }
}
