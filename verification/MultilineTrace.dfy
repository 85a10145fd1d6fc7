/**
 Where the events of the multiline codec (lc-lib/codecs/multiline.go) come from in the file, and what reading
 starts with again after a restart from the offset of one of them.
 */
module MultilineTrace {
  import opened Sequences

  /** A line and the offsets at which it starts and ends, its terminator included. */
  datatype Line = Line(start: int, end: int, text: string)

  /** How many bytes of terminator a line has. */
  function Terminator(line: Line): int {
    line.end - line.start - |line.text|
  }

  // --- Joined lines ---

  /** The lines joined by line feeds. */
  function Join(lines: seq<string>): string {
    if lines == [] then ""
    else if |lines| == 1 then lines[0]
    else Join(lines[..|lines| - 1]) + "\n" + lines[|lines| - 1]
  }

  /** Joined lines, as another line is to go behind them. */
  function Prefix(lines: seq<string>): string {
    if lines == [] then "" else Join(lines) + "\n"
  }

  lemma JoinSnoc(lines: seq<string>, line: string)
    ensures Join(lines + [line]) == Prefix(lines) + line
  {
    assert (lines + [line])[..|lines|] == lines;
  }

  lemma {:induction false} JoinLength(lines: seq<string>)
    requires lines != []
    ensures |Join(lines)| == |Flatten(lines)| + |lines| - 1
  {
    var init, last := lines[..|lines| - 1], lines[|lines| - 1];
    assert lines == init + [last];
    FlattenSnoc(init, last);
    JoinSnoc(init, last);
    if init != [] {
      JoinLength(init);
    }
  }

  // --- Lines in a file ---

  /** The text of all lines together. */
  function TextOf(lines: seq<Line>): string {
    if lines == [] then "" else TextOf(lines[..|lines| - 1]) + lines[|lines| - 1].text
  }

  lemma TextOfSnoc(lines: seq<Line>, line: Line)
    ensures TextOf(lines + [line]) == TextOf(lines) + line.text
  {
    assert (lines + [line])[..|lines|] == lines;
  }

  function EndOf(lines: seq<Line>, from: int): int {
    if lines == [] then from else lines[|lines| - 1].end
  }

  /** The line numbered i comes behind the one before it, and is at least as long as its text. */
  ghost predicate LineOk(lines: seq<Line>, from: int, i: nat)
    requires i < |lines|
  {
    (if i == 0 then from else lines[i - 1].end) <= lines[i].start && Terminator(lines[i]) >= 0
  }

  ghost predicate Ordered(lines: seq<Line>, from: int) {
    forall i {:trigger LineOk(lines, from, i)} :: 0 <= i < |lines| ==> LineOk(lines, from, i)
  }

  lemma OrderedSnoc(lines: seq<Line>, line: Line, from: int)
    requires Ordered(lines, from) && EndOf(lines, from) <= line.start && Terminator(line) >= 0
    ensures Ordered(lines + [line], from)
  {
    forall i | 0 <= i <= |lines| ensures LineOk(lines + [line], from, i) {
      if i < |lines| {
        assert LineOk(lines, from, i);
      }
    }
  }

  lemma OrderedInit(lines: seq<Line>, from: int)
    requires Ordered(lines, from) && lines != []
    ensures var init, last := lines[..|lines| - 1], lines[|lines| - 1];
      Ordered(init, from) && EndOf(init, from) <= last.start && Terminator(last) >= 0
  {
    var init := lines[..|lines| - 1];
    assert LineOk(lines, from, |lines| - 1);
    forall i | 0 <= i < |init| ensures LineOk(init, from, i) {
      assert LineOk(lines, from, i);
    }
  }

  // --- What events are made of ---

  /** What an event was made of: the parts of lines that were joined for it, how many lines had been read by then, and
      how much of the text of the last of them was still to come. */
  datatype Cut = Cut(parts: seq<string>, lines: nat, left: nat)

  /** The text sent on, without the line feeds that join lines. */
  function SentBy(cuts: seq<Cut>): string {
    if cuts == [] then "" else SentBy(cuts[..|cuts| - 1]) + Flatten(cuts[|cuts| - 1].parts)
  }

  lemma SentBySnoc(cuts: seq<Cut>, c: Cut)
    ensures SentBy(cuts + [c]) == SentBy(cuts) + Flatten(c.parts)
  {
    assert (cuts + [c])[..|cuts|] == cuts;
  }

  /** The offset of an event says where it stopped: so far before the end of the line it stopped in as text of
      that line was left; and `sent` is how much text had been sent on by then. */
  ghost predicate StopsAt(offset: int, sent: nat, c: Cut, fed: seq<Line>) {
    && 0 < c.lines <= |fed| && c.left <= |fed[c.lines - 1].text|
    && offset == fed[c.lines - 1].end - c.left
    && sent + c.left == |TextOf(fed[..c.lines])|
  }

  /** The event numbered i is made of these parts of the lines fed in. `stops` are the offsets of the events. */
  ghost predicate EventMade(texts: seq<string>, stops: seq<int>, cuts: seq<Cut>, fed: seq<Line>, i: nat)
    requires i < |texts| == |stops| == |cuts|
  {
    && cuts[i].parts != [] && texts[i] == Join(cuts[i].parts)
    && StopsAt(stops[i], |SentBy(cuts[..i + 1])|, cuts[i], fed)
  }

  ghost predicate Made(texts: seq<string>, stops: seq<int>, cuts: seq<Cut>, fed: seq<Line>) {
    && |texts| == |stops| == |cuts|
    && forall i {:trigger EventMade(texts, stops, cuts, fed, i)} :: 0 <= i < |cuts| ==>
      EventMade(texts, stops, cuts, fed, i)
  }

  lemma MadeMore(texts: seq<string>, stops: seq<int>, cuts: seq<Cut>, fed: seq<Line>, line: Line)
    requires Made(texts, stops, cuts, fed)
    ensures Made(texts, stops, cuts, fed + [line])
  {
    forall i | 0 <= i < |cuts| ensures EventMade(texts, stops, cuts, fed + [line], i) {
      assert EventMade(texts, stops, cuts, fed, i);
      assert (fed + [line])[..cuts[i].lines] == fed[..cuts[i].lines];
    }
  }

  lemma MadeSnoc(texts: seq<string>, stops: seq<int>, cuts: seq<Cut>, fed: seq<Line>, text: string, stop: int, c: Cut)
    requires Made(texts, stops, cuts, fed) && c.parts != [] && text == Join(c.parts)
    requires StopsAt(stop, |SentBy(cuts + [c])|, c, fed)
    ensures Made(texts + [text], stops + [stop], cuts + [c], fed)
  {
    var all := cuts + [c];
    forall i | 0 <= i < |all| ensures EventMade(texts + [text], stops + [stop], all, fed, i) {
      if i < |cuts| {
        assert EventMade(texts, stops, cuts, fed, i);
        assert all[..i + 1] == cuts[..i + 1];
      } else {
        assert all[..i + 1] == all;
      }
    }
  }

  lemma {:induction false} SentByPrefix(cuts: seq<Cut>, k: nat)
    requires k <= |cuts|
    ensures SentBy(cuts[..k]) <= SentBy(cuts)
  {
    if k < |cuts| {
      SentByPrefix(cuts[..|cuts| - 1], k);
      assert cuts[..|cuts| - 1][..k] == cuts[..k];
    } else {
      assert cuts[..k] == cuts;
    }
  }

  /** Together with what is in the buffer, and what is left of the last line, it is all of the text fed in. */
  ghost predicate Complete(cuts: seq<Cut>, buffer: seq<string>, rest: string, fed: seq<Line>) {
    SentBy(cuts) + (Flatten(buffer) + rest) == TextOf(fed)
  }

  ghost predicate Traces(
    texts: seq<string>, stops: seq<int>, cuts: seq<Cut>, buffer: seq<string>, rest: string, fed: seq<Line>, from: int)
  {
    Made(texts, stops, cuts, fed) && Complete(cuts, buffer, rest, fed) && Ordered(fed, from)
  }

  lemma TracesNothing(from: int)
    ensures Traces([], [], [], [], "", [], from)
  {
  }

  lemma TracesFeed(
    texts: seq<string>, stops: seq<int>, cuts: seq<Cut>, buffer: seq<string>, fed: seq<Line>, from: int, line: Line)
    requires Traces(texts, stops, cuts, buffer, "", fed, from) && EndOf(fed, from) <= line.start
      && Terminator(line) >= 0
    ensures Traces(texts, stops, cuts, buffer, line.text, fed + [line], from)
  {
    MadeMore(texts, stops, cuts, fed, line);
    OrderedSnoc(fed, line, from);
    TextOfSnoc(fed, line);
    assert Flatten(buffer) + "" == Flatten(buffer);
    Assoc(SentBy(cuts), Flatten(buffer), line.text);
  }

  lemma TracesFill(
    texts: seq<string>, stops: seq<int>, cuts: seq<Cut>, buffer: seq<string>, rest: string, fed: seq<Line>, from: int,
    k: nat)
    requires Traces(texts, stops, cuts, buffer, rest, fed, from) && k <= |rest|
    ensures Traces(texts, stops, cuts, buffer + [rest[..k]], rest[k..], fed, from)
  {
    FlattenSnoc(buffer, rest[..k]);
    Assoc(Flatten(buffer), rest[..k], rest[k..]);
    assert rest[..k] + rest[k..] == rest;
  }

  lemma TracesFlush(
    texts: seq<string>, stops: seq<int>, cuts: seq<Cut>, buffer: seq<string>, rest: string, fed: seq<Line>, from: int)
    requires Traces(texts, stops, cuts, buffer, rest, fed, from) && buffer != [] && fed != []
    requires |rest| <= |fed[|fed| - 1].text|
    ensures Traces(texts + [Join(buffer)], stops + [fed[|fed| - 1].end - |rest|], cuts + [Cut(buffer, |fed|, |rest|)],
                   [], rest, fed, from)
  {
    var c := Cut(buffer, |fed|, |rest|);
    SentBySnoc(cuts, c);
    Assoc(SentBy(cuts), Flatten(buffer), rest);
    assert Flatten<char>([]) + rest == rest;
    assert fed[..|fed|] == fed;
    MadeSnoc(texts, stops, cuts, fed, Join(buffer), fed[|fed| - 1].end - |rest|, c);
  }

  // --- Reading again ---

  /** The part of a line's text that is read when reading starts at the offset. */
  function Again(line: Line, offset: int): string {
    if line.end <= offset then ""
    else if offset <= line.start then line.text
    else if offset - line.start <= |line.text| then line.text[offset - line.start..]
    else ""
  }

  /** All text that is read when reading starts at the offset. */
  function ReadAgain(lines: seq<Line>, offset: int): string {
    if lines == [] then "" else ReadAgain(lines[..|lines| - 1], offset) + Again(lines[|lines| - 1], offset)
  }

  lemma {:induction false} NothingAgain(lines: seq<Line>, from: int, offset: int)
    requires Ordered(lines, from) && EndOf(lines, from) <= offset
    ensures ReadAgain(lines, offset) == ""
  {
    if lines != [] {
      OrderedInit(lines, from);
      NothingAgain(lines[..|lines| - 1], from, offset);
    }
  }

  lemma {:induction false} EverythingAgain(lines: seq<Line>, from: int)
    requires Ordered(lines, from)
    ensures ReadAgain(lines, from) == TextOf(lines) && from <= EndOf(lines, from)
  {
    if lines != [] {
      var last := lines[|lines| - 1];
      OrderedInit(lines, from);
      EverythingAgain(lines[..|lines| - 1], from);
      assert last.text == "" || Again(last, from) == last.text;
    }
  }

  /** The text behind a point in the line numbered `count`, with `left` of that line's text to come. */
  function Behind(lines: seq<Line>, count: nat, left: nat): string
    requires 0 < count <= |lines| && left <= |lines[count - 1].text|
  {
    var text := lines[count - 1].text;
    if count == |lines| then text[|text| - left..]
    else Behind(lines[..|lines| - 1], count, left) + lines[|lines| - 1].text
  }

  lemma {:induction false} BehindIsSuffix(lines: seq<Line>, count: nat, left: nat)
    requires 0 < count <= |lines| && left <= |lines[count - 1].text|
    ensures var k := |TextOf(lines[..count])| - left;
      0 <= k <= |TextOf(lines)| && TextOf(lines)[k..] == Behind(lines, count, left)
  {
    var init, last := lines[..|lines| - 1], lines[|lines| - 1];
    if count == |lines| {
      assert lines[..count] == lines;
      var a, text := TextOf(init), last.text;
      assert (a + text)[|a| + |text| - left..] == text[|text| - left..];
    } else {
      assert lines[..count] == init[..count];
      BehindIsSuffix(init, count, left);
      SuffixOfLonger(TextOf(init), last.text, |TextOf(lines[..count])| - left);
    }
  }

  lemma SuffixOfLonger(a: string, b: string, k: nat)
    requires k <= |a|
    ensures (a + b)[k..] == a[k..] + b
  {
  }

  /** What is read again, `again`, is what is to come, `behind`, but for as many bytes as the terminator has. */
  ghost predicate Lacks(again: string, behind: string, left: nat, terminator: int) {
    && |again| == |behind| - Min(left, terminator)
    && (left == 0 || terminator == 0 ==> again == behind)
  }

  /** A restart from `left` bytes before the end of a line reads what is behind the point with `left` bytes of the
      line's text to come, but for as many bytes as the terminator has. */
  lemma {:induction false} ReadAgainBehind(lines: seq<Line>, from: int, count: nat, left: nat)
    requires Ordered(lines, from) && 0 < count <= |lines| && left <= |lines[count - 1].text|
    ensures var line := lines[count - 1];
      && Terminator(line) >= 0 && line.end - left <= EndOf(lines, from)
      && Lacks(ReadAgain(lines, line.end - left), Behind(lines, count, left), left, Terminator(line))
  {
    var init, last := lines[..|lines| - 1], lines[|lines| - 1];
    assert lines == init + [last];
    OrderedInit(lines, from);
    if count == |lines| {
      BehindHere(init, last, from, left);
    } else {
      ReadAgainBehind(init, from, count, left);
      BehindFurther(init, last, lines[count - 1].end - left, count, left, Terminator(lines[count - 1]));
    }
  }

  lemma ReadAgainSnoc(init: seq<Line>, last: Line, offset: int)
    ensures ReadAgain(init + [last], offset) == ReadAgain(init, offset) + Again(last, offset)
  {
    assert (init + [last])[..|init|] == init;
  }

  lemma BehindSnoc(init: seq<Line>, last: Line, count: nat, left: nat)
    requires 0 < count <= |init| + 1 && left <= |(init + [last])[count - 1].text|
    ensures Behind(init + [last], count, left) ==
      if count == |init| + 1 then last.text[|last.text| - left..] else Behind(init, count, left) + last.text
  {
    assert (init + [last])[..|init|] == init;
  }

  lemma BehindHere(init: seq<Line>, last: Line, from: int, left: nat)
    requires left <= |last.text| && Ordered(init, from) && EndOf(init, from) <= last.start && Terminator(last) >= 0
    ensures Lacks(ReadAgain(init + [last], last.end - left), Behind(init + [last], |init| + 1, left), left,
      Terminator(last))
  {
    AgainAt(last, left);
    NothingAgain(init, from, last.end - left);
    ReadAgainSnoc(init, last, last.end - left);
    BehindSnoc(init, last, |init| + 1, left);
    assert "" + Again(last, last.end - left) == Again(last, last.end - left);
  }

  lemma BehindFurther(init: seq<Line>, last: Line, offset: int, count: nat, left: nat, terminator: int)
    requires 0 < count <= |init| && left <= |init[count - 1].text| && offset <= last.start && Terminator(last) >= 0
    requires Lacks(ReadAgain(init, offset), Behind(init, count, left), left, terminator)
    ensures Lacks(ReadAgain(init + [last], offset), Behind(init + [last], count, left), left, terminator)
  {
    AgainWhole(last, offset);
    ReadAgainSnoc(init, last, offset);
    BehindSnoc(init, last, count, left);
    LacksMore(ReadAgain(init, offset), Behind(init, count, left), left, terminator, last.text);
  }

  lemma LacksMore(again: string, behind: string, left: nat, terminator: int, more: string)
    requires Lacks(again, behind, left, terminator)
    ensures Lacks(again + more, behind + more, left, terminator)
  {
  }

  lemma AgainAt(line: Line, left: nat)
    requires left <= |line.text| && Terminator(line) >= 0
    ensures line.start <= line.end - left
    ensures Lacks(Again(line, line.end - left), line.text[|line.text| - left..], left, Terminator(line))
  {
  }

  lemma AgainWhole(line: Line, offset: int)
    requires offset <= line.start && Terminator(line) >= 0
    ensures Again(line, offset) == line.text
  {
  }

  /** A restart from the offset of an event reads exactly the text that this event and those before it did not send on
      if, and only if, the event stopped at the end of a line's text, or that line has no
      terminator. Otherwise the text that is read lacks as many bytes as the terminator has, or as
      were left. */
  lemma RestartFrom(
    texts: seq<string>, stops: seq<int>, cuts: seq<Cut>, buffer: seq<string>, fed: seq<Line>, from: int, i: nat)
    requires Traces(texts, stops, cuts, buffer, "", fed, from) && i < |texts|
    ensures |cuts| == |stops| == |texts| && 0 < cuts[i].lines <= |fed| && texts[i] == Join(cuts[i].parts)
    ensures SentBy(cuts[..i + 1]) <= TextOf(fed)
    ensures var unsent := TextOf(fed)[|SentBy(cuts[..i + 1])|..];
      var t := Terminator(fed[cuts[i].lines - 1]);
      && (ReadAgain(fed, stops[i]) == unsent <==> cuts[i].left == 0 || t == 0)
      && |unsent| - |ReadAgain(fed, stops[i])| == Min(cuts[i].left, t)
  {
    assert EventMade(texts, stops, cuts, fed, i);
    SentByPrefix(cuts, i + 1);
    PrefixOfWhole(SentBy(cuts[..i + 1]), SentBy(cuts), Flatten(buffer) + "", TextOf(fed));
    RestartAt(fed, from, cuts[i], stops[i], |SentBy(cuts[..i + 1])|);
  }

  lemma RestartAt(fed: seq<Line>, from: int, c: Cut, offset: int, sent: nat)
    requires Ordered(fed, from) && StopsAt(offset, sent, c, fed) && sent <= |TextOf(fed)|
    ensures var unsent, t := TextOf(fed)[sent..], Terminator(fed[c.lines - 1]);
      && (ReadAgain(fed, offset) == unsent <==> c.left == 0 || t == 0)
      && |unsent| - |ReadAgain(fed, offset)| == Min(c.left, t)
  {
    BehindIsSuffix(fed, c.lines, c.left);
    ReadAgainBehind(fed, from, c.lines, c.left);
    LacksNothing(ReadAgain(fed, offset), Behind(fed, c.lines, c.left), c.left, Terminator(fed[c.lines - 1]));
  }

  lemma LacksNothing(again: string, behind: string, left: nat, terminator: int)
    requires Lacks(again, behind, left, terminator) && terminator >= 0
    ensures again == behind <==> left == 0 || terminator == 0
    ensures |behind| - |again| == Min(left, terminator)
  {
  }

  lemma PrefixOfWhole(a: string, b: string, c: string, whole: string)
    requires a <= b && b + c == whole
    ensures a <= whole
  {
  }

  /** One event of a single line: where it stopped follows from how long it is. */
  lemma OneEvent(texts: seq<string>, stops: seq<int>, cuts: seq<Cut>, buffer: seq<string>, line: Line, from: int)
    requires Traces(texts, stops, cuts, buffer, "", [line], from) && |texts| == 1 && buffer != []
    requires |texts[0]| + |Join(buffer)| == |line.text|
    ensures |buffer| == 1 && Flatten(buffer) == Join(buffer) == buffer[0]
    ensures stops == [line.end - |Join(buffer)|]
  {
    var parts := cuts[0].parts;
    assert EventMade(texts, stops, cuts, [line], 0);
    assert cuts[..1] == cuts && [line][..1] == [line] && cuts[..0] == [] && [line][..0] == [];
    assert SentBy(cuts) == SentBy([]) + Flatten(parts) == Flatten(parts);
    assert TextOf([line]) == TextOf([]) + line.text == line.text;
    JoinLength(parts);
    JoinLength(buffer);
    assert Flatten(buffer) + "" == Flatten(buffer);
    assert |Flatten(parts)| + |Flatten(buffer)| == |line.text|;
    assert buffer == [buffer[0]];
  }
}
