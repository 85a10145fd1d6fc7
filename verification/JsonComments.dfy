/** Taking the comments out of the configuration file (lc-lib/config/json.go). */
module JsonComments {
  import opened Sequences

  // --- The grammar ---

  datatype Item = Chr(c: char) | Esc(e: char)

  /** What a file is made of. A slash takes the character behind it with it, whatever that is; and a comment
      that ends with the line takes the line's end with it. */
  datatype Token =
    | Plain(c: char)
    | Slash(after: char)
    | Quoted(quote: char, items: seq<Item>)
    | Hash(text: string, newline: char)
    | Block(text: string)

  /** How many stars a text ends in. */
  function StarRun(s: string): (n: nat)
    ensures n <= |s|
  {
    if s == [] || s[|s| - 1] != '*' then 0 else 1 + StarRun(s[..|s| - 1])
  }

  /** A slash in a block comment closes it when an odd number of stars comes before it. */
  ghost predicate StaysOpen(text: string) {
    forall i :: 0 <= i < |text| && text[i] == '/' ==> StarRun(text[..i]) % 2 == 0
  }

  ghost predicate Proper(t: Token) {
    match t
    case Plain(c) => c != '"' && c != '\'' && c != '#' && c != '/'
    case Slash(c) => c != '*'
    case Quoted(q, items) =>
      (q == '"' || q == '\'') && forall i :: 0 <= i < |items| && items[i].Chr? ==> items[i].c != q && items[i].c != '\\'
    case Hash(text, newline) =>
      (newline == '\r' || newline == '\n') && forall i :: 0 <= i < |text| ==> text[i] != '\r' && text[i] != '\n'
    case Block(text) => StaysOpen(text) && StarRun(text) % 2 == 1
  }

  ghost predicate AllProper(ts: seq<Token>) {
    forall i :: 0 <= i < |ts| ==> Proper(ts[i])
  }

  function RenderItem(item: Item): string {
    if item.Chr? then [item.c] else ['\\', item.e]
  }

  function RenderItems(items: seq<Item>): string {
    if items == [] then "" else RenderItem(items[0]) + RenderItems(items[1..])
  }

  function Render(t: Token): string {
    match t
    case Plain(c) => [c]
    case Slash(c) => ['/', c]
    case Quoted(q, items) => [q] + RenderItems(items) + [q]
    case Hash(text, newline) => "#" + text + [newline]
    case Block(text) => "/*" + text + "/"
  }

  predicate IsComment(t: Token) { t.Hash? || t.Block? }

  function RenderAll(ts: seq<Token>): string {
    if ts == [] then "" else RenderAll(ts[..|ts| - 1]) + Render(ts[|ts| - 1])
  }

  /** The file without its comments. */
  function Bodies(ts: seq<Token>): string {
    if ts == [] then ""
    else Bodies(ts[..|ts| - 1]) + if IsComment(ts[|ts| - 1]) then "" else Render(ts[|ts| - 1])
  }

  /** What comes behind the last comment. */
  function LastBody(ts: seq<Token>): string {
    if ts == [] || IsComment(ts[|ts| - 1]) then "" else LastBody(ts[..|ts| - 1]) + Render(ts[|ts| - 1])
  }

  // --- The automaton ---

  datatype State = Main | DoubleQuoted | SingleQuoted | LineComment | AfterSlash | DoubleEscape | SingleEscape
    | BlockComment | AfterStar

  /** `tail` is the part of the input that is still to be written. */
  datatype Scan = Scan(state: State, stripped: string, tail: string)

  function Next(state: State, b: char): State {
    match state
    case Main =>
      if b == '"' then DoubleQuoted else if b == '\'' then SingleQuoted
      else if b == '#' then LineComment else if b == '/' then AfterSlash else Main
    case DoubleQuoted => if b == '\\' then DoubleEscape else if b == '"' then Main else DoubleQuoted
    case SingleQuoted => if b == '\\' then SingleEscape else if b == '\'' then Main else SingleQuoted
    case LineComment => if b == '\r' || b == '\n' then Main else LineComment
    case AfterSlash => if b == '*' then BlockComment else Main
    case DoubleEscape => DoubleQuoted
    case SingleEscape => SingleQuoted
    case BlockComment => if b == '*' then AfterStar else BlockComment
    case AfterStar => if b == '/' then Main else BlockComment
  }

  predicate InComment(state: State) {
    state == LineComment || state == BlockComment || state == AfterStar
  }

  function Advance(sc: Scan, b: char): Scan {
    var next := Next(sc.state, b);
    if sc.state == Main && next == LineComment then Scan(next, sc.stripped + sc.tail, sc.tail + [b])
    else if sc.state == AfterSlash && next == BlockComment && sc.tail != [] then
      Scan(next, sc.stripped + sc.tail[..|sc.tail| - 1], sc.tail + [b])
    else if InComment(sc.state) && next == Main then Scan(next, sc.stripped, "")
    else Scan(next, sc.stripped, sc.tail + [b])
  }

  function Run(sc: Scan, s: string): Scan {
    if s == [] then sc else Advance(Run(sc, s[..|s| - 1]), s[|s| - 1])
  }

  const Start := Scan(Main, "", "")

  function Strip(s: string): string {
    var sc := Run(Start, s);
    sc.stripped + sc.tail
  }

  /** The loop over the bytes of the file. The text from s to p is still to be written. */
  method StripComments(buffer: seq<char>) returns (stripped: string)
    ensures stripped == Strip(buffer)
  {
    var s, p, state := 0, 0, 0;
    stripped := "";
    while p < |buffer|
      invariant 0 <= s <= p <= |buffer| && 0 <= state <= 8 && (state == 4 ==> s < p)
      invariant Run(Start, buffer[..p]) == Scan(StateOf(state), stripped, buffer[s..p])
    {
      RunPrefix(buffer, p);
      state, s, stripped := Turn(buffer, state, s, p, stripped);
      p := p + 1;
    }
    assert buffer[..p] == buffer;
    stripped := stripped + buffer[s..p];
  }

  lemma RunPrefix(buffer: string, p: nat)
    requires p < |buffer|
    ensures Run(Start, buffer[..p + 1]) == Advance(Run(Start, buffer[..p]), buffer[p])
  {
    assert buffer[..p + 1][..p] == buffer[..p];
  }

  /** One turn of the loop: what the automaton does with a byte. */
  method Turn(buffer: seq<char>, state: int, s: nat, p: nat, stripped: string)
    returns (next: int, start: nat, written: string)
    requires s <= p < |buffer| && 0 <= state <= 8 && (state == 4 ==> s < p)
    ensures start <= p + 1 && 0 <= next <= 8 && (next == 4 ==> start < p + 1)
    ensures Scan(StateOf(next), written, buffer[start..p + 1]) ==
      Advance(Scan(StateOf(state), stripped, buffer[s..p]), buffer[p])
  {
    var b := buffer[p];
    next, start, written := state, s, stripped;
    assert buffer[s..p + 1] == buffer[s..p] + [b];
    if state == 0 {
      if b == '"' {
        next := 1;
      } else if b == '\'' {
        next := 2;
      } else if b == '#' {
        next := 3;
        written := stripped + buffer[s..p];
      } else if b == '/' {
        next := 4;
      }
    } else if state == 1 {
      if b == '\\' {
        next := 5;
      } else if b == '"' {
        next := 0;
      }
    } else if state == 2 {
      if b == '\\' {
        next := 6;
      } else if b == '\'' {
        next := 0;
      }
    } else if state == 3 {
      if b == '\r' || b == '\n' {
        next := 0;
        start := p + 1;
      }
    } else if state == 4 {
      if b == '*' {
        next := 7;
        assert buffer[s..p][..p - s - 1] == buffer[s..p - 1];
        written := stripped + buffer[s..p - 1];
      } else {
        next := 0;
      }
    } else if state == 5 {
      next := 1;
    } else if state == 6 {
      next := 2;
    } else if state == 7 {
      if b == '*' {
        next := 8;
      }
    } else {
      if b == '/' {
        next := 0;
        start := p + 1;
      } else {
        next := 7;
      }
    }
  }

  function StateOf(n: int): State
    requires 0 <= n <= 8
  {
    [Main, DoubleQuoted, SingleQuoted, LineComment, AfterSlash, DoubleEscape, SingleEscape, BlockComment, AfterStar][n]
  }

  // --- Every file that ends outside comments and strings ---

  lemma {:induction false} RunConcat(sc: Scan, a: string, b: string)
    ensures Run(sc, a + b) == Run(Run(sc, a), b)
  {
    if b == [] {
      assert a + b == a;
    } else {
      assert (a + b)[..|a + b| - 1] == a + b[..|b| - 1];
      RunConcat(sc, a, b[..|b| - 1]);
    }
  }

  lemma RunOne(sc: Scan, b: char)
    ensures Run(sc, [b]) == Advance(sc, b)
  {
    assert [b][..0] == [];
  }

  lemma RunSnoc(sc: Scan, s: string, b: char)
    ensures Run(sc, s + [b]) == Advance(Run(sc, s), b)
  {
    assert (s + [b])[..|s|] == s;
  }

  lemma {:induction false} RunItems(sc: Scan, items: seq<Item>, q: char)
    requires q == '"' || q == '\''
    requires sc.state == if q == '"' then DoubleQuoted else SingleQuoted
    requires forall i :: 0 <= i < |items| && items[i].Chr? ==> items[i].c != q && items[i].c != '\\'
    ensures Run(sc, RenderItems(items)) == sc.(tail := sc.tail + RenderItems(items))
    decreases |items|
  {
    if items == [] {
      assert sc.tail + "" == sc.tail;
    } else {
      var first, rest := RenderItem(items[0]), RenderItems(items[1..]);
      RunConcat(sc, first, rest);
      RunItem(sc, items[0], q);
      RunItems(sc.(tail := sc.tail + first), items[1..], q);
      Assoc(sc.tail, first, rest);
    }
  }

  lemma RunItem(sc: Scan, item: Item, q: char)
    requires q == '"' || q == '\''
    requires sc.state == if q == '"' then DoubleQuoted else SingleQuoted
    requires item.Chr? ==> item.c != q && item.c != '\\'
    ensures Run(sc, RenderItem(item)) == sc.(tail := sc.tail + RenderItem(item))
  {
    if item.Chr? {
      RunOne(sc, item.c);
    } else {
      RunOne(sc, '\\');
      RunSnoc(sc, ['\\'], item.e);
      assert ['\\'] + [item.e] == RenderItem(item);
      Assoc(sc.tail, ['\\'], [item.e]);
    }
  }

  lemma {:induction false} RunLine(sc: Scan, text: string)
    requires sc.state == LineComment && forall i :: 0 <= i < |text| ==> text[i] != '\r' && text[i] != '\n'
    ensures Run(sc, text) == sc.(tail := sc.tail + text)
  {
    if text == [] {
      assert sc.tail + text == sc.tail;
    } else {
      RunLine(sc, text[..|text| - 1]);
      assert sc.tail + text == (sc.tail + text[..|text| - 1]) + [text[|text| - 1]];
    }
  }

  /** Inside a block comment, the automaton counts stars. */
  lemma {:induction false} RunBlock(sc: Scan, text: string)
    requires sc.state == BlockComment && StaysOpen(text)
    ensures Run(sc, text) ==
      Scan(if StarRun(text) % 2 == 1 then AfterStar else BlockComment, sc.stripped, sc.tail + text)
  {
    if text == [] {
      assert sc.tail + text == sc.tail;
    } else {
      var init, last := text[..|text| - 1], text[|text| - 1];
      assert forall i :: 0 <= i < |init| ==> init[..i] == text[..i];
      RunBlock(sc, init);
      assert sc.tail + text == (sc.tail + init) + [last];
    }
  }

  lemma RunToken(sc: Scan, t: Token)
    requires sc.state == Main && Proper(t)
    ensures Run(sc, Render(t)) ==
      if IsComment(t) then Scan(Main, sc.stripped + sc.tail, "") else sc.(tail := sc.tail + Render(t))
  {
    match t
    case Plain(c) => RunOne(sc, c);
    case Slash(c) => RunSlash(sc, c);
    case Quoted(q, items) => RunQuoted(sc, q, items);
    case Hash(text, newline) => RunHashLine(sc, text, newline);
    case Block(text) => RunClosedBlock(sc, text);
  }

  lemma RunSlash(sc: Scan, c: char)
    requires sc.state == Main && c != '*'
    ensures Run(sc, ['/', c]) == sc.(tail := sc.tail + ['/', c])
  {
    RunOne(sc, '/');
    RunSnoc(sc, ['/'], c);
    assert ['/'] + [c] == ['/', c];
    Assoc(sc.tail, ['/'], [c]);
  }

  lemma RunHashLine(sc: Scan, text: string, newline: char)
    requires sc.state == Main && Proper(Hash(text, newline))
    ensures Run(sc, "#" + text + [newline]) == Scan(Main, sc.stripped + sc.tail, "")
  {
    RunHash(sc, text);
    RunSnoc(sc, "#" + text, newline);
  }

  lemma RunClosedBlock(sc: Scan, text: string)
    requires sc.state == Main && Proper(Block(text))
    ensures Run(sc, "/*" + text + "/") == Scan(Main, sc.stripped + sc.tail, "")
  {
    RunOpenBlock(sc, text);
    RunSnoc(sc, "/*" + text, '/');
  }

  lemma RunHash(sc: Scan, text: string)
    requires sc.state == Main && forall i :: 0 <= i < |text| ==> text[i] != '\r' && text[i] != '\n'
    ensures Run(sc, "#" + text) == Scan(LineComment, sc.stripped + sc.tail, sc.tail + ("#" + text))
  {
    RunOne(sc, '#');
    RunConcat(sc, "#", text);
    RunLine(Advance(sc, '#'), text);
    Assoc(sc.tail, "#", text);
  }

  lemma RunOpenBlock(sc: Scan, text: string)
    requires sc.state == Main && StaysOpen(text)
    ensures Run(sc, "/*" + text) ==
      Scan(if StarRun(text) % 2 == 1 then AfterStar else BlockComment, sc.stripped + sc.tail, sc.tail + ("/*" + text))
  {
    RunOne(sc, '/');
    RunSnoc(sc, ['/'], '*');
    assert "/*" == ['/'] + ['*'];
    assert (sc.tail + ['/'])[..|sc.tail|] == sc.tail;
    Assoc(sc.tail, ['/'], ['*']);
    RunConcat(sc, "/*", text);
    RunBlock(Run(sc, "/*"), text);
    Assoc(sc.tail, "/*", text);
  }

  lemma RunQuoted(sc: Scan, q: char, items: seq<Item>)
    requires sc.state == Main && Proper(Quoted(q, items))
    ensures Run(sc, Render(Quoted(q, items))) == sc.(tail := sc.tail + Render(Quoted(q, items)))
  {
    var inside, text := Advance(sc, q), RenderItems(items);
    assert Run(sc, [q] + text) == inside.(tail := inside.tail + text) by {
      RunOne(sc, q);
      RunConcat(sc, [q], text);
      RunItems(inside, items, q);
    }
    RunSnoc(sc, [q] + text, q);
    Assoc(sc.tail, [q], text);
    Assoc(sc.tail, [q] + text, [q]);
  }

  /** What has been written by the end of the last comment. */
  function Committed(ts: seq<Token>): string {
    if ts == [] then ""
    else if IsComment(ts[|ts| - 1]) then Bodies(ts[..|ts| - 1])
    else Committed(ts[..|ts| - 1])
  }

  lemma {:induction false} BodiesInTwo(ts: seq<Token>)
    ensures Bodies(ts) == Committed(ts) + LastBody(ts)
  {
    if ts != [] {
      var init, last := ts[..|ts| - 1], ts[|ts| - 1];
      BodiesInTwo(init);
      Assoc(Committed(init), LastBody(init), if IsComment(last) then "" else Render(last));
      if IsComment(last) {
        assert Bodies(ts) == Bodies(init) == Committed(ts) && LastBody(ts) == "";
      }
    }
  }

  lemma {:induction false} RunAll(ts: seq<Token>)
    requires AllProper(ts)
    ensures Run(Start, RenderAll(ts)) == Scan(Main, Committed(ts), LastBody(ts))
  {
    if ts != [] {
      var init, last := ts[..|ts| - 1], ts[|ts| - 1];
      RunAll(init);
      RunConcat(Start, RenderAll(init), Render(last));
      RunToken(Run(Start, RenderAll(init)), last);
      BodiesInTwo(init);
    }
  }

  /** Stripping a file made of body tokens and closed comments leaves exactly the body tokens; markers of
      comments within strings are left alone. */
  lemma StripRemovesComments(ts: seq<Token>)
    requires AllProper(ts)
    ensures Strip(RenderAll(ts)) == Bodies(ts)
  {
    RunAll(ts);
    BodiesInTwo(ts);
  }

  // --- Every file ---

  ghost predicate ProperItems(q: char, items: seq<Item>) {
    forall i :: 0 <= i < |items| && items[i].Chr? ==> items[i].c != q && items[i].c != '\\'
  }

  ghost predicate OpenString(q: char, rest: string) {
    exists items :: ProperItems(q, items) && rest == [q] + RenderItems(items)
  }

  ghost predicate OpenEscape(q: char, rest: string) {
    rest != [] && rest[|rest| - 1] == '\\' && OpenString(q, rest[..|rest| - 1])
  }

  ghost predicate OpenBlock(rest: string) {
    |rest| >= 2 && rest[..2] == "/*" && StaysOpen(rest[2..])
  }

  /** The beginning of a token that the automaton is in the middle of. */
  ghost predicate Open(state: State, rest: string) {
    match state
    case Main => rest == ""
    case DoubleQuoted => OpenString('"', rest)
    case SingleQuoted => OpenString('\'', rest)
    case DoubleEscape => OpenEscape('"', rest)
    case SingleEscape => OpenEscape('\'', rest)
    case LineComment =>
      rest != [] && rest[0] == '#' && forall i :: 0 < i < |rest| ==> rest[i] != '\r' && rest[i] != '\n'
    case AfterSlash => rest == "/"
    case BlockComment => OpenBlock(rest) && StarRun(rest[2..]) % 2 == 0
    case AfterStar => OpenBlock(rest) && StarRun(rest[2..]) % 2 == 1
  }

  lemma {:induction false} RenderItemsSnoc(items: seq<Item>, item: Item)
    ensures RenderItems(items + [item]) == RenderItems(items) + RenderItem(item)
  {
    if items == [] {
      assert [] + [item] == [item] && [item][1..] == [];
      assert RenderItems([item]) == RenderItem(item) + "";
    } else {
      assert (items + [item])[0] == items[0] && (items + [item])[1..] == items[1..] + [item];
      RenderItemsSnoc(items[1..], item);
      Assoc(RenderItem(items[0]), RenderItems(items[1..]), RenderItem(item));
    }
  }

  lemma OpenStringGoesOn(q: char, rest: string, item: Item)
    requires OpenString(q, rest) && (item.Chr? ==> item.c != q && item.c != '\\')
    ensures OpenString(q, rest + RenderItem(item))
  {
    var items :| ProperItems(q, items) && rest == [q] + RenderItems(items);
    RenderItemsSnoc(items, item);
    Assoc([q], RenderItems(items), RenderItem(item));
    assert ProperItems(q, items + [item]);
  }

  lemma OpenEscapeGoesOn(q: char, rest: string, b: char)
    requires OpenEscape(q, rest)
    ensures OpenString(q, rest + [b])
  {
    OpenStringGoesOn(q, rest[..|rest| - 1], Esc(b));
    assert rest[..|rest| - 1] + RenderItem(Esc(b)) == rest + [b];
  }

  lemma OpenBlockGoesOn(rest: string, b: char)
    requires OpenBlock(rest) && (b == '/' ==> StarRun(rest[2..]) % 2 == 0)
    ensures OpenBlock(rest + [b])
    ensures StarRun((rest + [b])[2..]) == if b == '*' then StarRun(rest[2..]) + 1 else 0
  {
    var text, more := rest[2..], (rest + [b])[2..];
    assert more == text + [b] && more[..|text|] == text;
    forall i | 0 <= i < |more| && more[i] == '/' ensures StarRun(more[..i]) % 2 == 0 {
      assert more[..i] == text[..i];
    }
  }

  /** One more character leaves the token unfinished, in the state the automaton goes to. */
  lemma StillOpen(state: State, rest: string, b: char)
    requires Open(state, rest) && Next(state, b) != Main
    ensures Open(Next(state, b), rest + [b])
  {
    match state
    case Main =>
      assert rest + [b] == [b];
      if b == '"' || b == '\'' {
        assert [b] == [b] + RenderItems([]) && ProperItems(b, []);
      }
    case DoubleQuoted => StringStillOpen('"', rest, b);
    case SingleQuoted => StringStillOpen('\'', rest, b);
    case DoubleEscape => OpenEscapeGoesOn('"', rest, b);
    case SingleEscape => OpenEscapeGoesOn('\'', rest, b);
    case LineComment =>
    case AfterSlash => assert (rest + [b])[2..] == "";
    case BlockComment => OpenBlockGoesOn(rest, b);
    case AfterStar => OpenBlockGoesOn(rest, b);
  }

  lemma StringStillOpen(q: char, rest: string, b: char)
    requires OpenString(q, rest) && b != q
    ensures if b == '\\' then OpenEscape(q, rest + [b]) else OpenString(q, rest + [b])
  {
    if b == '\\' {
      assert (rest + [b])[..|rest|] == rest;
    } else {
      OpenStringGoesOn(q, rest, Chr(b));
    }
  }

  /** One more character finishes the token. */
  lemma Finished(state: State, rest: string, b: char) returns (t: Token)
    requires Open(state, rest) && Next(state, b) == Main
    ensures Proper(t) && Render(t) == rest + [b] && (IsComment(t) <==> InComment(state))
  {
    match state
    case Main => t := Plain(b);
    case DoubleQuoted =>
      var items :| ProperItems('"', items) && rest == ['"'] + RenderItems(items);
      t := Quoted('"', items);
    case SingleQuoted =>
      var items :| ProperItems('\'', items) && rest == ['\''] + RenderItems(items);
      t := Quoted('\'', items);
    case LineComment =>
      t := Hash(rest[1..], b);
      assert rest == "#" + rest[1..];
    case AfterSlash => t := Slash(b);
    case AfterStar =>
      t := Block(rest[2..]);
      assert rest == "/*" + rest[2..];
  }

  /** Where the automaton stands after some tokens and the beginning of another. */
  ghost predicate Standing(sc: Scan, ts: seq<Token>, rest: string) {
    && Open(sc.state, rest)
    && sc.tail == LastBody(ts) + rest
    && sc.stripped == if InComment(sc.state) then Bodies(ts) else Committed(ts)
  }

  lemma TokenDone(sc: Scan, before: seq<Token>, rest: string, b: char) returns (t: Token)
    requires Standing(sc, before, rest) && Next(sc.state, b) == Main
    ensures Proper(t) && Render(t) == rest + [b] && Standing(Advance(sc, b), before + [t], "")
  {
    t := Finished(sc.state, rest, b);
    assert (before + [t])[..|before|] == before;
    Assoc(LastBody(before), rest, [b]);
    assert LastBody(before + [t]) + "" == LastBody(before + [t]);
  }

  lemma TokenGrows(sc: Scan, ts: seq<Token>, rest: string, b: char)
    requires Standing(sc, ts, rest) && Next(sc.state, b) != Main
    ensures Standing(Advance(sc, b), ts, rest + [b])
  {
    StillOpen(sc.state, rest, b);
    BodiesInTwo(ts);
    Assoc(LastBody(ts), rest, [b]);
    if sc.state == Main {
      assert sc.tail == LastBody(ts);
    } else if sc.state == AfterSlash {
      assert sc.tail[..|sc.tail| - 1] == LastBody(ts);
    }
  }

  lemma {:induction false} Tokenize(s: string) returns (ts: seq<Token>, rest: string)
    ensures AllProper(ts) && s == RenderAll(ts) + rest && Standing(Run(Start, s), ts, rest)
  {
    if s == [] {
      ts, rest := [], "";
    } else {
      var init, b := s[..|s| - 1], s[|s| - 1];
      ts, rest := Tokenize(init);
      var sc := Run(Start, init);
      assert Run(Start, s) == Advance(sc, b);
      Regrouped(s, RenderAll(ts), rest, b);
      if Next(sc.state, b) == Main {
        var t := TokenDone(sc, ts, rest, b);
        RenderAllSnoc(ts, t);
        ts, rest := ts + [t], "";
      } else {
        TokenGrows(sc, ts, rest, b);
        rest := rest + [b];
      }
    }
  }

  lemma Regrouped(s: string, rendered: string, rest: string, b: char)
    requires s != [] && s[|s| - 1] == b && s[..|s| - 1] == rendered + rest
    ensures s == rendered + (rest + [b])
  {
  }

  lemma RenderAllSnoc(ts: seq<Token>, t: Token)
    ensures RenderAll(ts + [t]) + "" == RenderAll(ts) + Render(t)
  {
    assert (ts + [t])[..|ts|] == ts;
  }

  /** Any file at all is made of tokens and the beginning of one more, which is empty exactly when the automaton
      is in its main state. The result of stripping it is the tokens that are not comments, then, if the
      file ends within a comment, what comes behind the last closed comment once more, and then the
      unfinished token as it stands. Two things go wrong, each under its own condition: an unfinished
      token that is a comment comes out exactly when the file ends within one; and body text comes
      twice exactly when, besides, some stands between that comment and the one before, or the
      beginning of the file. */
  lemma StripAnything(s: string) returns (ts: seq<Token>, rest: string)
    ensures AllProper(ts) && s == RenderAll(ts) + rest && Open(Run(Start, s).state, rest)
    ensures rest == "" <==> Run(Start, s).state == Main
    ensures Strip(s) == Bodies(ts) + (if InComment(Run(Start, s).state) then LastBody(ts) else "") + rest
    ensures Strip(s) == Bodies(ts) + (if InComment(Run(Start, s).state) then "" else rest) <==>
      !InComment(Run(Start, s).state)
    ensures Strip(s) == Bodies(ts) + rest <==> !(InComment(Run(Start, s).state) && LastBody(ts) != "")
  {
    ts, rest := Tokenize(s);
    var sc := Run(Start, s);
    BodiesInTwo(ts);
    OpenIsSomething(sc.state, rest);
    if InComment(sc.state) {
      Assoc(Bodies(ts), LastBody(ts), rest);
      assert |Strip(s)| == |Bodies(ts)| + |LastBody(ts)| + |rest|;
      assert LastBody(ts) == "" ==> Bodies(ts) + LastBody(ts) == Bodies(ts);
    } else {
      Assoc(Committed(ts), LastBody(ts), rest);
      assert Bodies(ts) + "" == Bodies(ts);
    }
  }

  lemma OpenIsSomething(state: State, rest: string)
    requires Open(state, rest)
    ensures rest == "" <==> state == Main
  {
  }

  lemma Reads(s: string, p: nat, from: Scan, to: Scan)
    requires p < |s| && Run(Start, s[..p]) == from && Advance(from, s[p]) == to
    ensures Run(Start, s[..p + 1]) == to
  {
    RunPrefix(s, p);
  }

  lemma ReadsBodyAndComment(s: string)
    requires s == ['{', '}', '#', 'x']
    ensures Run(Start, s) == Scan(LineComment, "{}", "{}#x")
  {
    Reads(s, 0, Start, Scan(Main, "", "{"));
    Reads(s, 1, Scan(Main, "", "{"), Scan(Main, "", "{}"));
    Reads(s, 2, Scan(Main, "", "{}"), Scan(LineComment, "{}", "{}#"));
    Reads(s, 3, Scan(LineComment, "{}", "{}#"), Scan(LineComment, "{}", "{}#x"));
    assert s[..4] == s;
  }

  /** A last line that is a comment and has no end comes out; the body before it comes out twice. */
  lemma OpenCommentExample(body: string, comment: string)
    requires body == "{}" && comment == "#x"
    ensures Strip(comment) == comment
    ensures Strip(body + comment) == body + body + comment
  {
    Reads(comment, 0, Start, Scan(LineComment, "", "#"));
    Reads(comment, 1, Scan(LineComment, "", "#"), Scan(LineComment, "", "#x"));
    assert comment[..2] == comment;
    ReadsBodyAndComment(body + comment);
  }
}
