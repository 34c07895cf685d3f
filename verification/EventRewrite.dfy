/** Rewriting one event of a stream, and what a client that follows section 9.2.6 of the
    WHATWG HTML standard reads from the stream before and after. */
module EventRewrite {
  import opened Sequences
  import opened EventFraming

  // ---- Lines and fields ----

  predicate IsEol(c: char) {
    c == '\r' || c == '\n'
  }

  predicate OneLine(s: string) {
    forall c | c in s :: !IsEol(c)
  }

  /** The position of the first line end character, or the length. */
  function FirstEol(s: string): (i: nat)
    ensures i <= |s| && OneLine(s[..i])
    ensures i < |s| ==> IsEol(s[i])
  {
    if s == "" || IsEol(s[0]) then 0 else 1 + FirstEol(s[1..])
  }

  /** A text cut at every CRLF, LF and bare CR. */
  function Lines(s: string): (ls: seq<string>)
    ensures ls != [] && forall l | l in ls :: OneLine(l)
    decreases |s|
  {
    var i := FirstEol(s);
    if i == |s| then
      assert s[..i] == s;
      [s]
    else [s[..i]] + Lines(s[i + LineEnd(s, i)..])
  }

  function Join(parts: seq<string>): string {
    if parts == [] then ""
    else if |parts| == 1 then parts[0]
    else parts[0] + "\n" + Join(parts[1..])
  }

  predicate IsComment(line: string) {
    line != "" && line[0] == ':'
  }

  function Colon(line: string): (i: nat)
    ensures i <= |line|
  {
    if line == "" || line[0] == ':' then 0 else 1 + Colon(line[1..])
  }

  function FieldOf(line: string): string {
    line[..Colon(line)]
  }

  /** What follows the colon, less one space. */
  function ValueOf(line: string): string {
    var i := Colon(line);
    var value := if i == |line| then "" else line[i + 1..];
    if value != "" && value[0] == ' ' then value[1..] else value
  }

  predicate IsData(line: string) {
    !IsComment(line) && FieldOf(line) == "data"
  }

  predicate IsOther(line: string) {
    line != "" && !IsComment(line) && FieldOf(line) != "data"
  }

  function DataOf(lines: seq<string>): seq<string> {
    if lines == [] then []
    else (if IsData(lines[0]) then [ValueOf(lines[0])] else []) + DataOf(lines[1..])
  }

  function RestOf(lines: seq<string>): seq<string> {
    if lines == [] then []
    else (if IsOther(lines[0]) then [lines[0]] else []) + RestOf(lines[1..])
  }

  // ---- Rewriting ----

  /** What became of an event's payload: kept as it was, replaced by another JSON text, or
      found not to be JSON and replaced by a refusal. */
  datatype Outcome = Unchanged | Replaced(body: string) | Unreadable(body: string)

  /** A replacement is JSON text, which escapes every line end. */
  predicate Writable(o: Outcome) {
    o.Unchanged? || OneLine(o.body)
  }

  function Rewrite(block: string, o: Outcome): string {
    if DataOf(Lines(block)) == [] then block
    else match o
      case Unchanged => block
      case Replaced(body) => Join(RestOf(Lines(block)) + ["data: " + body])
      case Unreadable(body) => Join(["event: message", "data: " + body])
  }

  /** One pass over the lines, collecting the payload's and the others. */
  method FilterEvent(block: string, transform: string -> Outcome) returns (text: string)
    ensures text == Rewrite(block, transform(Join(DataOf(Lines(block)))))
  {
    var lines := Lines(block);
    var data, rest := [], [];
    for k := 0 to |lines|
      invariant data == DataOf(lines[..k]) && rest == RestOf(lines[..k])
    {
      var line := lines[k];
      FieldsAppend(lines[..k], [line]);
      assert lines[..k + 1] == lines[..k] + [line];
      OneField(line);
      if line != "" && line[0] == ':' { continue; }
      var separator := Colon(line);
      if line[..separator] != "data" {
        if |line| > 0 { rest := rest + [line]; }
        continue;
      }
      var value := if separator == |line| then "" else line[separator + 1..];
      data := data + [if value != "" && value[0] == ' ' then value[1..] else value];
    }
    assert lines[..|lines|] == lines;
    if data == [] { return block; }
    match transform(Join(data)) {
      case Unchanged => text := block;
      case Replaced(body) => text := Join(rest + ["data: " + body]);
      case Unreadable(body) => text := Join(["event: message", "data: " + body]);
    }
  }

  lemma OneField(line: string)
    ensures DataOf([line]) == if IsData(line) then [ValueOf(line)] else []
    ensures RestOf([line]) == if IsOther(line) then [line] else []
  {
    assert DataOf([line][1..]) == [] && RestOf([line][1..]) == [];
  }

  lemma {:induction false} FieldsAppend(a: seq<string>, b: seq<string>)
    ensures DataOf(a + b) == DataOf(a) + DataOf(b)
    ensures RestOf(a + b) == RestOf(a) + RestOf(b)
  {
    if a == [] {
      assert a + b == b;
    } else {
      assert (a + b)[1..] == a[1..] + b;
      FieldsAppend(a[1..], b);
    }
  }

  // ---- The client, as the standard has it ----

  /** The data buffer and the messages dispatched so far. */
  datatype Client = Client(buffer: string, messages: seq<string>)

  function ReadLine(c: Client, line: string): Client {
    if line == "" then
      if c.buffer == "" then c else Client("", c.messages + [c.buffer[..|c.buffer| - 1]])
    else if IsData(line) then c.(buffer := c.buffer + ValueOf(line) + "\n")
    else c
  }

  function ReadLines(c: Client, lines: seq<string>): Client
    decreases |lines|
  {
    if lines == [] then c else ReadLines(ReadLine(c, lines[0]), lines[1..])
  }

  /** The lines of a text that a line end closes. What follows the last one is not a line
      yet, and the end of the stream does not make it one. */
  function ClosedLines(text: string): seq<string> {
    Lines(text)[..|Lines(text)| - 1]
  }

  /** The messages a client dispatches from a whole stream. An event with no blank line
      after it is discarded. */
  function Dispatched(text: string): seq<string> {
    ReadLines(Client("", []), ClosedLines(text)).messages
  }

  /** An event's message, when it has one. */
  function MessageOf(block: string): seq<string> {
    var data := DataOf(Lines(block));
    if data == [] then [] else [Join(data)]
  }

  function Messages(events: seq<Event>): seq<string> {
    if events == [] then [] else MessageOf(events[0].block) + Messages(events[1..])
  }

  // ---- Cutting a text at a line end cuts its lines ----

  lemma {:induction false} FirstEolIn(a: string, b: string)
    ensures FirstEol(a + b) == if OneLine(a) then |a| + FirstEol(b) else FirstEol(a)
  {
    if a == "" {
      assert a + b == b;
    } else {
      assert (a + b)[1..] == a[1..] + b;
      assert OneLine(a) <==> !IsEol(a[0]) && OneLine(a[1..]);
      FirstEolIn(a[1..], b);
    }
  }

  lemma OneLineUpToEol(s: string)
    ensures FirstEol(s) == |s| <==> OneLine(s)
  {
    if FirstEol(s) < |s| { assert s[FirstEol(s)] in s; }
    assert s[..|s|] == s;
  }

  /** `end` is one whole line end where it stands between `a` and `b`. */
  predicate CutsAt(a: string, end: string, b: string) {
    && (end == "\r\n" || end == "\n" || (end == "\r" && !(b != "" && b[0] == '\n')))
    && !(a != "" && a[|a| - 1] == '\r' && end[0] == '\n')
  }

  lemma EolIsLineEnd(s: string, i: nat)
    ensures i < |s| && IsEol(s[i]) ==> LineEnd(s, i) > 0
  {}

  lemma UnfoldLines(s: string)
    ensures OneLine(s) ==> FirstEol(s) == |s| && Lines(s) == [s]
    ensures !OneLine(s) ==>
              var i := FirstEol(s);
              var n := i + LineEnd(s, i);
              i < n <= |s| && Lines(s) == [s[..i]] + Lines(s[n..])
  {
    OneLineUpToEol(s);
    EolIsLineEnd(s, FirstEol(s));
    LinesAre(s);
    hide Lines, FirstEol, OneLine, LineEnd, IsEol;
  }

  lemma LinesAre(s: string)
    ensures var i := FirstEol(s);
            Lines(s) == if i == |s| then [s] else [s[..i]] + Lines(s[i + LineEnd(s, i)..])
  {
    hide FirstEol;
  }

  lemma {:induction false} LinesCut(a: string, end: string, b: string)
    requires CutsAt(a, end, b)
    ensures Lines(a + end + b) == Lines(a) + Lines(b)
    decreases |a|
  {
    hide Lines, FirstEol;
    if OneLine(a) {
      CutAfterOneLine(a, end, b);
      UnfoldLines(a);
    } else {
      UnfoldLines(a);
      var n := FirstEol(a) + LineEnd(a, FirstEol(a));
      CutInside(a, end, b);
      LinesCut(a[n..], end, b);
    }
  }

  lemma CutAfterOneLine(a: string, end: string, b: string)
    requires CutsAt(a, end, b) && OneLine(a)
    ensures Lines(a + end + b) == [a] + Lines(b)
  {
    hide Lines, FirstEol;
    var whole := a + end + b;
    FirstEolIn(a, end + b);
    assert whole == a + (end + b);
    assert end[0] in whole;
    UnfoldLines(whole);
    assert FirstEol(end + b) == 0 by { StartsWithEol(end + b); }
    assert LineEnd(whole, |a|) == |end|;
    assert whole[..|a|] == a && whole[|a| + |end|..] == b;
  }

  lemma StartsWithEol(s: string)
    requires s != "" && IsEol(s[0])
    ensures FirstEol(s) == 0
  {}

  /** The first line of `a` is the first line of the whole, and the rest is cut the same. */
  lemma CutInside(a: string, end: string, b: string)
    requires CutsAt(a, end, b) && !OneLine(a)
    ensures var i := FirstEol(a);
            var n := i + LineEnd(a, i);
            && i < n <= |a|
            && Lines(a + end + b) == [a[..i]] + Lines(a[n..] + end + b)
            && CutsAt(a[n..], end, b)
  {
    hide Lines, FirstEol, LineEnd, CutsAt, OneLine;
    var i := FirstEol(a);
    FirstEolIn(a, end + b);
    UnfoldLines(a);
    var n := i + LineEnd(a, i);
    LineEndInside(a, end, b, i);
    Inside(a, end, b, i, n);
    CutsInside(a, end, b, n);
    UnfoldLines(a + end + b);
  }

  lemma Inside(a: string, end: string, b: string, i: nat, n: nat)
    requires i < n <= |a| && IsEol(a[i])
    ensures a + end + b == a + (end + b)
    ensures !OneLine(a + end + b)
    ensures (a + end + b)[..i] == a[..i] && (a + end + b)[n..] == a[n..] + end + b
  {
    assert (a + end + b)[i] in a + end + b;
  }

  lemma CutsInside(a: string, end: string, b: string, n: nat)
    requires CutsAt(a, end, b) && n <= |a|
    ensures CutsAt(a[n..], end, b)
  {}

  lemma LineEndInside(a: string, end: string, b: string, i: nat)
    requires CutsAt(a, end, b) && i < |a|
    ensures LineEnd(a + end + b, i) == LineEnd(a, i)
  {}

  // ---- One framed event ----

  /** A block as the splitter leaves it: no event end inside, and no line end last. */
  predicate Solid(block: string) {
    (block == "" || !IsEol(block[|block| - 1])) && NoEnd(block)
  }

  /** Two line ends. */
  predicate IsEnd(end: string) {
    EventEnd(end, 0) == |end| > 0
  }

  /** Events that stay apart when joined: solid blocks, whole ends, and no bare CR next to
      an LF that would make it a CRLF. */
  predicate Framed(events: seq<Event>, tail: string) {
    events == [] ||
    (&& Solid(events[0].block) && IsEnd(events[0].end)
     && Apart(events[0].end, Text(events[1..]) + tail)
     && Framed(events[1..], tail))
  }

  predicate Apart(end: string, next: string) {
    end != "" && end[|end| - 1] == '\r' ==> next == "" || next[0] != '\n'
  }

  /** No event end anywhere. */
  predicate NoEnd(s: string) {
    forall p: nat | p < |s| :: EventEnd(s, p) == 0
  }

  /** Without an event end, only the first line can be blank, or what follows the last. */
  lemma {:induction false} OnlyFirstIsBlank(s: string, k: nat)
    requires NoEnd(s) && 0 < k < |Lines(s)|
    requires k == |Lines(s)| - 1 ==> IsEol(s[|s| - 1]) == false
    ensures Lines(s)[k] != ""
    decreases |s|
  {
    hide Lines, FirstEol, EventEnd;
    UnfoldLines(s);
    var i := FirstEol(s);
    var n := i + LineEnd(s, i);
    NoEndSuffix(s, n);
    UnfoldLines(s[n..]);
    if n < |s| {
      AfterLine(s, i);
      if k > 1 { OnlyFirstIsBlank(s[n..], k - 1); }
    }
  }

  /** After a line end comes a character that is not one. */
  lemma AfterLine(s: string, i: nat)
    requires NoEnd(s) && LineEnd(s, i) > 0 && i + LineEnd(s, i) < |s|
    ensures var n := i + LineEnd(s, i);
            !IsEol(s[n]) && FirstEol(s[n..]) > 0
  {
    assert EventEnd(s, i) == 0;
  }

  lemma NoEndSuffix(s: string, n: nat)
    requires NoEnd(s) && n <= |s|
    ensures NoEnd(s[n..])
  {
    forall p: nat | p < |s[n..]| ensures EventEnd(s[n..], p) == 0 {
      EventEndOfSuffix(s, n, p);
    }
  }

  function Buffer(data: seq<string>): string {
    if data == [] then "" else data[0] + "\n" + Buffer(data[1..])
  }

  lemma {:induction false} BufferIsJoin(data: seq<string>)
    requires data != []
    ensures Buffer(data) == Join(data) + "\n"
  {
    if |data| > 1 { BufferIsJoin(data[1..]); }
  }

  lemma {:induction false} ReadLinesAppend(c: Client, a: seq<string>, b: seq<string>)
    ensures ReadLines(c, a + b) == ReadLines(ReadLines(c, a), b)
    decreases |a|
  {
    if a == [] {
      assert a + b == b;
    } else {
      assert (a + b)[1..] == a[1..] + b;
      ReadLinesAppend(ReadLine(c, a[0]), a[1..], b);
    }
  }

  lemma Buffered(before: string, value: string, more: seq<string>)
    ensures before + Buffer([value] + more) == before + value + "\n" + Buffer(more)
  {
    assert ([value] + more)[1..] == more;
    assert Buffer([value] + more) == value + "\n" + Buffer(more);
  }

  /** Lines that are not blank only fill the buffer. */
  lemma {:induction false} ReadFilled(c: Client, lines: seq<string>)
    requires forall l | l in lines :: l != ""
    ensures ReadLines(c, lines) == Client(c.buffer + Buffer(DataOf(lines)), c.messages)
    decreases |lines|
  {
    hide IsData, ValueOf;
    if lines == [] {
      assert c.buffer + "" == c.buffer;
    } else {
      assert lines[0] in lines;
      assert forall l | l in lines[1..] :: l in lines;
      var next := ReadLine(c, lines[0]);
      ReadFilled(next, lines[1..]);
      if IsData(lines[0]) {
        var value := ValueOf(lines[0]);
        assert DataOf(lines) == [value] + DataOf(lines[1..]);
        Buffered(c.buffer, value, DataOf(lines[1..]));
      } else {
        assert DataOf(lines) == DataOf(lines[1..]);
      }
    }
  }

  /** A solid block followed by a blank line dispatches its message and nothing else. */
  lemma ReadBlock(block: string, messages: seq<string>)
    requires Solid(block)
    ensures ReadLines(Client("", messages), Lines(block) + [""])
            == Client("", messages + MessageOf(block))
  {
    var lines := Lines(block);
    var start := Client("", messages);
    ReadLinesAppend(start, lines, [""]);
    forall l | l in lines[1..] ensures l != "" {
      var k :| 0 < k < |lines| && lines[k] == l;
      OnlyFirstIsBlank(block, k);
    }
    if lines[0] == "" {
      assert ReadLines(start, lines) == ReadLines(start, lines[1..]);
      ReadFilled(start, lines[1..]);
      assert DataOf(lines) == DataOf(lines[1..]);
    } else {
      assert lines == [lines[0]] + lines[1..];
      ReadFilled(start, lines);
    }
    var data := DataOf(lines);
    var filled := ReadLines(start, lines);
    assert filled == Client(Buffer(data), messages);
    if data == [] {
      assert messages + [] == messages;
    } else {
      BufferIsJoin(data);
      assert (Join(data) + "\n")[..|Join(data)|] == Join(data);
    }
  }

  /** The lines of an event and what follows: its own, a blank one, and the others. */
  lemma LinesOfEvent(block: string, end: string, more: string)
    requires Solid(block) && IsEnd(end)
    requires Apart(end, more)
    ensures Lines(block + end + more) == Lines(block) + [""] + Lines(more)
  {
    hide Lines, Solid;
    var n := LineEnd(end, 0);
    var first, second := end[..n], end[n..];
    assert end == first + second;
    EndIsTwoLineEnds(end);
    SolidEnds(block);
    assert block + end + more == block + first + (second + more);
    LinesCut(block, first, second + more);
    LinesCut("", second, more);
    assert "" + second + more == second + more;
    UnfoldLines("");
  }

  lemma EndIsTwoLineEnds(end: string)
    requires IsEnd(end)
    ensures var n := LineEnd(end, 0);
            && 0 < n < |end|
            && end[..n] in {"\r\n", "\r", "\n"} && end[n..] in {"\r\n", "\r", "\n"}
            && (end[n - 1] == '\r' ==> end[n] != '\n')
  {
    var n := LineEnd(end, 0);
    assert LineEnd(end, n) == |end| - n;
    OneEnd(end[..n], n);
    LineEndOfSuffix(end, n, 0);
    OneEnd(end[n..], |end| - n);
  }

  lemma OneEnd(s: string, n: nat)
    requires |s| == n && LineEnd(s, 0) == n > 0
    ensures s in {"\r\n", "\r", "\n"}
  {
    if n == 2 {
      assert s == "\r\n";
    } else {
      assert s == [s[0]];
    }
  }

  lemma SolidEnds(block: string)
    requires Solid(block)
    ensures block == "" || !IsEol(block[|block| - 1])
  {}

  /** A framed stream is read event by event. */
  lemma {:induction false} ReadFramed(events: seq<Event>, tail: string, messages: seq<string>)
    requires Framed(events, tail)
    ensures ReadLines(Client("", messages), ClosedLines(Text(events) + tail))
            == ReadLines(Client("", messages + Messages(events)), ClosedLines(tail))
    decreases |events|
  {
    if events == [] {
      assert "" + tail == tail;
      assert messages + [] == messages;
    } else {
      hide Lines, ClosedLines, Solid, ReadLines, IsEnd, MessageOf, Text, Messages;
      var e := events[0];
      var next := Text(events[1..]) + tail;
      TakeEvent(events, tail, messages);
      ReadEvent(e.block, e.end, next, messages);
      ReadFramed(events[1..], tail, messages + MessageOf(e.block));
    }
  }

  lemma TakeEvent(events: seq<Event>, tail: string, messages: seq<string>)
    requires events != []
    ensures Text(events) + tail == events[0].block + events[0].end + (Text(events[1..]) + tail)
    ensures messages + MessageOf(events[0].block) + Messages(events[1..]) == messages + Messages(events)
  {
    var e, more := events[0], Text(events[1..]);
    hide MessageOf;
    assert Text(events) == e.block + e.end + more;
    hide Text;
    Associate(e.block + e.end, more, tail);
    Associate(messages, MessageOf(e.block), Messages(events[1..]));
  }

  lemma ReadEvent(block: string, end: string, next: string, messages: seq<string>)
    requires Solid(block) && IsEnd(end) && Apart(end, next)
    ensures ReadLines(Client("", messages), ClosedLines(block + end + next))
            == ReadLines(Client("", messages + MessageOf(block)), ClosedLines(next))
  {
    hide Lines, Solid, ReadLines, IsEnd, MessageOf;
    LinesOfEvent(block, end, next);
    assert ClosedLines(block + end + next) == (Lines(block) + [""]) + ClosedLines(next);
    ReadLinesAppend(Client("", messages), Lines(block) + [""], ClosedLines(next));
    ReadBlock(block, messages);
  }

  /** Messages already dispatched stay in front. */
  lemma {:induction false} ReadAfter(c: Client, lines: seq<string>, before: seq<string>)
    ensures ReadLines(Client(c.buffer, before + c.messages), lines).messages
            == before + ReadLines(c, lines).messages
    decreases |lines|
  {
    if lines != [] {
      hide IsData, ValueOf;
      var next := ReadLine(c, lines[0]);
      assert ReadLine(Client(c.buffer, before + c.messages), lines[0])
          == Client(next.buffer, before + next.messages);
      ReadAfter(next, lines[1..], before);
    }
  }

  /** A client reads a framed stream as its events' messages, then whatever the tail holds. */
  lemma DispatchedFramed(events: seq<Event>, tail: string)
    requires Framed(events, tail)
    ensures Dispatched(Text(events) + tail) == Messages(events) + Dispatched(tail)
  {
    hide Lines, ReadLines;
    ReadFramed(events, tail, []);
    ReadAfter(Client("", []), ClosedLines(tail), Messages(events));
    assert [] + Messages(events) == Messages(events) + [];
  }

  // ---- What the splitter cuts is framed ----

  lemma FirstIsFramed(s: string)
    requires !Unterminated(s)
    ensures Solid(First(s).block) && IsEnd(First(s).end) && Apart(First(s).end, Rest(s))
  {
    FirstIsSolid(s);
  }

  lemma FirstIsSolid(s: string)
    requires !Unterminated(s)
    ensures Solid(First(s).block)
  {
    var m := Find(s, 0);
    var block, more := s[..m.at], s[m.at..];
    assert s == block + more;
    forall p: nat | p < |block| ensures EventEnd(block, p) == 0 {
      if EventEnd(block, p) > 0 { EventEndGrows(block, more, p); }
    }
    if block != "" && IsEol(block[|block| - 1]) { EolBeforeEnd(s, m.at); }
  }

  /** A line end character right before an event end starts an event end itself. */
  lemma EolBeforeEnd(s: string, at: nat)
    requires 0 < at && EventEnd(s, at) > 0 && IsEol(s[at - 1])
    ensures EventEnd(s, at - 1) > 0
  {}

  lemma {:induction false} SplitIsFramed(s: string)
    ensures Framed(Split(s).events, Split(s).tail)
    decreases |s|
  {
    if !Unterminated(s) {
      FirstIsFramed(s);
      SplitIsFramed(Rest(s));
      SplitIsLossless(Rest(s));
      var f := Split(s);
      assert f.events[0] == First(s) && f.events[1..] == Split(Rest(s)).events;
    }
  }

  /** An unterminated tail reads as a message only when it is an event held back for its
      last CR: the whole text up to that event end. */
  lemma TailReads(tail: string)
    requires Unterminated(tail)
    ensures Dispatched(tail) == if Find(tail, 0).Match? then MessageOf(tail[..Find(tail, 0).at]) else []
    ensures Dispatched(tail) == [] || Dispatched(tail) == MessageOf(tail)
  {
    hide Lines, ReadLines, MessageOf, EventEnd;
    var m := Find(tail, 0);
    if m.Match? {
      HeldIsFramed(tail);
      var block, end := tail[..m.at], tail[m.at..];
      assert tail == block + end + "";
      ReadEvent(block, end, "", []);
      UnfoldLines("");
      assert [] + MessageOf(block) == MessageOf(block);
      assert Dispatched(tail) == MessageOf(block) by { NoLinesLeft(MessageOf(block)); }
      LinesOfEvent(block, end, "");
      BlanksCarryNothing(block, tail);
    } else {
      NoEndIsNotDispatched(tail);
    }
  }

  lemma NoEndIsNotDispatched(text: string)
    requires NoEnd(text)
    ensures Dispatched(text) == []
  {
    forall l | ClosedLines(text) != [] && l in ClosedLines(text)[1..] ensures l != "" {
      var k :| 0 < k < |ClosedLines(text)| && ClosedLines(text)[k] == l;
      OnlyFirstIsBlank(text, k);
    }
    ReadUnblank(ClosedLines(text));
  }

  lemma NoLinesLeft(messages: seq<string>)
    ensures ReadLines(Client("", messages), []) == Client("", messages)
  {}

  lemma BlanksCarryNothing(block: string, tail: string)
    requires Lines(tail) == Lines(block) + [""] + [""]
    ensures MessageOf(tail) == MessageOf(block)
  {
    hide Lines, DataOf, RestOf, IsData;
    FieldsAppend(Lines(block) + [""], [""]);
    FieldsAppend(Lines(block), [""]);
    OneField("");
    assert !IsData("") by { BlankIsNotData(); }
    assert DataOf(Lines(block)) + [] + [] == DataOf(Lines(block));
  }

  lemma BlankIsNotData()
    ensures !IsData("")
  {}

  lemma ReadUnblank(lines: seq<string>)
    requires lines != [] ==> forall l | l in lines[1..] :: l != ""
    ensures ReadLines(Client("", []), lines).messages == []
  {
    if lines != [] {
      ReadFilled(ReadLine(Client("", []), lines[0]), lines[1..]);
    }
  }

  lemma HeldIsFramed(tail: string)
    requires Unterminated(tail) && Find(tail, 0).Match?
    ensures var m := Find(tail, 0);
            Solid(tail[..m.at]) && IsEnd(tail[m.at..])
  {
    var m := Find(tail, 0);
    var block, more := tail[..m.at], tail[m.at..];
    assert tail == block + more;
    forall p: nat | p < |block| ensures EventEnd(block, p) == 0 {
      if EventEnd(block, p) > 0 { EventEndGrows(block, more, p); }
    }
    if block != "" && IsEol(block[|block| - 1]) { EolBeforeEnd(tail, m.at); }
    EventEndOfSuffix(tail, m.at, 0);
  }

  /** The payloads handed to the transform are the messages a client would have read from
      the raw stream, in order. */
  lemma PayloadsAreTheMessages(s: string)
    ensures Dispatched(s) == Messages(Split(s).events) + Dispatched(Split(s).tail)
  {
    hide Dispatched;
    SplitIsFramed(s);
    SplitIsLossless(s);
    DispatchedFramed(Split(s).events, Split(s).tail);
  }

  // ---- What a rewritten block reads as ----

  predicate Written(lines: seq<string>) {
    lines != [] && forall l | l in lines :: l != "" && OneLine(l)
  }

  /** Lines written one under the other are read back. */
  lemma {:induction false} LinesOfJoin(lines: seq<string>)
    requires Written(lines)
    ensures Lines(Join(lines)) == lines
    decreases |lines|
  {
    hide Lines;
    var first := lines[0];
    assert first in lines;
    if |lines| == 1 {
      UnfoldLines(first);
    } else {
      assert forall l | l in lines[1..] :: l in lines;
      LinesOfJoin(lines[1..]);
      assert first[|first| - 1] in first;
      LinesCut(first, "\n", Join(lines[1..]));
      UnfoldLines(first);
    }
  }

  lemma {:induction false} JoinIsSolid(lines: seq<string>)
    requires Written(lines)
    ensures Solid(Join(lines)) && Join(lines) != "" && !IsEol(Join(lines)[0])
    decreases |lines|
  {
    var first := lines[0];
    assert first in lines;
    assert first[0] in first && first[|first| - 1] in first;
    if |lines| == 1 {
      OneLineIsSolid(first);
    } else {
      assert forall l | l in lines[1..] :: l in lines;
      JoinIsSolid(lines[1..]);
      StackIsSolid(first, Join(lines[1..]));
    }
  }

  lemma OneLineIsSolid(s: string)
    requires s != "" && OneLine(s)
    ensures Solid(s)
  {
    forall p: nat | p < |s| ensures EventEnd(s, p) == 0 {
      assert s[p] in s;
    }
  }

  lemma StackIsSolid(first: string, more: string)
    requires OneLine(first) && Solid(more) && more != "" && !IsEol(more[0])
    ensures Solid(first + "\n" + more)
  {
    var s := first + "\n" + more;
    forall p: nat | p < |s| ensures EventEnd(s, p) == 0 {
      if p < |first| {
        assert s[p] in first;
      } else if p > |first| {
        assert s[|first| + 1..] == more;
        EventEndOfSuffix(s, |first| + 1, p - |first| - 1);
      }
    }
  }

  lemma {:induction false} RestIsOther(lines: seq<string>)
    ensures forall l | l in RestOf(lines) :: l in lines && IsOther(l)
  {
    if lines != [] { RestIsOther(lines[1..]); }
  }

  lemma {:induction false} OthersCarryNoData(lines: seq<string>)
    requires forall l | l in lines :: IsOther(l)
    ensures DataOf(lines) == [] && RestOf(lines) == lines
  {
    if lines != [] {
      assert lines[0] in lines;
      assert forall l | l in lines[1..] :: l in lines;
      OthersCarryNoData(lines[1..]);
    }
  }

  lemma DataLine(body: string)
    ensures IsData("data: " + body) && ValueOf("data: " + body) == body
  {
    var line := "data: " + body;
    ColonAfter("data", " " + body);
    assert line == "data" + ":" + (" " + body);
    assert line[..4] == "data";
    assert line[5..] == " " + body;
  }

  lemma {:induction false} ColonAfter(name: string, more: string)
    requires ':' !in name
    ensures Colon(name + ":" + more) == |name|
  {
    if name != "" {
      assert name[0] in name;
      assert (name + ":" + more)[1..] == name[1..] + ":" + more;
      ColonAfter(name[1..], more);
    }
  }

  lemma EventLine()
    ensures IsOther("event: message")
  {
    ColonAfter("event", " message");
    assert "event: message" == "event" + ":" + " message";
    assert |"event: message"[..5]| == 5;
  }

  /** The lines a changed event is written as. */
  function NewLines(block: string, o: Outcome): seq<string>
    requires !o.Unchanged?
  {
    (if o.Replaced? then RestOf(Lines(block)) else ["event: message"]) + ["data: " + o.body]
  }

  lemma NewLinesAreWritten(block: string, o: Outcome)
    requires !o.Unchanged? && Writable(o)
    ensures Written(NewLines(block, o))
    ensures DataOf(NewLines(block, o)) == [o.body]
    ensures RestOf(NewLines(block, o)) == if o.Replaced? then RestOf(Lines(block)) else ["event: message"]
  {
    hide Lines, DataOf, RestOf, FieldOf, Colon, ValueOf;
    RestIsOther(Lines(block));
    EventLine();
    DataLine(o.body);
    var rest := if o.Replaced? then RestOf(Lines(block)) else ["event: message"];
    OthersCarryNoData(rest);
    FieldsAppend(rest, ["data: " + o.body]);
    OneField("data: " + o.body);
  }

  /** A rewritten event parses back to the new payload with its other fields in order; an
      event whose payload stands, or that has none, is left character for character. */
  lemma RewriteReads(block: string, o: Outcome)
    requires Writable(o)
    ensures var lines := Lines(block);
            var after := Rewrite(block, o);
            if DataOf(lines) == [] || o.Unchanged? then after == block
            else && DataOf(Lines(after)) == [o.body]
                 && RestOf(Lines(after)) == (if o.Replaced? then RestOf(lines) else ["event: message"])
                 && Solid(after) && after != "" && !IsEol(after[0])
  {
    if !(DataOf(Lines(block)) == [] || o.Unchanged?) {
      hide Lines, DataOf, RestOf, Solid;
      NewLinesAreWritten(block, o);
      LinesOfJoin(NewLines(block, o));
      JoinIsSolid(NewLines(block, o));
    }
  }

  // ---- The whole stream, rewritten ----

  /** Each event with its outcome applied, under its own terminator. */
  function RewriteAll(events: seq<Event>, outcomes: seq<Outcome>): seq<Event>
    requires |outcomes| == |events|
  {
    if events == [] then []
    else [Event(Rewrite(events[0].block, outcomes[0]), events[0].end)] + RewriteAll(events[1..], outcomes[1..])
  }

  /** The answer to each event that carries a payload: the payload, or what replaced it. */
  function Answers(events: seq<Event>, outcomes: seq<Outcome>): seq<string>
    requires |outcomes| == |events|
  {
    if events == [] then []
    else
      (if outcomes[0].Unchanged? || MessageOf(events[0].block) == [] then MessageOf(events[0].block)
       else [outcomes[0].body]) + Answers(events[1..], outcomes[1..])
  }

  lemma RewriteAnswers(block: string, o: Outcome)
    requires Writable(o) && Solid(block)
    ensures MessageOf(Rewrite(block, o))
            == if o.Unchanged? || MessageOf(block) == [] then MessageOf(block) else [o.body]
    ensures Solid(Rewrite(block, o))
    ensures Rewrite(block, o) == block || (Rewrite(block, o) != "" && !IsEol(Rewrite(block, o)[0]))
  {
    hide Lines, Solid, Rewrite, DataOf, RestOf;
    RewriteReads(block, o);
  }

  predicate AllWritable(outcomes: seq<Outcome>) {
    forall o | o in outcomes :: Writable(o)
  }

  /** A text that starts with an LF only if the other does. */
  predicate NoNewLf(before: string, after: string) {
    after != "" && after[0] == '\n' ==> before != "" && before[0] == '\n'
  }

  /** Rewriting keeps events apart: nothing a payload becomes can end its event early or
      join the next one. */
  lemma {:induction false} RewriteKeepsFraming(events: seq<Event>, outcomes: seq<Outcome>, tail: string,
                                               newTail: string)
    requires |outcomes| == |events| && AllWritable(outcomes)
    requires Framed(events, tail) && NoNewLf(tail, newTail)
    ensures Framed(RewriteAll(events, outcomes), newTail)
    ensures NoNewLf(Text(events) + tail, Text(RewriteAll(events, outcomes)) + newTail)
    ensures Messages(RewriteAll(events, outcomes)) == Answers(events, outcomes)
    decreases |events|
  {
    hide Solid, IsEnd, Rewrite, MessageOf;
    if events == [] {
      assert "" + tail == tail && "" + newTail == newTail;
    } else {
      assert outcomes[0] in outcomes;
      assert forall o | o in outcomes[1..] :: o in outcomes;
      RewriteKeepsFraming(events[1..], outcomes[1..], tail, newTail);
      RewriteAnswers(events[0].block, outcomes[0]);
      var after := RewriteAll(events, outcomes);
      assert after[1..] == RewriteAll(events[1..], outcomes[1..]);
      FirstChar(events, tail);
      FirstChar(after, newTail);
      assert events[0].end != "" by { EndNotEmpty(events[0].end); }
    }
  }

  lemma EndNotEmpty(end: string)
    requires IsEnd(end)
    ensures end != ""
  {}

  lemma FirstChar(events: seq<Event>, tail: string)
    requires events != []
    ensures var text := Text(events) + tail;
            && (events[0].block != "" ==> text != "" && text[0] == events[0].block[0])
            && (events[0].block == "" && events[0].end != "" ==> text != "" && text[0] == events[0].end[0])
  {}

  /** A text's events and tail rewritten: a client dispatches exactly the transform's answers
      to the messages of the text, in order, and the tail's message only if it stood. */
  lemma ClientReadsTheAnswers(s: string, outcomes: seq<Outcome>, last: Outcome)
    requires |outcomes| == |Split(s).events| && AllWritable(outcomes) && Writable(last)
    ensures var f := Split(s);
            Dispatched(Text(RewriteAll(f.events, outcomes)) + Rewrite(f.tail, last))
            == Answers(f.events, outcomes)
               + if last.Unchanged? || MessageOf(f.tail) == [] then Dispatched(f.tail) else []
  {
    hide Dispatched, Rewrite, MessageOf, Framed;
    var f := Split(s);
    SplitIsFramed(s);
    TailAfterRewrite(f.tail, last);
    RewriteKeepsFraming(f.events, outcomes, f.tail, Rewrite(f.tail, last));
    DispatchedFramed(RewriteAll(f.events, outcomes), Rewrite(f.tail, last));
  }

  /** A rewritten tail has no blank line after it, so no client dispatches it. */
  lemma TailAfterRewrite(tail: string, last: Outcome)
    requires Writable(last)
    ensures NoNewLf(tail, Rewrite(tail, last))
    ensures Dispatched(Rewrite(tail, last))
            == if last.Unchanged? || MessageOf(tail) == [] then Dispatched(tail) else []
  {
    hide Lines, Rewrite, DataOf, RestOf, Dispatched, NoEnd;
    RewriteReads(tail, last);
    if !(last.Unchanged? || MessageOf(tail) == []) {
      NoEndIsNotDispatched(Rewrite(tail, last));
    }
  }

  /** A message is lost in rewriting an unterminated tail exactly when the tail is an event
      held back for its last CR, it carries a message, and the transform did not let it stand:
      its replacement is written without a terminator. */
  lemma ReplacementIsLostExactly(tail: string, o: Outcome)
    requires Unterminated(tail) && Writable(o)
    ensures Dispatched(tail) != [] && Dispatched(Rewrite(tail, o)) == []
            <==> Find(tail, 0).Match? && MessageOf(tail[..Find(tail, 0).at]) != [] && !o.Unchanged?
  {
    TailReads(tail);
    TailAfterRewrite(tail, o);
    hide Dispatched, Rewrite, MessageOf, Find, Unterminated;
  }

  /** Such a tail. */
  lemma FinalBareCrLosesItsReplacement()
    ensures Dispatched("data: x\r\r") == ["x"]
    ensures Dispatched(Rewrite("data: x\r\r", Replaced("y"))) == []
  {
    hide Lines, ReadLines, Rewrite, Solid, NoEnd, DataOf, RestOf, IsData, ValueOf, FieldOf;
    var block := "data: x";
    DataLine("x");
    assert "data: " + "x" == block;
    OneLineIsSolid(block);
    assert IsEnd("\r\r") by { assert EventEnd("\r\r", 0) == 2; }
    assert block + "\r\r" + "" == "data: x\r\r";
    LinesOfEvent(block, "\r\r", "");
    UnfoldLines(block);
    UnfoldLines("");
    OneField(block);
    ReadBlock(block, []);
    assert MessageOf(block) == ["x"];
    assert ClosedLines("data: x\r\r") == Lines(block) + [""];
    BlanksCarryNothing(block, "data: x\r\r");
    TailAfterRewrite("data: x\r\r", Replaced("y"));
  }
}
