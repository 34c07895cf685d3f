/** The mediator as the code runs it: sets, maps and a queue updated on every line, each
    method tied to the step it takes; and the framing that turns chunks into lines. */
module Wrap {
  import opened Optional
  import opened Definitions
  import opened WrapSpec
  import opened WrapSafety

  class Wrap {
    const o: Options
    var changed: map<string, Drift>
    var verified: set<string>
    var listing: set<Id>
    var discovering: set<Id>
    var calls: map<Id, string>
    var held: seq<ClientMessage>
    var verifying: Option<Id>
    var verifications: nat
    var verifyMeta: seq<Field>
    var stopping: bool
    var trace: seq<Io>

    ghost function Abs(): State
      reads this
    {
      State(changed, verified, listing, discovering, calls, held, verifying, verifications, verifyMeta, stopping, trace)
    }

    constructor (o: Options)
      ensures Abs() == START && this.o == o && Safe(o, Abs())
    {
      this.o := o;
      changed, verified, listing, discovering, calls, held := map[], {}, {}, {}, map[], [];
      verifying, verifications, verifyMeta, stopping, trace := None, 0, [], false, [];
      new;
      StartIsSafe(o);
    }

    predicate IsVisible(name: string)
      reads this`changed
      ensures IsVisible(name) <==> Listed(o, name) && name !in changed
    {
      Listed(o, name) && name !in changed
    }

    method CheckTool(tool: Tool)
      modifies this`changed, this`verified
      ensures Abs() == Check(o, old(Abs()), tool)
    {
      var reason := DriftOf(o, tool);
      if reason.None? {
        changed := map n | n in changed && n != tool.name :: changed[n];
        verified := verified + {tool.name};
        return;
      }
      verified := verified - {tool.name};
      if Listed(o, tool.name) && !(tool.name in changed && changed[tool.name] == reason.value) {
        changed := changed[tool.name := reason.value];
      }
      assert Listed(o, tool.name) ==> changed == old(changed)[tool.name := reason.value];
    }

    method CheckTools(tools: seq<Tool>)
      modifies this`changed, this`verified
      ensures Abs() == CheckAll(o, old(Abs()), tools)
    {
      hide Check, DriftOf, Listed;
      for i := 0 to |tools|
        invariant CheckAll(o, Abs(), tools[i..]) == CheckAll(o, old(Abs()), tools)
      {
        assert tools[i..][1..] == tools[i + 1..];
        CheckTool(tools[i]);
      }
      assert tools[|tools|..] == [];
    }

    method RequestPage(meta: seq<Field>, cursor: Option<string>)
      modifies this`verifyMeta, this`verifying, this`verifications, this`trace
      ensures Abs() == RequestList(old(Abs()), meta, cursor)
    {
      verifyMeta := meta;
      verifications := verifications + 1;
      verifying := Some(OwnId(verifications));
      trace := trace + [WroteList(verifying.value, meta, cursor)];
    }

    method ForwardCall(m: ClientMessage, released: bool)
      requires m.name.Some?
      modifies this`calls, this`trace
      ensures Abs() == Forward(o, old(Abs()), m, released)
    {
      if !ArgumentsAccepted(o, m) {
        trace := trace + [Rejected(m, released)];
        return;
      }
      if m.id.Some? { calls := calls[m.id.value := m.name.value]; }
      trace := trace + [WroteServer(m, released)];
    }

    method ReleaseHeld(failed: bool)
      requires AllCalls(held)
      modifies this`verifying, this`held, this`calls, this`trace
      ensures Abs() == Release(o, old(Abs()), failed)
    {
      hide Forward, Listed, ArgumentsAccepted;
      verifying := None;
      var waiting := held;
      held := [];
      ghost var start := Abs();
      for i := 0 to |waiting|
        invariant AllCalls(waiting[i..])
        invariant Settle(o, Abs(), waiting[i..], failed) == Settle(o, start, waiting, failed)
        invariant changed == old(changed) && verified == old(verified)
      {
        var m := waiting[i];
        assert m in waiting[i..];
        assert waiting[i..][1..] == waiting[i + 1..];
        if !failed && IsVisible(m.name.value) && m.name.value in verified {
          ForwardCall(m, true);
        } else {
          trace := trace + [Rejected(m, true)];
        }
      }
      assert waiting[|waiting|..] == [];
    }

    /** Remember the id of a request whose answer must be looked at. */
    method TrackRequest(m: ClientMessage)
      modifies this`listing, this`discovering
      ensures Abs() == Track(old(Abs()), m)
    {
      KindsDiffer();
      if m.kind == Some(LIST) && m.id.Some? { listing := listing + {m.id.value}; }
      if (m.kind == Some("initialize") || m.kind == Some("server/discover")) && m.id.Some? {
        discovering := discovering + {m.id.value};
      }
    }

    lemma KindsDiffer()
      ensures LIST != "initialize" && LIST != "server/discover" && CALL != LIST
      ensures CALL != "initialize" && CALL != "server/discover"
    {
      assert CALL[6] != LIST[6];
      assert CALL[0] != "initialize"[0] && LIST[0] != "initialize"[0];
      assert |CALL| != |"server/discover"| && |LIST| != |"server/discover"|;
    }

    method OnClientMessage(m: ClientMessage)
      modifies this
      ensures Abs() == OnMessage(o, old(Abs()), m)
    {
      hide Listed, ArgumentsAccepted, RequestList, Forward, Track, RequestOf;
      TrackRequest(m);
      if IsCall(m) && (m.name.None? || !IsVisible(m.name.value)) {
        trace := trace + [Rejected(m, false)];
        return;
      }
      if IsCall(m) && o.pinned.Some? && m.name.value !in verified {
        held := held + [m];
        trace := trace + [Holds(m)];
        if verifying.None? { RequestPage(m.protocolMeta, None); }
        return;
      }
      if IsCall(m) {
        ForwardCall(m, false);
      } else {
        trace := trace + [WroteServer(m, false)];
      }
    }

    /** A line from the client. */
    method OnClientLine(line: ClientLine)
      requires Safe(o, Abs()) && Proper(ClientSays(line))
      modifies this
      ensures Safe(o, Abs())
      ensures Abs() == OnClient(o, old(Abs()), line)
    {
      hide Safe, OnMessage;
      ClientIsSafe(o, Abs(), line);
      trace := trace + [ReadClient(line)];
      if stopping || line.Empty? { return; }
      if line.Unfit? {
        trace := trace + [WroteError(line.replyTo)];
      } else {
        OnClientMessage(line.m);
      }
    }

    /** The client is gone: its lines are ignored from now on. */
    method StopReading()
      requires Safe(o, Abs())
      modifies this`stopping
      ensures Safe(o, Abs()) && Abs() == old(Abs()).(stopping := true)
    {
      StopIsSafe(o, Abs());
      stopping := true;
    }

    /** A page of the mediator's own listing, which goes no further. */
    method OnPage(m: ServerMessage)
      requires AllCalls(held)
      modifies this
      ensures Abs() == OnOwnAnswer(o, old(Abs()), m)
    {
      hide CheckAll, Release, RequestList;
      var tools := ToolsOf(m);
      if tools.None? { ReleaseHeld(true); return; }
      CheckAllKeeps(o, Abs(), tools.value);
      CheckTools(tools.value);
      if m.result.value.cursor.Some? {
        RequestPage(verifyMeta, m.result.value.cursor);
      } else {
        ReleaseHeld(false);
      }
    }

    method FilterListing(m: ServerMessage) returns (passed: ServerMessage)
      modifies this`listing, this`changed, this`verified
      ensures (Abs(), passed) == PassListing(o, old(Abs()), m)
    {
      hide CheckAll, Shown;
      passed := m;
      if IsResponse(m) && m.id.value in listing {
        listing := listing - {m.id.value};
        if ToolsOf(m).Some? {
          CheckTools(ToolsOf(m).value);
          passed := WithTools(m, ShownTools(ToolsOf(m).value));
        }
      }
    }

    method HoldInstructions(m: ServerMessage) returns (passed: ServerMessage)
      modifies this`discovering
      ensures (Abs(), passed) == PassDiscovery(o, old(Abs()), m)
    {
      hide InstructionsApproved;
      passed := m;
      if IsResponse(m) && m.id.value in discovering {
        discovering := discovering - {m.id.value};
        if o.pinned.Some? && m.result.Some? {
          var live := m.result.value.instructions;
          if live.Some? && !InstructionsApproved(o, live.value) {
            passed := m.(result := Some(m.result.value.(instructions := None)));
          }
        }
      }
    }

    method ScreenAnswer(m: ServerMessage) returns (verdict: Option<Verdict>)
      modifies this`calls
      ensures (Abs(), verdict) == PassCall(o, old(Abs()), m)
    {
      hide Pinned;
      verdict := None;
      if IsResponse(m) && m.id.value in calls {
        var tool := calls[m.id.value];
        calls := map id | id in calls && id != m.id.value :: calls[id];
        if m.result.Some? {
          verdict := Some(o.screen(if Pinned(o, tool).Some? then Pinned(o, tool).value else [], m.result.value));
        }
      }
    }

    /** A line from the server. */
    method OnServerLine(line: ServerLine)
      requires Safe(o, Abs())
      modifies this
      ensures Safe(o, Abs())
      ensures Abs() == OnServer(o, old(Abs()), line)
    {
      hide Safe, OnOwnAnswer, PassListing, PassDiscovery, PassCall;
      ServerIsSafe(o, Abs(), line);
      HeldAreCalls(o, Abs());
      trace := trace + [ReadServer(line)];
      if line.NotJson? {
        trace := trace + [Relayed(line, None)];
        return;
      }
      var m := line.m;
      if IsResponse(m) && m.id == verifying {
        OnPage(m);
        return;
      }
      if m.kind == Some(CHANGED) { verified := {}; }
      m := FilterListing(m);
      m := HoldInstructions(m);
      var verdict := ScreenAnswer(m);
      trace := trace + [Relayed(FromServer(m), verdict)];
    }

    function ShownTools(tools: seq<Tool>): (r: seq<Tool>)
      reads this
      ensures r == Shown(o, Abs(), tools)
    {
      if tools == [] then []
      else (if IsVisible(tools[0].name) then [tools[0]] else []) + ShownTools(tools[1..])
    }
  }

  lemma HeldAreCalls(o: Options, s: State)
    requires Safe(o, s)
    ensures AllCalls(s.held)
  {}

  // ---- Framing ----

  datatype Cut = Cut(lines: seq<string>, rest: string)

  function DropCr(line: string): string {
    if line != "" && line[|line| - 1] == '\r' then line[..|line| - 1] else line
  }

  /** The position of the first LF, or the length. */
  function FirstLf(s: string): (i: nat)
    ensures i <= |s| && '\n' !in s[..i] && (i < |s| ==> s[i] == '\n')
  {
    if s == "" || s[0] == '\n' then 0 else 1 + FirstLf(s[1..])
  }

  /** A text cut at every LF alone; a CR before it is dropped. */
  function Frame(s: string): Cut
    decreases |s|
  {
    var i := FirstLf(s);
    if i == |s| then Cut([], s)
    else
      var more := Frame(s[i + 1..]);
      Cut([DropCr(s[..i])] + more.lines, more.rest)
  }

  lemma {:induction false} FirstLfIn(a: string, b: string)
    ensures FirstLf(a + b) == if FirstLf(a) == |a| then |a| + FirstLf(b) else FirstLf(a)
  {
    if a == "" {
      assert a + b == b;
    } else {
      assert (a + b)[1..] == a[1..] + b;
      FirstLfIn(a[1..], b);
    }
  }

  /** However the bytes arrive, the lines are those of the whole stream. */
  lemma {:induction false} FrameAppend(a: string, b: string)
    ensures var f := Frame(a);
            Frame(a + b) == Cut(f.lines + Frame(f.rest + b).lines, Frame(f.rest + b).rest)
    decreases |a|
  {
    hide FirstLf, DropCr;
    FirstLfIn(a, b);
    var i := FirstLf(a);
    if i < |a| {
      SlicesIn(a, b, i);
      FrameAppend(a[i + 1..], b);
      var rest := Frame(a[i + 1..]);
      var after := Frame(rest.rest + b);
      assert ([DropCr(a[..i])] + rest.lines) + after.lines == [DropCr(a[..i])] + (rest.lines + after.lines);
    } else {
      assert [] + Frame(a + b).lines == Frame(a + b).lines;
    }
  }

  lemma SlicesIn(a: string, b: string, i: nat)
    requires i < |a|
    ensures (a + b)[..i] == a[..i] && (a + b)[i + 1..] == a[i + 1..] + b
  {}

  /** Lines as they are sent, each closed by LF or CRLF, and the start of one more. */
  function StreamOf(lines: seq<string>, crs: seq<bool>, rest: string): string
    requires |crs| == |lines|
  {
    if lines == [] then rest else lines[0] + (if crs[0] then "\r\n" else "\n") + StreamOf(lines[1..], crs[1..], rest)
  }

  /** The cut of a stream is the lines that were sent. */
  lemma {:induction false} StreamIsRead(lines: seq<string>, crs: seq<bool>, rest: string)
    requires |crs| == |lines| && '\n' !in rest
    requires forall l | l in lines :: '\n' !in l && (l == "" || l[|l| - 1] != '\r')
    ensures Frame(StreamOf(lines, crs, rest)) == Cut(lines, rest)
  {
    hide Frame, DropCr;
    if lines == [] {
      NoMoreLines(rest);
    } else {
      var line, more := lines[0], StreamOf(lines[1..], crs[1..], rest);
      assert line in lines && forall l | l in lines[1..] :: l in lines;
      StreamIsRead(lines[1..], crs[1..], rest);
      SentIsRead(line, crs[0], more);
      assert lines == [line] + lines[1..];
    }
  }

  lemma SentIsRead(line: string, cr: bool, more: string)
    requires '\n' !in line && (line == "" || line[|line| - 1] != '\r')
    ensures Frame(line + (if cr then "\r\n" else "\n") + more) == Cut([line] + Frame(more).lines, Frame(more).rest)
  {
    hide Frame, DropCr;
    var closed := if cr then line + "\r" else line;
    assert '\n' !in closed;
    assert line + (if cr then "\r\n" else "\n") + more == closed + ("\n" + more);
    FirstLine(closed, more);
    CrDropped(line);
  }

  lemma NoMoreLines(rest: string)
    requires '\n' !in rest
    ensures Frame(rest) == Cut([], rest)
  {
    hide FirstLf;
    NoLf(rest);
  }

  lemma FirstLine(line: string, more: string)
    requires '\n' !in line
    ensures Frame(line + ("\n" + more)) == Cut([DropCr(line)] + Frame(more).lines, Frame(more).rest)
  {
    hide FirstLf, DropCr;
    NoLf(line);
    FirstLfIn(line, "\n" + more);
    LfFirst(more);
    var all := line + ("\n" + more);
    assert all[..|line|] == line && all[|line| + 1..] == more;
  }

  lemma CrDropped(line: string)
    ensures DropCr(line + "\r") == line
    ensures line == "" || line[|line| - 1] != '\r' ==> DropCr(line) == line
  {
    assert (line + "\r")[..|line|] == line;
  }

  lemma {:induction false} NoLf(s: string)
    requires '\n' !in s
    ensures FirstLf(s) == |s|
  {
    if s != "" {
      assert s[0] in s && forall c | c in s[1..] :: c in s;
      NoLf(s[1..]);
    }
  }

  lemma LfFirst(more: string)
    ensures FirstLf("\n" + more) == 0
  {}

  class LineReader {
    var buffered: string
    var lines: seq<string>
    ghost var text: string

    /** The lines handed over and the part held are the cut of all that has arrived. */
    ghost predicate Valid()
      reads this
    {
      Frame(text) == Cut(lines, buffered) && Frame(buffered) == Cut([], buffered)
    }

    constructor ()
      ensures Valid() && text == "" && lines == []
    {
      buffered, lines, text := "", [], "";
    }

    method Data(chunk: string)
      requires Valid()
      modifies this
      ensures Valid() && text == old(text) + chunk
    {
      hide FirstLf, DropCr;
      FrameAppend(text, chunk);
      text := text + chunk;
      buffered := buffered + chunk;
      while FirstLf(buffered) < |buffered|
        invariant text == old(text) + chunk
        invariant Frame(text) == Cut(lines + Frame(buffered).lines, Frame(buffered).rest)
        decreases |buffered|
      {
        var newline := FirstLf(buffered);
        var line := DropCr(buffered[..newline]);
        ghost var more := Frame(buffered[newline + 1..]).lines;
        assert lines + ([line] + more) == (lines + [line]) + more;
        lines := lines + [line];
        buffered := buffered[newline + 1..];
      }
      assert lines + [] == lines;
    }

    /** At the end of the stream a last unclosed line is a line too. */
    method End()
      requires Valid()
      modifies this
      ensures lines == Frame(old(text)).lines + if Frame(old(text)).rest == "" then [] else [DropCr(Frame(old(text)).rest)]
    {
      if buffered != "" { lines := lines + [DropCr(buffered)]; }
      buffered := "";
    }
  }
}
