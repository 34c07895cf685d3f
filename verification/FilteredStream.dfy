/** The filtered stream as its client reads it: what the filter writes, chunk by chunk and
    refused or not, rendered as text and dispatched by section 9.2.6 of the WHATWG HTML
    standard. */
module FilteredStream {
  import opened EventFraming
  import opened EventRewrite
  import opened Sequences
  import S = EventStream
  import Whitespace

  /** The event that tells the client why the stream ends. */
  function RefusalEvent(refusal: string): string {
    Join(["event: message", "data: " + refusal]) + "\n\n"
  }

  function RenderedOne(out: S.Output, o: Outcome, refusal: string): string {
    match out
    case Sent(e) => Rewrite(e.block, o) + e.end
    case Refused => RefusalEvent(refusal)
    case Ended(tail) => Rewrite(tail, o)
  }

  /** What is written, given what became of each payload in turn. */
  function Rendered(out: seq<S.Output>, outcomes: seq<Outcome>, refusal: string): string
    requires |outcomes| == |out|
  {
    if out == [] then "" else RenderedOne(out[0], outcomes[0], refusal) + Rendered(out[1..], outcomes[1..], refusal)
  }

  lemma {:induction false} RenderedSents(sent: seq<Event>, more: seq<S.Output>, outcomes: seq<Outcome>, refusal: string)
    requires |outcomes| == |sent| + |more|
    ensures var n := |sent|;
            Rendered(S.Sents(sent) + more, outcomes, refusal)
            == Text(RewriteAll(sent, outcomes[..n])) + Rendered(more, outcomes[n..], refusal)
    decreases |sent|
  {
    var all := S.Sents(sent) + more;
    hide Rewrite;
    if sent == [] {
      assert all == more && outcomes[0..] == outcomes && RewriteAll([], outcomes[..0]) == [];
    } else {
      assert all[1..] == S.Sents(sent[1..]) + more;
      RenderedSents(sent[1..], more, outcomes[1..], refusal);
      var n := |sent|;
      assert outcomes[1..][..n - 1] == outcomes[..n][1..] && outcomes[1..][n - 1..] == outcomes[n..];
      var e := Event(Rewrite(sent[0].block, outcomes[0]), sent[0].end);
      var rest := RewriteAll(sent[1..], outcomes[..n][1..]);
      TextOfCons(e, rest);
      Associate(e.block + e.end, Text(rest), Rendered(more, outcomes[n..], refusal));
    }
  }

  lemma {:induction false} FramedPrefix(a: seq<Event>, b: seq<Event>, tail: string)
    requires Framed(a + b, tail)
    ensures Framed(a, Text(b) + tail)
    decreases |a|
  {
    hide Solid, IsEnd, Apart;
    if a != [] {
      assert (a + b)[1..] == a[1..] + b;
      FramedPrefix(a[1..], b, tail);
      TextAppend(a[1..], b);
      Associate(Text(a[1..]), Text(b), tail);
    }
  }

  lemma {:induction false} TextAppend(a: seq<Event>, b: seq<Event>)
    ensures Text(a + b) == Text(a) + Text(b)
  {
    if a == [] {
      assert a + b == b;
    } else {
      assert (a + b)[1..] == a[1..] + b;
      TextAppend(a[1..], b);
      Associate(a[0].block + a[0].end, Text(a[1..]), Text(b));
    }
  }

  /** The events of a text stay apart from whatever it goes on with. */
  lemma EventsAreFramed(s: string, more: string)
    ensures Framed(Split(s).events, Split(s).tail + more)
  {
    hide Framed, Split;
    var g := Split(Split(s).tail + more);
    SplitAppend(s, more);
    SplitIsFramed(s + more);
    SplitIsLossless(Split(s).tail + more);
    FramedPrefix(Split(s).events, g.events, g.tail);
  }

  // ---- The refusal ----

  lemma RefusalReads(refusal: string)
    requires OneLine(refusal)
    ensures Dispatched(RefusalEvent(refusal)) == [refusal]
    ensures RefusalEvent(refusal) != "" && RefusalEvent(refusal)[0] != '\n'
  {
    hide *;
    var e := RefusalAsEvent(refusal);
    DispatchedFramed([e], "");
    NothingIsDispatched();
    OneMessage(e, refusal);
  }

  lemma RefusalAsEvent(refusal: string) returns (e: Event)
    requires OneLine(refusal)
    ensures Framed([e], "") && Text([e]) + "" == RefusalEvent(refusal) && DataOf(Lines(e.block)) == [refusal]
    ensures RefusalEvent(refusal) != "" && RefusalEvent(refusal)[0] != '\n'
  {
    var lines := ["event: message", "data: " + refusal];
    RefusalLines(refusal);
    e := Event(Join(lines), "\n\n");
    LinesOfJoin(lines);
    JoinIsSolid(lines);
    TwoLinesEnd();
    hide Join, Solid, IsEnd, Lines, EventRewrite.Written, DataOf;
    assert [e][1..] == [] && [e] == [e] + [];
    TextOfCons(e, []);
    assert Text([]) == "";
    assert !IsEol(Join(lines)[0]);
    assert Framed([], "");
  }

  lemma RefusalLines(refusal: string)
    requires OneLine(refusal)
    ensures var lines := ["event: message", "data: " + refusal];
            EventRewrite.Written(lines) && DataOf(lines) == [refusal]
  {
    hide Lines, DataOf, RestOf;
    assert (["event: message"] + ["data: " + refusal]) == ["event: message", "data: " + refusal];
    NewLinesAreWritten("", Unreadable(refusal));
  }

  lemma TwoLinesEnd()
    ensures IsEnd("\n\n")
  {
    assert EventEnd("\n\n", 0) == 2;
  }

  lemma OneMessage(e: Event, message: string)
    requires DataOf(Lines(e.block)) == [message]
    ensures Messages([e]) + [] == [message]
  {
    hide Lines, DataOf;
    assert [e][1..] == [];
    assert Messages([]) == [];
  }

  lemma NothingIsDispatched()
    ensures Dispatched("") == []
  {
    UnfoldLines("");
    assert ClosedLines("") == [];
  }

  // ---- A blank tail ----

  lemma {:induction false} LinesAreOfText(s: string)
    ensures forall l, c | l in Lines(s) && c in l :: c in s
    decreases |s|
  {
    UnfoldLines(s);
    hide Lines, FirstEol, LineEnd;
    if !OneLine(s) {
      var i := FirstEol(s);
      LinesAreOfText(s[i + LineEnd(s, i)..]);
    }
  }

  lemma BlankHasNoData(line: string)
    requires Whitespace.AllSpace(line)
    ensures !IsData(line)
  {
    if line != "" { assert line[0] in line; }
  }

  lemma {:induction false} NoDataNoMessage(c: Client, lines: seq<string>)
    requires c.buffer == "" && forall l | l in lines :: !IsData(l)
    ensures ReadLines(c, lines) == c
    decreases |lines|
  {
    if lines != [] {
      hide IsData, ValueOf;
      assert lines[0] in lines;
      assert forall l | l in lines[1..] :: l in lines;
      NoDataNoMessage(c, lines[1..]);
    }
  }

  /** A tail dropped for being blank had nothing to dispatch. */
  lemma BlankIsNotDispatched(tail: string)
    requires Whitespace.AllSpace(tail)
    ensures Dispatched(tail) == []
  {
    LinesAreOfText(tail);
    forall l | l in ClosedLines(tail) ensures !IsData(l) {
      assert l in Lines(tail);
      BlankHasNoData(l);
    }
    hide IsData, Lines, ReadLines;
    NoDataNoMessage(Client("", []), ClosedLines(tail));
  }

  // ---- The whole ----

  /** What the raw stream's client reads: the messages of its events, and what its tail holds. */
  lemma RawReads(s: string, last: string)
    ensures Dispatched(s + last) == Messages(Split(s).events) + Dispatched(Split(s).tail + last)
  {
    hide Dispatched, Split, Framed;
    EventsAreFramed(s, last);
    DispatchedFramed(Split(s).events, Split(s).tail + last);
    SplitIsLossless(s);
    Associate(Text(Split(s).events), Split(s).tail, last);
  }

  /** Events rewritten and followed by something that starts no line feed of theirs. */
  lemma RewrittenReads(events: seq<Event>, outcomes: seq<Outcome>, tail: string, newTail: string)
    requires |outcomes| == |events| && AllWritable(outcomes) && Framed(events, tail) && NoNewLf(tail, newTail)
    ensures Dispatched(Text(RewriteAll(events, outcomes)) + newTail) == Answers(events, outcomes) + Dispatched(newTail)
  {
    hide Dispatched, Framed;
    RewriteKeepsFraming(events, outcomes, tail, newTail);
    DispatchedFramed(RewriteAll(events, outcomes), newTail);
  }

  /** A stream cut short: its client reads the answers to the events sent and the refusal. */
  lemma RefusedReads(s: string, sent: seq<Event>, outcomes: seq<Outcome>, refusal: string)
    requires sent <= Split(s).events && |outcomes| == |sent| + 1 && AllWritable(outcomes) && OneLine(refusal)
    ensures Dispatched(Rendered(S.Sents(sent) + [S.Refused], outcomes, refusal))
            == Answers(sent, outcomes[..|sent|]) + [refusal]
  {
    hide Dispatched, Framed, Split, Rewrite, RefusalEvent, Answers;
    var n := |sent|;
    var more := Split(s).events[n..];
    var tail := Text(more) + Split(s).tail;
    assert Split(s).events == sent + more;
    SplitIsFramed(s);
    FramedPrefix(sent, more, Split(s).tail);
    RefusalReads(refusal);
    assert AllWritable(outcomes[..n]) by { assert forall o | o in outcomes[..n] :: o in outcomes; }
    RenderedSents(sent, [S.Refused], outcomes, refusal);
    OneRendered(S.Refused, outcomes[n], refusal);
    assert outcomes[n..] == [outcomes[n]];
    RewrittenReads(sent, outcomes[..n], tail, RefusalEvent(refusal));
  }

  lemma OneRendered(out: S.Output, o: Outcome, refusal: string)
    ensures Rendered([out], [o], refusal) == RenderedOne(out, o, refusal)
  {
    hide RenderedOne;
    assert [out][1..] == [] && [o][1..] == [];
    assert Rendered([], [], refusal) == "";
    assert RenderedOne(out, o, refusal) + "" == RenderedOne(out, o, refusal);
  }

  /** A stream read to its end: its client reads the answers to its events, and its tail's
      message only if the transform let it stand. */
  lemma EndedReads(s: string, last: string, outcomes: seq<Outcome>, refusal: string)
    requires var n, t := |Split(s).events|, Split(s).tail + last;
             |outcomes| == (if Whitespace.AllSpace(t) then n else n + 1) && AllWritable(outcomes)
    ensures var f := Split(s);
            var n, t := |f.events|, f.tail + last;
            Dispatched(Rendered(S.Sents(f.events) + (if Whitespace.AllSpace(t) then [] else [S.Ended(t)]), outcomes, refusal))
            == Answers(f.events, outcomes[..n])
               + if Whitespace.AllSpace(t) || outcomes[n].Unchanged? || MessageOf(t) == [] then Dispatched(t) else []
  {
    hide Dispatched, Framed, Split, Rewrite, Answers, MessageOf;
    var f := Split(s);
    var n, t := |f.events|, f.tail + last;
    EventsAreFramed(s, last);
    assert AllWritable(outcomes[..n]) by { assert forall o | o in outcomes[..n] :: o in outcomes; }
    if Whitespace.AllSpace(t) {
      RenderedSents(f.events, [], outcomes, refusal);
      assert Rendered([], outcomes[n..], refusal) == "";
      RewrittenReads(f.events, outcomes[..n], t, "");
      BlankIsNotDispatched(t);
      NothingIsDispatched();
    } else {
      RenderedSents(f.events, [S.Ended(t)], outcomes, refusal);
      OneRendered(S.Ended(t), outcomes[n], refusal);
      assert outcomes[n..] == [outcomes[n]] && outcomes[n] in outcomes;
      TailAfterRewrite(t, outcomes[n]);
      RewrittenReads(f.events, outcomes[..n], t, Rewrite(t, outcomes[n]));
    }
  }

  /** End to end, over every chunking, refused or not. The client of the filtered stream
      dispatches the transform's answers to the messages of the events sent, in order. If the
      stream was refused, those are the first admitted events, and the refusal comes last and
      is read. If not, they are all the events, and the tail's message follows if it was let
      stand; what the raw stream's client would have read is the same events' messages. */
  lemma ClientReadsTheFilter(cap: nat, chunks: seq<string>, last: string, outcomes: seq<Outcome>, refusal: string)
    returns (sent: seq<Event>)
    requires |outcomes| == |S.Finish(S.Run(cap, chunks), last)| && AllWritable(outcomes) && OneLine(refusal)
    ensures var s := S.Concat(chunks);
            var text := Rendered(S.Finish(S.Run(cap, chunks), last), outcomes, refusal);
            var n, t := |sent|, Split(s).tail + last;
            && sent <= S.Admitted(Split(s).events, cap) && n <= |outcomes|
            && if S.Run(cap, chunks).stopped then Dispatched(text) == Answers(sent, outcomes[..n]) + [refusal]
               else && sent == Split(s).events && (Whitespace.AllSpace(t) || n < |outcomes|)
                    && Dispatched(text)
                       == Answers(sent, outcomes[..n])
                          + (if Whitespace.AllSpace(t) || outcomes[n].Unchanged? || MessageOf(t) == [] then Dispatched(t) else [])
                    && Dispatched(s + last) == Messages(sent) + Dispatched(t)
  {
    hide *;
    sent := S.OnlyAdmittedEventsAreSent(cap, chunks);
    var s := S.Concat(chunks);
    FinishIs(S.Run(cap, chunks), last);
    if S.Run(cap, chunks).stopped {
      AdmittedFirst(s, cap);
      RefusedReads(s, sent, outcomes, refusal);
    } else {
      S.RunIsSplit(cap, chunks);
      SentsDiffer(sent, Split(s).events);
      assert S.Sents(sent) + [] == S.Sents(sent);
      assert S.Sents(Split(s).events) + [] == S.Sents(Split(s).events);
      EndedReads(s, last, outcomes, refusal);
      RawReads(s, last);
    }
  }

  lemma FinishIs(p: S.Progress, last: string)
    ensures S.Finish(p, last) == if p.stopped || Whitespace.AllSpace(p.pending + last) then p.out else p.out + [S.Ended(p.pending + last)]
  {}

  lemma AdmittedFirst(s: string, cap: nat)
    ensures S.Admitted(Split(s).events, cap) <= Split(s).events
  {}

  lemma SentsDiffer(a: seq<Event>, b: seq<Event>)
    ensures S.Sents(a) + [] == S.Sents(b) ==> a == b
  {
    if S.Sents(a) + [] == S.Sents(b) {
      assert |a| == |b|;
      forall i | 0 <= i < |a| ensures a[i] == b[i] {
        assert S.Sents(a)[i] == S.Sent(a[i]) && S.Sents(b)[i] == S.Sent(b[i]);
      }
    }
  }
}
