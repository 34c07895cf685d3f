/** The streaming event filter: events leave as soon as they are complete, under a byte
    cap. Run is what a sequence of chunks does; the class is the incremental code. */
module EventStream {
  import opened EventFraming
  import opened Utf8
  import opened Whitespace

  /** What the stream writes: a filtered event and its terminator, the refusal that ends
      it, or the unterminated remainder handed over when the upstream closes. */
  datatype Output = Sent(event: Event) | Refused | Ended(tail: string)
  datatype Progress = Progress(out: seq<Output>, pending: string, stopped: bool)

  function Sents(events: seq<Event>): (out: seq<Output>)
    ensures |out| == |events|
    ensures forall i | 0 <= i < |events| :: out[i] == Sent(events[i])
  {
    seq(|events|, i requires 0 <= i < |events| => Sent(events[i]))
  }

  predicate Fits(events: seq<Event>, cap: nat) {
    forall e | e in events :: Utf8Length(e.block) <= cap
  }

  /** The events before the first one over the cap. */
  function Admitted(events: seq<Event>, cap: nat): (r: seq<Event>)
    ensures r <= events && Fits(r, cap)
    ensures |r| < |events| ==> Utf8Length(events[|r|].block) > cap
  {
    if events == [] || Utf8Length(events[0].block) > cap then []
    else [events[0]] + Admitted(events[1..], cap)
  }

  /** Whether a text, read whole, holds something over the cap: a complete event or the
      unterminated rest. */
  predicate Trips(cap: nat, text: string) {
    !Fits(Split(text).events, cap) || Utf8Length(Split(text).tail) > cap
  }

  /** One chunk. */
  function Step(cap: nat, p: Progress, chunk: string): Progress {
    if p.stopped then p
    else
      var f := Split(p.pending + chunk);
      if Trips(cap, p.pending + chunk) then
        Progress(p.out + Sents(Admitted(f.events, cap)) + [Refused], "", true)
      else Progress(p.out + Sents(f.events), f.tail, false)
  }

  function Run(cap: nat, chunks: seq<string>): Progress {
    if chunks == [] then Progress([], "", false)
    else Step(cap, Run(cap, chunks[..|chunks| - 1]), chunks[|chunks| - 1])
  }

  /** The end of the upstream's body, with whatever the decoder still held. */
  function Finish(p: Progress, last: string): seq<Output> {
    if p.stopped || AllSpace(p.pending + last) then p.out else p.out + [Ended(p.pending + last)]
  }

  function Concat(chunks: seq<string>): string {
    if chunks == [] then "" else Concat(chunks[..|chunks| - 1]) + chunks[|chunks| - 1]
  }

  // ---- Byte counting ----

  lemma {:induction false} Utf8LengthAppend(a: string, b: string)
    ensures Utf8Length(a + b) == Utf8Length(a) + Utf8Length(b)
  {
    if a == "" {
      assert a + b == b;
    } else {
      assert (a + b)[1..] == a[1..] + b;
      Utf8LengthAppend(a[1..], b);
    }
  }

  lemma {:induction false} AsciiLength(s: string)
    requires forall c | c in s :: c as int < 0x80
    ensures Utf8Length(s) == |s|
  {
    if s != "" {
      assert s[0] in s;
      assert forall c | c in s[1..] :: c in s;
      AsciiLength(s[1..]);
    }
  }

  // ---- The cap and the cut ----

  lemma {:induction false} AdmittedAppend(a: seq<Event>, b: seq<Event>, cap: nat)
    requires Fits(a, cap)
    ensures Admitted(a + b, cap) == a + Admitted(b, cap)
  {
    if a == [] {
      assert a + b == b;
    } else {
      assert a[0] in a;
      assert (a + b)[1..] == a[1..] + b;
      assert forall e | e in a[1..] :: e in a;
      AdmittedAppend(a[1..], b, cap);
    }
  }

  lemma SentsAppend(a: seq<Event>, b: seq<Event>)
    ensures Sents(a + b) == Sents(a) + Sents(b)
  {}

  /** With nothing refused so far, what was sent and what is held are exactly the whole
      text's events and tail, however it was cut into chunks. */
  lemma {:induction false} RunIsSplit(cap: nat, chunks: seq<string>)
    ensures var p, f := Run(cap, chunks), Split(Concat(chunks));
            !p.stopped ==> p == Progress(Sents(f.events), f.tail, false)
  {
    if chunks != [] {
      var before := chunks[..|chunks| - 1];
      var chunk := chunks[|chunks| - 1];
      RunIsSplit(cap, before);
      SplitAppend(Concat(before), chunk);
      var p := Run(cap, before);
      if !p.stopped {
        SentsAppend(Split(Concat(before)).events, Split(p.pending + chunk).events);
      }
    }
  }

  /** The same for one more chunk: the verdict on it is the verdict on the whole text. */
  lemma StepIsWhole(cap: nat, before: seq<string>, chunk: string)
    requires !Run(cap, before).stopped && Fits(Split(Concat(before)).events, cap)
    ensures var text := Concat(before) + chunk;
            var p := Step(cap, Run(cap, before), chunk);
            p == if Trips(cap, text)
                 then Progress(Sents(Admitted(Split(text).events, cap)) + [Refused], "", true)
                 else Progress(Sents(Split(text).events), Split(text).tail, false)
  {
    RunIsSplit(cap, before);
    SplitAppend(Concat(before), chunk);
    var a := Split(Concat(before)).events;
    var b := Split(Run(cap, before).pending + chunk).events;
    SentsAppend(a, b);
    AdmittedAppend(a, b, cap);
    SentsAppend(a, Admitted(b, cap));
  }

  predicate TripsBy(cap: nat, chunks: seq<string>, k: nat) {
    0 < k <= |chunks| && Trips(cap, Concat(chunks[..k]))
  }

  predicate FirstTrips(cap: nat, chunks: seq<string>, k: nat) {
    TripsBy(cap, chunks, k) && forall j: nat | j < k :: !TripsBy(cap, chunks, j)
  }

  lemma ShorterRun(cap: nat, chunks: seq<string>, k: nat)
    requires 0 < |chunks|
    ensures k < |chunks| ==> TripsBy(cap, chunks, k) == TripsBy(cap, chunks[..|chunks| - 1], k)
    ensures TripsBy(cap, chunks, |chunks|)
            == Trips(cap, Concat(chunks[..|chunks| - 1]) + chunks[|chunks| - 1])
  {
    assert chunks[..|chunks|] == chunks;
    if k < |chunks| { assert chunks[..|chunks| - 1][..k] == chunks[..k]; }
  }

  lemma {:induction false} RunWithoutTrip(cap: nat, chunks: seq<string>)
    requires forall k: nat :: !TripsBy(cap, chunks, k)
    ensures !Run(cap, chunks).stopped && Fits(Split(Concat(chunks)).events, cap)
  {
    if chunks != [] {
      var before := chunks[..|chunks| - 1];
      forall k: nat ensures !TripsBy(cap, before, k) { ShorterRun(cap, chunks, k); }
      RunWithoutTrip(cap, before);
      ShorterRun(cap, chunks, |chunks|);
      StepIsWhole(cap, before, chunks[|chunks| - 1]);
    }
  }

  /** The first prefix that holds something over the cap decides everything written. */
  lemma {:induction false} RunAtTrip(cap: nat, chunks: seq<string>, k: nat)
    requires FirstTrips(cap, chunks, k)
    ensures Run(cap, chunks)
            == Progress(Sents(Admitted(Split(Concat(chunks[..k])).events, cap)) + [Refused], "", true)
  {
    hide Split, Admitted, Sents;
    var before := chunks[..|chunks| - 1];
    forall j: nat | j <= k ensures j < |chunks| ==> TripsBy(cap, chunks, j) == TripsBy(cap, before, j) {
      ShorterRun(cap, chunks, j);
    }
    if k < |chunks| {
      assert before[..k] == chunks[..k];
      RunAtTrip(cap, before, k);
    } else {
      RunWithoutTrip(cap, before);
      ShorterRun(cap, chunks, k);
      assert chunks[..k] == chunks;
      StepIsWhole(cap, before, chunks[|chunks| - 1]);
    }
  }

  /** The filter refuses exactly when some prefix of the chunks, read whole, holds
      something over the cap. */
  lemma RunVerdict(cap: nat, chunks: seq<string>)
    ensures Run(cap, chunks).stopped <==> exists k :: TripsBy(cap, chunks, k)
  {
    if k: nat :| TripsBy(cap, chunks, k) {
      var first := FirstTrip(cap, chunks);
      RunAtTrip(cap, chunks, first);
    } else {
      RunWithoutTrip(cap, chunks);
    }
  }

  /** Two chunkings of one text that are not refused write the same thing: what the
      reference splits the text into, then its tail unless that is blank. */
  lemma ChunkingDoesNotMatter(cap: nat, a: seq<string>, b: seq<string>, last: string)
    requires Concat(a) == Concat(b)
    requires !Run(cap, a).stopped && !Run(cap, b).stopped
    ensures Finish(Run(cap, a), last) == Finish(Run(cap, b), last)
    ensures var f := Split(Concat(a));
            Finish(Run(cap, a), last)
            == Sents(f.events) + if AllSpace(f.tail + last) then [] else [Ended(f.tail + last)]
  {
    RunIsSplit(cap, a);
    RunIsSplit(cap, b);
  }

  /** Whatever the chunking, the events sent are the first events of the whole text, each
      within the cap; a refusal is the last thing written, and nothing else is. */
  lemma OnlyAdmittedEventsAreSent(cap: nat, chunks: seq<string>) returns (sent: seq<Event>)
    ensures sent <= Admitted(Split(Concat(chunks)).events, cap)
    ensures Run(cap, chunks).out == Sents(sent) + if Run(cap, chunks).stopped then [Refused] else []
    ensures forall e | e in sent :: |BytesOf(e.block)| <= cap
  {
    RunVerdict(cap, chunks);
    forall e: Event ensures Utf8Length(e.block) == |BytesOf(e.block)| { LengthIsBytes(e.block); }
    hide Utf8Length;
    if Run(cap, chunks).stopped {
      var k := FirstTrip(cap, chunks);
      RunAtTrip(cap, chunks, k);
      sent := Admitted(Split(Concat(chunks[..k])).events, cap);
      ConcatOfPrefix(chunks, k);
      AdmittedOfPrefix(cap, Concat(chunks[..k]), Concat(chunks[k..]));
    } else {
      RunIsSplit(cap, chunks);
      RunWithoutTrip(cap, chunks);
      sent := Split(Concat(chunks)).events;
      AllAdmitted(sent, cap);
    }
  }

  lemma AdmittedOfPrefix(cap: nat, a: string, b: string)
    ensures Admitted(Split(a).events, cap) <= Admitted(Split(a + b).events, cap)
  {
    SplitAppend(a, b);
    AdmittedGrows(Split(a).events, Split(Split(a).tail + b).events, cap);
  }

  lemma AllAdmitted(events: seq<Event>, cap: nat)
    requires Fits(events, cap)
    ensures Admitted(events, cap) == events
  {
    AdmittedAppend(events, [], cap);
    assert events + [] == events;
  }

  lemma FirstTrip(cap: nat, chunks: seq<string>) returns (k: nat)
    requires exists k :: TripsBy(cap, chunks, k)
    ensures FirstTrips(cap, chunks, k)
  {
    hide TripsBy;
    var some: nat :| TripsBy(cap, chunks, some);
    var p := (i: nat) => TripsBy(cap, chunks, i);
    k := Least(p, some);
    forall j: nat | j < k ensures !TripsBy(cap, chunks, j) { assert !p(j); }
  }

  lemma Least(p: nat -> bool, some: nat) returns (k: nat)
    requires p(some)
    ensures p(k) && forall j: nat | j < k :: !p(j)
  {
    k := 0;
    while !p(k)
      invariant k <= some
      invariant forall j: nat | j < k :: !p(j)
      decreases some - k
    {
      k := k + 1;
    }
  }

  lemma {:induction false} ConcatOfPrefix(chunks: seq<string>, k: nat)
    requires k <= |chunks|
    ensures Concat(chunks) == Concat(chunks[..k]) + Concat(chunks[k..])
    decreases |chunks|
  {
    if k == |chunks| {
      assert chunks[..k] == chunks;
    } else {
      var n := |chunks| - 1;
      ConcatOfPrefix(chunks[..n], k);
      assert chunks[..n][..k] == chunks[..k];
      assert chunks[k..][..n - k] == chunks[..n][k..];
    }
  }

  lemma {:induction false} AdmittedGrows(a: seq<Event>, b: seq<Event>, cap: nat)
    ensures Admitted(a, cap) <= Admitted(a + b, cap)
  {
    if a != [] && Utf8Length(a[0].block) <= cap {
      assert (a + b)[1..] == a[1..] + b;
      AdmittedGrows(a[1..], b, cap);
    }
  }

  /** An event of more bytes than the cap is refused in every chunking. */
  lemma OversizedIsAlwaysRefused(cap: nat, chunks: seq<string>)
    requires exists e | e in Split(Concat(chunks)).events :: |BytesOf(e.block)| > cap
    ensures Run(cap, chunks).stopped
  {
    var e :| e in Split(Concat(chunks)).events && |BytesOf(e.block)| > cap;
    LengthIsBytes(e.block);
    assert chunks[..|chunks|] == chunks;
    assert chunks != [] ==> TripsBy(cap, chunks, |chunks|);
    RunVerdict(cap, chunks);
  }

  // ---- Which texts depend on their chunking ----

  /** How much of an event's end can be held before the event is complete: all but an LF that
      closes it, since a CR that might start a CRLF waits. */
  function Slack(end: string): nat {
    if end != "" && end[|end| - 1] == '\n' then |end| - 1 else |end|
  }

  /** Room for every event with as much of its end as can be held, and for the tail. */
  predicate Room(cap: nat, s: string) {
    && (forall e | e in Split(s).events :: Utf8Length(e.block) + Slack(e.end) <= cap)
    && Utf8Length(Split(s).tail) <= cap
  }

  /** A text is accepted in every chunking exactly when it has that room, and in some chunking
      exactly when it is accepted whole. */
  lemma AcceptedExactly(cap: nat, s: string)
    ensures (forall chunks | Concat(chunks) == s :: !Run(cap, chunks).stopped) <==> Room(cap, s)
    ensures (exists chunks :: Concat(chunks) == s && !Run(cap, chunks).stopped) <==> !Trips(cap, s)
  {
    hide Trips, Room, Run, Concat;
    OneChunk(cap, s);
    if !Room(cap, s) {
      var n := TrippingPrefix(cap, s);
      TwoChunks(cap, s, n);
    } else {
      forall chunks | Concat(chunks) == s ensures !Run(cap, chunks).stopped { RoomIsEnough(cap, chunks); }
    }
    if chunks :| Concat(chunks) == s && !Run(cap, chunks).stopped {
      AcceptedWhole(cap, chunks);
    }
  }

  /** A text is accepted in one chunking and refused in another exactly when it is accepted
      whole and lacks that room. */
  lemma ChunkingDecidesNearTheCap(cap: nat, s: string)
    ensures (exists a, b :: Concat(a) == s == Concat(b) && !Run(cap, a).stopped && Run(cap, b).stopped)
            <==> !Trips(cap, s) && !Room(cap, s)
  {
    hide Trips, Room, Run, Concat;
    AcceptedExactly(cap, s);
    if !Trips(cap, s) && !Room(cap, s) {
      var a :| Concat(a) == s && !Run(cap, a).stopped;
      var b :| Concat(b) == s && Run(cap, b).stopped;
      assert Concat(a) == s == Concat(b) && !Run(cap, a).stopped && Run(cap, b).stopped;
    }
  }

  lemma AcceptedWhole(cap: nat, chunks: seq<string>)
    requires !Run(cap, chunks).stopped
    ensures !Trips(cap, Concat(chunks))
  {
    RunVerdict(cap, chunks);
    assert chunks[..|chunks|] == chunks;
    if chunks == [] {
      NothingTrips(cap, "");
    } else {
      assert !TripsBy(cap, chunks, |chunks|);
    }
  }

  lemma NothingTrips(cap: nat, s: string)
    ensures Trips(cap, s) ==> s != ""
  {}

  lemma TwoChunks(cap: nat, s: string, n: nat)
    requires n <= |s| && Trips(cap, s[..n])
    ensures Concat([s[..n], s[n..]]) == s && Run(cap, [s[..n], s[n..]]).stopped
  {
    hide Trips;
    var chunks := [s[..n], s[n..]];
    assert chunks[..1] == [s[..n]] && chunks[..2] == chunks;
    OneChunk(cap, s[..n]);
    assert Concat(chunks) == Concat([s[..n]]) + s[n..];
    assert s[..n] + s[n..] == s;
    assert TripsBy(cap, chunks, 1);
    RunVerdict(cap, chunks);
  }

  /** Without room, some part of the text, read so far, trips the cap. */
  lemma {:induction false} TrippingPrefix(cap: nat, s: string) returns (n: nat)
    requires !Room(cap, s)
    ensures n <= |s| && Trips(cap, s[..n])
    decreases |s|
  {
    hide Find, First, Rest, Split, Utf8Length, Slack;
    assert s[..|s|] == s;
    if Unterminated(s) {
      Unended(s);
      n := |s|;
    } else {
      TailOfRest(s);
      var e := First(s);
      if Utf8Length(e.block) > cap || Utf8Length(Split(s).tail) > cap {
        n := |s|;
      } else if Utf8Length(e.block) + Slack(e.end) > cap {
        n := |e.block| + Slack(e.end);
        HeldFirst(s);
        Unended(s[..n]);
      } else {
        var k := TrippingPrefix(cap, Rest(s));
        n := Find(s, 0).at + Find(s, 0).len + k;
        TripsAfterFirst(cap, s, k);
      }
    }
  }

  lemma Unended(s: string)
    requires Unterminated(s)
    ensures Split(s) == Frames([], s)
  {}

  lemma TailOfRest(s: string)
    requires !Unterminated(s)
    ensures Split(s).tail == Split(Rest(s)).tail
    ensures forall e :: e in Split(s).events <==> e == First(s) || e in Split(Rest(s)).events
  {}

  /** An event with all of its end that can be held is not complete, and weighs so much. */
  lemma HeldFirst(s: string)
    requires !Unterminated(s)
    ensures var n := |First(s).block| + Slack(First(s).end);
            && n <= |s| && Unterminated(s[..n])
            && Utf8Length(s[..n]) == Utf8Length(First(s).block) + Slack(First(s).end)
  {
    FirstIs(s);
    CompleteEnds(s);
    hide Find, EventEnd, First, Utf8Length, Unterminated, Slack;
    var m := Find(s, 0);
    var n := m.at + Slack(First(s).end);
    SlackStopsShort(s, m.at, m.len);
    HeldIsShort(s, n);
    EndIsAscii(s, m.at);
    SliceAscii(s, m.at, n);
  }

  lemma SlackStopsShort(s: string, at: nat, len: nat)
    requires 0 < len && at + len <= |s|
    ensures var n := at + Slack(s[at..at + len]);
            at <= n <= at + len && (n == at + len ==> s[n - 1] != '\n')
  {}

  lemma SliceAscii(s: string, i: nat, n: nat)
    requires i <= n <= |s| && forall k | i <= k < n :: s[k] == '\r' || s[k] == '\n'
    ensures Utf8Length(s[..n]) == Utf8Length(s[..i]) + (n - i)
  {
    hide Utf8Length;
    Utf8LengthAppend(s[..i], s[i..n]);
    assert s[..i] + s[i..n] == s[..n];
    AsciiLength(s[i..n]);
  }

  /** A part of a text that stops short of the first event's end, or at its last CR, holds no
      complete event. */
  lemma HeldIsShort(s: string, n: nat)
    requires !Unterminated(s)
    requires var m := Find(s, 0);
             m.Match? && n <= m.at + m.len <= |s| && (n == m.at + m.len && n > 0 ==> s[n - 1] == '\r')
    ensures Unterminated(s[..n])
  {
    hide Find, EventEnd;
    assert s == s[..n] + s[n..];
    if !Unterminated(s[..n]) {
      FindIsStable(s[..n], s[n..]);
      CompleteEnds(s[..n]);
    }
  }

  lemma CompleteEnds(s: string)
    requires !Unterminated(s)
    ensures var m := Find(s, 0);
            m.Match? && m.at + m.len <= |s| && (m.at + m.len == |s| ==> s[|s| - 1] != '\r')
    ensures var m := Find(s, 0); s[m.at + m.len - 1] == '\r' || s[m.at + m.len - 1] == '\n'
  {
    hide Find;
    EndIsAscii(s, Find(s, 0).at);
  }

  lemma EndIsAscii(s: string, at: nat)
    requires EventEnd(s, at) > 0
    ensures forall i | at <= i < at + EventEnd(s, at) :: s[i] == '\r' || s[i] == '\n'
  {}

  /** What trips after the first event trips behind it. */
  lemma TripsAfterFirst(cap: nat, s: string, k: nat)
    requires !Unterminated(s) && k <= |Rest(s)| && Trips(cap, Rest(s)[..k])
    ensures var n := Find(s, 0).at + Find(s, 0).len + k;
            n <= |s| && Trips(cap, s[..n])
  {
    hide *;
    NothingTrips(cap, Rest(s)[..k]);
    RestIs(s);
    var m := Find(s, 0);
    var part := s[..m.at + m.len + k];
    SamePart(s, m.at + m.len + k);
    FirstIs(s);
    FirstIs(part);
    RestIs(part);
    PartSlices(s, m.at, m.at + m.len, m.at + m.len + k);
    TailOfRest(part);
    TripsToo(cap, Rest(part), part);
  }

  lemma RestIs(s: string)
    requires !Unterminated(s)
    ensures Find(s, 0).Match? && Find(s, 0).at + Find(s, 0).len <= |s| && Rest(s) == s[Find(s, 0).at + Find(s, 0).len..]
  {
    hide Find;
  }

  lemma TripsToo(cap: nat, x: string, y: string)
    requires Trips(cap, x) && Split(y).tail == Split(x).tail
    requires forall e | e in Split(x).events :: e in Split(y).events
    ensures Trips(cap, y)
  {
    hide Split, Utf8Length;
  }

  lemma PartSlices(s: string, i: nat, j: nat, n: nat)
    requires i <= j <= n <= |s|
    ensures s[..n][..i] == s[..i] && s[..n][i..j] == s[i..j] && s[..n][j..] == s[j..][..n - j]
  {}

  /** A part of a text that reaches past its first event has the same first event. */
  lemma SamePart(s: string, n: nat)
    requires !Unterminated(s) && Find(s, 0).at + Find(s, 0).len < n <= |s|
    ensures !Unterminated(s[..n]) && Find(s[..n], 0) == Find(s, 0)
  {
    var part, rest := s[..n], s[n..];
    assert s == part + rest;
    var m := Find(s, 0);
    EventEndShrinks(part, rest, m.at);
    FoundBefore(part, m.at);
    var f := Find(part, 0);
    EventEndGrows(part, rest, f.at);
  }

  /** In a text with room, no chunking is refused. */
  lemma RoomIsEnough(cap: nat, chunks: seq<string>)
    requires Room(cap, Concat(chunks))
    ensures !Run(cap, chunks).stopped
  {
    hide Room, Trips;
    forall k: nat
      ensures !TripsBy(cap, chunks, k)
    {
      if 0 < k <= |chunks| {
        ConcatOfPrefix(chunks, k);
        PrefixDoesNotTrip(cap, Concat(chunks[..k]), Concat(chunks[k..]));
      }
    }
    RunWithoutTrip(cap, chunks);
  }

  lemma PrefixDoesNotTrip(cap: nat, a: string, b: string)
    requires Room(cap, a + b)
    ensures !Trips(cap, a)
  {
    SplitAppend(a, b);
    TailIsUnterminated(a);
    var held := Split(a).tail;
    assert forall e | e in Split(a).events :: e in Split(a + b).events;
    if Unterminated(held + b) {
      Utf8LengthAppend(held, b);
    } else {
      assert First(held + b) in Split(held + b).events;
      HeldBytes(held, b);
    }
  }

  /** What is held of an arriving event weighs at most its block and the slack of its end. */
  lemma HeldBytes(held: string, b: string)
    requires Unterminated(held) && !Unterminated(held + b)
    ensures var e := First(held + b);
            Utf8Length(held) <= Utf8Length(e.block) + Slack(e.end)
  {
    HeldPartIsSmall(held, b);
    var whole := held + b;
    var m := Find(whole, 0);
    var block := First(whole).block;
    if |held| <= m.at {
      assert block == held + block[|held|..];
      Utf8LengthAppend(held, block[|held|..]);
    } else {
      assert held == block + held[m.at..];
      Utf8LengthAppend(block, held[m.at..]);
      TerminatorIsAscii(held, b, m.at);
      AsciiLength(held[m.at..]);
      HeldEnd(held, b);
    }
  }

  /** At most the slack of its end is held of an event. */
  lemma HeldEnd(held: string, b: string)
    requires Unterminated(held) && !Unterminated(held + b)
    ensures var m := Find(held + b, 0);
            |held| <= m.at + Slack(First(held + b).end)
  {
    hide Find, EventEnd, First, Unterminated;
    var whole := held + b;
    var m := Find(whole, 0);
    CompleteEnds(whole);
    FirstIs(whole);
    HeldReaches(held, b);
    assert whole[m.at..m.at + m.len][m.len - 1] == whole[m.at + m.len - 1];
  }

  /** An event still arriving is held at most up to its end's last character, and to that only
      when it is a CR. */
  lemma HeldReaches(held: string, b: string)
    requires Unterminated(held) && !Unterminated(held + b)
    ensures var m := Find(held + b, 0);
            var n := m.at + m.len;
            |held| <= n && (|held| == n ==> held[n - 1] == '\r')
  {
    var m := Find(held + b, 0);
    var n := m.at + m.len;
    if n < |held| || (n == |held| && held[|held| - 1] != '\r') {
      EventEndShrinks(held, b, m.at);
      FoundBefore(held, m.at);
      EventEndGrows(held, b, Find(held, 0).at);
    }
  }

  /** Three bytes under the cap is safe in every chunking. */
  lemma RoomForATerminatorIsNeverRefused(cap: nat, chunks: seq<string>)
    requires var f := Split(Concat(chunks));
             (forall e | e in f.events :: Utf8Length(e.block) + 3 <= cap) && Utf8Length(f.tail) <= cap
    ensures !Run(cap, chunks).stopped
  {
    SlackIsSmall(Concat(chunks));
    assert Room(cap, Concat(chunks));
    hide Room, Concat, Run;
    AcceptedExactly(cap, Concat(chunks));
  }

  lemma {:induction false} SlackIsSmall(s: string)
    ensures forall e | e in Split(s).events :: Slack(e.end) <= 3
    decreases |s|
  {
    if !Unterminated(s) {
      TailOfRest(s);
      SlackIsSmall(Rest(s));
      var m := Find(s, 0);
      assert m.len == EventEnd(s, m.at);
      assert First(s).end[m.len - 1] == s[m.at + m.len - 1];
    }
  }

  lemma TerminatorIsAscii(held: string, b: string, at: nat)
    requires Unterminated(held) && at < |held| <= at + 3
    requires EventEnd(held + b, at) > 0
    ensures forall c | c in held[at..] :: c as int < 0x80
  {
    var whole := held + b;
    var n := EventEnd(whole, at);
    if at + n < |held| {
      EventEndShrinks(held, b, at);
      FoundBefore(held, at);
      assert held[at..] <= held[Find(held, 0).at..] || Find(held, 0).at <= at;
    }
    forall c | c in held[at..]
      ensures c as int < 0x80
    {
      var i :| at <= i < |held| && held[i] == c;
      assert whole[i] == c;
    }
  }

  lemma OneChunk(cap: nat, chunk: string)
    ensures Concat([chunk]) == chunk
    ensures Run(cap, [chunk]).stopped == Trips(cap, chunk)
  {
    assert [chunk][..0] == [];
    assert "" + chunk == chunk;
    assert Concat([chunk]) == Concat([]) + chunk;
    assert Run(cap, [chunk]) == Step(cap, Run(cap, []), chunk);
  }

  /** Two bytes is not enough: one event, within the cap by two bytes, goes out when it
      arrives whole and is refused when its last line end is cut. */
  lemma TwoBytesAreNotEnough()
    ensures exists a, b :: Concat(a) == "a\r\n\r\n" == Concat(b) && !Run(3, a).stopped && Run(3, b).stopped
  {
    var whole := "a\r\n\r\n";
    LacksRoom(whole);
    hide Trips, Room, Run, Concat;
    ChunkingDecidesNearTheCap(3, whole);
  }

  lemma LacksRoom(whole: string)
    requires whole == "a\r\n\r\n"
    ensures !Trips(3, whole) && !Room(3, whole)
  {
    assert EventEnd(whole, 1) == 4;
    assert Find(whole, 0) == Match(1, 4);
    var e := First(whole);
    assert e == Event("a", "\r\n\r\n");
    assert Rest(whole) == "";
    assert Split(whole) == Frames([e] + [], "");
    AsciiLength("a");
    assert e in Split(whole).events;
  }

  // ---- The incremental code ----

  /** `done` are the first events of `all`, each within the cap, and `rest` holds the others. */
  predicate Account(all: string, done: seq<Event>, rest: string, cap: nat) {
    Split(all) == Frames(done + Split(rest).events, Split(rest).tail) && Fits(done, cap)
  }

  lemma NothingDone(all: string, cap: nat)
    ensures Account(all, [], all, cap)
  {
    Associative([], [], Split(all).events);
  }

  lemma TakeOne(all: string, done: seq<Event>, rest: string, cap: nat)
    requires Account(all, done, rest, cap)
    requires !Unterminated(rest) && Utf8Length(First(rest).block) <= cap
    ensures Account(all, done + [First(rest)], Rest(rest), cap)
    ensures Sents(done + [First(rest)]) == Sents(done) + [Sent(First(rest))]
  {
    Associative(done, [First(rest)], Split(Rest(rest)).events);
  }

  lemma NoMoreEvents(all: string, done: seq<Event>, rest: string, cap: nat)
    requires Account(all, done, rest, cap) && Unterminated(rest)
    ensures Split(all) == Frames(done, rest) && Admitted(done, cap) == done
    ensures Trips(cap, all) <==> Utf8Length(rest) > cap
  {
    assert done + [] == done;
    AdmittedAppend(done, [], cap);
  }

  lemma EventOverCap(all: string, done: seq<Event>, rest: string, cap: nat)
    requires Account(all, done, rest, cap)
    requires !Unterminated(rest) && Utf8Length(First(rest).block) > cap
    ensures Trips(cap, all) && Admitted(Split(all).events, cap) == done
  {
    AdmittedAppend(done, Split(rest).events, cap);
    assert done + [] == done;
    assert First(rest) in Split(all).events;
  }

  lemma BytesOfSlice(s: string, n: nat)
    requires n <= |s|
    ensures Utf8Length(s[n..]) == Utf8Length(s) - Utf8Length(s[..n])
  {
    Utf8LengthAppend(s[..n], s[n..]);
    assert s == s[..n] + s[n..];
  }

  lemma NothingScanned(s: string)
    ensures Unterminated(s[..0])
  {}

  class EventStream {
    const maxEventBytes: nat
    var buffered: string
    var scanned: nat
    var bufferedBytes: int
    var terminated: bool
    var out: seq<Output>
    /** All text decoded so far, the searches made, and the positions they tried. */
    ghost var text: string
    ghost var searches: nat
    ghost var tried: nat

    ghost function Abs(): Progress
      reads this
    {
      Progress(out, buffered, terminated)
    }

    /** Between chunks: the byte count is exact and within the cap, and everything held
        has been searched without finding a complete event end. */
    ghost predicate Valid()
      reads this
    {
      && bufferedBytes == Utf8Length(buffered) <= maxEventBytes
      && (terminated ==> buffered == "")
      && (!terminated ==> scanned == |buffered| && Unterminated(buffered))
      && |buffered| <= |text|
      && tried <= |text| + 3 * searches
    }

    constructor (cap: nat)
      ensures Valid() && maxEventBytes == cap
      ensures Abs() == Run(cap, []) && text == "" && searches == 0
    {
      maxEventBytes := cap;
      buffered, scanned, bufferedBytes, terminated, out := "", 0, 0, false, [];
      text, searches, tried := "", 0, 0;
    }

    /** The leftmost event end of the buffer, looking only from three characters before
        where the last search ended. */
    method Search() returns (found: Match)
      requires scanned <= |buffered| && Unterminated(buffered[..scanned])
      modifies this`searches, this`tried
      ensures found == Find(buffered, 0)
      ensures searches == old(searches) + 1
      ensures found.NoMatch? ==> tried <= old(tried) + |buffered| - scanned + 3
      ensures found.Match? ==> tried <= old(tried) + found.at + 1 - scanned + 3
    {
      var from := if scanned < OVERLAP then 0 else scanned - OVERLAP;
      found := Find(buffered[from..], 0);
      searches, tried := searches + 1, tried + if found.Match? then found.at + 1 else |buffered| - from;
      RestartFindsTheSame(buffered, scanned);
      found := found.Shift(from);
    }

    /** Send every complete event; false when one is over the cap, or the rest is. */
    method Drain() returns (ok: bool)
      requires bufferedBytes == Utf8Length(buffered) && |buffered| <= |text|
      requires scanned <= |buffered| && Unterminated(buffered[..scanned])
      requires tried <= |text| - |buffered| + scanned + 3 * searches
      modifies this`buffered, this`scanned, this`bufferedBytes, this`out, this`searches, this`tried
      ensures ok <==> !Trips(maxEventBytes, old(buffered))
      ensures var f := Split(old(buffered));
              if ok then
                && out == old(out) + Sents(f.events) && buffered == f.tail
                && bufferedBytes == Utf8Length(buffered) && scanned == |buffered| && Unterminated(buffered)
              else
                out == old(out) + Sents(Admitted(f.events, maxEventBytes))
      ensures |buffered| <= |text| && tried <= |text| + 3 * searches
      ensures searches - old(searches) <= |out| - |old(out)| + 1
    {
      hide Find, Split, Fits, Utf8Length, Account;
      ghost var done: seq<Event> := [];
      ghost var all := buffered;
      NothingDone(all, maxEventBytes);
      while true
        invariant bufferedBytes == Utf8Length(buffered) && |buffered| <= |text|
        invariant scanned <= |buffered| && Unterminated(buffered[..scanned])
        invariant tried <= |text| - |buffered| + scanned + 3 * searches
        invariant Account(all, done, buffered, maxEventBytes) && out == old(out) + Sents(done)
        invariant searches - old(searches) == |done|
        decreases |buffered|
      {
        var found := Search();
        if Incomplete(buffered, found) {
          scanned := |buffered|;
          assert buffered[..scanned] == buffered;
          NoMoreEvents(all, done, buffered, maxEventBytes);
          return bufferedBytes <= maxEventBytes;
        }
        var next := found.at + found.len;
        var event := Event(buffered[..found.at], buffered[found.at..next]);
        if Utf8Length(event.block) > maxEventBytes {
          EventOverCap(all, done, buffered, maxEventBytes);
          return false;
        }
        TakeOne(all, done, buffered, maxEventBytes);
        BytesOfSlice(buffered, next);
        done := done + [event];
        bufferedBytes := bufferedBytes - Utf8Length(buffered[..next]);
        out := out + [Sent(event)];
        buffered := buffered[next..];
        scanned := 0;
        NothingScanned(buffered);
      }
    }

    /** One chunk of decoded text. After a refusal the stream takes nothing more. */
    method Transform(chunk: string)
      requires Valid()
      modifies this
      ensures Valid()
      ensures Abs() == Step(maxEventBytes, old(Abs()), chunk)
      ensures text == if old(terminated) then old(text) else old(text) + chunk
      ensures searches - old(searches) <= |out| - |old(out)| + 1
    {
      if terminated { return; }
      text := text + chunk;
      Utf8LengthAppend(buffered, chunk);
      assert (buffered + chunk)[..scanned] == buffered;
      buffered := buffered + chunk;
      bufferedBytes := bufferedBytes + Utf8Length(chunk);
      var ok := Drain();
      if ok { return; }
      out := out + [Refused];
      buffered := "";
      bufferedBytes := 0;
      terminated := true;
    }

    /** The upstream closed. The oversize branch is dead: between chunks the held bytes
        are within the cap, and the decoder's last characters are not counted. */
    method Flush(last: string)
      requires Valid()
      modifies this
      ensures out == Finish(old(Abs()), last)
    {
      if terminated { return; }
      buffered := buffered + last;
      if AllSpace(buffered) { return; }
      out := out + [if bufferedBytes > maxEventBytes then Refused else Ended(buffered)];
    }
  }

  /** A whole response: every chunk in turn, then the end. */
  method FilterEventStream(cap: nat, chunks: seq<string>, last: string) returns (out: seq<Output>)
    ensures out == Finish(Run(cap, chunks), last)
  {
    var stream := new EventStream(cap);
    for i := 0 to |chunks|
      invariant fresh(stream) && stream.Valid() && stream.maxEventBytes == cap
      invariant stream.Abs() == Run(cap, chunks[..i])
    {
      assert chunks[..i + 1][..i] == chunks[..i];
      stream.Transform(chunks[i]);
    }
    assert chunks[..|chunks|] == chunks;
    stream.Flush(last);
    out := stream.out;
  }
}
