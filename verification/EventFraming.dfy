/** How a server-sent-event stream falls into events: the terminator pattern, its
    leftmost match, and the reference reading that splits a whole text at once.
    Nothing here knows about chunks; EventStream reads the same text piecemeal. */
module EventFraming {

  /** The longest event end is CRLF twice, so one can straddle a chunk edge by three. */
  const OVERLAP := 3

  /** The length of the line end at `i`, or 0: CRLF, a CR that no LF follows, or LF. */
  function LineEnd(s: string, i: nat): (n: nat)
    ensures n <= 2 && (n > 0 ==> i + n <= |s|)
  {
    if i >= |s| then 0
    else if s[i] == '\n' then 1
    else if s[i] != '\r' then 0
    else if i + 1 < |s| && s[i + 1] == '\n' then 2
    else 1
  }

  /** The length of the event end (two line ends in a row) at `i`, or 0. */
  function EventEnd(s: string, i: nat): (n: nat)
    ensures n == 0 || 2 <= n <= 4
    ensures n > 0 ==> i + n <= |s|
    ensures n == 4 ==> s[i + 3] == '\n'
  {
    var first := LineEnd(s, i);
    var second := if first == 0 then 0 else LineEnd(s, i + first);
    if second == 0 then 0 else first + second
  }

  datatype Match = NoMatch | Match(at: nat, len: nat) {
    function Shift(offset: nat): Match {
      if NoMatch? then NoMatch else Match(at + offset, len)
    }
  }

  /** The leftmost event end at or after `i`, which is what the pattern's search reports. */
  function Find(s: string, i: nat): (m: Match)
    requires i <= |s|
    ensures m.NoMatch? ==> forall p | i <= p < |s| :: EventEnd(s, p) == 0
    ensures m.Match? ==> i <= m.at && m.len == EventEnd(s, m.at) > 0
    ensures m.Match? ==> forall p | i <= p < m.at :: EventEnd(s, p) == 0
    decreases |s| - i
  {
    if i == |s| then NoMatch
    else if EventEnd(s, i) > 0 then Match(i, EventEnd(s, i))
    else Find(s, i + 1)
  }

  /** The match cannot be relied on yet: nothing was found, or what was found reaches the end
      of the text with a CR, and the next character could be the LF that belongs to it. */
  predicate Incomplete(s: string, m: Match) {
    m.NoMatch? || (s != "" && s[|s| - 1] == '\r' && m.at + m.len == |s|)
  }

  /** Whether a text holds no complete event end at all. */
  predicate Unterminated(s: string) {
    Incomplete(s, Find(s, 0))
  }

  datatype Event = Event(block: string, end: string)
  datatype Frames = Frames(events: seq<Event>, tail: string)

  /** The first event of a text that holds a complete one. */
  function First(s: string): (e: Event)
    requires !Unterminated(s)
  {
    var m := Find(s, 0);
    Event(s[..m.at], s[m.at..m.at + m.len])
  }

  /** What follows the first event. */
  function Rest(s: string): (r: string)
    requires !Unterminated(s)
    ensures |r| < |s|
  {
    var m := Find(s, 0);
    s[m.at + m.len..]
  }

  /** The reference: cut the whole text at each leftmost event end in turn. */
  function Split(s: string): (f: Frames)
    decreases |s|
  {
    if Unterminated(s) then Frames([], s)
    else
      var rest := Split(Rest(s));
      Frames([First(s)] + rest.events, rest.tail)
  }

  function Text(events: seq<Event>): string {
    if events == [] then "" else events[0].block + events[0].end + Text(events[1..])
  }

  lemma TextOfCons(e: Event, events: seq<Event>)
    ensures Text([e] + events) == e.block + e.end + Text(events)
  {
    assert ([e] + events)[1..] == events;
  }

  // ---- What one search sees depends only on the characters under it ----

  lemma LineEndOfSuffix(s: string, from: nat, i: nat)
    requires from <= |s|
    ensures LineEnd(s[from..], i) == LineEnd(s, from + i)
  {}

  lemma EventEndOfSuffix(s: string, from: nat, i: nat)
    requires from <= |s|
    ensures EventEnd(s[from..], i) == EventEnd(s, from + i)
  {
    LineEndOfSuffix(s, from, i);
    LineEndOfSuffix(s, from, i + LineEnd(s, from + i));
  }

  /** Searching a slice and shifting the answer is searching from that position. */
  lemma {:induction false} FindInSlice(s: string, from: nat, i: nat)
    requires from + i <= |s|
    ensures Find(s[from..], i).Shift(from) == Find(s, from + i)
    decreases |s| - i
  {
    if from + i < |s| {
      EventEndOfSuffix(s, from, i);
      if EventEnd(s, from + i) == 0 {
        FindInSlice(s, from, i + 1);
      }
    }
  }

  /** A line end read short of the last character is the same in any longer text. */
  lemma LineEndStable(a: string, b: string, i: nat)
    requires i < |a|
    requires i + 1 < |a| || a[i] != '\r'
    ensures LineEnd(a + b, i) == LineEnd(a, i)
  {}

  /** More text can stretch an event end's last CR to a CRLF, but never undo it. */
  lemma EventEndGrows(a: string, b: string, i: nat)
    requires EventEnd(a, i) > 0
    ensures EventEnd(a, i) <= EventEnd(a + b, i) <= EventEnd(a, i) + 1
    ensures i + EventEnd(a, i) < |a| || a[|a| - 1] != '\r' ==> EventEnd(a + b, i) == EventEnd(a, i)
  {
    LineEndStable(a, b, i);
    var j := i + LineEnd(a, i);
    if j + 1 < |a| || a[j] != '\r' { LineEndStable(a, b, j); }
  }

  /** A match in a longer text that stops short of the shorter one's end was there already. */
  lemma EventEndShrinks(a: string, b: string, i: nat)
    requires EventEnd(a + b, i) > 0
    requires i + EventEnd(a + b, i) < |a| || (i + EventEnd(a + b, i) == |a| && a[|a| - 1] != '\r')
    ensures EventEnd(a, i) == EventEnd(a + b, i)
  {
    LineEndStable(a, b, i);
    var j := i + LineEnd(a, i);
    LineEndStable(a, b, j);
  }

  /** A match that is new in the longer text reaches past the end of the shorter one, or
      touches its trailing CR: so it starts within three characters of that end. */
  lemma NewMatchIsNear(a: string, b: string, i: nat)
    requires Unterminated(a)
    requires EventEnd(a + b, i) > 0
    ensures |a| < i + 4
  {
    if |a| >= i + 4 {
      EventEndShrinks(a, b, i);
      FoundBefore(a, i);
    }
  }

  /** Any match bounds the leftmost one. */
  lemma FoundBefore(s: string, i: nat)
    requires EventEnd(s, i) > 0
    ensures Find(s, 0).Match? && Find(s, 0).at <= i
  {}

  /** Stepping the search back three characters from where the last one ended finds
      exactly what a search of the whole buffer would find. */
  lemma RestartFindsTheSame(s: string, scanned: nat)
    requires scanned <= |s| && Unterminated(s[..scanned])
    ensures var from := if scanned < OVERLAP then 0 else scanned - OVERLAP;
            Find(s[from..], 0).Shift(from) == Find(s, 0)
  {
    var from := if scanned < OVERLAP then 0 else scanned - OVERLAP;
    FindInSlice(s, from, 0);
    var searched := s[..scanned];
    assert s == searched + s[scanned..];
    forall p | 0 <= p < from
      ensures EventEnd(s, p) == 0
    {
      if EventEnd(s, p) > 0 { NewMatchIsNear(searched, s[scanned..], p); }
    }
    FindSkips(s, 0, from);
  }

  lemma {:induction false} FindSkips(s: string, i: nat, from: nat)
    requires i <= from <= |s|
    requires forall p | i <= p < from :: EventEnd(s, p) == 0
    ensures Find(s, i) == Find(s, from)
    decreases from - i
  {
    if i < from { FindSkips(s, i + 1, from); }
  }

  /** Once an event end is complete, no later text moves or changes it. */
  lemma FindIsStable(a: string, b: string)
    requires !Unterminated(a)
    ensures Find(a + b, 0) == Find(a, 0)
    ensures !Unterminated(a + b)
  {
    var m := Find(a, 0);
    EventEndGrows(a, b, m.at);
    forall p | 0 <= p < m.at
      ensures EventEnd(a + b, p) == 0
    {
      if EventEnd(a + b, p) > 0 { NoEarlierMatch(a, b, p, m.at); }
    }
    assert EventEnd(a + b, m.at) == m.len;
    FoundBefore(a + b, m.at);
  }

  lemma CompleteIsStable(a: string, b: string)
    requires !Unterminated(a)
    ensures !Unterminated(a + b)
    ensures First(a + b) == First(a) && Rest(a + b) == Rest(a) + b
  {
    FindIsStable(a, b);
    var m := Find(a, 0);
    SlicesOfPrefix(a, b, m.at, m.at + m.len);
  }

  lemma SlicesOfPrefix(a: string, b: string, i: nat, j: nat)
    requires i <= j <= |a|
    ensures (a + b)[..i] == a[..i] && (a + b)[i..j] == a[i..j] && (a + b)[j..] == a[j..] + b
  {}

  lemma NoEarlierMatch(a: string, b: string, p: nat, at: nat)
    requires p < at && EventEnd(a, at) > 0
    requires EventEnd(a + b, p) > 0
    ensures EventEnd(a, p) > 0
  {
    LineEndStable(a, b, p);
    var j := p + LineEnd(a, p);
    if j <= at { LineEndStable(a, b, j); }
  }

  /** Reading in two parts is reading at once: the events complete in `a` stand, and the
      rest come from what `a` left over followed by `b`. */
  lemma {:induction false} SplitAppend(a: string, b: string)
    ensures var f := Split(a);
            Split(a + b) == Frames(f.events + Split(f.tail + b).events, Split(f.tail + b).tail)
    decreases |a|
  {
    if !Unterminated(a) {
      CompleteIsStable(a, b);
      SplitAppend(Rest(a), b);
      assert Split(a + b).tail == Split(Split(a).tail + b).tail;
      var later := Split(Split(a).tail + b).events;
      calc {
        Split(a + b).events;
        [First(a)] + Split(Rest(a) + b).events;
        [First(a)] + (Split(Rest(a)).events + later);
        { Associative([First(a)], Split(Rest(a)).events, later); }
        Split(a).events + later;
      }
    } else {
      Associative([], [], Split(a + b).events);
    }
  }

  lemma Associative(a: seq<Event>, b: seq<Event>, c: seq<Event>)
    ensures a + (b + c) == (a + b) + c
    ensures [] + c == c
  {}

  /** What is left over holds no complete event end. */
  lemma {:induction false} TailIsUnterminated(s: string)
    ensures Unterminated(Split(s).tail)
    ensures Split(Split(s).tail) == Frames([], Split(s).tail)
    decreases |s|
  {
    if !Unterminated(s) { TailIsUnterminated(Rest(s)); }
  }

  /** Splitting loses nothing: the pieces in order are the text. */
  lemma {:induction false} SplitIsLossless(s: string)
    ensures Text(Split(s).events) + Split(s).tail == s
    decreases |s|
  {
    if !Unterminated(s) {
      SplitIsLossless(Rest(s));
      TextOfCons(First(s), Split(Rest(s)).events);
      FirstAndRest(s);
    }
  }

  lemma FirstAndRest(s: string)
    requires !Unterminated(s)
    ensures First(s).block + First(s).end + Rest(s) == s
  {}

  /** Each event end is a line end pair, and no event end starts earlier in its event. */
  lemma {:induction false} EventsAreLeftmost(s: string, k: nat)
    requires k < |Split(s).events|
    ensures var e := Split(s).events[k];
            var whole := e.block + e.end;
            EventEnd(whole, |e.block|) == |e.end| > 0
            && forall p | 0 <= p < |e.block| :: EventEnd(whole, p) == 0
    decreases |s|
  {
    hide EventEnd, Find, Unterminated;
    if k > 0 {
      EventsAreLeftmost(Rest(s), k - 1);
    } else {
      FirstIsLeftmost(s);
    }
  }

  lemma FirstIsLeftmost(s: string)
    requires !Unterminated(s)
    ensures var e := First(s);
            var whole := e.block + e.end;
            EventEnd(whole, |e.block|) == |e.end| > 0
            && forall p | 0 <= p < |e.block| :: EventEnd(whole, p) == 0
  {
    var m := Find(s, 0);
    var n := m.at + m.len;
    FirstIs(s);
    hide *;
    Rejoined(s, m.at, n);
    EventEndInPrefix(s, n, m.at);
    forall p | 0 <= p < m.at ensures EventEnd(s[..n], p) == 0 {
      if EventEnd(s[..n], p) > 0 { EventEndGrows(s[..n], s[n..], p); }
    }
  }

  lemma FirstIs(s: string)
    requires !Unterminated(s)
    ensures var m := Find(s, 0);
            m.Match? && First(s).block == s[..m.at] && First(s).end == s[m.at..m.at + m.len]
  {
    hide Find;
  }

  lemma Rejoined(s: string, i: nat, n: nat)
    requires i <= n <= |s|
    ensures s[..i] + s[i..n] == s[..n] && s[..n] + s[n..] == s
  {}

  lemma EventEndInPrefix(s: string, n: nat, i: nat)
    requires EventEnd(s, i) > 0 && n == i + EventEnd(s, i)
    ensures EventEnd(s[..n], i) == EventEnd(s, i)
  {
    assert forall k | 0 <= k < n :: s[..n][k] == s[k];
  }

  /** While an event is still arriving, what is held of it is at most its block and three
      characters of its end, and is a part of it from the start. */
  lemma HeldPartIsSmall(held: string, more: string)
    requires Unterminated(held) && !Unterminated(held + more)
    ensures var m := Find(held + more, 0);
            |held| <= m.at + 3
  {
    var m := Find(held + more, 0);
    NewMatchIsNear(held, more, m.at);
  }
}
