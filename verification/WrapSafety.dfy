/** What the mediator guarantees over every run: which calls reach the server, what becomes
    of held calls, and what the client is shown. */
module WrapSafety {
  import opened Optional
  import opened Definitions
  import opened Numerals
  import opened WrapSpec

  // ---- What may be written ----

  /** A call line may go to the server, given what has been observed so far, when its tool
      is listed and was not last seen drifted, the last sighting of it since the server
      last said its list changed matched, and its arguments are accepted. */
  predicate MayCall(o: Options, w: World, m: ClientMessage) {
    && m.name.Some?
    && (if o.allow.Some? then m.name.value in o.allow.value else m.name.value !in o.deny)
    && (o.pinned.Some? && m.name.value in o.pinned.value ==> o.accepts(o.pinned.value[m.name.value], m.arguments))
    && (m.name.value in w.ever ==> w.ever[m.name.value].None?)
    && (o.pinned.Some? ==> m.name.value in w.seen && w.seen[m.name.value].None?)
  }

  /** No request of the mediator's own awaits an answer. */
  ghost predicate NoOwnOpen(open: set<(Id, Request)>) {
    forall id, r :: IsOpen(open, id, r) ==> !IsOwn(id)
  }

  /** A call is written on only when it may be, and a page asked for only when no other is
      awaited. */
  ghost predicate Allowed(o: Options, w: World, io: Io) {
    && (io.WroteServer? && IsCall(io.m) ==> MayCall(o, w, io.m))
    && (io.WroteList? ==> NoOwnOpen(w.open))
  }

  ghost predicate AllAllowed(o: Options, trace: seq<Io>) {
    forall k | 0 <= k < |trace| :: Allowed(o, WorldOf(o, trace[..k]), trace[k])
  }

  /** The calls put on hold, in order. */
  function Held(trace: seq<Io>): seq<ClientMessage> {
    if trace == [] then []
    else
      var io := trace[|trace| - 1];
      Held(trace[..|trace| - 1]) + if io.Holds? then [io.m] else []
  }

  /** The held calls let go, in order: each forwarded, or answered with an error. */
  function Left(trace: seq<Io>): seq<ClientMessage> {
    if trace == [] then []
    else
      var io := trace[|trace| - 1];
      Left(trace[..|trace| - 1]) + if (io.WroteServer? || io.Rejected?) && io.released then [io.m] else []
  }

  // ---- The invariant ----

  /** What is known of tools is what was last seen of them. */
  ghost predicate Tracks(o: Options, changed: map<string, Drift>, verified: set<string>,
                   seen: map<string, Option<Drift>>, ever: map<string, Option<Drift>>)
  {
    && (forall n :: n in verified <==> n in seen && seen[n].None?)
    && (forall n :: n in changed <==> Listed(o, n) && n in ever && ever[n].Some?)
    && (forall n | n in changed :: changed[n] == ever[n].value)
    && (forall n | n in seen :: n in ever && ever[n] == seen[n])
  }

  /** The ids kept are those of the requests the server has yet to answer. */
  ghost predicate Knows(s: State, open: set<(Id, Request)>) {
    && (forall id :: id in s.listing <==> IsOpen(open, id, Listing))
    && (forall id :: id in s.discovering <==> IsOpen(open, id, Discovery))
    && (forall id, n :: IsOpen(open, id, Call(n)) ==> id in s.calls)
    && (forall id | id in s.calls :: IsOpen(open, id, Call(s.calls[id])))
    && (forall id :: IsOpen(open, id, OwnListing) <==> s.verifying == Some(id))
    && (forall id, r :: IsOpen(open, id, r) ==> (IsOwn(id) <==> r == OwnListing))
  }

  predicate OwnsNothing(calls: seq<ClientMessage>) {
    forall m | m in calls :: m.id.Some? ==> !IsOwn(m.id.value)
  }

  ghost predicate Safe(o: Options, s: State) {
    var w := WorldOf(o, s.trace);
    && Tracks(o, s.changed, s.verified, w.seen, w.ever)
    && Knows(s, w.open)
    && AllAllowed(o, s.trace)
    && AllCalls(s.held) && OwnsNothing(s.held)
    && Held(s.trace) == Left(s.trace) + s.held
    && (s.held != [] ==> s.verifying.Some?)
  }

  /** The one thing asked of the client: no request under the mediator's own id prefix. */
  predicate Proper(i: Input) {
    i.ClientSays? && i.c.FromClient? && i.c.m.kind.Some? && i.c.m.id.Some? ==> !IsOwn(i.c.m.id.value)
  }

  // ---- One more line in the trace ----

  lemma Grow(o: Options, trace: seq<Io>, io: Io)
    ensures WorldOf(o, trace + [io]) == Observe(o, WorldOf(o, trace), io)
    ensures AllAllowed(o, trace) && Allowed(o, WorldOf(o, trace), io) ==> AllAllowed(o, trace + [io])
    ensures Held(trace + [io]) == Held(trace) + if io.Holds? then [io.m] else []
    ensures Left(trace + [io]) == Left(trace) + if (io.WroteServer? || io.Rejected?) && io.released then [io.m] else []
  {
    hide Observe, Allowed;
    var all := trace + [io];
    assert all[..|trace|] == trace;
    if AllAllowed(o, trace) && Allowed(o, WorldOf(o, trace), io) {
      forall k | 0 <= k < |all| ensures Allowed(o, WorldOf(o, all[..k]), all[k]) {
        if k < |trace| { assert all[..k] == trace[..k]; }
      }
    }
  }

  lemma CheckTracks(o: Options, s: State, tool: Tool, seen: map<string, Option<Drift>>,
                    ever: map<string, Option<Drift>>)
    requires Tracks(o, s.changed, s.verified, seen, ever)
    ensures var t := Check(o, s, tool);
            var drift := DriftOf(o, tool);
            Tracks(o, t.changed, t.verified, seen[tool.name := drift], ever[tool.name := drift])
  {
    hide DriftOf, Listed;
  }

  lemma {:induction false} CheckAllTracks(o: Options, s: State, tools: seq<Tool>,
                                          seen: map<string, Option<Drift>>, ever: map<string, Option<Drift>>)
    requires Tracks(o, s.changed, s.verified, seen, ever)
    ensures var t := CheckAll(o, s, tools);
            Tracks(o, t.changed, t.verified, SeeAll(o, seen, tools), SeeAll(o, ever, tools))
    decreases |tools|
  {
    hide Tracks, Check, DriftOf;
    if tools != [] {
      CheckTracks(o, s, tools[0], seen, ever);
      var drift := DriftOf(o, tools[0]);
      CheckAllTracks(o, Check(o, s, tools[0]), tools[1..], seen[tools[0].name := drift], ever[tools[0].name := drift]);
    }
  }

  // ---- Letting calls go ----

  /** Safe, but for calls taken off the queue and not yet let go. */
  ghost predicate Settling(o: Options, s: State, calls: seq<ClientMessage>) {
    var w := WorldOf(o, s.trace);
    && Tracks(o, s.changed, s.verified, w.seen, w.ever)
    && Knows(s, w.open)
    && AllAllowed(o, s.trace)
    && AllCalls(calls) && OwnsNothing(calls)
    && Held(s.trace) == Left(s.trace) + calls
  }

  /** A visible tool, verified if there is a record, may be called. */
  lemma VisibleMayCall(o: Options, s: State, m: ClientMessage, w: World)
    requires Tracks(o, s.changed, s.verified, w.seen, w.ever)
    requires m.name.Some? && Visible(o, s, m.name.value) && ArgumentsAccepted(o, m)
    requires o.pinned.Some? ==> m.name.value in s.verified
    ensures MayCall(o, w, m)
  {}

  /** Writing a call on keeps the ids straight. */
  lemma KnowsCall(s: State, open: set<(Id, Request)>, m: ClientMessage)
    requires Knows(s, open) && IsCall(m) && m.name.Some? && (m.id.Some? ==> !IsOwn(m.id.value))
    ensures m.id.Some? ==> Knows(s.(calls := s.calls[m.id.value := m.name.value]), open + {(m.id.value, RequestOf(m))})
  {
    hide IsOwn, RequestOf;
    CallIsCall(m);
    if m.id.Some? {
      var t := s.(calls := s.calls[m.id.value := m.name.value]);
      var after := open + {(m.id.value, RequestOf(m))};
      forall id, r ensures IsOpen(after, id, r) <==> IsOpen(open, id, r) || (id == m.id.value && r == Call(m.name.value)) {}
    }
  }

  lemma CallIsCall(m: ClientMessage)
    requires IsCall(m) && m.name.Some?
    ensures RequestOf(m) == Call(m.name.value)
  {
    assert CALL[6] != LIST[6];
    assert |CALL| != |"server/discover"|;
    assert CALL[0] != "initialize"[0];
  }

  lemma KnowsSame(s: State, t: State, open: set<(Id, Request)>)
    requires Knows(s, open)
    requires t.listing == s.listing && t.discovering == s.discovering && t.calls == s.calls && t.verifying == s.verifying
    ensures Knows(t, open)
  {}

  lemma ForwardSettles(o: Options, s: State, calls: seq<ClientMessage>, failed: bool)
    requires calls != [] && Settling(o, s, calls)
    ensures var m := calls[0];
            var name := m.name.value;
            Settling(o, if !failed && Visible(o, s, name) && name in s.verified then Forward(o, s, m, true)
                        else Write(s, Rejected(m, true)), calls[1..])
  {
    hide Tracks, Knows, AllAllowed, Held, Left, WorldOf, ArgumentsAccepted, MayCall, Visible;
    var m := calls[0];
    assert m in calls;
    assert AllCalls(calls[1..]) && OwnsNothing(calls[1..]) by { assert forall c | c in calls[1..] :: c in calls; }
    assert calls == [m] + calls[1..];
    Grow(o, s.trace, Rejected(m, true));
    Grow(o, s.trace, WroteServer(m, true));
    var w := WorldOf(o, s.trace);
    KnowsSame(s, Write(s, Rejected(m, true)), w.open);
    if !failed && Visible(o, s, m.name.value) && m.name.value in s.verified && ArgumentsAccepted(o, m) {
      VisibleMayCall(o, s, m, w);
      KnowsCall(s, w.open, m);
      var t := Forward(o, s, m, true);
      if m.id.Some? {
        KnowsSame(s.(calls := s.calls[m.id.value := m.name.value]), t, w.open + {(m.id.value, RequestOf(m))});
      } else {
        KnowsSame(s, t, w.open);
      }
    }
    assert Left(s.trace) + calls == (Left(s.trace) + [m]) + calls[1..];
  }

  lemma {:induction false} SettleIsSafe(o: Options, s: State, calls: seq<ClientMessage>, failed: bool)
    requires Settling(o, s, calls)
    ensures Settling(o, Settle(o, s, calls, failed), [])
    decreases |calls|
  {
    hide Tracks, Knows, AllAllowed, Visible, Forward;
    if calls != [] {
      ForwardSettles(o, s, calls, failed);
      var name := calls[0].name.value;
      var next := if !failed && Visible(o, s, name) && name in s.verified then Forward(o, s, calls[0], true)
                  else Write(s, Rejected(calls[0], true));
      SettleIsSafe(o, next, calls[1..], failed);
    }
  }

  /** Once the listing under way is answered, every held call leaves. */
  lemma ReleaseIsSafe(o: Options, s: State, failed: bool)
    requires Settling(o, s.(verifying := None), s.held)
    ensures Safe(o, Release(o, s, failed)) && Release(o, s, failed).held == []
  {
    hide Tracks, Knows, AllAllowed, Settle, Held, Left;
    var t := s.(verifying := None, held := []);
    assert Settling(o, t, s.held) by { KnowsSame(s.(verifying := None), t, WorldOf(o, s.trace).open); }
    SettleIsSafe(o, t, s.held, failed);
    SettleKeeps(o, t, s.held, failed);
    var u := Settle(o, t, s.held, failed);
    assert Left(u.trace) + [] == Left(u.trace);
  }

  // ---- A line from the client ----

  lemma KnowsOwn(s: State, open: set<(Id, Request)>, n: nat)
    requires Knows(s.(verifying := None), open)
    ensures Knows(s.(verifying := Some(OwnId(n))), open + {(OwnId(n), OwnListing)})
  {
    OwnIdIsOwn(n);
    hide IsOwn, OwnId;
    var id := OwnId(n);
    var after := open + {(id, OwnListing)};
    forall x, r ensures IsOpen(after, x, r) <==> IsOpen(open, x, r) || (x == id && r == OwnListing) {}
  }

  lemma KnowsNoOwn(s: State, open: set<(Id, Request)>)
    requires Knows(s, open) && s.verifying.None?
    ensures NoOwnOpen(open)
  {
    hide IsOwn;
    forall id, r | IsOpen(open, id, r) ensures !IsOwn(id) {
      assert IsOpen(open, id, OwnListing) <==> s.verifying == Some(id);
    }
  }

  lemma OwnIdIsOwn(n: nat)
    ensures IsOwn(OwnId(n))
  {
    assert (PREFIX + DigitsOf(n))[..|PREFIX|] == PREFIX;
  }

  /** A listing of the mediator's own goes out. */
  lemma RequestIsSafe(o: Options, s: State, meta: seq<Field>, cursor: Option<string>)
    requires Settling(o, s.(verifying := None), s.held)
    ensures Safe(o, RequestList(s, meta, cursor))
  {
    hide Tracks, Knows, AllAllowed, WorldOf, Held, Left, OwnId;
    var n := s.verifications + 1;
    var w := WorldOf(o, s.trace);
    var io := WroteList(OwnId(n), meta, cursor);
    Grow(o, s.trace, io);
    KnowsNoOwn(s.(verifying := None), w.open);
    KnowsOwn(s, w.open, n);
    KnowsSame(s.(verifying := Some(OwnId(n))), RequestList(s, meta, cursor), w.open + {(OwnId(n), OwnListing)});
    assert Left(s.trace) + [] == Left(s.trace) && Held(s.trace) + [] == Held(s.trace);
  }

  /** A line that changes nothing but the trace. */
  lemma QuietIsSafe(o: Options, s: State, io: Io)
    requires Safe(o, s)
    requires io.ReadClient? || io.WroteError? || io.Relayed? || (io.Rejected? && !io.released)
    ensures Safe(o, Write(s, io))
  {
    hide Tracks, Knows, AllAllowed, WorldOf, Held, Left;
    Grow(o, s.trace, io);
    KnowsSame(s, Write(s, io), WorldOf(o, s.trace).open);
    assert Left(s.trace) + [] == Left(s.trace) && Held(s.trace) + [] == Held(s.trace);
  }

  /** A request that is no call is tracked and goes on. */
  lemma KnowsTracked(s: State, open: set<(Id, Request)>, m: ClientMessage)
    requires Knows(s, open) && !IsCall(m)
    requires m.kind.Some? && m.id.Some? ==> !IsOwn(m.id.value)
    ensures Knows(Track(s, m), if m.id.Some? && m.kind.Some? then open + {(m.id.value, RequestOf(m))} else open)
  {
    if m.id.Some? && m.kind.Some? {
      var r := RequestOf(m);
      assert r != OwnListing && !r.Call?;
      var after := open + {(m.id.value, r)};
      forall x, q ensures IsOpen(after, x, q) <==> IsOpen(open, x, q) || (x == m.id.value && q == r) {}
      hide IsOwn, RequestOf;
    }
  }

  lemma PassOnIsSafe(o: Options, s: State, m: ClientMessage)
    requires Safe(o, s) && !IsCall(m)
    requires m.kind.Some? && m.id.Some? ==> !IsOwn(m.id.value)
    ensures Safe(o, Write(Track(s, m), WroteServer(m, false)))
  {
    hide Tracks, Knows, AllAllowed, WorldOf, Held, Left;
    KnowsTracked(s, WorldOf(o, s.trace).open, m);
    Grow(o, s.trace, WroteServer(m, false));
    var w := WorldOf(o, s.trace);
    KnowsSame(Track(s, m), Write(Track(s, m), WroteServer(m, false)),
              if m.id.Some? && m.kind.Some? then w.open + {(m.id.value, RequestOf(m))} else w.open);
    assert Left(s.trace) + [] == Left(s.trace) && Held(s.trace) + [] == Held(s.trace);
  }

  lemma ForwardIsSafe(o: Options, s: State, m: ClientMessage)
    requires Safe(o, s) && IsCall(m) && m.name.Some? && Visible(o, s, m.name.value)
    requires o.pinned.Some? ==> m.name.value in s.verified
    requires m.id.Some? ==> !IsOwn(m.id.value)
    ensures Safe(o, Forward(o, s, m, false))
  {
    if !ArgumentsAccepted(o, m) {
      QuietIsSafe(o, s, Rejected(m, false));
    } else {
      hide Tracks, Knows, AllAllowed, WorldOf, Held, Left, MayCall, ArgumentsAccepted, Visible;
      var w := WorldOf(o, s.trace);
      VisibleMayCall(o, s, m, w);
      KnowsCall(s, w.open, m);
      Grow(o, s.trace, WroteServer(m, false));
      var t := Forward(o, s, m, false);
      if m.id.Some? {
        KnowsSame(s.(calls := s.calls[m.id.value := m.name.value]), t, w.open + {(m.id.value, RequestOf(m))});
      } else {
        KnowsSame(s, t, w.open);
      }
      assert Left(s.trace) + [] == Left(s.trace) && Held(s.trace) + [] == Held(s.trace);
    }
  }

  lemma HoldIsSafe(o: Options, s: State, m: ClientMessage)
    requires Safe(o, s) && IsCall(m) && m.name.Some? && (m.id.Some? ==> !IsOwn(m.id.value))
    ensures var waiting := Write(s.(held := s.held + [m]), Holds(m));
            Safe(o, if s.verifying.None? then RequestList(waiting, m.protocolMeta, None) else waiting)
  {
    hide Tracks, Knows, AllAllowed, WorldOf, Held, Left, RequestList;
    var waiting := Write(s.(held := s.held + [m]), Holds(m));
    Grow(o, s.trace, Holds(m));
    var w := WorldOf(o, s.trace);
    KnowsSame(s, waiting, w.open);
    assert (Left(s.trace) + s.held) + [m] == Left(s.trace) + (s.held + [m]);
    assert Left(s.trace) + [] == Left(s.trace);
    assert AllCalls(waiting.held) && OwnsNothing(waiting.held);
    if s.verifying.None? {
      KnowsSame(waiting, waiting.(verifying := None), w.open);
      RequestIsSafe(o, waiting, m.protocolMeta, None);
    }
  }

  lemma ClientIsSafe(o: Options, s: State, line: ClientLine)
    requires Safe(o, s) && Proper(ClientSays(line))
    ensures Safe(o, OnClient(o, s, line))
  {
    hide Safe, Visible, RequestList;
    var t := Write(s, ReadClient(line));
    QuietIsSafe(o, s, ReadClient(line));
    if !(t.stopping || line.Empty?) {
      match line
      case Empty =>
      case Unfit(replyTo) => QuietIsSafe(o, t, WroteError(replyTo));
      case FromClient(m) =>
        if !IsCall(m) {
          PassOnIsSafe(o, t, m);
        } else {
          if m.name.None? || !Visible(o, t, m.name.value) {
            QuietIsSafe(o, t, Rejected(m, false));
          } else if o.pinned.Some? && m.name.value !in t.verified {
            HoldIsSafe(o, t, m);
          } else {
            ForwardIsSafe(o, t, m);
          }
        }
    }
  }

  // ---- A line from the server ----

  /** An answered request is forgotten on both sides. */
  lemma KnowsClosed(s: State, open: set<(Id, Request)>, id: Id)
    requires Knows(s, open) && s.verifying != Some(id)
    ensures Knows(s.(listing := s.listing - {id}, discovering := s.discovering - {id},
                     calls := map x | x in s.calls && x != id :: s.calls[x]),
                  Close(open, id))
  {
    hide IsOwn;
    forall x, r ensures IsOpen(Close(open, id), x, r) <==> IsOpen(open, x, r) && x != id {}
  }

  lemma KnowsOwnClosed(s: State, open: set<(Id, Request)>, id: Id)
    requires Knows(s, open) && s.verifying == Some(id)
    ensures Knows(s.(verifying := None), Close(open, id))
    ensures IsOpen(open, id, OwnListing)
  {
    hide IsOwn;
    assert IsOpen(open, id, OwnListing);
    forall x, r ensures IsOpen(Close(open, id), x, r) <==> IsOpen(open, x, r) && x != id {}
  }

  /** The world after a response to an open listing, and after any other. */
  lemma ObserveResponse(o: Options, w: World, m: ServerMessage)
    requires IsResponse(m)
    ensures var listing := IsOpen(w.open, m.id.value, Listing) || IsOpen(w.open, m.id.value, OwnListing);
            Observe(o, w, ReadServer(FromServer(m)))
            == if listing && ToolsOf(m).Some? then
                 World(Close(w.open, m.id.value), SeeAll(o, w.seen, ToolsOf(m).value), SeeAll(o, w.ever, ToolsOf(m).value))
               else World(Close(w.open, m.id.value), w.seen, w.ever)
  {
    hide SeeAll;
  }

  lemma OwnAnswerIsSafe(o: Options, s: State, m: ServerMessage)
    requires Safe(o, s) && IsResponse(m) && s.verifying == m.id
    ensures Safe(o, OnOwnAnswer(o, Write(s, ReadServer(FromServer(m))), m))
  {
    hide Tracks, Knows, AllAllowed, WorldOf, Held, Left, RequestList, Release, CheckAll, SeeAll;
    var id := m.id.value;
    var w := WorldOf(o, s.trace);
    var t := Write(s, ReadServer(FromServer(m)));
    Grow(o, s.trace, ReadServer(FromServer(m)));
    ObserveResponse(o, w, m);
    KnowsOwnClosed(s, w.open, id);
    assert Left(s.trace) + [] == Left(s.trace) && Held(s.trace) + [] == Held(s.trace);
    if ToolsOf(m).None? {
      KnowsSame(s.(verifying := None), t.(verifying := None), Close(w.open, id));
      ReleaseIsSafe(o, t, true);
    } else {
      var tools := ToolsOf(m).value;
      var checked := CheckAll(o, t, tools);
      CheckAllKeeps(o, t, tools);
      CheckAllTracks(o, t, tools, w.seen, w.ever);
      KnowsSame(s.(verifying := None), checked.(verifying := None), Close(w.open, id));
      assert Settling(o, checked.(verifying := None), checked.held);
      if m.result.value.cursor.Some? {
        RequestIsSafe(o, checked, checked.verifyMeta, m.result.value.cursor);
      } else {
        ReleaseIsSafe(o, checked, false);
      }
    }
  }

  /** What passing a response on does to the state: its id is forgotten, and tools are
      checked when it answers a listing. */
  lemma PassFields(o: Options, s: State, m: ServerMessage)
    requires IsResponse(m)
    ensures var id := m.id.value;
            var (s1, m1) := PassListing(o, s, m);
            var (s2, m2) := PassDiscovery(o, s1, m1);
            var (s3, verdict) := PassCall(o, s2, m2);
            var c := if id in s.listing && ToolsOf(m).Some? then CheckAll(o, s, ToolsOf(m).value) else s;
            && s3 == s.(listing := s.listing - {id}, discovering := s.discovering - {id}, calls := s3.calls,
                        changed := c.changed, verified := c.verified)
            && s3.calls == map x | x in s.calls && x != id :: s.calls[x]
  {
    hide CheckAll, Shown, Visible, InstructionsApproved, Pinned;
    var id := m.id.value;
    var (s1, m1) := PassListing(o, s, m);
    if id in s.listing && ToolsOf(m).Some? {
      CheckAllKeeps(o, s.(listing := s.listing - {id}), ToolsOf(m).value);
      CheckIgnoresListing(o, s, s.listing - {id}, ToolsOf(m).value);
    }
    assert s1.listing == s.listing - {id};
    assert s1.discovering == s.discovering && s1.calls == s.calls;
    var (s2, m2) := PassDiscovery(o, s1, m1);
    assert m1.id == m.id && m1.kind == m.kind && m2.id == m.id && m2.kind == m.kind;
    assert s2 == s1.(discovering := s.discovering - {id});
    var (s3, verdict) := PassCall(o, s2, m2);
    if id !in s.calls {
      assert s.calls == map x | x in s.calls && x != id :: s.calls[x];
    }
  }

  lemma {:induction false} CheckIgnoresListing(o: Options, s: State, listing: set<Id>, tools: seq<Tool>)
    ensures var a, b := CheckAll(o, s, tools), CheckAll(o, s.(listing := listing), tools);
            a.changed == b.changed && a.verified == b.verified
    decreases |tools|
  {
    hide DriftOf;
    if tools != [] { CheckIgnoresListing(o, Check(o, s, tools[0]), listing, tools[1..]); }
  }

  lemma ResponseIsSafe(o: Options, s: State, m: ServerMessage)
    requires Safe(o, s) && IsResponse(m) && s.verifying != m.id
    ensures Safe(o, OnServer(o, s, FromServer(m)))
  {
    var t := Write(s, ReadServer(FromServer(m)));
    var (s1, m1) := PassListing(o, t, m);
    var (s2, m2) := PassDiscovery(o, s1, m1);
    var (s3, verdict) := PassCall(o, s2, m2);
    assert OnServer(o, s, FromServer(m)) == Write(s3, Relayed(FromServer(m2), verdict));
    PassFields(o, t, m);
    hide Tracks, Knows, AllAllowed, WorldOf, Held, Left, CheckAll, SeeAll, OnServer, PassListing, PassDiscovery, PassCall;
    var id := m.id.value;
    var w := WorldOf(o, s.trace);
    Grow(o, s.trace, ReadServer(FromServer(m)));
    ObserveResponse(o, w, m);
    KnowsClosed(s, w.open, id);
    KnowsSame(s.(listing := s.listing - {id}, discovering := s.discovering - {id},
                 calls := map x | x in s.calls && x != id :: s.calls[x]), s3, Close(w.open, id));
    if ToolsOf(m).Some? { CheckAllTracks(o, t, ToolsOf(m).value, w.seen, w.ever); }
    assert Left(s.trace) + [] == Left(s.trace) && Held(s.trace) + [] == Held(s.trace);
    assert Safe(o, s3);
    QuietIsSafe(o, s3, Relayed(FromServer(m2), verdict));
  }

  /** A notification or a request of the server's own is passed on; a changed list makes
      every tool unverified. */
  lemma NoticeIsSafe(o: Options, s: State, m: ServerMessage)
    requires Safe(o, s) && !IsResponse(m)
    ensures Safe(o, OnServer(o, s, FromServer(m)))
  {
    var t := Write(s, ReadServer(FromServer(m)));
    var t1 := if m.kind == Some(CHANGED) then t.(verified := {}) else t;
    assert OnServer(o, s, FromServer(m)) == Write(t1, Relayed(FromServer(m), None));
    hide Tracks, Knows, AllAllowed, WorldOf, Held, Left, OnServer, Observe;
    Grow(o, s.trace, ReadServer(FromServer(m)));
    var w := WorldOf(o, s.trace);
    ObserveNotice(o, w, m);
    TracksCleared(o, s.changed, s.verified, w.seen, w.ever);
    KnowsSame(s, t1, w.open);
    assert Left(s.trace) + [] == Left(s.trace) && Held(s.trace) + [] == Held(s.trace);
    assert Safe(o, t1);
    QuietIsSafe(o, t1, Relayed(FromServer(m), None));
  }

  lemma ObserveNotice(o: Options, w: World, m: ServerMessage)
    requires !IsResponse(m)
    ensures Observe(o, w, ReadServer(FromServer(m))) == if m.kind == Some(CHANGED) then w.(seen := map[]) else w
  {}

  lemma TracksCleared(o: Options, changed: map<string, Drift>, verified: set<string>,
                      seen: map<string, Option<Drift>>, ever: map<string, Option<Drift>>)
    requires Tracks(o, changed, verified, seen, ever)
    ensures Tracks(o, changed, {}, map[], ever)
  {}

  lemma ServerIsSafe(o: Options, s: State, line: ServerLine)
    requires Safe(o, s)
    ensures Safe(o, OnServer(o, s, line))
  {
    match line
    case NotJson =>
      var t := Write(s, ReadServer(line));
      hide Tracks, Knows, AllAllowed, WorldOf, Held, Left;
      Grow(o, s.trace, ReadServer(line));
      KnowsSame(s, t, WorldOf(o, s.trace).open);
      assert Left(s.trace) + [] == Left(s.trace) && Held(s.trace) + [] == Held(s.trace);
      QuietIsSafe(o, t, Relayed(line, None));
    case FromServer(m) =>
      hide Safe, OnOwnAnswer;
      if !IsResponse(m) {
        NoticeIsSafe(o, s, m);
      } else if s.verifying == m.id {
        OwnAnswerIsSafe(o, s, m);
      } else {
        ResponseIsSafe(o, s, m);
      }
  }

  // ---- Every run ----

  lemma StartIsSafe(o: Options)
    ensures Safe(o, START)
  {}

  lemma StopIsSafe(o: Options, s: State)
    requires Safe(o, s)
    ensures Safe(o, s.(stopping := true))
  {}

  lemma {:induction false} RunIsSafe(o: Options, inputs: seq<Input>)
    requires forall i | i in inputs :: Proper(i)
    ensures Safe(o, Run(o, inputs))
  {
    hide Safe, OnClient, OnServer;
    if inputs == [] {
      StartIsSafe(o);
    } else {
      var k := |inputs| - 1;
      assert Proper(inputs[k]);
      RunIsSafe(o, inputs[..k]);
      var before := Run(o, inputs[..k]);
      match inputs[k]
      case ClientSays(line) => ClientIsSafe(o, before, line);
      case ServerSays(line) => ServerIsSafe(o, before, line);
      case Stop => StopIsSafe(o, before);
    }
  }

  /** In every run, each call the server receives is of a listed tool not last seen drifted,
      with arguments its recorded definition accepts; with a record, its last sighting since
      the server last said its list changed matched. */
  lemma CallsReachTheServerOnlyWhenAllowed(o: Options, inputs: seq<Input>, k: nat)
    requires forall i | i in inputs :: Proper(i)
    requires var trace := Run(o, inputs).trace;
             k < |trace| && trace[k].WroteServer? && trace[k].m.kind == Some("tools/call")
    ensures var trace := Run(o, inputs).trace;
            MayCall(o, WorldOf(o, trace[..k]), trace[k].m)
  {
    RunIsSafe(o, inputs);
    hide Run, WorldOf;
    assert Allowed(o, WorldOf(o, Run(o, inputs).trace[..k]), Run(o, inputs).trace[k]);
  }

  /** Drift is a change of what was approved: under a record, a recorded tool has drifted
      exactly when its definition is not the recorded one, up to key order and what is never
      recorded; a tool without a record has exactly when the config says what is offered. */
  lemma DriftMeans(o: Options, tool: Tool)
    requires SoundFields(tool.item) && (o.pinned.Some? ==> forall n | n in o.pinned.value :: SoundFields(o.pinned.value[n]))
    ensures DriftOf(o, tool).None?
            <==> || o.pinned.None?
                 || (if tool.name in o.pinned.value then SameDefinition(o.pinned.value[tool.name], tool.item)
                     else o.allow.None?)
  {
    hide SoundFields, SameDefinition, ChangedFields, DefinitionOf;
    if o.pinned.Some? && tool.name in o.pinned.value { HeldToItem(o.pinned.value[tool.name], tool.item); }
  }

  /** What is verified and what is changed never meet, and both are exactly what was last
      seen: this is the whole meaning of the two sets. */
  lemma VerifiedAndChangedAreDisjoint(o: Options, inputs: seq<Input>)
    requires forall i | i in inputs :: Proper(i)
    ensures var s := Run(o, inputs);
            var w := WorldOf(o, s.trace);
            && s.verified !! s.changed.Keys
            && (forall n :: n in s.verified <==> n in w.seen && w.seen[n].None?)
            && (forall n :: n in s.changed <==> Listed(o, n) && n in w.ever && w.ever[n].Some?)
  {
    RunIsSafe(o, inputs);
  }

  /** Held calls are conserved: in arrival order, those let go and then those still held are
      exactly those put on hold, and while any is held a listing is under way. */
  lemma HeldCallsAreConserved(o: Options, inputs: seq<Input>)
    requires forall i | i in inputs :: Proper(i)
    ensures var s := Run(o, inputs);
            && Held(s.trace) == Left(s.trace) + s.held
            && (s.held != [] ==> s.verifying.Some?)
  {
    RunIsSafe(o, inputs);
  }

  // ---- What the client is shown ----

  /** No answer to a listing of the mediator's own has been passed to the client. */
  predicate NoOwnRelayed(trace: seq<Io>) {
    forall io | io in trace :: io.Relayed? && io.s.FromServer? && IsResponse(io.s.m) ==> !IsOwn(io.s.m.id.value)
  }

  lemma {:induction false} SettleRelaysNothing(o: Options, s: State, calls: seq<ClientMessage>, failed: bool)
    requires AllCalls(calls) && NoOwnRelayed(s.trace)
    ensures NoOwnRelayed(Settle(o, s, calls, failed).trace)
    decreases |calls|
  {
    if calls != [] {
      hide Visible, ArgumentsAccepted, IsOwn;
      assert calls[0] in calls;
      var name := calls[0].name.value;
      var next := if !failed && Visible(o, s, name) && name in s.verified then Forward(o, s, calls[0], true)
                  else Write(s, Rejected(calls[0], true));
      SettleRelaysNothing(o, next, calls[1..], failed);
    }
  }

  /** The server answers a request it has been sent and has not answered. */
  ghost predicate Answers(o: Options, s: State, i: Input) {
    i.ServerSays? && i.s.FromServer? && IsResponse(i.s.m) ==>
      exists r :: IsOpen(WorldOf(o, s.trace).open, i.s.m.id.value, r)
  }

  lemma OwnAnswerRelaysNothing(o: Options, s: State, m: ServerMessage)
    requires AllCalls(s.held) && NoOwnRelayed(s.trace)
    ensures NoOwnRelayed(OnOwnAnswer(o, s, m).trace)
  {
    hide Settle, CheckAll, IsOwn;
    if ToolsOf(m).None? {
      SettleRelaysNothing(o, s.(verifying := None, held := []), s.held, true);
    } else {
      CheckAllKeeps(o, s, ToolsOf(m).value);
      var c := CheckAll(o, s, ToolsOf(m).value);
      SettleRelaysNothing(o, c.(verifying := None, held := []), c.held, false);
    }
  }

  lemma PassKeepsId(o: Options, s: State, m: ServerMessage)
    ensures var (s1, m1) := PassListing(o, s, m);
            var (s2, m2) := PassDiscovery(o, s1, m1);
            var (s3, verdict) := PassCall(o, s2, m2);
            m2.id == m.id && m2.kind == m.kind && s1.trace == s.trace && s2.trace == s.trace && s3.trace == s.trace
  {
    hide CheckAll, Shown, Visible, InstructionsApproved, Pinned;
    if ToolsOf(m).Some? && m.id.Some? { CheckAllKeeps(o, s.(listing := s.listing - {m.id.value}), ToolsOf(m).value); }
  }

  lemma StepRelaysNoOwn(o: Options, s: State, i: Input)
    requires Safe(o, s) && Answers(o, s, i) && NoOwnRelayed(s.trace)
    ensures NoOwnRelayed(Step(o, s, i).trace)
  {
    hide Safe, Answers, NoOwnRelayed, OnClient, OnServer;
    match i
    case Stop =>
    case ClientSays(line) => ClientRelaysNothing(o, s, line);
    case ServerSays(line) => ServerRelaysNoOwn(o, s, line);
  }

  lemma ClientRelaysNothing(o: Options, s: State, line: ClientLine)
    requires NoOwnRelayed(s.trace)
    ensures NoOwnRelayed(OnClient(o, s, line).trace)
  {
    hide NoOwnRelayed, OnMessage;
    var t := Write(s, ReadClient(line));
    WritesNoRelay(s.trace, ReadClient(line));
    if !(t.stopping || line.Empty?) {
      match line
      case Empty =>
      case Unfit(replyTo) => WritesNoRelay(t.trace, WroteError(replyTo));
      case FromClient(m) => MessageRelaysNothing(o, t, m);
    }
  }

  lemma WritesNoRelay(trace: seq<Io>, io: Io)
    requires NoOwnRelayed(trace) && !io.Relayed?
    ensures NoOwnRelayed(trace + [io])
  {
    hide IsOwn;
  }

  lemma MessageRelaysNothing(o: Options, s: State, m: ClientMessage)
    requires NoOwnRelayed(s.trace)
    ensures NoOwnRelayed(OnMessage(o, s, m).trace)
  {
    hide NoOwnRelayed, Visible, ArgumentsAccepted, RequestOf, OwnId;
    WritesNoRelay(s.trace, WroteServer(m, false));
    WritesNoRelay(s.trace, Rejected(m, false));
    WritesNoRelay(s.trace, Holds(m));
    WritesNoRelay(s.trace + [Holds(m)], WroteList(OwnId(s.verifications + 1), m.protocolMeta, None));
  }

  lemma ServerRelaysNoOwn(o: Options, s: State, line: ServerLine)
    requires Safe(o, s) && Answers(o, s, ServerSays(line)) && NoOwnRelayed(s.trace)
    ensures NoOwnRelayed(OnServer(o, s, line).trace)
  {
    hide Tracks, AllAllowed, WorldOf, Held, Left, IsOwn, OnOwnAnswer;
    match line
    case NotJson =>
    case FromServer(m) =>
      var t := Write(s, ReadServer(line));
      if IsResponse(m) && s.verifying == m.id {
        OwnAnswerRelaysNothing(o, t, m);
      } else {
        var t1 := if m.kind == Some(CHANGED) then t.(verified := {}) else t;
        PassKeepsId(o, t1, m);
        hide PassListing, PassDiscovery, PassCall;
        if IsResponse(m) { OpenIsNotOwn(o, s, m.id.value); }
      }
  }

  lemma OpenIsNotOwn(o: Options, s: State, id: Id)
    requires Safe(o, s) && s.verifying != Some(id)
    requires exists r :: IsOpen(WorldOf(o, s.trace).open, id, r)
    ensures !IsOwn(id)
  {
    hide Tracks, AllAllowed, WorldOf, Held, Left, IsOwn;
    var open := WorldOf(o, s.trace).open;
    var r :| IsOpen(open, id, r);
    assert IsOwn(id) <==> r == OwnListing;
    assert IsOpen(open, id, OwnListing) <==> s.verifying == Some(id);
  }

  /** When the server answers only what it was asked, its answers to the mediator's own
      listings never reach the client, over any number of pages and changed lists. */
  lemma {:induction false} OwnAnswersStayHidden(o: Options, inputs: seq<Input>)
    requires forall i | i in inputs :: Proper(i)
    requires forall k | 0 <= k < |inputs| :: Answers(o, Run(o, inputs[..k]), inputs[k])
    ensures NoOwnRelayed(Run(o, inputs).trace)
  {
    if inputs != [] {
      hide Safe, Step, NoOwnRelayed, Answers;
      var n := |inputs| - 1;
      var before := inputs[..n];
      forall k | 0 <= k < n ensures Answers(o, Run(o, before[..k]), before[k]) {
        assert before[..k] == inputs[..k];
      }
      OwnAnswersStayHidden(o, before);
      RunIsSafe(o, before);
      StepRelaysNoOwn(o, Run(o, before), inputs[n]);
    }
  }

  /** What a listing says of a name: its last tool of that name. */
  function LastOf(tools: seq<Tool>, name: string): Option<Tool> {
    if tools == [] then None
    else if tools[|tools| - 1].name == name then Some(tools[|tools| - 1])
    else LastOf(tools[..|tools| - 1], name)
  }

  lemma {:induction false} LastOfCons(first: Tool, more: seq<Tool>, name: string)
    ensures LastOf([first] + more, name)
            == if LastOf(more, name).Some? then LastOf(more, name) else if first.name == name then Some(first) else None
  {
    var all := [first] + more;
    if more != [] {
      var k := |more| - 1;
      assert all[..|all| - 1] == [first] + more[..k];
      LastOfCons(first, more[..k], name);
    } else {
      assert all[..0] == [];
    }
  }

  /** After a listing is checked, a tool of it is changed exactly when the listing's last
      tool of that name has drifted. */
  lemma {:induction false} CheckedByLast(o: Options, s: State, tools: seq<Tool>, name: string)
    requires Listed(o, name)
    ensures var t := CheckAll(o, s, tools);
            name in t.changed <==> if LastOf(tools, name).Some? then DriftOf(o, LastOf(tools, name).value).Some?
                                   else name in s.changed
    decreases |tools|
  {
    hide DriftOf, Listed;
    if tools != [] {
      CheckedByLast(o, Check(o, s, tools[0]), tools[1..], name);
      LastOfCons(tools[0], tools[1..], name);
      assert tools == [tools[0]] + tools[1..];
    }
  }

  lemma {:induction false} ShownIs(o: Options, s: State, tools: seq<Tool>)
    ensures forall t :: t in Shown(o, s, tools) <==> t in tools && Visible(o, s, t.name)
  {
    hide Visible;
    if tools != [] {
      ShownIs(o, s, tools[1..]);
      assert tools == [tools[0]] + tools[1..];
    }
  }

  lemma {:induction false} LastOfMember(tools: seq<Tool>, t: Tool)
    requires t in tools
    ensures LastOf(tools, t.name).Some?
    ensures LastOf(tools, t.name).value in tools && LastOf(tools, t.name).value.name == t.name
    decreases |tools|
  {
    var k := |tools| - 1;
    if tools[k].name != t.name {
      assert tools == tools[..k] + [tools[k]];
      LastOfMember(tools[..k], t);
    }
  }

  /** A listed tool whose name's last entry in a listing has not drifted. */
  predicate Approved(o: Options, all: seq<Tool>, t: Tool) {
    Listed(o, t.name) && LastOf(all, t.name).Some? && DriftOf(o, LastOf(all, t.name).value).None?
  }

  /** The approved tools of a listing, in its order, each as often as it was listed. */
  function ApprovedOf(o: Options, all: seq<Tool>, tools: seq<Tool>): seq<Tool> {
    if tools == [] then []
    else (if Approved(o, all, tools[0]) then [tools[0]] else []) + ApprovedOf(o, all, tools[1..])
  }

  lemma {:induction false} ShownAsApproved(o: Options, s: State, all: seq<Tool>, tools: seq<Tool>)
    requires forall t | t in tools :: Visible(o, s, t.name) <==> Approved(o, all, t)
    ensures Shown(o, s, tools) == ApprovedOf(o, all, tools)
  {
    if tools != [] {
      hide Visible, Approved;
      assert tools[0] in tools;
      assert forall t | t in tools[1..] :: t in tools;
      ShownAsApproved(o, s, all, tools[1..]);
    }
  }

  /** The answer to a client's listing is passed on with exactly the tools that are listed
      and whose name's last entry in that answer has not drifted, in order. */
  lemma ListingIsFiltered(o: Options, s: State, m: ServerMessage)
    requires Safe(o, s) && IsResponse(m) && ToolsOf(m).Some? && s.verifying != m.id
    requires IsOpen(WorldOf(o, s.trace).open, m.id.value, Listing)
    ensures var trace := OnServer(o, s, FromServer(m)).trace;
            && |trace| == |s.trace| + 2 && trace[|s.trace| + 1].Relayed? && trace[|s.trace| + 1].s.FromServer?
            && var shown := ToolsOf(trace[|s.trace| + 1].s.m);
               && shown.Some?
               && shown == Some(ApprovedOf(o, ToolsOf(m).value, ToolsOf(m).value))
               && forall t :: t in shown.value <==> t in ToolsOf(m).value && Approved(o, ToolsOf(m).value, t)
  {
    var t := Write(s, ReadServer(FromServer(m)));
    PassKeepsId(o, t, m);
    var tools := ToolsOf(m).value;
    var (s1, m1) := PassListing(o, t, m);
    var (s2, m2) := PassDiscovery(o, s1, m1);
    assert ToolsOf(m2) == ToolsOf(m1);
    hide PassDiscovery, PassCall, DriftOf, Listed, WorldOf, CheckAll, Tracks, AllAllowed, Held, Left;
    assert m.id.value in t.listing;
    var after := CheckAll(o, t.(listing := t.listing - {m.id.value}), tools);
    assert ToolsOf(m1) == Some(Shown(o, after, tools));
    ShownIs(o, after, tools);
    forall x | x in tools
      ensures Visible(o, after, x.name) <==>
              Listed(o, x.name) && LastOf(tools, x.name).Some? && DriftOf(o, LastOf(tools, x.name).value).None?
    {
      LastOfMember(tools, x);
      if Listed(o, x.name) { CheckedByLast(o, t.(listing := t.listing - {m.id.value}), tools, x.name); }
    }
    ShownAsApproved(o, after, tools, tools);
  }

  predicate DistinctNames(tools: seq<Tool>) {
    forall i, j | 0 <= i < j < |tools| :: tools[i].name != tools[j].name
  }

  /** With distinct names that is each tool's own definition. */
  lemma DistinctListingShowsApprovedTools(o: Options, tools: seq<Tool>, t: Tool)
    requires DistinctNames(tools) && t in tools
    ensures LastOf(tools, t.name) == Some(t)
  {
    LastOfMember(tools, t);
  }

  /** A drifted tool of a listing is shown to the client exactly when it is listed and the last
      entry of its name, another one, has not drifted. */
  lemma DriftedToolIsShownExactly(o: Options, s: State, m: ServerMessage, drifted: Tool)
    requires Safe(o, s) && IsResponse(m) && ToolsOf(m).Some? && s.verifying != m.id
    requires IsOpen(WorldOf(o, s.trace).open, m.id.value, Listing)
    requires drifted in ToolsOf(m).value && DriftOf(o, drifted).Some?
    ensures var trace := OnServer(o, s, FromServer(m)).trace;
            var last := LastOf(ToolsOf(m).value, drifted.name);
            && |trace| == |s.trace| + 2 && trace[|s.trace| + 1].Relayed? && trace[|s.trace| + 1].s.FromServer?
            && var shown := ToolsOf(trace[|s.trace| + 1].s.m);
               && shown.Some?
               && (drifted in shown.value <==>
                     Listed(o, drifted.name) && last.Some? && last.value != drifted && DriftOf(o, last.value).None?)
  {
    ListingIsFiltered(o, s, m);
    hide OnServer, Safe, DriftOf, Listed;
  }

  /** So a listing of two tools of one name shows the first, drifted, beside the second. */
  lemma DuplicateNamesShowADriftedTool(o: Options, s: State, drifted: Tool, approved: Tool)
    requires drifted.name == approved.name && Listed(o, approved.name)
    requires DriftOf(o, drifted).Some? && DriftOf(o, approved).None?
    ensures drifted in Shown(o, CheckAll(o, s, [drifted, approved]), [drifted, approved])
  {
    var tools := [drifted, approved];
    CheckedByLast(o, s, tools, approved.name);
    ShownIs(o, CheckAll(o, s, tools), tools);
    assert drifted in tools;
  }

  /** The answer to a call is screened against its tool's recorded definition before it is
      passed on, when no other request shares its id. */
  lemma AnswersAreScreened(o: Options, s: State, m: ServerMessage, tool: string)
    requires Safe(o, s) && IsResponse(m) && m.result.Some?
    requires IsOpen(WorldOf(o, s.trace).open, m.id.value, Call(tool))
    requires forall r :: IsOpen(WorldOf(o, s.trace).open, m.id.value, r) ==> r == Call(tool)
    ensures var definition := if Pinned(o, tool).Some? then Pinned(o, tool).value else [];
            OnServer(o, s, FromServer(m)).trace
            == s.trace + [ReadServer(FromServer(m)), Relayed(FromServer(m), Some(o.screen(definition, m.result.value)))]
  {
    hide WorldOf, Tracks, AllAllowed, Held, Left, IsOwn;
    var open := WorldOf(o, s.trace).open;
    var id := m.id.value;
    assert !IsOpen(open, id, Listing) && !IsOpen(open, id, Discovery) && !IsOpen(open, id, OwnListing);
    assert s.calls[id] == tool;
    var t := Write(s, ReadServer(FromServer(m)));
    assert PassListing(o, t, m) == (t, m);
    assert PassDiscovery(o, t, m) == (t, m);
  }

  /** When the last page of the mediator's own listing arrives, or the listing fails, no
      call stays held. */
  lemma LastPageEmptiesTheQueue(o: Options, s: State, m: ServerMessage)
    requires Safe(o, s) && IsResponse(m) && s.verifying == m.id
    requires ToolsOf(m).None? || m.result.value.cursor.None?
    ensures OnServer(o, s, FromServer(m)).held == [] && OnServer(o, s, FromServer(m)).verifying.None?
  {
    hide Settle, CheckAll;
    var t := Write(s, ReadServer(FromServer(m)));
    if ToolsOf(m).None? {
      SettleKeeps(o, t.(verifying := None, held := []), t.held, true);
    } else {
      CheckAllKeeps(o, t, ToolsOf(m).value);
      var c := CheckAll(o, t, ToolsOf(m).value);
      SettleKeeps(o, c.(verifying := None, held := []), c.held, false);
    }
  }

  // ---- What becomes of a call ----

  /** A call the mediator will not let through, by what the server last listed. */
  predicate Blocked(o: Options, w: World, m: ClientMessage) {
    || m.name.None?
    || (if o.allow.Some? then m.name.value !in o.allow.value else m.name.value in o.deny)
    || (m.name.value in w.ever && w.ever[m.name.value].Some?)
  }

  /** A tool not seen to match its record since the server last said its list changed. */
  predicate Unsure(o: Options, w: World, name: string) {
    o.pinned.Some? && !(name in w.seen && w.seen[name].None?)
  }

  /** Every call is written on, held or answered with an error, at once and once, and an
      observer of both ends can say which: it is written on exactly when it may be. */
  lemma CallIsDecided(o: Options, s: State, m: ClientMessage)
    requires Safe(o, s) && !s.stopping && IsCall(m)
    ensures var w := WorldOf(o, s.trace);
            var t := OnClient(o, s, FromClient(m));
            t.trace == s.trace + [ReadClient(FromClient(m))]
                       + if MayCall(o, w, m) then [WroteServer(m, false)]
                         else if Blocked(o, w, m) || !Unsure(o, w, m.name.value) then [Rejected(m, false)]
                         else [Holds(m)] + if s.held == [] && s.verifying.None? then
                                             [WroteList(OwnId(s.verifications + 1), m.protocolMeta, None)]
                                           else []
  {
    CallIsNoListing(m);
    hide AllAllowed, WorldOf, Held, Left, Knows, Listed, ArgumentsAccepted, RequestOf;
    var w := WorldOf(o, s.trace);
    var t := Write(s, ReadClient(FromClient(m)));
    assert Track(t, m) == t;
    if m.name.Some? { VisibleByWorld(o, s, w, m); }
  }

  lemma VisibleByWorld(o: Options, s: State, w: World, m: ClientMessage)
    requires Tracks(o, s.changed, s.verified, w.seen, w.ever) && m.name.Some?
    ensures Visible(o, s, m.name.value) <==> !Blocked(o, w, m)
    ensures o.pinned.Some? && m.name.value !in s.verified <==> Unsure(o, w, m.name.value)
    ensures MayCall(o, w, m) <==> !Blocked(o, w, m) && !Unsure(o, w, m.name.value) && ArgumentsAccepted(o, m)
  {}

  lemma CallIsNoListing(m: ClientMessage)
    requires IsCall(m)
    ensures !RequestOf(m).Listing? && !RequestOf(m).Discovery?
  {
    assert CALL[6] != LIST[6];
    assert |CALL| != |"server/discover"|;
    assert CALL[0] != "initialize"[0];
  }

  /** What becomes of held calls let go after a listing that was read whole: each is written on
      exactly when it may be, by what was then last seen, and answered with an error otherwise. */
  function Outcomes(o: Options, w: World, calls: seq<ClientMessage>): seq<Io> {
    if calls == [] then []
    else [if MayCall(o, w, calls[0]) then WroteServer(calls[0], true) else Rejected(calls[0], true)] + Outcomes(o, w, calls[1..])
  }

  function AllRejected(calls: seq<ClientMessage>): seq<Io> {
    if calls == [] then [] else [Rejected(calls[0], true)] + AllRejected(calls[1..])
  }

  lemma OneSettled(o: Options, s: State, m: ClientMessage, w: World)
    requires o.pinned.Some? && Tracks(o, s.changed, s.verified, w.seen, w.ever) && m.name.Some?
    ensures var t := if Visible(o, s, m.name.value) && m.name.value in s.verified then Forward(o, s, m, true)
                     else Write(s, Rejected(m, true));
            && t.trace == s.trace + [if MayCall(o, w, m) then WroteServer(m, true) else Rejected(m, true)]
            && t.changed == s.changed && t.verified == s.verified
  {
    VisibleByWorld(o, s, w, m);
    hide Tracks, MayCall, Visible, Blocked, ArgumentsAccepted;
  }

  lemma {:induction false} SettledAre(o: Options, s: State, calls: seq<ClientMessage>, w: World)
    requires AllCalls(calls) && o.pinned.Some? && Tracks(o, s.changed, s.verified, w.seen, w.ever)
    ensures Settle(o, s, calls, false).trace == s.trace + Outcomes(o, w, calls)
    decreases |calls|
  {
    hide Tracks, MayCall, Visible, Forward;
    if calls != [] {
      assert calls[0] in calls;
      assert AllCalls(calls[1..]) by { assert forall c | c in calls[1..] :: c in calls; }
      var m, name := calls[0], calls[0].name.value;
      OneSettled(o, s, m, w);
      var next := if Visible(o, s, name) && name in s.verified then Forward(o, s, m, true) else Write(s, Rejected(m, true));
      SettledAre(o, next, calls[1..], w);
      var one := if MayCall(o, w, m) then WroteServer(m, true) else Rejected(m, true);
      Chained(s.trace, one, Outcomes(o, w, calls[1..]));
    }
  }

  lemma {:induction false} RejectedAre(o: Options, s: State, calls: seq<ClientMessage>)
    requires AllCalls(calls)
    ensures Settle(o, s, calls, true).trace == s.trace + AllRejected(calls)
    decreases |calls|
  {
    hide Visible, Forward;
    if calls != [] {
      assert calls[0] in calls;
      assert AllCalls(calls[1..]) by { assert forall c | c in calls[1..] :: c in calls; }
      RejectedAre(o, Write(s, Rejected(calls[0], true)), calls[1..]);
      Chained(s.trace, Rejected(calls[0], true), AllRejected(calls[1..]));
    }
  }

  lemma Chained(trace: seq<Io>, io: Io, more: seq<Io>)
    ensures (trace + [io]) + more == trace + ([io] + more)
  {}

  /** Under a record, an answer to the mediator's own listing asks for the next page when there
      is one; lets every held call go, in order, when it is the last; and rejects them all when
      it lists nothing. */
  lemma HeldCallsAreDecided(o: Options, s: State, m: ServerMessage)
    requires Safe(o, s) && o.pinned.Some? && IsResponse(m) && s.verifying == m.id
    ensures var read := s.trace + [ReadServer(FromServer(m))];
            OnServer(o, s, FromServer(m)).trace
            == read + if m.result.None? || m.result.value.tools.None? then AllRejected(s.held)
                      else if m.result.value.cursor.Some? then
                        [WroteList(OwnId(s.verifications + 1), s.verifyMeta, m.result.value.cursor)]
                      else Outcomes(o, WorldOf(o, read), s.held)
  {
    hide Knows, AllAllowed, WorldOf, Held, Left, CheckAll, SeeAll, Settle, Outcomes, OwnId, Tracks;
    var w := WorldOf(o, s.trace);
    var t := Write(s, ReadServer(FromServer(m)));
    Grow(o, s.trace, ReadServer(FromServer(m)));
    ObserveResponse(o, w, m);
    KnowsOwnClosed(s, w.open, m.id.value);
    if ToolsOf(m).None? {
      RejectedAre(o, t.(verifying := None, held := []), s.held);
    } else {
      var c := CheckAll(o, t, ToolsOf(m).value);
      CheckAllKeeps(o, t, ToolsOf(m).value);
      CheckAllTracks(o, t, ToolsOf(m).value, w.seen, w.ever);
      SettledAre(o, c.(verifying := None, held := []), s.held, WorldOf(o, t.trace));
    }
  }

  // ---- The mediator's own pages ----

  function Listings(trace: seq<Io>): nat {
    if trace == [] then 0 else Listings(trace[..|trace| - 1]) + if trace[|trace| - 1].WroteList? then 1 else 0
  }

  /** The held call whose arrival began the latest listing. */
  function Began(trace: seq<Io>): Option<ClientMessage> {
    if |trace| < 2 then None
    else if trace[|trace| - 1].WroteList? && trace[|trace| - 2].Holds? then Some(trace[|trace| - 2].m)
    else Began(trace[..|trace| - 1])
  }

  /** Each page asked for has the next number, and the protocol fields of the held call that
      began its listing. */
  predicate PageIs(trace: seq<Io>, k: nat)
    requires k < |trace|
  {
    trace[k].WroteList? ==>
      && trace[k].id == OwnId(Listings(trace[..k]) + 1)
      && Began(trace[..k + 1]).Some? && trace[k].meta == Began(trace[..k + 1]).value.protocolMeta
  }

  ghost predicate Paged(s: State) {
    && s.verifications == Listings(s.trace)
    && (forall k | 0 <= k < |s.trace| :: PageIs(s.trace, k))
    && (s.verifying.Some? ==>
          s.verifying == Some(OwnId(s.verifications)) && Began(s.trace).Some? && s.verifyMeta == Began(s.trace).value.protocolMeta)
  }

  lemma PagesGrow(trace: seq<Io>, io: Io)
    ensures var all := trace + [io];
            && Listings(all) == Listings(trace) + (if io.WroteList? then 1 else 0)
            && Began(all) == (if io.WroteList? && trace != [] && trace[|trace| - 1].Holds? then Some(trace[|trace| - 1].m) else Began(trace))
            && all[..|trace|] == trace && all[..|trace| + 1] == all
  {
    var all := trace + [io];
    assert all[..|trace|] == trace && all[..|trace| + 1] == all;
  }

  lemma PagesStay(trace: seq<Io>, io: Io)
    requires forall k | 0 <= k < |trace| :: PageIs(trace, k)
    ensures forall k | 0 <= k < |trace| :: PageIs(trace + [io], k)
  {
    hide OwnId, Listings, Began;
    var all := trace + [io];
    forall k | 0 <= k < |trace| ensures PageIs(all, k) {
      assert all[..k] == trace[..k] && all[..k + 1] == trace[..k + 1] && PageIs(trace, k);
    }
  }

  lemma PagedQuiet(s: State, t: State, io: Io)
    requires Paged(s) && !io.WroteList? && t.trace == s.trace + [io]
    requires t.verifications == s.verifications && t.verifyMeta == s.verifyMeta
    requires t.verifying == s.verifying || t.verifying.None?
    ensures Paged(t)
  {
    PagesGrow(s.trace, io);
    PagesStay(s.trace, io);
    hide Listings, Began, OwnId;
    assert PageIs(t.trace, |s.trace|);
  }

  lemma PagedRequest(s: State, meta: seq<Field>, cursor: Option<string>)
    requires s.verifications == Listings(s.trace) && forall k | 0 <= k < |s.trace| :: PageIs(s.trace, k)
    requires s.trace != []
    requires var last := s.trace[|s.trace| - 1];
             if last.Holds? then meta == last.m.protocolMeta
             else Began(s.trace).Some? && meta == Began(s.trace).value.protocolMeta
    ensures Paged(RequestList(s, meta, cursor))
  {
    PagesGrow(s.trace, WroteList(OwnId(s.verifications + 1), meta, cursor));
    PagesStay(s.trace, WroteList(OwnId(s.verifications + 1), meta, cursor));
    hide Listings, Began, OwnId;
    var t := RequestList(s, meta, cursor);
    assert PageIs(t.trace, |s.trace|);
  }

  lemma {:induction false} PagedSettle(o: Options, s: State, calls: seq<ClientMessage>, failed: bool)
    requires Paged(s) && AllCalls(calls)
    ensures Paged(Settle(o, s, calls, failed))
    decreases |calls|
  {
    hide Paged, Visible, ArgumentsAccepted;
    if calls != [] {
      assert calls[0] in calls;
      assert AllCalls(calls[1..]) by { assert forall c | c in calls[1..] :: c in calls; }
      var name := calls[0].name.value;
      var next := if !failed && Visible(o, s, name) && name in s.verified then Forward(o, s, calls[0], true)
                  else Write(s, Rejected(calls[0], true));
      PagedQuiet(s, next, next.trace[|s.trace|]);
      PagedSettle(o, next, calls[1..], failed);
    }
  }

  lemma PagedRelease(o: Options, s: State, failed: bool)
    requires Paged(s) && AllCalls(s.held)
    ensures Paged(Release(o, s, failed))
  {
    hide PageIs, Listings, Began, OwnId, Settle;
    PagedSettle(o, s.(verifying := None, held := []), s.held, failed);
  }

  lemma PagedClient(o: Options, s: State, line: ClientLine)
    requires Paged(s)
    ensures Paged(OnClient(o, s, line))
  {
    hide Paged, Visible, ArgumentsAccepted, OnMessage;
    var t := Write(s, ReadClient(line));
    PagedQuiet(s, t, ReadClient(line));
    if !(t.stopping || line.Empty?) {
      match line
      case Empty =>
      case Unfit(replyTo) => PagedQuiet(t, Write(t, WroteError(replyTo)), WroteError(replyTo));
      case FromClient(m) => PagedMessage(o, t, m);
    }
  }

  lemma PagedMessage(o: Options, s: State, m: ClientMessage)
    requires Paged(s)
    ensures Paged(OnMessage(o, s, m))
  {
    hide Paged, Visible, ArgumentsAccepted, RequestOf, RequestList;
    var u := Track(s, m);
    var v := OnMessage(o, s, m);
    if IsCall(m) && m.name.Some? && Visible(o, u, m.name.value) && o.pinned.Some? && m.name.value !in u.verified {
      var waiting := Write(u.(held := u.held + [m]), Holds(m));
      PagedQuiet(s, waiting, Holds(m));
      PagedWaits(waiting, m);
    } else {
      PagedQuiet(s, v, v.trace[|s.trace|]);
    }
  }

  lemma PagedWaits(s: State, m: ClientMessage)
    requires Paged(s) && s.trace != [] && s.trace[|s.trace| - 1] == Holds(m)
    ensures Paged(RequestList(s, m.protocolMeta, None))
  {
    hide PageIs, Listings, Began, OwnId, RequestList;
    PagedRequest(s, m.protocolMeta, None);
  }

  lemma PagedServer(o: Options, s: State, line: ServerLine)
    requires Paged(s) && AllCalls(s.held)
    ensures Paged(OnServer(o, s, line))
  {
    var t := Write(s, ReadServer(line));
    PagedQuiet(s, t, ReadServer(line));
    match line
    case NotJson => PagedQuiet(t, Write(t, Relayed(line, None)), Relayed(line, None));
    case FromServer(m) =>
      if IsResponse(m) && s.verifying == m.id {
        PagedOwnAnswer(o, t, m);
      } else {
        var t1 := if m.kind == Some(CHANGED) then t.(verified := {}) else t;
        PassKeepsPages(o, t1, m);
        var (s1, m1) := PassListing(o, t1, m);
        var (s2, m2) := PassDiscovery(o, s1, m1);
        var (s3, verdict) := PassCall(o, s2, m2);
        hide Paged, PassListing, PassDiscovery, PassCall;
        PagedQuiet(t, Write(s3, Relayed(FromServer(m2), verdict)), Relayed(FromServer(m2), verdict));
      }
  }

  lemma PassKeepsPages(o: Options, s: State, m: ServerMessage)
    ensures var (s1, m1) := PassListing(o, s, m);
            var (s2, m2) := PassDiscovery(o, s1, m1);
            var (s3, verdict) := PassCall(o, s2, m2);
            && s3.trace == s.trace && s3.verifying == s.verifying && s3.verifications == s.verifications
            && s3.verifyMeta == s.verifyMeta
  {
    hide CheckAll, Shown, Visible, InstructionsApproved, Pinned;
    if ToolsOf(m).Some? && m.id.Some? { CheckAllKeeps(o, s.(listing := s.listing - {m.id.value}), ToolsOf(m).value); }
  }

  lemma PagedOwnAnswer(o: Options, s: State, m: ServerMessage)
    requires Paged(s) && AllCalls(s.held) && s.verifying.Some?
    requires s.trace != [] && !s.trace[|s.trace| - 1].Holds?
    ensures Paged(OnOwnAnswer(o, s, m))
  {
    hide PageIs, Listings, Began, OwnId, CheckAll, Release, RequestList;
    if ToolsOf(m).None? {
      PagedRelease(o, s, true);
    } else {
      CheckAllKeeps(o, s, ToolsOf(m).value);
      var c := CheckAll(o, s, ToolsOf(m).value);
      if m.result.value.cursor.Some? {
        PagedRequest(c, c.verifyMeta, m.result.value.cursor);
      } else {
        PagedRelease(o, c, false);
      }
    }
  }

  lemma {:induction false} RunIsPaged(o: Options, inputs: seq<Input>)
    ensures Paged(Run(o, inputs))
  {
    if inputs != [] {
      hide Paged, OnClient, OnServer;
      var k := |inputs| - 1;
      RunIsPaged(o, inputs[..k]);
      var before := Run(o, inputs[..k]);
      match inputs[k]
      case ClientSays(line) => PagedClient(o, before, line);
      case ServerSays(line) => PagedServer(o, before, line);
      case Stop => PagedStop(before);
    }
  }

  lemma PagedStop(s: State)
    requires Paged(s)
    ensures Paged(s.(stopping := true))
  {}

  lemma {:induction false} DigitsDiffer(a: nat, b: nat)
    requires DigitsOf(a) == DigitsOf(b)
    ensures a == b
  {
    var x, y := DigitsOf(a), DigitsOf(b);
    assert x[|x| - 1] == (a % 10) as char + '0' && y[|y| - 1] == (b % 10) as char + '0';
    assert a % 10 == b % 10;
    assert x[..|x| - 1] == (if a < 10 then "" else DigitsOf(a / 10));
    assert y[..|y| - 1] == (if b < 10 then "" else DigitsOf(b / 10));
    if a >= 10 && b >= 10 { DigitsDiffer(a / 10, b / 10); }
  }

  lemma OwnIdsDiffer(a: nat, b: nat)
    requires OwnId(a) == OwnId(b)
    ensures a == b
  {
    assert OwnId(a).s[|PREFIX|..] == DigitsOf(a) && OwnId(b).s[|PREFIX|..] == DigitsOf(b);
    DigitsDiffer(a, b);
  }

  lemma {:induction false} ListingsMount(trace: seq<Io>, j: nat, k: nat)
    requires j < k <= |trace| && trace[j].WroteList?
    ensures Listings(trace[..j]) < Listings(trace[..k])
    decreases k
  {
    assert trace[..k][..k - 1] == trace[..k - 1];
    if j < k - 1 { ListingsMount(trace, j, k - 1); }
  }

  /** Over every run no two of the mediator's own pages share an id. */
  lemma OwnIdsNeverRepeat(o: Options, inputs: seq<Input>, j: nat, k: nat)
    requires var trace := Run(o, inputs).trace;
             j < k < |trace| && trace[j].WroteList? && trace[k].WroteList?
    ensures var trace := Run(o, inputs).trace;
            trace[j].id != trace[k].id
  {
    RunIsPaged(o, inputs);
    var trace := Run(o, inputs).trace;
    assert PageIs(trace, j) && PageIs(trace, k);
    ListingsMount(trace, j, k);
    hide Listings, Began, OwnId, Run;
    if trace[j].id == trace[k].id { OwnIdsDiffer(Listings(trace[..j]) + 1, Listings(trace[..k]) + 1); }
  }

  /** Each page carries the protocol fields of the held call that began its listing. */
  lemma PagesCarryTheirFields(o: Options, inputs: seq<Input>, k: nat)
    requires var trace := Run(o, inputs).trace;
             k < |trace| && trace[k].WroteList?
    ensures var began := Began(Run(o, inputs).trace[..k + 1]);
            began.Some? && Run(o, inputs).trace[k].meta == began.value.protocolMeta
  {
    RunIsPaged(o, inputs);
    assert PageIs(Run(o, inputs).trace, k);
  }

  /** A page is asked for under an id no request still open has, and while no other is open. */
  lemma OwnIdsAreFresh(o: Options, inputs: seq<Input>, k: nat, r: Request)
    requires forall i | i in inputs :: Proper(i)
    requires var trace := Run(o, inputs).trace;
             k < |trace| && trace[k].WroteList?
    ensures var trace := Run(o, inputs).trace;
            && NoOwnOpen(WorldOf(o, trace[..k]).open)
            && IsOwn(trace[k].id) && !IsOpen(WorldOf(o, trace[..k]).open, trace[k].id, r)
  {
    RunIsSafe(o, inputs);
    RunIsPaged(o, inputs);
    var trace := Run(o, inputs).trace;
    assert Allowed(o, WorldOf(o, trace[..k]), trace[k]);
    assert PageIs(trace, k);
    OwnIdIsOwn(Listings(trace[..k]) + 1);
  }
}
