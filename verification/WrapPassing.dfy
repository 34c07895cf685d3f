/** What the mediator lets pass untouched, over every run: the client's messages that are no
    tool calls, and the server's lines, but for what is taken out of them. */
module WrapPassing {
  import opened Optional
  import opened Definitions
  import opened WrapSpec
  import opened WrapSafety

  /** The part of a trace a predicate picks, in order. */
  function Kept(trace: seq<Io>, p: Io -> bool): seq<Io> {
    if trace == [] then []
    else
      var io := trace[|trace| - 1];
      Kept(trace[..|trace| - 1], p) + if p(io) then [io] else []
  }

  lemma KeptOne(trace: seq<Io>, io: Io, p: Io -> bool)
    ensures Kept(trace + [io], p) == Kept(trace, p) + if p(io) then [io] else []
  {
    assert (trace + [io])[..|trace|] == trace;
  }

  /** What a trace holds besides: lines read, listings asked for, and what becomes of calls. */
  predicate Inner(io: Io) {
    match io
    case ReadClient(_) => true
    case ReadServer(_) => true
    case WroteList(_, _, _) => true
    case Holds(_) => true
    case Rejected(_, _) => true
    case WroteServer(m, _) => m.kind == Some("tools/call")
    case WroteError(_) => false
    case Relayed(_, _) => false
  }

  ghost predicate Outer(p: Io -> bool) {
    forall io :: p(io) ==> !Inner(io)
  }

  // ---- From the client ----

  /** A message passed to the server that is no call, or an error for a line refused before
      it is looked at. */
  predicate FromClientLine(io: Io) {
    io.WroteError? || (io.WroteServer? && io.m.kind != Some("tools/call"))
  }

  /** What a line from the client calls for, tool calls aside. */
  function OwedFor(line: ClientLine): seq<Io> {
    match line
    case Empty => []
    case Unfit(replyTo) => [WroteError(replyTo)]
    case FromClient(m) => if m.kind == Some("tools/call") then [] else [WroteServer(m, false)]
  }

  predicate Stopped(inputs: seq<Input>) {
    Stop in inputs
  }

  /** What the client's lines call for, as long as the mediator reads them. */
  function Owed(inputs: seq<Input>): seq<Io> {
    if inputs == [] then []
    else
      var before, last := inputs[..|inputs| - 1], inputs[|inputs| - 1];
      Owed(before) + if last.ClientSays? && !Stopped(before) then OwedFor(last.c) else []
  }

  lemma {:induction false} SettleKept(o: Options, s: State, calls: seq<ClientMessage>, failed: bool, p: Io -> bool)
    requires AllCalls(calls) && Outer(p)
    ensures Kept(Settle(o, s, calls, failed).trace, p) == Kept(s.trace, p)
    decreases |calls|
  {
    if calls != [] {
      hide Visible, ArgumentsAccepted, Kept, Outer;
      assert calls[0] in calls;
      var m, name := calls[0], calls[0].name.value;
      var next := if !failed && Visible(o, s, name) && name in s.verified then Forward(o, s, m, true)
                  else Write(s, Rejected(m, true));
      InnerKept(s.trace, WroteServer(m, true), p);
      InnerKept(s.trace, Rejected(m, true), p);
      SettleKept(o, next, calls[1..], failed, p);
    }
  }

  lemma InnerKept(trace: seq<Io>, io: Io, p: Io -> bool)
    requires Outer(p) && Inner(io)
    ensures Kept(trace + [io], p) == Kept(trace, p)
  {
    KeptOne(trace, io, p);
    hide Kept;
    assert Kept(trace, p) + [] == Kept(trace, p);
  }

  lemma CallKept(o: Options, s: State, m: ClientMessage, p: Io -> bool)
    requires Outer(p) && m.kind == Some("tools/call")
    ensures Kept(OnMessage(o, s, m).trace, p) == Kept(s.trace, p)
  {
    hide Visible, ArgumentsAccepted, RequestOf, OwnId, Kept, Outer;
    InnerKept(s.trace, WroteServer(m, false), p);
    InnerKept(s.trace, Rejected(m, false), p);
    InnerKept(s.trace, Holds(m), p);
    InnerKept(s.trace + [Holds(m)], WroteList(OwnId(s.verifications + 1), m.protocolMeta, None), p);
  }

  /** A message that is no call goes on to the server as it is. */
  lemma OtherPasses(o: Options, s: State, m: ClientMessage)
    requires m.kind != Some("tools/call")
    ensures OnMessage(o, s, m).trace == s.trace + [WroteServer(m, false)]
  {
    hide RequestOf;
  }

  lemma ClientKept(o: Options, s: State, line: ClientLine)
    ensures Kept(OnClient(o, s, line).trace, FromClientLine)
            == Kept(s.trace, FromClientLine) + if s.stopping then [] else OwedFor(line)
  {
    hide Kept, OnMessage;
    var t := Write(s, ReadClient(line));
    InnerKept(s.trace, ReadClient(line), FromClientLine);
    match line
    case Empty =>
    case Unfit(replyTo) => KeptOne(t.trace, WroteError(replyTo), FromClientLine);
    case FromClient(m) =>
      if m.kind == Some("tools/call") {
        CallKept(o, t, m, FromClientLine);
      } else {
        OtherPasses(o, t, m);
        KeptOne(t.trace, WroteServer(m, false), FromClientLine);
      }
  }

  lemma OwnAnswerKept(o: Options, s: State, m: ServerMessage, p: Io -> bool)
    requires AllCalls(s.held) && Outer(p)
    ensures Kept(OnOwnAnswer(o, s, m).trace, p) == Kept(s.trace, p)
  {
    hide Settle, CheckAll, Kept, OwnId, Outer;
    if ToolsOf(m).None? {
      SettleKept(o, s.(verifying := None, held := []), s.held, true, p);
    } else {
      CheckAllKeeps(o, s, ToolsOf(m).value);
      var c := CheckAll(o, s, ToolsOf(m).value);
      SettleKept(o, c.(verifying := None, held := []), c.held, false, p);
      InnerKept(c.trace, WroteList(OwnId(c.verifications + 1), c.verifyMeta, m.result.value.cursor), p);
    }
  }

  /** A server line that is no answer to the mediator's own listing is relayed, at once and
      once, as it was but for what is taken out. */
  lemma OthersAreRelayed(o: Options, s: State, line: ServerLine)
    requires AllCalls(s.held)
    requires line.FromServer? && IsResponse(line.m) ==> s.verifying != line.m.id
    ensures var t := OnServer(o, s, line).trace;
            && |t| == |s.trace| + 2 && t == s.trace + [ReadServer(line), t[|s.trace| + 1]]
            && t[|s.trace| + 1].Relayed? && Carries(t[|s.trace| + 1].s, line)
  {
    var t := Write(s, ReadServer(line));
    if line.FromServer? {
      var m := line.m;
      var t1 := if m.kind == Some(CHANGED) then t.(verified := {}) else t;
      PassKeepsId(o, t1, m);
      PassCarries(o, t1, m);
      hide PassListing, PassDiscovery, PassCall, Carries;
    }
  }

  /** The same line, but for its result's tools and instructions. */
  predicate Carries(relayed: ServerLine, line: ServerLine) {
    if line.NotJson? then relayed.NotJson?
    else
      && relayed.FromServer? && relayed.m.id == line.m.id && relayed.m.kind == line.m.kind
      && relayed.m.result.Some? == line.m.result.Some?
      && (line.m.result.Some? ==>
            relayed.m.result.value.rest == line.m.result.value.rest && relayed.m.result.value.cursor == line.m.result.value.cursor)
  }

  lemma PassCarries(o: Options, s: State, m: ServerMessage)
    ensures var (s1, m1) := PassListing(o, s, m);
            var (s2, m2) := PassDiscovery(o, s1, m1);
            Carries(FromServer(m2), FromServer(m))
  {
    hide CheckAll, Shown, InstructionsApproved;
  }

  lemma ServerKept(o: Options, s: State, line: ServerLine)
    requires AllCalls(s.held)
    ensures Kept(OnServer(o, s, line).trace, FromClientLine) == Kept(s.trace, FromClientLine)
  {
    hide Kept, OnOwnAnswer, Carries;
    var t := Write(s, ReadServer(line));
    InnerKept(s.trace, ReadServer(line), FromClientLine);
    if line.FromServer? && IsResponse(line.m) && s.verifying == line.m.id {
      OwnAnswerKept(o, t, line.m, FromClientLine);
    } else {
      OthersAreRelayed(o, s, line);
      hide OnServer;
      var last := OnServer(o, s, line).trace[|s.trace| + 1];
      KeptOne(t.trace, last, FromClientLine);
      assert Kept(t.trace, FromClientLine) + [] == Kept(t.trace, FromClientLine);
      assert t.trace + [last] == OnServer(o, s, line).trace;
    }
  }

  lemma ClientStays(o: Options, s: State, line: ClientLine)
    ensures OnClient(o, s, line).stopping == s.stopping
  {
    hide Visible, ArgumentsAccepted, RequestOf, OwnId;
  }

  lemma ServerStays(o: Options, s: State, line: ServerLine)
    requires AllCalls(s.held)
    ensures OnServer(o, s, line).stopping == s.stopping
  {
    hide CheckAll, Settle, Shown, InstructionsApproved, Pinned, OwnId;
    if line.FromServer? {
      var m := line.m;
      var t := Write(s, ReadServer(line));
      SettleKeeps(o, t.(verifying := None, held := []), t.held, true);
      if ToolsOf(m).Some? {
        CheckAllKeeps(o, t, ToolsOf(m).value);
        var c := CheckAll(o, t, ToolsOf(m).value);
        SettleKeeps(o, c.(verifying := None, held := []), c.held, false);
        var t1 := if m.kind == Some(CHANGED) then t.(verified := {}) else t;
        if m.id.Some? { CheckAllKeeps(o, t1.(listing := t1.listing - {m.id.value}), ToolsOf(m).value); }
      }
    }
  }

  lemma {:induction false} StoppingIs(o: Options, inputs: seq<Input>)
    ensures Run(o, inputs).stopping <==> Stopped(inputs)
  {
    if inputs != [] {
      hide OnClient, OnServer;
      var k := |inputs| - 1;
      StoppingIs(o, inputs[..k]);
      var before := Run(o, inputs[..k]);
      assert inputs == inputs[..k] + [inputs[k]];
      match inputs[k]
      case ClientSays(line) => ClientStays(o, before, line);
      case ServerSays(line) => ServerStays(o, before, line);
      case Stop =>
    }
  }

  /** Over every run, and until it is told to stop, the mediator writes on to the server each
      of the client's messages that is no call, and answers each line refused before it is
      looked at with one error under its own id: in order, each once, and nothing else. */
  lemma {:induction false} ClientLinesPass(o: Options, inputs: seq<Input>)
    ensures Kept(Run(o, inputs).trace, FromClientLine) == Owed(inputs)
  {
    if inputs != [] {
      hide OnClient, OnServer, OwedFor;
      var k := |inputs| - 1;
      var before := Run(o, inputs[..k]);
      ClientLinesPass(o, inputs[..k]);
      StoppingIs(o, inputs[..k]);
      match inputs[k]
      case ClientSays(line) => ClientKept(o, before, line);
      case ServerSays(line) => ServerKept(o, before, line);
      case Stop =>
    }
  }

  // ---- From the server ----

  predicate IsRelay(io: Io) {
    io.Relayed?
  }

  /** The answer to a listing of the mediator's own. */
  predicate AnswersOwn(w: World, line: ServerLine) {
    line.FromServer? && IsResponse(line.m) && IsOpen(w.open, line.m.id.value, OwnListing)
  }

  /** The server's lines, but for the answers to the mediator's own listings. */
  function Due(o: Options, inputs: seq<Input>): seq<ServerLine> {
    if inputs == [] then []
    else
      var before, last := inputs[..|inputs| - 1], inputs[|inputs| - 1];
      Due(o, before)
      + if last.ServerSays? && !AnswersOwn(WorldOf(o, Run(o, before).trace), last.s) then [last.s] else []
  }

  ghost predicate RelaysAre(relays: seq<Io>, lines: seq<ServerLine>) {
    |relays| == |lines| && forall k | 0 <= k < |lines| :: relays[k].Relayed? && Carries(relays[k].s, lines[k])
  }

  lemma ClientRelaysNone(o: Options, s: State, line: ClientLine)
    ensures Kept(OnClient(o, s, line).trace, IsRelay) == Kept(s.trace, IsRelay)
  {
    hide Kept, OnMessage;
    var t := Write(s, ReadClient(line));
    InnerKept(s.trace, ReadClient(line), IsRelay);
    match line
    case Empty =>
    case Unfit(replyTo) => NoRelayKept(t.trace, WroteError(replyTo));
    case FromClient(m) =>
      if m.kind == Some("tools/call") {
        CallKept(o, t, m, IsRelay);
      } else {
        OtherPasses(o, t, m);
        NoRelayKept(t.trace, WroteServer(m, false));
      }
  }

  lemma NoRelayKept(trace: seq<Io>, io: Io)
    requires !io.Relayed?
    ensures Kept(trace + [io], IsRelay) == Kept(trace, IsRelay)
  {
    KeptOne(trace, io, IsRelay);
    hide Kept;
    assert Kept(trace, IsRelay) + [] == Kept(trace, IsRelay);
  }

  lemma OwnIsAwaited(o: Options, s: State, line: ServerLine)
    requires Safe(o, s)
    ensures AnswersOwn(WorldOf(o, s.trace), line)
            <==> line.FromServer? && IsResponse(line.m) && s.verifying == line.m.id
  {
    hide WorldOf, Tracks, AllAllowed, Held, Left, IsOwn;
  }

  lemma ServerRelays(o: Options, s: State, line: ServerLine)
    requires Safe(o, s)
    ensures var before, after := Kept(s.trace, IsRelay), Kept(OnServer(o, s, line).trace, IsRelay);
            if AnswersOwn(WorldOf(o, s.trace), line) then after == before
            else |after| == |before| + 1 && after[..|before|] == before
                 && after[|before|].Relayed? && Carries(after[|before|].s, line)
  {
    OwnIsAwaited(o, s, line);
    hide Kept, OnOwnAnswer, AnswersOwn, WorldOf, Tracks, Knows, AllAllowed, Held, Left, Carries;
    var t := Write(s, ReadServer(line));
    InnerKept(s.trace, ReadServer(line), IsRelay);
    if line.FromServer? && IsResponse(line.m) && s.verifying == line.m.id {
      OwnAnswerKept(o, t, line.m, IsRelay);
    } else {
      OthersAreRelayed(o, s, line);
      hide OnServer;
      var last := OnServer(o, s, line).trace[|s.trace| + 1];
      KeptOne(t.trace, last, IsRelay);
      assert t.trace + [last] == OnServer(o, s, line).trace;
    }
  }

  /** Over every run every line of the server's that is no answer to the mediator's own
      listings is passed on to the client: in order, each once, as it was but for its result's
      tools and instructions; and nothing else is passed on. */
  lemma {:induction false} ServerLinesPass(o: Options, inputs: seq<Input>)
    requires forall i | i in inputs :: Proper(i)
    ensures RelaysAre(Kept(Run(o, inputs).trace, IsRelay), Due(o, inputs))
  {
    if inputs != [] {
      hide OnClient, OnServer, Safe, AnswersOwn, Carries, Kept;
      var k := |inputs| - 1;
      assert forall i | i in inputs[..k] :: i in inputs;
      var before := Run(o, inputs[..k]);
      ServerLinesPass(o, inputs[..k]);
      RunIsSafe(o, inputs[..k]);
      var due := Due(o, inputs[..k]);
      match inputs[k]
      case ClientSays(line) =>
        ClientRelaysNone(o, before, line);
        assert due + [] == due;
      case ServerSays(line) =>
        ServerRelays(o, before, line);
        RelaysGrow(Kept(before.trace, IsRelay), due, Kept(Run(o, inputs).trace, IsRelay), line);
        assert due + [] == due;
      case Stop => assert due + [] == due;
    } else {
      assert Kept([], IsRelay) == [];
    }
  }

  lemma RelaysGrow(relays: seq<Io>, lines: seq<ServerLine>, grown: seq<Io>, line: ServerLine)
    requires RelaysAre(relays, lines)
    ensures |grown| == |relays| + 1 && grown[..|relays|] == relays && grown[|relays|].Relayed? && Carries(grown[|relays|].s, line)
            ==> RelaysAre(grown, lines + [line])
  {
    hide Carries;
    if |grown| == |relays| + 1 && grown[..|relays|] == relays {
      forall k | 0 <= k < |relays| ensures grown[k] == relays[k] { assert grown[..|relays|][k] == relays[k]; }
    }
  }

  // ---- What is taken out ----

  /** No answer to this id was read after this place. */
  predicate Unanswered(trace: seq<Io>, k: nat, id: Id) {
    forall j | k < j < |trace| ::
      !(trace[j].ReadServer? && trace[j].s.FromServer? && trace[j].s.m.kind.None? && trace[j].s.m.id == Some(id))
  }

  /** A request the client was seen to make, and the server not to answer, is open. */
  lemma {:induction false} OpenStays(o: Options, trace: seq<Io>, k: nat)
    requires k < |trace| && trace[k].WroteServer? && trace[k].m.id.Some? && trace[k].m.kind.Some?
    requires Unanswered(trace, k, trace[k].m.id.value)
    ensures IsOpen(WorldOf(o, trace).open, trace[k].m.id.value, RequestOf(trace[k].m))
    decreases |trace|
  {
    hide RequestOf, DriftOf, SeeAll;
    var n := |trace| - 1;
    if k < n {
      var before := trace[..n];
      forall j | k < j < n ensures before[j] == trace[j] {}
      OpenStays(o, before, k);
      ObserveKeeps(o, WorldOf(o, before), trace[n], trace[k].m.id.value, RequestOf(trace[k].m));
    }
  }

  lemma ObserveKeeps(o: Options, w: World, io: Io, id: Id, r: Request)
    requires IsOpen(w.open, id, r)
    requires !(io.ReadServer? && io.s.FromServer? && io.s.m.kind.None? && io.s.m.id == Some(id))
    ensures IsOpen(Observe(o, w, io).open, id, r)
  {
    hide RequestOf, SeeAll;
  }

  lemma RequestKinds(m: ClientMessage)
    ensures m.kind == Some("initialize") || m.kind == Some("server/discover") ==> RequestOf(m) == Discovery
    ensures m.kind == Some("tools/list") ==> RequestOf(m) == Listing
  {
    assert |LIST| != |"server/discover"| && LIST[0] != "initialize"[0];
  }

  /** The instructions a record approves: its own, letter for letter. */
  predicate Approves(o: Options, live: Value) {
    && o.pinned.Some? && "server:instructions" in o.pinned.value && !live.List? && !live.Record?
    && exists f | f in o.pinned.value["server:instructions"] :: f.name == "instructions" && f.value == live
  }

  lemma ApprovedIs(o: Options, live: Value)
    requires o.pinned.Some? && "server:instructions" in o.pinned.value ==> Unique(o.pinned.value["server:instructions"])
    ensures InstructionsApproved(o, live) <==> Approves(o, live)
  {
    if o.pinned.Some? && INSTRUCTIONS in o.pinned.value {
      var fields := o.pinned.value[INSTRUCTIONS];
      var got := Get(fields, "instructions");
      hide Get;
      if got.Some? {
        var f :| f in fields && f.name == "instructions" && f.value == got.value;
        forall g | g in fields && g.name == "instructions" ensures g == f { OneOfName(fields, f, g); }
      }
    }
  }

  lemma OneOfName(fields: seq<Field>, f: Field, g: Field)
    requires Unique(fields) && f in fields && g in fields && f.name == g.name
    ensures f == g
  {}

  lemma DiscoveryPasses(o: Options, s: State, m: ServerMessage)
    requires Safe(o, s) && IsResponse(m) && m.result.Some? && IsOpen(WorldOf(o, s.trace).open, m.id.value, Discovery)
    ensures s.verifying != m.id
    ensures var t := OnServer(o, s, FromServer(m)).trace;
            var live := m.result.value.instructions;
            && |t| == |s.trace| + 2 && t[|s.trace| + 1].Relayed? && t[|s.trace| + 1].s.FromServer?
            && t[|s.trace| + 1].s.m.result.Some?
            && t[|s.trace| + 1].s.m.result.value.instructions
               == if o.pinned.None? || live.None? || InstructionsApproved(o, live.value) then live else None
  {
    hide WorldOf, Tracks, AllAllowed, Held, Left, IsOwn, InstructionsApproved;
    var id := m.id.value;
    var open := WorldOf(o, s.trace).open;
    assert IsOpen(open, id, OwnListing) <==> s.verifying == Some(id);
    OthersAreRelayed(o, s, FromServer(m));
    var t := Write(s, ReadServer(FromServer(m)));
    PassKeepsId(o, t, m);
    ListingKeeps(o, t, m);
    hide PassListing, PassCall, Carries;
  }

  lemma ListingKeeps(o: Options, s: State, m: ServerMessage)
    requires m.result.Some?
    ensures var (s1, m1) := PassListing(o, s, m);
            && s1.discovering == s.discovering && m1.kind == m.kind && m1.id == m.id
            && m1.result.Some? && m1.result.value.instructions == m.result.value.instructions
  {
    hide CheckAll, Shown;
    if ToolsOf(m).Some? && m.id.Some? { CheckAllKeeps(o, s.(listing := s.listing - {m.id.value}), ToolsOf(m).value); }
  }

  /** Over every run: under a record, the answer to an `initialize` or `server/discover` of the
      client's reaches it with its instructions exactly when the record approves them. */
  lemma InstructionsAreHeld(o: Options, inputs: seq<Input>, k: nat, m: ServerMessage)
    requires forall i | i in inputs :: Proper(i)
    requires o.pinned.Some? && ("server:instructions" in o.pinned.value ==> Unique(o.pinned.value["server:instructions"]))
    requires var trace := Run(o, inputs).trace;
             && k < |trace| && trace[k].WroteServer? && trace[k].m.id.Some? && m.id == trace[k].m.id
             && trace[k].m.kind in {Some("initialize"), Some("server/discover")}
             && Unanswered(trace, k, trace[k].m.id.value)
    requires m.kind.None? && m.result.Some?
    ensures var before, t := Run(o, inputs).trace, Run(o, inputs + [ServerSays(FromServer(m))]).trace;
            var live := m.result.value.instructions;
            && |t| == |before| + 2 && t[|before| + 1].Relayed? && t[|before| + 1].s.FromServer?
            && t[|before| + 1].s.m.result.Some?
            && t[|before| + 1].s.m.result.value.instructions
               == if live.Some? && Approves(o, live.value) then live else None
  {
    var all := inputs + [ServerSays(FromServer(m))];
    assert all[..|inputs|] == inputs;
    RunIsSafe(o, inputs);
    var s := Run(o, inputs);
    OpenStays(o, s.trace, k);
    RequestKinds(s.trace[k].m);
    hide Safe, OnServer, RequestOf, WorldOf, InstructionsApproved, Approves, Unanswered;
    assert Run(o, all) == OnServer(o, s, FromServer(m));
    DiscoveryPasses(o, s, m);
    if m.result.value.instructions.Some? { ApprovedIs(o, m.result.value.instructions.value); }
  }

  /** And the answer to a `tools/list` of the client's reaches it with exactly the tools that
      are listed and whose name's last entry has not drifted, in order. */
  lemma ListingsAreFiltered(o: Options, inputs: seq<Input>, k: nat, m: ServerMessage)
    requires forall i | i in inputs :: Proper(i)
    requires var trace := Run(o, inputs).trace;
             && k < |trace| && trace[k].WroteServer? && trace[k].m.id.Some? && m.id == trace[k].m.id
             && trace[k].m.kind == Some("tools/list") && Unanswered(trace, k, trace[k].m.id.value)
    requires m.kind.None? && m.result.Some? && m.result.value.tools.Some?
    ensures var before, t := Run(o, inputs).trace, Run(o, inputs + [ServerSays(FromServer(m))]).trace;
            var tools := m.result.value.tools.value;
            && |t| == |before| + 2 && t[|before| + 1].Relayed? && t[|before| + 1].s.FromServer?
            && t[|before| + 1].s.m.result.Some? && t[|before| + 1].s.m.result.value.tools == Some(ApprovedOf(o, tools, tools))
  {
    var all := inputs + [ServerSays(FromServer(m))];
    assert all[..|inputs|] == inputs;
    RunIsSafe(o, inputs);
    var s := Run(o, inputs);
    OpenStays(o, s.trace, k);
    RequestKinds(s.trace[k].m);
    NotAwaited(o, s, m.id.value, Listing);
    hide Safe, OnServer, RequestOf, WorldOf, ApprovedOf, Unanswered;
    assert Run(o, all) == OnServer(o, s, FromServer(m));
    ListingIsFiltered(o, s, m);
  }

  lemma NotAwaited(o: Options, s: State, id: Id, r: Request)
    requires Safe(o, s) && IsOpen(WorldOf(o, s.trace).open, id, r) && r != OwnListing
    ensures s.verifying != Some(id)
  {
    hide WorldOf, Tracks, AllAllowed, Held, Left, IsOwn;
    assert IsOpen(WorldOf(o, s.trace).open, id, OwnListing) <==> s.verifying == Some(id);
  }

  // ---- What a call rests on ----

  predicate SaysChanged(io: Io) {
    io.ReadServer? && io.s.FromServer? && io.s.m.kind == Some("notifications/tools/list_changed")
  }

  predicate Lists(io: Io, name: string) {
    && io.ReadServer? && io.s.FromServer? && io.s.m.kind.None? && io.s.m.result.Some? && io.s.m.result.value.tools.Some?
    && exists t | t in io.s.m.result.value.tools.value :: t.name == name
  }

  /** The server listed a tool, and has not said since that its list changed. */
  ghost predicate ListedSince(trace: seq<Io>, name: string) {
    exists j :: 0 <= j < |trace| && Lists(trace[j], name) && forall k | j < k < |trace| :: !SaysChanged(trace[k])
  }

  lemma {:induction false} SeenAreListed(o: Options, seen: map<string, Option<Drift>>, tools: seq<Tool>, name: string)
    ensures name in SeeAll(o, seen, tools) <==> name in seen || exists t | t in tools :: t.name == name
    decreases |tools|
  {
    hide DriftOf;
    if tools != [] {
      SeenAreListed(o, seen[tools[0].name := DriftOf(o, tools[0])], tools[1..], name);
      assert tools == [tools[0]] + tools[1..];
    }
  }

  lemma {:induction false} SeenMeans(o: Options, trace: seq<Io>, name: string)
    requires name in WorldOf(o, trace).seen
    ensures ListedSince(trace, name)
    decreases |trace|
  {
    hide SeeAll, RequestOf, DriftOf;
    var n := |trace| - 1;
    var before, io := trace[..n], trace[n];
    if io.ReadServer? && io.s.FromServer? && io.s.m.result.Some? && io.s.m.result.value.tools.Some? {
      SeenAreListed(o, WorldOf(o, before).seen, io.s.m.result.value.tools.value, name);
    }
    if !Lists(io, name) {
      assert !SaysChanged(io) && name in WorldOf(o, before).seen;
      SeenMeans(o, before, name);
      var j :| 0 <= j < n && Lists(before[j], name) && forall k | j < k < n :: !SaysChanged(before[k]);
      forall k | j < k < |trace| ensures !SaysChanged(trace[k]) { if k < n { assert before[k] == trace[k]; } }
      assert Lists(trace[j], name);
    }
  }

  /** Under a record, in every run, a call is written to the server only when its tool has been
      listed since the server last said that its list changed. */
  lemma CallsAreListedSince(o: Options, inputs: seq<Input>, k: nat)
    requires o.pinned.Some? && forall i | i in inputs :: Proper(i)
    requires var trace := Run(o, inputs).trace;
             k < |trace| && trace[k].WroteServer? && trace[k].m.kind == Some("tools/call")
    ensures var trace := Run(o, inputs).trace;
            trace[k].m.name.Some? && ListedSince(trace[..k], trace[k].m.name.value)
  {
    CallsReachTheServerOnlyWhenAllowed(o, inputs, k);
    hide Run, ListedSince, WorldOf;
    SeenMeans(o, Run(o, inputs).trace[..k], Run(o, inputs).trace[k].m.name.value);
  }
}
