/** The stdio mediator between a client and a tool server, as a step per line read. What it
    reads and writes, in order, is its trace; the properties are about the trace alone. */
module WrapSpec {
  import opened Optional
  import opened Definitions
  import opened Numerals

  type Item = seq<Field>

  datatype Id = StringId(s: string) | NumberId(n: int) | NullId

  const PREFIX := "mcp-authz-wrap/verify/"

  /** An id of the mediator's own listing requests. */
  predicate IsOwn(id: Id) {
    id.StringId? && PREFIX <= id.s
  }

  function OwnId(n: nat): Id {
    StringId(PREFIX + DigitsOf(n))
  }

  // ---- Messages, as parsed ----

  datatype ClientMessage = ClientMessage(id: Option<Id>, kind: Option<string>, name: Option<string>,
                                         arguments: Option<Value>, protocolMeta: seq<Field>)

  /** A line from the client: blank, refused before it is looked at (unreadable, a batch, a
      repeated key, an id that cannot be held exactly), or one message. */
  datatype ClientLine = Empty | Unfit(replyTo: Option<Id>) | FromClient(m: ClientMessage)

  datatype Tool = Tool(name: string, item: Item)

  /** The parts of a result that are looked at. A cursor is a non-empty one. */
  datatype Result = Result(tools: Option<seq<Tool>>, cursor: Option<string>, instructions: Option<Value>, rest: Value)

  datatype ServerMessage = ServerMessage(id: Option<Id>, kind: Option<string>, result: Option<Result>)
  datatype ServerLine = NotJson | FromServer(m: ServerMessage)

  const CALL := "tools/call"
  const LIST := "tools/list"
  const CHANGED := "notifications/tools/list_changed"
  const INSTRUCTIONS := "server:instructions"

  predicate IsCall(m: ClientMessage) {
    m.kind == Some(CALL)
  }

  predicate IsResponse(m: ServerMessage) {
    m.kind.None? && m.id.Some?
  }

  // ---- Options ----

  datatype Verdict = Pass | Withhold | Notice

  /** `accepts` and `screen` are the JSON Schema checks of a call's arguments and answer. */
  datatype Options = Options(allow: Option<seq<string>>, deny: seq<string>, pinned: Option<map<string, Item>>,
                             accepts: (Item, Option<Value>) -> bool, screen: (Item, Result) -> Verdict)

  predicate Listed(o: Options, name: string) {
    if o.allow.Some? then name in o.allow.value else name !in o.deny
  }

  /** Why a listed tool is not the one approved. */
  datatype Drift = NotOffered | FieldsChanged(fields: seq<string>)

  function DriftOf(o: Options, tool: Tool): Option<Drift> {
    if o.pinned.None? then None
    else if tool.name !in o.pinned.value then (if o.allow.Some? then Some(NotOffered) else None)
    else
      var fields := ChangedFields(o.pinned.value[tool.name], DefinitionOf(tool.item));
      if fields == [] then None else Some(FieldsChanged(fields))
  }

  /** The definition recorded for a tool, if any. */
  function Pinned(o: Options, name: string): Option<Item> {
    if o.pinned.Some? && name in o.pinned.value then Some(o.pinned.value[name]) else None
  }

  predicate ArgumentsAccepted(o: Options, m: ClientMessage) {
    m.name.Some? && Pinned(o, m.name.value).Some? ==> o.accepts(Pinned(o, m.name.value).value, m.arguments)
  }

  // ---- The trace ----

  datatype Io =
    | ReadClient(c: ClientLine)
    | ReadServer(s: ServerLine)
    | WroteServer(m: ClientMessage, released: bool)
    | WroteList(id: Id, meta: seq<Field>, cursor: Option<string>)
    | WroteError(replyTo: Option<Id>)
    | Rejected(m: ClientMessage, released: bool)
    | Relayed(s: ServerLine, verdict: Option<Verdict>)
    | Holds(m: ClientMessage)

  /** What a request asks the server for. */
  datatype Request = OwnListing | Listing | Discovery | Call(name: string) | Other

  function RequestOf(m: ClientMessage): Request {
    if m.kind == Some(LIST) then Listing
    else if m.kind == Some("initialize") || m.kind == Some("server/discover") then Discovery
    else if IsCall(m) && m.name.Some? then Call(m.name.value)
    else Other
  }

  /** What an observer of both ends knows: the requests the server has not answered, and
      what it last listed each tool as, since it last said its list changed and ever. */
  datatype World = World(open: set<(Id, Request)>, seen: map<string, Option<Drift>>, ever: map<string, Option<Drift>>)

  function SeeAll(o: Options, seen: map<string, Option<Drift>>, tools: seq<Tool>): map<string, Option<Drift>>
    decreases |tools|
  {
    if tools == [] then seen
    else SeeAll(o, seen[tools[0].name := DriftOf(o, tools[0])], tools[1..])
  }

  function Close(open: set<(Id, Request)>, id: Id): set<(Id, Request)> {
    set r | r in open && r.0 != id
  }

  predicate IsOpen(open: set<(Id, Request)>, id: Id, request: Request) {
    (id, request) in open
  }

  function Observe(o: Options, w: World, io: Io): World {
    match io
    case WroteServer(m, _) =>
      if m.id.Some? && m.kind.Some? then w.(open := w.open + {(m.id.value, RequestOf(m))}) else w
    case WroteList(id, _, _) => w.(open := w.open + {(id, OwnListing)})
    case ReadServer(FromServer(m)) =>
      if m.kind == Some(CHANGED) then w.(seen := map[])
      else if !IsResponse(m) then w
      else
        var closed := w.(open := Close(w.open, m.id.value));
        var listing := IsOpen(w.open, m.id.value, Listing) || IsOpen(w.open, m.id.value, OwnListing);
        if listing && m.result.Some? && m.result.value.tools.Some? then
          closed.(seen := SeeAll(o, w.seen, m.result.value.tools.value),
                  ever := SeeAll(o, w.ever, m.result.value.tools.value))
        else closed
    case _ => w
  }

  function WorldOf(o: Options, trace: seq<Io>): World {
    if trace == [] then World({}, map[], map[])
    else Observe(o, WorldOf(o, trace[..|trace| - 1]), trace[|trace| - 1])
  }

  // ---- The state and its steps ----

  datatype State = State(
    changed: map<string, Drift>, verified: set<string>,
    listing: set<Id>, discovering: set<Id>, calls: map<Id, string>,
    held: seq<ClientMessage>, verifying: Option<Id>, verifications: nat, verifyMeta: seq<Field>,
    stopping: bool, trace: seq<Io>)

  const START := State(map[], {}, {}, {}, map[], [], None, 0, [], false, [])

  predicate Visible(o: Options, s: State, name: string) {
    Listed(o, name) && name !in s.changed
  }

  function Write(s: State, io: Io): State {
    s.(trace := s.trace + [io])
  }

  function Check(o: Options, s: State, tool: Tool): State {
    var drift := DriftOf(o, tool);
    if drift.None? then
      s.(changed := map n | n in s.changed && n != tool.name :: s.changed[n], verified := s.verified + {tool.name})
    else
      s.(changed := if Listed(o, tool.name) then s.changed[tool.name := drift.value] else s.changed,
         verified := s.verified - {tool.name})
  }

  function CheckAll(o: Options, s: State, tools: seq<Tool>): State
    decreases |tools|
  {
    if tools == [] then s else CheckAll(o, Check(o, s, tools[0]), tools[1..])
  }

  function RequestList(s: State, meta: seq<Field>, cursor: Option<string>): State {
    var id := OwnId(s.verifications + 1);
    Write(s.(verifications := s.verifications + 1, verifying := Some(id), verifyMeta := meta), WroteList(id, meta, cursor))
  }

  /** Send a call on, unless its arguments fall outside the recorded definition. */
  function Forward(o: Options, s: State, m: ClientMessage, released: bool): State
    requires m.name.Some?
  {
    if !ArgumentsAccepted(o, m) then Write(s, Rejected(m, released))
    else
      Write(if m.id.Some? then s.(calls := s.calls[m.id.value := m.name.value]) else s, WroteServer(m, released))
  }

  predicate AllCalls(held: seq<ClientMessage>) {
    forall m | m in held :: IsCall(m) && m.name.Some?
  }

  /** Let every held call go: on to the server when its tool is verified, else an error. */
  function Settle(o: Options, s: State, calls: seq<ClientMessage>, failed: bool): State
    requires AllCalls(calls)
    decreases |calls|
  {
    if calls == [] then s
    else
      assert calls[0] in calls;
      var name := calls[0].name.value;
      var next := if !failed && Visible(o, s, name) && name in s.verified then Forward(o, s, calls[0], true)
                  else Write(s, Rejected(calls[0], true));
      Settle(o, next, calls[1..], failed)
  }

  function Release(o: Options, s: State, failed: bool): State
    requires AllCalls(s.held)
  {
    Settle(o, s.(verifying := None, held := []), s.held, failed)
  }

  function Track(s: State, m: ClientMessage): State {
    if m.id.None? then s
    else match RequestOf(m)
      case Listing => s.(listing := s.listing + {m.id.value})
      case Discovery => s.(discovering := s.discovering + {m.id.value})
      case _ => s
  }

  function OnMessage(o: Options, s: State, m: ClientMessage): State {
    var s := Track(s, m);
    if !IsCall(m) then Write(s, WroteServer(m, false))
    else if m.name.None? || !Visible(o, s, m.name.value) then Write(s, Rejected(m, false))
    else if o.pinned.Some? && m.name.value !in s.verified then
      var waiting := Write(s.(held := s.held + [m]), Holds(m));
      if s.verifying.None? then RequestList(waiting, m.protocolMeta, None) else waiting
    else Forward(o, s, m, false)
  }

  function OnClient(o: Options, s: State, line: ClientLine): State {
    var s := Write(s, ReadClient(line));
    if s.stopping || line.Empty? then s
    else match line
      case Empty => s
      case Unfit(replyTo) => Write(s, WroteError(replyTo))
      case FromClient(m) => OnMessage(o, s, m)
  }

  function ToolsOf(m: ServerMessage): Option<seq<Tool>> {
    if m.result.Some? then m.result.value.tools else None
  }

  function Shown(o: Options, s: State, tools: seq<Tool>): seq<Tool> {
    if tools == [] then []
    else (if Visible(o, s, tools[0].name) then [tools[0]] else []) + Shown(o, s, tools[1..])
  }

  function WithTools(m: ServerMessage, tools: seq<Tool>): ServerMessage
    requires m.result.Some?
  {
    m.(result := Some(m.result.value.(tools := Some(tools))))
  }

  /** An answer to the mediator's own listing. */
  function OnOwnAnswer(o: Options, s: State, m: ServerMessage): State
    requires AllCalls(s.held)
  {
    var tools := ToolsOf(m);
    if tools.None? then Release(o, s, true)
    else
      var checked := CheckAll(o, s, tools.value);
      CheckAllKeeps(o, s, tools.value);
      if m.result.value.cursor.Some? then RequestList(checked, checked.verifyMeta, m.result.value.cursor)
      else Release(o, checked, false)
  }

  /** Checking tools touches nothing but what is known of tools. */
  lemma {:induction false} CheckAllKeeps(o: Options, s: State, tools: seq<Tool>)
    ensures var t := CheckAll(o, s, tools);
            t == s.(changed := t.changed, verified := t.verified)
    decreases |tools|
  {
    if tools != [] { CheckAllKeeps(o, Check(o, s, tools[0]), tools[1..]); }
  }

  predicate InstructionsApproved(o: Options, live: Value) {
    && o.pinned.Some? && INSTRUCTIONS in o.pinned.value
    && !live.List? && !live.Record?
    && Get(o.pinned.value[INSTRUCTIONS], "instructions") == Some(live)
  }

  /** The listing part of passing an answer on: check and filter what was listed. */
  function PassListing(o: Options, s: State, m: ServerMessage): (State, ServerMessage) {
    if !IsResponse(m) || m.id.value !in s.listing then (s, m)
    else
      var s := s.(listing := s.listing - {m.id.value});
      if ToolsOf(m).None? then (s, m)
      else
        var checked := CheckAll(o, s, ToolsOf(m).value);
        (checked, WithTools(m, Shown(o, checked, ToolsOf(m).value)))
  }

  function PassDiscovery(o: Options, s: State, m: ServerMessage): (State, ServerMessage) {
    if !IsResponse(m) || m.id.value !in s.discovering then (s, m)
    else
      var s := s.(discovering := s.discovering - {m.id.value});
      if o.pinned.None? || m.result.None? then (s, m)
      else
        var live := m.result.value.instructions;
        if live.None? || InstructionsApproved(o, live.value) then (s, m)
        else (s, m.(result := Some(m.result.value.(instructions := None))))
  }

  function PassCall(o: Options, s: State, m: ServerMessage): (State, Option<Verdict>) {
    if !IsResponse(m) || m.id.value !in s.calls then (s, None)
    else
      var tool := s.calls[m.id.value];
      var s := s.(calls := map id | id in s.calls && id != m.id.value :: s.calls[id]);
      if m.result.None? then (s, None)
      else (s, Some(o.screen(if Pinned(o, tool).Some? then Pinned(o, tool).value else [], m.result.value)))
  }

  function OnServer(o: Options, s: State, line: ServerLine): State
    requires AllCalls(s.held)
  {
    var s := Write(s, ReadServer(line));
    match line
    case NotJson => Write(s, Relayed(line, None))
    case FromServer(m) =>
      if IsResponse(m) && s.verifying == m.id then OnOwnAnswer(o, s, m)
      else
        var s := if m.kind == Some(CHANGED) then s.(verified := {}) else s;
        var (s1, m1) := PassListing(o, s, m);
        var (s2, m2) := PassDiscovery(o, s1, m1);
        var (s3, verdict) := PassCall(o, s2, m2);
        Write(s3, Relayed(FromServer(m2), verdict))
  }

  // ---- Runs ----

  datatype Input = ClientSays(c: ClientLine) | ServerSays(s: ServerLine) | Stop

  function Step(o: Options, s: State, i: Input): State
    requires AllCalls(s.held)
  {
    match i
    case ClientSays(line) => OnClient(o, s, line)
    case ServerSays(line) => OnServer(o, s, line)
    case Stop => s.(stopping := true)
  }

  function Run(o: Options, inputs: seq<Input>): (s: State)
    ensures AllCalls(s.held)
  {
    if inputs == [] then START
    else
      var before := Run(o, inputs[..|inputs| - 1]);
      StepKeepsCalls(o, before, inputs[|inputs| - 1]);
      Step(o, before, inputs[|inputs| - 1])
  }

  lemma {:induction false} SettleKeeps(o: Options, s: State, calls: seq<ClientMessage>, failed: bool)
    requires AllCalls(calls)
    ensures var t := Settle(o, s, calls, failed);
            t == s.(calls := t.calls, trace := t.trace)
    decreases |calls|
  {
    if calls != [] {
      assert calls[0] in calls;
      var name := calls[0].name.value;
      var next := if !failed && Visible(o, s, name) && name in s.verified then Forward(o, s, calls[0], true)
                  else Write(s, Rejected(calls[0], true));
      SettleKeeps(o, next, calls[1..], failed);
    }
  }

  lemma StepKeepsCalls(o: Options, s: State, i: Input)
    requires AllCalls(s.held)
    ensures AllCalls(Step(o, s, i).held)
  {
    hide AllCalls, OnMessage, OnServer;
    match i
    case ClientSays(Empty) =>
    case ClientSays(Unfit(_)) =>
    case ClientSays(FromClient(m)) => MessageKeepsCalls(o, Write(s, ReadClient(FromClient(m))), m);
    case ServerSays(line) => ServerKeepsCalls(o, s, line);
    case Stop =>
  }

  lemma MessageKeepsCalls(o: Options, s: State, m: ClientMessage)
    requires AllCalls(s.held)
    ensures AllCalls(OnMessage(o, s, m).held)
  {
    MessageHolds(o, s, m);
    hide OnMessage;
  }

  /** A message is put on hold, if it is a call, or what is held stays as it is. */
  lemma MessageHolds(o: Options, s: State, m: ClientMessage)
    ensures var held := OnMessage(o, s, m).held;
            held == s.held || (held == s.held + [m] && IsCall(m) && m.name.Some?)
  {
    hide IsCall, Visible, Track, Forward, RequestList;
    TrackKeepsHeld(s, m);
    var t := Track(s, m);
    if m.name.Some? { ForwardKeepsHeld(o, t, m); }
    RequestKeepsHeld(Write(t.(held := t.held + [m]), Holds(m)), m.protocolMeta);
  }

  lemma TrackKeepsHeld(s: State, m: ClientMessage)
    ensures Track(s, m).held == s.held
  {
    hide RequestOf;
  }

  lemma ForwardKeepsHeld(o: Options, s: State, m: ClientMessage)
    requires m.name.Some?
    ensures Forward(o, s, m, false).held == s.held
  {
    hide ArgumentsAccepted;
  }

  lemma RequestKeepsHeld(s: State, meta: seq<Field>)
    ensures RequestList(s, meta, None).held == s.held
  {
    hide OwnId;
  }

  lemma ServerKeepsCalls(o: Options, s: State, line: ServerLine)
    requires AllCalls(s.held)
    ensures AllCalls(OnServer(o, s, line).held)
  {
    hide AllCalls, OnOwnAnswer, PassListing, PassDiscovery, PassCall;
    if line.FromServer? {
      var m, t := line.m, Write(s, ReadServer(line));
      OwnAnswerKeepsCalls(o, t, m);
      var u := if m.kind == Some(CHANGED) then t.(verified := {}) else t;
      PassKeepsHeld(o, u, m);
      var (u1, m1) := PassListing(o, u, m);
      PassKeepsHeld(o, u1, m1);
      var (u2, m2) := PassDiscovery(o, u1, m1);
      PassKeepsHeld(o, u2, m2);
    }
  }

  lemma PassKeepsHeld(o: Options, s: State, m: ServerMessage)
    ensures PassListing(o, s, m).0.held == PassDiscovery(o, s, m).0.held == PassCall(o, s, m).0.held == s.held
  {
    hide CheckAll, InstructionsApproved;
    if ToolsOf(m).Some? && IsResponse(m) {
      CheckAllKeeps(o, s.(listing := s.listing - {m.id.value}), ToolsOf(m).value);
    }
  }

  lemma OwnAnswerKeepsCalls(o: Options, s: State, m: ServerMessage)
    requires AllCalls(s.held)
    ensures AllCalls(OnOwnAnswer(o, s, m).held)
  {
    hide Settle, CheckAll;
    if ToolsOf(m).Some? {
      CheckAllKeeps(o, s, ToolsOf(m).value);
      var c := CheckAll(o, s, ToolsOf(m).value);
      SettleKeeps(o, c.(verifying := None, held := []), c.held, false);
    }
    SettleKeeps(o, s.(verifying := None, held := []), s.held, true);
  }
}
