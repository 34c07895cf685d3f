/** What stays allowed when a config is written again over an existing one. */
module Refresh {
  import opened Optional
  import opened Definitions
  import JsonText
  import DuplicateKeys
  import Jsonc
  import WrapConfig

  type Item = seq<Field>

  const INSTRUCTIONS := "server:instructions"

  /** A tool as discovered, with its definition as the server sent it, what the server claims
      of it, and whether its text raised a warning. */
  datatype Tool = Tool(name: string, definition: Item, destructive: bool, readOnly: bool, flagged: bool)
  datatype Hint = Destructive | ReadOnly | Unknown

  function HintOf(tool: Tool): Hint {
    if tool.destructive then Destructive else if tool.readOnly then ReadOnly else Unknown
  }

  datatype Discovered = Discovered(tools: seq<Tool>, instructions: Option<Value>)

  /** A config on disk: its list, and its record when that can be read. */
  datatype Config = Config(allow: Option<seq<string>>, deny: seq<string>, recorded: Option<map<string, Item>>)

  predicate Allows(c: Config, name: string) {
    if c.allow.Some? then name in c.allow.value else name !in c.deny
  }

  predicate IsNew(previous: Option<Config>, tool: Tool) {
    previous.Some? && !(previous.value.recorded.Some? && tool.name in previous.value.recorded.value)
  }

  predicate IsChanged(previous: Option<Config>, tool: Tool) {
    && previous.Some? && previous.value.recorded.Some? && tool.name in previous.value.recorded.value
    && ChangedFields(previous.value.recorded.value[tool.name], tool.definition) != []
  }

  predicate Chosen(previous: Option<Config>, tool: Tool) {
    if previous.None? then HintOf(tool) == ReadOnly && !tool.flagged
    else if IsNew(previous, tool) || IsChanged(previous, tool) then false
    else Allows(previous.value, tool.name)
  }

  function On(previous: Option<Config>, tools: seq<Tool>): seq<string> {
    if tools == [] then []
    else (if Chosen(previous, tools[0]) then [tools[0].name] else []) + On(previous, tools[1..])
  }

  /** The record: of tools with one name the last is kept, then the instructions. */
  function Record(tools: seq<Tool>, soFar: map<string, Item>): map<string, Item>
    decreases |tools|
  {
    if tools == [] then soFar else Record(tools[1..], soFar[tools[0].name := tools[0].definition])
  }

  function RecordOf(d: Discovered): map<string, Item> {
    var tools := Record(d.tools, map[]);
    if d.instructions.None? then tools
    else tools[INSTRUCTIONS := [Field("instructions", d.instructions.value)]]
  }

  /** Writing a config over another, or where none is. */
  function Write(previous: Option<Config>, d: Discovered): Config {
    Config(Some(On(previous, d.tools)), [], Some(RecordOf(d)))
  }

  /** The reader's check: every name listed must be in the record. */
  predicate Accepted(c: Config) {
    c.recorded.Some? ==>
      forall n | n in (if c.allow.Some? then c.allow.value else c.deny) :: n in c.recorded.value
  }

  /** A config refreshed again and again, with no edits between. */
  function Chain(c: Config, runs: seq<Discovered>): Config
    decreases |runs|
  {
    if runs == [] then c else Chain(Write(Some(c), runs[0]), runs[1..])
  }

  /** Tools of one name have one definition: each is looked up by name among all those of the
      listing, of which the last is kept. */
  predicate Captured(d: Discovered) {
    forall t, u | t in d.tools && u in d.tools && t.name == u.name :: t.definition == u.definition
  }

  /** The tools a discovery makes of a server's listing: each takes the definition captured
      last under its name. */
  function Capture(listed: seq<Tool>, all: seq<Tool>): seq<Tool> {
    if listed == [] then []
    else
      var last := LastOf(all, listed[0].name);
      [if last.Some? then listed[0].(definition := last.value.definition) else listed[0]] + Capture(listed[1..], all)
  }

  lemma {:induction false} CaptureLooksUp(listed: seq<Tool>, all: seq<Tool>)
    requires forall t | t in listed :: t in all
    ensures forall t | t in Capture(listed, all) ::
              LastOf(all, t.name).Some? && t.definition == LastOf(all, t.name).value.definition
  {
    if listed != [] {
      assert forall t | t in listed[1..] :: t in listed;
      CaptureLooksUp(listed[1..], all);
      NamedHasLast(all, listed[0]);
    }
  }

  /** Whatever a server lists, and in whatever order its tools are then kept, what is
      discovered is captured. */
  lemma DiscoveryIsCaptured(listed: seq<Tool>, tools: seq<Tool>, instructions: Option<Value>)
    requires multiset(tools) == multiset(Capture(listed, listed))
    ensures Captured(Discovered(tools, instructions))
  {
    CaptureLooksUp(listed, listed);
    forall t | t in tools ensures t in Capture(listed, listed) { assert t in multiset(tools); }
  }

  /** Definitions are JSON objects, which repeat no key. */
  predicate SoundDiscovery(d: Discovered) {
    && (forall t | t in d.tools :: SoundFields(t.definition))
    && (d.instructions.Some? ==> Sound(d.instructions.value))
  }

  predicate SoundConfig(c: Config) {
    c.recorded.Some? ==> forall n | n in c.recorded.value :: SoundFields(c.recorded.value[n])
  }

  /** What a config lets through, and why it may: the name is allowed and recorded. */
  predicate Granted(c: Config, name: string) {
    Allows(c, name) && c.recorded.Some? && name in c.recorded.value
  }

  // ---- One refresh ----

  lemma {:induction false} OnIs(previous: Option<Config>, tools: seq<Tool>)
    ensures forall n :: n in On(previous, tools) <==> exists t :: t in tools && t.name == n && Chosen(previous, t)
  {
    if tools != [] {
      hide Chosen;
      assert tools == [tools[0]] + tools[1..];
      OnIs(previous, tools[1..]);
      forall n ensures n in On(previous, tools) <==> exists t :: t in tools && t.name == n && Chosen(previous, t) {
        if n in On(previous, tools) {
          if n in On(previous, tools[1..]) {
            var t :| t in tools[1..] && t.name == n && Chosen(previous, t);
            assert t in tools;
          } else {
            assert tools[0] in tools;
          }
        }
        if t :| t in tools && t.name == n && Chosen(previous, t) {
          if t != tools[0] { assert t in tools[1..]; }
        }
      }
    }
  }

  /** What a discovery says of a name: its last tool of that name. */
  function LastOf(tools: seq<Tool>, name: string): Option<Tool>
    decreases |tools|
  {
    if tools == [] then None
    else if LastOf(tools[1..], name).Some? then LastOf(tools[1..], name)
    else if tools[0].name == name then Some(tools[0]) else None
  }

  lemma {:induction false} RecordIs(tools: seq<Tool>, soFar: map<string, Item>, name: string)
    ensures var r := Record(tools, soFar);
            && (name in r <==> name in soFar || LastOf(tools, name).Some?)
            && (name in r ==> r[name] == if LastOf(tools, name).Some? then LastOf(tools, name).value.definition
                                         else soFar[name])
    decreases |tools|
  {
    if tools != [] { RecordIs(tools[1..], soFar[tools[0].name := tools[0].definition], name); }
  }

  lemma {:induction false} LastOfNone(tools: seq<Tool>, name: string)
    ensures LastOf(tools, name).Some? ==> exists k :: 0 <= k < |tools| && tools[k].name == name
    ensures LastOf(tools, name).Some? ==> LastOf(tools, name).value in tools && LastOf(tools, name).value.name == name
    decreases |tools|
  {
    if tools != [] {
      LastOfNone(tools[1..], name);
      if LastOf(tools[1..], name).Some? {
        var k :| 0 <= k < |tools[1..]| && tools[1..][k].name == name;
        assert tools[k + 1].name == name;
      }
    }
  }

  /** What a refresh records under a name: the instructions under their own label, and
      otherwise the last tool of that name. */
  function RecordedAs(d: Discovered, name: string): Option<Item> {
    if d.instructions.Some? && name == INSTRUCTIONS then Some([Field("instructions", d.instructions.value)])
    else match LastOf(d.tools, name)
         case None => None
         case Some(t) => Some(t.definition)
  }

  lemma RecordedIs(d: Discovered, name: string)
    ensures var r := RecordOf(d);
            (name in r <==> RecordedAs(d, name).Some?) && (name in r ==> r[name] == RecordedAs(d, name).value)
  {
    RecordIs(d.tools, map[], name);
  }

  /** What a refresh would record under a name is what the config has for it already. */
  predicate Keeps(c: Config, d: Discovered, name: string)
    requires c.recorded.Some? && name in c.recorded.value
  {
    RecordedAs(d, name).Some? && ChangedFields(c.recorded.value[name], RecordedAs(d, name).value) == []
  }

  /** Whatever is discovered, a name stays allowed exactly when it was granted before and some
      tool of that name is the one recorded. */
  lemma StaysAllowed(c: Config, d: Discovered, name: string)
    ensures Allows(Write(Some(c), d), name) <==>
            Granted(c, name) && exists t :: t in d.tools && t.name == name && ChangedFields(c.recorded.value[name], t.definition) == []
  {
    hide ChangedFields;
    OnIs(Some(c), d.tools);
    if Allows(Write(Some(c), d), name) {
      var t :| t in d.tools && t.name == name && Chosen(Some(c), t);
    }
    if Granted(c, name) && exists t :: t in d.tools && t.name == name && ChangedFields(c.recorded.value[name], t.definition) == [] {
      var t :| t in d.tools && t.name == name && ChangedFields(c.recorded.value[name], t.definition) == [];
      assert Chosen(Some(c), t);
    }
  }

  /** One refresh: a name allowed after it was granted before it, is in the record, and is
      recorded as before exactly when what was discovered last under that name is unchanged. */
  lemma RefreshOnce(c: Config, d: Discovered, name: string)
    requires Allows(Write(Some(c), d), name)
    ensures Granted(c, name) && Granted(Write(Some(c), d), name)
    ensures ChangedFields(c.recorded.value[name], Write(Some(c), d).recorded.value[name]) == [] <==> Keeps(c, d, name)
  {
    StaysAllowed(c, d, name);
    WrittenIsAccepted(Some(c), d);
    RecordedIs(d, name);
    hide ChangedFields, RecordOf, RecordedAs;
  }

  /** The instructions take over this name's record. */
  predicate Overridden(d: Discovered, name: string) {
    d.instructions.Some? && name == INSTRUCTIONS
  }

  /** Every name that stays allowed is recorded as before, unless the instructions take over
      its record. */
  lemma CapturedKeeps(c: Config, d: Discovered, name: string)
    requires Captured(d) && Allows(Write(Some(c), d), name) && !Overridden(d, name)
    ensures Granted(c, name) && Keeps(c, d, name)
  {
    StaysAllowed(c, d, name);
    hide ChangedFields;
    var t :| t in d.tools && t.name == name && ChangedFields(c.recorded.value[name], t.definition) == [];
    NamedHasLast(d.tools, t);
    LastOfNone(d.tools, name);
  }

  /** A change slips through a refresh, the name still allowed but recorded anew, exactly when
      a granted tool under the instructions' label is unchanged and the instructions beside it
      are not what is recorded there. */
  lemma ChangeSlipsThroughExactly(c: Config, d: Discovered, name: string)
    requires Captured(d)
    ensures (Allows(Write(Some(c), d), name) && Granted(c, name) && !Keeps(c, d, name))
            <==> && Overridden(d, name) && Granted(c, name)
                 && (exists t :: t in d.tools && t.name == name && ChangedFields(c.recorded.value[name], t.definition) == [])
                 && ChangedFields(c.recorded.value[name], [Field("instructions", d.instructions.value)]) != []
  {
    StaysAllowed(c, d, name);
    if Allows(Write(Some(c), d), name) && !Overridden(d, name) { CapturedKeeps(c, d, name); }
    hide ChangedFields, Write, Granted, Captured, Allows;
  }

  lemma RefreshIsSound(previous: Option<Config>, d: Discovered)
    requires SoundDiscovery(d)
    ensures SoundConfig(Write(previous, d))
  {
    hide On, Sound, SoundFields;
    var c := Write(previous, d);
    forall n | n in c.recorded.value ensures SoundFields(c.recorded.value[n]) {
      RecordedIs(d, n);
      LastOfNone(d.tools, n);
      if d.instructions.Some? && n == INSTRUCTIONS { OneFieldIsSound(d.instructions.value); }
    }
  }

  lemma OneFieldIsSound(v: Value)
    requires Sound(v)
    ensures SoundFields([Field("instructions", v)])
  {}

  /** What is written is accepted by the reader, whatever it is written over. */
  lemma WrittenIsAccepted(previous: Option<Config>, d: Discovered)
    ensures Accepted(Write(previous, d))
  {
    hide Chosen;
    var c := Write(previous, d);
    OnIs(previous, d.tools);
    forall n | n in c.allow.value ensures n in c.recorded.value {
      var t :| t in d.tools && t.name == n && Chosen(previous, t);
      NamedHasLast(d.tools, t);
      RecordIs(d.tools, map[], n);
    }
  }

  lemma {:induction false} NamedHasLast(tools: seq<Tool>, t: Tool)
    requires t in tools
    ensures LastOf(tools, t.name).Some?
    decreases |tools|
  {
    assert tools == [tools[0]] + tools[1..];
    if t in tools[1..] { NamedHasLast(tools[1..], t); }
  }

  /** Over a config whose record cannot be read, nothing stays allowed. */
  lemma WithoutARecordNothingIsAllowed(c: Config, d: Discovered)
    requires c.recorded.None?
    ensures Write(Some(c), d).allow == Some([])
  {
    NoneChosen(Some(c), d.tools);
  }

  lemma {:induction false} NoneChosen(previous: Option<Config>, tools: seq<Tool>)
    requires forall t | t in tools :: !Chosen(previous, t)
    ensures On(previous, tools) == []
  {
    if tools != [] {
      assert tools[0] in tools;
      assert forall t | t in tools[1..] :: t in tools;
      NoneChosen(previous, tools[1..]);
    }
  }

  /** What a config written over another allows: the names the other recorded and let through,
      of a tool still defined as it was, up to key order. */
  lemma WrittenOverAllows(c: Config, d: Discovered, name: string)
    requires SoundConfig(c) && SoundDiscovery(d)
    ensures Allows(Write(Some(c), d), name)
            <==> && c.recorded.Some? && name in c.recorded.value
                 && (if c.allow.Some? then name in c.allow.value else name !in c.deny)
                 && exists t | t in d.tools :: t.name == name && SameDefinition(c.recorded.value[name], t.definition)
  {
    StaysAllowed(c, d, name);
    hide SoundFields, SameDefinition, ChangedFields, Write;
    if c.recorded.Some? && name in c.recorded.value {
      forall t | t in d.tools
        ensures ChangedFields(c.recorded.value[name], t.definition) == [] <==> SameDefinition(c.recorded.value[name], t.definition)
      {
        ChangedFieldsDecide(c.recorded.value[name], t.definition);
      }
    }
  }

  // ---- The first config ----

  /** The tools that start switched on: those the server calls read-only and not destructive as
      well, without a warning. */
  function StartOn(tools: seq<Tool>): seq<string> {
    if tools == [] then []
    else (if tools[0].readOnly && !tools[0].destructive && !tools[0].flagged then [tools[0].name] else []) + StartOn(tools[1..])
  }

  /** A config written where none is allows exactly their names, in the order discovered. */
  lemma {:induction false} FreshIs(tools: seq<Tool>)
    ensures On(None, tools) == StartOn(tools)
  {
    if tools != [] { FreshIs(tools[1..]); }
  }

  lemma {:induction false} FreshAllows(d: Discovered, name: string)
    ensures Allows(Write(None, d), name) <==> exists t | t in d.tools :: t.name == name && t.readOnly && !t.destructive && !t.flagged
  {
    OnIs(None, d.tools);
    if t :| t in d.tools && t.name == name && t.readOnly && !t.destructive && !t.flagged { assert Chosen(None, t); }
  }

  // ---- Any number of refreshes ----

  /** Refresh never grants: after any number of refreshes, whatever each discovers, every
      name still allowed was granted by the config the chain began with. */
  lemma {:induction false} RefreshNeverGrants(c: Config, runs: seq<Discovered>, name: string)
    requires runs != [] && Allows(Chain(c, runs), name)
    ensures Granted(c, name) && Granted(Chain(c, runs), name)
    decreases |runs|
  {
    hide Write, Granted;
    ChainLists(c, runs);
    if |runs| > 1 {
      RefreshNeverGrants(Write(Some(c), runs[0]), runs[1..], name);
      assert Allows(Write(Some(c), runs[0]), name) by { GrantedIsAllowed(Write(Some(c), runs[0]), name); }
    }
    RefreshOnce(c, runs[0], name);
  }

  lemma GrantedIsAllowed(c: Config, name: string)
    requires Granted(c, name)
    ensures Allows(c, name)
  {}

  /** Along the chain the allowed names only shrink. */
  lemma AllowedOnlyShrinks(c: Config, runs: seq<Discovered>, k: nat, name: string)
    requires k <= |runs| && Allows(Chain(c, runs), name)
    ensures Allows(Chain(c, runs[..k]), name)
  {
    hide Write;
    ChainAppend(c, runs, k);
    if k < |runs| { RefreshNeverGrants(Chain(c, runs[..k]), runs[k..], name); }
  }

  /** What a config records under a name is what another does, up to key order. */
  predicate RecordedAlike(a: Config, b: Config, name: string) {
    && a.recorded.Some? && name in a.recorded.value && b.recorded.Some? && name in b.recorded.value
    && ChangedFields(a.recorded.value[name], b.recorded.value[name]) == []
  }

  /** The refresh at place `k` of a chain records a name as it found it. */
  predicate KeepsAt(c: Config, runs: seq<Discovered>, k: nat, name: string)
    requires k < |runs|
  {
    var before := Chain(c, runs[..k]);
    before.recorded.Some? && name in before.recorded.value && Keeps(before, runs[k], name)
  }

  /** A name allowed at the end of a chain keeps its first recorded definition throughout
      exactly when every refresh on the way recorded it as it found it. */
  lemma {:induction false} KeptThroughout(c: Config, runs: seq<Discovered>, name: string)
    requires SoundConfig(c) && forall d | d in runs :: SoundDiscovery(d)
    requires Granted(c, name) && Allows(Chain(c, runs), name)
    ensures (forall k | 0 <= k <= |runs| :: RecordedAlike(c, Chain(c, runs[..k]), name))
            <==> forall k | 0 <= k < |runs| :: KeepsAt(c, runs, k, name)
    decreases |runs|
  {
    hide Write, Keeps, SoundDiscovery, SoundConfig, ChangedFields, Granted, RecordedAlike;
    if runs == [] {
      assert runs[..0] == [];
      AlikeItself(c, name);
    } else {
      var n := |runs| - 1;
      var before := runs[..n];
      assert forall d | d in before :: d in runs;
      assert runs == before + [runs[n]];
      AllowedOnlyShrinks(c, runs, n, name);
      KeptThroughout(c, before, name);
      forall k | 0 <= k <= n ensures before[..k] == runs[..k] {}
      forall k | 0 <= k < n ensures KeepsAt(c, before, k, name) == KeepsAt(c, runs, k, name) {
        assert before[..k] == runs[..k] && before[k] == runs[k];
      }
      assert runs[..|runs|] == runs;
      LastStep(c, runs, name);
      if forall k | 0 <= k <= |runs| :: RecordedAlike(c, Chain(c, runs[..k]), name) {
        assert forall k | 0 <= k <= n :: RecordedAlike(c, Chain(c, before[..k]), name);
        assert RecordedAlike(c, Chain(c, runs[..n]), name) && RecordedAlike(c, Chain(c, runs[..|runs|]), name);
      }
      if forall k | 0 <= k < |runs| :: KeepsAt(c, runs, k, name) {
        assert forall k | 0 <= k < n :: KeepsAt(c, before, k, name);
        assert RecordedAlike(c, Chain(c, before[..n]), name);
        assert KeepsAt(c, runs, n, name);
      }
    }
  }

  lemma AlikeItself(c: Config, name: string)
    requires SoundConfig(c) && Granted(c, name)
    ensures RecordedAlike(c, c, name)
  {
    UnchangedFromItself(c.recorded.value[name]);
  }

  /** The last refresh of a chain that has kept a name so far. */
  lemma LastStep(c: Config, runs: seq<Discovered>, name: string)
    requires runs != [] && SoundConfig(c) && forall d | d in runs :: SoundDiscovery(d)
    requires Granted(c, name) && Allows(Chain(c, runs), name)
    ensures var n := |runs| - 1;
            RecordedAlike(c, Chain(c, runs[..n]), name) ==>
              (RecordedAlike(c, Chain(c, runs), name) <==> KeepsAt(c, runs, n, name))
  {
    var n := |runs| - 1;
    var before := Chain(c, runs[..n]);
    var after := Chain(c, runs);
    ChainAppend(c, runs, n);
    assert runs[n..] == [runs[n]] && runs[n..][1..] == [];
    assert runs[n] in runs && forall d | d in runs[..n] :: d in runs;
    ChainSound(c, runs[..n]);
    ChainSound(c, runs);
    assert after == Write(Some(before), runs[n]);
    RefreshOnce(before, runs[n], name);
    hide Write, Keeps, SoundDiscovery, Chain, ChangedFields, Granted, Allows;
    if RecordedAlike(c, before, name) { ThroughTheMiddle(c, before, after, name); }
    GrantedIsRecorded(before, name);
    GrantedIsRecorded(after, name);
  }

  lemma GrantedIsRecorded(c: Config, name: string)
    requires Granted(c, name)
    ensures c.recorded.Some? && name in c.recorded.value
  {}

  /** Alike up to a config, alike after it exactly when alike from it. */
  lemma ThroughTheMiddle(a: Config, b: Config, c: Config, name: string)
    requires SoundConfig(a) && SoundConfig(b) && SoundConfig(c) && RecordedAlike(a, b, name)
    ensures RecordedAlike(a, c, name) <==> RecordedAlike(b, c, name)
  {
    hide ChangedFields;
    if c.recorded.Some? && name in c.recorded.value {
      var x, y, z := a.recorded.value[name], b.recorded.value[name], c.recorded.value[name];
      ChangedFieldsIsSymmetric(x, y);
      if ChangedFields(x, z) == [] { UnchangedIsTransitive(y, x, z); }
      if ChangedFields(y, z) == [] { UnchangedIsTransitive(x, y, z); }
    }
  }

  /** Over any chain every name still allowed keeps the definition it began with, but for the
      instructions' label where there are instructions. */
  lemma CapturedChainKeeps(c: Config, runs: seq<Discovered>, name: string)
    requires SoundConfig(c) && forall d | d in runs :: SoundDiscovery(d) && Captured(d) && !Overridden(d, name)
    requires runs != [] && Allows(Chain(c, runs), name)
    ensures Granted(c, name) && RecordedAlike(c, Chain(c, runs), name)
  {
    hide Write, SoundDiscovery, SoundConfig, ChangedFields, Captured, Overridden, Allows, Granted, RecordedAlike;
    RefreshNeverGrants(c, runs, name);
    KeptThroughout(c, runs, name);
    forall k | 0 <= k < |runs| ensures KeepsAt(c, runs, k, name) {
      AllowedOnlyShrinks(c, runs, k + 1, name);
      AtPlace(c, runs, k);
      assert runs[k] in runs;
      CapturedKeeps(Chain(c, runs[..k]), runs[k], name);
      GrantedIsRecorded(Chain(c, runs[..k]), name);
    }
    assert runs[..|runs|] == runs;
    assert RecordedAlike(c, Chain(c, runs[..|runs|]), name);
  }

  lemma AtPlace(c: Config, runs: seq<Discovered>, k: nat)
    requires k < |runs|
    ensures Chain(c, runs[..k + 1]) == Write(Some(Chain(c, runs[..k])), runs[k])
  {
    hide Write;
    var all := runs[..k + 1];
    ChainAppend(c, all, k);
    assert all[..k] == runs[..k] && all[k..] == [runs[k]] && [runs[k]][1..] == [];
  }

  lemma WriteLists(c: Config, d: Discovered)
    ensures Write(Some(c), d).allow.Some? && Write(Some(c), d).recorded.Some?
  {}

  lemma {:induction false} ChainSound(c: Config, runs: seq<Discovered>)
    requires SoundConfig(c) && forall d | d in runs :: SoundDiscovery(d)
    ensures SoundConfig(Chain(c, runs))
    decreases |runs|
  {
    hide SoundDiscovery, SoundConfig, Write;
    if runs != [] {
      assert runs[0] in runs;
      assert forall d | d in runs[1..] :: d in runs;
      RefreshIsSound(Some(c), runs[0]);
      ChainSound(Write(Some(c), runs[0]), runs[1..]);
    }
  }

  lemma {:induction false} ChainAppend(c: Config, runs: seq<Discovered>, k: nat)
    requires k <= |runs|
    ensures Chain(c, runs) == Chain(Chain(c, runs[..k]), runs[k..])
    decreases |runs|
  {
    hide Write;
    if k > 0 {
      assert runs[..k][0] == runs[0] && runs[..k][1..] == runs[1..][..k - 1] && runs[k..] == runs[1..][k - 1..];
      ChainAppend(Write(Some(c), runs[0]), runs[1..], k - 1);
    } else {
      assert runs[..0] == [] && runs[0..] == runs;
    }
  }

  /** After at least one refresh, allowed and granted are the same. */
  lemma {:induction false} ChainLists(c: Config, runs: seq<Discovered>)
    requires runs != []
    ensures var last := Chain(c, runs);
            Accepted(last) && last.allow.Some? && last.recorded.Some? && forall n | Allows(last, n) :: Granted(last, n)
    decreases |runs|
  {
    hide Write;
    if |runs| == 1 {
      WriteLists(c, runs[0]);
      WrittenIsAccepted(Some(c), runs[0]);
    } else {
      ChainLists(Write(Some(c), runs[0]), runs[1..]);
    }
  }

  /** Such a discovery: a tool under the instructions' label, unchanged, beside instructions. */
  lemma InstructionsLabelLetsAChangeThrough(c: Config, same: Tool, live: Value)
    requires same.name == INSTRUCTIONS && Granted(c, same.name)
    requires ChangedFields(c.recorded.value[same.name], same.definition) == []
    requires ChangedFields(c.recorded.value[same.name], [Field("instructions", live)]) != []
    ensures var after := Write(Some(c), Discovered([same], Some(live)));
            && Granted(after, same.name)
            && ChangedFields(c.recorded.value[same.name], after.recorded.value[same.name]) != []
  {
    hide ChangedFields;
    var d := Discovered([same], Some(live));
    assert same in d.tools;
    StaysAllowed(c, d, same.name);
    RefreshOnce(c, d, same.name);
  }

  // ---- Through the file ----

  /** The file's lines: the tools chosen, switched on, then the others, commented out. */
  function Lines(previous: Option<Config>, tools: seq<Tool>, on: bool, note: Tool -> string): seq<WrapConfig.Entry> {
    if tools == [] then []
    else
      (if Chosen(previous, tools[0]) == on then [WrapConfig.Entry(tools[0].name, note(tools[0]), on)] else [])
      + Lines(previous, tools[1..], on, note)
  }

  lemma {:induction false} LinesAre(previous: Option<Config>, tools: seq<Tool>, on: bool, note: Tool -> string)
    requires forall t :: '\n' !in note(t)
    ensures WrapConfig.OnNames(Lines(previous, tools, on, note)) == if on then On(previous, tools) else []
    ensures WrapConfig.ValidEntries(Lines(previous, tools, on, note))
  {
    if tools != [] {
      hide Chosen;
      LinesAre(previous, tools[1..], on, note);
      if Chosen(previous, tools[0]) == on {
        var e := WrapConfig.Entry(tools[0].name, note(tools[0]), on);
        WrapConfig.OnNamesAppend([e], Lines(previous, tools[1..], on, note));
        WrapConfig.OneName(e);
      } else {
        assert Lines(previous, tools, on, note) == Lines(previous, tools[1..], on, note);
        assert On(previous, tools) == On(previous, tools[1..]) || on == false;
      }
    }
  }

  /** The file written reads back as exactly the tools chosen, so the next refresh starts
      from what this one decided. */
  lemma FileAllowsTheChosen(comments: WrapConfig.Comments, schema: string, server: WrapConfig.Server,
                            previous: Option<Config>, tools: seq<Tool>, note: Tool -> string)
    requires WrapConfig.ValidComments(comments) && forall t :: '\n' !in note(t)
    ensures var entries := Lines(previous, tools, true, note) + Lines(previous, tools, false, note);
            var left := Jsonc.Clean(WrapConfig.ConfigDoc(comments, schema, server, entries));
            && Jsonc.Strip(WrapConfig.ConfigText(comments, schema, server, entries), "") == JsonText.Print(left) + "\n"
            && DuplicateKeys.Read(left, true) == WrapConfig.ConfigReading(schema, server, On(previous, tools))
  {
    hide *;
    var on, off := Lines(previous, tools, true, note), Lines(previous, tools, false, note);
    LinesAre(previous, tools, true, note);
    LinesAre(previous, tools, false, note);
    WrapConfig.OnNamesAppend(on, off);
    assert On(previous, tools) + [] == On(previous, tools);
    BothValid(on, off);
    WrapConfig.ConfigRoundTrip(comments, schema, server, on + off);
  }

  /** A fresh file reads back as exactly the tools that start switched on, in the order
      discovered. */
  lemma FreshFileAllows(comments: WrapConfig.Comments, schema: string, server: WrapConfig.Server,
                        tools: seq<Tool>, note: Tool -> string)
    requires WrapConfig.ValidComments(comments) && forall t :: '\n' !in note(t)
    ensures var entries := Lines(None, tools, true, note) + Lines(None, tools, false, note);
            var left := Jsonc.Clean(WrapConfig.ConfigDoc(comments, schema, server, entries));
            && Jsonc.Strip(WrapConfig.ConfigText(comments, schema, server, entries), "") == JsonText.Print(left) + "\n"
            && DuplicateKeys.Read(left, true) == WrapConfig.ConfigReading(schema, server, StartOn(tools))
  {
    hide *;
    FreshIs(tools);
    FileAllowsTheChosen(comments, schema, server, None, tools, note);
  }

  lemma BothValid(a: seq<WrapConfig.Entry>, b: seq<WrapConfig.Entry>)
    requires WrapConfig.ValidEntries(a) && WrapConfig.ValidEntries(b)
    ensures WrapConfig.ValidEntries(a + b)
  {}
}
