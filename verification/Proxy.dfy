/** The remote proxy's decision: what a message reaches, what that costs, and whether the
    definitions behind it are the ones approved; and the listings it filters. */
module Proxy {
  import opened Sequences
  import opened Optional
  import opened Definitions
  import opened UpstreamRecord

  // ---- Messages ----

  /** What a completion names. */
  datatype Ref = NoRef | PromptRef(name: string) | ResourceRef(uri: string)
  /** The URIs a subscription names: none, not a list of strings, or a list. */
  datatype Uris = NoUris | BadUris | Uris(uris: seq<string>)

  datatype Message = Message(verb: string, name: Option<string>, ref: Ref, uris: Uris, arguments: Option<Value>)

  const PASS_THROUGH: set<string> :=
    {"server/discover", "ping", "tools/list", "prompts/list", "resources/list", "resources/templates/list",
     "notifications/cancelled", "notifications/progress"}

  /** A capability, as the request that would invoke it. */
  datatype Target = ToolTarget(name: string) | PromptTarget(name: string) | ResourceTarget(uri: string)
  datatype Reach = NotForwarded | Malformed | Reaches(targets: seq<Target>)

  function Named(name: Option<string>, target: string -> Target): Reach {
    if name.None? || name.value == "" then Malformed else Reaches([target(name.value)])
  }

  function ReachOf(m: Message): Reach {
    match m.verb
    case "tools/call" => Named(m.name, n => ToolTarget(n))
    case "prompts/get" => Named(m.name, n => PromptTarget(n))
    case "resources/read" => Named(m.name, n => ResourceTarget(n))
    case "completion/complete" =>
      (match m.ref
       case PromptRef(name) => Reaches([PromptTarget(name)])
       case ResourceRef(uri) => Reaches([ResourceTarget(uri)])
       case NoRef => Malformed)
    case "subscriptions/listen" =>
      (match m.uris
       case NoUris => Reaches([])
       case BadUris => Malformed
       case Uris(uris) => Reaches(Resources(uris)))
    case _ => NotForwarded
  }

  function Resources(uris: seq<string>): seq<Target> {
    if uris == [] then [] else [ResourceTarget(uris[0])] + Resources(uris[1..])
  }

  // ---- Prices ----

  datatype Entry = Entry(name: string, permission: string, pattern: string)

  /** The catalogue: prices by label, the priced resources with the addresses they cover,
      the recorded definitions, and the checks left to libraries: template matching, and a
      call's arguments against its recorded schema. */
  datatype Catalogue = Catalogue(permissions: map<string, string>, resources: seq<Entry>,
                                 definitions: map<string, Item>,
                                 template: (string, string) -> bool, accepts: (Item, Option<Value>) -> bool)

  /** A registered resource covers an address; one still holding a template's braces names
      that template. */
  predicate Covers(c: Catalogue, e: Entry, uri: string) {
    if '{' in uri then e.pattern == uri
    else if '{' in e.pattern then c.template(e.pattern, uri) else e.pattern == uri
  }

  function Covering(c: Catalogue, resources: seq<Entry>, uri: string): seq<Entry> {
    if resources == [] then []
    else (if Covers(c, resources[0], uri) then [resources[0]] else []) + Covering(c, resources[1..], uri)
  }

  function PriceOf(c: Catalogue, name: string, also: string): Option<string> {
    if name in c.permissions then Some(c.permissions[name])
    else if also in c.permissions then Some(c.permissions[also]) else None
  }

  predicate Affordable(price: Option<string>, can: string -> bool) {
    price.Some? && can(price.value)
  }

  predicate Permitted(c: Catalogue, can: string -> bool, t: Target) {
    match t
    case ToolTarget(name) => Affordable(PriceOf(c, name, "tool:" + name), can)
    case PromptTarget(name) => name != "" && Affordable(PriceOf(c, "prompt:" + name, "prompt:" + name), can)
    case ResourceTarget(uri) =>
      var covering := Covering(c, c.resources, uri);
      covering != [] && forall e | e in covering :: can(e.permission)
  }

  function LabelsOf(c: Catalogue, t: Target): seq<string> {
    match t
    case ToolTarget(name) => [name, "tool:" + name]
    case PromptTarget(name) => ["prompt:" + name]
    case ResourceTarget(uri) => EntryLabels(Covering(c, c.resources, uri))
  }

  function EntryLabels(entries: seq<Entry>): seq<string> {
    if entries == [] then [] else [entries[0].name] + EntryLabels(entries[1..])
  }

  function AllLabels(c: Catalogue, targets: seq<Target>): seq<string> {
    if targets == [] then [] else LabelsOf(c, targets[0]) + AllLabels(c, targets[1..])
  }

  /** The record's answer, as RefuseEnd gives it. */
  predicate Approved(c: Catalogue, history: seq<Note>, labels: seq<string>, now: int) {
    forall l | l in labels && l in c.definitions :: Trusted(history, l, now)
  }

  predicate ArgumentsAccepted(c: Catalogue, m: Message) {
    m.verb == "tools/call" && m.name.Some? ==>
      var name := m.name.value;
      if name in c.definitions then c.accepts(c.definitions[name], m.arguments)
      else if "tool:" + name in c.definitions then c.accepts(c.definitions["tool:" + name], m.arguments)
      else true
  }

  // ---- The index of priced resources ----

  predicate IsResource(name: string) {
    "resource:" <= name
  }

  /** The index entries of the priced resources whose address is a template, or is not. */
  function EntriesOf(labels: seq<string>, permissions: map<string, string>, uris: map<string, string>,
                     templated: bool): seq<Entry>
    requires forall l | l in labels :: l in permissions
  {
    if labels == [] then []
    else
      var l := labels[0];
      (if IsResource(l) && l in uris && ('{' in uris[l]) == templated then [Entry(l, permissions[l], uris[l])] else [])
      + EntriesOf(labels[1..], permissions, uris, templated)
  }

  lemma EntriesStep(labels: seq<string>, permissions: map<string, string>, uris: map<string, string>, templated: bool,
                    i: nat)
    requires forall l | l in labels :: l in permissions
    requires i < |labels|
    ensures EntriesOf(labels[i..], permissions, uris, templated)
            == (if IsResource(labels[i]) && labels[i] in uris && ('{' in uris[labels[i]]) == templated
                then [Entry(labels[i], permissions[labels[i]], uris[labels[i]])] else [])
               + EntriesOf(labels[i + 1..], permissions, uris, templated)
  {
    assert labels[i..][0] == labels[i] && labels[i..][1..] == labels[i + 1..];
  }

  lemma NoEntries(permissions: map<string, string>, uris: map<string, string>)
    ensures EntriesOf([], permissions, uris, false) == [] && EntriesOf([], permissions, uris, true) == []
  {}

  /** The index, built at boot, with plain addresses before templates; none when a priced
      resource has no address, or an address belongs to nothing priced. The labels are the
      price map's, in its order. */
  method BuildResourceIndex(labels: seq<string>, permissions: map<string, string>, uris: map<string, string>)
      returns (index: Option<seq<Entry>>)
    requires forall l :: l in labels <==> l in permissions
    ensures index.Some? <==> && (forall l | l in permissions && IsResource(l) :: l in uris)
                             && forall l | l in uris :: l in permissions
    ensures index.Some? ==> index.value == EntriesOf(labels, permissions, uris, false) + EntriesOf(labels, permissions, uris, true)
  {
    hide IsResource, EntriesOf;
    var exact: seq<Entry> := [];
    var templated: seq<Entry> := [];
    var unpriced := [];
    assert labels[0..] == labels;
    for i := 0 to |labels|
      invariant exact + EntriesOf(labels[i..], permissions, uris, false) == EntriesOf(labels, permissions, uris, false)
      invariant templated + EntriesOf(labels[i..], permissions, uris, true) == EntriesOf(labels, permissions, uris, true)
      invariant unpriced == [] <==> forall l | l in labels[..i] && IsResource(l) :: l in uris
    {
      var l := labels[i];
      assert labels[..i + 1] == labels[..i] + [l];
      EntriesStep(labels, permissions, uris, false, i);
      EntriesStep(labels, permissions, uris, true, i);
      if IsResource(l) {
        if l !in uris {
          unpriced := unpriced + [l];
        } else if '{' in uris[l] {
          templated := templated + [Entry(l, permissions[l], uris[l])];
        } else {
          exact := exact + [Entry(l, permissions[l], uris[l])];
        }
      }
    }
    assert labels[..|labels|] == labels;
    assert labels[|labels|..] == [];
    NoEntries(permissions, uris);
    if unpriced != [] || exists l | l in uris :: l !in permissions { return None; }
    assert exact + [] == exact && templated + [] == templated;
    return Some(exact + templated);
  }

  lemma {:induction false} EntriesAre(labels: seq<string>, permissions: map<string, string>,
                                      uris: map<string, string>, templated: bool)
    requires forall l | l in labels :: l in permissions
    ensures forall e :: e in EntriesOf(labels, permissions, uris, templated)
              <==> && e.name in labels && IsResource(e.name) && e.name in uris
                   && e == Entry(e.name, permissions[e.name], uris[e.name]) && ('{' in e.pattern) == templated
  {
    if labels != [] {
      hide IsResource;
      assert labels == [labels[0]] + labels[1..];
      EntriesAre(labels[1..], permissions, uris, templated);
    }
  }

  /** An address is covered by the resources registered at it, and, unless it still holds a
      template's braces, by the templates that match it. */
  predicate CoveredBy(c: Catalogue, uri: string, e: Entry) {
    e.pattern == uri || ('{' !in uri && '{' in e.pattern && c.template(e.pattern, uri))
  }

  lemma CoveringMeans(c: Catalogue, uri: string, e: Entry)
    ensures e in Covering(c, c.resources, uri)
            <==> e in c.resources && CoveredBy(c, uri, e)
  {
    CoveringIs(c, c.resources, uri);
  }

  /** The index leaves no priced resource out: a caller who may read an address holds the
      price of every resource in the map whose address covers it. */
  lemma PricedResourcesAreGuarded(c: Catalogue, labels: seq<string>, uris: map<string, string>, can: string -> bool,
                                  uri: string, l: string)
    requires forall x :: x in labels <==> x in c.permissions
    requires c.resources == EntriesOf(labels, c.permissions, uris, false) + EntriesOf(labels, c.permissions, uris, true)
    requires l in c.permissions && IsResource(l) && l in uris
    requires Permitted(c, can, ResourceTarget(uri))
    requires Covers(c, Entry(l, c.permissions[l], uris[l]), uri)
    ensures can(c.permissions[l])
  {
    EntriesAre(labels, c.permissions, uris, false);
    EntriesAre(labels, c.permissions, uris, true);
    CoveringIs(c, c.resources, uri);
    hide IsResource, Covers, EntriesOf, Covering;
    var e := Entry(l, c.permissions[l], uris[l]);
    assert e in c.resources;
  }

  /** Who may reach a capability: whoever holds the price under its own label, or a tool's under
      the prefixed one when its own has none; and for an address every price that covers it. */
  lemma PermittedExactly(c: Catalogue, can: string -> bool, t: Target)
    ensures Permitted(c, can, t)
            <==> match t
                 case ToolTarget(name) =>
                   || (name in c.permissions && can(c.permissions[name]))
                   || (name !in c.permissions && "tool:" + name in c.permissions && can(c.permissions["tool:" + name]))
                 case PromptTarget(name) => name != "" && "prompt:" + name in c.permissions && can(c.permissions["prompt:" + name])
                 case ResourceTarget(uri) =>
                   && (exists e | e in c.resources :: CoveredBy(c, uri, e))
                   && (forall e | e in c.resources && CoveredBy(c, uri, e) :: can(e.permission))
  {
    if t.ResourceTarget? {
      var covering := Covering(c, c.resources, t.uri);
      forall e ensures e in covering <==> e in c.resources && CoveredBy(c, t.uri, e) { CoveringMeans(c, t.uri, e); }
      if covering != [] { assert covering[0] in covering; }
      hide Covering, CoveredBy;
    }
  }

  // ---- The decision ----

  datatype Decision = Forward | Refuse | MethodNotFound | InvalidParams

  const REACHING: set<string> :=
    {"tools/call", "prompts/get", "resources/read", "completion/complete", "subscriptions/listen"}

  lemma UnknownMethodsReachNothing(m: Message)
    ensures ReachOf(m) == NotForwarded <==> m.verb !in REACHING
  {}

  /** A message is malformed exactly when what it should name is missing. */
  lemma MalformedExactly(m: Message)
    ensures ReachOf(m) == Malformed
            <==> || (m.verb in {"tools/call", "prompts/get", "resources/read"} && m.name in {None, Some("")})
                 || (m.verb == "completion/complete" && m.ref == NoRef)
                 || (m.verb == "subscriptions/listen" && m.uris == BadUris)
  {}

  /** Pricing: everything the message reaches, in order, and the labels it will be held to. */
  method Price(c: Catalogue, can: string -> bool, targets: seq<Target>) returns (labels: Option<seq<string>>)
    ensures labels.Some? <==> forall t | t in targets :: Permitted(c, can, t)
    ensures labels.Some? ==> labels.value == AllLabels(c, targets)
  {
    hide Permitted, LabelsOf;
    var soFar: seq<string> := [];
    for i := 0 to |targets|
      invariant forall t | t in targets[..i] :: Permitted(c, can, t)
      invariant soFar + AllLabels(c, targets[i..]) == AllLabels(c, targets)
    {
      var t := targets[i];
      assert targets[i..][1..] == targets[i + 1..];
      assert targets[..i + 1] == targets[..i] + [t];
      if !Permitted(c, can, t) { return None; }
      soFar := soFar + LabelsOf(c, t);
    }
    assert targets[..|targets|] == targets;
    assert targets[|targets|..] == [] && soFar + [] == soFar;
    return Some(soFar);
  }

  /** What may happen to a record while a message waits on it: a listing passes through, some
      other message asks, the shared listing answers, or it fails. */
  datatype Happening = Sighting(name: string, item: Item, at: int) | Question(labels: seq<string>, at: int)
                     | Answer(listed: seq<Listed>) | NoAnswer

  method Meanwhile(record: UpstreamRecord, happenings: seq<Happening>)
    requires record.Valid()
    modifies record
    ensures record.Valid()
  {
    hide Last, ChangedFields, DefinitionOf, NotesOf;
    for i := 0 to |happenings|
      invariant record.Valid()
    {
      match happenings[i] {
        case Sighting(name, item, at) => var _ := record.Matches(name, item, at);
        case Question(labels, at) => var _ := record.RefuseStart(labels, at);
        case Answer(listed) => if record.listing { record.ListingDone(listed); }
        case NoAnswer => if record.listing { var _ := record.ListingFailed(); }
      }
    }
  }

  /** Everything a message reaches is permitted, and approved at this time. */
  predicate Cleared(c: Catalogue, can: string -> bool, history: seq<Note>, now: int, m: Message) {
    && ReachOf(m).Reaches?
    && (forall t | t in ReachOf(m).targets :: Permitted(c, can, t))
    && Approved(c, history, AllLabels(c, ReachOf(m).targets), now)
  }

  predicate Deserves(c: Catalogue, can: string -> bool, history: seq<Note>, now: int, m: Message) {
    Cleared(c, can, history, now, m) && ArgumentsAccepted(c, m)
  }

  /** The steps in order; the first that objects answers. The record is asked at one time and
      read at another, with anything at all between; `unreadable` says the listing this message
      waited on failed. */
  method Authorize(record: UpstreamRecord, c: Catalogue, can: string -> bool, m: Message,
                   asked: int, meanwhile: seq<Happening>, now: int, unreadable: bool) returns (d: Decision)
    requires record.Valid() && record.definitions == c.definitions
    modifies record
    ensures record.Valid()
    ensures d == Forward ==> m.verb in PASS_THROUGH || Deserves(c, can, record.history, now, m)
    ensures m.verb in PASS_THROUGH ==> d == Forward
    ensures !unreadable && Deserves(c, can, record.history, now, m) ==> d == Forward
    ensures d == MethodNotFound <==> m.verb !in PASS_THROUGH && m.verb !in REACHING
    ensures d == InvalidParams ==>
              m.verb !in PASS_THROUGH && Cleared(c, can, record.history, now, m) && !ArgumentsAccepted(c, m)
    ensures !unreadable && m.verb !in PASS_THROUGH && Cleared(c, can, record.history, now, m) && !ArgumentsAccepted(c, m) ==>
              d == InvalidParams
    ensures d == Forward ==> forall t | Touches(m, t) :: Guarded(c, can, record.history, now, t)
    ensures d == Forward && Booted(c) ==> forall t | Touches(m, t) :: Vouched(c, can, record.history, now, t)
    ensures d == Forward && m.verb == "tools/call" ==>
              && m.name.Some?
              && var name := m.name.value;
                 && (name in c.definitions ==> c.accepts(c.definitions[name], m.arguments))
                 && (name !in c.definitions && "tool:" + name in c.definitions ==>
                       c.accepts(c.definitions["tool:" + name], m.arguments))
  {
    if m.verb in PASS_THROUGH {
      PassThroughTouchesNothing(m);
      return Forward;
    }
    UnknownMethodsReachNothing(m);
    hide Permitted, LabelsOf, ReachOf, AllLabels, Approved, ArgumentsAccepted, Touches, Guarded,
      Vouched, Booted, Last, Trusted;
    var reached := ReachOf(m);
    if reached.NotForwarded? { return MethodNotFound; }
    if reached.Malformed? { return Refuse; }
    var labels := Price(c, can, reached.targets);
    if labels.None? { return Refuse; }
    var waits := record.RefuseStart(labels.value, asked);
    Meanwhile(record, meanwhile);
    if waits && unreadable { return Refuse; }
    var refusal := record.RefuseEnd(labels.value, now);
    ApprovedIs(c, record.history, labels.value, now);
    if refusal.Some? { return Refuse; }
    if !ArgumentsAccepted(c, m) { return InvalidParams; }
    if m.verb == "tools/call" { CallIsAccepted(c, m); }
    forall t | Touches(m, t) ensures Guarded(c, can, record.history, now, t) {
      ForwardedIsPricedAndApproved(c, can, record.history, now, m, t);
    }
    forall t | Booted(c) && Touches(m, t) ensures Vouched(c, can, record.history, now, t) {
      BootedIsVouched(c, can, record.history, now, t);
    }
    return Forward;
  }

  /** No method passed through makes the upstream act on a capability. */
  lemma PassThroughTouchesNothing(m: Message)
    requires m.verb in PASS_THROUGH
    ensures m.verb != "tools/call" && forall t :: !Touches(m, t)
  {
    assert |"resources/templates/list"| == 24 && |"notifications/cancelled"| == 23 && |"notifications/progress"| == 22;
    assert |"resources/list"| == 14 && |"server/discover"| == 15 && |"prompts/list"| == 12;
    assert "tools/list"[6] == 'l' && "tools/call"[6] == 'c';
  }

  lemma CallIsAccepted(c: Catalogue, m: Message)
    requires ArgumentsAccepted(c, m) && ReachOf(m).Reaches? && m.verb == "tools/call"
    ensures && m.name.Some?
            && var name := m.name.value;
               && (name in c.definitions ==> c.accepts(c.definitions[name], m.arguments))
               && (name !in c.definitions && "tool:" + name in c.definitions ==>
                     c.accepts(c.definitions["tool:" + name], m.arguments))
  {}

  lemma ApprovedIs(c: Catalogue, history: seq<Note>, labels: seq<string>, now: int)
    ensures Approved(c, history, labels, now) <==> forall l | l in labels && l in c.definitions :: Trusted(history, l, now)
  {}

  // ---- What a forwarded message may touch ----

  /** A message can make the upstream act on a capability. */
  predicate Touches(m: Message, t: Target) {
    match t
    case ToolTarget(name) => m.verb == "tools/call" && m.name == Some(name)
    case PromptTarget(name) =>
      (m.verb == "prompts/get" && m.name == Some(name)) || (m.verb == "completion/complete" && m.ref == PromptRef(name))
    case ResourceTarget(uri) =>
      || (m.verb == "resources/read" && m.name == Some(uri))
      || (m.verb == "completion/complete" && m.ref == ResourceRef(uri))
      || (m.verb == "subscriptions/listen" && m.uris.Uris? && uri in m.uris.uris)
  }

  lemma {:induction false} ResourcesAre(uris: seq<string>)
    ensures forall t :: t in Resources(uris) <==> t.ResourceTarget? && t.uri in uris
  {
    if uris != [] {
      assert uris == [uris[0]] + uris[1..];
      ResourcesAre(uris[1..]);
    }
  }

  lemma ReachIsTouch(m: Message, t: Target)
    requires ReachOf(m).Reaches?
    ensures t in ReachOf(m).targets <==> Touches(m, t)
  {
    if m.verb == "subscriptions/listen" && m.uris.Uris? { ResourcesAre(m.uris.uris); }
  }

  lemma {:induction false} CoveringIs(c: Catalogue, resources: seq<Entry>, uri: string)
    ensures forall e :: e in Covering(c, resources, uri) <==> e in resources && Covers(c, e, uri)
  {
    if resources != [] {
      hide Covers;
      assert resources == [resources[0]] + resources[1..];
      CoveringIs(c, resources[1..], uri);
    }
  }

  lemma {:induction false} EntryLabelsAre(entries: seq<Entry>, e: Entry)
    requires e in entries
    ensures e.name in EntryLabels(entries)
  {
    if e != entries[0] {
      assert e in entries[1..];
      EntryLabelsAre(entries[1..], e);
    }
  }

  lemma {:induction false} LabelsAreAll(c: Catalogue, targets: seq<Target>, t: Target, name: string)
    requires t in targets && name in LabelsOf(c, t)
    ensures name in AllLabels(c, targets)
  {
    hide LabelsOf;
    if t != targets[0] {
      assert t in targets[1..];
      LabelsAreAll(c, targets[1..], t, name);
    }
  }

  /** A capability is priced, the caller holds every price that covers it, and each recorded
      definition behind it was last seen matching, less than sixty seconds ago. */
  predicate Guarded(c: Catalogue, can: string -> bool, history: seq<Note>, now: int, t: Target) {
    match t
    case ToolTarget(name) =>
      && (name in c.permissions ==> can(c.permissions[name]))
      && (name in c.permissions || ("tool:" + name in c.permissions && can(c.permissions["tool:" + name])))
      && (name in c.definitions ==> Trusted(history, name, now))
      && ("tool:" + name in c.definitions ==> Trusted(history, "tool:" + name, now))
    case PromptTarget(name) =>
      && "prompt:" + name in c.permissions && can(c.permissions["prompt:" + name])
      && ("prompt:" + name in c.definitions ==> Trusted(history, "prompt:" + name, now))
    case ResourceTarget(uri) =>
      && (exists e | e in c.resources :: Covers(c, e, uri))
      && (forall e | e in c.resources && Covers(c, e, uri) ::
            can(e.permission) && (e.name in c.definitions ==> Trusted(history, e.name, now)))
  }

  /** Whatever a priced and approved message can touch is guarded. */
  lemma ForwardedIsPricedAndApproved(c: Catalogue, can: string -> bool, history: seq<Note>, now: int, m: Message,
                                     t: Target)
    requires ReachOf(m).Reaches?
    requires forall x | x in ReachOf(m).targets :: Permitted(c, can, x)
    requires Approved(c, history, AllLabels(c, ReachOf(m).targets), now)
    requires Touches(m, t)
    ensures Guarded(c, can, history, now, t)
  {
    ReachIsTouch(m, t);
    hide Trusted, ReachOf, Touches, Covers;
    forall name | name in LabelsOf(c, t) && name in c.definitions ensures Trusted(history, name, now) {
      LabelsAreAll(c, ReachOf(m).targets, t, name);
    }
    match t
    case ToolTarget(name) => assert name in LabelsOf(c, t) && "tool:" + name in LabelsOf(c, t);
    case PromptTarget(name) => assert "prompt:" + name in LabelsOf(c, t);
    case ResourceTarget(uri) =>
      CoveringIs(c, c.resources, uri);
      var covering := Covering(c, c.resources, uri);
      assert covering[0] in covering;
      forall e | e in c.resources && Covers(c, e, uri)
        ensures can(e.permission) && (e.name in c.definitions ==> Trusted(history, e.name, now))
      {
        EntryLabelsAre(covering, e);
      }
  }

  /** What the boot checks: every priced label has a definition, and the index holds the price
      map's own entries. */
  predicate Booted(c: Catalogue) {
    && (forall l | l in c.permissions :: l in c.definitions)
    && (forall e | e in c.resources :: e.name in c.permissions && c.permissions[e.name] == e.permission)
  }

  /** Guarded, with every priced definition behind it trusted outright. */
  predicate Vouched(c: Catalogue, can: string -> bool, history: seq<Note>, now: int, t: Target) {
    match t
    case ToolTarget(name) =>
      && (name in c.permissions ==> can(c.permissions[name]) && Trusted(history, name, now))
      && ("tool:" + name in c.permissions ==> Trusted(history, "tool:" + name, now))
      && (name in c.permissions || ("tool:" + name in c.permissions && can(c.permissions["tool:" + name])))
    case PromptTarget(name) =>
      "prompt:" + name in c.permissions && can(c.permissions["prompt:" + name]) && Trusted(history, "prompt:" + name, now)
    case ResourceTarget(uri) =>
      && (exists e | e in c.resources :: Covers(c, e, uri))
      && (forall e | e in c.resources && Covers(c, e, uri) :: can(e.permission) && Trusted(history, e.name, now))
  }

  lemma BootedIsVouched(c: Catalogue, can: string -> bool, history: seq<Note>, now: int, t: Target)
    requires Booted(c) && Guarded(c, can, history, now, t)
    ensures Vouched(c, can, history, now, t)
  {
    hide Trusted, Covers;
  }

  /** The index as built holds the price map's own entries. */
  lemma IndexIsPriced(labels: seq<string>, permissions: map<string, string>, uris: map<string, string>)
    requires forall l | l in labels :: l in permissions
    ensures forall e | e in EntriesOf(labels, permissions, uris, false) + EntriesOf(labels, permissions, uris, true) ::
              e.name in permissions && permissions[e.name] == e.permission
  {
    EntriesAre(labels, permissions, uris, false);
    EntriesAre(labels, permissions, uris, true);
    hide EntriesOf;
  }

  // ---- Listings ----

  datatype Kind = ToolKind | PromptKind | ResourceKind

  /** The label the decision knows a listed item by. */
  function LabelOf(kind: Kind, name: string): string {
    match kind
    case ToolKind => name
    case PromptKind => "prompt:" + name
    case ResourceKind => "resource:" + name
  }

  /** The notes a listing leaves in the record, in order. */
  function ListingNotes(c: Catalogue, kind: Kind, items: seq<Listed>): seq<Note> {
    if items == [] then []
    else NotesOf(c.definitions, LabelOf(kind, items[0].name), items[0].item, items[0].at) + ListingNotes(c, kind, items[1..])
  }

  predicate Matched(c: Catalogue, kind: Kind, i: Listed) {
    var key := LabelOf(kind, i.name);
    key in c.definitions ==> ChangedFields(c.definitions[key], DefinitionOf(i.item)) == []
  }

  predicate Priced(c: Catalogue, kind: Kind, can: string -> bool, i: Listed) {
    var key := LabelOf(kind, i.name);
    key in c.permissions && can(c.permissions[key])
  }

  /** What is left of a listing: what matches its record and is within the caller's
      permissions, in the order it was listed. */
  function Shown(c: Catalogue, kind: Kind, can: string -> bool, items: seq<Listed>): seq<Listed> {
    if items == [] then []
    else (if Matched(c, kind, items[0]) && Priced(c, kind, can, items[0]) then [items[0]] else [])
         + Shown(c, kind, can, items[1..])
  }

  lemma {:induction false} ShownAre(c: Catalogue, kind: Kind, can: string -> bool, items: seq<Listed>)
    ensures forall i :: i in Shown(c, kind, can, items) <==> i in items && Matched(c, kind, i) && Priced(c, kind, can, i)
  {
    if items != [] {
      hide Matched, Priced;
      assert items == [items[0]] + items[1..];
      ShownAre(c, kind, can, items[1..]);
    }
  }

  /** A resource shown is one of the priced resources of the index, at a price the caller holds. */
  lemma ShownResourceIsPriced(c: Catalogue, labels: seq<string>, uris: map<string, string>, can: string -> bool,
                              items: seq<Listed>, i: Listed)
    requires forall x :: x in labels <==> x in c.permissions
    requires c.resources == EntriesOf(labels, c.permissions, uris, false) + EntriesOf(labels, c.permissions, uris, true)
    requires forall l | l in c.permissions && IsResource(l) :: l in uris
    requires i in Shown(c, ResourceKind, can, items)
    ensures exists e | e in c.resources :: e.name == "resource:" + i.name && can(e.permission)
  {
    ShownAre(c, ResourceKind, can, items);
    EntriesAre(labels, c.permissions, uris, false);
    EntriesAre(labels, c.permissions, uris, true);
    hide EntriesOf, Shown;
    var l := "resource:" + i.name;
    assert IsResource(l) by { assert l[..|"resource:"|] == "resource:"; }
    assert Entry(l, c.permissions[l], uris[l]) in c.resources;
  }

  /** What a caller is shown of a listing: the items whose definition is the recorded one, where
      there is a record, and whose label has a price the caller holds. */
  lemma ShownExactly(c: Catalogue, kind: Kind, can: string -> bool, items: seq<Listed>, i: Listed)
    requires SoundFields(i.item) && forall l | l in c.definitions :: SoundFields(c.definitions[l])
    ensures var key := match kind
                         case ToolKind => i.name
                         case PromptKind => "prompt:" + i.name
                         case ResourceKind => "resource:" + i.name;
            i in Shown(c, kind, can, items)
            <==> && i in items && (key in c.definitions ==> SameDefinition(c.definitions[key], i.item))
                 && key in c.permissions && can(c.permissions[key])
  {
    hide SoundFields, SameDefinition, ChangedFields, DefinitionOf, Shown;
    ShownAre(c, kind, can, items);
    var key := LabelOf(kind, i.name);
    if key in c.definitions { HeldToItem(c.definitions[key], i.item); }
  }

  lemma ShownStep(c: Catalogue, kind: Kind, can: string -> bool, items: seq<Listed>, i: nat)
    requires i < |items|
    ensures Shown(c, kind, can, items[i..])
            == (if Matched(c, kind, items[i]) && Priced(c, kind, can, items[i]) then [items[i]] else [])
               + Shown(c, kind, can, items[i + 1..])
    ensures ListingNotes(c, kind, items[i..])
            == NotesOf(c.definitions, LabelOf(kind, items[i].name), items[i].item, items[i].at) + ListingNotes(c, kind, items[i + 1..])
  {
    hide Matched, Priced, NotesOf, LabelOf;
    assert items[i..][0] == items[i] && items[i..][1..] == items[i + 1..];
  }

  /** One item: held to the record, and shown or not. */
  method HoldItem(record: UpstreamRecord, c: Catalogue, kind: Kind, can: string -> bool, it: Listed)
      returns (kept: seq<Listed>)
    requires record.Valid() && record.definitions == c.definitions
    modifies record`checkedAt, record`changed, record`history
    ensures record.Valid()
    ensures kept == if Matched(c, kind, it) && Priced(c, kind, can, it) then [it] else []
    ensures record.history == old(record.history) + NotesOf(c.definitions, LabelOf(kind, it.name), it.item, it.at)
  {
    MatchedIs(c, kind, it);
    hide *;
    var keep := record.Matches(LabelOf(kind, it.name), it.item, it.at);
    kept := if keep && Priced(c, kind, can, it) then [it] else [];
  }

  /** Every item is held to the record, permitted or not, and then the caller's permissions
      decide among those that matched. */
  method FilterListing(record: UpstreamRecord, c: Catalogue, kind: Kind, can: string -> bool, items: seq<Listed>)
      returns (shown: seq<Listed>)
    requires record.Valid() && record.definitions == c.definitions
    modifies record`checkedAt, record`changed, record`history
    ensures record.Valid()
    ensures shown == Shown(c, kind, can, items)
    ensures record.history == old(record.history) + ListingNotes(c, kind, items)
  {
    shown := [];
    assert items[0..] == items;
    ghost var seen: seq<Note> := [];
    hide *;
    for i := 0 to |items|
      invariant record.Valid()
      invariant record.history == old(record.history) + seen
      invariant shown + Shown(c, kind, can, items[i..]) == Shown(c, kind, can, items)
      invariant seen + ListingNotes(c, kind, items[i..]) == ListingNotes(c, kind, items)
    {
      var it := items[i];
      ShownStep(c, kind, can, items, i);
      ghost var notes := NotesOf(c.definitions, LabelOf(kind, it.name), it.item, it.at);
      var kept := HoldItem(record, c, kind, can, it);
      Associate(old(record.history), seen, notes);
      Associate(seen, notes, ListingNotes(c, kind, items[i + 1..]));
      Associate(shown, kept, Shown(c, kind, can, items[i + 1..]));
      seen, shown := seen + notes, shown + kept;
    }
    NothingListed(c, kind, can, items[|items|..]);
  }

  lemma MatchedIs(c: Catalogue, kind: Kind, i: Listed)
    ensures var key := LabelOf(kind, i.name);
            Matched(c, kind, i) <==> key !in c.definitions || ChangedFields(c.definitions[key], DefinitionOf(i.item)) == []
  {
    hide LabelOf, ChangedFields, DefinitionOf;
  }

  lemma NothingListed(c: Catalogue, kind: Kind, can: string -> bool, items: seq<Listed>)
    requires items == []
    ensures Shown(c, kind, can, items) == [] && ListingNotes(c, kind, items) == []
  {}

  /** What a listing says of a name: its last item of that name. */
  function LastNamed(items: seq<Listed>, name: string): Option<Listed> {
    if items == [] then None
    else if items[|items| - 1].name == name then Some(items[|items| - 1])
    else LastNamed(items[..|items| - 1], name)
  }

  lemma LabelsDiffer(kind: Kind, a: string, b: string)
    ensures LabelOf(kind, a) == LabelOf(kind, b) <==> a == b
  {
    assert ("prompt:" + a)[7..] == a && ("prompt:" + b)[7..] == b;
    assert ("resource:" + a)[9..] == a && ("resource:" + b)[9..] == b;
  }

  lemma {:induction false} ListingNotesEnd(c: Catalogue, kind: Kind, items: seq<Listed>)
    requires items != []
    ensures var end := items[|items| - 1];
            ListingNotes(c, kind, items)
            == ListingNotes(c, kind, items[..|items| - 1]) + NotesOf(c.definitions, LabelOf(kind, end.name), end.item, end.at)
  {
    hide NotesOf, LabelOf;
    var k := |items| - 1;
    if k == 0 {
      assert items[..0] == [] && items[1..] == [];
      assert ListingNotes(c, kind, []) == [];
    } else {
      ListingNotesEnd(c, kind, items[1..]);
      assert items[1..][..k - 1] == items[..k][1..];
      assert items[..k][0] == items[0];
    }
  }

  /** After a listing, the last thing known of a recorded item is what the listing's last item
      of its name said, or, where it has none, what was known before. */
  lemma {:induction false} ListingIsLast(c: Catalogue, kind: Kind, items: seq<Listed>, name: string, history: seq<Note>)
    requires LabelOf(kind, name) in c.definitions
    ensures var key := LabelOf(kind, name);
            Last(history + ListingNotes(c, kind, items), key)
            == match LastNamed(items, name)
               case Some(i) => Some(Saw(key, ChangedFields(c.definitions[key], DefinitionOf(i.item)), i.at))
               case None => Last(history, key)
    decreases |items|
  {
    hide Last, ChangedFields, DefinitionOf, LabelOf;
    if items == [] {
      assert history + [] == history;
    } else {
      var k := |items| - 1;
      var before := ListingNotes(c, kind, items[..k]);
      ListingNotesEnd(c, kind, items);
      var end := items[k];
      var key := LabelOf(kind, end.name);
      LabelsDiffer(kind, end.name, name);
      if key in c.definitions {
        var note := Saw(key, ChangedFields(c.definitions[key], DefinitionOf(end.item)), end.at);
        assert history + (before + [note]) == (history + before) + [note];
        LastAfter(history + before, note, LabelOf(kind, name));
      } else {
        assert history + (before + []) == history + before;
      }
      if end.name != name { ListingIsLast(c, kind, items[..k], name, history); }
    }
  }

  /** After a listing, and at a time: a name's record, if it has one, has nothing against it.
      The listing's last item of that name matches it and is less than sixty seconds old; or
      the listing has none, and the record had nothing against it before. */
  predicate GoodAfter(c: Catalogue, kind: Kind, items: seq<Listed>, history: seq<Note>, now: int, name: string) {
    var key := LabelOf(kind, name);
    key in c.definitions ==>
      match LastNamed(items, name)
      case Some(i) => ChangedFields(c.definitions[key], DefinitionOf(i.item)) == [] && now - i.at < FRESH_MS
      case None => Trusted(history, key, now)
  }

  lemma GoodIsTrusted(c: Catalogue, kind: Kind, items: seq<Listed>, history: seq<Note>, now: int, name: string)
    ensures var key := LabelOf(kind, name);
            GoodAfter(c, kind, items, history, now, name)
            <==> (key in c.definitions ==> Trusted(history + ListingNotes(c, kind, items), key, now))
  {
    hide Last, ChangedFields, DefinitionOf, LabelOf, ListingNotes, LastNamed;
    if LabelOf(kind, name) in c.definitions { ListingIsLast(c, kind, items, name, history); }
  }

  lemma ToolLabels(c: Catalogue, name: string)
    ensures AllLabels(c, [ToolTarget(name)]) == [name, "tool:" + name]
  {
    var t := ToolTarget(name);
    assert [t][1..] == [];
    assert AllLabels(c, [t]) == LabelsOf(c, t) + AllLabels(c, []);
    assert LabelsOf(c, t) + [] == [name, "tool:" + name];
  }

  /** A tool a caller was shown is priced and permitted. Right after the listing the record
      refuses its calls only for what that listing said last under its name, or for what is
      known of the tool named with the prefix, to which a second record would belong. */
  lemma ShownToolCanBeCalled(c: Catalogue, can: string -> bool, items: seq<Listed>, i: Listed, history: seq<Note>,
                             now: int, m: Message)
    requires i in Shown(c, ToolKind, can, items) && i.name != ""
    requires m.verb == "tools/call" && m.name == Some(i.name)
    ensures var after := history + ListingNotes(c, ToolKind, items);
            && ReachOf(m) == Reaches([ToolTarget(i.name)]) && Permitted(c, can, ToolTarget(i.name))
            && (Approved(c, after, AllLabels(c, ReachOf(m).targets), now)
                <==> && GoodAfter(c, ToolKind, items, history, now, i.name)
                     && GoodAfter(c, ToolKind, items, history, now, "tool:" + i.name))
  {
    ShownAre(c, ToolKind, can, items);
    ToolLabels(c, i.name);
    GoodIsTrusted(c, ToolKind, items, history, now, i.name);
    GoodIsTrusted(c, ToolKind, items, history, now, "tool:" + i.name);
    hide Trusted, GoodAfter, ListingNotes, AllLabels;
  }

  /** A prompt a caller was shown is priced and permitted, fetched or completed, and right
      after the listing refused only for what it said last under that name. */
  lemma ShownPromptCanBeFetched(c: Catalogue, can: string -> bool, items: seq<Listed>, i: Listed, history: seq<Note>,
                                now: int, m: Message)
    requires i in Shown(c, PromptKind, can, items) && i.name != ""
    requires (m.verb == "prompts/get" && m.name == Some(i.name)) || (m.verb == "completion/complete" && m.ref == PromptRef(i.name))
    ensures var after := history + ListingNotes(c, PromptKind, items);
            && ReachOf(m) == Reaches([PromptTarget(i.name)]) && Permitted(c, can, PromptTarget(i.name))
            && (Approved(c, after, AllLabels(c, ReachOf(m).targets), now)
                <==> GoodAfter(c, PromptKind, items, history, now, i.name))
  {
    ShownAre(c, PromptKind, can, items);
    PromptReached(m, i.name);
    PromptLabels(c, i.name);
    GoodIsTrusted(c, PromptKind, items, history, now, i.name);
    assert LabelOf(PromptKind, i.name) == "prompt:" + i.name;
    hide Trusted, ReachOf, AllLabels, ListingNotes, GoodAfter;
  }

  lemma PromptReached(m: Message, name: string)
    requires name != ""
    requires (m.verb == "prompts/get" && m.name == Some(name)) || (m.verb == "completion/complete" && m.ref == PromptRef(name))
    ensures ReachOf(m) == Reaches([PromptTarget(name)])
  {}

  lemma PromptLabels(c: Catalogue, name: string)
    ensures AllLabels(c, [PromptTarget(name)]) == ["prompt:" + name]
  {
    var t := PromptTarget(name);
    assert [t][1..] == [];
    assert AllLabels(c, [t]) == LabelsOf(c, t) + AllLabels(c, []);
    assert LabelsOf(c, t) + [] == ["prompt:" + name];
  }

  // ---- Second records of tools ----

  /** What any number of listings leave in a new record. */
  function NotesOfListings(c: Catalogue, listings: seq<(Kind, seq<Listed>)>): seq<Note> {
    if listings == [] then []
    else NotesOfListings(c, listings[..|listings| - 1])
         + ListingNotes(c, listings[|listings| - 1].0, listings[|listings| - 1].1)
  }

  /** No tool is listed under this very name. */
  predicate NeverListed(listings: seq<(Kind, seq<Listed>)>, name: string) {
    forall l, i | l in listings && l.0.ToolKind? && i in l.1 :: i.name != name
  }

  lemma {:induction false} NeverNoted(c: Catalogue, listings: seq<(Kind, seq<Listed>)>, name: string)
    requires NeverListed(listings, "tool:" + name)
    ensures Last(NotesOfListings(c, listings), "tool:" + name) == None
  {
    var key := "tool:" + name;
    if listings != [] {
      hide Last;
      var k := |listings| - 1;
      assert listings[k] in listings && forall l | l in listings[..k] :: l in listings;
      NeverNoted(c, listings[..k], name);
      UnmentionedStays(c, listings[k].0, listings[k].1, NotesOfListings(c, listings[..k]), name);
    }
  }

  /** A listing without the prefixed tool says nothing about it; prompts and resources never
      do. */
  lemma {:induction false} UnmentionedStays(c: Catalogue, kind: Kind, items: seq<Listed>, history: seq<Note>, name: string)
    requires kind.ToolKind? ==> forall i | i in items :: i.name != "tool:" + name
    ensures Last(history + ListingNotes(c, kind, items), "tool:" + name) == Last(history, "tool:" + name)
    decreases |items|
  {
    hide Last, ChangedFields, DefinitionOf, LabelOf;
    if items == [] {
      assert history + [] == history;
    } else {
      var k := |items| - 1;
      var before := ListingNotes(c, kind, items[..k]);
      ListingNotesEnd(c, kind, items);
      var end := items[k];
      assert end in items && forall i | i in items[..k] :: i in items;
      UnmentionedStays(c, kind, items[..k], history, name);
      OtherLabel(kind, end.name, name);
      var key := LabelOf(kind, end.name);
      if key in c.definitions {
        var note := Saw(key, ChangedFields(c.definitions[key], DefinitionOf(end.item)), end.at);
        assert history + (before + [note]) == (history + before) + [note];
        LastAfter(history + before, note, "tool:" + name);
      } else {
        assert history + (before + []) == history + before;
      }
    }
  }

  lemma OtherLabel(kind: Kind, a: string, name: string)
    ensures LabelOf(kind, a) == "tool:" + name ==> kind.ToolKind? && a == "tool:" + name
  {
    assert ("tool:" + name)[0] == 't';
    assert kind.PromptKind? ==> LabelOf(kind, a)[0] == 'p';
    assert kind.ResourceKind? ==> LabelOf(kind, a)[0] == 'r';
  }

  /** A tool recorded a second time under its prefixed label is refused after any number of
      listings, unless one lists a tool of that very name: nothing else refreshes the record. */
  lemma SecondRecordStaysRefused(c: Catalogue, listings: seq<(Kind, seq<Listed>)>, name: string, now: int)
    requires "tool:" + name in c.definitions && NeverListed(listings, "tool:" + name)
    ensures !Approved(c, NotesOfListings(c, listings), AllLabels(c, [ToolTarget(name)]), now)
  {
    NeverNoted(c, listings, name);
    ToolLabels(c, name);
    assert "tool:" + name in AllLabels(c, [ToolTarget(name)]);
    hide Last, AllLabels;
  }

  /** So a tool priced only under its prefixed label is never shown, and, as the boot asks for
      that label's definition, never callable unless a tool of that very name is listed. */
  lemma PrefixedPriceIsUseless(c: Catalogue, can: string -> bool, items: seq<Listed>, i: Listed,
                               listings: seq<(Kind, seq<Listed>)>, now: int)
    requires Booted(c) && i.name !in c.permissions && "tool:" + i.name in c.permissions
    ensures i !in Shown(c, ToolKind, can, items)
    ensures NeverListed(listings, "tool:" + i.name) ==>
              !Approved(c, NotesOfListings(c, listings), AllLabels(c, [ToolTarget(i.name)]), now)
  {
    ShownAre(c, ToolKind, can, items);
    hide Approved;
    if NeverListed(listings, "tool:" + i.name) { SecondRecordStaysRefused(c, listings, i.name, now); }
  }
}
