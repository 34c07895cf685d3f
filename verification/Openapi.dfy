/** An OpenAPI document read as a catalogue: the operations it records, the routes they
    answer, and the document each caller is offered. */
module Openapi {
  import opened Optional

  // ---- Documents ----

  /** A value in a path item: an object, with its operationId when that is a string, or
      anything else. */
  datatype Node = Object(id: Option<string>) | Scalar
  datatype Entry = Entry(key: string, node: Node)
  datatype PathEntry = PathEntry(path: string, item: Option<seq<Entry>>)
  type Document = seq<PathEntry>

  const METHODS: seq<string> := ["get", "put", "post", "delete", "options", "head", "patch", "trace"]

  datatype Operation = Operation(id: string, verb: string, path: string)

  /** Keys of an object are distinct. */
  predicate Sound(doc: Document) {
    && (forall i, j | 0 <= i < j < |doc| :: doc[i].path != doc[j].path)
    && (forall p | p in doc && p.item.Some? :: DistinctKeys(p.item.value))
  }

  predicate DistinctKeys(item: seq<Entry>) {
    forall i, j | 0 <= i < j < |item| :: item[i].key != item[j].key
  }

  function Lookup(item: seq<Entry>, key: string): Node {
    if item == [] then Scalar else if item[0].key == key then item[0].node else Lookup(item[1..], key)
  }

  // ---- Recording ----

  /** The document describes this verb on this path, under this id. */
  predicate Describes(doc: Document, op: Operation) {
    op.verb in METHODS
    && exists p | p in doc :: p.path == op.path && p.item.Some? && Lookup(p.item.value, op.verb) == Object(Some(op.id))
  }

  /** An operation without a usable id, which refuses the document. */
  predicate Nameless(doc: Document) {
    exists p, verb | p in doc && verb in METHODS ::
      p.item.Some? && Lookup(p.item.value, verb).Object?
      && (Lookup(p.item.value, verb).id.None? || Lookup(p.item.value, verb).id.value == "")
  }

  predicate DistinctIds(ops: seq<Operation>) {
    forall i, j | 0 <= i < j < |ops| :: ops[i].id != ops[j].id
  }

  function ItemOperations(path: string, item: seq<Entry>, verbs: seq<string>): seq<Operation> {
    if verbs == [] then []
    else
      var node := Lookup(item, verbs[0]);
      (if node.Object? && node.id.Some? then [Operation(node.id.value, verbs[0], path)] else [])
      + ItemOperations(path, item, verbs[1..])
  }

  function Operations(doc: Document): seq<Operation> {
    if doc == [] then []
    else (if doc[0].item.Some? then ItemOperations(doc[0].path, doc[0].item.value, METHODS) else []) + Operations(doc[1..])
  }

  predicate ItemNameless(item: seq<Entry>, verbs: seq<string>) {
    exists verb | verb in verbs :: Lookup(item, verb).Object? && (Lookup(item, verb).id.None? || Lookup(item, verb).id.value == "")
  }

  /** The ids used so far. */
  ghost predicate Uses(ops: seq<Operation>, seen: set<string>) {
    DistinctIds(ops) && forall id :: id in seen <==> exists o | o in ops :: o.id == id
  }

  lemma UsesOne(ops: seq<Operation>, seen: set<string>, op: Operation, rest: seq<Operation>)
    requires Uses(ops, seen)
    ensures op.id !in seen ==> Uses(ops + [op], seen + {op.id})
    ensures op.id in seen ==> !DistinctIds(ops + ([op] + rest))
  {
    if op.id in seen {
      var o :| o in ops && o.id == op.id;
      RepeatedId(ops, op, rest, o);
    } else {
      forall j | 0 <= j < |ops| ensures ops[j].id != op.id { assert ops[j] in ops; }
      forall id ensures id in seen + {op.id} <==> exists o | o in ops + [op] :: o.id == id {
        if id == op.id { assert op in ops + [op]; }
        if o :| o in ops && o.id == id { assert o in ops + [op]; }
      }
    }
  }

  lemma Regroup(before: seq<Operation>, own: seq<Operation>, rest: seq<Operation>,
                ops: seq<Operation>, op: Operation, more: seq<Operation>)
    requires before + own == ops + ([op] + more)
    ensures before + (own + rest) == ops + ([op] + (more + rest))
  {
    assert before + (own + rest) == (before + own) + rest;
  }

  lemma Associate(ops: seq<Operation>, op: Operation, more: seq<Operation>)
    ensures ops + ([op] + more) == (ops + [op]) + more
  {}

  lemma UnfoldItem(path: string, item: seq<Entry>, verbs: seq<string>, k: nat)
    requires k < |verbs|
    ensures var node := Lookup(item, verbs[k]);
            ItemOperations(path, item, verbs[k..])
            == (if node.Object? && node.id.Some? then [Operation(node.id.value, verbs[k], path)] else [])
               + ItemOperations(path, item, verbs[k + 1..])
    ensures ItemNameless(item, verbs[..k + 1]) <==>
            ItemNameless(item, verbs[..k]) ||
            (Lookup(item, verbs[k]).Object? && (Lookup(item, verbs[k]).id.None? || Lookup(item, verbs[k]).id.value == ""))
  {
    hide Lookup;
    assert verbs[k..][1..] == verbs[k + 1..];
    assert verbs[..k + 1] == verbs[..k] + [verbs[k]];
    assert verbs[k] in verbs[..k + 1];
  }

  lemma NamelessInPrefix(item: seq<Entry>, verbs: seq<string>, k: nat)
    requires k <= |verbs| && ItemNameless(item, verbs[..k])
    ensures ItemNameless(item, verbs)
  {
    hide Lookup;
  }

  lemma NoVerbsLeft(path: string, item: seq<Entry>, ops: seq<Operation>)
    ensures ops + ItemOperations(path, item, []) == ops && !ItemNameless(item, [])
  {}

  /** The inner loop: the verbs of one path, after the operations before it. */
  method RecordItem(path: string, item: seq<Entry>, verbs: seq<string>, before: seq<Operation>, used: set<string>,
                    ghost rest: seq<Operation>)
    returns (ok: bool, operations: seq<Operation>, seen: set<string>)
    requires Uses(before, used)
    ensures ok ==> operations == before + ItemOperations(path, item, verbs) && Uses(operations, seen)
    ensures ok ==> !ItemNameless(item, verbs)
    ensures !ok ==> ItemNameless(item, verbs) || !DistinctIds(before + (ItemOperations(path, item, verbs) + rest))
  {
    hide Lookup, Uses, ItemOperations, DistinctIds, ItemNameless;
    operations, seen := before, used;
    NoVerbsLeft(path, item, operations);
    assert verbs[0..] == verbs;
    for k := 0 to |verbs|
      invariant operations + ItemOperations(path, item, verbs[k..]) == before + ItemOperations(path, item, verbs)
      invariant Uses(operations, seen)
      invariant !ItemNameless(item, verbs[..k])
    {
      var verb := verbs[k];
      UnfoldItem(path, item, verbs, k);
      var node := Lookup(item, verb);
      if !node.Object? { continue; }
      if node.id.None? || node.id.value == "" {
        NamelessInPrefix(item, verbs, k + 1);
        return false, operations, seen;
      }
      var op := Operation(node.id.value, verb, path);
      ghost var more := ItemOperations(path, item, verbs[k + 1..]);
      UsesOne(operations, seen, op, more + rest);
      assert before + ItemOperations(path, item, verbs) == operations + ([op] + more);
      if node.id.value in seen {
        Regroup(before, ItemOperations(path, item, verbs), rest, operations, op, more);
        return false, operations, seen;
      }
      Associate(operations, op, more);
      seen := seen + {op.id};
      operations := operations + [op];
    }
    assert verbs[|verbs|..] == [] && verbs[..|verbs|] == verbs;
    NoVerbsLeft(path, item, operations);
    return true, operations, seen;
  }

  /** The outer loop: every path, refused at the first nameless operation or repeated id. */
  method RecordOperations(doc: Document) returns (r: Option<seq<Operation>>)
    ensures r.Some? ==> r.value == Operations(doc) && DistinctIds(r.value) && !Nameless(doc)
    ensures r.None? ==> Nameless(doc) || !DistinctIds(Operations(doc))
  {
    hide Lookup, ItemOperations, DistinctIds;
    var operations: seq<Operation> := [];
    var seen: set<string> := {};
    NothingUsed();
    for i := 0 to |doc|
      invariant operations + Operations(doc[i..]) == Operations(doc)
      invariant Uses(operations, seen)
      invariant forall p | p in doc[..i] && p.item.Some? :: !ItemNameless(p.item.value, METHODS)
    {
      assert doc[i..][1..] == doc[i + 1..];
      assert doc[..i + 1] == doc[..i] + [doc[i]];
      if doc[i].item.None? { continue; }
      ghost var rest := Operations(doc[i + 1..]);
      ghost var own := ItemOperations(doc[i].path, doc[i].item.value, METHODS);
      assert operations + (own + rest) == Operations(doc);
      assert operations + (own + rest) == (operations + own) + rest;
      var ok, ops, ids := RecordItem(doc[i].path, doc[i].item.value, METHODS, operations, seen, rest);
      if !ok {
        assert doc[i] in doc;
        return None;
      }
      operations, seen := ops, ids;
    }
    assert doc[|doc|..] == [] && doc[..|doc|] == doc;
    return Some(operations);
  }

  lemma NothingUsed()
    ensures Uses([], {})
  {}

  lemma RepeatedId(before: seq<Operation>, op: Operation, rest: seq<Operation>, o: Operation)
    requires o in before && o.id == op.id
    ensures !DistinctIds(before + ([op] + rest))
  {
    var all := before + ([op] + rest);
    var j :| 0 <= j < |before| && before[j] == o;
    assert all[j].id == all[|before|].id;
  }

  lemma {:induction false} ItemOperationsAre(path: string, item: seq<Entry>, verbs: seq<string>)
    ensures forall op :: op in ItemOperations(path, item, verbs) <==>
                         op.path == path && op.verb in verbs && Lookup(item, op.verb) == Object(Some(op.id))
  {
    hide Lookup;
    if verbs != [] {
      assert verbs == [verbs[0]] + verbs[1..];
      ItemOperationsAre(path, item, verbs[1..]);
    }
  }

  /** What is recorded is exactly what the document describes. */
  lemma {:induction false} OperationsAreDescribed(doc: Document)
    ensures forall op :: op in Operations(doc) <==> Describes(doc, op)
  {
    hide Lookup;
    if doc != [] {
      assert doc == [doc[0]] + doc[1..];
      OperationsAreDescribed(doc[1..]);
      if doc[0].item.Some? { ItemOperationsAre(doc[0].path, doc[0].item.value, METHODS); }
      forall op ensures op in Operations(doc) <==> Describes(doc, op) {
        if Describes(doc, op) {
          var p :| p in doc && p.path == op.path && p.item.Some? && Lookup(p.item.value, op.verb) == Object(Some(op.id));
          if p != doc[0] { assert p in doc[1..]; }
        }
        if Describes(doc[1..], op) {
          var p :| p in doc[1..] && p.path == op.path && p.item.Some? && Lookup(p.item.value, op.verb) == Object(Some(op.id));
          assert p in doc;
        }
        if op in Operations(doc) && op !in Operations(doc[1..]) { assert doc[0] in doc; }
      }
    }
  }

  /** In a recorded document an id names one verb on one path, and they name one id. */
  lemma IdsAreOneToOne(doc: Document, a: Operation, b: Operation)
    requires Sound(doc) && DistinctIds(Operations(doc))
    requires a in Operations(doc) && b in Operations(doc)
    ensures a.id == b.id <==> a.verb == b.verb && a.path == b.path
  {
    OperationsAreDescribed(doc);
    var i :| 0 <= i < |Operations(doc)| && Operations(doc)[i] == a;
    var j :| 0 <= j < |Operations(doc)| && Operations(doc)[j] == b;
    if a.verb == b.verb && a.path == b.path {
      var p :| p in doc && p.path == a.path && p.item.Some? && Lookup(p.item.value, a.verb) == Object(Some(a.id));
      var q :| q in doc && q.path == b.path && q.item.Some? && Lookup(q.item.value, b.verb) == Object(Some(b.id));
      assert p == q;
    }
  }

  // ---- Templates ----

  function Slash(s: string): (i: nat)
    ensures i <= |s| && '/' !in s[..i] && (i < |s| ==> s[i] == '/')
  {
    if s == "" || s[0] == '/' then 0 else 1 + Slash(s[1..])
  }

  function Segments(s: string): (r: seq<string>)
    ensures r != [] && forall x | x in r :: '/' !in x
    decreases |s|
  {
    var i := Slash(s);
    if i == |s| then
      assert s[..i] == s;
      [s]
    else [s[..i]] + Segments(s[i + 1..])
  }

  /** A segment that is one `{name}` whole. */
  predicate IsVariable(segment: string) {
    |segment| > 2 && segment[0] == '{' && segment[|segment| - 1] == '}'
    && forall c | c in segment[1..|segment| - 1] :: !IsBrace(c)
  }

  /** A variable is a name in braces, and nothing else is. */
  lemma VariableIs(segment: string)
    ensures IsVariable(segment)
            <==> exists name :: name != "" && '{' !in name && '}' !in name && segment == "{" + name + "}"
  {
    if IsVariable(segment) {
      var name := segment[1..|segment| - 1];
      assert forall c | c in name :: !IsBrace(c);
      assert segment == "{" + name + "}";
    }
    if name :| name != "" && '{' !in name && '}' !in name && segment == "{" + name + "}" {
      assert segment[1..|segment| - 1] == name;
    }
  }

  predicate IsBrace(c: char) {
    c == '{' || c == '}'
  }

  /** The pattern a template becomes: a variable is a run of one or more characters other
      than a slash; everything else is itself. */
  datatype Token = Char(c: char) | Run

  function Literal(s: string): seq<Token> {
    if s == "" then [] else [Char(s[0])] + Literal(s[1..])
  }

  function SegmentTokens(segment: string): seq<Token> {
    if IsVariable(segment) then [Run] else Literal(segment)
  }

  function Tokens(segments: seq<string>): seq<Token> {
    if segments == [] then []
    else if |segments| == 1 then SegmentTokens(segments[0])
    else SegmentTokens(segments[0]) + [Char('/')] + Tokens(segments[1..])
  }

  /** How a regular expression matches: a run may take any number of characters it can. */
  predicate Matches(tokens: seq<Token>, s: string)
    decreases |tokens|
  {
    if tokens == [] then s == ""
    else match tokens[0]
      case Char(c) => s != "" && s[0] == c && Matches(tokens[1..], s[1..])
      case Run => exists n | 1 <= n <= |s| :: '/' !in s[..n] && Matches(tokens[1..], s[n..])
  }

  predicate Answers(template: string, route: string) {
    Matches(Tokens(Segments(template)), route)
  }

  predicate SegmentAnswers(segment: string, s: string) {
    if IsVariable(segment) then s != "" else s == segment
  }

  predicate SegmentsAnswer(template: seq<string>, route: seq<string>) {
    |template| == |route| && forall i | 0 <= i < |template| :: SegmentAnswers(template[i], route[i])
  }

  lemma {:induction false} MatchLiteral(text: string, rest: seq<Token>, s: string)
    ensures Matches(Literal(text) + rest, s) <==> text <= s && Matches(rest, s[|text|..])
  {
    if text == "" {
      assert Literal(text) + rest == rest && s[0..] == s;
    } else {
      var tokens := Literal(text) + rest;
      assert tokens[0] == Char(text[0]) && tokens[1..] == Literal(text[1..]) + rest;
      if s != "" && s[0] == text[0] {
        MatchLiteral(text[1..], rest, s[1..]);
        assert text <= s <==> text[1..] <= s[1..];
        assert text <= s ==> s[1..][|text[1..]|..] == s[|text|..];
      } else {
        assert !(text <= s);
      }
    }
  }

  /** One segment's tokens, with a slash or the end after them, take exactly the route's
      first segment. */
  lemma MatchSegment(segment: string, rest: seq<Token>, s: string)
    requires '/' !in segment && (rest == [] || rest[0] == Char('/'))
    ensures Matches(SegmentTokens(segment) + rest, s) <==>
            SegmentAnswers(segment, s[..Slash(s)]) && Matches(rest, s[Slash(s)..])
  {
    var n := Slash(s);
    if IsVariable(segment) {
      assert ([Run] + rest)[1..] == rest;
      forall k | 1 <= k <= |s| && '/' !in s[..k] && Matches(rest, s[k..]) ensures k == n {
        RunStopsAtSlash(rest, s, k);
      }
      if n >= 1 && Matches(rest, s[n..]) { assert '/' !in s[..n]; }
    } else {
      MatchLiteral(segment, rest, s);
      if segment <= s && Matches(rest, s[|segment|..]) { RunStopsAtSlash(rest, s, |segment|); }
      assert s[..n] <= s;
    }
  }

  lemma RunStopsAtSlash(rest: seq<Token>, s: string, k: nat)
    requires rest == [] || rest[0] == Char('/')
    requires k <= |s| && '/' !in s[..k] && Matches(rest, s[k..])
    ensures k == Slash(s)
  {
    if rest == [] {
      assert s == s[..k] + s[k..];
      assert '/' !in s;
    } else {
      assert s[k..][0] == '/';
      SlashAt(s, k);
    }
  }

  lemma {:induction false} SlashAt(s: string, k: nat)
    requires k < |s| && s[k] == '/' && '/' !in s[..k]
    ensures Slash(s) == k
  {
    if k > 0 {
      assert s[0] in s[..k];
      assert s[1..][..k - 1] == s[1..k] && forall c | c in s[1..k] :: c in s[..k];
      SlashAt(s[1..], k - 1);
    }
  }

  /** The pattern and segment-by-segment comparison agree: a whole-segment variable takes
      one non-empty segment, and nothing takes a slash. */
  lemma {:induction false} MatchIsBySegment(template: seq<string>, route: string)
    requires template != [] && forall x | x in template :: '/' !in x
    ensures Matches(Tokens(template), route) <==> SegmentsAnswer(template, Segments(route))
    decreases |template|
  {
    hide Matches, SegmentTokens, IsVariable;
    var first := template[0];
    assert first in template;
    var n := Slash(route);
    if |template| == 1 {
      assert Tokens(template) == SegmentTokens(first) + [];
      MatchSegment(first, [], route);
      MatchNothing(route[n..]);
      if n == |route| { assert route[..n] == route; }
    } else {
      var rest := template[1..];
      assert forall x | x in rest :: x in template;
      assert Tokens(template) == SegmentTokens(first) + ([Char('/')] + Tokens(rest));
      MatchSegment(first, [Char('/')] + Tokens(rest), route);
      MatchSlash(Tokens(rest), route[n..]);
      if n < |route| {
        assert route[n..][1..] == route[n + 1..];
        MatchIsBySegment(rest, route[n + 1..]);
        ConsAnswer(first, rest, route[..n], Segments(route[n + 1..]));
        assert template == [first] + rest;
      }
    }
  }

  lemma MatchNothing(s: string)
    ensures Matches([], s) <==> s == ""
  {}

  lemma MatchSlash(tokens: seq<Token>, s: string)
    ensures Matches([Char('/')] + tokens, s) <==> s != "" && s[0] == '/' && Matches(tokens, s[1..])
  {
    assert ([Char('/')] + tokens)[1..] == tokens;
  }

  lemma ConsAnswer(t: string, template: seq<string>, s: string, route: seq<string>)
    ensures SegmentsAnswer([t] + template, [s] + route) <==> SegmentAnswers(t, s) && SegmentsAnswer(template, route)
  {
    hide SegmentAnswers;
    if SegmentsAnswer([t] + template, [s] + route) {
      assert ([t] + template)[0] == t && ([s] + route)[0] == s;
      forall i | 0 <= i < |template| ensures SegmentAnswers(template[i], route[i]) {
        assert ([t] + template)[i + 1] == template[i] && ([s] + route)[i + 1] == route[i];
      }
    }
  }

  lemma AnswersBySegment(template: string, route: string)
    ensures Answers(template, route) <==> SegmentsAnswer(Segments(template), Segments(route))
  {
    MatchIsBySegment(Segments(template), route);
  }

  // ---- Dispatch ----

  function TemplateCount(path: string): nat {
    if path == "" then 0 else (if path[0] == '{' then 1 else 0) + TemplateCount(path[1..])
  }

  /** Fewer template marks first, then the longer path. */
  predicate Before(a: Operation, b: Operation) {
    TemplateCount(a.path) < TemplateCount(b.path)
    || (TemplateCount(a.path) == TemplateCount(b.path) && |a.path| > |b.path|)
  }

  function InsertRoute(op: Operation, sorted: seq<Operation>): seq<Operation> {
    if sorted == [] || !Before(sorted[0], op) then [op] + sorted else [sorted[0]] + InsertRoute(op, sorted[1..])
  }

  /** A stable sort. */
  function Routes(ops: seq<Operation>): seq<Operation> {
    if ops == [] then [] else InsertRoute(ops[0], Routes(ops[1..]))
  }

  function Dispatch(routes: seq<Operation>, verb: string, route: string): Option<Operation> {
    if routes == [] then None
    else if routes[0].verb == verb && Answers(routes[0].path, route) then Some(routes[0])
    else Dispatch(routes[1..], verb, route)
  }

  /** No later route comes before an earlier one. */
  predicate Ordered(routes: seq<Operation>) {
    forall i, j | 0 <= i < j < |routes| :: !Before(routes[j], routes[i])
  }

  lemma BeforeChains(a: Operation, b: Operation, c: Operation)
    ensures !Before(b, a) && !Before(c, b) ==> !Before(c, a)
    ensures Before(a, b) ==> !Before(b, a)
  {
    hide TemplateCount;
  }

  lemma {:induction false} InsertKeepsOrder(op: Operation, sorted: seq<Operation>)
    requires Ordered(sorted)
    ensures Ordered(InsertRoute(op, sorted))
    ensures forall x :: x in InsertRoute(op, sorted) <==> x == op || x in sorted
  {
    hide Before;
    if sorted == [] {
    } else if !Before(sorted[0], op) {
      forall k | 0 <= k < |sorted| ensures !Before(sorted[k], op) { BeforeChains(op, sorted[0], sorted[k]); }
    } else {
      var more := sorted[1..];
      assert sorted == [sorted[0]] + more;
      forall i, j | 0 <= i < j < |more| ensures !Before(more[j], more[i]) {
        assert more[i] == sorted[i + 1] && more[j] == sorted[j + 1];
      }
      InsertKeepsOrder(op, more);
      BeforeChains(sorted[0], op, op);
      var all := InsertRoute(op, more);
      forall x | x in all ensures !Before(x, sorted[0]) {
        if x != op {
          var k :| 0 <= k < |more| && more[k] == x;
          assert sorted[k + 1] == x;
        }
      }
    }
  }

  lemma {:induction false} RoutesAreOrdered(ops: seq<Operation>)
    ensures Ordered(Routes(ops)) && forall x :: x in Routes(ops) <==> x in ops
  {
    if ops != [] {
      assert ops == [ops[0]] + ops[1..];
      RoutesAreOrdered(ops[1..]);
      InsertKeepsOrder(ops[0], Routes(ops[1..]));
    }
  }

  /** Dispatch takes the first route that answers. */
  lemma {:induction false} DispatchIsFirst(routes: seq<Operation>, verb: string, route: string)
    ensures var d := Dispatch(routes, verb, route);
            if d.None? then forall op | op in routes :: !(op.verb == verb && Answers(op.path, route))
            else exists k :: 0 <= k < |routes| && routes[k] == d.value && d.value.verb == verb && Answers(d.value.path, route)
                             && forall j | 0 <= j < k :: !(routes[j].verb == verb && Answers(routes[j].path, route))
  {
    hide Answers;
    if routes != [] && !(routes[0].verb == verb && Answers(routes[0].path, route)) {
      var more := routes[1..];
      assert routes == [routes[0]] + more;
      DispatchIsFirst(more, verb, route);
      var d := Dispatch(more, verb, route);
      if d.Some? {
        var k :| 0 <= k < |more| && more[k] == d.value && d.value.verb == verb && Answers(d.value.path, route)
                 && forall j | 0 <= j < k :: !(more[j].verb == verb && Answers(more[j].path, route));
        assert routes[k + 1] == d.value;
        forall j | 0 <= j < k + 1 ensures !(routes[j].verb == verb && Answers(routes[j].path, route)) {
          if j > 0 { assert routes[j] == more[j - 1]; }
        }
      }
    }
  }

  lemma {:induction false} NoMarkNoVariable(path: string, k: nat)
    requires TemplateCount(path) == 0 && k < |Segments(path)|
    ensures !IsVariable(Segments(path)[k])
    decreases |path|
  {
    NoMarkNoBrace(path);
    var i := Slash(path);
    if k == 0 {
      assert path[..|path|] == path;
      assert forall c | c in path[..i] :: c in path;
    } else {
      NoBraceNoMark(path[i + 1..], path);
      NoMarkNoVariable(path[i + 1..], k - 1);
    }
  }

  lemma {:induction false} NoMarkNoBrace(path: string)
    requires TemplateCount(path) == 0
    ensures '{' !in path
  {
    if path != "" {
      NoMarkNoBrace(path[1..]);
      assert path == [path[0]] + path[1..];
    }
  }

  lemma {:induction false} NoBraceNoMark(path: string, whole: string)
    requires '{' !in whole && forall c | c in path :: c in whole
    ensures TemplateCount(path) == 0
  {
    if path != "" {
      assert path[0] in path;
      assert forall c | c in path[1..] :: c in path;
      NoBraceNoMark(path[1..], whole);
    }
  }

  lemma {:induction false} SegmentsDiffer(a: string, b: string)
    requires Segments(a) == Segments(b)
    ensures a == b
    decreases |a|
  {
    FirstSegment(a);
    FirstSegment(b);
    hide Slash, Segments;
    var i, j := Slash(a), Slash(b);
    if i < |a| && j < |b| {
      SegmentsDiffer(a[i + 1..], b[j + 1..]);
    }
  }

  lemma FirstSegment(s: string)
    ensures var i := Slash(s);
            if i == |s| then Segments(s) == [s]
            else && |Segments(s)| > 1 && Segments(s)[0] == s[..i] && Segments(s)[1..] == Segments(s[i + 1..])
                 && s == s[..i] + (['/'] + s[i + 1..])
  {
    hide Slash;
    if Slash(s) < |s| { Rejoin(s, Slash(s)); }
  }

  lemma Rejoin(s: string, i: nat)
    requires i < |s| && s[i] == '/'
    ensures s == s[..i] + (['/'] + s[i + 1..])
  {}

  /** A path without template marks answers itself alone. */
  lemma PlainPathAnswersItself(path: string, route: string)
    requires TemplateCount(path) == 0
    ensures Answers(path, route) <==> path == route
  {
    hide Answers, IsVariable;
    AnswersBySegment(path, route);
    var t, r := Segments(path), Segments(route);
    forall k | 0 <= k < |t| ensures !IsVariable(t[k]) { NoMarkNoVariable(path, k); }
    if SegmentsAnswer(t, r) {
      forall k | 0 <= k < |t| ensures t[k] == r[k] { assert SegmentAnswers(t[k], r[k]); }
      assert t == r;
      SegmentsDiffer(path, route);
    }
  }

  // ---- Serving and offering ----

  /** The entry points in use: the document recorded, and every operation priced. */
  predicate Boots(doc: Document, permissions: map<string, string>) {
    && Sound(doc) && !Nameless(doc) && DistinctIds(Operations(doc))
    && (forall op | op in Operations(doc) :: op.id in permissions)
    && (forall id | id in permissions :: exists op | op in Operations(doc) :: op.id == id)
  }

  /** What a request reaches upstream, for a caller holding these permissions. */
  function Serve(doc: Document, permissions: map<string, string>, can: string -> bool, specPath: string,
                 verb: string, route: string): Option<Operation>
  {
    if route == specPath then None
    else
      var matched := Dispatch(Routes(Operations(doc)), verb, route);
      if matched.Some? && matched.value.id in permissions && can(permissions[matched.value.id]) then matched else None
  }

  predicate Permitted(permissions: map<string, string>, can: string -> bool, node: Node) {
    node.Object? && node.id.Some? && node.id.value in permissions && can(permissions[node.id.value])
  }

  function FilterItem(item: seq<Entry>, permissions: map<string, string>, can: string -> bool): seq<Entry> {
    if item == [] then []
    else
      (if item[0].key in METHODS && !Permitted(permissions, can, item[0].node) then [] else [item[0]])
      + FilterItem(item[1..], permissions, can)
  }

  predicate AnyKept(item: seq<Entry>, permissions: map<string, string>, can: string -> bool) {
    exists e | e in item :: e.key in METHODS && Permitted(permissions, can, e.node)
  }

  /** The document as this caller sees it. */
  function FilterSpec(doc: Document, permissions: map<string, string>, can: string -> bool): Document {
    if doc == [] then []
    else
      (if doc[0].item.Some? && AnyKept(doc[0].item.value, permissions, can)
       then [PathEntry(doc[0].path, Some(FilterItem(doc[0].item.value, permissions, can)))] else [])
      + FilterSpec(doc[1..], permissions, can)
  }

  /** The loops that fill the caller's document. */
  method FilterDocument(doc: Document, permissions: map<string, string>, can: string -> bool) returns (paths: Document)
    ensures paths == FilterSpec(doc, permissions, can)
  {
    hide FilterItem, AnyKept, FilterSpec;
    paths := [];
    ghost var whole := FilterSpec(doc, permissions, can);
    assert doc[0..] == doc && [] + whole == whole;
    for i := 0 to |doc|
      invariant paths + FilterSpec(doc[i..], permissions, can) == whole
    {
      FilterSpecStep(doc, i, permissions, can);
      if doc[i].item.None? { continue; }
      var kept, any := KeepEntries(doc[i].item.value, permissions, can);
      if any { paths := paths + [PathEntry(doc[i].path, Some(kept))]; }
    }
    NothingFiltered(permissions, can);
    assert doc[|doc|..] == [] && paths + [] == paths;
  }

  lemma FilterSpecStep(doc: Document, i: nat, permissions: map<string, string>, can: string -> bool)
    requires i < |doc|
    ensures var item := doc[i].item;
            FilterSpec(doc[i..], permissions, can)
            == (if item.Some? && AnyKept(item.value, permissions, can)
                then [PathEntry(doc[i].path, Some(FilterItem(item.value, permissions, can)))] else [])
               + FilterSpec(doc[i + 1..], permissions, can)
  {
    hide FilterItem, AnyKept;
    assert doc[i..][0] == doc[i] && doc[i..][1..] == doc[i + 1..];
  }

  lemma NothingFiltered(permissions: map<string, string>, can: string -> bool)
    ensures FilterSpec([], permissions, can) == []
  {}

  method KeepEntries(item: seq<Entry>, permissions: map<string, string>, can: string -> bool)
    returns (kept: seq<Entry>, any: bool)
    ensures kept == FilterItem(item, permissions, can) && any == AnyKept(item, permissions, can)
  {
    hide FilterItem, AnyKept, Permitted;
    kept, any := [], false;
    assert item[0..] == item && [] + FilterItem(item, permissions, can) == FilterItem(item, permissions, can);
    NothingKept(permissions, can);
    for i := 0 to |item|
      invariant kept + FilterItem(item[i..], permissions, can) == FilterItem(item, permissions, can)
      invariant any == AnyKept(item[..i], permissions, can)
    {
      var e := item[i];
      FilterItemStep(item, i, permissions, can);
      AnyKeptStep(item[..i], e, permissions, can);
      assert item[..i + 1] == item[..i] + [e];
      if e.key !in METHODS {
        kept := kept + [e];
      } else if Permitted(permissions, can, e.node) {
        kept := kept + [e];
        any := true;
      }
    }
    assert item[|item|..] == [] && item[..|item|] == item && kept + [] == kept;
  }

  lemma FilterItemStep(item: seq<Entry>, i: nat, permissions: map<string, string>, can: string -> bool)
    requires i < |item|
    ensures FilterItem(item[i..], permissions, can)
            == (if item[i].key in METHODS && !Permitted(permissions, can, item[i].node) then [] else [item[i]])
               + FilterItem(item[i + 1..], permissions, can)
  {
    hide Permitted;
    assert item[i..][0] == item[i] && item[i..][1..] == item[i + 1..];
  }

  lemma AnyKeptStep(item: seq<Entry>, e: Entry, permissions: map<string, string>, can: string -> bool)
    ensures AnyKept(item + [e], permissions, can)
            <==> AnyKept(item, permissions, can) || (e.key in METHODS && Permitted(permissions, can, e.node))
  {
    hide Permitted;
    assert forall x :: x in item + [e] <==> x in item || x == e;
  }

  lemma NothingKept(permissions: map<string, string>, can: string -> bool)
    ensures FilterItem([], permissions, can) == [] && !AnyKept([], permissions, can)
  {}

  /** Of a path's entries a caller is left those that are no operation, and the operations the
      caller may use. */
  lemma {:induction false} FilteredEntriesAre(item: seq<Entry>, permissions: map<string, string>, can: string -> bool)
    ensures forall e :: e in FilterItem(item, permissions, can)
              <==> e in item && (e.key in METHODS ==>
                                   e.node.Object? && e.node.id.Some? && e.node.id.value in permissions
                                   && can(permissions[e.node.id.value]))
  {
    if item != [] {
      assert item == [item[0]] + item[1..];
      FilteredEntriesAre(item[1..], permissions, can);
    }
  }

  lemma {:induction false} FilteredLookup(item: seq<Entry>, permissions: map<string, string>, can: string -> bool,
                                          verb: string)
    requires verb in METHODS && DistinctKeys(item)
    ensures var node := Lookup(item, verb);
            Lookup(FilterItem(item, permissions, can), verb) == if Permitted(permissions, can, node) then node else Scalar
    ensures Permitted(permissions, can, Lookup(item, verb)) ==> AnyKept(item, permissions, can)
  {
    if item != [] {
      var more := item[1..];
      assert item == [item[0]] + more;
      forall i, j | 0 <= i < j < |more| ensures more[i].key != more[j].key { assert item[i + 1].key != item[j + 1].key; }
      FilteredLookup(more, permissions, can, verb);
      var kept := FilterItem(item, permissions, can);
      var rest := FilterItem(more, permissions, can);
      assert kept == [item[0]] + rest || kept == rest;
      assert ([item[0]] + rest)[1..] == rest;
      if item[0].key == verb {
        forall k | 0 <= k < |more| ensures more[k].key != verb { assert item[0].key != item[k + 1].key; }
        AbsentLookup(more, verb);
        if Permitted(permissions, can, item[0].node) { assert item[0] in item; }
      } else if AnyKept(more, permissions, can) {
        var e :| e in more && e.key in METHODS && Permitted(permissions, can, e.node);
        assert e in item;
      }
    }
  }

  lemma {:induction false} AbsentLookup(item: seq<Entry>, key: string)
    requires forall k | 0 <= k < |item| :: item[k].key != key
    ensures Lookup(item, key) == Scalar
  {
    if item != [] {
      forall k | 0 <= k < |item[1..]| ensures item[1..][k].key != key { assert item[k + 1].key != key; }
      AbsentLookup(item[1..], key);
    }
  }

  /** The filtered document describes exactly the described operations the caller may use. */
  lemma {:induction false} FilteredDescribes(doc: Document, permissions: map<string, string>, can: string -> bool,
                                             op: Operation)
    requires Sound(doc)
    ensures Describes(FilterSpec(doc, permissions, can), op) <==>
            Describes(doc, op) && op.id in permissions && can(permissions[op.id])
  {
    if doc != [] {
      hide Lookup, AnyKept, FilterItem;
      var head, more := doc[0], doc[1..];
      assert doc == [head] + more;
      SoundTail(doc);
      FilteredDescribes(more, permissions, can, op);
      DescribesCons(head, more, op);
      if head.item.Some? && op.verb in METHODS {
        assert head in doc;
        FilteredLookup(head.item.value, permissions, can, op.verb);
        if AnyKept(head.item.value, permissions, can) {
          DescribesCons(PathEntry(head.path, Some(FilterItem(head.item.value, permissions, can))),
                        FilterSpec(more, permissions, can), op);
        }
      }
      assert [] + FilterSpec(more, permissions, can) == FilterSpec(more, permissions, can);
    }
  }

  lemma SoundTail(doc: Document)
    requires Sound(doc) && doc != []
    ensures Sound(doc[1..])
  {
    assert forall p | p in doc[1..] :: p in doc;
  }

  lemma DescribesCons(head: PathEntry, more: Document, op: Operation)
    ensures Describes([head] + more, op) <==>
            || Describes(more, op)
            || (op.verb in METHODS && head.path == op.path && head.item.Some?
                && Lookup(head.item.value, op.verb) == Object(Some(op.id)))
  {
    hide Lookup;
    var all := [head] + more;
    if Describes(more, op) {
      var p :| p in more && p.path == op.path && p.item.Some? && Lookup(p.item.value, op.verb) == Object(Some(op.id));
      assert p in all;
    }
    if Describes(all, op) {
      var p :| p in all && p.path == op.path && p.item.Some? && Lookup(p.item.value, op.verb) == Object(Some(op.id));
      if p != head { assert p in more; }
    }
    assert head in all;
  }

  /** Whatever reaches the API is an operation the caller's own document describes. */
  lemma ServedIsOffered(doc: Document, permissions: map<string, string>, can: string -> bool, specPath: string,
                        verb: string, route: string)
    requires Boots(doc, permissions)
    requires Serve(doc, permissions, can, specPath, verb, route).Some?
    ensures var op := Serve(doc, permissions, can, specPath, verb, route).value;
            && Describes(FilterSpec(doc, permissions, can), op)
            && op.verb == verb && SegmentsAnswer(Segments(op.path), Segments(route))
  {
    hide Answers, FilterSpec, Describes;
    var op := Serve(doc, permissions, can, specPath, verb, route).value;
    DispatchIsFirst(Routes(Operations(doc)), verb, route);
    RoutesAreOrdered(Operations(doc));
    OperationsAreDescribed(doc);
    FilteredDescribes(doc, permissions, can, op);
    AnswersBySegment(op.path, route);
  }

  lemma {:induction false} MarksAre(path: string)
    ensures TemplateCount(path) == multiset(path)['{']
  {
    if path != "" {
      MarksAre(path[1..]);
      assert path == [path[0]] + path[1..];
      assert multiset(path) == multiset([path[0]]) + multiset(path[1..]);
    }
  }

  /** A described operation that answers a request, segment by segment. */
  predicate Answering(doc: Document, verb: string, route: string, op: Operation) {
    Describes(doc, op) && op.verb == verb && SegmentsAnswer(Segments(op.path), Segments(route))
  }

  /** None that answers has fewer opening braces, nor as many in a longer path. */
  ghost predicate Closest(doc: Document, verb: string, route: string, op: Operation) {
    && Answering(doc, verb, route, op)
    && forall x | Answering(doc, verb, route, x) ::
         || multiset(op.path)['{'] < multiset(x.path)['{']
         || (multiset(op.path)['{'] == multiset(x.path)['{'] && |op.path| >= |x.path|)
  }

  predicate MayUse(permissions: map<string, string>, can: string -> bool, op: Operation) {
    op.id in permissions && can(permissions[op.id])
  }

  lemma DispatchIsClosest(doc: Document, verb: string, route: string)
    ensures var d := Dispatch(Routes(Operations(doc)), verb, route);
            if d.Some? then Closest(doc, verb, route, d.value) else forall x :: !Answering(doc, verb, route, x)
  {
    var routes := Routes(Operations(doc));
    OperationsAreDescribed(doc);
    RoutesAreOrdered(Operations(doc));
    DispatchIsFirst(routes, verb, route);
    hide Describes, Operations, Routes, Dispatch, Answers, Segments, SegmentsAnswer, TemplateCount;
    forall x: Operation ensures Answers(x.path, route) <==> SegmentsAnswer(Segments(x.path), Segments(route)) {
      AnswersBySegment(x.path, route);
    }
    var d := Dispatch(routes, verb, route);
    if d.Some? {
      var k :| 0 <= k < |routes| && routes[k] == d.value && d.value.verb == verb && Answers(d.value.path, route)
               && forall j | 0 <= j < k :: !(routes[j].verb == verb && Answers(routes[j].path, route));
      MarksAre(d.value.path);
      forall x | Answering(doc, verb, route, x)
        ensures || multiset(d.value.path)['{'] < multiset(x.path)['{']
                || (multiset(d.value.path)['{'] == multiset(x.path)['{'] && |d.value.path| >= |x.path|)
      {
        MarksAre(x.path);
        var m :| 0 <= m < |routes| && routes[m] == x;
        assert k <= m;
        assert k < m ==> !Before(routes[m], routes[k]);
      }
    }
  }

  /** A request is served by a closest operation, which the caller may use; and goes unserved
      only when it asks for the document, nothing described answers it, or a closest operation
      is one the caller may not use. */
  lemma ServedExactly(doc: Document, permissions: map<string, string>, can: string -> bool, specPath: string,
                      verb: string, route: string)
    ensures var served := Serve(doc, permissions, can, specPath, verb, route);
            if served.Some? then
              route != specPath && Closest(doc, verb, route, served.value) && MayUse(permissions, can, served.value)
            else
              || route == specPath
              || (forall op :: !Answering(doc, verb, route, op))
              || exists op :: Closest(doc, verb, route, op) && !MayUse(permissions, can, op)
  {
    DispatchIsClosest(doc, verb, route);
    hide Closest, Answering, Dispatch, Routes, Operations;
  }

  /** An offered operation on a path without template marks is served by a request that has
      that path, whatever the order of the document, unless the path is the document's own. */
  lemma PlainPathIsServed(doc: Document, permissions: map<string, string>, can: string -> bool, specPath: string,
                          op: Operation)
    requires Boots(doc, permissions)
    requires Describes(FilterSpec(doc, permissions, can), op)
    requires TemplateCount(op.path) == 0
    ensures Serve(doc, permissions, can, specPath, op.verb, op.path)
            == if op.path == specPath then None else Some(op)
  {
    hide Answers, FilterSpec, Describes, Before;
    var routes := Routes(Operations(doc));
    FilteredDescribes(doc, permissions, can, op);
    OperationsAreDescribed(doc);
    RoutesAreOrdered(Operations(doc));
    hide Dispatch, Ordered, Operations, Routes, DistinctIds, Nameless, Sound, TemplateCount;
    PlainRouteIsFirst(routes, op);
    var d := Dispatch(routes, op.verb, op.path);
    assert d.value in Operations(doc);
    IdsAreOneToOne(doc, d.value, op);
  }

  /** A request for a path arrives as the path its URL then has, which spells some
      characters differently. So asking for such an operation's own path reaches it exactly
      when that path arrives as written and is not the document's own. */
  lemma OfferedIsServed(doc: Document, permissions: map<string, string>, can: string -> bool, specPath: string,
                        op: Operation, arrives: string -> string)
    requires Boots(doc, permissions)
    requires Describes(FilterSpec(doc, permissions, can), op)
    requires TemplateCount(op.path) == 0
    ensures Serve(doc, permissions, can, specPath, op.verb, arrives(op.path)) == Some(op)
            <==> arrives(op.path) == op.path && op.path != specPath
  {
    PlainPathIsServed(doc, permissions, can, specPath, op);
    var route := arrives(op.path);
    if Serve(doc, permissions, can, specPath, op.verb, route) == Some(op) {
      DispatchIsFirst(Routes(Operations(doc)), op.verb, route);
      hide Boots, FilterSpec, Describes, Dispatch, Answers;
      PlainPathAnswersItself(op.path, route);
    }
  }

  /** Where routes are ordered by their template marks, dispatch by a plain path finds a
      route of that very path. */
  lemma PlainRouteIsFirst(routes: seq<Operation>, op: Operation)
    requires Ordered(routes) && op in routes && TemplateCount(op.path) == 0
    ensures var d := Dispatch(routes, op.verb, op.path);
            d.Some? && d.value in routes && d.value.verb == op.verb && d.value.path == op.path
  {
    PlainPathAnswersItself(op.path, op.path);
    DispatchIsFirst(routes, op.verb, op.path);
    hide Answers, Dispatch;
    var d := Dispatch(routes, op.verb, op.path);
    var k :| 0 <= k < |routes| && routes[k] == d.value && d.value.verb == op.verb && Answers(d.value.path, op.path)
             && forall j | 0 <= j < k :: !(routes[j].verb == op.verb && Answers(routes[j].path, op.path));
    var m :| 0 <= m < |routes| && routes[m] == op;
    assert k <= m;
    assert k < m ==> !Before(routes[m], routes[k]);
    assert TemplateCount(routes[k].path) <= TemplateCount(routes[m].path);
    PlainPathAnswersItself(d.value.path, op.path);
  }
}
