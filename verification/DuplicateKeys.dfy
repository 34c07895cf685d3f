/** Refusing JSON that parsers read differently: a one-pass scan over the text decides
    whether some object in it repeats a name. */
module DuplicateKeys {
  import opened JsonText

  /** Two members of one object, anywhere in the tree, have the same unescaped name. */
  predicate RepeatsName(v: Json)
    decreases v
  {
    match v
    case Literal(_) => false
    case Str(_) => false
    case Arr(_, items) => exists i | i in items :: ItemRepeats(i)
    case Obj(_, members) =>
      || (exists i, j | 0 <= i < j < |members| :: NameOf(members[i]) == NameOf(members[j]))
      || (exists m | m in members :: MemberRepeats(m))
  }

  predicate ItemRepeats(i: Item)
    decreases i
  {
    RepeatsName(i.value)
  }

  predicate MemberRepeats(m: Member)
    decreases m
  {
    RepeatsName(m.value)
  }

  // ---- The scan, as a function of the text still to read ----

  /** An open container: an object with the names seen in it, or an array. */
  datatype Scope = InObject(names: set<Units>) | InArray
  datatype Verdict = Repeated | AllDistinct | Unclosed

  /** Where a string's closing quote is, stepping over escapes in twos. */
  function StringEnd(s: string, i: nat): (end: nat)
    ensures i <= end
    decreases |s| - i
  {
    if i >= |s| || s[i] == '"' then i
    else StringEnd(s, i + if s[i] == '\\' then 2 else 1)
  }

  function SkipWs(s: string, i: nat): (next: nat)
    ensures i <= next && (i <= |s| ==> next <= |s|)
    decreases |s| - i
  {
    if i < |s| && IsWs(s[i]) then SkipWs(s, i + 1) else i
  }

  /** Whether the next character that is not whitespace is a colon. */
  predicate ColonNext(s: string) {
    SkipWs(s, 0) < |s| && s[SkipWs(s, 0)] == ':'
  }

  predicate InsideObject(scopes: seq<Scope>) {
    scopes != [] && scopes[|scopes| - 1].InObject?
  }

  function Pop(scopes: seq<Scope>): seq<Scope> {
    if scopes == [] then [] else scopes[..|scopes| - 1]
  }

  function Scan(s: string, scopes: seq<Scope>): Verdict
    decreases |s|
  {
    if s == "" then AllDistinct
    else match s[0]
      case '{' => Scan(s[1..], scopes + [InObject({})])
      case '[' => Scan(s[1..], scopes + [InArray])
      case '}' => Scan(s[1..], Pop(scopes))
      case ']' => Scan(s[1..], Pop(scopes))
      case '"' => ScanString(s, scopes)
      case _ => Scan(s[1..], scopes)
  }

  function ScanString(s: string, scopes: seq<Scope>): Verdict
    requires s != "" && s[0] == '"'
    decreases |s|, 0
  {
    var end := StringEnd(s, 1);
    if end >= |s| then Unclosed
    else
      var rest := s[end + 1..];
      if InsideObject(scopes) && ColonNext(rest) then
        var names := scopes[|scopes| - 1].names;
        var name := Unescape(s[1..end]);
        if name in names then Repeated
        else Scan(rest, Pop(scopes) + [InObject(names + {name})])
      else Scan(rest, scopes)
  }

  // ---- One token at a time ----

  lemma {:induction false} StringEndShift(a: string, b: string, i: nat)
    ensures StringEnd(a + b, |a| + i) == |a| + StringEnd(b, i)
    decreases |b| - i
  {
    if i < |b| && b[i] != '"' {
      StringEndShift(a, b, i + if b[i] == '\\' then 2 else 1);
    }
  }

  /** Inside a valid raw text no quote closes the string; the one after it does. */
  lemma {:induction false} RawIsClosed(raw: string, rest: string)
    requires ValidRaw(raw)
    ensures StringEnd(raw + "\"" + rest, 0) == |raw|
    decreases |raw|
  {
    var s := raw + "\"" + rest;
    if raw == "" {
    } else if IsPlain(raw[0]) && ValidRaw(raw[1..]) {
      RawStep(raw, 1, rest);
      assert StringEnd(s, 0) == StringEnd(s, 1);
    } else if IsShortEscape(raw) && ValidRaw(raw[2..]) {
      RawStep(raw, 2, rest);
      assert StringEnd(s, 0) == StringEnd(s, 2);
    } else {
      RawStep(raw, 6, rest);
      assert s[0] == '\\';
      assert StringEnd(s, 0) == StringEnd(s, 2);
      assert StringEnd(s, 2) == StringEnd(s, 3);
      assert StringEnd(s, 3) == StringEnd(s, 4);
      assert StringEnd(s, 4) == StringEnd(s, 5);
      assert StringEnd(s, 5) == StringEnd(s, 6);
    }
  }

  lemma RawStep(raw: string, n: nat, rest: string)
    requires 0 < n <= |raw| && ValidRaw(raw[n..])
    ensures StringEnd(raw + "\"" + rest, n) == |raw|
    decreases |raw|, 0
  {
    RawIsClosed(raw[n..], rest);
    assert raw + "\"" + rest == raw[..n] + (raw[n..] + "\"" + rest);
    StringEndShift(raw[..n], raw[n..] + "\"" + rest, 0);
  }

  /** A quoted string is read whole. */
  lemma ScanQuoted(raw: string, rest: string, scopes: seq<Scope>)
    requires ValidRaw(raw)
    ensures Scan("\"" + raw + "\"" + rest, scopes)
            == if InsideObject(scopes) && ColonNext(rest) then
                 var names := scopes[|scopes| - 1].names;
                 if Unescape(raw) in names then Repeated
                 else Scan(rest, Pop(scopes) + [InObject(names + {Unescape(raw)})])
               else Scan(rest, scopes)
  {
    var s := "\"" + raw + "\"" + rest;
    assert s == "\"" + (raw + "\"" + rest);
    RawIsClosed(raw, rest);
    StringEndShift("\"", raw + "\"" + rest, 0);
    assert StringEnd(s, 1) == |raw| + 1;
    assert s[1..|raw| + 1] == raw;
    assert s[|raw| + 2..] == rest;
  }

  predicate IsFiller(c: char) {
    c !in {'{', '}', '[', ']', '"'}
  }

  /** Characters that are no bracket and no quote change nothing. */
  lemma {:induction false} ScanFiller(filler: string, rest: string, scopes: seq<Scope>)
    requires forall c | c in filler :: IsFiller(c)
    ensures Scan(filler + rest, scopes) == Scan(rest, scopes)
  {
    if filler == "" {
      assert filler + rest == rest;
    } else {
      assert filler[0] in filler;
      assert forall c | c in filler[1..] :: c in filler;
      assert (filler + rest)[1..] == filler[1..] + rest;
      ScanFiller(filler[1..], rest, scopes);
    }
  }

  lemma {:induction false} SkipsBlank(ws: string, rest: string)
    requires Blank(ws)
    ensures ColonNext(ws + rest) == ColonNext(rest)
    decreases |ws|
  {
    if ws == "" {
      assert ws + rest == rest;
    } else {
      assert ws[0] in ws;
      assert forall c | c in ws[1..] :: c in ws;
      var s := ws + rest;
      SkipWsShift(ws[..1], ws[1..] + rest, 0);
      assert s == ws[..1] + (ws[1..] + rest);
      SkipsBlank(ws[1..], rest);
    }
  }

  lemma {:induction false} SkipWsShift(a: string, b: string, i: nat)
    ensures SkipWs(a + b, |a| + i) == |a| + SkipWs(b, i)
    decreases |b| - i
  {
    if i < |b| && IsWs(b[i]) { SkipWsShift(a, b, i + 1); }
  }

  lemma ScanBlank(ws: string, rest: string, scopes: seq<Scope>)
    requires Blank(ws)
    ensures Scan(ws + rest, scopes) == Scan(rest, scopes)
  {
    ScanFiller(ws, rest, scopes);
  }

  lemma ScanChar(c: char, rest: string, scopes: seq<Scope>)
    requires c != '"'
    ensures Scan([c] + rest, scopes)
            == match c
               case '{' => Scan(rest, scopes + [InObject({})])
               case '[' => Scan(rest, scopes + [InArray])
               case '}' => Scan(rest, Pop(scopes))
               case ']' => Scan(rest, Pop(scopes))
               case _ => Scan(rest, scopes)
  {
    assert ([c] + rest)[1..] == rest;
  }

  // ---- Values ----

  /** A name among those given, or repeated among the members, or repeated inside one. */
  predicate Clash(members: seq<Member>, names: set<Units>)
    decreases |members|
  {
    members != [] &&
    (|| NameOf(members[0]) in names
     || RepeatsName(members[0].value)
     || Clash(members[1..], names + {NameOf(members[0])}))
  }

  predicate AnyItem(items: seq<Item>)
    decreases |items|
  {
    items != [] && (RepeatsName(items[0].value) || AnyItem(items[1..]))
  }

  function Then(found: bool, rest: Verdict): Verdict {
    if found then Repeated else rest
  }

  /** Scanning past a value finds the names it repeats and leaves the scopes as they were:
      the stack always holds exactly the containers around the value being read. */
  lemma {:induction false} ScanValue(v: Json, rest: string, scopes: seq<Scope>)
    requires Valid(v)
    requires v.Str? && InsideObject(scopes) ==> !ColonNext(rest)
    ensures Scan(Print(v) + rest, scopes) == Then(RepeatsName(v), Scan(rest, scopes))
    decreases v, 1
  {
    match v
    case Literal(text) =>
      ScanFiller(text, rest, scopes);
    case Str(raw) =>
      ScanQuoted(raw, rest, scopes);
    case Arr(inner, items) =>
      ScanArray(v, rest, scopes);
    case Obj(inner, members) =>
      ScanObject(v, rest, scopes);
  }

  lemma ScanArray(v: Json, rest: string, scopes: seq<Scope>)
    requires v.Arr? && Valid(v)
    ensures Scan(Print(v) + rest, scopes) == Then(RepeatsName(v), Scan(rest, scopes))
    decreases v, 0
  {
    hide Scan;
    var inside := scopes + [InArray];
    var body := if v.items == [] then v.inner else PrintItems(v.items);
    assert Print(v) + rest == ['['] + (body + "]" + rest);
    ScanChar('[', body + "]" + rest, scopes);
    if v.items == [] {
      assert body + "]" + rest == v.inner + ([']'] + rest);
      ScanBlank(v.inner, [']'] + rest, inside);
      ScanChar(']', rest, inside);
    } else {
      ScanItems(v.items, rest, scopes);
    }
    AnyItemIsExists(v.items);
    assert Pop(inside) == scopes;
  }

  lemma {:induction false} ScanItems(items: seq<Item>, rest: string, scopes: seq<Scope>)
    requires items != [] && forall i | i in items :: ValidItem(i)
    ensures Scan(PrintItems(items) + "]" + rest, scopes + [InArray])
            == Then(AnyItem(items), Scan(rest, scopes))
    decreases items, 0
  {
    hide Scan, RepeatsName, Valid;
    var inside := scopes + [InArray];
    var item := items[0];
    assert item in items;
    var more := if |items| == 1 then "]" + rest else "," + (PrintItems(items[1..]) + "]" + rest);
    assert PrintItems(items) + "]" + rest == item.before + (Print(item.value) + (item.after + more));
    ScanBlank(item.before, Print(item.value) + (item.after + more), inside);
    ScanValue(item.value, item.after + more, inside);
    ScanBlank(item.after, more, inside);
    if |items| == 1 {
      ScanChar(']', rest, inside);
      assert "]" + rest == [']'] + rest;
      assert Pop(inside) == scopes;
      assert !AnyItem(items[1..]);
    } else {
      assert more == [','] + (PrintItems(items[1..]) + "]" + rest);
      ScanChar(',', PrintItems(items[1..]) + "]" + rest, inside);
      assert forall i | i in items[1..] :: i in items;
      ScanItems(items[1..], rest, scopes);
    }
  }

  lemma ScanObject(v: Json, rest: string, scopes: seq<Scope>)
    requires v.Obj? && Valid(v)
    ensures Scan(Print(v) + rest, scopes) == Then(RepeatsName(v), Scan(rest, scopes))
    decreases v, 0
  {
    hide Scan;
    var inside := scopes + [InObject({})];
    var body := if v.members == [] then v.inner else PrintMembers(v.members);
    assert Print(v) + rest == ['{'] + (body + "}" + rest);
    ScanChar('{', body + "}" + rest, scopes);
    if v.members == [] {
      assert body + "}" + rest == v.inner + (['}'] + rest);
      ScanBlank(v.inner, ['}'] + rest, inside);
      ScanChar('}', rest, inside);
    } else {
      ScanMembers(v.members, {}, rest, scopes);
    }
    ClashIsExists(v.members, {});
    assert Pop(inside) == scopes;
  }

  lemma {:induction false} ScanMembers(members: seq<Member>, names: set<Units>, rest: string, scopes: seq<Scope>)
    requires members != [] && forall m | m in members :: ValidMember(m)
    ensures Scan(PrintMembers(members) + "}" + rest, scopes + [InObject(names)])
            == Then(Clash(members, names), Scan(rest, scopes))
    decreases members, 0
  {
    hide Scan, RepeatsName, Valid, Clash;
    var m := members[0];
    assert m in members;
    var grown := names + {NameOf(m)};
    var inside := scopes + [InObject(grown)];
    var more := if |members| == 1 then "}" + rest else "," + (PrintMembers(members[1..]) + "}" + rest);
    assert PrintMembers(members) + "}" + rest == PrintMember(m) + more;
    ScanName(m, more, names, scopes);
    if NameOf(m) !in names {
      NotColon(m.after, more);
      ScanValue(m.value, m.after + more, inside);
      ScanBlank(m.after, more, inside);
      if |members| == 1 {
        assert "}" + rest == ['}'] + rest;
        ScanChar('}', rest, inside);
        assert Pop(inside) == scopes;
      } else {
        assert more == [','] + (PrintMembers(members[1..]) + "}" + rest);
        ScanChar(',', PrintMembers(members[1..]) + "}" + rest, inside);
        assert forall n | n in members[1..] :: n in members;
        ScanMembers(members[1..], grown, rest, scopes);
      }
    }
    UnfoldClash(members, names);
  }

  lemma UnfoldClash(members: seq<Member>, names: set<Units>)
    requires members != []
    ensures Clash(members, names)
            == (|| NameOf(members[0]) in names
                || RepeatsName(members[0].value)
                || (|members| > 1 && Clash(members[1..], names + {NameOf(members[0])})))
  {}

  lemma NotColon(ws: string, more: string)
    requires Blank(ws) && more != "" && (more[0] == ',' || more[0] == '}')
    ensures !ColonNext(ws + more)
  {
    SkipsBlank(ws, more);
  }

  /** A member's name is read as a name, and its colon and whitespace are passed over. */
  lemma ScanName(m: Member, more: string, names: set<Units>, scopes: seq<Scope>)
    requires ValidMember(m)
    ensures Scan(PrintMember(m) + more, scopes + [InObject(names)])
            == if NameOf(m) in names then Repeated
               else Scan(Print(m.value) + (m.after + more), scopes + [InObject(names + {NameOf(m)})])
  {
    hide Scan, Print;
    var outside := scopes + [InObject(names)];
    var inside := scopes + [InObject(names + {NameOf(m)})];
    var value := Print(m.value) + (m.after + more);
    var afterName := m.colon + ([':'] + (m.gap + value));
    assert PrintMember(m) + more == m.before + ("\"" + m.raw + "\"" + afterName);
    ScanBlank(m.before, "\"" + m.raw + "\"" + afterName, outside);
    SkipsBlank(m.colon, [':'] + (m.gap + value));
    assert SkipWs([':'] + (m.gap + value), 0) == 0;
    ScanQuoted(m.raw, afterName, outside);
    assert Pop(outside) == scopes;
    ScanBlank(m.colon, [':'] + (m.gap + value), inside);
    ScanChar(':', m.gap + value, inside);
    ScanBlank(m.gap, value, inside);
  }

  // ---- The scan's conditions are the tree's ----

  lemma {:induction false} AnyItemIsExists(items: seq<Item>)
    ensures AnyItem(items) <==> exists i | i in items :: ItemRepeats(i)
  {
    if items != [] {
      AnyItemIsExists(items[1..]);
      assert items == [items[0]] + items[1..];
      if AnyItem(items) {
        if RepeatsName(items[0].value) { assert ItemRepeats(items[0]) && items[0] in items; }
      } else {
        forall i | i in items ensures !ItemRepeats(i) {}
      }
    }
  }

  predicate SomePair(members: seq<Member>) {
    exists i, j | 0 <= i < j < |members| :: NameOf(members[i]) == NameOf(members[j])
  }

  predicate SomeIn(members: seq<Member>, names: set<Units>) {
    exists i | 0 <= i < |members| :: NameOf(members[i]) in names
  }

  predicate SomeMember(members: seq<Member>) {
    exists m | m in members :: MemberRepeats(m)
  }

  lemma {:induction false} ClashIsExists(members: seq<Member>, names: set<Units>)
    ensures Clash(members, names) <==> SomeIn(members, names) || SomePair(members) || SomeMember(members)
    decreases |members|
  {
    if members != [] {
      hide RepeatsName, NameOf;
      var more := members[1..];
      var grown := names + {NameOf(members[0])};
      ClashIsExists(more, grown);
      HeadMember(members);
      HeadName(members, names);
      HeadPair(members, names);
    }
  }

  lemma HeadMember(members: seq<Member>)
    requires members != []
    ensures SomeMember(members) <==> RepeatsName(members[0].value) || SomeMember(members[1..])
  {
    assert members == [members[0]] + members[1..];
    if RepeatsName(members[0].value) { assert MemberRepeats(members[0]); }
    if SomeMember(members[1..]) {
      var m :| m in members[1..] && MemberRepeats(m);
      assert m in members;
    }
  }

  lemma HeadName(members: seq<Member>, names: set<Units>)
    requires members != []
    ensures SomeIn(members, names) <==> NameOf(members[0]) in names || SomeIn(members[1..], names)
  {
    hide NameOf;
    if SomeIn(members[1..], names) {
      var i :| 0 <= i < |members[1..]| && NameOf(members[1..][i]) in names;
      assert members[i + 1] == members[1..][i];
    }
    if SomeIn(members, names) {
      var i :| 0 <= i < |members| && NameOf(members[i]) in names;
      if i > 0 { assert members[1..][i - 1] == members[i]; }
    }
  }

  /** A name seen at the head, met again later, is a pair. */
  lemma HeadPair(members: seq<Member>, names: set<Units>)
    requires members != []
    ensures var more, grown := members[1..], names + {NameOf(members[0])};
            SomeIn(more, grown) || SomePair(more) <==> SomeIn(more, names) || SomePair(members)
  {
    hide NameOf;
    var more, grown := members[1..], names + {NameOf(members[0])};
    if SomeIn(more, grown) {
      var i :| 0 <= i < |more| && NameOf(more[i]) in grown;
      if NameOf(more[i]) !in names { assert NameOf(members[0]) == NameOf(members[i + 1]); }
    }
    if SomePair(more) {
      var i, j :| 0 <= i < j < |more| && NameOf(more[i]) == NameOf(more[j]);
      assert NameOf(members[i + 1]) == NameOf(members[j + 1]);
    }
    if SomeIn(more, names) {
      var i :| 0 <= i < |more| && NameOf(more[i]) in names;
      assert NameOf(more[i]) in grown;
    }
    if SomePair(members) {
      var i, j :| 0 <= i < j < |members| && NameOf(members[i]) == NameOf(members[j]);
      if i == 0 {
        assert NameOf(more[j - 1]) in grown;
      } else {
        assert NameOf(more[i - 1]) == NameOf(more[j - 1]);
      }
    }
  }

  /** On the text of any document, with whitespace around it, the scan answers exactly
      whether the tree repeats a name, and never runs off an unclosed string. */
  lemma ScanDocument(before: string, v: Json, after: string)
    requires Blank(before) && Valid(v) && Blank(after)
    ensures Scan(before + Print(v) + after, []) == if RepeatsName(v) then Repeated else AllDistinct
  {
    ScanBlank(before, Print(v) + after, []);
    assert before + Print(v) + after == before + (Print(v) + after);
    ScanValue(v, after, []);
    ScanBlank(after, "", []);
    assert after + "" == after;
  }

  // ---- The loop ----

  /** A scan's state as the code keeps it: a position in the text instead of a suffix. */
  method HasDuplicateKey(text: string, ghost before: string, ghost doc: Json, ghost after: string)
    returns (repeats: bool)
    requires Blank(before) && Valid(doc) && Blank(after)
    requires text == before + Print(doc) + after
    ensures repeats <==> RepeatsName(doc)
  {
    hide Scan, ScanString, StringEnd, SkipWs, Unescape, Valid, Print, RepeatsName;
    ScanDocument(before, doc, after);
    var scopes: seq<Scope> := [];
    var i := 0;
    assert text[0..] == text;
    while i < |text|
      invariant 0 <= i <= |text|
      invariant Scan(text[i..], scopes) == Scan(text, [])
    {
      var c := text[i];
      CharAt(text, i, scopes);
      if c == '{' {
        scopes := scopes + [InObject({})];
      } else if c == '[' {
        scopes := scopes + [InArray];
      } else if c == '}' || c == ']' {
        scopes := Pop(scopes);
      } else if c == '"' {
        StringAt(text, i, scopes);
        var end := CloseOf(text, i);
        var next := end + 1;
        while next < |text| && (text[next] == ' ' || text[next] == '\t' || text[next] == '\r' || text[next] == '\n')
          invariant end < next <= |text|
          invariant SkipWs(text, next) == SkipWs(text, end + 1)
        {
          SkipOne(text, next);
          next := next + 1;
        }
        SkipOne(text, next);
        if InsideObject(scopes) && next < |text| && text[next] == ':' {
          var names := scopes[|scopes| - 1].names;
          var key := Unescape(text[i + 1..end]);
          if key in names { return true; }
          scopes := Pop(scopes) + [InObject(names + {key})];
        }
        i := end;
      }
      i := i + 1;
    }
    assert text[|text|..] == "";
    EndOfText(scopes);
    return false;
  }

  /** The inner loop: from an opening quote to the one that closes it. */
  method CloseOf(text: string, i: nat) returns (end: nat)
    requires StringEnd(text, i + 1) < |text|
    ensures end == StringEnd(text, i + 1)
    ensures forall raw, rest | ValidRaw(raw) && text[i + 1..] == raw + "\"" + rest :: end == i + 1 + |raw|
  {
    end := i + 1;
    while text[end] != '"'
      invariant end < |text|
      invariant StringEnd(text, end) == StringEnd(text, i + 1)
      decreases |text| - end
    {
      end := end + if text[end] == '\\' then 2 else 1;
    }
    forall raw, rest | ValidRaw(raw) && text[i + 1..] == raw + "\"" + rest ensures end == i + 1 + |raw| {
      RawIsClosed(raw, rest);
      StringEndShift(text[..i + 1], text[i + 1..], 0);
      assert text[..i + 1] + text[i + 1..] == text;
    }
  }

  lemma EndOfText(scopes: seq<Scope>)
    ensures Scan("", scopes) == AllDistinct
  {}

  lemma SkipOne(text: string, i: nat)
    ensures SkipWs(text, i) == if i < |text| && IsWs(text[i]) then SkipWs(text, i + 1) else i
  {}

  /** One character of the text that is not a quote. */
  lemma CharAt(text: string, i: nat, scopes: seq<Scope>)
    requires i < |text|
    ensures text[i] != '"' ==>
              Scan(text[i..], scopes)
              == Scan(text[i + 1..], match text[i]
                                     case '{' => scopes + [InObject({})]
                                     case '[' => scopes + [InArray]
                                     case '}' => Pop(scopes)
                                     case ']' => Pop(scopes)
                                     case _ => scopes)
  {
    assert text[i..] == [text[i]] + text[i + 1..];
    if text[i] != '"' { ScanChar(text[i], text[i + 1..], scopes); }
  }

  /** One string of the text, by positions. */
  lemma StringAt(text: string, i: nat, scopes: seq<Scope>)
    requires i < |text| && text[i] == '"'
    ensures var end := StringEnd(text, i + 1);
            Scan(text[i..], scopes)
            == if end >= |text| then Unclosed
               else
                 var next := SkipWs(text, end + 1);
                 if InsideObject(scopes) && next < |text| && text[next] == ':' then
                   var names := scopes[|scopes| - 1].names;
                   var key := Unescape(text[i + 1..end]);
                   if key in names then Repeated
                   else Scan(text[end + 1..], Pop(scopes) + [InObject(names + {key})])
                 else Scan(text[end + 1..], scopes)
  {
    hide Unescape, StringEnd, SkipWs, ColonNext, Scan, Pop;
    var s := text[i..];
    var end := StringEnd(text, i + 1);
    QuoteScans(s, scopes);
    StringEndInText(text, i);
    if end < |text| {
      ColonInText(text, end + 1);
      SlicesInText(text, i, StringEnd(s, 1));
    }
  }

  lemma SlicesInText(text: string, i: nat, close: nat)
    requires 1 <= close && i + close < |text|
    ensures text[i..][close + 1..] == text[i + close + 1..] && text[i..][1..close] == text[i + 1..i + close]
  {}

  lemma QuoteScans(s: string, scopes: seq<Scope>)
    requires s != "" && s[0] == '"'
    ensures Scan(s, scopes) == ScanString(s, scopes)
  {
    hide ScanString;
  }

  lemma StringEndInText(text: string, i: nat)
    requires i < |text|
    ensures StringEnd(text, i + 1) == i + StringEnd(text[i..], 1)
  {
    assert text == text[..i] + text[i..];
    StringEndShift(text[..i], text[i..], 1);
  }

  lemma ColonInText(text: string, i: nat)
    requires i <= |text|
    ensures ColonNext(text[i..]) <==> SkipWs(text, i) < |text| && text[SkipWs(text, i)] == ':'
  {
    assert text == text[..i] + text[i..];
    SkipWsShift(text[..i], text[i..], 0);
  }

  /** However two names of an object are spelled, with escapes or without, it repeats a name
      when they mean the same string; and it repeats none of its own when no two do. */
  lemma SpellingsDecide(inner: string, members: seq<Member>, spelled: seq<seq<Spelling>>)
    requires |spelled| == |members|
    requires forall i | 0 <= i < |members| :: (forall p | p in spelled[i] :: Spellable(p)) && members[i].raw == SpellAll(spelled[i])
    requires forall m | m in members :: !RepeatsName(m.value)
    ensures RepeatsName(Obj(inner, members))
            <==> exists i, j | 0 <= i < j < |members| :: MeaningOfAll(spelled[i]) == MeaningOfAll(spelled[j])
  {
    hide SpellAll, MeaningOfAll, Spellable, Unescape, RepeatsName;
    forall i | 0 <= i < |members| ensures NameOf(members[i]) == MeaningOfAll(spelled[i]) { SpellingsAreRead(spelled[i]); }
    OwnNamesDecide(inner, members);
  }

  lemma OwnNamesDecide(inner: string, members: seq<Member>)
    requires forall m | m in members :: !RepeatsName(m.value)
    ensures RepeatsName(Obj(inner, members)) <==> exists i, j | 0 <= i < j < |members| :: NameOf(members[i]) == NameOf(members[j])
  {
    hide Unescape;
  }

  // ---- Why it matters ----

  /** A value as a parser hands it over, where an object is a map from names. */
  datatype Reading =
    | Plain(text: string)
    | Text(units: Units)
    | List(items: seq<Reading>)
    | Fields(fields: map<Units, Reading>)

  /** How a parser reads a document: of members with one name, the last wins or the first. */
  function Read(v: Json, lastWins: bool): Reading
    decreases v, 1
  {
    match v
    case Literal(text) => Plain(text)
    case Str(raw) => Text(Unescape(raw))
    case Arr(_, items) => List(ReadItems(items, lastWins))
    case Obj(_, members) => Fields(ReadMembers(members, lastWins, map[]))
  }

  function ReadItems(items: seq<Item>, lastWins: bool): seq<Reading>
    decreases items, 0
  {
    if items == [] then [] else [ReadItem(items[0], lastWins)] + ReadItems(items[1..], lastWins)
  }

  function ReadItem(item: Item, lastWins: bool): Reading
    decreases item, 2
  {
    Read(item.value, lastWins)
  }

  function ReadMembers(members: seq<Member>, lastWins: bool, soFar: map<Units, Reading>): map<Units, Reading>
    decreases members, 0
  {
    if members == [] then soFar
    else
      var name := NameOf(members[0]);
      ReadMembers(members[1..], lastWins,
                  if !lastWins && name in soFar then soFar else soFar[name := ReadMember(members[0], lastWins)])
  }

  function ReadMember(m: Member, lastWins: bool): Reading
    decreases m, 2
  {
    Read(m.value, lastWins)
  }

  /** A document that passes the scan is read the same way by a parser that keeps the first
      of two equal names and one that keeps the last, at every depth. */
  lemma {:induction false} PassingTextReadsOneWay(v: Json)
    requires !RepeatsName(v)
    ensures Read(v, true) == Read(v, false)
    decreases v, 1
  {
    match v
    case Literal(_) =>
    case Str(_) =>
    case Arr(_, items) =>
      AnyItemIsExists(items);
      ItemsReadOneWay(items);
    case Obj(_, members) =>
      ClashIsExists(members, {});
      var none: map<Units, Reading> := map[];
      assert none.Keys == {};
      MembersReadOneWay(members, none);
  }

  lemma {:induction false} ItemsReadOneWay(items: seq<Item>)
    requires !AnyItem(items)
    ensures ReadItems(items, true) == ReadItems(items, false)
    decreases items, 0
  {
    if items != [] {
      PassingTextReadsOneWay(items[0].value);
      ItemsReadOneWay(items[1..]);
    }
  }

  lemma {:induction false} MembersReadOneWay(members: seq<Member>, soFar: map<Units, Reading>)
    requires !Clash(members, soFar.Keys)
    ensures ReadMembers(members, true, soFar) == ReadMembers(members, false, soFar)
    decreases members, 0
  {
    if members != [] {
      hide RepeatsName, NameOf;
      PassingTextReadsOneWay(members[0].value);
      var grown := soFar[NameOf(members[0]) := ReadMember(members[0], true)];
      assert grown.Keys == soFar.Keys + {NameOf(members[0])};
      MembersReadOneWay(members[1..], grown);
    }
  }
}
