/** JSON with comments and trailing commas, and the pass that takes both out. */
module Jsonc {
  import opened JsonText
  import opened Whitespace
  import opened DuplicateKeys

  // ---- The syntax ----

  /** What may stand between two tokens. */
  datatype Piece = Space(ws: string) | LineComment(body: string) | BlockComment(body: string)
  type Gap = seq<Piece>

  /** A value as written, with its gaps; a container may have a comma after its last entry. */
  datatype Doc =
    | LiteralDoc(text: string)
    | StringDoc(raw: string)
    | ArrayDoc(inner: Gap, items: seq<ItemDoc>, trailing: bool)
    | ObjectDoc(inner: Gap, members: seq<MemberDoc>, trailing: bool)
  datatype ItemDoc = ItemDoc(before: Gap, value: Doc, after: Gap)
  datatype MemberDoc = MemberDoc(before: Gap, raw: string, colon: Gap, gap: Gap, value: Doc, after: Gap)

  function PrintPiece(p: Piece): string {
    match p
    case Space(ws) => ws
    case LineComment(body) => "//" + body + "\n"
    case BlockComment(body) => "/*" + body + "*/"
  }

  function PrintGap(g: Gap): string {
    if g == [] then "" else PrintPiece(g[0]) + PrintGap(g[1..])
  }

  /** A container's inside: its entries and, after a trailing comma or alone, its inner gap. */
  function PrintDoc(d: Doc): string
    decreases d, 1
  {
    match d
    case LiteralDoc(text) => text
    case StringDoc(raw) => "\"" + raw + "\""
    case ArrayDoc(inner, items, trailing) => "[" + PrintItemDocs(items, trailing) + EndGap(inner, items == [], trailing) + "]"
    case ObjectDoc(inner, members, trailing) =>
      "{" + PrintMemberDocs(members, trailing) + EndGap(inner, members == [], trailing) + "}"
  }

  function EndGap(inner: Gap, empty: bool, trailing: bool): string {
    if empty || trailing then PrintGap(inner) else ""
  }

  function PrintItemDoc(i: ItemDoc): string
    decreases i, 2
  {
    PrintGap(i.before) + PrintDoc(i.value) + PrintGap(i.after)
  }

  function PrintItemDocs(items: seq<ItemDoc>, trailing: bool): string
    decreases items, 0
  {
    if items == [] then ""
    else
      PrintItemDoc(items[0]) + (if |items| > 1 || trailing then "," else "") + PrintItemDocs(items[1..], trailing)
  }

  function PrintMemberDoc(m: MemberDoc): string
    decreases m, 2
  {
    PrintGap(m.before) + "\"" + m.raw + "\"" + PrintGap(m.colon) + ":" + PrintGap(m.gap) + PrintDoc(m.value)
    + PrintGap(m.after)
  }

  function PrintMemberDocs(members: seq<MemberDoc>, trailing: bool): string
    decreases members, 0
  {
    if members == [] then ""
    else
      PrintMemberDoc(members[0]) + (if |members| > 1 || trailing then "," else "")
      + PrintMemberDocs(members[1..], trailing)
  }

  predicate ValidPiece(p: Piece) {
    match p
    case Space(ws) => Blank(ws)
    case LineComment(body) => '\n' !in body
    case BlockComment(body) => forall i | 0 <= i < |body| - 1 :: !(body[i] == '*' && body[i + 1] == '/')
  }

  predicate ValidGap(g: Gap) {
    forall p | p in g :: ValidPiece(p)
  }

  predicate ValidDoc(d: Doc)
    decreases d
  {
    match d
    case LiteralDoc(text) => text != "" && forall c | c in text :: IsLiteralChar(c)
    case StringDoc(raw) => ValidRaw(raw)
    case ArrayDoc(inner, items, _) => ValidGap(inner) && forall i | i in items :: ValidItemDoc(i)
    case ObjectDoc(inner, members, _) => ValidGap(inner) && forall m | m in members :: ValidMemberDoc(m)
  }

  predicate ValidItemDoc(i: ItemDoc)
    decreases i
  {
    ValidGap(i.before) && ValidDoc(i.value) && ValidGap(i.after)
  }

  predicate ValidMemberDoc(m: MemberDoc)
    decreases m
  {
    ValidGap(m.before) && ValidRaw(m.raw) && ValidGap(m.colon) && ValidGap(m.gap) && ValidDoc(m.value) && ValidGap(m.after)
  }

  // ---- The same document as plain JSON ----

  /** A line comment leaves its line end; a block comment leaves nothing. */
  function CleanGap(g: Gap): string {
    if g == [] then ""
    else CleanPiece(g[0]) + CleanGap(g[1..])
  }

  function CleanPiece(p: Piece): string {
    match p
    case Space(ws) => ws
    case LineComment(_) => "\n"
    case BlockComment(_) => ""
  }

  function Clean(d: Doc): Json
    decreases d, 1
  {
    match d
    case LiteralDoc(text) => Literal(text)
    case StringDoc(raw) => Str(raw)
    case ArrayDoc(inner, items, _) => Arr(CleanGap(inner), CleanItems(items))
    case ObjectDoc(inner, members, _) => Obj(CleanGap(inner), CleanMembers(members))
  }

  function CleanItem(i: ItemDoc): Item
    decreases i, 2
  {
    Item(CleanGap(i.before), Clean(i.value), CleanGap(i.after))
  }

  function CleanItems(items: seq<ItemDoc>): (r: seq<Item>)
    ensures |r| == |items|
    decreases items, 0
  {
    if items == [] then [] else [CleanItem(items[0])] + CleanItems(items[1..])
  }

  function CleanMember(m: MemberDoc): Member
    decreases m, 2
  {
    Member(CleanGap(m.before), m.raw, CleanGap(m.colon), CleanGap(m.gap), Clean(m.value), CleanGap(m.after))
  }

  function CleanMembers(members: seq<MemberDoc>): (r: seq<Member>)
    ensures |r| == |members|
    decreases members, 0
  {
    if members == [] then [] else [CleanMember(members[0])] + CleanMembers(members[1..])
  }

  // ---- The pass ----

  function TrailingSpace(s: string): (n: nat)
    ensures n <= |s|
  {
    if s == "" || !IsSpace(s[|s| - 1]) then 0 else 1 + TrailingSpace(s[..|s| - 1])
  }

  /** Without a comma at the end, and the whitespace after it. */
  function DropComma(out: string): string {
    var n := |out| - TrailingSpace(out);
    if n > 0 && out[n - 1] == ',' then out[..n - 1] else out
  }

  /** Where the line ends, or the text. */
  function LineEndAt(s: string, i: nat): (n: nat)
    requires i <= |s|
    ensures i <= n <= |s|
    decreases |s| - i
  {
    if i == |s| || s[i] == '\n' then i else LineEndAt(s, i + 1)
  }

  /** Where a block comment's closing marker starts, at or after `i`, or the text's end. */
  function CloseAt(s: string, i: nat): (n: nat)
    requires i <= |s|
    ensures i <= n <= |s|
    decreases |s| - i
  {
    if |s| - i < 2 then |s| else if s[i] == '*' && s[i + 1] == '/' then i else CloseAt(s, i + 1)
  }

  function Min(a: nat, b: nat): nat {
    if a < b then a else b
  }

  /** What is left to write of a text, given what has been written. */
  function Strip(s: string, out: string): string
    decreases |s|
  {
    if s == "" then out
    else if s[0] == '"' then
      var end := Min(StringEnd(s, 1) + 1, |s|);
      Strip(s[end..], out + s[..end])
    else if |s| > 1 && s[0] == '/' && s[1] == '/' then
      Strip(s[Min(LineEndAt(s, 0) + 1, |s|)..], out + "\n")
    else if |s| > 1 && s[0] == '/' && s[1] == '*' then
      Strip(s[Min(CloseAt(s, 2) + 2, |s|)..], out)
    else Strip(s[1..], (if s[0] == ']' || s[0] == '}' then DropComma(out) else out) + [s[0]])
  }

  /** The loop: one position, one string grown and trimmed. */
  method StripComments(text: string) returns (out: string)
    ensures out == Strip(text, "")
  {
    hide Strip, StringEnd, LineEndAt, CloseAt, DropComma;
    out := "";
    var i := 0;
    assert text[0..] == text;
    while i < |text|
      invariant 0 <= i <= |text|
      invariant Strip(text[i..], out) == Strip(text, "")
    {
      StripAt(text, i, out);
      if text[i] == '"' {
        var end := i + 1;
        while end < |text| && text[end] != '"'
          invariant i < end
          invariant StringEnd(text, end) == StringEnd(text, i + 1)
          decreases |text| - end
        {
          StringStep(text, end);
          end := end + if text[end] == '\\' then 2 else 1;
        }
        StringStep(text, end);
        var next := Min(end + 1, |text|);
        out := out + text[i..next];
        i := next;
      } else if text[i] == '/' && i + 1 < |text| && text[i + 1] == '/' {
        i := Min(LineEndAt(text, i) + 1, |text|);
        out := out + "\n";
      } else if text[i] == '/' && i + 1 < |text| && text[i + 1] == '*' {
        i := Min(CloseAt(text, i + 2) + 2, |text|);
      } else {
        if text[i] == ']' || text[i] == '}' { out := DropComma(out); }
        out := out + [text[i]];
        i := i + 1;
      }
    }
    assert text[|text|..] == "";
    StripEnd(out);
  }

  lemma StripEnd(out: string)
    ensures Strip("", out) == out
  {}

  lemma StringStep(text: string, end: nat)
    ensures StringEnd(text, end) == if end >= |text| || text[end] == '"' then end
                                    else StringEnd(text, end + if text[end] == '\\' then 2 else 1)
  {}

  lemma {:induction false} LineEndShift(a: string, b: string, i: nat)
    requires i <= |b|
    ensures LineEndAt(a + b, |a| + i) == |a| + LineEndAt(b, i)
    decreases |b| - i
  {
    if i < |b| && b[i] != '\n' { LineEndShift(a, b, i + 1); }
  }

  lemma {:induction false} CloseShift(a: string, b: string, i: nat)
    requires i <= |b|
    ensures CloseAt(a + b, |a| + i) == |a| + CloseAt(b, i)
    decreases |b| - i
  {
    if |b| - i >= 2 && !(b[i] == '*' && b[i + 1] == '/') { CloseShift(a, b, i + 1); }
  }

  /** One step of the pass, by positions in the whole text. */
  lemma StripAt(text: string, i: nat, out: string)
    requires i < |text|
    ensures Strip(text[i..], out)
            == if text[i] == '"' then
                 var next := Min(StringEnd(text, i + 1) + 1, |text|);
                 Strip(text[next..], out + text[i..next])
               else if text[i] == '/' && i + 1 < |text| && text[i + 1] == '/' then
                 Strip(text[Min(LineEndAt(text, i) + 1, |text|)..], out + "\n")
               else if text[i] == '/' && i + 1 < |text| && text[i + 1] == '*' then
                 Strip(text[Min(CloseAt(text, i + 2) + 2, |text|)..], out)
               else
                 Strip(text[i + 1..], (if text[i] == ']' || text[i] == '}' then DropComma(out) else out) + [text[i]])
  {
    hide Strip, StringEnd, LineEndAt, CloseAt, DropComma;
    var s := text[i..];
    assert text == text[..i] + s;
    UnfoldStrip(s, out);
    if text[i] == '"' {
      StringEndShift(text[..i], s, 1);
      SuffixOf(text, i, Min(StringEnd(s, 1) + 1, |s|));
    } else if |s| > 1 && s[0] == '/' && s[1] == '/' {
      LineEndShift(text[..i], s, 0);
      SuffixOf(text, i, Min(LineEndAt(s, 0) + 1, |s|));
    } else if |s| > 1 && s[0] == '/' && s[1] == '*' {
      CloseShift(text[..i], s, 2);
      SuffixOf(text, i, Min(CloseAt(s, 2) + 2, |s|));
    } else {
      SuffixOf(text, i, 1);
    }
  }

  lemma SuffixOf(text: string, i: nat, n: nat)
    requires i + n <= |text|
    ensures text[i..][n..] == text[i + n..] && text[i..][..n] == text[i..i + n]
  {}

  lemma UnfoldStrip(s: string, out: string)
    requires s != ""
    ensures Strip(s, out)
            == if s[0] == '"' then
                 var end := Min(StringEnd(s, 1) + 1, |s|);
                 Strip(s[end..], out + s[..end])
               else if |s| > 1 && s[0] == '/' && s[1] == '/' then
                 Strip(s[Min(LineEndAt(s, 0) + 1, |s|)..], out + "\n")
               else if |s| > 1 && s[0] == '/' && s[1] == '*' then
                 Strip(s[Min(CloseAt(s, 2) + 2, |s|)..], out)
               else Strip(s[1..], (if s[0] == ']' || s[0] == '}' then DropComma(out) else out) + [s[0]])
  {}

  // ---- Token by token ----

  predicate IsCopied(c: char) {
    c !in {'"', '/', ']', '}'}
  }

  /** Characters that start nothing are copied. */
  lemma {:induction false} StripCopies(s: string, rest: string, out: string)
    requires forall c | c in s :: IsCopied(c)
    ensures Strip(s + rest, out) == Strip(rest, out + s)
  {
    if s == "" {
      assert s + rest == rest && out + s == out;
    } else {
      assert s[0] in s;
      assert forall c | c in s[1..] :: c in s;
      assert (s + rest)[1..] == s[1..] + rest;
      StripCopies(s[1..], rest, out + [s[0]]);
      assert out + [s[0]] + s[1..] == out + s;
    }
  }

  lemma StripString(raw: string, rest: string, out: string)
    requires ValidRaw(raw)
    ensures Strip("\"" + raw + "\"" + rest, out) == Strip(rest, out + ("\"" + raw + "\""))
  {
    var s := "\"" + raw + "\"" + rest;
    assert s == "\"" + (raw + "\"" + rest);
    RawIsClosed(raw, rest);
    StringEndShift("\"", raw + "\"" + rest, 0);
    assert s[|raw| + 2..] == rest;
    assert s[..|raw| + 2] == "\"" + raw + "\"";
  }

  lemma {:induction false} LineEndOfBody(body: string, rest: string)
    requires '\n' !in body
    ensures LineEndAt(body + "\n" + rest, 0) == |body|
  {
    if body != "" {
      assert body[0] in body;
      var s := body + "\n" + rest;
      assert s == body[..1] + (body[1..] + "\n" + rest);
      LineEndShift(body[..1], body[1..] + "\n" + rest, 0);
      LineEndOfBody(body[1..], rest);
    }
  }

  lemma {:induction false} CloseOfBody(body: string, rest: string)
    requires ValidPiece(BlockComment(body))
    ensures CloseAt(body + "*/" + rest, 0) == |body|
  {
    if body != "" {
      var s := body + "*/" + rest;
      assert ValidPiece(BlockComment(body[1..])) by {
        forall i | 0 <= i < |body[1..]| - 1 ensures !(body[1..][i] == '*' && body[1..][i + 1] == '/') {
          assert !(body[i + 1] == '*' && body[i + 2] == '/');
        }
      }
      assert s == body[..1] + (body[1..] + "*/" + rest);
      CloseShift(body[..1], body[1..] + "*/" + rest, 0);
      CloseOfBody(body[1..], rest);
      if |body| >= 2 { assert !(body[0] == '*' && body[1] == '/'); }
    }
  }

  /** Wherever it stands, this text is passed over and that one written. */
  ghost predicate Writes(s: string, w: string) {
    forall rest, out :: Strip(s + rest, out) == Strip(rest, out + w)
  }

  lemma Compose(a: string, x: string, b: string, y: string)
    requires Writes(a, x) && Writes(b, y)
    ensures Writes(a + b, x + y)
  {
    hide Strip;
    forall rest, out ensures Strip((a + b) + rest, out) == Strip(rest, out + (x + y)) {
      assert (a + b) + rest == a + (b + rest);
      assert Strip(a + (b + rest), out) == Strip(b + rest, out + x);
      assert Strip(b + rest, out + x) == Strip(rest, (out + x) + y);
      assert out + (x + y) == (out + x) + y;
    }
  }

  lemma CopiedWrites(s: string)
    requires forall c | c in s :: IsCopied(c)
    ensures Writes(s, s)
  {
    forall rest, out ensures Strip(s + rest, out) == Strip(rest, out + s) { StripCopies(s, rest, out); }
  }

  lemma StringWrites(raw: string)
    requires ValidRaw(raw)
    ensures Writes("\"" + raw + "\"", "\"" + raw + "\"")
  {
    forall rest, out ensures Strip(("\"" + raw + "\"") + rest, out) == Strip(rest, out + ("\"" + raw + "\"")) {
      StripString(raw, rest, out);
    }
  }

  lemma PieceWrites(p: Piece)
    requires ValidPiece(p)
    ensures Writes(PrintPiece(p), CleanPiece(p))
  {
    forall rest, out ensures Strip(PrintPiece(p) + rest, out) == Strip(rest, out + CleanPiece(p)) {
      match p
      case Space(ws) => StripCopies(ws, rest, out);
      case LineComment(body) => StripLine(body, rest, out);
      case BlockComment(body) => StripBlock(body, rest, out);
    }
  }

  lemma StripLine(body: string, rest: string, out: string)
    requires '\n' !in body
    ensures Strip("//" + body + "\n" + rest, out) == Strip(rest, out + "\n")
  {
    hide Strip, LineEndAt;
    var s := "//" + body + "\n" + rest;
    assert s == "//" + (body + "\n" + rest);
    LineEndOfBody(body, rest);
    LineEndShift("//", body + "\n" + rest, 0);
    LineEndStep(s);
    UnfoldStrip(s, out);
    assert s[|body| + 3..] == rest;
  }

  lemma LineEndStep(s: string)
    requires |s| > 2 && s[0] != '\n' && s[1] != '\n'
    ensures LineEndAt(s, 0) == LineEndAt(s, 2)
  {
    assert LineEndAt(s, 0) == LineEndAt(s, 1);
  }

  lemma StripBlock(body: string, rest: string, out: string)
    requires ValidPiece(BlockComment(body))
    ensures Strip("/*" + body + "*/" + rest, out) == Strip(rest, out + "")
  {
    CloseOfBody(body, rest);
    hide *;
    BlockParts(body, rest);
    CloseShift("/*", body + "*/" + rest, 0);
    UnfoldStrip("/*" + body + "*/" + rest, out);
    assert out + "" == out;
  }

  lemma BlockParts(body: string, rest: string)
    ensures var s := "/*" + body + "*/" + rest;
            s == "/*" + (body + "*/" + rest) && s[0] == '/' && s[1] == '*' && s[|body| + 4..] == rest
  {}

  lemma {:induction false} GapWrites(g: Gap)
    requires ValidGap(g)
    ensures Writes(PrintGap(g), CleanGap(g))
  {
    if g == [] {
      CopiedWrites("");
    } else {
      hide Writes, ValidPiece, PrintPiece, CleanPiece;
      assert g[0] in g;
      assert forall p | p in g[1..] :: p in g;
      PieceWrites(g[0]);
      GapWrites(g[1..]);
      Compose(PrintPiece(g[0]), CleanPiece(g[0]), PrintGap(g[1..]), CleanGap(g[1..]));
    }
  }

  lemma {:induction false} CleanGapIsBlank(g: Gap)
    requires ValidGap(g)
    ensures Blank(CleanGap(g))
  {
    if g != [] {
      assert g[0] in g;
      assert forall p | p in g[1..] :: p in g;
      CleanGapIsBlank(g[1..]);
    }
  }

  // ---- Commas before a closing bracket ----

  lemma {:induction false} TrailingSpaceIn(a: string, ws: string)
    requires Blank(ws)
    ensures TrailingSpace(a + ws) == |ws| + TrailingSpace(a)
  {
    if ws == "" {
      assert a + ws == a;
    } else {
      var k := |ws| - 1;
      assert ws[k] in ws;
      assert forall c | c in ws[..k] :: c in ws;
      assert (a + ws)[..|a + ws| - 1] == a + ws[..k];
      TrailingSpaceIn(a, ws[..k]);
    }
  }

  /** A text whose last character is neither whitespace nor a comma. */
  predicate Firm(s: string) {
    s != "" && !IsSpace(s[|s| - 1]) && s[|s| - 1] != ','
  }

  lemma NoCommaToDrop(out: string, ws: string)
    requires Firm(out) && Blank(ws)
    ensures DropComma(out + ws) == out + ws
  {
    TrailingSpaceIn(out, ws);
  }

  lemma CommaDropped(out: string, ws: string)
    requires Blank(ws)
    ensures DropComma(out + "," + ws) == out
  {
    TrailingSpaceIn(out + ",", ws);
    assert (out + "," + ws)[..|out|] == out;
  }

  /** A written text that ends in a firm character and whitespace. */
  ghost predicate Ends(w: string) {
    exists firm, ws :: Firm(firm) && Blank(ws) && w == firm + ws
  }

  lemma EndsAfter(a: string, w: string)
    requires Ends(w)
    ensures Ends(a + w)
  {
    var firm, ws :| Firm(firm) && Blank(ws) && w == firm + ws;
    assert Firm(a + firm) && a + w == (a + firm) + ws;
  }

  lemma FirmEnds(w: string, ws: string)
    requires Firm(w) && Blank(ws)
    ensures Ends(w + ws)
  {}

  /** A closing bracket after a text with no comma at its end is just copied. */
  lemma CloseWrites(s: string, w: string, c: char)
    requires Writes(s, w) && Ends(w) && (c == ']' || c == '}')
    ensures Writes(s + [c], w + [c])
  {
    hide Strip, DropComma;
    var firm, ws :| Firm(firm) && Blank(ws) && w == firm + ws;
    forall rest, out ensures Strip((s + [c]) + rest, out) == Strip(rest, out + (w + [c])) {
      assert (s + [c]) + rest == s + ([c] + rest);
      assert Strip(s + ([c] + rest), out) == Strip([c] + rest, out + w);
      CloseStep(c, rest, out + w);
      assert out + w == (out + firm) + ws;
      NoCommaToDrop(out + firm, ws);
      assert out + (w + [c]) == (out + w) + [c];
    }
  }

  /** After a trailing comma it takes the comma out. */
  lemma CloseAfterComma(s: string, w: string, ws: string, c: char)
    requires Writes(s, w + "," + ws) && Blank(ws) && (c == ']' || c == '}')
    ensures Writes(s + [c], w + [c])
  {
    hide Strip, DropComma;
    forall rest, out ensures Strip((s + [c]) + rest, out) == Strip(rest, out + (w + [c])) {
      assert (s + [c]) + rest == s + ([c] + rest);
      assert Strip(s + ([c] + rest), out) == Strip([c] + rest, out + (w + "," + ws));
      CloseStep(c, rest, out + (w + "," + ws));
      assert out + (w + "," + ws) == (out + w) + "," + ws;
      CommaDropped(out + w, ws);
      assert out + (w + [c]) == (out + w) + [c];
    }
  }

  lemma CloseStep(c: char, rest: string, out: string)
    requires c == ']' || c == '}'
    ensures Strip([c] + rest, out) == Strip(rest, DropComma(out) + [c])
  {
    assert ([c] + rest)[1..] == rest;
  }

  // ---- Values ----

  /** Stripping a value writes its plain form, and ends on a character no closing bracket
      would take for a comma. */
  lemma {:induction false} ValueWrites(d: Doc)
    requires ValidDoc(d)
    ensures Writes(PrintDoc(d), Print(Clean(d))) && Firm(Print(Clean(d)))
    decreases d, 1
  {
    hide Writes;
    match d
    case LiteralDoc(text) =>
      assert text[|text| - 1] in text;
      CopiedWrites(text);
    case StringDoc(raw) =>
      StringWrites(raw);
    case ArrayDoc(inner, items, trailing) =>
      ItemDocsWrite(items, trailing);
      var w := PrintItems(CleanItems(items));
      GapWrites(inner);
      ContainerWrites('[', ']', PrintItemDocs(items, trailing), w, inner, items == [], trailing);
    case ObjectDoc(inner, members, trailing) =>
      MemberDocsWrite(members, trailing);
      var w := PrintMembers(CleanMembers(members));
      GapWrites(inner);
      ContainerWrites('{', '}', PrintMemberDocs(members, trailing), w, inner, members == [], trailing);
  }

  lemma ContainerWrites(a: char, c: char, body: string, w: string, inner: Gap, empty: bool, trailing: bool)
    requires (a == '[' && c == ']') || (a == '{' && c == '}')
    requires ValidGap(inner)
    requires empty ==> body == ""
    requires !empty ==> Writes(body, w + if trailing then "," else "") && Ends(w)
    ensures var written := [a] + (if empty then CleanGap(inner) else w) + [c];
            Writes([a] + body + EndGap(inner, empty, trailing) + [c], written) && Firm(written)
  {
    hide Writes, Ends, PrintGap, CleanGap, ValidGap;
    var gap := CleanGap(inner);
    CopiedWrites([a]);
    GapWrites(inner);
    CleanGapIsBlank(inner);
    if empty {
      Compose([a], [a], PrintGap(inner), gap);
      FirmEnds([a], gap);
      CloseWrites([a] + PrintGap(inner), [a] + gap, c);
      assert [a] + body == [a];
    } else if trailing {
      Compose([a], [a], body, w + ",");
      Compose([a] + body, [a] + (w + ","), PrintGap(inner), gap);
      assert [a] + (w + ",") + gap == ([a] + w) + "," + gap;
      CloseAfterComma([a] + body + PrintGap(inner), [a] + w, gap, c);
    } else {
      assert w + "" == w;
      Compose([a], [a], body, w);
      EndsAfter([a], w);
      CloseWrites([a] + body, [a] + w, c);
      assert [a] + body + "" == [a] + body;
    }
  }

  lemma ItemWrites(i: ItemDoc)
    requires ValidItemDoc(i)
    ensures Writes(PrintItemDoc(i), PrintItem(CleanItem(i))) && Ends(PrintItem(CleanItem(i)))
    decreases i, 2
  {
    hide Writes, Ends, PrintGap, CleanGap, ValidGap, PrintDoc, Clean, Print, ValidDoc;
    GapWrites(i.before);
    GapWrites(i.after);
    ValueWrites(i.value);
    CleanGapIsBlank(i.after);
    var value := Print(Clean(i.value));
    Compose(PrintGap(i.before), CleanGap(i.before), PrintDoc(i.value), value);
    Compose(PrintGap(i.before) + PrintDoc(i.value), CleanGap(i.before) + value, PrintGap(i.after), CleanGap(i.after));
    FirmEnds(CleanGap(i.before) + value, CleanGap(i.after));
  }

  lemma {:induction false} ItemDocsWrite(items: seq<ItemDoc>, trailing: bool)
    requires forall i | i in items :: ValidItemDoc(i)
    ensures items != [] ==> Writes(PrintItemDocs(items, trailing),
                                   PrintItems(CleanItems(items)) + if trailing then "," else "")
    ensures items != [] ==> Ends(PrintItems(CleanItems(items)))
    ensures items == [] ==> PrintItemDocs(items, trailing) == ""
    decreases items, 0
  {
    if items != [] {
      hide Writes, Ends, ValidItemDoc, PrintItemDoc, CleanItem, PrintItem, PrintItems, PrintItemDocs, CleanItems;
      var i, more := items[0], items[1..];
      assert i in items;
      assert forall x | x in more :: x in items;
      ItemWrites(i);
      ItemDocsWrite(more, trailing);
      EntriesWrite(PrintItemDoc(i), PrintItem(CleanItem(i)), PrintItemDocs(more, trailing),
                   PrintItems(CleanItems(more)), more == [], trailing);
      UnfoldItems(items, trailing);
    }
  }

  lemma UnfoldItems(items: seq<ItemDoc>, trailing: bool)
    requires items != []
    ensures var more := items[1..];
            && PrintItemDocs(items, trailing)
               == PrintItemDoc(items[0]) + (if more != [] || trailing then "," else "") + PrintItemDocs(more, trailing)
            && PrintItems(CleanItems(items))
               == if more == [] then PrintItem(CleanItem(items[0]))
                  else PrintItem(CleanItem(items[0])) + ("," + PrintItems(CleanItems(more)))
  {
    hide PrintItemDoc, PrintItem, CleanItem;
    assert CleanItems(items)[1..] == CleanItems(items[1..]);
  }

  /** An entry, its comma if it has one, and the entries after it. */
  lemma EntriesWrite(s: string, w: string, more: string, x: string, last: bool, trailing: bool)
    requires Writes(s, w) && Ends(w)
    requires if last then more == "" else Writes(more, x + if trailing then "," else "") && Ends(x)
    ensures var written := if last then w else w + ("," + x);
            && Writes(s + (if !last || trailing then "," else "") + more, written + if trailing then "," else "")
            && Ends(written)
  {
    hide Writes, Ends;
    CopiedWrites(",");
    Compose(s, w, ",", ",");
    assert w + "" == w && s + "" == s && s + "" + "" == s && s + "," + "" == s + ",";
    if !last {
      Compose(s + ",", w + ",", more, x + if trailing then "," else "");
      assert w + "," + (x + if trailing then "," else "") == w + ("," + x) + if trailing then "," else "";
      EndsAfter(w + ",", x);
      assert w + "," + x == w + ("," + x);
    }
  }

  lemma MemberWrites(m: MemberDoc)
    requires ValidMemberDoc(m)
    ensures Writes(PrintMemberDoc(m), PrintMember(CleanMember(m))) && Ends(PrintMember(CleanMember(m)))
    decreases m, 2
  {
    NameWrites(m);
    hide Writes, Ends, PrintGap, CleanGap, ValidGap, PrintDoc, Clean, Print, ValidDoc;
    GapWrites(m.after);
    ValueWrites(m.value);
    CleanGapIsBlank(m.after);
    var head, cleaned := PrintHead(m), CleanHead(m);
    var value := Print(Clean(m.value));
    Compose(head, cleaned, PrintDoc(m.value), value);
    Compose(head + PrintDoc(m.value), cleaned + value, PrintGap(m.after), CleanGap(m.after));
    FirmEnds(cleaned + value, CleanGap(m.after));
  }

  /** A member up to its value. */
  function PrintHead(m: MemberDoc): string {
    PrintGap(m.before) + "\"" + m.raw + "\"" + PrintGap(m.colon) + ":" + PrintGap(m.gap)
  }

  function CleanHead(m: MemberDoc): string {
    CleanGap(m.before) + "\"" + m.raw + "\"" + CleanGap(m.colon) + ":" + CleanGap(m.gap)
  }

  lemma NameWrites(m: MemberDoc)
    requires ValidMemberDoc(m)
    ensures Writes(PrintHead(m), CleanHead(m))
  {
    hide Writes, PrintGap, CleanGap, ValidGap, ValidDoc;
    var quoted := "\"" + m.raw + "\"";
    GapWrites(m.before);
    GapWrites(m.colon);
    GapWrites(m.gap);
    StringWrites(m.raw);
    CopiedWrites(":");
    Compose(PrintGap(m.before), CleanGap(m.before), quoted, quoted);
    Compose(PrintGap(m.colon), CleanGap(m.colon), ":", ":");
    Compose(PrintGap(m.before) + quoted, CleanGap(m.before) + quoted, PrintGap(m.colon) + ":", CleanGap(m.colon) + ":");
    Compose(PrintGap(m.before) + quoted + (PrintGap(m.colon) + ":"), CleanGap(m.before) + quoted + (CleanGap(m.colon) + ":"),
            PrintGap(m.gap), CleanGap(m.gap));
    assert PrintHead(m) == PrintGap(m.before) + quoted + (PrintGap(m.colon) + ":") + PrintGap(m.gap);
    assert CleanHead(m) == CleanGap(m.before) + quoted + (CleanGap(m.colon) + ":") + CleanGap(m.gap);
  }

  lemma {:induction false} MemberDocsWrite(members: seq<MemberDoc>, trailing: bool)
    requires forall m | m in members :: ValidMemberDoc(m)
    ensures members != [] ==> Writes(PrintMemberDocs(members, trailing),
                                     PrintMembers(CleanMembers(members)) + if trailing then "," else "")
    ensures members != [] ==> Ends(PrintMembers(CleanMembers(members)))
    ensures members == [] ==> PrintMemberDocs(members, trailing) == ""
    decreases members, 0
  {
    if members != [] {
      hide Writes, Ends, ValidMemberDoc, PrintMemberDoc, CleanMember, PrintMember, PrintMembers, PrintMemberDocs, CleanMembers;
      var m, more := members[0], members[1..];
      assert m in members;
      assert forall x | x in more :: x in members;
      MemberWrites(m);
      MemberDocsWrite(more, trailing);
      EntriesWrite(PrintMemberDoc(m), PrintMember(CleanMember(m)), PrintMemberDocs(more, trailing),
                   PrintMembers(CleanMembers(more)), more == [], trailing);
      UnfoldMembers(members, trailing);
    }
  }

  lemma UnfoldMembers(members: seq<MemberDoc>, trailing: bool)
    requires members != []
    ensures var more := members[1..];
            && PrintMemberDocs(members, trailing)
               == PrintMemberDoc(members[0]) + (if more != [] || trailing then "," else "") + PrintMemberDocs(more, trailing)
            && PrintMembers(CleanMembers(members))
               == if more == [] then PrintMember(CleanMember(members[0]))
                  else PrintMember(CleanMember(members[0])) + ("," + PrintMembers(CleanMembers(more)))
  {
    hide PrintMemberDoc, PrintMember, CleanMember;
    assert CleanMembers(members)[1..] == CleanMembers(members[1..]);
  }

  lemma DocumentWrites(before: Gap, d: Doc, after: Gap)
    requires ValidGap(before) && ValidDoc(d) && ValidGap(after)
    ensures Writes(PrintGap(before) + PrintDoc(d) + PrintGap(after), CleanGap(before) + Print(Clean(d)) + CleanGap(after))
  {
    hide Writes, Strip, ValidGap, ValidDoc, PrintGap, CleanGap, PrintDoc, Clean, Print;
    GapWrites(before);
    ValueWrites(d);
    GapWrites(after);
    Compose(PrintGap(before), CleanGap(before), PrintDoc(d), Print(Clean(d)));
    Compose(PrintGap(before) + PrintDoc(d), CleanGap(before) + Print(Clean(d)), PrintGap(after), CleanGap(after));
  }

  /** Comments and trailing commas come out of any document, and plain JSON of the same
      value is what is left for the parser. */
  lemma StripDocument(before: Gap, d: Doc, after: Gap)
    requires ValidGap(before) && ValidDoc(d) && ValidGap(after)
    ensures Strip(PrintGap(before) + PrintDoc(d) + PrintGap(after), "")
            == CleanGap(before) + Print(Clean(d)) + CleanGap(after)
  {
    hide Writes, Strip, ValidGap, ValidDoc, PrintGap, CleanGap, PrintDoc, Clean, Print;
    DocumentWrites(before, d, after);
    WholeWrites(PrintGap(before) + PrintDoc(d) + PrintGap(after), CleanGap(before) + Print(Clean(d)) + CleanGap(after));
  }

  /** What a file may end in unfinished: nothing, a line comment, or a block comment. */
  datatype Ending = Closed | LineEnding(body: string) | BlockEnding(body: string)

  predicate ValidEnding(e: Ending) {
    match e
    case Closed => true
    case LineEnding(body) => '\n' !in body
    case BlockEnding(body) => forall k | 0 <= k < |body| - 1 :: !(body[k] == '*' && body[k + 1] == '/')
  }

  function PrintEnding(e: Ending): string {
    match e
    case Closed => ""
    case LineEnding(body) => "//" + body
    case BlockEnding(body) => "/*" + body
  }

  /** A last comment that the file ends in comes out too. */
  lemma StripUnfinished(before: Gap, d: Doc, after: Gap, e: Ending)
    requires ValidGap(before) && ValidDoc(d) && ValidGap(after) && ValidEnding(e)
    ensures Strip(PrintGap(before) + PrintDoc(d) + PrintGap(after) + PrintEnding(e), "")
            == CleanGap(before) + Print(Clean(d)) + CleanGap(after) + if e.LineEnding? then "\n" else ""
  {
    DocumentWrites(before, d, after);
    hide Strip, ValidGap, ValidDoc, PrintGap, CleanGap, PrintDoc, Clean, Print;
    var s, w := PrintGap(before) + PrintDoc(d) + PrintGap(after), CleanGap(before) + Print(Clean(d)) + CleanGap(after);
    assert Strip(s + PrintEnding(e), "") == Strip(PrintEnding(e), "" + w);
    assert "" + w == w;
    EndingStrips(e, w);
  }

  lemma EndingStrips(e: Ending, out: string)
    requires ValidEnding(e)
    ensures Strip(PrintEnding(e), out) == out + if e.LineEnding? then "\n" else ""
  {
    var s := PrintEnding(e);
    StripNothing(out);
    StripNothing(out + "\n");
    match e
    case Closed => assert out + "" == out;
    case LineEnding(body) =>
      LastLine(body);
      UnfoldStrip(s, out);
      hide Strip, LineEndAt;
      assert s[|s|..] == "";
    case BlockEnding(body) =>
      NeverCloses(s, 2);
      UnfoldStrip(s, out);
      hide Strip, CloseAt;
      assert s[|s|..] == "" && out + "" == out;
  }

  lemma StripNothing(out: string)
    ensures Strip("", out) == out
  {}

  lemma {:induction false} NoLineEnd(s: string, i: nat)
    requires i <= |s| && forall k | i <= k < |s| :: s[k] != '\n'
    ensures LineEndAt(s, i) == |s|
    decreases |s| - i
  {
    if i < |s| { NoLineEnd(s, i + 1); }
  }

  lemma LastLine(body: string)
    requires '\n' !in body
    ensures LineEndAt("//" + body, 0) == |"//" + body|
  {
    NoLineEnd("//" + body, 0);
  }

  lemma {:induction false} NeverCloses(s: string, i: nat)
    requires i <= |s| && forall k | i <= k < |s| - 1 :: !(s[k] == '*' && s[k + 1] == '/')
    ensures CloseAt(s, i) == |s|
    decreases |s| - i
  {
    if i < |s| { NeverCloses(s, i + 1); }
  }

  lemma WholeWrites(s: string, w: string)
    requires Writes(s, w)
    ensures Strip(s, "") == w
  {
    assert s + "" == s && "" + w == w;
    assert Strip(s + "", "") == Strip("", "" + w);
  }

  // ---- What it means ----

  lemma {:induction false} CleanIsValid(d: Doc)
    requires ValidDoc(d)
    ensures Valid(Clean(d))
    decreases d, 1
  {
    match d
    case LiteralDoc(_) =>
    case StringDoc(_) =>
    case ArrayDoc(inner, items, _) =>
      CleanGapIsBlank(inner);
      CleanItemsAreValid(items);
    case ObjectDoc(inner, members, _) =>
      CleanGapIsBlank(inner);
      CleanMembersAreValid(members);
  }

  lemma {:induction false} CleanItemsAreValid(items: seq<ItemDoc>)
    requires forall i | i in items :: ValidItemDoc(i)
    ensures forall i | i in CleanItems(items) :: ValidItem(i)
    decreases items, 0
  {
    if items != [] {
      var i := items[0];
      assert i in items;
      assert forall x | x in items[1..] :: x in items;
      CleanGapIsBlank(i.before);
      CleanGapIsBlank(i.after);
      CleanIsValid(i.value);
      CleanItemsAreValid(items[1..]);
    }
  }

  lemma {:induction false} CleanMembersAreValid(members: seq<MemberDoc>)
    requires forall m | m in members :: ValidMemberDoc(m)
    ensures forall m | m in CleanMembers(members) :: ValidMember(m)
    decreases members, 0
  {
    if members != [] {
      var m := members[0];
      assert m in members;
      assert forall x | x in members[1..] :: x in members;
      CleanGapIsBlank(m.before);
      CleanGapIsBlank(m.colon);
      CleanGapIsBlank(m.gap);
      CleanGapIsBlank(m.after);
      CleanIsValid(m.value);
      CleanMembersAreValid(members[1..]);
    }
  }

  /** The document with no gaps and no trailing commas. */
  function Bare(d: Doc): Doc
    decreases d, 1
  {
    match d
    case LiteralDoc(_) => d
    case StringDoc(_) => d
    case ArrayDoc(_, items, _) => ArrayDoc([], BareItems(items), false)
    case ObjectDoc(_, members, _) => ObjectDoc([], BareMembers(members), false)
  }

  function BareItem(i: ItemDoc): ItemDoc
    decreases i, 2
  {
    ItemDoc([], Bare(i.value), [])
  }

  function BareItems(items: seq<ItemDoc>): seq<ItemDoc>
    decreases items, 0
  {
    if items == [] then [] else [BareItem(items[0])] + BareItems(items[1..])
  }

  function BareMember(m: MemberDoc): MemberDoc
    decreases m, 2
  {
    MemberDoc([], m.raw, [], [], Bare(m.value), [])
  }

  function BareMembers(members: seq<MemberDoc>): seq<MemberDoc>
    decreases members, 0
  {
    if members == [] then [] else [BareMember(members[0])] + BareMembers(members[1..])
  }

  /** Comments between tokens and trailing commas do not change what is read: only the
      document without them counts. */
  lemma {:induction false} GapsDoNotCount(d: Doc, lastWins: bool)
    ensures Read(Clean(d), lastWins) == Read(Clean(Bare(d)), lastWins)
    decreases d, 1
  {
    match d
    case LiteralDoc(_) =>
    case StringDoc(_) =>
    case ArrayDoc(_, items, _) => GapsInItems(items, lastWins);
    case ObjectDoc(_, members, _) => GapsInMembers(members, lastWins, map[]);
  }

  lemma {:induction false} GapsInItems(items: seq<ItemDoc>, lastWins: bool)
    ensures ReadItems(CleanItems(items), lastWins) == ReadItems(CleanItems(BareItems(items)), lastWins)
    decreases items, 0
  {
    if items != [] {
      GapsDoNotCount(items[0].value, lastWins);
      GapsInItems(items[1..], lastWins);
      assert CleanItems(items)[1..] == CleanItems(items[1..]);
      assert BareItems(items)[1..] == BareItems(items[1..]);
      assert CleanItems(BareItems(items))[1..] == CleanItems(BareItems(items[1..]));
    }
  }

  lemma {:induction false} GapsInMembers(members: seq<MemberDoc>, lastWins: bool, soFar: map<Units, Reading>)
    ensures ReadMembers(CleanMembers(members), lastWins, soFar)
            == ReadMembers(CleanMembers(BareMembers(members)), lastWins, soFar)
    decreases members, 0
  {
    if members != [] {
      hide Unescape, CleanGap;
      var m := members[0];
      GapsDoNotCount(m.value, lastWins);
      var name := NameOf(CleanMember(m));
      assert CleanMembers(members)[1..] == CleanMembers(members[1..]);
      assert BareMembers(members)[1..] == BareMembers(members[1..]);
      assert CleanMembers(BareMembers(members))[1..] == CleanMembers(BareMembers(members[1..]));
      GapsInMembers(members[1..], lastWins,
                    if !lastWins && name in soFar then soFar
                    else soFar[name := ReadMember(CleanMember(m), lastWins)]);
    }
  }

  // ---- Plain JSON is left alone ----

  function Plainly(ws: string): Gap {
    [Space(ws)]
  }

  function Commented(v: Json): Doc
    decreases v, 1
  {
    match v
    case Literal(text) => LiteralDoc(text)
    case Str(raw) => StringDoc(raw)
    case Arr(inner, items) => ArrayDoc(Plainly(inner), CommentedItems(items), false)
    case Obj(inner, members) => ObjectDoc(Plainly(inner), CommentedMembers(members), false)
  }

  function CommentedItem(i: Item): ItemDoc
    decreases i, 2
  {
    ItemDoc(Plainly(i.before), Commented(i.value), Plainly(i.after))
  }

  function CommentedItems(items: seq<Item>): (r: seq<ItemDoc>)
    ensures |r| == |items|
    decreases items, 0
  {
    if items == [] then [] else [CommentedItem(items[0])] + CommentedItems(items[1..])
  }

  function CommentedMember(m: Member): MemberDoc
    decreases m, 2
  {
    MemberDoc(Plainly(m.before), m.raw, Plainly(m.colon), Plainly(m.gap), Commented(m.value), Plainly(m.after))
  }

  function CommentedMembers(members: seq<Member>): (r: seq<MemberDoc>)
    ensures |r| == |members|
    decreases members, 0
  {
    if members == [] then [] else [CommentedMember(members[0])] + CommentedMembers(members[1..])
  }

  lemma PlainGap(ws: string)
    ensures PrintGap(Plainly(ws)) == ws && CleanGap(Plainly(ws)) == ws
    ensures Blank(ws) ==> ValidGap(Plainly(ws))
  {
    assert Plainly(ws)[1..] == [];
    assert PrintGap(Plainly(ws)) == ws + PrintGap([]) && CleanGap(Plainly(ws)) == ws + CleanGap([]);
    assert ws + "" == ws;
  }

  lemma {:induction false} PlainValue(v: Json)
    requires Valid(v)
    ensures ValidDoc(Commented(v)) && PrintDoc(Commented(v)) == Print(v)
    decreases v, 1
  {
    match v
    case Literal(_) =>
    case Str(_) =>
    case Arr(inner, items) =>
      PlainGap(inner);
      PlainItems(items);
    case Obj(inner, members) =>
      PlainGap(inner);
      PlainMembers(members);
  }

  /** A comma after every entry when there is one after the last. */
  lemma ItemDocsCons(i: ItemDoc, more: seq<ItemDoc>, trailing: bool)
    ensures PrintItemDocs([i] + more, trailing)
            == PrintItemDoc(i) + (if more != [] || trailing then "," else "") + PrintItemDocs(more, trailing)
  {
    hide PrintItemDoc;
    assert ([i] + more)[1..] == more;
  }

  lemma MemberDocsCons(m: MemberDoc, more: seq<MemberDoc>)
    ensures PrintMemberDocs([m] + more, false)
            == PrintMemberDoc(m) + (if more != [] then "," else "") + PrintMemberDocs(more, false)
  {
    hide PrintMemberDoc;
    assert ([m] + more)[1..] == more;
  }

  lemma PrintItemsIs(items: seq<Item>)
    requires items != []
    ensures PrintItems(items) == PrintItem(items[0]) + (if items[1..] != [] then "," else "") + PrintItems(items[1..])
  {
    hide PrintItem;
    if |items| == 1 { assert PrintItem(items[0]) + "" + "" == PrintItem(items[0]); }
  }

  lemma PrintMembersIs(members: seq<Member>)
    requires members != []
    ensures PrintMembers(members)
            == PrintMember(members[0]) + (if members[1..] != [] then "," else "") + PrintMembers(members[1..])
  {
    hide PrintMember;
    if |members| == 1 { assert PrintMember(members[0]) + "" + "" == PrintMember(members[0]); }
  }

  lemma {:induction false} PlainItems(items: seq<Item>)
    requires forall i | i in items :: ValidItem(i)
    ensures forall i | i in CommentedItems(items) :: ValidItemDoc(i)
    ensures PrintItemDocs(CommentedItems(items), false) == PrintItems(items)
    decreases items, 0
  {
    if items != [] {
      hide PrintGap, ValidGap, PrintItemDoc, PrintItem, CommentedItem, ValidItemDoc, ValidItem;
      assert items[0] in items;
      assert forall x | x in items[1..] :: x in items;
      PlainItem(items[0]);
      PlainItems(items[1..]);
      var more := CommentedItems(items[1..]);
      ItemDocsCons(CommentedItem(items[0]), more, false);
      PrintItemsIs(items);
      hide PrintItemDocs, PrintItems;
      assert CommentedItems(items) == [CommentedItem(items[0])] + more;
    }
  }

  lemma PlainItem(i: Item)
    requires ValidItem(i)
    ensures ValidItemDoc(CommentedItem(i)) && PrintItemDoc(CommentedItem(i)) == PrintItem(i)
    decreases i, 0
  {
    hide PrintGap, ValidGap;
    PlainGap(i.before);
    PlainGap(i.after);
    PlainValue(i.value);
  }

  lemma {:induction false} PlainMembers(members: seq<Member>)
    requires forall m | m in members :: ValidMember(m)
    ensures forall m | m in CommentedMembers(members) :: ValidMemberDoc(m)
    ensures PrintMemberDocs(CommentedMembers(members), false) == PrintMembers(members)
    decreases members, 0
  {
    if members != [] {
      hide PrintGap, ValidGap, PrintMemberDoc, PrintMember, CommentedMember, ValidMemberDoc, ValidMember;
      assert members[0] in members;
      assert forall x | x in members[1..] :: x in members;
      PlainMember(members[0]);
      PlainMembers(members[1..]);
      var more := CommentedMembers(members[1..]);
      MemberDocsCons(CommentedMember(members[0]), more);
      PrintMembersIs(members);
      hide PrintMemberDocs, PrintMembers;
      assert CommentedMembers(members) == [CommentedMember(members[0])] + more;
    }
  }

  lemma PlainMember(m: Member)
    requires ValidMember(m)
    ensures ValidMemberDoc(CommentedMember(m)) && PrintMemberDoc(CommentedMember(m)) == PrintMember(m)
    decreases m, 0
  {
    hide PrintGap, ValidGap;
    PlainGap(m.before);
    PlainGap(m.colon);
    PlainGap(m.gap);
    PlainGap(m.after);
    PlainValue(m.value);
  }

  lemma {:induction false} PlainIsItself(v: Json)
    ensures Clean(Commented(v)) == v
    decreases v, 1
  {
    match v
    case Literal(_) =>
    case Str(_) =>
    case Arr(inner, items) =>
      PlainGap(inner);
      PlainItemsAreThemselves(items);
    case Obj(inner, members) =>
      PlainGap(inner);
      PlainMembersAreThemselves(members);
  }

  lemma {:induction false} PlainItemsAreThemselves(items: seq<Item>)
    ensures CleanItems(CommentedItems(items)) == items
    decreases items, 0
  {
    if items != [] {
      PlainGap(items[0].before);
      PlainGap(items[0].after);
      PlainIsItself(items[0].value);
      PlainItemsAreThemselves(items[1..]);
    }
  }

  lemma {:induction false} PlainMembersAreThemselves(members: seq<Member>)
    ensures CleanMembers(CommentedMembers(members)) == members
    decreases members, 0
  {
    if members != [] {
      var m := members[0];
      PlainGap(m.before);
      PlainGap(m.colon);
      PlainGap(m.gap);
      PlainGap(m.after);
      PlainIsItself(m.value);
      PlainMembersAreThemselves(members[1..]);
    }
  }

  /** Valid JSON text goes through unchanged, character for character. */
  lemma ValidJsonIsUnchanged(before: string, v: Json, after: string)
    requires Blank(before) && Valid(v) && Blank(after)
    ensures Strip(before + Print(v) + after, "") == before + Print(v) + after
  {
    hide Strip, Valid, Print, PrintDoc, ValidDoc, Clean, PrintGap, CleanGap;
    PlainGap(before);
    PlainGap(after);
    PlainValue(v);
    PlainIsItself(v);
    StripDocument(Plainly(before), Commented(v), Plainly(after));
  }
}
