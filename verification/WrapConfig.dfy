/** The config file the mediator runs from: the text that is written, what it reads back
    as, and how a refresh chooses what stays allowed. */
module WrapConfig {
  import opened JsonText
  import opened DuplicateKeys
  import opened Jsonc

  // ---- The text ----

  /** A line of the list: a tool's name, switched on or commented out, and a note. The
      note's text is a first line, so it holds no LF. */
  datatype Entry = Entry(name: string, note: string, on: bool)

  datatype Server = Server(command: string, args: seq<string>, cwd: string)

  predicate ValidEntries(entries: seq<Entry>) {
    forall e | e in entries :: '\n' !in e.note
  }

  function EntryLine(e: Entry): string {
    "    " + (if e.on then "" else "// ") + QuoteString(e.name) + ", //" + e.note
  }

  function EntryLines(entries: seq<Entry>): string {
    if entries == [] then "" else EntryLine(entries[0]) + "\n" + EntryLines(entries[1..])
  }

  function ArgsText(args: seq<string>): string {
    if args == [] then "" else if |args| == 1 then QuoteString(args[0])
    else QuoteString(args[0]) + ", " + ArgsText(args[1..])
  }

  /** The fixed comment lines of the file; only that each is one line matters. */
  datatype Comments = Comments(server: string, cwd: string, cwdMore: string, allow: string, allowMore: string)

  predicate ValidComments(c: Comments) {
    '\n' !in c.server && '\n' !in c.cwd && '\n' !in c.cwdMore && '\n' !in c.allow && '\n' !in c.allowMore
  }

  function Comment(body: string): string {
    "//" + body + "\n"
  }

  /** A member on its line: what stands before its name, and after its value. */
  function MemberText(before: string, name: string, value: string, after: string): string {
    before + "\"" + name + "\": " + value + after
  }

  function ServerText(c: Comments, server: Server): string {
    "{" + MemberText("\n    ", "command", QuoteString(server.command), "")
    + "," + MemberText("\n    ", "args", "[" + ArgsText(server.args) + "]", "")
    + "," + MemberText("\n    " + Comment(c.cwd) + "    " + Comment(c.cwdMore) + "    ",
                       "cwd", QuoteString(server.cwd), "\n  ") + "}"
  }

  /** The whole file: a brace, three members each on lines of its own, a brace, a line end. */
  function ConfigText(c: Comments, schema: string, server: Server, entries: seq<Entry>): string {
    "{" + MemberText("\n  ", "$schema", QuoteString(schema), "")
    + "," + MemberText("\n  " + Comment(c.server) + "  ", "server", ServerText(c, server), "")
    + "," + MemberText("\n  " + Comment(c.allow) + "  " + Comment(c.allowMore) + "  ",
                       "allow", "[\n" + EntryLines(entries) + "  ]", "\n") + "}\n"
  }

  // ---- The document it is ----

  function Written(s: string): Doc {
    StringDoc(EscapeString(s))
  }

  function ArgDocs(args: seq<string>, first: bool): seq<ItemDoc> {
    if args == [] then []
    else [ItemDoc(if first then [] else [Space(" ")], Written(args[0]), [])] + ArgDocs(args[1..], false)
  }

  /** The list's items: a tool switched off is a comment in the gap before the next. */
  datatype Listing = Listing(items: seq<ItemDoc>, rest: Gap)

  function EntryDocs(entries: seq<Entry>, gap: Gap): Listing
    decreases |entries|
  {
    if entries == [] then Listing([], gap + [Space("  ")])
    else
      var e := entries[0];
      if e.on then
        var more := EntryDocs(entries[1..], [Space(" "), LineComment(e.note)]);
        Listing([ItemDoc(gap + [Space("    ")], Written(e.name), [])] + more.items, more.rest)
      else EntryDocs(entries[1..], gap + [Space("    "), LineComment(OffComment(e))])
  }

  function OffComment(e: Entry): string {
    " " + QuoteString(e.name) + ", //" + e.note
  }

  function AllowDoc(entries: seq<Entry>): Doc {
    var l := EntryDocs(entries, [Space("\n")]);
    ArrayDoc(l.rest, l.items, l.items != [])
  }

  function MemberOf(before: Gap, name: string, value: Doc, after: Gap): MemberDoc {
    MemberDoc(before, name, [], [Space(" ")], value, after)
  }

  function ServerDoc(c: Comments, server: Server): Doc {
    ObjectDoc([], [MemberOf([Space("\n    ")], "command", Written(server.command), []),
                   MemberOf([Space("\n    ")], "args", ArrayDoc([], ArgDocs(server.args, true), false), []),
                   MemberOf([Space("\n    "), LineComment(c.cwd), Space("    "), LineComment(c.cwdMore), Space("    ")],
                            "cwd", Written(server.cwd), [Space("\n  ")])], false)
  }

  function ConfigDoc(c: Comments, schema: string, server: Server, entries: seq<Entry>): Doc {
    ObjectDoc([], [MemberOf([Space("\n  ")], "$schema", Written(schema), []),
                   MemberOf([Space("\n  "), LineComment(c.server), Space("  ")], "server", ServerDoc(c, server), []),
                   MemberOf([Space("\n  "), LineComment(c.allow), Space("  "), LineComment(c.allowMore), Space("  ")],
                            "allow", AllowDoc(entries), [Space("\n")])], false)
  }

  // ---- Printing gaps and members ----

  lemma {:induction false} PrintGapAppend(a: Gap, b: Gap)
    ensures PrintGap(a + b) == PrintGap(a) + PrintGap(b)
  {
    if a == [] {
      assert a + b == b;
    } else {
      hide PrintPiece;
      assert (a + b)[1..] == a[1..] + b;
      PrintGapAppend(a[1..], b);
    }
  }

  lemma PrintGapOne(p: Piece)
    ensures PrintGap([p]) == PrintPiece(p)
  {
    assert [p][1..] == [];
    assert PrintGap([p]) == PrintPiece(p) + PrintGap([]);
  }

  lemma PrintGapTwo(p: Piece, q: Piece)
    ensures PrintGap([p, q]) == PrintPiece(p) + PrintPiece(q)
  {
    hide PrintPiece;
    assert [p, q] == [p] + [q];
    PrintGapAppend([p], [q]);
    PrintGapOne(p);
    PrintGapOne(q);
  }

  lemma PrintMemberOf(before: Gap, name: string, value: Doc, after: Gap)
    ensures PrintMemberDoc(MemberOf(before, name, value, after))
            == MemberText(PrintGap(before), name, PrintDoc(value), PrintGap(after))
  {
    var m := MemberOf(before, name, value, after);
    PrintGapOne(Space(" "));
    assert PrintGap([]) == "";
    assert PrintMemberDoc(m)
        == PrintGap(before) + "\"" + name + "\"" + PrintGap([]) + ":" + PrintGap([Space(" ")]) + PrintDoc(value) + PrintGap(after);
    hide PrintDoc, PrintGap, PrintMemberDoc;
    ColonText(PrintGap(before), name, PrintDoc(value), PrintGap(after));
  }

  lemma ColonText(before: string, name: string, value: string, after: string)
    ensures before + "\"" + name + "\"" + "" + ":" + " " + value + after == MemberText(before, name, value, after)
  {
    assert "\"" + "" + ":" + " " == "\": ";
    assert before + "\"" + name + ("\"" + "" + ":" + " ") + value + after == MemberText(before, name, value, after);
  }

  lemma PrintWritten(s: string)
    ensures PrintDoc(Written(s)) == QuoteString(s)
  {}

  lemma {:induction false} PrintArgs(args: seq<string>, first: bool)
    ensures PrintItemDocs(ArgDocs(args, first), false)
            == (if first || args == [] then "" else " ") + ArgsText(args)
  {
    if args != [] {
      hide QuoteString, PrintDoc, PrintGap;
      var item := ItemDoc(if first then [] else [Space(" ")], Written(args[0]), []);
      PrintArgs(args[1..], false);
      PrintArg(args[0], first);
      ItemDocsCons(item, ArgDocs(args[1..], false), false);
      ArgText(if first then "" else " ", QuoteString(args[0]), ArgsText(args[1..]));
      if |args| == 1 { assert args[1..] == []; }
    }
  }

  lemma PrintArg(arg: string, first: bool)
    ensures PrintItemDoc(ItemDoc(if first then [] else [Space(" ")], Written(arg), []))
            == (if first then "" else " ") + QuoteString(arg) + ""
  {
    hide QuoteString;
    PrintGapOne(Space(" "));
    PrintWritten(arg);
  }

  lemma ArgText(lead: string, q: string, more: string)
    ensures (lead + q + "") + "," + (" " + more) == lead + (q + ", " + more)
    ensures (lead + q + "") + "" + ("" + "") == lead + q
  {}

  // ---- The list is printed line by line ----

  /** The inside of the list, from a gap on: its items with their commas, and the gap left. */
  function PrintListing(l: Listing): string {
    PrintItemDocs(l.items, true) + PrintGap(l.rest)
  }

  lemma {:induction false} ListingPrints(entries: seq<Entry>, gap: Gap)
    ensures PrintListing(EntryDocs(entries, gap)) == PrintGap(gap) + EntryLines(entries) + "  "
    decreases |entries|
  {
    if entries == [] {
      PrintGapAppend(gap, [Space("  ")]);
      PrintGapOne(Space("  "));
      assert PrintGap(gap) + "" + "  " == PrintGap(gap) + "  ";
    } else if entries[0].on {
      OnLinePrints(entries, gap);
    } else {
      OffLinePrints(entries, gap);
    }
  }

  lemma OnLinePrints(entries: seq<Entry>, gap: Gap)
    requires entries != [] && entries[0].on
    ensures PrintListing(EntryDocs(entries, gap)) == PrintGap(gap) + EntryLines(entries) + "  "
    decreases |entries|, 0
  {
    hide PrintGap, PrintPiece, QuoteString, PrintDoc, PrintItemDocs;
    var e := entries[0];
    var next: Gap := [Space(" "), LineComment(e.note)];
    var more := EntryDocs(entries[1..], next);
    var item := ItemDoc(gap + [Space("    ")], Written(e.name), []);
    ListingPrints(entries[1..], next);
    ItemDocsCons(item, more.items, true);
    PrintOnItem(gap, e.name);
    PrintOnGap(e.note);
    OnLineText(PrintGap(gap), QuoteString(e.name), e.note, EntryLines(entries[1..]));
    Reassociate(PrintItemDoc(item), PrintItemDocs(more.items, true), PrintGap(more.rest));
  }

  lemma Reassociate(a: string, b: string, c: string)
    ensures (a + "," + b) + c == a + "," + (b + c)
  {}

  lemma PrintOnItem(gap: Gap, name: string)
    ensures PrintItemDoc(ItemDoc(gap + [Space("    ")], Written(name), [])) == PrintGap(gap) + "    " + QuoteString(name) + ""
  {
    hide QuoteString;
    PrintGapAppend(gap, [Space("    ")]);
    PrintGapOne(Space("    "));
    PrintWritten(name);
  }

  lemma PrintOnGap(note: string)
    ensures PrintGap([Space(" "), LineComment(note)]) == " " + ("//" + note + "\n")
  {
    PrintGapTwo(Space(" "), LineComment(note));
  }

  lemma OnLineText(g: string, q: string, note: string, more: string)
    ensures (g + "    " + q + "") + "," + ((" " + ("//" + note + "\n")) + more + "  ")
            == g + (("    " + "" + q + ", //" + note) + "\n" + more) + "  "
  {
    assert "," + " " + "//" == ", //";
  }

  lemma NoGap()
    ensures PrintGap([]) == ""
  {}

  lemma OffLinePrints(entries: seq<Entry>, gap: Gap)
    requires entries != [] && !entries[0].on
    ensures PrintListing(EntryDocs(entries, gap)) == PrintGap(gap) + EntryLines(entries) + "  "
    decreases |entries|, 0
  {
    hide PrintGap, PrintPiece, QuoteString, PrintListing, OffComment;
    var e := entries[0];
    var line: Gap := [Space("    "), LineComment(OffComment(e))];
    ListingPrints(entries[1..], gap + line);
    PrintGapAppend(gap, line);
    PrintOffGap(e);
    OffLineText(PrintGap(gap), QuoteString(e.name), e.note, EntryLines(entries[1..]));
  }

  lemma PrintOffGap(e: Entry)
    ensures PrintGap([Space("    "), LineComment(OffComment(e))])
            == "    " + ("//" + (" " + QuoteString(e.name) + ", //" + e.note) + "\n")
  {
    PrintGapTwo(Space("    "), LineComment(OffComment(e)));
  }

  lemma OffLineText(g: string, q: string, note: string, more: string)
    ensures (g + ("    " + ("//" + (" " + q + ", //" + note) + "\n"))) + more + "  "
            == g + (("    " + "// " + q + ", //" + note) + "\n" + more) + "  "
  {
    assert "//" + " " == "// ";
  }

  lemma AllowPrints(entries: seq<Entry>)
    ensures PrintDoc(AllowDoc(entries)) == "[\n" + EntryLines(entries) + "  ]"
  {
    hide EntryLines, EntryDocs, PrintGap, PrintItemDocs;
    var gap: Gap := [Space("\n")];
    var l := EntryDocs(entries, gap);
    ListingPrints(entries, gap);
    PrintGapOne(Space("\n"));
    if l.items == [] { NoItemDocs(); }
    AllowText(PrintItemDocs(l.items, true), PrintGap(l.rest), EntryLines(entries));
  }

  lemma NoItemDocs()
    ensures PrintItemDocs([], true) == PrintItemDocs([], false)
  {}

  lemma AllowText(items: string, rest: string, lines: string)
    requires items + rest == "\n" + lines + "  "
    ensures "[" + items + rest + "]" == "[\n" + lines + "  ]"
  {
    assert "[" + items + rest + "]" == "[" + (items + rest) + "]";
    assert "[" + ("\n" + lines + "  ") + "]" == "[\n" + lines + "  ]";
  }

  // ---- The whole text ----

  lemma ThreeMembers(a: MemberDoc, b: MemberDoc, c: MemberDoc)
    ensures PrintDoc(ObjectDoc([], [a, b, c], false))
            == "{" + PrintMemberDoc(a) + "," + PrintMemberDoc(b) + "," + PrintMemberDoc(c) + "}"
  {
    hide PrintMemberDoc;
    MemberDocsCons(a, [b, c]);
    MemberDocsCons(b, [c]);
    MemberDocsCons(c, []);
    assert [a] + [b, c] == [a, b, c] && [b] + [c] == [b, c] && [c] + [] == [c];
    ThreeTexts(PrintMemberDoc(a), PrintMemberDoc(b), PrintMemberDoc(c));
  }

  lemma ThreeTexts(a: string, b: string, c: string)
    ensures "{" + (a + "," + (b + "," + (c + "" + ""))) + "" + "}" == "{" + a + "," + b + "," + c + "}"
  {}

  lemma PrintGapThree(p: Piece, q: Piece, r: Piece)
    ensures PrintGap([p, q, r]) == PrintPiece(p) + PrintPiece(q) + PrintPiece(r)
  {
    hide PrintPiece;
    assert [p, q, r] == [p, q] + [r];
    PrintGapAppend([p, q], [r]);
    PrintGapTwo(p, q);
    PrintGapOne(r);
  }

  lemma PrintGapFive(p: Piece, q: Piece, r: Piece, s: Piece, t: Piece)
    ensures PrintGap([p, q, r, s, t])
            == PrintPiece(p) + PrintPiece(q) + PrintPiece(r) + PrintPiece(s) + PrintPiece(t)
  {
    hide PrintPiece;
    assert [p, q, r, s, t] == [p, q, r] + [s, t];
    PrintGapAppend([p, q, r], [s, t]);
    PrintGapThree(p, q, r);
    PrintGapTwo(s, t);
  }

  lemma CommentPrints(ws: string, body: string)
    ensures PrintPiece(LineComment(body)) == Comment(body) && PrintPiece(Space(ws)) == ws
  {}

  lemma ServerPrints(c: Comments, server: Server)
    ensures PrintDoc(ServerDoc(c, server)) == ServerText(c, server)
  {
    hide PrintDoc, PrintGap, PrintPiece, QuoteString, ArgsText, PrintMemberDoc, MemberText, Comment;
    CommentPrints("\n    ", c.cwd);
    CommentPrints("    ", c.cwdMore);
    CommentPrints("\n  ", "");
    PrintGapOne(Space("\n    "));
    PrintGapOne(Space("\n  "));
    PrintGapFive(Space("\n    "), LineComment(c.cwd), Space("    "), LineComment(c.cwdMore), Space("    "));
    NoGap();
    PrintWritten(server.command);
    PrintWritten(server.cwd);
    ArgsPrint(server.args);
    ThreeMembers(
      MemberOf([Space("\n    ")], "command", Written(server.command), []),
      MemberOf([Space("\n    ")], "args", ArrayDoc([], ArgDocs(server.args, true), false), []),
      MemberOf([Space("\n    "), LineComment(c.cwd), Space("    "), LineComment(c.cwdMore), Space("    ")],
               "cwd", Written(server.cwd), [Space("\n  ")]));
    PrintMemberOf([Space("\n    ")], "command", Written(server.command), []);
    PrintMemberOf([Space("\n    ")], "args", ArrayDoc([], ArgDocs(server.args, true), false), []);
    PrintMemberOf([Space("\n    "), LineComment(c.cwd), Space("    "), LineComment(c.cwdMore), Space("    ")],
                  "cwd", Written(server.cwd), [Space("\n  ")]);
  }

  lemma ArgsPrint(args: seq<string>)
    ensures PrintDoc(ArrayDoc([], ArgDocs(args, true), false)) == "[" + ArgsText(args) + "]"
  {
    hide ArgsText, PrintItemDocs;
    PrintArgs(args, true);
    NoGap();
    assert "" + ArgsText(args) == ArgsText(args);
    assert "[" + ArgsText(args) + "" + "]" == "[" + ArgsText(args) + "]";
  }

  /** The text written is the document's, and a line end. */
  lemma ConfigPrints(c: Comments, schema: string, server: Server, entries: seq<Entry>)
    ensures ConfigText(c, schema, server, entries)
            == PrintGap([]) + PrintDoc(ConfigDoc(c, schema, server, entries)) + PrintGap([Space("\n")])
  {
    hide PrintDoc, PrintGap, PrintPiece, QuoteString, EntryLines, ServerText, PrintMemberDoc, MemberText, Comment,
         AllowDoc, ServerDoc;
    CommentPrints("\n  ", c.server);
    CommentPrints("  ", c.allow);
    CommentPrints("\n", c.allowMore);
    PrintGapOne(Space("\n  "));
    PrintGapOne(Space("\n"));
    PrintGapThree(Space("\n  "), LineComment(c.server), Space("  "));
    PrintGapFive(Space("\n  "), LineComment(c.allow), Space("  "), LineComment(c.allowMore), Space("  "));
    NoGap();
    PrintWritten(schema);
    ServerPrints(c, server);
    AllowPrints(entries);
    ThreeMembers(
      MemberOf([Space("\n  ")], "$schema", Written(schema), []),
      MemberOf([Space("\n  "), LineComment(c.server), Space("  ")], "server", ServerDoc(c, server), []),
      MemberOf([Space("\n  "), LineComment(c.allow), Space("  "), LineComment(c.allowMore), Space("  ")],
               "allow", AllowDoc(entries), [Space("\n")]));
    PrintMemberOf([Space("\n  ")], "$schema", Written(schema), []);
    PrintMemberOf([Space("\n  "), LineComment(c.server), Space("  ")], "server", ServerDoc(c, server), []);
    PrintMemberOf([Space("\n  "), LineComment(c.allow), Space("  "), LineComment(c.allowMore), Space("  ")],
                  "allow", AllowDoc(entries), [Space("\n")]);
    LastLine(PrintDoc(ConfigDoc(c, schema, server, entries)), ConfigText(c, schema, server, entries));
  }

  lemma LastLine(d: string, text: string)
    requires d != "" && d[|d| - 1] == '}' && text == d[..|d| - 1] + "}\n"
    ensures text == "" + d + "\n"
  {
    assert d == d[..|d| - 1] + "}";
  }

  // ---- Its validity and its reading ----

  lemma WrittenIsValid(s: string)
    ensures ValidDoc(Written(s)) && '\n' !in QuoteString(s)
  {
    WrittenStringReads(s);
    RawHasNoLf(EscapeString(s));
  }

  lemma {:induction false} RawHasNoLf(raw: string)
    requires ValidRaw(raw)
    ensures '\n' !in raw
  {
    if raw == "" {
    } else if IsPlain(raw[0]) && ValidRaw(raw[1..]) {
      RawHasNoLf(raw[1..]);
      assert raw == [raw[0]] + raw[1..];
    } else if IsShortEscape(raw) && ValidRaw(raw[2..]) {
      RawHasNoLf(raw[2..]);
      assert raw == [raw[0], raw[1]] + raw[2..];
    } else {
      RawHasNoLf(raw[6..]);
      assert raw == raw[..2] + [raw[2], raw[3], raw[4], raw[5]] + raw[6..];
    }
  }

  lemma {:induction false} ArgDocsAreValid(args: seq<string>, first: bool)
    ensures forall i | i in ArgDocs(args, first) :: ValidItemDoc(i)
  {
    if args != [] {
      ArgDocsAreValid(args[1..], false);
      WrittenIsValid(args[0]);
    }
  }

  lemma {:induction false} EntryDocsAreValid(entries: seq<Entry>, gap: Gap)
    requires ValidEntries(entries) && ValidGap(gap)
    ensures var l := EntryDocs(entries, gap); ValidGap(l.rest) && forall i | i in l.items :: ValidItemDoc(i)
    decreases |entries|
  {
    if entries != [] {
      hide QuoteString;
      var e := entries[0];
      assert e in entries;
      assert forall x | x in entries[1..] :: x in entries;
      WrittenIsValid(e.name);
      if e.on {
        EntryDocsAreValid(entries[1..], [Space(" "), LineComment(e.note)]);
        assert ValidItemDoc(ItemDoc(gap + [Space("    ")], Written(e.name), []));
      } else {
        assert '\n' !in OffComment(e);
        assert ValidPiece(LineComment(OffComment(e)));
        EntryDocsAreValid(entries[1..], gap + [Space("    "), LineComment(OffComment(e))]);
      }
    }
  }

  lemma ConfigIsValid(c: Comments, schema: string, server: Server, entries: seq<Entry>)
    requires ValidEntries(entries) && ValidComments(c)
    ensures ValidDoc(ConfigDoc(c, schema, server, entries))
  {
    NamesAreValid();
    AllowIsValid(entries);
    ServerIsValid(c, server);
    WrittenIsValid(schema);
    hide AllowDoc, ServerDoc, Written, ValidRaw, ValidMemberDoc;
    GapsAreValid(c);
    var d := ConfigDoc(c, schema, server, entries);
    MemberIsValid([Space("\n  ")], "$schema", Written(schema), []);
    MemberIsValid([Space("\n  "), LineComment(c.server), Space("  ")], "server", ServerDoc(c, server), []);
    MemberIsValid([Space("\n  "), LineComment(c.allow), Space("  "), LineComment(c.allowMore), Space("  ")],
                  "allow", AllowDoc(entries), [Space("\n")]);
    ThreeValid(d.members[0], d.members[1], d.members[2]);
  }

  lemma ThreeValid(a: MemberDoc, b: MemberDoc, d: MemberDoc)
    requires ValidMemberDoc(a) && ValidMemberDoc(b) && ValidMemberDoc(d)
    ensures ValidDoc(ObjectDoc([], [a, b, d], false))
  {
    hide ValidMemberDoc;
  }

  lemma MemberIsValid(before: Gap, name: string, value: Doc, after: Gap)
    requires ValidGap(before) && ValidRaw(name) && ValidDoc(value) && ValidGap(after)
    ensures ValidMemberDoc(MemberOf(before, name, value, after))
  {
    hide ValidRaw;
  }

  lemma GapsAreValid(c: Comments)
    requires ValidComments(c)
    ensures ValidGap([]) && ValidGap([Space("\n")]) && ValidGap([Space("\n  ")]) && ValidGap([Space("\n    ")])
    ensures ValidGap([Space("\n  "), LineComment(c.server), Space("  ")])
    ensures ValidGap([Space("\n  "), LineComment(c.allow), Space("  "), LineComment(c.allowMore), Space("  ")])
    ensures ValidGap([Space("\n    "), LineComment(c.cwd), Space("    "), LineComment(c.cwdMore), Space("    ")])
  {
    SpacesAreValid();
    CommentIsValid(c.server);
    CommentIsValid(c.cwd);
    CommentIsValid(c.cwdMore);
    CommentIsValid(c.allow);
    CommentIsValid(c.allowMore);
    hide ValidPiece;
  }

  lemma CommentIsValid(body: string)
    requires '\n' !in body
    ensures ValidPiece(LineComment(body))
  {}

  lemma SpacesAreValid()
    ensures ValidPiece(Space("\n")) && ValidPiece(Space("  ")) && ValidPiece(Space("    "))
    ensures ValidPiece(Space("\n  ")) && ValidPiece(Space("\n    "))
  {}

  lemma AllowIsValid(entries: seq<Entry>)
    requires ValidEntries(entries)
    ensures ValidDoc(AllowDoc(entries))
  {
    EntryDocsAreValid(entries, [Space("\n")]);
  }

  lemma ServerIsValid(c: Comments, server: Server)
    requires ValidComments(c)
    ensures ValidDoc(ServerDoc(c, server))
  {
    NamesAreValid();
    WrittenIsValid(server.command);
    WrittenIsValid(server.cwd);
    ArgDocsAreValid(server.args, true);
    GapsAreValid(c);
    assert ValidDoc(ArrayDoc([], ArgDocs(server.args, true), false));
    hide Written, ValidRaw, ArgDocs, ValidMemberDoc;
    var d := ServerDoc(c, server);
    MemberIsValid([Space("\n    ")], "command", Written(server.command), []);
    MemberIsValid([Space("\n    ")], "args", ArrayDoc([], ArgDocs(server.args, true), false), []);
    MemberIsValid([Space("\n    "), LineComment(c.cwd), Space("    "), LineComment(c.cwdMore), Space("    ")],
                  "cwd", Written(server.cwd), [Space("\n  ")]);
    ThreeValid(d.members[0], d.members[1], d.members[2]);
  }

  predicate IsName(s: string) {
    forall c | c in s :: IsPlain(c)
  }

  lemma {:induction false} NameIsRaw(s: string)
    requires IsName(s)
    ensures ValidRaw(s) && EscapeString(s) == s
  {
    if s != "" {
      assert s[0] in s;
      assert forall c | c in s[1..] :: c in s;
      NameCharIsWritten(s[0]);
      NameIsRaw(s[1..]);
      EscapeCharReads(s[0], s[1..]);
      assert s == [s[0]] + s[1..];
      hide ValidRaw, EscapeChar;
    }
  }

  lemma NameCharIsWritten(c: char)
    requires IsName([c])
    ensures EscapeChar(c) == [c]
  {
    assert c in [c];
  }

  lemma NamesAreValid()
    ensures ValidRaw("$schema") && ValidRaw("server") && ValidRaw("allow")
    ensures ValidRaw("command") && ValidRaw("args") && ValidRaw("cwd")
  {
    hide ValidRaw, EscapeString, IsName;
    PlainNames();
    NameIsRaw("$schema");
    NameIsRaw("server");
    NameIsRaw("allow");
    NameIsRaw("command");
    NameIsRaw("args");
    NameIsRaw("cwd");
  }

  lemma PlainNames()
    ensures IsName("$schema") && IsName("server") && IsName("allow")
    ensures IsName("command") && IsName("args") && IsName("cwd")
  {}

  /** The names switched on, in order. */
  function OnNames(entries: seq<Entry>): seq<string> {
    if entries == [] then [] else (if entries[0].on then [entries[0].name] else []) + OnNames(entries[1..])
  }

  function Texts(names: seq<string>): seq<Reading> {
    if names == [] then [] else [Text(UnitsOfString(names[0]))] + Texts(names[1..])
  }

  /** What the file holds: a member per line, the last for the tools switched on. */
  function ServerReading(server: Server): Reading {
    var none: map<Units, Reading> := map[];
    Fields(none[Unescape("command") := Text(UnitsOfString(server.command))]
               [Unescape("args") := List(Texts(server.args))]
               [Unescape("cwd") := Text(UnitsOfString(server.cwd))])
  }

  function ConfigReading(schema: string, server: Server, allow: seq<string>): Reading {
    var none: map<Units, Reading> := map[];
    Fields(none[Unescape("$schema") := Text(UnitsOfString(schema))]
               [Unescape("server") := ServerReading(server)]
               [Unescape("allow") := List(Texts(allow))])
  }

  lemma WrittenReads(s: string)
    ensures Read(Clean(Written(s)), true) == Text(UnitsOfString(s))
  {
    WrittenStringReads(s);
  }

  lemma {:induction false} ArgsRead(args: seq<string>, first: bool)
    ensures ReadItems(CleanItems(ArgDocs(args, first)), true) == Texts(args)
  {
    if args != [] {
      hide Written;
      WrittenReads(args[0]);
      ArgsRead(args[1..], false);
      var docs := ArgDocs(args, first);
      assert docs[1..] == ArgDocs(args[1..], false);
      ReadItemsCons(docs[0], docs[1..]);
      assert docs == [docs[0]] + docs[1..];
    }
  }

  lemma ReadItemsCons(i: ItemDoc, more: seq<ItemDoc>)
    ensures ReadItems(CleanItems([i] + more), true) == [Read(Clean(i.value), true)] + ReadItems(CleanItems(more), true)
  {
    assert ([i] + more)[1..] == more;
    assert CleanItems([i] + more)[1..] == CleanItems(more);
  }

  lemma {:induction false} EntriesRead(entries: seq<Entry>, gap: Gap)
    ensures ReadItems(CleanItems(EntryDocs(entries, gap).items), true) == Texts(OnNames(entries))
    decreases |entries|
  {
    if entries != [] {
      hide Written, OffComment;
      var e := entries[0];
      if e.on {
        var next: Gap := [Space(" "), LineComment(e.note)];
        EntriesRead(entries[1..], next);
        WrittenReads(e.name);
        ReadItemsCons(ItemDoc(gap + [Space("    ")], Written(e.name), []), EntryDocs(entries[1..], next).items);
        assert OnNames(entries)[1..] == OnNames(entries[1..]);
      } else {
        EntriesRead(entries[1..], gap + [Space("    "), LineComment(OffComment(e))]);
        assert OnNames(entries) == OnNames(entries[1..]);
      }
    }
  }

  /** Three members, read in turn. */
  lemma ThreeRead(a: MemberDoc, b: MemberDoc, c: MemberDoc)
    ensures var none: map<Units, Reading> := map[];
            Read(Clean(ObjectDoc([], [a, b, c], false)), true)
            == Fields(none[Unescape(a.raw) := Read(Clean(a.value), true)]
                          [Unescape(b.raw) := Read(Clean(b.value), true)]
                          [Unescape(c.raw) := Read(Clean(c.value), true)])
  {
    hide Unescape, CleanGap;
    var none: map<Units, Reading> := map[];
    var x, y, z := CleanMember(a), CleanMember(b), CleanMember(c);
    CleanThree(a, b, c);
    assert [x, y, z][1..] == [y, z] && [y, z][1..] == [z] && [z][1..] == [];
    var s1 := none[NameOf(x) := ReadMember(x, true)];
    var s2 := s1[NameOf(y) := ReadMember(y, true)];
    var s3 := s2[NameOf(z) := ReadMember(z, true)];
    calc {
      ReadMembers([x, y, z], true, none);
      ReadMembers([y, z], true, s1);
      ReadMembers([z], true, s2);
      ReadMembers([], true, s3);
      s3;
    }
  }

  lemma CleanThree(a: MemberDoc, b: MemberDoc, c: MemberDoc)
    ensures CleanMembers([a, b, c]) == [CleanMember(a), CleanMember(b), CleanMember(c)]
  {
    hide CleanMember;
    assert [a, b, c][1..] == [b, c] && [b, c][1..] == [c] && [c][1..] == [];
    assert CleanMembers([c]) == [CleanMember(c)] + CleanMembers([]);
    assert CleanMembers([b, c]) == [CleanMember(b)] + CleanMembers([c]);
  }

  lemma ServerReads(c: Comments, server: Server)
    ensures Read(Clean(ServerDoc(c, server)), true) == ServerReading(server)
  {
    hide Written, Unescape, Read, Clean;
    var d := ServerDoc(c, server);
    ThreeRead(d.members[0], d.members[1], d.members[2]);
    WrittenReads(server.command);
    WrittenReads(server.cwd);
    ArgsReadAsList(server.args);
  }

  lemma ArgsReadAsList(args: seq<string>)
    ensures Read(Clean(ArrayDoc([], ArgDocs(args, true), false)), true) == List(Texts(args))
  {
    ArgsRead(args, true);
  }

  lemma AllowReads(entries: seq<Entry>)
    ensures Read(Clean(AllowDoc(entries)), true) == List(Texts(OnNames(entries)))
  {
    EntriesRead(entries, [Space("\n")]);
  }

  /** The round trip. Whatever lines are switched on, whether as written or by removing
      comment marks later, the comment pass leaves valid JSON, whose value is the file's
      server and exactly the names switched on, in order. */
  lemma ConfigRoundTrip(c: Comments, schema: string, server: Server, entries: seq<Entry>)
    requires ValidEntries(entries) && ValidComments(c)
    ensures var left := Clean(ConfigDoc(c, schema, server, entries));
            && Strip(ConfigText(c, schema, server, entries), "") == Print(left) + "\n"
            && Valid(left)
            && Read(left, true) == ConfigReading(schema, server, OnNames(entries))
  {
    hide ConfigText, ConfigDoc, Strip, PrintDoc, Print, Clean, Read, ConfigReading;
    var d := ConfigDoc(c, schema, server, entries);
    ConfigPrints(c, schema, server, entries);
    ConfigIsValid(c, schema, server, entries);
    GapsAreValid(c);
    StripDocument([], d, [Space("\n")]);
    CleanEnds(Print(Clean(d)));
    CleanIsValid(d);
    ConfigReads(c, schema, server, entries);
  }

  lemma CleanEnds(s: string)
    ensures CleanGap([]) + s + CleanGap([Space("\n")]) == s + "\n"
  {
    assert [Space("\n")][1..] == [];
    assert CleanGap([Space("\n")]) == "\n" + CleanGap([]);
  }

  lemma ConfigReads(c: Comments, schema: string, server: Server, entries: seq<Entry>)
    ensures Read(Clean(ConfigDoc(c, schema, server, entries)), true)
            == ConfigReading(schema, server, OnNames(entries))
  {
    hide Written, Unescape, Read, Clean, ServerDoc, AllowDoc, ServerReading;
    var d := ConfigDoc(c, schema, server, entries);
    ThreeRead(d.members[0], d.members[1], d.members[2]);
    WrittenReads(schema);
    ServerReads(c, server);
    AllowReads(entries);
  }

  lemma {:induction false} OnNamesAppend(a: seq<Entry>, b: seq<Entry>)
    ensures OnNames(a + b) == OnNames(a) + OnNames(b)
  {
    if a == [] {
      assert a + b == b;
    } else {
      assert (a + b)[1..] == a[1..] + b;
      OnNamesAppend(a[1..], b);
    }
  }

  /** Uncommenting a line adds exactly its tool, in its place. */
  lemma UncommentingAddsThatName(entries: seq<Entry>, i: nat)
    requires i < |entries| && !entries[i].on
    ensures var before, after := OnNames(entries[..i]), OnNames(entries[i + 1..]);
            && OnNames(entries) == before + after
            && OnNames(entries[i := entries[i].(on := true)]) == before + [entries[i].name] + after
  {
    hide OnNames;
    var e := entries[i];
    assert entries == entries[..i] + ([e] + entries[i + 1..]);
    assert entries[i := e.(on := true)] == entries[..i] + ([e.(on := true)] + entries[i + 1..]);
    OnNamesAppend(entries[..i], [e] + entries[i + 1..]);
    OnNamesAppend(entries[..i], [e.(on := true)] + entries[i + 1..]);
    OnNamesAppend([e], entries[i + 1..]);
    OnNamesAppend([e.(on := true)], entries[i + 1..]);
    OneName(e);
    OneName(e.(on := true));
  }

  lemma OneName(e: Entry)
    ensures OnNames([e]) == if e.on then [e.name] else []
  {
    assert [e][1..] == [];
  }

  // ---- Editing the file ----

  lemma {:induction false} EntryLinesAppend(a: seq<Entry>, b: seq<Entry>)
    ensures EntryLines(a + b) == EntryLines(a) + EntryLines(b)
  {
    hide EntryLine;
    if a == [] {
      assert a + b == b;
    } else {
      assert (a + b)[1..] == a[1..] + b;
      EntryLinesAppend(a[1..], b);
    }
  }

  /** The file up to its entries. */
  function Head(c: Comments, schema: string, server: Server): string {
    "{" + MemberText("\n  ", "$schema", QuoteString(schema), "")
    + "," + MemberText("\n  " + Comment(c.server) + "  ", "server", ServerText(c, server), "")
    + "," + ("\n  " + Comment(c.allow) + "  " + Comment(c.allowMore) + "  " + "\"" + "allow" + "\": " + "[\n")
  }

  lemma HeadAndEntries(c: Comments, schema: string, server: Server, entries: seq<Entry>)
    ensures ConfigText(c, schema, server, entries) == Head(c, schema, server) + EntryLines(entries) + "  ]\n}\n"
  {
    var first := "{" + MemberText("\n  ", "$schema", QuoteString(schema), "")
                 + "," + MemberText("\n  " + Comment(c.server) + "  ", "server", ServerText(c, server), "") + ",";
    var before := "\n  " + Comment(c.allow) + "  " + Comment(c.allowMore) + "  ";
    hide MemberText, EntryLines, ServerText, QuoteString, Comment;
    AllowMember(first, before, EntryLines(entries));
  }

  lemma AllowMember(first: string, before: string, lines: string)
    ensures first + MemberText(before, "allow", "[\n" + lines + "  ]", "\n") + "}\n"
            == first + (before + "\"" + "allow" + "\": " + "[\n") + lines + "  ]\n}\n"
  {}

  lemma OneLineOn(name: string, note: string)
    ensures var rest := QuoteString(name) + ", //" + note;
            && EntryLine(Entry(name, note, false)) == "    " + ("// " + rest)
            && EntryLine(Entry(name, note, true)) == "    " + rest
  {
    hide QuoteString;
    var q := QuoteString(name);
    assert "    " + "// " + q + ", //" + note == "    " + ("// " + (q + ", //" + note));
    assert "    " + "" + q + ", //" + note == "    " + (q + ", //" + note);
  }

  lemma LineInFile(head: string, before: string, line: string, after: string, tail: string)
    ensures head + (before + (("    " + line + "\n") + after)) + tail == (head + before + "    ") + (line + "\n" + after + tail)
  {}

  lemma MarkInFront(p: string, rest: string, more: string)
    ensures p + (("// " + rest) + more) == p + "// " + (rest + more)
  {}

  /** The file's text before an entry's name or its comment mark, and from the name on. */
  function Before(c: Comments, schema: string, server: Server, entries: seq<Entry>, i: nat): string
    requires i < |entries|
  {
    Head(c, schema, server) + EntryLines(entries[..i]) + "    "
  }

  function After(entries: seq<Entry>, i: nat): string
    requires i < |entries|
  {
    QuoteString(entries[i].name) + ", //" + entries[i].note + "\n" + EntryLines(entries[i + 1..]) + "  ]\n}\n"
  }

  lemma EntryInFile(c: Comments, schema: string, server: Server, entries: seq<Entry>, i: nat)
    requires i < |entries|
    ensures ConfigText(c, schema, server, entries)
            == Before(c, schema, server, entries, i) + (if entries[i].on then "" else "// ") + After(entries, i)
  {
    var e := entries[i];
    var head := Head(c, schema, server);
    var rest := QuoteString(e.name) + ", //" + e.note;
    var before, after := EntryLines(entries[..i]), EntryLines(entries[i + 1..]);
    HeadAndEntries(c, schema, server, entries);
    assert entries == entries[..i] + ([e] + entries[i + 1..]);
    EntryLinesAppend(entries[..i], [e] + entries[i + 1..]);
    OneLineOn(e.name, e.note);
    assert ([e] + entries[i + 1..])[1..] == entries[i + 1..];
    var line := if e.on then rest else "// " + rest;
    assert EntryLine(e) == "    " + line;
    hide Head, QuoteString, EntryLine, ConfigText;
    assert EntryLines([e] + entries[i + 1..]) == "    " + line + "\n" + after;
    hide EntryLines;
    LineInFile(head, before, line, after, "  ]\n}\n");
    var more := "\n" + after + "  ]\n}\n";
    Regroup(rest, after);
    if !e.on {
      MarkInFront(head + before + "    ", rest, more);
      Grouped("// " + rest, after);
    } else {
      Grouped(rest, after);
      assert head + before + "    " + "" == head + before + "    ";
    }
  }

  lemma Regroup(rest: string, after: string)
    ensures rest + "\n" + after + "  ]\n}\n" == rest + ("\n" + after + "  ]\n}\n")
  {}

  lemma Grouped(line: string, after: string)
    ensures line + "\n" + after + "  ]\n}\n" == line + ("\n" + after + "  ]\n}\n")
  {}

  /** Switching an entry on changes nothing before its mark, nor from its name on. */
  lemma OthersStand(c: Comments, schema: string, server: Server, entries: seq<Entry>, i: nat)
    requires i < |entries|
    ensures var next := entries[i := entries[i].(on := true)];
            Before(c, schema, server, next, i) == Before(c, schema, server, entries, i) && After(next, i) == After(entries, i)
  {
    var next := entries[i := entries[i].(on := true)];
    assert next[..i] == entries[..i] && next[i + 1..] == entries[i + 1..];
  }

  /** Deleting the comment mark in front of an entry, and nothing else, leaves a file that
      reads as before with exactly that tool added, in its place. */
  lemma UncommentingTheText(c: Comments, schema: string, server: Server, entries: seq<Entry>, i: nat)
    requires ValidEntries(entries) && ValidComments(c) && i < |entries| && !entries[i].on
    ensures var before, after := Before(c, schema, server, entries, i), After(entries, i);
            var edited := entries[i := entries[i].(on := true)];
            var left := Clean(ConfigDoc(c, schema, server, edited));
            && ConfigText(c, schema, server, entries) == before + "// " + after
            && Strip(before + after, "") == Print(left) + "\n" && Valid(left)
            && Read(left, true)
               == ConfigReading(schema, server, OnNames(entries[..i]) + [entries[i].name] + OnNames(entries[i + 1..]))
  {
    hide ConfigText, ConfigDoc, Strip, Print, Clean, Read, ConfigReading, Before, After, OnNames;
    var edited := entries[i := entries[i].(on := true)];
    EntryInFile(c, schema, server, entries, i);
    OthersStand(c, schema, server, entries, i);
    EntryInFile(c, schema, server, edited, i);
    assert ValidEntries(edited) by { assert forall e | e in edited :: e in entries || e == edited[i]; }
    assert Before(c, schema, server, edited, i) + "" == Before(c, schema, server, edited, i);
    UncommentingAddsThatName(entries, i);
    ConfigRoundTrip(c, schema, server, edited);
  }

  /** The entries with some more of them on. */
  function Switched(entries: seq<Entry>, picked: seq<nat>): seq<Entry> {
    seq(|entries|, i requires 0 <= i < |entries| => if i in picked then entries[i].(on := true) else entries[i])
  }

  /** Entries still off, each named once. */
  predicate Pickable(entries: seq<Entry>, picked: seq<nat>) {
    && (forall k | 0 <= k < |picked| :: picked[k] < |entries| && !entries[picked[k]].on)
    && (forall j, k | 0 <= j < k < |picked| :: picked[j] != picked[k])
  }

  /** A text of the file with the comment mark in front of each picked entry deleted, one
      after the other, each where it then stands. */
  function WithoutMarks(c: Comments, schema: string, server: Server, entries: seq<Entry>, picked: seq<nat>,
                        text: string): string
    requires forall k | 0 <= k < |picked| :: picked[k] < |entries|
    decreases |picked|
  {
    if picked == [] then text
    else
      var i := picked[0];
      var at := |Before(c, schema, server, entries, i)|;
      var edited := if at + 3 <= |text| && text[at..at + 3] == "// " then text[..at] + text[at + 3..] else text;
      WithoutMarks(c, schema, server, entries[i := entries[i].(on := true)], picked[1..], edited)
  }

  lemma MarkDeleted(text: string, before: string, after: string)
    requires text == before + "// " + after
    ensures |before| + 3 <= |text| && text[|before|..|before| + 3] == "// "
    ensures text[..|before|] + text[|before| + 3..] == before + after
  {}

  lemma {:induction false} MarksDeleted(c: Comments, schema: string, server: Server, entries: seq<Entry>,
                                        picked: seq<nat>)
    requires Pickable(entries, picked)
    ensures WithoutMarks(c, schema, server, entries, picked, ConfigText(c, schema, server, entries))
            == ConfigText(c, schema, server, Switched(entries, picked))
    decreases |picked|
  {
    hide ConfigText, Before, After;
    if picked == [] {
      assert Switched(entries, picked) == entries;
    } else {
      var i, more := picked[0], picked[1..];
      var next := entries[i := entries[i].(on := true)];
      EntryInFile(c, schema, server, entries, i);
      OthersStand(c, schema, server, entries, i);
      EntryInFile(c, schema, server, next, i);
      var before, after := Before(c, schema, server, entries, i), After(entries, i);
      assert before + "" == before;
      MarkDeleted(ConfigText(c, schema, server, entries), before, after);
      forall k | 0 <= k < |more| ensures more[k] < |next| && !next[more[k]].on { assert picked[k + 1] == more[k]; }
      MarksDeleted(c, schema, server, next, more);
      assert picked == [i] + more;
      assert Switched(next, more) == Switched(entries, picked);
    }
  }

  /** Deleting the comment marks in front of any entries, in any order, leaves a file that
      reads as before with exactly those tools added, each in its place. */
  lemma UncommentingAnyLines(c: Comments, schema: string, server: Server, entries: seq<Entry>, picked: seq<nat>)
    requires ValidEntries(entries) && ValidComments(c)
    requires Pickable(entries, picked)
    ensures var left := Clean(ConfigDoc(c, schema, server, Switched(entries, picked)));
            && Strip(WithoutMarks(c, schema, server, entries, picked, ConfigText(c, schema, server, entries)), "")
               == Print(left) + "\n"
            && Valid(left) && Read(left, true) == ConfigReading(schema, server, OnNames(Switched(entries, picked)))
  {
    hide ConfigText, ConfigDoc, Strip, Print, Clean, Read, ConfigReading, WithoutMarks, OnNames;
    var edited := Switched(entries, picked);
    MarksDeleted(c, schema, server, entries, picked);
    assert ValidEntries(edited) by {
      forall e | e in edited ensures exists f :: f in entries && (e == f || e == f.(on := true)) {
        var k :| 0 <= k < |edited| && edited[k] == e;
        assert entries[k] in entries;
      }
    }
    ConfigRoundTrip(c, schema, server, edited);
  }

  /** So a tool is then allowed exactly when its entry was on or is one of those picked. */
  lemma {:induction false} SwitchedNames(entries: seq<Entry>, picked: seq<nat>, name: string)
    ensures name in OnNames(Switched(entries, picked))
            <==> exists i | 0 <= i < |entries| :: entries[i].name == name && (entries[i].on || i in picked)
  {
    var edited := Switched(entries, picked);
    NamesOn(edited, name);
    forall i | 0 <= i < |entries| ensures edited[i].name == entries[i].name && (edited[i].on <==> entries[i].on || i in picked) {}
    hide OnNames, Switched;
  }

  lemma {:induction false} NamesOn(entries: seq<Entry>, name: string)
    ensures name in OnNames(entries) <==> exists i | 0 <= i < |entries| :: entries[i].name == name && entries[i].on
  {
    if entries != [] {
      NamesOn(entries[1..], name);
      if entries[0].on && entries[0].name == name { assert name in OnNames(entries); }
      if i :| 0 <= i < |entries| && entries[i].name == name && entries[i].on {
        if i > 0 { assert entries[1..][i - 1] == entries[i]; }
      }
      if i :| 0 <= i < |entries| - 1 && entries[1..][i].name == name && entries[1..][i].on {
        assert entries[i + 1] == entries[1..][i];
      }
    }
  }
}
