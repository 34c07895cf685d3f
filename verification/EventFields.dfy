/** Event blocks as a server writes them (sections 9.2.4 and 9.2.5 of the WHATWG HTML
    standard), and that the filter finds in each exactly the values its data lines were
    written for. */
module EventFields {
  import opened EventRewrite

  /** A line of a block: a value under `data`, after the colon or after the colon and a space;
      `data` alone; a comment; another field, with or without a colon; or nothing. */
  datatype SourceLine =
    | Data(value: string, spaced: bool)
    | BareData
    | Comment(text: string)
    | Other(name: string, more: string)
    | Bare(name: string)
    | Nothing

  /** A value that starts with a space needs the space before it. */
  predicate Legal(w: SourceLine) {
    match w
    case Data(value, spaced) => OneLine(value) && (spaced || value == "" || value[0] != ' ')
    case BareData => true
    case Comment(text) => OneLine(text)
    case Other(name, more) => OneLine(name) && OneLine(more) && name !in {"", "data"} && ':' !in name
    case Bare(name) => OneLine(name) && name !in {"", "data"} && ':' !in name
    case Nothing => true
  }

  function LineOf(w: SourceLine): string {
    match w
    case Data(value, spaced) => (if spaced then "data: " else "data:") + value
    case BareData => "data"
    case Comment(text) => ":" + text
    case Other(name, more) => name + ":" + more
    case Bare(name) => name
    case Nothing => ""
  }

  function LinesOf(ws: seq<SourceLine>): (r: seq<string>)
    ensures |r| == |ws|
  {
    if ws == [] then [] else [LineOf(ws[0])] + LinesOf(ws[1..])
  }

  /** The values written, in order. */
  function ValuesOf(ws: seq<SourceLine>): seq<string> {
    if ws == [] then []
    else
      (match ws[0]
       case Data(value, _) => [value]
       case BareData => [""]
       case _ => []) + ValuesOf(ws[1..])
  }

  /** The other fields, as they stand. */
  function OthersOf(ws: seq<SourceLine>): seq<string> {
    if ws == [] then []
    else (if ws[0].Other? || ws[0].Bare? then [LineOf(ws[0])] else []) + OthersOf(ws[1..])
  }

  lemma {:induction false} ColonIs(line: string, i: nat)
    requires i <= |line| && ':' !in line[..i] && (i < |line| ==> line[i] == ':')
    ensures Colon(line) == i
  {
    if i > 0 {
      assert line[0] == line[..i][0];
      assert line[1..][..i - 1] == line[..i][1..];
      ColonIs(line[1..], i - 1);
    }
  }

  /** A name and a colon are read as that field, with what follows less one space. */
  lemma NamedIsRead(name: string, more: string)
    requires ':' !in name
    ensures var line := name + ":" + more;
            && FieldOf(line) == name && (IsComment(line) <==> name == "")
            && ValueOf(line) == if more != "" && more[0] == ' ' then more[1..] else more
  {
    var line := name + ":" + more;
    assert line[..|name|] == name && line[|name| + 1..] == more && line[|name|] == ':';
    ColonIs(line, |name|);
    if name != "" { assert line[0] == name[0] && name[0] in name; }
  }

  lemma BareIsRead(name: string)
    requires ':' !in name
    ensures FieldOf(name) == name && ValueOf(name) == "" && !IsComment(name)
  {
    assert name[..|name|] == name;
    ColonIs(name, |name|);
    if name != "" { assert name[0] in name; }
  }

  /** One line is data exactly when it was written as data, and then has the value it was
      written for. */
  lemma LineIsRead(w: SourceLine)
    requires Legal(w)
    ensures IsData(LineOf(w)) <==> w.Data? || w.BareData?
    ensures w.Data? ==> ValueOf(LineOf(w)) == w.value
    ensures w.BareData? ==> ValueOf(LineOf(w)) == ""
    ensures IsOther(LineOf(w)) <==> w.Other? || w.Bare?
  {
    hide FieldOf, ValueOf, Colon, OneLine;
    match w
    case Data(value, spaced) =>
      NamedIsRead("data", if spaced then " " + value else value);
      assert LineOf(w) == "data" + ":" + if spaced then " " + value else value;
    case BareData => BareIsRead("data");
    case Comment(text) =>
    case Other(name, more) => NamedIsRead(name, more);
    case Bare(name) => BareIsRead(name);
    case Nothing => BareIsRead("");
  }

  lemma {:induction false} LinesAreRead(ws: seq<SourceLine>)
    requires forall w | w in ws :: Legal(w)
    ensures DataOf(LinesOf(ws)) == ValuesOf(ws) && RestOf(LinesOf(ws)) == OthersOf(ws)
  {
    if ws != [] {
      hide Legal, LineOf, IsData, IsOther, ValueOf;
      assert ws[0] in ws && forall w | w in ws[1..] :: w in ws;
      LineIsRead(ws[0]);
      LinesAreRead(ws[1..]);
      assert LinesOf(ws)[1..] == LinesOf(ws[1..]);
    }
  }

  // ---- Blocks ----

  /** Lines with a line end after each but the last. A bare CR stands only where no LF follows. */
  predicate EndsFit(ws: seq<SourceLine>, ends: seq<string>) {
    && |ends| + 1 == |ws|
    && forall k | 0 <= k < |ends| ::
         ends[k] == "\n" || ends[k] == "\r\n"
         || (ends[k] == "\r" && (LineOf(ws[k + 1]) != "" || k + 1 == |ends| || ends[k + 1] != "\n"))
  }

  function BlockOf(ws: seq<SourceLine>, ends: seq<string>): string
    requires |ends| + 1 == |ws|
  {
    if ends == [] then LineOf(ws[0]) else LineOf(ws[0]) + ends[0] + BlockOf(ws[1..], ends[1..])
  }

  lemma LegalIsOneLine(w: SourceLine)
    requires Legal(w)
    ensures OneLine(LineOf(w))
  {}

  lemma BlockStarts(ws: seq<SourceLine>, ends: seq<string>)
    requires EndsFit(ws, ends) && forall w | w in ws :: Legal(w)
    ensures var b := BlockOf(ws, ends);
            b != "" && b[0] == '\n' ==> LineOf(ws[0]) == "" && ends != [] && ends[0] == "\n"
  {
    assert ws[0] in ws;
    LegalIsOneLine(ws[0]);
    hide Legal, LineOf;
    var line := LineOf(ws[0]);
    if line != "" { assert line[0] in line; }
  }

  lemma {:induction false} BlockLines(ws: seq<SourceLine>, ends: seq<string>)
    requires EndsFit(ws, ends) && forall w | w in ws :: Legal(w)
    ensures Lines(BlockOf(ws, ends)) == LinesOf(ws)
  {
    hide Legal, LineOf, Lines;
    assert ws[0] in ws && forall w | w in ws[1..] :: w in ws;
    LegalIsOneLine(ws[0]);
    var line := LineOf(ws[0]);
    UnfoldLines(line);
    if ends == [] {
      assert LinesOf(ws[1..]) == [];
    } else {
      var more := BlockOf(ws[1..], ends[1..]);
      FitTail(ws, ends);
      BlockStarts(ws[1..], ends[1..]);
      if line != "" { assert line[|line| - 1] in line; }
      assert CutsAt(line, ends[0], more);
      LinesCut(line, ends[0], more);
      BlockLines(ws[1..], ends[1..]);
    }
  }

  lemma FitTail(ws: seq<SourceLine>, ends: seq<string>)
    requires EndsFit(ws, ends) && ends != []
    ensures EndsFit(ws[1..], ends[1..])
  {
    hide LineOf;
    forall k | 0 <= k < |ends| - 1 ensures ends[1..][k] == ends[k + 1] && ws[1..][k + 1] == ws[k + 2] {}
  }

  /** A block written with any line ends, spacing, comments and other fields is read for
      exactly the values it was written for, in order; the other fields are kept as they
      stand. */
  lemma BlockIsRead(ws: seq<SourceLine>, ends: seq<string>)
    requires EndsFit(ws, ends) && forall w | w in ws :: Legal(w)
    ensures DataOf(Lines(BlockOf(ws, ends))) == ValuesOf(ws) && RestOf(Lines(BlockOf(ws, ends))) == OthersOf(ws)
  {
    BlockLines(ws, ends);
    LinesAreRead(ws);
  }

  /** And every line can be so written. */
  lemma EveryLineIsWritten(line: string) returns (w: SourceLine)
    requires OneLine(line)
    ensures Legal(w) && LineOf(w) == line
  {
    var i := Colon(line);
    BeforeColon(line);
    var name := line[..i];
    assert OneLine(name) by { assert forall c | c in name :: c in line; }
    if i == |line| {
      assert name == line;
      return if line == "" then Nothing else if line == "data" then BareData else Bare(line);
    }
    var more := line[i + 1..];
    assert OneLine(more) by { assert forall c | c in more :: c in line; }
    assert line == name + ":" + more;
    if name == "" {
      return Comment(more);
    } else if name != "data" {
      return Other(name, more);
    } else if more != "" && more[0] == ' ' {
      assert OneLine(more[1..]) by { assert forall c | c in more[1..] :: c in more; }
      assert more == " " + more[1..];
      return Data(more[1..], true);
    } else {
      return Data(more, false);
    }
  }

  lemma {:induction false} BeforeColon(line: string)
    ensures ':' !in line[..Colon(line)]
    ensures Colon(line) < |line| ==> line[Colon(line)] == ':'
  {
    if line != "" && line[0] != ':' {
      BeforeColon(line[1..]);
      assert line[..Colon(line)] == [line[0]] + line[1..][..Colon(line[1..])];
    }
  }
}
