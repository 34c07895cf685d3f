/** Quoting arguments for a Windows command line, and the documented rules
    (CommandLineToArgvW) by which the started program splits it again. */
module WindowsQuoting {
  import opened Optional

  function Slashes(n: nat): (s: string)
    ensures |s| == n && forall c | c in s :: c == '\\'
  {
    seq(n, _ => '\\')
  }

  /** How many backslashes a text starts with. */
  function Run(s: string): (n: nat)
    ensures n <= |s| && s[..n] == Slashes(n)
    ensures n < |s| ==> s[n] != '\\'
  {
    if s == "" || s[0] != '\\' then 0 else 1 + Run(s[1..])
  }

  /** How many backslashes a text ends with. */
  function TrailingRun(s: string): (n: nat)
    ensures n <= |s|
    ensures n == 0 <==> s == "" || s[|s| - 1] != '\\'
  {
    if s == "" || s[|s| - 1] != '\\' then 0 else 1 + TrailingRun(s[..|s| - 1])
  }

  /** First replacement: backslashes before a quote are doubled and the quote escaped. */
  function EscapeQuotes(s: string): string
    decreases |s|
  {
    var k := Run(s);
    if k == |s| then s
    else Slashes(Doubled(k, s[k])) + [s[k]] + EscapeQuotes(s[k + 1..])
  }

  /** How many backslashes stand before a character once escaped: a quote's are doubled,
      and it gets one of its own. */
  function Doubled(k: nat, c: char): nat {
    if c == '"' then 2 * k + 1 else k
  }

  /** Second replacement: backslashes at the end are doubled. */
  function DoubleTrailing(s: string): string {
    s + Slashes(TrailingRun(s))
  }

  function Body(value: string): string {
    DoubleTrailing(EscapeQuotes(value))
  }

  function Quote(value: string): string {
    "\"" + Body(value) + "\""
  }

  /** The arguments quoted and joined with single spaces. */
  function CommandLine(args: seq<string>): string {
    if args == [] then ""
    else if |args| == 1 then Quote(args[0])
    else Quote(args[0]) + " " + CommandLine(args[1..])
  }

  /** Splitting a command line into arguments. `2n` backslashes and a quote are `n`
      backslashes and open or close quoting; `2n + 1` and a quote are `n` backslashes and
      a literal quote; other backslashes are literal; unquoted blanks separate. With
      `pairs`, two quotes inside quoting are one literal quote, as C run-times read them. */
  function SplitArguments(s: string, quoted: bool, arg: Option<string>, pairs: bool): seq<string>
    decreases |s|
  {
    var soFar := if arg.Some? then arg.value else "";
    var k := Run(s);
    if s == "" then
      if arg.Some? then [soFar] else []
    else if k < |s| && s[k] == '"' then
      var grown := soFar + Slashes(k / 2);
      if k % 2 == 1 then
        SplitArguments(s[k + 1..], quoted, Some(grown + "\""), pairs)
      else if pairs && quoted && k + 1 < |s| && s[k + 1] == '"' then
        SplitArguments(s[k + 2..], quoted, Some(grown + "\""), pairs)
      else
        SplitArguments(s[k + 1..], !quoted, Some(grown), pairs)
    else if k > 0 then
      SplitArguments(s[k..], quoted, Some(soFar + Slashes(k)), pairs)
    else if !quoted && (s[0] == ' ' || s[0] == '\t') then
      (if arg.Some? then [soFar] else []) + SplitArguments(s[1..], false, None, pairs)
    else
      SplitArguments(s[1..], quoted, Some(soFar + [s[0]]), pairs)
  }

  // ---- Runs of backslashes ----

  lemma {:induction false} RunOfSlashes(n: nat, rest: string)
    requires rest == "" || rest[0] != '\\'
    ensures Run(Slashes(n) + rest) == n
  {
    if n == 0 {
      assert Slashes(0) + rest == rest;
    } else {
      assert (Slashes(n) + rest)[1..] == Slashes(n - 1) + rest;
      RunOfSlashes(n - 1, rest);
    }
  }

  lemma {:induction false} TrailingRunOfSlashes(n: nat)
    ensures TrailingRun(Slashes(n)) == n
  {
    if n > 0 {
      assert Slashes(n)[..n - 1] == Slashes(n - 1);
      TrailingRunOfSlashes(n - 1);
    }
  }

  lemma {:induction false} TrailingRunAppend(a: string, b: string)
    requires a != "" && a[|a| - 1] != '\\'
    ensures TrailingRun(a + b) == TrailingRun(b)
  {
    if b == "" {
      assert a + b == a;
    } else if b[|b| - 1] == '\\' {
      assert (a + b)[..|a + b| - 1] == a + b[..|b| - 1];
      TrailingRunAppend(a, b[..|b| - 1]);
    }
  }

  lemma DoubleTrailingAppend(a: string, b: string)
    requires a != "" && a[|a| - 1] != '\\'
    ensures DoubleTrailing(a + b) == a + DoubleTrailing(b)
  {
    TrailingRunAppend(a, b);
  }

  // ---- One quoted argument ----

  /** What the splitter does on reaching a quote after `k` backslashes. */
  lemma AtQuote(k: nat, rest: string, quoted: bool, soFar: string, pairs: bool)
    requires pairs && quoted && k % 2 == 0 ==> rest == "" || rest[0] != '"'
    ensures SplitArguments(Slashes(k) + "\"" + rest, quoted, Some(soFar), pairs)
            == if k % 2 == 1 then SplitArguments(rest, quoted, Some(soFar + Slashes(k / 2) + "\""), pairs)
               else SplitArguments(rest, !quoted, Some(soFar + Slashes(k / 2)), pairs)
  {
    var s := Slashes(k) + "\"" + rest;
    assert s == Slashes(k) + ("\"" + rest);
    RunOfSlashes(k, "\"" + rest);
    assert s[k + 1..] == rest;
  }

  /** Inside quotes, backslashes before any other character are kept, and so is it. */
  lemma AtLiteral(k: nat, c: char, rest: string, soFar: string, pairs: bool)
    requires c != '"' && c != '\\'
    ensures SplitArguments(Slashes(k) + [c] + rest, true, Some(soFar), pairs)
            == SplitArguments(rest, true, Some(soFar + Slashes(k) + [c]), pairs)
  {
    var s := Slashes(k) + [c] + rest;
    assert s == Slashes(k) + ([c] + rest);
    RunOfSlashes(k, [c] + rest);
    RunOfSlashes(0, [c] + rest);
    assert Slashes(0) + ([c] + rest) == [c] + rest;
    assert ([c] + rest)[1..] == rest;
    if k > 0 {
      assert s[k..] == [c] + rest;
    } else {
      assert s == [c] + rest;
      assert soFar + Slashes(0) == soFar;
    }
  }

  /** The body of a value of backslashes alone. */
  lemma BodyOfSlashes(value: string)
    requires Run(value) == |value|
    ensures Body(value) == Slashes(2 * |value|)
  {
    TrailingRunOfSlashes(|value|);
    assert value == Slashes(|value|);
  }

  /** The body of a value starts with the escaped form of its first other character. */
  lemma BodyOfOther(value: string)
    requires Run(value) < |value|
    ensures var k := Run(value);
            Body(value) == Slashes(Doubled(k, value[k])) + [value[k]] + Body(value[k + 1..])
  {
    hide Run, TrailingRun, DoubleTrailing, Doubled;
    var k := Run(value);
    DoubleTrailingAppend(Slashes(Doubled(k, value[k])) + [value[k]], EscapeQuotes(value[k + 1..]));
  }

  lemma Regroup(first: string, body: string, rest: string)
    ensures first + body + "\"" + rest == first + (body + "\"" + rest)
  {}

  /** The body of a quoted argument and its closing quote add exactly the value. */
  lemma {:induction false} BodyIsRead(value: string, rest: string, soFar: string, pairs: bool)
    requires rest == "" || rest[0] != '"'
    ensures SplitArguments(Body(value) + "\"" + rest, true, Some(soFar), pairs)
            == SplitArguments(rest, false, Some(soFar + value), pairs)
    decreases |value|
  {
    hide SplitArguments, Body, Run;
    var k := Run(value);
    if k == |value| {
      BodyOfSlashes(value);
      AtQuote(2 * k, rest, true, soFar, pairs);
      assert value == Slashes(k);
    } else {
      var c, more := value[k], value[k + 1..];
      var after := Body(more) + "\"" + rest;
      var grown := soFar + Slashes(k) + [c];
      BodyOfOther(value);
      Regroup(Slashes(Doubled(k, c)) + [c], Body(more), rest);
      if c == '"' {
        AtQuote(2 * k + 1, after, true, soFar, pairs);
      } else {
        AtLiteral(k, c, after, soFar, pairs);
      }
      BodyIsRead(more, rest, grown, pairs);
      assert value == Slashes(k) + [c] + more;
      assert grown + more == soFar + value;
    }
  }

  lemma QuotedIsRead(value: string, rest: string, pairs: bool)
    requires rest == "" || rest[0] != '"'
    ensures SplitArguments(Quote(value) + rest, false, None, pairs)
            == SplitArguments(rest, false, Some(value), pairs)
  {
    var body := Body(value);
    var s := Quote(value) + rest;
    assert s == Slashes(0) + "\"" + (body + "\"" + rest);
    AtQuote(0, body + "\"" + rest, false, "", pairs);
    assert s[Run(s) + 1..] == body + "\"" + rest by { RunOfSlashes(0, s); assert Slashes(0) + s == s; }
    assert "" + Slashes(0) == "";
    BodyIsRead(value, rest, "", pairs);
    assert "" + value == value;
  }

  /** Quoting is undone: the program receives exactly the arguments, whichever way its
      run-time reads a doubled quote. */
  lemma {:induction false} ArgumentsSurvive(args: seq<string>, pairs: bool)
    ensures SplitArguments(CommandLine(args), false, None, pairs) == args
  {
    if |args| == 1 {
      QuotedIsRead(args[0], "", pairs);
      assert Quote(args[0]) + "" == CommandLine(args);
    } else if |args| > 1 {
      var rest := " " + CommandLine(args[1..]);
      QuotedIsRead(args[0], rest, pairs);
      assert CommandLine(args) == Quote(args[0]) + rest;
      assert rest[1..] == CommandLine(args[1..]);
      ArgumentsSurvive(args[1..], pairs);
      assert args == [args[0]] + args[1..];
    }
  }

  // ---- The program name, which is read without backslash escapes ----

  /** The position of the first quote, or the length when there is none. */
  function FirstQuote(s: string): (i: nat)
    ensures i <= |s| && '"' !in s[..i] && (i < |s| ==> s[i] == '"')
  {
    if s == "" || s[0] == '"' then 0 else 1 + FirstQuote(s[1..])
  }

  /** A quoted program name runs to the next quote; arguments follow. */
  function SplitCommandLine(s: string, pairs: bool): (r: seq<string>)
    requires s != "" && s[0] == '"'
    ensures r != []
  {
    var body := s[1..];
    var end := FirstQuote(body);
    [body[..end]] + if end == |body| then [] else SplitArguments(body[end + 1..], false, None, pairs)
  }

  lemma {:induction false} FirstQuoteAfter(a: string, rest: string)
    requires '"' !in a
    ensures FirstQuote(a + "\"" + rest) == |a|
  {
    var s := a + "\"" + rest;
    if a != "" {
      assert a[0] in a;
      assert s[1..] == a[1..] + "\"" + rest;
      FirstQuoteAfter(a[1..], rest);
    }
  }

  lemma {:induction false} NothingToEscape(s: string)
    requires '"' !in s
    ensures EscapeQuotes(s) == s
    decreases |s|
  {
    hide Run;
    var k := Run(s);
    if k < |s| {
      assert s[k] in s;
      assert forall c | c in s[k + 1..] :: c in s;
      NothingToEscape(s[k + 1..]);
      assert s == Slashes(k) + [s[k]] + s[k + 1..];
    }
  }

  /** What is read as the program name. */
  lemma ProgramIsRead(program: string, rest: string, pairs: bool)
    ensures var line := Quote(program) + rest;
            line != "" && line[0] == '"'
    ensures var read := SplitCommandLine(Quote(program) + rest, pairs);
            if '"' in program then '"' !in read[0]
            else && read[0] == program + Slashes(TrailingRun(program))
                 && read[1..] == SplitArguments(rest, false, None, pairs)
  {
    var line := Quote(program) + rest;
    assert line[1..] == Body(program) + "\"" + rest;
    if '"' !in program {
      NothingToEscape(program);
      var body := Body(program);
      FirstQuoteAfter(body, rest);
      assert (body + "\"" + rest)[..|body|] == body;
      assert (body + "\"" + rest)[|body| + 1..] == rest;
    }
  }

  lemma OneSpace(s: string, pairs: bool)
    ensures SplitArguments(" " + s, false, None, pairs) == SplitArguments(s, false, None, pairs)
  {
    assert (" " + s)[1..] == s;
  }

  /** The whole line gives back the program and its arguments exactly when the program
      name holds no quote and does not end in a backslash, as no path of a Windows
      executable does. */
  lemma CommandLineSurvives(program: string, args: seq<string>, pairs: bool)
    ensures var line := CommandLine([program] + args);
            line != "" && line[0] == '"'
            && (SplitCommandLine(line, pairs) == [program] + args
                <==> '"' !in program && TrailingRun(program) == 0)
  {
    hide SplitCommandLine, SplitArguments, TrailingRun, Quote;
    var rest := if args == [] then "" else " " + CommandLine(args);
    LineOf(program, args, rest);
    ProgramIsRead(program, rest, pairs);
    ArgumentsSurvive(args, pairs);
    OneSpace(CommandLine(args), pairs);
    var read := SplitCommandLine(CommandLine([program] + args), pairs);
    if '"' in program {
      assert '"' !in read[0];
    } else {
      assert read[0] == program + Slashes(TrailingRun(program));
      assert read[1..] == args;
      assert read == [read[0]] + args;
      var slashes := Slashes(TrailingRun(program));
      if slashes == "" {
        assert read[0] == program;
      } else {
        assert |read[0]| > |program|;
      }
    }
  }

  lemma LineOf(program: string, args: seq<string>, rest: string)
    requires rest == if args == [] then "" else " " + CommandLine(args)
    ensures var line := CommandLine([program] + args);
            line == Quote(program) + rest && line != "" && line[0] == '"'
  {
    assert ([program] + args)[1..] == args;
  }
}
