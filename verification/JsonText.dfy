/** JSON as text: a syntax tree that keeps every character (RFC 8259, sections 2 to 7),
    how it prints, and what its strings mean. */
module JsonText {

  predicate IsWs(c: char) {
    c == ' ' || c == '\t' || c == '\r' || c == '\n'
  }

  predicate Blank(s: string) {
    forall c | c in s :: IsWs(c)
  }

  /** A value as written. Strings and names hold the characters between the quotes; the
      other strings are the whitespace at each place the grammar allows it. */
  datatype Json =
    | Literal(text: string)
    | Str(raw: string)
    | Arr(inner: string, items: seq<Item>)
    | Obj(inner: string, members: seq<Member>)
  datatype Item = Item(before: string, value: Json, after: string)
  datatype Member = Member(before: string, raw: string, colon: string, gap: string, value: Json, after: string)

  // ---- Strings ----

  /** A name or string value: UTF-16 code units, which is how JavaScript compares them. */
  type Units = seq<nat>

  function UnitsOf(c: char): Units {
    var n := c as int;
    if n < 0x10000 then [n] else [0xD800 + (n - 0x10000) / 0x400, 0xDC00 + (n - 0x10000) % 0x400]
  }

  predicate IsHex(c: char) {
    '0' <= c <= '9' || 'a' <= c <= 'f' || 'A' <= c <= 'F'
  }

  function Hex(c: char): nat
    requires IsHex(c)
  {
    if c <= '9' then c as int - '0' as int
    else if c <= 'F' then c as int - 'A' as int + 10
    else c as int - 'a' as int + 10
  }

  /** What a two-character escape stands for. */
  function Escaped(c: char): nat {
    match c
    case 'b' => 8
    case 't' => 9
    case 'n' => 10
    case 'f' => 12
    case 'r' => 13
    case _ => c as int
  }

  predicate IsUnicodeEscape(raw: string) {
    |raw| >= 6 && raw[..2] == "\\u" && forall i | 2 <= i < 6 :: IsHex(raw[i])
  }

  predicate IsShortEscape(raw: string) {
    |raw| >= 2 && raw[0] == '\\' && raw[1] in {'"', '\\', '/', 'b', 'f', 'n', 'r', 't'}
  }

  predicate IsPlain(c: char) {
    c >= ' ' && c != '"' && c != '\\'
  }

  /** The characters a string may hold between its quotes. */
  predicate ValidRaw(raw: string) {
    raw == ""
    || (IsPlain(raw[0]) && ValidRaw(raw[1..]))
    || (IsShortEscape(raw) && ValidRaw(raw[2..]))
    || (IsUnicodeEscape(raw) && ValidRaw(raw[6..]))
  }

  /** The string a valid raw text stands for. */
  function Unescape(raw: string): Units {
    if raw == "" then []
    else if raw[0] != '\\' then UnitsOf(raw[0]) + Unescape(raw[1..])
    else if IsUnicodeEscape(raw) then
      [0x1000 * Hex(raw[2]) + 0x100 * Hex(raw[3]) + 0x10 * Hex(raw[4]) + Hex(raw[5])] + Unescape(raw[6..])
    else if |raw| >= 2 then [Escaped(raw[1])] + Unescape(raw[2..])
    else []
  }

  function NameOf(m: Member): Units {
    Unescape(m.raw)
  }

  // ---- Writing strings, as JSON.stringify does ----

  function HexDigit(n: nat): char
    requires n < 16
  {
    if n < 10 then n as char + '0' else (n - 10) as char + 'a'
  }

  function EscapeChar(c: char): string {
    match c
    case '"' => "\\\""
    case '\\' => "\\\\"
    case '\n' => "\\n"
    case '\r' => "\\r"
    case '\t' => "\\t"
    case _ =>
      if c as int == 8 then "\\b"
      else if c as int == 12 then "\\f"
      else if c < ' ' then "\\u00" + [HexDigit(c as int / 16), HexDigit(c as int % 16)]
      else [c]
  }

  function EscapeString(s: string): string {
    if s == "" then "" else EscapeChar(s[0]) + EscapeString(s[1..])
  }

  function QuoteString(s: string): string {
    "\"" + EscapeString(s) + "\""
  }

  function UnitsOfString(s: string): Units {
    if s == "" then [] else UnitsOf(s[0]) + UnitsOfString(s[1..])
  }

  /** One written character, alone, is a valid text for itself. */
  lemma EscapeCharReads(c: char, rest: string)
    requires ValidRaw(rest)
    ensures ValidRaw(EscapeChar(c) + rest)
    ensures Unescape(EscapeChar(c) + rest) == UnitsOf(c) + Unescape(rest)
  {
    var s := EscapeChar(c) + rest;
    if |EscapeChar(c)| == 6 {
      assert s[6..] == rest;
      assert s[..2] == "\\u";
      assert IsUnicodeEscape(s);
      assert !IsShortEscape(s);
    } else if |EscapeChar(c)| == 2 {
      assert s[2..] == rest;
      assert IsShortEscape(s);
      assert !IsUnicodeEscape(s) by { assert s[1] != 'u'; assert s[..2][1] == s[1] || |s| < 6; }
    } else {
      assert s[1..] == rest;
    }
  }

  /** Writing a string and reading it back gives the string. */
  lemma {:induction false} WrittenStringReads(s: string)
    ensures ValidRaw(EscapeString(s))
    ensures Unescape(EscapeString(s)) == UnitsOfString(s)
  {
    if s != "" {
      WrittenStringReads(s[1..]);
      EscapeCharReads(s[0], EscapeString(s[1..]));
    }
  }

  // ---- Spellings ----

  /** One character of a string as RFC 8259, section 7, lets it be written: itself, a
      two-character escape, or a code unit in four hexadecimal digits, each in either case. */
  datatype Spelling =
    | Itself(c: char)
    | Short(c: char)
    | Code(unit: nat, upper: (bool, bool, bool, bool))

  /** What the two-character escapes stand for. */
  const SHORT: map<char, nat> :=
    map['"' := 0x22, '\\' := 0x5C, '/' := 0x2F, 'b' := 0x08, 'f' := 0x0C, 'n' := 0x0A, 'r' := 0x0D, 't' := 0x09]

  predicate Spellable(p: Spelling) {
    match p
    case Itself(c) => IsPlain(c)
    case Short(c) => c in SHORT
    case Code(unit, _) => unit < 0x10000
  }

  function CaseDigit(n: nat, upper: bool): char
    requires n < 16
  {
    if n < 10 then n as char + '0' else (n - 10) as char + if upper then 'A' else 'a'
  }

  function Spell(p: Spelling): string
    requires Spellable(p)
  {
    match p
    case Itself(c) => [c]
    case Short(c) => ['\\', c]
    case Code(unit, upper) =>
      "\\u" + [CaseDigit(unit / 0x1000, upper.0), CaseDigit(unit / 0x100 % 0x10, upper.1),
               CaseDigit(unit / 0x10 % 0x10, upper.2), CaseDigit(unit % 0x10, upper.3)]
  }

  function MeaningOf(p: Spelling): Units
    requires Spellable(p)
  {
    match p
    case Itself(c) => UnitsOf(c)
    case Short(c) => [SHORT[c]]
    case Code(unit, _) => [unit]
  }

  function SpellAll(ps: seq<Spelling>): string
    requires forall p | p in ps :: Spellable(p)
  {
    if ps == [] then "" else Spell(ps[0]) + SpellAll(ps[1..])
  }

  function MeaningOfAll(ps: seq<Spelling>): Units
    requires forall p | p in ps :: Spellable(p)
  {
    if ps == [] then [] else MeaningOf(ps[0]) + MeaningOfAll(ps[1..])
  }

  lemma DigitIsRead(n: nat, upper: bool)
    requires n < 16
    ensures IsHex(CaseDigit(n, upper)) && Hex(CaseDigit(n, upper)) == n
  {}

  /** A code unit's four digits read as it, in any case. */
  lemma CodeIsRead(unit: nat, upper: (bool, bool, bool, bool), rest: string)
    requires unit < 0x10000
    ensures var raw := Spell(Code(unit, upper)) + rest;
            IsUnicodeEscape(raw) && raw[6..] == rest && Unescape(raw) == [unit] + Unescape(rest)
  {
    var a, b, c, d := unit / 0x1000, unit / 0x100 % 0x10, unit / 0x10 % 0x10, unit % 0x10;
    FourDigits(unit);
    DigitIsRead(a, upper.0);
    DigitIsRead(b, upper.1);
    DigitIsRead(c, upper.2);
    DigitIsRead(d, upper.3);
    hide CaseDigit, IsHex, Hex;
    CodeText(CaseDigit(a, upper.0), CaseDigit(b, upper.1), CaseDigit(c, upper.2), CaseDigit(d, upper.3), rest);
  }

  lemma CodeText(a: char, b: char, c: char, d: char, rest: string)
    ensures var raw := "\\u" + [a, b, c, d] + rest;
            && |raw| >= 6 && raw[..2] == "\\u" && raw[0] == '\\' && raw[6..] == rest
            && raw[2] == a && raw[3] == b && raw[4] == c && raw[5] == d
  {}

  lemma FourDigits(unit: nat)
    requires unit < 0x10000
    ensures unit / 0x1000 < 0x10
    ensures unit == 0x1000 * (unit / 0x1000) + 0x100 * (unit / 0x100 % 0x10) + 0x10 * (unit / 0x10 % 0x10) + unit % 0x10
  {}

  /** One spelling reads as what it means, whatever follows. */
  lemma SpellingIsRead(p: Spelling, rest: string)
    requires Spellable(p)
    ensures Unescape(Spell(p) + rest) == MeaningOf(p) + Unescape(rest)
    ensures ValidRaw(rest) ==> ValidRaw(Spell(p) + rest)
  {
    var raw := Spell(p) + rest;
    match p
    case Itself(c) => assert raw[1..] == rest;
    case Short(c) =>
      assert raw[2..] == rest && raw[1] == c != 'u';
      assert !IsUnicodeEscape(raw) by { assert |raw| >= 2 ==> raw[..2][1] == c; }
    case Code(unit, upper) => CodeIsRead(unit, upper, rest);
  }

  /** However a string is spelled, it reads as what its spellings mean. */
  lemma {:induction false} SpellingsAreRead(ps: seq<Spelling>)
    requires forall p | p in ps :: Spellable(p)
    ensures ValidRaw(SpellAll(ps)) && Unescape(SpellAll(ps)) == MeaningOfAll(ps)
  {
    if ps != [] {
      assert ps[0] in ps && forall p | p in ps[1..] :: p in ps;
      SpellingsAreRead(ps[1..]);
      SpellingIsRead(ps[0], SpellAll(ps[1..]));
    }
  }

  /** And every valid text is spelled so. */
  lemma {:induction false} EveryTextIsSpelled(raw: string) returns (ps: seq<Spelling>)
    requires ValidRaw(raw)
    ensures (forall p | p in ps :: Spellable(p)) && SpellAll(ps) == raw
    decreases |raw|
  {
    if raw == "" {
      ps := [];
    } else {
      var first, rest := FirstSpelling(raw);
      hide Spell, Spellable;
      var more := EveryTextIsSpelled(rest);
      ps := [first] + more;
      assert ps[1..] == more;
    }
  }

  lemma FirstSpelling(raw: string) returns (p: Spelling, rest: string)
    requires ValidRaw(raw) && raw != ""
    ensures Spellable(p) && raw == Spell(p) + rest && |rest| < |raw| && ValidRaw(rest)
  {
    hide Spell;
    if IsPlain(raw[0]) {
      p, rest := Itself(raw[0]), raw[1..];
      ItselfSpelled(raw);
    } else if IsUnicodeEscape(raw) {
      p, rest := CodeSpelled(raw);
    } else {
      p, rest := Short(raw[1]), raw[2..];
      ShortSpelled(raw);
    }
  }

  lemma ItselfSpelled(raw: string)
    requires raw != "" && IsPlain(raw[0])
    ensures raw == Spell(Itself(raw[0])) + raw[1..]
  {}

  lemma ShortSpelled(raw: string)
    requires IsShortEscape(raw)
    ensures raw[1] in SHORT && raw == Spell(Short(raw[1])) + raw[2..]
  {}

  lemma CodeSpelled(raw: string) returns (p: Spelling, rest: string)
    requires IsUnicodeEscape(raw) && ValidRaw(raw)
    ensures Spellable(p) && raw == Spell(p) + rest && rest == raw[6..] && ValidRaw(rest)
  {
    rest := raw[6..];
    var a, b, c, d := Hex(raw[2]), Hex(raw[3]), Hex(raw[4]), Hex(raw[5]);
    var upper := (raw[2] <= 'F', raw[3] <= 'F', raw[4] <= 'F', raw[5] <= 'F');
    p := Code(0x1000 * a + 0x100 * b + 0x10 * c + d, upper);
    DigitsOfUnit(a, b, c, d);
    forall i | 2 <= i < 6 ensures raw[i] == CaseDigit(Hex(raw[i]), raw[i] <= 'F') {}
    hide CaseDigit, Hex;
    assert raw[..2] == "\\u";
    assert raw == raw[..2] + [raw[2], raw[3], raw[4], raw[5]] + rest;
    assert raw[0] == raw[..2][0];
    assert !IsShortEscape(raw) by { assert raw[1] == raw[..2][1]; }
  }

  lemma DigitsOfUnit(a: nat, b: nat, c: nat, d: nat)
    requires a < 16 && b < 16 && c < 16 && d < 16
    ensures var unit := 0x1000 * a + 0x100 * b + 0x10 * c + d;
            unit < 0x10000 && unit / 0x1000 == a && unit / 0x100 % 0x10 == b && unit / 0x10 % 0x10 == c && unit % 0x10 == d
  {
    var unit := 0x1000 * a + 0x100 * b + 0x10 * c + d;
    Places(a, 0x100 * b + 0x10 * c + d, 0x1000, unit);
    Places(0x10 * a + b, 0x10 * c + d, 0x100, unit);
    Places(0x100 * a + 0x10 * b + c, d, 0x10, unit);
    Places(a, b, 0x10, 0x10 * a + b);
    Places(0x10 * a + b, c, 0x10, 0x100 * a + 0x10 * b + c);
  }

  lemma Places(q: nat, r: nat, m: nat, n: nat)
    requires n == m * q + r && r < m
    ensures n / m == q && n % m == r
  {
    var k := n / m - q;
    assert m * k == r - n % m by { assert n == m * (n / m) + n % m; assert m * (n / m - q) == m * (n / m) - m * q; }
    MultipleBounds(m, k);
  }

  lemma MultipleBounds(m: int, k: int)
    requires m >= 0
    ensures (k >= 1 ==> m * k >= m) && (k <= -1 ==> m * k <= -m)
  {}

  /** A character outside the first plane is two units, which give it back. */
  lemma PairsAreRead(c: char)
    ensures var u := UnitsOf(c);
            if c as int < 0x10000 then u == [c as int]
            else |u| == 2 && 0xD800 <= u[0] < 0xDC00 <= u[1] < 0xE000
                 && c as int == 0x10000 + 0x400 * (u[0] - 0xD800) + (u[1] - 0xDC00)
  {}

  /** Written characters are told apart by their own text, whatever follows. */
  lemma EscapeCharIsPrefixFree(c: char, d: char, x: string, y: string)
    requires EscapeChar(c) + x == EscapeChar(d) + y
    ensures c == d && x == y
  {
    var s := EscapeChar(c) + x;
    assert s[0] == EscapeChar(c)[0] && s[0] == EscapeChar(d)[0];
    if s[0] == '\\' {
      assert s[1] == EscapeChar(c)[1] && s[1] == EscapeChar(d)[1];
      if s[1] == 'u' {
        assert s[4] == EscapeChar(c)[4] && s[4] == EscapeChar(d)[4];
        assert s[5] == EscapeChar(c)[5] && s[5] == EscapeChar(d)[5];
      }
    }
    assert c == d;
    assert x == s[|EscapeChar(c)|..] && y == s[|EscapeChar(d)|..];
  }

  /** Two written strings that agree up to their closing quotes are the same string. */
  lemma {:induction false} WrittenStringsDiffer(a: string, b: string, x: string, y: string)
    requires EscapeString(a) + "\"" + x == EscapeString(b) + "\"" + y
    ensures a == b && x == y
  {
    hide EscapeChar;
    FirstWritten(a, x);
    FirstWritten(b, y);
    var s := EscapeString(a) + "\"" + x;
    if a == "" {
      assert x == s[1..] && y == s[1..];
    } else {
      var p, q := EscapeString(a[1..]) + "\"" + x, EscapeString(b[1..]) + "\"" + y;
      assert EscapeChar(a[0]) + p == s && EscapeChar(b[0]) + q == s;
      EscapeCharIsPrefixFree(a[0], b[0], p, q);
      WrittenStringsDiffer(a[1..], b[1..], x, y);
    }
  }

  lemma FirstWritten(a: string, x: string)
    ensures (EscapeString(a) + "\"" + x)[0] == '"' <==> a == ""
  {}

  // ---- Printing ----

  function Print(v: Json): string
    decreases v, 1
  {
    match v
    case Literal(text) => text
    case Str(raw) => "\"" + raw + "\""
    case Arr(inner, items) => "[" + (if items == [] then inner else PrintItems(items)) + "]"
    case Obj(inner, members) => "{" + (if members == [] then inner else PrintMembers(members)) + "}"
  }

  function PrintItem(item: Item): string
    decreases item, 2
  {
    item.before + Print(item.value) + item.after
  }

  function PrintItems(items: seq<Item>): string
    decreases items, 0
  {
    if items == [] then ""
    else PrintItem(items[0]) + if |items| == 1 then "" else "," + PrintItems(items[1..])
  }

  function PrintMember(m: Member): string
    decreases m, 2
  {
    m.before + "\"" + m.raw + "\"" + m.colon + ":" + m.gap + Print(m.value) + m.after
  }

  function PrintMembers(members: seq<Member>): string
    decreases members, 0
  {
    if members == [] then ""
    else PrintMember(members[0]) + if |members| == 1 then "" else "," + PrintMembers(members[1..])
  }

  /** The characters numbers, `true`, `false` and `null` are made of. */
  predicate IsLiteralChar(c: char) {
    'a' <= c <= 'z' || '0' <= c <= '9' || c in {'E', '+', '-', '.'}
  }

  predicate Valid(v: Json)
    decreases v
  {
    match v
    case Literal(text) => text != "" && forall c | c in text :: IsLiteralChar(c)
    case Str(raw) => ValidRaw(raw)
    case Arr(inner, items) => Blank(inner) && forall i | i in items :: ValidItem(i)
    case Obj(inner, members) => Blank(inner) && forall m | m in members :: ValidMember(m)
  }

  predicate ValidItem(i: Item)
    decreases i
  {
    Blank(i.before) && Valid(i.value) && Blank(i.after)
  }

  predicate ValidMember(m: Member)
    decreases m
  {
    Blank(m.before) && ValidRaw(m.raw) && Blank(m.colon) && Blank(m.gap) && Valid(m.value) && Blank(m.after)
  }
}
