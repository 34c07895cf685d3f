/** JSON numbers read without rounding: a sign, digits and an exponent in one normal form
    decide whether two texts denote the same rational. */
module ExactNumbers {
  import opened Numerals
  import opened Optional

  predicate IsDigit(c: char) {
    '0' <= c <= '9'
  }

  predicate Digits(s: string) {
    forall c | c in s :: IsDigit(c)
  }

  function DigitOf(c: char): nat
    requires IsDigit(c)
  {
    c as int - '0' as int
  }

  /** The natural number a digit text denotes. */
  function Nat(s: string): nat
    requires Digits(s)
  {
    if s == "" then 0 else 10 * Nat(s[..|s| - 1]) + DigitOf(s[|s| - 1])
  }

  // ---- Number texts ----

  /** The parts the pattern captures; an absent fraction or exponent is empty. */
  datatype Number = Number(minus: bool, whole: string, fraction: string, power: Power)
  datatype Power = NoPower | Power(mark: char, sign: string, digits: string) {
    function Value(): int
      requires Power? ==> Digits(digits)
    {
      if NoPower? then 0
      else
        var n: int := Nat(digits);
        if sign == "-" then -n else n
    }
  }

  predicate WellFormed(n: Number) {
    && n.whole != "" && Digits(n.whole) && Digits(n.fraction)
    && (n.power.Power? ==>
          n.power.mark in {'e', 'E'} && n.power.sign in {"", "+", "-"} && n.power.digits != "" && Digits(n.power.digits))
  }

  function Print(n: Number): string {
    (if n.minus then "-" else "") + (n.whole + PrintFraction(n))
  }

  function PrintPower(p: Power): string {
    if p.NoPower? then "" else [p.mark] + p.sign + p.digits
  }

  /** How many digits a text starts with. */
  function DigitRun(s: string): (n: nat)
    ensures n <= |s| && Digits(s[..n]) && (n < |s| ==> !IsDigit(s[n]))
  {
    if s == "" || !IsDigit(s[0]) then 0 else 1 + DigitRun(s[1..])
  }

  /** The pattern: an optional minus, digits, an optional fraction, an optional exponent. */
  function Match(text: string): Option<Number> {
    if text != "" && text[0] == '-' then MatchUnsigned(true, text[1..]) else MatchUnsigned(false, text)
  }

  function MatchUnsigned(minus: bool, s: string): Option<Number> {
    var w := DigitRun(s);
    if w == 0 then None else MatchFraction(minus, s[..w], s[w..])
  }

  function MatchFraction(minus: bool, whole: string, s: string): Option<Number> {
    var f := if s != "" && s[0] == '.' then DigitRun(s[1..]) else 0;
    var power := MatchPower(if f == 0 then s else s[f + 1..]);
    if power.None? then None
    else Some(Number(minus, whole, if f == 0 then "" else s[1..][..f], power.value))
  }

  function MatchPower(s: string): Option<Power> {
    if s == "" then Some(NoPower)
    else if s[0] != 'e' && s[0] != 'E' then None
    else
      var signed := |s| > 1 && (s[1] == '+' || s[1] == '-');
      var digits := s[if signed then 2 else 1..];
      if digits == "" || DigitRun(digits) < |digits| then None
      else Some(Power(s[0], if signed then [s[1]] else "", digits))
  }

  /** The pattern accepts exactly the printed numbers, and captures their parts. */
  lemma MatchIsPrint(text: string, n: Number)
    ensures Match(text) == Some(n) <==> WellFormed(n) && text == Print(n)
  {
    if WellFormed(n) && text == Print(n) { PrintMatches(n); }
    if Match(text) == Some(n) { MatchPrints(text); }
  }

  lemma MatchPrints(text: string)
    requires Match(text).Some?
    ensures var n := Match(text).value; WellFormed(n) && Print(n) == text
  {
    hide MatchUnsigned, PrintFraction;
    if text != "" && text[0] == '-' {
      UnsignedPrints(true, text[1..]);
      assert text == "-" + text[1..];
    } else {
      UnsignedPrints(false, text);
      assert text == "" + text;
    }
  }

  lemma UnsignedPrints(minus: bool, s: string)
    requires MatchUnsigned(minus, s).Some?
    ensures var n := MatchUnsigned(minus, s).value;
            WellFormed(n) && n.minus == minus && n.whole + PrintFraction(n) == s
  {
    hide MatchFraction, PrintFraction;
    var w := DigitRun(s);
    FractionPrints(minus, s[..w], s[w..]);
    assert s == s[..w] + s[w..];
  }

  function PrintFraction(n: Number): string {
    (if n.fraction == "" then "" else "." + n.fraction) + PrintPower(n.power)
  }

  lemma FractionPrints(minus: bool, whole: string, s: string)
    requires MatchFraction(minus, whole, s).Some?
    ensures var n := MatchFraction(minus, whole, s).value;
            n.minus == minus && n.whole == whole && PrintFraction(n) == s
            && (whole != "" && Digits(whole) ==> WellFormed(n))
  {
    hide MatchPower, PrintPower;
    var f := if s != "" && s[0] == '.' then DigitRun(s[1..]) else 0;
    if f == 0 {
      PowerPrints(s);
      assert "" + s == s;
    } else {
      PowerPrints(s[f + 1..]);
      assert s == "." + s[1..][..f] + s[f + 1..];
    }
  }

  lemma PowerPrints(s: string)
    requires MatchPower(s).Some?
    ensures var p := MatchPower(s).value;
            PrintPower(p) == s && WellFormed(Number(false, "0", "", p))
  {
    if s != "" {
      var signed := |s| > 1 && (s[1] == '+' || s[1] == '-');
      var digits := s[if signed then 2 else 1..];
      assert digits[..|digits|] == digits;
      assert s == [s[0]] + (if signed then [s[1]] else "") + digits;
    }
  }

  lemma {:induction false} DigitRunOf(digits: string, rest: string)
    requires Digits(digits) && (rest == "" || !IsDigit(rest[0]))
    ensures DigitRun(digits + rest) == |digits|
  {
    if digits == "" {
      assert digits + rest == rest;
    } else {
      assert digits[0] in digits;
      assert forall c | c in digits[1..] :: c in digits;
      assert (digits + rest)[1..] == digits[1..] + rest;
      DigitRunOf(digits[1..], rest);
    }
  }

  lemma PowerMatches(p: Power)
    requires WellFormed(Number(false, "0", "", p))
    ensures MatchPower(PrintPower(p)) == Some(p)
    ensures PrintPower(p) == "" || PrintPower(p)[0] == 'e' || PrintPower(p)[0] == 'E'
  {
    if p.Power? {
      var s := PrintPower(p);
      assert p.digits[0] in p.digits;
      DigitRunOf(p.digits, "");
      assert p.digits + "" == p.digits;
      if p.sign == "" {
        assert s[1..] == p.digits;
      } else {
        assert s[2..] == p.digits && [s[1]] == p.sign;
      }
    }
  }

  lemma PrintMatches(n: Number)
    requires WellFormed(n)
    ensures Match(Print(n)) == Some(n)
  {
    hide PrintFraction, MatchFraction, DigitRun;
    var s := n.whole + PrintFraction(n);
    assert n.whole[0] in n.whole;
    FractionMatches(n);
    DigitRunOf(n.whole, PrintFraction(n));
    assert s[..|n.whole|] == n.whole && s[|n.whole|..] == PrintFraction(n);
    if n.minus {
      assert Print(n)[1..] == s;
    } else {
      assert Print(n) == s;
    }
  }

  lemma FractionMatches(n: Number)
    requires WellFormed(n)
    ensures MatchFraction(n.minus, n.whole, PrintFraction(n)) == Some(n)
    ensures PrintFraction(n) == "" || !IsDigit(PrintFraction(n)[0])
  {
    hide MatchPower, PrintPower;
    PowerMatches(n.power);
    var last := PrintPower(n.power);
    var s := PrintFraction(n);
    if n.fraction == "" {
      assert s == last;
    } else {
      assert s[1..] == n.fraction + last;
      DigitRunOf(n.fraction, last);
      assert s[1..][..|n.fraction|] == n.fraction && s[|n.fraction| + 1..] == last;
    }
  }

  // ---- The normal form ----

  datatype Decimal = Decimal(minus: bool, digits: string, exponent: int)

  function LeadingZeros(s: string): (n: nat)
    ensures n <= |s| && (forall i | 0 <= i < n :: s[i] == '0') && (n < |s| ==> s[n] != '0')
  {
    if s == "" || s[0] != '0' then 0 else 1 + LeadingZeros(s[1..])
  }

  function TrailingZeros(s: string): (n: nat)
    ensures n <= |s| && (forall i | |s| - n <= i < |s| :: s[i] == '0') && (n < |s| ==> s[|s| - n - 1] != '0')
  {
    if s == "" || s[|s| - 1] != '0' then 0 else 1 + TrailingZeros(s[..|s| - 1])
  }

  /** Where the platform's numbers are exact integers. */
  const SAFE := 0x20_0000_0000_0000

  /** The platform's rounding of a whole number to a double: exact in the safe range and
      order keeping everywhere, with the infinities as any integers beyond. */
  ghost predicate Rounds(round: int -> int) {
    && (forall n | -SAFE <= n <= SAFE :: round(n) == n)
    && (forall m, n | m <= n :: round(m) <= round(n))
  }

  function DecimalOf(round: int -> int, text: string): Option<Decimal> {
    match Match(text)
    case None => None
    case Some(n) =>
      PartsAreDigits(text);
      var all := n.whole + n.fraction;
      var digits := all[LeadingZeros(all)..];
      var trailing := TrailingZeros(digits);
      if digits == "" then Some(Decimal(false, "0", 0))
      else Some(Decimal(n.minus, digits[..|digits| - trailing],
                        round(round(round(n.power.Value()) - |n.fraction|) + trailing)))
  }

  lemma PartsAreDigits(text: string)
    ensures Match(text).Some? ==> WellFormed(Match(text).value)
  {
    if Match(text).Some? { MatchPrints(text); }
  }

  /** The steps as the code takes them, on two variables it reassigns. */
  method ReadDecimal(round: int -> int, text: string) returns (r: Option<Decimal>)
    ensures r == DecimalOf(round, text)
  {
    hide LeadingZeros, TrailingZeros, Match;
    PartsAreDigits(text);
    var m := Match(text);
    if m.None? { return None; }
    var n := m.value;
    var digits := n.whole + n.fraction;
    digits := digits[LeadingZeros(digits)..];
    var exponent := round(round(n.power.Value()) - |n.fraction|);
    if digits == "" { return Some(Decimal(false, "0", 0)); }
    var trailing := TrailingZeros(digits);
    digits := digits[..|digits| - trailing];
    exponent := round(exponent + trailing);
    return Some(Decimal(n.minus, digits, exponent));
  }

  predicate SameDecimal(round: int -> int, a: string, b: string) {
    var x, y := DecimalOf(round, a), DecimalOf(round, b);
    x.Some? && y.Some? && x == y
  }

  // ---- What number texts denote ----

  function Pow10(n: nat): (p: nat)
    ensures p >= 1
  {
    if n == 0 then 1 else 10 * Pow10(n - 1)
  }

  /** `a` times ten to the `p` equals `b` times ten to the `q`, as rationals. */
  predicate SameRational(a: int, p: int, b: int, q: int) {
    var low := if p < q then p else q;
    a * Pow10(p - low) == b * Pow10(q - low)
  }

  /** A number's signed digits, its fraction's included; ten to Scale times it is its value. */
  function Coefficient(n: Number): int
    requires WellFormed(n)
  {
    var all: int := Nat(n.whole + n.fraction);
    if n.minus then -all else all
  }

  function Scale(n: Number): int
    requires WellFormed(n)
  {
    n.power.Value() - |n.fraction|
  }

  predicate Denotes(n: Number, m: Number)
    requires WellFormed(n) && WellFormed(m)
  {
    SameRational(Coefficient(n), Scale(n), Coefficient(m), Scale(m))
  }

  // ---- Arithmetic of the normal form ----

  lemma {:induction false} Pow10Add(a: nat, b: nat)
    ensures Pow10(a + b) == Pow10(a) * Pow10(b)
  {
    if a > 0 {
      Pow10Add(a - 1, b);
      assert Pow10(a + b) == 10 * (Pow10(a - 1) * Pow10(b));
    }
  }

  lemma {:induction false} NatOfLeadingZeros(s: string, n: nat)
    requires Digits(s) && n <= |s| && forall i | 0 <= i < n :: s[i] == '0'
    ensures Digits(s[n..]) && Nat(s[n..]) == Nat(s)
  {
    if n == |s| {
      AllZeros(s);
    } else {
      var init := s[..|s| - 1];
      assert s[n..][..|s[n..]| - 1] == init[n..];
      NatOfLeadingZeros(init, n);
    }
  }

  lemma {:induction false} AllZeros(s: string)
    requires Digits(s) && forall i | 0 <= i < |s| :: s[i] == '0'
    ensures Nat(s) == 0
  {
    if s != "" { AllZeros(s[..|s| - 1]); }
  }

  lemma {:induction false} NatOfTrailingZeros(s: string, n: nat)
    requires Digits(s) && n <= |s| && forall i | |s| - n <= i < |s| :: s[i] == '0'
    ensures Digits(s[..|s| - n]) && Nat(s) == Nat(s[..|s| - n]) * Pow10(n)
  {
    if n == 0 {
      assert s[..|s|] == s;
    } else {
      var init := s[..|s| - 1];
      NatOfTrailingZeros(init, n - 1);
      assert init[..|init| - (n - 1)] == s[..|s| - n];
      var k := Nat(s[..|s| - n]);
      assert Nat(s) == 10 * (k * Pow10(n - 1));
      assert 10 * (k * Pow10(n - 1)) == k * (10 * Pow10(n - 1));
    }
  }

  /** A digit text with no zero at either end. */
  predicate Normal(s: string) {
    s != "" && Digits(s) && s[0] != '0' && s[|s| - 1] != '0'
  }

  predicate Headed(s: string) {
    Digits(s) && (s == "" || s[0] != '0')
  }

  lemma {:induction false} HeadedIsPositive(s: string)
    requires Headed(s) && s != ""
    ensures Nat(s) > 0
  {
    if |s| > 1 { HeadedIsPositive(s[..|s| - 1]); }
  }

  /** Without leading zeros, digits are determined by the number. */
  lemma {:induction false} NatIsInjective(a: string, b: string)
    requires Headed(a) && Headed(b) && Nat(a) == Nat(b)
    ensures a == b
  {
    if a == "" {
      if b != "" { HeadedIsPositive(b); }
    } else if b == "" {
      HeadedIsPositive(a);
    } else {
      var x, y := a[..|a| - 1], b[..|b| - 1];
      assert Nat(a) % 10 == DigitOf(a[|a| - 1]) && Nat(b) % 10 == DigitOf(b[|b| - 1]);
      assert Nat(x) == Nat(a) / 10 && Nat(y) == Nat(b) / 10;
      NatIsInjective(x, y);
      assert a == x + [a[|a| - 1]] && b == y + [b[|b| - 1]];
    }
  }

  lemma Cancel(a: int, b: int, k: int)
    requires k > 0 && a * k == b * k
    ensures a == b
  {}

  /** Two normal digit texts scaled alike are the same digits at the same scale. */
  lemma NormalIsUnique(a: string, p: nat, b: string, q: nat)
    requires Normal(a) && Normal(b) && p <= q
    requires Nat(a) * Pow10(p) == Nat(b) * Pow10(q)
    ensures a == b && p == q
  {
    hide Nat, Pow10;
    var k := q - p;
    Pow10Add(k, p);
    Reassociate(Nat(b), Pow10(k), Pow10(p));
    Cancel(Nat(a), Nat(b) * Pow10(k), Pow10(p));
    EndsInZero(Nat(b), k);
    EndsInDigit(a);
    assert k == 0;
    assert Pow10(0) == 1;
    NatIsInjective(a, b);
  }

  lemma EndsInZero(n: nat, k: nat)
    ensures k > 0 ==> (n * Pow10(k)) % 10 == 0
  {
    if k > 0 {
      Reassociate(n, 10, Pow10(k - 1));
      assert n * Pow10(k) == 10 * (n * Pow10(k - 1));
    }
  }

  lemma EndsInDigit(s: string)
    requires Normal(s)
    ensures Nat(s) % 10 != 0
  {
    LastDigit(Nat(s[..|s| - 1]), DigitOf(s[|s| - 1]));
  }

  lemma LastDigit(n: nat, d: nat)
    requires d < 10
    ensures (10 * n + d) % 10 == d
  {}

  lemma Reassociate(x: int, y: int, z: int)
    ensures x * (y * z) == (x * y) * z
    ensures x * (y * z) == y * (x * z)
  {}

  /** A text's parts, normalised: no digits left, or normal digits at a scale. */
  datatype Shape = Zero | Shape(digits: string, shift: nat)

  function ShapeOf(n: Number): (s: Shape)
    requires WellFormed(n)
  {
    var all := n.whole + n.fraction;
    var digits := all[LeadingZeros(all)..];
    if digits == "" then Zero
    else Shape(digits[..|digits| - TrailingZeros(digits)], TrailingZeros(digits))
  }

  lemma ShapeMeans(n: Number)
    requires WellFormed(n)
    ensures var s := ShapeOf(n);
            var c := Coefficient(n);
            if s.Zero? then c == 0
            else && Normal(s.digits) && s.shift <= |n.whole| + |n.fraction|
                 && c == (if n.minus then -1 else 1) * Nat(s.digits) * Pow10(s.shift)
  {
    hide LeadingZeros, TrailingZeros, Nat, Pow10;
    var all := n.whole + n.fraction;
    NatOfLeadingZeros(all, LeadingZeros(all));
    var digits := all[LeadingZeros(all)..];
    if digits == "" {
      assert Nat("") == 0 by { AllZeros(""); }
    } else {
      var t := TrailingZeros(digits);
      assert digits[0] != '0';
      if t == |digits| { assert false; }
      NatOfTrailingZeros(digits, t);
    }
  }

  /** The scale of a text's normal digits. */
  function NormalScale(n: Number): int
    requires WellFormed(n)
  {
    Scale(n) + if ShapeOf(n).Zero? then 0 else ShapeOf(n).shift
  }

  lemma DenotesByShape(n: Number, m: Number)
    requires WellFormed(n) && WellFormed(m)
    ensures Denotes(n, m) <==>
            (if ShapeOf(n).Zero? || ShapeOf(m).Zero? then ShapeOf(n) == ShapeOf(m)
             else n.minus == m.minus && ShapeOf(n).digits == ShapeOf(m).digits && NormalScale(n) == NormalScale(m))
  {
    hide ShapeOf, Nat, Pow10, Coefficient;
    ShapeMeans(n);
    ShapeMeans(m);
    var p, q := Scale(n), Scale(m);
    var low := if p < q then p else q;
    var x, y := Coefficient(n), Coefficient(m);
    if ShapeOf(n).Zero? || ShapeOf(m).Zero? {
      ZeroSide(x, Pow10(p - low));
      ZeroSide(y, Pow10(q - low));
      if !ShapeOf(n).Zero? { NotZero(n); }
      if !ShapeOf(m).Zero? { NotZero(m); }
    } else {
      var s, t := ShapeOf(n), ShapeOf(m);
      Widen(n.minus, Nat(s.digits), s.shift, p - low);
      Widen(m.minus, Nat(t.digits), t.shift, q - low);
      HeadedIsPositive(s.digits);
      HeadedIsPositive(t.digits);
      var left, right := Nat(s.digits) * Pow10(s.shift + p - low), Nat(t.digits) * Pow10(t.shift + q - low);
      assert Denotes(n, m) <==> (if n.minus then -left else left) == (if m.minus then -right else right);
      if left == right {
        if s.shift + p <= t.shift + q {
          NormalIsUnique(s.digits, s.shift + p - low, t.digits, t.shift + q - low);
        } else {
          NormalIsUnique(t.digits, t.shift + q - low, s.digits, s.shift + p - low);
        }
      }
    }
  }

  lemma ZeroSide(x: int, k: int)
    requires k > 0
    ensures x * k == 0 <==> x == 0
  {}

  lemma NotZero(n: Number)
    requires WellFormed(n) && !ShapeOf(n).Zero?
    ensures Coefficient(n) != 0
  {
    hide ShapeOf, Nat, Pow10, Coefficient;
    ShapeMeans(n);
    var s := ShapeOf(n);
    HeadedIsPositive(s.digits);
  }

  lemma Widen(minus: bool, k: nat, shift: nat, more: nat)
    ensures ((if minus then -1 else 1) * k * Pow10(shift)) * Pow10(more)
            == var wide := k * Pow10(shift + more); if minus then -wide else wide
  {
    hide Pow10;
    Pow10Add(shift, more);
    Reassociate(k, Pow10(shift), Pow10(more));
    if minus { NegatedProduct(k, Pow10(shift), Pow10(more)); }
  }

  lemma NegatedProduct(k: int, a: int, b: int)
    ensures (-1 * k * a) * b == -(k * a * b)
  {}

  // ---- The decision ----

  /** Far more digits than a text can hold. */
  const LONG := SAFE / 8

  /** A number with a possible count of digits; its exponent may be anything. */
  predicate Writable(n: Number)
    requires WellFormed(n)
  {
    |n.whole| + |n.fraction| <= LONG
  }

  /** A number whose exponent is nowhere near the edge of the safe range, as that of every
      text of a double. */
  predicate Modest(n: Number)
    requires WellFormed(n)
  {
    Writable(n) && -LONG <= n.power.Value() <= LONG
  }

  /** Two texts are numbers and denote the same rational. */
  predicate SameNumber(a: string, b: string) {
    PartsAreDigits(a);
    PartsAreDigits(b);
    Match(a).Some? && Match(b).Some? && Denotes(Match(a).value, Match(b).value)
  }

  /** A text that, if it is a number at all, is one that can be written. */
  predicate WritableText(text: string) {
    PartsAreDigits(text);
    Match(text).Some? ==> Writable(Match(text).value)
  }

  /** A text that, if it is a number at all, has a modest exponent. */
  predicate ModestText(text: string) {
    PartsAreDigits(text);
    Match(text).Some? ==> Modest(Match(text).value)
  }

  /** A text compares equal to the text of a double exactly when both are numbers and denote
      the same rational, whatever the first one's exponent. Zero has no sign. */
  lemma SameDecimalDecides(round: int -> int, a: string, b: string)
    requires Rounds(round)
    requires WritableText(a) && ModestText(b)
    ensures SameDecimal(round, a, b) <==> SameNumber(a, b)
  {
    hide Match, Denotes;
    PartsAreDigits(a);
    PartsAreDigits(b);
    if Match(a).Some? && Match(b).Some? {
      var n, m := Match(a).value, Match(b).value;
      DecimalIs(round, a);
      DecimalIs(round, b);
      RoundedExactly(round, m);
      RoundedApart(round, n);
      DenotesByShape(n, m);
      ShiftIsShort(n);
      ShiftIsShort(m);
      hide ShapeOf, DecimalOf, NormalScale;
    }
  }

  /** The comparison: both texts are read into the normal form, and the forms compared. */
  method CompareDecimals(round: int -> int, a: string, b: string) returns (same: bool)
    ensures same == SameDecimal(round, a, b)
    ensures Rounds(round) && WritableText(a) && ModestText(b) ==> (same <==> SameNumber(a, b))
  {
    hide DecimalOf, SameNumber, WritableText, ModestText, Rounds;
    var x := ReadDecimal(round, a);
    var y := ReadDecimal(round, b);
    same := x.Some? && y.Some? && x == y;
    if Rounds(round) && WritableText(a) && ModestText(b) { SameDecimalDecides(round, a, b); }
  }

  // ---- What the parts of a text say ----

  /** Digits as anyone writes them denote the number. */
  lemma {:induction false} DigitsAreRead(n: nat)
    ensures Digits(DigitsOf(n)) && Nat(DigitsOf(n)) == n && DigitsOf(n) != ""
  {
    var before := if n < 10 then "" else DigitsOf(n / 10);
    if n >= 10 { DigitsAreRead(n / 10); }
    assert DigitsOf(n) == before + [(n % 10) as char + '0'];
    hide DigitsOf;
    OneMore(before, (n % 10) as char + '0');
  }

  lemma OneMore(digits: string, c: char)
    requires Digits(digits) && IsDigit(c)
    ensures Digits(digits + [c]) && Nat(digits + [c]) == 10 * Nat(digits) + DigitOf(c)
  {
    var all := digits + [c];
    assert all[..|all| - 1] == digits;
  }

  function Zeros(k: nat): string {
    seq(k, i => '0')
  }

  lemma ZerosShift(digits: string, k: nat)
    requires Digits(digits)
    ensures Digits(digits + Zeros(k)) && Nat(digits + Zeros(k)) == Nat(digits) * Pow10(k)
  {
    hide Nat, Pow10;
    var all := digits + Zeros(k);
    assert Digits(all);
    NatOfTrailingZeros(all, k);
    assert all[..|digits|] == digits;
  }

  /** A number printed is the same number as another printed exactly when they denote alike. */
  lemma PrintedSame(n: Number, m: Number)
    requires WellFormed(n) && WellFormed(m)
    ensures SameNumber(Print(n), Print(m)) <==> Denotes(n, m)
  {
    hide Print, Match, Denotes;
    MatchIsPrint(Print(n), n);
    MatchIsPrint(Print(m), m);
  }

  /** A whole number with an exponent. */
  function Scientific(minus: bool, whole: string, mark: char, sign: string, k: nat): Number {
    Number(minus, whole, "", Power(mark, sign, DigitsOf(k)))
  }

  function Unscaled(minus: bool, whole: string): Number {
    Number(minus, whole, "", NoPower)
  }

  predicate Marked(mark: char, sign: string) {
    mark in {'e', 'E'} && sign in {"", "+", "-"}
  }

  /** Its coefficient is its digits, and its scale its exponent: as written, but negative
      where a minus stands. */
  lemma ScientificIs(minus: bool, whole: string, mark: char, sign: string, k: nat)
    requires Digits(whole) && whole != "" && Marked(mark, sign)
    ensures var n := Scientific(minus, whole, mark, sign, k);
            && WellFormed(n) && Coefficient(n) == Coefficient(Unscaled(minus, whole))
            && (if sign == "-" then Scale(n) + k == 0 else Scale(n) == k)
    ensures WellFormed(Unscaled(minus, whole)) && Scale(Unscaled(minus, whole)) == 0
  {
    DigitsAreRead(k);
    hide DigitsOf, Nat;
  }

  lemma ZerosGrow(minus: bool, whole: string, k: nat)
    requires Digits(whole) && whole != ""
    ensures WellFormed(Unscaled(minus, whole)) && WellFormed(Unscaled(minus, whole + Zeros(k)))
    ensures Coefficient(Unscaled(minus, whole + Zeros(k))) == Coefficient(Unscaled(minus, whole)) * Pow10(k)
  {
    ZerosShift(whole, k);
    hide Nat, Pow10, Zeros;
    assert whole + "" == whole && (whole + Zeros(k)) + "" == whole + Zeros(k);
    Negated(Nat(whole), Pow10(k));
  }

  lemma Negated(a: int, b: int)
    ensures (-a) * b == -(a * b)
  {}

  /** An exponent with a plus or without a sign appends so many zeros. */
  lemma PlusAppendsZeros(minus: bool, whole: string, mark: char, sign: string, k: nat)
    requires Digits(whole) && whole != "" && Marked(mark, sign) && sign != "-"
    ensures SameNumber((if minus then "-" else "") + (whole + ([mark] + sign + DigitsOf(k))),
                       (if minus then "-" else "") + (whole + Zeros(k)))
  {
    var n, m := Scientific(minus, whole, mark, sign, k), Unscaled(minus, whole + Zeros(k));
    ScientificIs(minus, whole, mark, sign, k);
    ZerosGrow(minus, whole, k);
    PrintedPlain(minus, whole + Zeros(k));
    PrintedScientific(minus, whole, mark, sign, k);
    hide Nat, Zeros, DigitsOf, Coefficient, Scale, Pow10, Print, SameNumber, Unscaled, Scientific, Denotes, WellFormed;
    MovedDenotes(n, m, k);
    PrintedSame(n, m);
  }

  /** One with a minus takes them away again. */
  lemma MinusTakesZeros(minus: bool, whole: string, mark: char, k: nat)
    requires Digits(whole) && whole != "" && Marked(mark, "-")
    ensures SameNumber((if minus then "-" else "") + (whole + Zeros(k) + ([mark] + "-" + DigitsOf(k))),
                       (if minus then "-" else "") + whole)
  {
    var n, m := Scientific(minus, whole + Zeros(k), mark, "-", k), Unscaled(minus, whole);
    ZerosGrow(minus, whole, k);
    ScientificIs(minus, whole + Zeros(k), mark, "-", k);
    ScientificIs(minus, whole, mark, "-", k);
    PrintedPlain(minus, whole);
    PrintedScientific(minus, whole + Zeros(k), mark, "-", k);
    hide Nat, Zeros, DigitsOf, Coefficient, Scale, Pow10, Print, SameNumber, Unscaled, Scientific, Denotes, WellFormed;
    MovedDenotes(n, m, k);
    PrintedSame(n, m);
  }

  /** And a fraction is so many digits behind the point. */
  lemma FractionIsScale(minus: bool, whole: string, fraction: string, mark: char)
    requires Digits(whole) && whole != "" && Digits(fraction) && fraction != "" && Marked(mark, "-")
    ensures SameNumber((if minus then "-" else "") + (whole + "." + fraction),
                       (if minus then "-" else "") + (whole + fraction + ([mark] + "-" + DigitsOf(|fraction|))))
  {
    hide *;
    var n := Number(minus, whole, fraction, NoPower);
    var m := Scientific(minus, whole + fraction, mark, "-", |fraction|);
    FractionPrinted(minus, whole, fraction);
    ScientificIs(minus, whole + fraction, mark, "-", |fraction|);
    PrintedScientific(minus, whole + fraction, mark, "-", |fraction|);
    AlikeDenotes(n, m);
    PrintedSame(n, m);
  }

  lemma FractionPrinted(minus: bool, whole: string, fraction: string)
    requires Digits(whole) && whole != "" && Digits(fraction) && fraction != ""
    ensures var n := Number(minus, whole, fraction, NoPower);
            && WellFormed(n) && Scale(n) + |fraction| == 0 && Digits(whole + fraction)
            && Coefficient(n) == Coefficient(Unscaled(minus, whole + fraction))
            && Print(n) == (if minus then "-" else "") + (whole + "." + fraction)
  {
    var n := Number(minus, whole, fraction, NoPower);
    assert PrintFraction(n) == "." + fraction + "";
    assert whole + PrintFraction(n) == whole + "." + fraction;
    assert Digits(whole + fraction) && (whole + fraction) + "" == whole + fraction;
  }

  lemma AlikeDenotes(n: Number, m: Number)
    requires WellFormed(n) && WellFormed(m) && Coefficient(n) == Coefficient(m) && Scale(n) == Scale(m)
    ensures Denotes(n, m)
  {
    hide Coefficient, Scale;
  }

  /** Moving the scale by `k` places is worth ten to the `k`. */
  lemma MovedDenotes(n: Number, m: Number, k: nat)
    requires WellFormed(n) && WellFormed(m)
    ensures Coefficient(m) == Coefficient(n) * Pow10(k) && Scale(n) == k && Scale(m) == 0 ==> Denotes(n, m)
    ensures Coefficient(n) == Coefficient(m) * Pow10(k) && Scale(n) + k == 0 && Scale(m) == 0 ==> Denotes(n, m)
  {
    assert Pow10(0) == 1;
    hide Coefficient, Scale, Pow10;
  }

  lemma PrintedPlain(minus: bool, whole: string)
    ensures Print(Unscaled(minus, whole)) == (if minus then "-" else "") + whole
  {
    assert whole + PrintFraction(Unscaled(minus, whole)) == whole by { assert PrintFraction(Unscaled(minus, whole)) == ""; }
  }

  lemma PrintedScientific(minus: bool, whole: string, mark: char, sign: string, k: nat)
    ensures Print(Scientific(minus, whole, mark, sign, k))
            == (if minus then "-" else "") + (whole + ([mark] + sign + DigitsOf(k)))
  {
    hide DigitsOf;
    assert PrintFraction(Scientific(minus, whole, mark, sign, k)) == [mark] + sign + DigitsOf(k);
  }

  /** The exponent of the normal form, as it is rounded on the way. */
  function RoundedScale(round: int -> int, n: Number): int
    requires WellFormed(n) && ShapeOf(n).Shape?
  {
    round(round(round(n.power.Value()) - |n.fraction|) + ShapeOf(n).shift)
  }

  /** The normal form is the shape at its rounded scale. */
  lemma DecimalIs(round: int -> int, text: string)
    requires Match(text).Some? && WellFormed(Match(text).value)
    ensures var n := Match(text).value;
            DecimalOf(round, text)
            == Some(if ShapeOf(n).Zero? then Decimal(false, "0", 0)
                    else Decimal(n.minus, ShapeOf(n).digits, RoundedScale(round, n)))
  {
    hide Match, LeadingZeros, TrailingZeros;
  }

  lemma ShiftIsShort(n: Number)
    requires WellFormed(n) && Writable(n)
    ensures ShapeOf(n).Shape? ==> Normal(ShapeOf(n).digits) && ShapeOf(n).shift <= LONG
  {
    ShapeMeans(n);
  }

  /** A modest exponent is never rounded, and stays small. */
  lemma RoundedExactly(round: int -> int, n: Number)
    requires Rounds(round) && WellFormed(n) && -SAFE / 2 <= n.power.Value() <= SAFE / 2 && Writable(n)
    ensures ShapeOf(n).Shape? ==>
              RoundedScale(round, n) == NormalScale(n)
              && (Modest(n) ==> -2 * LONG <= NormalScale(n) <= 2 * LONG)
  {
    if ShapeOf(n).Shape? {
      ShiftIsShort(n);
      hide ShapeOf, Normal;
      var p := n.power.Value();
      assert round(p) == p;
      assert round(p - |n.fraction|) == p - |n.fraction|;
      assert round(p - |n.fraction| + ShapeOf(n).shift) == p - |n.fraction| + ShapeOf(n).shift;
    }
  }

  /** Any other exponent is rounded to one no modest number has, as it has none either. */
  lemma RoundedApart(round: int -> int, n: Number)
    requires Rounds(round) && WellFormed(n) && Writable(n)
    ensures ShapeOf(n).Shape? ==>
              || RoundedScale(round, n) == NormalScale(n)
              || (RoundedScale(round, n) > 2 * LONG && NormalScale(n) > 2 * LONG)
              || (RoundedScale(round, n) < -2 * LONG && NormalScale(n) < -2 * LONG)
  {
    if ShapeOf(n).Shape? {
      var p := n.power.Value();
      if -SAFE / 2 <= p <= SAFE / 2 {
        RoundedExactly(round, n);
      } else {
        ShiftIsShort(n);
        hide ShapeOf, Normal;
        var half := 4 * LONG;
        if p > 0 {
          assert round(p) >= round(half) == half;
          assert round(round(p) - |n.fraction|) >= round(half - LONG) == half - LONG;
          assert RoundedScale(round, n) >= round(half - LONG) == half - LONG;
        } else {
          assert round(p) <= round(-half) == -half;
          assert round(round(p) - |n.fraction|) <= round(-half) == -half;
          assert RoundedScale(round, n) <= round(LONG - half) == LONG - half;
        }
      }
    }
  }

  // ---- Over a whole document ----

  /** A parsed document; a number keeps its text. */
  datatype Value = Num(source: string) | Scalar | List(items: seq<Value>)

  /** The same after checking: a number the double stands for exactly, or its raw text. */
  datatype Checked = Exact(text: string) | Raw(source: string) | Plain | Group(items: seq<Checked>)

  /** `shown` is the text of the double nearest to a number text. */
  function ParseChecked(round: int -> int, shown: string -> string, v: Value): Checked {
    match v
    case Num(source) => if SameDecimal(round, source, shown(source)) then Exact(shown(source)) else Raw(source)
    case Scalar => Plain
    case List(items) => Group(seq(|items|, i requires 0 <= i < |items| => ParseChecked(round, shown, items[i])))
  }

  predicate HoldsInexactNumber(c: Checked) {
    match c
    case Exact(_) => false
    case Raw(_) => true
    case Plain => false
    case Group(items) => exists i | 0 <= i < |items| :: HoldsInexactNumber(items[i])
  }

  /** Every number text in a document. */
  function Numbers(v: Value): set<string> {
    match v
    case Num(source) => {source}
    case Scalar => {}
    case List(items) => set i, s | 0 <= i < |items| && s in Numbers(items[i]) :: s
  }

  lemma {:induction false} RawIsDifferent(round: int -> int, shown: string -> string, v: Value)
    ensures HoldsInexactNumber(ParseChecked(round, shown, v))
            <==> exists s | s in Numbers(v) :: !SameDecimal(round, s, shown(s))
  {
    hide SameDecimal;
    match v
    case Num(source) => assert source in Numbers(v);
    case Scalar =>
    case List(items) =>
      var checked := ParseChecked(round, shown, v);
      forall i | 0 <= i < |items|
        ensures HoldsInexactNumber(checked.items[i])
                <==> exists s | s in Numbers(items[i]) :: !SameDecimal(round, s, shown(s))
      {
        RawIsDifferent(round, shown, items[i]);
      }
      if HoldsInexactNumber(checked) {
        var i :| 0 <= i < |items| && HoldsInexactNumber(checked.items[i]);
        var s :| s in Numbers(items[i]) && !SameDecimal(round, s, shown(s));
        assert s in Numbers(v);
      }
      if s :| s in Numbers(v) && !SameDecimal(round, s, shown(s)) {
        var i :| 0 <= i < |items| && s in Numbers(items[i]);
        assert HoldsInexactNumber(checked.items[i]);
      }
  }

  /** A checked document is refused exactly when one of its numbers, at any depth, is not the
      number its double is shown as. */
  lemma RefusedExactlyWhenInexact(round: int -> int, shown: string -> string, v: Value)
    requires Rounds(round)
    requires forall s | s in Numbers(v) :: WritableText(s) && ModestText(shown(s))
    ensures HoldsInexactNumber(ParseChecked(round, shown, v))
            <==> exists s | s in Numbers(v) :: !SameNumber(s, shown(s))
  {
    RawIsDifferent(round, shown, v);
    hide SameDecimal, SameNumber, WritableText, ModestText;
    forall s | s in Numbers(v) ensures SameDecimal(round, s, shown(s)) == SameNumber(s, shown(s)) {
      SameDecimalDecides(round, s, shown(s));
    }
  }
}
