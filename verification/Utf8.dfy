/** UTF-8 (RFC 3629): the bytes of a character, how they are read back, and how many a text
    takes. */
module Utf8 {
  import opened Optional

  /** How many bytes a character takes. */
  function CharBytes(c: char): (n: nat)
    ensures 1 <= n <= 4
  {
    if c as int < 0x80 then 1
    else if c as int < 0x800 then 2
    else if c as int < 0x10000 then 3
    else 4
  }

  function Utf8Length(s: string): nat {
    if s == "" then 0 else CharBytes(s[0]) + Utf8Length(s[1..])
  }

  // ---- The encoding ----

  /** A lead byte that says how many continuation bytes follow, of six bits each. */
  function Bytes(c: char): (bytes: seq<nat>)
    ensures bytes != [] && forall b | b in bytes :: b < 0x100
  {
    var n := c as int;
    if n < 0x80 then [n]
    else if n < 0x800 then [0xC0 + n / 0x40, 0x80 + n % 0x40]
    else if n < 0x10000 then [0xE0 + n / 0x1000, 0x80 + n / 0x40 % 0x40, 0x80 + n % 0x40]
    else [0xF0 + n / 0x40000, 0x80 + n / 0x1000 % 0x40, 0x80 + n / 0x40 % 0x40, 0x80 + n % 0x40]
  }

  function BytesOf(s: string): seq<nat> {
    if s == "" then [] else Bytes(s[0]) + BytesOf(s[1..])
  }

  // ---- Reading it ----

  /** How many continuation bytes a lead byte announces. */
  function Announces(lead: nat): Option<nat> {
    if lead < 0x80 then Some(0)
    else if 0xC0 <= lead < 0xE0 then Some(1)
    else if 0xE0 <= lead < 0xF0 then Some(2)
    else if 0xF0 <= lead < 0xF8 then Some(3)
    else None
  }

  predicate IsContinuation(b: nat) {
    0x80 <= b < 0xC0
  }

  /** The number a lead byte's own bits and its continuation bytes spell. */
  function Spelled(bits: nat, continuation: seq<nat>): nat
    requires forall b | b in continuation :: IsContinuation(b)
  {
    if continuation == [] then bits
    else
      var k := |continuation| - 1;
      assert IsContinuation(continuation[k]);
      0x40 * Spelled(bits, continuation[..k]) + (continuation[k] - 0x80)
  }

  function LeadBits(lead: nat, count: nat): nat
    requires Announces(lead) == Some(count)
  {
    match count
    case 0 => lead
    case 1 => lead - 0xC0
    case 2 => lead - 0xE0
    case _ => lead - 0xF0
  }

  /** The least number that needs so many continuation bytes. */
  function Least(count: nat): nat {
    match count
    case 0 => 0
    case 1 => 0x80
    case 2 => 0x800
    case _ => 0x10000
  }

  /** The first character of a byte stream and what follows it; none for an unfinished or
      overlong sequence, or one that spells no character. */
  function Decode(bytes: seq<nat>): Option<(char, seq<nat>)> {
    if bytes == [] || Announces(bytes[0]).None? then None
    else
      var count := Announces(bytes[0]).value;
      if |bytes| <= count || exists b | b in bytes[1..count + 1] :: !IsContinuation(b) then None
      else
        var n := Spelled(LeadBits(bytes[0], count), bytes[1..count + 1]);
        if n < Least(count) || 0xD800 <= n < 0xE000 || n >= 0x11_0000 then None
        else Some((n as char, bytes[count + 1..]))
  }

  function DecodeAll(bytes: seq<nat>): Option<string> {
    if bytes == [] then Some("")
    else
      var first := Decode(bytes);
      if first.None? then None
      else
        var more := DecodeAll(first.value.1);
        if more.None? then None else Some([first.value.0] + more.value)
  }

  lemma OneSpelled(bits: nat, b: nat)
    requires IsContinuation(b)
    ensures Spelled(bits, [b]) == 0x40 * bits + (b - 0x80)
  {
    assert [b][..0] == [];
  }

  lemma TwoSpelled(bits: nat, a: nat, b: nat)
    requires IsContinuation(a) && IsContinuation(b)
    ensures Spelled(bits, [a, b]) == 0x1000 * bits + 0x40 * (a - 0x80) + (b - 0x80)
  {
    OneSpelled(bits, a);
    assert [a, b][..1] == [a];
  }

  lemma ThreeSpelled(bits: nat, a: nat, b: nat, c: nat)
    requires IsContinuation(a) && IsContinuation(b) && IsContinuation(c)
    ensures Spelled(bits, [a, b, c]) == 0x40000 * bits + 0x1000 * (a - 0x80) + 0x40 * (b - 0x80) + (c - 0x80)
  {
    TwoSpelled(bits, a, b);
    assert [a, b, c][..2] == [a, b];
  }

  /** A lead byte and its continuation bytes are read as the character they spell. */
  lemma SequenceIsRead(lead: nat, tail: seq<nat>, rest: seq<nat>, c: char)
    requires Announces(lead) == Some(|tail|) && forall b | b in tail :: IsContinuation(b)
    requires Spelled(LeadBits(lead, |tail|), tail) == c as int >= Least(|tail|)
    ensures Decode([lead] + tail + rest) == Some((c, rest))
  {
    hide Spelled, LeadBits, Announces;
    var all := [lead] + tail + rest;
    assert all[1..|tail| + 1] == tail && all[|tail| + 1..] == rest;
  }

  /** A character's bytes read back as it, whatever follows. */
  lemma BytesAreRead(c: char, rest: seq<nat>)
    ensures Decode(Bytes(c) + rest) == Some((c, rest))
  {
    hide Decode, Spelled;
    var n := c as int;
    if n < 0x80 {
      NoneSpelled(n);
      SequenceIsRead(n, [], rest, c);
      assert [n] + [] == [n];
    } else if n < 0x800 {
      TwoAreRead(c, n / 0x40, n % 0x40, rest);
    } else if n < 0x10000 {
      SixBits(n);
      ThreeAreRead(c, n / 0x1000, n / 0x40 % 0x40, n % 0x40, rest);
    } else {
      SixBits(n);
      FourAreRead(c, n / 0x40000, n / 0x1000 % 0x40, n / 0x40 % 0x40, n % 0x40, rest);
    }
  }

  lemma SixBits(n: nat)
    ensures n == 0x1000 * (n / 0x1000) + 0x40 * (n / 0x40 % 0x40) + n % 0x40
    ensures n / 0x1000 == 0x40 * (n / 0x40000) + n / 0x1000 % 0x40
  {}

  lemma TwoAreRead(c: char, a: nat, b: nat, rest: seq<nat>)
    requires c as int == 0x40 * a + b && b < 0x40 && 0x80 <= c as int < 0x800
    ensures Decode([0xC0 + a, 0x80 + b] + rest) == Some((c, rest))
  {
    hide Decode, Spelled;
    OneSpelled(a, 0x80 + b);
    SequenceIsRead(0xC0 + a, [0x80 + b], rest, c);
    assert [0xC0 + a] + [0x80 + b] == [0xC0 + a, 0x80 + b];
  }

  lemma ThreeAreRead(c: char, a: nat, b: nat, d: nat, rest: seq<nat>)
    requires c as int == 0x1000 * a + 0x40 * b + d && b < 0x40 && d < 0x40 && 0x800 <= c as int < 0x10000
    ensures Decode([0xE0 + a, 0x80 + b, 0x80 + d] + rest) == Some((c, rest))
  {
    hide Decode, Spelled;
    TwoSpelled(a, 0x80 + b, 0x80 + d);
    SequenceIsRead(0xE0 + a, [0x80 + b, 0x80 + d], rest, c);
    assert [0xE0 + a] + [0x80 + b, 0x80 + d] == [0xE0 + a, 0x80 + b, 0x80 + d];
  }

  lemma FourAreRead(c: char, a: nat, b: nat, d: nat, e: nat, rest: seq<nat>)
    requires c as int == 0x40000 * a + 0x1000 * b + 0x40 * d + e && b < 0x40 && d < 0x40 && e < 0x40
    requires c as int >= 0x10000
    ensures Decode([0xF0 + a, 0x80 + b, 0x80 + d, 0x80 + e] + rest) == Some((c, rest))
  {
    hide Decode, Spelled;
    ThreeSpelled(a, 0x80 + b, 0x80 + d, 0x80 + e);
    SequenceIsRead(0xF0 + a, [0x80 + b, 0x80 + d, 0x80 + e], rest, c);
    assert [0xF0 + a] + [0x80 + b, 0x80 + d, 0x80 + e] == [0xF0 + a, 0x80 + b, 0x80 + d, 0x80 + e];
  }

  lemma NoneSpelled(bits: nat)
    ensures Spelled(bits, []) == bits
  {}

  /** A text's bytes read back as the text. */
  lemma {:induction false} TextIsRead(s: string)
    ensures DecodeAll(BytesOf(s)) == Some(s)
  {
    if s != "" {
      BytesAreRead(s[0], BytesOf(s[1..]));
      TextIsRead(s[1..]);
      hide Decode, Bytes;
      assert [s[0]] + s[1..] == s;
    }
  }

  /** The length of a text is how many bytes it takes. */
  lemma {:induction false} LengthIsBytes(s: string)
    ensures Utf8Length(s) == |BytesOf(s)|
  {
    if s != "" { LengthIsBytes(s[1..]); }
  }
}
