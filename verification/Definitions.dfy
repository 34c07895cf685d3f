/** Recorded definitions of tools, prompts and resources, and their comparison: as canonical
    JSON text, so that the order of keys does not count. */
module Definitions {
  import opened Optional
  import opened JsonText

  /** A JSON value in memory. A number is the text `String` gives its double, which is all
      that `JSON.stringify` shows of it; objects keep their keys in order. */
  datatype Value =
    | Null
    | Bool(b: bool)
    | Num(text: string)
    | Text(s: string)
    | List(items: seq<Value>)
    | Record(fields: seq<Field>)
  datatype Field = Field(name: string, value: Value)

  predicate Unique(fields: seq<Field>) {
    forall i, j | 0 <= i < j < |fields| :: fields[i].name != fields[j].name
  }

  predicate IsNumberChar(c: char) {
    '0' <= c <= '9' || c in {'-', '+', '.', 'e'}
  }

  predicate IsNumberText(s: string) {
    s != "" && ('0' <= s[0] <= '9' || s[0] == '-') && forall c | c in s :: IsNumberChar(c)
  }

  /** Objects have each key once, as any object in memory does. */
  predicate Sound(v: Value)
    decreases v
  {
    match v
    case Null => true
    case Bool(_) => true
    case Num(text) => IsNumberText(text)
    case Text(_) => true
    case List(items) => forall i | i in items :: Sound(i)
    case Record(fields) => Unique(fields) && forall f | f in fields :: SoundField(f)
  }

  predicate SoundField(f: Field)
    decreases f
  {
    Sound(f.value)
  }

  // ---- Equality up to key order ----

  function Names(fields: seq<Field>): set<string> {
    set f | f in fields :: f.name
  }

  /** Equal values, where objects may list their keys in any order, at every depth. */
  predicate Equal(a: Value, b: Value)
    decreases a
  {
    match a
    case Null => b.Null?
    case Bool(_) => b == a
    case Num(_) => b == a
    case Text(_) => b == a
    case List(items) =>
      b.List? && |items| == |b.items| && forall i | 0 <= i < |items| :: Equal(items[i], b.items[i])
    case Record(fields) =>
      && b.Record? && Names(fields) == Names(b.fields)
      && forall f, g | f in fields && g in b.fields && f.name == g.name :: EqualField(f, g)
  }

  predicate EqualField(f: Field, g: Field)
    decreases f
  {
    Equal(f.value, g.value)
  }

  // ---- The canonical form ----

  predicate UnitsLess(a: Units, b: Units) {
    b != [] && (a == [] || a[0] < b[0] || (a[0] == b[0] && UnitsLess(a[1..], b[1..])))
  }

  /** Strings as JavaScript sorts them, by their UTF-16 units: a character from an upper
      plane comes before U+E000. */
  predicate Less(a: string, b: string) {
    UnitsLess(UnitsOfString(a), UnitsOfString(b))
  }

  function Insert(f: Field, sorted: seq<Field>): seq<Field> {
    if sorted == [] || Less(f.name, sorted[0].name) then [f] + sorted
    else [sorted[0]] + Insert(f, sorted[1..])
  }

  function Canonical(v: Value): Value
    decreases v, 1
  {
    match v
    case Null => v
    case Bool(_) => v
    case Num(_) => v
    case Text(_) => v
    case List(items) => List(CanonicalItems(items))
    case Record(fields) => Record(CanonicalFields(fields))
  }

  function CanonicalItems(items: seq<Value>): (r: seq<Value>)
    decreases items, 0
  {
    if items == [] then [] else [Canonical(items[0])] + CanonicalItems(items[1..])
  }

  function CanonicalField(f: Field): Field
    decreases f, 2
  {
    Field(f.name, Canonical(f.value))
  }

  /** The fields in order of name, each canonical. */
  function CanonicalFields(fields: seq<Field>): seq<Field>
    decreases fields, 0
  {
    if fields == [] then [] else Insert(CanonicalField(fields[0]), CanonicalFields(fields[1..]))
  }

  // ---- Order ----

  /** One string is before another when it is the start of it, or has the smaller unit where
      they first differ. */
  lemma {:induction false} UnitsLessMeans(a: Units, b: Units)
    ensures UnitsLess(a, b)
            <==> a < b || exists k :: 0 <= k < |a| && k < |b| && a[..k] == b[..k] && a[k] < b[k]
  {
    if a == [] || b == [] {
    } else if a[0] == b[0] {
      var x, y := a[1..], b[1..];
      assert a == [a[0]] + x && b == [b[0]] + y;
      UnitsLessMeans(x, y);
      assert a < b <==> x < y;
      if k :| 0 <= k < |x| && k < |y| && x[..k] == y[..k] && x[k] < y[k] {
        assert a[..k + 1] == [a[0]] + x[..k] && b[..k + 1] == [b[0]] + y[..k] && a[k + 1] < b[k + 1];
      }
      if k :| 0 <= k < |a| && k < |b| && a[..k] == b[..k] && a[k] < b[k] {
        assert k > 0;
        assert x[..k - 1] == a[..k][1..] && y[..k - 1] == b[..k][1..] && x[k - 1] < y[k - 1];
      }
    } else {
      assert a[..0] == b[..0];
      forall k | 0 < k < |a| && k < |b| ensures a[..k] != b[..k] { assert a[..k][0] == a[0] && b[..k][0] == b[0]; }
    }
  }

  /** The units of a string determine it. */
  lemma {:induction false} UnitsDiffer(a: string, b: string)
    requires UnitsOfString(a) == UnitsOfString(b)
    ensures a == b
  {
    if a != "" && b != "" {
      var all, x, y := UnitsOfString(a), UnitsOfString(a[1..]), UnitsOfString(b[1..]);
      assert all == UnitsOf(a[0]) + x && all == UnitsOf(b[0]) + y;
      assert all[0] == UnitsOf(a[0])[0] == UnitsOf(b[0])[0];
      if |UnitsOf(a[0])| == 2 { assert all[1] == UnitsOf(a[0])[1] == UnitsOf(b[0])[1]; }
      assert a[0] == b[0];
      assert x == all[|UnitsOf(a[0])|..] && y == all[|UnitsOf(a[0])|..];
      UnitsDiffer(a[1..], b[1..]);
      assert a == [a[0]] + a[1..] && b == [b[0]] + b[1..];
    }
  }

  lemma {:induction false} UnitsAreTotal(a: Units, b: Units)
    ensures a == b || UnitsLess(a, b) || UnitsLess(b, a)
  {
    if a != [] && b != [] && a[0] == b[0] {
      UnitsAreTotal(a[1..], b[1..]);
      assert a == [a[0]] + a[1..] && b == [b[0]] + b[1..];
    }
  }

  lemma {:induction false} UnitsAreStrict(a: Units, b: Units)
    requires UnitsLess(a, b)
    ensures a != b && !UnitsLess(b, a)
  {
    if a != [] && a[0] == b[0] { UnitsAreStrict(a[1..], b[1..]); }
  }

  lemma {:induction false} UnitsAreTransitive(a: Units, b: Units, c: Units)
    requires UnitsLess(a, b) && UnitsLess(b, c)
    ensures UnitsLess(a, c)
  {
    if a != [] && a[0] == b[0] == c[0] { UnitsAreTransitive(a[1..], b[1..], c[1..]); }
  }

  lemma LessIsTotal(a: string, b: string)
    ensures a == b || Less(a, b) || Less(b, a)
  {
    hide UnitsOfString;
    UnitsAreTotal(UnitsOfString(a), UnitsOfString(b));
    if UnitsOfString(a) == UnitsOfString(b) { UnitsDiffer(a, b); }
  }

  lemma LessIsStrict(a: string, b: string)
    requires Less(a, b)
    ensures a != b && !Less(b, a)
  {
    hide UnitsOfString;
    UnitsAreStrict(UnitsOfString(a), UnitsOfString(b));
  }

  lemma LessIsTransitive(a: string, b: string, c: string)
    requires Less(a, b) && Less(b, c)
    ensures Less(a, c)
  {
    hide UnitsOfString;
    UnitsAreTransitive(UnitsOfString(a), UnitsOfString(b), UnitsOfString(c));
  }

  /** Strictly ascending names. */
  predicate Ascending(fields: seq<Field>) {
    forall i, j | 0 <= i < j < |fields| :: Less(fields[i].name, fields[j].name)
  }

  predicate AllAbove(name: string, fields: seq<Field>) {
    forall f | f in fields :: Less(name, f.name)
  }

  lemma {:induction false} AscendingHead(f: Field, more: seq<Field>)
    ensures Ascending([f] + more) <==> AllAbove(f.name, more) && Ascending(more)
  {
    var all := [f] + more;
    assert all[1..] == more;
    if Ascending(all) {
      forall g | g in more ensures Less(f.name, g.name) {
        var k :| 0 <= k < |more| && more[k] == g;
        assert all[0] == f && all[k + 1] == g;
      }
      forall i, j | 0 <= i < j < |more| ensures Less(more[i].name, more[j].name) {
        assert all[i + 1] == more[i] && all[j + 1] == more[j];
      }
    }
  }

  lemma {:induction false} InsertKeeps(f: Field, sorted: seq<Field>)
    ensures forall g :: g in Insert(f, sorted) <==> g == f || g in sorted
    ensures multiset(Insert(f, sorted)) == multiset{f} + multiset(sorted)
    ensures |Insert(f, sorted)| == |sorted| + 1
  {
    if !(sorted == [] || Less(f.name, sorted[0].name)) {
      InsertKeeps(f, sorted[1..]);
      assert sorted == [sorted[0]] + sorted[1..];
    }
  }

  lemma {:induction false} InsertSorts(f: Field, sorted: seq<Field>)
    requires Ascending(sorted) && f.name !in Names(sorted)
    ensures Ascending(Insert(f, sorted))
  {
    if sorted == [] {
    } else {
      var head, more := sorted[0], sorted[1..];
      assert sorted == [head] + more;
      AscendingHead(head, more);
      assert head in sorted && head.name in Names(sorted);
      if Less(f.name, head.name) {
        forall g | g in sorted ensures Less(f.name, g.name) {
          if g != head { assert g in more; LessIsTransitive(f.name, head.name, g.name); }
        }
        AscendingHead(f, sorted);
      } else {
        LessIsTotal(f.name, head.name);
        assert forall g | g in more :: g in sorted;
        InsertSorts(f, more);
        InsertKeeps(f, more);
        AscendingHead(head, Insert(f, more));
      }
    }
  }

  /** Ascending fields are determined by which fields they are. */
  lemma {:induction false} AscendingIsUnique(a: seq<Field>, b: seq<Field>)
    requires Ascending(a) && Ascending(b)
    requires forall f :: f in a <==> f in b
    ensures a == b
    decreases |a|
  {
    assert (a != [] ==> a[0] in b) && (b != [] ==> b[0] in a);
    if a != [] {
      assert a == [a[0]] + a[1..] && b == [b[0]] + b[1..];
      AscendingHead(a[0], a[1..]);
      AscendingHead(b[0], b[1..]);
      HeadsAgree(a, b);
      forall f ensures f in a[1..] <==> f in b[1..] {
        TailMember(a, f);
        TailMember(b, f);
      }
      AscendingIsUnique(a[1..], b[1..]);
    }
  }

  lemma HeadsAgree(a: seq<Field>, b: seq<Field>)
    requires a != [] && b != []
    requires AllAbove(a[0].name, a[1..]) && AllAbove(b[0].name, b[1..])
    requires forall f :: f in a <==> f in b
    ensures a[0] == b[0]
  {
    assert a[0] in b && b[0] in a;
    if a[0] != b[0] {
      assert a[0] in b[1..] && b[0] in a[1..];
      LessIsStrict(a[0].name, b[0].name);
    }
  }

  lemma TailMember(a: seq<Field>, f: Field)
    requires a != [] && AllAbove(a[0].name, a[1..])
    ensures f in a[1..] <==> f in a && f != a[0]
  {
    if f == a[0] && f in a[1..] { LessIsStrict(f.name, f.name); }
    assert a == [a[0]] + a[1..];
  }

  // ---- What the canonical form keeps ----

  lemma {:induction false} CanonicalFieldsKeep(fields: seq<Field>)
    ensures forall g :: g in CanonicalFields(fields) <==> exists f :: f in fields && g == CanonicalField(f)
    ensures Names(CanonicalFields(fields)) == Names(fields)
  {
    if fields != [] {
      hide Canonical, CanonicalField;
      var head, more := fields[0], fields[1..];
      CanonicalFieldsKeep(more);
      InsertKeeps(CanonicalField(head), CanonicalFields(more));
      assert fields == [head] + more;
      forall g ensures g in CanonicalFields(fields) <==> exists f :: f in fields && g == CanonicalField(f) {
        if g in CanonicalFields(fields) {
          if g == CanonicalField(head) {
            assert head in fields;
          } else {
            var f :| f in more && g == CanonicalField(f);
            assert f in fields;
          }
        }
        if f :| f in fields && g == CanonicalField(f) {
          if f != head { assert f in more; }
        }
      }
    }
  }

  lemma {:induction false} CanonicalFieldsAscend(fields: seq<Field>)
    requires Unique(fields)
    ensures Ascending(CanonicalFields(fields))
  {
    if fields != [] {
      hide Canonical;
      var head, more := fields[0], fields[1..];
      assert Unique(more);
      CanonicalFieldsAscend(more);
      CanonicalFieldsKeep(more);
      assert head.name !in Names(more);
      InsertSorts(CanonicalField(head), CanonicalFields(more));
    }
  }

  lemma {:induction false} CanonicalItemsAt(items: seq<Value>)
    ensures |CanonicalItems(items)| == |items|
    ensures forall i | 0 <= i < |items| :: CanonicalItems(items)[i] == Canonical(items[i])
  {
    if items != [] { CanonicalItemsAt(items[1..]); }
  }

  /** Two values have the same canonical form exactly when they are equal up to key order. */
  lemma {:induction false} CanonicalDecidesEqual(a: Value, b: Value)
    requires Sound(a) && Sound(b)
    ensures Canonical(a) == Canonical(b) <==> Equal(a, b)
    decreases a
  {
    match a
    case Null =>
    case Bool(_) =>
    case Num(_) =>
    case Text(_) =>
    case List(items) => ListsEqual(a, b);
    case Record(fields) => RecordsEqual(a, b);
  }

  lemma ListsEqual(a: Value, b: Value)
    requires a.List? && Sound(a) && Sound(b)
    ensures Canonical(a) == Canonical(b) <==> Equal(a, b)
    decreases a, 0
  {
    if b.List? {
      CanonicalItemsAt(a.items);
      CanonicalItemsAt(b.items);
      if |a.items| == |b.items| {
        forall i | 0 <= i < |a.items|
          ensures Canonical(a.items[i]) == Canonical(b.items[i]) <==> Equal(a.items[i], b.items[i])
        {
          assert a.items[i] in a.items && b.items[i] in b.items;
          CanonicalDecidesEqual(a.items[i], b.items[i]);
        }
        var x, y := CanonicalItems(a.items), CanonicalItems(b.items);
        assert x == y <==> forall i | 0 <= i < |x| :: x[i] == y[i];
        hide Canonical, Equal, Sound;
      }
    }
  }

  lemma RecordsEqual(a: Value, b: Value)
    requires a.Record? && Sound(a) && Sound(b)
    ensures Canonical(a) == Canonical(b) <==> Equal(a, b)
    decreases a, 0
  {
    if b.Record? {
      forall f, g | f in a.fields && g in b.fields
        ensures CanonicalField(f) == CanonicalField(g) <==> f.name == g.name && EqualField(f, g)
      {
        assert SoundField(f) && SoundField(g);
        CanonicalDecidesEqual(f.value, g.value);
      }
      FieldsAgree(a.fields, b.fields);
    }
  }

  lemma FieldsAgree(a: seq<Field>, b: seq<Field>)
    requires Unique(a) && Unique(b)
    requires forall f, g | f in a && g in b ::
               CanonicalField(f) == CanonicalField(g) <==> f.name == g.name && EqualField(f, g)
    ensures CanonicalFields(a) == CanonicalFields(b) <==>
            Names(a) == Names(b) && forall f, g | f in a && g in b && f.name == g.name :: EqualField(f, g)
  {
    hide CanonicalField, CanonicalFields, EqualField;
    if CanonicalFields(a) == CanonicalFields(b) { SameFormSameFields(a, b); }
    if Names(a) == Names(b) && forall f, g | f in a && g in b && f.name == g.name :: EqualField(f, g) {
      SameFieldsSameForm(a, b);
    }
  }

  lemma SameFormSameFields(a: seq<Field>, b: seq<Field>)
    requires Unique(b)
    requires forall f, g | f in a && g in b ::
               CanonicalField(f) == CanonicalField(g) <==> f.name == g.name && EqualField(f, g)
    requires CanonicalFields(a) == CanonicalFields(b)
    ensures Names(a) == Names(b)
    ensures forall f, g | f in a && g in b && f.name == g.name :: EqualField(f, g)
  {
    hide CanonicalField, CanonicalFields, EqualField;
    CanonicalFieldsKeep(a);
    CanonicalFieldsKeep(b);
    forall f, g | f in a && g in b && f.name == g.name
      ensures EqualField(f, g)
    {
      assert CanonicalField(f) in CanonicalFields(b);
      var h :| h in b && CanonicalField(f) == CanonicalField(h);
    }
  }

  lemma SameFieldsSameForm(a: seq<Field>, b: seq<Field>)
    requires Unique(a) && Unique(b)
    requires forall f, g | f in a && g in b ::
               CanonicalField(f) == CanonicalField(g) <==> f.name == g.name && EqualField(f, g)
    requires Names(a) == Names(b)
    requires forall f, g | f in a && g in b && f.name == g.name :: EqualField(f, g)
    ensures CanonicalFields(a) == CanonicalFields(b)
  {
    hide CanonicalField, CanonicalFields, EqualField;
    CanonicalFieldsKeep(a);
    CanonicalFieldsKeep(b);
    CanonicalFieldsAscend(a);
    CanonicalFieldsAscend(b);
    var x, y := CanonicalFields(a), CanonicalFields(b);
    forall c ensures c in x <==> c in y {
      if c in x {
        var f :| f in a && c == CanonicalField(f);
        assert f.name in Names(b);
      }
      if c in y {
        var g :| g in b && c == CanonicalField(g);
        assert g.name in Names(a);
      }
    }
    AscendingIsUnique(x, y);
  }

  /** The canonical form is a sound value, and canonical already. */
  lemma {:induction false} CanonicalIsSound(v: Value)
    requires Sound(v)
    ensures Sound(Canonical(v)) && Canonical(Canonical(v)) == Canonical(v)
    decreases v
  {
    CanonicalKeepsSound(v);
    CanonicalEqualsItself(v);
    CanonicalDecidesEqual(v, Canonical(v));
  }

  lemma {:induction false} CanonicalKeepsSound(v: Value)
    requires Sound(v)
    ensures Sound(Canonical(v))
    decreases v
  {
    match v
    case Null =>
    case Bool(_) =>
    case Num(_) =>
    case Text(_) =>
    case List(items) =>
      CanonicalItemsAt(items);
      forall i | i in CanonicalItems(items) ensures Sound(i) {
        var k :| 0 <= k < |items| && CanonicalItems(items)[k] == i;
        assert items[k] in items;
        CanonicalKeepsSound(items[k]);
      }
    case Record(fields) =>
      CanonicalFieldsKeep(fields);
      CanonicalFieldsAscend(fields);
      AscendingIsDistinct(CanonicalFields(fields));
      forall g | g in CanonicalFields(fields) ensures SoundField(g) {
        var f :| f in fields && g == CanonicalField(f);
        assert SoundField(f);
        CanonicalKeepsSound(f.value);
      }
  }

  lemma AscendingIsDistinct(fields: seq<Field>)
    requires Ascending(fields)
    ensures Unique(fields)
  {
    forall i, j | 0 <= i < j < |fields| ensures fields[i].name != fields[j].name {
      LessIsStrict(fields[i].name, fields[j].name);
    }
  }

  lemma {:induction false} CanonicalEqualsItself(v: Value)
    requires Sound(v)
    ensures Equal(v, Canonical(v))
    decreases v
  {
    match v
    case Null =>
    case Bool(_) =>
    case Num(_) =>
    case Text(_) =>
    case List(items) =>
      CanonicalItemsAt(items);
      forall i | 0 <= i < |items| ensures Equal(items[i], CanonicalItems(items)[i]) {
        assert items[i] in items;
        CanonicalEqualsItself(items[i]);
      }
    case Record(fields) =>
      CanonicalFieldsKeep(fields);
      forall f, g | f in fields && g in CanonicalFields(fields) && f.name == g.name
        ensures EqualField(f, g)
      {
        var h :| h in fields && g == CanonicalField(h);
        assert SoundField(f);
        CanonicalEqualsItself(f.value);
      }
  }

  /** Equality up to key order is an equivalence. */
  lemma EqualIsAnEquivalence(a: Value, b: Value, c: Value)
    requires Sound(a) && Sound(b) && Sound(c)
    ensures Equal(a, a)
    ensures Equal(a, b) ==> Equal(b, a)
    ensures Equal(a, b) && Equal(b, c) ==> Equal(a, c)
  {
    CanonicalDecidesEqual(a, a);
    CanonicalDecidesEqual(a, b);
    CanonicalDecidesEqual(b, a);
    CanonicalDecidesEqual(b, c);
    CanonicalDecidesEqual(a, c);
  }

  /** Permuting an object's members changes nothing. */
  lemma PermutedIsEqual(a: seq<Field>, b: seq<Field>)
    requires Sound(Record(a)) && multiset(a) == multiset(b)
    ensures Sound(Record(b)) && Equal(Record(a), Record(b))
    ensures Canonical(Record(a)) == Canonical(Record(b))
  {
    assert forall f :: f in a <==> f in b by {
      assert forall f :: (f in a <==> f in multiset(a)) && (f in b <==> f in multiset(b));
    }
    PermutedIsUnique(a, b);
    forall f, g | f in a && g in b && f.name == g.name ensures EqualField(f, g) {
      assert SoundField(f);
      EqualIsAnEquivalence(f.value, f.value, f.value);
    }
    CanonicalDecidesEqual(Record(a), Record(b));
  }

  lemma PermutedIsUnique(a: seq<Field>, b: seq<Field>)
    requires Unique(a) && multiset(a) == multiset(b)
    ensures Unique(b)
  {
    forall i, j | 0 <= i < j < |b| && b[i].name == b[j].name ensures false {
      assert b[i] in multiset(b) && b[j] in multiset(b);
      assert b[i] in a && b[j] in a;
      TwiceInMultiset(b, i, j);
      OnceInMultiset(a, b[i]);
    }
  }

  lemma TwiceInMultiset(s: seq<Field>, i: nat, j: nat)
    requires i < j < |s| && s[i] == s[j]
    ensures multiset(s)[s[i]] >= 2
  {
    assert s == s[..j] + s[j..];
    assert s[i] in s[..j] by { assert s[..j][i] == s[i]; }
    assert s[j] in s[j..] by { assert s[j..][0] == s[j]; }
  }

  lemma {:induction false} OnceInMultiset(s: seq<Field>, f: Field)
    requires Unique(s)
    ensures multiset(s)[f] <= 1
  {
    if s != [] {
      assert s == [s[0]] + s[1..];
      OnceInMultiset(s[1..], f);
      forall k | 0 <= k < |s[1..]| ensures s[1..][k] != s[0] {
        assert s[0].name != s[k + 1].name;
      }
    }
  }

  // ---- The text compared ----

  function Stringify(v: Value): string
    decreases v, 1
  {
    match v
    case Null => "null"
    case Bool(b) => if b then "true" else "false"
    case Num(text) => text
    case Text(s) => QuoteString(s)
    case List(items) => "[" + StringifyItems(items) + "]"
    case Record(fields) => "{" + StringifyFields(fields) + "}"
  }

  function StringifyItems(items: seq<Value>): string
    decreases items, 0
  {
    if items == [] then ""
    else Stringify(items[0]) + if |items| == 1 then "" else "," + StringifyItems(items[1..])
  }

  function StringifyField(f: Field): string
    decreases f, 2
  {
    QuoteString(f.name) + ":" + Stringify(f.value)
  }

  function StringifyFields(fields: seq<Field>): string
    decreases fields, 0
  {
    if fields == [] then ""
    else StringifyField(fields[0]) + if |fields| == 1 then "" else "," + StringifyFields(fields[1..])
  }

  /** What may follow a value inside a text: nothing, or the end of its place. */
  predicate Closed(rest: string) {
    rest == "" || rest[0] in {',', ']', '}'}
  }

  /** The first character of a written value tells its kind. */
  lemma FirstTellsKind(v: Value)
    requires Sound(v)
    ensures var s := Stringify(v);
            && s != "" && s[0] !in {',', ']', '}'}
            && (s[0] == 'n' <==> v.Null?) && (s[0] == 't' <==> v == Bool(true)) && (s[0] == 'f' <==> v == Bool(false))
            && (s[0] == '"' <==> v.Text?) && (s[0] == '[' <==> v.List?) && (s[0] == '{' <==> v.Record?)
  {}

  lemma SameFirst(a: string, b: string, x: string, y: string)
    requires a + x == b + y && a != "" && b != ""
    ensures a[0] == b[0]
  {
    assert (a + x)[0] == a[0] && (b + y)[0] == b[0];
  }

  /** A written value can be read off any text it starts: what was written, and where it
      ends, are both determined. */
  lemma {:induction false} WrittenValueIsReadable(a: Value, b: Value, x: string, y: string)
    requires Sound(a) && Sound(b) && Closed(x) && Closed(y)
    requires Stringify(a) + x == Stringify(b) + y
    ensures a == b && x == y
    decreases a, 1
  {
    hide Stringify, Sound;
    FirstTellsKind(a);
    FirstTellsKind(b);
    SameFirst(Stringify(a), Stringify(b), x, y);
    match a
    case Null =>
      SameTail(Stringify(a), x, y);
    case Bool(_) =>
      SameTail(Stringify(a), x, y);
    case Num(text) =>
      NumbersReadable(a, b, x, y);
    case Text(s) =>
      TextsReadable(s, b.s, x, y);
    case List(items) =>
      ListsReadable(items, b.items, x, y);
    case Record(fields) =>
      RecordsReadable(fields, b.fields, x, y);
  }

  lemma SameTail(s: string, x: string, y: string)
    requires s + x == s + y
    ensures x == y
  {
    assert (s + x)[|s|..] == x && (s + y)[|s|..] == y;
  }

  lemma NumbersReadable(a: Value, b: Value, x: string, y: string)
    requires a.Num? && b.Num? && Sound(a) && Sound(b) && Closed(x) && Closed(y)
    requires Stringify(a) + x == Stringify(b) + y
    ensures a == b && x == y
  {
    NumberRunOf(a.text, x);
    NumberRunOf(b.text, y);
    assert a.text == (a.text + x)[..|a.text|] && b.text == (b.text + y)[..|b.text|];
    SameTail(a.text, x, y);
  }

  function NumberRun(s: string): nat {
    if s == "" || !IsNumberChar(s[0]) then 0 else 1 + NumberRun(s[1..])
  }

  lemma {:induction false} NumberRunOf(text: string, rest: string)
    requires Closed(rest) && forall c | c in text :: IsNumberChar(c)
    ensures NumberRun(text + rest) == |text|
  {
    if text == "" {
      assert text + rest == rest;
    } else {
      assert text[0] in text;
      assert forall c | c in text[1..] :: c in text;
      assert (text + rest)[1..] == text[1..] + rest;
      NumberRunOf(text[1..], rest);
    }
  }

  lemma TextsReadable(a: string, b: string, x: string, y: string)
    requires Stringify(Text(a)) + x == Stringify(Text(b)) + y
    ensures a == b && x == y
  {
    QuotedReadable(a, b, x, y);
  }

  lemma QuotedReadable(a: string, b: string, x: string, y: string)
    requires QuoteString(a) + x == QuoteString(b) + y
    ensures a == b && x == y
  {
    hide EscapeString;
    var s := QuoteString(a) + x;
    assert s[1..] == EscapeString(a) + "\"" + x;
    assert s[1..] == EscapeString(b) + "\"" + y;
    WrittenStringsDiffer(a, b, x, y);
  }

  lemma ListsReadable(a: seq<Value>, b: seq<Value>, x: string, y: string)
    requires Sound(List(a)) && Sound(List(b))
    requires Stringify(List(a)) + x == Stringify(List(b)) + y
    ensures a == b && x == y
    decreases a, 1
  {
    var s := Stringify(List(a)) + x;
    assert s != "";
    hide Stringify, StringifyItems;
    assert s[1..] == StringifyItems(a) + "]" + x;
    assert s[1..] == StringifyItems(b) + "]" + y;
    ItemsReadable(a, b, x, y);
  }

  lemma OpenRecord(a: seq<Field>, x: string)
    ensures (Stringify(Record(a)) + x)[1..] == FieldsText(a, x)
  {}

  /** What follows the first item of a list. */
  function AfterItem(items: seq<Value>, x: string): string
    requires items != []
  {
    if |items| == 1 then "]" + x else "," + (StringifyItems(items[1..]) + "]" + x)
  }

  lemma TakeItem(items: seq<Value>, x: string)
    requires items != []
    ensures StringifyItems(items) + "]" + x == Stringify(items[0]) + AfterItem(items, x)
  {
    hide Stringify;
  }

  lemma {:induction false} ItemsReadable(a: seq<Value>, b: seq<Value>, x: string, y: string)
    requires (forall i | i in a :: Sound(i)) && (forall i | i in b :: Sound(i))
    requires StringifyItems(a) + "]" + x == StringifyItems(b) + "]" + y
    ensures a == b && x == y
    decreases a, 0
  {
    hide Stringify, StringifyItems, Sound;
    ItemsStart(a, x);
    ItemsStart(b, y);
    if a == [] {
      EmptyItems(x);
      EmptyItems(y);
      SameTail("]", x, y);
    } else {
      assert a[0] in a && b[0] in b;
      TakeItem(a, x);
      TakeItem(b, y);
      WrittenValueIsReadable(a[0], b[0], AfterItem(a, x), AfterItem(b, y));
      assert AfterItem(a, x)[0] == AfterItem(b, y)[0];
      if |a| == 1 {
        SameTail("]", x, y);
        assert a == [a[0]] && b == [b[0]];
      } else {
        assert (forall i | i in a[1..] :: i in a) && (forall i | i in b[1..] :: i in b);
        SameTail(",", StringifyItems(a[1..]) + "]" + x, StringifyItems(b[1..]) + "]" + y);
        ItemsReadable(a[1..], b[1..], x, y);
        assert a == [a[0]] + a[1..] && b == [b[0]] + b[1..];
      }
    }
  }

  lemma EmptyItems(x: string)
    ensures StringifyItems([]) + "]" + x == "]" + x
  {}

  lemma ItemsStart(items: seq<Value>, x: string)
    requires forall i | i in items :: Sound(i)
    ensures (StringifyItems(items) + "]" + x)[0] == ']' <==> items == []
  {
    if items != [] {
      assert items[0] in items;
      FirstTellsKind(items[0]);
    }
  }

  lemma RecordsReadable(a: seq<Field>, b: seq<Field>, x: string, y: string)
    requires Sound(Record(a)) && Sound(Record(b))
    requires Stringify(Record(a)) + x == Stringify(Record(b)) + y
    ensures a == b && x == y
    decreases a, 1
  {
    var s := Stringify(Record(a)) + x;
    assert s != "";
    hide Stringify, FieldsText;
    OpenRecord(a, x);
    OpenRecord(b, y);
    FieldsReadable(a, b, x, y);
  }

  /** An object's text after its opening brace, and what follows the object. */
  function FieldsText(fields: seq<Field>, x: string): string {
    StringifyFields(fields) + "}" + x
  }

  /** What follows the first field's value in an object. */
  function AfterField(fields: seq<Field>, x: string): string
    requires fields != []
  {
    if |fields| == 1 then "}" + x else "," + FieldsText(fields[1..], x)
  }

  lemma TakeField(fields: seq<Field>, x: string)
    requires fields != []
    ensures FieldsText(fields, x)
            == QuoteString(fields[0].name) + (":" + (Stringify(fields[0].value) + AfterField(fields, x)))
  {
    var q, v := QuoteString(fields[0].name), Stringify(fields[0].value);
    hide Stringify, QuoteString;
    if |fields| == 1 {
      assert StringifyFields(fields) == q + ":" + v;
    } else {
      var more := StringifyFields(fields[1..]);
      assert StringifyFields(fields) == q + ":" + v + "," + more;
      hide StringifyFields;
      TextsInRow(q, v, more, x);
    }
  }

  lemma TextsInRow(q: string, v: string, more: string, x: string)
    ensures q + ":" + v + "," + more + "}" + x == q + (":" + (v + ("," + (more + "}" + x))))
  {}

  lemma AfterFieldIs(fields: seq<Field>, x: string)
    requires fields != []
    ensures var s := AfterField(fields, x);
            && Closed(s) && s != "" && s[0] == (if |fields| == 1 then '}' else ',')
            && s == if |fields| == 1 then "}" + x else "," + FieldsText(fields[1..], x)
  {
    hide FieldsText;
  }

  lemma {:induction false} FieldsReadable(a: seq<Field>, b: seq<Field>, x: string, y: string)
    requires (forall f | f in a :: SoundField(f)) && (forall f | f in b :: SoundField(f))
    requires FieldsText(a, x) == FieldsText(b, y)
    ensures a == b && x == y
    decreases a, 0
  {
    FieldsStart(a, x);
    FieldsStart(b, y);
    hide *;
    if a == [] {
      SameTail("}", x, y);
    } else {
      assert SoundField(a[0]) && SoundField(b[0]) by { assert a[0] in a && b[0] in b; }
      FirstReadable(a, b, x, y);
      AfterFieldIs(a, x);
      AfterFieldIs(b, y);
      if |a| == 1 {
        SameTail("}", x, y);
      } else {
        assert (forall f | f in a[1..] :: f in a) && (forall f | f in b[1..] :: f in b);
        SameTail(",", FieldsText(a[1..], x), FieldsText(b[1..], y));
        FieldsReadable(a[1..], b[1..], x, y);
      }
    }
  }

  /** The first fields are the same, and so is what follows them. */
  lemma FirstReadable(a: seq<Field>, b: seq<Field>, x: string, y: string)
    requires a != [] && b != [] && SoundField(a[0]) && SoundField(b[0])
    requires FieldsText(a, x) == FieldsText(b, y)
    ensures a[0] == b[0] && AfterField(a, x) == AfterField(b, y)
    decreases a, 0, 0
  {
    TakeField(a, x);
    TakeField(b, y);
    AfterFieldIs(a, x);
    AfterFieldIs(b, y);
    assert Sound(a[0].value) && Sound(b[0].value);
    hide *;
    var p, q := Stringify(a[0].value) + AfterField(a, x), Stringify(b[0].value) + AfterField(b, y);
    QuotedReadable(a[0].name, b[0].name, ":" + p, ":" + q);
    SameTail(":", p, q);
    WrittenValueIsReadable(a[0].value, b[0].value, AfterField(a, x), AfterField(b, y));
  }

  lemma FieldsStart(fields: seq<Field>, x: string)
    ensures fields == [] ==> FieldsText(fields, x) == "}" + x
    ensures FieldsText(fields, x) != "" && (FieldsText(fields, x)[0] == '}' <==> fields == [])
  {
    if fields != [] { TakeField(fields, x); }
  }

  /** The comparison as the code makes it: equal texts of canonical forms, where an absent
      value has no text. */
  predicate Same(a: Option<Value>, b: Option<Value>) {
    match (a, b)
    case (None, None) => true
    case (Some(x), Some(y)) => Stringify(Canonical(x)) == Stringify(Canonical(y))
    case _ => false
  }

  /** It holds exactly for values equal up to key order; an absent value is only itself. */
  lemma SameDecidesEqual(a: Option<Value>, b: Option<Value>)
    requires (a.Some? ==> Sound(a.value)) && (b.Some? ==> Sound(b.value))
    ensures Same(a, b) <==> a.Some? == b.Some? && (a.Some? ==> Equal(a.value, b.value))
  {
    if a.Some? && b.Some? {
      hide Stringify, Canonical, Equal, Sound;
      CanonicalDecidesEqual(a.value, b.value);
      CanonicalIsSound(a.value);
      CanonicalIsSound(b.value);
      var x, y := Canonical(a.value), Canonical(b.value);
      if Stringify(x) == Stringify(y) { WrittenValueIsReadable(x, y, "", ""); }
    }
  }

  // ---- Changed fields ----

  const UNRECORDED := {"_meta", "icons"}

  function Get(fields: seq<Field>, name: string): (v: Option<Value>)
    ensures v.Some? <==> name in Names(fields)
    ensures v.Some? ==> exists f | f in fields :: f.name == name && f.value == v.value
  {
    if fields == [] then None
    else if fields[0].name == name then
      assert fields[0] in fields;
      Some(fields[0].value)
    else
      assert fields == [fields[0]] + fields[1..];
      Get(fields[1..], name)
  }

  predicate AscendingNames(names: seq<string>) {
    forall i, j | 0 <= i < j < |names| :: Less(names[i], names[j])
  }

  /** A name put in its place, unless it is there. */
  function InsertName(name: string, sorted: seq<string>): seq<string> {
    if sorted == [] || Less(name, sorted[0]) then [name] + sorted
    else if name == sorted[0] then sorted
    else [sorted[0]] + InsertName(name, sorted[1..])
  }

  /** Names in order, each once. */
  function Sorted(names: seq<string>): seq<string> {
    if names == [] then [] else InsertName(names[0], Sorted(names[1..]))
  }

  lemma {:induction false} InsertNameIs(name: string, sorted: seq<string>)
    requires AscendingNames(sorted)
    ensures AscendingNames(InsertName(name, sorted))
    ensures forall n :: n in InsertName(name, sorted) <==> n == name || n in sorted
  {
    hide Less;
    if sorted == [] {
    } else {
      var head, more := sorted[0], sorted[1..];
      assert sorted == [head] + more;
      forall n | n in more ensures Less(head, n) {
        var k :| 0 <= k < |more| && more[k] == n;
        assert sorted[k + 1] == n;
      }
      if Less(name, head) {
        forall n | n in sorted ensures Less(name, n) {
          if n != head { LessIsTransitive(name, head, n); }
        }
      } else if name != head {
        LessIsTotal(name, head);
        InsertNameIs(name, more);
      }
    }
  }

  lemma {:induction false} SortedIs(names: seq<string>)
    ensures AscendingNames(Sorted(names)) && forall n :: n in Sorted(names) <==> n in names
  {
    if names != [] {
      assert names == [names[0]] + names[1..];
      SortedIs(names[1..]);
      InsertNameIs(names[0], Sorted(names[1..]));
    }
  }

  function NameList(fields: seq<Field>): (names: seq<string>)
    ensures forall n :: n in names <==> n in RecordedNames(fields)
  {
    if fields == [] then []
    else
      assert fields == [fields[0]] + fields[1..];
      (if fields[0].name in UNRECORDED then [] else [fields[0].name]) + NameList(fields[1..])
  }

  function RecordedNames(fields: seq<Field>): set<string> {
    Names(fields) - UNRECORDED
  }

  predicate FieldSame(recorded: seq<Field>, live: seq<Field>, name: string) {
    Same(Get(recorded, name), Get(live, name))
  }

  function Differing(recorded: seq<Field>, live: seq<Field>, names: seq<string>): seq<string> {
    if names == [] then []
    else (if FieldSame(recorded, live, names[0]) then [] else [names[0]]) + Differing(recorded, live, names[1..])
  }

  /** The recorded fields that differ, in order of name. */
  function ChangedFields(recorded: seq<Field>, live: seq<Field>): seq<string> {
    Differing(recorded, live, Sorted(NameList(recorded) + NameList(live)))
  }

  predicate SoundFields(fields: seq<Field>) {
    Unique(fields) && forall f | f in fields :: SoundField(f)
  }

  /** The same recorded fields, with values equal up to key order. */
  predicate SameDefinition(a: seq<Field>, b: seq<Field>) {
    && RecordedNames(a) == RecordedNames(b)
    && forall f, g | f in a && g in b && f.name == g.name && f.name !in UNRECORDED :: EqualField(f, g)
  }

  lemma {:induction false} DifferingIs(recorded: seq<Field>, live: seq<Field>, names: seq<string>)
    requires AscendingNames(names)
    ensures AscendingNames(Differing(recorded, live, names))
    ensures forall n :: n in Differing(recorded, live, names) <==> n in names && !FieldSame(recorded, live, n)
  {
    if names != [] {
      hide FieldSame, Less;
      assert names == [names[0]] + names[1..];
      DifferingIs(recorded, live, names[1..]);
      var more := Differing(recorded, live, names[1..]);
      forall n | n in more ensures Less(names[0], n) {
        var k :| 0 <= k < |names[1..]| && names[1..][k] == n;
        assert names[k + 1] == n;
      }
    }
  }

  /** A field is the same exactly when it is absent from both, or present in both with
      values equal up to key order. In particular an absent field is not a null one. */
  lemma FieldSameIs(a: seq<Field>, b: seq<Field>, name: string)
    requires SoundFields(a) && SoundFields(b)
    ensures FieldSame(a, b, name) <==>
            && (name in Names(a) <==> name in Names(b))
            && forall f, g | f in a && g in b && f.name == name && g.name == name :: EqualField(f, g)
  {
    hide Same, Equal, Get, Sound;
    var x, y := Get(a, name), Get(b, name);
    if x.Some? { var f :| f in a && f.name == name && f.value == x.value; assert SoundField(f); }
    if y.Some? { var g :| g in b && g.name == name && g.value == y.value; assert SoundField(g); }
    SameDecidesEqual(x, y);
    forall f, g | f in a && g in b && f.name == name && g.name == name
      ensures EqualField(f, g) == (x.Some? && y.Some? && Equal(x.value, y.value))
    {
    }
  }

  /** Nothing differs exactly when the definitions are the same. */
  lemma NothingDiffers(a: seq<Field>, b: seq<Field>)
    requires SoundFields(a) && SoundFields(b)
    ensures (forall n | n in RecordedNames(a) + RecordedNames(b) :: FieldSame(a, b, n)) <==> SameDefinition(a, b)
  {
    hide FieldSame, EqualField, Sound;
    forall n ensures FieldSame(a, b, n) <==>
                     && (n in Names(a) <==> n in Names(b))
                     && forall f, g | f in a && g in b && f.name == n && g.name == n :: EqualField(f, g)
    {
      FieldSameIs(a, b, n);
    }
    if forall n | n in RecordedNames(a) + RecordedNames(b) :: FieldSame(a, b, n) {
      forall n ensures n in RecordedNames(a) <==> n in RecordedNames(b) {
        if n in RecordedNames(a) + RecordedNames(b) { assert FieldSame(a, b, n); }
      }
      forall f, g | f in a && g in b && f.name == g.name && f.name !in UNRECORDED ensures EqualField(f, g) {
        assert f.name in RecordedNames(a);
        assert FieldSame(a, b, f.name);
      }
    }
  }

  /** What the comparison reports: in strict order, exactly the recorded names whose values
      differ; nothing exactly when the definitions are the same. */
  lemma ChangedFieldsDecide(a: seq<Field>, b: seq<Field>)
    requires SoundFields(a) && SoundFields(b)
    ensures AscendingNames(ChangedFields(a, b))
    ensures forall n :: n in ChangedFields(a, b) <==>
                        n in Names(a) + Names(b) && n != "_meta" && n != "icons" && !FieldSame(a, b, n)
    ensures ChangedFields(a, b) == [] <==> SameDefinition(a, b)
  {
    SortedIs(NameList(a) + NameList(b));
    DifferingIs(a, b, Sorted(NameList(a) + NameList(b)));
    NothingDiffers(a, b);
    hide FieldSame, SameDefinition, Sound, Differing, Sorted, AscendingNames, Less;
    var changed := ChangedFields(a, b);
    assert changed == [] <==> forall n :: n !in changed by { if changed != [] { assert changed[0] in changed; } }
  }

  lemma {:induction false} AscendingNamesUnique(a: seq<string>, b: seq<string>)
    requires AscendingNames(a) && AscendingNames(b) && forall n :: n in a <==> n in b
    ensures a == b
    decreases |a|
  {
    hide Less;
    assert (a != [] ==> a[0] in b) && (b != [] ==> b[0] in a);
    if a != [] {
      NamesHeadsAgree(a, b);
      forall n ensures n in a[1..] <==> n in b[1..] {
        NamesTail(a, n);
        NamesTail(b, n);
      }
      AscendingNamesUnique(a[1..], b[1..]);
      assert a == [a[0]] + a[1..] && b == [b[0]] + b[1..];
    }
  }

  lemma NamesHeadsAgree(a: seq<string>, b: seq<string>)
    requires a != [] && b != [] && AscendingNames(a) && AscendingNames(b)
    requires a[0] in b && b[0] in a
    ensures a[0] == b[0]
  {
    hide Less;
    var i :| 0 <= i < |b| && b[i] == a[0];
    var j :| 0 <= j < |a| && a[j] == b[0];
    if i > 0 && j > 0 { LessIsStrict(a[0], b[0]); }
  }

  lemma NamesTail(a: seq<string>, n: string)
    requires a != [] && AscendingNames(a)
    ensures n in a[1..] <==> n in a && n != a[0]
  {
    hide Less;
    assert a == [a[0]] + a[1..];
    forall k | 0 < k < |a| ensures a[k] != a[0] { LessIsStrict(a[0], a[k]); }
    if n in a[1..] { var k :| 0 <= k < |a[1..]| && a[1..][k] == n; assert a[k + 1] == n; }
  }

  /** Which definition is the recorded one makes no difference to what changed. */
  lemma ChangedFieldsIsSymmetric(a: seq<Field>, b: seq<Field>)
    requires SoundFields(a) && SoundFields(b)
    ensures ChangedFields(a, b) == ChangedFields(b, a)
  {
    hide Same, ChangedFields, Sound;
    ChangedFieldsDecide(a, b);
    ChangedFieldsDecide(b, a);
    forall n ensures FieldSame(a, b, n) == FieldSame(b, a, n) { SameIsSymmetric(Get(a, n), Get(b, n)); }
    AscendingNamesUnique(ChangedFields(a, b), ChangedFields(b, a));
  }

  lemma SameIsSymmetric(a: Option<Value>, b: Option<Value>)
    ensures Same(a, b) == Same(b, a)
  {}

  /** No change, and no further change, is no change: what a chain of refreshes rests on. */
  lemma UnchangedIsTransitive(a: seq<Field>, b: seq<Field>, c: seq<Field>)
    requires SoundFields(a) && SoundFields(b) && SoundFields(c)
    requires ChangedFields(a, b) == [] && ChangedFields(b, c) == []
    ensures ChangedFields(a, c) == []
  {
    hide ChangedFields, Equal, Sound;
    ChangedFieldsDecide(a, b);
    ChangedFieldsDecide(b, c);
    ChangedFieldsDecide(a, c);
    forall f, h | f in a && h in c && f.name == h.name && f.name !in UNRECORDED ensures EqualField(f, h) {
      assert f.name in RecordedNames(b);
      var g :| g in b && g.name == f.name;
      assert EqualField(f, g) && EqualField(g, h);
      assert SoundField(f) && SoundField(g) && SoundField(h);
      EqualIsAnEquivalence(f.value, g.value, h.value);
    }
  }

  lemma UnchangedFromItself(a: seq<Field>)
    requires SoundFields(a)
    ensures ChangedFields(a, a) == []
  {
    hide ChangedFields, Equal, Sound;
    ChangedFieldsDecide(a, a);
    forall f, g | f in a && g in a && f.name == g.name ensures EqualField(f, g) {
      assert SoundField(f);
      EqualIsAnEquivalence(f.value, f.value, f.value);
    }
  }

  // ---- The definition of a listed item ----

  function Recordable(fields: seq<Field>): seq<Field> {
    if fields == [] then []
    else (if fields[0].name in UNRECORDED then [] else [fields[0]]) + Recordable(fields[1..])
  }

  /** The parts of an item held to the record, canonical. */
  function DefinitionOf(item: seq<Field>): seq<Field> {
    CanonicalFields(Recordable(item))
  }

  lemma {:induction false} RecordableIs(fields: seq<Field>)
    ensures forall f :: f in Recordable(fields) <==> f in fields && f.name !in UNRECORDED
    ensures Unique(fields) ==> Unique(Recordable(fields))
  {
    if fields != [] {
      assert fields == [fields[0]] + fields[1..];
      RecordableIs(fields[1..]);
    }
  }

  /** Taking an item's definition changes nothing that is compared. */
  lemma DefinitionIsUnchanged(item: seq<Field>)
    requires SoundFields(item)
    ensures SoundFields(DefinitionOf(item)) && ChangedFields(item, DefinitionOf(item)) == []
  {
    hide ChangedFields, Equal, Sound, CanonicalFields;
    RecordableIs(item);
    var kept := Recordable(item);
    var definition := DefinitionOf(item);
    assert Sound(Record(kept)) && Sound(Record(definition)) && Equal(Record(kept), Record(definition)) by {
      DefinitionIsSound(kept);
    }
    CanonicalFieldsKeep(kept);
    assert SameDefinition(item, definition) by { KeptIsSame(item, definition); }
    assert SoundFields(definition) by { SoundRecord(definition); }
    ChangedFieldsDecide(item, definition);
  }

  /** So holding an item to a record by its definition is holding the item itself to it. */
  lemma HeldToItem(recorded: seq<Field>, item: seq<Field>)
    requires SoundFields(recorded) && SoundFields(item)
    ensures ChangedFields(recorded, DefinitionOf(item)) == [] <==> SameDefinition(recorded, item)
  {
    DefinitionIsUnchanged(item);
    var definition := DefinitionOf(item);
    hide ChangedFields, SoundFields, DefinitionOf, SameDefinition;
    ChangedFieldsDecide(recorded, item);
    ChangedFieldsIsSymmetric(item, definition);
    if ChangedFields(recorded, item) == [] { UnchangedIsTransitive(recorded, item, definition); }
    if ChangedFields(recorded, definition) == [] { UnchangedIsTransitive(recorded, definition, item); }
  }

  lemma SoundRecord(fields: seq<Field>)
    ensures Sound(Record(fields)) <==> SoundFields(fields)
  {}

  lemma DefinitionIsSound(kept: seq<Field>)
    requires SoundFields(kept)
    ensures Sound(Record(kept)) && Sound(Record(CanonicalFields(kept)))
    ensures Equal(Record(kept), Record(CanonicalFields(kept)))
  {
    SoundRecord(kept);
    CanonicalKeepsSound(Record(kept));
    CanonicalEqualsItself(Record(kept));
  }

  lemma KeptIsSame(item: seq<Field>, definition: seq<Field>)
    requires Equal(Record(Recordable(item)), Record(definition))
    ensures SameDefinition(item, definition)
  {
    hide EqualField;
    RecordableIs(item);
    var kept := Recordable(item);
    assert Names(kept) == Names(definition);
    forall n ensures n in RecordedNames(item) <==> n in RecordedNames(definition) {
      if n in RecordedNames(item) {
        var f :| f in item && f.name == n;
        assert f in kept;
      }
      if n in RecordedNames(definition) {
        var f :| f in kept && f.name == n;
        assert f in item;
      }
    }
    forall f, g | f in item && g in definition && f.name == g.name && f.name !in UNRECORDED
      ensures EqualField(f, g)
    {
      assert f in kept;
    }
  }
}
