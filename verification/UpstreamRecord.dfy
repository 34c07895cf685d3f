/** Holding a remote upstream to recorded definitions. Two implementations keep what they
    last saw in different maps; both are decided by the history of what was seen. */
module UpstreamRecord {
  import opened Optional
  import opened Definitions

  type Item = seq<Field>

  /** What a record learns, in order: a label was seen, matching its definition or with
      these fields changed, at a time; or a full reading no longer listed it. */
  datatype Note =
    | Saw(name: string, changed: seq<string>, at: int)
    | Lost(name: string)

  /** The last thing learnt of a label. */
  function Last(history: seq<Note>, name: string): (last: Option<Note>)
    ensures last.Some? ==> last.value.Saw? && last.value.name == name && last.value in history
  {
    if history == [] then None
    else
      var note := history[|history| - 1];
      if note.name == name then (if note.Lost? then None else Some(note))
      else Last(history[..|history| - 1], name)
  }

  const FRESH_MS := 60_000

  /** Its last sighting matched, less than sixty seconds before. */
  predicate Trusted(history: seq<Note>, name: string, now: int) {
    var last := Last(history, name);
    last.Some? && last.value.changed == [] && now - last.value.at < FRESH_MS
  }

  predicate ChangedLast(history: seq<Note>, name: string) {
    var last := Last(history, name);
    last.Some? && last.value.changed != []
  }

  lemma LastAfter(history: seq<Note>, note: Note, name: string)
    ensures Last(history + [note], name)
            == if note.name != name then Last(history, name) else if note.Lost? then None else Some(note)
  {
    assert (history + [note])[..|history|] == history;
  }

  /** What is trusted, one note at a time: a match for a minute from when it was seen, a change
      or a loss not at all, and what was known before of every other label. */
  lemma TrustMeans(history: seq<Note>, note: Note, name: string, now: int)
    ensures !Trusted([], name, now)
    ensures Trusted(history + [note], name, now)
            <==> if note.name == name then note.Saw? && note.changed == [] && now < note.at + 60_000
                 else Trusted(history, name, now)
  {
    LastAfter(history, note, name);
  }

  /** The note a listed item makes, when its label is recorded. */
  function NotesOf(definitions: map<string, Item>, name: string, item: Item, now: int): seq<Note> {
    if name in definitions then [Saw(name, ChangedFields(definitions[name], DefinitionOf(item)), now)] else []
  }

  // ---- The TypeScript record ----

  datatype Listed = Listed(name: string, item: Item, at: int)

  const INSTRUCTIONS := "server:instructions"

  function NotesOfAll(definitions: map<string, Item>, listed: seq<Listed>): seq<Note> {
    if listed == [] then []
    else
      (if listed[0].name == INSTRUCTIONS then []
       else NotesOf(definitions, listed[0].name, listed[0].item, listed[0].at))
      + NotesOfAll(definitions, listed[1..])
  }

  lemma TakeListed(definitions: map<string, Item>, listed: seq<Listed>, i: nat, history: seq<Note>)
    requires i < |listed|
    ensures var it := listed[i];
            history + NotesOfAll(definitions, listed[i..])
            == (if it.name == INSTRUCTIONS then history
                else history + NotesOf(definitions, it.name, it.item, it.at)) + NotesOfAll(definitions, listed[i + 1..])
  {
    hide ChangedFields, DefinitionOf;
    assert listed[i..][1..] == listed[i + 1..];
  }

  datatype Refusal = Changed(name: string, fields: seq<string>) | NotListed(name: string) | Unreadable

  /** Labels last seen matching, and when; labels last seen changed, and what had. */
  ghost predicate Mirrors(history: seq<Note>, checkedAt: map<string, int>, changed: map<string, seq<string>>) {
    && (forall l :: l in checkedAt ==>
          Last(history, l).Some? && Last(history, l).value.changed == [] && Last(history, l).value.at == checkedAt[l])
    && (forall l :: l in changed ==>
          Last(history, l).Some? && Last(history, l).value.changed == changed[l] != [])
    && (forall l :: Last(history, l).Some? ==> l in checkedAt || l in changed)
  }

  /** One more sighting moves its label to the map it belongs in. */
  lemma MirrorsSighting(history: seq<Note>, checkedAt: map<string, int>, changed: map<string, seq<string>>,
                        name: string, fields: seq<string>, now: int)
    requires Mirrors(history, checkedAt, changed)
    ensures var grown := history + [Saw(name, fields, now)];
            if fields == [] then
              Mirrors(grown, checkedAt[name := now], map l | l in changed && l != name :: changed[l])
            else Mirrors(grown, map l | l in checkedAt && l != name :: checkedAt[l], changed[name := fields])
  {
    var note := Saw(name, fields, now);
    forall l ensures Last(history + [note], l) == if l == name then Some(note) else Last(history, l) {
      LastAfter(history, note, l);
    }
    hide Last;
  }

  class UpstreamRecord {
    const definitions: map<string, Item>
    var checkedAt: map<string, int>
    var changed: map<string, seq<string>>
    /** Whether a listing of the record's own is in flight, which callers then share. */
    var listing: bool
    ghost var history: seq<Note>
    ghost var inFlight: nat

    /** The two maps are one: what was last seen of each label. */
    ghost predicate Valid()
      reads this
    {
      inFlight == (if listing then 1 else 0) && Mirrors(history, checkedAt, changed)
    }

    constructor (definitions: map<string, Item>)
      ensures Valid() && history == [] && this.definitions == definitions
    {
      this.definitions := definitions;
      checkedAt, changed, listing := map[], map[], false;
      history, inFlight := [], 0;
    }

    predicate Fresh(name: string, now: int)
      reads this`checkedAt
    {
      name in checkedAt && now - checkedAt[name] < FRESH_MS
    }

    lemma FreshIsTrusted(name: string, now: int)
      requires Valid()
      ensures name !in changed && Fresh(name, now) <==> Trusted(history, name, now)
      ensures name in changed <==> ChangedLast(history, name)
    {}

    /** One listed item against its record. Unrecorded items pass. */
    method Matches(name: string, item: Item, now: int) returns (ok: bool)
      requires Valid()
      modifies this`checkedAt, this`changed, this`history
      ensures Valid()
      ensures history == old(history) + NotesOf(definitions, name, item, now)
      ensures ok <==> name !in definitions || ChangedFields(definitions[name], DefinitionOf(item)) == []
    {
      hide Mirrors, ChangedFields, DefinitionOf;
      if name !in definitions { return true; }
      var fields := ChangedFields(definitions[name], DefinitionOf(item));
      MirrorsSighting(history, checkedAt, changed, name, fields, now);
      history := history + [Saw(name, fields, now)];
      if fields == [] {
        changed := map l | l in changed && l != name :: changed[l];
        checkedAt := checkedAt[name := now];
        return true;
      }
      changed := changed[name := fields];
      checkedAt := map l | l in checkedAt && l != name :: checkedAt[l];
      return false;
    }

    /** The first half of a refusal check: false when everything asked about is settled;
        true when the caller must wait for a listing, which it starts or joins. */
    method RefuseStart(labels: seq<string>, now: int) returns (waits: bool)
      requires Valid()
      modifies this`listing, this`inFlight
      ensures Valid() && inFlight <= 1
      ensures waits <==> exists l | l in labels :: l in definitions && !ChangedLast(history, l) && !Trusted(history, l, now)
      ensures if waits then listing else listing == old(listing)
    {
      forall l ensures l in changed <==> ChangedLast(history, l) { FreshIsTrusted(l, now); }
      forall l ensures l !in changed && Fresh(l, now) <==> Trusted(history, l, now) { FreshIsTrusted(l, now); }
      waits := exists l | l in labels :: l in definitions && l !in changed && !Fresh(l, now);
      if waits && !listing {
        listing := true;
        inFlight := inFlight + 1;
      }
    }

    /** The shared listing answered: every item in it is held to the record. */
    method ListingDone(listed: seq<Listed>)
      requires Valid() && listing
      modifies this
      ensures Valid() && !listing
      ensures history == old(history) + NotesOfAll(definitions, listed)
    {
      hide Last, ChangedFields, DefinitionOf, NotesOf;
      for i := 0 to |listed|
        invariant Valid() && listing
        invariant history + NotesOfAll(definitions, listed[i..]) == old(history) + NotesOfAll(definitions, listed)
      {
        var it := listed[i];
        TakeListed(definitions, listed, i, history);
        if it.name != INSTRUCTIONS {
          var _ := Matches(it.name, it.item, it.at);
        }
      }
      assert listed[|listed|..] == [];
      assert history + [] == history;
      listing := false;
      inFlight := inFlight - 1;
    }

    /** The shared listing failed, and each caller waiting on it refuses. */
    method ListingFailed() returns (r: Option<Refusal>)
      requires Valid() && listing
      modifies this`listing, this`inFlight
      ensures Valid() && !listing && r == Some(Unreadable)
    {
      listing := false;
      inFlight := inFlight - 1;
      return Some(Unreadable);
    }

    /** The second half: allowed exactly when every recorded label asked about was last
        seen matching, less than sixty seconds ago, whatever else happened meanwhile. */
    method RefuseEnd(labels: seq<string>, now: int) returns (r: Option<Refusal>)
      requires Valid()
      ensures r.None? <==> forall l | l in labels && l in definitions :: Trusted(history, l, now)
      ensures r.Some? ==>
                && !r.value.Unreadable? && r.value.name in definitions
                && exists i :: 0 <= i < |labels| && labels[i] == r.value.name
                               && forall l | l in labels[..i] && l in definitions :: Trusted(history, l, now)
      ensures r.Some? && r.value.Changed? ==>
                Last(history, r.value.name).Some? && Last(history, r.value.name).value.changed == r.value.fields != []
      ensures r.Some? && r.value.NotListed? ==>
                !ChangedLast(history, r.value.name) && !Trusted(history, r.value.name, now)
    {
      for i := 0 to |labels|
        invariant forall l | l in labels[..i] && l in definitions :: Trusted(history, l, now)
      {
        var name := labels[i];
        assert labels[..i + 1] == labels[..i] + [name];
        if name in definitions {
          FreshIsTrusted(name, now);
          if name in changed { return Some(Changed(name, changed[name])); }
          if !Fresh(name, now) { return Some(NotListed(name)); }
        }
      }
      assert labels[..|labels|] == labels;
      return None;
    }
  }

  // ---- What that means over any run ----

  /** Once a label is seen changed it stays refused, whatever else is seen and however the
      clock moves, until a sighting of it that matches. */
  lemma {:induction false} ChangedStaysRefused(before: seq<Note>, more: seq<Note>, name: string, now: int)
    requires ChangedLast(before, name)
    requires forall n | n in more && n.Saw? && n.name == name :: n.changed != []
    ensures !Trusted(before + more, name, now)
  {
    if more == [] {
      assert before + more == before;
    } else {
      var k := |more| - 1;
      var note := more[k];
      assert note in more;
      assert before + more == (before + more[..k]) + [note];
      LastAfter(before + more[..k], note, name);
      if note.name != name {
        assert forall n | n in more[..k] :: n in more;
        ChangedStaysRefused(before, more[..k], name, now);
      }
    }
  }

  // ---- The Python record ----

  datatype State = State(ok: bool, at: int)

  class PythonRecord {
    const definitions: map<string, Item>
    var states: map<string, State>
    ghost var history: seq<Note>

    ghost predicate Valid()
      reads this
    {
      forall l :: (l in states <==> Last(history, l).Some?)
                  && (l in states ==> states[l] == State(Last(history, l).value.changed == [], Last(history, l).value.at))
    }

    constructor (definitions: map<string, Item>)
      ensures Valid() && history == [] && this.definitions == definitions
    {
      this.definitions := definitions;
      states, history := map[], [];
    }

    method MatchesRecord(name: string, item: Item, now: int) returns (ok: bool)
      requires Valid()
      modifies this`states, this`history
      ensures Valid()
      ensures history == old(history) + NotesOf(definitions, name, item, now)
      ensures ok <==> name !in definitions || ChangedFields(definitions[name], DefinitionOf(item)) == []
    {
      if name !in definitions { return true; }
      var fields := ChangedFields(definitions[name], DefinitionOf(item));
      ghost var note := Saw(name, fields, now);
      forall l ensures Last(history + [note], l) == if l == name then Some(note) else Last(history, l) {
        LastAfter(history, note, l);
      }
      states := states[name := State(fields == [], now)];
      history := history + [note];
      return fields == [];
    }

    /** A full reading ended: each recorded label gets what the reading said of it, and one
        it did not list is forgotten. `seen` says whether every listing of a name matched;
        `why` what had changed where one did not. */
    method ReadEnd(seen: map<string, bool>, ghost why: map<string, seq<string>>, labels: seq<string>, now: int)
      requires Valid()
      requires forall l :: l in labels <==> l in definitions
      requires forall l | l in seen && !seen[l] :: l in why && why[l] != []
      modifies this`states, this`history
      ensures Valid()
      ensures forall l | l in definitions :: Last(history, l)
                == if l in seen then Some(Saw(l, if seen[l] then [] else why[l], now)) else None
      ensures forall l | l !in definitions :: Last(history, l) == Last(old(history), l)
    {
      for i := 0 to |labels|
        invariant Valid()
        invariant forall l | l in labels[..i] :: Last(history, l)
                    == if l in seen then Some(Saw(l, if seen[l] then [] else why[l], now)) else None
        invariant forall l | l !in labels :: Last(history, l) == Last(old(history), l)
      {
        var name := labels[i];
        assert labels[..i + 1] == labels[..i] + [name];
        ghost var note := if name in seen then Saw(name, if seen[name] then [] else why[name], now) else Lost(name);
        forall l ensures Last(history + [note], l)
                         == if l != name then Last(history, l) else if note.Lost? then None else Some(note)
        {
          LastAfter(history, note, l);
        }
        if name in seen {
          states := states[name := State(seen[name], now)];
        } else {
          states := map l | l in states && l != name :: states[l];
        }
        history := history + [note];
      }
      assert labels[..|labels|] == labels;
    }

    /** The check before a call: the same condition the TypeScript record answers by. */
    method Verified(name: string, now: int) returns (ok: bool)
      requires Valid()
      ensures ok <==> Trusted(history, name, now)
    {
      ok := name in states && states[name].ok && now - states[name].at < FRESH_MS;
    }
  }
}
