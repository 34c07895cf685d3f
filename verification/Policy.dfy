/** What a policy grants: rules matched against an identity, the roles they name, and the
    permissions those roles carry; and the comparison of what is demanded with what is granted. */
module Policy {
  import opened Optional
  import opened Sequences

  const ANY := "*"

  // ---- Lists without repeats ----

  /** An entry of a list somebody configured: a string, or anything else. */
  datatype Raw = Text(text: string) | NotText

  /** Each entry once, where it first stood. */
  function Distinct(s: seq<string>): (r: seq<string>) {
    if s == [] then []
    else
      var before := Distinct(s[..|s| - 1]);
      if s[|s| - 1] in before then before else before + [s[|s| - 1]]
  }

  predicate NoRepeats(s: seq<string>) {
    forall i, j | 0 <= i < j < |s| :: s[i] != s[j]
  }

  lemma {:induction false} DistinctIs(s: seq<string>)
    ensures NoRepeats(Distinct(s))
    ensures forall x :: x in Distinct(s) <==> x in s
  {
    if s != [] {
      DistinctIs(s[..|s| - 1]);
      assert s == s[..|s| - 1] + [s[|s| - 1]];
    }
  }

  /** A list already without repeats is left as it is. */
  lemma {:induction false} DistinctKeeps(s: seq<string>)
    requires NoRepeats(s)
    ensures Distinct(s) == s
  {
    if s != [] {
      DistinctKeeps(s[..|s| - 1]);
      assert s == s[..|s| - 1] + [s[|s| - 1]];
    }
  }

  predicate Acceptable(s: seq<Raw>) {
    forall x | x in s :: x.Text? && x.text != ""
  }

  function Texts(s: seq<Raw>): (r: seq<string>)
    requires Acceptable(s)
    ensures |r| == |s|
  {
    seq(|s|, i requires 0 <= i < |s| => s[i].text)
  }

  method StringList(value: seq<Raw>) returns (r: Option<seq<string>>)
    ensures r.Some? <==> Acceptable(value)
    ensures r.Some? ==> r.value == Distinct(Texts(value))
  {
    var result: seq<string> := [];
    for i := 0 to |value|
      invariant Acceptable(value[..i])
      invariant result == Distinct(Texts(value[..i]))
    {
      var entry := value[i];
      assert value[..i + 1] == value[..i] + [entry];
      if entry.NotText? || entry.text == "" {
        assert entry in value;
        return None;
      }
      assert Texts(value[..i + 1])[..i] == Texts(value[..i]);
      if entry.text !in result {
        result := result + [entry.text];
      }
    }
    assert value[..|value|] == value;
    return Some(result);
  }

  // ---- Rules ----

  /** An identity, with two things not modelled: case folding, which is the platform's, and
      whether the claim at a path holds an expected value. */
  datatype Identity = Identity(issuer: string, sub: string, email: Option<string>, emailVerified: bool,
                               domain: Option<string>, fold: string -> string, holds: (string, string) -> bool)

  datatype Match = Match(issuer: Option<string>, sub: Option<string>, email: Option<string>, domain: Option<string>,
                         claim: seq<(string, string)>)
  datatype Rule = Rule(on: Match, deny: bool, roles: seq<string>)

  predicate EqualsFold(who: Identity, a: string, b: Option<string>) {
    b.Some? && who.fold(a) == who.fold(b.value)
  }

  function AfterLastAt(s: string): Option<string> {
    if s == [] then None
    else if s[|s| - 1] == '@' then Some("")
    else match AfterLastAt(s[..|s| - 1]) case Some(x) => Some(x + [s[|s| - 1]]) case None => None
  }

  function DomainOf(who: Identity): Option<string> {
    if !who.emailVerified || who.email.None? || who.email.value == "" then None
    else if who.domain.Some? && who.domain.value != "" then who.domain
    else AfterLastAt(who.email.value)
  }

  predicate Matches(m: Match, who: Identity) {
    && (m.issuer.Some? ==> m.issuer.value == who.issuer)
    && (m.sub.Some? ==> m.sub.value == who.sub)
    && (m.email.Some? ==> who.emailVerified && EqualsFold(who, m.email.value, who.email))
    && (m.domain.Some? ==> EqualsFold(who, m.domain.value, DomainOf(who)))
    && forall c | c in m.claim :: who.holds(c.0, c.1)
  }

  lemma {:induction false} AfterLastAtIs(s: string, domain: string)
    ensures AfterLastAt(s) == Some(domain) <==> '@' !in domain && exists name :: s == name + "@" + domain
  {
    if s != [] {
      var k := |s| - 1;
      var before, c := s[..k], s[k];
      if domain == "" {
        if c == '@' { assert s == before + "@" + ""; }
      } else {
        var n := |domain| - 1;
        assert domain == domain[..n] + [domain[n]];
        AfterLastAtIs(before, domain[..n]);
        if name :| before == name + "@" + domain[..n] {
          if c == domain[n] { assert s == name + "@" + domain; }
        }
        if name :| s == name + "@" + domain {
          assert s[..k] == name + "@" + domain[..n] && s[k] == domain[n];
        }
      }
    }
  }

  function ClaimedDomain(who: Identity): string {
    if who.domain.Some? then who.domain.value else ""
  }

  /** The domain an identity is known by: of a verified address alone, the one its issuer says,
      or what follows the last `@`. */
  ghost predicate KnownBy(who: Identity, domain: string) {
    && who.emailVerified && who.email.Some? && who.email.value != ""
    && ((ClaimedDomain(who) != "" && domain == ClaimedDomain(who))
        || (ClaimedDomain(who) == "" && '@' !in domain && exists name :: who.email.value == name + "@" + domain))
  }

  /** Whom a rule's conditions pick out: every one that is set must hold, an address only when
      verified, and a domain only of such an address. */
  lemma MatchesMeans(m: Match, who: Identity)
    ensures Matches(m, who)
            <==> && m.issuer in {None, Some(who.issuer)} && m.sub in {None, Some(who.sub)}
                 && (m.email.Some? ==> who.emailVerified && who.email.Some? && who.fold(m.email.value) == who.fold(who.email.value))
                 && (m.domain.Some? ==> exists d :: KnownBy(who, d) && who.fold(m.domain.value) == who.fold(d))
                 && forall c | c in m.claim :: who.holds(c.0, c.1)
  {
    hide AfterLastAt;
    forall d ensures DomainOf(who) == Some(d) <==> KnownBy(who, d) {
      if who.email.Some? { AfterLastAtIs(who.email.value, d); }
    }
    hide KnownBy, DomainOf;
  }

  /** So where every rule asks for an address or a domain, an identity whose address is not
      verified holds nothing. */
  lemma UnverifiedHoldsNothing(roles: map<string, seq<string>>, rules: seq<Rule>, who: Identity, permission: string)
    requires !who.emailVerified && forall r | r in rules :: r.on.email.Some? || r.on.domain.Some?
    ensures !Can(Evaluate(roles, rules, who), permission)
  {
    CanMeans(roles, rules, who, permission);
    forall r | r in rules ensures !Matches(r.on, who) { MatchesMeans(r.on, who); }
    hide Evaluate, Matches;
  }

  function Matched(rules: seq<Rule>, who: Identity): seq<Rule> {
    if rules == [] then []
    else (if Matches(rules[0].on, who) then [rules[0]] else []) + Matched(rules[1..], who)
  }

  function RolesOf(rules: seq<Rule>): seq<string> {
    if rules == [] then [] else rules[0].roles + RolesOf(rules[1..])
  }

  function PermissionsOf(roles: map<string, seq<string>>, held: seq<string>): seq<string> {
    if held == [] then []
    else (if held[0] in roles then roles[held[0]] else []) + PermissionsOf(roles, held[1..])
  }

  datatype Principal = Principal(roles: seq<string>, permissions: seq<string>)

  predicate Can(p: Principal, permission: string) {
    ANY in p.permissions || permission in p.permissions
  }

  predicate Denied(rules: seq<Rule>, who: Identity) {
    exists r | r in rules :: Matches(r.on, who) && r.deny
  }

  function Evaluate(roles: map<string, seq<string>>, rules: seq<Rule>, who: Identity): Principal {
    var matched := Matched(rules, who);
    var denied := exists r | r in matched :: r.deny;
    var held := if denied then [] else Distinct(RolesOf(matched));
    Principal(held, if denied then [] else Distinct(PermissionsOf(roles, held)))
  }

  lemma {:induction false} MatchedAre(rules: seq<Rule>, who: Identity)
    ensures forall r :: r in Matched(rules, who) <==> r in rules && Matches(r.on, who)
  {
    if rules != [] {
      assert rules == [rules[0]] + rules[1..];
      MatchedAre(rules[1..], who);
    }
  }

  lemma {:induction false} RolesAre(rules: seq<Rule>)
    ensures forall x :: x in RolesOf(rules) <==> exists r | r in rules :: x in r.roles
  {
    if rules != [] {
      assert rules == [rules[0]] + rules[1..];
      RolesAre(rules[1..]);
    }
  }

  lemma {:induction false} PermissionsAre(roles: map<string, seq<string>>, held: seq<string>)
    ensures forall p :: p in PermissionsOf(roles, held) <==> exists x | x in held :: x in roles && p in roles[x]
  {
    if held != [] {
      assert held == [held[0]] + held[1..];
      PermissionsAre(roles, held[1..]);
    }
  }

  /** A role the rules give somebody. */
  predicate Gives(rules: seq<Rule>, who: Identity, role: string) {
    exists r | r in rules :: Matches(r.on, who) && role in r.roles
  }

  predicate Carries(roles: map<string, seq<string>>, role: string, permission: string) {
    role in roles && (permission in roles[role] || ANY in roles[role])
  }

  lemma HeldAre(roles: map<string, seq<string>>, rules: seq<Rule>, who: Identity, role: string)
    ensures role in Evaluate(roles, rules, who).roles <==> !Denied(rules, who) && Gives(rules, who, role)
  {
    var matched := Matched(rules, who);
    MatchedAre(rules, who);
    RolesAre(matched);
    DistinctIs(RolesOf(matched));
    hide Matched, RolesOf, Distinct;
    if role in RolesOf(matched) {
      var r :| r in matched && role in r.roles;
      assert r in rules && Matches(r.on, who);
    }
  }

  lemma PermissionsHeld(roles: map<string, seq<string>>, rules: seq<Rule>, who: Identity, permission: string)
    ensures permission in Evaluate(roles, rules, who).permissions
            <==> !Denied(rules, who) && exists x | x in roles :: Gives(rules, who, x) && permission in roles[x]
  {
    var principal := Evaluate(roles, rules, who);
    forall x ensures x in principal.roles <==> !Denied(rules, who) && Gives(rules, who, x) {
      HeldAre(roles, rules, who, x);
    }
    PermissionsAre(roles, principal.roles);
    DistinctIs(PermissionsOf(roles, principal.roles));
    MatchedAre(rules, who);
  }

  /** What a policy means: a permission is held exactly when no matching rule denies and some
      matching rule names a role that carries it, or everything. */
  lemma CanMeans(roles: map<string, seq<string>>, rules: seq<Rule>, who: Identity, permission: string)
    ensures Can(Evaluate(roles, rules, who), permission)
            <==> !Denied(rules, who) && exists x | x in roles :: Gives(rules, who, x) && Carries(roles, x, permission)
  {
    hide Evaluate, Denied, Gives;
    PermissionsHeld(roles, rules, who, permission);
    PermissionsHeld(roles, rules, who, ANY);
  }

  /** The order of the rules never decides. */
  lemma OrderNeverDecides(roles: map<string, seq<string>>, rules: seq<Rule>, others: seq<Rule>, who: Identity,
                          permission: string)
    requires forall r :: r in rules <==> r in others
    ensures Can(Evaluate(roles, rules, who), permission) <==> Can(Evaluate(roles, others, who), permission)
    ensures permission in Evaluate(roles, rules, who).permissions <==> permission in Evaluate(roles, others, who).permissions
  {
    hide Evaluate;
    CanMeans(roles, rules, who, permission);
    CanMeans(roles, others, who, permission);
    PermissionsHeld(roles, rules, who, permission);
    PermissionsHeld(roles, others, who, permission);
    forall x ensures Gives(rules, who, x) <==> Gives(others, who, x) {}
    assert Denied(rules, who) <==> Denied(others, who);
  }

  /** A rule that grants only ever adds; one that denies only ever takes, and takes all. */
  lemma AddedRule(roles: map<string, seq<string>>, rules: seq<Rule>, rule: Rule, who: Identity, permission: string)
    ensures !rule.deny && Can(Evaluate(roles, rules, who), permission) ==> Can(Evaluate(roles, rules + [rule], who), permission)
    ensures rule.deny && Can(Evaluate(roles, rules + [rule], who), permission) ==> Can(Evaluate(roles, rules, who), permission)
    ensures rule.deny && Matches(rule.on, who) ==> !Can(Evaluate(roles, rules + [rule], who), permission)
  {
    hide Evaluate;
    CanMeans(roles, rules, who, permission);
    CanMeans(roles, rules + [rule], who, permission);
    assert forall r :: r in rules + [rule] <==> r in rules || r == rule;
    assert Denied(rules, who) ==> Denied(rules + [rule], who);
    assert Denied(rules + [rule], who) <==> Denied(rules, who) || (rule.deny && Matches(rule.on, who)) by {
      if rule.deny && Matches(rule.on, who) { assert rule in rules + [rule]; }
    }
    forall x ensures Gives(rules + [rule], who, x) <==> Gives(rules, who, x) || (Matches(rule.on, who) && x in rule.roles) {
      if Matches(rule.on, who) && x in rule.roles { assert rule in rules + [rule]; }
    }
  }

  // ---- Demand against supply ----

  /** Which roles grant a permission, in order: the roles and their permissions as lists
      of pairs, since a map is walked in insertion order. */
  function GrantedBy(roles: seq<(string, seq<string>)>, permission: string): seq<string> {
    if roles == [] then [] else Repeat(roles[0].0, roles[0].1, permission) + GrantedBy(roles[1..], permission)
  }

  function Repeat(role: string, permissions: seq<string>, permission: string): seq<string> {
    if permissions == [] then []
    else (if permissions[0] == permission then [role] else []) + Repeat(role, permissions[1..], permission)
  }

  predicate Reachable(roles: seq<(string, seq<string>)>, permission: string) {
    exists r | r in roles :: permission in r.1 || ANY in r.1
  }

  predicate Granted(roles: seq<(string, seq<string>)>, permission: string) {
    exists r | r in roles :: permission in r.1
  }

  function Missing(roles: seq<(string, seq<string>)>, required: seq<(string, string)>): seq<(string, string)> {
    if required == [] then []
    else (if Reachable(roles, required[0].1) then [] else [required[0]]) + Missing(roles, required[1..])
  }

  predicate Demanded(required: seq<(string, string)>, permission: string) {
    exists r | r in required :: r.1 == permission
  }

  lemma {:induction false} MissingIs(roles: seq<(string, seq<string>)>, required: seq<(string, string)>)
    ensures forall r :: r in Missing(roles, required) <==> r in required && !Reachable(roles, r.1)
  {
    if required != [] {
      hide Reachable;
      assert required == [required[0]] + required[1..];
      MissingIs(roles, required[1..]);
    }
  }

  function Grantors(grantedBy: map<string, seq<string>>, permission: string): seq<string> {
    if permission in grantedBy then grantedBy[permission] else []
  }

  /** Who grants what, once one role's permissions are added. */
  function Added(grantedBy: map<string, seq<string>>, role: string, permissions: seq<string>): map<string, seq<string>>
    decreases |permissions|
  {
    if permissions == [] then grantedBy
    else
      var p := permissions[0];
      Added(grantedBy[p := Grantors(grantedBy, p) + [role]], role, permissions[1..])
  }

  lemma {:induction false} AddedIs(grantedBy: map<string, seq<string>>, role: string, permissions: seq<string>,
                                   p: string)
    ensures var after := Added(grantedBy, role, permissions);
            && (p in after <==> p in grantedBy || p in permissions)
            && Grantors(after, p) == Grantors(grantedBy, p) + Repeat(role, permissions, p)
    decreases |permissions|
  {
    if permissions == [] {
      assert Grantors(grantedBy, p) + [] == Grantors(grantedBy, p);
    } else {
      var first := permissions[0];
      var next := grantedBy[first := Grantors(grantedBy, first) + [role]];
      GrantorsGrow(grantedBy, first, role, p);
      hide Grantors;
      AddedIs(next, role, permissions[1..], p);
      assert permissions == [first] + permissions[1..];
      Associate(Grantors(grantedBy, p), if p == first then [role] else [], Repeat(role, permissions[1..], p));
    }
  }

  lemma GrantorsGrow(grantedBy: map<string, seq<string>>, permission: string, role: string, p: string)
    ensures Grantors(grantedBy[permission := Grantors(grantedBy, permission) + [role]], p)
            == Grantors(grantedBy, p) + if p == permission then [role] else []
  {
    assert Grantors(grantedBy, p) + [] == Grantors(grantedBy, p);
  }

  function AddedAll(grantedBy: map<string, seq<string>>, roles: seq<(string, seq<string>)>): map<string, seq<string>>
    decreases |roles|
  {
    if roles == [] then grantedBy else AddedAll(Added(grantedBy, roles[0].0, roles[0].1), roles[1..])
  }

  lemma {:induction false} AddedAllIs(grantedBy: map<string, seq<string>>, roles: seq<(string, seq<string>)>, p: string)
    ensures var after := AddedAll(grantedBy, roles);
            && (p in after <==> p in grantedBy || Granted(roles, p))
            && Grantors(after, p) == Grantors(grantedBy, p) + GrantedBy(roles, p)
    decreases |roles|
  {
    if roles == [] {
      assert Grantors(grantedBy, p) + [] == Grantors(grantedBy, p);
    } else {
      hide Added, Repeat, Grantors;
      var (role, permissions) := roles[0];
      AddedIs(grantedBy, role, permissions, p);
      AddedAllIs(Added(grantedBy, role, permissions), roles[1..], p);
      GrantedStep(roles[0], roles[1..], p);
    }
  }

  lemma GrantedStep(r: (string, seq<string>), more: seq<(string, seq<string>)>, p: string)
    ensures Granted([r] + more, p) <==> p in r.1 || Granted(more, p)
  {
    if p in r.1 { assert r in [r] + more; }
    if Granted(more, p) {
      var x :| x in more && p in x.1;
      assert x in [r] + more;
    }
  }

  /** The two loops over every role's permissions. */
  method WhoGrants(roles: seq<(string, seq<string>)>) returns (grantedBy: map<string, seq<string>>)
    ensures forall p :: p in grantedBy <==> Granted(roles, p)
    ensures forall p :: Grantors(grantedBy, p) == GrantedBy(roles, p)
  {
    grantedBy := map[];
    hide Grantors;
    for i := 0 to |roles|
      invariant AddedAll(grantedBy, roles[i..]) == AddedAll(map[], roles)
    {
      var (role, permissions) := roles[i];
      assert roles[i..][1..] == roles[i + 1..];
      ghost var before := grantedBy;
      for j := 0 to |permissions|
        invariant Added(grantedBy, role, permissions[j..]) == Added(before, role, permissions)
      {
        assert permissions[j..][1..] == permissions[j + 1..];
        grantedBy := grantedBy[permissions[j] := Grantors(grantedBy, permissions[j]) + [role]];
      }
      assert permissions[|permissions|..] == [];
    }
    assert roles[|roles|..] == [];
    forall p ensures p in grantedBy <==> Granted(roles, p) ensures Grantors(grantedBy, p) == GrantedBy(roles, p) {
      AddedAllIs(map[], roles, p);
      NobodyGrants(p);
    }
  }

  lemma NobodyGrants(p: string)
    ensures Grantors(map[], p) == []
  {}

  lemma ReachableIs(roles: seq<(string, seq<string>)>, permission: string)
    ensures Reachable(roles, permission) <==> Granted(roles, ANY) || Granted(roles, permission)
  {
    if Granted(roles, ANY) { var r :| r in roles && ANY in r.1; }
    if Granted(roles, permission) { var r :| r in roles && permission in r.1; }
    if Reachable(roles, permission) {
      var r :| r in roles && (permission in r.1 || ANY in r.1);
      assert ANY in r.1 || permission in r.1;
    }
  }

  /** The report at boot: the capabilities no role can reach, in the order they are required,
      and the permissions granted that nothing requires, with the roles granting them. */
  method Reconcile(roles: seq<(string, seq<string>)>, required: seq<(string, string)>)
      returns (unreachable: seq<(string, string)>, unused: map<string, seq<string>>)
    ensures unreachable == Missing(roles, required)
    ensures forall p :: p in unused <==> p != ANY && Granted(roles, p) && !Demanded(required, p)
    ensures forall p | p in unused :: unused[p] == GrantedBy(roles, p)
  {
    hide Reachable, Granted, GrantedBy;
    var grantedBy := WhoGrants(roles);
    var wildcard := ANY in grantedBy;
    unreachable := [];
    for i := 0 to |required|
      invariant unreachable + Missing(roles, required[i..]) == Missing(roles, required)
    {
      ReachableIs(roles, required[i].1);
      assert required[i..][1..] == required[i + 1..];
      if !wildcard && required[i].1 !in grantedBy { unreachable := unreachable + [required[i]]; }
    }
    assert required[|required|..] == [] && unreachable + [] == unreachable;
    unused := map p | p in grantedBy && p != ANY && !Demanded(required, p) :: grantedBy[p];
    forall p | p in unused ensures unused[p] == GrantedBy(roles, p) {
      assert unused[p] == Grantors(grantedBy, p);
    }
  }

  /** The report is without error exactly when each required permission is one that somebody
      holding a single defined role can use. */
  lemma {:induction false} NoErrorMeansEveryRequirementIsUsable(roles: seq<(string, seq<string>)>,
      required: seq<(string, string)>)
    ensures Missing(roles, required) == []
            <==> forall q | q in required :: exists r | r in roles :: Can(Principal([r.0], r.1), q.1)
  {
    MissingIs(roles, required);
    forall q | q in required
      ensures Reachable(roles, q.1) <==> exists r | r in roles :: Can(Principal([r.0], r.1), q.1)
    {
      if Reachable(roles, q.1) {
        var r :| r in roles && (q.1 in r.1 || ANY in r.1);
        assert Can(Principal([r.0], r.1), q.1);
      }
    }
    if Missing(roles, required) != [] { assert Missing(roles, required)[0] in Missing(roles, required); }
    hide Missing, Reachable;
    assert Missing(roles, required) == [] <==> forall q | q in required :: Reachable(roles, q.1);
  }
}
