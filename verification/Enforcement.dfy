/** How a decision is made: the string rules are printed one per line, parsed back into a Casbin
    model and matched with g(r.sub, p.sub) && (p.perm == "*" || r.perm == p.perm). The theorems say
    that this answers what the id tables say. */
module Enforcement {
  import opened Prelude
  import opened Strings
  import opened PolicyStore
  import opened PolicyMirror

  // ----- from rules to the Casbin model -----

  function PtypeName(ptype: Ptype): string {
    if ptype == P then "p" else "g"
  }

  function PolicyLine(rule: Rule): string {
    Join([PtypeName(rule.ptype), rule.v0, rule.v1], ", ")
  }

  function Tokens(line: string): seq<string> {
    var parts := Split(line, ',');
    seq(|parts|, i requires 0 <= i < |parts| => Strip(parts[i]))
  }

  /** A string that the printed line gives back: no comma, no blank at either end. */
  predicate Plain(s: string) {
    ',' !in s && Strip(s) == s
  }

  lemma StrIsPlain(n: int)
    ensures Plain(Str(n))
  {
    ParseIntStr(n);
  }

  function Stripped(parts: seq<string>): seq<string> {
    seq(|parts|, i requires 0 <= i < |parts| => Strip(parts[i]))
  }

  /** The comma-joined line gives back its fields, stripped, when none holds a comma. */
  lemma {:induction false} TokensOfJoin(parts: seq<string>)
    requires parts != [] && forall i :: 0 <= i < |parts| ==> ',' !in parts[i]
    ensures Tokens(Join(parts, ", ")) == Stripped(parts)
  {
    var rest := Join(parts[1..], ", ");
    SplitSingle(parts[0], ',');
    if |parts| > 1 {
      SplitConcat(parts[0], ',', " " + rest);
      assert parts[0] + ", " + rest == parts[0] + [','] + (" " + rest);
      assert (" " + rest)[1..] == rest;
      var tail := Split(rest, ',');
      assert ([' '] + tail[0])[1..] == tail[0];
      TokensOfJoin(parts[1..]);
      assert forall i :: 0 <= i < |tail| ==> Strip(tail[i]) == Stripped(parts[1..])[i] == Strip(parts[i + 1]);
    }
  }

  /** A comma in the first value makes the line too long for the model's definition. */
  lemma CommaSpoilsLine(rule: Rule)
    requires ',' in rule.v0 || ',' in rule.v1
    ensures |Tokens(PolicyLine(rule))| > 3
  {
    var name, first, second := PtypeName(rule.ptype), " " + rule.v0, " " + rule.v1;
    assert Join([rule.v0, rule.v1], ", ") == rule.v0 + ", " + rule.v1;
    assert PolicyLine(rule) == name + [','] + (first + [','] + second);
    SplitConcat(name, ',', first + [','] + second);
    SplitConcat(first, ',', second);
    SplitSingle(first, ',');
    SplitSingle(second, ',');
    assert ',' in rule.v0 ==> ',' in first;
    assert ',' in rule.v1 ==> ',' in second;
  }

  /** The p and g sections of the loaded model: what follows the section key on each line. */
  datatype Model = Model(p: seq<seq<string>>, g: seq<seq<string>>)

  function LoadLine(model: Model, line: string): Model {
    var tokens := Tokens(line);
    if tokens[0] == "p" then model.(p := model.p + [tokens[1..]])
    else if tokens[0] == "g" then model.(g := model.g + [tokens[1..]])
    else model
  }

  function LoadLines(lines: seq<string>): Model {
    if lines == [] then Model([], [])
    else LoadLine(LoadLines(lines[..|lines| - 1]), lines[|lines| - 1])
  }

  function ScopedRules(rules: seq<Rule>, tenant: int): seq<Rule> {
    Filter(rules, (rule: Rule) => InScope(tenant, rule.tenant))
  }

  function PolicyLines(rules: seq<Rule>, tenant: int): seq<string> {
    var scoped := ScopedRules(rules, tenant);
    seq(|scoped|, i requires 0 <= i < |scoped| => PolicyLine(scoped[i]))
  }

  method BuildEnforcer(lines: seq<string>) returns (model: Model)
    ensures model == LoadLines(lines)
  {
    model := Model([], []);
    for i := 0 to |lines|
      invariant model == LoadLines(lines[..i])
    {
      assert lines[..i + 1][..i] == lines[..i];
      model := LoadLine(model, lines[i]);
    }
    assert lines[..|lines|] == lines;
  }

  // ----- the matcher -----

  ghost predicate IsPath(g: seq<seq<string>>, path: seq<string>, from: string, to: string) {
    && path != [] && path[0] == from && path[|path| - 1] == to
    && forall i :: 0 <= i < |path| - 1 ==> [path[i], path[i + 1]] in g
  }

  /** g is reflexive and transitive. */
  ghost predicate HasLink(g: seq<seq<string>>, from: string, to: string) {
    exists path :: IsPath(g, path, from, to)
  }

  lemma LinkIsReflexive(g: seq<seq<string>>, a: string)
    ensures HasLink(g, a, a)
  {
    assert IsPath(g, [a], a, a);
  }

  lemma EdgeIsLink(g: seq<seq<string>>, a: string, b: string)
    requires [a, b] in g
    ensures HasLink(g, a, b)
  {
    assert IsPath(g, [a, b], a, b);
  }

  lemma LinksCompose(g: seq<seq<string>>, a: string, b: string, c: string)
    requires HasLink(g, a, b) && HasLink(g, b, c)
    ensures HasLink(g, a, c)
  {
    var first :| IsPath(g, first, a, b);
    var second :| IsPath(g, second, b, c);
    var path := first + second[1..];
    forall i | 0 <= i < |path| - 1 ensures [path[i], path[i + 1]] in g {
      if i < |first| - 1 {
        assert [first[i], first[i + 1]] in g;
      } else {
        assert [second[i - |first| + 1], second[i - |first| + 2]] in g;
      }
    }
    assert IsPath(g, path, a, c);
  }

  /** Links lead nowhere but where the g lines lead: what holds at the start and along every line holds
      at the end. */
  lemma {:induction false} LinkIsLeast(g: seq<seq<string>>, path: seq<string>, holds: string -> bool)
    requires path != [] && IsPath(g, path, path[0], path[|path| - 1]) && holds(path[0])
    requires forall a, b :: [a, b] in g && holds(a) ==> holds(b)
    ensures holds(path[|path| - 1])
  {
    if |path| > 1 {
      var n := |path| - 1;
      assert [path[n - 1], path[n - 1 + 1]] in g;
      LinkIsLeast(g, path[..n], holds);
    }
  }

  ghost predicate Enforce(model: Model, subject: string, permission: string) {
    exists sub, perm :: [sub, perm] in model.p && HasLink(model.g, subject, sub) && (perm == "*" || permission == perm)
  }

  ghost function ModelOf(db: Store, tenant: int): Model {
    LoadLines(PolicyLines(db.rules, tenant))
  }

  ghost predicate Can(db: Store, tenant: int, subject: string, resource: string, action: string) {
    Enforce(ModelOf(db, tenant), subject, PermissionKey(resource, action))
  }

  // ----- what the id tables say -----

  ghost predicate HoldsRole(db: Store, tenant: int, user: int, r: int) {
    Grant(user, r) in db.grants && InScope(tenant, db.grants[Grant(user, r)])
  }

  ghost predicate IsWildcard(db: Store, r: int) {
    r in db.roles && WildcardRule(db.roles[r]) in db.rules
  }

  ghost predicate IsLinked(db: Store, r: int, key: string) {
    exists p :: Link(r, p) in db.links && p in db.permissions && db.permissions[p].key == key
  }

  ghost predicate RelCan(db: Store, tenant: int, user: int, key: string) {
    exists r :: HoldsRole(db, tenant, user, r) && (IsWildcard(db, r) || IsLinked(db, r, key))
  }

  /** What permission keys must satisfy: those of a tenant that has a role come back from the printed
      line as they were. */
  ghost predicate PlainKeys(roles: map<int, Role>, permissions: map<int, Permission>) {
    forall r, p :: r in roles && p in permissions && roles[r].tenant == permissions[p].tenant ==> Plain(permissions[p].key)
  }

  /** What role names must satisfy for the printed rules to tell roles and users apart: no comma, no
      two names alike up to outer blanks, and none that is an id up to outer blanks. */
  ghost predicate Distinguishable(roles: map<int, Role>) {
    && (forall r :: r in roles ==> ',' !in roles[r].name && !Numeral(Strip(roles[r].name)))
    && (forall r, s :: r in roles && s in roles && Strip(roles[r].name) == Strip(roles[s].name) ==> r == s)
  }

  // ----- the model holds exactly the rules -----

  function Values(rule: Rule): seq<string> {
    [Strip(rule.v0), Strip(rule.v1)]
  }

  predicate CommaFree(rule: Rule) {
    ',' !in rule.v0 && ',' !in rule.v1
  }

  ghost predicate HasRule(rules: seq<Rule>, ptype: Ptype, values: seq<string>) {
    exists rule :: rule in rules && rule.ptype == ptype && CommaFree(rule) && Values(rule) == values
  }

  lemma LoadPolicyLine(model: Model, rule: Rule)
    ensures CommaFree(rule) ==>
      LoadLine(model, PolicyLine(rule))
      == if rule.ptype == P then model.(p := model.p + [Values(rule)]) else model.(g := model.g + [Values(rule)])
    ensures !CommaFree(rule) ==>
      var loaded := LoadLine(model, PolicyLine(rule));
      forall values :: |values| == 2 ==> (values in loaded.p <==> values in model.p)
                                         && (values in loaded.g <==> values in model.g)
  {
    if CommaFree(rule) {
      var parts := [PtypeName(rule.ptype), rule.v0, rule.v1];
      assert Strip("p") == "p" && Strip("g") == "g";
      TokensOfJoin(parts);
      assert Stripped(parts)[1..] == Values(rule);
    } else {
      CommaSpoilsLine(rule);
    }
  }

  /** The loaded model answers for the comma-free rules and no others. */
  lemma {:induction false} ModelHolds(rules: seq<Rule>, lines: seq<string>, values: seq<string>)
    requires |lines| == |rules| && forall i :: 0 <= i < |rules| ==> lines[i] == PolicyLine(rules[i])
    requires |values| == 2
    ensures values in LoadLines(lines).p <==> HasRule(rules, P, values)
    ensures values in LoadLines(lines).g <==> HasRule(rules, G, values)
    decreases |rules|
  {
    hide LoadLine, PolicyLine, Strip;
    if rules != [] {
      var n := |rules| - 1;
      var last := rules[n];
      ModelHolds(rules[..n], lines[..n], values);
      LoadPolicyLine(LoadLines(lines[..n]), last);
      assert forall k :: HasRule(rules, k, values)
                         <==> HasRule(rules[..n], k, values)
                              || (last.ptype == k && CommaFree(last) && Values(last) == values) by {
        assert rules == rules[..n] + [last];
        assert forall rule :: rule in rules <==> rule in rules[..n] || rule == last;
      }
    }
  }

  /** A rule that the loaded model of the tenant shows as the pair (a, b). */
  ghost predicate Shows(db: Store, tenant: int, rule: Rule, ptype: Ptype, a: string, b: string) {
    && rule in db.rules && InScope(tenant, rule.tenant) && rule.ptype == ptype && CommaFree(rule)
    && Strip(rule.v0) == a && Strip(rule.v1) == b
  }

  lemma LoadedModel(db: Store, tenant: int, a: string, b: string)
    ensures [a, b] in ModelOf(db, tenant).p <==> exists rule :: Shows(db, tenant, rule, P, a, b)
    ensures [a, b] in ModelOf(db, tenant).g <==> exists rule :: Shows(db, tenant, rule, G, a, b)
  {
    ModelHolds(ScopedRules(db.rules, tenant), PolicyLines(db.rules, tenant), [a, b]);
    ScopedShows(db, tenant, P, a, b);
    ScopedShows(db, tenant, G, a, b);
  }

  lemma ScopedShows(db: Store, tenant: int, ptype: Ptype, a: string, b: string)
    ensures HasRule(ScopedRules(db.rules, tenant), ptype, [a, b])
       <==> exists rule :: Shows(db, tenant, rule, ptype, a, b)
  {
    var scoped := ScopedRules(db.rules, tenant);
    forall rule ensures rule in scoped <==> rule in db.rules && InScope(tenant, rule.tenant) {
      FilterMember(db.rules, (rule: Rule) => InScope(tenant, rule.tenant), rule);
    }
    if HasRule(scoped, ptype, [a, b]) {
      var rule :| rule in scoped && rule.ptype == ptype && CommaFree(rule) && Values(rule) == [a, b];
      assert Values(rule)[0] == Strip(rule.v0) && Values(rule)[1] == Strip(rule.v1);
      assert Shows(db, tenant, rule, ptype, a, b);
    }
    if rule :| Shows(db, tenant, rule, ptype, a, b) {
      assert Values(rule) == [a, b];
    }
  }
}
