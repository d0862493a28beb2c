/** The invariant that keeps the two copies of the authorization facts alike, and the proof that
    every operation, and so every run, keeps it. */
module PolicyMirror {
  import opened Prelude
  import opened Strings
  import opened PolicyStore

  ghost predicate UniqueNames(roles: map<int, Role>) {
    forall r, s :: r in roles && s in roles && roles[r].name == roles[s].name ==> r == s
  }

  ghost predicate UniqueKeys(permissions: map<int, Permission>) {
    forall p, q :: p in permissions && q in permissions && permissions[p].key == permissions[q].key ==> p == q
  }

  ghost predicate UniqueResources(resources: map<int, Resource>) {
    forall r, s :: r in resources && s in resources && resources[r].key == resources[s].key ==> r == s
  }

  ghost predicate IdsBelow<T>(rows: map<int, T>, next: int) {
    forall r :: r in rows ==> r < next
  }

  ghost predicate LinksRefer(links: map<Link, int>, roles: map<int, Role>, permissions: map<int, Permission>) {
    forall l :: l in links ==> l.role in roles && l.permission in permissions
  }

  ghost predicate GrantsRefer(grants: map<Grant, int>, roles: map<int, Role>, users: set<int>) {
    forall g :: g in grants ==> g.role in roles && g.user in users
  }

  /** What the database itself enforces: unique names and keys, foreign keys, ids not yet handed
      out above every id in use. */
  ghost predicate Constraints(db: Store) {
    && UniqueNames(db.roles)
    && UniqueKeys(db.permissions)
    && UniqueResources(db.resources)
    && LinksRefer(db.links, db.roles, db.permissions)
    && GrantsRefer(db.grants, db.roles, db.users)
    && IdsBelow(db.roles, db.nextRole)
    && IdsBelow(db.permissions, db.nextPermission)
    && IdsBelow(db.resources, db.nextResource)
  }

  /** A row that joins two others belongs to the same tenant as they do. */
  ghost predicate LinksOwned(links: map<Link, int>, roles: map<int, Role>, permissions: map<int, Permission>)
    requires LinksRefer(links, roles, permissions)
  {
    forall l :: l in links ==> links[l] == roles[l.role].tenant == permissions[l.permission].tenant
  }

  ghost predicate GrantsOwned(grants: map<Grant, int>, roles: map<int, Role>, users: set<int>)
    requires GrantsRefer(grants, roles, users)
  {
    forall g :: g in grants ==> grants[g] == roles[g.role].tenant
  }

  ghost predicate RolesOwned(roles: map<int, Role>) {
    forall r :: r in roles ==> roles[r].tenant != 0
  }

  ghost predicate Owned(db: Store)
    requires Constraints(db)
  {
    && RolesOwned(db.roles)
    && LinksOwned(db.links, db.roles, db.permissions)
    && GrantsOwned(db.grants, db.roles, db.users)
  }

  /** The string rule that stands for a role_permissions row. */
  ghost function LinkRule(role: Role, permission: Permission, tenant: int): Rule {
    Rule(P, role.name, permission.key, tenant)
  }

  /** The string rule that stands for a user_has_roles row. */
  ghost function GrantRule(user: int, role: Role, tenant: int): Rule {
    Rule(G, Str(user), role.name, tenant)
  }

  /** The string rule that opens everything to a role. */
  ghost function WildcardRule(role: Role): Rule {
    Rule(P, role.name, "*", role.tenant)
  }

  ghost predicate BackedByLink(links: map<Link, int>, roles: map<int, Role>, permissions: map<int, Permission>, rule: Rule)
    requires LinksRefer(links, roles, permissions)
  {
    exists l :: l in links && rule == LinkRule(roles[l.role], permissions[l.permission], links[l])
  }

  ghost predicate BackedByGrant(grants: map<Grant, int>, roles: map<int, Role>, users: set<int>, rule: Rule)
    requires GrantsRefer(grants, roles, users)
  {
    exists g :: g in grants && rule == GrantRule(g.user, roles[g.role], grants[g])
  }

  ghost predicate BackedByWildcard(roles: map<int, Role>, rule: Rule) {
    exists r :: r in roles && rule == WildcardRule(roles[r])
  }

  ghost predicate Backed(db: Store, rule: Rule)
    requires Constraints(db)
  {
    || BackedByLink(db.links, db.roles, db.permissions, rule)
    || BackedByGrant(db.grants, db.roles, db.users, rule)
    || BackedByWildcard(db.roles, rule)
  }

  ghost predicate LinksMirrored(links: map<Link, int>, roles: map<int, Role>, permissions: map<int, Permission>, rules: seq<Rule>)
    requires LinksRefer(links, roles, permissions)
  {
    forall l :: l in links ==> LinkRule(roles[l.role], permissions[l.permission], links[l]) in rules
  }

  ghost predicate GrantsMirrored(grants: map<Grant, int>, roles: map<int, Role>, users: set<int>, rules: seq<Rule>)
    requires GrantsRefer(grants, roles, users)
  {
    forall g :: g in grants ==> GrantRule(g.user, roles[g.role], grants[g]) in rules
  }

  /** Keys are made of resource and action, so none can pass for a wildcard. */
  ghost predicate ComposedKeys(permissions: map<int, Permission>) {
    forall p :: p in permissions ==> Composed(permissions[p])
  }

  ghost predicate Composed(p: Permission) {
    p.key == PermissionKey(p.resource, p.action) && p.key != "*"
  }

  /** The rules are, each once, those of the links, those of the grants, and wildcards of existing
      roles; and keys are what requests ask for. */
  ghost predicate Mirrored(db: Store)
    requires Constraints(db)
  {
    && NoDup(db.rules)
    && (forall rule :: rule in db.rules ==> Backed(db, rule))
    && LinksMirrored(db.links, db.roles, db.permissions, db.rules)
    && GrantsMirrored(db.grants, db.roles, db.users, db.rules)
    && ComposedKeys(db.permissions)
  }

  ghost predicate Inv(db: Store) {
    Constraints(db) && Owned(db) && Mirrored(db)
  }

  lemma KeyIsNotWildcard(resource: string, action: string)
    ensures PermissionKey(resource, action) != "*"
  {
    assert PermissionKey(resource, action)[|resource|] == ':';
  }

  /** Every rule of a mirrored store is about one role, and carries that role's tenant. */
  lemma RoleOfRule(db: Store, rule: Rule) returns (r: int)
    requires Inv(db) && rule in db.rules
    ensures r in db.roles && rule.tenant == db.roles[r].tenant
    ensures db.roles[r].name == if rule.ptype == P then rule.v0 else rule.v1
  {
    assert Backed(db, rule);
    if BackedByLink(db.links, db.roles, db.permissions, rule) {
      var l :| l in db.links && rule == LinkRule(db.roles[l.role], db.permissions[l.permission], db.links[l]);
      r := l.role;
    } else if BackedByGrant(db.grants, db.roles, db.users, rule) {
      var g :| g in db.grants && rule == GrantRule(g.user, db.roles[g.role], db.grants[g]);
      r := g.role;
    } else {
      r :| r in db.roles && rule == WildcardRule(db.roles[r]);
    }
  }

  // ----- add_policy -----

  /** Two rules of a mirrored store that agree up to the tenant are one rule, because names are
      unique across tenants; so the single-row lookup never sees two. */
  lemma AtMostOneMatch(db: Store, tenant: int, ptype: Ptype, v0: string, v1: string)
    requires Inv(db)
    ensures |Filter(db.rules, rule => Matches(tenant, ptype, v0, v1, rule))| <= 1
  {
    forall x, y |
      x in db.rules && y in db.rules && Matches(tenant, ptype, v0, v1, x) && Matches(tenant, ptype, v0, v1, y)
      ensures x == y
    {
      var r := RoleOfRule(db, x);
      var s := RoleOfRule(db, y);
    }
    FilterAtMostOne(db.rules, rule => Matches(tenant, ptype, v0, v1, rule));
  }

  /** add_policy on a mirrored rule table leaves exactly one rule with the given columns: it adds
      one only where there is none, and raises only where it would have to add one for no tenant. */
  lemma AddPolicyEffect(db: Store, base: Store, tenant: int, ptype: Ptype, v0: string, v1: string)
    requires Inv(db) && base.rules == db.rules
    ensures
      var rule := Rule(ptype, v0, v1, tenant);
      match AddPolicy(base, tenant, ptype, v0, v1)
      case Err(e) => e == IntegrityError && tenant == 0
      case Ok(after) =>
        && after == base.(rules := after.rules)
        && (exists x :: x in after.rules && x.ptype == ptype && x.v0 == v0 && x.v1 == v1)
        && after.rules == if tenant == 0 || rule in db.rules then db.rules else db.rules + [rule]
  {
    var keep := rule => Matches(tenant, ptype, v0, v1, rule);
    var matching := Filter(base.rules, keep);
    AtMostOneMatch(db, tenant, ptype, v0, v1);
    forall rule {
      FilterMember(base.rules, keep, rule);
    }
    if matching != [] {
      assert matching[0] in matching;
    }
    if tenant != 0 {
      assert Matches(tenant, ptype, v0, v1, Rule(ptype, v0, v1, tenant));
      assert Rule(ptype, v0, v1, tenant) in base.rules + [Rule(ptype, v0, v1, tenant)];
    }
  }

  // ----- preservation, operation by operation -----

  ghost predicate Extends<K, V>(before: map<K, V>, after: map<K, V>) {
    forall k :: k in before ==> k in after && after[k] == before[k]
  }

  /** Rules stay backed when rows are only added. */
  lemma BackedGrows(db: Store, after: Store, rule: Rule)
    requires Constraints(db) && Constraints(after) && Backed(db, rule)
    requires Extends(db.roles, after.roles) && Extends(db.permissions, after.permissions)
    requires Extends(db.links, after.links) && Extends(db.grants, after.grants)
    ensures Backed(after, rule)
  {
    if BackedByLink(db.links, db.roles, db.permissions, rule) {
      var l :| l in db.links && rule == LinkRule(db.roles[l.role], db.permissions[l.permission], db.links[l]);
      assert rule == LinkRule(after.roles[l.role], after.permissions[l.permission], after.links[l]);
    } else if BackedByGrant(db.grants, db.roles, db.users, rule) {
      var g :| g in db.grants && rule == GrantRule(g.user, db.roles[g.role], db.grants[g]);
      assert rule == GrantRule(g.user, after.roles[g.role], after.grants[g]);
    } else {
      var r :| r in db.roles && rule == WildcardRule(db.roles[r]);
      assert rule == WildcardRule(after.roles[r]);
    }
  }

  /** Adding rows that no rule needs to stand for keeps the store mirrored. */
  lemma GrowKeepsMirrored(db: Store, after: Store)
    requires Inv(db) && Constraints(after) && ComposedKeys(after.permissions)
    requires Extends(db.roles, after.roles) && Extends(db.permissions, after.permissions)
    requires db.links == after.links && db.grants == after.grants && db.rules == after.rules
    ensures Mirrored(after)
  {
    forall rule | rule in after.rules ensures Backed(after, rule) {
      BackedGrows(db, after, rule);
    }
  }

  lemma CreateRoleKeepsInv(db: Store, tenant: int, name: string)
    requires Inv(db) && CreateRole(db, tenant, name).Ok?
    ensures Inv(CreateRole(db, tenant, name).value)
  {
    GrowKeepsMirrored(db, CreateRole(db, tenant, name).value);
  }

  lemma CreateResourceKeepsInv(db: Store, tenant: int, key: string)
    requires Inv(db) && CreateResource(db, tenant, key).Ok?
    ensures Inv(CreateResource(db, tenant, key).value)
  {
    GrowKeepsMirrored(db, CreateResource(db, tenant, key).value);
  }

  lemma GetOrCreateResourceKeepsInv(db: Store, tenant: int, key: string)
    requires Inv(db) && GetOrCreateResource(db, tenant, key).Ok?
    ensures
      var (after, r) := GetOrCreateResource(db, tenant, key).value;
      && Inv(after)
      && after == db.(resources := after.resources, nextResource := after.nextResource)
      && ResourceKeyed(after, tenant, key, r)
  {
    if !exists r :: ResourceKeyed(db, tenant, key, r) {
      CreateResourceKeepsInv(db, tenant, key);
    }
  }

  lemma CreatePermissionKeepsInv(db: Store, tenant: int, resource: string, action: string)
    requires Inv(db) && CreatePermission(db, tenant, resource, action).Ok?
    ensures Inv(CreatePermission(db, tenant, resource, action).value)
  {
    GetOrCreateResourceKeepsInv(db, tenant, resource);
    KeyIsNotWildcard(resource, action);
    GrowKeepsMirrored(db, CreatePermission(db, tenant, resource, action).value);
  }

  function WithRule(rules: seq<Rule>, rule: Rule): (r: seq<Rule>)
    ensures rules <= r && rule in r
    ensures forall x :: x in r ==> x in rules || x == rule
  {
    if rule in rules then rules else rules + [rule]
  }

  lemma WithRuleNoDup(rules: seq<Rule>, rule: Rule)
    requires NoDup(rules)
    ensures NoDup(WithRule(rules, rule))
  {
  }

  lemma LinkKeepsInv(db: Store, l: Link)
    requires Inv(db) && l.role in db.roles && l.permission in db.permissions
    requires db.roles[l.role].tenant == db.permissions[l.permission].tenant
    ensures
      var tenant := db.roles[l.role].tenant;
      var rule := LinkRule(db.roles[l.role], db.permissions[l.permission], tenant);
      Inv(db.(links := db.links[l := tenant], rules := WithRule(db.rules, rule)))
  {
    hide UniqueNames, UniqueKeys, UniqueResources, IdsBelow;
    var tenant := db.roles[l.role].tenant;
    var rule := LinkRule(db.roles[l.role], db.permissions[l.permission], tenant);
    var after := db.(links := db.links[l := tenant], rules := WithRule(db.rules, rule));
    assert Constraints(after);
    WithRuleNoDup(db.rules, rule);
    forall x | x in after.rules ensures Backed(after, x) {
      if x == rule {
        assert l in after.links && x == LinkRule(after.roles[l.role], after.permissions[l.permission], after.links[l]);
      } else {
        BackedGrows(db, after, x);
      }
    }
  }

  lemma GrantKeepsInv(db: Store, g: Grant)
    requires Inv(db) && g.role in db.roles && g.user in db.users
    ensures
      var tenant := db.roles[g.role].tenant;
      var rule := GrantRule(g.user, db.roles[g.role], tenant);
      Inv(db.(grants := db.grants[g := tenant], rules := WithRule(db.rules, rule)))
  {
    hide UniqueNames, UniqueKeys, UniqueResources, IdsBelow;
    var tenant := db.roles[g.role].tenant;
    var rule := GrantRule(g.user, db.roles[g.role], tenant);
    var after := db.(grants := db.grants[g := tenant], rules := WithRule(db.rules, rule));
    assert Constraints(after);
    WithRuleNoDup(db.rules, rule);
    forall x | x in after.rules ensures Backed(after, x) {
      if x == rule {
        assert g in after.grants && x == GrantRule(g.user, after.roles[g.role], after.grants[g]);
      } else {
        BackedGrows(db, after, x);
      }
    }
  }

  /** What assign_permission_to_role does to a mirrored store when it does not raise. */
  lemma AssignPermissionEffect(db: Store, tenant: int, r: int, p: int)
    requires Inv(db) && AssignPermission(db, tenant, r, p).Ok?
    ensures r in db.roles && p in db.permissions && db.roles[r].tenant == db.permissions[p].tenant
    ensures
      var t := db.roles[r].tenant;
      var rule := LinkRule(db.roles[r], db.permissions[p], t);
      AssignPermission(db, tenant, r, p).value
      == db.(links := db.links[Link(r, p) := t], rules := WithRule(db.rules, rule))
  {
    var l := Link(r, p);
    var base := if l in db.links then db else db.(links := db.links[l := tenant]);
    AddPolicyEffect(db, base, tenant, P, db.roles[r].name, db.permissions[p].key);
    if l in db.links {
      assert LinkRule(db.roles[r], db.permissions[p], db.links[l]) in db.rules;
      assert db.links == db.links[l := db.roles[r].tenant];
    }
  }

  lemma AssignRoleEffect(db: Store, tenant: int, subject: string, name: string) returns (g: Grant)
    requires Inv(db) && AssignRole(db, tenant, subject, name).Ok?
    ensures Named(db, tenant, name, g.role) && g.user in db.users && ParseInt(subject) == Some(g.user)
    ensures
      var t := db.roles[g.role].tenant;
      var after := AssignRole(db, tenant, subject, name).value;
      && after == db.(grants := db.grants[g := t], rules := after.rules)
      && (exists x :: x in after.rules && x.ptype == G && x.v0 == subject && x.v1 == name)
      && (Canonical(subject) ==> after.rules == WithRule(db.rules, Rule(G, subject, name, t)))
  {
    var r :| Named(db, tenant, name, r);
    g := Grant(ParseInt(subject).value, r);
    var base := if g in db.grants then db else db.(grants := db.grants[g := tenant]);
    AddPolicyEffect(db, base, tenant, G, subject, name);
    if g in db.grants {
      assert GrantRule(g.user, db.roles[r], db.grants[g]) in db.rules;
      assert db.grants == db.grants[g := db.roles[r].tenant];
    }
  }

  /** assign_role keeps the two copies alike exactly for subjects printed the way str prints them;
      for a subject such as "007" it stores id 7 in one copy and "007" in the other. */
  lemma AssignRoleKeepsInvIff(db: Store, tenant: int, subject: string, name: string)
    requires Inv(db) && AssignRole(db, tenant, subject, name).Ok?
    ensures Inv(AssignRole(db, tenant, subject, name).value) <==> Canonical(subject)
  {
    var g := AssignRoleEffect(db, tenant, subject, name);
    var after := AssignRole(db, tenant, subject, name).value;
    if Canonical(subject) {
      GrantKeepsInv(db, g);
    } else if Inv(after) {
      var x :| x in after.rules && x.ptype == G && x.v0 == subject && x.v1 == name;
      GrantSubject(after, x);
      NumeralIsCanonical(subject);
    }
  }

  lemma GrantSubject(db: Store, rule: Rule)
    requires Inv(db) && rule in db.rules && rule.ptype == G
    ensures Numeral(rule.v0)
  {
    assert Backed(db, rule);
    var g :| g in db.grants && rule == GrantRule(g.user, db.roles[g.role], db.grants[g]);
    assert rule.v0 == Str(g.user);
  }

  /** A rule that opens everything to a role of the tenant is as good as a row behind it. */
  lemma WildcardKeepsInv(db: Store, tenant: int, r: int)
    requires Inv(db) && r in db.roles && db.roles[r].tenant == tenant
    ensures Inv(db.(rules := WithRule(db.rules, WildcardRule(db.roles[r]))))
  {
    var after := db.(rules := WithRule(db.rules, WildcardRule(db.roles[r])));
    hide UniqueNames, UniqueKeys, UniqueResources, IdsBelow;
    WithRuleNoDup(db.rules, WildcardRule(db.roles[r]));
    forall x | x in after.rules ensures Backed(after, x) {
      if x != WildcardRule(db.roles[r]) {
        BackedGrows(db, after, x);
      }
    }
  }

  // ----- operations that remove or rename -----

  lemma UpdateRoleKeepsInv(db: Store, tenant: int, r: int, name: string)
    requires Inv(db) && UpdateRole(db, tenant, r, name).Ok?
    ensures Inv(UpdateRole(db, tenant, r, name).value)
  {
    var after := UpdateRole(db, tenant, r, name).value;
    if RoleVisible(db, tenant, r) && db.roles[r].name != name {
      RenamedConstraints(db, after, r);
      hide Constraints, Owned, UniqueNames, Backed, LinksMirrored, GrantsMirrored;
      RenamedRulesNoDup(db, tenant, r, name);
      RenamedRulesMirror(db, after, tenant, r);
    } else {
      assert after.roles == db.roles;
    }
  }

  /** A role may be renamed as long as the name is free. */
  lemma RenamedConstraints(db: Store, after: Store, r: int)
    requires Constraints(db) && Owned(db) && r in db.roles && r in after.roles && !RoleNameTaken(db, after.roles[r].name, r)
    requires after == db.(roles := db.roles[r := db.roles[r].(name := after.roles[r].name)], rules := after.rules)
    ensures Constraints(after) && Owned(after)
  {
    hide UniqueKeys, UniqueResources;
    assert UniqueNames(after.roles);
  }

  lemma RenamedRulesMirror(db: Store, after: Store, tenant: int, r: int)
    requires Inv(db) && RoleVisible(db, tenant, r) && Constraints(after)
    requires r in after.roles && after.roles == db.roles[r := db.roles[r].(name := after.roles[r].name)]
    requires after.links == db.links && after.grants == db.grants && after.permissions == db.permissions
    requires |after.rules| == |db.rules|
    requires forall i :: 0 <= i < |db.rules| ==>
               after.rules[i] == RenamedRole(tenant, db.roles[r].name, after.roles[r].name, db.rules[i])
    ensures forall rule :: rule in after.rules ==> Backed(after, rule)
    ensures LinksMirrored(after.links, after.roles, after.permissions, after.rules)
    ensures GrantsMirrored(after.grants, after.roles, after.users, after.rules)
  {
    forall rule | rule in after.rules ensures Backed(after, rule) {
      var i :| 0 <= i < |db.rules| && rule == after.rules[i];
      RenamedRoleBacked(db, after, tenant, r, db.rules[i]);
    }
    forall l | l in after.links
      ensures LinkRule(after.roles[l.role], after.permissions[l.permission], after.links[l]) in after.rules
    {
      var rule := LinkRule(db.roles[l.role], db.permissions[l.permission], db.links[l]);
      var i :| 0 <= i < |db.rules| && db.rules[i] == rule;
      assert after.rules[i] == LinkRule(after.roles[l.role], after.permissions[l.permission], after.links[l]);
    }
    forall g | g in after.grants ensures GrantRule(g.user, after.roles[g.role], after.grants[g]) in after.rules {
      var rule := GrantRule(g.user, db.roles[g.role], db.grants[g]);
      var i :| 0 <= i < |db.rules| && db.rules[i] == rule;
      assert after.rules[i] == GrantRule(g.user, after.roles[g.role], after.grants[g]);
    }
  }

  lemma RenamedRoleBacked(db: Store, after: Store, tenant: int, r: int, rule: Rule)
    requires Inv(db) && RoleVisible(db, tenant, r) && rule in db.rules && Constraints(after)
    requires r in after.roles && after.roles == db.roles[r := db.roles[r].(name := after.roles[r].name)]
    requires after.links == db.links && after.grants == db.grants && after.permissions == db.permissions
    ensures Backed(after, RenamedRole(tenant, db.roles[r].name, after.roles[r].name, rule))
  {
    var renamed := RenamedRole(tenant, db.roles[r].name, after.roles[r].name, rule);
    assert Backed(db, rule);
    if BackedByLink(db.links, db.roles, db.permissions, rule) {
      var l :| l in db.links && rule == LinkRule(db.roles[l.role], db.permissions[l.permission], db.links[l]);
      assert renamed == LinkRule(after.roles[l.role], after.permissions[l.permission], after.links[l]);
    } else if BackedByGrant(db.grants, db.roles, db.users, rule) {
      var g :| g in db.grants && rule == GrantRule(g.user, db.roles[g.role], db.grants[g]);
      assert renamed == GrantRule(g.user, after.roles[g.role], after.grants[g]);
    } else {
      var s :| s in db.roles && rule == WildcardRule(db.roles[s]);
      assert renamed == WildcardRule(after.roles[s]);
    }
  }

  /** Renaming to a name no other role has never makes two rules equal. */
  lemma RenamedRulesNoDup(db: Store, tenant: int, r: int, name: string)
    requires Inv(db) && RoleVisible(db, tenant, r) && !RoleNameTaken(db, name, r)
    ensures forall i, j :: 0 <= i < j < |db.rules| ==>
              RenamedRole(tenant, db.roles[r].name, name, db.rules[i])
              != RenamedRole(tenant, db.roles[r].name, name, db.rules[j])
  {
    forall i, j | 0 <= i < j < |db.rules|
      ensures RenamedRole(tenant, db.roles[r].name, name, db.rules[i])
           != RenamedRole(tenant, db.roles[r].name, name, db.rules[j])
    {
      var a := RoleOfRule(db, db.rules[i]);
      var b := RoleOfRule(db, db.rules[j]);
      assert db.roles[a].name == name ==> a == r;
      assert db.roles[b].name == name ==> b == r;
    }
  }

  /** Rows and rules removed together leave a mirrored store: every rule that goes belonged to a row
      that goes, and every rule that stays is still backed. */
  lemma ShrinkKeepsMirrored(db: Store, after: Store, keep: Rule -> bool)
    requires Inv(db) && Constraints(after)
    requires Extends(after.roles, db.roles) && Extends(after.permissions, db.permissions)
    requires Extends(after.links, db.links) && Extends(after.grants, db.grants)
    requires after.rules == Filter(db.rules, keep)
    requires forall rule :: rule in db.rules && keep(rule) ==> Backed(after, rule)
    requires forall l :: l in after.links ==>
               keep(LinkRule(after.roles[l.role], after.permissions[l.permission], after.links[l]))
    requires forall g :: g in after.grants ==> keep(GrantRule(g.user, after.roles[g.role], after.grants[g]))
    ensures Mirrored(after)
  {
    FilterNoDup(db.rules, keep);
    forall rule ensures rule in after.rules <==> rule in db.rules && keep(rule) {
      FilterMember(db.rules, keep, rule);
    }
    forall l | l in after.links
      ensures LinkRule(after.roles[l.role], after.permissions[l.permission], after.links[l]) in after.rules
    {
      assert LinkRule(db.roles[l.role], db.permissions[l.permission], db.links[l]) in db.rules;
    }
    forall g | g in after.grants ensures GrantRule(g.user, after.roles[g.role], after.grants[g]) in after.rules {
      assert GrantRule(g.user, db.roles[g.role], db.grants[g]) in db.rules;
    }
  }

  /** A rule stays backed when the row behind it stays. */
  lemma BackedShrinks(db: Store, after: Store, rule: Rule)
    requires Constraints(db) && Constraints(after) && Backed(db, rule)
    requires Extends(after.roles, db.roles) && Extends(after.permissions, db.permissions)
    requires Extends(after.links, db.links) && Extends(after.grants, db.grants)
    requires forall l :: l in db.links && rule == LinkRule(db.roles[l.role], db.permissions[l.permission], db.links[l])
                         ==> l in after.links
    requires forall g :: g in db.grants && rule == GrantRule(g.user, db.roles[g.role], db.grants[g]) ==> g in after.grants
    requires forall r :: r in db.roles && rule == WildcardRule(db.roles[r]) ==> r in after.roles
    ensures Backed(after, rule)
  {
    if BackedByLink(db.links, db.roles, db.permissions, rule) {
      var l :| l in db.links && rule == LinkRule(db.roles[l.role], db.permissions[l.permission], db.links[l]);
      assert rule == LinkRule(after.roles[l.role], after.permissions[l.permission], after.links[l]);
    } else if BackedByGrant(db.grants, db.roles, db.users, rule) {
      var g :| g in db.grants && rule == GrantRule(g.user, db.roles[g.role], db.grants[g]);
      assert rule == GrantRule(g.user, after.roles[g.role], after.grants[g]);
    } else {
      var r :| r in db.roles && rule == WildcardRule(db.roles[r]);
      assert rule == WildcardRule(after.roles[r]);
    }
  }

  /** Rows that go leave the constraints and the owners as they were, if no row refers to one that goes. */
  lemma ShrinkKeepsConstraints(db: Store, after: Store)
    requires Constraints(db) && Owned(db)
    requires Extends(after.roles, db.roles) && Extends(after.permissions, db.permissions)
    requires Extends(after.links, db.links) && Extends(after.grants, db.grants)
    requires after.users == db.users && after.resources == db.resources
    requires after.nextRole == db.nextRole && after.nextPermission == db.nextPermission && after.nextResource == db.nextResource
    requires LinksRefer(after.links, after.roles, after.permissions) && GrantsRefer(after.grants, after.roles, after.users)
    ensures Constraints(after) && Owned(after)
  {
  }

  /** On a mirrored store delete_role never meets a row that still refers to the role. */
  lemma DeleteRoleRows(db: Store, tenant: int, r: int)
    requires Constraints(db) && Owned(db) && RoleVisible(db, tenant, r)
    ensures DeleteRole(db, tenant, r).Ok?
    ensures
      var after := DeleteRole(db, tenant, r).value;
      && Constraints(after) && Owned(after)
      && after.roles == db.roles - {r} && after.permissions == db.permissions
      && Extends(after.links, db.links) && Extends(after.grants, db.grants)
      && (forall l :: l in db.links ==> (l in after.links <==> l.role != r))
      && (forall g :: g in db.grants ==> (g in after.grants <==> g.role != r))
  {
    hide UniqueNames, UniqueKeys, UniqueResources, IdsBelow;
    var after := DeleteRole(db, tenant, r).value;
    assert LinksRefer(after.links, after.roles, after.permissions) && GrantsRefer(after.grants, after.roles, after.users);
    ShrinkKeepsConstraints(db, after);
  }

  lemma DeleteRoleKeepsInv(db: Store, tenant: int, r: int)
    requires Inv(db)
    ensures DeleteRole(db, tenant, r).Ok? && Inv(DeleteRole(db, tenant, r).value)
  {
    if RoleVisible(db, tenant, r) {
      DeleteRoleRows(db, tenant, r);
      DeletedRulesMirror(db, DeleteRole(db, tenant, r).value, tenant, r);
    }
  }

  lemma DeletedRulesMirror(db: Store, after: Store, tenant: int, r: int)
    requires Inv(db) && RoleVisible(db, tenant, r) && Constraints(after)
    requires after.roles == db.roles - {r} && after.permissions == db.permissions
    requires Extends(after.links, db.links) && Extends(after.grants, db.grants)
    requires forall l :: l in db.links ==> (l in after.links <==> l.role != r)
    requires forall g :: g in db.grants ==> (g in after.grants <==> g.role != r)
    requires after.rules == Filter(db.rules, rule => !NamesRole(tenant, db.roles[r].name, rule))
    ensures Mirrored(after)
  {
    var keep := rule => !NamesRole(tenant, db.roles[r].name, rule);
    forall rule | rule in db.rules && keep(rule) ensures Backed(after, rule) {
      BackedShrinks(db, after, rule);
    }
    ShrinkKeepsMirrored(db, after, keep);
  }

  /** On a mirrored store delete_permission never meets a row that still refers to the permission. */
  lemma DeletePermissionRows(db: Store, tenant: int, p: int)
    requires Constraints(db) && Owned(db) && PermissionVisible(db, tenant, p)
    ensures DeletePermission(db, tenant, p).Ok?
    ensures
      var after := DeletePermission(db, tenant, p).value;
      && Constraints(after) && Owned(after)
      && after.roles == db.roles && after.grants == db.grants && after.users == db.users
      && after.permissions == db.permissions - {p} && Extends(after.links, db.links)
      && (forall l :: l in db.links ==> (l in after.links <==> l.permission != p))
  {
    hide UniqueNames, UniqueKeys, UniqueResources, IdsBelow;
    var after := DeletePermission(db, tenant, p).value;
    assert LinksRefer(after.links, after.roles, after.permissions);
    ShrinkKeepsConstraints(db, after);
  }

  lemma DeletePermissionKeepsInv(db: Store, tenant: int, p: int)
    requires Inv(db)
    ensures DeletePermission(db, tenant, p).Ok? && Inv(DeletePermission(db, tenant, p).value)
  {
    if PermissionVisible(db, tenant, p) {
      DeletePermissionRows(db, tenant, p);
      UnkeyedRulesMirror(db, DeletePermission(db, tenant, p).value, tenant, p);
    }
  }

  lemma UnkeyedRulesMirror(db: Store, after: Store, tenant: int, p: int)
    requires Inv(db) && PermissionVisible(db, tenant, p) && Constraints(after)
    requires after.roles == db.roles && after.grants == db.grants && after.users == db.users
    requires after.permissions == db.permissions - {p} && Extends(after.links, db.links)
    requires forall l :: l in db.links ==> (l in after.links <==> l.permission != p)
    requires after.rules == Filter(db.rules, rule => !NamesKey(tenant, db.permissions[p].key, rule))
    ensures Mirrored(after)
  {
    hide UniqueNames, UniqueResources, IdsBelow;
    var keep := rule => !NamesKey(tenant, db.permissions[p].key, rule);
    forall rule | rule in db.rules && keep(rule) ensures Backed(after, rule) {
      BackedShrinks(db, after, rule);
    }
    ShrinkKeepsMirrored(db, after, keep);
  }

  lemma RemovePermissionRows(db: Store, tenant: int, r: int, p: int)
    requires Constraints(db) && Owned(db) && RoleVisible(db, tenant, r) && PermissionVisible(db, tenant, p)
    ensures
      var after := RemovePermission(db, tenant, r, p).value;
      && Constraints(after) && Owned(after)
      && after.roles == db.roles && after.permissions == db.permissions && after.grants == db.grants && after.users == db.users
      && Extends(after.links, db.links) && (forall l :: l in db.links ==> (l in after.links <==> l != Link(r, p)))
  {
    hide UniqueNames, UniqueKeys, UniqueResources, IdsBelow;
    assert Link(r, p) in db.links ==> InScope(tenant, db.links[Link(r, p)]);
  }

  lemma RemovePermissionKeepsInv(db: Store, tenant: int, r: int, p: int)
    requires Inv(db)
    ensures RemovePermission(db, tenant, r, p).Ok? && Inv(RemovePermission(db, tenant, r, p).value)
  {
    if RoleVisible(db, tenant, r) && PermissionVisible(db, tenant, p) {
      RemovePermissionRows(db, tenant, r, p);
      UnlinkedRulesMirror(db, RemovePermission(db, tenant, r, p).value, tenant, r, p);
    }
  }

  lemma UnlinkedRulesMirror(db: Store, after: Store, tenant: int, r: int, p: int)
    requires Inv(db) && RoleVisible(db, tenant, r) && PermissionVisible(db, tenant, p) && Constraints(after)
    requires after.roles == db.roles && after.permissions == db.permissions && after.grants == db.grants && after.users == db.users
    requires Extends(after.links, db.links) && forall l :: l in db.links ==> (l in after.links <==> l != Link(r, p))
    requires after.rules == Filter(db.rules, rule => !Matches(tenant, P, db.roles[r].name, db.permissions[p].key, rule))
    ensures Mirrored(after)
  {
    hide UniqueResources, IdsBelow;
    var keep := rule => !Matches(tenant, P, db.roles[r].name, db.permissions[p].key, rule);
    forall rule | rule in db.rules && keep(rule) ensures Backed(after, rule) {
      BackedShrinks(db, after, rule);
    }
    ShrinkKeepsMirrored(db, after, keep);
  }

  // ----- update_permission -----

  lemma UpdatePermissionRows(db: Store, tenant: int, p: int, resource: string, action: string)
    requires Inv(db) && UpdatePermission(db, tenant, p, resource, action).Ok? && PermissionVisible(db, tenant, p)
    ensures
      var after := UpdatePermission(db, tenant, p, resource, action).value;
      && Constraints(after) && Owned(after) && KeyRenamed(db, after, tenant, p)
      && after.permissions[p].key == PermissionKey(resource, action)
  {
    hide Backed, Mirrored, UniqueNames, UniqueKeys, UniqueResources, IdsBelow;
    var after := UpdatePermission(db, tenant, p, resource, action).value;
    GetOrCreateResourceKeepsInv(db, tenant, resource);
    KeyIsNotWildcard(resource, action);
    var mid := GetOrCreateResource(db, tenant, resource).value.0;
    assert Constraints(mid) && Owned(mid) && !KeyTaken(mid, after.permissions[p].key, p);
    RekeyedConstraints(mid, after, p);
  }

  /** A permission may change as long as its key is free and its tenant stays. */
  lemma RekeyedConstraints(db: Store, after: Store, p: int)
    requires Constraints(db) && Owned(db) && p in db.permissions && p in after.permissions
    requires after == db.(permissions := db.permissions[p := after.permissions[p]], rules := after.rules)
    requires !KeyTaken(db, after.permissions[p].key, p) && after.permissions[p].tenant == db.permissions[p].tenant
    ensures Constraints(after) && Owned(after)
  {
    hide UniqueNames, UniqueResources;
    assert UniqueKeys(after.permissions);
  }

  lemma UpdatePermissionKeepsInv(db: Store, tenant: int, p: int, resource: string, action: string)
    requires Inv(db) && UpdatePermission(db, tenant, p, resource, action).Ok?
    ensures Inv(UpdatePermission(db, tenant, p, resource, action).value)
  {
    if PermissionVisible(db, tenant, p) {
      UpdatePermissionRows(db, tenant, p, resource, action);
      RenamedKeyMirror(db, UpdatePermission(db, tenant, p, resource, action).value, tenant, p);
    }
  }

  ghost predicate KeyRenamed(db: Store, after: Store, tenant: int, p: int)
    requires p in db.permissions
  {
    && p in after.permissions && after.permissions == db.permissions[p := after.permissions[p]]
    && Composed(after.permissions[p])
    && (forall q :: q in db.permissions && q != p ==> db.permissions[q].key != after.permissions[p].key)
    && after.roles == db.roles && after.links == db.links && after.grants == db.grants && after.users == db.users
    && |after.rules| == |db.rules|
    && forall i :: 0 <= i < |db.rules| ==>
         after.rules[i] == RenamedKey(tenant, db.permissions[p].key, after.permissions[p].key, db.rules[i])
  }

  lemma RenamedKeyMirror(db: Store, after: Store, tenant: int, p: int)
    requires Inv(db) && Constraints(after) && PermissionVisible(db, tenant, p) && KeyRenamed(db, after, tenant, p)
    ensures Mirrored(after)
  {
    forall rule | rule in after.rules ensures Backed(after, rule) {
      var i :| 0 <= i < |db.rules| && rule == after.rules[i];
      RenamedKeyBacked(db, after, tenant, p, db.rules[i]);
    }
    forall l | l in after.links
      ensures LinkRule(after.roles[l.role], after.permissions[l.permission], after.links[l]) in after.rules
    {
      var rule := LinkRule(db.roles[l.role], db.permissions[l.permission], db.links[l]);
      var i :| 0 <= i < |db.rules| && db.rules[i] == rule;
      assert after.rules[i] == LinkRule(after.roles[l.role], after.permissions[l.permission], after.links[l]);
    }
    forall g | g in after.grants ensures GrantRule(g.user, after.roles[g.role], after.grants[g]) in after.rules {
      var rule := GrantRule(g.user, db.roles[g.role], db.grants[g]);
      var i :| 0 <= i < |db.rules| && db.rules[i] == rule;
      assert after.rules[i] == rule;
    }
    RenamedKeyNoDup(db, after, tenant, p);
  }

  /** Renaming to a key no other permission has never makes two rules equal. */
  lemma RenamedKeyNoDup(db: Store, after: Store, tenant: int, p: int)
    requires Inv(db) && PermissionVisible(db, tenant, p) && KeyRenamed(db, after, tenant, p)
    ensures NoDup(after.rules)
  {
    forall i, j | 0 <= i < j < |db.rules| ensures after.rules[i] != after.rules[j] {
      if db.rules[i].ptype == P && db.rules[j].ptype == P {
        KeyOfRule(db, db.rules[i]);
        KeyOfRule(db, db.rules[j]);
      }
    }
  }

  lemma RenamedKeyBacked(db: Store, after: Store, tenant: int, p: int, rule: Rule)
    requires Inv(db) && Constraints(after) && PermissionVisible(db, tenant, p) && KeyRenamed(db, after, tenant, p)
    requires rule in db.rules
    ensures Backed(after, RenamedKey(tenant, db.permissions[p].key, after.permissions[p].key, rule))
  {
    var renamed := RenamedKey(tenant, db.permissions[p].key, after.permissions[p].key, rule);
    assert Backed(db, rule);
    if BackedByLink(db.links, db.roles, db.permissions, rule) {
      var l :| l in db.links && rule == LinkRule(db.roles[l.role], db.permissions[l.permission], db.links[l]);
      assert renamed == LinkRule(after.roles[l.role], after.permissions[l.permission], after.links[l]);
    } else if BackedByGrant(db.grants, db.roles, db.users, rule) {
      var g :| g in db.grants && rule == GrantRule(g.user, db.roles[g.role], db.grants[g]);
      assert renamed == GrantRule(g.user, after.roles[g.role], after.grants[g]);
    } else {
      var s :| s in db.roles && rule == WildcardRule(db.roles[s]);
      assert renamed == WildcardRule(after.roles[s]);
    }
  }

  /** The key in a p rule is a wildcard or the key of a permission of the rule's tenant. */
  lemma KeyOfRule(db: Store, rule: Rule)
    requires Inv(db) && rule in db.rules && rule.ptype == P
    ensures rule.v1 == "*" || exists q :: q in db.permissions && db.permissions[q].key == rule.v1
                                          && db.permissions[q].tenant == rule.tenant
  {
    assert Backed(db, rule);
    if BackedByLink(db.links, db.roles, db.permissions, rule) {
      var l :| l in db.links && rule == LinkRule(db.roles[l.role], db.permissions[l.permission], db.links[l]);
      assert db.permissions[l.permission].key == rule.v1;
    }
  }

  // ----- every operation, every run -----

  /** The subject of an assign_role request is printed the way str prints ids. */
  predicate Sound(op: Op) {
    op.AssignRoleOp? ==> Canonical(op.subject)
  }

  lemma ApplyKeepsInv(db: Store, tenant: int, op: Op)
    requires Inv(db) && Sound(op) && Apply(db, tenant, op).Ok?
    ensures Inv(Apply(db, tenant, op).value)
  {
    match op
    case CreateRoleOp(name) => CreateRoleKeepsInv(db, tenant, name);
    case UpdateRoleOp(r, name) => UpdateRoleKeepsInv(db, tenant, r, name);
    case DeleteRoleOp(r) => DeleteRoleKeepsInv(db, tenant, r);
    case CreateResourceOp(key) => CreateResourceKeepsInv(db, tenant, key);
    case CreatePermissionOp(resource, action) => CreatePermissionKeepsInv(db, tenant, resource, action);
    case UpdatePermissionOp(p, resource, action) => UpdatePermissionKeepsInv(db, tenant, p, resource, action);
    case DeletePermissionOp(p) => DeletePermissionKeepsInv(db, tenant, p);
    case AssignPermissionOp(r, p) =>
      AssignPermissionEffect(db, tenant, r, p);
      LinkKeepsInv(db, Link(r, p));
    case RemovePermissionOp(r, p) => RemovePermissionKeepsInv(db, tenant, r, p);
    case AssignRoleOp(subject, name) => AssignRoleKeepsInvIff(db, tenant, subject, name);
    case RegisterUserOp(user) =>
      var after := Apply(db, tenant, op).value;
      assert Constraints(after);
      GrowKeepsMirrored(db, after);
  }

  /** The mirror invariant holds after every run of requests, each by any tenant. */
  lemma {:induction false} RunKeepsInv(db: Store, requests: seq<Request>)
    requires Inv(db)
    requires forall i :: 0 <= i < |requests| ==> Sound(requests[i].op)
    ensures Inv(Run(db, requests))
    decreases |requests|
  {
    if requests != [] {
      assert Sound(requests[0].op);
      if Apply(db, requests[0].tenant, requests[0].op).Ok? {
        ApplyKeepsInv(db, requests[0].tenant, requests[0].op);
      }
      RunKeepsInv(Step(db, requests[0].tenant, requests[0].op), requests[1..]);
    }
  }
}
