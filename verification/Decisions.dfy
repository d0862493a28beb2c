/** What `can` answers: that it agrees with the id tables, and exactly when names and keys allow it. */
module Decisions {
  import opened Strings
  import opened PolicyStore
  import opened PolicyMirror
  import opened Enforcement

  /** A g line of the loaded model is a grant in the tenant's scope. */
  lemma EdgeIsGrant(db: Store, tenant: int, a: string, b: string) returns (g: Grant)
    requires Inv(db) && [a, b] in ModelOf(db, tenant).g
    ensures HoldsRole(db, tenant, g.user, g.role) && a == Str(g.user)
    ensures g.role in db.roles && b == Strip(db.roles[g.role].name)
  {
    LoadedModel(db, tenant, a, b);
    var rule :| Shows(db, tenant, rule, G, a, b);
    assert Backed(db, rule);
    g :| g in db.grants && rule == GrantRule(g.user, db.roles[g.role], db.grants[g]);
    assert g == Grant(g.user, g.role);
    ParseIntStr(g.user);
  }

  /** The transitive closure of g adds nothing when no role is named like an id. */
  lemma PathIsShort(db: Store, tenant: int, path: seq<string>, user: int, to: string)
    requires Inv(db) && Distinguishable(db.roles)
    requires IsPath(ModelOf(db, tenant).g, path, Str(user), to)
    ensures to == Str(user) || [Str(user), to] in ModelOf(db, tenant).g
  {
    if |path| == 2 {
      assert [path[0], path[1]] in ModelOf(db, tenant).g;
    }
    if |path| > 2 {
      var first := EdgeIsGrant(db, tenant, path[0], path[1]);
      var second := EdgeIsGrant(db, tenant, path[1], path[2]);
      assert Numeral(Strip(db.roles[first.role].name));
    }
  }

  lemma PolicyOpens(db: Store, r: int, rule: Rule, key: string)
    requires Inv(db) && PlainKeys(db.roles, db.permissions) && rule in db.rules && rule.ptype == P
    requires r in db.roles && rule.v0 == db.roles[r].name
    requires Strip(rule.v1) == "*" || Strip(rule.v1) == key
    ensures IsWildcard(db, r) || IsLinked(db, r, key)
  {
    var s := RoleOfRule(db, rule);
    assert s == r && Backed(db, rule);
    if BackedByLink(db.links, db.roles, db.permissions, rule) {
      var l :| l in db.links && rule == LinkRule(db.roles[l.role], db.permissions[l.permission], db.links[l]);
      assert l == Link(r, l.permission);
    } else {
      var w :| w in db.roles && rule == WildcardRule(db.roles[w]);
    }
  }

  /** The enforcer answers yes exactly when the user holds a role that is a wildcard or is linked to
      the permission with the requested key. */
  lemma CanRefines(db: Store, tenant: int, user: int, resource: string, action: string)
    requires Inv(db) && PlainKeys(db.roles, db.permissions) && Distinguishable(db.roles)
    ensures Can(db, tenant, Str(user), resource, action)
       <==> RelCan(db, tenant, user, PermissionKey(resource, action))
  {
    var key := PermissionKey(resource, action);
    if Can(db, tenant, Str(user), resource, action) {
      CanImpliesRelCan(db, tenant, user, resource, action);
    }
    if RelCan(db, tenant, user, key) {
      var r :| HoldsRole(db, tenant, user, r) && (IsWildcard(db, r) || IsLinked(db, r, key));
      RelCanImpliesCan(db, tenant, user, r, resource, action);
    }
  }

  lemma CanImpliesRelCan(db: Store, tenant: int, user: int, resource: string, action: string)
    requires Inv(db) && PlainKeys(db.roles, db.permissions) && Distinguishable(db.roles)
    requires Can(db, tenant, Str(user), resource, action)
    ensures RelCan(db, tenant, user, PermissionKey(resource, action))
  {
    var model := ModelOf(db, tenant);
    var key := PermissionKey(resource, action);
    var sub, perm :| [sub, perm] in model.p && HasLink(model.g, Str(user), sub) && (perm == "*" || key == perm);
    var path :| IsPath(model.g, path, Str(user), sub);
    LoadedModel(db, tenant, sub, perm);
    var rule :| Shows(db, tenant, rule, P, sub, perm);
    PathIsShort(db, tenant, path, user, sub);
    var r := RoleOfRule(db, rule);
    assert !Numeral(sub);
    var g := EdgeIsGrant(db, tenant, Str(user), sub);
    StrInjective(g.user, user);
    assert g.role == r;
    PolicyOpens(db, r, rule, key);
  }

  lemma RelCanImpliesCan(db: Store, tenant: int, user: int, r: int, resource: string, action: string)
    requires Inv(db) && PlainKeys(db.roles, db.permissions) && HoldsRole(db, tenant, user, r) && ',' !in db.roles[r].name
    requires IsWildcard(db, r) || IsLinked(db, r, PermissionKey(resource, action))
    ensures Can(db, tenant, Str(user), resource, action)
  {
    var model := ModelOf(db, tenant);
    var key := PermissionKey(resource, action);
    var name := Strip(db.roles[r].name);
    var perm := if IsWildcard(db, r) then "*" else key;
    var policy := Rule(P, db.roles[r].name, perm, db.roles[r].tenant);
    assert policy in db.rules && ',' !in perm && Strip(perm) == perm by {
      if !IsWildcard(db, r) {
        var p :| Link(r, p) in db.links && p in db.permissions && db.permissions[p].key == key;
        assert policy == LinkRule(db.roles[r], db.permissions[p], db.links[Link(r, p)]);
      }
    }
    var grouping := GrantRule(user, db.roles[r], db.grants[Grant(user, r)]);
    StrIsPlain(user);
    assert Shows(db, tenant, policy, P, name, perm);
    assert Shows(db, tenant, grouping, G, Str(user), name);
    LoadedModel(db, tenant, name, perm);
    LoadedModel(db, tenant, Str(user), name);
    assert IsPath(model.g, [Str(user), name], Str(user), name);
  }

  // ----- the condition on names and keys is exact -----

  ghost predicate SameTables(db: Store, base: Store) {
    db.roles == base.roles && db.permissions == base.permissions
  }

  ghost predicate Follows(db: Store, tenant: int, user: int, resource: string, action: string) {
    Can(db, tenant, Str(user), resource, action) <==> RelCan(db, tenant, user, PermissionKey(resource, action))
  }

  /** A mirrored store over the same roles and permissions in which some answer is not the tables'. */
  ghost predicate Differs(base: Store, db: Store, tenant: int, user: int, resource: string, action: string) {
    Inv(db) && SameTables(db, base) && user in db.users && !Follows(db, tenant, user, resource, action)
  }

  /** The store with the given roles and permissions in which role r is a wildcard and user 1 holds
      role s. */
  ghost function Witness(base: Store, r: int, s: int): Store
    requires r in base.roles && s in base.roles
  {
    var t := base.roles[s].tenant;
    base.(users := {1}, links := map[], grants := map[Grant(1, s) := t],
          rules := [WildcardRule(base.roles[r]), GrantRule(1, base.roles[s], t)])
  }

  lemma WitnessInv(base: Store, r: int, s: int)
    requires Inv(base) && r in base.roles && s in base.roles
    ensures Inv(Witness(base, r, s))
  {
    var db := Witness(base, r, s);
    assert Grant(1, s) in db.grants;
    assert db.rules[0] in db.rules && db.rules[1] in db.rules;
  }

  /** A role named like an id answers for the user with that id, who was never given the role. */
  lemma NumeralNameDiffers(base: Store, r: int, user: int)
    requires Inv(base) && r in base.roles && ',' !in base.roles[r].name && Strip(base.roles[r].name) == Str(user)
    ensures exists db: Store :: Differs(base, db, 0, user, "a", "b")
  {
    var db := base.(users := {user}, links := map[], grants := map[], rules := [WildcardRule(base.roles[r])]);
    assert Inv(db);
    assert Shows(db, 0, db.rules[0], P, Str(user), "*");
    LoadedModel(db, 0, Str(user), "*");
    assert IsPath(ModelOf(db, 0).g, [Str(user)], Str(user), Str(user));
    assert Differs(base, db, 0, user, "a", "b");
  }

  /** Of two names alike up to outer blanks, a wildcard on one answers for holders of the other. */
  lemma AlikeNamesDiffer(base: Store, r: int, s: int)
    requires Inv(base) && r in base.roles && s in base.roles && r != s
    requires ',' !in base.roles[r].name && ',' !in base.roles[s].name
    requires Strip(base.roles[r].name) == Strip(base.roles[s].name)
    ensures exists db: Store :: Differs(base, db, 0, 1, "a", "b")
  {
    var db := Witness(base, r, s);
    WitnessInv(base, r, s);
    AlikeCan(db, base.roles[r], base.roles[s]);
    assert db.rules[1] != WildcardRule(db.roles[s]);
    assert !IsWildcard(db, s);
    hide Inv, Can;
    assert Differs(base, db, 0, 1, "a", "b");
  }

  lemma AlikeCan(db: Store, wildcard: Role, held: Role)
    requires db.rules == [WildcardRule(wildcard), GrantRule(1, held, held.tenant)]
    requires ',' !in wildcard.name && ',' !in held.name && Strip(wildcard.name) == Strip(held.name)
    ensures Can(db, 0, Str(1), "a", "b")
  {
    var name := Strip(wildcard.name);
    assert db.rules[0] in db.rules && db.rules[1] in db.rules;
    StrIsPlain(1);
    assert Shows(db, 0, db.rules[0], P, name, "*");
    assert Shows(db, 0, db.rules[1], G, Str(1), name);
    LoadedModel(db, 0, name, "*");
    LoadedModel(db, 0, Str(1), name);
    assert IsPath(ModelOf(db, 0).g, [Str(1), name], Str(1), name);
  }

  /** A role whose name holds a comma opens nothing to the users who hold it. */
  lemma CommaNameDiffers(base: Store, r: int)
    requires Inv(base) && r in base.roles && ',' in base.roles[r].name
    ensures exists db: Store :: Differs(base, db, 0, 1, "a", "b")
  {
    var db := Witness(base, r, r);
    WitnessInv(base, r, r);
    assert db.rules[0] in db.rules;
    assert HoldsRole(db, 0, 1, r) && IsWildcard(db, r);
    forall sub, perm ensures [sub, perm] !in ModelOf(db, 0).p {
      LoadedModel(db, 0, sub, perm);
    }
    hide Inv, ModelOf;
    assert Differs(base, db, 0, 1, "a", "b");
  }

  lemma {:induction false} StripKeepsColon(s: string)
    requires ':' in s
    ensures ':' in Strip(s)
  {
    if Blank(s[0]) {
      StripKeepsColon(s[1..]);
    } else if Blank(s[|s| - 1]) {
      StripKeepsColon(s[..|s| - 1]);
    }
  }

  /** The given roles and permissions, with some users and nothing that joins them. */
  ghost function Bare(base: Store, users: set<int>): Store {
    base.(users := users, links := map[], grants := map[], rules := [])
  }

  lemma BareInv(base: Store, users: set<int>)
    requires Inv(base)
    ensures Inv(Bare(base, users))
  {
  }

  ghost function Linked(db: Store, l: Link): Store
    requires l.role in db.roles && l.permission in db.permissions
  {
    var tenant := db.roles[l.role].tenant;
    db.(links := db.links[l := tenant],
        rules := WithRule(db.rules, LinkRule(db.roles[l.role], db.permissions[l.permission], tenant)))
  }

  ghost function Granted(db: Store, g: Grant): Store
    requires g.role in db.roles
  {
    var tenant := db.roles[g.role].tenant;
    db.(grants := db.grants[g := tenant], rules := WithRule(db.rules, GrantRule(g.user, db.roles[g.role], tenant)))
  }

  ghost function Opened(db: Store, r: int): Store
    requires r in db.roles
  {
    db.(rules := WithRule(db.rules, WildcardRule(db.roles[r])))
  }

  /** User holds the wildcard role s, and other holds role r. */
  ghost function Passing(base: Store, r: int, s: int, user: int, other: int): Store
    requires r in base.roles && s in base.roles
  {
    Granted(Granted(Opened(Bare(base, {user, other}), s), Grant(user, s)), Grant(other, r))
  }

  lemma PassingInv(base: Store, r: int, s: int, user: int, other: int)
    requires Inv(base) && r in base.roles && s in base.roles
    ensures Inv(Passing(base, r, s, user, other))
  {
    hide Inv;
    BareInv(base, {user, other});
    WildcardKeepsInv(Bare(base, {user, other}), base.roles[s].tenant, s);
    GrantKeepsInv(Opened(Bare(base, {user, other}), s), Grant(user, s));
    GrantKeepsInv(Granted(Opened(Bare(base, {user, other}), s), Grant(user, s)), Grant(other, r));
  }

  lemma PassingRules(base: Store, r: int, s: int, user: int, other: int)
    requires r in base.roles && s in base.roles && r != s && user != other
    ensures
      var db := Passing(base, r, s, user, other);
      && WildcardRule(base.roles[s]) in db.rules && GrantRule(user, base.roles[s], base.roles[s].tenant) in db.rules
      && GrantRule(other, base.roles[r], base.roles[r].tenant) in db.rules
      && (forall rule :: rule in db.rules && rule.ptype == P ==> rule == WildcardRule(base.roles[s]))
      && db.links == map[] && db.users == {user, other} && db.roles == base.roles && db.permissions == base.permissions
      && db.grants.Keys == {Grant(user, s), Grant(other, r)}
  {
  }

  /** A role named like the id of a user passes that user's answers on to its holders: here other holds
      such a role and nothing else, and is answered through the roles of user. */
  lemma NumeralNamePassesOn(base: Store, r: int, s: int, user: int, other: int)
    requires Inv(base) && r in base.roles && s in base.roles && r != s && user != other
    requires ',' !in base.roles[r].name && ',' !in base.roles[s].name && Strip(base.roles[r].name) == Str(user)
    requires base.roles[r].name != base.roles[s].name
    ensures Differs(base, Passing(base, r, s, user, other), 0, other, "a", "b")
    ensures Can(Passing(base, r, s, user, other), 0, Str(other), "a", "b")
  {
    hide Inv, Can, Passing;
    var db := Passing(base, r, s, user, other);
    PassingInv(base, r, s, user, other);
    PassingRules(base, r, s, user, other);
    PassedOn(db, base.roles[r], base.roles[s], user, other);
    assert !RelCan(db, 0, other, PermissionKey("a", "b"));
  }

  lemma PassedOn(db: Store, named: Role, open: Role, user: int, other: int)
    requires WildcardRule(open) in db.rules && GrantRule(user, open, open.tenant) in db.rules
    requires GrantRule(other, named, named.tenant) in db.rules
    requires ',' !in named.name && ',' !in open.name && Strip(named.name) == Str(user)
    ensures Can(db, 0, Str(other), "a", "b")
  {
    var name := Strip(open.name);
    StrIsPlain(user);
    StrIsPlain(other);
    assert Shows(db, 0, WildcardRule(open), P, name, "*");
    assert Shows(db, 0, GrantRule(user, open, open.tenant), G, Str(user), name);
    assert Shows(db, 0, GrantRule(other, named, named.tenant), G, Str(other), Str(user));
    LoadedModel(db, 0, name, "*");
    LoadedModel(db, 0, Str(user), name);
    LoadedModel(db, 0, Str(other), Str(user));
    var g := ModelOf(db, 0).g;
    EdgeIsLink(g, Str(other), Str(user));
    EdgeIsLink(g, Str(user), name);
    LinksCompose(g, Str(other), Str(user), name);
  }

  /** The store in which user 1 holds role r, and r is linked to permission p. */
  ghost function LinkedWitness(base: Store, r: int, p: int): Store
    requires r in base.roles && p in base.permissions
  {
    Granted(Linked(Bare(base, {1}), Link(r, p)), Grant(1, r))
  }

  lemma LinkedWitnessInv(base: Store, r: int, p: int)
    requires Inv(base) && r in base.roles && p in base.permissions && base.roles[r].tenant == base.permissions[p].tenant
    ensures Inv(LinkedWitness(base, r, p))
  {
    hide Inv;
    BareInv(base, {1});
    LinkKeepsInv(Bare(base, {1}), Link(r, p));
    GrantKeepsInv(Linked(Bare(base, {1}), Link(r, p)), Grant(1, r));
  }

  /** A permission whose key has a comma or an outer blank is not opened by a role it is linked to. */
  lemma OddKeyDiffers(base: Store, r: int, p: int)
    requires Inv(base) && r in base.roles && p in base.permissions && base.roles[r].tenant == base.permissions[p].tenant
    requires !Plain(base.permissions[p].key)
    ensures
      var permission := base.permissions[p];
      exists db: Store :: Differs(base, db, 0, 1, permission.resource, permission.action)
  {
    hide Inv, Can, RelCan;
    var db, permission := LinkedWitness(base, r, p), base.permissions[p];
    LinkedWitnessInv(base, r, p);
    KeyHasColon(base, p);
    StripKeepsColon(permission.key);
    OddKeyIsShut(db, permission, base.roles[r]);
    LinkedWitnessOpens(base, r, p);
    assert Differs(base, db, 0, 1, permission.resource, permission.action);
  }

  lemma KeyHasColon(db: Store, p: int)
    requires Inv(db) && p in db.permissions
    ensures db.permissions[p].key == PermissionKey(db.permissions[p].resource, db.permissions[p].action)
    ensures ':' in db.permissions[p].key
  {
    assert Composed(db.permissions[p]);
    assert db.permissions[p].key[|db.permissions[p].resource|] == ':';
  }

  lemma LinkedWitnessOpens(base: Store, r: int, p: int)
    requires r in base.roles && p in base.permissions
    ensures RelCan(LinkedWitness(base, r, p), 0, 1, base.permissions[p].key)
  {
    var db := LinkedWitness(base, r, p);
    assert HoldsRole(db, 0, 1, r) && Link(r, p) in db.links;
    assert IsLinked(db, r, base.permissions[p].key);
  }

  lemma OddKeyIsShut(db: Store, permission: Permission, role: Role)
    requires db.rules == [LinkRule(role, permission, role.tenant), GrantRule(1, role, role.tenant)]
    requires permission.key == PermissionKey(permission.resource, permission.action)
    requires !Plain(permission.key) && ':' in Strip(permission.key)
    ensures !Can(db, 0, Str(1), permission.resource, permission.action)
  {
    assert forall rule :: rule in db.rules && rule.ptype == P ==> rule == LinkRule(role, permission, role.tenant);
    forall sub, perm | perm == "*" || perm == permission.key ensures [sub, perm] !in ModelOf(db, 0).p {
      LoadedModel(db, 0, sub, perm);
    }
  }

  /** Over given roles and permissions, the decisions of all mirrored stores follow the id tables
      exactly when the role names are distinguishable and the keys that roles can be linked to are
      plain. */
  lemma DecisionsFollowTablesIff(base: Store)
    requires Inv(base)
    ensures Distinguishable(base.roles) && PlainKeys(base.roles, base.permissions)
       <==> forall db: Store, tenant: int, user: int, resource: string, action: string ::
              Inv(db) && SameTables(db, base) ==> Follows(db, tenant, user, resource, action)
  {
    hide Inv, Can, RelCan;
    if Distinguishable(base.roles) && PlainKeys(base.roles, base.permissions) {
      forall db: Store, tenant: int, user: int, resource: string, action: string | Inv(db) && SameTables(db, base)
        ensures Follows(db, tenant, user, resource, action)
      {
        CanRefines(db, tenant, user, resource, action);
      }
    } else if r :| r in base.roles && ',' in base.roles[r].name {
      CommaNameDiffers(base, r);
    } else if r :| r in base.roles && Numeral(Strip(base.roles[r].name)) {
      var user: int :| Strip(base.roles[r].name) == Str(user);
      NumeralNameDiffers(base, r, user);
    } else if r, s :| r in base.roles && s in base.roles && Strip(base.roles[r].name) == Strip(base.roles[s].name) && r != s {
      AlikeNamesDiffer(base, r, s);
    } else {
      var r, p :| r in base.roles && p in base.permissions && base.roles[r].tenant == base.permissions[p].tenant
                  && !Plain(base.permissions[p].key);
      OddKeyDiffers(base, r, p);
    }
  }
}
