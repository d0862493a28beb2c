/** What `can` answers in a seeded store. */
module SeedDecisions {
  import opened Prelude
  import opened Strings
  import opened PolicyStore
  import opened PolicyMirror
  import opened Enforcement
  import opened Decisions
  import opened DecisionChanges
  import Seed

  /** The p rules of the store are default rules of the tenant. */
  ghost predicate OnlyDefaults(rules: seq<Rule>, tenant: int, defs: Seed.Defaults) {
    forall rule :: rule in rules && rule.ptype == P ==> rule.tenant == tenant && Seed.Policy(rule.v0, rule.v1) in defs.policies
  }

  /** That is so after a seeding of the empty store, and assigning roles keeps it. */
  lemma FreshlySeeded(db: Store, tenant: int, defs: Seed.Defaults)
    requires Seed.Grown(Empty, db, tenant, defs)
    ensures OnlyDefaults(db.rules, tenant, defs)
  {
  }

  lemma AssigningKeepsDefaults(db: Store, tenant: int, defs: Seed.Defaults, asking: int, subject: string, name: string)
    requires OnlyDefaults(db.rules, tenant, defs) && AssignRole(db, asking, subject, name).Ok?
    ensures OnlyDefaults(AssignRole(db, asking, subject, name).value.rules, tenant, defs)
  {
    hide ParseInt, Filter;
    var after := AssignRole(db, asking, subject, name).value.rules;
    assert forall rule :: rule in after ==> rule in db.rules || rule.ptype == G;
  }

  ghost predicate HoldsNamed(db: Store, tenant: int, user: int, name: string) {
    exists r :: HoldsRole(db, tenant, user, r) && r in db.roles && db.roles[r].name == name
  }

  lemma OpenRoleHasPolicy(db: Store, tenant: int, defs: Seed.Defaults, r: int, key: string)
    requires Inv(db) && OnlyDefaults(db.rules, tenant, defs) && r in db.roles
    ensures IsWildcard(db, r) ==> Seed.Policy(db.roles[r].name, "*") in defs.policies
    ensures IsLinked(db, r, key) ==> Seed.Policy(db.roles[r].name, key) in defs.policies
  {
    hide UniqueNames, UniqueKeys, UniqueResources, IdsBelow, Owned;
    if IsLinked(db, r, key) {
      var p :| Link(r, p) in db.links && p in db.permissions && db.permissions[p].key == key;
      assert LinkRule(db.roles[r], db.permissions[p], db.links[Link(r, p)]) in db.rules;
    }
  }

  lemma PolicyOpensRole(db: Store, tenant: int, r: int, key: string)
    requires Inv(db) && r in db.roles && InScope(tenant, db.roles[r].tenant)
    requires Seed.HasRule(db.rules, tenant, Seed.Policy(db.roles[r].name, key))
    ensures if key == "*" then IsWildcard(db, r) else IsLinked(db, r, key)
  {
    var rule :| rule in db.rules && Matches(tenant, P, db.roles[r].name, key, rule);
    var s := RoleOfRule(db, rule);
    SameName(db, r, s);
    hide UniqueNames, UniqueKeys, UniqueResources, IdsBelow;
    assert Backed(db, rule);
    if key != "*" {
      var l :| l in db.links && rule == LinkRule(db.roles[l.role], db.permissions[l.permission], db.links[l]);
      SameName(db, r, l.role);
      assert l == Link(r, l.permission);
    }
  }

  lemma SameName(db: Store, r: int, s: int)
    requires Inv(db) && r in db.roles && s in db.roles && db.roles[r].name == db.roles[s].name
    ensures r == s
  {
  }

  lemma RoleOpensIff(db: Store, tenant: int, defs: Seed.Defaults, r: int, key: string)
    requires Inv(db) && Seed.Seeded(db, tenant, defs) && OnlyDefaults(db.rules, tenant, defs) && key != "*"
    requires r in db.roles && InScope(tenant, db.roles[r].tenant)
    ensures IsWildcard(db, r) || IsLinked(db, r, key)
       <==> Seed.Policy(db.roles[r].name, "*") in defs.policies || Seed.Policy(db.roles[r].name, key) in defs.policies
  {
    hide Inv, IsWildcard, IsLinked, Seed.HasRule;
    OpenRoleHasPolicy(db, tenant, defs, r, key);
    if Seed.Policy(db.roles[r].name, "*") in defs.policies {
      PolicyOpensRole(db, tenant, r, "*");
    }
    if Seed.Policy(db.roles[r].name, key) in defs.policies {
      PolicyOpensRole(db, tenant, r, key);
    }
  }

  /** In a seeded store with no other rules `can` answers what the default policies say for the names of
      the roles the user holds. */
  lemma SeededDecisions(db: Store, tenant: int, defs: Seed.Defaults, user: int, resource: string, action: string)
    requires Settled(db) && Seed.Seeded(db, tenant, defs) && OnlyDefaults(db.rules, tenant, defs)
    ensures Can(db, tenant, Str(user), resource, action)
       <==> exists name :: HoldsNamed(db, tenant, user, name)
                           && (Seed.Policy(name, "*") in defs.policies || Seed.Policy(name, PermissionKey(resource, action)) in defs.policies)
  {
    hide Inv, Can, IsWildcard, IsLinked, Seed.Seeded, OnlyDefaults, PlainKeys, Distinguishable;
    var key := PermissionKey(resource, action);
    KeyIsNotWildcard(resource, action);
    CanRefines(db, tenant, user, resource, action);
    forall r | HoldsRole(db, tenant, user, r)
      ensures r in db.roles
      ensures IsWildcard(db, r) || IsLinked(db, r, key)
         <==> Seed.Policy(db.roles[r].name, "*") in defs.policies || Seed.Policy(db.roles[r].name, key) in defs.policies
      ensures HoldsNamed(db, tenant, user, db.roles[r].name)
    {
      HeldRoleInScope(db, tenant, user, r);
      RoleOpensIff(db, tenant, defs, r, key);
    }
  }

  lemma HeldRoleInScope(db: Store, tenant: int, user: int, r: int)
    requires Inv(db) && HoldsRole(db, tenant, user, r)
    ensures r in db.roles && InScope(tenant, db.roles[r].tenant)
  {
  }

  // ----- the default roles -----

  function TodoKeys(todo: string): seq<string> {
    [PermissionKey(todo, "create"), PermissionKey(todo, "read"), PermissionKey(todo, "update"), PermissionKey(todo, "delete")]
  }

  lemma DefaultPolicyIff(todo: string, account: string, admin: string, user: string, manager: string, viewer: string,
                         role: string, key: string)
    ensures Seed.Policy(role, key) in Seed.DefaultsFor(todo, account, admin, user, manager, viewer).policies
       <==> || (role == admin && key == "*")
            || ((role == user || role == manager) && (key in TodoKeys(todo) || key == PermissionKey(account, "me")))
            || (role == viewer && (key == PermissionKey(todo, "read") || key == PermissionKey(account, "me")))
  {
    hide PermissionKey;
  }

  lemma RoleNamesDiffer(name: string)
    ensures name == "admin" ==> |name| == 5
    ensures name == "user" ==> |name| == 4
    ensures name == "manager" ==> |name| == 7
    ensures name == "viewer" ==> |name| == 6
  {
  }

  /** Admins may do everything; users and managers may do everything to todos and see themselves; viewers
      may read todos and see themselves; holders of no default role may do nothing. */
  lemma DefaultAnswers(db: Store, tenant: int, user: int, r: int, resource: string, action: string)
    requires Settled(db) && Seed.Seeded(db, tenant, Seed.DEFAULTS) && OnlyDefaults(db.rules, tenant, Seed.DEFAULTS)
    requires HoldsRole(db, tenant, user, r) && (forall s :: HoldsRole(db, tenant, user, s) ==> s == r) && r in db.roles
    ensures
      var key, name := PermissionKey(resource, action), db.roles[r].name;
      var may := Can(db, tenant, Str(user), resource, action);
      && (name == "admin" ==> may)
      && (name == "user" || name == "manager" ==> (may <==> key in TodoKeys("todo") || key == PermissionKey("user", "me")))
      && (name == "viewer" ==> (may <==> key == PermissionKey("todo", "read") || key == PermissionKey("user", "me")))
      && (name != "admin" && name != "user" && name != "manager" && name != "viewer" ==> !may)
  {
    var key, name := PermissionKey(resource, action), db.roles[r].name;
    hide Inv, Settled, Can, Seed.Seeded, OnlyDefaults, PermissionKey, TodoKeys;
    SeededDecisions(db, tenant, Seed.DEFAULTS, user, resource, action);
    assert forall n :: HoldsNamed(db, tenant, user, n) <==> n == name;
    DefaultPolicyIff("todo", "user", "admin", "user", "manager", "viewer", name, "*");
    DefaultPolicyIff("todo", "user", "admin", "user", "manager", "viewer", name, key);
    RoleNamesDiffer(name);
    KeyIsNotWildcard(resource, action);
    StarIsNoDefault("todo", "user");
  }

  lemma StarIsNoDefault(todo: string, account: string)
    ensures "*" !in TodoKeys(todo) && "*" != PermissionKey(account, "me") && "*" != PermissionKey(todo, "read")
  {
    KeyIsNotWildcard(todo, "create");
    KeyIsNotWildcard(todo, "read");
    KeyIsNotWildcard(todo, "update");
    KeyIsNotWildcard(todo, "delete");
    KeyIsNotWildcard(account, "me");
  }

  /** No role loses or gains an answer when a role or a permission is created or a user registers. */
  lemma CreatingChangesNoDecision(db: Store, tenant: int, op: Op, asking: int, subject: string, resource: string, action: string)
    requires op.CreateRoleOp? || op.CreatePermissionOp? || op.CreateResourceOp? || op.RegisterUserOp?
    ensures Can(Step(db, tenant, op), asking, subject, resource, action) <==> Can(db, asking, subject, resource, action)
  {
    assert Step(db, tenant, op).rules == db.rules;
  }
}
