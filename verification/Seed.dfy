/** Seeding the default resources, roles, permissions, links and rules. */
module Seed {
  import opened Prelude
  import opened PolicyStore
  import opened PolicyMirror
  import opened PolicyRepository

  datatype Policy = Policy(role: string, key: string)

  datatype Defaults = Defaults(resources: seq<string>, roles: seq<string>, policies: seq<Policy>)

  /** key.split(":", 1) */
  function SplitKey(key: string): (string, string)
    requires ':' in key
  {
    if key[0] == ':' then ("", key[1..])
    else
      var (resource, action) := SplitKey(key[1..]);
      ([key[0]] + resource, action)
  }

  lemma {:induction false} SplitKeyIsInverse(key: string)
    requires ':' in key
    ensures PermissionKey(SplitKey(key).0, SplitKey(key).1) == key
  {
    if key[0] != ':' {
      SplitKeyIsInverse(key[1..]);
    }
  }

  lemma {:induction false} SplitKeyPrefix(resource: string, rest: string)
    requires ':' !in resource
    ensures SplitKey(resource + ":" + rest) == (resource, rest)
  {
    var key := resource + ":" + rest;
    if resource == "" {
      assert key[1..] == rest;
    } else {
      SplitKeyPrefix(resource[1..], rest);
      assert key[1..] == resource[1..] + ":" + rest;
      assert [resource[0]] + resource[1..] == resource;
    }
  }

  /** A default rule is for a default role, and opens everything or a permission on a default
      resource. */
  predicate SoundPolicy(defs: Defaults, policy: Policy) {
    && policy.role in defs.roles
    && (policy.key == "*" || (':' in policy.key && SplitKey(policy.key).0 in defs.resources))
  }

  predicate WellFormed(defs: Defaults) {
    forall policy :: policy in defs.policies ==> SoundPolicy(defs, policy)
  }

  function Allow(role: string, resource: string, action: string): Policy {
    Policy(role, PermissionKey(resource, action))
  }

  function DefaultsFor(todo: string, account: string, admin: string, user: string, manager: string, viewer: string): Defaults {
    Defaults(
      [todo, account, "role", "permission"],
      [admin, user, manager, viewer],
      [ Policy(admin, "*"),
        Allow(user, todo, "create"), Allow(user, todo, "read"), Allow(user, todo, "update"),
        Allow(user, todo, "delete"), Allow(user, account, "me"),
        Allow(manager, todo, "create"), Allow(manager, todo, "read"), Allow(manager, todo, "update"),
        Allow(manager, todo, "delete"), Allow(manager, account, "me"),
        Allow(viewer, todo, "read"), Allow(viewer, account, "me") ])
  }

  const DEFAULTS := DefaultsFor("todo", "user", "admin", "user", "manager", "viewer")

  lemma AllowIsSound(defs: Defaults, role: string, resource: string, action: string)
    requires role in defs.roles && resource in defs.resources && ':' !in resource
    ensures SoundPolicy(defs, Allow(role, resource, action))
  {
    SplitKeyPrefix(resource, action);
  }

  lemma DefaultsForAreWellFormed(todo: string, account: string, admin: string, user: string, manager: string, viewer: string)
    requires ':' !in todo && ':' !in account
    ensures WellFormed(DefaultsFor(todo, account, admin, user, manager, viewer))
  {
    hide Allow, SoundPolicy;
    var defs := DefaultsFor(todo, account, admin, user, manager, viewer);
    assert defs.roles[0] == admin && defs.roles[1] == user && defs.roles[2] == manager && defs.roles[3] == viewer;
    assert defs.resources[0] == todo && defs.resources[1] == account;
    forall role: string, resource: string, action: string | role in defs.roles && (resource == todo || resource == account)
      ensures SoundPolicy(defs, Allow(role, resource, action))
    {
      AllowIsSound(defs, role, resource, action);
    }
    WildcardIsSound(defs, admin);
  }

  lemma WildcardIsSound(defs: Defaults, role: string)
    requires role in defs.roles
    ensures SoundPolicy(defs, Policy(role, "*"))
  {
  }

  lemma DefaultsAreWellFormed()
    ensures WellFormed(DEFAULTS)
  {
    DefaultsForAreWellFormed("todo", "user", "admin", "user", "manager", "viewer");
  }

  // ----- what a seeded store is -----

  ghost predicate ResourceAt(resources: map<int, Resource>, tenant: int, key: string, r: int) {
    r in resources && resources[r].key == key && InScope(tenant, resources[r].tenant)
  }

  ghost predicate RoleAt(roles: map<int, Role>, tenant: int, name: string, r: int) {
    r in roles && roles[r].name == name && InScope(tenant, roles[r].tenant)
  }

  ghost predicate PermissionAt(permissions: map<int, Permission>, tenant: int, key: string, p: int) {
    p in permissions && permissions[p].key == key && InScope(tenant, permissions[p].tenant)
  }

  ghost predicate LinkAt(links: map<Link, int>, roles: map<int, Role>, permissions: map<int, Permission>, tenant: int, policy: Policy, l: Link) {
    && l in links && InScope(tenant, links[l])
    && RoleAt(roles, tenant, policy.role, l.role)
    && PermissionAt(permissions, tenant, policy.key, l.permission)
  }

  ghost predicate HasResource(resources: map<int, Resource>, tenant: int, key: string) {
    exists r :: ResourceAt(resources, tenant, key, r)
  }

  ghost predicate HasRole(roles: map<int, Role>, tenant: int, name: string) {
    exists r :: RoleAt(roles, tenant, name, r)
  }

  ghost predicate HasLink(links: map<Link, int>, roles: map<int, Role>, permissions: map<int, Permission>, tenant: int, policy: Policy) {
    exists l :: LinkAt(links, roles, permissions, tenant, policy, l)
  }

  ghost predicate HasRule(rules: seq<Rule>, tenant: int, policy: Policy) {
    exists rule :: rule in rules && Matches(tenant, P, policy.role, policy.key, rule)
  }

  ghost predicate Seeded(db: Store, tenant: int, defs: Defaults) {
    && (forall k :: k in defs.resources ==> HasResource(db.resources, tenant, k))
    && (forall n :: n in defs.roles ==> HasRole(db.roles, tenant, n))
    && (forall policy :: policy in defs.policies ==> HasRule(db.rules, tenant, policy))
    && (forall policy :: policy in defs.policies && policy.key != "*" ==> HasLink(db.links, db.roles, db.permissions, tenant, policy))
  }

  ghost predicate DefaultKey(defs: Defaults, key: string) {
    exists policy :: policy in defs.policies && policy.key == key
  }

  /** Names and keys are unique across tenants, so a default held by another tenant is in the way. */
  ghost predicate FreeElsewhere(db: Store, tenant: int, defs: Defaults) {
    && (forall r :: r in db.resources && db.resources[r].key in defs.resources ==> db.resources[r].tenant == tenant)
    && (forall r :: r in db.roles && db.roles[r].name in defs.roles ==> db.roles[r].tenant == tenant)
    && (forall p :: p in db.permissions && DefaultKey(defs, db.permissions[p].key) ==> db.permissions[p].tenant == tenant)
  }

  /** When seeding goes through. Without a tenant nothing can be inserted, so nothing may be missing. */
  ghost predicate CanSeed(db: Store, tenant: int, defs: Defaults) {
    if tenant == 0 then Seeded(db, tenant, defs) else FreeElsewhere(db, tenant, defs)
  }

  /** Every default rule of a seeded store is there exactly once. */
  lemma SeededRulesAreUnique(db: Store, tenant: int, defs: Defaults, policy: Policy)
    requires Inv(db) && Seeded(db, tenant, defs) && policy in defs.policies
    ensures |Filter(db.rules, rule => Matches(tenant, P, policy.role, policy.key, rule))| == 1
  {
    AtMostOneMatch(db, tenant, P, policy.role, policy.key);
    var rule :| rule in db.rules && Matches(tenant, P, policy.role, policy.key, rule);
    FilterMember(db.rules, rule => Matches(tenant, P, policy.role, policy.key, rule), rule);
  }

  /** The seeder is wired without a tenant, so on an empty store it raises; with one it goes through. */
  lemma EmptyStoreNeedsTenant(tenant: int)
    ensures Inv(Empty) && (CanSeed(Empty, tenant, DEFAULTS) <==> tenant != 0)
  {
    assert DEFAULTS.resources[0] in DEFAULTS.resources;
    assert !HasResource(Empty.resources, 0, DEFAULTS.resources[0]);
  }

  // ----- what the run knows, and how far it has got -----

  ghost predicate KnowsResources(db: map<int, Resource>, tenant: int, known: set<string>) {
    forall k :: k in known <==> HasResource(db, tenant, k)
  }

  ghost predicate KnowsRoles(db: map<int, Role>, tenant: int, known: map<string, int>) {
    && (forall n :: n in known ==> RoleAt(db, tenant, n, known[n]))
    && (forall n, r :: RoleAt(db, tenant, n, r) ==> n in known)
  }

  ghost predicate KnowsPermissions(db: map<int, Permission>, tenant: int, known: map<string, int>) {
    && (forall k :: k in known ==> PermissionAt(db, tenant, k, known[k]))
    && (forall k, p :: PermissionAt(db, tenant, k, p) ==> k in known)
  }

  ghost predicate KnowsLinks(db: Store, tenant: int, known: set<Policy>) {
    forall policy :: policy in known <==> HasLink(db.links, db.roles, db.permissions, tenant, policy)
  }

  /** The snapshot of the rules may be stale: it lists rules that are there, not all of them. */
  ghost predicate KnowsRules(db: seq<Rule>, tenant: int, known: set<Policy>) {
    forall policy :: policy in known ==> HasRule(db, tenant, policy)
  }

  ghost predicate NewResources(before: map<int, Resource>, db: map<int, Resource>, tenant: int, defs: Defaults) {
    Extends(before, db)
    && forall r :: r in db && r !in before ==> db[r].tenant == tenant && db[r].key in defs.resources
  }

  ghost predicate NewRoles(before: map<int, Role>, db: map<int, Role>, tenant: int, defs: Defaults) {
    Extends(before, db)
    && forall r :: r in db && r !in before ==> db[r].tenant == tenant && db[r].name in defs.roles
  }

  ghost predicate NewPermissions(before: map<int, Permission>, db: map<int, Permission>, tenant: int, defs: Defaults) {
    Extends(before, db)
    && forall p :: p in db && p !in before ==> db[p].tenant == tenant && DefaultKey(defs, db[p].key)
  }

  ghost predicate NewRules(before: seq<Rule>, db: seq<Rule>, tenant: int, defs: Defaults) {
    before <= db
    && forall rule :: rule in db && rule !in before ==>
         rule.tenant == tenant && rule.ptype == P && Policy(rule.v0, rule.v1) in defs.policies
  }

  /** Nothing was taken away, and what was added belongs to the tenant and is a default. */
  ghost predicate Grown(before: Store, db: Store, tenant: int, defs: Defaults) {
    && (tenant == 0 ==> db == before)
    && db.users == before.users && db.grants == before.grants && Extends(before.links, db.links)
    && NewResources(before.resources, db.resources, tenant, defs)
    && NewRoles(before.roles, db.roles, tenant, defs)
    && NewPermissions(before.permissions, db.permissions, tenant, defs)
    && NewRules(before.rules, db.rules, tenant, defs)
  }

  // ----- one step of each loop -----

  lemma ResourceStep(before: Store, db: Store, tenant: int, defs: Defaults, key: string, known: set<string>)
    requires Inv(db) && Grown(before, db, tenant, defs) && key in defs.resources
    requires KnowsResources(db.resources, tenant, known) && key !in known
    ensures
      match CreateResource(db, tenant, key)
      case Ok(after) =>
        && Inv(after) && Grown(before, after, tenant, defs)
        && after == db.(resources := after.resources, nextResource := after.nextResource)
        && KnowsResources(after.resources, tenant, known + {key})
        && |after.resources| == |db.resources| + 1
      case Err(e) => e == IntegrityError && !CanSeed(before, tenant, defs)
  {
    hide CanSeed, KnowsResources, Constraints, Owned, Mirrored, Grown;
    match CreateResource(db, tenant, key)
    case Ok(after) =>
      CreateResourceKeepsInv(db, tenant, key);
      GrownByResource(before, db, tenant, defs, key);
      KnowsNewResource(db, tenant, key, known);
    case Err(_) =>
      ResourceFails(before, db, tenant, defs, key, known);
  }

  lemma GrownByResource(before: Store, db: Store, tenant: int, defs: Defaults, key: string)
    requires Constraints(db) && Grown(before, db, tenant, defs) && key in defs.resources
    requires CreateResource(db, tenant, key).Ok?
    ensures Grown(before, CreateResource(db, tenant, key).value, tenant, defs)
    ensures |CreateResource(db, tenant, key).value.resources| == |db.resources| + 1
  {
    hide UniqueNames, UniqueKeys, UniqueResources, LinksRefer, GrantsRefer, NewRoles, NewPermissions, NewRules;
    assert db.nextResource !in db.resources;
  }

  lemma KnowsNewResource(db: Store, tenant: int, key: string, known: set<string>)
    requires Constraints(db) && KnowsResources(db.resources, tenant, known) && CreateResource(db, tenant, key).Ok?
    ensures KnowsResources(CreateResource(db, tenant, key).value.resources, tenant, known + {key})
  {
    hide UniqueNames, UniqueKeys, LinksRefer, GrantsRefer;
    var after := CreateResource(db, tenant, key).value;
    assert ResourceAt(after.resources, tenant, key, db.nextResource);
    assert forall k, r :: k != key ==> (ResourceAt(after.resources, tenant, k, r) <==> ResourceAt(db.resources, tenant, k, r));
  }

  lemma ResourceFails(before: Store, db: Store, tenant: int, defs: Defaults, key: string, known: set<string>)
    requires Grown(before, db, tenant, defs) && key in defs.resources
    requires KnowsResources(db.resources, tenant, known) && key !in known && CreateResource(db, tenant, key).Err?
    ensures !CanSeed(before, tenant, defs)
  {
    hide NewRoles, NewPermissions, NewRules;
    if tenant != 0 {
      var r :| r in db.resources && db.resources[r].key == key;
      assert !ResourceAt(db.resources, tenant, key, r);
    } else {
      assert !HasResource(before.resources, tenant, key);
    }
  }

  lemma RoleStep(before: Store, db: Store, tenant: int, defs: Defaults, name: string, known: map<string, int>)
    requires Inv(db) && Grown(before, db, tenant, defs) && name in defs.roles
    requires KnowsRoles(db.roles, tenant, known) && name !in known
    ensures
      match CreateRole(db, tenant, name)
      case Ok(after) =>
        && Inv(after) && Grown(before, after, tenant, defs)
        && after == db.(roles := after.roles, nextRole := after.nextRole)
        && KnowsRoles(after.roles, tenant, known[name := db.nextRole]) && Extends(db.roles, after.roles)
        && |after.roles| == |db.roles| + 1
      case Err(e) => e == IntegrityError && !CanSeed(before, tenant, defs)
  {
    hide CanSeed, KnowsRoles, Constraints, Owned, Mirrored, Grown;
    match CreateRole(db, tenant, name)
    case Ok(after) =>
      CreateRoleKeepsInv(db, tenant, name);
      GrownByRole(before, db, tenant, defs, name);
      KnowsNewRole(db, tenant, name, known);
    case Err(_) =>
      RoleFails(before, db, tenant, defs, name, known);
  }

  lemma GrownByRole(before: Store, db: Store, tenant: int, defs: Defaults, name: string)
    requires Constraints(db) && Grown(before, db, tenant, defs) && name in defs.roles
    requires CreateRole(db, tenant, name).Ok?
    ensures Grown(before, CreateRole(db, tenant, name).value, tenant, defs)
    ensures |CreateRole(db, tenant, name).value.roles| == |db.roles| + 1
    ensures Extends(db.roles, CreateRole(db, tenant, name).value.roles)
  {
    assert db.nextRole !in db.roles;
  }

  lemma KnowsNewRole(db: Store, tenant: int, name: string, known: map<string, int>)
    requires Constraints(db) && KnowsRoles(db.roles, tenant, known) && CreateRole(db, tenant, name).Ok?
    ensures KnowsRoles(CreateRole(db, tenant, name).value.roles, tenant, known[name := db.nextRole])
  {
    var after := CreateRole(db, tenant, name).value;
    assert RoleAt(after.roles, tenant, name, db.nextRole);
    assert forall n, r :: n != name ==> (RoleAt(after.roles, tenant, n, r) <==> RoleAt(db.roles, tenant, n, r));
  }

  lemma RoleFails(before: Store, db: Store, tenant: int, defs: Defaults, name: string, known: map<string, int>)
    requires Inv(db) && Grown(before, db, tenant, defs) && name in defs.roles
    requires KnowsRoles(db.roles, tenant, known) && name !in known && CreateRole(db, tenant, name).Err?
    ensures !CanSeed(before, tenant, defs)
  {
    hide Inv;
    if tenant != 0 {
      var r :| r in db.roles && db.roles[r].name == name;
      assert !RoleAt(db.roles, tenant, name, r);
    } else {
      assert !HasRole(before.roles, tenant, name);
    }
  }

  /** The resource of a default key is there by now, so creating the permission creates nothing else. */
  lemma PermissionCreated(db: Store, tenant: int, key: string)
    requires ':' in key && HasResource(db.resources, tenant, SplitKey(key).0)
    ensures
      var (resource, action) := SplitKey(key);
      match CreatePermission(db, tenant, resource, action)
      case Ok(after) =>
        && after == db.(permissions := after.permissions, nextPermission := db.nextPermission + 1)
        && (exists id :: after.permissions == db.permissions[db.nextPermission := Permission(key, resource, action, id, tenant)])
        && tenant != 0
      case Err(e) => e == IntegrityError && (tenant == 0 || KeyTaken(db, key, db.nextPermission))
  {
    var (resource, action) := SplitKey(key);
    SplitKeyIsInverse(key);
    var r :| ResourceAt(db.resources, tenant, resource, r);
    assert ResourceKeyed(db, tenant, resource, r);
  }

  lemma PermissionStep(before: Store, db: Store, tenant: int, defs: Defaults, key: string, known: map<string, int>)
    requires Inv(db) && Grown(before, db, tenant, defs) && DefaultKey(defs, key) && key != "*"
    requires ':' in key && HasResource(db.resources, tenant, SplitKey(key).0)
    requires KnowsPermissions(db.permissions, tenant, known) && key !in known
    ensures
      match CreatePermission(db, tenant, SplitKey(key).0, SplitKey(key).1)
      case Ok(after) =>
        && Inv(after) && Grown(before, after, tenant, defs)
        && after == db.(permissions := after.permissions, nextPermission := after.nextPermission)
        && KnowsPermissions(after.permissions, tenant, known[key := db.nextPermission])
        && |after.permissions| == |db.permissions| + 1
      case Err(e) => e == IntegrityError && !CanSeed(before, tenant, defs)
  {
    hide Constraints, Owned, Mirrored, Grown, CreatePermission, CanSeed, KnowsPermissions;
    PermissionCreated(db, tenant, key);
    match CreatePermission(db, tenant, SplitKey(key).0, SplitKey(key).1)
    case Ok(after) =>
      CreatePermissionKeepsInv(db, tenant, SplitKey(key).0, SplitKey(key).1);
      PermissionKnown(before, db, after, tenant, defs, key, known);
    case Err(_) =>
      PermissionFails(before, db, tenant, defs, key, known);
  }

  lemma PermissionKnown(before: Store, db: Store, after: Store, tenant: int, defs: Defaults, key: string,
                        known: map<string, int>)
    requires Constraints(db) && Grown(before, db, tenant, defs) && DefaultKey(defs, key) && tenant != 0
    requires KnowsPermissions(db.permissions, tenant, known)
    requires db.nextPermission in after.permissions
    requires after.permissions[db.nextPermission].key == key && after.permissions[db.nextPermission].tenant == tenant
    requires after == db.(permissions := db.permissions[db.nextPermission := after.permissions[db.nextPermission]],
                          nextPermission := after.nextPermission)
    ensures Grown(before, after, tenant, defs) && |after.permissions| == |db.permissions| + 1
    ensures KnowsPermissions(after.permissions, tenant, known[key := db.nextPermission])
  {
    FreshPermission(db);
    hide Constraints, UniqueNames, UniqueKeys, UniqueResources;
    KnowsNewPermission(db.permissions, after.permissions, tenant, db.nextPermission, key, known);
    hide KnowsPermissions;
  }

  lemma KnowsNewPermission(permissions: map<int, Permission>, after: map<int, Permission>, tenant: int, id: int, key: string,
                           known: map<string, int>)
    requires KnowsPermissions(permissions, tenant, known) && id !in permissions && id in after
    requires after == permissions[id := after[id]] && after[id].key == key && after[id].tenant == tenant
    ensures KnowsPermissions(after, tenant, known[key := id])
  {
    assert PermissionAt(after, tenant, key, id);
    assert forall k, p :: k != key ==> (PermissionAt(after, tenant, k, p) <==> PermissionAt(permissions, tenant, k, p));
  }

  lemma PermissionFails(before: Store, db: Store, tenant: int, defs: Defaults, key: string, known: map<string, int>)
    requires Constraints(db) && Grown(before, db, tenant, defs) && DefaultKey(defs, key) && key != "*"
    requires KnowsPermissions(db.permissions, tenant, known) && key !in known
    requires tenant == 0 || KeyTaken(db, key, db.nextPermission)
    ensures !CanSeed(before, tenant, defs)
  {
    if tenant != 0 {
      var p :| p in db.permissions && p != db.nextPermission && db.permissions[p].key == key;
      assert !PermissionAt(db.permissions, tenant, key, p);
    } else {
      var policy :| policy in defs.policies && policy.key == key;
      assert forall l :: !LinkAt(before.links, before.roles, before.permissions, tenant, policy, l);
    }
  }

  lemma LinkStep(before: Store, db: Store, tenant: int, defs: Defaults, policy: Policy, r: int, p: int, known: set<Policy>)
    requires Inv(db) && Grown(before, db, tenant, defs) && policy in defs.policies && policy.key != "*"
    requires RoleAt(db.roles, tenant, policy.role, r) && PermissionAt(db.permissions, tenant, policy.key, p)
    requires KnowsLinks(db, tenant, known) && policy !in known
    ensures
      match AssignPermission(db, tenant, r, p)
      case Ok(after) =>
        && Inv(after) && Grown(before, after, tenant, defs)
        && after == db.(links := after.links, rules := after.rules)
        && KnowsLinks(after, tenant, known + {policy})
        && |after.links| == |db.links| + 1 && db.rules <= after.rules
      case Err(e) => e == IntegrityError && !CanSeed(before, tenant, defs)
  {
    hide Constraints, Owned, Mirrored, Grown, AssignPermission, CanSeed, KnowsLinks;
    match AssignPermission(db, tenant, r, p)
    case Ok(after) =>
      AssignPermissionEffect(db, tenant, r, p);
      LinkKeepsInv(db, Link(r, p));
      LinkKnown(db, after, tenant, policy, r, p, known);
      LinkIsNew(db, tenant, policy, r, p, known);
      GrownByLink(before, db, after, tenant, defs, policy, Link(r, p));
    case Err(_) =>
      LinkFails(before, db, tenant, defs, policy, r, p, known);
  }

  lemma GrownByLink(before: Store, db: Store, after: Store, tenant: int, defs: Defaults, policy: Policy, l: Link)
    requires Grown(before, db, tenant, defs) && policy in defs.policies && tenant != 0 && l !in db.links
    requires after == db.(links := db.links[l := tenant], rules := WithRule(db.rules, Rule(P, policy.role, policy.key, tenant)))
    ensures Grown(before, after, tenant, defs) && |after.links| == |db.links| + 1
  {
    NewRulesWith(before.rules, db.rules, tenant, defs, policy);
    hide NewResources, NewRoles, NewPermissions, NewRules;
  }

  lemma NewRulesWith(before: seq<Rule>, rules: seq<Rule>, tenant: int, defs: Defaults, policy: Policy)
    requires NewRules(before, rules, tenant, defs) && policy in defs.policies
    ensures NewRules(before, WithRule(rules, Rule(P, policy.role, policy.key, tenant)), tenant, defs)
  {
  }

  lemma LinkIsNew(db: Store, tenant: int, policy: Policy, r: int, p: int, known: set<Policy>)
    requires Inv(db) && KnowsLinks(db, tenant, known) && policy !in known && AssignPermission(db, tenant, r, p).Ok?
    requires RoleAt(db.roles, tenant, policy.role, r) && PermissionAt(db.permissions, tenant, policy.key, p)
    ensures Link(r, p) !in db.links && tenant != 0
  {
    hide UniqueNames, UniqueKeys, UniqueResources, IdsBelow, Mirrored;
    assert !LinkAt(db.links, db.roles, db.permissions, tenant, policy, Link(r, p));
  }

  lemma LinkFails(before: Store, db: Store, tenant: int, defs: Defaults, policy: Policy, r: int, p: int, known: set<Policy>)
    requires Inv(db) && Grown(before, db, tenant, defs) && policy in defs.policies && policy.key != "*"
    requires RoleAt(db.roles, tenant, policy.role, r) && PermissionAt(db.permissions, tenant, policy.key, p)
    requires KnowsLinks(db, tenant, known) && policy !in known && AssignPermission(db, tenant, r, p).Err?
    ensures AssignPermission(db, tenant, r, p).error == IntegrityError && !CanSeed(before, tenant, defs)
  {
    hide UniqueNames, UniqueKeys, UniqueResources, IdsBelow, NewResources, NewPermissions, NewRoles, NewRules;
    assert !LinkAt(db.links, db.roles, db.permissions, tenant, policy, Link(r, p));
    if tenant != 0 {
      AddPolicyEffect(db, db.(links := db.links[Link(r, p) := tenant]), tenant, P, policy.role, policy.key);
    }
  }

  lemma LinkKnown(db: Store, after: Store, tenant: int, policy: Policy, r: int, p: int, known: set<Policy>)
    requires Constraints(db) && KnowsLinks(db, tenant, known)
    requires RoleAt(db.roles, tenant, policy.role, r) && PermissionAt(db.permissions, tenant, policy.key, p)
    requires after.roles == db.roles && after.permissions == db.permissions
    requires after.links == db.links[Link(r, p) := db.roles[r].tenant]
    ensures KnowsLinks(after, tenant, known + {policy})
  {
    assert LinkAt(after.links, after.roles, after.permissions, tenant, policy, Link(r, p));
    forall q ensures q in known + {policy} <==> HasLink(after.links, after.roles, after.permissions, tenant, q) {
      if HasLink(db.links, db.roles, db.permissions, tenant, q) {
        var l :| LinkAt(db.links, db.roles, db.permissions, tenant, q, l);
        assert LinkAt(after.links, after.roles, after.permissions, tenant, q, l);
      }
      if HasLink(after.links, after.roles, after.permissions, tenant, q) && q != policy {
        var l :| LinkAt(after.links, after.roles, after.permissions, tenant, q, l);
        assert l == Link(l.role, l.permission);
        assert LinkAt(db.links, db.roles, db.permissions, tenant, q, l);
      }
    }
  }

  lemma RuleStep(before: Store, db: Store, tenant: int, defs: Defaults, policy: Policy)
    requires Inv(db) && Grown(before, db, tenant, defs) && policy in defs.policies
    requires HasRole(db.roles, tenant, policy.role)
    requires policy.key != "*" ==> HasLink(db.links, db.roles, db.permissions, tenant, policy)
    ensures
      match AddPolicy(db, tenant, P, policy.role, policy.key)
      case Ok(after) =>
        && Inv(after) && Grown(before, after, tenant, defs)
        && after == db.(rules := after.rules) && db.rules <= after.rules
        && HasRule(after.rules, tenant, policy)
      case Err(e) => e == IntegrityError && !CanSeed(before, tenant, defs)
  {
    AddPolicyEffect(db, db, tenant, P, policy.role, policy.key);
    hide Inv, NewResources, NewRoles, NewPermissions, HasRole, HasLink, CanSeed;
    var rule := Rule(P, policy.role, policy.key, tenant);
    if tenant != 0 {
      DefaultRuleKeepsInv(db, tenant, policy);
      assert Matches(tenant, P, policy.role, policy.key, rule);
    } else if AddPolicy(db, tenant, P, policy.role, policy.key).Err? {
      RuleMissing(db, tenant, policy);
      NotSeeded(db, tenant, defs, policy);
    }
  }

  lemma NotSeeded(db: Store, tenant: int, defs: Defaults, policy: Policy)
    requires tenant == 0 && policy in defs.policies && !HasRule(db.rules, tenant, policy)
    ensures !CanSeed(db, tenant, defs)
  {
  }

  /** The rule of a default has a wildcard or a link behind it. */
  lemma DefaultRuleKeepsInv(db: Store, tenant: int, policy: Policy)
    requires Inv(db) && tenant != 0 && HasRole(db.roles, tenant, policy.role)
    requires policy.key != "*" ==> HasLink(db.links, db.roles, db.permissions, tenant, policy)
    ensures Inv(db.(rules := WithRule(db.rules, Rule(P, policy.role, policy.key, tenant))))
  {
    var rule := Rule(P, policy.role, policy.key, tenant);
    if policy.key == "*" {
      var r :| RoleAt(db.roles, tenant, policy.role, r);
      assert rule == WildcardRule(db.roles[r]);
      WildcardKeepsInv(db, tenant, r);
    } else {
      hide UniqueNames, UniqueKeys, UniqueResources, IdsBelow;
      var l :| LinkAt(db.links, db.roles, db.permissions, tenant, policy, l);
      assert rule == LinkRule(db.roles[l.role], db.permissions[l.permission], db.links[l]);
      assert WithRule(db.rules, rule) == db.rules;
    }
  }

  lemma RuleMissing(db: Store, tenant: int, policy: Policy)
    requires AddPolicy(db, tenant, P, policy.role, policy.key).Err? && Inv(db)
    ensures !HasRule(db.rules, tenant, policy)
  {
    var keep := rule => Matches(tenant, P, policy.role, policy.key, rule);
    AtMostOneMatch(db, tenant, P, policy.role, policy.key);
    forall rule {
      FilterMember(db.rules, keep, rule);
    }
  }

  /** A run that went through shows that no other tenant held a default. */
  lemma SeededWasFree(before: Store, db: Store, tenant: int, defs: Defaults)
    requires Inv(before) && Inv(db) && Grown(before, db, tenant, defs) && WellFormed(defs)
    requires Seeded(db, tenant, defs)
    ensures CanSeed(before, tenant, defs)
  {
    if tenant != 0 {
      hide Owned, IdsBelow;
      forall r | r in before.resources && before.resources[r].key in defs.resources ensures before.resources[r].tenant == tenant {
        var s :| ResourceAt(db.resources, tenant, before.resources[r].key, s);
      }
      forall r | r in before.roles && before.roles[r].name in defs.roles ensures before.roles[r].tenant == tenant {
        var s :| RoleAt(db.roles, tenant, before.roles[r].name, s);
      }
      forall p | p in before.permissions && DefaultKey(defs, before.permissions[p].key)
        ensures before.permissions[p].tenant == tenant
      {
        var policy :| policy in defs.policies && policy.key == before.permissions[p].key;
        assert db.permissions[p].key != "*";
        var l :| LinkAt(db.links, db.roles, db.permissions, tenant, policy, l);
      }
    }
  }

  // ----- the run -----

  datatype Counters = Counters(resources: int, roles: int, permissions: int, links: int, policies: int)

  method SeedResources(repo: Repository, defs: Defaults, ghost before: Store, existing: set<string>)
    returns (r: Result<int>)
    requires Inv(repo.State()) && Grown(before, repo.State(), repo.tenant, defs)
    requires KnowsResources(repo.resources, repo.tenant, existing)
    modifies repo
    ensures r.Err? ==> r.error == IntegrityError && !CanSeed(before, repo.tenant, defs)
    ensures r.Ok? ==>
      && Inv(repo.State()) && Grown(before, repo.State(), repo.tenant, defs)
      && repo.State() == old(repo.State()).(resources := repo.resources, nextResource := repo.nextResource)
      && r.value == |repo.resources| - |old(repo.resources)|
      && (forall k :: k in defs.resources ==> HasResource(repo.resources, repo.tenant, k))
      && ((forall k :: k in defs.resources ==> k in existing) ==> repo.State() == old(repo.State()))
  {
    hide Constraints, Owned, Mirrored, Grown, CanSeed, CreateResource;
    var known, created := existing, 0;
    for i := 0 to |defs.resources|
      invariant Inv(repo.State()) && Grown(before, repo.State(), repo.tenant, defs)
      invariant repo.State() == old(repo.State()).(resources := repo.resources, nextResource := repo.nextResource)
      invariant created == |repo.resources| - |old(repo.resources)|
      invariant KnowsResources(repo.resources, repo.tenant, known) && existing <= known
      invariant forall j :: 0 <= j < i ==> defs.resources[j] in known
      invariant (forall k :: k in defs.resources ==> k in existing) ==> repo.State() == old(repo.State())
    {
      var key := defs.resources[i];
      if key !in known {
        ResourceStep(before, repo.State(), repo.tenant, defs, key, known);
        var id := repo.CreateResource(key);
        if id.Err? {
          return Err(id.error);
        }
        known := known + {key};
        created := created + 1;
      }
    }
    return Ok(created);
  }

  method SeedRoles(repo: Repository, defs: Defaults, ghost before: Store, existing: map<string, int>)
    returns (r: Result<int>, known: map<string, int>)
    requires Inv(repo.State()) && Grown(before, repo.State(), repo.tenant, defs)
    requires KnowsRoles(repo.roles, repo.tenant, existing)
    modifies repo
    ensures r.Err? ==> r.error == IntegrityError && !CanSeed(before, repo.tenant, defs)
    ensures r.Ok? ==>
      && Inv(repo.State()) && Grown(before, repo.State(), repo.tenant, defs)
      && repo.State() == old(repo.State()).(roles := repo.roles, nextRole := repo.nextRole)
      && r.value == |repo.roles| - |old(repo.roles)|
      && KnowsRoles(repo.roles, repo.tenant, known) && (forall n :: n in defs.roles ==> n in known)
      && Extends(old(repo.roles), repo.roles)
      && ((forall n :: n in defs.roles ==> n in existing) ==> repo.State() == old(repo.State()))
  {
    hide Constraints, Owned, Mirrored, Grown, CanSeed, CreateRole, KnowsRoles;
    known := existing;
    var created := 0;
    for i := 0 to |defs.roles|
      invariant Inv(repo.State()) && Grown(before, repo.State(), repo.tenant, defs)
      invariant repo.State() == old(repo.State()).(roles := repo.roles, nextRole := repo.nextRole)
      invariant created == |repo.roles| - |old(repo.roles)|
      invariant KnowsRoles(repo.roles, repo.tenant, known) && existing.Keys <= known.Keys
      invariant Extends(old(repo.roles), repo.roles)
      invariant forall j :: 0 <= j < i ==> defs.roles[j] in known
      invariant (forall n :: n in defs.roles ==> n in existing) ==> repo.State() == old(repo.State())
    {
      var name := defs.roles[i];
      if name !in known {
        RoleStep(before, repo.State(), repo.tenant, defs, name, known);
        FreshRole(repo.State());
        var id := repo.CreateRole(name);
        if id.Err? {
          return Err(id.error), known;
        }
        known := known[name := id.value];
        created := created + 1;
      }
    }
    return Ok(created), known;
  }

  lemma FreshRole(db: Store)
    requires Constraints(db)
    ensures db.nextRole !in db.roles
  {
  }

  method SeedPermissions(repo: Repository, defs: Defaults, ghost before: Store, existing: map<string, int>)
    returns (r: Result<int>, known: map<string, int>)
    requires Inv(repo.State()) && Grown(before, repo.State(), repo.tenant, defs) && WellFormed(defs)
    requires forall k :: k in defs.resources ==> HasResource(repo.resources, repo.tenant, k)
    requires KnowsPermissions(repo.permissions, repo.tenant, existing)
    modifies repo
    ensures r.Err? ==> r.error == IntegrityError && !CanSeed(before, repo.tenant, defs)
    ensures r.Ok? ==>
      && Inv(repo.State()) && Grown(before, repo.State(), repo.tenant, defs)
      && repo.State() == old(repo.State()).(permissions := repo.permissions, nextPermission := repo.nextPermission)
      && r.value == |repo.permissions| - |old(repo.permissions)|
      && KnowsPermissions(repo.permissions, repo.tenant, known)
      && (forall policy :: policy in defs.policies && policy.key != "*" ==> policy.key in known)
      && Extends(old(repo.permissions), repo.permissions)
      && ((forall policy :: policy in defs.policies && policy.key != "*" ==> policy.key in existing)
          ==> repo.State() == old(repo.State()))
  {
    hide Constraints, Owned, Mirrored, Grown, CanSeed, CreatePermission, KnowsPermissions, HasResource;
    known := existing;
    var created := 0;
    for i := 0 to |defs.policies|
      invariant Inv(repo.State()) && Grown(before, repo.State(), repo.tenant, defs)
      invariant repo.State() == old(repo.State()).(permissions := repo.permissions, nextPermission := repo.nextPermission)
      invariant created == |repo.permissions| - |old(repo.permissions)|
      invariant KnowsPermissions(repo.permissions, repo.tenant, known) && existing.Keys <= known.Keys
      invariant Extends(old(repo.permissions), repo.permissions)
      invariant forall j :: 0 <= j < i && defs.policies[j].key != "*" ==> defs.policies[j].key in known
      invariant (forall policy :: policy in defs.policies && policy.key != "*" ==> policy.key in existing)
                ==> repo.State() == old(repo.State())
    {
      var policy := defs.policies[i];
      assert SoundPolicy(defs, policy);
      if policy.key != "*" && policy.key !in known {
        PermissionStep(before, repo.State(), repo.tenant, defs, policy.key, known);
        FreshPermission(repo.State());
        PermissionCreated(repo.State(), repo.tenant, policy.key);
        var (resource, action) := SplitKey(policy.key);
        var id := repo.CreatePermission(resource, action);
        if id.Err? {
          return Err(id.error), known;
        }
        known := known[policy.key := id.value];
        created := created + 1;
      }
    }
    return Ok(created), known;
  }

  lemma FreshPermission(db: Store)
    requires Constraints(db)
    ensures db.nextPermission !in db.permissions && UniqueResources(db.resources)
  {
  }

  method SeedLinks(repo: Repository, defs: Defaults, ghost before: Store, roles: map<string, int>,
                   permissions: map<string, int>, existing: set<Policy>)
    returns (r: Result<int>)
    requires Inv(repo.State()) && Grown(before, repo.State(), repo.tenant, defs) && WellFormed(defs)
    requires KnowsRoles(repo.roles, repo.tenant, roles) && KnowsPermissions(repo.permissions, repo.tenant, permissions)
    requires forall policy :: policy in defs.policies ==> policy.role in roles
    requires forall policy :: policy in defs.policies && policy.key != "*" ==> policy.key in permissions
    requires KnowsLinks(repo.State(), repo.tenant, existing)
    modifies repo
    ensures r.Err? ==> r.error == IntegrityError && !CanSeed(before, repo.tenant, defs)
    ensures r.Ok? ==>
      && Inv(repo.State()) && Grown(before, repo.State(), repo.tenant, defs)
      && repo.State() == old(repo.State()).(links := repo.links, rules := repo.rules) && old(repo.rules) <= repo.rules
      && r.value == |repo.links| - |old(repo.links)|
      && (forall policy :: policy in defs.policies && policy.key != "*" ==> HasLink(repo.links, repo.roles, repo.permissions, repo.tenant, policy))
      && ((forall policy :: policy in defs.policies && policy.key != "*" ==> policy in existing)
          ==> repo.State() == old(repo.State()))
  {
    hide Constraints, Owned, Mirrored, Grown, CanSeed, AssignPermission, HasLink;
    var known, created := existing, 0;
    for i := 0 to |defs.policies|
      invariant Inv(repo.State()) && Grown(before, repo.State(), repo.tenant, defs)
      invariant repo.State() == old(repo.State()).(links := repo.links, rules := repo.rules)
      invariant old(repo.rules) <= repo.rules && created == |repo.links| - |old(repo.links)|
      invariant KnowsLinks(repo.State(), repo.tenant, known) && existing <= known
      invariant forall j :: 0 <= j < i && defs.policies[j].key != "*" ==> defs.policies[j] in known
      invariant (forall policy :: policy in defs.policies && policy.key != "*" ==> policy in existing)
                ==> repo.State() == old(repo.State())
    {
      var policy := defs.policies[i];
      if policy.key != "*" && policy !in known {
        var role, permission := roles[policy.role], permissions[policy.key];
        LinkStep(before, repo.State(), repo.tenant, defs, policy, role, permission, known);
        var done := repo.AssignPermission(role, permission);
        if done.Err? {
          return Err(done.error);
        }
        known := known + {policy};
        created := created + 1;
      }
    }
    return Ok(created);
  }

  /** The default rules a snapshot lacks. */
  ghost function Missing(policies: seq<Policy>, existing: set<Policy>): set<Policy> {
    set policy | policy in policies && policy !in existing
  }

  lemma MissingNext(policies: seq<Policy>, i: nat, existing: set<Policy>)
    requires i < |policies|
    ensures
      var seen := policies[i] in existing || policies[i] in policies[..i];
      |Missing(policies[..i + 1], existing)| == |Missing(policies[..i], existing)| + if seen then 0 else 1
    ensures forall policy :: policy in policies[..i + 1] <==> policy in policies[..i] || policy == policies[i]
  {
    assert policies[..i + 1] == policies[..i] + [policies[i]];
    var before, after := Missing(policies[..i], existing), Missing(policies[..i + 1], existing);
    if policies[i] in existing || policies[i] in policies[..i] {
      assert after == before;
    } else {
      assert after == before + {policies[i]};
    }
  }

  /** `existing` is the snapshot taken before the links were made. The count is of the default rules
      missing from it, although most of them have been added with their links by now. */
  method SeedRules(repo: Repository, defs: Defaults, ghost before: Store, existing: set<Policy>)
    returns (r: Result<int>)
    requires Inv(repo.State()) && Grown(before, repo.State(), repo.tenant, defs)
    requires forall policy :: policy in defs.policies ==> HasRole(repo.roles, repo.tenant, policy.role)
    requires forall policy :: policy in defs.policies && policy.key != "*" ==> HasLink(repo.links, repo.roles, repo.permissions, repo.tenant, policy)
    requires KnowsRules(repo.rules, repo.tenant, existing)
    modifies repo
    ensures r.Err? ==> r.error == IntegrityError && !CanSeed(before, repo.tenant, defs)
    ensures r.Ok? ==>
      && Inv(repo.State()) && Grown(before, repo.State(), repo.tenant, defs)
      && repo.State() == old(repo.State()).(rules := repo.rules)
      && r.value == |Missing(defs.policies, existing)|
      && (forall policy :: policy in defs.policies ==> HasRule(repo.rules, repo.tenant, policy))
      && ((forall policy :: policy in defs.policies ==> policy in existing) ==> repo.State() == old(repo.State()))
  {
    assert defs.policies[..0] == [] && Missing([], existing) == {};
    hide Constraints, Owned, Mirrored, Grown, CanSeed, AddPolicy, HasLink, HasRole, HasRule, KnowsRules, WellFormed, Missing;
    var known, created := existing, 0;
    for i := 0 to |defs.policies|
      invariant Inv(repo.State()) && Grown(before, repo.State(), repo.tenant, defs)
      invariant repo.State() == old(repo.State()).(rules := repo.rules)
      invariant KnowsRules(repo.rules, repo.tenant, known)
      invariant forall policy :: policy in known <==> policy in existing || policy in defs.policies[..i]
      invariant created == |Missing(defs.policies[..i], existing)|
      invariant (forall policy :: policy in defs.policies ==> policy in existing) ==> repo.State() == old(repo.State())
    {
      var policy := defs.policies[i];
      MissingNext(defs.policies, i, existing);
      if policy !in known {
        RuleStep(before, repo.State(), repo.tenant, defs, policy);
        ghost var rules := repo.rules;
        var done := repo.AddPolicy(P, policy.role, policy.key);
        if done.Err? {
          return Err(done.error);
        }
        RulesStillKnown(rules, repo.rules, repo.tenant, known);
        KnowsOneMore(repo.rules, repo.tenant, known, policy);
        known := known + {policy};
        created := created + 1;
      }
    }
    assert defs.policies[..|defs.policies|] == defs.policies;
    KnownRulesAreThere(repo.rules, repo.tenant, known);
    return Ok(created);
  }

  lemma RulesStillKnown(before: seq<Rule>, after: seq<Rule>, tenant: int, known: set<Policy>)
    requires before <= after && KnowsRules(before, tenant, known)
    ensures KnowsRules(after, tenant, known)
  {
    forall q | q in known ensures HasRule(after, tenant, q) {
      var rule :| rule in before && Matches(tenant, P, q.role, q.key, rule);
      assert rule in after;
    }
  }

  lemma KnowsOneMore(rules: seq<Rule>, tenant: int, known: set<Policy>, policy: Policy)
    requires KnowsRules(rules, tenant, known) && HasRule(rules, tenant, policy)
    ensures KnowsRules(rules, tenant, known + {policy})
  {
  }

  lemma LinksStillKnown(before: Store, after: Store, tenant: int, known: set<Policy>)
    requires Constraints(before) && KnowsLinks(before, tenant, known)
    requires after.links == before.links && Extends(before.roles, after.roles) && Extends(before.permissions, after.permissions)
    ensures KnowsLinks(after, tenant, known)
  {
    hide UniqueNames, UniqueKeys, UniqueResources, IdsBelow;
    forall policy, l
      ensures LinkAt(after.links, after.roles, after.permissions, tenant, policy, l)
         <==> LinkAt(before.links, before.roles, before.permissions, tenant, policy, l)
    {
    }
    forall policy ensures policy in known <==> HasLink(after.links, after.roles, after.permissions, tenant, policy) {
      if HasLink(after.links, after.roles, after.permissions, tenant, policy) {
        var l :| LinkAt(after.links, after.roles, after.permissions, tenant, policy, l);
        assert LinkAt(before.links, before.roles, before.permissions, tenant, policy, l);
      }
    }
  }

  lemma KnownRulesAreThere(rules: seq<Rule>, tenant: int, known: set<Policy>)
    requires KnowsRules(rules, tenant, known)
    ensures forall policy :: policy in known ==> HasRule(rules, tenant, policy)
  {
  }

  // The dictionaries and sets the run starts from.

  function ResourceKeys(resources: map<int, Resource>, tenant: int): set<string> {
    set r | r in resources && InScope(tenant, resources[r].tenant) :: resources[r].key
  }

  function RoleIds(roles: map<int, Role>, tenant: int): map<string, int>
    requires UniqueNames(roles)
  {
    map r | r in roles && InScope(tenant, roles[r].tenant) :: roles[r].name := r
  }

  function PermissionIds(permissions: map<int, Permission>, tenant: int): map<string, int>
    requires UniqueKeys(permissions)
  {
    map p | p in permissions && InScope(tenant, permissions[p].tenant) :: permissions[p].key := p
  }

  function LinkedPairs(links: map<Link, int>, roles: map<int, Role>, permissions: map<int, Permission>, tenant: int): set<Policy>
    requires LinksRefer(links, roles, permissions)
  {
    set l | l in links && InScope(tenant, links[l]) :: Policy(roles[l.role].name, permissions[l.permission].key)
  }

  function RulePairs(rules: seq<Rule>, tenant: int): set<Policy> {
    set rule | rule in rules && rule.ptype == P && InScope(tenant, rule.tenant) :: Policy(rule.v0, rule.v1)
  }

  lemma DictionariesAreExact(db: Store, tenant: int)
    requires Inv(db)
    ensures KnowsResources(db.resources, tenant, ResourceKeys(db.resources, tenant))
    ensures KnowsRoles(db.roles, tenant, RoleIds(db.roles, tenant))
    ensures KnowsPermissions(db.permissions, tenant, PermissionIds(db.permissions, tenant))
  {
    hide KnowsResources, KnowsRoles, KnowsPermissions;
    assert UniqueNames(db.roles) && UniqueKeys(db.permissions);
    hide Inv;
    ResourceKeysAreExact(db.resources, tenant);
    RoleIdsAreExact(db.roles, tenant);
    PermissionIdsAreExact(db.permissions, tenant);
  }

  lemma ResourceKeysAreExact(resources: map<int, Resource>, tenant: int)
    ensures KnowsResources(resources, tenant, ResourceKeys(resources, tenant))
  {
    forall r | r in resources && InScope(tenant, resources[r].tenant) ensures ResourceAt(resources, tenant, resources[r].key, r) {
    }
  }

  lemma RoleIdsAreExact(roles: map<int, Role>, tenant: int)
    requires UniqueNames(roles)
    ensures KnowsRoles(roles, tenant, RoleIds(roles, tenant))
  {
    assert forall r :: r in roles && InScope(tenant, roles[r].tenant) ==> roles[r].name in RoleIds(roles, tenant);
  }

  lemma PermissionIdsAreExact(permissions: map<int, Permission>, tenant: int)
    requires UniqueKeys(permissions)
    ensures KnowsPermissions(permissions, tenant, PermissionIds(permissions, tenant))
  {
    assert forall p :: p in permissions && InScope(tenant, permissions[p].tenant)
                       ==> permissions[p].key in PermissionIds(permissions, tenant);
  }

  lemma LinkedPairsAreExact(db: Store, tenant: int)
    requires Inv(db)
    ensures KnowsLinks(db, tenant, LinkedPairs(db.links, db.roles, db.permissions, tenant))
  {
    hide Mirrored, UniqueNames, UniqueKeys, UniqueResources;
    var links := LinkedPairs(db.links, db.roles, db.permissions, tenant);
    forall policy ensures policy in links <==> HasLink(db.links, db.roles, db.permissions, tenant, policy) {
      if policy in links {
        var l :| l in db.links && InScope(tenant, db.links[l])
                 && policy == Policy(db.roles[l.role].name, db.permissions[l.permission].key);
        assert LinkAt(db.links, db.roles, db.permissions, tenant, policy, l);
      }
    }
  }

  lemma RulePairsAreExact(rules: seq<Rule>, tenant: int)
    ensures forall policy :: policy in RulePairs(rules, tenant) <==> HasRule(rules, tenant, policy)
  {
    forall policy ensures policy in RulePairs(rules, tenant) <==> HasRule(rules, tenant, policy) {
      if HasRule(rules, tenant, policy) {
        var rule :| rule in rules && Matches(tenant, P, policy.role, policy.key, rule);
        assert policy == Policy(rule.v0, rule.v1);
      }
    }
  }

  ghost function PairsOf(rules: seq<Rule>): set<Policy> {
    set i | 0 <= i < |rules| :: Policy(rules[i].v0, rules[i].v1)
  }

  lemma {:induction false} PairsAreDistinct(rules: seq<Rule>, tenant: int)
    requires NoDup(rules) && forall i :: 0 <= i < |rules| ==> rules[i].ptype == P && rules[i].tenant == tenant
    ensures |PairsOf(rules)| == |rules|
  {
    if rules != [] {
      var n := |rules| - 1;
      PairsAreDistinct(rules[..n], tenant);
      var last := Policy(rules[n].v0, rules[n].v1);
      assert PairsOf(rules) == PairsOf(rules[..n]) + {last};
      assert forall i :: 0 <= i < n ==> rules[i] != rules[n];
    }
  }

  lemma AddedAreNew(before: seq<Rule>, rules: seq<Rule>, k: nat)
    requires NoDup(rules) && before <= rules && |before| <= k < |rules|
    ensures rules[k] !in before
  {
    forall j | 0 <= j < |before| ensures before[j] != rules[k] {
      assert before[j] == rules[j];
    }
  }

  lemma AddedIsMissing(before: seq<Rule>, tenant: int, defs: Defaults, rule: Rule)
    requires tenant != 0 && rule !in before
    requires rule.tenant == tenant && rule.ptype == P && Policy(rule.v0, rule.v1) in defs.policies
    ensures Policy(rule.v0, rule.v1) in Missing(defs.policies, RulePairs(before, tenant))
  {
    RulePairsAreExact(before, tenant);
    assert forall x :: x in before && Matches(tenant, P, rule.v0, rule.v1, x) ==> x == rule;
  }

  lemma MissingIsAdded(before: seq<Rule>, rules: seq<Rule>, tenant: int, policies: seq<Policy>, policy: Policy)
    requires before <= rules && policy in Missing(policies, RulePairs(before, tenant)) && HasRule(rules, tenant, policy)
    ensures policy in PairsOf(rules[|before|..])
  {
    RulePairsAreExact(before, tenant);
    var rule :| rule in rules && Matches(tenant, P, policy.role, policy.key, rule);
    var j :| 0 <= j < |rules| && rules[j] == rule;
    assert rule !in before && forall i :: 0 <= i < |before| ==> before[i] == rules[i];
    assert rules[|before|..][j - |before|] == rule;
  }

  /** The rules that a run adds, with the links or after them, are the defaults its first snapshot
      lacks, each once. */
  lemma AddedRulesAreMissing(before: seq<Rule>, rules: seq<Rule>, tenant: int, defs: Defaults)
    requires NoDup(rules) && tenant != 0 && NewRules(before, rules, tenant, defs)
    requires forall policy :: policy in defs.policies ==> HasRule(rules, tenant, policy)
    ensures |Missing(defs.policies, RulePairs(before, tenant))| == |rules| - |before|
  {
    var added, missing := rules[|before|..], Missing(defs.policies, RulePairs(before, tenant));
    forall i | 0 <= i < |added|
      ensures added[i].tenant == tenant && added[i].ptype == P && Policy(added[i].v0, added[i].v1) in missing
    {
      AddedAreNew(before, rules, |before| + i);
      assert added[i] == rules[|before| + i] && added[i] in rules;
      AddedIsMissing(before, tenant, defs, added[i]);
    }
    hide HasRule, RulePairs, NewRules;
    PairsAreDistinct(added, tenant);
    forall policy | policy in missing ensures policy in PairsOf(added) {
      MissingIsAdded(before, rules, tenant, defs.policies, policy);
    }
    assert PairsOf(added) == missing;
  }

  lemma PoliciesCounted(before: Store, db: Store, tenant: int, defs: Defaults)
    requires Inv(db) && Grown(before, db, tenant, defs) && Seeded(db, tenant, defs)
    ensures |Missing(defs.policies, RulePairs(before.rules, tenant))| == |db.rules| - |before.rules|
  {
    if tenant != 0 {
      AddedRulesAreMissing(before.rules, db.rules, tenant, defs);
    } else {
      RulePairsAreExact(before.rules, tenant);
      assert Missing(defs.policies, RulePairs(before.rules, tenant)) == {};
    }
  }

  /** One run of the seeder. It goes through exactly when no other tenant holds a default (or, with
      no tenant, when nothing is missing); it then leaves a mirrored store with every default in it,
      having added nothing else; and a run on a seeded store counts zero and changes nothing. */
  method SeedAuthorization(repo: Repository, defs: Defaults) returns (r: Result<Counters>)
    requires Inv(repo.State()) && WellFormed(defs)
    modifies repo
    ensures r.Ok? <==> CanSeed(old(repo.State()), repo.tenant, defs)
    ensures r.Err? ==> r.error == IntegrityError && repo.State() == old(repo.State())
    ensures r.Ok? ==>
      && Inv(repo.State()) && Seeded(repo.State(), repo.tenant, defs)
      && Grown(old(repo.State()), repo.State(), repo.tenant, defs)
      && r.value.resources == |repo.resources| - |old(repo.resources)|
      && r.value.roles == |repo.roles| - |old(repo.roles)|
      && r.value.permissions == |repo.permissions| - |old(repo.permissions)|
      && r.value.links == |repo.links| - |old(repo.links)|
      && r.value.policies == |repo.rules| - |old(repo.rules)|
    ensures Seeded(old(repo.State()), repo.tenant, defs) ==>
              r == Ok(Counters(0, 0, 0, 0, 0)) && repo.State() == old(repo.State())
  {
    hide Owned, Mirrored, KnowsRoles, KnowsPermissions, KnowsLinks, KnowsRules, HasRule, WellFormed,
         ResourceKeys, RoleIds, PermissionIds, LinkedPairs, RulePairs,
         UniqueNames, UniqueKeys, UniqueResources, LinksRefer, GrantsRefer, IdsBelow;
    var saved := repo.State();
    var t := repo.tenant;
    var resources, roles, permissions := ResourceKeys(repo.resources, t), RoleIds(repo.roles, t), PermissionIds(repo.permissions, t);
    var links, rules := LinkedPairs(repo.links, repo.roles, repo.permissions, t), RulePairs(repo.rules, t);
    DictionariesAreExact(saved, t);
    LinkedPairsAreExact(saved, t);
    RulePairsAreExact(saved.rules, t);
    StartsFrom(saved, t, defs, resources, roles, permissions, links, rules);
    hide Grown, CanSeed, Seeded, HasResource, HasLink, KnowsResources;
    var resourcesCreated := SeedResources(repo, defs, saved, resources);
    if resourcesCreated.Err? {
      repo.Rollback(saved);
      return Err(resourcesCreated.error);
    }
    var rolesCreated, allRoles := SeedRoles(repo, defs, saved, roles);
    if rolesCreated.Err? {
      repo.Rollback(saved);
      return Err(rolesCreated.error);
    }
    var permissionsCreated, allPermissions := SeedPermissions(repo, defs, saved, permissions);
    if permissionsCreated.Err? {
      repo.Rollback(saved);
      return Err(permissionsCreated.error);
    }
    LinksStillKnown(saved, repo.State(), t, links);
    RolesThere(repo.roles, t, defs, allRoles);
    var linksCreated := SeedLinks(repo, defs, saved, allRoles, allPermissions, links);
    if linksCreated.Err? {
      repo.Rollback(saved);
      return Err(linksCreated.error);
    }
    RulesStillKnown(saved.rules, repo.rules, t, rules);
    var policiesCreated := SeedRules(repo, defs, saved, rules);
    if policiesCreated.Err? {
      repo.Rollback(saved);
      return Err(policiesCreated.error);
    }
    IsSeeded(repo.State(), t, defs);
    SeededWasFree(saved, repo.State(), t, defs);
    PoliciesCounted(saved, repo.State(), t, defs);
    return Ok(Counters(resourcesCreated.value, rolesCreated.value, permissionsCreated.value,
                       linksCreated.value, policiesCreated.value));
  }

  /** On a seeded store the first snapshot already lists every default. */
  lemma StartsFrom(db: Store, tenant: int, defs: Defaults, resources: set<string>, roles: map<string, int>,
                   permissions: map<string, int>, links: set<Policy>, rules: set<Policy>)
    requires Inv(db) && WellFormed(defs)
    requires KnowsResources(db.resources, tenant, resources) && KnowsRoles(db.roles, tenant, roles)
    requires KnowsPermissions(db.permissions, tenant, permissions) && KnowsLinks(db, tenant, links)
    requires forall policy :: policy in rules <==> HasRule(db.rules, tenant, policy)
    ensures Grown(db, db, tenant, defs) && KnowsRules(db.rules, tenant, rules)
    ensures Seeded(db, tenant, defs) ==>
      && CanSeed(db, tenant, defs)
      && (forall k :: k in defs.resources ==> k in resources)
      && (forall n :: n in defs.roles ==> n in roles)
      && (forall policy :: policy in defs.policies && policy.key != "*" ==> policy.key in permissions)
      && (forall policy :: policy in defs.policies && policy.key != "*" ==> policy in links)
      && (forall policy :: policy in defs.policies ==> policy in rules)
  {
    hide Constraints, Owned, Mirrored;
    if Seeded(db, tenant, defs) {
      SeededWasFree(db, db, tenant, defs);
      forall policy | policy in defs.policies && policy.key != "*" ensures policy.key in permissions {
        var l :| LinkAt(db.links, db.roles, db.permissions, tenant, policy, l);
      }
    }
  }

  lemma RolesThere(roles: map<int, Role>, tenant: int, defs: Defaults, known: map<string, int>)
    requires KnowsRoles(roles, tenant, known) && forall n :: n in defs.roles ==> n in known
    requires WellFormed(defs)
    ensures forall n :: n in defs.roles ==> HasRole(roles, tenant, n)
    ensures forall policy :: policy in defs.policies ==> policy.role in known && HasRole(roles, tenant, policy.role)
  {
    forall n | n in defs.roles ensures HasRole(roles, tenant, n) {
      assert RoleAt(roles, tenant, n, known[n]);
    }
    assert forall policy :: policy in defs.policies ==> SoundPolicy(defs, policy);
  }

  lemma IsSeeded(db: Store, tenant: int, defs: Defaults)
    requires forall k :: k in defs.resources ==> HasResource(db.resources, tenant, k)
    requires forall n :: n in defs.roles ==> HasRole(db.roles, tenant, n)
    requires forall policy :: policy in defs.policies ==> HasRule(db.rules, tenant, policy)
    requires forall policy :: policy in defs.policies && policy.key != "*"
                              ==> HasLink(db.links, db.roles, db.permissions, tenant, policy)
    ensures Seeded(db, tenant, defs)
  {
  }
}
