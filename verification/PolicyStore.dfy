/** The tables behind role-based access control, and what each repository operation does to them.

    The same facts are held twice: by id in `links` (role_permissions) and `grants`
    (user_has_roles), and by name in `rules` (casbin_rules). A table whose rows carry a unique
    pair of ids is a map from the pair to the row's tenant; ids map to rows. Tenant 0 stands for a
    repository built with no tenant (None or 0): its WHERE clauses are not narrowed, and its
    INSERTs break the NOT NULL or foreign-key constraint on tenant_id. */
module PolicyStore {
  import opened Prelude
  import opened Strings

  datatype Resource = Resource(key: string, tenant: int)
  datatype Role = Role(name: string, tenant: int)
  datatype Permission =
    Permission(key: string, resource: string, action: string, resourceId: int, tenant: int)
  datatype Link = Link(role: int, permission: int)
  datatype Grant = Grant(user: int, role: int)

  datatype Ptype = P | G

  /** One casbin_rules row. Every caller of add_policy passes two values, so v2 to v5 are NULL. */
  datatype Rule = Rule(ptype: Ptype, v0: string, v1: string, tenant: int)

  datatype Store = Store(
    users: set<int>,
    resources: map<int, Resource>,
    roles: map<int, Role>,
    permissions: map<int, Permission>,
    links: map<Link, int>,
    grants: map<Grant, int>,
    rules: seq<Rule>,
    nextResource: int,
    nextRole: int,
    nextPermission: int)

  predicate InScope(tenant: int, row: int) {
    tenant == 0 || row == tenant
  }

  function PermissionKey(resource: string, action: string): string {
    resource + ":" + action
  }

  // ----- lookups -----

  ghost predicate Named(db: Store, tenant: int, name: string, r: int) {
    r in db.roles && db.roles[r].name == name && InScope(tenant, db.roles[r].tenant)
  }

  ghost predicate ResourceKeyed(db: Store, tenant: int, key: string, r: int) {
    r in db.resources && db.resources[r].key == key && InScope(tenant, db.resources[r].tenant)
  }

  predicate RoleVisible(db: Store, tenant: int, r: int) {
    r in db.roles && InScope(tenant, db.roles[r].tenant)
  }

  predicate PermissionVisible(db: Store, tenant: int, p: int) {
    p in db.permissions && InScope(tenant, db.permissions[p].tenant)
  }

  // ----- casbin_rules -----

  predicate Matches(tenant: int, ptype: Ptype, v0: string, v1: string, rule: Rule) {
    rule.ptype == ptype && rule.v0 == v0 && rule.v1 == v1 && InScope(tenant, rule.tenant)
  }

  function AddPolicy(db: Store, tenant: int, ptype: Ptype, v0: string, v1: string): Result<Store> {
    var existing := Filter(db.rules, rule => Matches(tenant, ptype, v0, v1, rule));
    if |existing| > 1 then Err(MultipleResultsFound)
    else if |existing| == 1 then Ok(db)
    else if tenant == 0 then Err(IntegrityError)
    else Ok(db.(rules := db.rules + [Rule(ptype, v0, v1, tenant)]))
  }

  function RemovePolicy(db: Store, tenant: int, ptype: Ptype, v0: string, v1: string): Store {
    db.(rules := Filter(db.rules, rule => !Matches(tenant, ptype, v0, v1, rule)))
  }

  predicate NamesRole(tenant: int, name: string, rule: Rule) {
    InScope(tenant, rule.tenant) && (if rule.ptype == P then rule.v0 == name else rule.v1 == name)
  }

  predicate NamesKey(tenant: int, key: string, rule: Rule) {
    InScope(tenant, rule.tenant) && rule.ptype == P && rule.v1 == key
  }

  function RenamedRole(tenant: int, before: string, after: string, rule: Rule): Rule {
    if !NamesRole(tenant, before, rule) then rule
    else if rule.ptype == P then rule.(v0 := after)
    else rule.(v1 := after)
  }

  function RenamedKey(tenant: int, before: string, after: string, rule: Rule): Rule {
    if NamesKey(tenant, before, rule) then rule.(v1 := after) else rule
  }

  // ----- roles -----

  ghost predicate RoleNameTaken(db: Store, name: string, self: int) {
    exists r :: r in db.roles && r != self && db.roles[r].name == name
  }

  ghost function CreateRole(db: Store, tenant: int, name: string): Result<Store> {
    if tenant == 0 || RoleNameTaken(db, name, db.nextRole) then Err(IntegrityError)
    else Ok(db.(roles := db.roles[db.nextRole := Role(name, tenant)], nextRole := db.nextRole + 1))
  }

  ghost function UpdateRole(db: Store, tenant: int, r: int, name: string): Result<Store> {
    if !RoleVisible(db, tenant, r) then Ok(db)
    else if RoleNameTaken(db, name, r) then Err(IntegrityError)
    else
      var before := db.roles[r].name;
      var renamed := db.(roles := db.roles[r := db.roles[r].(name := name)]);
      if before == name then Ok(renamed)
      else Ok(renamed.(rules := seq(|db.rules|, i requires 0 <= i < |db.rules| =>
                                      RenamedRole(tenant, before, name, db.rules[i]))))
  }

  ghost function DeleteRole(db: Store, tenant: int, r: int): Result<Store> {
    if !RoleVisible(db, tenant, r) then Ok(db)
    else
      var name := db.roles[r].name;
      var links := map l | l in db.links && !(l.role == r && InScope(tenant, db.links[l])) :: db.links[l];
      var grants := map g | g in db.grants && !(g.role == r && InScope(tenant, db.grants[g])) :: db.grants[g];
      if (exists l :: l in links && l.role == r) || (exists g :: g in grants && g.role == r)
      then Err(IntegrityError)
      else Ok(db.(links := links, grants := grants, roles := db.roles - {r},
                  rules := Filter(db.rules, rule => !NamesRole(tenant, name, rule))))
  }

  // ----- resources and permissions -----

  ghost predicate ResourceKeyTaken(db: Store, key: string) {
    exists r :: r in db.resources && db.resources[r].key == key
  }

  ghost function CreateResource(db: Store, tenant: int, key: string): Result<Store> {
    if tenant == 0 || ResourceKeyTaken(db, key) then Err(IntegrityError)
    else Ok(db.(resources := db.resources[db.nextResource := Resource(key, tenant)],
                nextResource := db.nextResource + 1))
  }

  /** The store with the resource in it, and the resource's id. */
  ghost function GetOrCreateResource(db: Store, tenant: int, key: string): Result<(Store, int)> {
    if exists r :: ResourceKeyed(db, tenant, key, r) then
      var r :| ResourceKeyed(db, tenant, key, r);
      Ok((db, r))
    else
      var created :- CreateResource(db, tenant, key);
      Ok((created, db.nextResource))
  }

  /** The unique index on key also decides the unique constraint on (resource, action), because the
      key is made of the two. */
  ghost predicate KeyTaken(db: Store, key: string, self: int) {
    exists p :: p in db.permissions && p != self && db.permissions[p].key == key
  }

  ghost function CreatePermission(db: Store, tenant: int, resource: string, action: string): Result<Store> {
    var (db1, resourceId) :- GetOrCreateResource(db, tenant, resource);
    var key := PermissionKey(resource, action);
    if tenant == 0 || KeyTaken(db1, key, db1.nextPermission) then Err(IntegrityError)
    else
      var row := Permission(key, resource, action, resourceId, tenant);
      Ok(db1.(permissions := db1.permissions[db1.nextPermission := row],
              nextPermission := db1.nextPermission + 1))
  }

  ghost function UpdatePermission(db: Store, tenant: int, p: int, resource: string, action: string): Result<Store> {
    if !PermissionVisible(db, tenant, p) then Ok(db)
    else
      var (db1, resourceId) :- GetOrCreateResource(db, tenant, resource);
      var before := db.permissions[p].key;
      var key := PermissionKey(resource, action);
      if KeyTaken(db1, key, p) then Err(IntegrityError)
      else
        var row := Permission(key, resource, action, resourceId, db.permissions[p].tenant);
        var db2 := db1.(permissions := db1.permissions[p := row]);
        if before == key then Ok(db2)
        else Ok(db2.(rules := seq(|db.rules|, i requires 0 <= i < |db.rules| =>
                                    RenamedKey(tenant, before, key, db.rules[i]))))
  }

  ghost function DeletePermission(db: Store, tenant: int, p: int): Result<Store> {
    if !PermissionVisible(db, tenant, p) then Ok(db)
    else
      var key := db.permissions[p].key;
      var links := map l | l in db.links && !(l.permission == p && InScope(tenant, db.links[l])) :: db.links[l];
      if exists l :: l in links && l.permission == p then Err(IntegrityError)
      else Ok(db.(links := links, permissions := db.permissions - {p},
                  rules := Filter(db.rules, rule => !NamesKey(tenant, key, rule))))
  }

  // ----- assignments -----

  ghost function AssignPermission(db: Store, tenant: int, r: int, p: int): Result<Store> {
    if !RoleVisible(db, tenant, r) || !PermissionVisible(db, tenant, p) then Err(ValueError)
    else
      var l := Link(r, p);
      var linked :-
        if l in db.links && InScope(tenant, db.links[l]) then Ok(db)
        else if l in db.links || tenant == 0 then Err(IntegrityError)
        else Ok(db.(links := db.links[l := tenant]));
      AddPolicy(linked, tenant, P, db.roles[r].name, db.permissions[p].key)
  }

  ghost function RemovePermission(db: Store, tenant: int, r: int, p: int): Result<Store> {
    if !RoleVisible(db, tenant, r) || !PermissionVisible(db, tenant, p) then Ok(db)
    else
      var l := Link(r, p);
      var unlinked :=
        if l in db.links && InScope(tenant, db.links[l]) then db.(links := db.links - {l}) else db;
      Ok(RemovePolicy(unlinked, tenant, P, db.roles[r].name, db.permissions[p].key))
  }

  ghost function AssignRole(db: Store, tenant: int, subject: string, name: string): Result<Store> {
    if !exists r :: Named(db, tenant, name, r) then Err(ValueError)
    else
      var r :| Named(db, tenant, name, r);
      match ParseInt(subject)
      case None => Err(ValueError)
      case Some(user) =>
        var g := Grant(user, r);
        var granted :-
          if g in db.grants && InScope(tenant, db.grants[g]) then Ok(db)
          else if g in db.grants || tenant == 0 || user !in db.users then Err(IntegrityError)
          else Ok(db.(grants := db.grants[g := tenant]));
        AddPolicy(granted, tenant, G, subject, name)
  }

  // ----- runs -----

  datatype Op =
    | CreateRoleOp(name: string)
    | UpdateRoleOp(role: int, name: string)
    | DeleteRoleOp(role: int)
    | CreateResourceOp(key: string)
    | CreatePermissionOp(resource: string, action: string)
    | UpdatePermissionOp(permission: int, resource: string, action: string)
    | DeletePermissionOp(permission: int)
    | AssignPermissionOp(role: int, permission: int)
    | RemovePermissionOp(role: int, permission: int)
    | AssignRoleOp(subject: string, name: string)
    | RegisterUserOp(user: int)

  ghost function Apply(db: Store, tenant: int, op: Op): Result<Store> {
    match op
    case CreateRoleOp(name) => CreateRole(db, tenant, name)
    case UpdateRoleOp(r, name) => UpdateRole(db, tenant, r, name)
    case DeleteRoleOp(r) => DeleteRole(db, tenant, r)
    case CreateResourceOp(key) => CreateResource(db, tenant, key)
    case CreatePermissionOp(resource, action) => CreatePermission(db, tenant, resource, action)
    case UpdatePermissionOp(p, resource, action) => UpdatePermission(db, tenant, p, resource, action)
    case DeletePermissionOp(p) => DeletePermission(db, tenant, p)
    case AssignPermissionOp(r, p) => AssignPermission(db, tenant, r, p)
    case RemovePermissionOp(r, p) => RemovePermission(db, tenant, r, p)
    case AssignRoleOp(subject, name) => AssignRole(db, tenant, subject, name)
    case RegisterUserOp(user) => Ok(db.(users := db.users + {user}))
  }

  /** One request: the unit of work rolls everything back when the operation raises. */
  ghost function Step(db: Store, tenant: int, op: Op): Store {
    match Apply(db, tenant, op)
    case Ok(next) => next
    case Err(_) => db
  }

  datatype Request = Request(tenant: int, op: Op)

  ghost function Run(db: Store, requests: seq<Request>): Store
    decreases |requests|
  {
    if requests == [] then db
    else Run(Step(db, requests[0].tenant, requests[0].op), requests[1..])
  }

  const Empty := Store({}, map[], map[], map[], map[], map[], [], 1, 1, 1)
}
