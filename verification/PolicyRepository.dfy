/** The repository as the code has it: tables changed in place, statement by statement. Each method
    is one request inside a unit of work, so it either does what the store operation of the same
    name says or raises the same error and leaves every table as it was. */
module PolicyRepository {
  import opened Prelude
  import opened Strings
  import opened PolicyStore
  import opened PolicyMirror

  class Repository {
    const tenant: int
    var users: set<int>
    var resources: map<int, Resource>
    var roles: map<int, Role>
    var permissions: map<int, Permission>
    var links: map<Link, int>
    var grants: map<Grant, int>
    var rules: seq<Rule>
    var nextResource: int
    var nextRole: int
    var nextPermission: int

    function State(): Store
      reads this
    {
      Store(users, resources, roles, permissions, links, grants, rules, nextResource, nextRole, nextPermission)
    }

    /** The request did what the store operation says, or raised and was rolled back. */
    static predicate Did<T>(before: Store, expected: Result<Store>, r: Result<T>, after: Store) {
      match expected
      case Ok(store) => r.Ok? && after == store
      case Err(e) => r.Err? && r.error == e && after == before
    }

    constructor (tenant: int, store: Store)
      ensures this.tenant == tenant && State() == store
    {
      this.tenant := tenant;
      users, resources, roles, permissions := store.users, store.resources, store.roles, store.permissions;
      links, grants, rules := store.links, store.grants, store.rules;
      nextResource, nextRole, nextPermission := store.nextResource, store.nextRole, store.nextPermission;
    }

    /** The session's rollback to the state the unit of work started from. */
    method Rollback(store: Store)
      modifies this
      ensures State() == store
    {
      users, resources, roles, permissions := store.users, store.resources, store.roles, store.permissions;
      links, grants, rules := store.links, store.grants, store.rules;
      nextResource, nextRole, nextPermission := store.nextResource, store.nextRole, store.nextPermission;
    }

    // ----- casbin_rules -----

    method AddPolicy(ptype: Ptype, v0: string, v1: string) returns (r: Result<()>)
      modifies `rules
      ensures Did(old(State()), PolicyStore.AddPolicy(old(State()), tenant, ptype, v0, v1), r, State())
    {
      var existing := Filter(rules, rule => Matches(tenant, ptype, v0, v1, rule));
      if |existing| > 1 {
        return Err(MultipleResultsFound);
      }
      if |existing| == 1 {
        return Ok(());
      }
      if tenant == 0 {
        return Err(IntegrityError);
      }
      rules := rules + [Rule(ptype, v0, v1, tenant)];
      return Ok(());
    }

    method RemovePolicy(ptype: Ptype, v0: string, v1: string)
      modifies `rules
      ensures State() == PolicyStore.RemovePolicy(old(State()), tenant, ptype, v0, v1)
    {
      rules := Filter(rules, rule => !Matches(tenant, ptype, v0, v1, rule));
    }

    /** Two passes, first over the p rules and then over the g rules, each rewriting one column of
        the rows its SELECT returned. */
    method RenameRolePolicies(before: string, after: string)
      modifies `rules
      ensures |rules| == |old(rules)|
      ensures forall i :: 0 <= i < |rules| ==> rules[i] == RenamedRole(tenant, before, after, old(rules)[i])
    {
      for i := 0 to |rules|
        invariant |rules| == |old(rules)|
        invariant forall j :: i <= j < |rules| ==> rules[j] == old(rules)[j]
        invariant forall j :: 0 <= j < i ==>
          rules[j] == if old(rules)[j].ptype == P then RenamedRole(tenant, before, after, old(rules)[j])
                      else old(rules)[j]
      {
        if rules[i].ptype == P && rules[i].v0 == before && InScope(tenant, rules[i].tenant) {
          rules := rules[i := rules[i].(v0 := after)];
        }
      }
      for i := 0 to |rules|
        invariant |rules| == |old(rules)|
        invariant forall j :: i <= j < |rules| ==>
          rules[j] == if old(rules)[j].ptype == P then RenamedRole(tenant, before, after, old(rules)[j])
                      else old(rules)[j]
        invariant forall j :: 0 <= j < i ==> rules[j] == RenamedRole(tenant, before, after, old(rules)[j])
      {
        if rules[i].ptype == G && rules[i].v1 == before && InScope(tenant, rules[i].tenant) {
          rules := rules[i := rules[i].(v1 := after)];
        }
      }
    }

    method RenamePermissionPolicies(before: string, after: string)
      modifies `rules
      ensures |rules| == |old(rules)|
      ensures forall i :: 0 <= i < |rules| ==> rules[i] == RenamedKey(tenant, before, after, old(rules)[i])
    {
      for i := 0 to |rules|
        invariant |rules| == |old(rules)|
        invariant forall j :: i <= j < |rules| ==> rules[j] == old(rules)[j]
        invariant forall j :: 0 <= j < i ==> rules[j] == RenamedKey(tenant, before, after, old(rules)[j])
      {
        if rules[i].ptype == P && rules[i].v1 == before && InScope(tenant, rules[i].tenant) {
          rules := rules[i := rules[i].(v1 := after)];
        }
      }
    }

    // ----- roles -----

    method CreateRole(name: string) returns (r: Result<int>)
      modifies this
      ensures Did(old(State()), PolicyStore.CreateRole(old(State()), tenant, name), r, State())
      ensures r.Ok? ==> r.value == old(nextRole)
    {
      if tenant == 0 || exists s :: s in roles && s != nextRole && roles[s].name == name {
        return Err(IntegrityError);
      }
      r := Ok(nextRole);
      roles := roles[nextRole := Role(name, tenant)];
      nextRole := nextRole + 1;
    }

    method UpdateRole(id: int, name: string) returns (r: Result<Option<Role>>)
      modifies this
      ensures Did(old(State()), PolicyStore.UpdateRole(old(State()), tenant, id, name), r, State())
      ensures r.Ok? ==> r.value == if id in roles && InScope(tenant, roles[id].tenant) then Some(roles[id]) else None
    {
      if id !in roles || !InScope(tenant, roles[id].tenant) {
        return Ok(None);
      }
      var saved := State();
      var before := roles[id].name;
      roles := roles[id := roles[id].(name := name)];
      assert forall s :: s in roles && s != id ==> s in saved.roles && roles[s] == saved.roles[s];
      assert forall s :: s in saved.roles ==> s in roles;
      if exists s :: s in roles && s != id && roles[s].name == name {
        Rollback(saved);
        return Err(IntegrityError);
      }
      if before != name {
        RenameRolePolicies(before, name);
      }
      r := Ok(Some(roles[id]));
    }

    method DeleteRole(id: int) returns (r: Result<()>)
      modifies this
      ensures Did(old(State()), PolicyStore.DeleteRole(old(State()), tenant, id), r, State())
    {
      if id !in roles || !InScope(tenant, roles[id].tenant) {
        return Ok(());
      }
      var saved := State();
      var name := roles[id].name;
      links := map l | l in links && !(l.role == id && InScope(tenant, links[l])) :: links[l];
      grants := map g | g in grants && !(g.role == id && InScope(tenant, grants[g])) :: grants[g];
      if (exists l :: l in links && l.role == id) || (exists g :: g in grants && g.role == id) {
        Rollback(saved);
        return Err(IntegrityError);
      }
      roles := roles - {id};
      rules := Filter(rules, rule => !NamesRole(tenant, name, rule));
      return Ok(());
    }

    // ----- resources and permissions -----

    method CreateResource(key: string) returns (r: Result<int>)
      modifies this
      ensures Did(old(State()), PolicyStore.CreateResource(old(State()), tenant, key), r, State())
      ensures r.Ok? ==> r.value == old(nextResource)
    {
      if tenant == 0 || exists s :: s in resources && resources[s].key == key {
        return Err(IntegrityError);
      }
      r := Ok(nextResource);
      resources := resources[nextResource := Resource(key, tenant)];
      nextResource := nextResource + 1;
    }

    method GetOrCreateResource(key: string) returns (r: Result<int>)
      requires UniqueResources(resources)
      modifies this
      ensures match PolicyStore.GetOrCreateResource(old(State()), tenant, key)
              case Ok((store, id)) => r == Ok(id) && State() == store
              case Err(e) => r == Err(e) && State() == old(State())
    {
      if s :| s in resources && resources[s].key == key && InScope(tenant, resources[s].tenant) {
        assert ResourceKeyed(State(), tenant, key, s);
        return Ok(s);
      }
      r := CreateResource(key);
    }

    method CreatePermission(resource: string, action: string) returns (r: Result<int>)
      requires UniqueResources(resources)
      modifies this
      ensures Did(old(State()), PolicyStore.CreatePermission(old(State()), tenant, resource, action), r, State())
      ensures r.Ok? ==> r.value == old(nextPermission)
    {
      var saved := State();
      var key := PermissionKey(resource, action);
      var resourceId := GetOrCreateResource(resource);
      if resourceId.Err? {
        return Err(resourceId.error);
      }
      if tenant == 0 || exists q :: q in permissions && q != nextPermission && permissions[q].key == key {
        Rollback(saved);
        return Err(IntegrityError);
      }
      r := Ok(nextPermission);
      permissions := permissions[nextPermission := Permission(key, resource, action, resourceId.value, tenant)];
      nextPermission := nextPermission + 1;
    }

    method UpdatePermission(id: int, resource: string, action: string) returns (r: Result<Option<Permission>>)
      requires UniqueResources(resources)
      modifies this
      ensures Did(old(State()), PolicyStore.UpdatePermission(old(State()), tenant, id, resource, action), r, State())
      ensures r.Ok? ==>
        r.value == if id in permissions && InScope(tenant, permissions[id].tenant) then Some(permissions[id]) else None
    {
      if id !in permissions || !InScope(tenant, permissions[id].tenant) {
        return Ok(None);
      }
      var saved := State();
      var before, key := permissions[id].key, PermissionKey(resource, action);
      var resourceId := GetOrCreateResource(resource);
      if resourceId.Err? {
        return Err(resourceId.error);
      }
      permissions := permissions[id := Permission(key, resource, action, resourceId.value, permissions[id].tenant)];
      assert forall q :: q in permissions && q != id ==> q in saved.permissions && permissions[q] == saved.permissions[q];
      assert forall q :: q in saved.permissions ==> q in permissions;
      if exists q :: q in permissions && q != id && permissions[q].key == key {
        Rollback(saved);
        return Err(IntegrityError);
      }
      if before != key {
        RenamePermissionPolicies(before, key);
      }
      r := Ok(Some(permissions[id]));
    }

    method DeletePermission(id: int) returns (r: Result<()>)
      modifies this
      ensures Did(old(State()), PolicyStore.DeletePermission(old(State()), tenant, id), r, State())
    {
      if id !in permissions || !InScope(tenant, permissions[id].tenant) {
        return Ok(());
      }
      var saved := State();
      var key := permissions[id].key;
      links := map l | l in links && !(l.permission == id && InScope(tenant, links[l])) :: links[l];
      if exists l :: l in links && l.permission == id {
        Rollback(saved);
        return Err(IntegrityError);
      }
      permissions := permissions - {id};
      rules := Filter(rules, rule => !NamesKey(tenant, key, rule));
      return Ok(());
    }

    // ----- assignments -----

    method AssignPermission(role: int, permission: int) returns (r: Result<()>)
      modifies this
      ensures Did(old(State()), PolicyStore.AssignPermission(old(State()), tenant, role, permission), r, State())
    {
      if !RoleVisible(State(), tenant, role) || !PermissionVisible(State(), tenant, permission) {
        return Err(ValueError);
      }
      var saved := State();
      var l := Link(role, permission);
      if l !in links || !InScope(tenant, links[l]) {
        if l in links || tenant == 0 {
          return Err(IntegrityError);
        }
        links := links[l := tenant];
      }
      r := AddPolicy(P, roles[role].name, permissions[permission].key);
      if r.Err? {
        Rollback(saved);
      }
    }

    method RemovePermission(role: int, permission: int) returns (r: Result<()>)
      modifies this
      ensures Did(old(State()), PolicyStore.RemovePermission(old(State()), tenant, role, permission), r, State())
    {
      if !RoleVisible(State(), tenant, role) || !PermissionVisible(State(), tenant, permission) {
        return Ok(());
      }
      var l := Link(role, permission);
      if l in links && InScope(tenant, links[l]) {
        links := links - {l};
      }
      RemovePolicy(P, roles[role].name, permissions[permission].key);
      return Ok(());
    }

    method AssignRole(subject: string, name: string) returns (r: Result<()>)
      requires UniqueNames(roles)
      modifies this
      ensures Did(old(State()), PolicyStore.AssignRole(old(State()), tenant, subject, name), r, State())
    {
      if role :| role in roles && roles[role].name == name && InScope(tenant, roles[role].tenant) {
        assert Named(State(), tenant, name, role);
        var user := ParseInt(subject);
        if user.None? {
          return Err(ValueError);
        }
        var saved := State();
        var g := Grant(user.value, role);
        if g !in grants || !InScope(tenant, grants[g]) {
          if g in grants || tenant == 0 || user.value !in users {
            return Err(IntegrityError);
          }
          grants := grants[g := tenant];
        }
        r := AddPolicy(G, subject, name);
        if r.Err? {
          Rollback(saved);
        }
      } else {
        return Err(ValueError);
      }
    }
  }
}
