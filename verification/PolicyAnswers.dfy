/** When each operation of the repository goes through, and which error comes otherwise. */
module PolicyAnswers {
  import opened Prelude
  import opened Strings
  import opened PolicyStore
  import opened PolicyMirror

  /** In a mirrored store the subject of a g rule is printed as str prints it. */
  lemma HeldRuleIff(db: Store, r: int, user: int, subject: string)
    requires Inv(db) && r in db.roles && ParseInt(subject) == Some(user)
    ensures (exists rule :: rule in db.rules && rule.ptype == G && rule.v0 == subject && rule.v1 == db.roles[r].name)
       <==> Grant(user, r) in db.grants && Canonical(subject)
  {
    hide UniqueKeys, UniqueResources, IdsBelow;
    if rule :| rule in db.rules && rule.ptype == G && rule.v0 == subject && rule.v1 == db.roles[r].name {
      assert Backed(db, rule);
      var g :| g in db.grants && rule == GrantRule(g.user, db.roles[g.role], db.grants[g]);
      ParseIntStr(g.user);
      assert g == Grant(user, r);
    }
    if Grant(user, r) in db.grants && Canonical(subject) {
      assert GrantRule(user, db.roles[r], db.grants[Grant(user, r)]) in db.rules;
    }
  }

  /** The user exists, or, if nothing can be inserted for want of a tenant, holds the role already. */
  ghost predicate MayHold(db: Store, tenant: int, subject: string, r: int)
    requires ParseInt(subject).Some?
  {
    var user := ParseInt(subject).value;
    if tenant != 0 then user in db.users else Grant(user, r) in db.grants && Canonical(subject)
  }

  /** A user can be given a role exactly if the role exists in scope and the user exists; without a tenant
      nothing can be inserted, so then the user must hold the role already. An unknown role and a subject
      that is no number are the caller's errors, everything else is the database's. */
  lemma AssignRoleIff(db: Store, tenant: int, subject: string, name: string)
    requires Inv(db)
    ensures AssignRole(db, tenant, subject, name).Ok?
       <==> ParseInt(subject).Some? && exists r :: Named(db, tenant, name, r) && MayHold(db, tenant, subject, r)
    ensures AssignRole(db, tenant, subject, name).Err? ==>
              AssignRole(db, tenant, subject, name).error
              == if ParseInt(subject).Some? && exists r :: Named(db, tenant, name, r) then IntegrityError else ValueError
  {
    hide Inv, MayHold;
    if (exists r :: Named(db, tenant, name, r)) && ParseInt(subject).Some? {
      var r :| Named(db, tenant, name, r);
      OneIsNamed(db, tenant, name, r);
      KnownRoleIff(db, tenant, subject, name, r);
    }
  }

  lemma OneIsNamed(db: Store, tenant: int, name: string, r: int)
    requires Inv(db) && Named(db, tenant, name, r)
    ensures forall s :: Named(db, tenant, name, s) ==> s == r
  {
  }

  lemma KnownRoleIff(db: Store, tenant: int, subject: string, name: string, r: int)
    requires Inv(db) && Named(db, tenant, name, r) && ParseInt(subject).Some?
    ensures AssignRole(db, tenant, subject, name).Ok?
       <==> MayHold(db, tenant, subject, r)
    ensures AssignRole(db, tenant, subject, name).Err? ==> AssignRole(db, tenant, subject, name).error == IntegrityError
  {
    OneIsNamed(db, tenant, name, r);
    var user := ParseInt(subject).value;
    var g := Grant(user, r);
    HeldRuleIff(db, r, user, subject);
    assert g in db.grants ==> InScope(tenant, db.grants[g]) && user in db.users;
    var base := if g in db.grants then db else db.(grants := db.grants[g := tenant]);
    AddPolicyIff(db, base, tenant, G, subject, name);
    hide Inv, Canonical, AddPolicy;
  }

  /** A rule can be added unless it is missing and there is no tenant to add it for. */
  lemma AddPolicyIff(db: Store, base: Store, tenant: int, ptype: Ptype, v0: string, v1: string)
    requires Inv(db) && base.rules == db.rules
    ensures AddPolicy(base, tenant, ptype, v0, v1).Ok?
       <==> tenant != 0 || exists rule :: rule in db.rules && rule.ptype == ptype && rule.v0 == v0 && rule.v1 == v1
    ensures AddPolicy(base, tenant, ptype, v0, v1).Err? ==> AddPolicy(base, tenant, ptype, v0, v1).error == IntegrityError
  {
    var keep := rule => Matches(tenant, ptype, v0, v1, rule);
    AtMostOneMatch(db, tenant, ptype, v0, v1);
    hide Inv;
    forall rule ensures rule in Filter(db.rules, keep) <==> rule in db.rules && keep(rule) {
      FilterMember(db.rules, keep, rule);
    }
    if Filter(db.rules, keep) != [] {
      assert Filter(db.rules, keep)[0] in Filter(db.rules, keep);
    }
  }

  /** A user who has just registered can be given every role of the tenant, and then holds it. */
  lemma RegisteredMayHold(db: Store, tenant: int, user: int, name: string, r: int)
    requires Inv(db) && tenant != 0 && Named(db, tenant, name, r)
    ensures
      var granted := AssignRole(Step(db, tenant, RegisterUserOp(user)), tenant, Str(user), name);
      granted.Ok? && Grant(user, r) in granted.value.grants && granted.value.grants[Grant(user, r)] == tenant
  {
    var registered := Step(db, tenant, RegisterUserOp(user));
    ApplyKeepsInv(db, tenant, RegisterUserOp(user));
    ParseIntStr(user);
    assert Named(registered, tenant, name, r);
    AssignRoleIff(registered, tenant, Str(user), name);
    var g := AssignRoleEffect(registered, tenant, Str(user), name);
    OneIsNamed(registered, tenant, name, r);
    hide Inv, AssignRole;
  }

  /** A permission can be linked to a role exactly if both are in scope and, without a tenant, the link is
      there already. */
  lemma AssignPermissionIff(db: Store, tenant: int, r: int, p: int)
    requires Inv(db)
    ensures AssignPermission(db, tenant, r, p).Ok?
       <==> RoleVisible(db, tenant, r) && PermissionVisible(db, tenant, p) && (tenant != 0 || Link(r, p) in db.links)
    ensures AssignPermission(db, tenant, r, p).Err? ==>
              AssignPermission(db, tenant, r, p).error
              == if RoleVisible(db, tenant, r) && PermissionVisible(db, tenant, p) then IntegrityError else ValueError
  {
    if RoleVisible(db, tenant, r) && PermissionVisible(db, tenant, p) {
      LinkedRule(db, tenant, r, p);
      var l := Link(r, p);
      var base := if l in db.links then db else db.(links := db.links[l := tenant]);
      AddPolicyIff(db, base, tenant, P, db.roles[r].name, db.permissions[p].key);
      hide Inv, AddPolicy;
    }
  }

  lemma LinkedRule(db: Store, tenant: int, r: int, p: int)
    requires Inv(db) && RoleVisible(db, tenant, r) && PermissionVisible(db, tenant, p)
    ensures
      var l := Link(r, p);
      l in db.links ==>
        && InScope(tenant, db.links[l])
        && exists rule :: rule in db.rules && rule.ptype == P && rule.v0 == db.roles[r].name && rule.v1 == db.permissions[p].key
  {
    if Link(r, p) in db.links {
      assert LinkRule(db.roles[r], db.permissions[p], db.links[Link(r, p)]) in db.rules;
    }
  }

  /** A role can be renamed exactly if no other role, of any tenant, has the name; a role out of scope is
      left alone. */
  lemma UpdateRoleIff(db: Store, tenant: int, r: int, name: string)
    ensures UpdateRole(db, tenant, r, name).Ok?
       <==> RoleVisible(db, tenant, r) ==> forall s :: s in db.roles && s != r ==> db.roles[s].name != name
    ensures UpdateRole(db, tenant, r, name).Err? ==> UpdateRole(db, tenant, r, name).error == IntegrityError
    ensures !RoleVisible(db, tenant, r) ==> UpdateRole(db, tenant, r, name) == Ok(db)
  {
  }

  /** The resource is there for the tenant, or can be inserted for it: its key is free in all tenants. */
  ghost predicate ResourceAvailable(db: Store, tenant: int, key: string) {
    || (exists r :: r in db.resources && db.resources[r].key == key && (tenant != 0 ==> db.resources[r].tenant == tenant))
    || (tenant != 0 && forall r :: r in db.resources ==> db.resources[r].key != key)
  }

  lemma GetOrCreateResourceIff(db: Store, tenant: int, key: string)
    ensures GetOrCreateResource(db, tenant, key).Ok? <==> ResourceAvailable(db, tenant, key)
    ensures GetOrCreateResource(db, tenant, key).Err? ==> GetOrCreateResource(db, tenant, key).error == IntegrityError
    ensures GetOrCreateResource(db, tenant, key).Ok? ==> GetOrCreateResource(db, tenant, key).value.0.permissions == db.permissions
    ensures GetOrCreateResource(db, tenant, key).Ok? ==>
              GetOrCreateResource(db, tenant, key).value.0.nextPermission == db.nextPermission
  {
    assert (exists r :: ResourceKeyed(db, tenant, key, r))
           <==> exists r :: r in db.resources && db.resources[r].key == key && (tenant != 0 ==> db.resources[r].tenant == tenant) by {
      forall r ensures ResourceKeyed(db, tenant, key, r)
                       <==> r in db.resources && db.resources[r].key == key && (tenant != 0 ==> db.resources[r].tenant == tenant) {
      }
    }
    CreateResourceIff(db, tenant, key);
  }

  /** A permission can be created exactly if there is a tenant, its resource is available, and no
      permission of any tenant has its key. */
  lemma CreatePermissionIff(db: Store, tenant: int, resource: string, action: string)
    requires Inv(db)
    ensures CreatePermission(db, tenant, resource, action).Ok?
       <==> tenant != 0 && ResourceAvailable(db, tenant, resource)
            && forall p :: p in db.permissions ==> db.permissions[p].key != PermissionKey(resource, action)
    ensures CreatePermission(db, tenant, resource, action).Err? ==> CreatePermission(db, tenant, resource, action).error == IntegrityError
  {
    GetOrCreateResourceIff(db, tenant, resource);
    assert db.nextPermission !in db.permissions;
    hide Inv, ResourceAvailable, GetOrCreateResource;
  }

  /** A permission can be changed exactly if the resource is available and no other permission, of any
      tenant, has the key; one out of scope is left alone. */
  lemma UpdatePermissionIff(db: Store, tenant: int, p: int, resource: string, action: string)
    ensures UpdatePermission(db, tenant, p, resource, action).Ok?
       <==> PermissionVisible(db, tenant, p) ==>
              ResourceAvailable(db, tenant, resource)
              && forall q :: q in db.permissions && q != p ==> db.permissions[q].key != PermissionKey(resource, action)
    ensures UpdatePermission(db, tenant, p, resource, action).Err? ==> UpdatePermission(db, tenant, p, resource, action).error == IntegrityError
    ensures !PermissionVisible(db, tenant, p) ==> UpdatePermission(db, tenant, p, resource, action) == Ok(db)
  {
    hide ResourceAvailable, GetOrCreateResource;
    GetOrCreateResourceIff(db, tenant, resource);
  }

  lemma CreateResourceIff(db: Store, tenant: int, key: string)
    ensures CreateResource(db, tenant, key).Ok? <==> tenant != 0 && forall r :: r in db.resources ==> db.resources[r].key != key
    ensures CreateResource(db, tenant, key).Err? ==> CreateResource(db, tenant, key).error == IntegrityError
  {
  }

  // ----- what a permission says of its resource -----

  /** The resource of every permission is a row whose key is the one the permission names. */
  ghost predicate NamesItsResource(db: Store) {
    forall p :: p in db.permissions ==>
      db.permissions[p].resourceId in db.resources && db.resources[db.permissions[p].resourceId].key == db.permissions[p].resource
  }

  /** Creating and updating store the resource and action asked for, with the id of that resource. */
  lemma CreatePermissionEffect(db: Store, tenant: int, resource: string, action: string)
    requires Inv(db) && NamesItsResource(db) && CreatePermission(db, tenant, resource, action).Ok?
    ensures
      var after := CreatePermission(db, tenant, resource, action).value;
      && NamesItsResource(after) && Extends(db.permissions, after.permissions)
      && after.roles == db.roles && after.links == db.links && after.grants == db.grants && after.rules == db.rules
      && exists p :: p !in db.permissions && after.permissions.Keys == db.permissions.Keys + {p}
                     && after.permissions[p].resource == resource && after.permissions[p].action == action
                     && after.permissions[p].key == PermissionKey(resource, action) && after.permissions[p].tenant == tenant
  {
    GetOrCreateResourceKeepsInv(db, tenant, resource);
    OldResourcesStay(db, tenant, resource);
    assert db.nextPermission !in db.permissions;
    hide Inv, GetOrCreateResource;
    var after := CreatePermission(db, tenant, resource, action).value;
    assert after.permissions.Keys == db.permissions.Keys + {db.nextPermission};
  }

  lemma OldResourcesStay(db: Store, tenant: int, key: string)
    requires Inv(db) && GetOrCreateResource(db, tenant, key).Ok?
    ensures Extends(db.resources, GetOrCreateResource(db, tenant, key).value.0.resources)
  {
    assert db.nextResource !in db.resources;
  }

  lemma UpdatePermissionEffect(db: Store, tenant: int, p: int, resource: string, action: string)
    requires Inv(db) && NamesItsResource(db) && UpdatePermission(db, tenant, p, resource, action).Ok?
    ensures
      var after := UpdatePermission(db, tenant, p, resource, action).value;
      && NamesItsResource(after)
      && (PermissionVisible(db, tenant, p) ==>
            && after.permissions.Keys == db.permissions.Keys
            && after.permissions[p].resource == resource && after.permissions[p].action == action
            && after.permissions[p].key == PermissionKey(resource, action)
            && after.permissions[p].tenant == db.permissions[p].tenant
            && forall q :: q in db.permissions && q != p ==> after.permissions[q] == db.permissions[q])
  {
    hide Inv, GetOrCreateResource, RenamedKey;
    if PermissionVisible(db, tenant, p) {
      GetOrCreateResourceKeepsInv(db, tenant, resource);
      OldResourcesStay(db, tenant, resource);
    }
  }

  lemma ApplyKeepsResources(db: Store, tenant: int, op: Op)
    requires Inv(db) && NamesItsResource(db) && Apply(db, tenant, op).Ok?
    ensures NamesItsResource(Apply(db, tenant, op).value)
  {
    match op
    case CreatePermissionOp(resource, action) => CreatePermissionEffect(db, tenant, resource, action);
    case UpdatePermissionOp(p, resource, action) => UpdatePermissionEffect(db, tenant, p, resource, action);
    case CreateResourceOp(key) => assert db.nextResource !in db.resources;
    case _ => OtherOpsKeepThem(db, tenant, op);
  }

  lemma OtherOpsKeepThem(db: Store, tenant: int, op: Op)
    requires Apply(db, tenant, op).Ok? && !op.CreatePermissionOp? && !op.UpdatePermissionOp? && !op.CreateResourceOp?
    ensures
      var after := Apply(db, tenant, op).value;
      after.resources == db.resources && forall p :: p in after.permissions ==> p in db.permissions && after.permissions[p] == db.permissions[p]
  {
    hide Filter, RenamedRole, Matches, NamesRole, NamesKey, ParseInt, RoleNameTaken;
  }

  /** Over every run each permission stays with its resource. */
  lemma {:induction false} RunKeepsResources(db: Store, requests: seq<Request>)
    requires Inv(db) && NamesItsResource(db)
    requires forall i :: 0 <= i < |requests| ==> Sound(requests[i].op)
    ensures NamesItsResource(Run(db, requests))
    decreases |requests|
  {
    if requests != [] {
      hide Inv, NamesItsResource, Apply;
      if Apply(db, requests[0].tenant, requests[0].op).Ok? {
        ApplyKeepsInv(db, requests[0].tenant, requests[0].op);
        ApplyKeepsResources(db, requests[0].tenant, requests[0].op);
      }
      RunKeepsResources(Step(db, requests[0].tenant, requests[0].op), requests[1..]);
    }
  }
}
