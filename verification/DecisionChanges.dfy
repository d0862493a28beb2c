/** How each operation changes the answers of `can`, and that no tenant changes another's. */
module DecisionChanges {
  import opened Prelude
  import opened Strings
  import opened PolicyStore
  import opened PolicyMirror
  import opened PolicyEffects
  import opened Enforcement
  import opened Decisions

  /** A mirrored store whose names and keys the printed rules can tell apart. */
  ghost predicate Settled(db: Store) {
    Inv(db) && PlainKeys(db.roles, db.permissions) && Distinguishable(db.roles)
  }

  // ----- renaming -----

  /** Renaming a role changes no decision, whatever the tenant, user and permission asked about. */
  lemma RenameRoleKeepsDecisions(db: Store, tenant: int, r: int, name: string,
                                 asking: int, user: int, resource: string, action: string)
    requires Settled(db) && UpdateRole(db, tenant, r, name).Ok?
    requires Distinguishable(UpdateRole(db, tenant, r, name).value.roles)
    ensures Can(UpdateRole(db, tenant, r, name).value, asking, Str(user), resource, action)
       <==> Can(db, asking, Str(user), resource, action)
  {
    var after := UpdateRole(db, tenant, r, name).value;
    var key := PermissionKey(resource, action);
    hide Constraints, Owned, Mirrored, Distinguishable, PlainKeys, Can, UpdateRole, IsWildcard, IsLinked;
    UpdateRoleKeepsInv(db, tenant, r, name);
    RenamedPlain(db, tenant, r, name);
    CanRefines(db, asking, user, resource, action);
    CanRefines(after, asking, user, resource, action);
    RenamedOpens(db, tenant, r, name, key);
    assert forall s :: HoldsRole(after, asking, user, s) <==> HoldsRole(db, asking, user, s);
  }

  lemma RenamedPlain(db: Store, tenant: int, r: int, name: string)
    requires PlainKeys(db.roles, db.permissions) && UpdateRole(db, tenant, r, name).Ok?
    ensures
      var after := UpdateRole(db, tenant, r, name).value;
      PlainKeys(after.roles, after.permissions)
  {
    hide Plain;
  }

  lemma RenamedOpens(db: Store, tenant: int, r: int, name: string, key: string)
    requires Inv(db) && UpdateRole(db, tenant, r, name).Ok?
    ensures
      var after := UpdateRole(db, tenant, r, name).value;
      && after.grants == db.grants
      && forall s :: (IsWildcard(after, s) <==> IsWildcard(db, s)) && (IsLinked(after, s, key) <==> IsLinked(db, s, key))
  {
    hide IsWildcard, Inv;
    forall s {
      RenamedWildcard(db, tenant, r, name, s);
    }
  }

  lemma RenamedWildcard(db: Store, tenant: int, r: int, name: string, s: int)
    requires Inv(db) && UpdateRole(db, tenant, r, name).Ok?
    ensures IsWildcard(UpdateRole(db, tenant, r, name).value, s) <==> IsWildcard(db, s)
  {
    var after := UpdateRole(db, tenant, r, name).value;
    if RoleVisible(db, tenant, r) && db.roles[r].name != name {
      if IsWildcard(db, s) {
        var i :| 0 <= i < |db.rules| && db.rules[i] == WildcardRule(db.roles[s]);
        assert after.rules[i] == WildcardRule(after.roles[s]);
      }
      if IsWildcard(after, s) {
        var i :| 0 <= i < |db.rules| && after.rules[i] == WildcardRule(after.roles[s]);
        var a := RoleOfRule(db, db.rules[i]);
        assert a == s;
        assert db.rules[i] == WildcardRule(db.roles[s]);
      }
    } else {
      assert after.roles == db.roles;
    }
  }

  /** What a user may do through wildcard roles alone. */
  ghost predicate WildcardCan(db: Store, tenant: int, user: int) {
    exists r :: HoldsRole(db, tenant, user, r) && IsWildcard(db, r)
  }

  /** Renaming a permission hands the answers for its old key to the new key: the old key keeps only
      what wildcards give, and every other key keeps all its answers. */
  lemma RenamePermissionMovesDecisions(db: Store, tenant: int, p: int, resource: string, action: string,
                                       asking: int, user: int, askedResource: string, askedAction: string)
    requires Settled(db) && PermissionVisible(db, tenant, p)
    requires UpdatePermission(db, tenant, p, resource, action).Ok?
    requires PlainKeys(db.roles, UpdatePermission(db, tenant, p, resource, action).value.permissions)
    requires db.permissions[p].key != PermissionKey(resource, action)
    ensures
      var asked := PermissionKey(askedResource, askedAction);
      var now := Can(UpdatePermission(db, tenant, p, resource, action).value, asking, Str(user), askedResource, askedAction);
      if asked == PermissionKey(resource, action) then now <==> RelCan(db, asking, user, db.permissions[p].key)
      else if asked == db.permissions[p].key then now <==> WildcardCan(db, asking, user)
      else now <==> Can(db, asking, Str(user), askedResource, askedAction)
  {
    var after := UpdatePermission(db, tenant, p, resource, action).value;
    var asked := PermissionKey(askedResource, askedAction);
    UpdatePermissionRows(db, tenant, p, resource, action);
    UpdatePermissionKeepsInv(db, tenant, p, resource, action);
    CanRefines(db, asking, user, askedResource, askedAction);
    CanRefines(after, asking, user, askedResource, askedAction);
    RekeyedWildcards(db, after, tenant, p);
    assert forall s :: HoldsRole(after, asking, user, s) <==> HoldsRole(db, asking, user, s);
    RekeyedLinks(db, after, tenant, p, asked);
  }

  lemma RekeyedWildcards(db: Store, after: Store, tenant: int, p: int)
    requires Inv(db) && PermissionVisible(db, tenant, p) && KeyRenamed(db, after, tenant, p)
    ensures forall s :: IsWildcard(after, s) <==> IsWildcard(db, s)
  {
    forall s | s in db.roles ensures WildcardRule(db.roles[s]) in after.rules <==> WildcardRule(db.roles[s]) in db.rules {
      var rule := WildcardRule(db.roles[s]);
      if rule in db.rules {
        var i :| 0 <= i < |db.rules| && db.rules[i] == rule;
        assert after.rules[i] == rule;
      }
      if rule in after.rules {
        var i :| 0 <= i < |db.rules| && after.rules[i] == rule;
        assert db.rules[i] == rule;
      }
    }
  }

  lemma RekeyedLinks(db: Store, after: Store, tenant: int, p: int, asked: string)
    requires Inv(db) && PermissionVisible(db, tenant, p) && KeyRenamed(db, after, tenant, p)
    requires db.permissions[p].key != after.permissions[p].key
    ensures
      var before, now := db.permissions[p].key, after.permissions[p].key;
      forall s :: if asked == now then IsLinked(after, s, asked) <==> IsLinked(db, s, before)
                  else if asked == before then !IsLinked(after, s, asked)
                  else IsLinked(after, s, asked) <==> IsLinked(db, s, asked)
  {
  }

  // ----- granting and revoking -----

  /** Linking a permission to a role adds that permission for the role's holders and nothing else. */
  lemma AssignPermissionAddsDecisions(db: Store, tenant: int, r: int, p: int,
                                      asking: int, user: int, resource: string, action: string)
    requires Settled(db) && AssignPermission(db, tenant, r, p).Ok?
    ensures Can(AssignPermission(db, tenant, r, p).value, asking, Str(user), resource, action)
       <==> Can(db, asking, Str(user), resource, action)
            || (HoldsRole(db, asking, user, r) && db.permissions[p].key == PermissionKey(resource, action))
  {
    var after := AssignPermission(db, tenant, r, p).value;
    var key := PermissionKey(resource, action);
    AssignPermissionEffect(db, tenant, r, p);
    LinkKeepsInv(db, Link(r, p));
    CanRefines(db, asking, user, resource, action);
    CanRefines(after, asking, user, resource, action);
    assert forall s :: HoldsRole(after, asking, user, s) <==> HoldsRole(db, asking, user, s);
    assert forall s :: IsWildcard(after, s) <==> IsWildcard(db, s);
    assert Link(r, p) in after.links;
    assert forall s :: IsLinked(after, s, key) <==> IsLinked(db, s, key) || (s == r && db.permissions[p].key == key);
  }

  /** Unlinking a permission from a role takes that permission from the role and nothing else. */
  lemma RemovePermissionDropsDecisions(db: Store, tenant: int, r: int, p: int,
                                       asking: int, user: int, resource: string, action: string)
    requires Settled(db) && RoleVisible(db, tenant, r) && PermissionVisible(db, tenant, p)
    ensures RemovePermission(db, tenant, r, p).Ok?
    ensures Can(RemovePermission(db, tenant, r, p).value, asking, Str(user), resource, action)
       <==> exists s :: HoldsRole(db, asking, user, s)
                        && (IsWildcard(db, s)
                            || (IsLinked(db, s, PermissionKey(resource, action))
                                && !(s == r && db.permissions[p].key == PermissionKey(resource, action))))
  {
    hide Inv, Distinguishable, PlainKeys, Can, RemovePermission, IsWildcard, IsLinked;
    RemovePermissionKeepsInv(db, tenant, r, p);
    var after, key := RemovePermission(db, tenant, r, p).value, PermissionKey(resource, action);
    RemovedOpens(db, tenant, r, p, key);
    CanRefines(after, asking, user, resource, action);
    assert forall s :: HoldsRole(after, asking, user, s) <==> HoldsRole(db, asking, user, s);
  }

  lemma RemovedOpens(db: Store, tenant: int, r: int, p: int, key: string)
    requires Inv(db) && RoleVisible(db, tenant, r) && PermissionVisible(db, tenant, p)
    ensures
      var after := RemovePermission(db, tenant, r, p).value;
      && after.grants == db.grants && after.roles == db.roles && after.permissions == db.permissions
      && forall s :: (IsWildcard(after, s) <==> IsWildcard(db, s))
                     && (IsLinked(after, s, key) <==> IsLinked(db, s, key) && !(s == r && db.permissions[p].key == key))
  {
    hide Owned, UniqueNames, UniqueResources, Mirrored;
    RemovePermissionEffect(db, tenant, r, p);
    KeyIsAsked(db, p);
  }

  /** Deleting a permission takes the answers for its key, but for those wildcards give, and no others. */
  lemma DeletePermissionDropsDecisions(db: Store, tenant: int, p: int, asking: int, user: int, resource: string, action: string)
    requires Settled(db) && PermissionVisible(db, tenant, p)
    ensures DeletePermission(db, tenant, p).Ok?
    ensures Can(DeletePermission(db, tenant, p).value, asking, Str(user), resource, action)
       <==> if PermissionKey(resource, action) == db.permissions[p].key then WildcardCan(db, asking, user)
            else Can(db, asking, Str(user), resource, action)
  {
    var key := PermissionKey(resource, action);
    DeletePermissionKeepsInv(db, tenant, p);
    var after := DeletePermission(db, tenant, p).value;
    UnlinkedOpens(db, tenant, p, key);
    assert after.roles == db.roles && PlainKeys(after.roles, after.permissions);
    hide Inv, Distinguishable, PlainKeys, Can, DeletePermission, IsWildcard, IsLinked;
    CanRefines(db, asking, user, resource, action);
    CanRefines(after, asking, user, resource, action);
    assert forall s :: HoldsRole(after, asking, user, s) <==> HoldsRole(db, asking, user, s);
  }

  lemma UnlinkedOpens(db: Store, tenant: int, p: int, key: string)
    requires Inv(db) && PermissionVisible(db, tenant, p)
    ensures DeletePermission(db, tenant, p).Ok?
    ensures
      var after := DeletePermission(db, tenant, p).value;
      && after.grants == db.grants
      && forall s :: (IsWildcard(after, s) <==> IsWildcard(db, s))
                     && (IsLinked(after, s, key) <==> key != db.permissions[p].key && IsLinked(db, s, key))
  {
    DeletePermissionEffect(db, tenant, p);
    hide Mirrored, Owned;
    assert db.permissions[p].key != "*" by { KeyIsAsked(db, p); }
  }

  lemma KeyIsAsked(db: Store, p: int)
    requires Inv(db) && p in db.permissions
    ensures db.permissions[p].key != "*"
  {
    assert Composed(db.permissions[p]);
  }

  /** Giving a user a role adds what the role opens, to that user alone. */
  lemma AssignRoleAddsDecisions(db: Store, tenant: int, subject: string, name: string,
                                asking: int, user: int, resource: string, action: string) returns (g: Grant)
    requires Settled(db) && Canonical(subject) && AssignRole(db, tenant, subject, name).Ok?
    ensures Named(db, tenant, name, g.role) && Str(g.user) == subject
    ensures Can(AssignRole(db, tenant, subject, name).value, asking, Str(user), resource, action)
       <==> Can(db, asking, Str(user), resource, action)
            || (user == g.user && InScope(asking, db.roles[g.role].tenant)
                && (IsWildcard(db, g.role) || IsLinked(db, g.role, PermissionKey(resource, action))))
  {
    var after := AssignRole(db, tenant, subject, name).value;
    var key := PermissionKey(resource, action);
    g := AssignRoleEffect(db, tenant, subject, name);
    AssignRoleKeepsInvIff(db, tenant, subject, name);
    CanRefines(db, asking, user, resource, action);
    CanRefines(after, asking, user, resource, action);
    assert g == Grant(g.user, g.role);
    assert forall s :: IsWildcard(after, s) <==> IsWildcard(db, s);
    assert forall s :: IsLinked(after, s, key) <==> IsLinked(db, s, key);
    assert forall s :: HoldsRole(after, asking, user, s)
                       <==> HoldsRole(db, asking, user, s)
                            || (Grant(user, s) == g && InScope(asking, db.roles[g.role].tenant));
  }

  /** Deleting a role takes its answers away and leaves those of every other role. */
  lemma DeleteRoleDropsDecisions(db: Store, tenant: int, r: int,
                                 asking: int, user: int, resource: string, action: string)
    requires Settled(db) && RoleVisible(db, tenant, r)
    ensures DeleteRole(db, tenant, r).Ok?
    ensures Can(DeleteRole(db, tenant, r).value, asking, Str(user), resource, action)
       <==> exists s :: s != r && HoldsRole(db, asking, user, s)
                        && (IsWildcard(db, s) || IsLinked(db, s, PermissionKey(resource, action)))
  {
    var after := DeleteRole(db, tenant, r).value;
    hide Owned, Mirrored, Distinguishable, Can;
    DeleteRoleRows(db, tenant, r);
    DeleteRoleKeepsInv(db, tenant, r);
    CanRefines(after, asking, user, resource, action);
    DeletedOpens(db, tenant, r, PermissionKey(resource, action));
    assert forall s :: HoldsRole(after, asking, user, s) <==> s != r && HoldsRole(db, asking, user, s);
  }

  lemma DeletedOpens(db: Store, tenant: int, r: int, key: string)
    requires Inv(db) && RoleVisible(db, tenant, r) && DeleteRole(db, tenant, r).Ok?
    ensures
      var after := DeleteRole(db, tenant, r).value;
      forall s :: s != r ==> (IsWildcard(after, s) <==> IsWildcard(db, s)) && (IsLinked(after, s, key) <==> IsLinked(db, s, key))
  {
    hide Owned, Mirrored;
    var after := DeleteRole(db, tenant, r).value;
    var keep := rule => !NamesRole(tenant, db.roles[r].name, rule);
    forall rule ensures rule in after.rules <==> rule in db.rules && keep(rule) {
      FilterMember(db.rules, keep, rule);
    }
  }

  // ----- tenants -----

  ghost predicate SameElsewhere<K(!new), V>(before: map<K, V>, after: map<K, V>, mine: V -> bool) {
    forall k :: (k in before && !mine(before[k])) || (k in after && !mine(after[k]))
                ==> k in before && k in after && before[k] == after[k]
  }

  function Elsewhere(rules: seq<Rule>, tenant: int): seq<Rule> {
    Filter(rules, (rule: Rule) => rule.tenant != tenant)
  }

  /** The rows of the other tenants, table by table. */
  ghost predicate Framed(db: Store, after: Store, tenant: int) {
    && SameElsewhere(db.roles, after.roles, (role: Role) => role.tenant == tenant)
    && SameElsewhere(db.permissions, after.permissions, (p: Permission) => p.tenant == tenant)
    && SameElsewhere(db.resources, after.resources, (r: Resource) => r.tenant == tenant)
    && SameElsewhere(db.links, after.links, (t: int) => t == tenant)
    && SameElsewhere(db.grants, after.grants, (t: int) => t == tenant)
    && Elsewhere(db.rules, tenant) == Elsewhere(after.rules, tenant)
  }

  lemma {:induction false} ElsewherePointwise(before: seq<Rule>, after: seq<Rule>, tenant: int)
    requires |before| == |after|
    requires forall i :: 0 <= i < |before| ==>
               before[i].tenant == after[i].tenant && (before[i].tenant != tenant ==> before[i] == after[i])
    ensures Elsewhere(before, tenant) == Elsewhere(after, tenant)
  {
    if before != [] {
      ElsewherePointwise(before[1..], after[1..], tenant);
    }
  }

  lemma ElsewhereAddPolicy(db: Store, tenant: int, ptype: Ptype, v0: string, v1: string)
    requires tenant != 0 && AddPolicy(db, tenant, ptype, v0, v1).Ok?
    ensures
      var after := AddPolicy(db, tenant, ptype, v0, v1).value;
      after == db.(rules := after.rules) && Elsewhere(after.rules, tenant) == Elsewhere(db.rules, tenant)
  {
    FilterConcat(db.rules, [Rule(ptype, v0, v1, tenant)], (rule: Rule) => rule.tenant != tenant);
  }

  lemma UpdateRoleFrame(db: Store, tenant: int, r: int, name: string)
    requires Constraints(db) && tenant != 0 && UpdateRole(db, tenant, r, name).Ok?
    ensures Framed(db, UpdateRole(db, tenant, r, name).value, tenant)
  {
    hide UniqueNames, UniqueKeys, UniqueResources;
    var after := UpdateRole(db, tenant, r, name).value;
    if after.rules != db.rules {
      ElsewherePointwise(db.rules, after.rules, tenant);
    }
  }

  lemma DeleteRoleFrame(db: Store, tenant: int, r: int)
    requires Constraints(db) && tenant != 0 && DeleteRole(db, tenant, r).Ok?
    ensures Framed(db, DeleteRole(db, tenant, r).value, tenant)
  {
    hide UniqueNames, UniqueKeys, UniqueResources;
    if RoleVisible(db, tenant, r) {
      var name := db.roles[r].name;
      FilterFilter(db.rules, rule => !NamesRole(tenant, name, rule), (rule: Rule) => rule.tenant != tenant);
    }
  }

  lemma RoleFrame(db: Store, tenant: int, op: Op)
    requires Constraints(db) && tenant != 0 && Apply(db, tenant, op).Ok?
    requires op.CreateRoleOp? || op.UpdateRoleOp? || op.DeleteRoleOp?
    ensures Framed(db, Apply(db, tenant, op).value, tenant)
  {
    match op {
      case UpdateRoleOp(r, name) => UpdateRoleFrame(db, tenant, r, name);
      case DeleteRoleOp(r) => DeleteRoleFrame(db, tenant, r);
      case _ =>
    }
  }

  lemma ResourceFrame(db: Store, tenant: int, key: string)
    requires Constraints(db) && tenant != 0 && GetOrCreateResource(db, tenant, key).Ok?
    ensures
      var after := GetOrCreateResource(db, tenant, key).value.0;
      && SameElsewhere(db.resources, after.resources, (r: Resource) => r.tenant == tenant)
      && after == db.(resources := after.resources, nextResource := after.nextResource)
  {
  }

  lemma CreatePermissionFrame(db: Store, tenant: int, resource: string, action: string)
    requires Constraints(db) && tenant != 0 && CreatePermission(db, tenant, resource, action).Ok?
    ensures Framed(db, CreatePermission(db, tenant, resource, action).value, tenant)
  {
    hide UniqueNames, UniqueKeys, UniqueResources, GetOrCreateResource, KeyTaken, Elsewhere;
    ResourceFrame(db, tenant, resource);
  }

  lemma UpdatePermissionFrame(db: Store, tenant: int, p: int, resource: string, action: string)
    requires Constraints(db) && tenant != 0 && UpdatePermission(db, tenant, p, resource, action).Ok?
    ensures Framed(db, UpdatePermission(db, tenant, p, resource, action).value, tenant)
  {
    hide UniqueNames, UniqueKeys, UniqueResources, GetOrCreateResource, KeyTaken, Elsewhere;
    var after := UpdatePermission(db, tenant, p, resource, action).value;
    if PermissionVisible(db, tenant, p) {
      ResourceFrame(db, tenant, resource);
      if after.rules != db.rules {
        ElsewherePointwise(db.rules, after.rules, tenant);
      }
    }
  }

  lemma DeletePermissionFrame(db: Store, tenant: int, p: int)
    requires Constraints(db) && tenant != 0 && DeletePermission(db, tenant, p).Ok?
    ensures Framed(db, DeletePermission(db, tenant, p).value, tenant)
  {
    hide UniqueNames, UniqueKeys, UniqueResources;
    if PermissionVisible(db, tenant, p) {
      var key := db.permissions[p].key;
      FilterFilter(db.rules, rule => !NamesKey(tenant, key, rule), (rule: Rule) => rule.tenant != tenant);
    }
  }

  lemma LinkFrame(db: Store, tenant: int, op: Op)
    requires Constraints(db) && tenant != 0 && Apply(db, tenant, op).Ok?
    requires op.AssignPermissionOp? || op.RemovePermissionOp?
    ensures Framed(db, Apply(db, tenant, op).value, tenant)
  {
    hide UniqueNames, UniqueKeys, UniqueResources;
    if RoleVisible(db, tenant, op.role) && PermissionVisible(db, tenant, op.permission) {
      var l, name, key := Link(op.role, op.permission), db.roles[op.role].name, db.permissions[op.permission].key;
      if op.AssignPermissionOp? {
        var base := if l in db.links then db else db.(links := db.links[l := tenant]);
        ElsewhereAddPolicy(base, tenant, P, name, key);
      } else {
        FilterFilter(db.rules, rule => !Matches(tenant, P, name, key, rule), (rule: Rule) => rule.tenant != tenant);
      }
    }
  }

  lemma GrantFrame(db: Store, tenant: int, subject: string, name: string)
    requires Constraints(db) && tenant != 0 && AssignRole(db, tenant, subject, name).Ok?
    ensures Framed(db, AssignRole(db, tenant, subject, name).value, tenant)
  {
    hide UniqueNames, UniqueKeys, UniqueResources;
    var r :| Named(db, tenant, name, r);
    var g := Grant(ParseInt(subject).value, r);
    var base := if g in db.grants then db else db.(grants := db.grants[g := tenant]);
    ElsewhereAddPolicy(base, tenant, G, subject, name);
  }

  /** Working for a nonzero tenant, no operation touches a row of another tenant, even where its
      DELETE carries no tenant clause. */
  lemma TenantFrame(db: Store, tenant: int, op: Op)
    requires Constraints(db) && tenant != 0 && Apply(db, tenant, op).Ok?
    ensures Framed(db, Apply(db, tenant, op).value, tenant)
  {
    match op
    case CreateRoleOp(_) | UpdateRoleOp(_, _) | DeleteRoleOp(_) => RoleFrame(db, tenant, op);
    case CreatePermissionOp(resource, action) => CreatePermissionFrame(db, tenant, resource, action);
    case DeletePermissionOp(p) => DeletePermissionFrame(db, tenant, p);
    case UpdatePermissionOp(p, resource, action) => UpdatePermissionFrame(db, tenant, p, resource, action);
    case AssignPermissionOp(_, _) | RemovePermissionOp(_, _) => LinkFrame(db, tenant, op);
    case AssignRoleOp(subject, name) => GrantFrame(db, tenant, subject, name);
    case CreateResourceOp(_) =>
    case RegisterUserOp(_) =>
  }

  /** So no tenant's operation changes a decision made for another tenant. */
  lemma TenantIsolation(db: Store, tenant: int, op: Op, other: int, subject: string, resource: string, action: string)
    requires Constraints(db) && tenant != 0 && other != 0 && other != tenant
    ensures Can(Step(db, tenant, op), other, subject, resource, action) <==> Can(db, other, subject, resource, action)
  {
    if Apply(db, tenant, op).Ok? {
      var after := Apply(db, tenant, op).value;
      TenantFrame(db, tenant, op);
      var theirs := (rule: Rule) => InScope(other, rule.tenant);
      FilterFilter(db.rules, (rule: Rule) => rule.tenant != tenant, theirs);
      FilterFilter(after.rules, (rule: Rule) => rule.tenant != tenant, theirs);
      assert ScopedRules(db.rules, other) == ScopedRules(after.rules, other);
    }
  }
}
