/** What single operations do to both copies of a mirrored store, stated without the tenant clauses of
    their statements: in a mirrored store a role's rows and rules all carry the role's tenant. */
module PolicyEffects {
  import opened Prelude
  import opened PolicyStore
  import opened PolicyMirror

  /** The rule speaks of a role with this name. */
  predicate About(rule: Rule, name: string) {
    if rule.ptype == P then rule.v0 == name else rule.v1 == name
  }

  lemma AboutIsNamesRole(db: Store, tenant: int, r: int, rule: Rule)
    requires Inv(db) && RoleVisible(db, tenant, r) && rule in db.rules
    ensures About(rule, db.roles[r].name) <==> NamesRole(tenant, db.roles[r].name, rule)
  {
    var s := RoleOfRule(db, rule);
    assert About(rule, db.roles[r].name) ==> s == r;
  }

  /** A role can be created if its name is free, and is new to links, grants and rules. */
  lemma CreateRoleEffect(db: Store, tenant: int, name: string)
    requires Inv(db)
    ensures CreateRole(db, tenant, name).Ok? <==> tenant != 0 && forall r :: r in db.roles ==> db.roles[r].name != name
    ensures CreateRole(db, tenant, name).Ok? ==>
      var after := CreateRole(db, tenant, name).value;
      && (exists r :: r !in db.roles && Named(after, tenant, name, r)
                      && (forall l :: l in after.links ==> l.role != r) && forall g :: g in after.grants ==> g.role != r)
      && (forall rule :: rule in after.rules ==> !About(rule, name))
      && Extends(db.roles, after.roles) && after.links == db.links && after.grants == db.grants
  {
    if CreateRole(db, tenant, name).Ok? {
      var after := CreateRole(db, tenant, name).value;
      assert Named(after, tenant, name, db.nextRole);
      forall rule | rule in after.rules ensures !About(rule, name) {
        var r := RoleOfRule(db, rule);
        assert db.roles[r].name != name;
      }
    }
  }

  /** delete_role removes the role, its links and grants and every rule about it, and nothing else. */
  lemma DeleteRoleEffect(db: Store, tenant: int, r: int)
    requires Inv(db) && RoleVisible(db, tenant, r)
    ensures DeleteRole(db, tenant, r).Ok?
    ensures
      var after := DeleteRole(db, tenant, r).value;
      && after.roles == db.roles - {r} && after.permissions == db.permissions && after.resources == db.resources
      && (forall l :: l in after.links <==> l in db.links && l.role != r)
      && (forall g :: g in after.grants <==> g in db.grants && g.role != r)
      && (forall rule :: rule in after.rules <==> rule in db.rules && !About(rule, db.roles[r].name))
  {
    DeleteRoleRows(db, tenant, r);
    hide Constraints, Owned, Mirrored;
    var after, name := DeleteRole(db, tenant, r).value, db.roles[r].name;
    forall rule ensures rule in after.rules <==> rule in db.rules && !About(rule, name) {
      FilterMember(db.rules, x => !NamesRole(tenant, name, x), rule);
      if rule in db.rules {
        AboutIsNamesRole(db, tenant, r, rule);
      }
    }
  }

  /** delete_permission removes the permission, its links and every rule with its key, and nothing else. */
  lemma DeletePermissionEffect(db: Store, tenant: int, p: int)
    requires Inv(db) && PermissionVisible(db, tenant, p)
    ensures DeletePermission(db, tenant, p).Ok?
    ensures
      var after := DeletePermission(db, tenant, p).value;
      && after.permissions == db.permissions - {p} && after.roles == db.roles && after.grants == db.grants
      && (forall l :: l in after.links <==> l in db.links && l.permission != p)
      && (forall rule :: rule in after.rules <==> rule in db.rules && !(rule.ptype == P && rule.v1 == db.permissions[p].key))
  {
    DeletePermissionKeepsInv(db, tenant, p);
    var after, key := DeletePermission(db, tenant, p).value, db.permissions[p].key;
    forall rule ensures rule in after.rules <==> rule in db.rules && !(rule.ptype == P && rule.v1 == key) {
      FilterMember(db.rules, x => !NamesKey(tenant, key, x), rule);
      if rule in db.rules && rule.ptype == P && rule.v1 == key {
        KeyOfRule(db, rule);
      }
    }
  }

  /** remove_permission_from_role removes the one link and the one rule. */
  lemma RemovePermissionEffect(db: Store, tenant: int, r: int, p: int)
    requires Inv(db) && RoleVisible(db, tenant, r) && PermissionVisible(db, tenant, p)
    ensures RemovePermission(db, tenant, r, p).Ok?
    ensures
      var after := RemovePermission(db, tenant, r, p).value;
      && after.roles == db.roles && after.permissions == db.permissions && after.grants == db.grants
      && (forall l :: l in after.links <==> l in db.links && l != Link(r, p))
      && (forall rule :: rule in after.rules <==>
            rule in db.rules && !(rule.ptype == P && rule.v0 == db.roles[r].name && rule.v1 == db.permissions[p].key))
  {
    var after, name, key := RemovePermission(db, tenant, r, p).value, db.roles[r].name, db.permissions[p].key;
    forall rule
      ensures rule in after.rules <==> rule in db.rules && !(rule.ptype == P && rule.v0 == name && rule.v1 == key)
    {
      FilterMember(db.rules, x => !Matches(tenant, P, name, key, x), rule);
      if rule in db.rules {
        AboutIsNamesRole(db, tenant, r, rule);
      }
    }
    assert Link(r, p) in db.links ==> InScope(tenant, db.links[Link(r, p)]);
  }

  /** The rule as it reads when the role it is about has another name. */
  function WithName(rule: Rule, name: string): Rule {
    if rule.ptype == P then rule.(v0 := name) else rule.(v1 := name)
  }

  lemma SameNameSameRole(db: Store, r: int, s: int)
    requires Inv(db) && r in db.roles && s in db.roles && db.roles[r].name == db.roles[s].name
    ensures r == s
  {
  }

  /** update_role gives the role its new name and touches no other row; every rule follows the role it
      is about, and carries the name that role has now. */
  lemma UpdateRoleEffect(db: Store, tenant: int, r: int, name: string, i: nat) returns (s: int)
    requires Inv(db) && RoleVisible(db, tenant, r) && UpdateRole(db, tenant, r, name).Ok? && i < |db.rules|
    ensures s in db.roles && About(db.rules[i], db.roles[s].name)
    ensures
      var after := UpdateRole(db, tenant, r, name).value;
      && after.roles == db.roles[r := Role(name, db.roles[r].tenant)]
      && after == db.(roles := after.roles, rules := after.rules) && |after.rules| == |db.rules|
      && after.rules[i] == WithName(db.rules[i], after.roles[s].name)
  {
    hide Constraints, Owned, Mirrored, RoleNameTaken;
    s := RoleOfRule(db, db.rules[i]);
    AboutIsNamesRole(db, tenant, r, db.rules[i]);
    if db.roles[s].name == db.roles[r].name {
      SameNameSameRole(db, r, s);
    }
  }
}
