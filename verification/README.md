# Verified model of the authorization, migration, paging and session code

A Dafny model of the stateful parts of this backend, with proofs about whole runs. Tables are maps or
sequences of rows; what the code changes in place is the field of a class, and every method of those
classes is proved to have the effect of a function on the state. The theorems are about those functions.

Check it with `dafny verify dfyconfig.toml`.

| files | what they cover |
|---|---|
| `Prelude`, `Strings` | filters on tables; `str`, `int`, `strip`, `split` and `join` as Python has them |
| `PolicyStore`, `PolicyMirror`, `PolicyEffects`, `PolicyAnswers`, `PolicyRepository` | the policy repository: each fact is stored in id tables and again as a Casbin rule keyed by role name and permission key; every operation keeps the two copies alike; when each goes through |
| `Enforcement`, `Decisions`, `DecisionChanges` | what `can` answers from the printed rules, when that is what the id tables say, and how each operation changes it |
| `Seed`, `SeedDecisions` | the authorization seeder, run on the repository, and what `can` answers after it |
| `IdMigration`, `IdMigrationRun`, `IdMigrationTheorems`, `IdMigrationUse` | the migration from uuid to integer keys, its downgrade, and the use of the database in between |
| `KeysetPaging` | cursor pagination of roles, permissions and todos, and the links of the list route |
| `Lockout` | failed logins and account locks |
| `Sessions`, `SessionHandlers`, `Denylist` | login, refresh rotation and logout inside the unit of work, and the access tokens denied after a logout |
| `TwoFactor`, `TwoFactorService` | backup codes and e-mail codes |
| `Idempotency` | the idempotency middleware |

## What the model assumes

- One handler execution is one step: the code takes no row locks, and nothing is claimed for interleaved handlers.
- Clocks do not go back. Times, drawn secrets, drawn uuids, new tokens and the verdict of the TOTP library are parameters;
  new tokens and uuids differ from those in use, and hashes are collision-free, so that the hashed value stands for its hash.
- A tenant id of 0 stands for no tenant. `tenant_id` is NOT NULL, so an insert without a tenant raises.
- Unique names, keys and ids, foreign keys and NOT NULL are enforced by the database: a statement that would break them raises,
  and the transaction is rolled back.
- A migration runs in one transaction (`alembic/env.py:70-74`), so one that raises changes nothing.

## Where the code does not keep a promise

- The answers of `can` are those of the id tables only if role names have no comma, are distinct up to outer blanks and are no
  ids up to outer blanks, and the permission keys of a tenant that has a role have no comma and no outer blank;
  `Decisions.DecisionsFollowTablesIff` shows that this condition is exact. The routes accept names, resources and actions that
  break it.
- `assign_role` takes every subject that `int` parses, such as `007`, but then the two copies differ
  (`PolicyMirror.AssignRoleKeepsInvIff`, `Strings.LeadingZerosAreNotCanonical`). Its two callers pass `str(id)`, so this needs a
  new caller.
- The repository's README (lines 500-506) calls `make seed` the way to create the baseline records. The runner gives the seeder no
  tenant, and on an empty store it then raises (`Seed.EmptyStoreNeedsTenant`).
- After the upgrade, a row whose parent was also added after it makes the downgrade fail: it goes through exactly if there is no such
  row (`IdMigrationRun.Database.Downgrade`); a new tenant with a role is such a case
  (`IdMigrationUse.NewTenantBlocksDowngrade`).
- After a fetch backwards the next link tells of newer rows, not of older ones (`KeysetPaging.PreviousFetch`).
- An e-mail code overwrites the TOTP secret: an enrolled secret survives exactly as long as no e-mail code is sent
  (`TwoFactor.TotpSurvivesIff`, `TwoFactor.EmailCodeDisplacesTotp`).
- The cache key of the idempotency middleware joins caller, path and idempotency key with colons and escapes none: with colons in a path
  it can be shared by different requests (`Idempotency.ColonsBlurKeys`); without colons in callers and paths it is exact
  (`Idempotency.KeysAreExact`).
- A logout whose commit fails leaves the sessions as they were but the access token denied
  (`SessionHandlers.Handlers.Logout`).

The upgrade would also lose an index on an id column, and the downgrade bring it back only if it is on a foreign key too
(`IdMigrationTheorems.IndexesKeptIff`, `IdMigrationTheorems.IndexesAfterRoundTrip`). No migration of this repository creates such
an index, so the input does not arise in this schema.

## Model

| member | source | states |
|---|---|---|
| `PolicyMirror.RunKeepsInv` | src/modules/authorization/infrastructure/repositories/casbin_policy_repository.py:52-425 | after every run of requests, by any tenants and with any failures, the string rules and the id tables say the same: non-wildcard p rules are exactly the links, g rules exactly the grants, wildcards name existing roles, and no rule occurs twice |
| `PolicyMirror.ApplyKeepsInv` | src/modules/authorization/infrastructure/repositories/casbin_policy_repository.py:95-425 | each operation that does not raise keeps that invariant |
| `PolicyMirror.AssignRoleKeepsInvIff` | src/modules/authorization/infrastructure/repositories/casbin_policy_repository.py:95-117 | assign_role keeps the two copies alike if and only if the subject is printed as `str` prints ids, as both its callers print it |
| `Strings.LeadingZerosAreNotCanonical` | src/modules/authorization/infrastructure/repositories/casbin_policy_repository.py:100-117 | `007` parses to 7 and is not what `str` prints |
| `PolicyMirror.AssignRoleEffect` | src/modules/authorization/infrastructure/repositories/casbin_policy_repository.py:95-117 | on a mirrored store assign_role leaves exactly one grant and one g rule for the parsed user, owned by the role's tenant |
| `PolicyMirror.AssignPermissionEffect` | src/modules/authorization/infrastructure/repositories/casbin_policy_repository.py:362-391 | on a mirrored store assign_permission_to_role leaves exactly one link and one p rule, both owned by the role's tenant |
| `PolicyMirror.AtMostOneMatch` | src/modules/authorization/infrastructure/repositories/casbin_policy_repository.py:52-65 | names being unique across tenants, the single-row lookup of add_policy never meets two rows, whatever the tenant filter |
| `PolicyMirror.AddPolicyEffect` | src/modules/authorization/infrastructure/repositories/casbin_policy_repository.py:52-79 | add_policy on a mirrored store never raises for several matches; it adds the rule once, or nothing if it is there |
| `PolicyMirror.UpdateRoleKeepsInv` | src/modules/authorization/infrastructure/repositories/casbin_policy_repository.py:207-224 | a rename that goes through keeps the invariant: no rule keeps the old name and none is doubled |
| `PolicyMirror.RenamedRulesNoDup` | src/modules/authorization/infrastructure/repositories/casbin_policy_repository.py:472-491 | renaming to a free name merges no two rules |
| `PolicyMirror.UpdatePermissionKeepsInv` | src/modules/authorization/infrastructure/repositories/casbin_policy_repository.py:315-336 | an update that goes through keeps the invariant: rules carry the new key, wildcards stay wildcards |
| `PolicyMirror.RenamedKeyNoDup` | src/modules/authorization/infrastructure/repositories/casbin_policy_repository.py:493-502 | rekeying to a free key merges no two rules |
| `PolicyMirror.DeleteRoleKeepsInv` | src/modules/authorization/infrastructure/repositories/casbin_policy_repository.py:231-254 | on a mirrored store delete_role never raises, and keeps the invariant |
| `PolicyMirror.DeletePermissionKeepsInv` | src/modules/authorization/infrastructure/repositories/casbin_policy_repository.py:338-360 | on a mirrored store delete_permission never raises, and keeps the invariant |
| `PolicyMirror.RemovePermissionKeepsInv` | src/modules/authorization/infrastructure/repositories/casbin_policy_repository.py:408-425 | unlinking never raises and keeps the invariant, so link and rule go together |
| `PolicyMirror.CreatePermissionKeepsInv` | src/modules/authorization/infrastructure/repositories/casbin_policy_repository.py:256-268 | creating a permission, and its resource when missing, keeps the mirror |
| `PolicyEffects.CreateRoleEffect` | src/modules/authorization/infrastructure/repositories/casbin_policy_repository.py:152-160 | create_role goes through if and only if there is a tenant and the name is free in all tenants; the new role has no link, grant or rule |
| `PolicyEffects.DeleteRoleEffect` | src/modules/authorization/infrastructure/repositories/casbin_policy_repository.py:231-254 | delete_role removes the role, all its links and grants and every rule about it, wildcards too, and nothing else; the tenant clauses leave nothing behind |
| `PolicyEffects.DeletePermissionEffect` | src/modules/authorization/infrastructure/repositories/casbin_policy_repository.py:338-360 | delete_permission removes the permission, all its links and every rule with its key, and nothing else |
| `PolicyEffects.RemovePermissionEffect` | src/modules/authorization/infrastructure/repositories/casbin_policy_repository.py:408-425 | removes the one link and the one rule, and nothing else |
| `PolicyEffects.UpdateRoleEffect` | src/modules/authorization/infrastructure/repositories/casbin_policy_repository.py:207-224 | update_role gives the role its new name and touches no other row; every rule then carries the name that the role it is about has now |
| `PolicyAnswers.AssignRoleIff` | src/modules/authorization/infrastructure/repositories/casbin_policy_repository.py:95-117 | assign_role goes through if and only if the subject is a number, a role of that name is in scope and the user exists (without a tenant: holds the role already, under a subject printed as `str` prints it); an unknown role or a subject that is no number raises ValueError, all else IntegrityError |
| `PolicyAnswers.RegisteredMayHold` | src/modules/user/application/auth/register_user/handler.py:44-51 | a user who has just registered can be given every role of the tenant, and then holds it |
| `PolicyAnswers.AssignPermissionIff` | src/modules/authorization/infrastructure/repositories/casbin_policy_repository.py:362-391 | a permission can be linked if and only if role and permission are in scope and, without a tenant, the link is there already; which error comes otherwise |
| `PolicyAnswers.AddPolicyIff` | src/modules/authorization/infrastructure/repositories/casbin_policy_repository.py:52-79 | add_policy on a mirrored store raises if and only if the rule is missing and there is no tenant |
| `PolicyAnswers.UpdateRoleIff` | src/modules/authorization/infrastructure/repositories/casbin_policy_repository.py:207-224 | a role can be renamed if and only if no other role of any tenant has the name; one out of scope is left alone |
| `PolicyAnswers.UpdatePermissionIff` | src/modules/authorization/infrastructure/repositories/casbin_policy_repository.py:315-336 | a permission can be changed if and only if its resource is there or can be inserted and no other permission of any tenant has the key; one out of scope is left alone |
| `PolicyAnswers.CreatePermissionIff` | src/modules/authorization/infrastructure/repositories/casbin_policy_repository.py:256-268 | a permission can be created if and only if there is a tenant, its resource is there or can be inserted, and its key is free in all tenants |
| `PolicyAnswers.GetOrCreateResourceIff` | src/modules/authorization/infrastructure/repositories/casbin_policy_repository.py:437-458 | a resource is found or inserted if and only if the tenant has it or its key is free in all tenants |
| `PolicyAnswers.CreatePermissionEffect` | src/modules/authorization/infrastructure/repositories/casbin_policy_repository.py:256-268 | one permission is added with the resource, action and key asked for, and names a resource row with that key |
| `PolicyAnswers.UpdatePermissionEffect` | src/modules/authorization/infrastructure/repositories/casbin_policy_repository.py:315-336 | the permission takes the resource, action and key asked for, and no other permission changes |
| `PolicyAnswers.RunKeepsResources` | src/modules/authorization/infrastructure/repositories/casbin_policy_repository.py:256-336 | over every run the resource id of each permission is that of a resource with the key the permission names |
| `PolicyRepository.Repository.AddPolicy` | src/modules/authorization/infrastructure/repositories/casbin_policy_repository.py:52-79 | the statement-by-statement method has the effect and the error of its specification |
| `PolicyRepository.Repository.RemovePolicy` | src/modules/authorization/infrastructure/repositories/casbin_policy_repository.py:81-93 | every matching rule in scope goes, no other row changes |
| `PolicyRepository.Repository.RenameRolePolicies` | src/modules/authorization/infrastructure/repositories/casbin_policy_repository.py:472-491 | the two loops rewrite, in place, exactly the p rules and the g rules in scope with the old name |
| `PolicyRepository.Repository.RenamePermissionPolicies` | src/modules/authorization/infrastructure/repositories/casbin_policy_repository.py:493-502 | the loop rewrites, in place, exactly the p rules in scope with the old key |
| `PolicyRepository.Repository.CreateRole` | src/modules/authorization/infrastructure/repositories/casbin_policy_repository.py:152-160 | inserts one row with the next id or raises on a taken name or a missing tenant |
| `PolicyRepository.Repository.UpdateRole` | src/modules/authorization/infrastructure/repositories/casbin_policy_repository.py:207-224 | renames row and rules together, answers None out of scope, and is rolled back whole when it raises |
| `PolicyRepository.Repository.DeleteRole` | src/modules/authorization/infrastructure/repositories/casbin_policy_repository.py:231-254 | has the effect and the error of its specification; raises when rows out of reach still refer to the role |
| `PolicyRepository.Repository.CreateResource` | src/modules/authorization/infrastructure/repositories/casbin_policy_repository.py:131-143 | inserts one row with the next id or raises on a taken key or a missing tenant |
| `PolicyRepository.Repository.GetOrCreateResource` | src/modules/authorization/infrastructure/repositories/casbin_policy_repository.py:437-458 | answers the resource in scope with the key, inserting it only if there is none |
| `PolicyRepository.Repository.CreatePermission` | src/modules/authorization/infrastructure/repositories/casbin_policy_repository.py:256-268 | inserts the permission with its resource, or neither |
| `PolicyRepository.Repository.UpdatePermission` | src/modules/authorization/infrastructure/repositories/casbin_policy_repository.py:315-336 | rekeys row and rules together, answers None out of scope, and is rolled back whole when it raises |
| `PolicyRepository.Repository.DeletePermission` | src/modules/authorization/infrastructure/repositories/casbin_policy_repository.py:338-360 | has the effect and the error of its specification |
| `PolicyRepository.Repository.AssignPermission` | src/modules/authorization/infrastructure/repositories/casbin_policy_repository.py:362-391 | adds link and rule together, or raises for a role or permission out of scope |
| `PolicyRepository.Repository.RemovePermission` | src/modules/authorization/infrastructure/repositories/casbin_policy_repository.py:408-425 | removes link and rule together, or does nothing out of scope |
| `PolicyRepository.Repository.AssignRole` | src/modules/authorization/infrastructure/repositories/casbin_policy_repository.py:95-117 | adds grant and rule together, or raises for an unknown role, a subject that is no number or an unknown user |
| `Enforcement.BuildEnforcer` | src/modules/authorization/infrastructure/services/casbin_authorization_service.py:121-136 | the loading loop yields the model of all the lines, in order |
| `Enforcement.TokensOfJoin` | src/modules/authorization/infrastructure/repositories/casbin_policy_repository.py:427-430 | a comma-joined policy line splits and strips back into its values when none holds a comma |
| `Enforcement.CommaSpoilsLine` | src/modules/authorization/infrastructure/repositories/casbin_policy_repository.py:427-430 | a comma inside a value makes the line too long to be a rule of this model |
| `Enforcement.LoadedModel` | src/modules/authorization/infrastructure/services/casbin_authorization_service.py:121-136 | the loaded model answers exactly for the comma-free rules in the tenant's scope, stripped |
| `Enforcement.LinksCompose` | src/modules/authorization/infrastructure/services/casbin_authorization_service.py:22-28 | g is transitive, along any number of lines |
| `Enforcement.LinkIsLeast` | src/modules/authorization/infrastructure/services/casbin_authorization_service.py:22-28 | g leads nowhere but along its lines |
| `Decisions.PathIsShort` | src/modules/authorization/infrastructure/services/casbin_authorization_service.py:22-28 | when no role is named like an id, the transitive closure of g leads a user no further than to a role granted directly |
| `Decisions.CanRefines` | src/modules/authorization/infrastructure/services/casbin_authorization_service.py:14-38 | when role names are distinguishable and the keys roles can be linked to are plain, `can` answers yes if and only if the user holds a role that is a wildcard or is linked to the permission with the requested key |
| `Decisions.DecisionsFollowTablesIff` | src/modules/authorization/infrastructure/services/casbin_authorization_service.py:14-38 | over given roles and permissions, `can` agrees with the id tables in all mirrored stores, tenants and requests if and only if the role names have no comma, are distinct up to outer blanks and are no ids up to outer blanks, and every permission key of a tenant that has a role has no comma and no outer blank |
| `Decisions.NumeralNameDiffers` | src/modules/authorization/infrastructure/services/casbin_authorization_service.py:14-38 | a role named like the id of a user makes `can` answer yes to that user, who does not hold it |
| `Decisions.NumeralNamePassesOn` | src/modules/authorization/infrastructure/services/casbin_authorization_service.py:22-28 | a role named like the id of a user passes that user's answers on to its holders, through two steps of g |
| `Decisions.AlikeNamesDiffer` | src/modules/authorization/infrastructure/services/casbin_authorization_service.py:14-38 | two role names alike up to outer blanks make `can` differ from the tables |
| `Decisions.CommaNameDiffers` | src/modules/authorization/infrastructure/repositories/casbin_policy_repository.py:427-430 | a comma in a role name makes `can` differ from the tables |
| `Decisions.OddKeyDiffers` | src/modules/authorization/infrastructure/repositories/casbin_policy_repository.py:427-430 | a permission key with a comma or an outer blank is not opened to the holders of a role it is linked to |
| `DecisionChanges.RenameRoleKeepsDecisions` | src/modules/authorization/infrastructure/repositories/casbin_policy_repository.py:207-224 | renaming a role changes no answer, for any tenant, user and permission |
| `DecisionChanges.RenamePermissionMovesDecisions` | src/modules/authorization/infrastructure/repositories/casbin_policy_repository.py:315-336 | rekeying a permission moves the old key's answers to the new key, leaves the old key what wildcards give, and changes no other key |
| `DecisionChanges.AssignPermissionAddsDecisions` | src/modules/authorization/infrastructure/repositories/casbin_policy_repository.py:362-391 | adds the permission's key for the holders of the role and changes no other answer |
| `DecisionChanges.RemovePermissionDropsDecisions` | src/modules/authorization/infrastructure/repositories/casbin_policy_repository.py:408-425 | takes the permission's key from the role and nothing else: other roles and wildcards still answer |
| `DecisionChanges.DeletePermissionDropsDecisions` | src/modules/authorization/infrastructure/repositories/casbin_policy_repository.py:338-360 | takes the answers for the deleted key, but for those wildcards give, and no others |
| `DecisionChanges.AssignRoleAddsDecisions` | src/modules/authorization/infrastructure/repositories/casbin_policy_repository.py:95-117 | adds what the role opens, for that user only |
| `DecisionChanges.DeleteRoleDropsDecisions` | src/modules/authorization/infrastructure/repositories/casbin_policy_repository.py:231-254 | takes what came through the deleted role and nothing else |
| `DecisionChanges.TenantFrame` | src/modules/authorization/infrastructure/repositories/casbin_policy_repository.py:31-39 | with a nonzero tenant no operation touches a row of another tenant, although the main deletes of delete_role and delete_permission carry no tenant clause |
| `DecisionChanges.TenantIsolation` | src/modules/authorization/infrastructure/repositories/casbin_policy_repository.py:41-45 | so no tenant's operation, failing or not, changes an answer given for another tenant |
| `Seed.SeedAuthorization` | src/core/seed/authorization.py:54-139 | goes through if and only if no other tenant holds a default (without a tenant: if nothing is missing); then every default is there, nothing else was added, the mirror holds, and all five counters are the growth of their tables, although the last is counted against a stale snapshot; a run on a seeded store counts zero and changes nothing; a failing run changes nothing |
| `Seed.SeedRules` | src/core/seed/authorization.py:123-131 | despite the stale snapshot the loop leaves each default rule in the table, and its counter is the number of defaults missing from the snapshot |
| `Seed.AddedRulesAreMissing` | src/core/seed/authorization.py:110-131 | the rules a run adds, with the links or after them, are the defaults missing from its first snapshot, each once |
| `Seed.SeedResources` | src/core/seed/authorization.py:67-80 | creates exactly the missing resources |
| `Seed.SeedRoles` | src/core/seed/authorization.py:82-91 | creates exactly the missing roles and knows all their ids afterwards |
| `Seed.SeedPermissions` | src/core/seed/authorization.py:93-108 | creates exactly the missing permissions from the two halves of their keys |
| `Seed.SeedLinks` | src/core/seed/authorization.py:110-121 | creates exactly the missing links, and with them their rules |
| `Seed.SeededRulesAreUnique` | src/core/seed/authorization.py:123-131 | in a seeded store every default rule is there exactly once |
| `Seed.EmptyStoreNeedsTenant` | src/core/seed/runner.py:38-40 | on an empty store the seeder goes through if and only if it has a tenant, and the runner gives it none |
| `Seed.DefaultsAreWellFormed` | src/modules/authorization/domain/permissions.py:17-96 | the default constants are closed: every policy names a default role and a wildcard or the key of a default resource |
| `Seed.SplitKeyIsInverse` | src/core/seed/authorization.py:98-98 | splitting a key at its first colon and joining the halves again gives the key back |
| `SeedDecisions.SeededDecisions` | src/modules/authorization/domain/permissions.py:82-96 | in a seeded store without other rules `can` answers what the default policies say for the names of the roles the user holds |
| `SeedDecisions.DefaultAnswers` | src/modules/authorization/domain/permissions.py:53-96 | admins may do everything, users and managers everything to todos and see themselves, viewers may read todos and see themselves, holders of another role nothing |
| `SeedDecisions.FreshlySeeded` | src/core/seed/authorization.py:123-131 | a seeding of the empty store leaves no other rules |
| `SeedDecisions.AssigningKeepsDefaults` | src/modules/authorization/infrastructure/repositories/casbin_policy_repository.py:95-117 | assigning roles adds none |
| `SeedDecisions.CreatingChangesNoDecision` | src/modules/authorization/infrastructure/repositories/casbin_policy_repository.py:152-160 | creating roles, permissions and resources changes no answer |
| `IdMigration.NumberedInUuidOrder` | alembic/versions/c1d2e3f4a5b6_convert_ids_to_integer.py:157-161 | row_number gives the rows of a table exactly the ids 1 to n, in the order of their uuids |
| `IdMigration.LookupsAreInverse` | alembic/versions/c1d2e3f4a5b6_convert_ids_to_integer.py:163-171 | in the shadow table the uuid finds its number and the number finds its uuid |
| `IdMigration.NextFkFindsParent` | alembic/versions/c1d2e3f4a5b6_convert_ids_to_integer.py:187-206 | because parents come first, the next foreign key of a half-converted row finds its parent already numbered and becomes that number |
| `IdMigration.ConvertFksAt` | alembic/versions/c1d2e3f4a5b6_convert_ids_to_integer.py:194-197 | each foreign key of a row becomes the number of the row it referred to, whichever columns were converted before it |
| `IdMigration.RestoreUndoesUpgrade` | alembic/versions/c1d2e3f4a5b6_convert_ids_to_integer.py:233-260 | restoring an upgraded row gives id, foreign keys and payload of the original row, whatever uuids are drawn |
| `IdMigration.RestoredPksUnique` | alembic/versions/c1d2e3f4a5b6_convert_ids_to_integer.py:233-245 | legacy rows get their own uuids and later rows fresh ones, so primary keys stay unique |
| `IdMigration.RestoredFkFindsParentIff` | alembic/versions/c1d2e3f4a5b6_convert_ids_to_integer.py:248-260 | a restored reference finds a row of the restored parent table if and only if the row it named was there at the upgrade: for a later parent a second uuid is drawn |
| `IdMigration.NextFkRestorableIff` | alembic/versions/c1d2e3f4a5b6_convert_ids_to_integer.py:248-260 | the constraint on a restored column can be added if and only if every row of the table names a row that was there at the upgrade |
| `IdMigrationRun.Database.RecordIndexes` | alembic/versions/c1d2e3f4a5b6_convert_ids_to_integer.py:117-130 | records every index on the column about to be dropped, none else |
| `IdMigrationRun.Database.RecreateIndexes` | alembic/versions/c1d2e3f4a5b6_convert_ids_to_integer.py:133-145 | puts all recorded indexes back, or raises, and it raises if and only if two of them, or one of them and one the table has, bear the same name |
| `IdMigrationRun.Database.ConvertPk` | alembic/versions/c1d2e3f4a5b6_convert_ids_to_integer.py:148-184 | numbers the table, records the numbering, drops indexes on the id, and sets the sequence after the largest id; a table already converted is left alone |
| `IdMigrationRun.Database.ConvertFk` | alembic/versions/c1d2e3f4a5b6_convert_ids_to_integer.py:187-206 | goes through if and only if every row's reference is in the shadow table and in the parent table; then the column holds the looked-up numbers |
| `IdMigrationRun.Database.Upgrade` | alembic/versions/c1d2e3f4a5b6_convert_ids_to_integer.py:209-230 | for any topological plan and any database with referential integrity the loops go through, and leave every table of the plan converted, the shadow tables exact, the other tables untouched |
| `IdMigrationRun.Database.RestorePk` | alembic/versions/c1d2e3f4a5b6_convert_ids_to_integer.py:233-245 | goes through if and only if the restored uuids are distinct; the table then has them |
| `IdMigrationRun.Database.RestoreFk` | alembic/versions/c1d2e3f4a5b6_convert_ids_to_integer.py:248-260 | goes through if and only if every restored reference is in the parent table; the column then holds them |
| `IdMigrationRun.Database.Downgrade` | alembic/versions/c1d2e3f4a5b6_convert_ids_to_integer.py:263-295 | on any intact database both passes go through if and only if no foreign key names a row that came after the upgrade; they then restore every table and every recorded index, and otherwise nothing changes |
| `IdMigrationTheorems.JoinsKept` | alembic/versions/c1d2e3f4a5b6_convert_ids_to_integer.py:187-224 | a child points at a row after the upgrade if and only if it pointed at that row before |
| `IdMigrationTheorems.UpgradedRowsFrame` | alembic/versions/c1d2e3f4a5b6_convert_ids_to_integer.py:148-224 | payload and other columns are untouched, ids lie between 1 and n |
| `IdMigrationTheorems.IndexesKeptIff` | alembic/versions/c1d2e3f4a5b6_convert_ids_to_integer.py:104-145 | a table keeps all its indexes through the upgrade, multi-column ones included, if and only if none is on the id, and this schema has none there |
| `IdMigrationTheorems.IndexesAfterRoundTrip` | alembic/versions/c1d2e3f4a5b6_convert_ids_to_integer.py:133-145 | after upgrade and downgrade the indexes are the original ones if and only if every index on the id is on a foreign key too |
| `IdMigrationTheorems.RoundTrip` | alembic/versions/c1d2e3f4a5b6_convert_ids_to_integer.py:209-295 | the downgrade of each upgraded table is the original table, row by row |
| `IdMigrationTheorems.UpgradeThenDowngrade` | alembic/versions/c1d2e3f4a5b6_convert_ids_to_integer.py:209-295 | running both directions gives back every table of the database, leaves no shadow rows, and leaves of the indexes those that are not on the id or are on a foreign key |
| `IdMigrationUse.StepKeepsInUse` | alembic/versions/c1d2e3f4a5b6_convert_ids_to_integer.py:182-184 | every insert, update or delete, whatever it names, keeps integer keys and referential integrity, and new ids above all legacy ids |
| `IdMigrationUse.RunKeepsInUse` | alembic/versions/c1d2e3f4a5b6_convert_ids_to_integer.py:182-184 | so does every run of such statements |
| `IdMigrationUse.RunKeepsLegacyOnly` | alembic/versions/c1d2e3f4a5b6_convert_ids_to_integer.py:182-184 | statements that name legacy parents only leave no reference to a later row |
| `IdMigrationUse.LegacyIffNumbered` | alembic/versions/c1d2e3f4a5b6_convert_ids_to_integer.py:163-171 | the shadow table knows an id if and only if it lies between 1 and n |
| `IdMigrationUse.UpgradedIsAboveLegacy` | alembic/versions/c1d2e3f4a5b6_convert_ids_to_integer.py:182-184 | after the upgrade the next id of a table of n rows is n + 1 |
| `IdMigrationUse.AfterUseMayDowngrade` | alembic/versions/c1d2e3f4a5b6_convert_ids_to_integer.py:263-295 | after any run the downgrade may be called; it goes through if every statement named legacy parents only |
| `IdMigrationUse.DowngradedRow` | alembic/versions/c1d2e3f4a5b6_convert_ids_to_integer.py:233-245 | a legacy row gets its own uuid back and a later row one that no original row has; payload and the columns that are no foreign keys keep their values |
| `IdMigrationUse.DowngradedJoinsKept` | alembic/versions/c1d2e3f4a5b6_convert_ids_to_integer.py:248-260 | after a downgrade that goes through a child points at a row if and only if it did before |
| `IdMigrationUse.NewTenantBlocksDowngrade` | alembic/versions/c1d2e3f4a5b6_convert_ids_to_integer.py:248-260 | a tenant added after the upgrade, and a role in it, is a run after which the downgrade fails |
| `IdMigrationUse.TablesAreTopological` | alembic/versions/c1d2e3f4a5b6_convert_ids_to_integer.py:22-64 | TABLES and FK_MAP are a plan the migration can work on |
| `KeysetPaging.ForwardFetch` | src/modules/authorization/presentation/routers/role_router.py:63-113 | what the route answers to a forward cursor or none: the first rows, newest first, of what follows the cursor; a next link after the last of them, and has_next, if and only if there are more; a previous link before the first of them, and has_prev, if and only if there was a cursor |
| `KeysetPaging.WalkIsSorted` | src/modules/authorization/infrastructure/repositories/casbin_policy_repository.py:535-567 | whatever happens between requests, the rows a client sees by following next links are strictly descending |
| `KeysetPaging.NoRowTwice` | src/modules/authorization/infrastructure/repositories/casbin_policy_repository.py:179-205 | while rows are inserted, edited and deleted, no row is shown twice |
| `KeysetPaging.ShownExactlyOnce` | src/modules/authorization/infrastructure/repositories/casbin_policy_repository.py:179-205 | a row that is there throughout is shown exactly once by a walk that reaches its end |
| `KeysetPaging.FullWalk` | src/modules/authorization/infrastructure/repositories/casbin_policy_repository.py:535-567 | on an unchanged table, for every limit, the walk ends within as many pages as the rows need and shows exactly the tenant's rows in strictly descending order |
| `KeysetPaging.PreviousFetch` | src/modules/authorization/infrastructure/repositories/casbin_policy_repository.py:535-567 | a previous link shows exactly the rows before the given one; its own previous link starts at the first of them; a next link is offered, after the last of them, if and only if still newer rows exist, however many older rows there are |
| `KeysetPaging.BackwardFetch` | src/modules/authorization/presentation/routers/role_router.py:63-113 | the same for any previous cursor, whether or not its row is still there |
| `KeysetPaging.WalkBack` | src/modules/authorization/presentation/routers/role_router.py:94-100 | on an unchanged table following previous links from a row ends and shows exactly the rows before it, each once |
| `KeysetPaging.PreviousUndoesNext` | src/modules/authorization/presentation/routers/role_router.py:93-99 | from any later page the previous link leads to exactly the page before it |
| `KeysetPaging.ZeroIdRestarts` | src/modules/authorization/infrastructure/repositories/casbin_policy_repository.py:543-543 | a cursor with id 0 counts as none, so ids must start at 1; a previous cursor with id 0 shows the first page upside down |
| `KeysetPaging.TodoPages` | src/modules/todo/infrastructure/repositories/todo_repository.py:33-97 | the todo pages are cut in the same way from the live todos of the user and tenant |
| `KeysetPaging.TodoPreviousPage` | src/modules/todo/infrastructure/repositories/todo_repository.py:73-97 | a todo fetch backwards gives exactly the todos before the given one |
| `Lockout.LockedIff` | src/core/security/account_lockout.py:35-41 | a login is refused if and only if some recorded lock of the account has not run out; the latest lock decides |
| `Lockout.AnswerIff` | src/modules/user/application/auth/login_user/handler.py:48-68 | a login is refused if and only if a lock of the account runs, whatever the password, and then changes no row; it is accepted if and only if none runs and the password is right; a rejected login adds one failure |
| `Lockout.LockedIffWindowWasFull` | src/core/security/account_lockout.py:43-57 | in every reachable table an account is locked if and only if MAX of its failures lie in one window and less than the lock's duration has passed since the last of them |
| `Lockout.OwnRowsDecide` | src/core/security/infrastructure/repositories/login_attempt_repository.py:15-63 | the answer to a login, and what it leaves of the account, depend on the account's own rows only |
| `Lockout.ApplyKeepsLawful` | src/core/security/account_lockout.py:43-57 | every login, refused, failed or successful, keeps a table in which each failure comes after all locks before it and locks if and only if its window is full |
| `Lockout.FailureRateIsBounded` | src/core/security/account_lockout.py:35-57 | in every reachable table any closed interval as long as the window holds at most MAX + window / duration failures of an account |
| `Lockout.OtherAccountsKept` | src/core/security/infrastructure/repositories/login_attempt_repository.py:29-63 | a login changes no other account's attempts |
| `Lockout.AcceptedLoginUnlocks` | src/core/security/account_lockout.py:59-63 | an accepted login leaves the account no failures and no lock |
| `Lockout.LoginAttemptRepository.RecordFailure` | src/core/security/infrastructure/repositories/login_attempt_repository.py:29-42 | adds one row, or raises without a tenant |
| `Lockout.LoginAttemptRepository.Clear` | src/core/security/infrastructure/repositories/login_attempt_repository.py:59-63 | removes exactly the rows the repository sees for the address |
| `Lockout.AccountLockoutService.EnsureLoginAllowed` | src/core/security/account_lockout.py:35-41 | raises exactly while the account is locked |
| `Lockout.AccountLockoutService.RecordFailedLogin` | src/core/security/account_lockout.py:43-57 | records the failure with a lock if and only if it is at least the MAX-th of its window |
| `Lockout.AccountLockoutService.Execute` | src/modules/user/application/auth/login_user/handler.py:48-68 | the gate comes first: refused if and only if a lock runs, accepted if and only if none runs and the password is right; the rows are those of the specification |
| `Sessions.AcceptedIff` | src/modules/user/application/auth/refresh_token/handler.py:38-55 | a refresh is answered if and only if its token was issued, is not revoked, has not expired and decodes |
| `Sessions.RefusedBecause` | src/modules/user/application/auth/refresh_token/handler.py:41-55 | why a refresh is refused: never issued, revoked, expired, not decodable, in this order; a token that was issued always has its owner's claim |
| `Sessions.RevokedHasCause` | src/modules/user/infrastructure/repositories/refresh_token_repository.py:57-69 | a session is revoked only by a refresh of its token or a later logout of its user |
| `Sessions.RefreshesOnce` | src/modules/user/application/auth/refresh_token/handler.py:38-82 | no two requests of a run are both answered for one token |
| `Sessions.NeverAfterLogout` | src/modules/user/application/auth/logout_user/handler.py:23-33 | a token issued before its owner's logout is never accepted after it |
| `Sessions.SessionsFormChains` | src/modules/user/application/auth/refresh_token/handler.py:57-82 | the sessions form disjoint chains, one per completed login, each of one user, with at most the last session unrevoked |
| `Sessions.SessionsAreConserved` | src/modules/user/application/auth/refresh_token/handler.py:57-82 | in every committed state a user has as many unrevoked sessions as completed logins since the last completed logout |
| `Sessions.SessionHasSource` | src/modules/user/application/auth/login_user/handler.py:102-121 | every session comes from one completed login or refresh of its user and expires one lifetime after it |
| `SessionHandlers.UnitOfWork.Exit` | src/core/database/unit_of_work.py:23-31 | leaving the block undoes what was not committed, with or without an exception |
| `SessionHandlers.UnitOfWork.Commit` | src/core/database/unit_of_work.py:33-35 | makes the working rows durable, or changes nothing |
| `SessionHandlers.Handlers.Save` | src/modules/user/infrastructure/repositories/refresh_token_repository.py:35-55 | overwrites the row with the id or adds a row |
| `SessionHandlers.Handlers.RevokeByUserId` | src/modules/user/infrastructure/repositories/refresh_token_repository.py:57-69 | revokes exactly the user's sessions |
| `SessionHandlers.Handlers.Login` | src/modules/user/application/auth/login_user/handler.py:102-126 | commits one new session, or, with an exception at any statement, nothing |
| `SessionHandlers.Handlers.Refresh` | src/modules/user/application/auth/refresh_token/handler.py:35-88 | commits the rotation as a whole, or, refused or with an exception at any statement, nothing |
| `SessionHandlers.Handlers.Logout` | src/modules/user/application/auth/logout_user/handler.py:23-31 | commits the revocation of all the user's sessions, or nothing; the denylist is written before the commit and stays written when the commit fails |
| `Denylist.TokenRevocationService.RevokeAccessToken` | src/core/security/token_revocation.py:15-31 | sets the key of a token with an id and an expiry, for the whole seconds left, and does nothing for others or for an expired one |
| `Denylist.RevokedUntilExpiry` | src/core/security/token_revocation.py:26-45 | whatever is revoked before and after, a revoked access token stays revoked until less than a second before it expires |
| `Denylist.DeniedWasRevoked` | src/core/security/token_revocation.py:33-45 | a token is denied only if it was revoked with a second or more to go, and not beyond its expiry but for the time the key took to set |
| `Denylist.TokenRevocationService.IsAccessTokenRevoked` | src/core/security/token_revocation.py:33-45 | looks the token's id up, and denies nothing without one |
| `Denylist.TtlIsClose` | src/core/security/token_revocation.py:26-31 | the key outlives its token by the time it took to set at most, and ends less than a second before it |
| `TwoFactor.StepKeepsBalance` | src/core/security/two_factor_auth.py:36-323 | every call keeps the balance of issued, left and accepted codes, through the comma-joined column |
| `TwoFactor.BackupCodesAreConserved` | src/core/security/two_factor_auth.py:271-284 | over every run the batch issued last is the codes left plus the codes accepted since; so a code is accepted at most as often as issued and at most ten are |
| `TwoFactor.BackupAcceptedIff` | src/core/security/two_factor_auth.py:271-284 | a backup code is accepted if and only if it is issued more often than accepted so far; the empty string never is |
| `TwoFactor.EmailSecretParts` | src/core/security/two_factor_auth.py:177-177 | the stored e-mail code splits back into prefix, code and time |
| `TwoFactor.EmailAcceptedIff` | src/core/security/two_factor_auth.py:216-243 | a pending e-mail code is accepted if and only if it is the one sent and at most 600 seconds old, and is gone afterwards |
| `TwoFactor.EmailCodesAreUsedOnce` | src/core/security/two_factor_auth.py:201-243 | over every run at most as many e-mail codes are accepted as were sent |
| `TwoFactor.TotpSurvivesIff` | src/core/security/two_factor_auth.py:36-243 | over every run, an enrolled TOTP secret is still the stored one if and only if no e-mail code has been sent since it was set up |
| `TwoFactor.EmailCodeDisplacesTotp` | src/core/security/two_factor_auth.py:177-177 | in particular, an e-mail code sent and accepted leaves two-factor enabled, but no TOTP code is accepted |
| `TwoFactor.TotpAnswers` | src/core/security/two_factor_auth.py:261-269 | after every run a TOTP code is accepted if and only if two-factor is enabled, a secret is stored and the library says it matches; the call raises if and only if it is not enabled, there is no secret or the library raises; the row never changes |
| `TwoFactor.EnabledIff` | src/core/security/two_factor_auth.py:36-147 | two-factor is enabled if and only if a set-up was verified, or it was enabled to begin with, and since then no set-up was begun and it was not disabled |
| `TwoFactor.VerifySetupAnswers` | src/core/security/two_factor_auth.py:83-100 | verifying a set-up takes a matching code for a stored secret, and leaves the drawn codes to be read back |
| `TwoFactor.DisableAnswers` | src/core/security/two_factor_auth.py:117-147 | after every run, disabling takes a backup code that is left or a matching code, and leaves neither secret nor codes |
| `TwoFactor.RegenerateAnswers` | src/core/security/two_factor_auth.py:308-323 | new codes take an enabled two-factor and, as long as a secret is stored, a matching code |
| `TwoFactor.OtherCallsFrame` | src/core/security/two_factor_auth.py:56-289 | which columns the other calls leave alone; an unknown method accepts nothing |
| `TwoFactorService.Service.SetupTotp` | src/core/security/two_factor_auth.py:36-66 | has the effect and answer of its specification; raises without a row |
| `TwoFactorService.Service.VerifyTotpSetup` | src/core/security/two_factor_auth.py:68-100 | enables and stores the drawn codes only for a matching code |
| `TwoFactorService.Service.DisableTotp` | src/core/security/two_factor_auth.py:102-147 | clears all three columns only for a backup code that is left or a matching TOTP code |
| `TwoFactorService.Service.SendEmailCode` | src/core/security/two_factor_auth.py:149-199 | stores the code with its time |
| `TwoFactorService.Service.VerifyEmailCode` | src/core/security/two_factor_auth.py:201-243 | has the effect and answer of its specification |
| `TwoFactorService.Service.Verify2faCode` | src/core/security/two_factor_auth.py:245-289 | has the effect and answer of its specification for each method |
| `TwoFactorService.Service.RegenerateBackupCodes` | src/core/security/two_factor_auth.py:291-323 | replaces the batch under the conditions of its specification |
| `Idempotency.KeptStays` | src/core/middleware/idempotency.py:56-68 | a kept answer stays as it is until it expires, whatever is requested meanwhile |
| `Idempotency.ReplayedUntilExpiry` | src/core/middleware/idempotency.py:32-50 | within the lifetime of a kept answer the handler does not run again for its key: the same body gets the same status and body, another body a conflict |
| `Idempotency.SuccessesAreApart` | src/core/middleware/idempotency.py:19-75 | two successful handler runs with one key are at least a lifetime apart |
| `Idempotency.ReplayHasSource` | src/core/middleware/idempotency.py:32-50 | every replay repeats an earlier successful answer to the same key and body that is less than a lifetime old |
| `Idempotency.HandlerRunsIff` | src/core/middleware/idempotency.py:19-75 | the handler runs for a POST with a key if and only if no unexpired success of its cache key came before, and for every other request; when it runs, the answer has its own status and body |
| `Idempotency.CallersAreKeptApart` | src/core/middleware/idempotency.py:77-82 | among requests for one path under one idempotency key a replay or a conflict goes back to a success of the same caller, no Authorization header counting as `anonymous` |
| `Idempotency.HandlerRunsForEachCaller` | src/core/middleware/idempotency.py:77-82 | so the handler runs for a caller who has not asked before, whoever else has |
| `Idempotency.PathsAreKeptApart` | src/core/middleware/idempotency.py:77-82 | among one caller's requests under one idempotency key a replay or a conflict goes back to a success of the same path |
| `Idempotency.HandlerRunsForEachPath` | src/core/middleware/idempotency.py:77-82 | so the handler runs for each path |
| `Idempotency.KeysAreExact` | src/core/middleware/idempotency.py:77-82 | if callers and paths hold no colon, requests share a cache key if and only if caller, path and idempotency key are the same |
| `Idempotency.ColonsBlurKeys` | src/core/middleware/idempotency.py:77-82 | with a colon in a path requests for different paths under different idempotency keys can share a cache key |
| `Idempotency.BodyConcat` | src/core/middleware/idempotency.py:96-99 | the body is what the chunks spell, one after the other |
| `Idempotency.IdempotencyMiddleware.Dispatch` | src/core/middleware/idempotency.py:19-75 | has the effect on the cache and the answer of its specification |
| `Idempotency.IdempotencyMiddleware.ResponseBody` | src/core/middleware/idempotency.py:91-99 | the loop returns the chunks joined in order |

## Left out

- PolicyStore: rules with other than two values, which no caller creates; keys of permissions other than resource, colon, action, which is how the routes and the seeder make them. Column widths, descriptions and names shown to people are not modelled.
- PolicyRepository: the database's sequences go back with a rollback here; in PostgreSQL the numbers are lost. Only freshness is used.
- Strings: characters outside ASCII count as letters, so other scripts' digits and blanks are not parsed or stripped.
- Enforcement.LoadedModel: lines that are not a rule of two values are kept out of the matching. Casbin keeps them: evaluating a p line of the wrong length raises, for every request of the tenant that comes to it, and of an overlong g line it takes the first two values. What Casbin does is not in this repository; under the condition on names and keys no such line is printed.
- Enforcement.CommaSpoilsLine: states that the line has too many values, not what Casbin then does.
- Decisions.CommaNameDiffers: the model answers no where Casbin may raise; in both cases the answer of the tables is not given.
- Decisions.OddKeyDiffers: for a key with a comma, likewise.
- Enforcement: Casbin's special treatment of comments and brackets in a policy line, and its limit of ten levels on the role hierarchy; under the condition on role names every chain has one level.
- Seed.SeedAuthorization: user seeding and the commit around it.
- IdMigrationRun.Database.Upgrade: stated for a database none of whose tables is converted yet (the early return is in ConvertPk); not modelled are the `api_keys` branch, which has no migration of its own; the names of foreign-key constraints; the recreation of a UNIQUE index does not look at the data, whose columns have the same duplicates before and after.
- IdMigrationRun.Database.RecreateIndexes: the recorded indexes are a set, so the removal of doubled rows is not a step of its own; the order of creation is left open, and with it which of them are there when a name clash stops it (the transaction is then rolled back).
- IdMigrationRun.Database.Downgrade: a foreign key with a later parent draws its uuid by column and parent, not by row; as no such uuid belongs to any row, this decides nothing.
- KeysetPaging.ShownExactlyOnce: a walk need not end while rows keep being changed, so the end is a hypothesis there.
- KeysetPaging.PreviousFetch: nothing is claimed about following next links after a fetch backwards.
- The encoding of cursors as text, and the todo router's links, which read a field the todo entity does not have.
- Lockout.AccountLockoutService.Execute: a service without a repository, which does nothing; sessions are in SessionHandlers.
- Sessions: the tenant column of sessions; each repository sees one tenant's rows.
- SessionHandlers.Handlers.Logout: takes the user id as a number, where the code passes it as text.
- SessionHandlers.Handlers.Login: the two-factor branch, which the user query of the handler never enters.
- TwoFactorService.Service.SendEmailCode: the sending of the mail after the commit, and a service without mail.
- Idempotency.IdempotencyMiddleware.Dispatch: response headers, and bodies that are not text.
- JWT signing and decoding, password hashing, HTTP, SQL text, mail, audit, telemetry, rate limits, settings and user management: plumbing, or single-branch claims.
