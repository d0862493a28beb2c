/** The migration from uuid to integer keys, as functions on tables, and what those functions keep.
    A table is its rows in storage order; a row keeps its place while its columns change. */
module IdMigration {
  import opened Prelude

  datatype TableName =
    | Tenants | Users | UserProfiles | UserSettings | UserSecurity | UserContacts | UserAddresses
    | UserVerifications | UserSessions | Todos | AuthorizationResources | Permissions | Roles
    | RolePermissions | UserHasRoles | CasbinRules | AuditLogs | ErrorTraces | LoginAttempts
    | OtherTable(name: string)

  datatype Column = Id | TenantId | UserId | RoleId | PermissionId | ResourceId | OtherColumn(name: string)

  datatype Key = Uuid(value: int) | Int(value: int)

  /** The id, the foreign-key columns and everything else. */
  datatype Row = Row(id: Key, fks: map<Column, Key>, payload: string)

  type Tables = map<TableName, seq<Row>>

  datatype Fk = Fk(column: Column, parent: TableName)

  datatype Plan = Plan(tables: seq<TableName>, fks: map<TableName, seq<Fk>>)

  function FksOf(plan: Plan, t: TableName): seq<Fk> {
    if t in plan.fks then plan.fks[t] else []
  }

  /** A row of the shadow table of ids. */
  datatype LegacyId = LegacyId(table: TableName, uuid: int, newId: int)

  // ----- numbering -----

  /** row_number() OVER (ORDER BY id) of the row with this uuid. */
  function RowNumber(rows: seq<Row>, uuid: int): nat {
    if rows == [] then 0
    else (if rows[0].id.Uuid? && rows[0].id.value <= uuid then 1 else 0) + RowNumber(rows[1..], uuid)
  }

  predicate HasId(rows: seq<Row>, key: Key) {
    exists i :: 0 <= i < |rows| && rows[i].id == key
  }

  /** The primary-key constraint. */
  ghost predicate UniqueIds(rows: seq<Row>) {
    forall i, j :: 0 <= i < j < |rows| ==> rows[i].id != rows[j].id
  }

  predicate HasDuplicate(rows: seq<Row>)
    ensures HasDuplicate(rows) <==> !UniqueIds(rows)
  {
    exists i, j | 0 <= i < j < |rows| :: rows[i].id == rows[j].id
  }

  predicate UuidIds(rows: seq<Row>) {
    forall i :: 0 <= i < |rows| ==> rows[i].id.Uuid?
  }

  lemma {:induction false} RowNumberBound(rows: seq<Row>, uuid: int)
    ensures RowNumber(rows, uuid) <= |rows|
    ensures HasId(rows, Uuid(uuid)) ==> RowNumber(rows, uuid) >= 1
  {
    if rows != [] {
      RowNumberBound(rows[1..], uuid);
      if HasId(rows, Uuid(uuid)) && rows[0].id != Uuid(uuid) {
        var i :| 0 <= i < |rows| && rows[i].id == Uuid(uuid);
        assert rows[1..][i - 1].id == Uuid(uuid);
      }
    }
  }

  lemma {:induction false} RowNumberMonotone(rows: seq<Row>, u: int, v: int)
    requires u < v
    ensures RowNumber(rows, u) <= RowNumber(rows, v)
    ensures HasId(rows, Uuid(v)) ==> RowNumber(rows, u) < RowNumber(rows, v)
  {
    if rows != [] {
      RowNumberMonotone(rows[1..], u, v);
      if HasId(rows, Uuid(v)) && rows[0].id != Uuid(v) {
        var i :| 0 <= i < |rows| && rows[i].id == Uuid(v);
        assert rows[1..][i - 1].id == Uuid(v);
      }
    }
  }

  lemma RowNumberInjective(rows: seq<Row>, u: int, v: int)
    requires HasId(rows, Uuid(u)) && HasId(rows, Uuid(v)) && RowNumber(rows, u) == RowNumber(rows, v)
    ensures u == v
  {
    if u < v {
      RowNumberMonotone(rows, u, v);
    } else if v < u {
      RowNumberMonotone(rows, v, u);
    }
  }

  ghost function Numbers(rows: seq<Row>, n: nat): set<int>
    requires n <= |rows| && UuidIds(rows)
  {
    set i | 0 <= i < n :: RowNumber(rows, rows[i].id.value)
  }

  lemma {:induction false} NumbersDistinct(rows: seq<Row>, n: nat)
    requires n <= |rows| && UuidIds(rows) && UniqueIds(rows)
    ensures |Numbers(rows, n)| == n
  {
    hide RowNumber, UniqueIds;
    if n == 0 {
      assert Numbers(rows, 0) == {};
    } else {
      NumbersDistinct(rows, n - 1);
      var last := RowNumber(rows, rows[n - 1].id.value);
      forall i | 0 <= i < n - 1 ensures RowNumber(rows, rows[i].id.value) != last {
        SameNumberSameRow(rows, i, n - 1);
      }
      assert Numbers(rows, n) == Numbers(rows, n - 1) + {last};
    }
  }

  lemma SameNumberSameRow(rows: seq<Row>, i: nat, j: nat)
    requires i < j < |rows| && UuidIds(rows) && UniqueIds(rows)
    ensures RowNumber(rows, rows[i].id.value) != RowNumber(rows, rows[j].id.value)
  {
    hide RowNumber;
    assert rows[i].id == Uuid(rows[i].id.value) && rows[j].id == Uuid(rows[j].id.value) && rows[i].id != rows[j].id;
    if RowNumber(rows, rows[i].id.value) == RowNumber(rows, rows[j].id.value) {
      RowNumberInjective(rows, rows[i].id.value, rows[j].id.value);
    }
  }

  ghost function OneTo(n: nat): set<int> {
    if n == 0 then {} else OneTo(n - 1) + {n}
  }

  lemma {:induction false} OneToMember(n: nat, k: int)
    ensures k in OneTo(n) <==> 1 <= k <= n
  {
    if n > 0 {
      OneToMember(n - 1, k);
    }
  }

  lemma {:induction false} FullSubset(s: set<int>, n: nat)
    requires s <= OneTo(n)
    ensures |s| <= n && (|s| == n ==> s == OneTo(n))
  {
    if n > 0 {
      FullSubset(s - {n}, n - 1);
    }
  }

  /** The new ids of a table are exactly 1 to n, in the order of the old ones. */
  lemma NumberedInUuidOrder(rows: seq<Row>)
    requires UuidIds(rows) && UniqueIds(rows)
    ensures Numbers(rows, |rows|) == OneTo(|rows|)
    ensures forall i, j :: 0 <= i < |rows| && 0 <= j < |rows| ==>
              (rows[i].id.value < rows[j].id.value
               <==> RowNumber(rows, rows[i].id.value) < RowNumber(rows, rows[j].id.value))
  {
    forall i | 0 <= i < |rows| ensures RowNumber(rows, rows[i].id.value) in OneTo(|rows|) {
      assert rows[i].id == Uuid(rows[i].id.value);
      RowNumberBound(rows, rows[i].id.value);
      OneToMember(|rows|, RowNumber(rows, rows[i].id.value));
    }
    NumbersDistinct(rows, |rows|);
    FullSubset(Numbers(rows, |rows|), |rows|);
    forall i, j | 0 <= i < |rows| && 0 <= j < |rows|
      ensures rows[i].id.value < rows[j].id.value
         <==> RowNumber(rows, rows[i].id.value) < RowNumber(rows, rows[j].id.value)
    {
      assert rows[i].id == Uuid(rows[i].id.value) && rows[j].id == Uuid(rows[j].id.value);
      if rows[i].id.value < rows[j].id.value {
        RowNumberMonotone(rows, rows[i].id.value, rows[j].id.value);
      } else if rows[j].id.value < rows[i].id.value {
        RowNumberMonotone(rows, rows[j].id.value, rows[i].id.value);
      }
    }
  }

  /** UPDATE ... SET _id = row_number, then _id takes the name id. */
  function NumberedRows(rows: seq<Row>): seq<Row>
    requires UuidIds(rows)
  {
    seq(|rows|, i requires 0 <= i < |rows| => rows[i].(id := Int(RowNumber(rows, rows[i].id.value))))
  }

  lemma NumberedRowsUnique(rows: seq<Row>)
    requires UuidIds(rows) && UniqueIds(rows)
    ensures UniqueIds(NumberedRows(rows))
  {
    forall i, j | 0 <= i < j < |rows| ensures NumberedRows(rows)[i].id != NumberedRows(rows)[j].id {
      assert rows[i].id == Uuid(rows[i].id.value) && rows[j].id == Uuid(rows[j].id.value);
      if NumberedRows(rows)[i].id == NumberedRows(rows)[j].id {
        RowNumberInjective(rows, rows[i].id.value, rows[j].id.value);
      }
    }
  }

  /** max(id), or 0 for an empty table, whose sequence setval leaves at its start. */
  function MaxId(rows: seq<Row>): int {
    if rows == [] then 0
    else
      var rest := MaxId(rows[1..]);
      if rows[0].id.Int? && rows[0].id.value > rest then rows[0].id.value else rest
  }

  // ----- the shadow table -----

  function RecordOf(t: TableName, rows: seq<Row>): seq<LegacyId>
    requires UuidIds(rows)
  {
    seq(|rows|, i requires 0 <= i < |rows| => LegacyId(t, rows[i].id.value, RowNumber(rows, rows[i].id.value)))
  }

  function NewId(legacy: seq<LegacyId>, t: TableName, uuid: int): Option<int> {
    if legacy == [] then None
    else if legacy[0].table == t && legacy[0].uuid == uuid then Some(legacy[0].newId)
    else NewId(legacy[1..], t, uuid)
  }

  function OldId(legacy: seq<LegacyId>, t: TableName, newId: int): Option<int> {
    if legacy == [] then None
    else if legacy[0].table == t && legacy[0].newId == newId then Some(legacy[0].uuid)
    else OldId(legacy[1..], t, newId)
  }

  /** The shadow table holds the numbering of the listed tables and nothing else. */
  ghost predicate Recorded(legacy: seq<LegacyId>, orig: Tables, done: set<TableName>) {
    && (forall e :: e in legacy ==>
          e.table in done && e.table in orig && HasId(orig[e.table], Uuid(e.uuid))
          && e.newId == RowNumber(orig[e.table], e.uuid))
    && (forall t, u: int :: t in done && t in orig && HasId(orig[t], Uuid(u)) ==>
          LegacyId(t, u, RowNumber(orig[t], u)) in legacy)
  }

  lemma RecordedOneMore(legacy: seq<LegacyId>, orig: Tables, done: set<TableName>, t: TableName)
    requires Recorded(legacy, orig, done) && t in orig && t !in done && UuidIds(orig[t])
    ensures Recorded(legacy + RecordOf(t, orig[t]), orig, done + {t})
  {
    var more := RecordOf(t, orig[t]);
    forall e | e in more
      ensures e.table == t && HasId(orig[t], Uuid(e.uuid)) && e.newId == RowNumber(orig[t], e.uuid)
    {
      var i :| 0 <= i < |more| && more[i] == e;
      assert orig[t][i].id == Uuid(e.uuid);
    }
    forall u | HasId(orig[t], Uuid(u)) ensures LegacyId(t, u, RowNumber(orig[t], u)) in more {
      var i :| 0 <= i < |orig[t]| && orig[t][i].id == Uuid(u);
      assert more[i] == LegacyId(t, u, RowNumber(orig[t], u));
    }
  }

  lemma {:induction false} NewIdFound(legacy: seq<LegacyId>, t: TableName, uuid: int)
    ensures NewId(legacy, t, uuid).Some? ==> LegacyId(t, uuid, NewId(legacy, t, uuid).value) in legacy
    ensures NewId(legacy, t, uuid).None? ==> forall e :: e in legacy ==> !(e.table == t && e.uuid == uuid)
  {
    if legacy != [] {
      NewIdFound(legacy[1..], t, uuid);
    }
  }

  lemma {:induction false} OldIdFound(legacy: seq<LegacyId>, t: TableName, newId: int)
    ensures OldId(legacy, t, newId).Some? ==> LegacyId(t, OldId(legacy, t, newId).value, newId) in legacy
    ensures OldId(legacy, t, newId).None? ==> forall e :: e in legacy ==> !(e.table == t && e.newId == newId)
  {
    if legacy != [] {
      OldIdFound(legacy[1..], t, newId);
    }
  }

  /** Looking a parent's uuid up gives its number, and looking the number up gives the uuid. */
  lemma LookupsAreInverse(legacy: seq<LegacyId>, orig: Tables, done: set<TableName>, t: TableName, uuid: int)
    requires Recorded(legacy, orig, done) && t in done && t in orig && HasId(orig[t], Uuid(uuid))
    ensures NewId(legacy, t, uuid) == Some(RowNumber(orig[t], uuid))
    ensures OldId(legacy, t, RowNumber(orig[t], uuid)) == Some(uuid)
  {
    var k := RowNumber(orig[t], uuid);
    assert LegacyId(t, uuid, k) in legacy;
    NewIdFound(legacy, t, uuid);
    OldIdFound(legacy, t, k);
    var back := OldId(legacy, t, k).value;
    assert LegacyId(t, back, k) in legacy;
    RowNumberInjective(orig[t], uuid, back);
  }

  /** The foreign-key column of a row, looked up in the shadow table. */
  function Remapped(legacy: seq<LegacyId>, fk: Fk, row: Row): Row
    requires fk.column in row.fks
  {
    match NewId(legacy, fk.parent, row.fks[fk.column].value)
    case Some(number) => row.(fks := row.fks[fk.column := Int(number)])
    case None => row
  }

  /** The lookup finds a number, and the parent table has a row with it. */
  predicate Mappable(legacy: seq<LegacyId>, parents: seq<Row>, fk: Fk, row: Row)
    requires fk.column in row.fks
  {
    var found := NewId(legacy, fk.parent, row.fks[fk.column].value);
    found.Some? && HasId(parents, Int(found.value))
  }

  predicate Holds(rows: seq<Row>, column: Column) {
    forall i :: 0 <= i < |rows| ==> column in rows[i].fks
  }

  /** The foreign-key column of a whole table, looked up. */
  function ConvertedColumn(legacy: seq<LegacyId>, fk: Fk, rows: seq<Row>): seq<Row>
    requires Holds(rows, fk.column)
  {
    seq(|rows|, i requires 0 <= i < |rows| => Remapped(legacy, fk, rows[i]))
  }

  predicate AllMappable(legacy: seq<LegacyId>, parents: seq<Row>, fk: Fk, rows: seq<Row>)
    requires Holds(rows, fk.column)
  {
    forall i :: 0 <= i < |rows| ==> Mappable(legacy, parents, fk, rows[i])
  }

  // ----- the two transformations -----

  /** The foreign keys of one row, remapped column by column. */
  function ConvertFks(orig: Tables, fks: seq<Fk>, row: Row): Row {
    if fks == [] then row
    else
      var fk, done := fks[|fks| - 1], ConvertFks(orig, fks[..|fks| - 1], row);
      if fk.parent in orig && fk.column in done.fks && done.fks[fk.column].Uuid? then
        var number := RowNumber(orig[fk.parent], done.fks[fk.column].value);
        done.(fks := done.fks[fk.column := Int(number)])
      else done
  }

  function UpgradedRow(orig: Tables, plan: Plan, t: TableName, row: Row): Row
    requires t in orig && row.id.Uuid?
  {
    ConvertFks(orig, FksOf(plan, t), row).(id := Int(RowNumber(orig[t], row.id.value)))
  }

  /** The uuids gen_random_uuid draws: for the primary key of a row, by its integer id, and for one
      of its foreign keys. */
  datatype Draws = Draws(pk: (TableName, int) -> int, fk: (TableName, Column, int) -> int)

  function RestoredId(legacy: seq<LegacyId>, draws: Draws, t: TableName, k: int): Key {
    match OldId(legacy, t, k)
    case Some(uuid) => Uuid(uuid)
    case None => Uuid(draws.pk(t, k))
  }

  function RestoredFk(legacy: seq<LegacyId>, draws: Draws, t: TableName, fk: Fk, k: int): Key {
    match OldId(legacy, fk.parent, k)
    case Some(uuid) => Uuid(uuid)
    case None => Uuid(draws.fk(t, fk.column, k))
  }

  function RestoreFks(legacy: seq<LegacyId>, draws: Draws, present: set<TableName>, t: TableName, fks: seq<Fk>, row: Row): Row {
    if fks == [] then row
    else
      var fk, done := fks[|fks| - 1], RestoreFks(legacy, draws, present, t, fks[..|fks| - 1], row);
      if fk.parent in present && fk.column in done.fks && done.fks[fk.column].Int? then
        done.(fks := done.fks[fk.column := RestoredFk(legacy, draws, t, fk, done.fks[fk.column].value)])
      else done
  }

  /** The primary key first, in the pass over all tables; the foreign keys in the second pass. */
  function RestoredRow(legacy: seq<LegacyId>, draws: Draws, plan: Plan, present: set<TableName>, t: TableName, row: Row): Row
  {
    RestoreFks(legacy, draws, present, t, FksOf(plan, t), row.(id := RestoredId(legacy, draws, t, row.id.value)))
  }

  // ----- what the migration asks of a plan and of a database -----

  ghost predicate DistinctColumns(fks: seq<Fk>) {
    forall i, j :: 0 <= i < j < |fks| ==> fks[i].column != fks[j].column
  }

  /** Every parent comes before its children; tenants, converted first, has no foreign key. */
  ghost predicate Topological(plan: Plan) {
    && Tenants !in plan.fks && Tenants in plan.tables
    && (forall i, j :: 0 <= i < j < |plan.tables| ==> plan.tables[i] != plan.tables[j])
    && (forall t :: t in plan.fks ==> DistinctColumns(plan.fks[t]))
    && (forall i, fk :: 0 <= i < |plan.tables| && fk in FksOf(plan, plan.tables[i]) ==>
          fk.column != Id && (fk.parent == Tenants || fk.parent in plan.tables[..i]))
  }

  ghost predicate Refers(db: Tables, t: TableName, fk: Fk)
    requires t in db
  {
    fk.parent in db ==>
      forall i :: 0 <= i < |db[t]| ==> fk.column in db[t][i].fks && HasId(db[fk.parent], db[t][i].fks[fk.column])
  }

  /** The primary keys, NOT NULL and foreign keys of the tables in the plan. */
  ghost predicate Integrity(db: Tables, plan: Plan) {
    forall t :: t in plan.tables && t in db ==>
      UniqueIds(db[t]) && forall fk :: fk in FksOf(plan, t) ==> Refers(db, t, fk)
  }

  ghost predicate UuidKeyed(db: Tables, plan: Plan) {
    forall t :: t in plan.tables && t in db ==> UuidIds(db[t])
  }

  // ----- what the upgrade does to one foreign key, and what it leaves alone -----

  lemma {:induction false} ConvertFksFrame(orig: Tables, fks: seq<Fk>, row: Row, c: Column)
    ensures ConvertFks(orig, fks, row).fks.Keys == row.fks.Keys
    ensures ConvertFks(orig, fks, row).id == row.id && ConvertFks(orig, fks, row).payload == row.payload
    ensures c in row.fks && (forall fk :: fk in fks && fk.parent in orig ==> fk.column != c) ==>
              ConvertFks(orig, fks, row).fks[c] == row.fks[c]
  {
    if fks != [] {
      var n := |fks| - 1;
      assert forall fk :: fk in fks[..n] ==> fk in fks;
      ConvertFksFrame(orig, fks[..n], row, c);
      assert fks[n] in fks;
    }
  }

  /** Each foreign key becomes the number of the row it referred to. */
  lemma {:induction false} ConvertFksAt(orig: Tables, fks: seq<Fk>, row: Row, fk: Fk)
    requires DistinctColumns(fks) && fk in fks && fk.parent in orig
    requires fk.column in row.fks && row.fks[fk.column].Uuid?
    ensures fk.column in ConvertFks(orig, fks, row).fks
    ensures ConvertFks(orig, fks, row).fks[fk.column] == Int(RowNumber(orig[fk.parent], row.fks[fk.column].value))
  {
    var n := |fks| - 1;
    ConvertFksFrame(orig, fks[..n], row, fk.column);
    assert fks == fks[..n] + [fks[n]];
    if fk != fks[n] {
      var i :| 0 <= i < n && fks[i] == fk;
      assert fk in fks[..n] by { assert fks[..n][i] == fk; }
      ConvertFksAt(orig, fks[..n], row, fk);
    }
  }

  lemma {:induction false} RestoreFksFrame(legacy: seq<LegacyId>, draws: Draws, present: set<TableName>, t: TableName,
                                           fks: seq<Fk>, row: Row, c: Column)
    ensures RestoreFks(legacy, draws, present, t, fks, row).fks.Keys == row.fks.Keys
    ensures RestoreFks(legacy, draws, present, t, fks, row).id == row.id
    ensures RestoreFks(legacy, draws, present, t, fks, row).payload == row.payload
    ensures c in row.fks && (forall fk :: fk in fks && fk.parent in present ==> fk.column != c) ==>
              RestoreFks(legacy, draws, present, t, fks, row).fks[c] == row.fks[c]
  {
    if fks != [] {
      var n := |fks| - 1;
      assert forall fk :: fk in fks[..n] ==> fk in fks;
      RestoreFksFrame(legacy, draws, present, t, fks[..n], row, c);
      assert fks[n] in fks;
    }
  }

  lemma {:induction false} RestoreFksAt(legacy: seq<LegacyId>, draws: Draws, present: set<TableName>, t: TableName,
                                        fks: seq<Fk>, row: Row, fk: Fk)
    requires DistinctColumns(fks) && fk in fks && fk.parent in present
    requires fk.column in row.fks && row.fks[fk.column].Int?
    ensures fk.column in RestoreFks(legacy, draws, present, t, fks, row).fks
    ensures RestoreFks(legacy, draws, present, t, fks, row).fks[fk.column]
         == RestoredFk(legacy, draws, t, fk, row.fks[fk.column].value)
  {
    var n := |fks| - 1;
    RestoreFksFrame(legacy, draws, present, t, fks[..n], row, fk.column);
    assert fks == fks[..n] + [fks[n]];
    if fk != fks[n] {
      var i :| 0 <= i < n && fks[i] == fk;
      assert fk in fks[..n] by { assert fks[..n][i] == fk; }
      RestoreFksAt(legacy, draws, present, t, fks[..n], row, fk);
    }
  }

  // ----- round trip, row by row -----

  ghost predicate RowRefers(orig: Tables, fks: seq<Fk>, row: Row) {
    forall fk :: fk in fks && fk.parent in orig ==>
      fk.column in row.fks && row.fks[fk.column].Uuid? && HasId(orig[fk.parent], row.fks[fk.column])
  }

  /** Restoring an upgraded row gives the original row back: id, foreign keys and payload. */
  lemma RestoreUndoesUpgrade(orig: Tables, plan: Plan, legacy: seq<LegacyId>, draws: Draws, done: set<TableName>,
                             t: TableName, row: Row)
    requires forall fk :: fk in FksOf(plan, t) && fk.parent in orig ==> fk.parent in done
    requires t in done && t in orig && row in orig[t] && row.id.Uuid? && DistinctColumns(FksOf(plan, t))
    requires RowRefers(orig, FksOf(plan, t), row)
    requires Recorded(legacy, orig, done)
    ensures RestoredRow(legacy, draws, plan, orig.Keys, t, UpgradedRow(orig, plan, t, row)) == row
  {
    var fks := FksOf(plan, t);
    var up := UpgradedRow(orig, plan, t, row).(id := row.id);
    var back := RestoredRow(legacy, draws, plan, orig.Keys, t, UpgradedRow(orig, plan, t, row));
    var i :| 0 <= i < |orig[t]| && orig[t][i] == row;
    assert HasId(orig[t], Uuid(row.id.value));
    LookupsAreInverse(legacy, orig, done, t, row.id.value);
    ConvertFksFrame(orig, fks, row, Id);
    RestoreFksFrame(legacy, draws, orig.Keys, t, fks, up, Id);
    forall c | c in row.fks ensures back.fks[c] == row.fks[c] {
      ConvertFksFrame(orig, fks, row, c);
      RestoreFksFrame(legacy, draws, orig.Keys, t, fks, up, c);
      if fk :| fk in fks && fk.parent in orig && fk.column == c {
        ConvertFksAt(orig, fks, row, fk);
        RestoreFksAt(legacy, draws, orig.Keys, t, fks, up, fk);
        LookupsAreInverse(legacy, orig, done, fk.parent, row.fks[c].value);
      }
    }
  }

  // ----- the upgrade, table by table -----

  ghost predicate Prepared(orig: Tables, plan: Plan) {
    Topological(plan) && Integrity(orig, plan) && UuidKeyed(orig, plan)
  }

  /** The rows of a table whose first foreign keys have been remapped. */
  ghost function ConvertedRows(orig: Tables, fks: seq<Fk>, t: TableName): seq<Row>
    requires t in orig
  {
    seq(|orig[t]|, i requires 0 <= i < |orig[t]| => ConvertFks(orig, fks, orig[t][i]))
  }

  ghost function UpgradedRows(orig: Tables, plan: Plan, t: TableName): seq<Row>
    requires t in orig && UuidIds(orig[t])
  {
    seq(|orig[t]|, i requires 0 <= i < |orig[t]| => UpgradedRow(orig, plan, t, orig[t][i]))
  }

  lemma {:induction false} RowNumberById(a: seq<Row>, b: seq<Row>, uuid: int)
    requires |a| == |b| && forall i :: 0 <= i < |a| ==> a[i].id == b[i].id
    ensures RowNumber(a, uuid) == RowNumber(b, uuid)
  {
    if a != [] {
      RowNumberById(a[1..], b[1..], uuid);
    }
  }

  /** Remapping the foreign keys leaves the ids to be numbered as they were. */
  lemma NumberedConvertedRows(orig: Tables, plan: Plan, t: TableName)
    requires t in orig && UuidIds(orig[t]) && UniqueIds(orig[t])
    ensures
      var rows := ConvertedRows(orig, FksOf(plan, t), t);
      && UuidIds(rows) && UniqueIds(rows)
      && NumberedRows(rows) == UpgradedRows(orig, plan, t)
      && RecordOf(t, rows) == RecordOf(t, orig[t])
  {
    var rows := ConvertedRows(orig, FksOf(plan, t), t);
    forall i | 0 <= i < |rows| ensures rows[i].id == orig[t][i].id {
      ConvertFksFrame(orig, FksOf(plan, t), orig[t][i], Id);
    }
    forall i | 0 <= i < |rows|
      ensures RowNumber(rows, rows[i].id.value) == RowNumber(orig[t], rows[i].id.value)
    {
      RowNumberById(rows, orig[t], rows[i].id.value);
    }
    assert NumberedRows(rows) == UpgradedRows(orig, plan, t);
  }

  /** Because parents come first, the next foreign key of a half-converted row finds its parent
      already numbered, and becomes that parent's number. */
  lemma NextFkFindsParent(orig: Tables, plan: Plan, legacy: seq<LegacyId>, done: set<TableName>,
                          t: TableName, j: nat, i: nat)
    requires Prepared(orig, plan) && Recorded(legacy, orig, done)
    requires t in orig && t in plan.tables && j < |FksOf(plan, t)| && i < |orig[t]|
    requires FksOf(plan, t)[j].parent in orig && FksOf(plan, t)[j].parent in done && FksOf(plan, t)[j].parent in plan.tables
    ensures
      var fks := FksOf(plan, t);
      var fk, row := fks[j], ConvertFks(orig, fks[..j], orig[t][i]);
      && fk.column in row.fks
      && Mappable(legacy, UpgradedRows(orig, plan, fk.parent), fk, row)
      && Remapped(legacy, fk, row) == ConvertFks(orig, fks[..j + 1], orig[t][i])
  {
    var fks := FksOf(plan, t);
    var fk := fks[j];
    assert fk in fks && DistinctColumns(fks) && Refers(orig, t, fk);
    assert forall g :: g in fks[..j] ==> g.column != fk.column;
    assert fks[..j + 1][..j] == fks[..j];
    assert UuidIds(orig[fk.parent]);
    var key := orig[t][i].fks[fk.column];
    assert HasId(orig[fk.parent], key) && HasId(orig[fk.parent], Uuid(key.value));
    hide Prepared, Recorded, HasId, DistinctColumns, RowNumber, UpgradedRows;
    ConvertFksFrame(orig, fks[..j], orig[t][i], fk.column);
    LookupsAreInverse(legacy, orig, done, fk.parent, key.value);
    ParentIsNumbered(orig, plan, fk.parent, key.value);
  }

  /** The row with a given uuid is found under its number in the upgraded table. */
  lemma ParentIsNumbered(orig: Tables, plan: Plan, t: TableName, uuid: int)
    requires t in orig && UuidIds(orig[t]) && HasId(orig[t], Uuid(uuid))
    ensures HasId(UpgradedRows(orig, plan, t), Int(RowNumber(orig[t], uuid)))
  {
    var k :| 0 <= k < |orig[t]| && orig[t][k].id == Uuid(uuid);
    ConvertFksFrame(orig, FksOf(plan, t), orig[t][k], Id);
    assert UpgradedRows(orig, plan, t)[k].id == Int(RowNumber(orig[t], uuid));
  }

  /** The same for all rows of the table at once. */
  lemma NextFkReady(orig: Tables, plan: Plan, legacy: seq<LegacyId>, done: set<TableName>, t: TableName, j: nat)
    requires Prepared(orig, plan) && Recorded(legacy, orig, done)
    requires t in orig && t in plan.tables && j < |FksOf(plan, t)|
    requires FksOf(plan, t)[j].parent in orig && FksOf(plan, t)[j].parent in done && FksOf(plan, t)[j].parent in plan.tables
    ensures
      var fk := FksOf(plan, t)[j];
      var rows, next := ConvertedRows(orig, FksOf(plan, t)[..j], t), ConvertedRows(orig, FksOf(plan, t)[..j + 1], t);
      && Holds(rows, fk.column)
      && AllMappable(legacy, UpgradedRows(orig, plan, fk.parent), fk, rows)
      && ConvertedColumn(legacy, fk, rows) == next
  {
    forall i | 0 <= i < |orig[t]| {
      NextFkFindsParent(orig, plan, legacy, done, t, j, i);
    }
    hide Mappable, Remapped, ConvertFks, UpgradedRows;
  }

  lemma SkippedFk(orig: Tables, fks: seq<Fk>, t: TableName, j: nat)
    requires t in orig && j < |fks| && fks[j].parent !in orig
    ensures ConvertedRows(orig, fks[..j + 1], t) == ConvertedRows(orig, fks[..j], t)
  {
    assert fks[..j + 1][..j] == fks[..j];
  }

  // ----- the downgrade -----

  predicate IntIds(rows: seq<Row>) {
    forall i :: 0 <= i < |rows| ==> rows[i].id.Int?
  }

  function RestoredPks(legacy: seq<LegacyId>, draws: Draws, t: TableName, rows: seq<Row>): seq<Row>
  {
    seq(|rows|, i requires 0 <= i < |rows| => rows[i].(id := RestoredId(legacy, draws, t, rows[i].id.value)))
  }

  ghost function RestoredFks(legacy: seq<LegacyId>, draws: Draws, present: set<TableName>, t: TableName, fks: seq<Fk>,
                             rows: seq<Row>): seq<Row>
  {
    seq(|rows|, i requires 0 <= i < |rows| => RestoreFks(legacy, draws, present, t, fks, rows[i]))
  }

  /** gen_random_uuid repeats neither itself nor a uuid that was in use. */
  ghost predicate Fresh(draws: Draws, orig: Tables) {
    && (forall t, k, l :: k != l ==> draws.pk(t, k) != draws.pk(t, l))
    && (forall t, k :: t in orig ==> !HasId(orig[t], Uuid(draws.pk(t, k))))
    && (forall t, c, k, u, l :: draws.fk(t, c, k) != draws.pk(u, l))
    && (forall t, c, k, u :: u in orig ==> !HasId(orig[u], Uuid(draws.fk(t, c, k))))
  }

  /** A foreign key names a row of its parent table. */
  ghost predicate RefersToRow(cur: Tables, fk: Fk, row: Row)
    requires fk.parent in cur
  {
    fk.column in row.fks && row.fks[fk.column].Int? && HasId(cur[fk.parent], row.fks[fk.column])
  }

  /** A database the downgrade may meet: integer keys and referential integrity. Rows may have been
      added, changed and removed since the upgrade. */
  ghost predicate Intact(cur: Tables, orig: Tables, legacy: seq<LegacyId>, plan: Plan, done: set<TableName>) {
    && cur.Keys == orig.Keys && Recorded(legacy, orig, done)
    && (forall t :: t in done && t in cur ==> IntIds(cur[t]) && UniqueIds(cur[t]))
    && (forall t, fk, i :: t in done && t in cur && fk in FksOf(plan, t) && fk.parent in cur && 0 <= i < |cur[t]| ==>
          RefersToRow(cur, fk, cur[t][i]))
  }

  /** The row that a foreign key names was there at the upgrade. */
  ghost predicate IsLegacy(legacy: seq<LegacyId>, fk: Fk, row: Row) {
    fk.column in row.fks && OldId(legacy, fk.parent, row.fks[fk.column].value).Some?
  }

  ghost predicate ColumnIsLegacy(legacy: seq<LegacyId>, fk: Fk, rows: seq<Row>) {
    forall i :: 0 <= i < |rows| ==> IsLegacy(legacy, fk, rows[i])
  }

  /** The same for all foreign keys of a table whose parent tables exist. */
  ghost predicate RowsAreLegacy(legacy: seq<LegacyId>, fks: seq<Fk>, present: set<TableName>, rows: seq<Row>) {
    forall j :: 0 <= j < |fks| && fks[j].parent in present ==> ColumnIsLegacy(legacy, fks[j], rows)
  }

  /** No foreign key names a row that was not there at the upgrade. */
  ghost predicate LegacyOnly(cur: Tables, legacy: seq<LegacyId>, plan: Plan, done: set<TableName>) {
    forall t :: t in done && t in cur ==> RowsAreLegacy(legacy, FksOf(plan, t), cur.Keys, cur[t])
  }

  /** Legacy rows get their own uuids and new rows fresh ones, so primary keys stay unique. */
  lemma RestoredPksUnique(orig: Tables, legacy: seq<LegacyId>, draws: Draws, done: set<TableName>, t: TableName, rows: seq<Row>)
    requires Recorded(legacy, orig, done) && Fresh(draws, orig) && t in orig && IntIds(rows) && UniqueIds(rows)
    ensures UniqueIds(RestoredPks(legacy, draws, t, rows))
  {
    forall i, j | 0 <= i < j < |rows|
      ensures RestoredPks(legacy, draws, t, rows)[i].id != RestoredPks(legacy, draws, t, rows)[j].id
    {
      OldIdFound(legacy, t, rows[i].id.value);
      OldIdFound(legacy, t, rows[j].id.value);
      assert rows[i].id != rows[j].id && rows[i].id == Int(rows[i].id.value) && rows[j].id == Int(rows[j].id.value);
    }
  }

  /** The restored foreign key is that of a row of the restored parent table exactly if the row it named
      was there at the upgrade; it is then that row's. For a later parent a second uuid is drawn. */
  lemma RestoredFkFindsParentIff(cur: Tables, orig: Tables, legacy: seq<LegacyId>, draws: Draws, plan: Plan, done: set<TableName>,
                                 t: TableName, fk: Fk, i: nat)
    requires Intact(cur, orig, legacy, plan, done) && Fresh(draws, orig)
    requires t in done && t in cur && fk in FksOf(plan, t) && fk.parent in cur && fk.parent in done && i < |cur[t]|
    ensures fk.column in cur[t][i].fks && cur[t][i].fks[fk.column].Int?
    ensures
      var k := cur[t][i].fks[fk.column].value;
      && (IsLegacy(legacy, fk, cur[t][i]) ==> RestoredFk(legacy, draws, t, fk, k) == RestoredId(legacy, draws, fk.parent, k))
      && (HasId(RestoredPks(legacy, draws, fk.parent, cur[fk.parent]), RestoredFk(legacy, draws, t, fk, k))
          <==> IsLegacy(legacy, fk, cur[t][i]))
  {
    assert RefersToRow(cur, fk, cur[t][i]);
    var key, parents := cur[t][i].fks[fk.column], cur[fk.parent];
    var restored := RestoredPks(legacy, draws, fk.parent, parents);
    if IsLegacy(legacy, fk, cur[t][i]) {
      var p :| 0 <= p < |parents| && parents[p].id == key;
      assert restored[p].id == RestoredId(legacy, draws, fk.parent, key.value);
    } else {
      forall q | 0 <= q < |parents| ensures restored[q].id != RestoredFk(legacy, draws, t, fk, key.value) {
        OldIdFound(legacy, fk.parent, parents[q].id.value);
      }
    }
  }

  /** The foreign-key constraint, as it is checked when it is added. */
  predicate AllFound(parents: seq<Row>, fk: Fk, rows: seq<Row>) {
    forall i :: 0 <= i < |rows| ==> fk.column in rows[i].fks && HasId(parents, rows[i].fks[fk.column])
  }

  predicate HasColumn(rows: seq<Row>, column: Column) {
    forall i :: 0 <= i < |rows| ==> column in rows[i].fks && rows[i].fks[column].Int?
  }

  function RestoredColumn(legacy: seq<LegacyId>, draws: Draws, t: TableName, fk: Fk, rows: seq<Row>): seq<Row>
    requires HasColumn(rows, fk.column)
  {
    seq(|rows|, i requires 0 <= i < |rows| =>
      rows[i].(fks := rows[i].fks[fk.column := RestoredFk(legacy, draws, t, fk, rows[i].fks[fk.column].value)]))
  }

  /** The next foreign key of a half-restored table finds its parents restored exactly if all of them
      were there at the upgrade. */
  lemma NextFkRestorableIff(cur: Tables, orig: Tables, legacy: seq<LegacyId>, draws: Draws, plan: Plan, done: set<TableName>,
                            t: TableName, j: nat)
    requires Intact(cur, orig, legacy, plan, done) && Fresh(draws, orig) && DistinctColumns(FksOf(plan, t))
    requires t in done && t in cur && j < |FksOf(plan, t)| && FksOf(plan, t)[j].parent in cur && FksOf(plan, t)[j].parent in done
    ensures
      var fks, pks := FksOf(plan, t), RestoredPks(legacy, draws, t, cur[t]);
      var fk := fks[j];
      var rows := RestoredFks(legacy, draws, cur.Keys, t, fks[..j], pks);
      var next := RestoredFks(legacy, draws, cur.Keys, t, fks[..j + 1], pks);
      && HasColumn(rows, fk.column)
      && RestoredColumn(legacy, draws, t, fk, rows) == next
      && (AllFound(RestoredPks(legacy, draws, fk.parent, cur[fk.parent]), fk, next) <==> ColumnIsLegacy(legacy, fk, cur[t]))
  {
    var fks, pks := FksOf(plan, t), RestoredPks(legacy, draws, t, cur[t]);
    var fk := fks[j];
    var rows := RestoredFks(legacy, draws, cur.Keys, t, fks[..j], pks);
    var next := RestoredFks(legacy, draws, cur.Keys, t, fks[..j + 1], pks);
    var parents := RestoredPks(legacy, draws, fk.parent, cur[fk.parent]);
    assert |cur[t]| == |pks| == |rows| == |next|;
    forall i | 0 <= i < |rows|
      ensures
        && fk.column in rows[i].fks && rows[i].fks[fk.column].Int?
        && next[i] == rows[i].(fks := rows[i].fks[fk.column := RestoredFk(legacy, draws, t, fk, rows[i].fks[fk.column].value)])
      ensures fk.column in next[i].fks
      ensures HasId(parents, next[i].fks[fk.column]) <==> IsLegacy(legacy, fk, cur[t][i])
    {
      NextFkOfRow(cur, orig, legacy, draws, plan, done, t, j, i);
    }
    hide RestoredFks, RestoreFks, RestoredPks, IsLegacy, HasId, Intact, Fresh;
    assert HasColumn(rows, fk.column);
    assert RestoredColumn(legacy, draws, t, fk, rows) == next;
  }

  lemma NextFkOfRow(cur: Tables, orig: Tables, legacy: seq<LegacyId>, draws: Draws, plan: Plan, done: set<TableName>,
                    t: TableName, j: nat, i: nat)
    requires Intact(cur, orig, legacy, plan, done) && Fresh(draws, orig) && DistinctColumns(FksOf(plan, t)) && t in done && t in cur
    requires j < |FksOf(plan, t)| && FksOf(plan, t)[j].parent in cur && FksOf(plan, t)[j].parent in done && i < |cur[t]|
    ensures
      var fks, pk := FksOf(plan, t), RestoredPks(legacy, draws, t, cur[t])[i];
      var fk := fks[j];
      var row, next := RestoreFks(legacy, draws, cur.Keys, t, fks[..j], pk), RestoreFks(legacy, draws, cur.Keys, t, fks[..j + 1], pk);
      && fk.column in row.fks && row.fks[fk.column].Int?
      && next == row.(fks := row.fks[fk.column := RestoredFk(legacy, draws, t, fk, row.fks[fk.column].value)])
      && (HasId(RestoredPks(legacy, draws, fk.parent, cur[fk.parent]), next.fks[fk.column]) <==> IsLegacy(legacy, fk, cur[t][i]))
  {
    var fks := FksOf(plan, t);
    assert fks[..j + 1][..j] == fks[..j] && fks[j] in fks;
    assert forall g :: g in fks[..j] ==> g.column != fks[j].column;
    hide HasId;
    RestoredFkFindsParentIff(cur, orig, legacy, draws, plan, done, t, fks[j], i);
    RestoreFksFrame(legacy, draws, cur.Keys, t, fks[..j], RestoredPks(legacy, draws, t, cur[t])[i], fks[j].column);
  }

  lemma SkippedRestore(legacy: seq<LegacyId>, draws: Draws, present: set<TableName>, t: TableName, fks: seq<Fk>, rows: seq<Row>, j: nat)
    requires j < |fks| && fks[j].parent !in present
    ensures RestoredFks(legacy, draws, present, t, fks[..j + 1], rows) == RestoredFks(legacy, draws, present, t, fks[..j], rows)
  {
    assert fks[..j + 1][..j] == fks[..j];
  }
}
