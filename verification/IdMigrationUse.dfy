/** Between upgrade and downgrade the application inserts, updates and deletes rows. */
module IdMigrationUse {
  import opened Prelude
  import opened IdMigration
  import opened IdMigrationRun
  import opened IdMigrationTheorems

  datatype Live = Live(tables: Tables, nextIds: map<TableName, int>)

  datatype Use =
    | Insert(table: TableName, fks: map<Column, Key>, payload: string)
    | Update(table: TableName, id: int, fks: map<Column, Key>, payload: string)
    | Delete(table: TableName, id: int)

  /** NOT NULL and the foreign keys of one row. */
  ghost predicate FksHold(tables: Tables, fks: seq<Fk>, row: Row) {
    forall fk :: fk in fks && fk.parent in tables ==>
      fk.column in row.fks && row.fks[fk.column].Int? && HasId(tables[fk.parent], row.fks[fk.column])
  }

  ghost predicate ReferredTo(tables: Tables, plan: Plan, t: TableName, id: Key) {
    exists u, fk, i ::
      u in plan.tables && u in tables && fk in FksOf(plan, u) && fk.parent == t && 0 <= i < |tables[u]|
      && fk.column in tables[u][i].fks && tables[u][i].fks[fk.column] == id
  }

  function Without(rows: seq<Row>, id: Key): seq<Row> {
    if rows == [] then [] else (if rows[0].id == id then [] else [rows[0]]) + Without(rows[1..], id)
  }

  function Edited(rows: seq<Row>, id: Key, fks: map<Column, Key>, payload: string): seq<Row> {
    seq(|rows|, i requires 0 <= i < |rows| => if rows[i].id == id then Row(id, fks, payload) else rows[i])
  }

  /** One statement, under the constraints the upgrade has put back. */
  ghost function Apply(live: Live, plan: Plan, use: Use): Result<Live> {
    var t := use.table;
    if !(t in plan.tables && t in live.tables && t in live.nextIds) then Err(KeyError)
    else
      var rows := live.tables[t];
      match use
      case Insert(_, fks, payload) =>
        var row := Row(Int(live.nextIds[t]), fks, payload);
        if !FksHold(live.tables, FksOf(plan, t), row) || HasId(rows, row.id) then Err(IntegrityError)
        else Ok(Live(live.tables[t := rows + [row]], live.nextIds[t := live.nextIds[t] + 1]))
      case Update(_, id, fks, payload) =>
        if !FksHold(live.tables, FksOf(plan, t), Row(Int(id), fks, payload)) then Err(IntegrityError)
        else Ok(live.(tables := live.tables[t := Edited(rows, Int(id), fks, payload)]))
      case Delete(_, id) =>
        if ReferredTo(live.tables, plan, t, Int(id)) then Err(IntegrityError)
        else Ok(live.(tables := live.tables[t := Without(rows, Int(id))]))
  }

  /** A statement that fails leaves the database as it was. */
  ghost function Step(live: Live, plan: Plan, use: Use): Live {
    match Apply(live, plan, use)
    case Ok(next) => next
    case Err(_) => live
  }

  ghost function Run(live: Live, plan: Plan, uses: seq<Use>): Live {
    if uses == [] then live else Step(Run(live, plan, uses[..|uses| - 1]), plan, uses[|uses| - 1])
  }

  /** The statement names no parent that came after the upgrade. */
  ghost predicate NamesLegacyParents(use: Use, orig: Tables, plan: Plan) {
    use.Delete? ||
    forall fk :: fk in FksOf(plan, use.table) && fk.parent in orig && fk.column in use.fks ==>
      use.fks[fk.column].value <= |orig[fk.parent]|
  }

  /** What holds at every moment between the upgrade and the downgrade. */
  ghost predicate InUse(live: Live, orig: Tables, legacy: seq<LegacyId>, plan: Plan, done: set<TableName>) {
    && Intact(live.tables, orig, legacy, plan, done)
    && forall t :: t in done && t in live.tables ==> AboveLegacy(live, orig, t)
  }

  ghost predicate AboveLegacy(live: Live, orig: Tables, t: TableName)
    requires t in live.tables
  {
    && t in orig && t in live.nextIds && |orig[t]| < live.nextIds[t]
    && forall i :: 0 <= i < |live.tables[t]| ==> 1 <= live.tables[t][i].id.value < live.nextIds[t]
  }

  /** The shadow table knows the ids 1 to n of the rows that were there, and no others. */
  lemma LegacyIffNumbered(orig: Tables, legacy: seq<LegacyId>, done: set<TableName>, t: TableName, k: int)
    requires Recorded(legacy, orig, done) && t in done && t in orig && UuidIds(orig[t]) && UniqueIds(orig[t])
    ensures OldId(legacy, t, k).Some? <==> 1 <= k <= |orig[t]|
    ensures OldId(legacy, t, k).Some? ==>
              HasId(orig[t], Uuid(OldId(legacy, t, k).value)) && RowNumber(orig[t], OldId(legacy, t, k).value) == k
  {
    OldIdFound(legacy, t, k);
    if OldId(legacy, t, k).Some? {
      RowNumberBound(orig[t], OldId(legacy, t, k).value);
    }
    if 1 <= k <= |orig[t]| {
      NumberedInUuidOrder(orig[t]);
      OneToMember(|orig[t]|, k);
      assert k in Numbers(orig[t], |orig[t]|);
      var i :| 0 <= i < |orig[t]| && RowNumber(orig[t], orig[t][i].id.value) == k;
      assert orig[t][i].id == Uuid(orig[t][i].id.value);
      LookupsAreInverse(legacy, orig, done, t, orig[t][i].id.value);
    }
  }

  lemma {:induction false} WithoutMember(rows: seq<Row>, id: Key, row: Row)
    ensures row in Without(rows, id) <==> row in rows && row.id != id
  {
    if rows != [] {
      WithoutMember(rows[1..], id, row);
    }
  }

  lemma {:induction false} WithoutKeepsIds(rows: seq<Row>, id: Key)
    requires IntIds(rows) && UniqueIds(rows)
    ensures IntIds(Without(rows, id)) && UniqueIds(Without(rows, id))
  {
    if rows != [] {
      WithoutKeepsIds(rows[1..], id);
      forall row | row in Without(rows[1..], id) ensures row.id != rows[0].id {
        WithoutMember(rows[1..], id, row);
      }
    }
  }

  /** The row names a row of the parent table in every foreign key. */
  ghost predicate Refers(tables: Tables, fks: seq<Fk>, row: Row) {
    forall fk :: fk in fks && fk.parent in tables ==> RefersToRow(tables, fk, row)
  }

  /** The rows of one table may change as long as new rows refer to rows and no id that is referred to
      is lost. */
  ghost predicate GoodChange(cur: Tables, plan: Plan, t: TableName, rows: seq<Row>)
    requires t in cur
  {
    && IntIds(rows) && UniqueIds(rows)
    && (forall row :: row in rows ==> row in cur[t] || Refers(cur, FksOf(plan, t), row))
    && (forall id :: HasId(cur[t], id) && !HasId(rows, id) ==>
          !ReferredTo(cur, plan, t, id) && forall row :: row in rows ==> row in cur[t])
  }

  lemma GoodChangeKeepsIntact(cur: Tables, orig: Tables, legacy: seq<LegacyId>, plan: Plan, done: set<TableName>,
                              t: TableName, rows: seq<Row>)
    requires Intact(cur, orig, legacy, plan, done) && t in done && t in cur && done == PlanTables(plan, cur.Keys)
    requires GoodChange(cur, plan, t, rows)
    ensures Intact(cur[t := rows], orig, legacy, plan, done)
  {
    var next := cur[t := rows];
    hide Recorded;
    forall u, fk, i | u in done && u in next && fk in FksOf(plan, u) && fk.parent in next && 0 <= i < |next[u]|
      ensures RefersToRow(next, fk, next[u][i])
    {
      var row := next[u][i];
      assert row in next[u];
      if row in cur[u] {
        var j :| 0 <= j < |cur[u]| && cur[u][j] == row;
        assert RefersToRow(cur, fk, cur[u][j]);
        assert fk.parent == t ==> ReferredTo(cur, plan, t, row.fks[fk.column]);
      } else {
        assert Refers(cur, FksOf(plan, u), row);
        assert HasId(cur[fk.parent], row.fks[fk.column]);
      }
    }
  }

  lemma EditedRows(rows: seq<Row>, id: Key, fks: map<Column, Key>, payload: string)
    requires IntIds(rows) && UniqueIds(rows)
    ensures IntIds(Edited(rows, id, fks, payload)) && UniqueIds(Edited(rows, id, fks, payload))
    ensures forall k :: HasId(rows, k) ==> HasId(Edited(rows, id, fks, payload), k)
    ensures forall row :: row in Edited(rows, id, fks, payload) ==> row in rows || row == Row(id, fks, payload)
  {
    var edited := Edited(rows, id, fks, payload);
    forall k | HasId(rows, k) ensures HasId(edited, k) {
      var i :| 0 <= i < |rows| && rows[i].id == k;
      assert edited[i].id == k;
    }
  }

  lemma InsertIsGood(live: Live, plan: Plan, t: TableName, row: Row)
    requires t in live.tables && IntIds(live.tables[t]) && UniqueIds(live.tables[t])
    requires row.id.Int? && !HasId(live.tables[t], row.id) && FksHold(live.tables, FksOf(plan, t), row)
    ensures GoodChange(live.tables, plan, t, live.tables[t] + [row])
  {
    var rows := live.tables[t];
    forall k | HasId(rows, k) ensures HasId(rows + [row], k) {
      var i :| 0 <= i < |rows| && rows[i].id == k;
      assert (rows + [row])[i].id == k;
    }
  }

  lemma DeleteIsGood(cur: Tables, plan: Plan, t: TableName, id: Key)
    requires t in cur && IntIds(cur[t]) && UniqueIds(cur[t]) && !ReferredTo(cur, plan, t, id)
    ensures GoodChange(cur, plan, t, Without(cur[t], id))
  {
    var rows := Without(cur[t], id);
    WithoutKeepsIds(cur[t], id);
    forall row | row in rows ensures row in cur[t] {
      WithoutMember(cur[t], id, row);
    }
    forall k | HasId(cur[t], k) && k != id ensures HasId(rows, k) {
      var i :| 0 <= i < |cur[t]| && cur[t][i].id == k;
      WithoutMember(cur[t], id, cur[t][i]);
      var j :| 0 <= j < |rows| && rows[j] == cur[t][i];
      assert rows[j].id == k;
    }
  }

  /** Every statement, whatever it names, keeps the database intact, and new ids above all legacy ids. */
  lemma StepKeepsInUse(live: Live, orig: Tables, legacy: seq<LegacyId>, plan: Plan, done: set<TableName>, use: Use)
    requires InUse(live, orig, legacy, plan, done) && done == PlanTables(plan, orig.Keys)
    ensures InUse(Step(live, plan, use), orig, legacy, plan, done)
  {
    if Apply(live, plan, use).Ok? {
      var t, next := use.table, Step(live, plan, use);
      var rows := live.tables[t];
      assert t in done && AboveLegacy(live, orig, t) && IntIds(rows) && UniqueIds(rows);
      match use {
        case Insert(_, fks, payload) =>
          InsertIsGood(live, plan, t, Row(Int(live.nextIds[t]), fks, payload));
        case Update(_, id, fks, payload) =>
          EditedRows(rows, Int(id), fks, payload);
        case Delete(_, id) =>
          DeleteIsGood(live.tables, plan, t, Int(id));
          StillInRange(rows, Int(id), live.nextIds[t]);
      }
      GoodChangeKeepsIntact(live.tables, orig, legacy, plan, done, t, next.tables[t]);
      hide Intact, GoodChange, FksHold, ReferredTo;
      assert AboveLegacy(next, orig, t);
      forall u | u in done && u in next.tables && u != t ensures AboveLegacy(next, orig, u) {
        assert AboveLegacy(live, orig, u);
      }
    }
  }

  lemma {:induction false} RunKeepsInUse(live: Live, orig: Tables, legacy: seq<LegacyId>, plan: Plan, done: set<TableName>, uses: seq<Use>)
    requires InUse(live, orig, legacy, plan, done) && done == PlanTables(plan, orig.Keys)
    ensures InUse(Run(live, plan, uses), orig, legacy, plan, done)
  {
    if uses != [] {
      var n := |uses| - 1;
      RunKeepsInUse(live, orig, legacy, plan, done, uses[..n]);
      StepKeepsInUse(Run(live, plan, uses[..n]), orig, legacy, plan, done, uses[n]);
    }
  }

  // ----- statements that name legacy parents only -----

  /** The row names rows that were there at the upgrade. */
  ghost predicate RowIsLegacy(legacy: seq<LegacyId>, fks: seq<Fk>, present: set<TableName>, row: Row) {
    forall j :: 0 <= j < |fks| && fks[j].parent in present ==> IsLegacy(legacy, fks[j], row)
  }

  lemma LegacyRows(legacy: seq<LegacyId>, fks: seq<Fk>, present: set<TableName>, before: seq<Row>, rows: seq<Row>)
    requires RowsAreLegacy(legacy, fks, present, before)
    requires forall row :: row in rows ==> row in before || RowIsLegacy(legacy, fks, present, row)
    ensures RowsAreLegacy(legacy, fks, present, rows)
  {
    forall j, i | 0 <= j < |fks| && fks[j].parent in present && 0 <= i < |rows| ensures IsLegacy(legacy, fks[j], rows[i]) {
      if rows[i] in before {
        var k :| 0 <= k < |before| && before[k] == rows[i];
        assert ColumnIsLegacy(legacy, fks[j], before);
      }
    }
  }

  lemma NewRowIsLegacy(live: Live, orig: Tables, legacy: seq<LegacyId>, plan: Plan, done: set<TableName>, t: TableName, row: Row)
    requires Prepared(orig, plan) && InUse(live, orig, legacy, plan, done) && done == PlanTables(plan, orig.Keys) && t in done
    requires FksHold(live.tables, FksOf(plan, t), row)
    requires forall fk :: fk in FksOf(plan, t) && fk.parent in orig && fk.column in row.fks ==>
               row.fks[fk.column].value <= |orig[fk.parent]|
    ensures RowIsLegacy(legacy, FksOf(plan, t), live.tables.Keys, row)
  {
    var fks := FksOf(plan, t);
    forall j | 0 <= j < |fks| && fks[j].parent in live.tables ensures IsLegacy(legacy, fks[j], row) {
      ParentIsPlanned(plan, t, fks[j]);
      var key := row.fks[fks[j].column];
      var p :| 0 <= p < |live.tables[fks[j].parent]| && live.tables[fks[j].parent][p].id == key;
      assert AboveLegacy(live, orig, fks[j].parent);
      LegacyIffNumbered(orig, legacy, done, fks[j].parent, key.value);
    }
  }

  /** Each statement that names legacy parents only leaves the downgrade possible. */
  lemma StepKeepsLegacyOnly(live: Live, orig: Tables, legacy: seq<LegacyId>, plan: Plan, done: set<TableName>, use: Use)
    requires Prepared(orig, plan) && InUse(live, orig, legacy, plan, done) && done == PlanTables(plan, orig.Keys)
    requires LegacyOnly(live.tables, legacy, plan, done) && NamesLegacyParents(use, orig, plan)
    ensures LegacyOnly(Step(live, plan, use).tables, legacy, plan, done)
  {
    if Apply(live, plan, use).Ok? {
      var t, next := use.table, Step(live, plan, use);
      var rows, fks := live.tables[t], FksOf(plan, t);
      assert t in done && RowsAreLegacy(legacy, fks, live.tables.Keys, rows) && IntIds(rows) && UniqueIds(rows);
      match use {
        case Insert(_, columns, payload) =>
          NewRowIsLegacy(live, orig, legacy, plan, done, t, Row(Int(live.nextIds[t]), columns, payload));
        case Update(_, id, columns, payload) =>
          NewRowIsLegacy(live, orig, legacy, plan, done, t, Row(Int(id), columns, payload));
          EditedRows(rows, Int(id), columns, payload);
        case Delete(_, id) =>
          forall row | row in Without(rows, Int(id)) ensures row in rows {
            WithoutMember(rows, Int(id), row);
          }
      }
      hide Prepared, InUse, RowsAreLegacy, RowIsLegacy, FksHold, ReferredTo;
      assert live.tables.Keys == next.tables.Keys;
      LegacyRows(legacy, fks, live.tables.Keys, rows, next.tables[t]);
    }
  }

  lemma {:induction false} RunKeepsLegacyOnly(live: Live, orig: Tables, legacy: seq<LegacyId>, plan: Plan, done: set<TableName>, uses: seq<Use>)
    requires Prepared(orig, plan) && InUse(live, orig, legacy, plan, done) && done == PlanTables(plan, orig.Keys)
    requires LegacyOnly(live.tables, legacy, plan, done)
    requires forall i :: 0 <= i < |uses| ==> NamesLegacyParents(uses[i], orig, plan)
    ensures LegacyOnly(Run(live, plan, uses).tables, legacy, plan, done)
  {
    if uses != [] {
      var n := |uses| - 1;
      RunKeepsLegacyOnly(live, orig, legacy, plan, done, uses[..n]);
      RunKeepsInUse(live, orig, legacy, plan, done, uses[..n]);
      StepKeepsLegacyOnly(Run(live, plan, uses[..n]), orig, legacy, plan, done, uses[n]);
    }
  }

  lemma StillInRange(rows: seq<Row>, id: Key, bound: int)
    requires forall i :: 0 <= i < |rows| ==> 1 <= rows[i].id.value < bound
    ensures forall i :: 0 <= i < |Without(rows, id)| ==> 1 <= Without(rows, id)[i].id.value < bound
  {
    var rest := Without(rows, id);
    forall i | 0 <= i < |rest| ensures 1 <= rest[i].id.value < bound {
      WithoutMember(rows, id, rest[i]);
    }
  }

  // ----- from the upgrade to the downgrade -----

  lemma {:induction false} MaxIdBounds(rows: seq<Row>)
    ensures forall i :: 0 <= i < |rows| && rows[i].id.Int? ==> rows[i].id.value <= MaxId(rows)
    ensures MaxId(rows) == 0 || exists i :: 0 <= i < |rows| && rows[i].id == Int(MaxId(rows))
    ensures MaxId(rows) >= 0
  {
    if rows != [] {
      MaxIdBounds(rows[1..]);
      forall i | 0 <= i < |rows| && rows[i].id.Int? ensures rows[i].id.value <= MaxId(rows) {
        if i > 0 {
          assert rows[i] == rows[1..][i - 1];
        }
      }
      if i :| 0 <= i < |rows[1..]| && rows[1..][i].id == Int(MaxId(rows[1..])) {
        assert rows[i + 1].id == Int(MaxId(rows[1..]));
      }
    }
  }

  lemma UpgradedIsAboveLegacy(s: Snapshot, orig: Tables, start: map<TableName, set<Index>>, plan: Plan, t: TableName)
    requires Upgraded(s, orig, start, plan) && t in PlanTables(plan, orig.Keys)
    ensures t in s.tables && AboveLegacy(Live(s.tables, s.nextIds), orig, t) && s.nextIds[t] == |orig[t]| + 1
  {
    var rows, n := UpgradedRows(orig, plan, t), |orig[t]|;
    MaxIdBounds(rows);
    forall i | 0 <= i < |rows| ensures 1 <= rows[i].id.value <= n && rows[i].id.Int? {
      UpgradedRowsFrame(orig, plan, t, i, Id);
    }
    if n > 0 {
      NumberedInUuidOrder(orig[t]);
      OneToMember(n, n);
      assert n in Numbers(orig[t], n);
      var i :| 0 <= i < n && RowNumber(orig[t], orig[t][i].id.value) == n;
      assert rows[i].id == Int(n);
    }
  }

  /** The database of the downgrade, after any run of statements. */
  ghost function JobAfterUse(s: Snapshot, orig: Tables, plan: Plan, draws: Draws, uses: seq<Use>): Job {
    JobAfter(s, orig, plan, draws).(cur := Run(Live(s.tables, s.nextIds), plan, uses).tables)
  }

  lemma UpgradedIsInUse(s: Snapshot, orig: Tables, start: map<TableName, set<Index>>, plan: Plan)
    requires Upgraded(s, orig, start, plan)
    ensures InUse(Live(s.tables, s.nextIds), orig, s.legacyIds, plan, PlanTables(plan, orig.Keys))
  {
    UpgradedIsIntact(s, orig, start, plan);
    forall t | t in PlanTables(plan, orig.Keys) && t in s.tables ensures AboveLegacy(Live(s.tables, s.nextIds), orig, t) {
      UpgradedIsAboveLegacy(s, orig, start, plan, t);
    }
  }

  lemma AfterUseIsValidJob(s: Snapshot, orig: Tables, start: map<TableName, set<Index>>, plan: Plan, draws: Draws, uses: seq<Use>)
    requires Upgraded(s, orig, start, plan) && Fresh(draws, orig)
    ensures ValidJob(JobAfterUse(s, orig, plan, draws, uses))
    ensures InUse(Run(Live(s.tables, s.nextIds), plan, uses), orig, s.legacyIds, plan, PlanTables(plan, orig.Keys))
  {
    var done := PlanTables(plan, orig.Keys);
    UpgradedIsInUse(s, orig, start, plan);
    RunKeepsInUse(Live(s.tables, s.nextIds), orig, s.legacyIds, plan, done, uses);
    UpgradedIsValidJob(s, orig, start, plan, draws);
    var job := JobAfterUse(s, orig, plan, draws, uses);
    forall t | t in done ensures IndexesRestorable(job, t) {
      assert IndexesRestorable(JobAfter(s, orig, plan, draws), t);
    }
  }

  lemma StartAfterUse(s: Snapshot, orig: Tables, start: map<TableName, set<Index>>, plan: Plan, draws: Draws, uses: seq<Use>)
    requires Upgraded(s, orig, start, plan) && ValidJob(JobAfterUse(s, orig, plan, draws, uses))
    ensures
      var live := Run(Live(s.tables, s.nextIds), plan, uses);
      RestoredTo(s.(tables := live.tables, nextIds := live.nextIds), JobAfterUse(s, orig, plan, draws, uses), {}, {})
  {
    IndexesAtEnds(JobAfterUse(s, orig, plan, draws, uses));
    var done := PlanTables(plan, orig.Keys);
    assert s.tables.Keys - done + {} == s.tables.Keys - done;
    hide Prepared, Recorded, IndexesRecorded, Fresh, Run, UniqueIndexNames, PlanTables;
  }

  /** After any run the downgrade may be called; by its contract it goes through exactly if no row then
      names a later one, which is so if no statement named one. */
  lemma AfterUseMayDowngrade(s: Snapshot, orig: Tables, start: map<TableName, set<Index>>, plan: Plan, draws: Draws, uses: seq<Use>)
    requires Upgraded(s, orig, start, plan) && Fresh(draws, orig)
    ensures
      var live, job := Run(Live(s.tables, s.nextIds), plan, uses), JobAfterUse(s, orig, plan, draws, uses);
      && ValidJob(job) && RestoredTo(s.(tables := live.tables, nextIds := live.nextIds), job, {}, {})
      && ((forall i :: 0 <= i < |uses| ==> NamesLegacyParents(uses[i], orig, plan)) ==> NamesLegacyOnly(job))
  {
    AfterUseIsValidJob(s, orig, start, plan, draws, uses);
    StartAfterUse(s, orig, start, plan, draws, uses);
    var done := PlanTables(plan, orig.Keys);
    assert Prepared(orig, plan);
    hide ValidJob, InUse, LegacyOnly, Upgraded, RestoredTo, Prepared, Fresh, NamesLegacyParents, Run;
    if forall i :: 0 <= i < |uses| ==> NamesLegacyParents(uses[i], orig, plan) {
      UpgradedIsInUse(s, orig, start, plan);
      UpgradedIsIntact(s, orig, start, plan);
      RunKeepsLegacyOnly(Live(s.tables, s.nextIds), orig, s.legacyIds, plan, done, uses);
    }
  }

  /** What the downgrade makes of a row: a row that was there gets its own uuid back, a later one a
      uuid no original row has; payload and the columns that are no foreign keys stay. */
  lemma DowngradedRow(s: Snapshot, orig: Tables, start: map<TableName, set<Index>>, plan: Plan, draws: Draws, uses: seq<Use>,
                      t: TableName, i: nat, c: Column)
    requires Upgraded(s, orig, start, plan) && Fresh(draws, orig) && t in PlanTables(plan, orig.Keys)
    requires
      var cur := JobAfterUse(s, orig, plan, draws, uses).cur;
      t in cur && i < |cur[t]|
    ensures
      var job := JobAfterUse(s, orig, plan, draws, uses);
      var row, back := job.cur[t][i], FullyRestored(job, t)[i];
      && row.id.Int? && back.id.Uuid? && back.payload == row.payload && back.fks.Keys == row.fks.Keys
      && (1 <= row.id.value <= |orig[t]| ==> HasId(orig[t], back.id) && RowNumber(orig[t], back.id.value) == row.id.value)
      && (row.id.value > |orig[t]| ==> !HasId(orig[t], back.id))
      && (c in row.fks && (forall fk :: fk in FksOf(plan, t) && fk.parent in job.cur ==> fk.column != c) ==>
            back.fks[c] == row.fks[c])
  {
    var job := JobAfterUse(s, orig, plan, draws, uses);
    AfterUseIsValidJob(s, orig, start, plan, draws, uses);
    var row := job.cur[t][i];
    LegacyIffNumbered(orig, s.legacyIds, job.done, t, row.id.value);
    RestoreFksFrame(s.legacyIds, draws, job.cur.Keys, t, FksOf(plan, t),
                    row.(id := RestoredId(s.legacyIds, draws, t, row.id.value)), c);
  }

  /** After a downgrade that goes through a child points at a row exactly if it did before. */
  lemma DowngradedJoinsKept(job: Job, t: TableName, fk: Fk, i: nat, p: nat)
    requires ValidJob(job) && NamesLegacyOnly(job) && t in job.done && fk in FksOf(job.plan, t) && fk.parent in job.cur
    requires t in job.cur && i < |job.cur[t]| && p < |job.cur[fk.parent]|
    ensures
      var child, parent := FullyRestored(job, t)[i], FullyRestored(job, fk.parent)[p];
      && fk.column in job.cur[t][i].fks && fk.column in child.fks
      && (job.cur[t][i].fks[fk.column] == job.cur[fk.parent][p].id <==> child.fks[fk.column] == parent.id)
  {
    var row, parent := job.cur[t][i], job.cur[fk.parent][p];
    ParentIsPlanned(job.plan, t, fk);
    assert DistinctColumns(FksOf(job.plan, t)) && RefersToRow(job.cur, fk, row);
    assert RowsAreLegacy(job.legacy, FksOf(job.plan, t), job.cur.Keys, job.cur[t]);
    assert ColumnIsLegacy(job.legacy, fk, job.cur[t]);
    RestoredFkFindsParentIff(job.cur, job.orig, job.legacy, job.draws, job.plan, job.done, t, fk, i);
    RestoreFksAt(job.legacy, job.draws, job.cur.Keys, t, FksOf(job.plan, t),
                 row.(id := RestoredId(job.legacy, job.draws, t, row.id.value)), fk);
    RestoreFksFrame(job.legacy, job.draws, job.cur.Keys, fk.parent, FksOf(job.plan, fk.parent),
                    parent.(id := RestoredId(job.legacy, job.draws, fk.parent, parent.id.value)), Id);
    RestoredIdInjective(job, fk.parent, row.fks[fk.column].value, parent.id.value);
  }

  lemma RestoredIdInjective(job: Job, t: TableName, k: int, l: int)
    requires ValidJob(job) && t in job.cur
    ensures RestoredId(job.legacy, job.draws, t, k) == RestoredId(job.legacy, job.draws, t, l) ==> k == l
  {
    OldIdFound(job.legacy, t, k);
    OldIdFound(job.legacy, t, l);
  }

  // ----- the plan of this migration -----

  const TABLES: seq<TableName> := [
    Tenants, Users, UserProfiles, UserSettings, UserSecurity, UserContacts, UserAddresses, UserVerifications, UserSessions,
    Todos, AuthorizationResources, Permissions, Roles, RolePermissions, UserHasRoles, CasbinRules, AuditLogs, ErrorTraces,
    LoginAttempts]

  const OfTenant: seq<Fk> := [Fk(TenantId, Tenants)]
  const OfUser: seq<Fk> := [Fk(UserId, Users), Fk(TenantId, Tenants)]

  const FK_MAP: map<TableName, seq<Fk>> := map[
    Users := OfTenant, UserProfiles := OfUser, UserSettings := OfUser, UserSecurity := OfUser, UserContacts := OfUser,
    UserAddresses := OfUser, UserVerifications := OfUser, UserSessions := OfUser, Todos := OfUser,
    AuthorizationResources := OfTenant, Permissions := [Fk(ResourceId, AuthorizationResources), Fk(TenantId, Tenants)],
    Roles := OfTenant, RolePermissions := [Fk(RoleId, Roles), Fk(PermissionId, Permissions), Fk(TenantId, Tenants)],
    UserHasRoles := [Fk(UserId, Users), Fk(RoleId, Roles), Fk(TenantId, Tenants)], CasbinRules := OfTenant,
    AuditLogs := OfTenant, ErrorTraces := OfTenant, LoginAttempts := OfTenant]

  /** The place of a table in TABLES. */
  function Rank(t: TableName): nat {
    match t
    case Tenants => 0 case Users => 1 case UserProfiles => 2 case UserSettings => 3 case UserSecurity => 4
    case UserContacts => 5 case UserAddresses => 6 case UserVerifications => 7 case UserSessions => 8 case Todos => 9
    case AuthorizationResources => 10 case Permissions => 11 case Roles => 12 case RolePermissions => 13
    case UserHasRoles => 14 case CasbinRules => 15 case AuditLogs => 16 case ErrorTraces => 17 case LoginAttempts => 18
    case OtherTable(_) => 19
  }

  lemma RanksInOrder()
    ensures |TABLES| == 19 && forall i :: 0 <= i < |TABLES| ==> Rank(TABLES[i]) == i
    ensures forall t :: t in TABLES ==> TABLES[Rank(t)] == t
  {
  }

  lemma ParentsRankLower(t: TableName, fk: Fk)
    requires t in FK_MAP && fk in FK_MAP[t]
    ensures fk.column != Id && Rank(fk.parent) < Rank(t) < 19 && fk.parent in [Tenants, Users, AuthorizationResources, Permissions, Roles]
  {
  }

  lemma ColumnsDiffer()
    ensures Tenants !in FK_MAP && forall t :: t in FK_MAP ==> DistinctColumns(FK_MAP[t])
  {
  }

  /** A plan whose parents have lower places than their children is topological. */
  lemma RankedIsTopological(plan: Plan)
    requires Tenants !in plan.fks && Tenants in plan.tables
    requires forall t :: t in plan.fks ==> DistinctColumns(plan.fks[t])
    requires forall i :: 0 <= i < |plan.tables| ==> Rank(plan.tables[i]) == i
    requires forall t, fk :: t in plan.fks && fk in plan.fks[t] ==>
               fk.column != Id && fk.parent in plan.tables && Rank(fk.parent) < Rank(t)
    ensures Topological(plan)
  {
    hide Rank;
    forall i, fk | 0 <= i < |plan.tables| && fk in FksOf(plan, plan.tables[i])
      ensures fk.column != Id && fk.parent in plan.tables[..i]
    {
      var p :| 0 <= p < |plan.tables| && plan.tables[p] == fk.parent;
      assert plan.tables[..i][p] == fk.parent;
    }
  }

  /** The tables and foreign keys of the migration are in an order it can work in. */
  lemma TablesAreTopological()
    ensures Topological(Plan(TABLES, FK_MAP))
  {
    RanksInOrder();
    ColumnsDiffer();
    assert Tenants in TABLES && Users in TABLES && AuthorizationResources in TABLES && Permissions in TABLES && Roles in TABLES;
    forall t, fk | t in FK_MAP && fk in FK_MAP[t] ensures fk.column != Id && fk.parent in TABLES && Rank(fk.parent) < Rank(t) {
      ParentsRankLower(t, fk);
    }
    hide DistinctColumns, Topological;
    RankedIsTopological(Plan(TABLES, FK_MAP));
  }

  // ----- a run after which the downgrade fails -----

  /** A new tenant, and a role in it. */
  function NewTenantWithRole(tenant: int): seq<Use> {
    [Insert(Tenants, map[], ""), Insert(Roles, map[TenantId := Int(tenant)], "")]
  }

  lemma NewIdIsFree(live: Live, orig: Tables, t: TableName)
    requires t in live.tables && AboveLegacy(live, orig, t)
    ensures !HasId(live.tables[t], Int(live.nextIds[t]))
  {
  }

  lemma LastRowHasId(rows: seq<Row>, row: Row)
    ensures HasId(rows + [row], row.id)
  {
    assert (rows + [row])[|rows|] == row;
  }

  /** Both statements go through, and the role then names a tenant the shadow table does not know. */
  lemma NewTenantWithRoleRun(live: Live, orig: Tables, legacy: seq<LegacyId>, plan: Plan, done: set<TableName>)
    requires InUse(live, orig, legacy, plan, done) && Tenants in done && Roles in done && Tenants in orig && Roles in orig
    requires Tenants in plan.tables && Roles in plan.tables
    requires FksOf(plan, Tenants) == [] && FksOf(plan, Roles) == [Fk(TenantId, Tenants)]
    ensures Tenants in live.nextIds
    ensures
      var n := live.nextIds[Tenants];
      var tables := Run(live, plan, NewTenantWithRole(n)).tables;
      && Roles in tables && Tenants in tables
      && exists i :: 0 <= i < |tables[Roles]| && tables[Roles][i].fks == map[TenantId := Int(n)]
  {
    assert AboveLegacy(live, orig, Tenants) && AboveLegacy(live, orig, Roles);
    var n := live.nextIds[Tenants];
    var uses := NewTenantWithRole(n);
    var tenant, role := Row(Int(n), map[], ""), Row(Int(live.nextIds[Roles]), map[TenantId := Int(n)], "");
    NewIdIsFree(live, orig, Tenants);
    NewIdIsFree(live, orig, Roles);
    LastRowHasId(live.tables[Tenants], tenant);
    assert uses[..1] == [uses[0]] && uses[..1][..0] == [];
    hide InUse, AboveLegacy, HasId, FksOf;
    var first := Step(live, plan, uses[0]);
    assert FksHold(live.tables, [], tenant);
    assert first.tables == live.tables[Tenants := live.tables[Tenants] + [tenant]] && Roles in first.nextIds;
    assert Run(live, plan, uses[..1]) == first;
    assert FksHold(first.tables, [Fk(TenantId, Tenants)], role);
    var second := Step(first, plan, uses[1]);
    assert second.tables[Roles] == live.tables[Roles] + [role];
    assert second.tables[Roles][|live.tables[Roles]|] == role;
  }

  lemma RolesNameTenants()
    ensures
      var plan := Plan(TABLES, FK_MAP);
      && Tenants in plan.tables && Roles in plan.tables
      && FksOf(plan, Tenants) == [] && FksOf(plan, Roles) == [Fk(TenantId, Tenants)]
  {
    assert TABLES[0] == Tenants && TABLES[12] == Roles;
  }

  /** So a database with a tenant added after the upgrade, and a role in it, cannot be downgraded. */
  lemma NewTenantBlocksDowngrade(s: Snapshot, orig: Tables, start: map<TableName, set<Index>>, plan: Plan, draws: Draws)
    requires plan == Plan(TABLES, FK_MAP) && Upgraded(s, orig, start, plan) && Tenants in orig && Roles in orig
    ensures Tenants in s.nextIds
    ensures !NamesLegacyOnly(JobAfterUse(s, orig, plan, draws, NewTenantWithRole(s.nextIds[Tenants])))
  {
    var live, done := Live(s.tables, s.nextIds), PlanTables(plan, orig.Keys);
    RolesNameTenants();
    hide TABLES, FK_MAP;
    UpgradedIsInUse(s, orig, start, plan);
    NewTenantWithRoleRun(live, orig, s.legacyIds, plan, done);
    var n := live.nextIds[Tenants];
    assert AboveLegacy(live, orig, Tenants);
    LegacyIffNumbered(orig, s.legacyIds, done, Tenants, n);
    var job := JobAfterUse(s, orig, plan, draws, NewTenantWithRole(n));
    var fk := Fk(TenantId, Tenants);
    var i :| 0 <= i < |job.cur[Roles]| && job.cur[Roles][i].fks == map[TenantId := Int(n)];
    assert !IsLegacy(s.legacyIds, fk, job.cur[Roles][i]);
    assert !ColumnIsLegacy(s.legacyIds, fk, job.cur[Roles]);
    assert FksOf(plan, Roles)[0] == fk;
    assert !RowsAreLegacy(s.legacyIds, FksOf(plan, Roles), job.cur.Keys, job.cur[Roles]);
  }
}
