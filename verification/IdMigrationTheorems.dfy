/** What the migration promises: joins keep their meaning, and the downgrade undoes the upgrade. */
module IdMigrationTheorems {
  import opened IdMigration
  import opened IdMigrationRun

  /** The state in which Upgrade leaves the database. */
  ghost predicate Upgraded(s: Snapshot, orig: Tables, start: map<TableName, set<Index>>, plan: Plan) {
    && Prepared(orig, plan) && UpgradedTo(s, orig, start, plan, PlanTables(plan, orig.Keys))
    && forall t :: t in start ==> UniqueIndexNames(start[t])
  }

  // ----- the upgrade -----

  /** A child points at a row after the upgrade exactly if it pointed at that row before. */
  lemma JoinsKept(orig: Tables, plan: Plan, t: TableName, fk: Fk, i: nat, p: nat)
    requires Prepared(orig, plan) && t in plan.tables && t in orig && fk in FksOf(plan, t)
    requires fk.parent in plan.tables && fk.parent in orig && i < |orig[t]| && p < |orig[fk.parent]|
    ensures
      var child, parent := UpgradedRows(orig, plan, t)[i], UpgradedRows(orig, plan, fk.parent)[p];
      && fk.column in orig[t][i].fks && fk.column in child.fks
      && (orig[t][i].fks[fk.column] == orig[fk.parent][p].id <==> child.fks[fk.column] == parent.id)
  {
    assert DistinctColumns(FksOf(plan, t)) && Refers(orig, t, fk);
    var key := orig[t][i].fks[fk.column];
    ConvertFksAt(orig, FksOf(plan, t), orig[t][i], fk);
    ConvertFksFrame(orig, FksOf(plan, fk.parent), orig[fk.parent][p], Id);
    var other := orig[fk.parent][p].id;
    assert HasId(orig[fk.parent], Uuid(key.value)) && HasId(orig[fk.parent], Uuid(other.value));
    if RowNumber(orig[fk.parent], key.value) == RowNumber(orig[fk.parent], other.value) {
      RowNumberInjective(orig[fk.parent], key.value, other.value);
    }
  }

  /** Payload and the columns that are not foreign keys are untouched, and ids run from 1 to n. */
  lemma UpgradedRowsFrame(orig: Tables, plan: Plan, t: TableName, i: nat, c: Column)
    requires Prepared(orig, plan) && t in plan.tables && t in orig && i < |orig[t]|
    ensures
      var row := UpgradedRows(orig, plan, t)[i];
      && row.payload == orig[t][i].payload && row.fks.Keys == orig[t][i].fks.Keys
      && row.id.Int? && 1 <= row.id.value <= |orig[t]|
      && (c in row.fks && (forall fk :: fk in FksOf(plan, t) && fk.parent in orig ==> fk.column != c) ==>
            row.fks[c] == orig[t][i].fks[c])
  {
    ConvertFksFrame(orig, FksOf(plan, t), orig[t][i], c);
    assert orig[t][i].id == Uuid(orig[t][i].id.value);
    RowNumberBound(orig[t], orig[t][i].id.value);
  }

  /** A table keeps all its indexes through the upgrade exactly if none of them is on the id. */
  lemma IndexesKeptIff(s: Snapshot, orig: Tables, start: map<TableName, set<Index>>, plan: Plan, t: TableName)
    requires Upgraded(s, orig, start, plan) && t in PlanTables(plan, orig.Keys)
    ensures s.indexes[t] == start[t] <==> forall index :: index in start[t] ==> Id !in index.columns
  {
    assert s.indexes[t] == Untouched(start[t], {Id});
    if index :| index in start[t] && Id in index.columns {
      assert Touches(index, {Id}) && index !in s.indexes[t];
    }
  }

  // ----- straight back -----

  ghost function JobAfter(s: Snapshot, orig: Tables, plan: Plan, draws: Draws): Job {
    Job(s.tables, s.indexes, s.legacyIds, s.legacyIndexes, orig, plan, PlanTables(plan, orig.Keys), draws)
  }

  /** An upgraded database has integer keys and referential integrity, and names nothing new. */
  lemma UpgradedIsIntact(s: Snapshot, orig: Tables, start: map<TableName, set<Index>>, plan: Plan)
    requires Upgraded(s, orig, start, plan)
    ensures Intact(s.tables, orig, s.legacyIds, plan, PlanTables(plan, orig.Keys))
    ensures LegacyOnly(s.tables, s.legacyIds, plan, PlanTables(plan, orig.Keys))
  {
    var done := PlanTables(plan, orig.Keys);
    forall t | t in done && t in s.tables ensures IntIds(s.tables[t]) && UniqueIds(s.tables[t]) {
      NumberedConvertedRows(orig, plan, t);
      NumberedRowsUnique(ConvertedRows(orig, FksOf(plan, t), t));
    }
    forall t, fk, i | t in done && t in s.tables && fk in FksOf(plan, t) && fk.parent in s.tables && 0 <= i < |s.tables[t]|
      ensures RefersToRow(s.tables, fk, s.tables[t][i]) && IsLegacy(s.legacyIds, fk, s.tables[t][i])
    {
      UpgradedFkIsLegacy(s, orig, start, plan, t, fk, i);
    }
  }

  lemma ParentIsPlanned(plan: Plan, t: TableName, fk: Fk)
    requires Topological(plan) && t in plan.tables && fk in FksOf(plan, t)
    ensures fk.parent in plan.tables
  {
    var i :| 0 <= i < |plan.tables| && plan.tables[i] == t;
    assert fk in FksOf(plan, plan.tables[i]);
  }

  lemma UpgradedFkIsLegacy(s: Snapshot, orig: Tables, start: map<TableName, set<Index>>, plan: Plan, t: TableName, fk: Fk, i: nat)
    requires Upgraded(s, orig, start, plan) && t in plan.tables && t in orig && fk in FksOf(plan, t) && fk.parent in orig
    requires i < |orig[t]|
    ensures t in s.tables && fk.parent in s.tables && i < |s.tables[t]|
    ensures RefersToRow(s.tables, fk, s.tables[t][i]) && IsLegacy(s.legacyIds, fk, s.tables[t][i])
  {
    ParentIsPlanned(plan, t, fk);
    assert DistinctColumns(FksOf(plan, t)) && Refers(orig, t, fk);
    var key := orig[t][i].fks[fk.column];
    var p :| 0 <= p < |orig[fk.parent]| && orig[fk.parent][p].id == key;
    JoinsKept(orig, plan, t, fk, i, p);
    ConvertFksAt(orig, FksOf(plan, t), orig[t][i], fk);
    LookupsAreInverse(s.legacyIds, orig, PlanTables(plan, orig.Keys), fk.parent, key.value);
    assert s.tables[fk.parent][p].id == s.tables[t][i].fks[fk.column];
  }

  lemma UpgradedIndexesRestorable(s: Snapshot, orig: Tables, start: map<TableName, set<Index>>, plan: Plan, draws: Draws, t: TableName)
    requires Upgraded(s, orig, start, plan) && t in PlanTables(plan, orig.Keys)
    ensures IndexesRestorable(JobAfter(s, orig, plan, draws), t)
    ensures RecordedFor(s.legacyIndexes, t) == Touched(start[t], Columns(FksOf(plan, t), orig.Keys))
  {
    var columns := Columns(FksOf(plan, t), orig.Keys);
    forall index ensures index in RecordedFor(s.legacyIndexes, t) <==> index in Touched(start[t], columns) {
      assert (t, index) in s.legacyIndexes <==> index in Touched(start[t], columns);
    }
  }

  lemma UpgradedIsValidJob(s: Snapshot, orig: Tables, start: map<TableName, set<Index>>, plan: Plan, draws: Draws)
    requires Upgraded(s, orig, start, plan) && Fresh(draws, orig)
    ensures ValidJob(JobAfter(s, orig, plan, draws)) && NamesLegacyOnly(JobAfter(s, orig, plan, draws))
  {
    UpgradedIsIntact(s, orig, start, plan);
    hide Intact, LegacyOnly;
    forall t | t in PlanTables(plan, orig.Keys) ensures IndexesRestorable(JobAfter(s, orig, plan, draws), t) {
      UpgradedIndexesRestorable(s, orig, start, plan, draws, t);
    }
  }

  /** The downgrade of an upgraded table is the original table, whatever uuids are drawn. */
  lemma RoundTrip(s: Snapshot, orig: Tables, start: map<TableName, set<Index>>, plan: Plan, draws: Draws, t: TableName)
    requires Upgraded(s, orig, start, plan) && t in PlanTables(plan, orig.Keys)
    ensures FullyRestored(JobAfter(s, orig, plan, draws), t) == orig[t]
  {
    var done, job := PlanTables(plan, orig.Keys), JobAfter(s, orig, plan, draws);
    forall fk | fk in FksOf(plan, t) ensures fk.parent in plan.tables {
      ParentIsPlanned(plan, t, fk);
    }
    assert DistinctColumns(FksOf(plan, t));
    forall i | 0 <= i < |orig[t]| ensures FullyRestored(job, t)[i] == orig[t][i] {
      forall fk | fk in FksOf(plan, t) && fk.parent in orig
        ensures fk.column in orig[t][i].fks && orig[t][i].fks[fk.column].Uuid? && HasId(orig[fk.parent], orig[t][i].fks[fk.column])
      {
        assert Refers(orig, t, fk);
      }
      RestoreUndoesUpgrade(orig, plan, s.legacyIds, draws, done, t, orig[t][i]);
    }
  }

  /** An index on a foreign key comes back even if the upgrade dropped it for being on the id too. */
  lemma IndexesAfterRoundTrip(s: Snapshot, orig: Tables, start: map<TableName, set<Index>>, plan: Plan, draws: Draws, t: TableName)
    requires Upgraded(s, orig, start, plan) && t in PlanTables(plan, orig.Keys)
    ensures
      var back := IndexesAfter(JobAfter(s, orig, plan, draws), PlanTables(plan, orig.Keys))[t];
      && back <= start[t]
      && (back == start[t] <==>
            forall index :: index in start[t] && Id in index.columns ==> Touches(index, Columns(FksOf(plan, t), orig.Keys)))
  {
    UpgradedIndexesRestorable(s, orig, start, plan, draws, t);
    var back := IndexesAfter(JobAfter(s, orig, plan, draws), PlanTables(plan, orig.Keys))[t];
    var columns := Columns(FksOf(plan, t), orig.Keys);
    assert back == Untouched(start[t], {Id}) + Touched(start[t], columns);
    forall index | index in start[t] ensures index in back <==> Id !in index.columns || Touches(index, columns) {
      assert Touches(index, {Id}) <==> Id in index.columns;
    }
  }

  /** Both directions in a row: every table is as it was, column by column, and uuid-keyed again. */
  method UpgradeThenDowngrade(db: Database, plan: Plan, draws: Draws)
    requires Prepared(db.tables, plan) && db.indexes.Keys == db.tables.Keys && db.uuidKeyed == db.tables.Keys
    requires db.legacyIds == [] && db.legacyIndexes == {} && db.nextIds == map[] && Fresh(draws, db.tables)
    requires forall t :: t in db.indexes ==> UniqueIndexNames(db.indexes[t])
    modifies db
    ensures db.tables == old(db.tables) && db.uuidKeyed == old(db.uuidKeyed)
    ensures db.legacyIds == old(db.legacyIds) && db.legacyIndexes == old(db.legacyIndexes)
    ensures db.indexes.Keys == old(db.indexes).Keys
    ensures forall t :: t in db.indexes && t !in plan.tables ==> db.indexes[t] == old(db.indexes)[t]
    ensures forall t :: t in db.indexes && t in plan.tables ==>
              db.indexes[t] == Untouched(old(db.indexes)[t], {Id})
                               + Touched(old(db.indexes)[t], Columns(FksOf(plan, t), old(db.tables).Keys))
  {
    ghost var orig, start := db.tables, db.indexes;
    var up := db.Upgrade(plan);
    ghost var s := db.State();
    ghost var job := JobAfter(s, orig, plan, draws);
    assert Upgraded(s, orig, start, plan);
    AllIndexesAfter(s, orig, start, plan, draws);
    hide ValidJob, NamesLegacyOnly, IndexesAfter, Untouched, Touched, Columns, RestoredTo, Upgraded, UpgradedTo, Prepared, Fresh, PlanTables, FullyRestored, UniqueIndexNames;
    UpgradedIsValidJob(s, orig, start, plan, draws);
    StartOfDowngrade(s, orig, start, plan, draws);
    var down := db.Downgrade(plan, draws, job);
    AllTablesBack(s, orig, start, plan, draws, db.tables);
  }

  lemma AllIndexesAfter(s: Snapshot, orig: Tables, start: map<TableName, set<Index>>, plan: Plan, draws: Draws)
    requires Upgraded(s, orig, start, plan)
    ensures
      var back := IndexesAfter(JobAfter(s, orig, plan, draws), PlanTables(plan, orig.Keys));
      && back.Keys == start.Keys
      && (forall t :: t in back && t !in plan.tables ==> back[t] == start[t])
      && (forall t :: t in back && t in plan.tables ==>
            back[t] == Untouched(start[t], {Id}) + Touched(start[t], Columns(FksOf(plan, t), orig.Keys)))
  {
    var job := JobAfter(s, orig, plan, draws);
    var back := IndexesAfter(job, PlanTables(plan, orig.Keys));
    assert s.indexes.Keys == start.Keys == orig.Keys;
    hide Prepared, Recorded, IndexesRecorded, Untouched, Touched, Columns, RecordedFor, UpgradedRows, UniqueIndexNames;
    forall t | t in back && t in plan.tables
      ensures back[t] == Untouched(start[t], {Id}) + Touched(start[t], Columns(FksOf(plan, t), orig.Keys))
    {
      UpgradedIndexesRestorable(s, orig, start, plan, draws, t);
    }
  }

  lemma AllTablesBack(s: Snapshot, orig: Tables, start: map<TableName, set<Index>>, plan: Plan, draws: Draws, back: Tables)
    requires Upgraded(s, orig, start, plan)
    requires
      var job := JobAfter(s, orig, plan, draws);
      && back.Keys == job.cur.Keys
      && forall t :: t in back ==> back[t] == if t in job.done then FullyRestored(job, t) else job.cur[t]
    ensures back == orig
  {
    var job := JobAfter(s, orig, plan, draws);
    OthersUntouched(s, orig, start, plan);
    hide Upgraded, PlanTables, FullyRestored;
    forall t | t in job.done ensures t in orig && FullyRestored(job, t) == orig[t] {
      assert t in PlanTables(plan, orig.Keys) && t in orig by { PlanTablesExist(plan, orig.Keys, t); }
      RoundTrip(s, orig, start, plan, draws, t);
    }
  }

  lemma PlanTablesExist(plan: Plan, present: set<TableName>, t: TableName)
    requires t in PlanTables(plan, present)
    ensures t in present
  {
  }

  lemma OthersUntouched(s: Snapshot, orig: Tables, start: map<TableName, set<Index>>, plan: Plan)
    requires Upgraded(s, orig, start, plan)
    ensures s.tables.Keys == orig.Keys
    ensures forall t :: t in orig && t !in PlanTables(plan, orig.Keys) ==> s.tables[t] == orig[t]
  {
    hide Prepared, Recorded, IndexesRecorded, UpgradedRows;
  }

  lemma StartOfDowngrade(s: Snapshot, orig: Tables, start: map<TableName, set<Index>>, plan: Plan, draws: Draws)
    requires Upgraded(s, orig, start, plan)
    ensures RestoredTo(s, JobAfter(s, orig, plan, draws), {}, {})
  {
    IndexesAtEnds(JobAfter(s, orig, plan, draws));
    assert s.tables.Keys - PlanTables(plan, orig.Keys) + {} == s.tables.Keys - PlanTables(plan, orig.Keys);
  }
}
