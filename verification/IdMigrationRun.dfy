/** The migration as the code runs it: statement by statement over the live database. */
module IdMigrationRun {
  import opened Prelude
  import opened IdMigration

  datatype Index = Index(name: string, columns: seq<Column>, unique: bool)

  /** The columns of the first foreign keys that get converted: those whose parent table exists. */
  ghost function Columns(fks: seq<Fk>, present: set<TableName>): set<Column> {
    set fk | fk in fks && fk.parent in present :: fk.column
  }

  ghost predicate Touches(index: Index, columns: set<Column>) {
    exists c :: c in columns && c in index.columns
  }

  ghost function Untouched(indexes: set<Index>, columns: set<Column>): set<Index> {
    set index | index in indexes && !Touches(index, columns)
  }

  ghost function Touched(indexes: set<Index>, columns: set<Column>): set<Index> {
    set index | index in indexes && Touches(index, columns)
  }

  function RecordedFor(legacy: set<(TableName, Index)>, t: TableName): set<Index> {
    set e | e in legacy && e.0 == t :: e.1
  }

  ghost predicate UniqueIndexNames(indexes: set<Index>) {
    forall a, b :: a in indexes && b in indexes && a.name == b.name ==> a == b
  }

  /** The indexes in `more` can be created beside those in `base`. */
  ghost predicate NoClash(base: set<Index>, more: set<Index>) {
    UniqueIndexNames(more) && forall a, b :: a in more && b in base ==> a.name != b.name
  }

  datatype Snapshot = Snapshot(
    tables: Tables,
    uuidKeyed: set<TableName>,
    indexes: map<TableName, set<Index>>,
    legacyIds: seq<LegacyId>,
    legacyIndexes: set<(TableName, Index)>,
    nextIds: map<TableName, int>)

  /** How far the upgrade has got: the tables in `done` are converted, the others untouched. */
  ghost predicate UpgradedTo(s: Snapshot, orig: Tables, start: map<TableName, set<Index>>, plan: Plan, done: set<TableName>)
    requires UuidKeyed(orig, plan)
  {
    && done <= orig.Keys == s.tables.Keys == s.indexes.Keys == start.Keys
    && (forall t :: t in done ==> t in plan.tables && s.tables[t] == UpgradedRows(orig, plan, t))
    && (forall t :: t in orig && t !in done ==> s.tables[t] == orig[t])
    && s.uuidKeyed == orig.Keys - done
    && Recorded(s.legacyIds, orig, done)
    && (forall t :: t in done ==> s.indexes[t] == Untouched(start[t], {Id}))
    && (forall t :: t in orig && t !in done ==> s.indexes[t] == start[t])
    && IndexesRecorded(s.legacyIndexes, start, plan, done)
    && (forall t :: t in done ==> t in s.nextIds && s.nextIds[t] == MaxId(UpgradedRows(orig, plan, t)) + 1)
  }

  /** The database once one more table is converted. */
  ghost function WithTable(s: Snapshot, orig: Tables, start: map<TableName, set<Index>>, plan: Plan, t: TableName): Snapshot
    requires t in orig && t in start && UuidIds(orig[t])
  {
    var rows := UpgradedRows(orig, plan, t);
    Snapshot(s.tables[t := rows], s.uuidKeyed - {t}, s.indexes[t := Untouched(start[t], {Id})],
             s.legacyIds + RecordOf(t, orig[t]),
             s.legacyIndexes + Tagged(t, Touched(start[t], Columns(FksOf(plan, t), orig.Keys))),
             s.nextIds[t := MaxId(rows) + 1])
  }

  /** The database once the primary key of a table is numbered. */
  ghost function WithNumberedPk(s: Snapshot, t: TableName): Snapshot
    requires t in s.tables && t in s.indexes && UuidIds(s.tables[t])
  {
    var rows := NumberedRows(s.tables[t]);
    Snapshot(s.tables[t := rows], s.uuidKeyed - {t}, s.indexes[t := Untouched(s.indexes[t], {Id})],
             s.legacyIds + RecordOf(t, s.tables[t]), s.legacyIndexes, s.nextIds[t := MaxId(rows) + 1])
  }

  /** The database once the foreign keys of a table are converted. */
  ghost function WithConvertedFks(s: Snapshot, orig: Tables, start: map<TableName, set<Index>>, plan: Plan, t: TableName): Snapshot
    requires t in orig && t in start
  {
    s.(tables := s.tables[t := ConvertedRows(orig, FksOf(plan, t), t)],
       legacyIndexes := s.legacyIndexes + Tagged(t, Touched(start[t], Columns(FksOf(plan, t), orig.Keys))))
  }

  lemma FksThenPk(s: Snapshot, orig: Tables, start: map<TableName, set<Index>>, plan: Plan, t: TableName)
    requires t in orig && t in start && t in s.indexes && s.indexes[t] == start[t] && UuidIds(orig[t]) && UniqueIds(orig[t])
    ensures
      var mid := WithConvertedFks(s, orig, start, plan, t);
      && UuidIds(mid.tables[t]) && UniqueIds(mid.tables[t])
      && WithNumberedPk(mid, t) == WithTable(s, orig, start, plan, t)
  {
    NumberedConvertedRows(orig, plan, t);
    hide UpgradedRows, ConvertedRows, Touched, Untouched, Columns, Tagged, NumberedRows, RecordOf, MaxId, UniqueIds, UuidIds;
    var mid := WithConvertedFks(s, orig, start, plan, t);
    UpdateTwice(s.tables, t, mid.tables[t], UpgradedRows(orig, plan, t));
  }

  lemma UpgradedOneMore(s: Snapshot, orig: Tables, start: map<TableName, set<Index>>, plan: Plan,
                        done: set<TableName>, t: TableName)
    requires Prepared(orig, plan) && UpgradedTo(s, orig, start, plan, done)
    requires t in orig && t in plan.tables && t !in done
    ensures UpgradedTo(WithTable(s, orig, start, plan, t), orig, start, plan, done + {t})
    ensures t in s.tables && t in s.indexes && s.tables[t] == orig[t] && s.indexes[t] == start[t] && t in s.uuidKeyed
  {
    hide UpgradedRows, Touched, Untouched, Columns, MaxId, Recorded, Topological, Integrity, RecordOf, IndexesRecorded, Tagged;
    RecordedOneMore(s.legacyIds, orig, done, t);
    IndexesRecordedOneMore(s.legacyIndexes, start, plan, done, t);
  }

  lemma IndexesRecordedOneMore(legacy: set<(TableName, Index)>, start: map<TableName, set<Index>>, plan: Plan,
                               done: set<TableName>, t: TableName)
    requires done <= start.Keys && t in start && t !in done && IndexesRecorded(legacy, start, plan, done)
    ensures IndexesRecorded(legacy + Tagged(t, Touched(start[t], Columns(FksOf(plan, t), start.Keys))), start, plan, done + {t})
  {
    hide Touched, Columns;
  }

  class Database {
    var tables: Tables
    var uuidKeyed: set<TableName>
    var indexes: map<TableName, set<Index>>
    var legacyIds: seq<LegacyId>
    var legacyIndexes: set<(TableName, Index)>
    var nextIds: map<TableName, int>

    constructor (tables: Tables, indexes: map<TableName, set<Index>>)
      ensures this.tables == tables && this.indexes == indexes && uuidKeyed == tables.Keys
      ensures legacyIds == [] && legacyIndexes == {} && nextIds == map[]
    {
      this.tables, this.indexes, this.uuidKeyed := tables, indexes, tables.Keys;
      this.legacyIds, this.legacyIndexes, this.nextIds := [], {}, map[];
    }

    ghost function State(): Snapshot
      reads this
    {
      Snapshot(tables, uuidKeyed, indexes, legacyIds, legacyIndexes, nextIds)
    }

    // ----- indexes -----

    /** DROP COLUMN takes every index on the column with it. */
    method DropColumnIndexes(t: TableName, column: Column)
      requires t in indexes
      modifies `indexes
      ensures indexes == old(indexes)[t := Untouched(old(indexes)[t], {column})]
    {
      indexes := indexes[t := set index | index in indexes[t] && column !in index.columns];
      assert indexes[t] == Untouched(old(indexes)[t], {column});
    }

    method RecordIndexes(t: TableName, column: Column)
      requires t in indexes
      modifies `legacyIndexes
      ensures legacyIndexes == old(legacyIndexes) + Tagged(t, Touched(indexes[t], {column}))
    {
      legacyIndexes := legacyIndexes + set index | index in indexes[t] && column in index.columns :: (t, index);
      assert legacyIndexes == old(legacyIndexes) + Tagged(t, Touched(indexes[t], {column}));
    }

    /** CREATE INDEX; raises if the table has an index of that name. */
    method CreateIndex(t: TableName, index: Index) returns (r: Result<()>)
      requires t in indexes
      modifies `indexes
      ensures r.Ok? <==> forall other :: other in old(indexes)[t] ==> other.name != index.name
      ensures indexes == if r.Ok? then old(indexes)[t := old(indexes)[t] + {index}] else old(indexes)
    {
      if exists other :: other in indexes[t] && other.name == index.name {
        return Err(IntegrityError);
      }
      indexes := indexes[t := indexes[t] + {index}];
      return Ok(());
    }

    /** CREATE INDEX for every index recorded for the table; raises exactly if two of them, or one of them
        and one the table has, bear the same name. */
    method RecreateIndexes(t: TableName) returns (r: Result<()>)
      requires t in indexes
      modifies `indexes
      ensures r.Ok? <==> NoClash(old(indexes)[t], RecordedFor(legacyIndexes, t))
      ensures r.Ok? ==> indexes == old(indexes)[t := old(indexes)[t] + RecordedFor(legacyIndexes, t)]
    {
      hide NoClash, RecordedFor;
      var recorded := RecordedFor(legacyIndexes, t);
      var todo := recorded;
      ghost var base := indexes[t];
      NothingCreated(base, recorded);
      assert indexes == old(indexes)[t := base];
      while todo != {}
        invariant todo <= recorded && indexes == old(indexes)[t := base + (recorded - todo)]
        invariant NoClash(base, recorded - todo)
        decreases |todo|
      {
        var index :| index in todo;
        OneIndexLess(base, recorded, todo, index);
        r := CreateIndex(t, index);
        if r.Err? {
          return;
        }
        todo := todo - {index};
      }
      assert recorded - todo == recorded;
      return Ok(());
    }

    // ----- one table, one column -----

    method ConvertPk(t: TableName) returns (r: Result<()>)
      requires t in tables && t in indexes && (t in uuidKeyed ==> UuidIds(tables[t]))
      modifies this
      ensures t !in old(uuidKeyed) ==> r.Ok? && State() == old(State())
      ensures t in old(uuidKeyed) && UniqueIds(old(tables)[t]) ==> r.Ok? && State() == WithNumberedPk(old(State()), t)
    {
      if t !in uuidKeyed {
        return Ok(());
      }
      var rows := tables[t];
      legacyIds := legacyIds + RecordOf(t, rows);
      DropColumnIndexes(t, Id);
      tables := tables[t := NumberedRows(rows)];
      uuidKeyed := uuidKeyed - {t};
      if UniqueIds(rows) {
        NumberedRowsUnique(rows);
      }
      if HasDuplicate(tables[t]) {
        return Err(IntegrityError);
      }
      nextIds := nextIds[t := MaxId(tables[t]) + 1];
      return Ok(());
    }

    method ConvertFk(child: TableName, fk: Fk) returns (r: Result<()>)
      requires child in tables && child in indexes && fk.parent in tables && Holds(tables[child], fk.column)
      modifies `tables, `indexes, `legacyIndexes
      ensures r.Ok? <==> AllMappable(legacyIds, old(tables)[fk.parent], fk, old(tables)[child])
      ensures State() == WithConvertedColumn(old(State()), child, fk)
    {
      var rows, parents := tables[child], tables[fk.parent];
      RecordIndexes(child, fk.column);
      DropColumnIndexes(child, fk.column);
      tables := tables[child := ConvertedColumn(legacyIds, fk, rows)];
      if !AllMappable(legacyIds, parents, fk, rows) {
        return Err(IntegrityError);
      }
      return Ok(());
    }

    // ----- upgrade -----

    method ConvertNextFk(plan: Plan, t: TableName, j: nat, ghost orig: Tables, ghost start: map<TableName, set<Index>>,
                         ghost done: set<TableName>, ghost before: Snapshot) returns (r: Result<()>)
      requires Prepared(orig, plan) && Recorded(legacyIds, orig, done)
      requires t in orig && t in start && t in plan.tables && t !in done && j < |FksOf(plan, t)|
      requires Midway(State(), orig, start, FksOf(plan, t)[..j], t, before) && before.tables.Keys == orig.Keys
      requires FksOf(plan, t)[j].parent in done && FksOf(plan, t)[j].parent in orig && FksOf(plan, t)[j].parent in plan.tables
      requires before.tables[FksOf(plan, t)[j].parent] == UpgradedRows(orig, plan, FksOf(plan, t)[j].parent)
      modifies `tables, `indexes, `legacyIndexes
      ensures r.Ok? && Midway(State(), orig, start, FksOf(plan, t)[..j + 1], t, before)
    {
      var fk := FksOf(plan, t)[j];
      NextFkReady(orig, plan, legacyIds, done, t, j);
      assert tables[t] == ConvertedRows(orig, FksOf(plan, t)[..j], t) && tables[fk.parent] == before.tables[fk.parent];
      hide Prepared, Recorded, ConvertedRows, UpgradedRows, Holds, AllMappable, ConvertedColumn;
      NextFkConverted(State(), orig, start, plan, t, j, before);
      hide Midway, WithConvertedColumn;
      r := ConvertFk(t, fk);
    }

    /** The loop over one table's foreign keys. */
    method ConvertForeignKeys(plan: Plan, t: TableName, ghost orig: Tables, ghost start: map<TableName, set<Index>>,
                              ghost done: set<TableName>, ghost before: Snapshot) returns (r: Result<()>)
      requires Prepared(orig, plan) && UpgradedTo(State(), orig, start, plan, done)
      requires t in orig && t in plan.tables && t !in done && before == State()
      requires forall fk :: fk in FksOf(plan, t) && fk.parent in orig ==> fk.parent in done
      modifies `tables, `indexes, `legacyIndexes
      ensures r.Ok? && t in start && Midway(State(), orig, start, FksOf(plan, t), t, before)
    {
      var fks := FksOf(plan, t);
      FksToConvert(before, orig, start, plan, done, t);
      hide Prepared, UpgradedTo, Midway, UpgradedRows, Recorded;
      for j := 0 to |fks|
        invariant Midway(State(), orig, start, fks[..j], t, before)
        invariant orig.Keys == tables.Keys
      {
        if fks[j].parent in tables {
          var step := ConvertNextFk(plan, t, j, orig, start, done, before);
        } else {
          SkippedIsConverted(State(), orig, start, plan, t, j, before);
        }
        MidwayKeys(State(), orig, start, fks[..j + 1], t, before);
      }
      assert fks[..|fks|] == fks;
      return Ok(());
    }

    /** Converts the foreign keys of one table and puts its indexes back. */
    method ConvertColumns(plan: Plan, t: TableName, ghost orig: Tables, ghost start: map<TableName, set<Index>>,
                          ghost done: set<TableName>) returns (r: Result<()>)
      requires Prepared(orig, plan) && UpgradedTo(State(), orig, start, plan, done)
      requires t in orig && t in plan.tables && t !in done && UniqueIndexNames(start[t])
      requires forall fk :: fk in FksOf(plan, t) && fk.parent in orig ==> fk.parent in done
      modifies `tables, `indexes, `legacyIndexes
      ensures r.Ok? && State() == WithConvertedFks(old(State()), orig, start, plan, t)
    {
      ghost var touched := Touched(start[t], Columns(FksOf(plan, t), orig.Keys));
      JustRecorded(legacyIndexes, start, plan, done, t, touched);
      AllIndexesBack(start[t], Columns(FksOf(plan, t), orig.Keys));
      assert indexes[t] == start[t] && t in indexes && UniqueIndexNames(start[t]);
      UpdateBack(indexes, t, Untouched(start[t], Columns(FksOf(plan, t), orig.Keys)));
      hide Prepared, UpgradedTo, ConvertedRows, Touched, Untouched, Columns, Tagged, UniqueIndexNames, NoClash, RecordedFor, IndexesRecorded, FksOf;
      r := ConvertForeignKeys(plan, t, orig, start, done, State());
      assert RecordedFor(legacyIndexes, t) == touched;
      r := RecreateIndexes(t);
    }

    /** Converts the foreign keys of one table, its indexes, and then its primary key. */
    method ConvertTable(plan: Plan, t: TableName, ghost orig: Tables, ghost start: map<TableName, set<Index>>,
                        ghost done: set<TableName>) returns (r: Result<()>)
      requires Prepared(orig, plan) && UpgradedTo(State(), orig, start, plan, done)
      requires t in orig && t in plan.tables && t !in done && UniqueIndexNames(start[t])
      requires forall fk :: fk in FksOf(plan, t) && fk.parent in orig ==> fk.parent in done
      modifies this
      ensures r.Ok? && UpgradedTo(State(), orig, start, plan, done + {t})
    {
      UpgradedOneMore(State(), orig, start, plan, done, t);
      assert UuidIds(orig[t]) && UniqueIds(orig[t]);
      FksThenPk(State(), orig, start, plan, t);
      hide Prepared, UpgradedTo, WithTable, WithNumberedPk, UniqueIndexNames, UuidIds, UniqueIds;
      r := ConvertColumns(plan, t, orig, start, done);
      r := ConvertPk(t);
    }

    /** Converts tenants, then every table of the plan in order. */
    method Upgrade(plan: Plan) returns (r: Result<()>)
      requires Prepared(tables, plan) && indexes.Keys == tables.Keys && uuidKeyed == tables.Keys
      requires legacyIds == [] && legacyIndexes == {}
      requires forall t :: t in indexes ==> UniqueIndexNames(indexes[t])
      modifies this
      ensures r.Ok?
      ensures UpgradedTo(State(), old(tables), old(indexes), plan, PlanTables(plan, old(tables).Keys))
    {
      ghost var orig, start := tables, indexes;
      assert UpgradedTo(State(), orig, start, plan, {});
      DoneAtEnds(plan, orig.Keys);
      hide UpgradedTo, UniqueIndexNames, DoneAfter, PlanTables, Integrity, UuidKeyed, Topological;
      if Tenants in tables {
        r := ConvertTenants(plan, orig, start);
      }
      for i := 0 to |plan.tables|
        invariant UpgradedTo(State(), orig, start, plan, DoneAfter(plan, i, orig.Keys)) && tables.Keys == orig.Keys
      {
        var t := plan.tables[i];
        DoneOneMore(plan, orig.Keys, i);
        if t != Tenants && t in tables {
          var step := ConvertTable(plan, t, orig, start, DoneAfter(plan, i, orig.Keys));
          KeysKept(State(), orig, start, plan, DoneAfter(plan, i + 1, orig.Keys));
        }
      }
      return Ok(());
    }

    method ConvertTenants(plan: Plan, ghost orig: Tables, ghost start: map<TableName, set<Index>>) returns (r: Result<()>)
      requires Prepared(orig, plan) && tables == orig && indexes == start && start.Keys == orig.Keys && uuidKeyed == orig.Keys
      requires legacyIds == [] && legacyIndexes == {} && Tenants in orig
      modifies this
      ensures r.Ok? && UpgradedTo(State(), orig, start, plan, {Tenants})
    {
      assert UpgradedTo(State(), orig, start, plan, {});
      UpgradedOneMore(State(), orig, start, plan, {}, Tenants);
      FksThenPk(State(), orig, start, plan, Tenants);
      assert ConvertedRows(orig, FksOf(plan, Tenants), Tenants) == orig[Tenants];
      assert Columns(FksOf(plan, Tenants), orig.Keys) == {} && Tagged(Tenants, Touched(start[Tenants], {})) == {};
      assert WithConvertedFks(State(), orig, start, plan, Tenants) == State() && {} + {Tenants} == {Tenants};
      hide UpgradedTo, WithTable, WithNumberedPk, WithConvertedFks, Prepared, UuidIds, UniqueIds;
      r := ConvertPk(Tenants);
    }

    // ----- downgrade -----

    method RestorePk(t: TableName, draws: Draws) returns (r: Result<()>)
      requires t in tables && t in indexes && IntIds(tables[t])
      modifies `tables, `indexes, `uuidKeyed, `nextIds
      ensures r.Ok? <==> UniqueIds(RestoredPks(legacyIds, draws, t, old(tables)[t]))
      ensures State() == WithRestoredPk(old(State()), draws, t)
    {
      DropColumnIndexes(t, Id);
      tables := tables[t := RestoredPks(legacyIds, draws, t, tables[t])];
      uuidKeyed, nextIds := uuidKeyed + {t}, nextIds - {t};
      if HasDuplicate(tables[t]) {
        return Err(IntegrityError);
      }
      return Ok(());
    }

    method RestoreFk(child: TableName, fk: Fk, draws: Draws) returns (r: Result<()>)
      requires child in tables && child in indexes && fk.parent in tables
      requires HasColumn(tables[child], fk.column)
      modifies `tables, `indexes
      ensures
        r.Ok? <==> AllFound(old(tables)[fk.parent], fk, RestoredColumn(legacyIds, draws, child, fk, old(tables)[child]))
      ensures State() == WithRestoredColumn(old(State()), draws, child, fk)
    {
      var parents, rows := tables[fk.parent], RestoredColumn(legacyIds, draws, child, fk, tables[child]);
      DropColumnIndexes(child, fk.column);
      tables := tables[child := rows];
      if !AllFound(parents, fk, rows) {
        return Err(IntegrityError);
      }
      return Ok(());
    }

    method RestoreTablePk(t: TableName, draws: Draws, ghost job: Job, ghost pks: set<TableName>) returns (r: Result<()>)
      requires ValidJob(job) && job.draws == draws && RestoredTo(State(), job, pks, {})
      requires t in tables && t in job.done && t !in pks
      modifies `tables, `indexes, `uuidKeyed, `nextIds
      ensures r.Ok? && RestoredTo(State(), job, pks + {t}, {})
    {
      RestoredKeys(State(), job, pks, {});
      OnePkMore(State(), job, pks, t);
      hide ValidJob, RestoredTo, UniqueIds, IntIds, RestoredPks, WithRestoredPk;
      r := RestorePk(t, draws);
    }

    method RestoreNextFk(plan: Plan, t: TableName, j: nat, draws: Draws, ghost job: Job, ghost before: Snapshot) returns (r: Result<()>)
      requires ValidJob(job) && job.draws == draws && job.plan == plan && ParentsRestored(before, job, t)
      requires t in job.cur && t in job.start && j < |FksOf(plan, t)| && FksOf(plan, t)[j].parent in job.cur
      requires RestoringFks(State(), job, t, FksOf(plan, t)[..j], before)
      modifies `tables, `indexes
      ensures r.Ok? <==> ColumnIsLegacy(job.legacy, FksOf(plan, t)[j], job.cur[t])
      ensures r.Ok? ==> RestoringFks(State(), job, t, FksOf(plan, t)[..j + 1], before)
    {
      var fks := FksOf(plan, t);
      var fk := fks[j];
      NextFkMeets(State(), job, t, j, before);
      NextFkRestored(State(), job, t, j, before);
      hide ValidJob, RestoringFks, RestoredPks, AllFound, HasColumn, WithRestoredColumn, ColumnIsLegacy;
      r := RestoreFk(t, fk, draws);
    }

    method RestoreForeignKeys(plan: Plan, t: TableName, draws: Draws, ghost job: Job, ghost pks: set<TableName>, ghost fks: set<TableName>)
      returns (r: Result<()>)
      requires ValidJob(job) && job.draws == draws && job.plan == plan && RestoredTo(State(), job, pks, fks)
      requires t in pks && t !in fks
      requires forall fk :: fk in FksOf(plan, t) && fk.parent in job.cur ==> fk.parent in pks && fk.parent !in fks && fk.parent != t
      modifies `tables, `indexes
      ensures r.Ok? <==> TableIsLegacy(job, t)
      ensures r.Ok? ==> RestoringFks(State(), job, t, FksOf(plan, t), old(State()))
    {
      hide ValidJob, RestoredTo, RestoringFks, ParentsRestored, ColumnIsLegacy;
      var keys := FksOf(plan, t);
      ghost var before := State();
      FksToRestore(before, job, pks, fks, t);
      for j := 0 to |keys|
        invariant RestoringFks(State(), job, t, keys[..j], before) && tables.Keys == job.cur.Keys
        invariant forall i :: 0 <= i < j && keys[i].parent in job.cur ==> ColumnIsLegacy(job.legacy, keys[i], job.cur[t])
      {
        if keys[j].parent in tables {
          r := RestoreNextFk(plan, t, j, draws, job, before);
          if r.Err? {
            return;
          }
        } else {
          SkippedIsRestored(State(), job, t, j, before);
        }
        TablesKept(State(), job, t, keys[..j + 1], before);
      }
      assert keys[..|keys|] == keys;
      return Ok(());
    }

    method RestoreColumns(plan: Plan, t: TableName, draws: Draws, ghost job: Job, ghost pks: set<TableName>, ghost fks: set<TableName>)
      returns (r: Result<()>)
      requires ValidJob(job) && job.draws == draws && job.plan == plan && RestoredTo(State(), job, pks, fks)
      requires t in pks && t !in fks
      requires forall fk :: fk in FksOf(plan, t) && fk.parent in job.cur ==> fk.parent in pks && fk.parent !in fks && fk.parent != t
      modifies `tables, `indexes
      ensures r.Ok? <==> TableIsLegacy(job, t)
      ensures r.Ok? ==> t in job.start && State() == WithRestoredFks(old(State()), job, t)
    {
      ghost var recorded, rest := RecordedFor(job.legacyIndexes, t), Untouched(job.start[t], Columns(FksOf(plan, t), job.cur.Keys));
      RecordedComeBack(job, t);
      UpdateTwice(indexes, t, rest, job.start[t] + recorded);
      FullyRestoredRows(job, t);
      assert t in indexes && legacyIndexes == job.legacyIndexes;
      hide IndexesAfter, ValidJob, RestoredTo, NoClash, RestoredFks, Untouched, Touched, Columns, RecordedFor,
           FullyRestored, PksRestored, TableIsLegacy;
      r := RestoreForeignKeys(plan, t, draws, job, pks, fks);
      if r.Err? {
        return;
      }
      r := RecreateIndexes(t);
    }

    method RestoreTableFks(plan: Plan, t: TableName, draws: Draws, ghost job: Job, ghost pks: set<TableName>, ghost fks: set<TableName>)
      returns (r: Result<()>)
      requires ValidJob(job) && job.draws == draws && job.plan == plan && RestoredTo(State(), job, pks, fks)
      requires t in pks && t !in fks
      requires forall fk :: fk in FksOf(plan, t) && fk.parent in job.cur ==> fk.parent in pks && fk.parent !in fks && fk.parent != t
      modifies `tables, `indexes
      ensures r.Ok? <==> TableIsLegacy(job, t)
      ensures r.Ok? ==> RestoredTo(State(), job, pks, fks + {t})
    {
      OneFkTableMore(State(), job, pks, fks, t);
      hide ValidJob, RestoredTo, WithRestoredFks, TableIsLegacy;
      r := RestoreColumns(plan, t, draws, job, pks, fks);
    }

    /** Every primary key but the tenants', children first. */
    method RestorePrimaryKeys(plan: Plan, draws: Draws, ghost job: Job) returns (r: Result<()>)
      requires ValidJob(job) && job.draws == draws && job.plan == plan && RestoredTo(State(), job, {}, {})
      modifies `tables, `indexes, `uuidKeyed, `nextIds
      ensures r.Ok? && RestoredTo(State(), job, RestFrom(plan, 0, job.cur.Keys), {})
    {
      RestAtEnds(plan, job.cur.Keys);
      var i := |plan.tables|;
      hide ValidJob, RestoredTo, RestFrom, PlanTables;
      ghost var present := job.cur.Keys;
      RestoredKeys(State(), job, {}, {});
      while i > 0
        invariant 0 <= i <= |plan.tables| && tables.Keys == present
        invariant RestoredTo(State(), job, RestFrom(plan, i, present), {})
      {
        i := i - 1;
        var t := plan.tables[i];
        RestOneMore(job, i);
        if t != Tenants && t in tables {
          var step := RestoreTablePk(t, draws, job, RestFrom(plan, i + 1, present));
          RestoredKeys(State(), job, RestFrom(plan, i, present), {});
        }
      }
      return Ok(());
    }

    method RestoreTenants(plan: Plan, draws: Draws, ghost job: Job) returns (r: Result<()>)
      requires ValidJob(job) && job.draws == draws && job.plan == plan && RestoredTo(State(), job, RestFrom(plan, 0, job.cur.Keys), {})
      modifies `tables, `indexes, `uuidKeyed, `nextIds
      ensures r.Ok? && RestoredTo(State(), job, job.done, {})
    {
      RestAtEnds(plan, job.cur.Keys);
      RestoredKeys(State(), job, RestFrom(plan, 0, job.cur.Keys), {});
      hide ValidJob, RestoredTo, RestFrom;
      if Tenants in tables {
        r := RestoreTablePk(Tenants, draws, job, RestFrom(plan, 0, job.cur.Keys));
      }
      return Ok(());
    }

    /** Every table's foreign keys and indexes, once all primary keys are back. */
    method RestoreAllForeignKeys(plan: Plan, draws: Draws, ghost job: Job) returns (r: Result<()>)
      requires ValidJob(job) && job.draws == draws && job.plan == plan && RestoredTo(State(), job, job.done, {})
      modifies `tables, `indexes
      ensures r.Ok? <==> forall t :: t in RestFrom(plan, 0, job.cur.Keys) ==> TableIsLegacy(job, t)
      ensures r.Ok? ==> RestoredTo(State(), job, job.done, RestFrom(plan, 0, job.cur.Keys))
    {
      RestAtEnds(plan, job.cur.Keys);
      RestoredKeys(State(), job, job.done, {});
      var i := |plan.tables|;
      hide ValidJob, RestoredTo, RestFrom, PlanTables, TableIsLegacy;
      ghost var present := job.cur.Keys;
      while i > 0
        invariant 0 <= i <= |plan.tables| && tables.Keys == present
        invariant RestoredTo(State(), job, job.done, RestFrom(plan, i, present))
        invariant forall t :: t in RestFrom(plan, i, present) ==> TableIsLegacy(job, t)
      {
        i := i - 1;
        var t := plan.tables[i];
        RestOneMore(job, i);
        if t != Tenants && t in tables {
          r := RestoreTableFks(plan, t, draws, job, job.done, RestFrom(plan, i + 1, present));
          if r.Err? {
            RestStartsWith(plan, i, present);
            return;
          }
          RestoredKeys(State(), job, job.done, RestFrom(plan, i, present));
        }
      }
      return Ok(());
    }

    /** The whole downgrade, in one transaction. It goes through exactly if no foreign key names a row
        that came after the upgrade. */
    method Downgrade(plan: Plan, draws: Draws, ghost job: Job) returns (r: Result<()>)
      requires ValidJob(job) && job.draws == draws && job.plan == plan && RestoredTo(State(), job, {}, {})
      modifies this
      ensures r.Ok? <==> NamesLegacyOnly(job)
      ensures r.Err? ==> State() == old(State())
      ensures r.Ok? ==>
        && tables.Keys == job.cur.Keys && indexes == IndexesAfter(job, job.done) && legacyIds == [] && legacyIndexes == {}
        && (forall t :: t in tables ==> tables[t] == if t in job.done then FullyRestored(job, t) else job.cur[t])
        && uuidKeyed == tables.Keys && nextIds.Keys !! job.done
    {
      var saved := (tables, uuidKeyed, indexes, nextIds);
      hide ValidJob, RestoredTo, RestFrom, FullyRestored, TableIsLegacy, NamesLegacyOnly;
      r := RestorePrimaryKeys(plan, draws, job);
      r := RestoreTenants(plan, draws, job);
      r := RestoreAllForeignKeys(plan, draws, job);
      AllTablesLegacy(job);
      if r.Err? {
        tables, uuidKeyed, indexes, nextIds := saved.0, saved.1, saved.2, saved.3;
        return;
      }
      AllRestored(State(), job);
      legacyIds, legacyIndexes := [], {};
    }
  }

  /** What one downgrade works with: the tables and indexes it starts from, what the upgrade
      recorded about which original tables, and the uuids that will be drawn. */
  datatype Job = Job(
    cur: Tables, start: map<TableName, set<Index>>, legacy: seq<LegacyId>, legacyIndexes: set<(TableName, Index)>,
    orig: Tables, plan: Plan, done: set<TableName>, draws: Draws)

  /** How far the downgrade has got: primary keys restored in `pks`, foreign keys too in `fks`. */
  ghost predicate RestoredTo(s: Snapshot, job: Job, pks: set<TableName>, fks: set<TableName>) {
    && RowsRestored(s.tables, job, pks, fks)
    && s.indexes == IndexesAfter(job, fks) && s.legacyIds == job.legacy && s.legacyIndexes == job.legacyIndexes
    && s.uuidKeyed == job.cur.Keys - job.done + pks && s.nextIds.Keys !! pks
  }

  ghost predicate RowsRestored(tables: Tables, job: Job, pks: set<TableName>, fks: set<TableName>) {
    && fks <= pks <= job.done && pks <= job.cur.Keys == tables.Keys == job.start.Keys
    && (forall t :: t in fks ==> tables[t] == FullyRestored(job, t))
    && (forall t :: t in pks && t !in fks ==> tables[t] == PksRestored(job, t))
    && (forall t :: t in job.cur && t !in pks ==> tables[t] == job.cur[t])
  }

  lemma RowsRestoredOneMore(tables: Tables, job: Job, pks: set<TableName>, fks: set<TableName>, t: TableName)
    requires RowsRestored(tables, job, pks, fks) && t in job.cur && t in job.done
    ensures t !in pks && fks == {} ==> RowsRestored(tables[t := PksRestored(job, t)], job, pks + {t}, fks)
    ensures t in pks ==> RowsRestored(tables[t := FullyRestored(job, t)], job, pks, fks + {t})
  {
    hide PksRestored, FullyRestored;
  }

  /** The database once the primary key of a table is restored. */
  ghost function WithRestoredPk(s: Snapshot, draws: Draws, t: TableName): Snapshot
    requires t in s.tables && t in s.indexes
  {
    s.(tables := s.tables[t := RestoredPks(s.legacyIds, draws, t, s.tables[t])],
       indexes := s.indexes[t := Untouched(s.indexes[t], {Id})],
       uuidKeyed := s.uuidKeyed + {t}, nextIds := s.nextIds - {t})
  }

  lemma PkRestorable(s: Snapshot, job: Job, pks: set<TableName>, t: TableName)
    requires ValidJob(job) && RestoredTo(s, job, pks, {}) && t in job.cur && t in job.done && t !in pks
    ensures t in s.tables && t in s.indexes && s.tables[t] == job.cur[t] && IntIds(s.tables[t])
    ensures UniqueIds(PksRestored(job, t)) && Untouched(s.indexes[t], {Id}) == s.indexes[t]
  {
    RestoredPksUnique(job.orig, job.legacy, job.draws, job.done, t, job.cur[t]);
    IndexesAtEnds(job);
    assert IndexesRestorable(job, t);
  }

  lemma OnePkMore(s: Snapshot, job: Job, pks: set<TableName>, t: TableName)
    requires ValidJob(job) && RestoredTo(s, job, pks, {}) && t in job.cur && t in job.done && t !in pks
    ensures t in s.tables && t in s.indexes && IntIds(s.tables[t])
    ensures UniqueIds(RestoredPks(s.legacyIds, job.draws, t, s.tables[t]))
    ensures RestoredTo(WithRestoredPk(s, job.draws, t), job, pks + {t}, {})
  {
    hide ValidJob, UniqueIds, IntIds, RowsRestored, Untouched, IndexesAfter, RestoredPks;
    PkRestorable(s, job, pks, t);
    assert s.indexes == s.indexes[t := s.indexes[t]];
    RowsRestoredOneMore(s.tables, job, pks, {}, t);
  }

  /** The database once the foreign keys and indexes of a table are restored. */
  ghost function WithRestoredFks(s: Snapshot, job: Job, t: TableName): Snapshot
    requires t in job.cur && t in job.start
  {
    s.(tables := s.tables[t := FullyRestored(job, t)],
       indexes := s.indexes[t := job.start[t] + RecordedFor(job.legacyIndexes, t)])
  }

  lemma OneFkTableMore(s: Snapshot, job: Job, pks: set<TableName>, fks: set<TableName>, t: TableName)
    requires ValidJob(job) && RestoredTo(s, job, pks, fks) && t in pks && t !in fks
    ensures t in job.start && RestoredTo(WithRestoredFks(s, job, t), job, pks, fks + {t})
  {
    IndexesOneMoreTable(job, fks, t);
    RowsRestoredOneMore(s.tables, job, pks, fks, t);
    hide ValidJob, RowsRestored, FullyRestored, PksRestored, IndexesAfter, RecordedFor;
  }

  lemma RestoredKeys(s: Snapshot, job: Job, pks: set<TableName>, fks: set<TableName>)
    requires RestoredTo(s, job, pks, fks)
    ensures s.tables.Keys == job.cur.Keys
  {
  }

  lemma AllRestored(s: Snapshot, job: Job)
    requires ValidJob(job) && RestoredTo(s, job, job.done, RestFrom(job.plan, 0, job.cur.Keys))
    ensures s.tables.Keys == job.cur.Keys && s.indexes == IndexesAfter(job, job.done)
    ensures s.uuidKeyed == s.tables.Keys && s.nextIds.Keys !! job.done
    ensures forall t :: t in s.tables ==> s.tables[t] == if t in job.done then FullyRestored(job, t) else job.cur[t]
  {
    hide ValidJob, PksRestored, FullyRestored, IndexesAfter;
    DoneIsRest(job);
    if Tenants in job.cur {
      TenantsHaveNoFks(job);
    }
    TenantsAddNoIndexes(job);
  }

  lemma DoneIsRest(job: Job)
    requires ValidJob(job)
    ensures job.done == RestFrom(job.plan, 0, job.cur.Keys) + (if Tenants in job.cur then {Tenants} else {})
    ensures job.done <= job.cur.Keys == job.start.Keys
  {
    hide Intact, Fresh, IndexesRestorable;
    RestAtEnds(job.plan, job.cur.Keys);
  }

  ghost predicate TableIsLegacy(job: Job, t: TableName)
    requires t in job.cur
  {
    RowsAreLegacy(job.legacy, FksOf(job.plan, t), job.cur.Keys, job.cur[t])
  }

  ghost predicate NamesLegacyOnly(job: Job) {
    LegacyOnly(job.cur, job.legacy, job.plan, job.done)
  }

  /** Tenants have no foreign keys, so the second pass, which leaves them out, sees all that matter. */
  lemma AllTablesLegacy(job: Job)
    requires ValidJob(job)
    ensures RestFrom(job.plan, 0, job.cur.Keys) <= job.cur.Keys
    ensures NamesLegacyOnly(job) <==> forall t :: t in RestFrom(job.plan, 0, job.cur.Keys) ==> TableIsLegacy(job, t)
  {
    RestAtEnds(job.plan, job.cur.Keys);
    hide Intact, Fresh, IndexesRestorable;
  }

  lemma RestStartsWith(plan: Plan, i: nat, present: set<TableName>)
    requires i < |plan.tables| && plan.tables[i] in present && plan.tables[i] != Tenants
    ensures plan.tables[i] in RestFrom(plan, 0, present)
  {
    assert plan.tables[0..][i] == plan.tables[i];
  }

  /** Every index on a foreign key has been recorded, names do not clash, and none is on the id. */
  ghost predicate IndexesRestorable(job: Job, t: TableName) {
    var recorded, columns := RecordedFor(job.legacyIndexes, t), Columns(FksOf(job.plan, t), job.cur.Keys);
    && t in job.start && Untouched(job.start[t], {Id}) == job.start[t]
    && Touched(job.start[t], columns) <= recorded == Touched(recorded, columns)
    && UniqueIndexNames(job.start[t] + recorded)
  }

  /** The indexes once the tables in fks are dealt with. */
  ghost function IndexesAfter(job: Job, fks: set<TableName>): map<TableName, set<Index>> {
    map t | t in job.start :: if t in fks then job.start[t] + RecordedFor(job.legacyIndexes, t) else job.start[t]
  }

  lemma IndexesAtEnds(job: Job)
    ensures IndexesAfter(job, {}) == job.start
  {
  }

  lemma IndexesOneMoreTable(job: Job, fks: set<TableName>, t: TableName)
    requires t in job.start
    ensures IndexesAfter(job, fks + {t}) == IndexesAfter(job, fks)[t := job.start[t] + RecordedFor(job.legacyIndexes, t)]
  {
  }

  lemma RecordedComeBack(job: Job, t: TableName)
    requires IndexesRestorable(job, t)
    ensures
      var recorded, rest := RecordedFor(job.legacyIndexes, t), Untouched(job.start[t], Columns(FksOf(job.plan, t), job.cur.Keys));
      rest + recorded == job.start[t] + recorded && NoClash(rest, recorded)
  {
    var recorded, columns := RecordedFor(job.legacyIndexes, t), Columns(FksOf(job.plan, t), job.cur.Keys);
    AllIndexesBack(job.start[t], columns);
    assert forall index :: index in recorded ==> index in Touched(recorded, columns);
  }

  ghost predicate ValidJob(job: Job) {
    && Topological(job.plan) && job.done == PlanTables(job.plan, job.cur.Keys)
    && Intact(job.cur, job.orig, job.legacy, job.plan, job.done) && Fresh(job.draws, job.orig)
    && job.start.Keys == job.cur.Keys && forall t :: t in job.done ==> IndexesRestorable(job, t)
  }

  ghost function PksRestored(job: Job, t: TableName): seq<Row>
    requires t in job.cur
  {
    RestoredPks(job.legacy, job.draws, t, job.cur[t])
  }

  ghost function FullyRestored(job: Job, t: TableName): seq<Row>
    requires t in job.cur
  {
    seq(|job.cur[t]|, i requires 0 <= i < |job.cur[t]| =>
      RestoredRow(job.legacy, job.draws, job.plan, job.cur.Keys, t, job.cur[t][i]))
  }

  /** The tables from the i-th on, which the reversed loop has dealt with; tenants is apart. */
  ghost function RestFrom(plan: Plan, i: nat, present: set<TableName>): set<TableName>
    requires i <= |plan.tables|
  {
    set t | t in plan.tables[i..] && t in present && t != Tenants
  }

  lemma RestAtEnds(plan: Plan, present: set<TableName>)
    requires Tenants in plan.tables
    ensures RestFrom(plan, |plan.tables|, present) == {}
    ensures PlanTables(plan, present)
         == RestFrom(plan, 0, present) + (if Tenants in present then {Tenants} else {})
    ensures Tenants !in RestFrom(plan, 0, present)
  {
    assert plan.tables[0..] == plan.tables;
  }

  /** The reversed loop reaches a table once, before any of its parents. */
  lemma RestOneMore(job: Job, i: nat)
    requires ValidJob(job) && i < |job.plan.tables|
    ensures
      var t, present := job.plan.tables[i], job.cur.Keys;
      && (t != Tenants && t in present ==>
            && t in job.done && t !in RestFrom(job.plan, i + 1, present)
            && RestFrom(job.plan, i, present) == RestFrom(job.plan, i + 1, present) + {t}
            && forall fk :: fk in FksOf(job.plan, t) && fk.parent in present ==>
                 fk.parent in job.done && fk.parent !in RestFrom(job.plan, i + 1, present) && fk.parent != t)
      && (!(t != Tenants && t in present) ==> RestFrom(job.plan, i, present) == RestFrom(job.plan, i + 1, present))
  {
    hide IndexesRestorable, Intact, Fresh;
    assert job.plan.tables[i..] == [job.plan.tables[i]] + job.plan.tables[i + 1..];
  }

  lemma TenantsHaveNoFks(job: Job)
    requires ValidJob(job) && Tenants in job.cur
    ensures Tenants in job.done && PksRestored(job, Tenants) == FullyRestored(job, Tenants)
    ensures RecordedFor(job.legacyIndexes, Tenants) == {}
  {
  }

  lemma TenantsAddNoIndexes(job: Job)
    requires ValidJob(job)
    ensures IndexesAfter(job, job.done) == IndexesAfter(job, RestFrom(job.plan, 0, job.cur.Keys))
  {
    RestAtEnds(job.plan, job.cur.Keys);
    if Tenants in job.cur {
      TenantsHaveNoFks(job);
      assert job.start[Tenants] + {} == job.start[Tenants];
    }
  }

  /** The first foreign keys of table t are restored; the rest of the database is as before. */
  ghost predicate RestoringFks(s: Snapshot, job: Job, t: TableName, fks: seq<Fk>, before: Snapshot)
    requires t in job.cur && t in job.start
  {
    s == before.(
      tables := before.tables[t := RestoredFks(job.legacy, job.draws, job.cur.Keys, t, fks, PksRestored(job, t))],
      indexes := before.indexes[t := Untouched(job.start[t], Columns(fks, job.cur.Keys))])
  }

  ghost function WithRestoredColumn(s: Snapshot, draws: Draws, t: TableName, fk: Fk): Snapshot
    requires t in s.tables && t in s.indexes && HasColumn(s.tables[t], fk.column)
  {
    s.(tables := s.tables[t := RestoredColumn(s.legacyIds, draws, t, fk, s.tables[t])],
       indexes := s.indexes[t := Untouched(s.indexes[t], {fk.column})])
  }

  /** What the next foreign key of a half-restored table finds. */
  lemma NextFkMeets(s: Snapshot, job: Job, t: TableName, j: nat, before: Snapshot)
    requires ValidJob(job) && ParentsRestored(before, job, t) && j < |FksOf(job.plan, t)| && FksOf(job.plan, t)[j].parent in job.cur
    requires t in job.cur && t in job.start
    requires RestoringFks(s, job, t, FksOf(job.plan, t)[..j], before)
    ensures
      var fks := FksOf(job.plan, t);
      var fk := fks[j];
      && fk.parent in s.tables && t in s.tables && t in s.indexes && HasColumn(s.tables[t], fk.column) && s.legacyIds == job.legacy
      && RestoredColumn(job.legacy, job.draws, t, fk, s.tables[t])
         == RestoredFks(job.legacy, job.draws, job.cur.Keys, t, fks[..j + 1], PksRestored(job, t))
      && (AllFound(s.tables[fk.parent], fk, RestoredColumn(job.legacy, job.draws, t, fk, s.tables[t]))
          <==> ColumnIsLegacy(job.legacy, fk, job.cur[t]))
  {
    var fks := FksOf(job.plan, t);
    assert Intact(job.cur, job.orig, job.legacy, job.plan, job.done) && Fresh(job.draws, job.orig) && DistinctColumns(fks);
    hide ValidJob, Intact, Fresh, DistinctColumns, Untouched, Columns, RestoredFks, RestoredPks, AllFound,
         RestoredColumn, HasColumn, ColumnIsLegacy;
    NextFkRestorableIff(job.cur, job.orig, job.legacy, job.draws, job.plan, job.done, t, j);
  }

  lemma NextFkRestored(s: Snapshot, job: Job, t: TableName, j: nat, before: Snapshot)
    requires t in job.cur && t in job.start && j < |FksOf(job.plan, t)| && t in s.tables && t in s.indexes
    requires RestoringFks(s, job, t, FksOf(job.plan, t)[..j], before) && FksOf(job.plan, t)[j].parent in job.cur
    requires
      var fks := FksOf(job.plan, t);
      && HasColumn(s.tables[t], fks[j].column) && s.legacyIds == job.legacy
      && RestoredColumn(job.legacy, job.draws, t, fks[j], s.tables[t])
         == RestoredFks(job.legacy, job.draws, job.cur.Keys, t, fks[..j + 1], PksRestored(job, t))
    ensures RestoringFks(WithRestoredColumn(s, job.draws, t, FksOf(job.plan, t)[j]), job, t, FksOf(job.plan, t)[..j + 1], before)
  {
    var fks := FksOf(job.plan, t);
    hide Untouched, Touched, Columns, RestoredFks, PksRestored, RestoredColumn, HasColumn;
    ColumnsOneMore(fks, j, job.cur.Keys);
    IndexesOneMore(t, job.start[t], Columns(fks[..j], job.cur.Keys), {fks[j].column});
  }

  lemma TablesKept(s: Snapshot, job: Job, t: TableName, fks: seq<Fk>, before: Snapshot)
    requires t in job.cur && t in job.start && ParentsRestored(before, job, t) && RestoringFks(s, job, t, fks, before)
    ensures s.tables.Keys == job.cur.Keys && s.legacyIds == job.legacy
  {
    hide RestoredFks, Untouched;
  }

  lemma SkippedIsRestored(s: Snapshot, job: Job, t: TableName, j: nat, before: Snapshot)
    requires t in job.cur && t in job.start && j < |FksOf(job.plan, t)| && FksOf(job.plan, t)[j].parent !in job.cur
    requires RestoringFks(s, job, t, FksOf(job.plan, t)[..j], before)
    ensures RestoringFks(s, job, t, FksOf(job.plan, t)[..j + 1], before)
  {
    var keys := FksOf(job.plan, t);
    hide RestoredFks, Untouched, PksRestored;
    SkippedRestore(job.legacy, job.draws, job.cur.Keys, t, keys, PksRestored(job, t), j);
    ColumnsOneMore(keys, j, job.cur.Keys);
  }

  /** The primary keys of the parents of a table are back, and the table itself is not among them. */
  ghost predicate ParentsRestored(s: Snapshot, job: Job, t: TableName) {
    && t in job.done && t in job.cur && t in job.start && s.tables.Keys == job.cur.Keys && s.legacyIds == job.legacy
    && forall j :: 0 <= j < |FksOf(job.plan, t)| && FksOf(job.plan, t)[j].parent in job.cur ==>
         var parent := FksOf(job.plan, t)[j].parent;
         parent in job.done && parent != t && s.tables[parent] == PksRestored(job, parent)
  }

  /** What the second pass finds when it comes to a table. */
  lemma FksToRestore(s: Snapshot, job: Job, pks: set<TableName>, fks: set<TableName>, t: TableName)
    requires ValidJob(job) && RestoredTo(s, job, pks, fks) && t in pks && t !in fks
    requires forall fk :: fk in FksOf(job.plan, t) && fk.parent in job.cur ==> fk.parent in pks && fk.parent !in fks && fk.parent != t
    ensures t in job.cur && t in job.start && ParentsRestored(s, job, t) && s.tables.Keys == job.cur.Keys
    ensures RestoringFks(s, job, t, FksOf(job.plan, t)[..0], s)
  {
    hide ValidJob, RestoredFks, PksRestored, FullyRestored, Untouched, Columns, ParentsRestored, IndexesAfter;
    var keys := FksOf(job.plan, t);
    ParentsAreRestored(s, job, pks, fks, t);
    NothingRestored(job, t, keys);
    IndexBefore(job, fks, t);
    assert s.tables == s.tables[t := s.tables[t]] && s.indexes == s.indexes[t := s.indexes[t]];
  }

  lemma IndexBefore(job: Job, fks: set<TableName>, t: TableName)
    requires t in job.start && t !in fks
    ensures t in IndexesAfter(job, fks) && IndexesAfter(job, fks)[t] == job.start[t]
  {
  }

  lemma ParentsAreRestored(s: Snapshot, job: Job, pks: set<TableName>, fks: set<TableName>, t: TableName)
    requires ValidJob(job) && RestoredTo(s, job, pks, fks) && t in pks && t !in fks
    requires forall fk :: fk in FksOf(job.plan, t) && fk.parent in job.cur ==> fk.parent in pks && fk.parent !in fks && fk.parent != t
    ensures ParentsRestored(s, job, t)
  {
    hide ValidJob, PksRestored, FullyRestored, IndexesAfter;
    assert forall j :: 0 <= j < |FksOf(job.plan, t)| ==> FksOf(job.plan, t)[j] in FksOf(job.plan, t);
  }

  lemma NothingRestored(job: Job, t: TableName, fks: seq<Fk>)
    requires t in job.cur && t in job.start
    ensures RestoredFks(job.legacy, job.draws, job.cur.Keys, t, fks[..0], PksRestored(job, t)) == PksRestored(job, t)
    ensures Columns(fks[..0], job.cur.Keys) == {} && Untouched(job.start[t], {}) == job.start[t]
  {
  }

  lemma FullyRestoredRows(job: Job, t: TableName)
    requires t in job.cur
    ensures RestoredFks(job.legacy, job.draws, job.cur.Keys, t, FksOf(job.plan, t), PksRestored(job, t)) == FullyRestored(job, t)
  {
  }

  /** The tables of the plan that exist. */
  ghost function PlanTables(plan: Plan, present: set<TableName>): set<TableName> {
    set t | t in plan.tables && t in present
  }

  /** The tables converted after i rounds of the loop; tenants is converted before it. */
  ghost function DoneAfter(plan: Plan, i: nat, present: set<TableName>): set<TableName>
    requires i <= |plan.tables|
  {
    set t | t in present && (t == Tenants || t in plan.tables[..i])
  }

  lemma DoneAtEnds(plan: Plan, present: set<TableName>)
    requires Tenants in plan.tables
    ensures DoneAfter(plan, 0, present) == if Tenants in present then {Tenants} else {}
    ensures DoneAfter(plan, |plan.tables|, present) == PlanTables(plan, present)
  {
    assert plan.tables[..|plan.tables|] == plan.tables;
  }

  /** The next table is not converted yet, but all its parents are. */
  lemma DoneOneMore(plan: Plan, present: set<TableName>, i: nat)
    requires Topological(plan) && i < |plan.tables|
    ensures
      var t := plan.tables[i];
      && t in plan.tables
      && (t != Tenants && t in present ==>
            && t !in DoneAfter(plan, i, present)
            && DoneAfter(plan, i + 1, present) == DoneAfter(plan, i, present) + {t}
            && forall fk :: fk in FksOf(plan, t) && fk.parent in present ==> fk.parent in DoneAfter(plan, i, present))
      && (!(t != Tenants && t in present) ==> DoneAfter(plan, i + 1, present) == DoneAfter(plan, i, present))
  {
    assert plan.tables[..i + 1] == plan.tables[..i] + [plan.tables[i]];
  }

  lemma KeysKept(s: Snapshot, orig: Tables, start: map<TableName, set<Index>>, plan: Plan, done: set<TableName>)
    requires UuidKeyed(orig, plan) && UpgradedTo(s, orig, start, plan, done)
    ensures s.tables.Keys == orig.Keys
  {
  }

  lemma UpdateTwice<K, V>(m: map<K, V>, k: K, first: V, second: V)
    ensures m[k := first][k := second] == m[k := second]
  {
  }

  lemma UpdateBack<K, V>(m: map<K, V>, k: K, other: V)
    requires k in m
    ensures m[k := other][k := m[k]] == m
  {
  }

  /** The first j foreign keys of table t are converted; the rest of the database is as before. */
  ghost predicate Midway(s: Snapshot, orig: Tables, start: map<TableName, set<Index>>, fks: seq<Fk>, t: TableName, before: Snapshot)
    requires t in orig && t in start
  {
    var columns := Columns(fks, orig.Keys);
    s == before.(
      tables := before.tables[t := ConvertedRows(orig, fks, t)],
      indexes := before.indexes[t := Untouched(start[t], columns)],
      legacyIndexes := before.legacyIndexes + Tagged(t, Touched(start[t], columns)))
  }

  /** The database once one foreign-key column is converted. */
  ghost function WithConvertedColumn(s: Snapshot, t: TableName, fk: Fk): Snapshot
    requires t in s.tables && t in s.indexes && Holds(s.tables[t], fk.column)
  {
    s.(tables := s.tables[t := ConvertedColumn(s.legacyIds, fk, s.tables[t])],
       indexes := s.indexes[t := Untouched(s.indexes[t], {fk.column})],
       legacyIndexes := s.legacyIndexes + Tagged(t, Touched(s.indexes[t], {fk.column})))
  }

  lemma MidwayKeys(s: Snapshot, orig: Tables, start: map<TableName, set<Index>>, fks: seq<Fk>, t: TableName, before: Snapshot)
    requires t in orig && t in start && Midway(s, orig, start, fks, t, before) && before.tables.Keys == orig.Keys
    ensures s.tables.Keys == orig.Keys && s.legacyIds == before.legacyIds
  {
  }

  lemma NextFkConverted(s: Snapshot, orig: Tables, start: map<TableName, set<Index>>, plan: Plan, t: TableName, j: nat, before: Snapshot)
    requires t in orig && t in start && j < |FksOf(plan, t)| && FksOf(plan, t)[j].parent in orig
    requires Midway(s, orig, start, FksOf(plan, t)[..j], t, before)
    requires Holds(s.tables[t], FksOf(plan, t)[j].column)
    requires ConvertedColumn(s.legacyIds, FksOf(plan, t)[j], s.tables[t]) == ConvertedRows(orig, FksOf(plan, t)[..j + 1], t)
    ensures t in s.indexes && Midway(WithConvertedColumn(s, t, FksOf(plan, t)[j]), orig, start, FksOf(plan, t)[..j + 1], t, before)
  {
    hide ConvertedRows, ConvertedColumn, Holds, Untouched, Touched, Columns, Tagged;
    var fks := FksOf(plan, t);
    ColumnsOneMore(fks, j, orig.Keys);
    IndexesOneMore(t, start[t], Columns(fks[..j], orig.Keys), {fks[j].column});
  }

  lemma SkippedIsConverted(s: Snapshot, orig: Tables, start: map<TableName, set<Index>>, plan: Plan, t: TableName, j: nat, before: Snapshot)
    requires t in orig && t in start && j < |FksOf(plan, t)| && FksOf(plan, t)[j].parent !in orig
    requires Midway(s, orig, start, FksOf(plan, t)[..j], t, before)
    ensures Midway(s, orig, start, FksOf(plan, t)[..j + 1], t, before)
  {
    hide ConvertedRows, Untouched, Touched, Tagged;
    SkippedFk(orig, FksOf(plan, t), t, j);
    ColumnsOneMore(FksOf(plan, t), j, orig.Keys);
  }

  /** What the upgrade finds when it comes to a table. */
  lemma FksToConvert(s: Snapshot, orig: Tables, start: map<TableName, set<Index>>, plan: Plan, done: set<TableName>, t: TableName)
    requires Prepared(orig, plan) && UpgradedTo(s, orig, start, plan, done) && t in orig && t in plan.tables && t !in done
    requires forall fk :: fk in FksOf(plan, t) && fk.parent in orig ==> fk.parent in done
    ensures t in start && s.tables.Keys == orig.Keys && Recorded(s.legacyIds, orig, done)
    ensures Midway(s, orig, start, FksOf(plan, t)[..0], t, s)
    ensures forall j :: 0 <= j < |FksOf(plan, t)| && FksOf(plan, t)[j].parent in orig ==>
              var parent := FksOf(plan, t)[j].parent;
              parent in done && parent in plan.tables && UuidIds(orig[parent]) && s.tables[parent] == UpgradedRows(orig, plan, parent)
  {
    NothingConverted(orig, start[t], FksOf(plan, t), t);
    hide Recorded, IndexesRecorded, ConvertedRows, Untouched, Touched, Tagged, Columns, UpgradedRows, UuidIds, Integrity, Topological;
    assert s.tables[t] == orig[t] && s.indexes[t] == start[t];
    assert s.tables == s.tables[t := orig[t]] && s.indexes == s.indexes[t := start[t]];
    assert s.legacyIndexes + {} == s.legacyIndexes;
  }

  lemma NothingConverted(orig: Tables, indexes: set<Index>, fks: seq<Fk>, t: TableName)
    requires t in orig
    ensures ConvertedRows(orig, fks[..0], t) == orig[t] && Columns(fks[..0], orig.Keys) == {}
    ensures Untouched(indexes, {}) == indexes && Tagged(t, Touched(indexes, {})) == {}
  {
  }

  ghost predicate IndexesRecorded(legacy: set<(TableName, Index)>, start: map<TableName, set<Index>>, plan: Plan, done: set<TableName>)
    requires done <= start.Keys
  {
    forall e :: e in legacy <==> e.0 in done && e.1 in Touched(start[e.0], Columns(FksOf(plan, e.0), start.Keys))
  }

  lemma ColumnsOneMore(fks: seq<Fk>, j: nat, present: set<TableName>)
    requires j < |fks|
    ensures Columns(fks[..j + 1], present)
         == if fks[j].parent in present then Columns(fks[..j], present) + {fks[j].column} else Columns(fks[..j], present)
  {
    assert fks[..j + 1] == fks[..j] + [fks[j]];
  }

  ghost function Tagged(t: TableName, indexes: set<Index>): set<(TableName, Index)> {
    set index | index in indexes :: (t, index)
  }

  lemma IndexesOneMore(t: TableName, indexes: set<Index>, columns: set<Column>, more: set<Column>)
    ensures Untouched(Untouched(indexes, columns), more) == Untouched(indexes, columns + more)
    ensures Tagged(t, Touched(indexes, columns)) + Tagged(t, Touched(Untouched(indexes, columns), more))
         == Tagged(t, Touched(indexes, columns + more))
  {
    assert Touched(indexes, columns) + Touched(Untouched(indexes, columns), more) == Touched(indexes, columns + more);
  }

  lemma JustRecorded(legacy: set<(TableName, Index)>, start: map<TableName, set<Index>>, plan: Plan, done: set<TableName>,
                     t: TableName, touched: set<Index>)
    requires done <= start.Keys && t !in done && IndexesRecorded(legacy, start, plan, done)
    ensures RecordedFor(legacy + Tagged(t, touched), t) == touched
  {
    forall index ensures index in RecordedFor(legacy + Tagged(t, touched), t) <==> index in touched {
      if index in touched {
        assert (t, index) in Tagged(t, touched);
      }
    }
  }

  lemma AllIndexesBack(indexes: set<Index>, columns: set<Column>)
    ensures Untouched(indexes, columns) + Touched(indexes, columns) == indexes
    ensures UniqueIndexNames(indexes) ==> NoClash(Untouched(indexes, columns), Touched(indexes, columns))
  {
  }

  lemma NothingCreated(base: set<Index>, recorded: set<Index>)
    ensures base + (recorded - recorded) == base && NoClash(base, recorded - recorded)
  {
  }

  lemma OneIndexLess(base: set<Index>, recorded: set<Index>, todo: set<Index>, index: Index)
    requires todo <= recorded && index in todo && NoClash(base, recorded - todo)
    ensures base + (recorded - (todo - {index})) == base + (recorded - todo) + {index}
    ensures
      if forall other :: other in base + (recorded - todo) ==> other.name != index.name
      then NoClash(base, recorded - (todo - {index}))
      else !NoClash(base, recorded)
  {
  }
}
