/**
 * The metadata manager: the `WHERE`/params builder of `get_tables`, the
 * metadata queries, run-id allocation, the run-history writer and the
 * metadata overwrite. Queries go through `fetch_dict`, which turns an engine
 * error into a `DVSQLError` that the caller sees raised.
 */
module MetadataManager {
  import opened Common
  import opened Ordering
  import opened Grouping
  import opened Metadata
  import opened Statements
  import opened Engine

  /** The filter `get_tables` means: a falsy argument (`None` or `""`) is no filter. */
  function IntendedFilter(baseName: Option<string>, relType: Option<string>): TableFilter {
    TableFilter(if Truthy(baseName) then baseName else None, if Truthy(relType) then relType else None)
  }

  /** The `WHERE` clause and parameter list of `get_tables`, built by appending one clause per truthy filter. */
  method TablesWhere(baseName: Option<string>, relType: Option<string>) returns (whereClause: string, params: seq<Value>)
    ensures !Truthy(baseName) && !Truthy(relType) ==> whereClause == "" && params == []
    ensures Truthy(baseName) && !Truthy(relType) ==>
              whereClause == WhereBase && params == [VStr(baseName.value)]
    ensures !Truthy(baseName) && Truthy(relType) ==>
              whereClause == WhereRel && params == [VStr(relType.value)]
    ensures Truthy(baseName) && Truthy(relType) ==>
              whereClause == WhereBoth && params == [VStr(baseName.value), VStr(relType.value)]
    ensures TableFilterOf(whereClause, params) == Some(IntendedFilter(baseName, relType))
  {
    var clauses: seq<string> := [];
    params := [];
    if Truthy(baseName) {
      clauses := clauses + [BaseClause];
      params := params + [VStr(baseName.value)];
    }
    if Truthy(relType) {
      clauses := clauses + [RelClause];
      params := params + [VStr(relType.value)];
    }
    if |clauses| == 2 {
      assert clauses[1..] == [RelClause];
      assert Join(" AND ", clauses) == BaseClause + " AND " + RelClause;
    }
    whereClause := if clauses != [] then "WHERE " + Join(" AND ", clauses) else "";
    assert |WhereBase| == 19 && |WhereRel| == 18 && |WhereBoth| == 36;
  }

  /** The GET_TABLES statement `get_tables(base_name, rel_type)` submits. */
  function TablesStmt(baseName: Option<string>, relType: Option<string>): (s: Stmt)
    ensures s.GetTables? && TableFilterOf(s.whereClause, s.params) == Some(IntendedFilter(baseName, relType))
  {
    assert |WhereBase| == 19 && |WhereRel| == 18 && |WhereBoth| == 36;
    if Truthy(baseName) && Truthy(relType) then Stmt.GetTables(WhereBoth, [VStr(baseName.value), VStr(relType.value)])
    else if Truthy(baseName) then Stmt.GetTables(WhereBase, [VStr(baseName.value)])
    else if Truthy(relType) then Stmt.GetTables(WhereRel, [VStr(relType.value)])
    else Stmt.GetTables("", [])
  }

  /** `fetch_dict`'s wrapping of an engine error. */
  function FetchError(e: Exn): Exn {
    SqlError("Fetch dictionary", e)
  }

  /** What `get_tables` does to the engine and returns, as a function of the state it runs in. */
  function TablesResult(oracle: Oracle, st: DbState, baseName: Option<string>, relType: Option<string>)
    : (DbState, Result<seq<TableRecord>, Exn>)
  {
    var s := TablesStmt(baseName, relType);
    (Submit(oracle, st, s),
     if Failure(oracle, st, s).Some? then Err(FetchError(Failure(oracle, st, s).value))
     else Ok(TablesQuery(st.tables, IntendedFilter(baseName, relType))))
  }

  /** What `get_transitions` does to the engine and returns. */
  function TransitionsResult(oracle: Oracle, st: DbState, sourceTable: string): (DbState, Result<seq<Transition>, Exn>) {
    var s := Stmt.GetTransitions([VStr(sourceTable)]);
    (Submit(oracle, st, s),
     if Failure(oracle, st, s).Some? then Err(FetchError(Failure(oracle, st, s).value))
     else Ok(TransitionsQuery(st.transitions, sourceTable)))
  }

  /**
   * The table metadata of the link and satellite builders: the given rel type
   * when it is truthy, otherwise `first` followed by `second`; the first fetch
   * that fails raises and stops.
   */
  function EntityTables(oracle: Oracle, st: DbState, baseName: Option<string>, relType: Option<string>,
                        first: string, second: string): (DbState, Result<seq<TableRecord>, Exn>)
  {
    if Truthy(relType) then TablesResult(oracle, st, baseName, relType)
    else
      var a := TablesResult(oracle, st, baseName, Some(first));
      if a.1.Err? then a
      else
        var b := TablesResult(oracle, a.0, baseName, Some(second));
        (b.0, if b.1.Err? then b.1 else Ok(a.1.value + b.1.value))
  }

  /** `get_tables(base_name, rel_type)`: the matching rows, sorted; an engine error is raised as a `DVSQLError`. */
  method GetTables(db: Database, baseName: Option<string>, relType: Option<string>)
    returns (r: Result<seq<TableRecord>, Exn>, s: Stmt)
    modifies db
    ensures s == TablesStmt(baseName, relType)
    ensures db.State() == Submit(db.oracle, old(db.State()), s)
    ensures Failure(db.oracle, old(db.State()), s).Some? ==> r == Err(FetchError(Failure(db.oracle, old(db.State()), s).value))
    ensures Failure(db.oracle, old(db.State()), s).None? ==> r == Ok(TablesQuery(old(db.tables), IntendedFilter(baseName, relType)))
    ensures (db.State(), r) == TablesResult(db.oracle, old(db.State()), baseName, relType)
  {
    var whereClause, params := TablesWhere(baseName, relType);
    s := Stmt.GetTables(whereClause, params);
    var q := db.FetchTables(s);
    r := if q.Err? then Err(FetchError(q.error)) else q;
  }

  /** `get_transitions(source_table)`: one parameter, the source table. */
  method GetTransitions(db: Database, sourceTable: string) returns (r: Result<seq<Transition>, Exn>)
    modifies db
    ensures db.State() == Submit(db.oracle, old(db.State()), Stmt.GetTransitions([VStr(sourceTable)]))
    ensures Failure(db.oracle, old(db.State()), Stmt.GetTransitions([VStr(sourceTable)])).Some? ==>
              r == Err(FetchError(Failure(db.oracle, old(db.State()), Stmt.GetTransitions([VStr(sourceTable)])).value))
    ensures Failure(db.oracle, old(db.State()), Stmt.GetTransitions([VStr(sourceTable)])).None? ==>
              r == Ok(TransitionsQuery(old(db.transitions), sourceTable))
    ensures (db.State(), r) == TransitionsResult(db.oracle, old(db.State()), sourceTable)
  {
    var q := db.FetchTransitions(Stmt.GetTransitions([VStr(sourceTable)]));
    r := if q.Err? then Err(FetchError(q.error)) else q;
  }

  /** The link and satellite builders' metadata fetch: one or two `get_tables` calls. */
  method GetEntityTables(db: Database, baseName: Option<string>, relType: Option<string>, first: string, second: string)
    returns (r: Result<seq<TableRecord>, Exn>)
    modifies db
    ensures (db.State(), r) == EntityTables(db.oracle, old(db.State()), baseName, relType, first, second)
  {
    if Truthy(relType) {
      var q, _ := GetTables(db, baseName, relType);
      r := q;
    } else {
      var a, _ := GetTables(db, baseName, Some(first));
      if a.Err? {
        return a;
      }
      var b, _ := GetTables(db, baseName, Some(second));
      r := if b.Err? then b else Ok(a.value + b.value);
    }
  }

  /** CHECK_INGESTION's parameters, in the template's order: file, table, status. */
  function IngestionParams(sourceTable: string, filePath: Option<string>, status: string): seq<Value> {
    [OptValue(filePath), VStr(sourceTable), VStr(status)]
  }

  /** What `check_previous_ingestion` does to the engine and returns. */
  function IngestionResult(oracle: Oracle, st: DbState, sourceTable: string, filePath: Option<string>, status: string)
    : (DbState, Result<bool, Exn>)
  {
    var ps := IngestionParams(sourceTable, filePath, status);
    var s := CheckIngestion(ps);
    (Submit(oracle, st, s),
     if Failure(oracle, st, s).Some? then Err(FetchError(Failure(oracle, st, s).value))
     else Ok(|IngestionRows(st.runinfo, ps[0], ps[1], ps[2])| > 0))
  }

  /** `check_previous_ingestion`: true iff some run-info row has this file, table and status. */
  method CheckPreviousIngestion(db: Database, sourceTable: string, filePath: Option<string>, status: string)
    returns (r: Result<bool, Exn>)
    modifies db
    ensures (db.State(), r) == IngestionResult(db.oracle, old(db.State()), sourceTable, filePath, status)
    ensures db.State() == Submit(db.oracle, old(db.State()), CheckIngestion(IngestionParams(sourceTable, filePath, status)))
    ensures Failure(db.oracle, old(db.State()), CheckIngestion(IngestionParams(sourceTable, filePath, status))).Some? ==>
              r.Err? && r.error.cls == "DVSQLError"
    ensures Failure(db.oracle, old(db.State()), CheckIngestion(IngestionParams(sourceTable, filePath, status))).None? ==>
              r.Ok? && (r.value <==> exists row :: row in old(db.runinfo) &&
                                       IngestionMatch(row, OptValue(filePath), VStr(sourceTable), VStr(status)))
  {
    var params := IngestionParams(sourceTable, filePath, status);
    var q := db.FetchIngestion(CheckIngestion(params));
    if q.Err? {
      r := Err(FetchError(q.error));
    } else {
      IngestionRowsExist(old(db.runinfo), params[0], params[1], params[2]);
      r := Ok(q.value > 0);
    }
  }

  /** What `get_next_run_id` does to the engine and returns. */
  function RunIdResult(oracle: Oracle, st: DbState): (DbState, Result<int, Exn>) {
    (Submit(oracle, st, GetRunId),
     if Failure(oracle, st, GetRunId).Some? then Err(FetchError(Failure(oracle, st, GetRunId).value))
     else Ok(NextRunId(st.runinfo)))
  }

  /** `get_next_run_id`: one more than the largest recorded run id, 1 on an empty history. */
  method GetNextRunId(db: Database) returns (r: Result<int, Exn>)
    modifies db
    ensures (db.State(), r) == RunIdResult(db.oracle, old(db.State()))
    ensures db.State() == Submit(db.oracle, old(db.State()), GetRunId)
    ensures Failure(db.oracle, old(db.State()), GetRunId).Some? ==>
              r == Err(FetchError(Failure(db.oracle, old(db.State()), GetRunId).value))
    ensures Failure(db.oracle, old(db.State()), GetRunId).None? ==> r == Ok(NextRunId(old(db.runinfo)))
  {
    var q := db.FetchRunId();
    r := if q.Err? then Err(FetchError(q.error)) else q;
  }

  /** INSERT_RUNINFO's parameters, in column order. */
  function RunInfoParams(sourceTable: string, runId: int, loadTime: string, filePath: Option<string>,
                         status: string, message: string): (ps: seq<Value>)
    ensures |ps| == 6
  {
    [VStr(sourceTable), VInt(runId), VStr(loadTime), OptValue(filePath), VStr(status), VStr(message)]
  }

  /** The parameter order puts every value in its own column: the stored row gives each argument back. */
  lemma RunInfoParamsColumns(sourceTable: string, runId: int, loadTime: string, filePath: Option<string>,
                             status: string, message: string)
    ensures var row := RunRowOf(InsertRunInfo(RunInfoParams(sourceTable, runId, loadTime, filePath, status, message)));
      row.sourceTable == VStr(sourceTable) && row.runId == VInt(runId) && row.logDate == VStr(loadTime)
      && row.sourceFile == OptValue(filePath) && row.status == VStr(status) && row.message == VStr(message)
  {
  }

  function RunInfoStmt(sourceTable: string, runId: int, loadTime: string, filePath: Option<string>,
                       status: string, message: string): Stmt {
    InsertRunInfo(RunInfoParams(sourceTable, runId, loadTime, filePath, status, message))
  }

  /** What `register_run_info` does to the engine, and the exception it raises. */
  function RunInfoResult(oracle: Oracle, st: DbState, sourceTable: string, runId: int, loadTime: string,
                         filePath: Option<string>, status: string, message: string): (DbState, Option<Exn>)
  {
    var s := RunInfoStmt(sourceTable, runId, loadTime, filePath, status, message);
    (Submit(oracle, st, s),
     if Failure(oracle, st, s).Some? then Some(SqlError("User SQL execution", Failure(oracle, st, s).value)) else None)
  }

  /**
   * `register_run_info`: appends exactly one run-info row, or raises the
   * `DVSQLError` of `DatabaseConnection.sql`. The load time is a parameter.
   */
  method RegisterRunInfo(db: Database, sourceTable: string, runId: int, loadTime: string,
                         filePath: Option<string>, status: string, message: string)
    returns (raised: Option<Exn>)
    modifies db
    ensures (db.State(), raised) == RunInfoResult(db.oracle, old(db.State()), sourceTable, runId, loadTime, filePath, status, message)
    ensures var s := RunInfoStmt(sourceTable, runId, loadTime, filePath, status, message);
      && db.log == old(db.log) + [s]
      && db.tables == old(db.tables) && db.transitions == old(db.transitions)
      && (Failure(db.oracle, old(db.State()), s).Some? ==>
            raised == Some(SqlError("User SQL execution", Failure(db.oracle, old(db.State()), s).value))
            && db.runinfo == old(db.runinfo))
      && (Failure(db.oracle, old(db.State()), s).None? ==>
            raised.None?
            && db.runinfo == old(db.runinfo) + [RunRow(VStr(sourceTable), VInt(runId), VStr(loadTime),
                                                       OptValue(filePath), VStr(status), VStr(message))])
  {
    var s := RunInfoStmt(sourceTable, runId, loadTime, filePath, status, message);
    var failure := db.Execute(s);
    raised := if failure.Some? then Some(SqlError("User SQL execution", failure.value)) else None;
  }

  // ---------------------------------------------------------------------------
  // overwrite_metadata_from_files
  // ---------------------------------------------------------------------------

  /** Truncate then reload one metadata relation, when its path is truthy. */
  function ReloadPlan(table: string, path: Option<string>): (p: seq<Action>)
    ensures |p| == if Truthy(path) then 2 else 0
  {
    if Truthy(path) then [Exec(MetaTruncate(table)), Exec(MetaLoadCsv(table, path.value))] else []
  }

  /** `metadata.tables` first, then `metadata.transitions`. */
  function OverwritePlan(tablesPath: Option<string>, transitionsPath: Option<string>): seq<Action> {
    ReloadPlan("tables", tablesPath) + ReloadPlan("transitions", transitionsPath)
  }

  /** Replacing the metadata relations from files: always returns its error list. */
  method OverwriteMetadataFromFiles(db: Database, tablesPath: Option<string>, transitionsPath: Option<string>)
    returns (errors: seq<ErrorEntry>)
    modifies db
    ensures (db.State(), errors) == Run(db.oracle, old(db.State()), OverwritePlan(tablesPath, transitionsPath), Refactored)
  {
    errors := db.PerformAll(OverwritePlan(tablesPath, transitionsPath), Refactored);
  }

  /** With no path nothing runs; otherwise two statements per truthy path, at most one error each. */
  lemma OverwriteBound(oracle: Oracle, st: DbState, tablesPath: Option<string>, transitionsPath: Option<string>)
    ensures var plan := OverwritePlan(tablesPath, transitionsPath);
      && |plan| == (if Truthy(tablesPath) then 2 else 0) + (if Truthy(transitionsPath) then 2 else 0)
      && Run(oracle, st, plan, Refactored).0.runinfo == st.runinfo
      && |Run(oracle, st, plan, Refactored).1| <= |plan|
  {
    var plan := OverwritePlan(tablesPath, transitionsPath);
    assert NoRunInfoWrite(plan);
    RunEffect(oracle, st, plan, Refactored);
  }

  // ---------------------------------------------------------------------------
  // What the link and satellite builders fetch
  // ---------------------------------------------------------------------------

  /** The rows `EntityTables` returns when no fetch fails: one query, or the `first` rows then the `second` rows. */
  function EntityRecords(tables: seq<TableRecord>, baseName: Option<string>, relType: Option<string>,
                         first: string, second: string): seq<TableRecord>
  {
    if Truthy(relType) then TablesQuery(tables, IntendedFilter(baseName, relType))
    else TablesQuery(tables, IntendedFilter(baseName, Some(first))) + TablesQuery(tables, IntendedFilter(baseName, Some(second)))
  }

  /** A successful fetch returns the rows of the tables as they were; a failed one raises a `DVSQLError`. */
  lemma EntityTablesValue(oracle: Oracle, st: DbState, baseName: Option<string>, relType: Option<string>,
                          first: string, second: string)
    ensures EntityTables(oracle, st, baseName, relType, first, second).0.runinfo == st.runinfo
    ensures EntityTables(oracle, st, baseName, relType, first, second).0.tables == st.tables
    ensures EntityTables(oracle, st, baseName, relType, first, second).1.Ok? ==>
      EntityTables(oracle, st, baseName, relType, first, second).1.value == EntityRecords(st.tables, baseName, relType, first, second)
    ensures EntityTables(oracle, st, baseName, relType, first, second).1.Err? ==>
      EntityTables(oracle, st, baseName, relType, first, second).1.error.cls == "DVSQLError"
  {
    if Truthy(relType) {
      TablesResultValue(oracle, st, baseName, relType);
    } else {
      var a := TablesResult(oracle, st, baseName, Some(first));
      TablesResultValue(oracle, st, baseName, Some(first));
      if a.1.Ok? {
        TablesResultValue(oracle, a.0, baseName, Some(second));
      }
    }
  }

  /** One `get_tables` leaves the history and the tables alone, and returns the query's rows or a `DVSQLError`. */
  lemma TablesResultValue(oracle: Oracle, st: DbState, baseName: Option<string>, relType: Option<string>)
    ensures TablesResult(oracle, st, baseName, relType).0.runinfo == st.runinfo
    ensures TablesResult(oracle, st, baseName, relType).0.tables == st.tables
    ensures TablesResult(oracle, st, baseName, relType).1.Ok? ==>
      TablesResult(oracle, st, baseName, relType).1.value == TablesQuery(st.tables, IntendedFilter(baseName, relType))
    ensures TablesResult(oracle, st, baseName, relType).1.Err? ==>
      TablesResult(oracle, st, baseName, relType).1.error.cls == "DVSQLError"
  {
  }

  /** Each row of one `get_tables` for a given rel type has that rel type, and the rows are contiguous by `rel_type.base_name`. */
  lemma TypedRecords(tables: seq<TableRecord>, baseName: Option<string>, relType: string)
    requires relType != "" && DotFree(relType)
    ensures forall r :: r in TablesQuery(tables, IntendedFilter(baseName, Some(relType))) ==> r.relType == relType
    ensures Contiguous(TablesQuery(tables, IntendedFilter(baseName, Some(relType))), RelBaseKey)
  {
    var rs := TablesQuery(tables, IntendedFilter(baseName, Some(relType)));
    TablesQueryCorrect(tables, IntendedFilter(baseName, Some(relType)));
    assert forall i :: 0 <= i < |rs| ==> rs[i] in rs;
    TablesContiguousByRelBase(rs);
  }

  /**
   * With rel types free of dots, the rows the link and satellite builders
   * fetch are of the requested type (or of one of the two default types) and
   * contiguous by `rel_type.base_name`: grouping them loses nothing.
   */
  lemma EntityRecordsContiguous(tables: seq<TableRecord>, baseName: Option<string>, relType: Option<string>,
                                first: string, second: string)
    requires first != "" && second != "" && first != second && DotFree(first) && DotFree(second)
    requires Truthy(relType) ==> DotFree(relType.value)
    ensures Contiguous(EntityRecords(tables, baseName, relType, first, second), RelBaseKey)
    ensures forall r :: r in EntityRecords(tables, baseName, relType, first, second) ==>
      if Truthy(relType) then r.relType == relType.value else r.relType == first || r.relType == second
  {
    if Truthy(relType) {
      TypedRecords(tables, baseName, relType.value);
    } else {
      var a := TablesQuery(tables, IntendedFilter(baseName, Some(first)));
      var b := TablesQuery(tables, IntendedFilter(baseName, Some(second)));
      TypedRecords(tables, baseName, first);
      TypedRecords(tables, baseName, second);
      forall x, y | x in a && y in b ensures RelBaseKey(x) != RelBaseKey(y) {
        if RelBaseKey(x) == RelBaseKey(y) {
          RelBaseKeyInjective(x, y);
        }
      }
      ContiguousConcat(a, b, RelBaseKey);
    }
  }
}
