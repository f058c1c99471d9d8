/**
 * The legacy single-class implementation (`MallardDataVault`): the same
 * generators as the refactored managers, with three differences the model
 * keeps. Its queries splice values into the SQL text. An engine error from a
 * query escapes raw instead of as a `DVSQLError`. A caught error is rendered
 * with `repr`. Its `_hash_fields` and `_groupby` are textually the refactored
 * `hash_fields` and `groupby`, so the model uses `HashFields` and `GroupBy`
 * for both.
 */
module Legacy {
  import opened Common
  import opened Ordering
  import opened Grouping
  import opened Metadata
  import opened Statements
  import opened Engine
  import opened SqlText
  import HashGenerator
  import HubManager
  import LinkManager
  import SatelliteManager
  import SchemaManager
  import MetadataManager

  // ---------------------------------------------------------------------------
  // _get_tables and _get_transitions
  // ---------------------------------------------------------------------------

  /**
   * The four slots of `_get_tables`' f-string between `FROM` and `ORDER BY`:
   * the `WHERE` keyword, the base-name condition, the `AND` keyword and the
   * rel-type condition; a slot that does not apply is empty.
   */
  function TablesSlots(baseName: Option<string>, relType: Option<string>): (r: seq<string>)
    ensures |r| == 4
  {
    var whereClause := Truthy(baseName) || Truthy(relType);
    var andClause := Truthy(baseName) && Truthy(relType);
    [if whereClause then "WHERE" else "",
     if Truthy(baseName) then "base_name = '" + baseName.value + "'" else "",
     if andClause then "AND" else "",
     if Truthy(relType) then "rel_type = '" + relType.value + "'" else ""]
  }

  /**
   * The f-string's clause is well formed: `WHERE` appears exactly when some
   * filter is set, each condition exactly when its filter is set, and `AND`
   * exactly when both conditions flank it.
   */
  lemma TablesClauseShape(baseName: Option<string>, relType: Option<string>)
    ensures var slots := TablesSlots(baseName, relType);
      && (slots[0] != "" <==> slots[1] != "" || slots[3] != "")
      && (slots[2] != "" <==> slots[1] != "" && slots[3] != "")
      && (slots[1] != "" <==> Truthy(baseName))
      && (slots[3] != "" <==> Truthy(relType))
      && (Truthy(baseName) ==> slots[1] == "base_name = '" + baseName.value + "'")
      && (Truthy(relType) ==> slots[3] == "rel_type = '" + relType.value + "'")
  {
    var slots := TablesSlots(baseName, relType);
    if Truthy(baseName) {
      assert slots[1][0] == 'b';
    }
    if Truthy(relType) {
      assert slots[3][0] == 'r';
    }
  }

  /**
   * For filter values without a single quote, the legacy filter selects what
   * the refactored `get_tables` selects: a falsy value is no filter, in the
   * clause and in the parameters alike. A spliced value with a quote is read
   * by the SQL lexer (a doubled quote, or a quote that reopens the SQL text),
   * which this model does not follow, so such values are not covered.
   */
  lemma SameTableFilter(baseName: Option<string>, relType: Option<string>)
    requires Truthy(baseName) ==> !HasQuote(baseName.value)
    requires Truthy(relType) ==> !HasQuote(relType.value)
    ensures LegacyFilter(baseName, relType) == MetadataManager.IntendedFilter(baseName, relType)
    ensures LegacyFilter(baseName, relType)
         == TableFilterOf(MetadataManager.TablesStmt(baseName, relType).whereClause,
                          MetadataManager.TablesStmt(baseName, relType).params).value
  {
  }

  /** What `_get_tables` does to the engine and returns; an engine error escapes as it is. */
  function TablesResult(oracle: Oracle, st: DbState, baseName: Option<string>, relType: Option<string>)
    : (DbState, Result<seq<TableRecord>, Exn>)
  {
    var s := LegacyGetTables(baseName, relType);
    (Submit(oracle, st, s),
     if Failure(oracle, st, s).Some? then Err(Failure(oracle, st, s).value)
     else Ok(TablesQuery(st.tables, LegacyFilter(baseName, relType))))
  }

  method GetTables(db: Database, baseName: Option<string>, relType: Option<string>)
    returns (r: Result<seq<TableRecord>, Exn>)
    modifies db
    ensures (db.State(), r) == TablesResult(db.oracle, old(db.State()), baseName, relType)
  {
    r := db.FetchTables(LegacyGetTables(baseName, relType));
  }

  /** What `_get_transitions` does to the engine and returns. */
  function TransitionsResult(oracle: Oracle, st: DbState, sourceTable: string)
    : (DbState, Result<seq<Transition>, Exn>)
  {
    var s := LegacyGetTransitions(sourceTable);
    (Submit(oracle, st, s),
     if Failure(oracle, st, s).Some? then Err(Failure(oracle, st, s).value)
     else Ok(TransitionsQuery(st.transitions, sourceTable)))
  }

  method GetTransitions(db: Database, sourceTable: string) returns (r: Result<seq<Transition>, Exn>)
    modifies db
    ensures (db.State(), r) == TransitionsResult(db.oracle, old(db.State()), sourceTable)
  {
    r := db.FetchTransitions(LegacyGetTransitions(sourceTable));
  }

  /**
   * A name that ends its quoted literal early and leaves a stray word (as
   * `o'brien` does) breaks the spliced query: the legacy fetch fails whatever
   * the engine holds, where the refactored one binds it as a parameter.
   */
  lemma QuotedNameBreaksFetch(oracle: Oracle, st: DbState, sourceTable: string)
    requires Breaks(sourceTable)
    ensures TransitionsResult(oracle, st, sourceTable).1.Err?
    ensures Intrinsic(Stmt.GetTransitions([VStr(sourceTable)])).None?
  {
    assert sourceTable in QuotedSlots(LegacyGetTransitions(sourceTable));
  }

  /** The rows of the link and satellite builders: the given rel type, or `first`'s rows then `second`'s. */
  function EntityTables(oracle: Oracle, st: DbState, baseName: Option<string>, relType: Option<string>,
                        first: string, second: string): (DbState, Result<seq<TableRecord>, Exn>)
  {
    if Truthy(relType) then TablesResult(oracle, st, baseName, relType)
    else
      var a := TablesResult(oracle, st, baseName, Some(first));
      if a.1.Err? then a
      else
        var b := TablesResult(oracle, a.0, baseName, Some(second));
        (b.0, if b.1.Err? then b.1 else Ok(a.1.value + b.1.value))
  }

  method GetEntityTables(db: Database, baseName: Option<string>, relType: Option<string>, first: string, second: string)
    returns (r: Result<seq<TableRecord>, Exn>)
    modifies db
    ensures (db.State(), r) == EntityTables(db.oracle, old(db.State()), baseName, relType, first, second)
  {
    if Truthy(relType) {
      r := GetTables(db, baseName, relType);
    } else {
      var a := GetTables(db, baseName, Some(first));
      if a.Err? {
        return a;
      }
      var b := GetTables(db, baseName, Some(second));
      r := if b.Err? then b else Ok(a.value + b.value);
    }
  }

  // ---------------------------------------------------------------------------
  // overwrite_metadata_from_files
  // ---------------------------------------------------------------------------

  /**
   * The legacy reload runs the same statements as the refactored one, but
   * its `return errors` is inside the transitions branch: without a
   * transitions path it returns `None`.
   */
  function OverwriteRun(oracle: Oracle, st: DbState, tablesPath: Option<string>, transitionsPath: Option<string>)
    : (DbState, Option<seq<ErrorEntry>>)
  {
    var r := Run(oracle, st, MetadataManager.OverwritePlan(tablesPath, transitionsPath), Legacy);
    (r.0, if Truthy(transitionsPath) then Some(r.1) else None)
  }

  method OverwriteMetadataFromFiles(db: Database, tablesPath: Option<string>, transitionsPath: Option<string>)
    returns (errors: Option<seq<ErrorEntry>>)
    modifies db
    ensures (db.State(), errors) == OverwriteRun(db.oracle, old(db.State()), tablesPath, transitionsPath)
  {
    var acc := db.PerformAll(MetadataManager.OverwritePlan(tablesPath, transitionsPath), Legacy);
    errors := if Truthy(transitionsPath) then Some(acc) else None;
  }

  /**
   * The reload returns `None` exactly when there is no transitions path, even
   * when the tables were reloaded; otherwise it returns what the refactored
   * reload returns, rendered with `repr`.
   */
  lemma OverwriteReturnsNone(oracle: Oracle, st: DbState, tablesPath: Option<string>, transitionsPath: Option<string>)
    ensures OverwriteRun(oracle, st, tablesPath, transitionsPath).1.None? <==> !Truthy(transitionsPath)
    ensures OverwriteRun(oracle, st, tablesPath, transitionsPath).0
         == Run(oracle, st, MetadataManager.OverwritePlan(tablesPath, transitionsPath), Refactored).0
    ensures Truthy(tablesPath) && !Truthy(transitionsPath) ==>
              |OverwriteRun(oracle, st, tablesPath, transitionsPath).0.log| == |st.log| + 2
  {
    var plan := MetadataManager.OverwritePlan(tablesPath, transitionsPath);
    RunStyles(oracle, st, plan);
    assert NoRunInfoWrite(plan);
    RunEffect(oracle, st, plan, Legacy);
    TablesOnlyExecuted(tablesPath, transitionsPath);
  }

  /** Reloading the tables alone submits two statements. */
  lemma TablesOnlyExecuted(tablesPath: Option<string>, transitionsPath: Option<string>)
    ensures Truthy(tablesPath) && !Truthy(transitionsPath) ==>
              |Executed(MetadataManager.OverwritePlan(tablesPath, transitionsPath))| == 2
  {
    var plan := MetadataManager.OverwritePlan(tablesPath, transitionsPath);
    if Truthy(tablesPath) && !Truthy(transitionsPath) {
      assert |plan| == 2 && plan[0].Exec? && plan[1].Exec?;
      assert plan[..1][..0] == [];
      assert |Executed(plan[..1])| == 1;
    }
  }

  // ---------------------------------------------------------------------------
  // create_*_from_metadata
  // ---------------------------------------------------------------------------

  /** `create_hub_from_metadata`: the refactored DDL, from the spliced query, errors rendered with `repr`. */
  function CreateHubRun(oracle: Oracle, st: DbState, baseName: Option<string>): (DbState, Outcome) {
    var q := TablesResult(oracle, st, baseName, Some("hub"));
    if q.1.Err? then (q.0, Raised(q.1.error))
    else RunPlan(oracle, q.0, HubManager.HubDdlPlan(GroupBy(q.1.value, BaseKey)), Legacy)
  }

  method CreateHubFromMetadata(db: Database, baseName: Option<string>) returns (out: Outcome)
    modifies db
    ensures (db.State(), out) == CreateHubRun(db.oracle, old(db.State()), baseName)
  {
    var rawRecords := GetTables(db, baseName, Some("hub"));
    if rawRecords.Err? {
      return Raised(rawRecords.error);
    }
    var records := GroupBy(rawRecords.value, BaseKey);
    ghost var st1 := db.State();
    var errors: seq<ErrorEntry> := [];
    for i := 0 to |records|
      invariant (db.State(), errors) == Run(db.oracle, st1, HubManager.HubDdlPlan(records[..i]), Legacy)
    {
      var bkList := HubManager.BuildBkList(records[i].members);
      var e := db.Perform(Exec(CreateHub(records[i].key, bkList)), Legacy);
      RunSnoc(db.oracle, st1, HubManager.HubDdlPlan(records[..i]), Exec(HubManager.HubDdlStmt(records[i])), Legacy);
      ExecEachPrefix(records, HubManager.HubDdlStmtFn(), i);
      errors := errors + e;
    }
    assert records[..|records|] == records;
    out := Returned(errors);
  }

  /** `create_link_from_metadata`: the refactored DDL, from the spliced queries. */
  function CreateLinkRun(oracle: Oracle, st: DbState, baseName: Option<string>, relType: Option<string>)
    : (DbState, Outcome)
  {
    var q := EntityTables(oracle, st, baseName, relType, "link", "nhl");
    if q.1.Err? then (q.0, Raised(q.1.error))
    else RunPlan(oracle, q.0, LinkManager.LinkDdlPlan(GroupBy(q.1.value, RelBaseKey)), Legacy)
  }

  method CreateLinkFromMetadata(db: Database, baseName: Option<string>, relType: Option<string>) returns (out: Outcome)
    modifies db
    ensures (db.State(), out) == CreateLinkRun(db.oracle, old(db.State()), baseName, relType)
  {
    var rawLinkRecords := GetEntityTables(db, baseName, relType, "link", "nhl");
    if rawLinkRecords.Err? {
      return Raised(rawLinkRecords.error);
    }
    var records := GroupBy(rawLinkRecords.value, RelBaseKey);
    ghost var st1 := db.State();
    var errors: seq<ErrorEntry> := [];
    for i := 0 to |records|
      invariant (db.State(), errors) == Run(db.oracle, st1, LinkManager.LinkDdlPlan(records[..i]), Legacy)
    {
      var sbn := Split(records[i].key, '.');
      var hkList, dkList := LinkManager.BuildLinkColumns(records[i].members);
      var sqlStr := CreateLink(sbn[0], Join(".", sbn[1..]), hkList + dkList);
      var e := db.Perform(Exec(sqlStr), Legacy);
      RunSnoc(db.oracle, st1, LinkManager.LinkDdlPlan(records[..i]), Exec(LinkManager.LinkDdlStmt(records[i])), Legacy);
      ExecEachPrefix(records, LinkManager.LinkDdlStmtFn(), i);
      errors := errors + e;
    }
    assert records[..|records|] == records;
    out := Returned(errors);
  }

  /** The legacy rejection of a satellite without exactly one hub key. */
  const SatHkError := Exn("ValueError", "sat as 1! hk")

  /** The refactored satellite action, with the legacy rejection in place of the refactored one. */
  function SatAction(g: Group<TableRecord>, view: bool): Action {
    var a := SatelliteManager.SatAction(g, view);
    if a.Raise? then Raise(a.stmt, SatHkError) else a
  }

  function SatActionFn(view: bool): Group<TableRecord> -> Action {
    (g: Group<TableRecord>) => SatAction(g, view)
  }

  function SatDdlPlan(groups: seq<Group<TableRecord>>, view: bool): seq<Action> {
    ActEach(groups, SatActionFn(view))
  }

  /**
   * The legacy builders reject exactly the groups the refactored ones reject,
   * those without exactly one hub key, and run the same statement otherwise.
   */
  lemma SatActionAgrees(g: Group<TableRecord>, view: bool)
    ensures SatAction(g, view).stmt == SatelliteManager.SatAction(g, view).stmt
    ensures SatAction(g, view).Raise?
        <==> |Where(g.members, SatelliteManager.IsHubKeyFn())| != 1
    ensures SatAction(g, view).Raise? ==> SatAction(g, view).exn == SatHkError
  {
  }

  /** The statement for one satellite, or its rejection when it has not exactly one hub key. */
  method BuildSatAction(g: Group<TableRecord>, view: bool) returns (action: Action)
    ensures action == SatAction(g, view)
  {
    var sbn := Split(g.key, '.');
    var tableType := sbn[0];
    var tableBaseName := Join(".", sbn[1..]);
    var hkList, fieldList := SatelliteManager.BuildSatColumns(g.members, view);
    var hubKey := if |hkList| > 0 then hkList[0] else "";
    var sqlStr := if view then CreateCurrentView(tableType, tableBaseName, hubKey, fieldList)
                  else CreateSat(tableType, tableBaseName, hubKey, fieldList);
    action := if |hkList| != 1 then Raise(sqlStr, SatHkError) else Exec(sqlStr);
  }

  /** `create_sat_from_metadata` (`view` false) and `create_current_sat_from_metadata` (`view` true). */
  function CreateSatRun(oracle: Oracle, st: DbState, baseName: Option<string>, relType: Option<string>, view: bool)
    : (DbState, Outcome)
  {
    var q := EntityTables(oracle, st, baseName, relType, "hsat", "lsat");
    if q.1.Err? then (q.0, Raised(q.1.error))
    else RunPlan(oracle, q.0, SatDdlPlan(GroupBy(q.1.value, RelBaseKey), view), Legacy)
  }

  method CreateSatTables(db: Database, baseName: Option<string>, relType: Option<string>, view: bool) returns (out: Outcome)
    modifies db
    ensures (db.State(), out) == CreateSatRun(db.oracle, old(db.State()), baseName, relType, view)
  {
    var rawSatRecords := GetEntityTables(db, baseName, relType, "hsat", "lsat");
    if rawSatRecords.Err? {
      return Raised(rawSatRecords.error);
    }
    var records := GroupBy(rawSatRecords.value, RelBaseKey);
    ghost var st1 := db.State();
    var errors: seq<ErrorEntry> := [];
    for i := 0 to |records|
      invariant (db.State(), errors) == Run(db.oracle, st1, SatDdlPlan(records[..i], view), Legacy)
    {
      var action := BuildSatAction(records[i], view);
      var e := db.Perform(action, Legacy);
      RunSnoc(db.oracle, st1, SatDdlPlan(records[..i], view), SatAction(records[i], view), Legacy);
      ActEachPrefix(records, SatActionFn(view), i);
      errors := errors + e;
    }
    assert records[..|records|] == records;
    out := Returned(errors);
  }

  method CreateSatFromMetadata(db: Database, baseName: Option<string>, relType: Option<string>) returns (out: Outcome)
    modifies db
    ensures (db.State(), out) == CreateSatRun(db.oracle, old(db.State()), baseName, relType, false)
  {
    out := CreateSatTables(db, baseName, relType, false);
  }

  method CreateCurrentSatFromMetadata(db: Database, baseName: Option<string>, relType: Option<string>) returns (out: Outcome)
    modifies db
    ensures (db.State(), out) == CreateSatRun(db.oracle, old(db.State()), baseName, relType, true)
  {
    out := CreateSatTables(db, baseName, relType, true);
  }

  /** One `CREATE TABLE` per base name, consecutive rows grouped, whether or not it has a column. */
  function StagingPlan(groups: seq<Group<TableRecord>>): seq<Action> {
    ExecEach(groups, SchemaManager.StagingStmtFn())
  }

  /** `create_staging_table_from_metadata`. */
  function CreateStagingRun(oracle: Oracle, st: DbState, baseName: Option<string>): (DbState, Outcome) {
    var q := TablesResult(oracle, st, baseName, Some("stg"));
    if q.1.Err? then (q.0, Raised(q.1.error))
    else RunPlan(oracle, q.0, StagingPlan(GroupBy(q.1.value, BaseKey)), Legacy)
  }

  method CreateStagingTableFromMetadata(db: Database, baseName: Option<string>) returns (out: Outcome)
    modifies db
    ensures (db.State(), out) == CreateStagingRun(db.oracle, old(db.State()), baseName)
  {
    var rawRecords := GetTables(db, baseName, Some("stg"));
    if rawRecords.Err? {
      return Raised(rawRecords.error);
    }
    var records := GroupBy(rawRecords.value, BaseKey);
    ghost var st1 := db.State();
    var errors: seq<ErrorEntry> := [];
    for i := 0 to |records|
      invariant (db.State(), errors) == Run(db.oracle, st1, StagingPlan(records[..i]), Legacy)
    {
      var bkList := SchemaManager.BuildStagingColumns(records[i].members);
      var e := db.Perform(Exec(CreateStagingTable(records[i].key, bkList)), Legacy);
      RunSnoc(db.oracle, st1, StagingPlan(records[..i]), Exec(SchemaManager.StagingStmt(records[i])), Legacy);
      ExecEachPrefix(records, SchemaManager.StagingStmtFn(), i);
      errors := errors + e;
    }
    assert records[..|records|] == records;
    out := Returned(errors);
  }

  /**
   * Every base name gets its `CREATE TABLE`, one without a `c` column too,
   * with an empty column list, where the refactored builder skips it.
   */
  lemma StagingKeepsEmpty(groups: seq<Group<TableRecord>>, i: nat)
    requires i < |groups|
    ensures StagingPlan(groups)[i] == Exec(CreateStagingTable(groups[i].key, SchemaManager.StagingColumns(groups[i].members)))
    ensures !SchemaManager.HasColumns(groups[i]) ==>
              Exec(CreateStagingTable(groups[i].key, [])) in StagingPlan(groups)
              && Exec(CreateStagingTable(groups[i].key, [])) !in SchemaManager.StagingPlan(groups)
  {
  }

  // ---------------------------------------------------------------------------
  // compute_hash_view and load_related_*
  // ---------------------------------------------------------------------------

  /** `compute_hash_view`: the refactored view, from the spliced query, its error rendered with `repr`. */
  function HashViewRun(oracle: Oracle, st: DbState, stgTable: string): (DbState, Outcome) {
    var q := TransitionsResult(oracle, st, stgTable);
    if q.1.Err? then (q.0, Raised(q.1.error))
    else match HashGenerator.HashColumns(q.1.value)
      case Err(e) => (q.0, Raised(e))
      case Ok(cs) =>
        var s := HashGenerator.HashViewStmt(stgTable, q.1.value, cs);
        (Submit(oracle, q.0, s), Returned(ErrorOf(Failure(oracle, q.0, s), s, Legacy)))
  }

  method ComputeHashView(db: Database, stgTable: string) returns (out: Outcome)
    modifies db
    ensures (db.State(), out) == HashViewRun(db.oracle, old(db.State()), stgTable)
  {
    var fetched := GetTransitions(db, stgTable);
    if fetched.Err? {
      return Raised(fetched.error);
    }
    var records := fetched.value;
    var cte := HashGenerator.CteFields(records);
    var hashFieldList := HashGenerator.BuildHashFieldList(records);
    if hashFieldList.Err? {
      return Raised(hashFieldList.error);
    }
    var s := CreateHashView(stgTable, cte, hashFieldList.value + ["*"]);
    var errors := db.Perform(Exec(s), Legacy);
    out := Returned(errors);
  }

  /** The list of hub inserts `load_related_hubs` builds before running any. */
  method BuildHubInserts(ctx: LoadContext, bkPerGroup: seq<Group<Transition>>) returns (sqlToExecute: seq<Action>)
    ensures sqlToExecute == ExecEach(bkPerGroup, HubManager.HubLoadStmtFn(ctx))
  {
    sqlToExecute := [];
    for i := 0 to |bkPerGroup|
      invariant sqlToExecute == ExecEach(bkPerGroup[..i], HubManager.HubLoadStmtFn(ctx))
    {
      ExecEachPrefix(bkPerGroup, HubManager.HubLoadStmtFn(ctx), i);
      sqlToExecute := sqlToExecute + [Exec(HubManager.HubLoadStmt(ctx, bkPerGroup[i]))];
    }
    assert bkPerGroup[..|bkPerGroup|] == bkPerGroup;
  }

  /** `load_related_hubs`: the refactored inserts, all built first, then run. */
  function LoadHubsRun(oracle: Oracle, st: DbState, ctx: LoadContext): (DbState, Outcome) {
    var q := TransitionsResult(oracle, st, ctx.stgTable);
    if q.1.Err? then (q.0, Raised(q.1.error))
    else RunPlan(oracle, q.0, ExecEach(HubManager.HubGroups(q.1.value), HubManager.HubLoadStmtFn(ctx)), Legacy)
  }

  method LoadRelatedHubs(db: Database, stgTable: string, runId: int, recordSource: string,
                         loadDateOverwrite: Option<string>, now: string) returns (out: Outcome)
    modifies db
    ensures (db.State(), out)
         == LoadHubsRun(db.oracle, old(db.State()), LoadContext(stgTable, runId, recordSource, LoadDate(loadDateOverwrite, now)))
  {
    var ctx := LoadContext(stgTable, runId, recordSource, LoadDate(loadDateOverwrite, now));
    var rawRecords := GetTransitions(db, stgTable);
    if rawRecords.Err? {
      return Raised(rawRecords.error);
    }
    var sqlToExecute := BuildHubInserts(ctx, HubManager.HubGroups(rawRecords.value));
    var errors := db.PerformAll(sqlToExecute, Legacy);
    out := Returned(errors);
  }

  /** The list of link inserts `load_related_links` builds before running any. */
  method BuildLinkInserts(ctx: LoadContext, bkPerGroup: seq<Group<Transition>>) returns (sqlToExecute: seq<Action>)
    ensures sqlToExecute == ExecEach(bkPerGroup, LinkManager.LinkLoadStmtFn(ctx))
  {
    sqlToExecute := [];
    for i := 0 to |bkPerGroup|
      invariant sqlToExecute == ExecEach(bkPerGroup[..i], LinkManager.LinkLoadStmtFn(ctx))
    {
      ExecEachPrefix(bkPerGroup, LinkManager.LinkLoadStmtFn(ctx), i);
      sqlToExecute := sqlToExecute + [Exec(LinkManager.LinkLoadStmt(ctx, bkPerGroup[i]))];
    }
    assert bkPerGroup[..|bkPerGroup|] == bkPerGroup;
  }

  /** `load_related_links`: the refactored inserts, all built first, then run. */
  function LoadLinksRun(oracle: Oracle, st: DbState, ctx: LoadContext): (DbState, Outcome) {
    var q := TransitionsResult(oracle, st, ctx.stgTable);
    if q.1.Err? then (q.0, Raised(q.1.error))
    else RunPlan(oracle, q.0, ExecEach(LinkManager.LinkGroups(q.1.value), LinkManager.LinkLoadStmtFn(ctx)), Legacy)
  }

  method LoadRelatedLinks(db: Database, stgTable: string, runId: int, recordSource: string,
                          loadDateOverwrite: Option<string>, now: string) returns (out: Outcome)
    modifies db
    ensures (db.State(), out)
         == LoadLinksRun(db.oracle, old(db.State()), LoadContext(stgTable, runId, recordSource, LoadDate(loadDateOverwrite, now)))
  {
    var ctx := LoadContext(stgTable, runId, recordSource, LoadDate(loadDateOverwrite, now));
    var rawRecords := GetTransitions(db, stgTable);
    if rawRecords.Err? {
      return Raised(rawRecords.error);
    }
    var sqlToExecute := BuildLinkInserts(ctx, LinkManager.LinkGroups(rawRecords.value));
    var errors := db.PerformAll(sqlToExecute, Legacy);
    out := Returned(errors);
  }

  /** The list of satellite inserts `load_related_sats` builds before running any. */
  method BuildSatInserts(ctx: LoadContext, raw: seq<Transition>, satLoad: seq<Transition>) returns (sqlToExecute: seq<Action>)
    ensures sqlToExecute == SatelliteManager.SatLoadPlan(ctx, raw, satLoad)
  {
    sqlToExecute := [];
    for i := 0 to |satLoad|
      invariant sqlToExecute == SatelliteManager.SatLoadPlan(ctx, raw, satLoad[..i])
    {
      SatelliteManager.SatLoadPlanPrefix(ctx, raw, satLoad, i);
      var fields := SatelliteManager.SatFields(raw, satLoad[i]);
      var insertNewSql := SatelliteManager.SatNewStmt(ctx, satLoad[i], fields);
      var step := [Exec(insertNewSql)];
      if satLoad[i].transferType == "sat_full" {
        var insertDelSql := SatelliteManager.SatDeleteStmt(ctx, satLoad[i], fields);
        step := step + [Exec(insertDelSql)];
      }
      assert step == SatelliteManager.MarkerActions(ctx, raw, satLoad[i]);
      sqlToExecute := sqlToExecute + step;
    }
    assert satLoad[..|satLoad|] == satLoad;
  }

  /** `load_related_sats`: the refactored inserts of every marker, all built first, then run. */
  function LoadSatsRun(oracle: Oracle, st: DbState, ctx: LoadContext): (DbState, Outcome) {
    var q := TransitionsResult(oracle, st, ctx.stgTable);
    if q.1.Err? then (q.0, Raised(q.1.error))
    else RunPlan(oracle, q.0, SatelliteManager.SatLoadPlan(ctx, q.1.value, Where(q.1.value, SatelliteManager.IsSatMarkerFn())), Legacy)
  }

  method LoadRelatedSats(db: Database, stgTable: string, runId: int, recordSource: string,
                         loadDateOverwrite: Option<string>, now: string) returns (out: Outcome)
    modifies db
    ensures (db.State(), out)
         == LoadSatsRun(db.oracle, old(db.State()), LoadContext(stgTable, runId, recordSource, LoadDate(loadDateOverwrite, now)))
  {
    var ctx := LoadContext(stgTable, runId, recordSource, LoadDate(loadDateOverwrite, now));
    var rawRecords := GetTransitions(db, stgTable);
    if rawRecords.Err? {
      return Raised(rawRecords.error);
    }
    var raw := rawRecords.value;
    var sqlToExecute := BuildSatInserts(ctx, raw, Where(raw, SatelliteManager.IsSatMarkerFn()));
    var errors := db.PerformAll(sqlToExecute, Legacy);
    out := Returned(errors);
  }

  /**
   * Once its query succeeds, a legacy load leaves the state the refactored
   * load leaves from the same point, with the same number of errors, each at
   * the same statement.
   */
  lemma LoadsMatchRefactored(oracle: Oracle, st: DbState, ctx: LoadContext, records: seq<Transition>)
    ensures var l := Run(oracle, st, ExecEach(HubManager.HubGroups(records), HubManager.HubLoadStmtFn(ctx)), Legacy);
      var r := Run(oracle, st, ExecEach(HubManager.HubGroups(records), HubManager.HubLoadStmtFn(ctx)), Refactored);
      l.0 == r.0 && |l.1| == |r.1| && forall i :: 0 <= i < |l.1| ==> SameError(l.1[i], r.1[i])
    ensures var l := Run(oracle, st, ExecEach(LinkManager.LinkGroups(records), LinkManager.LinkLoadStmtFn(ctx)), Legacy);
      var r := Run(oracle, st, ExecEach(LinkManager.LinkGroups(records), LinkManager.LinkLoadStmtFn(ctx)), Refactored);
      l.0 == r.0 && |l.1| == |r.1| && forall i :: 0 <= i < |l.1| ==> SameError(l.1[i], r.1[i])
    ensures var plan := SatelliteManager.SatLoadPlan(ctx, records, Where(records, SatelliteManager.IsSatMarkerFn()));
      var l := Run(oracle, st, plan, Legacy);
      var r := Run(oracle, st, plan, Refactored);
      l.0 == r.0 && |l.1| == |r.1| && forall i :: 0 <= i < |l.1| ==> SameError(l.1[i], r.1[i])
  {
    RunStyles(oracle, st, ExecEach(HubManager.HubGroups(records), HubManager.HubLoadStmtFn(ctx)));
    RunStyles(oracle, st, ExecEach(LinkManager.LinkGroups(records), LinkManager.LinkLoadStmtFn(ctx)));
    RunStyles(oracle, st, SatelliteManager.SatLoadPlan(ctx, records, Where(records, SatelliteManager.IsSatMarkerFn())));
  }
}
