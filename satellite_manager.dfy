/**
 * The satellite manager: one `CREATE TABLE` and one current-value view per
 * satellite in the table metadata, each rejected unless the satellite has
 * exactly one hub key, and the new-record (and, for full satellites, the
 * deleted-record) inserts per satellite marker of a staging table.
 */
module SatelliteManager {
  import opened Common
  import opened Ordering
  import opened Grouping
  import opened Metadata
  import opened Statements
  import opened Engine
  import opened MetadataManager

  // ---------------------------------------------------------------------------
  // create_sat_from_metadata and create_current_sat_from_metadata
  // ---------------------------------------------------------------------------

  /** A column mapped `hk` is the satellite's parent hash key. */
  predicate IsHubKey(r: TableRecord) { r.mapping == "hk" }

  function IsHubKeyFn(): TableRecord -> bool { (r: TableRecord) => IsHubKey(r) }

  function IsPayloadFn(): TableRecord -> bool { (r: TableRecord) => !IsHubKey(r) }

  /** The hash-key column: `<name>_hk CHAR(40)` in the table, `<name>_hk` in the view. */
  function SatHkColumn(r: TableRecord, view: bool): string {
    Quoted(r.columnName, "_hk") + (if view then "" else " CHAR(40)")
  }

  /** A payload column: `<name> <type>` in the table, `<name>` in the view. */
  function SatFieldColumn(r: TableRecord, view: bool): string {
    Quoted(r.columnName, "") + (if view then "" else " " + r.columnType)
  }

  function SatHkColumns(rs: seq<TableRecord>, view: bool): (r: seq<string>)
    ensures |r| == |rs|
    ensures forall i :: 0 <= i < |rs| ==> r[i] == SatHkColumn(rs[i], view)
    decreases |rs|
  {
    if rs == [] then [] else SatHkColumns(rs[..|rs| - 1], view) + [SatHkColumn(rs[|rs| - 1], view)]
  }

  function SatFieldColumns(rs: seq<TableRecord>, view: bool): (r: seq<string>)
    ensures |r| == |rs|
    ensures forall i :: 0 <= i < |rs| ==> r[i] == SatFieldColumn(rs[i], view)
    decreases |rs|
  {
    if rs == [] then [] else SatFieldColumns(rs[..|rs| - 1], view) + [SatFieldColumn(rs[|rs| - 1], view)]
  }

  /** The rejection of a satellite whose hub-key count is not one. */
  function HubKeyError(tableBaseName: string): Exn {
    Exn("DVEntityError", "Satellite " + tableBaseName + " must have exactly one hub key")
  }

  /**
   * The statement of one `rel_type.base_name` group (`CREATE_SAT`, or
   * `CREATE_CURRENT_VIEW` for the view), with the first hub key or none, and
   * what happens to it: run when there is exactly one hub key, otherwise
   * reported with the `DVEntityError` without running.
   */
  function SatAction(g: Group<TableRecord>, view: bool): Action {
    var sbn := Split(g.key, '.');
    var tableType := sbn[0];
    var tableBaseName := Join(".", sbn[1..]);
    var hkList := SatHkColumns(Where(g.members, IsHubKeyFn()), view);
    var fieldList := SatFieldColumns(Where(g.members, IsPayloadFn()), view);
    var hubKey := if |hkList| > 0 then hkList[0] else "";
    var sqlStr := if view then CreateCurrentView(tableType, tableBaseName, hubKey, fieldList)
                  else CreateSat(tableType, tableBaseName, hubKey, fieldList);
    if |hkList| != 1 then Raise(sqlStr, HubKeyError(tableBaseName)) else Exec(sqlStr)
  }

  function SatActionFn(view: bool): Group<TableRecord> -> Action {
    (g: Group<TableRecord>) => SatAction(g, view)
  }

  function SatDdlPlan(groups: seq<Group<TableRecord>>, view: bool): seq<Action> {
    ActEach(groups, SatActionFn(view))
  }

  /**
   * `create_sat_from_metadata` (`view` false) and
   * `create_current_sat_from_metadata` (`view` true): the rows of the given rel
   * type, or the `hsat` rows then the `lsat` rows, grouped by
   * `rel_type.base_name`, one action per group.
   */
  function CreateSatRun(oracle: Oracle, st: DbState, baseName: Option<string>, relType: Option<string>, view: bool)
    : (DbState, Outcome)
  {
    var q := EntityTables(oracle, st, baseName, relType, "hsat", "lsat");
    if q.1.Err? then (q.0, Raised(q.1.error))
    else RunPlan(oracle, q.0, SatDdlPlan(GroupBy(q.1.value, RelBaseKey), view), Refactored)
  }

  /** One more field adds one column to the list its mapping selects. */
  lemma SatColumnsStep(fields: seq<TableRecord>, i: nat, view: bool)
    requires i < |fields|
    ensures SatHkColumns(Where(fields[..i + 1], IsHubKeyFn()), view)
         == SatHkColumns(Where(fields[..i], IsHubKeyFn()), view)
            + (if IsHubKey(fields[i]) then [SatHkColumn(fields[i], view)] else [])
    ensures SatFieldColumns(Where(fields[..i + 1], IsPayloadFn()), view)
         == SatFieldColumns(Where(fields[..i], IsPayloadFn()), view)
            + (if IsHubKey(fields[i]) then [] else [SatFieldColumn(fields[i], view)])
  {
    assert fields[..i + 1] == fields[..i] + [fields[i]];
    SatHkColumnsStep(fields[..i], fields[i], view);
    SatFieldColumnsStep(fields[..i], fields[i], view);
  }

  lemma SatHkColumnsStep(fs: seq<TableRecord>, r: TableRecord, view: bool)
    ensures SatHkColumns(Where(fs + [r], IsHubKeyFn()), view)
         == SatHkColumns(Where(fs, IsHubKeyFn()), view) + (if IsHubKey(r) then [SatHkColumn(r, view)] else [])
  {
    WhereSnoc(fs, r, IsHubKeyFn());
    var h := Where(fs, IsHubKeyFn());
    if IsHubKey(r) {
      assert (h + [r])[..|h|] == h;
    } else {
      assert h + [] == h;
      assert SatHkColumns(h, view) + [] == SatHkColumns(h, view);
    }
  }

  lemma SatFieldColumnsStep(fs: seq<TableRecord>, r: TableRecord, view: bool)
    ensures SatFieldColumns(Where(fs + [r], IsPayloadFn()), view)
         == SatFieldColumns(Where(fs, IsPayloadFn()), view) + (if IsHubKey(r) then [] else [SatFieldColumn(r, view)])
  {
    WhereSnoc(fs, r, IsPayloadFn());
    var d := Where(fs, IsPayloadFn());
    if IsHubKey(r) {
      assert d + [] == d;
      assert SatFieldColumns(d, view) + [] == SatFieldColumns(d, view);
    } else {
      assert (d + [r])[..|d|] == d;
    }
  }

  /** The loop that sorts a satellite's fields into `hk_list` and `field_list`. */
  method BuildSatColumns(fields: seq<TableRecord>, view: bool) returns (hkList: seq<string>, fieldList: seq<string>)
    ensures hkList == SatHkColumns(Where(fields, IsHubKeyFn()), view)
    ensures fieldList == SatFieldColumns(Where(fields, IsPayloadFn()), view)
  {
    hkList, fieldList := [], [];
    for i := 0 to |fields|
      invariant hkList == SatHkColumns(Where(fields[..i], IsHubKeyFn()), view)
      invariant fieldList == SatFieldColumns(Where(fields[..i], IsPayloadFn()), view)
    {
      SatColumnsStep(fields, i, view);
      if fields[i].mapping == "hk" {
        hkList := hkList + [SatHkColumn(fields[i], view)];
      } else {
        fieldList := fieldList + [SatFieldColumn(fields[i], view)];
      }
    }
    assert fields[..|fields|] == fields;
  }

  /** The loop both satellite builders share, over the groups of the fetched rows. */
  method CreateSatTables(db: Database, baseName: Option<string>, relType: Option<string>, view: bool) returns (out: Outcome)
    modifies db
    ensures (db.State(), out) == CreateSatRun(db.oracle, old(db.State()), baseName, relType, view)
  {
    var rawSatRecords := MetadataManager.GetEntityTables(db, baseName, relType, "hsat", "lsat");
    if rawSatRecords.Err? {
      return Raised(rawSatRecords.error);
    }
    var records := GroupBy(rawSatRecords.value, RelBaseKey);
    ghost var st1 := db.State();
    var errors: seq<ErrorEntry> := [];
    for i := 0 to |records|
      invariant (db.State(), errors) == Run(db.oracle, st1, SatDdlPlan(records[..i], view), Refactored)
    {
      var sbn := Split(records[i].key, '.');
      var tableType := sbn[0];
      var tableBaseName := Join(".", sbn[1..]);
      var hkList, fieldList := BuildSatColumns(records[i].members, view);
      var hubKey := if |hkList| > 0 then hkList[0] else "";
      var sqlStr := if view then CreateCurrentView(tableType, tableBaseName, hubKey, fieldList)
                    else CreateSat(tableType, tableBaseName, hubKey, fieldList);
      var action := if |hkList| != 1 then Raise(sqlStr, HubKeyError(tableBaseName)) else Exec(sqlStr);
      var e := db.Perform(action, Refactored);
      RunSnoc(db.oracle, st1, SatDdlPlan(records[..i], view), SatAction(records[i], view), Refactored);
      ActEachPrefix(records, SatActionFn(view), i);
      errors := errors + e;
    }
    assert records[..|records|] == records;
    out := Returned(errors);
  }

  /** `create_sat_from_metadata(base_name, rel_type)`. */
  method CreateSatFromMetadata(db: Database, baseName: Option<string>, relType: Option<string>) returns (out: Outcome)
    modifies db
    ensures (db.State(), out) == CreateSatRun(db.oracle, old(db.State()), baseName, relType, false)
  {
    out := CreateSatTables(db, baseName, relType, false);
  }

  /** `create_current_sat_from_metadata(base_name, rel_type)`. */
  method CreateCurrentSatFromMetadata(db: Database, baseName: Option<string>, relType: Option<string>) returns (out: Outcome)
    modifies db
    ensures (db.State(), out) == CreateSatRun(db.oracle, old(db.State()), baseName, relType, true)
  {
    out := CreateSatTables(db, baseName, relType, true);
  }

  /**
   * The table's columns are `<name>_hk CHAR(40)` and `<name> <type>`, the
   * view's the same names without types; a name is double-quoted iff it
   * contains a space.
   */
  lemma SatColumnNaming(r: TableRecord)
    ensures SatHkColumn(r, false) == QuoteIfSpace(r.columnName + "_hk") + " CHAR(40)"
    ensures SatHkColumn(r, true) == QuoteIfSpace(r.columnName + "_hk")
    ensures SatFieldColumn(r, false) == QuoteIfSpace(r.columnName) + " " + r.columnType
    ensures SatFieldColumn(r, true) == QuoteIfSpace(r.columnName)
  {
    QuotedIsQuoteIfSpace(r.columnName, "_hk");
    QuotedIsQuoteIfSpace(r.columnName, "");
    assert r.columnName + "" == r.columnName;
  }

  /**
   * A satellite is built iff it has exactly one hub key. Then its statement
   * carries that key's column and every other field, in metadata order;
   * otherwise it is reported with the `DVEntityError` naming its base name.
   */
  lemma SatActionCorrect(g: Group<TableRecord>, r: TableRecord, view: bool)
    requires RelBaseKey(r) == g.key && DotFree(r.relType)
    ensures SatAction(g, view).Exec? <==> |Where(g.members, IsHubKeyFn())| == 1
    ensures SatAction(g, view).Raise? ==> SatAction(g, view).exn == HubKeyError(r.baseName)
    ensures var s := SatAction(g, view).stmt;
      if view then s.CreateCurrentView? && s.tableType == r.relType && s.tableBaseName == r.baseName
                   && s.fields == SatFieldColumns(Where(g.members, IsPayloadFn()), true)
      else s.CreateSat? && s.tableType == r.relType && s.tableBaseName == r.baseName
           && s.fields == SatFieldColumns(Where(g.members, IsPayloadFn()), false)
    ensures SatAction(g, view).Exec? ==>
      var hk := Where(g.members, IsHubKeyFn())[0];
      hk in g.members && hk.mapping == "hk" && SatAction(g, view).stmt.hubKey == SatHkColumn(hk, view)
  {
    RelBaseKeyParts(r);
    var hs := Where(g.members, IsHubKeyFn());
    if |hs| == 1 {
      assert IsHubKeyFn()(hs[0]);
      assert hs[0] in multiset(g.members) by { assert hs[0] in multiset(hs); }
    }
  }

  /** A row behind a satellite group's key, of the requested type or of a default one. */
  predicate SatGroupSource(records: seq<TableRecord>, relType: Option<string>, g: Group<TableRecord>, r: TableRecord) {
    && r in records && RelBaseKey(r) == g.key && DotFree(r.relType)
    && (if Truthy(relType) then r.relType == relType.value else r.relType == "hsat" || r.relType == "lsat")
  }

  /** Group `i` holds exactly the rows of one satellite, whose type and base name are those of a fetched row. */
  ghost predicate SatGroupAt(records: seq<TableRecord>, relType: Option<string>, i: nat)
    requires i < |GroupBy(records, RelBaseKey)|
  {
    && GroupBy(records, RelBaseKey)[i].members == Filter(records, RelBaseKey, GroupBy(records, RelBaseKey)[i].key)
    && exists r :: SatGroupSource(records, relType, GroupBy(records, RelBaseKey)[i], r)
  }

  lemma SatGroupAtOf(records: seq<TableRecord>, relType: Option<string>, i: nat)
    requires Contiguous(records, RelBaseKey)
    requires forall r :: r in records ==>
      if Truthy(relType) then r.relType == relType.value else r.relType == "hsat" || r.relType == "lsat"
    requires Truthy(relType) ==> DotFree(relType.value)
    requires i < |GroupBy(records, RelBaseKey)|
    ensures SatGroupAt(records, relType, i)
  {
    var g := GroupBy(records, RelBaseKey)[i];
    GroupWitness(records, RelBaseKey, i);
    var j :| 0 <= j < |records| && RelBaseKey(records[j]) == g.key;
    var r := records[j];
    assert r in records;
    assert DotFree(r.relType) by {
      if !Truthy(relType) {
        assert DotFree("hsat") && DotFree("lsat");
      }
    }
    assert SatGroupSource(records, relType, g, r);
  }

  /**
   * With rel types free of dots, group `i` of the fetched satellite rows holds
   * exactly the rows of one satellite, whose type and base name are those of a
   * fetched row (`SatActionCorrect` then describes its action).
   */
  lemma CreateSatPlanAt(tables: seq<TableRecord>, baseName: Option<string>, relType: Option<string>, i: nat)
    requires Truthy(relType) ==> DotFree(relType.value)
    requires i < |GroupBy(EntityRecords(tables, baseName, relType, "hsat", "lsat"), RelBaseKey)|
    ensures SatGroupAt(EntityRecords(tables, baseName, relType, "hsat", "lsat"), relType, i)
  {
    EntityRecordsContiguous(tables, baseName, relType, "hsat", "lsat");
    SatGroupAtOf(EntityRecords(tables, baseName, relType, "hsat", "lsat"), relType, i);
  }

  /**
   * The build returns at most one error per satellite and writes no run
   * history; a failed fetch raises a `DVSQLError`; a rejected satellite's
   * statement never reaches the engine.
   */
  lemma CreateSatBound(oracle: Oracle, st: DbState, baseName: Option<string>, relType: Option<string>, view: bool)
    ensures CreateSatRun(oracle, st, baseName, relType, view).0.runinfo == st.runinfo
    ensures CreateSatRun(oracle, st, baseName, relType, view).1.Raised? ==>
      CreateSatRun(oracle, st, baseName, relType, view).1.exn.cls == "DVSQLError"
    ensures CreateSatRun(oracle, st, baseName, relType, view).1.Returned? ==>
      |CreateSatRun(oracle, st, baseName, relType, view).1.errors|
        <= |GroupBy(EntityRecords(st.tables, baseName, relType, "hsat", "lsat"), RelBaseKey)|
  {
    var q := EntityTables(oracle, st, baseName, relType, "hsat", "lsat");
    EntityTablesValue(oracle, st, baseName, relType, "hsat", "lsat");
    if q.1.Ok? {
      var plan := SatDdlPlan(GroupBy(q.1.value, RelBaseKey), view);
      assert NoRunInfoWrite(plan);
      RunEffect(oracle, q.0, plan, Refactored);
    }
  }

  // ---------------------------------------------------------------------------
  // load_related_sats
  // ---------------------------------------------------------------------------

  /** A transition whose transfer type marks a satellite load. */
  predicate IsSatMarker(t: Transition) { t.transferType == "sat_delta" || t.transferType == "sat_full" }

  function IsSatMarkerFn(): Transition -> bool { (t: Transition) => IsSatMarker(t) }

  predicate IsFullMarker(t: Transition) { t.transferType == "sat_full" }

  function IsFullMarkerFn(): Transition -> bool { (t: Transition) => IsFullMarker(t) }

  /** A payload field of the satellite a marker announces: same target table and group, transfer type `f`. */
  function PayloadOf(m: Transition): Transition -> bool {
    (t: Transition) => t.targetTable == m.targetTable && t.groupName == m.groupName && t.transferType == "f"
  }

  /** `bk_per_group.get(f"{target_table}.{group_name}", [])` over the marker's payload transitions. */
  function SatFields(raw: seq<Transition>, m: Transition): seq<Transition> {
    var records := Where(raw, PayloadOf(m));
    var bkPerGroup := GroupBy(records, TargetGroupKey);
    match Lookup(bkPerGroup, m.targetTable + "." + m.groupName)
    case Some(fields) => fields
    case None => []
  }

  function TargetFields(fields: seq<Transition>): (r: seq<string>)
    ensures |r| == |fields|
    ensures forall i :: 0 <= i < |fields| ==> r[i] == fields[i].targetField
    decreases |fields|
  {
    if fields == [] then [] else TargetFields(fields[..|fields| - 1]) + [fields[|fields| - 1].targetField]
  }

  /** `<prefix>.<field>` for each field, `src.` with source fields or `sat.` with target fields. */
  function Qualified(prefix: string, fields: seq<Transition>, source: bool): (r: seq<string>)
    ensures |r| == |fields|
    ensures forall i :: 0 <= i < |fields| ==>
      r[i] == prefix + "." + (if source then fields[i].sourceField else fields[i].targetField)
    decreases |fields|
  {
    if fields == [] then []
    else
      var f := fields[|fields| - 1];
      Qualified(prefix, fields[..|fields| - 1], source) + [prefix + "." + (if source then f.sourceField else f.targetField)]
  }

  /** The hashdiff column: the group's when the satellite has payload fields, the marker's source field otherwise. */
  function HashdiffField(m: Transition, fields: seq<Transition>): string {
    if |fields| > 0 then m.groupName + "_hashdiff" else m.sourceField
  }

  /** INSERT_SAT_NEW for one marker. */
  function SatNewStmt(ctx: LoadContext, m: Transition, fields: seq<Transition>): Stmt {
    InsertSatNew(m.targetTable, m.targetField + "_hk", ctx.loadDate, m.sourceField, HashdiffField(m, fields),
                 ctx.recordSource, ctx.runId, TargetFields(fields), Qualified("src", fields, true), ctx.stgTable)
  }

  /** INSERT_SAT_DELETE for one full-satellite marker. */
  function SatDeleteStmt(ctx: LoadContext, m: Transition, fields: seq<Transition>): Stmt {
    InsertSatDelete(m.targetTable, m.targetField + "_hk", ctx.loadDate, m.sourceField, HashdiffField(m, fields),
                    ctx.recordSource, ctx.runId, TargetFields(fields), Qualified("sat", fields, false), ctx.stgTable)
  }

  /** What one marker runs: the new-record insert, then the deleted-record insert for a full satellite. */
  function MarkerActions(ctx: LoadContext, raw: seq<Transition>, m: Transition): seq<Action> {
    var fields := SatFields(raw, m);
    [Exec(SatNewStmt(ctx, m, fields))] + (if IsFullMarker(m) then [Exec(SatDeleteStmt(ctx, m, fields))] else [])
  }

  function SatLoadPlan(ctx: LoadContext, raw: seq<Transition>, markers: seq<Transition>): seq<Action>
    decreases |markers|
  {
    if markers == [] then []
    else SatLoadPlan(ctx, raw, markers[..|markers| - 1]) + MarkerActions(ctx, raw, markers[|markers| - 1])
  }

  /** `load_related_sats`: for each satellite marker of the staging table's transitions, in query order, its inserts. */
  function LoadSatsRun(oracle: Oracle, st: DbState, ctx: LoadContext): (DbState, Outcome) {
    var q := TransitionsResult(oracle, st, ctx.stgTable);
    if q.1.Err? then (q.0, Raised(q.1.error))
    else RunPlan(oracle, q.0, SatLoadPlan(ctx, q.1.value, Where(q.1.value, IsSatMarkerFn())), Refactored)
  }

  lemma SatLoadPlanPrefix(ctx: LoadContext, raw: seq<Transition>, markers: seq<Transition>, i: nat)
    requires i < |markers|
    ensures SatLoadPlan(ctx, raw, markers[..i + 1]) == SatLoadPlan(ctx, raw, markers[..i]) + MarkerActions(ctx, raw, markers[i])
  {
    assert markers[..i + 1][..i] == markers[..i];
  }

  /** The statements of one marker, run one after the other. */
  method LoadMarker(db: Database, ctx: LoadContext, raw: seq<Transition>, m: Transition) returns (errors: seq<ErrorEntry>)
    modifies db
    ensures (db.State(), errors) == Run(db.oracle, old(db.State()), MarkerActions(ctx, raw, m), Refactored)
  {
    ghost var st0 := db.State();
    var fields := SatFields(raw, m);
    var insertNewSql := SatNewStmt(ctx, m, fields);
    errors := db.Perform(Exec(insertNewSql), Refactored);
    RunSingle(db.oracle, st0, Exec(insertNewSql), Refactored);
    if m.transferType == "sat_full" {
      var insertDelSql := SatDeleteStmt(ctx, m, fields);
      var e := db.Perform(Exec(insertDelSql), Refactored);
      RunSnoc(db.oracle, st0, [Exec(insertNewSql)], Exec(insertDelSql), Refactored);
      assert MarkerActions(ctx, raw, m) == [Exec(insertNewSql)] + [Exec(insertDelSql)];
      errors := errors + e;
    } else {
      assert MarkerActions(ctx, raw, m) == [Exec(insertNewSql)];
    }
  }

  method LoadRelatedSats(db: Database, stgTable: string, runId: int, recordSource: string,
                         loadDateOverwrite: Option<string>, now: string) returns (out: Outcome)
    modifies db
    ensures (db.State(), out)
         == LoadSatsRun(db.oracle, old(db.State()), LoadContext(stgTable, runId, recordSource, LoadDate(loadDateOverwrite, now)))
  {
    var ctx := LoadContext(stgTable, runId, recordSource, LoadDate(loadDateOverwrite, now));
    var rawRecords := MetadataManager.GetTransitions(db, stgTable);
    if rawRecords.Err? {
      return Raised(rawRecords.error);
    }
    var raw := rawRecords.value;
    var satLoad := Where(raw, IsSatMarkerFn());
    ghost var st1 := db.State();
    var errors: seq<ErrorEntry> := [];
    for i := 0 to |satLoad|
      invariant (db.State(), errors) == Run(db.oracle, st1, SatLoadPlan(ctx, raw, satLoad[..i]), Refactored)
    {
      ghost var before := db.State();
      var e := LoadMarker(db, ctx, raw, satLoad[i]);
      RunConcat(db.oracle, st1, SatLoadPlan(ctx, raw, satLoad[..i]), MarkerActions(ctx, raw, satLoad[i]), Refactored);
      SatLoadPlanPrefix(ctx, raw, satLoad, i);
      errors := errors + e;
    }
    assert satLoad[..|satLoad|] == satLoad;
    out := Returned(errors);
  }

  /**
   * The groupby over a marker's payload transitions is the identity: they
   * all share the key `target_table.group_name`, so the satellite's fields
   * are exactly its `f` transitions in query order.
   */
  lemma SatFieldsAll(raw: seq<Transition>, m: Transition)
    ensures SatFields(raw, m) == Where(raw, PayloadOf(m))
  {
    var records := Where(raw, PayloadOf(m));
    forall i | 0 <= i < |records| ensures TargetGroupKey(records[i]) == m.targetTable + "." + m.groupName {
      assert PayloadOf(m)(records[i]);
    }
    GroupBySingleKey(records, TargetGroupKey, m.targetTable + "." + m.groupName);
  }

  /**
   * Each marker's inserts go to its target table with the hash key named
   * after its target field; the hashdiff is the group's iff the satellite
   * has payload fields; the insert lists exactly those fields.
   */
  lemma MarkerActionsCorrect(ctx: LoadContext, raw: seq<Transition>, m: Transition)
    ensures var acts := MarkerActions(ctx, raw, m);
      var fields := Where(raw, PayloadOf(m));
      && |acts| == (if IsFullMarker(m) then 2 else 1)
      && acts[0] == Exec(SatNewStmt(ctx, m, fields))
      && (IsFullMarker(m) ==> acts[1] == Exec(SatDeleteStmt(ctx, m, fields)))
      && acts[0].stmt.satName == m.targetTable && acts[0].stmt.satHashKey == m.targetField + "_hk"
      && acts[0].stmt.fieldList == TargetFields(fields)
      && acts[0].stmt.selectFields == Qualified("src", fields, true)
      && (acts[0].stmt.hashdiffField == m.groupName + "_hashdiff" <==> |fields| > 0 || m.sourceField == m.groupName + "_hashdiff")
  {
    SatFieldsAll(raw, m);
  }

  /** Inserts per marker: one, or two for a full satellite. */
  function InsertCount(markers: seq<Transition>): nat
    decreases |markers|
  {
    if markers == [] then 0
    else InsertCount(markers[..|markers| - 1]) + if IsFullMarker(markers[|markers| - 1]) then 2 else 1
  }

  lemma {:induction false} SatLoadPlanCount(ctx: LoadContext, raw: seq<Transition>, markers: seq<Transition>)
    ensures |SatLoadPlan(ctx, raw, markers)| == InsertCount(markers)
    decreases |markers|
  {
    if markers != [] {
      SatLoadPlanCount(ctx, raw, markers[..|markers| - 1]);
    }
  }

  lemma {:induction false} InsertCountWhere(markers: seq<Transition>)
    ensures InsertCount(markers) == |markers| + |Where(markers, IsFullMarkerFn())|
    decreases |markers|
  {
    if markers != [] {
      var init := markers[..|markers| - 1];
      var last := markers[|markers| - 1];
      InsertCountWhere(init);
      assert markers == init + [last];
      WhereSnoc(init, last, IsFullMarkerFn());
    }
  }

  /** One insert per marker plus one per full-satellite marker. */
  lemma SatLoadPlanSize(ctx: LoadContext, raw: seq<Transition>, markers: seq<Transition>)
    ensures |SatLoadPlan(ctx, raw, markers)| == |markers| + |Where(markers, IsFullMarkerFn())|
  {
    SatLoadPlanCount(ctx, raw, markers);
    InsertCountWhere(markers);
  }

  /** The load returns at most one error per insert, two for a full satellite, and writes no run history. */
  lemma LoadSatsBound(oracle: Oracle, st: DbState, ctx: LoadContext)
    ensures LoadSatsRun(oracle, st, ctx).0.runinfo == st.runinfo
    ensures LoadSatsRun(oracle, st, ctx).1.Returned? ==>
      var markers := Where(TransitionsResult(oracle, st, ctx.stgTable).1.value, IsSatMarkerFn());
      |LoadSatsRun(oracle, st, ctx).1.errors| <= |markers| + |Where(markers, IsFullMarkerFn())|
  {
    var q := TransitionsResult(oracle, st, ctx.stgTable);
    if q.1.Ok? {
      var markers := Where(q.1.value, IsSatMarkerFn());
      var plan := SatLoadPlan(ctx, q.1.value, markers);
      SatLoadPlanWrites(ctx, q.1.value, markers);
      RunEffect(oracle, q.0, plan, Refactored);
      SatLoadPlanSize(ctx, q.1.value, markers);
    }
  }

  /** No satellite insert writes run history. */
  lemma {:induction false} SatLoadPlanWrites(ctx: LoadContext, raw: seq<Transition>, markers: seq<Transition>)
    ensures NoRunInfoWrite(SatLoadPlan(ctx, raw, markers))
    decreases |markers|
  {
    if markers != [] {
      SatLoadPlanWrites(ctx, raw, markers[..|markers| - 1]);
      var acts := MarkerActions(ctx, raw, markers[|markers| - 1]);
      assert NoRunInfoWrite(acts);
      NoRunInfoWriteConcat(SatLoadPlan(ctx, raw, markers[..|markers| - 1]), acts);
    }
  }
}
