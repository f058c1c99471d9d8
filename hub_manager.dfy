/**
 * The hub manager: one `CREATE TABLE` per hub in the table metadata, and one
 * insert-if-absent per `(target_table, group_name)` of the transitions that
 * feed a hub.
 */
module HubManager {
  import opened Common
  import opened Ordering
  import opened Grouping
  import opened Metadata
  import opened Statements
  import opened Engine
  import opened MetadataManager

  // ---------------------------------------------------------------------------
  // create_hub_from_metadata
  // ---------------------------------------------------------------------------

  /** A business-key column: `<name>_bk`, or `<name>_cbk` in a composite key, then its type. */
  function BkColumn(r: TableRecord, composite: bool): string {
    Quoted(r.columnName, if composite then "_cbk" else "_bk") + " " + r.columnType
  }

  function BkColumns(bks: seq<TableRecord>, composite: bool): (r: seq<string>)
    ensures |r| == |bks|
    ensures forall i :: 0 <= i < |bks| ==> r[i] == BkColumn(bks[i], composite)
    decreases |bks|
  {
    if bks == [] then [] else BkColumns(bks[..|bks| - 1], composite) + [BkColumn(bks[|bks| - 1], composite)]
  }

  /** The `CREATE TABLE dv.hub_<base>` of one hub: a key is composite when the hub has more than one. */
  function HubDdlStmt(g: Group<TableRecord>): Stmt {
    CreateHub(g.key, BkColumns(g.members, |g.members| > 1))
  }

  function HubDdlStmtFn(): Group<TableRecord> -> Stmt { (g: Group<TableRecord>) => HubDdlStmt(g) }

  function HubDdlPlan(groups: seq<Group<TableRecord>>): seq<Action> {
    ExecEach(groups, HubDdlStmtFn())
  }

  /** `create_hub_from_metadata(base_name)`: the hub metadata, grouped by base name, one DDL per group. */
  function CreateHubRun(oracle: Oracle, st: DbState, baseName: Option<string>): (DbState, Outcome) {
    var q := TablesResult(oracle, st, baseName, Some("hub"));
    if q.1.Err? then (q.0, Raised(q.1.error))
    else RunPlan(oracle, q.0, HubDdlPlan(GroupBy(q.1.value, BaseKey)), Refactored)
  }

  /** The loop that builds `bk_list`. */
  method BuildBkList(businessKeys: seq<TableRecord>) returns (bkList: seq<string>)
    ensures bkList == BkColumns(businessKeys, |businessKeys| > 1)
  {
    bkList := [];
    for i := 0 to |businessKeys|
      invariant bkList == BkColumns(businessKeys[..i], |businessKeys| > 1)
    {
      assert businessKeys[..i + 1][..i] == businessKeys[..i];
      bkList := bkList + [BkColumn(businessKeys[i], |businessKeys| > 1)];
    }
    assert businessKeys[..|businessKeys|] == businessKeys;
  }

  method CreateHubFromMetadata(db: Database, baseName: Option<string>) returns (out: Outcome)
    modifies db
    ensures (db.State(), out) == CreateHubRun(db.oracle, old(db.State()), baseName)
  {
    var rawRecords, _ := MetadataManager.GetTables(db, baseName, Some("hub"));
    if rawRecords.Err? {
      return Raised(rawRecords.error);
    }
    var records := GroupBy(rawRecords.value, BaseKey);
    ghost var st1 := db.State();
    var errors: seq<ErrorEntry> := [];
    for i := 0 to |records|
      invariant (db.State(), errors) == Run(db.oracle, st1, HubDdlPlan(records[..i]), Refactored)
    {
      var bkList := BuildBkList(records[i].members);
      var e := db.Perform(Exec(CreateHub(records[i].key, bkList)), Refactored);
      RunSnoc(db.oracle, st1, HubDdlPlan(records[..i]), Exec(HubDdlStmt(records[i])), Refactored);
      ExecEachPrefix(records, HubDdlStmtFn(), i);
      errors := errors + e;
    }
    assert records[..|records|] == records;
    out := Returned(errors);
  }

  /**
   * A business-key column is `<name>_bk` for a single key and `<name>_cbk`
   * for a composite one, and the name is double-quoted iff it contains a
   * space.
   */
  lemma BkColumnNaming(r: TableRecord, composite: bool)
    ensures BkColumn(r, composite)
         == QuoteIfSpace(r.columnName + (if composite then "_cbk" else "_bk")) + " " + r.columnType
  {
    QuotedIsQuoteIfSpace(r.columnName, if composite then "_cbk" else "_bk");
  }

  /** The hub metadata in query order: every row is a hub row, and the rows are contiguous by base name. */
  lemma HubRecords(tables: seq<TableRecord>, baseName: Option<string>)
    ensures forall r :: r in TablesQuery(tables, IntendedFilter(baseName, Some("hub"))) ==> r.relType == "hub"
    ensures Contiguous(TablesQuery(tables, IntendedFilter(baseName, Some("hub"))), BaseKey)
  {
    var f := IntendedFilter(baseName, Some("hub"));
    var records := TablesQuery(tables, f);
    TablesQueryCorrect(tables, f);
    assert forall i :: 0 <= i < |records| ==> records[i] in records;
    TablesContiguousByBase(records, "hub");
  }

  /**
   * The hub metadata comes back sorted, so grouping by base name is lossless:
   * one `CREATE TABLE` per distinct hub base name.
   */
  lemma CreateHubGroups(tables: seq<TableRecord>, baseName: Option<string>)
    ensures var records := TablesQuery(tables, IntendedFilter(baseName, Some("hub")));
      && DistinctKeys(GroupBy(records, BaseKey))
      && |HubDdlPlan(GroupBy(records, BaseKey))| == |GroupBy(records, BaseKey)|
      && (forall k :: k in Keys(GroupBy(records, BaseKey)) <==> exists r :: r in records && r.baseName == k)
  {
    var records := TablesQuery(tables, IntendedFilter(baseName, Some("hub")));
    HubRecords(tables, baseName);
    GroupByContiguous(records, BaseKey);
    forall k ensures k in Keys(GroupBy(records, BaseKey)) <==> exists r :: r in records && r.baseName == k {
      KeyListHas(records, BaseKey, k);
    }
  }

  /** Each hub's DDL has the columns of every business key of that hub, composite iff there is more than one. */
  lemma CreateHubPlanAt(tables: seq<TableRecord>, baseName: Option<string>, i: nat)
    requires i < |GroupBy(TablesQuery(tables, IntendedFilter(baseName, Some("hub"))), BaseKey)|
    ensures var records := TablesQuery(tables, IntendedFilter(baseName, Some("hub")));
      var g := GroupBy(records, BaseKey)[i];
      HubDdlPlan(GroupBy(records, BaseKey))[i]
        == Exec(CreateHub(g.key, BkColumns(Filter(records, BaseKey, g.key), |Filter(records, BaseKey, g.key)| > 1)))
  {
    var records := TablesQuery(tables, IntendedFilter(baseName, Some("hub")));
    HubRecords(tables, baseName);
    GroupWitness(records, BaseKey, i);
  }

  /** The build returns at most one error per hub and writes no run history; a failed fetch raises a `DVSQLError`. */
  lemma CreateHubBound(oracle: Oracle, st: DbState, baseName: Option<string>)
    ensures CreateHubRun(oracle, st, baseName).0.runinfo == st.runinfo
    ensures CreateHubRun(oracle, st, baseName).1.Raised? ==> CreateHubRun(oracle, st, baseName).1.exn.cls == "DVSQLError"
    ensures CreateHubRun(oracle, st, baseName).1.Returned? ==>
      var q := TablesResult(oracle, st, baseName, Some("hub"));
      |CreateHubRun(oracle, st, baseName).1.errors| <= |GroupBy(q.1.value, BaseKey)|
  {
    var q := TablesResult(oracle, st, baseName, Some("hub"));
    if q.1.Ok? {
      var plan := HubDdlPlan(GroupBy(q.1.value, BaseKey));
      assert NoRunInfoWrite(plan);
      RunEffect(oracle, q.0, plan, Refactored);
    }
  }

  // ---------------------------------------------------------------------------
  // load_related_hubs
  // ---------------------------------------------------------------------------

  predicate IsHubTarget(t: Transition) { StartsWith(t.targetTable, "hub_") }

  function IsHubTargetFn(): Transition -> bool { (t: Transition) => IsHubTarget(t) }

  /** `SUB.<source> AS <target>` for each business key. */
  function SubAliases(fields: seq<Transition>): (r: seq<string>)
    ensures |r| == |fields|
    ensures forall i :: 0 <= i < |fields| ==> r[i] == "SUB." + fields[i].sourceField + " AS " + fields[i].targetField
    decreases |fields|
  {
    if fields == [] then []
    else SubAliases(fields[..|fields| - 1]) + ["SUB." + fields[|fields| - 1].sourceField + " AS " + fields[|fields| - 1].targetField]
  }

  /** `src.<source>` for each business key. */
  function SrcRefs(fields: seq<Transition>): (r: seq<string>)
    ensures |r| == |fields|
    ensures forall i :: 0 <= i < |fields| ==> r[i] == "src." + fields[i].sourceField
    decreases |fields|
  {
    if fields == [] then [] else SrcRefs(fields[..|fields| - 1]) + ["src." + fields[|fields| - 1].sourceField]
  }

  /** The hash key column of a hub: the name after `hub_`, then `_hk`. */
  function HubHashKey(hubName: string): string {
    Drop(hubName, 4) + "_hk"
  }

  /**
   * The INSERT_HUB of one `hub_name.group_name` group. A grouping key always
   * holds a `.` (`TargetGroupsDotted`), so the empty default is never taken.
   */
  function HubLoadStmt(ctx: LoadContext, g: Group<Transition>): Stmt {
    var parts := Split(g.key, '.');
    var hubName := parts[0];
    var groupName := if |parts| >= 2 then parts[1] else "";
    InsertHub(hubName, ctx.loadDate, ctx.recordSource, ctx.runId, SubAliases(g.members), groupName,
              SrcRefs(g.members), ctx.stgTable, HubHashKey(hubName))
  }

  function HubLoadStmtFn(ctx: LoadContext): Group<Transition> -> Stmt {
    (g: Group<Transition>) => HubLoadStmt(ctx, g)
  }

  function HubGroups(records: seq<Transition>): seq<Group<Transition>> {
    GroupBy(Where(records, IsHubTargetFn()), TargetGroupKey)
  }

  /** `load_related_hubs`: the transitions into hubs, grouped by target and group, one insert per group. */
  function LoadHubsRun(oracle: Oracle, st: DbState, ctx: LoadContext): (DbState, Outcome) {
    var q := TransitionsResult(oracle, st, ctx.stgTable);
    if q.1.Err? then (q.0, Raised(q.1.error))
    else RunPlan(oracle, q.0, ExecEach(HubGroups(q.1.value), HubLoadStmtFn(ctx)), Refactored)
  }

  method LoadRelatedHubs(db: Database, stgTable: string, runId: int, recordSource: string,
                         loadDateOverwrite: Option<string>, now: string) returns (out: Outcome)
    modifies db
    ensures (db.State(), out)
         == LoadHubsRun(db.oracle, old(db.State()), LoadContext(stgTable, runId, recordSource, LoadDate(loadDateOverwrite, now)))
  {
    var ctx := LoadContext(stgTable, runId, recordSource, LoadDate(loadDateOverwrite, now));
    var rawRecords := MetadataManager.GetTransitions(db, stgTable);
    if rawRecords.Err? {
      return Raised(rawRecords.error);
    }
    var bkPerGroup := HubGroups(rawRecords.value);
    TargetGroupsDotted(Where(rawRecords.value, IsHubTargetFn()));
    ghost var st1 := db.State();
    var errors: seq<ErrorEntry> := [];
    for i := 0 to |bkPerGroup|
      invariant (db.State(), errors) == Run(db.oracle, st1, ExecEach(bkPerGroup[..i], HubLoadStmtFn(ctx)), Refactored)
    {
      var parts := Split(bkPerGroup[i].key, '.');
      var hubName := parts[0];
      var groupName := parts[1];
      var insertSql := InsertHub(hubName, ctx.loadDate, recordSource, runId, SubAliases(bkPerGroup[i].members),
                                 groupName, SrcRefs(bkPerGroup[i].members), stgTable, HubHashKey(hubName));
      var e := db.Perform(Exec(insertSql), Refactored);
      RunSnoc(db.oracle, st1, ExecEach(bkPerGroup[..i], HubLoadStmtFn(ctx)), Exec(insertSql), Refactored);
      ExecEachPrefix(bkPerGroup, HubLoadStmtFn(ctx), i);
      errors := errors + e;
    }
    assert bkPerGroup[..|bkPerGroup|] == bkPerGroup;
    out := Returned(errors);
  }

  /**
   * A hub named `hub_x` has the hash key `x_hk`, for any `x`; a name of
   * fewer than four characters gives the bare `_hk`.
   */
  lemma HubHashKeyOfName(prefix: string, x: string)
    requires |prefix| == 4
    ensures HubHashKey(prefix + x) == x + "_hk"
    ensures forall h :: |h| < 4 ==> HubHashKey(h) == "_hk"
  {
    assert (prefix + x)[4..] == x;
  }

  /**
   * The insert for the group of a transition `t` goes to `t`'s target table
   * and names its hash key after it; a group name free of dots is passed
   * through unchanged.
   */
  lemma HubLoadStmtNames(ctx: LoadContext, g: Group<Transition>, t: Transition)
    requires TargetGroupKey(t) == g.key && DotFree(t.targetTable)
    ensures HubLoadStmt(ctx, g).hubName == t.targetTable
    ensures HubLoadStmt(ctx, g).hubHashKey == Drop(t.targetTable, 4) + "_hk"
    ensures DotFree(t.groupName) ==> HubLoadStmt(ctx, g).groupName == t.groupName
  {
    TargetGroupKeyParts(t);
  }

  /** A record of a hub group of the query that supports the group's key. */
  predicate HubGroupSource(transitions: seq<Transition>, ctx: LoadContext, g: Group<Transition>, t: Transition) {
    t in Where(TransitionsQuery(transitions, ctx.stgTable), IsHubTargetFn())
    && TargetGroupKey(t) == g.key && t.sourceTable == ctx.stgTable && IsHubTarget(t) && DotFree(t.targetTable)
  }

  /**
   * With target tables free of dots (as table names are), the load issues one
   * insert per distinct `(target_table, group_name)` among the transitions into
   * `hub_` tables, listing every business key of the group in transition order.
   */
  lemma HubGroupsCorrect(transitions: seq<Transition>, ctx: LoadContext, i: nat)
    requires forall t :: t in transitions ==> DotFree(t.targetTable)
    requires i < |HubGroups(TransitionsQuery(transitions, ctx.stgTable))|
    ensures var g := HubGroups(TransitionsQuery(transitions, ctx.stgTable))[i];
      && (exists t :: HubGroupSource(transitions, ctx, g, t))
      && g.members == Filter(Where(TransitionsQuery(transitions, ctx.stgTable), IsHubTargetFn()), TargetGroupKey, g.key)
  {
    var q := TransitionsQuery(transitions, ctx.stgTable);
    TransitionsQueryCorrect(transitions, ctx.stgTable);
    var records := Where(q, IsHubTargetFn());
    WhereContiguous(q, IsHubTargetFn(), TargetGroupKey);
    GroupWitness(records, TargetGroupKey, i);
    var g := HubGroups(q)[i];
    var j :| 0 <= j < |records| && TargetGroupKey(records[j]) == g.key;
    var t := records[j];
    assert t in multiset(q) by { assert t in multiset(records); }
    assert t in q;
    assert DotFree(t.targetTable) && t.sourceTable == ctx.stgTable by {
      assert t in multiset(transitions) by { assert t in multiset(q); }
    }
    assert IsHubTargetFn()(t);
    assert HubGroupSource(transitions, ctx, g, t);
  }

  /**
   * Each insert of the load goes to a `hub_` table of the staging table's
   * transitions, with that table's hash key and exactly the group's business
   * keys.
   */
  lemma LoadHubsPlanCorrect(transitions: seq<Transition>, ctx: LoadContext, i: nat)
    requires forall t :: t in transitions ==> DotFree(t.targetTable)
    requires i < |HubGroups(TransitionsQuery(transitions, ctx.stgTable))|
    ensures var records := Where(TransitionsQuery(transitions, ctx.stgTable), IsHubTargetFn());
      var g := HubGroups(TransitionsQuery(transitions, ctx.stgTable))[i];
      && (exists t :: HubGroupSource(transitions, ctx, g, t)
           && HubLoadStmt(ctx, g).hubName == t.targetTable && StartsWith(HubLoadStmt(ctx, g).hubName, "hub_")
           && HubLoadStmt(ctx, g).hubHashKey == Drop(t.targetTable, 4) + "_hk")
      && HubLoadStmt(ctx, g).businessKeys == SubAliases(Filter(records, TargetGroupKey, g.key))
      && HubLoadStmt(ctx, g).sourceFields == SrcRefs(Filter(records, TargetGroupKey, g.key))
  {
    HubGroupsCorrect(transitions, ctx, i);
    var g := HubGroups(TransitionsQuery(transitions, ctx.stgTable))[i];
    var t :| HubGroupSource(transitions, ctx, g, t);
    HubLoadStmtNames(ctx, g, t);
  }

  /** The load returns at most one error per group and writes no run history. */
  lemma LoadHubsBound(oracle: Oracle, st: DbState, ctx: LoadContext)
    ensures LoadHubsRun(oracle, st, ctx).0.runinfo == st.runinfo
    ensures LoadHubsRun(oracle, st, ctx).1.Returned? ==>
      |LoadHubsRun(oracle, st, ctx).1.errors| <= |HubGroups(TransitionsResult(oracle, st, ctx.stgTable).1.value)|
  {
    var q := TransitionsResult(oracle, st, ctx.stgTable);
    if q.1.Ok? {
      var plan := ExecEach(HubGroups(q.1.value), HubLoadStmtFn(ctx));
      assert NoRunInfoWrite(plan);
      RunEffect(oracle, q.0, plan, Refactored);
    }
  }
}
