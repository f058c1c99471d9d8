/**
 * The link manager: one `CREATE TABLE` per link (or non-historized link) in
 * the table metadata, and one insert-if-absent per `(target_table,
 * group_name)` of the transitions that feed a `link_` or `nhl_` table.
 */
module LinkManager {
  import opened Common
  import opened Ordering
  import opened Grouping
  import opened Metadata
  import opened Statements
  import opened Engine
  import opened MetadataManager

  // ---------------------------------------------------------------------------
  // create_link_from_metadata
  // ---------------------------------------------------------------------------

  /** A column mapped `ll` references a hub: it becomes a hash-key column. */
  predicate IsHubRef(r: TableRecord) { r.mapping == "ll" }

  function IsHubRefFn(): TableRecord -> bool { (r: TableRecord) => IsHubRef(r) }

  function IsDependentFn(): TableRecord -> bool { (r: TableRecord) => !IsHubRef(r) }

  /** A hub-reference column: `<name>_hk CHAR(40)`. */
  function HkColumn(r: TableRecord): string {
    Quoted(r.columnName, "_hk") + " CHAR(40)"
  }

  /** A dependent-key column: `<name>_dk` and its type. */
  function DkColumn(r: TableRecord): string {
    Quoted(r.columnName, "_dk") + " " + r.columnType
  }

  function HkColumns(rs: seq<TableRecord>): (r: seq<string>)
    ensures |r| == |rs|
    ensures forall i :: 0 <= i < |rs| ==> r[i] == HkColumn(rs[i])
    decreases |rs|
  {
    if rs == [] then [] else HkColumns(rs[..|rs| - 1]) + [HkColumn(rs[|rs| - 1])]
  }

  function DkColumns(rs: seq<TableRecord>): (r: seq<string>)
    ensures |r| == |rs|
    ensures forall i :: 0 <= i < |rs| ==> r[i] == DkColumn(rs[i])
    decreases |rs|
  {
    if rs == [] then [] else DkColumns(rs[..|rs| - 1]) + [DkColumn(rs[|rs| - 1])]
  }

  /** The columns of one link: every hub reference, then every dependent key, each in metadata order. */
  function LinkColumns(fields: seq<TableRecord>): seq<string> {
    HkColumns(Where(fields, IsHubRefFn())) + DkColumns(Where(fields, IsDependentFn()))
  }

  /** The `CREATE TABLE dv.<type>_<base>` of one `rel_type.base_name` group. */
  function LinkDdlStmt(g: Group<TableRecord>): Stmt {
    var sbn := Split(g.key, '.');
    CreateLink(sbn[0], Join(".", sbn[1..]), LinkColumns(g.members))
  }

  function LinkDdlStmtFn(): Group<TableRecord> -> Stmt { (g: Group<TableRecord>) => LinkDdlStmt(g) }

  function LinkDdlPlan(groups: seq<Group<TableRecord>>): seq<Action> {
    ExecEach(groups, LinkDdlStmtFn())
  }

  /**
   * `create_link_from_metadata(base_name, rel_type)`: the rows of the given
   * rel type, or the `link` rows then the `nhl` rows, grouped by
   * `rel_type.base_name`, one DDL per group.
   */
  function CreateLinkRun(oracle: Oracle, st: DbState, baseName: Option<string>, relType: Option<string>)
    : (DbState, Outcome)
  {
    var q := EntityTables(oracle, st, baseName, relType, "link", "nhl");
    if q.1.Err? then (q.0, Raised(q.1.error))
    else RunPlan(oracle, q.0, LinkDdlPlan(GroupBy(q.1.value, RelBaseKey)), Refactored)
  }

  /** One more field adds one column to the list its mapping selects. */
  lemma LinkColumnsStep(fields: seq<TableRecord>, i: nat)
    requires i < |fields|
    ensures HkColumns(Where(fields[..i + 1], IsHubRefFn()))
         == HkColumns(Where(fields[..i], IsHubRefFn())) + (if IsHubRef(fields[i]) then [HkColumn(fields[i])] else [])
    ensures DkColumns(Where(fields[..i + 1], IsDependentFn()))
         == DkColumns(Where(fields[..i], IsDependentFn())) + (if IsHubRef(fields[i]) then [] else [DkColumn(fields[i])])
  {
    assert fields[..i + 1] == fields[..i] + [fields[i]];
    HkColumnsStep(fields[..i], fields[i]);
    DkColumnsStep(fields[..i], fields[i]);
  }

  lemma HkColumnsStep(fs: seq<TableRecord>, r: TableRecord)
    ensures HkColumns(Where(fs + [r], IsHubRefFn()))
         == HkColumns(Where(fs, IsHubRefFn())) + (if IsHubRef(r) then [HkColumn(r)] else [])
  {
    WhereSnoc(fs, r, IsHubRefFn());
    var h := Where(fs, IsHubRefFn());
    if IsHubRef(r) {
      HkColumnsSnoc(h, r);
    } else {
      assert h + [] == h;
      assert HkColumns(h) + [] == HkColumns(h);
    }
  }

  lemma DkColumnsStep(fs: seq<TableRecord>, r: TableRecord)
    ensures DkColumns(Where(fs + [r], IsDependentFn()))
         == DkColumns(Where(fs, IsDependentFn())) + (if IsHubRef(r) then [] else [DkColumn(r)])
  {
    WhereSnoc(fs, r, IsDependentFn());
    var d := Where(fs, IsDependentFn());
    if IsHubRef(r) {
      assert d + [] == d;
      assert DkColumns(d) + [] == DkColumns(d);
    } else {
      DkColumnsSnoc(d, r);
    }
  }

  lemma HkColumnsSnoc(rs: seq<TableRecord>, r: TableRecord)
    ensures HkColumns(rs + [r]) == HkColumns(rs) + [HkColumn(r)]
  {
    assert (rs + [r])[..|rs|] == rs;
  }

  lemma DkColumnsSnoc(rs: seq<TableRecord>, r: TableRecord)
    ensures DkColumns(rs + [r]) == DkColumns(rs) + [DkColumn(r)]
  {
    assert (rs + [r])[..|rs|] == rs;
  }

  /** The loop that sorts a link's fields into `hk_list` and `dk_list`. */
  method BuildLinkColumns(fields: seq<TableRecord>) returns (hkList: seq<string>, dkList: seq<string>)
    ensures hkList == HkColumns(Where(fields, IsHubRefFn()))
    ensures dkList == DkColumns(Where(fields, IsDependentFn()))
  {
    hkList, dkList := [], [];
    for i := 0 to |fields|
      invariant hkList == HkColumns(Where(fields[..i], IsHubRefFn()))
      invariant dkList == DkColumns(Where(fields[..i], IsDependentFn()))
    {
      LinkColumnsStep(fields, i);
      if fields[i].mapping == "ll" {
        hkList := hkList + [HkColumn(fields[i])];
      } else {
        dkList := dkList + [DkColumn(fields[i])];
      }
    }
    assert fields[..|fields|] == fields;
  }

  method CreateLinkFromMetadata(db: Database, baseName: Option<string>, relType: Option<string>) returns (out: Outcome)
    modifies db
    ensures (db.State(), out) == CreateLinkRun(db.oracle, old(db.State()), baseName, relType)
  {
    var rawLinkRecords := MetadataManager.GetEntityTables(db, baseName, relType, "link", "nhl");
    if rawLinkRecords.Err? {
      return Raised(rawLinkRecords.error);
    }
    var records := GroupBy(rawLinkRecords.value, RelBaseKey);
    ghost var st1 := db.State();
    var errors: seq<ErrorEntry> := [];
    for i := 0 to |records|
      invariant (db.State(), errors) == Run(db.oracle, st1, LinkDdlPlan(records[..i]), Refactored)
    {
      var sbn := Split(records[i].key, '.');
      var tableType := sbn[0];
      var tableBaseName := Join(".", sbn[1..]);
      var hkList, dkList := BuildLinkColumns(records[i].members);
      var sqlStr := CreateLink(tableType, tableBaseName, hkList + dkList);
      var e := db.Perform(Exec(sqlStr), Refactored);
      RunSnoc(db.oracle, st1, LinkDdlPlan(records[..i]), Exec(LinkDdlStmt(records[i])), Refactored);
      ExecEachPrefix(records, LinkDdlStmtFn(), i);
      errors := errors + e;
    }
    assert records[..|records|] == records;
    out := Returned(errors);
  }

  /**
   * A hub reference is `<name>_hk CHAR(40)` and a dependent key `<name>_dk`
   * with its type, the name double-quoted iff it contains a space.
   */
  lemma LinkColumnNaming(r: TableRecord)
    ensures HkColumn(r) == QuoteIfSpace(r.columnName + "_hk") + " CHAR(40)"
    ensures DkColumn(r) == QuoteIfSpace(r.columnName + "_dk") + " " + r.columnType
  {
    QuotedIsQuoteIfSpace(r.columnName, "_hk");
    QuotedIsQuoteIfSpace(r.columnName, "_dk");
  }

  /**
   * Every field of a link gives exactly one column: the `n` hub references
   * come first, as hash-key columns in field order, and the remaining fields
   * follow as dependent keys in field order.
   */
  lemma LinkColumnAt(fields: seq<TableRecord>, i: nat)
    requires i < |fields|
    ensures |Where(fields, IsHubRefFn())| + |Where(fields, IsDependentFn())| == |LinkColumns(fields)| == |fields|
    ensures var hs := Where(fields, IsHubRefFn());
      var ds := Where(fields, IsDependentFn());
      if i < |hs| then LinkColumns(fields)[i] == HkColumn(hs[i]) && hs[i].mapping == "ll"
      else LinkColumns(fields)[i] == DkColumn(ds[i - |hs|]) && ds[i - |hs|].mapping != "ll"
  {
    WherePartition(fields, IsHubRefFn(), IsDependentFn());
    var hs := Where(fields, IsHubRefFn());
    var ds := Where(fields, IsDependentFn());
    var hk, dk := HkColumns(hs), DkColumns(ds);
    assert LinkColumns(fields) == hk + dk;
    if i < |hs| {
      assert (hk + dk)[i] == hk[i];
      assert IsHubRefFn()(hs[i]);
    } else {
      assert (hk + dk)[i] == dk[i - |hs|];
      assert IsDependentFn()(ds[i - |hs|]);
    }
  }

  /** A record of a link group that supports the group's key, of the requested type or of a default one. */
  predicate LinkGroupSource(records: seq<TableRecord>, relType: Option<string>, g: Group<TableRecord>, r: TableRecord) {
    && r in records && RelBaseKey(r) == g.key
    && (if Truthy(relType) then r.relType == relType.value else r.relType == "link" || r.relType == "nhl")
  }

  /** The DDL of a group names the type and base name of the rows behind its key. */
  lemma LinkDdlStmtOf(g: Group<TableRecord>, r: TableRecord)
    requires RelBaseKey(r) == g.key && DotFree(r.relType)
    ensures LinkDdlStmt(g) == CreateLink(r.relType, r.baseName, LinkColumns(g.members))
  {
    RelBaseKeyParts(r);
  }

  /** DDL `i` is that of one distinct link: the type and base name of its rows, and columns from exactly those rows. */
  ghost predicate LinkDdlAt(records: seq<TableRecord>, relType: Option<string>, i: nat)
    requires i < |GroupBy(records, RelBaseKey)|
  {
    var g := GroupBy(records, RelBaseKey)[i];
    && g.members == Filter(records, RelBaseKey, g.key)
    && exists r :: LinkGroupSource(records, relType, g, r)
         && LinkDdlPlan(GroupBy(records, RelBaseKey))[i] == Exec(CreateLink(r.relType, r.baseName, LinkColumns(g.members)))
  }

  /** On contiguous rows with dot-free rel types, DDL `i` names the type and base name of one row behind its key. */
  lemma LinkGroupAt(records: seq<TableRecord>, i: nat)
    requires Contiguous(records, RelBaseKey)
    requires forall k :: 0 <= k < |records| ==> DotFree(records[k].relType)
    requires i < |GroupBy(records, RelBaseKey)|
    ensures GroupBy(records, RelBaseKey)[i].members == Filter(records, RelBaseKey, GroupBy(records, RelBaseKey)[i].key)
    ensures exists j :: (0 <= j < |records| && RelBaseKey(records[j]) == GroupBy(records, RelBaseKey)[i].key
      && LinkDdlPlan(GroupBy(records, RelBaseKey))[i]
           == Exec(CreateLink(records[j].relType, records[j].baseName, LinkColumns(GroupBy(records, RelBaseKey)[i].members))))
  {
    var gs := GroupBy(records, RelBaseKey);
    GroupWitness(records, RelBaseKey, i);
    var j :| 0 <= j < |records| && RelBaseKey(records[j]) == gs[i].key;
    LinkDdlStmtOf(gs[i], records[j]);
    assert LinkDdlPlan(gs)[i] == Exec(LinkDdlStmtFn()(gs[i]));
  }

  lemma LinkDdlAtOf(records: seq<TableRecord>, relType: Option<string>, i: nat)
    requires Contiguous(records, RelBaseKey)
    requires forall r :: r in records ==>
      if Truthy(relType) then r.relType == relType.value else r.relType == "link" || r.relType == "nhl"
    requires Truthy(relType) ==> DotFree(relType.value)
    requires i < |GroupBy(records, RelBaseKey)|
    ensures LinkDdlAt(records, relType, i)
  {
    assert forall k :: 0 <= k < |records| ==> records[k] in records;
    LinkGroupAt(records, i);
    var gs := GroupBy(records, RelBaseKey);
    var j :| 0 <= j < |records| && RelBaseKey(records[j]) == gs[i].key
      && LinkDdlPlan(gs)[i] == Exec(CreateLink(records[j].relType, records[j].baseName, LinkColumns(gs[i].members)));
    assert LinkGroupSource(records, relType, gs[i], records[j]);
  }

  /**
   * With rel types free of dots, the fetched link rows are contiguous by
   * `rel_type.base_name`, so each DDL is that of one distinct link: its type
   * and base name are those of the link's rows and its columns come from
   * exactly those rows.
   */
  lemma CreateLinkPlanAt(tables: seq<TableRecord>, baseName: Option<string>, relType: Option<string>, i: nat)
    requires Truthy(relType) ==> DotFree(relType.value)
    requires i < |GroupBy(EntityRecords(tables, baseName, relType, "link", "nhl"), RelBaseKey)|
    ensures LinkDdlAt(EntityRecords(tables, baseName, relType, "link", "nhl"), relType, i)
  {
    LinkRecordsShape(tables, baseName, relType);
    LinkDdlAtOf(EntityRecords(tables, baseName, relType, "link", "nhl"), relType, i);
  }

  /** The fetched link rows are contiguous by `rel_type.base_name` and carry the requested or the two link types. */
  lemma LinkRecordsShape(tables: seq<TableRecord>, baseName: Option<string>, relType: Option<string>)
    requires Truthy(relType) ==> DotFree(relType.value)
    ensures Contiguous(EntityRecords(tables, baseName, relType, "link", "nhl"), RelBaseKey)
    ensures forall r :: r in EntityRecords(tables, baseName, relType, "link", "nhl") ==>
      if Truthy(relType) then r.relType == relType.value else r.relType == "link" || r.relType == "nhl"
  {
    EntityRecordsContiguous(tables, baseName, relType, "link", "nhl");
  }

  /** Grouping loses no link: one DDL per distinct `rel_type.base_name` of the fetched rows. */
  lemma CreateLinkGroups(tables: seq<TableRecord>, baseName: Option<string>, relType: Option<string>)
    requires Truthy(relType) ==> DotFree(relType.value)
    ensures var records := EntityRecords(tables, baseName, relType, "link", "nhl");
      && DistinctKeys(GroupBy(records, RelBaseKey))
      && |LinkDdlPlan(GroupBy(records, RelBaseKey))| == |GroupBy(records, RelBaseKey)|
      && (forall r :: r in records ==>
            exists g :: 0 <= g < |GroupBy(records, RelBaseKey)|
              && GroupBy(records, RelBaseKey)[g] == Group(RelBaseKey(r), Filter(records, RelBaseKey, RelBaseKey(r))))
  {
    EntityRecordsContiguous(tables, baseName, relType, "link", "nhl");
    GroupsOfAll(EntityRecords(tables, baseName, relType, "link", "nhl"), RelBaseKey);
  }

  /** The build returns at most one error per link and writes no run history; a failed fetch raises a `DVSQLError`. */
  lemma CreateLinkBound(oracle: Oracle, st: DbState, baseName: Option<string>, relType: Option<string>)
    ensures CreateLinkRun(oracle, st, baseName, relType).0.runinfo == st.runinfo
    ensures CreateLinkRun(oracle, st, baseName, relType).1.Raised? ==>
      CreateLinkRun(oracle, st, baseName, relType).1.exn.cls == "DVSQLError"
    ensures CreateLinkRun(oracle, st, baseName, relType).1.Returned? ==>
      |CreateLinkRun(oracle, st, baseName, relType).1.errors|
        <= |GroupBy(EntityRecords(st.tables, baseName, relType, "link", "nhl"), RelBaseKey)|
  {
    var q := EntityTables(oracle, st, baseName, relType, "link", "nhl");
    EntityTablesValue(oracle, st, baseName, relType, "link", "nhl");
    if q.1.Ok? {
      var plan := LinkDdlPlan(GroupBy(q.1.value, RelBaseKey));
      assert NoRunInfoWrite(plan);
      RunEffect(oracle, q.0, plan, Refactored);
    }
  }

  // ---------------------------------------------------------------------------
  // load_related_links
  // ---------------------------------------------------------------------------

  predicate IsLinkTarget(t: Transition) {
    StartsWith(t.targetTable, "link_") || StartsWith(t.targetTable, "nhl_")
  }

  function IsLinkTargetFn(): Transition -> bool { (t: Transition) => IsLinkTarget(t) }

  /** A field transferred `ll` carries a hub's hash key: its staging column has the `_hk` suffix. */
  function HkSuffix(t: Transition): string {
    if t.transferType == "ll" then "_hk" else ""
  }

  /** `SUB.<source>[_hk] AS <target>` for each field of the link. */
  function LinkAliases(fields: seq<Transition>): (r: seq<string>)
    ensures |r| == |fields|
    ensures forall i :: 0 <= i < |fields| ==> r[i] == "SUB." + fields[i].sourceField + HkSuffix(fields[i]) + " AS " + fields[i].targetField
    decreases |fields|
  {
    if fields == [] then []
    else
      var f := fields[|fields| - 1];
      LinkAliases(fields[..|fields| - 1]) + ["SUB." + f.sourceField + HkSuffix(f) + " AS " + f.targetField]
  }

  /** `src.<source>[_hk]` for each field of the link. */
  function LinkSrcRefs(fields: seq<Transition>): (r: seq<string>)
    ensures |r| == |fields|
    ensures forall i :: 0 <= i < |fields| ==> r[i] == "src." + fields[i].sourceField + HkSuffix(fields[i])
    decreases |fields|
  {
    if fields == [] then []
    else LinkSrcRefs(fields[..|fields| - 1]) + ["src." + fields[|fields| - 1].sourceField + HkSuffix(fields[|fields| - 1])]
  }

  /** The hash key of a link: the name after `link_` (when it starts with `l`) or after `nhl_`, then `_hk`. */
  function LinkHashKey(linkName: string): string {
    (if StartsWith(linkName, "l") then Drop(linkName, 5) else Drop(linkName, 4)) + "_hk"
  }

  /** The INSERT_LINK of one `link_name.group_name` group; the key always holds a `.` (`TargetGroupsDotted`). */
  function LinkLoadStmt(ctx: LoadContext, g: Group<Transition>): Stmt {
    var parts := Split(g.key, '.');
    var linkName := parts[0];
    var groupName := if |parts| >= 2 then parts[1] else "";
    InsertLink(linkName, LinkHashKey(linkName), ctx.loadDate, ctx.recordSource, ctx.runId,
               LinkAliases(g.members), groupName, LinkSrcRefs(g.members), ctx.stgTable)
  }

  function LinkLoadStmtFn(ctx: LoadContext): Group<Transition> -> Stmt {
    (g: Group<Transition>) => LinkLoadStmt(ctx, g)
  }

  function LinkGroups(records: seq<Transition>): seq<Group<Transition>> {
    GroupBy(Where(records, IsLinkTargetFn()), TargetGroupKey)
  }

  /** `load_related_links`: the transitions into links, grouped by target and group, one insert per group. */
  function LoadLinksRun(oracle: Oracle, st: DbState, ctx: LoadContext): (DbState, Outcome) {
    var q := TransitionsResult(oracle, st, ctx.stgTable);
    if q.1.Err? then (q.0, Raised(q.1.error))
    else RunPlan(oracle, q.0, ExecEach(LinkGroups(q.1.value), LinkLoadStmtFn(ctx)), Refactored)
  }

  method LoadRelatedLinks(db: Database, stgTable: string, runId: int, recordSource: string,
                          loadDateOverwrite: Option<string>, now: string) returns (out: Outcome)
    modifies db
    ensures (db.State(), out)
         == LoadLinksRun(db.oracle, old(db.State()), LoadContext(stgTable, runId, recordSource, LoadDate(loadDateOverwrite, now)))
  {
    var ctx := LoadContext(stgTable, runId, recordSource, LoadDate(loadDateOverwrite, now));
    var rawRecords := MetadataManager.GetTransitions(db, stgTable);
    if rawRecords.Err? {
      return Raised(rawRecords.error);
    }
    var bkPerGroup := LinkGroups(rawRecords.value);
    TargetGroupsDotted(Where(rawRecords.value, IsLinkTargetFn()));
    ghost var st1 := db.State();
    var errors: seq<ErrorEntry> := [];
    for i := 0 to |bkPerGroup|
      invariant (db.State(), errors) == Run(db.oracle, st1, ExecEach(bkPerGroup[..i], LinkLoadStmtFn(ctx)), Refactored)
    {
      var linkName := Split(bkPerGroup[i].key, '.')[0];
      var groupName := Split(bkPerGroup[i].key, '.')[1];
      var linkHashKey := (if StartsWith(linkName, "l") then Drop(linkName, 5) else Drop(linkName, 4)) + "_hk";
      var insertSql := InsertLink(linkName, linkHashKey, ctx.loadDate, recordSource, runId,
                                  LinkAliases(bkPerGroup[i].members), groupName, LinkSrcRefs(bkPerGroup[i].members), stgTable);
      var e := db.Perform(Exec(insertSql), Refactored);
      RunSnoc(db.oracle, st1, ExecEach(bkPerGroup[..i], LinkLoadStmtFn(ctx)), Exec(insertSql), Refactored);
      ExecEachPrefix(bkPerGroup, LinkLoadStmtFn(ctx), i);
      errors := errors + e;
    }
    assert bkPerGroup[..|bkPerGroup|] == bkPerGroup;
    out := Returned(errors);
  }

  /** Both kinds of link name their hash key after what follows the prefix: `link_x` and `nhl_x` both give `x_hk`. */
  lemma LinkHashKeyNames(x: string)
    ensures LinkHashKey("link_" + x) == x + "_hk"
    ensures LinkHashKey("nhl_" + x) == x + "_hk"
  {
    assert StartsWith("link_" + x, "l") by { assert ("link_" + x)[..1] == "l"; }
    assert !StartsWith("nhl_" + x, "l") by { assert ("nhl_" + x)[0] == 'n'; }
    assert Drop("link_" + x, 5) == x;
    assert Drop("nhl_" + x, 4) == x;
  }

  /** A record of a link group of the query that supports the group's key. */
  predicate LinkLoadSource(transitions: seq<Transition>, ctx: LoadContext, g: Group<Transition>, t: Transition) {
    t in Where(TransitionsQuery(transitions, ctx.stgTable), IsLinkTargetFn())
    && TargetGroupKey(t) == g.key && t.sourceTable == ctx.stgTable && IsLinkTarget(t) && DotFree(t.targetTable)
  }

  /** Each group of the load is that of a transition into a link and holds exactly the transitions with its key. */
  lemma LinkGroupsCorrect(transitions: seq<Transition>, ctx: LoadContext, i: nat)
    requires forall t :: t in transitions ==> DotFree(t.targetTable)
    requires i < |LinkGroups(TransitionsQuery(transitions, ctx.stgTable))|
    ensures var g := LinkGroups(TransitionsQuery(transitions, ctx.stgTable))[i];
      && (exists t :: LinkLoadSource(transitions, ctx, g, t))
      && g.members == Filter(Where(TransitionsQuery(transitions, ctx.stgTable), IsLinkTargetFn()), TargetGroupKey, g.key)
  {
    var q := TransitionsQuery(transitions, ctx.stgTable);
    TransitionsQueryCorrect(transitions, ctx.stgTable);
    var records := Where(q, IsLinkTargetFn());
    WhereContiguous(q, IsLinkTargetFn(), TargetGroupKey);
    GroupWitness(records, TargetGroupKey, i);
    var g := LinkGroups(q)[i];
    var j :| 0 <= j < |records| && TargetGroupKey(records[j]) == g.key;
    var t := records[j];
    assert t in multiset(q) by { assert t in multiset(records); }
    assert t in q;
    assert DotFree(t.targetTable) && t.sourceTable == ctx.stgTable by {
      assert t in multiset(transitions) by { assert t in multiset(q); }
    }
    assert IsLinkTargetFn()(t);
    assert LinkLoadSource(transitions, ctx, g, t);
  }

  /**
   * With target tables free of dots, the load issues one insert per distinct
   * `(target_table, group_name)` among the transitions into `link_` and
   * `nhl_` tables: it goes to that table, with that table's hash key and
   * exactly the group's fields in transition order.
   */
  lemma LoadLinksPlanCorrect(transitions: seq<Transition>, ctx: LoadContext, i: nat)
    requires forall t :: t in transitions ==> DotFree(t.targetTable)
    requires i < |LinkGroups(TransitionsQuery(transitions, ctx.stgTable))|
    ensures var records := Where(TransitionsQuery(transitions, ctx.stgTable), IsLinkTargetFn());
      var g := LinkGroups(TransitionsQuery(transitions, ctx.stgTable))[i];
      && (exists t :: LinkLoadSource(transitions, ctx, g, t)
           && LinkLoadStmt(ctx, g).linkName == t.targetTable
           && LinkLoadStmt(ctx, g).linkHashKey == LinkHashKey(t.targetTable)
           && (DotFree(t.groupName) ==> LinkLoadStmt(ctx, g).groupName == t.groupName))
      && LinkLoadStmt(ctx, g).linkFields == LinkAliases(Filter(records, TargetGroupKey, g.key))
      && LinkLoadStmt(ctx, g).sourceFields == LinkSrcRefs(Filter(records, TargetGroupKey, g.key))
  {
    LinkGroupsCorrect(transitions, ctx, i);
    var g := LinkGroups(TransitionsQuery(transitions, ctx.stgTable))[i];
    var t :| LinkLoadSource(transitions, ctx, g, t);
    TargetGroupKeyParts(t);
  }

  /** The load returns at most one error per group and writes no run history. */
  lemma LoadLinksBound(oracle: Oracle, st: DbState, ctx: LoadContext)
    ensures LoadLinksRun(oracle, st, ctx).0.runinfo == st.runinfo
    ensures LoadLinksRun(oracle, st, ctx).1.Returned? ==>
      |LoadLinksRun(oracle, st, ctx).1.errors| <= |LinkGroups(TransitionsResult(oracle, st, ctx.stgTable).1.value)|
  {
    var q := TransitionsResult(oracle, st, ctx.stgTable);
    if q.1.Ok? {
      var plan := ExecEach(LinkGroups(q.1.value), LinkLoadStmtFn(ctx));
      assert NoRunInfoWrite(plan);
      RunEffect(oracle, q.0, plan, Refactored);
    }
  }
}
