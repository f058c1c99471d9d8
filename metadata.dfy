/**
 * The three metadata relations (`metadata.tables`, `metadata.transitions`,
 * `metadata.runinfo`), the orderings their queries return rows in, and what
 * those queries compute.
 */
module Metadata {
  import opened Common
  import opened Ordering
  import opened Grouping

  /** A row of `metadata.tables`: one column of one entity. */
  datatype TableRecord = TableRecord(
    baseName: string,
    relType: string,
    columnName: string,
    columnType: string,
    columnPosition: int,
    mapping: string)

  /** A row of `metadata.transitions`: one staging field routed to one entity column. */
  datatype Transition = Transition(
    sourceTable: string,
    sourceField: string,
    targetTable: string,
    targetField: string,
    groupName: string,
    position: int,
    raw: bool,
    transformation: Option<string>,
    transferType: string)

  /** A row of `metadata.runinfo`. */
  datatype RunRow = RunRow(
    sourceTable: Value,
    runId: Value,
    logDate: Value,
    sourceFile: Value,
    status: Value,
    message: Value)

  // ---------------------------------------------------------------------------
  // ORDER BY rel_type, base_name, mapping, column_position
  // ---------------------------------------------------------------------------

  predicate TableLe(a: TableRecord, b: TableRecord) {
    if a.relType != b.relType then StrLe(a.relType, b.relType)
    else if a.baseName != b.baseName then StrLe(a.baseName, b.baseName)
    else if a.mapping != b.mapping then StrLe(a.mapping, b.mapping)
    else a.columnPosition <= b.columnPosition
  }

  // ORDER BY source_table, target_table, group_name, position
  predicate TransitionLe(a: Transition, b: Transition) {
    if a.sourceTable != b.sourceTable then StrLe(a.sourceTable, b.sourceTable)
    else if a.targetTable != b.targetTable then StrLe(a.targetTable, b.targetTable)
    else if a.groupName != b.groupName then StrLe(a.groupName, b.groupName)
    else a.position <= b.position
  }

  /** One column of a lexicographic comparison: `x <= y <= z` forces `x <= z`, and equality at the ends forces it throughout. */
  lemma LexColumn(x: string, y: string, z: string)
    requires x == y || StrLe(x, y)
    requires y == z || StrLe(y, z)
    ensures StrLe(x, z)
    ensures x == z ==> x == y && y == z
  {
    StrLeRefl(x);
    StrLeRefl(y);
    if x != y && y != z {
      StrLeTrans(x, y, z);
    }
    if x == z && x != y {
      StrLeAntisym(x, y);
    }
  }

  lemma TableLeTotalPreorder()
    ensures TotalPreorder(TableLe)
  {
    forall a, b ensures TableLe(a, b) || TableLe(b, a) {
      StrLeTotal(a.relType, b.relType);
      StrLeTotal(a.baseName, b.baseName);
      StrLeTotal(a.mapping, b.mapping);
    }
    forall a, b, c | TableLe(a, b) && TableLe(b, c) ensures TableLe(a, c) {
      LexColumn(a.relType, b.relType, c.relType);
      if a.relType == c.relType {
        LexColumn(a.baseName, b.baseName, c.baseName);
        if a.baseName == c.baseName {
          LexColumn(a.mapping, b.mapping, c.mapping);
        }
      }
    }
  }

  lemma TransitionLeTotalPreorder()
    ensures TotalPreorder(TransitionLe)
  {
    forall a, b ensures TransitionLe(a, b) || TransitionLe(b, a) {
      StrLeTotal(a.sourceTable, b.sourceTable);
      StrLeTotal(a.targetTable, b.targetTable);
      StrLeTotal(a.groupName, b.groupName);
    }
    forall a, b, c | TransitionLe(a, b) && TransitionLe(b, c) ensures TransitionLe(a, c) {
      LexColumn(a.sourceTable, b.sourceTable, c.sourceTable);
      if a.sourceTable == c.sourceTable {
        LexColumn(a.targetTable, b.targetTable, c.targetTable);
        if a.targetTable == c.targetTable {
          LexColumn(a.groupName, b.groupName, c.groupName);
        }
      }
    }
  }

  // ---------------------------------------------------------------------------
  // The grouping keys the managers use
  // ---------------------------------------------------------------------------

  function BaseKey(r: TableRecord): string { r.baseName }

  function RelBaseKey(r: TableRecord): string { r.relType + "." + r.baseName }

  function GroupKey(t: Transition): string { t.groupName }

  function TargetGroupKey(t: Transition): string { t.targetTable + "." + t.groupName }

  /** A name usable as the head of a dotted grouping key. */
  predicate DotFree(s: string) { '.' !in s }

  /** A `rel_type.base_name` key determines both halves when rel types carry no dot. */
  lemma RelBaseKeyInjective(a: TableRecord, b: TableRecord)
    requires DotFree(a.relType) && DotFree(b.relType)
    requires RelBaseKey(a) == RelBaseKey(b)
    ensures a.relType == b.relType && a.baseName == b.baseName
  {
    JoinPairInjective(a.relType, a.baseName, b.relType, b.baseName, '.');
  }

  lemma TargetGroupKeyInjective(a: Transition, b: Transition)
    requires DotFree(a.targetTable) && DotFree(b.targetTable)
    requires TargetGroupKey(a) == TargetGroupKey(b)
    ensures a.targetTable == b.targetTable && a.groupName == b.groupName
  {
    JoinPairInjective(a.targetTable, a.groupName, b.targetTable, b.groupName, '.');
  }

  /** Splitting a `target_table.group_name` key on `.` gives the target table first, then the group name. */
  lemma TargetGroupKeyParts(t: Transition)
    requires DotFree(t.targetTable)
    ensures |Split(TargetGroupKey(t), '.')| >= 2
    ensures Split(TargetGroupKey(t), '.')[0] == t.targetTable
    ensures DotFree(t.groupName) ==> Split(TargetGroupKey(t), '.')[1] == t.groupName
  {
    SplitHead(t.targetTable, t.groupName, '.');
    assert TargetGroupKey(t) == t.targetTable + ['.'] + t.groupName;
    if DotFree(t.groupName) {
      SplitNoSep(t.groupName, '.');
    }
  }

  /** Splitting a `rel_type.base_name` key gives the rel type, and the rest joined back is the base name. */
  lemma RelBaseKeyParts(r: TableRecord)
    requires DotFree(r.relType)
    ensures |Split(RelBaseKey(r), '.')| >= 1
    ensures Split(RelBaseKey(r), '.')[0] == r.relType
    ensures Join(".", Split(RelBaseKey(r), '.')[1..]) == r.baseName
  {
    SplitHead(r.relType, r.baseName, '.');
    assert RelBaseKey(r) == r.relType + ['.'] + r.baseName;
    JoinSplit(r.baseName, '.');
    assert Split(RelBaseKey(r), '.')[1..] == Split(r.baseName, '.');
  }

  /**
   * Table metadata in query order is contiguous by `rel_type.base_name`: the
   * ordering is what makes the managers' `groupby` lossless.
   */
  lemma TablesContiguousByRelBase(rs: seq<TableRecord>)
    requires Sorted(rs, TableLe)
    requires forall i :: 0 <= i < |rs| ==> DotFree(rs[i].relType)
    ensures Contiguous(rs, RelBaseKey)
  {
    forall i, j, k | 0 <= i < j < k < |rs| && RelBaseKey(rs[i]) == RelBaseKey(rs[k])
      ensures RelBaseKey(rs[j]) == RelBaseKey(rs[i])
    {
      RelBaseKeyInjective(rs[i], rs[k]);
      assert TableLe(rs[i], rs[j]) && TableLe(rs[j], rs[k]);
      LexColumn(rs[i].relType, rs[j].relType, rs[k].relType);
      LexColumn(rs[i].baseName, rs[j].baseName, rs[k].baseName);
    }
  }

  /** With a single rel type (a query filtered on it), the order is contiguous by `base_name` alone. */
  lemma TablesContiguousByBase(rs: seq<TableRecord>, rel: string)
    requires Sorted(rs, TableLe)
    requires forall i :: 0 <= i < |rs| ==> rs[i].relType == rel
    ensures Contiguous(rs, BaseKey)
  {
    forall i, j, k | 0 <= i < j < k < |rs| && BaseKey(rs[i]) == BaseKey(rs[k])
      ensures BaseKey(rs[j]) == BaseKey(rs[i])
    {
      assert TableLe(rs[i], rs[j]) && TableLe(rs[j], rs[k]);
      LexColumn(rs[i].baseName, rs[j].baseName, rs[k].baseName);
    }
  }

  /**
   * Transitions of one source table in query order are contiguous by
   * `target_table.group_name`, when target tables carry no dot.
   */
  lemma TransitionsContiguousByTargetGroup(ts: seq<Transition>)
    requires Sorted(ts, TransitionLe)
    requires forall i :: 0 <= i < |ts| ==> DotFree(ts[i].targetTable)
    requires forall i, j :: 0 <= i < j < |ts| ==> ts[i].sourceTable == ts[j].sourceTable
    ensures Contiguous(ts, TargetGroupKey)
  {
    forall i, j, k | 0 <= i < j < k < |ts| && TargetGroupKey(ts[i]) == TargetGroupKey(ts[k])
      ensures TargetGroupKey(ts[j]) == TargetGroupKey(ts[i])
    {
      TargetGroupKeyInjective(ts[i], ts[k]);
      assert TransitionLe(ts[i], ts[j]) && TransitionLe(ts[j], ts[k]);
      assert ts[i].sourceTable == ts[j].sourceTable == ts[k].sourceTable;
      LexColumn(ts[i].targetTable, ts[j].targetTable, ts[k].targetTable);
      LexColumn(ts[i].groupName, ts[j].groupName, ts[k].groupName);
    }
  }

  /**
   * Grouping transitions by `group_name` alone (as the hash view does) is
   * contiguous when every group name belongs to a single target table.
   */
  lemma TransitionsContiguousByGroup(ts: seq<Transition>)
    requires Sorted(ts, TransitionLe)
    requires forall i, j :: 0 <= i < j < |ts| ==> ts[i].sourceTable == ts[j].sourceTable
    requires forall i, j :: 0 <= i < |ts| && 0 <= j < |ts| && ts[i].groupName == ts[j].groupName ==>
      ts[i].targetTable == ts[j].targetTable
    ensures Contiguous(ts, GroupKey)
  {
    forall i, j, k | 0 <= i < j < k < |ts| && GroupKey(ts[i]) == GroupKey(ts[k])
      ensures GroupKey(ts[j]) == GroupKey(ts[i])
    {
      assert TransitionLe(ts[i], ts[j]) && TransitionLe(ts[j], ts[k]);
      LexColumn(ts[i].targetTable, ts[j].targetTable, ts[k].targetTable);
      LexColumn(ts[i].groupName, ts[j].groupName, ts[k].groupName);
    }
  }

  // ---------------------------------------------------------------------------
  // What the metadata queries compute
  // ---------------------------------------------------------------------------

  /** The optional equality filters of GET_TABLES. */
  datatype TableFilter = TableFilter(baseName: Option<string>, relType: Option<string>)

  predicate Matches(f: TableFilter, r: TableRecord) {
    (f.baseName.None? || r.baseName == f.baseName.value) && (f.relType.None? || r.relType == f.relType.value)
  }

  function MatchesFn(f: TableFilter): TableRecord -> bool {
    (r: TableRecord) => Matches(f, r)
  }

  function FromSource(sourceTable: string): Transition -> bool {
    (t: Transition) => t.sourceTable == sourceTable
  }

  predicate IngestionMatch(r: RunRow, file: Value, table: Value, status: Value) {
    SqlEq(r.sourceFile, file) && SqlEq(r.sourceTable, table) && SqlEq(r.status, status)
  }

  function IngestionMatchFn(file: Value, table: Value, status: Value): RunRow -> bool {
    (r: RunRow) => IngestionMatch(r, file, table, status)
  }

  /** GET_TABLES: the matching rows, in `ORDER BY rel_type, base_name, mapping, column_position`. */
  function TablesQuery(tables: seq<TableRecord>, f: TableFilter): seq<TableRecord> {
    Sort(Where(tables, MatchesFn(f)), TableLe)
  }

  /** GET_TRANSITIONS: the rows of one source table, in `ORDER BY source_table, target_table, group_name, position`. */
  function TransitionsQuery(transitions: seq<Transition>, sourceTable: string): seq<Transition> {
    Sort(Where(transitions, FromSource(sourceTable)), TransitionLe)
  }

  /** CHECK_INGESTION: the rows whose `source_file`, `source_table` and `status` equal the three parameters. */
  function IngestionRows(runinfo: seq<RunRow>, file: Value, table: Value, status: Value): seq<RunRow> {
    Where(runinfo, IngestionMatchFn(file, table, status))
  }

  /** The integer run ids recorded so far (NULLs are skipped by MAX). */
  function RunIds(runinfo: seq<RunRow>): seq<int>
    decreases |runinfo|
  {
    if runinfo == [] then []
    else (if runinfo[0].runId.VInt? then [runinfo[0].runId.i] else []) + RunIds(runinfo[1..])
  }

  function MaxOf(xs: seq<int>): int
    requires xs != []
    decreases |xs|
  {
    if |xs| == 1 then xs[0]
    else var m := MaxOf(xs[1..]); if xs[0] > m then xs[0] else m
  }

  /** GET_RUN_ID: `COALESCE(MAX(run_id), 0) + 1`. */
  function NextRunId(runinfo: seq<RunRow>): int {
    var ids := RunIds(runinfo);
    if ids == [] then 1 else MaxOf(ids) + 1
  }

  lemma {:induction false} MaxOfIsMax(xs: seq<int>)
    requires xs != []
    ensures MaxOf(xs) in xs
    ensures forall x :: x in xs ==> x <= MaxOf(xs)
    decreases |xs|
  {
    if |xs| > 1 {
      MaxOfIsMax(xs[1..]);
      assert xs == [xs[0]] + xs[1..];
    }
  }

  lemma {:induction false} RunIdsComplete(runinfo: seq<RunRow>)
    ensures forall r :: r in runinfo && r.runId.VInt? ==> r.runId.i in RunIds(runinfo)
    decreases |runinfo|
  {
    if runinfo != [] {
      RunIdsComplete(runinfo[1..]);
      assert forall r :: r in runinfo ==> r == runinfo[0] || r in runinfo[1..];
    }
  }

  /**
   * The next run id is strictly greater than every recorded run id, and is 1
   * when no run id has been recorded.
   */
  lemma NextRunIdFresh(runinfo: seq<RunRow>)
    ensures forall r :: r in runinfo && r.runId.VInt? ==> r.runId.i < NextRunId(runinfo)
    ensures RunIds(runinfo) == [] ==> NextRunId(runinfo) == 1
    ensures RunIds(runinfo) != [] ==> NextRunId(runinfo) - 1 in RunIds(runinfo)
  {
    RunIdsComplete(runinfo);
    if RunIds(runinfo) != [] {
      MaxOfIsMax(RunIds(runinfo));
    }
  }

  /** Ids handed out by the allocation only grow: appending a row with the allocated id moves it forward. */
  lemma NextRunIdAdvances(runinfo: seq<RunRow>, r: RunRow)
    requires r.runId == VInt(NextRunId(runinfo))
    ensures NextRunId(runinfo + [r]) == NextRunId(runinfo) + 1
  {
    RunIdsAppend(runinfo, r);
    var ids := RunIds(runinfo);
    if ids != [] {
      MaxOfIsMax(ids);
      MaxOfIsMax(ids + [NextRunId(runinfo)]);
      var m := MaxOf(ids + [NextRunId(runinfo)]);
      assert m == NextRunId(runinfo) by {
        assert NextRunId(runinfo) in ids + [NextRunId(runinfo)];
      }
    } else {
      assert RunIds(runinfo + [r]) == [1];
    }
  }

  lemma {:induction false} RunIdsAppend(runinfo: seq<RunRow>, r: RunRow)
    ensures RunIds(runinfo + [r]) == RunIds(runinfo) + (if r.runId.VInt? then [r.runId.i] else [])
    decreases |runinfo|
  {
    if runinfo == [] {
      assert [] + [r] == [r];
      assert [r][1..] == [];
    } else {
      RunIdsAppend(runinfo[1..], r);
      assert (runinfo + [r])[1..] == runinfo[1..] + [r];
    }
  }

  /** The query answers whether a matching history row exists, in both directions. */
  lemma IngestionRowsExist(runinfo: seq<RunRow>, file: Value, table: Value, status: Value)
    ensures |IngestionRows(runinfo, file, table, status)| > 0 <==>
      exists i :: 0 <= i < |runinfo| && IngestionMatch(runinfo[i], file, table, status)
  {
    WhereExists(runinfo, IngestionMatchFn(file, table, status));
  }

  lemma {:induction false} WhereExists<T>(s: seq<T>, p: T -> bool)
    ensures |Where(s, p)| > 0 <==> exists i :: 0 <= i < |s| && p(s[i])
    decreases |s|
  {
    if s != [] {
      WhereExists(s[1..], p);
      if !p(s[0]) && exists i :: 0 <= i < |s| && p(s[i]) {
        var i :| 0 <= i < |s| && p(s[i]);
        assert s[1..][i - 1] == s[i];
      }
    }
  }

  /** GET_TABLES returns exactly the matching rows, sorted. */
  lemma TablesQueryCorrect(tables: seq<TableRecord>, f: TableFilter)
    ensures Sorted(TablesQuery(tables, f), TableLe)
    ensures multiset(TablesQuery(tables, f)) == multiset(Where(tables, MatchesFn(f)))
    ensures forall r :: r in TablesQuery(tables, f) ==> Matches(f, r)
  {
    TableLeTotalPreorder();
    SortSorted(Where(tables, MatchesFn(f)), TableLe);
    var w := Where(tables, MatchesFn(f));
    forall r | r in TablesQuery(tables, f) ensures Matches(f, r) {
      assert r in multiset(w);
      var i :| 0 <= i < |w| && w[i] == r;
    }
  }

  /** GET_TRANSITIONS returns exactly the rows of the source table, sorted and contiguous by `target_table.group_name`. */
  lemma TransitionsQueryCorrect(transitions: seq<Transition>, sourceTable: string)
    requires forall t :: t in transitions ==> DotFree(t.targetTable)
    ensures Sorted(TransitionsQuery(transitions, sourceTable), TransitionLe)
    ensures multiset(TransitionsQuery(transitions, sourceTable))
         == multiset(Where(transitions, FromSource(sourceTable)))
    ensures forall t :: t in TransitionsQuery(transitions, sourceTable) ==> t.sourceTable == sourceTable
    ensures Contiguous(TransitionsQuery(transitions, sourceTable), TargetGroupKey)
  {
    TransitionLeTotalPreorder();
    var w := Where(transitions, FromSource(sourceTable));
    SortSorted(w, TransitionLe);
    var q := TransitionsQuery(transitions, sourceTable);
    forall t | t in q ensures t.sourceTable == sourceTable && DotFree(t.targetTable) {
      assert t in multiset(w);
      var i :| 0 <= i < |w| && w[i] == t;
      assert t in multiset(transitions);
    }
    TransitionsContiguousByTargetGroup(q);
  }

  /** Every key of a grouping by `target_table.group_name` holds a `.`, so it splits into two parts at least. */
  lemma TargetGroupsDotted(rs: seq<Transition>)
    ensures forall i :: 0 <= i < |GroupBy(rs, TargetGroupKey)| ==> |Split(GroupBy(rs, TargetGroupKey)[i].key, '.')| >= 2
  {
    var gs := GroupBy(rs, TargetGroupKey);
    GroupByGeneral(rs, TargetGroupKey);
    forall i | 0 <= i < |gs| ensures |Split(gs[i].key, '.')| >= 2 {
      var k := gs[i].key;
      assert k == Keys(gs)[i];
      assert k in Keys(gs);
      var kl := KeyList(rs, TargetGroupKey);
      assert k in kl;
      var j :| 0 <= j < |kl| && kl[j] == k;
      var t := rs[j];
      assert k == t.targetTable + "." + t.groupName;
      assert k[|t.targetTable|] == '.';
      SplitHasTwo(k, '.');
    }
  }
}
