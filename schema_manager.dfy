/**
 * The schema manager: the five schemas of the vault, one staging table per
 * base name of the staging metadata, and the user scripts named by the
 * metadata. Reading a script file is a parameter of the model.
 */
module SchemaManager {
  import opened Common
  import opened Ordering
  import opened Grouping
  import opened Metadata
  import opened Statements
  import opened Engine

  // ---------------------------------------------------------------------------
  // create_schemas
  // ---------------------------------------------------------------------------

  const SchemaList: seq<string> := ["stg", "dv", "bv", "dm", "metadata"]

  function CreateSchemaFn(): string -> Stmt { (s: string) => CreateSchema(s) }

  function CreateSchemasPlan(): seq<Action> { ExecEach(SchemaList, CreateSchemaFn()) }

  /** `create_schemas`: one `CREATE SCHEMA IF NOT EXISTS` per schema of the list, every error collected. */
  method CreateSchemas(db: Database) returns (errors: seq<ErrorEntry>)
    modifies db
    ensures (db.State(), errors) == Run(db.oracle, old(db.State()), CreateSchemasPlan(), Refactored)
  {
    ghost var st0 := db.State();
    errors := [];
    for i := 0 to |SchemaList|
      invariant (db.State(), errors) == Run(db.oracle, st0, ExecEach(SchemaList[..i], CreateSchemaFn()), Refactored)
    {
      var e := db.Perform(Exec(CreateSchema(SchemaList[i])), Refactored);
      RunSnoc(db.oracle, st0, ExecEach(SchemaList[..i], CreateSchemaFn()), Exec(CreateSchema(SchemaList[i])), Refactored);
      ExecEachPrefix(SchemaList, CreateSchemaFn(), i);
      errors := errors + e;
    }
    assert SchemaList[..|SchemaList|] == SchemaList;
  }

  /** Any schema list: its statements are submitted in list order and nothing else changes. */
  lemma SchemasEffect(oracle: Oracle, st: DbState, schemas: seq<string>)
    ensures var r := Run(oracle, st, ExecEach(schemas, CreateSchemaFn()), Refactored);
      && r.0.tables == st.tables && r.0.transitions == st.transitions && r.0.runinfo == st.runinfo
      && |r.0.log| == |st.log| + |schemas| && r.0.log[..|st.log|] == st.log
      && (forall i :: 0 <= i < |schemas| ==> r.0.log[|st.log| + i] == CreateSchema(schemas[i]))
      && |r.1| <= |schemas|
  {
    var plan := ExecEach(schemas, CreateSchemaFn());
    assert NoRunInfoWrite(plan);
    RunEffect(oracle, st, plan, Refactored);
    ExecutedExecEach(schemas, CreateSchemaFn());
  }

  /**
   * Creating the schemas submits one `CREATE SCHEMA` per schema of the list, in
   * list order, touches no metadata, and reports at most one error per schema.
   */
  lemma CreateSchemasEffect(oracle: Oracle, st: DbState)
    ensures var r := Run(oracle, st, CreateSchemasPlan(), Refactored);
      && r.0.tables == st.tables && r.0.transitions == st.transitions && r.0.runinfo == st.runinfo
      && |r.0.log| == |st.log| + 5 && r.0.log[..|st.log|] == st.log
      && r.0.log[|st.log|..] == [CreateSchema("stg"), CreateSchema("dv"), CreateSchema("bv"),
                                 CreateSchema("dm"), CreateSchema("metadata")]
      && |r.1| <= 5
  {
    SchemasEffect(oracle, st, SchemaList);
    var log := Run(oracle, st, CreateSchemasPlan(), Refactored).0.log;
    var tail := log[|st.log|..];
    forall i | 0 <= i < 5 ensures tail[i] == CreateSchema(SchemaList[i]) {
      assert tail[i] == log[|st.log| + i];
    }
    SchemaListStatements(tail);
  }

  /** Statements that follow the schema list one by one are its five `CREATE SCHEMA`s. */
  lemma SchemaListStatements(tail: seq<Stmt>)
    requires |tail| == |SchemaList| && forall i :: 0 <= i < |SchemaList| ==> tail[i] == CreateSchema(SchemaList[i])
    ensures tail == [CreateSchema("stg"), CreateSchema("dv"), CreateSchema("bv"), CreateSchema("dm"), CreateSchema("metadata")]
  {
    assert tail[0] == CreateSchema("stg") && tail[1] == CreateSchema("dv") && tail[2] == CreateSchema("bv");
    assert tail[3] == CreateSchema("dm") && tail[4] == CreateSchema("metadata");
  }

  // ---------------------------------------------------------------------------
  // create_staging_table_from_metadata
  // ---------------------------------------------------------------------------

  /** A staging column comes from a record with mapping `c`. */
  predicate IsStagingColumn(r: TableRecord) { r.mapping == "c" }

  function IsStagingColumnFn(): TableRecord -> bool { (r: TableRecord) => IsStagingColumn(r) }

  /** `<name> <type>`, the name double-quoted when it holds a space. */
  function StagingColumn(r: TableRecord): string {
    Quoted(r.columnName, "") + " " + r.columnType
  }

  function StagingColumnsOf(cols: seq<TableRecord>): (r: seq<string>)
    ensures |r| == |cols|
    ensures forall i :: 0 <= i < |cols| ==> r[i] == StagingColumn(cols[i])
    decreases |cols|
  {
    if cols == [] then [] else StagingColumnsOf(cols[..|cols| - 1]) + [StagingColumn(cols[|cols| - 1])]
  }

  /** The column list of one staging table: its `c` records, in record order. */
  function StagingColumns(records: seq<TableRecord>): seq<string> {
    StagingColumnsOf(Where(records, IsStagingColumnFn()))
  }

  predicate HasColumns(g: Group<TableRecord>) { StagingColumns(g.members) != [] }

  function HasColumnsFn(): Group<TableRecord> -> bool { (g: Group<TableRecord>) => HasColumns(g) }

  function StagingStmt(g: Group<TableRecord>): Stmt { CreateStagingTable(g.key, StagingColumns(g.members)) }

  function StagingStmtFn(): Group<TableRecord> -> Stmt { (g: Group<TableRecord>) => StagingStmt(g) }

  /** One `CREATE TABLE` per group that has a column; a group without one is skipped. */
  function StagingPlan(groups: seq<Group<TableRecord>>): seq<Action> {
    ExecEach(Where(groups, HasColumnsFn()), StagingStmtFn())
  }

  /** `create_staging_table_from_metadata(records)`: the records grouped by base name in first-seen order. */
  function CreateStagingRun(oracle: Oracle, st: DbState, records: seq<TableRecord>): (DbState, seq<ErrorEntry>) {
    Run(oracle, st, StagingPlan(FirstSeen(records, BaseKey)), Refactored)
  }

  /** One more record adds its column exactly when its mapping is `c`. */
  lemma StagingColumnsPrefix(records: seq<TableRecord>, i: nat)
    requires i < |records|
    ensures StagingColumns(records[..i + 1])
         == StagingColumns(records[..i]) + (if IsStagingColumn(records[i]) then [StagingColumn(records[i])] else [])
  {
    assert records[..i + 1] == records[..i] + [records[i]];
    WhereSnoc(records[..i], records[i], IsStagingColumnFn());
    var w := Where(records[..i], IsStagingColumnFn());
    if IsStagingColumn(records[i]) {
      assert (w + [records[i]])[..|w|] == w;
    } else {
      assert StagingColumns(records[..i]) + [] == StagingColumns(records[..i]);
    }
  }

  /** The loop that builds `columns`. */
  method BuildStagingColumns(records: seq<TableRecord>) returns (columns: seq<string>)
    ensures columns == StagingColumns(records)
  {
    columns := [];
    for i := 0 to |records|
      invariant columns == StagingColumns(records[..i])
    {
      StagingColumnsPrefix(records, i);
      if records[i].mapping == "c" {
        columns := columns + [StagingColumn(records[i])];
      }
    }
    assert records[..|records|] == records;
  }

  lemma StagingPlanStep(groups: seq<Group<TableRecord>>, i: nat)
    requires i < |groups|
    ensures StagingPlan(groups[..i + 1])
         == StagingPlan(groups[..i]) + (if HasColumns(groups[i]) then [Exec(StagingStmt(groups[i]))] else [])
  {
    assert groups[..i + 1] == groups[..i] + [groups[i]];
    ExecEachWhereSnoc(groups[..i], groups[i], HasColumnsFn(), StagingStmtFn());
  }

  method CreateStagingTableFromMetadata(db: Database, metadataRecords: seq<TableRecord>) returns (errors: seq<ErrorEntry>)
    modifies db
    ensures (db.State(), errors) == CreateStagingRun(db.oracle, old(db.State()), metadataRecords)
  {
    var groups := GroupFirstSeen(metadataRecords, BaseKey);
    ghost var st0 := db.State();
    errors := [];
    for i := 0 to |groups|
      invariant (db.State(), errors) == Run(db.oracle, st0, StagingPlan(groups[..i]), Refactored)
    {
      var columns := BuildStagingColumns(groups[i].members);
      StagingPlanStep(groups, i);
      if columns != [] {
        var e := db.Perform(Exec(CreateStagingTable(groups[i].key, columns)), Refactored);
        RunSnoc(db.oracle, st0, StagingPlan(groups[..i]), Exec(StagingStmt(groups[i])), Refactored);
        errors := errors + e;
      } else {
        assert StagingPlan(groups[..i]) + [] == StagingPlan(groups[..i]);
      }
    }
    assert groups[..|groups|] == groups;
  }

  /** A staging column is named after its record and double-quoted iff the name holds a space. */
  lemma StagingColumnNaming(r: TableRecord)
    ensures StagingColumn(r) == QuoteIfSpace(r.columnName) + " " + r.columnType
  {
    QuotedIsQuoteIfSpace(r.columnName, "");
    assert r.columnName + "" == r.columnName;
  }

  /** The columns of one record list are, in order, those of its `c` records. */
  lemma StagingColumnsOrder(records: seq<TableRecord>, r: TableRecord)
    requires r in records && r.mapping == "c"
    ensures StagingColumn(r) in StagingColumns(records)
    ensures forall c :: c in StagingColumns(records) ==>
              exists x :: x in records && x.mapping == "c" && c == StagingColumn(x)
  {
    var j :| 0 <= j < |records| && records[j] == r;
    WhereKeeps(records, IsStagingColumnFn(), j);
    var w := Where(records, IsStagingColumnFn());
    var k :| 0 <= k < |w| && w[k] == r;
    assert StagingColumns(records)[k] == StagingColumn(r);
    forall c | c in StagingColumns(records) ensures exists x :: x in records && x.mapping == "c" && c == StagingColumn(x) {
      var m :| 0 <= m < |w| && StagingColumns(records)[m] == c;
      assert w[m] in multiset(records) by { assert w[m] in multiset(w); }
      assert IsStagingColumnFn()(w[m]);
    }
  }

  /**
   * Every staging table the build creates is named after a base name of the
   * records and has the columns of all `c` records of that base name, in
   * record order.
   */
  lemma StagingPlanSound(records: seq<TableRecord>, i: nat)
    requires i < |StagingPlan(FirstSeen(records, BaseKey))|
    ensures var a := StagingPlan(FirstSeen(records, BaseKey))[i];
      && a.Exec? && a.stmt.CreateStagingTable?
      && a.stmt.columns == StagingColumns(Filter(records, BaseKey, a.stmt.baseName))
      && a.stmt.columns != []
      && (exists r :: r in records && r.baseName == a.stmt.baseName)
  {
    var gs := FirstSeen(records, BaseKey);
    FirstSeenIsGrouping(records, BaseKey);
    GroupingWhereAt(gs, records, BaseKey, HasColumnsFn(), i);
    var g := Where(gs, HasColumnsFn())[i];
    assert HasColumnsFn()(g);
    var kl := KeyList(records, BaseKey);
    var j :| 0 <= j < |kl| && kl[j] == g.key;
    assert records[j] in records && records[j].baseName == g.key;
  }

  /** Every base name with at least one `c` record gets its staging table. */
  lemma StagingPlanComplete(records: seq<TableRecord>, r: TableRecord)
    requires r in records && r.mapping == "c"
    ensures exists i :: 0 <= i < |StagingPlan(FirstSeen(records, BaseKey))|
              && StagingPlan(FirstSeen(records, BaseKey))[i]
                 == Exec(CreateStagingTable(r.baseName, StagingColumns(Filter(records, BaseKey, r.baseName))))
  {
    var gs := FirstSeen(records, BaseKey);
    var g := Group(r.baseName, Filter(records, BaseKey, r.baseName));
    FirstSeenIsGrouping(records, BaseKey);
    FilterHas(records, BaseKey, r);
    StagingColumnsOrder(g.members, r);
    assert HasColumnsFn()(g);
    GroupingWhereHas(gs, records, BaseKey, HasColumnsFn(), r);
    var i :| 0 <= i < |Where(gs, HasColumnsFn())| && Where(gs, HasColumnsFn())[i] == g;
    assert StagingPlan(gs)[i] == Exec(StagingStmt(g));
  }

  /** No staging table is created twice. */
  lemma StagingPlanDistinct(records: seq<TableRecord>, i: nat, j: nat)
    requires i < j < |StagingPlan(FirstSeen(records, BaseKey))|
    ensures StagingPlan(FirstSeen(records, BaseKey))[i].stmt.baseName
         != StagingPlan(FirstSeen(records, BaseKey))[j].stmt.baseName
  {
    FirstSeenIsGrouping(records, BaseKey);
    PlanDistinct(FirstSeen(records, BaseKey), i, j);
  }

  lemma PlanDistinct(gs: seq<Group<TableRecord>>, i: nat, j: nat)
    requires DistinctKeys(gs) && i < j < |StagingPlan(gs)|
    ensures StagingPlan(gs)[i].stmt.baseName != StagingPlan(gs)[j].stmt.baseName
  {
    WhereDistinctKeys(gs, HasColumnsFn(), i, j);
    var w := Where(gs, HasColumnsFn());
    assert StagingPlan(gs)[i] == Exec(StagingStmt(w[i])) && StagingPlan(gs)[j] == Exec(StagingStmt(w[j]));
  }

  /** The build reports at most one error per staging table and touches no metadata. */
  lemma CreateStagingBound(oracle: Oracle, st: DbState, records: seq<TableRecord>)
    ensures CreateStagingRun(oracle, st, records).0.runinfo == st.runinfo
    ensures CreateStagingRun(oracle, st, records).0.tables == st.tables
    ensures |CreateStagingRun(oracle, st, records).1| <= |StagingPlan(FirstSeen(records, BaseKey))|
  {
    var plan := StagingPlan(FirstSeen(records, BaseKey));
    assert NoRunInfoWrite(plan);
    RunEffect(oracle, st, plan, Refactored);
  }

  // ---------------------------------------------------------------------------
  // apply_script_from_metadata
  // ---------------------------------------------------------------------------

  /** Reading a file: its text, or the exception `open` or `read` raises. */
  type FileReader = string -> Result<string, Exn>

  /** `posixpath.join(a, b)`: an absolute `b` replaces `a`; otherwise a `/` is put between them unless `a` ends with one. */
  function PathJoin(a: string, b: string): string {
    if StartsWith(b, "/") then b
    else if a == "" || a[|a| - 1] == '/' then a + b
    else a + "/" + b
  }

  /** `os.path.join(scripts_path, column_name, base_name + ".sql")`. */
  function ScriptPath(scriptsPath: string, r: TableRecord): string {
    PathJoin(PathJoin(scriptsPath, r.columnName), r.baseName + ".sql")
  }

  /** One record: read its script and run it, or report the path with `str` of the read error. */
  function ScriptStep(oracle: Oracle, st: DbState, scriptsPath: string, read: FileReader, r: TableRecord)
    : (DbState, seq<ErrorEntry>)
  {
    var path := ScriptPath(scriptsPath, r);
    match read(path)
    case Err(e) => (st, [ErrorEntry(Label(path), Str(e))])
    case Ok(text) => Step(oracle, st, Exec(Script(text)), Refactored)
  }

  /** The records in order, each against the state the previous ones left. */
  function ScriptsRun(oracle: Oracle, st: DbState, scriptsPath: string, read: FileReader, recs: seq<TableRecord>)
    : (DbState, seq<ErrorEntry>)
    decreases |recs|
  {
    if recs == [] then (st, [])
    else
      var prev := ScriptsRun(oracle, st, scriptsPath, read, recs[..|recs| - 1]);
      var last := ScriptStep(oracle, prev.0, scriptsPath, read, recs[|recs| - 1]);
      (last.0, prev.1 + last.1)
  }

  function RelTypeIs(relType: string): TableRecord -> bool { (r: TableRecord) => r.relType == relType }

  /** The order scripts are applied in: the records of the type, grouped by base name in first-seen order. */
  function ScriptOrder(relType: string, records: seq<TableRecord>): seq<TableRecord> {
    Flatten(FirstSeen(Where(records, RelTypeIs(relType)), BaseKey))
  }

  function ApplyScriptsRun(oracle: Oracle, st: DbState, relType: string, scriptsPath: string, read: FileReader,
                           records: seq<TableRecord>): (DbState, seq<ErrorEntry>) {
    ScriptsRun(oracle, st, scriptsPath, read, ScriptOrder(relType, records))
  }

  lemma ScriptsRunSnoc(oracle: Oracle, st: DbState, scriptsPath: string, read: FileReader, recs: seq<TableRecord>, r: TableRecord)
    ensures ScriptsRun(oracle, st, scriptsPath, read, recs + [r])
         == (ScriptStep(oracle, ScriptsRun(oracle, st, scriptsPath, read, recs).0, scriptsPath, read, r).0,
             ScriptsRun(oracle, st, scriptsPath, read, recs).1
               + ScriptStep(oracle, ScriptsRun(oracle, st, scriptsPath, read, recs).0, scriptsPath, read, r).1)
  {
    assert (recs + [r])[..|recs|] == recs;
  }

  /** Running two record lists one after the other runs their concatenation. */
  lemma {:induction false} ScriptsRunConcat(oracle: Oracle, st: DbState, scriptsPath: string, read: FileReader,
                                            p: seq<TableRecord>, q: seq<TableRecord>)
    ensures ScriptsRun(oracle, st, scriptsPath, read, p + q)
         == (ScriptsRun(oracle, ScriptsRun(oracle, st, scriptsPath, read, p).0, scriptsPath, read, q).0,
             ScriptsRun(oracle, st, scriptsPath, read, p).1
               + ScriptsRun(oracle, ScriptsRun(oracle, st, scriptsPath, read, p).0, scriptsPath, read, q).1)
    decreases |q|
  {
    var a := ScriptsRun(oracle, st, scriptsPath, read, p);
    if q == [] {
      assert p + q == p;
      assert a.1 + [] == a.1;
    } else {
      var q', last := q[..|q| - 1], q[|q| - 1];
      ConcatSnoc(p, q);
      ScriptsRunConcat(oracle, st, scriptsPath, read, p, q');
      var r' := ScriptsRun(oracle, a.0, scriptsPath, read, q');
      var s := ScriptStep(oracle, r'.0, scriptsPath, read, last);
      ScriptsRunSnoc(oracle, st, scriptsPath, read, p + q', last);
      ScriptsRunSnoc(oracle, a.0, scriptsPath, read, q', last);
      ConcatAssoc(a.1, r'.1, s.1);
    }
  }

  /** One script: read the file, then run it, or report the path with `str` of the read error. */
  method ApplyScript(db: Database, scriptsPath: string, read: FileReader, baseName: string, r: TableRecord)
    returns (errors: seq<ErrorEntry>)
    requires r.baseName == baseName
    modifies db
    ensures (db.State(), errors) == ScriptStep(db.oracle, old(db.State()), scriptsPath, read, r)
  {
    var scriptPath := PathJoin(PathJoin(scriptsPath, r.columnName), baseName + ".sql");
    var contents := read(scriptPath);
    match contents {
      case Err(ex) =>
        errors := [ErrorEntry(Label(scriptPath), Str(ex))];
      case Ok(script) =>
        errors := db.Perform(Exec(Script(script)), Refactored);
    }
  }

  lemma ScriptsRunPrefix(oracle: Oracle, st: DbState, scriptsPath: string, read: FileReader, recs: seq<TableRecord>, j: nat)
    requires j < |recs|
    ensures var prev := ScriptsRun(oracle, st, scriptsPath, read, recs[..j]);
            var last := ScriptStep(oracle, prev.0, scriptsPath, read, recs[j]);
            ScriptsRun(oracle, st, scriptsPath, read, recs[..j + 1]) == (last.0, prev.1 + last.1)
  {
    assert recs[..j + 1][..j] == recs[..j];
  }

  /** The inner loop: the scripts of one base name's records, in record order. */
  method ApplyGroupScripts(db: Database, scriptsPath: string, read: FileReader, baseName: string,
                           records: seq<TableRecord>) returns (errors: seq<ErrorEntry>)
    requires forall j :: 0 <= j < |records| ==> records[j].baseName == baseName
    modifies db
    ensures (db.State(), errors) == ScriptsRun(db.oracle, old(db.State()), scriptsPath, read, records)
  {
    ghost var st0 := db.State();
    errors := [];
    for j := 0 to |records|
      invariant (db.State(), errors) == ScriptsRun(db.oracle, st0, scriptsPath, read, records[..j])
    {
      var e := ApplyScript(db, scriptsPath, read, baseName, records[j]);
      ScriptsRunPrefix(db.oracle, st0, scriptsPath, read, records, j);
      errors := errors + e;
    }
    assert records[..|records|] == records;
  }

  method ApplyScriptFromMetadata(db: Database, relType: string, scriptsPath: string, read: FileReader,
                                 metadataRecords: seq<TableRecord>) returns (errors: seq<ErrorEntry>)
    modifies db
    ensures (db.State(), errors) == ApplyScriptsRun(db.oracle, old(db.State()), relType, scriptsPath, read, metadataRecords)
  {
    var filteredRecords := Where(metadataRecords, RelTypeIs(relType));
    var groups := GroupFirstSeen(filteredRecords, BaseKey);
    forall i | 0 <= i < |groups|
      ensures forall j :: 0 <= j < |groups[i].members| ==> groups[i].members[j].baseName == groups[i].key
    {
      FilterKeys(filteredRecords, BaseKey, groups[i].key);
    }
    errors := ApplyGroups(db, scriptsPath, read, groups);
  }

  /** The outer loop: each base name's scripts in turn, in first-seen order. */
  method ApplyGroups(db: Database, scriptsPath: string, read: FileReader, groups: seq<Group<TableRecord>>)
    returns (errors: seq<ErrorEntry>)
    requires forall i, j :: 0 <= i < |groups| && 0 <= j < |groups[i].members| ==> groups[i].members[j].baseName == groups[i].key
    modifies db
    ensures (db.State(), errors) == ScriptsRun(db.oracle, old(db.State()), scriptsPath, read, Flatten(groups))
  {
    ghost var st0 := db.State();
    errors := [];
    for i := 0 to |groups|
      invariant (db.State(), errors) == ScriptsRun(db.oracle, st0, scriptsPath, read, Flatten(groups[..i]))
    {
      ghost var before := Flatten(groups[..i]);
      var e := ApplyGroupScripts(db, scriptsPath, read, groups[i].key, groups[i].members);
      ScriptsRunConcat(db.oracle, st0, scriptsPath, read, before, groups[i].members);
      errors := errors + e;
      FlattenPrefix(groups, i);
    }
    assert groups[..|groups|] == groups;
  }

  /** Every record of the requested type gets exactly one script attempt, and no other record does. */
  lemma ScriptOrderPermutes(relType: string, records: seq<TableRecord>)
    ensures multiset(ScriptOrder(relType, records)) == multiset(Where(records, RelTypeIs(relType)))
    ensures forall r :: r in ScriptOrder(relType, records) ==> r in records && r.relType == relType
  {
    var filtered := Where(records, RelTypeIs(relType));
    FirstSeenPermutes(filtered, BaseKey);
    forall r | r in ScriptOrder(relType, records) ensures r in records && r.relType == relType {
      assert r in multiset(filtered);
      var k :| 0 <= k < |filtered| && filtered[k] == r;
      assert RelTypeIs(relType)(filtered[k]);
      assert r in multiset(records) by { assert r in multiset(filtered); }
    }
  }

  /** Plain names are joined with one `/` between them. */
  lemma ScriptPathPlain(scriptsPath: string, r: TableRecord)
    requires scriptsPath != "" && scriptsPath[|scriptsPath| - 1] != '/'
    requires r.columnName != "" && r.columnName[0] != '/' && r.columnName[|r.columnName| - 1] != '/'
    requires r.baseName == "" || r.baseName[0] != '/'
    ensures ScriptPath(scriptsPath, r) == scriptsPath + "/" + r.columnName + "/" + r.baseName + ".sql"
  {
    var a := scriptsPath + "/" + r.columnName;
    assert !StartsWith(r.columnName, "/") by { assert r.columnName[..1][0] == r.columnName[0]; }
    assert PathJoin(scriptsPath, r.columnName) == a;
    assert a[|a| - 1] == r.columnName[|r.columnName| - 1];
    var b := r.baseName + ".sql";
    assert !StartsWith(b, "/") by { assert b[..1][0] == b[0]; }
  }

  /** An absolute column name discards the scripts directory. */
  lemma ScriptPathAbsolute(scriptsPath: string, r: TableRecord)
    requires StartsWith(r.columnName, "/")
    requires r.baseName == "" || r.baseName[0] != '/'
    ensures ScriptPath(scriptsPath, r) == r.columnName + "/" + r.baseName + ".sql"
            || ScriptPath(scriptsPath, r) == r.columnName + r.baseName + ".sql"
  {
    var b := r.baseName + ".sql";
    assert !StartsWith(b, "/") by { assert b[..1][0] == b[0]; }
  }

  /** The texts of the scripts that could be read, in the order they are run. */
  function ScriptsRead(scriptsPath: string, read: FileReader, recs: seq<TableRecord>): (r: seq<Stmt>)
    ensures |r| <= |recs|
    decreases |recs|
  {
    if recs == [] then []
    else
      var last := read(ScriptPath(scriptsPath, recs[|recs| - 1]));
      ScriptsRead(scriptsPath, read, recs[..|recs| - 1]) + (if last.Ok? then [Script(last.value)] else [])
  }

  /** One record's script: submitted when it could be read, otherwise its path is reported. */
  lemma ScriptStepEffect(oracle: Oracle, st: DbState, scriptsPath: string, read: FileReader, r: TableRecord)
    ensures var step := ScriptStep(oracle, st, scriptsPath, read, r);
      var res := read(ScriptPath(scriptsPath, r));
      && step.0 == st.(log := st.log + (if res.Ok? then [Script(res.value)] else []))
      && |step.1| <= 1
      && forall e :: e in step.1 ==>
           (e.origin.Label? && e.origin.text == ScriptPath(scriptsPath, r) && read(e.origin.text).Err?)
           || (e.origin.Statement? && e.origin.stmt.Script?)
  {
  }

  /**
   * Applying scripts submits exactly the scripts that could be read, in
   * order, touches no metadata, and reports at most one error per record.
   */
  lemma {:induction false} ScriptsEffect(oracle: Oracle, st: DbState, scriptsPath: string, read: FileReader,
                                         recs: seq<TableRecord>)
    ensures ScriptsRun(oracle, st, scriptsPath, read, recs).0 == st.(log := st.log + ScriptsRead(scriptsPath, read, recs))
    ensures |ScriptsRun(oracle, st, scriptsPath, read, recs).1| <= |recs|
    decreases |recs|
  {
    if recs != [] {
      var init, last := recs[..|recs| - 1], recs[|recs| - 1];
      ScriptsEffect(oracle, st, scriptsPath, read, init);
      var prev := ScriptsRun(oracle, st, scriptsPath, read, init);
      ScriptStepEffect(oracle, prev.0, scriptsPath, read, last);
      var res := read(ScriptPath(scriptsPath, last));
      var tail := if res.Ok? then [Script(res.value)] else [];
      assert ScriptsRead(scriptsPath, read, recs) == ScriptsRead(scriptsPath, read, init) + tail;
      assert st.log + ScriptsRead(scriptsPath, read, init) + tail == st.log + ScriptsRead(scriptsPath, read, recs);
    }
  }

  /** Every error of applying scripts names an unreadable file of one of the records, or a failing script. */
  lemma {:induction false} ScriptsErrorsNamed(oracle: Oracle, st: DbState, scriptsPath: string, read: FileReader,
                                              recs: seq<TableRecord>)
    ensures forall e :: e in ScriptsRun(oracle, st, scriptsPath, read, recs).1 ==>
              (e.origin.Label? && (exists r :: r in recs && e.origin.text == ScriptPath(scriptsPath, r))
                 && read(e.origin.text).Err?)
              || (e.origin.Statement? && e.origin.stmt.Script?)
    decreases |recs|
  {
    if recs != [] {
      var init, last := recs[..|recs| - 1], recs[|recs| - 1];
      ScriptsErrorsNamed(oracle, st, scriptsPath, read, init);
      var prev := ScriptsRun(oracle, st, scriptsPath, read, init);
      ScriptStepEffect(oracle, prev.0, scriptsPath, read, last);
      assert forall r :: r in init ==> r in recs;
      assert last in recs;
    }
  }
}
