/**
 * Loading a file into its staging table: truncate the table, fetch its
 * staging columns, then insert the file's rows. The column list and file
 * reader of the insert are not part of the model; the statement carries the
 * table and the file path.
 */
module EtlService {
  import opened Common
  import opened Statements
  import opened Engine
  import opened MetadataManager

  /** What `load_file_to_staging` does to the engine and returns. */
  function StagingLoadRun(oracle: Oracle, st: DbState, sourceTable: string, filePath: string)
    : (DbState, seq<ErrorEntry>)
  {
    var t := Step(oracle, st, Exec(StageTruncate(sourceTable)), Refactored);
    if t.1 != [] then t
    else
      var q := StageFields(sourceTable);
      var st2 := Submit(oracle, t.0, q);
      if Failure(oracle, t.0, q).Some? then (st2, [ErrorEntry(Statement(q), Str(FetchError(Failure(oracle, t.0, q).value)))])
      else Step(oracle, st2, Exec(StageLoad(sourceTable, filePath)), Refactored)
  }

  method LoadFileToStaging(db: Database, sourceTable: string, filePath: string) returns (errors: seq<ErrorEntry>)
    modifies db
    ensures (db.State(), errors) == StagingLoadRun(db.oracle, old(db.State()), sourceTable, filePath)
  {
    errors := [];
    var e := db.Perform(Exec(StageTruncate(sourceTable)), Refactored);
    if e != [] {
      assert [] + e == e;
      errors := errors + e;
      return;
    }
    ghost var st1 := db.State();
    var stgFieldsStatement := StageFields(sourceTable);
    var failure := db.Execute(stgFieldsStatement);
    assert db.State() == Submit(db.oracle, st1, stgFieldsStatement);
    if failure.Some? {
      errors := errors + [ErrorEntry(Statement(stgFieldsStatement), Str(FetchError(failure.value)))];
      assert st1 == Step(db.oracle, old(db.State()), Exec(StageTruncate(sourceTable)), Refactored).0;
      assert failure == Failure(db.oracle, st1, stgFieldsStatement);
      assert errors == [ErrorEntry(Statement(stgFieldsStatement), Str(FetchError(failure.value)))];
      return;
    }
    e := db.Perform(Exec(StageLoad(sourceTable, filePath)), Refactored);
    assert [] + e == e;
    errors := errors + e;
  }

  /**
   * A truncate failure stops the load with that one error; otherwise the load
   * reports at most one error. Nothing but the log changes.
   */
  lemma StagingLoadEffect(oracle: Oracle, st: DbState, sourceTable: string, filePath: string)
    ensures var r := StagingLoadRun(oracle, st, sourceTable, filePath);
      && |r.1| <= 1
      && r.0.runinfo == st.runinfo && r.0.tables == st.tables && r.0.transitions == st.transitions
      && |r.0.log| >= |st.log| + 1 && r.0.log[..|st.log| + 1] == st.log + [StageTruncate(sourceTable)]
      && (Failure(oracle, st, StageTruncate(sourceTable)).Some? ==>
            r.0.log == st.log + [StageTruncate(sourceTable)] && r.1 == [ErrorEntry(Statement(StageTruncate(sourceTable)),
                                                                 Str(Failure(oracle, st, StageTruncate(sourceTable)).value))])
      && (Failure(oracle, st, StageTruncate(sourceTable)).None? && r.1 == [] ==>
            r.0.log == st.log + [StageTruncate(sourceTable), StageFields(sourceTable), StageLoad(sourceTable, filePath)])
  {
    var t := Step(oracle, st, Exec(StageTruncate(sourceTable)), Refactored);
    assert t.0.log[..|st.log| + 1] == st.log + [StageTruncate(sourceTable)];
    if t.1 == [] {
      var st2 := Submit(oracle, t.0, StageFields(sourceTable));
      assert st2.log[..|st.log| + 1] == st.log + [StageTruncate(sourceTable)] by {
        assert st2.log == t.0.log + [StageFields(sourceTable)];
      }
      var l := Step(oracle, st2, Exec(StageLoad(sourceTable, filePath)), Refactored);
      assert l.0.log[..|st.log| + 1] == st.log + [StageTruncate(sourceTable)] by {
        assert l.0.log == st2.log + [StageLoad(sourceTable, filePath)];
      }
    }
  }
}
