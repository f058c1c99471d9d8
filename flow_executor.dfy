/**
 * The flow executor: one ingestion run of a staging table. It skips a file
 * that was already loaded, allocates a run id, records the start of the run,
 * runs the stages (staging load, hash view, hubs, links, satellites) and
 * records how the run ended. The clock readings of the run are parameters.
 */
module FlowExecutor {
  import opened Common
  import opened Metadata
  import opened Statements
  import opened Engine
  import opened MetadataManager
  import opened EtlService
  import opened HashGenerator
  import opened HubManager
  import opened LinkManager
  import opened SatelliteManager

  /** The arguments of `execute_flow`. */
  datatype FlowArgs = FlowArgs(
    sourceTable: string,
    recordSource: string,
    filePath: Option<string>,
    loadDateOverwrite: Option<string>,
    forceLoad: bool)

  /** The clock readings of one run: the two run-info writes and the load date of each load stage. */
  datatype Clock = Clock(start: string, hubs: string, links: string, sats: string, end: string)

  // ---------------------------------------------------------------------------
  // _register_run_end
  // ---------------------------------------------------------------------------

  /** The end-of-run summary before truncation: the count, the first message and the number of others. */
  function Summary(errors: seq<ErrorEntry>): string {
    if errors == [] then ""
    else
      NatToString(|errors|) + " errors occurred" + (": " + errors[0].message)
        + (if |errors| > 1 then " and " + NatToString(|errors| - 1) + " more" else "")
  }

  /** The message of the terminal run record: the summary cut to 4095 characters. */
  function RunEndMessage(errors: seq<ErrorEntry>): string {
    Take(Summary(errors), 4095)
  }

  /** The message built the way `_register_run_end` builds it, by appending to it. */
  method BuildRunEndMessage(errors: seq<ErrorEntry>) returns (message: string)
    ensures message == RunEndMessage(errors)
  {
    message := "";
    if errors != [] {
      message := NatToString(|errors|) + " errors occurred";
      if |errors| > 0 {
        message := message + (": " + errors[0].message);
        if |errors| > 1 {
          message := message + (" and " + NatToString(|errors| - 1) + " more");
        } else {
          assert message + "" == message;
        }
      }
    }
    message := Take(message, 4095);
  }

  /**
   * The message is empty iff there is no error; it never exceeds 4095
   * characters; and it is a prefix of the count, the phrase, the first
   * message and, with more than one error, the count of the others.
   */
  lemma RunEndMessageShape(errors: seq<ErrorEntry>)
    ensures |RunEndMessage(errors)| <= 4095
    ensures RunEndMessage(errors) == "" <==> errors == []
    ensures errors != [] ==>
      StartsWith(NatToString(|errors|) + " errors occurred: " + errors[0].message
                   + (if |errors| > 1 then " and " + NatToString(|errors| - 1) + " more" else ""),
                 RunEndMessage(errors))
    ensures errors != [] && |Summary(errors)| <= 4095 ==>
      RunEndMessage(errors) == NatToString(|errors|) + " errors occurred: " + errors[0].message
                                 + (if |errors| > 1 then " and " + NatToString(|errors| - 1) + " more" else "")
  {
    if errors != [] {
      var s := Summary(errors);
      var n, m := NatToString(|errors|), errors[0].message;
      var x := if |errors| > 1 then " and " + NatToString(|errors| - 1) + " more" else "";
      assert " errors occurred" + ": " == " errors occurred: ";
      assert n + " errors occurred" + (": " + m) == n + " errors occurred: " + m;
      assert s == n + " errors occurred: " + m + x;
      assert s[0] == n[0];
      assert RunEndMessage(errors)[0] == s[0];
    }
  }

  /** What `_register_run_end` does: one run-info write, whose failure is swallowed. */
  function EndRun(oracle: Oracle, st: DbState, a: FlowArgs, runId: int, status: string,
                  errors: seq<ErrorEntry>, time: string): DbState
  {
    RunInfoResult(oracle, st, a.sourceTable, runId, time, a.filePath, status, RunEndMessage(errors)).0
  }

  method RegisterRunEnd(db: Database, a: FlowArgs, runId: int, status: string, errors: seq<ErrorEntry>, time: string)
    modifies db
    ensures db.State() == EndRun(db.oracle, old(db.State()), a, runId, status, errors, time)
  {
    var message := BuildRunEndMessage(errors);
    var raised := MetadataManager.RegisterRunInfo(db, a.sourceTable, runId, time, a.filePath, status, message);
    // a failed write is only logged
  }

  // ---------------------------------------------------------------------------
  // execute_flow
  // ---------------------------------------------------------------------------

  /** The load parameters a stage gets: the staging table, the run, the record source and its own load date. */
  function Ctx(a: FlowArgs, runId: int, now: string): LoadContext {
    LoadContext(a.sourceTable, runId, a.recordSource, LoadDate(a.loadDateOverwrite, now))
  }

  /**
   * Where the stages leave the run: the state, the outcome, and the status of
   * the terminal record to write (`None` when an exception escapes).
   */
  datatype Progress = Progress(st: DbState, out: Outcome, terminal: Option<string>)

  /** A stage that returned errors stops the run with a failure record. */
  function Stop(st: DbState, errors: seq<ErrorEntry>): Progress {
    Progress(st, Returned(errors), Some("failure"))
  }

  /** The stages after the load: hash view, hubs, links, satellites; an exception from any of them escapes. */
  function LoadStages(oracle: Oracle, st: DbState, a: FlowArgs, runId: int, clock: Clock): Progress {
    var h := HashViewRun(oracle, st, a.sourceTable);
    if h.1.Raised? then Progress(h.0, h.1, None)
    else if h.1.errors != [] then Stop(h.0, h.1.errors)
    else HubStage(oracle, h.0, a, runId, clock)
  }

  /** The hub stage and the stages after it. */
  function HubStage(oracle: Oracle, st: DbState, a: FlowArgs, runId: int, clock: Clock): Progress {
    var hb := LoadHubsRun(oracle, st, Ctx(a, runId, clock.hubs));
    if hb.1.Raised? then Progress(hb.0, hb.1, None)
    else if hb.1.errors != [] then Stop(hb.0, hb.1.errors)
    else LinkStage(oracle, hb.0, a, runId, clock)
  }

  /** The link stage and the satellite stage after it. */
  function LinkStage(oracle: Oracle, st: DbState, a: FlowArgs, runId: int, clock: Clock): Progress {
    var lk := LoadLinksRun(oracle, st, Ctx(a, runId, clock.links));
    if lk.1.Raised? then Progress(lk.0, lk.1, None)
    else if lk.1.errors != [] then Stop(lk.0, lk.1.errors)
    else SatStage(oracle, lk.0, a, runId, clock)
  }

  /** The satellite stage: the last one, whose errors decide the final status. */
  function SatStage(oracle: Oracle, st: DbState, a: FlowArgs, runId: int, clock: Clock): Progress {
    var sa := LoadSatsRun(oracle, st, Ctx(a, runId, clock.sats));
    if sa.1.Raised? then Progress(sa.0, sa.1, None)
    else Progress(sa.0, sa.1, Some(if sa.1.errors == [] then "success" else "failure"))
  }

  /** Everything after the start record: the staging load when there is a file, then the load stages. */
  function Stages(oracle: Oracle, st: DbState, a: FlowArgs, runId: int, clock: Clock): Progress {
    if Truthy(a.filePath) then
      var s := StagingLoadRun(oracle, st, a.sourceTable, a.filePath.value);
      if s.1 != [] then Stop(s.0, s.1) else LoadStages(oracle, s.0, a, runId, clock)
    else LoadStages(oracle, st, a, runId, clock)
  }

  /** From the run id on: allocate it, record the start, run the stages, record the end. */
  function FromRunId(oracle: Oracle, st: DbState, a: FlowArgs, clock: Clock): (DbState, Outcome) {
    var r := RunIdResult(oracle, st);
    if r.1.Err? then (r.0, Returned([ErrorEntry(Label("Get next run ID"), Str(r.1.error))]))
    else
      var start := RunInfoResult(oracle, r.0, a.sourceTable, r.1.value, clock.start, a.filePath, "start", "");
      if start.1.Some? then (start.0, Returned([ErrorEntry(Label("Register run start"), Str(start.1.value))]))
      else AfterStart(oracle, start.0, a, r.1.value, clock)
  }

  /** After the start record: the stages, then the end record when they settled on a status. */
  function AfterStart(oracle: Oracle, st: DbState, a: FlowArgs, runId: int, clock: Clock): (DbState, Outcome) {
    var p := Stages(oracle, st, a, runId, clock);
    if p.terminal.Some? && p.out.Returned? then
      (EndRun(oracle, p.st, a, runId, p.terminal.value, p.out.errors, clock.end), p.out)
    else (p.st, p.out)
  }

  /** `execute_flow`: the skip check, then the run. */
  function FlowRun(oracle: Oracle, st: DbState, a: FlowArgs, clock: Clock): (DbState, Outcome) {
    if !a.forceLoad && Truthy(a.filePath) then
      var c := IngestionResult(oracle, st, a.sourceTable, a.filePath, "success");
      if c.1.Err? then (c.0, Returned([ErrorEntry(Label("Check previous ingestion for " + a.filePath.value), Str(c.1.error))]))
      else if c.1.value then (c.0, Returned([]))
      else FromRunId(oracle, c.0, a, clock)
    else FromRunId(oracle, st, a, clock)
  }

  /** The hash view, then the later stages while no stage reports an error. */
  method RunLoadStages(db: Database, a: FlowArgs, runId: int, clock: Clock) returns (p: Progress)
    modifies db
    ensures p.st == db.State()
    ensures p == LoadStages(db.oracle, old(db.State()), a, runId, clock)
  {
    var h := HashGenerator.ComputeHashView(db, a.sourceTable);
    if h.Raised? {
      return Progress(db.State(), h, None);
    }
    if h.errors != [] {
      return Stop(db.State(), h.errors);
    }
    p := RunHubStage(db, a, runId, clock);
  }

  method RunHubStage(db: Database, a: FlowArgs, runId: int, clock: Clock) returns (p: Progress)
    modifies db
    ensures p.st == db.State()
    ensures p == HubStage(db.oracle, old(db.State()), a, runId, clock)
  {
    var hb := HubManager.LoadRelatedHubs(db, a.sourceTable, runId, a.recordSource, a.loadDateOverwrite, clock.hubs);
    if hb.Raised? {
      return Progress(db.State(), hb, None);
    }
    if hb.errors != [] {
      return Stop(db.State(), hb.errors);
    }
    p := RunLinkStage(db, a, runId, clock);
  }

  method RunLinkStage(db: Database, a: FlowArgs, runId: int, clock: Clock) returns (p: Progress)
    modifies db
    ensures p.st == db.State()
    ensures p == LinkStage(db.oracle, old(db.State()), a, runId, clock)
  {
    var lk := LinkManager.LoadRelatedLinks(db, a.sourceTable, runId, a.recordSource, a.loadDateOverwrite, clock.links);
    if lk.Raised? {
      return Progress(db.State(), lk, None);
    }
    if lk.errors != [] {
      return Stop(db.State(), lk.errors);
    }
    p := RunSatStage(db, a, runId, clock);
  }

  method RunSatStage(db: Database, a: FlowArgs, runId: int, clock: Clock) returns (p: Progress)
    modifies db
    ensures p.st == db.State()
    ensures p == SatStage(db.oracle, old(db.State()), a, runId, clock)
  {
    var sa := SatelliteManager.LoadRelatedSats(db, a.sourceTable, runId, a.recordSource, a.loadDateOverwrite, clock.sats);
    if sa.Raised? {
      return Progress(db.State(), sa, None);
    }
    p := Progress(db.State(), sa, Some(if sa.errors == [] then "success" else "failure"));
  }

  method ExecuteFlow(db: Database, a: FlowArgs, clock: Clock) returns (out: Outcome)
    modifies db
    ensures (db.State(), out) == FlowRun(db.oracle, old(db.State()), a, clock)
  {
    if !a.forceLoad && Truthy(a.filePath) {
      var already := MetadataManager.CheckPreviousIngestion(db, a.sourceTable, a.filePath, "success");
      if already.Err? {
        return Returned([ErrorEntry(Label("Check previous ingestion for " + a.filePath.value), Str(already.error))]);
      }
      if already.value {
        return Returned([]);
      }
    }
    var runId := MetadataManager.GetNextRunId(db);
    if runId.Err? {
      return Returned([ErrorEntry(Label("Get next run ID"), Str(runId.error))]);
    }
    var raised := MetadataManager.RegisterRunInfo(db, a.sourceTable, runId.value, clock.start, a.filePath, "start", "");
    if raised.Some? {
      return Returned([ErrorEntry(Label("Register run start"), Str(raised.value))]);
    }
    out := RunAfterStart(db, a, runId.value, clock);
  }

  method RunAfterStart(db: Database, a: FlowArgs, runId: int, clock: Clock) returns (out: Outcome)
    modifies db
    ensures (db.State(), out) == AfterStart(db.oracle, old(db.State()), a, runId, clock)
  {
    var p: Progress;
    if Truthy(a.filePath) {
      var e := EtlService.LoadFileToStaging(db, a.sourceTable, a.filePath.value);
      if e != [] {
        p := Stop(db.State(), e);
      } else {
        p := RunLoadStages(db, a, runId, clock);
      }
    } else {
      p := RunLoadStages(db, a, runId, clock);
    }
    if p.terminal.Some? && p.out.Returned? {
      RegisterRunEnd(db, a, runId, p.terminal.value, p.out.errors, clock.end);
    }
    out := p.out;
  }

  // ---------------------------------------------------------------------------
  // What a run does to the run history
  // ---------------------------------------------------------------------------

  /** The row the start of a run writes. */
  function StartRow(a: FlowArgs, runId: int, clock: Clock): RunRow {
    RunRow(VStr(a.sourceTable), VInt(runId), VStr(clock.start), OptValue(a.filePath), VStr("start"), VStr(""))
  }

  /** The terminal status of a run that returned these errors. */
  function EndStatus(errors: seq<ErrorEntry>): string {
    if errors == [] then "success" else "failure"
  }

  /** The row the end of a run writes. */
  function EndRow(a: FlowArgs, runId: int, errors: seq<ErrorEntry>, clock: Clock): RunRow {
    RunRow(VStr(a.sourceTable), VInt(runId), VStr(clock.end), OptValue(a.filePath),
           VStr(EndStatus(errors)), VStr(RunEndMessage(errors)))
  }

  lemma HashViewKeepsHistory(oracle: Oracle, st: DbState, stgTable: string)
    ensures HashViewRun(oracle, st, stgTable).0.runinfo == st.runinfo
  {
    var q := TransitionsResult(oracle, st, stgTable);
    assert q.0.runinfo == st.runinfo;
  }

  /**
   * How stages may leave a run: the run history as it was, a terminal status
   * exactly when they returned (an exception leaves the run without one), and
   * "success" exactly when no stage reported an error.
   */
  predicate Settled(p: Progress, runinfo: seq<RunRow>) {
    && p.st.runinfo == runinfo
    && (p.terminal.Some? <==> p.out.Returned?)
    && (p.out.Returned? ==> p.terminal == Some(EndStatus(p.out.errors)))
  }

  /** A stage that keeps the history hands on to a settled rest, stops with "failure" on errors, or raises. */
  lemma GateSettled(h: (DbState, Outcome), next: Progress, runinfo: seq<RunRow>)
    requires h.0.runinfo == runinfo
    requires h.1.Returned? && h.1.errors == [] ==> Settled(next, runinfo)
    ensures Settled(if h.1.Raised? then Progress(h.0, h.1, None)
                    else if h.1.errors != [] then Stop(h.0, h.1.errors)
                    else next, runinfo)
  {
  }

  lemma SatStageOutcome(oracle: Oracle, st: DbState, a: FlowArgs, runId: int, clock: Clock)
    ensures Settled(SatStage(oracle, st, a, runId, clock), st.runinfo)
  {
    LoadSatsBound(oracle, st, Ctx(a, runId, clock.sats));
  }

  lemma LinkStageOutcome(oracle: Oracle, st: DbState, a: FlowArgs, runId: int, clock: Clock)
    ensures Settled(LinkStage(oracle, st, a, runId, clock), st.runinfo)
  {
    var lk := LoadLinksRun(oracle, st, Ctx(a, runId, clock.links));
    LoadLinksBound(oracle, st, Ctx(a, runId, clock.links));
    SatStageOutcome(oracle, lk.0, a, runId, clock);
    GateSettled(lk, SatStage(oracle, lk.0, a, runId, clock), st.runinfo);
  }

  lemma HubStageOutcome(oracle: Oracle, st: DbState, a: FlowArgs, runId: int, clock: Clock)
    ensures Settled(HubStage(oracle, st, a, runId, clock), st.runinfo)
  {
    var hb := LoadHubsRun(oracle, st, Ctx(a, runId, clock.hubs));
    LoadHubsBound(oracle, st, Ctx(a, runId, clock.hubs));
    LinkStageOutcome(oracle, hb.0, a, runId, clock);
    GateSettled(hb, LinkStage(oracle, hb.0, a, runId, clock), st.runinfo);
  }

  lemma LoadStagesOutcome(oracle: Oracle, st: DbState, a: FlowArgs, runId: int, clock: Clock)
    ensures Settled(LoadStages(oracle, st, a, runId, clock), st.runinfo)
  {
    var h := HashViewRun(oracle, st, a.sourceTable);
    HashViewKeepsHistory(oracle, st, a.sourceTable);
    HubStageOutcome(oracle, h.0, a, runId, clock);
    GateSettled(h, HubStage(oracle, h.0, a, runId, clock), st.runinfo);
  }

  /**
   * The refactored stages short-circuit: when the hash view returns errors the
   * run stops with "failure" in the state the hash stage left, so no hub, link
   * or satellite statement is submitted (compare `LegacyFlow.StagesAccumulate`).
   */
  lemma HashErrorsStop(oracle: Oracle, st: DbState, a: FlowArgs, runId: int, clock: Clock)
    ensures var h := HashViewRun(oracle, st, a.sourceTable);
      var p := LoadStages(oracle, st, a, runId, clock);
      h.1.Returned? && h.1.errors != [] ==>
        p.st.log == h.0.log && p.out == h.1 && p.terminal == Some("failure")
  {
  }

  /** The stages, staging load included, leave the run settled. */
  lemma StagesOutcome(oracle: Oracle, st: DbState, a: FlowArgs, runId: int, clock: Clock)
    ensures Settled(Stages(oracle, st, a, runId, clock), st.runinfo)
  {
    if Truthy(a.filePath) {
      StagingLoadEffect(oracle, st, a.sourceTable, a.filePath.value);
      LoadStagesOutcome(oracle, StagingLoadRun(oracle, st, a.sourceTable, a.filePath.value).0, a, runId, clock);
    } else {
      LoadStagesOutcome(oracle, st, a, runId, clock);
    }
  }

  /** The history a run leaves once past the skip check, from the run id on; see `FlowHistory`. */
  ghost predicate HistoryAfter(r: (DbState, Outcome), st: DbState, a: FlowArgs, clock: Clock) {
    var id := NextRunId(st.runinfo);
    && (r.0.runinfo == st.runinfo
        || r.0.runinfo == st.runinfo + [StartRow(a, id, clock)]
        || (r.1.Returned? && r.0.runinfo == st.runinfo + [StartRow(a, id, clock), EndRow(a, id, r.1.errors, clock)]))
    && (r.0.runinfo == st.runinfo ==>
          r.1.Returned? && |r.1.errors| <= 1 && forall e :: e in r.1.errors ==> e.origin.Label?)
    && (r.1.Raised? ==> r.0.runinfo == st.runinfo + [StartRow(a, id, clock)])
  }

  lemma EndRunHistory(oracle: Oracle, p: Progress, a: FlowArgs, runId: int, clock: Clock)
    requires p.out.Returned? && p.terminal == Some(EndStatus(p.out.errors))
    ensures var after := EndRun(oracle, p.st, a, runId, p.terminal.value, p.out.errors, clock.end).runinfo;
      after == p.st.runinfo || after == p.st.runinfo + [EndRow(a, runId, p.out.errors, clock)]
  {
    EndRunRow(oracle, p.st, a, runId, p.out.errors, clock);
  }

  /** The end record appends the end row exactly when its insert succeeds. */
  lemma EndRunRow(oracle: Oracle, st: DbState, a: FlowArgs, runId: int, errors: seq<ErrorEntry>, clock: Clock)
    ensures var s := RunInfoStmt(a.sourceTable, runId, clock.end, a.filePath, EndStatus(errors), RunEndMessage(errors));
      EndRun(oracle, st, a, runId, EndStatus(errors), errors, clock.end).runinfo
        == if Failure(oracle, st, s).None? then st.runinfo + [EndRow(a, runId, errors, clock)] else st.runinfo
  {
  }

  lemma FromRunIdHistory(oracle: Oracle, st: DbState, a: FlowArgs, clock: Clock)
    ensures HistoryAfter(FromRunId(oracle, st, a, clock), st, a, clock)
  {
    var r := RunIdResult(oracle, st);
    var res := FromRunId(oracle, st, a, clock);
    if r.1.Err? {
      assert res == (r.0, Returned([ErrorEntry(Label("Get next run ID"), Str(r.1.error))]));
      HistoryUnchanged(res, st, a, clock);
    } else {
      var id := r.1.value;
      assert id == NextRunId(st.runinfo);
      var start := RunInfoResult(oracle, r.0, a.sourceTable, id, clock.start, a.filePath, "start", "");
      if start.1.Some? {
        assert res == (start.0, Returned([ErrorEntry(Label("Register run start"), Str(start.1.value))]));
        assert start.0.runinfo == st.runinfo;
        HistoryUnchanged(res, st, a, clock);
      } else {
        assert start.0.runinfo == st.runinfo + [StartRow(a, id, clock)];
        assert res == AfterStart(oracle, start.0, a, id, clock);
        AfterStartHistory(oracle, start.0, a, id, clock);
        HistoryStarted(res, st, a, clock);
      }
    }
  }

  lemma HistoryUnchanged(r: (DbState, Outcome), st: DbState, a: FlowArgs, clock: Clock)
    requires r.0.runinfo == st.runinfo && r.1.Returned? && |r.1.errors| <= 1
    requires forall e :: e in r.1.errors ==> e.origin.Label?
    ensures HistoryAfter(r, st, a, clock)
  {
  }

  lemma HistoryStarted(r: (DbState, Outcome), st: DbState, a: FlowArgs, clock: Clock)
    requires var start := st.runinfo + [StartRow(a, NextRunId(st.runinfo), clock)];
      && (r.0.runinfo == start
          || (r.1.Returned? && r.0.runinfo == start + [EndRow(a, NextRunId(st.runinfo), r.1.errors, clock)]))
      && (r.1.Raised? ==> r.0.runinfo == start)
    ensures HistoryAfter(r, st, a, clock)
  {
    var id := NextRunId(st.runinfo);
    if r.1.Returned? {
      assert st.runinfo + [StartRow(a, id, clock)] + [EndRow(a, id, r.1.errors, clock)]
          == st.runinfo + [StartRow(a, id, clock), EndRow(a, id, r.1.errors, clock)];
    }
    assert |r.0.runinfo| > |st.runinfo|;
  }

  /** Past the start record the history gains at most the end row, and none when an exception escapes. */
  lemma AfterStartHistory(oracle: Oracle, st: DbState, a: FlowArgs, runId: int, clock: Clock)
    ensures var r := AfterStart(oracle, st, a, runId, clock);
      && (r.0.runinfo == st.runinfo
          || (r.1.Returned? && r.0.runinfo == st.runinfo + [EndRow(a, runId, r.1.errors, clock)]))
      && (r.1.Raised? ==> r.0.runinfo == st.runinfo)
  {
    StagesOutcome(oracle, st, a, runId, clock);
    var p := Stages(oracle, st, a, runId, clock);
    if p.out.Returned? {
      EndRunHistory(oracle, p, a, runId, clock);
    }
  }

  /**
   * The history a run leaves: nothing new when it stops before its start is
   * recorded (then it returns at most one labelled error); the start row
   * under the next run id when an exception escapes or the end write fails;
   * otherwise the start row and the end row, whose status is "success"
   * exactly when the run returned no error and whose message summarizes
   * the errors.
   */
  lemma FlowHistory(oracle: Oracle, st: DbState, a: FlowArgs, clock: Clock)
    ensures HistoryAfter(FlowRun(oracle, st, a, clock), st, a, clock)
  {
    if !a.forceLoad && Truthy(a.filePath) {
      var c := IngestionResult(oracle, st, a.sourceTable, a.filePath, "success");
      if c.1.Ok? && !c.1.value {
        FromRunIdHistory(oracle, c.0, a, clock);
      }
    } else {
      FromRunIdHistory(oracle, st, a, clock);
    }
  }

  /** A file already loaded with status "success" is skipped unless the load is forced: nothing but the check runs. */
  lemma AlreadyIngestedSkips(oracle: Oracle, st: DbState, a: FlowArgs, clock: Clock)
    requires !a.forceLoad && Truthy(a.filePath)
    requires Failure(oracle, st, CheckIngestion(IngestionParams(a.sourceTable, a.filePath, "success"))).None?
    requires exists i :: 0 <= i < |st.runinfo| && IngestionMatch(st.runinfo[i], OptValue(a.filePath), VStr(a.sourceTable), VStr("success"))
    ensures FlowRun(oracle, st, a, clock)
         == (st.(log := st.log + [CheckIngestion(IngestionParams(a.sourceTable, a.filePath, "success"))]), Returned([]))
  {
    var ps := IngestionParams(a.sourceTable, a.filePath, "success");
    IngestionRowsExist(st.runinfo, ps[0], ps[1], ps[2]);
  }

  /** An engine under which no statement fails. */
  ghost predicate Permissive(oracle: Oracle) {
    forall st: DbState, s: Stmt :: oracle(st, s).None?
  }

  lemma PermissiveFromRunId(oracle: Oracle, st: DbState, a: FlowArgs, clock: Clock)
    requires Permissive(oracle)
    ensures var r := FromRunId(oracle, st, a, clock);
      var id := NextRunId(st.runinfo);
      && (r.1.Returned? ==> r.0.runinfo == st.runinfo + [StartRow(a, id, clock), EndRow(a, id, r.1.errors, clock)])
      && (r.1.Raised? ==> r.0.runinfo == st.runinfo + [StartRow(a, id, clock)])
  {
    assert Failure(oracle, st, GetRunId).None? by { assert oracle(st, GetRunId).None?; }
    var r := RunIdResult(oracle, st);
    var id := NextRunId(st.runinfo);
    var s0 := RunInfoStmt(a.sourceTable, id, clock.start, a.filePath, "start", "");
    assert Failure(oracle, r.0, s0).None? by { assert oracle(r.0, s0).None?; }
    var start := RunInfoResult(oracle, r.0, a.sourceTable, id, clock.start, a.filePath, "start", "");
    assert start.1.None?;
    assert start.0.runinfo == st.runinfo + [StartRow(a, id, clock)];
    var res := AfterStart(oracle, start.0, a, id, clock);
    assert FromRunId(oracle, st, a, clock) == res;
    PermissiveAfterStart(oracle, start.0, a, id, clock);
    if res.1.Returned? {
      assert st.runinfo + [StartRow(a, id, clock)] + [EndRow(a, id, res.1.errors, clock)]
          == st.runinfo + [StartRow(a, id, clock), EndRow(a, id, res.1.errors, clock)];
    }
  }

  lemma PermissiveAfterStart(oracle: Oracle, st: DbState, a: FlowArgs, runId: int, clock: Clock)
    requires Permissive(oracle)
    ensures var r := AfterStart(oracle, st, a, runId, clock);
      && (r.1.Returned? ==> r.0.runinfo == st.runinfo + [EndRow(a, runId, r.1.errors, clock)])
      && (r.1.Raised? ==> r.0.runinfo == st.runinfo)
  {
    StagesOutcome(oracle, st, a, runId, clock);
    var p := Stages(oracle, st, a, runId, clock);
    if p.out.Returned? {
      var s1 := RunInfoStmt(a.sourceTable, runId, clock.end, a.filePath, p.terminal.value, RunEndMessage(p.out.errors));
      assert Failure(oracle, p.st, s1).None? by { assert oracle(p.st, s1).None?; }
      EndRunRow(oracle, p.st, a, runId, p.out.errors, clock);
    }
  }

  /**
   * On an engine where nothing fails, a run that is not skipped records both
   * its start and, unless an exception escapes, its end.
   */
  lemma PermissiveRunRecorded(oracle: Oracle, st: DbState, a: FlowArgs, clock: Clock)
    requires Permissive(oracle)
    requires a.forceLoad || !Truthy(a.filePath)
             || |IngestionRows(st.runinfo, OptValue(a.filePath), VStr(a.sourceTable), VStr("success"))| == 0
    ensures var r := FlowRun(oracle, st, a, clock);
      var id := NextRunId(st.runinfo);
      && (r.1.Returned? ==> r.0.runinfo == st.runinfo + [StartRow(a, id, clock), EndRow(a, id, r.1.errors, clock)])
      && (r.1.Raised? ==> r.0.runinfo == st.runinfo + [StartRow(a, id, clock)])
  {
    if !a.forceLoad && Truthy(a.filePath) {
      var q := CheckIngestion(IngestionParams(a.sourceTable, a.filePath, "success"));
      assert Failure(oracle, st, q).None? by { assert oracle(st, q).None?; }
      PermissiveFromRunId(oracle, IngestionResult(oracle, st, a.sourceTable, a.filePath, "success").0, a, clock);
    } else {
      PermissiveFromRunId(oracle, st, a, clock);
    }
  }
}
