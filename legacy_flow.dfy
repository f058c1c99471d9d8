/**
 * The legacy `execute_flow`. Like the refactored flow it checks for a
 * previous run, allocates a run id, records the start, loads the file and
 * runs the load stages. It differs in four ways the model keeps. It splices
 * every value into its run-history statements, `None` as the text "None".
 * It does not stop at a stage that reports errors. It records the run's
 * end with a JSON list of the error messages. It blames failures of the
 * ingestion check and of the staging load on the run-id query.
 */
module LegacyFlow {
  import opened Common
  import opened PyText
  import opened Metadata
  import opened Statements
  import opened Engine
  import opened SqlText
  import opened Ordering
  import Legacy
  import HashGenerator
  import HubManager
  import LinkManager
  import SatelliteManager
  import FlowExecutor

  type FlowArgs = FlowExecutor.FlowArgs
  type Clock = FlowExecutor.Clock

  /** `str.format` of an optional argument: `None` is written as the text "None". */
  function Formatted(o: Option<string>): (r: string)
    ensures o.Some? ==> r == o.value
  {
    if o.Some? then o.value else "None"
  }

  /** An error the flow reports against `run_id_statement`, whatever statement failed. */
  function RunIdBlame(e: Exn): ErrorEntry {
    ErrorEntry(Statement(GetRunId), Repr(e))
  }

  /** The ingestion check, with the file path and the table spliced in. */
  function CheckStmt(a: FlowArgs): Stmt {
    LegacyCheckIngestion(Formatted(a.filePath), a.sourceTable, "success")
  }

  /** The insert recording the start of a run. */
  function StartStmt(a: FlowArgs, runId: int, clock: Clock): Stmt {
    LegacyInsertRunInfo(a.sourceTable, runId, clock.start, Formatted(a.filePath), "start", "")
  }

  /** The message of a failed run: the count, then `json.dumps` of the messages cut to 4095 characters. */
  function EndMessage(errors: seq<ErrorEntry>): string {
    if errors == [] then ""
    else NatToString(|errors|) + " happend: " + Take(JsonStringList(Messages(errors)), 4095)
  }

  /** The insert recording the end of a run that collected these errors. */
  function EndStmt(a: FlowArgs, runId: int, errors: seq<ErrorEntry>, clock: Clock): Stmt {
    LegacyInsertRunInfo(a.sourceTable, runId, clock.end, Formatted(a.filePath),
                        if errors == [] then "success" else "failure", EndMessage(errors))
  }

  /**
   * The end message is empty exactly when there is no error. Otherwise it
   * is the count, the word "happend", then a prefix of at most 4095
   * characters of the messages' JSON list.
   */
  lemma EndMessageShape(errors: seq<ErrorEntry>)
    ensures EndMessage(errors) == "" <==> errors == []
    ensures errors != [] ==>
      var head := NatToString(|errors|) + " happend: ";
      && StartsWith(EndMessage(errors), head)
      && |EndMessage(errors)| <= |head| + 4095
      && StartsWith(JsonStringList(Messages(errors)), Drop(EndMessage(errors), |head|))
  {
    if errors != [] {
      var head := NatToString(|errors|) + " happend: ";
      var m := EndMessage(errors);
      assert m == head + Take(JsonStringList(Messages(errors)), 4095);
      assert m[..|head|] == head;
      assert Drop(m, |head|) == Take(JsonStringList(Messages(errors)), 4095);
    }
  }

  // ---------------------------------------------------------------------------
  // The staging load, inline in the legacy flow
  // ---------------------------------------------------------------------------

  /** Truncate, fetch the staging columns, insert the file; the first failure stops it. */
  function StagingLoadRun(oracle: Oracle, st: DbState, sourceTable: string, filePath: string)
    : (DbState, seq<ErrorEntry>)
  {
    var t := StageTruncate(sourceTable);
    var st1 := Submit(oracle, st, t);
    if Failure(oracle, st, t).Some? then (st1, [RunIdBlame(Failure(oracle, st, t).value)])
    else
      var q := StageFields(sourceTable);
      var st2 := Submit(oracle, st1, q);
      if Failure(oracle, st1, q).Some? then (st2, [RunIdBlame(Failure(oracle, st1, q).value)])
      else
        var l := StageLoad(sourceTable, filePath);
        (Submit(oracle, st2, l), if Failure(oracle, st2, l).Some? then [RunIdBlame(Failure(oracle, st2, l).value)] else [])
  }

  method LoadFileToStaging(db: Database, sourceTable: string, filePath: string) returns (errors: seq<ErrorEntry>)
    modifies db
    ensures (db.State(), errors) == StagingLoadRun(db.oracle, old(db.State()), sourceTable, filePath)
  {
    var failure := db.Execute(StageTruncate(sourceTable));
    if failure.Some? {
      return [RunIdBlame(failure.value)];
    }
    failure := db.Execute(StageFields(sourceTable));
    if failure.Some? {
      return [RunIdBlame(failure.value)];
    }
    failure := db.Execute(StageLoad(sourceTable, filePath));
    errors := if failure.Some? then [RunIdBlame(failure.value)] else [];
  }

  /**
   * A staging failure is reported against the run-id query, not against the
   * statement that failed; the refactored load names that statement.
   */
  lemma StagingBlamesRunId(oracle: Oracle, st: DbState, sourceTable: string, filePath: string)
    ensures var r := StagingLoadRun(oracle, st, sourceTable, filePath);
      && |r.1| <= 1
      && r.0.runinfo == st.runinfo
      && (forall e :: e in r.1 ==> e.origin == Statement(GetRunId))
      && (Failure(oracle, st, StageTruncate(sourceTable)).Some? ==>
            r.1 != [] && r.1[0].origin != Statement(StageTruncate(sourceTable)))
  {
  }

  // ---------------------------------------------------------------------------
  // The stages, each run whatever the previous ones reported
  // ---------------------------------------------------------------------------

  /** The hash view, hubs, links and satellites; their errors accumulate, an exception escapes. */
  function LoadStages(oracle: Oracle, st: DbState, a: FlowArgs, runId: int, clock: Clock): (DbState, Outcome) {
    var h := Legacy.HashViewRun(oracle, st, a.sourceTable);
    if h.1.Raised? then h else HubStage(oracle, h.0, a, runId, clock, h.1.errors)
  }

  function HubStage(oracle: Oracle, st: DbState, a: FlowArgs, runId: int, clock: Clock, acc: seq<ErrorEntry>)
    : (DbState, Outcome)
  {
    var hb := Legacy.LoadHubsRun(oracle, st, FlowExecutor.Ctx(a, runId, clock.hubs));
    if hb.1.Raised? then hb else LinkStage(oracle, hb.0, a, runId, clock, acc + hb.1.errors)
  }

  function LinkStage(oracle: Oracle, st: DbState, a: FlowArgs, runId: int, clock: Clock, acc: seq<ErrorEntry>)
    : (DbState, Outcome)
  {
    var lk := Legacy.LoadLinksRun(oracle, st, FlowExecutor.Ctx(a, runId, clock.links));
    if lk.1.Raised? then lk else SatStage(oracle, lk.0, a, runId, clock, acc + lk.1.errors)
  }

  function SatStage(oracle: Oracle, st: DbState, a: FlowArgs, runId: int, clock: Clock, acc: seq<ErrorEntry>)
    : (DbState, Outcome)
  {
    var sa := Legacy.LoadSatsRun(oracle, st, FlowExecutor.Ctx(a, runId, clock.sats));
    if sa.1.Raised? then sa else (sa.0, Returned(acc + sa.1.errors))
  }

  /** The end record of a run whose stages left `p`; a failed insert adds its own error. */
  function Finish(oracle: Oracle, p: (DbState, Outcome), a: FlowArgs, runId: int, clock: Clock): (DbState, Outcome) {
    if p.1.Raised? then p
    else
      var e := EndStmt(a, runId, p.1.errors, clock);
      (Submit(oracle, p.0, e), Returned(p.1.errors + ErrorOf(Failure(oracle, p.0, e), e, Legacy)))
  }

  /** The load stages, then the end record. */
  function AfterLoad(oracle: Oracle, st: DbState, a: FlowArgs, runId: int, clock: Clock): (DbState, Outcome) {
    Finish(oracle, LoadStages(oracle, st, a, runId, clock), a, runId, clock)
  }

  /** After the start record: the staging load when there is a file (a failure ends the run unrecorded), then the rest. */
  function Stages(oracle: Oracle, st: DbState, a: FlowArgs, runId: int, clock: Clock): (DbState, Outcome) {
    if Truthy(a.filePath) then
      var s := StagingLoadRun(oracle, st, a.sourceTable, a.filePath.value);
      if s.1 != [] then (s.0, Returned(s.1)) else AfterLoad(oracle, s.0, a, runId, clock)
    else AfterLoad(oracle, st, a, runId, clock)
  }

  /** From the run id on. */
  function FromRunId(oracle: Oracle, st: DbState, a: FlowArgs, clock: Clock): (DbState, Outcome) {
    var st1 := Submit(oracle, st, GetRunId);
    if Failure(oracle, st, GetRunId).Some? then (st1, Returned([RunIdBlame(Failure(oracle, st, GetRunId).value)]))
    else
      var runId := NextRunId(st.runinfo);
      var s := StartStmt(a, runId, clock);
      var st2 := Submit(oracle, st1, s);
      if Failure(oracle, st1, s).Some? then (st2, Returned([ErrorEntry(Statement(s), Repr(Failure(oracle, st1, s).value))]))
      else Stages(oracle, st2, a, runId, clock)
  }

  /** `execute_flow`: unless forced, the check for a successful earlier run of the same file, then the run. */
  function FlowRun(oracle: Oracle, st: DbState, a: FlowArgs, clock: Clock): (DbState, Outcome) {
    if !a.forceLoad then
      var q := CheckStmt(a);
      var st1 := Submit(oracle, st, q);
      if Failure(oracle, st, q).Some? then (st1, Returned([RunIdBlame(Failure(oracle, st, q).value)]))
      else if |IngestionRows(st.runinfo, VStr(Formatted(a.filePath)), VStr(a.sourceTable), VStr("success"))| > 0 then
        (st1, Returned([]))
      else FromRunId(oracle, st1, a, clock)
    else FromRunId(oracle, st, a, clock)
  }

  method RunLoadStages(db: Database, a: FlowArgs, runId: int, clock: Clock) returns (out: Outcome)
    modifies db
    ensures (db.State(), out) == LoadStages(db.oracle, old(db.State()), a, runId, clock)
  {
    var h := Legacy.ComputeHashView(db, a.sourceTable);
    if h.Raised? {
      return h;
    }
    out := RunHubStage(db, a, runId, clock, h.errors);
  }

  method RunHubStage(db: Database, a: FlowArgs, runId: int, clock: Clock, acc: seq<ErrorEntry>) returns (out: Outcome)
    modifies db
    ensures (db.State(), out) == HubStage(db.oracle, old(db.State()), a, runId, clock, acc)
  {
    var hb := Legacy.LoadRelatedHubs(db, a.sourceTable, runId, a.recordSource, a.loadDateOverwrite, clock.hubs);
    if hb.Raised? {
      return hb;
    }
    out := RunLinkStage(db, a, runId, clock, acc + hb.errors);
  }

  method RunLinkStage(db: Database, a: FlowArgs, runId: int, clock: Clock, acc: seq<ErrorEntry>) returns (out: Outcome)
    modifies db
    ensures (db.State(), out) == LinkStage(db.oracle, old(db.State()), a, runId, clock, acc)
  {
    var lk := Legacy.LoadRelatedLinks(db, a.sourceTable, runId, a.recordSource, a.loadDateOverwrite, clock.links);
    if lk.Raised? {
      return lk;
    }
    out := RunSatStage(db, a, runId, clock, acc + lk.errors);
  }

  method RunSatStage(db: Database, a: FlowArgs, runId: int, clock: Clock, acc: seq<ErrorEntry>) returns (out: Outcome)
    modifies db
    ensures (db.State(), out) == SatStage(db.oracle, old(db.State()), a, runId, clock, acc)
  {
    var sa := Legacy.LoadRelatedSats(db, a.sourceTable, runId, a.recordSource, a.loadDateOverwrite, clock.sats);
    if sa.Raised? {
      return sa;
    }
    out := Returned(acc + sa.errors);
  }

  /** The message text of the end record. */
  method BuildEndMessage(errors: seq<ErrorEntry>) returns (message: string)
    ensures message == EndMessage(errors)
  {
    message := "";
    if |errors| != 0 {
      message := NatToString(|errors|) + " happend: " + Take(JsonStringList(Messages(errors)), 4095);
    }
  }

  /** The end record of a run that collected these errors. */
  method RecordEnd(db: Database, a: FlowArgs, runId: int, clock: Clock, collected: seq<ErrorEntry>) returns (out: Outcome)
    modifies db
    ensures (db.State(), out) == Finish(db.oracle, (old(db.State()), Returned(collected)), a, runId, clock)
  {
    var message := BuildEndMessage(collected);
    var status := if |collected| == 0 then "success" else "failure";
    var insertSql := LegacyInsertRunInfo(a.sourceTable, runId, clock.end, Formatted(a.filePath), status, message);
    assert insertSql == EndStmt(a, runId, collected, clock);
    var rejected := db.Perform(Exec(insertSql), Legacy);
    out := Returned(collected + rejected);
  }

  method RunAfterLoad(db: Database, a: FlowArgs, runId: int, clock: Clock) returns (out: Outcome)
    modifies db
    ensures (db.State(), out) == AfterLoad(db.oracle, old(db.State()), a, runId, clock)
  {
    var p := RunLoadStages(db, a, runId, clock);
    if p.Raised? {
      return p;
    }
    out := RecordEnd(db, a, runId, clock, p.errors);
  }

  method ExecuteFlow(db: Database, a: FlowArgs, clock: Clock) returns (out: Outcome)
    modifies db
    ensures (db.State(), out) == FlowRun(db.oracle, old(db.State()), a, clock)
  {
    if !a.forceLoad {
      var alreadyRan := db.FetchIngestion(CheckStmt(a));
      if alreadyRan.Err? {
        return Returned([RunIdBlame(alreadyRan.error)]);
      }
      if alreadyRan.value > 0 {
        return Returned([]);
      }
    }
    var runId := db.FetchRunId();
    if runId.Err? {
      return Returned([RunIdBlame(runId.error)]);
    }
    var insertSql := StartStmt(a, runId.value, clock);
    var failure := db.Execute(insertSql);
    if failure.Some? {
      return Returned([ErrorEntry(Statement(insertSql), Repr(failure.value))]);
    }
    if Truthy(a.filePath) {
      var e := LoadFileToStaging(db, a.sourceTable, a.filePath.value);
      if e != [] {
        return Returned(e);
      }
    }
    out := RunAfterLoad(db, a, runId.value, clock);
  }

  // ---------------------------------------------------------------------------
  // Properties
  // ---------------------------------------------------------------------------

  /** Stages leave the run history as it was and return only errors that hold a single quote. */
  predicate Clean(p: (DbState, Outcome), runinfo: seq<RunRow>) {
    && p.0.runinfo == runinfo
    && (p.1.Returned? ==> forall e :: e in p.1.errors ==> HasQuote(e.message))
  }

  /** Every error a legacy plan collects is a `repr`, and so holds a single quote. */
  lemma {:induction false} RunQuoted(oracle: Oracle, st: DbState, plan: seq<Action>)
    ensures forall e :: e in Run(oracle, st, plan, Legacy).1 ==> HasQuote(e.message)
    decreases |plan|
  {
    if plan != [] {
      var init := plan[..|plan| - 1];
      RunQuoted(oracle, st, init);
      var prev := Run(oracle, st, init, Legacy);
      StepQuoted(oracle, prev.0, plan[|plan| - 1]);
    }
  }

  /** One legacy action reports only `repr`s. */
  lemma StepQuoted(oracle: Oracle, st: DbState, a: Action)
    ensures forall e :: e in Step(oracle, st, a, Legacy).1 ==> HasQuote(e.message)
  {
    match a
    case Exec(s) =>
      var f := Failure(oracle, st, s);
      if f.Some? {
        LegacyRenderHasQuote(f.value);
      }
    case Raise(s, x) =>
      LegacyRenderHasQuote(x);
  }

  lemma HashViewClean(oracle: Oracle, st: DbState, stgTable: string)
    ensures Clean(Legacy.HashViewRun(oracle, st, stgTable), st.runinfo)
  {
    var q := Legacy.TransitionsResult(oracle, st, stgTable);
    assert q.0.runinfo == st.runinfo;
    if q.1.Ok? {
      match HashGenerator.HashColumns(q.1.value) {
        case Err(_) =>
        case Ok(cs) => SubmitClean(oracle, q.0, HashGenerator.HashViewStmt(stgTable, q.1.value, cs));
      }
    }
  }

  /** A legacy submission of a statement other than a run-info insert keeps the history and quotes its error. */
  lemma SubmitClean(oracle: Oracle, st: DbState, s: Stmt)
    requires !(s.InsertRunInfo? || s.LegacyInsertRunInfo?)
    ensures Clean((Submit(oracle, st, s), Returned(ErrorOf(Failure(oracle, st, s), s, Legacy))), st.runinfo)
  {
    var f := Failure(oracle, st, s);
    assert Submit(oracle, st, s).runinfo == st.runinfo;
    if f.Some? {
      var e := ErrorEntry(Statement(s), Render(Legacy, f.value));
      assert ErrorOf(f, s, Legacy) == [e];
      LegacyRenderHasQuote(f.value);
      assert HasQuote(e.message);
    } else {
      assert ErrorOf(f, s, Legacy) == [];
    }
  }

  lemma HubsClean(oracle: Oracle, st: DbState, ctx: LoadContext)
    ensures Clean(Legacy.LoadHubsRun(oracle, st, ctx), st.runinfo)
  {
    var q := Legacy.TransitionsResult(oracle, st, ctx.stgTable);
    if q.1.Ok? {
      var plan := ExecEach(HubManager.HubGroups(q.1.value), HubManager.HubLoadStmtFn(ctx));
      assert NoRunInfoWrite(plan);
      RunEffect(oracle, q.0, plan, Legacy);
      RunQuoted(oracle, q.0, plan);
    }
  }

  lemma LinksClean(oracle: Oracle, st: DbState, ctx: LoadContext)
    ensures Clean(Legacy.LoadLinksRun(oracle, st, ctx), st.runinfo)
  {
    var q := Legacy.TransitionsResult(oracle, st, ctx.stgTable);
    if q.1.Ok? {
      var plan := ExecEach(LinkManager.LinkGroups(q.1.value), LinkManager.LinkLoadStmtFn(ctx));
      assert NoRunInfoWrite(plan);
      RunEffect(oracle, q.0, plan, Legacy);
      RunQuoted(oracle, q.0, plan);
    }
  }

  lemma SatsClean(oracle: Oracle, st: DbState, ctx: LoadContext)
    ensures Clean(Legacy.LoadSatsRun(oracle, st, ctx), st.runinfo)
  {
    var q := Legacy.TransitionsResult(oracle, st, ctx.stgTable);
    if q.1.Ok? {
      var markers := Where(q.1.value, SatelliteManager.IsSatMarkerFn());
      var plan := SatelliteManager.SatLoadPlan(ctx, q.1.value, markers);
      SatelliteManager.SatLoadPlanWrites(ctx, q.1.value, markers);
      RunEffect(oracle, q.0, plan, Legacy);
      RunQuoted(oracle, q.0, plan);
    }
  }

  lemma SatStageClean(oracle: Oracle, st: DbState, a: FlowArgs, runId: int, clock: Clock, acc: seq<ErrorEntry>)
    requires forall e :: e in acc ==> HasQuote(e.message)
    ensures Clean(SatStage(oracle, st, a, runId, clock, acc), st.runinfo)
  {
    SatsClean(oracle, st, FlowExecutor.Ctx(a, runId, clock.sats));
  }

  lemma LinkStageClean(oracle: Oracle, st: DbState, a: FlowArgs, runId: int, clock: Clock, acc: seq<ErrorEntry>)
    requires forall e :: e in acc ==> HasQuote(e.message)
    ensures Clean(LinkStage(oracle, st, a, runId, clock, acc), st.runinfo)
  {
    var ctx := FlowExecutor.Ctx(a, runId, clock.links);
    LinksClean(oracle, st, ctx);
    var lk := Legacy.LoadLinksRun(oracle, st, ctx);
    if lk.1.Returned? {
      SatStageClean(oracle, lk.0, a, runId, clock, acc + lk.1.errors);
    }
  }

  lemma HubStageClean(oracle: Oracle, st: DbState, a: FlowArgs, runId: int, clock: Clock, acc: seq<ErrorEntry>)
    requires forall e :: e in acc ==> HasQuote(e.message)
    ensures Clean(HubStage(oracle, st, a, runId, clock, acc), st.runinfo)
  {
    var ctx := FlowExecutor.Ctx(a, runId, clock.hubs);
    HubsClean(oracle, st, ctx);
    var hb := Legacy.LoadHubsRun(oracle, st, ctx);
    if hb.1.Returned? {
      LinkStageClean(oracle, hb.0, a, runId, clock, acc + hb.1.errors);
    }
  }

  /** The legacy load stages write no run history, and every error they return is a `repr`. */
  lemma LoadStagesClean(oracle: Oracle, st: DbState, a: FlowArgs, runId: int, clock: Clock)
    ensures Clean(LoadStages(oracle, st, a, runId, clock), st.runinfo)
  {
    HashViewClean(oracle, st, a.sourceTable);
    var h := Legacy.HashViewRun(oracle, st, a.sourceTable);
    if h.1.Returned? {
      HubStageClean(oracle, h.0, a, runId, clock, h.1.errors);
    }
  }

  /** `st'` holds every statement of `st` and then possibly more. */
  predicate LogExtends(st': DbState, st: DbState) {
    |st.log| <= |st'.log| && st'.log[..|st.log|] == st.log
  }

  /** The legacy hub load starts with its transitions query and only adds to the log. */
  lemma HubsLogExtends(oracle: Oracle, st: DbState, ctx: LoadContext)
    ensures var hb := Legacy.LoadHubsRun(oracle, st, ctx).0;
      && LogExtends(hb, st) && |hb.log| > |st.log|
      && hb.log[..|st.log| + 1] == st.log + [LegacyGetTransitions(ctx.stgTable)]
  {
    var q := Legacy.TransitionsResult(oracle, st, ctx.stgTable);
    assert q.0.log == st.log + [LegacyGetTransitions(ctx.stgTable)];
    if q.1.Ok? {
      var hubs := ExecEach(HubManager.HubGroups(q.1.value), HubManager.HubLoadStmtFn(ctx));
      assert NoRunInfoWrite(hubs);
      RunEffect(oracle, q.0, hubs, Legacy);
      assert (q.0.log + Executed(hubs))[..|st.log| + 1] == q.0.log;
    }
  }

  /** The legacy link load only adds to the log. */
  lemma LinksLogExtends(oracle: Oracle, st: DbState, ctx: LoadContext)
    ensures LogExtends(Legacy.LoadLinksRun(oracle, st, ctx).0, st)
  {
    var q := Legacy.TransitionsResult(oracle, st, ctx.stgTable);
    assert q.0.log == st.log + [LegacyGetTransitions(ctx.stgTable)];
    if q.1.Ok? {
      var links := ExecEach(LinkManager.LinkGroups(q.1.value), LinkManager.LinkLoadStmtFn(ctx));
      assert NoRunInfoWrite(links);
      RunEffect(oracle, q.0, links, Legacy);
      assert (q.0.log + Executed(links))[..|st.log|] == st.log;
    }
  }

  /** The legacy satellite load only adds to the log. */
  lemma SatsLogExtends(oracle: Oracle, st: DbState, ctx: LoadContext)
    ensures LogExtends(Legacy.LoadSatsRun(oracle, st, ctx).0, st)
  {
    var q := Legacy.TransitionsResult(oracle, st, ctx.stgTable);
    assert q.0.log == st.log + [LegacyGetTransitions(ctx.stgTable)];
    if q.1.Ok? {
      var markers := Where(q.1.value, SatelliteManager.IsSatMarkerFn());
      var sats := SatelliteManager.SatLoadPlan(ctx, q.1.value, markers);
      SatelliteManager.SatLoadPlanWrites(ctx, q.1.value, markers);
      RunEffect(oracle, q.0, sats, Legacy);
      assert (q.0.log + Executed(sats))[..|st.log|] == st.log;
    }
  }

  /** A prefix of a prefix is a prefix. */
  lemma PrefixTrans(a: seq<Stmt>, b: seq<Stmt>, c: seq<Stmt>, n: nat)
    requires |b| <= |c| && c[..|b|] == b
    requires n <= |a| <= |b| && b[..|a|] == a
    ensures c[..n] == a[..n]
  {
    assert c[..n] == c[..|b|][..n];
    assert b[..n] == b[..|a|][..n];
  }

  /**
   * The legacy stages do not short-circuit. When none of them raises, the
   * hubs, links and satellites each load from the state the stage before left,
   * whatever errors it reported, and the returned list is the four error lists
   * in stage order. Right after the hash stage, errors or not, the hub stage's
   * transitions query is submitted.
   */
  lemma StagesAccumulate(oracle: Oracle, st: DbState, a: FlowArgs, runId: int, clock: Clock)
    ensures var h := Legacy.HashViewRun(oracle, st, a.sourceTable);
      var hb := Legacy.LoadHubsRun(oracle, h.0, FlowExecutor.Ctx(a, runId, clock.hubs));
      var lk := Legacy.LoadLinksRun(oracle, hb.0, FlowExecutor.Ctx(a, runId, clock.links));
      var sa := Legacy.LoadSatsRun(oracle, lk.0, FlowExecutor.Ctx(a, runId, clock.sats));
      var r := LoadStages(oracle, st, a, runId, clock);
      h.1.Returned? && hb.1.Returned? && lk.1.Returned? && sa.1.Returned? ==>
        && r == (sa.0, Returned(h.1.errors + hb.1.errors + lk.1.errors + sa.1.errors))
        && |r.0.log| > |h.0.log|
        && r.0.log[..|h.0.log| + 1] == h.0.log + [LegacyGetTransitions(a.sourceTable)]
  {
    var h := Legacy.HashViewRun(oracle, st, a.sourceTable);
    var ch, cl, cs := FlowExecutor.Ctx(a, runId, clock.hubs), FlowExecutor.Ctx(a, runId, clock.links),
                      FlowExecutor.Ctx(a, runId, clock.sats);
    var hb := Legacy.LoadHubsRun(oracle, h.0, ch);
    var lk := Legacy.LoadLinksRun(oracle, hb.0, cl);
    var sa := Legacy.LoadSatsRun(oracle, lk.0, cs);
    if h.1.Returned? && hb.1.Returned? && lk.1.Returned? && sa.1.Returned? {
      HubsLogExtends(oracle, h.0, ch);
      LinksLogExtends(oracle, hb.0, cl);
      SatsLogExtends(oracle, lk.0, cs);
      var n := |h.0.log| + 1;
      PrefixTrans(hb.0.log, lk.0.log, sa.0.log, |hb.0.log|);
      assert sa.0.log[..|hb.0.log|] == hb.0.log;
      PrefixTrans(hb.0.log, hb.0.log, sa.0.log, n);
    }
  }

  /** The count and the word in front of the JSON list hold no quote. */
  lemma HeadNoQuote(n: nat)
    ensures NoQuote(NatToString(n) + " happend: ")
  {
    NumberNoQuote(n);
    NoQuoteConcat(NatToString(n), " happend: ");
  }

  /** A run-info insert whose message breaks its literal is broken. */
  lemma InsertMessageBreaks(t: string, runId: int, lt: string, f: string, st: string, m: string)
    requires Breaks(m)
    ensures QuoteBroken(LegacyInsertRunInfo(t, runId, lt, f, st, m))
  {
    assert m in QuotedSlots(LegacyInsertRunInfo(t, runId, lt, f, st, m));
  }

  /**
   * A failure message whose first error breaks the literal it is spliced
   * into, and fits the 4095 characters kept once written as JSON, breaks the
   * end insert too: `json.dumps` writes a quote and a word as they are.
   */
  lemma FailureEndBreaks(a: FlowArgs, runId: int, errors: seq<ErrorEntry>, clock: Clock)
    requires errors != [] && Breaks(errors[0].message)
    requires |JsonString(errors[0].message)| < 4095
    ensures Breaks(EndMessage(errors))
    ensures QuoteBroken(EndStmt(a, runId, errors, clock))
  {
    HeadNoQuote(|errors|);
    var ms := Messages(errors);
    CutListBreaks(NatToString(|errors|) + " happend: ", ms, 4095);
    InsertMessageBreaks(a.sourceTable, runId, clock.end, Formatted(a.filePath), "failure", EndMessage(errors));
  }

  /**
   * The counterpart: an error whose exception message is empty renders as
   * `X('')`, and the end message `1 happend: ["X('')"]` holds only that
   * doubled quote, so nothing in it ends the literal.
   */
  lemma EmptyMessageEndParses(entry: ErrorEntry, cls: string)
    requires NoQuote(cls) && entry.message == Repr(Exn(cls, ""))
    requires |JsonString(entry.message)| < 4094
    ensures !Breaks(EndMessage([entry]))
  {
    ReprOfEmpty(cls);
    var u, w := cls + "(", ")";
    NoQuoteConcat(cls, "(");
    assert NoQuote(w);
    assert Messages([entry]) == [u + "''" + w];
    HeadNoQuote(1);
    CutListParses(NatToString(1) + " happend: ", u, w, 4095);
  }

  /** A run that collected errors, the first breaking and fitting the cut, gets no end record; the insert's error is added. */
  lemma FinishBroken(oracle: Oracle, st: DbState, errors: seq<ErrorEntry>, a: FlowArgs, runId: int, clock: Clock)
    requires errors != [] && Breaks(errors[0].message)
    requires |JsonString(errors[0].message)| < 4095
    ensures Finish(oracle, (st, Returned(errors)), a, runId, clock).0.runinfo == st.runinfo
    ensures Finish(oracle, (st, Returned(errors)), a, runId, clock).1
         == Returned(errors + [ErrorEntry(Statement(EndStmt(a, runId, errors, clock)),
                                          Repr(Exn("ParserException", "Parser Error: syntax error")))])
  {
    var e := EndStmt(a, runId, errors, clock);
    FailureEndBreaks(a, runId, errors, clock);
    var x := Exn("ParserException", "Parser Error: syntax error");
    assert Intrinsic(e) == Some(x);
    assert Failure(oracle, st, e) == Some(x);
    assert Finish(oracle, (st, Returned(errors)), a, runId, clock)
        == (Submit(oracle, st, e), Returned(errors + ErrorOf(Some(x), e, Legacy)));
  }

  /**
   * When the load stages return an error that breaks a quoted literal and
   * whose JSON text fits the cut, the legacy flow writes no end record: the
   * insert fails to parse, the run's history keeps only what it had (the
   * start row), and the run returns the stages' errors followed by the
   * insert's own error. Engine errors such as
   * `CatalogException('Catalog Error: ...')` are of this kind (`ReprBreaks`).
   */
  lemma FailureNeverRecorded(oracle: Oracle, st: DbState, a: FlowArgs, runId: int, clock: Clock)
    ensures var p := LoadStages(oracle, st, a, runId, clock);
      var r := AfterLoad(oracle, st, a, runId, clock);
      p.1.Returned? && p.1.errors != [] && Breaks(p.1.errors[0].message)
        && |JsonString(p.1.errors[0].message)| < 4095 ==>
        && r.0.runinfo == st.runinfo
        && r.1 == Returned(p.1.errors + [ErrorEntry(Statement(EndStmt(a, runId, p.1.errors, clock)),
                                                    Repr(Exn("ParserException", "Parser Error: syntax error")))])
  {
    var p := LoadStages(oracle, st, a, runId, clock);
    if p.1.Returned? && p.1.errors != [] && Breaks(p.1.errors[0].message)
      && |JsonString(p.1.errors[0].message)| < 4095
    {
      LoadStagesClean(oracle, st, a, runId, clock);
      assert p == (p.0, Returned(p.1.errors));
      FinishBroken(oracle, p.0, p.1.errors, a, runId, clock);
    }
  }

  /**
   * A run that returns no error recorded a "success" row for its file, the
   * text "None" when it had none, so the same arguments are then skipped on
   * any engine where nothing fails: for runs without a file, every later run
   * is skipped.
   */
  lemma RepeatRunSkipped(oracle: Oracle, st: DbState, a: FlowArgs, clock: Clock, clock2: Clock)
    requires FlowExecutor.Permissive(oracle)
    requires !a.forceLoad
    requires FlowRun(oracle, st, a, clock).1 == Returned([])
    ensures var st1 := FlowRun(oracle, st, a, clock).0;
      FlowRun(oracle, st1, a, clock2) == (st1.(log := st1.log + [CheckStmt(a)]), Returned([]))
  {
    var r := FlowRun(oracle, st, a, clock);
    var q := CheckStmt(a);
    assert Intrinsic(q).None?;
    assert Failure(oracle, r.0, q).None? by { assert oracle(r.0, q).None?; }
    SuccessRecorded(oracle, st, a, clock);
    IngestionRowsExist(r.0.runinfo, VStr(Formatted(a.filePath)), VStr(a.sourceTable), VStr("success"));
  }

  /** A run that returns no error leaves a "success" row for its file and table. */
  lemma SuccessRecorded(oracle: Oracle, st: DbState, a: FlowArgs, clock: Clock)
    ensures var r := FlowRun(oracle, st, a, clock);
      r.1 == Returned([]) ==>
        exists i :: 0 <= i < |r.0.runinfo| && IngestionMatch(r.0.runinfo[i], VStr(Formatted(a.filePath)), VStr(a.sourceTable), VStr("success"))
  {
    var r := FlowRun(oracle, st, a, clock);
    var q := CheckStmt(a);
    var rows := IngestionRows(st.runinfo, VStr(Formatted(a.filePath)), VStr(a.sourceTable), VStr("success"));
    if !a.forceLoad && Failure(oracle, st, q).None? && |rows| > 0 {
      assert r.0 == Submit(oracle, st, q);
      IngestionRowsExist(st.runinfo, VStr(Formatted(a.filePath)), VStr(a.sourceTable), VStr("success"));
    } else if a.forceLoad || Failure(oracle, st, q).None? {
      var s0 := if a.forceLoad then st else Submit(oracle, st, q);
      assert r == FromRunId(oracle, s0, a, clock);
      FromRunIdRecords(oracle, s0, a, clock);
      if r.1 == Returned([]) {
        var n := |r.0.runinfo| - 1;
        assert IngestionMatch(r.0.runinfo[n], VStr(Formatted(a.filePath)), VStr(a.sourceTable), VStr("success"));
      }
    }
  }

  /** A run that returned no error ends with a "success" row for its file and table. */
  predicate EndsWithSuccess(r: (DbState, Outcome), a: FlowArgs) {
    r.1 == Returned([]) ==>
      |r.0.runinfo| > 0
      && IngestionMatch(r.0.runinfo[|r.0.runinfo| - 1], VStr(Formatted(a.filePath)), VStr(a.sourceTable), VStr("success"))
  }

  lemma FromRunIdRecords(oracle: Oracle, st: DbState, a: FlowArgs, clock: Clock)
    ensures EndsWithSuccess(FromRunId(oracle, st, a, clock), a)
  {
    var st1 := Submit(oracle, st, GetRunId);
    if Failure(oracle, st, GetRunId).None? {
      var runId := NextRunId(st.runinfo);
      var st2 := Submit(oracle, st1, StartStmt(a, runId, clock));
      if Failure(oracle, st1, StartStmt(a, runId, clock)).None? {
        StagesRecords(oracle, st2, a, runId, clock);
      }
    }
  }

  lemma StagesRecords(oracle: Oracle, st: DbState, a: FlowArgs, runId: int, clock: Clock)
    ensures EndsWithSuccess(Stages(oracle, st, a, runId, clock), a)
  {
    if Truthy(a.filePath) {
      AfterLoadRecords(oracle, StagingLoadRun(oracle, st, a.sourceTable, a.filePath.value).0, a, runId, clock);
    } else {
      AfterLoadRecords(oracle, st, a, runId, clock);
    }
  }

  lemma AfterLoadRecords(oracle: Oracle, st: DbState, a: FlowArgs, runId: int, clock: Clock)
    ensures EndsWithSuccess(AfterLoad(oracle, st, a, runId, clock), a)
  {
    FinishRecords(oracle, LoadStages(oracle, st, a, runId, clock), a, runId, clock);
  }

  /** An end record written for a run with no error is a "success" row for its file and table. */
  lemma FinishRecords(oracle: Oracle, p: (DbState, Outcome), a: FlowArgs, runId: int, clock: Clock)
    ensures EndsWithSuccess(Finish(oracle, p, a, runId, clock), a)
  {
    var r := Finish(oracle, p, a, runId, clock);
    if r.1 == Returned([]) && p.1.Returned? {
      var e := EndStmt(a, runId, p.1.errors, clock);
      assert |p.1.errors + ErrorOf(Failure(oracle, p.0, e), e, Legacy)| == 0;
      assert Failure(oracle, p.0, e).None?;
      assert r.0.runinfo == p.0.runinfo + [RunRowOf(e)];
    }
  }

  /**
   * Unless the load is forced, a run whose arguments match a "success" row
   * is skipped, with no file too: nothing but the check runs.
   */
  lemma AlreadyIngestedSkips(oracle: Oracle, st: DbState, a: FlowArgs, clock: Clock)
    requires !a.forceLoad
    requires Failure(oracle, st, CheckStmt(a)).None?
    requires exists i :: 0 <= i < |st.runinfo| && IngestionMatch(st.runinfo[i], VStr(Formatted(a.filePath)), VStr(a.sourceTable), VStr("success"))
    ensures FlowRun(oracle, st, a, clock) == (st.(log := st.log + [CheckStmt(a)]), Returned([]))
  {
    IngestionRowsExist(st.runinfo, VStr(Formatted(a.filePath)), VStr(a.sourceTable), VStr("success"));
  }
}
