/**
 * The database engine as the generators see it: a connection that takes one
 * statement at a time and either succeeds or raises. Which statements fail is
 * decided by an oracle; what the metadata queries return, and the one write
 * the flow reads back (`metadata.runinfo`), are modelled exactly.
 */
module Engine {
  import opened Common
  import opened Ordering
  import opened Metadata
  import opened Statements
  import opened SqlText

  /** What the engine holds: every statement submitted so far and the three metadata relations. */
  datatype DbState = DbState(
    log: seq<Stmt>,
    tables: seq<TableRecord>,
    transitions: seq<Transition>,
    runinfo: seq<RunRow>)

  /** The engine's verdict on a statement in a given state: `None` when it runs, or the exception it raises. */
  type Oracle = (DbState, Stmt) -> Option<Exn>

  // ---------------------------------------------------------------------------
  // Reading the statements the engine understands
  // ---------------------------------------------------------------------------

  const BaseClause := "base_name = ?"
  const RelClause := "rel_type = ?"
  const WhereBase := "WHERE " + BaseClause
  const WhereRel := "WHERE " + RelClause
  const WhereBoth := "WHERE " + BaseClause + " AND " + RelClause

  /** The filter a parameterized GET_TABLES denotes, for the four `WHERE` clauses the builder can produce. */
  function TableFilterOf(whereClause: string, params: seq<Value>): Option<TableFilter> {
    if whereClause == "" && params == [] then Some(TableFilter(None, None))
    else if whereClause == WhereBase && |params| == 1 && params[0].VStr? then
      Some(TableFilter(Some(params[0].s), None))
    else if whereClause == WhereRel && |params| == 1 && params[0].VStr? then
      Some(TableFilter(None, Some(params[0].s)))
    else if whereClause == WhereBoth && |params| == 2 && params[0].VStr? && params[1].VStr? then
      Some(TableFilter(Some(params[0].s), Some(params[1].s)))
    else None
  }

  /** The legacy f-string filters: a value is spliced in only when it is truthy. */
  function LegacyFilter(baseName: Option<string>, relType: Option<string>): TableFilter {
    TableFilter(if Truthy(baseName) then baseName else None, if Truthy(relType) then relType else None)
  }

  predicate HasQuote(s: string) { '\'' in s }

  /**
   * The values a statement splices between single quotes: those of the
   * legacy module's statements and of the staging-fields query, each of
   * them an operand of a `WHERE` comparison or a member of a `VALUES` row.
   */
  function QuotedSlots(s: Stmt): seq<string> {
    match s
    case LegacyGetTables(b, r) =>
      (if Truthy(b) then [b.value] else []) + (if Truthy(r) then [r.value] else [])
    case LegacyGetTransitions(t) => [t]
    case LegacyCheckIngestion(f, t, st) => [f, t, st]
    case LegacyInsertRunInfo(t, _, lt, f, st, m) => [t, lt, f, st, m]
    case StageFields(t) => [t]
    case _ => []
  }

  /** A statement one of whose spliced values ends its literal early and leaves a stray word. */
  predicate QuoteBroken(s: Stmt) {
    exists v | v in QuotedSlots(s) :: Breaks(v)
  }

  /** Failures that follow from the statement itself, whatever the oracle says. */
  function Intrinsic(s: Stmt): Option<Exn> {
    if QuoteBroken(s) then Some(Exn("ParserException", "Parser Error: syntax error"))
    else match s
      case GetTables(w, ps) =>
        if TableFilterOf(w, ps).None? then Some(Exn("InvalidInputException", "Invalid Input Error: parameters")) else None
      case GetTransitions(ps) =>
        if |ps| != 1 then Some(Exn("InvalidInputException", "Invalid Input Error: parameters")) else None
      case CheckIngestion(ps) =>
        if |ps| != 3 then Some(Exn("InvalidInputException", "Invalid Input Error: parameters")) else None
      case InsertRunInfo(ps) =>
        if |ps| != 6 then Some(Exn("InvalidInputException", "Invalid Input Error: parameters")) else None
      case _ => None
  }

  function Failure(oracle: Oracle, st: DbState, s: Stmt): Option<Exn> {
    if Intrinsic(s).Some? then Intrinsic(s) else oracle(st, s)
  }

  /** The row a run-info insert writes. */
  function RunRowOf(s: Stmt): RunRow
    requires s.InsertRunInfo? ==> |s.params| == 6
    requires s.InsertRunInfo? || s.LegacyInsertRunInfo?
  {
    if s.InsertRunInfo? then
      RunRow(s.params[0], s.params[1], s.params[2], s.params[3], s.params[4], s.params[5])
    else
      RunRow(VStr(s.sourceTable), VInt(s.runId), VStr(s.loadTime), VStr(s.filePath), VStr(s.status), VStr(s.message))
  }

  /** Submitting a statement: it is logged, and a run-info insert that succeeds appends its row. */
  function Submit(oracle: Oracle, st: DbState, s: Stmt): (r: DbState)
    ensures r.log == st.log + [s]
    ensures r.tables == st.tables && r.transitions == st.transitions
    ensures !(s.InsertRunInfo? || s.LegacyInsertRunInfo?) ==> r.runinfo == st.runinfo
  {
    var logged := st.(log := st.log + [s]);
    if Failure(oracle, st, s).None? && (s.InsertRunInfo? || s.LegacyInsertRunInfo?) then
      logged.(runinfo := st.runinfo + [RunRowOf(s)])
    else logged
  }

  // ---------------------------------------------------------------------------
  // Running a plan of actions, collecting errors the way a manager does
  // ---------------------------------------------------------------------------

  /** The error entry a failed statement contributes, if it failed. */
  function ErrorOf(failure: Option<Exn>, s: Stmt, style: Style): (r: seq<ErrorEntry>)
    ensures |r| <= 1
    ensures failure.Some? <==> |r| == 1
  {
    if failure.Some? then [ErrorEntry(Statement(s), Render(style, failure.value))] else []
  }

  /** One action against one state. */
  function Step(oracle: Oracle, st: DbState, a: Action, style: Style): (DbState, seq<ErrorEntry>) {
    match a
    case Exec(s) => (Submit(oracle, st, s), ErrorOf(Failure(oracle, st, s), s, style))
    case Raise(s, e) => (st, [ErrorEntry(Statement(s), Render(style, e))])
  }

  /** A plan run action by action, each against the state the previous ones left; errors are collected in order. */
  function Run(oracle: Oracle, st: DbState, plan: seq<Action>, style: Style): (DbState, seq<ErrorEntry>)
    decreases |plan|
  {
    if plan == [] then (st, [])
    else
      var prev := Run(oracle, st, plan[..|plan| - 1], style);
      var last := Step(oracle, prev.0, plan[|plan| - 1], style);
      (last.0, prev.1 + last.1)
  }

  /** One executed statement per item, in item order: the plan of a manager that runs one statement per group. */
  function ExecEach<G>(gs: seq<G>, f: G -> Stmt): (r: seq<Action>)
    ensures |r| == |gs|
    ensures forall i :: 0 <= i < |gs| ==> r[i] == Exec(f(gs[i]))
    decreases |gs|
  {
    if gs == [] then [] else ExecEach(gs[..|gs| - 1], f) + [Exec(f(gs[|gs| - 1]))]
  }

  lemma ExecEachPrefix<G>(gs: seq<G>, f: G -> Stmt, i: nat)
    requires i < |gs|
    ensures ExecEach(gs[..i + 1], f) == ExecEach(gs[..i], f) + [Exec(f(gs[i]))]
  {
    assert gs[..i + 1][..i] == gs[..i];
  }

  /** A plan of executed statements submits exactly those statements, in order. */
  lemma {:induction false} ExecutedExecEach<G>(gs: seq<G>, f: G -> Stmt)
    ensures |Executed(ExecEach(gs, f))| == |gs|
    ensures forall i :: 0 <= i < |gs| ==> Executed(ExecEach(gs, f))[i] == f(gs[i])
    decreases |gs|
  {
    if gs != [] {
      var init := gs[..|gs| - 1];
      ExecutedExecEach(init, f);
      var p := ExecEach(gs, f);
      assert p[..|p| - 1] == ExecEach(init, f);
      assert Executed(p) == Executed(ExecEach(init, f)) + [f(gs[|gs| - 1])];
    }
  }

  /** One statement per item that passes a test: appending an item appends its statement iff it passes. */
  lemma ExecEachWhereSnoc<G>(s: seq<G>, x: G, p: G -> bool, f: G -> Stmt)
    ensures ExecEach(Where(s + [x], p), f) == ExecEach(Where(s, p), f) + (if p(x) then [Exec(f(x))] else [])
  {
    WhereSnoc(s, x, p);
    var w := Where(s, p);
    if p(x) {
      assert (w + [x])[..|w|] == w;
    } else {
      assert ExecEach(w, f) + [] == ExecEach(w, f);
    }
  }

  /** One action per item, in item order: the plan of a manager that may reject an item before running it. */
  function ActEach<G>(gs: seq<G>, f: G -> Action): (r: seq<Action>)
    ensures |r| == |gs|
    ensures forall i :: 0 <= i < |gs| ==> r[i] == f(gs[i])
    decreases |gs|
  {
    if gs == [] then [] else ActEach(gs[..|gs| - 1], f) + [f(gs[|gs| - 1])]
  }

  lemma ActEachPrefix<G>(gs: seq<G>, f: G -> Action, i: nat)
    requires i < |gs|
    ensures ActEach(gs[..i + 1], f) == ActEach(gs[..i], f) + [f(gs[i])]
  {
    assert gs[..i + 1][..i] == gs[..i];
  }

  /** A plan run for its error list, as the managers return it. */
  function RunPlan(oracle: Oracle, st: DbState, plan: seq<Action>, style: Style): (DbState, Outcome) {
    var r := Run(oracle, st, plan, style);
    (r.0, Returned(r.1))
  }

  /** The statements of a plan that reach the engine. */
  function Executed(plan: seq<Action>): seq<Stmt>
    decreases |plan|
  {
    if plan == [] then []
    else Executed(plan[..|plan| - 1]) + (if plan[|plan| - 1].Exec? then [plan[|plan| - 1].stmt] else [])
  }

  predicate NoRunInfoWrite(plan: seq<Action>) {
    forall i :: 0 <= i < |plan| ==> !(plan[i].stmt.InsertRunInfo? || plan[i].stmt.LegacyInsertRunInfo?)
  }

  lemma NoRunInfoWriteConcat(p: seq<Action>, q: seq<Action>)
    requires NoRunInfoWrite(p) && NoRunInfoWrite(q)
    ensures NoRunInfoWrite(p + q)
  {
    forall i | 0 <= i < |p + q| ensures !((p + q)[i].stmt.InsertRunInfo? || (p + q)[i].stmt.LegacyInsertRunInfo?) {
      if i < |p| {
        assert (p + q)[i] == p[i];
      } else {
        assert (p + q)[i] == q[i - |p|];
      }
    }
  }

  lemma RunSnoc(oracle: Oracle, st: DbState, plan: seq<Action>, a: Action, style: Style)
    ensures Run(oracle, st, plan + [a], style)
         == (Step(oracle, Run(oracle, st, plan, style).0, a, style).0,
             Run(oracle, st, plan, style).1 + Step(oracle, Run(oracle, st, plan, style).0, a, style).1)
  {
    assert (plan + [a])[..|plan|] == plan;
  }

  /** The first i + 1 actions of a plan run as the first i followed by one step. */
  lemma RunPrefix(oracle: Oracle, st: DbState, plan: seq<Action>, i: nat, style: Style)
    requires i < |plan|
    ensures var prev := Run(oracle, st, plan[..i], style);
            var last := Step(oracle, prev.0, plan[i], style);
            Run(oracle, st, plan[..i + 1], style) == (last.0, prev.1 + last.1)
  {
    assert plan[..i + 1][..i] == plan[..i];
  }

  /** A one-action plan is one step. */
  lemma RunSingle(oracle: Oracle, st: DbState, a: Action, style: Style)
    ensures Run(oracle, st, [a], style) == Step(oracle, st, a, style)
  {
    assert [a][..0] == [];
    assert [] + Step(oracle, st, a, style).1 == Step(oracle, st, a, style).1;
  }

  /** Running one plan after another runs their concatenation. */
  lemma {:induction false} RunConcat(oracle: Oracle, st: DbState, p: seq<Action>, q: seq<Action>, style: Style)
    ensures Run(oracle, st, p + q, style)
         == (Run(oracle, Run(oracle, st, p, style).0, q, style).0,
             Run(oracle, st, p, style).1 + Run(oracle, Run(oracle, st, p, style).0, q, style).1)
    decreases |q|
  {
    if q == [] {
      assert p + q == p;
      assert Run(oracle, st, p, style).1 + [] == Run(oracle, st, p, style).1;
    } else {
      var q', last := q[..|q| - 1], q[|q| - 1];
      ConcatSnoc(p, q);
      var a := Run(oracle, st, p, style);
      RunConcat(oracle, st, p, q', style);
      var r' := Run(oracle, a.0, q', style);
      var s := Step(oracle, r'.0, last, style);
      RunSnoc(oracle, st, p + q', last, style);
      RunSnoc(oracle, a.0, q', last, style);
      ConcatAssoc(a.1, r'.1, s.1);
    }
  }

  /**
   * What running a plan does: it logs exactly the executed statements, leaves the
   * metadata relations alone when the plan writes no run info, and returns at most
   * one error per action.
   */
  lemma {:induction false} RunEffect(oracle: Oracle, st: DbState, plan: seq<Action>, style: Style)
    requires NoRunInfoWrite(plan)
    ensures Run(oracle, st, plan, style).0 == st.(log := st.log + Executed(plan))
    ensures |Run(oracle, st, plan, style).1| <= |plan|
    decreases |plan|
  {
    if plan != [] {
      var init := plan[..|plan| - 1];
      assert NoRunInfoWrite(init) by {
        forall i | 0 <= i < |init| ensures !(init[i].stmt.InsertRunInfo? || init[i].stmt.LegacyInsertRunInfo?) {
          assert init[i] == plan[i];
        }
      }
      RunEffect(oracle, st, init, style);
      assert !(plan[|plan| - 1].stmt.InsertRunInfo? || plan[|plan| - 1].stmt.LegacyInsertRunInfo?);
    }
  }

  /** Two renderings of one caught exception at one statement: `repr` for the legacy code, `str` for the refactored. */
  ghost predicate SameError(l: ErrorEntry, r: ErrorEntry) {
    l.origin == r.origin && exists e: Exn :: l.message == Repr(e) && r.message == Str(e)
  }

  /**
   * The rendering style changes nothing but the messages: a plan leaves the
   * same state under both, and reports an error at the same statements, each
   * the `repr` of the exception the refactored code renders with `str`.
   */
  lemma {:induction false} RunStyles(oracle: Oracle, st: DbState, plan: seq<Action>)
    ensures Run(oracle, st, plan, Legacy).0 == Run(oracle, st, plan, Refactored).0
    ensures |Run(oracle, st, plan, Legacy).1| == |Run(oracle, st, plan, Refactored).1|
    ensures forall i :: 0 <= i < |Run(oracle, st, plan, Legacy).1| ==>
              SameError(Run(oracle, st, plan, Legacy).1[i], Run(oracle, st, plan, Refactored).1[i])
    decreases |plan|
  {
    if plan != [] {
      var init := plan[..|plan| - 1];
      RunStyles(oracle, st, init);
      var l := Run(oracle, st, init, Legacy);
      var r := Run(oracle, st, init, Refactored);
      var a := plan[|plan| - 1];
      StepStyles(oracle, l.0, a);
      SameErrorsConcat(l.1, r.1, Step(oracle, l.0, a, Legacy).1, Step(oracle, r.0, a, Refactored).1);
    }
  }

  /** One action under both renderings: the same new state and the same errors, rendered differently. */
  lemma StepStyles(oracle: Oracle, st: DbState, a: Action)
    ensures Step(oracle, st, a, Legacy).0 == Step(oracle, st, a, Refactored).0
    ensures |Step(oracle, st, a, Legacy).1| == |Step(oracle, st, a, Refactored).1|
    ensures forall i :: 0 <= i < |Step(oracle, st, a, Legacy).1| ==>
              SameError(Step(oracle, st, a, Legacy).1[i], Step(oracle, st, a, Refactored).1[i])
  {
    match a
    case Exec(s) =>
      var f := Failure(oracle, st, s);
      if f.Some? {
        assert SameError(ErrorEntry(Statement(s), Repr(f.value)), ErrorEntry(Statement(s), Str(f.value)));
      }
    case Raise(s, e) =>
      assert SameError(ErrorEntry(Statement(s), Repr(e)), ErrorEntry(Statement(s), Str(e)));
  }

  lemma SameErrorsConcat(l1: seq<ErrorEntry>, r1: seq<ErrorEntry>, l2: seq<ErrorEntry>, r2: seq<ErrorEntry>)
    requires |l1| == |r1| && forall i :: 0 <= i < |l1| ==> SameError(l1[i], r1[i])
    requires |l2| == |r2| && forall i :: 0 <= i < |l2| ==> SameError(l2[i], r2[i])
    ensures |l1 + l2| == |r1 + r2| && forall i :: 0 <= i < |l1 + l2| ==> SameError((l1 + l2)[i], (r1 + r2)[i])
  {
    forall i | 0 <= i < |l1 + l2| ensures SameError((l1 + l2)[i], (r1 + r2)[i]) {
      if i < |l1| {
        assert (l1 + l2)[i] == l1[i] && (r1 + r2)[i] == r1[i];
      } else {
        assert (l1 + l2)[i] == l2[i - |l1|] && (r1 + r2)[i] == r2[i - |l1|];
      }
    }
  }

  /** The condition under which action `i` of a plan reports nothing. */
  predicate CleanAt(oracle: Oracle, st: DbState, plan: seq<Action>, i: nat, style: Style)
    requires i < |plan|
  {
    plan[i].Exec? && Failure(oracle, Run(oracle, st, plan[..i], style).0, plan[i].stmt).None?
  }

  /** A plan reports no error iff nothing is rejected and every executed statement succeeds. */
  lemma {:induction false} RunClean(oracle: Oracle, st: DbState, plan: seq<Action>, style: Style)
    ensures Run(oracle, st, plan, style).1 == [] <==>
            forall i :: 0 <= i < |plan| ==> CleanAt(oracle, st, plan, i, style)
    decreases |plan|
  {
    if plan != [] {
      var n := |plan| - 1;
      var init := plan[..n];
      RunClean(oracle, st, init, style);
      forall i | 0 <= i < n ensures CleanAt(oracle, st, plan, i, style) == CleanAt(oracle, st, init, i, style) {
        assert plan[..i] == init[..i];
      }
      assert plan[..n] == init;
      var prev := Run(oracle, st, init, style);
      var last := Step(oracle, prev.0, plan[n], style);
      assert last.1 == [] <==> CleanAt(oracle, st, plan, n, style);
      assert Run(oracle, st, plan, style).1 == prev.1 + last.1;
    }
  }

  // ---------------------------------------------------------------------------
  // The connection
  // ---------------------------------------------------------------------------

  class Database {
    var log: seq<Stmt>
    var tables: seq<TableRecord>
    var transitions: seq<Transition>
    var runinfo: seq<RunRow>
    const oracle: Oracle

    function State(): DbState
      reads this
    {
      DbState(log, tables, transitions, runinfo)
    }

    constructor (oracle: Oracle, tables: seq<TableRecord>, transitions: seq<Transition>, runinfo: seq<RunRow>)
      ensures State() == DbState([], tables, transitions, runinfo)
      ensures this.oracle == oracle
    {
      this.oracle := oracle;
      this.log := [];
      this.tables := tables;
      this.transitions := transitions;
      this.runinfo := runinfo;
    }

    method Submit1(s: Stmt)
      modifies this
      ensures State() == Submit(oracle, old(State()), s)
    {
      var st := Submit(oracle, State(), s);
      log, tables, transitions, runinfo := st.log, st.tables, st.transitions, st.runinfo;
    }

    /** `db.sql(s)` on the raw connection: the exception, if the statement raises one. */
    method Execute(s: Stmt) returns (failure: Option<Exn>)
      modifies this
      ensures failure == Failure(oracle, old(State()), s)
      ensures State() == Submit(oracle, old(State()), s)
    {
      failure := Failure(oracle, State(), s);
      Submit1(s);
    }

    /** One action of a plan, its error caught and rendered in the given style. */
    method Perform(a: Action, style: Style) returns (errors: seq<ErrorEntry>)
      modifies this
      ensures (State(), errors) == Step(oracle, old(State()), a, style)
    {
      match a
      case Exec(s) =>
        var failure := Execute(s);
        errors := ErrorOf(failure, s, style);
      case Raise(s, e) =>
        errors := [ErrorEntry(Statement(s), Render(style, e))];
    }

    /** Runs a whole plan, catching and collecting every error. */
    method PerformAll(plan: seq<Action>, style: Style) returns (errors: seq<ErrorEntry>)
      modifies this
      ensures (State(), errors) == Run(oracle, old(State()), plan, style)
    {
      ghost var st0 := State();
      errors := [];
      for i := 0 to |plan|
        invariant (State(), errors) == Run(oracle, st0, plan[..i], style)
      {
        var e := Perform(plan[i], style);
        RunPrefix(oracle, st0, plan, i, style);
        errors := errors + e;
      }
      assert plan[..|plan|] == plan;
    }

    /** GET_TABLES (or its legacy f-string version): the matching rows in the query's order. */
    method FetchTables(s: Stmt) returns (r: Result<seq<TableRecord>, Exn>)
      requires s.GetTables? || s.LegacyGetTables?
      modifies this
      ensures State() == Submit(oracle, old(State()), s)
      ensures Failure(oracle, old(State()), s).Some? ==> r == Err(Failure(oracle, old(State()), s).value)
      ensures Failure(oracle, old(State()), s).None? && s.GetTables? ==>
                r == Ok(TablesQuery(old(tables), TableFilterOf(s.whereClause, s.params).value))
      ensures Failure(oracle, old(State()), s).None? && s.LegacyGetTables? ==>
                r == Ok(TablesQuery(old(tables), LegacyFilter(s.baseFilter, s.relFilter)))
    {
      var failure := Execute(s);
      if failure.Some? {
        r := Err(failure.value);
      } else if s.GetTables? {
        r := Ok(TablesQuery(tables, TableFilterOf(s.whereClause, s.params).value));
      } else {
        r := Ok(TablesQuery(tables, LegacyFilter(s.baseFilter, s.relFilter)));
      }
    }

    /** GET_TRANSITIONS (or its legacy version): the rows of one staging table in the query's order. */
    method FetchTransitions(s: Stmt) returns (r: Result<seq<Transition>, Exn>)
      requires s.GetTransitions? || s.LegacyGetTransitions?
      modifies this
      ensures State() == Submit(oracle, old(State()), s)
      ensures Failure(oracle, old(State()), s).Some? ==> r == Err(Failure(oracle, old(State()), s).value)
      ensures Failure(oracle, old(State()), s).None? && s.GetTransitions? ==>
                r == Ok(if s.params[0].VStr? then TransitionsQuery(old(transitions), s.params[0].s) else [])
      ensures Failure(oracle, old(State()), s).None? && s.LegacyGetTransitions? ==>
                r == Ok(TransitionsQuery(old(transitions), s.sourceTable))
    {
      var failure := Execute(s);
      if failure.Some? {
        r := Err(failure.value);
      } else if s.GetTransitions? {
        // `source_table = NULL` matches no row
        r := Ok(if s.params[0].VStr? then TransitionsQuery(transitions, s.params[0].s) else []);
      } else {
        r := Ok(TransitionsQuery(transitions, s.sourceTable));
      }
    }

    /** CHECK_INGESTION (or its legacy version): the number of matching run-info rows. */
    method FetchIngestion(s: Stmt) returns (r: Result<nat, Exn>)
      requires s.CheckIngestion? || s.LegacyCheckIngestion?
      modifies this
      ensures State() == Submit(oracle, old(State()), s)
      ensures Failure(oracle, old(State()), s).Some? ==> r == Err(Failure(oracle, old(State()), s).value)
      ensures Failure(oracle, old(State()), s).None? && s.CheckIngestion? ==>
                r == Ok(|IngestionRows(old(runinfo), s.params[0], s.params[1], s.params[2])|)
      ensures Failure(oracle, old(State()), s).None? && s.LegacyCheckIngestion? ==>
                r == Ok(|IngestionRows(old(runinfo), VStr(s.filePath), VStr(s.sourceTable), VStr(s.status))|)
    {
      var failure := Execute(s);
      if failure.Some? {
        r := Err(failure.value);
      } else if s.CheckIngestion? {
        r := Ok(|IngestionRows(runinfo, s.params[0], s.params[1], s.params[2])|);
      } else {
        r := Ok(|IngestionRows(runinfo, VStr(s.filePath), VStr(s.sourceTable), VStr(s.status))|);
      }
    }

    /** GET_RUN_ID: `COALESCE(MAX(run_id), 0) + 1` over the run history. */
    method FetchRunId() returns (r: Result<int, Exn>)
      modifies this
      ensures State() == Submit(oracle, old(State()), GetRunId)
      ensures Failure(oracle, old(State()), GetRunId).Some? ==> r == Err(Failure(oracle, old(State()), GetRunId).value)
      ensures Failure(oracle, old(State()), GetRunId).None? ==> r == Ok(NextRunId(old(runinfo)))
    {
      var failure := Execute(GetRunId);
      if failure.Some? {
        r := Err(failure.value);
      } else {
        r := Ok(NextRunId(runinfo));
      }
    }
  }
}
