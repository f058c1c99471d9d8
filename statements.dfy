/**
 * The statements the generators hand to the engine, the exceptions that come
 * back, and the `(statement, message)` error entries the managers collect.
 *
 * A statement is one constructor per SQL template (or per f-string of the
 * legacy module), carrying the values substituted into it. The whitespace of
 * the templates is not part of the model.
 */
module Statements {
  import opened Common
  import opened PyText

  datatype Stmt =
    // metadata.tables / metadata.transitions / metadata.runinfo
    | MetaTruncate(table: string)
    | MetaLoadCsv(table: string, path: string)
    | GetTables(whereClause: string, params: seq<Value>)
    | GetTransitions(params: seq<Value>)
    | CheckIngestion(params: seq<Value>)
    | GetRunId
    | InsertRunInfo(params: seq<Value>)
    // the legacy module's f-string versions, with the values spliced into the text
    | LegacyGetTables(baseFilter: Option<string>, relFilter: Option<string>)
    | LegacyGetTransitions(sourceTable: string)
    | LegacyCheckIngestion(filePath: string, sourceTable: string, status: string)
    | LegacyInsertRunInfo(sourceTable: string, runId: int, loadTime: string, filePath: string,
                          status: string, message: string)
    // schemas, staging tables and user scripts
    | CreateSchema(schema: string)
    | CreateStagingTable(baseName: string, columns: seq<string>)
    | StageTruncate(table: string)
    | StageFields(table: string)
    | StageLoad(table: string, filePath: string)
    | Script(text: string)
    // entity DDL
    | CreateHub(baseName: string, businessKeys: seq<string>)
    | CreateLink(tableType: string, tableBaseName: string, columns: seq<string>)
    | CreateSat(tableType: string, tableBaseName: string, hubKey: string, fields: seq<string>)
    | CreateCurrentView(tableType: string, tableBaseName: string, hubKey: string, fields: seq<string>)
    | CreateHashView(stgTable: string, cteFields: seq<string>, combined: seq<string>)
    // incremental loads
    | InsertHub(hubName: string, loadDate: string, recordSource: string, runId: int,
                businessKeys: seq<string>, groupName: string, sourceFields: seq<string>,
                stgTable: string, hubHashKey: string)
    | InsertLink(linkName: string, linkHashKey: string, loadDate: string, recordSource: string, runId: int,
                 linkFields: seq<string>, groupName: string, sourceFields: seq<string>, stgTable: string)
    | InsertSatNew(satName: string, satHashKey: string, loadDate: string, sourceField: string,
                   hashdiffField: string, recordSource: string, runId: int,
                   fieldList: seq<string>, selectFields: seq<string>, stgTable: string)
    | InsertSatDelete(satName: string, satHashKey: string, loadDate: string, sourceField: string,
                      hashdiffField: string, recordSource: string, runId: int,
                      fieldList: seq<string>, selectSatFields: seq<string>, stgTable: string)

  /** A Python exception: its class name and its single argument. */
  datatype Exn = Exn(cls: string, arg: string)

  /** `str(ex)`: the argument itself, except that a `KeyError` shows the repr of its key. */
  function Str(e: Exn): string {
    if e.cls == "KeyError" then PyRepr(e.arg) else e.arg
  }

  /** `repr(ex)` for an exception with one string argument. */
  function Repr(e: Exn): string {
    e.cls + "(" + PyRepr(e.arg) + ")"
  }

  /** The `DVSQLError` that `DatabaseConnection.sql` and `fetch_dict` raise for an engine error `e`. */
  function SqlError(description: string, e: Exn): (r: Exn)
    ensures r.cls == "DVSQLError"
    ensures Str(r) == "Error in " + description + ": " + Str(e) + ": " + Str(e)
  {
    Exn("DVSQLError", "Error in " + description + ": " + Str(e) + ": " + Str(e))
  }

  /** How a module renders a caught exception: the refactored code uses `str`, the legacy code `repr`. */
  datatype Style = Refactored | Legacy

  function Render(style: Style, e: Exn): string {
    if style == Refactored then Str(e) else Repr(e)
  }

  /** Every legacy message has a single quote in it, from the repr's quoting. */
  lemma LegacyRenderHasQuote(e: Exn)
    ensures '\'' in Render(Legacy, e)
  {
    PyReprHasSingleQuote(e.arg);
    var p := PyRepr(e.arg);
    var i :| 0 <= i < |p| && p[i] == '\'';
    assert Repr(e)[|e.cls| + 1 + i] == '\'';
  }

  /** What the first half of an error pair names: the failed statement, or a fixed label or a path. */
  datatype Origin = Statement(stmt: Stmt) | Label(text: string)

  datatype ErrorEntry = ErrorEntry(origin: Origin, message: string)

  function Messages(errors: seq<ErrorEntry>): (r: seq<string>)
    ensures |r| == |errors|
    ensures forall i :: 0 <= i < |errors| ==> r[i] == errors[i].message
    decreases |errors|
  {
    if errors == [] then [] else [errors[0].message] + Messages(errors[1..])
  }

  /** A step of a manager's work: run a statement, or report the statement as rejected before it runs. */
  datatype Action = Exec(stmt: Stmt) | Raise(stmt: Stmt, exn: Exn)

  /** The outcome of a manager or flow: the error list it returns, or the exception that escapes it. */
  datatype Outcome = Returned(errors: seq<ErrorEntry>) | Raised(exn: Exn)

  /**
   * The `load_date` expression of every load: the overwrite when it is truthy,
   * otherwise the current time as a quoted literal.
   */
  function LoadDate(overwrite: Option<string>, now: string): (r: string)
    ensures Truthy(overwrite) ==> r == overwrite.value
    ensures !Truthy(overwrite) ==> r == "'" + now + "'"
  {
    if Truthy(overwrite) then overwrite.value else "'" + now + "'"
  }

  /** The parameters every insert of one load shares: staging table, run id, record source and load date. */
  datatype LoadContext = LoadContext(stgTable: string, runId: int, recordSource: string, loadDate: string)
}
