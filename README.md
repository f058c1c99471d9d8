# mallarddv in Dafny

mallarddv turns Data Vault metadata into SQL for an embedded analytical engine.
It reads two metadata relations:

- `metadata.tables` lists the columns of every hub, link, satellite and staging table.
- `metadata.transitions` lists how the fields of a staging table feed those entities.

From these it generates and runs:

- the DDL of every entity;
- a hash view over each staging table;
- the insert-only loads of hubs, links and satellites, delta and full-extract.

A run-history relation, `metadata.runinfo`, records every flow run. Each flow run does:

1. a skip check;
2. run-id allocation;
3. a start record;
4. an optional staging load from a file;
5. the hash, hub, link and satellite stages;
6. an end record.

The repository holds the logic twice:

- the refactored package, under `mallarddv/`, with one manager class per concern;
- the legacy monolith `mallarddv.py`.

This project models both and proves properties of each. It also proves how the two differ.

## Model structure

A Dafny module mirrors each source file.

| module | models |
|---|---|
| `Common`, `PyText` | the Python string operations the generators use: `split`, `join`, slicing, `upper`, `str(n)`, `repr`, `json.dumps` |
| `SqlText` | how the engine's lexer reads a value spliced between single quotes: when it ends the literal early and leaves a stray word, and how `repr` and `json.dumps` carry such a value |
| `Statements` | every SQL template and legacy f-string as one `Stmt` constructor carrying its substituted values; exceptions and the `(statement, message)` error entries |
| `Metadata`, `Ordering` | the three metadata relations, their `ORDER BY` as a stable insertion sort, the run-id and ingestion queries |
| `Engine` | the database connection |
| `Grouping` | the `groupby` helper (`itertools.groupby` into a dict) and the first-seen grouping loop of the schema manager |
| `HashGenerator`, `HubManager`, `LinkManager`, `SatelliteManager`, `SchemaManager`, `MetadataManager`, `EtlService`, `FlowExecutor` | the refactored package, one module per class |
| `Legacy`, `LegacyFlow` | the matching methods of `mallarddv.py`, built from the same statement builders |
| `LoadSemantics` | what the hub, link and satellite insert templates and the current-value view do to rows, as functions on row sequences |

The `Engine` module models the connection as follows:

- A `Database` class holds the statement log and the three metadata relations.
- An oracle decides which statements fail. Two kinds fail whatever the oracle says. The first is a query given the wrong number of parameters. The second is a legacy statement that splices a value between single quotes, where the value ends the literal early and a word follows that cannot follow a literal (`SqlText.Breaks`).
- Each metadata query returns the filtered, sorted rows.
- A run-info insert that succeeds appends its row.

A manager works in two layers:

- It computes a plan, a sequence of `Exec(stmt)` or `Raise(stmt, exn)` actions, from the metadata as a pure function.
- A `method` with the source's loops runs the plan against the `Database`. Each method is proved equal to a `Run` function of the old state.

Errors are rendered in the refactored style, `str(ex)`, or the legacy style, `repr(ex)`.

## Model

| member | source | states |
|---|---|---|
| Common.Split | mallarddv/datavault/link_manager.py:78 | `s.split(c)` always yields at least one part |
| Common.JoinSplit | mallarddv/datavault/link_manager.py:78-80 | joining the parts of a split with the same separator gives the string back |
| Common.SplitHead | mallarddv/datavault/hub_manager.py:121-122 | splitting `a + "." + b` with a dot-free `a` yields `a` first, then the parts of `b` |
| Common.JoinPairInjective | mallarddv/datavault/hash_generator.py:65 | a dot-free head makes the dotted grouping key `a.b` determine both `a` and `b` |
| Common.Take | mallarddv/etl/flow_executor.py:237 | the slice `s[:n]` is a prefix of `s` of length `min(n, len(s))` |
| Common.Drop | mallarddv/datavault/hub_manager.py:124 | the slice `s[n:]` is what follows the first `n` characters |
| Common.Upper | mallarddv/datavault/hash_generator.py:46 | `upper` maps each character, ASCII letters to upper case, and keeps the length |
| Common.UpperCaseInsensitive | mallarddv/datavault/hash_generator.py:46 | strings that differ only in ASCII letter case upper-case to the same text |
| Common.NatToString | mallarddv/etl/flow_executor.py:225 | `str(n)` is a non-empty string of decimal digits |
| Common.Dedup | mallarddv/datavault/hash_generator.py:92-101 | the set of expressions, in first-seen order: the same elements, without repeats |
| Common.QuotedIsQuoteIfSpace | mallarddv/datavault/hub_manager.py:67-70 | a column name is double-quoted, suffix included, iff the name holds a space |
| PyText.PyRepr | mallarddv.py:800 | `repr` of a message, with Python's choice of delimiter and its escapes for backslash, the delimiter, tab, newline, return and the Latin-1 non-printables |
| PyText.PyReprHasSingleQuote | mallarddv.py:800 | every `repr` of a string holds a single quote |
| PyText.ReprBodyKeeps | mallarddv.py:800 | a single quote in the text survives into a `repr` delimited by double quotes |
| PyText.JsonChar | mallarddv.py:1319 | one character as `json.dumps` writes it, ASCII-escaped |
| PyText.JsonStrings | mallarddv.py:1319 | each message of the list is JSON-encoded on its own, in order |
| PyText.JsonBodyKeepsQuote | mallarddv.py:1319 | `json.dumps` leaves a single quote unescaped |
| PyText.Hex | mallarddv.py:1319 | the fixed-width lower-case hexadecimal digits of an escape code |
| SqlText.WordEnd | mallarddv.py:1170 | the end of the word that starts at a position: word characters up to it, none at it |
| SqlText.ScanWitness | mallarddv.py:1170 | where the lexer's reading of a spliced value breaks: a closing quote with only plain characters and doubled quotes before it |
| SqlText.FromPaired | mallarddv.py:1170 | conversely, such a closing quote makes the lexer's reading break |
| SqlText.BreaksExactly | mallarddv.py:1170 | the lexer's reading breaks iff some quote is not doubled, follows a paired text, and is followed by a word that cannot follow a literal |
| SqlText.Assemble | mallarddv.py:1170 | a paired text, a quote, a word that cannot follow a literal and no further word character make a breaking value |
| SqlText.Disassemble | mallarddv.py:1170 | a breaking value splits at its closing quote into those parts |
| SqlText.DoubledQuoteParses | mallarddv.py:1170 | a doubled quote between quote-free texts does not break: `a''b` reads as one literal |
| SqlText.QuoteBeforeKeywordParses | mallarddv.py:1170 | a quote followed by a keyword does not break either: `x'OR'a` reads as two literals joined by `OR` |
| SqlText.JsonBodyPaired | mallarddv.py:1319 | `json.dumps` keeps a paired text paired |
| SqlText.JsonBodyBreaks | mallarddv.py:1319 | a breaking value still breaks once written by `json.dumps` |
| SqlText.JsonListStartsWithFirst | mallarddv.py:1319 | the JSON list of strings starts with `[` and the first string |
| SqlText.CutListBreaks | mallarddv.py:1319 | a quote-free head and a cut of the JSON list break when the first string breaks and fits the cut |
| SqlText.CutListParses | mallarddv.py:1319 | a quote-free head and the whole JSON list of one string with a single doubled quote do not break |
| SqlText.ReprBreaks | mallarddv.py:1327 | the `repr` of an exception whose quote-free message starts with a word that cannot follow a literal breaks: `repr` delimits the message with quotes |
| SqlText.ReprOfEmpty | mallarddv.py:1327 | the `repr` of an exception with an empty message is the class, `(''` and `)` |
| Statements.SqlError | mallarddv/db/database_connection.py:74-80 | a raised `DVSQLError` renders as `Error in <description>: e: e`, the engine's message twice |
| Statements.LegacyRenderHasQuote | mallarddv.py:800 | every legacy error message carries a single quote |
| Statements.Messages | mallarddv.py:1319 | the message column of the error list, in order |
| Statements.LoadDate | mallarddv/datavault/hub_manager.py:106-109 | a truthy override is the load date verbatim; otherwise the quoted current time |
| Ordering.StrLeTotal | mallarddv/db/sql_templates.py:65 | string order is total |
| Ordering.StrLeTrans | mallarddv/db/sql_templates.py:65 | string order is transitive |
| Ordering.Sort | mallarddv/db/sql_templates.py:65 | `ORDER BY` as a stable sort |
| Ordering.SortSorted | mallarddv/db/sql_templates.py:65 | the sorted rows are in order and a permutation of the input |
| Ordering.InsertSorted | mallarddv/db/sql_templates.py:65 | inserting into a sorted sequence keeps it sorted |
| Ordering.WhereSorted | mallarddv/datavault/hub_manager.py:112 | a list comprehension over sorted rows keeps them sorted |
| Ordering.WhereKeeps | mallarddv/datavault/hub_manager.py:112 | the comprehension keeps every row that passes its test |
| Ordering.WherePartition | mallarddv/datavault/satellite_manager.py:305 | the rows passing a test and those failing it add up to all the rows |
| Metadata.TableLeTotalPreorder | mallarddv/db/sql_templates.py:65 | the `rel_type, base_name, mapping, column_position` order is a total preorder |
| Metadata.TransitionLeTotalPreorder | mallarddv/db/sql_templates.py:56 | the `source_table, target_table, group_name, position` order is a total preorder |
| Metadata.TablesQueryCorrect | mallarddv/db/sql_templates.py:59-66 | GET_TABLES returns exactly the rows matching the filter, in `ORDER BY` order |
| Metadata.TransitionsQueryCorrect | mallarddv/db/sql_templates.py:50-57 | GET_TRANSITIONS returns exactly one source table's rows, sorted and contiguous by `target_table.group_name` |
| Metadata.RelBaseKeyInjective | mallarddv/datavault/link_manager.py:73-75 | with dot-free rel types, a `rel_type.base_name` key fixes both fields |
| Metadata.TargetGroupKeyInjective | mallarddv/datavault/hub_manager.py:114-116 | with dot-free target tables, a `target_table.group_name` key fixes both fields |
| Metadata.TargetGroupKeyParts | mallarddv/datavault/hub_manager.py:121-122 | `split(".")[0]` of the key is the target table; with a dot-free group name, `[1]` is the group |
| Metadata.RelBaseKeyParts | mallarddv/datavault/link_manager.py:78-80 | the first split part is the rel type, and the rest joined back is the base name |
| Metadata.TargetGroupsDotted | mallarddv/datavault/hub_manager.py:121-122 | every grouping key holds a dot, so index `[1]` exists |
| Metadata.TablesContiguousByRelBase | mallarddv/datavault/link_manager.py:73-75 | sorted table rows are contiguous by `rel_type.base_name` |
| Metadata.TablesContiguousByBase | mallarddv/datavault/hub_manager.py:55-59 | rows of a single rel type, sorted, are contiguous by `base_name` |
| Metadata.TransitionsContiguousByTargetGroup | mallarddv/datavault/hub_manager.py:114-116 | one source table's sorted transitions are contiguous by `target_table.group_name` |
| Metadata.TransitionsContiguousByGroup | mallarddv/datavault/hash_generator.py:118-120 | they are contiguous by `group_name` alone when each group name has one target table |
| Metadata.NextRunIdFresh | mallarddv/db/sql_templates.py:86-90 | the next run id exceeds every recorded id, and is 1 on an empty history |
| Metadata.NextRunIdAdvances | mallarddv/db/sql_templates.py:86-90 | recording a row with the allocated id strictly raises the next id |
| Metadata.IngestionRowsExist | mallarddv/db/sql_templates.py:68-75 | the ingestion query is non-empty iff a history row matches file, table and status |
| Engine.Submit | mallarddv/db/database_connection.py:70-80 | a submitted statement is logged; only a run-info insert can change the history; the metadata tables never change |
| Engine.ErrorOf | mallarddv/db/database_connection.py:74-78 | a failed statement contributes exactly one `(sql, message)` entry, a successful one none |
| Engine.ExecEach | mallarddv/datavault/hub_manager.py:120-156 | one executed statement per group, in group order |
| Engine.ExecutedExecEach | mallarddv/datavault/hub_manager.py:120-156 | such a plan submits exactly those statements, in order |
| Engine.ExecEachWhereSnoc | mallarddv/db/schema_manager.py:94-95 | a group that fails the test adds no statement; one that passes adds its own |
| Engine.ActEach | mallarddv/datavault/satellite_manager.py:77-120 | one action per group, in group order |
| Engine.RunConcat | mallarddv/etl/flow_executor.py:125-192 | running one plan after another is running their concatenation |
| Engine.RunEffect | mallarddv/db/database_connection.py:48-80 | a plan without run-info writes only extends the log, by its executed statements, and reports at most one error per action |
| Engine.RunStyles | mallarddv.py:797-800 | the legacy `repr` and refactored `str` renderings leave the same state and report errors at the same statements |
| Engine.StepStyles | mallarddv.py:797-800 | the same holds for one action |
| Engine.RunClean | mallarddv/db/database_connection.py:70-78 | a plan reports no error iff nothing is rejected and every executed statement succeeds |
| Engine.Database.Execute | mallarddv/db/database_connection.py:82-101 | returns the engine's exception for the statement and logs it |
| Engine.Database.Perform | mallarddv/db/database_connection.py:48-80 | one action, its error caught and rendered |
| Engine.Database.PerformAll | mallarddv/db/database_connection.py:48-80 | runs a whole plan and collects the errors, as `Run` |
| Engine.Database.FetchTables | mallarddv/db/database_connection.py:103-120 | the rows the table query selects, or the engine's exception |
| Engine.Database.FetchTransitions | mallarddv/db/database_connection.py:103-120 | the rows of the source table in query order, or the exception |
| Engine.Database.FetchIngestion | mallarddv/db/sql_templates.py:68-75 | the number of matching history rows, or the exception |
| Engine.Database.FetchRunId | mallarddv/db/sql_templates.py:86-90 | `COALESCE(MAX(run_id), 0) + 1`, or the exception |
| Grouping.Runs | mallarddv/datavault/hash_generator.py:64-66 | `itertools.groupby`: the maximal runs of records with equal keys |
| Grouping.RunsPartition | mallarddv/datavault/hash_generator.py:64-66 | the runs are non-empty, homogeneous, and concatenate back to the input |
| Grouping.RunsDistinctWhenContiguous | mallarddv/datavault/hash_generator.py:64-66 | on contiguous records no key has two runs |
| Grouping.FromPairsKeys | mallarddv/datavault/hash_generator.py:62-63 | the dict comprehension keeps each key once, in first-seen order |
| Grouping.FromPairsLookup | mallarddv/datavault/hash_generator.py:62-63 | each key holds the value of its last pair |
| Grouping.FromPairsDistinct | mallarddv/datavault/hash_generator.py:62-63 | with fresh keys only, the dict is the pair list itself |
| Grouping.RunKeysExactly | mallarddv/datavault/hash_generator.py:62-67 | a key has a group iff some record carries it |
| Grouping.GroupByContiguous | mallarddv/datavault/hash_generator.py:62-67 | on contiguous records grouping is lossless: one group per distinct key, in record order, each holding every record of its key |
| Grouping.GroupByGeneral | mallarddv/datavault/hash_generator.py:62-67 | on any records, one entry per key in first-seen order, holding only the key's last run |
| Grouping.GroupByDropsEarlierRun | mallarddv/datavault/hash_generator.py:62-67 | a key that recurs after another key keeps its first position but loses its earlier records |
| Grouping.GroupBySingleKey | mallarddv/datavault/satellite_manager.py:260-264 | records that share one key group into that key with all of them, in order |
| Grouping.GroupFirstSeen | mallarddv/db/schema_manager.py:73-78 | the `setdefault`-style loop yields one group per key, in first-seen order, each holding its records |
| Grouping.FirstSeenInvIs | mallarddv/db/schema_manager.py:73-78 | the loop's invariant determines its dictionary: it is the first-seen grouping |
| Grouping.GroupsFor | mallarddv/db/schema_manager.py:136-141 | the groups of that loop, one per distinct key, each holding exactly the records of its key |
| Grouping.FirstSeenPermutes | mallarddv/db/schema_manager.py:136-141 | flattening the groups is a permutation of the records |
| Grouping.FirstSeenIsGrouping | mallarddv/db/schema_manager.py:73-78 | the first-seen grouping is a grouping: distinct keys, complete groups, every record's key present |
| Grouping.GroupsOfAll | mallarddv/datavault/hub_manager.py:59-61 | on contiguous records each group holds exactly the records of its key, and keys are distinct |
| Grouping.GroupWitness | mallarddv/datavault/link_manager.py:77-80 | each group is named after one of its records |
| Grouping.WhereContiguous | mallarddv/datavault/hub_manager.py:112-116 | filtering contiguous records leaves them contiguous |
| Grouping.ContiguousConcat | mallarddv/datavault/link_manager.py:66-71 | two contiguous, key-disjoint lists stay contiguous when one extends the other |
| HashGenerator.CoalesceAll | mallarddv/datavault/hash_generator.py:43 | one `coalesce(<f>::string,'')` per field, in field order |
| HashGenerator.UpperJoin | mallarddv/datavault/hash_generator.py:44-46 | upper-casing the `||`-joined values upper-cases each value |
| HashGenerator.HashOfCaseAndNullBlind | mallarddv/datavault/hash_generator.py:43-46 | rows equal up to ASCII letter case and NULL-versus-empty get the same hash |
| HashGenerator.HashOfSeparatorCollision | mallarddv/datavault/hash_generator.py:44 | for all values `a` and `b`, the row of `a` plus the separator and `b`, and the row of `a` and the separator plus `b`, differ but hash alike: the separator is not escaped |
| HashGenerator.CteExprs | mallarddv/datavault/hash_generator.py:92-101 | exactly the transformed expressions of non-raw fields outside `ll`, `sat_delta` and `sat_full` |
| HashGenerator.RawExprs | mallarddv/datavault/hash_generator.py:104-110 | exactly the literal expressions of raw fields |
| HashGenerator.PlainCteExpr | mallarddv/datavault/hash_generator.py:95 | without a transformation a field passes through under its own name |
| HashGenerator.CteFieldsCorrect | mallarddv/datavault/hash_generator.py:92-110 | the CTE lists every pass-through and raw field, and nothing else; pass-through fields once each |
| HashGenerator.SourceFields | mallarddv/datavault/hash_generator.py:125 | the group's source fields, in order |
| HashGenerator.Render | mallarddv/datavault/hash_generator.py:126 | one `sha1(...) as <name>` expression per hash column |
| HashGenerator.HubColumns | mallarddv/datavault/hash_generator.py:118-126 | one `<group>_hk` per business-key group, over its source fields |
| HashGenerator.SatColumns | mallarddv/datavault/hash_generator.py:151-161 | one `<group>_hashdiff` per satellite group, over its source fields |
| HashGenerator.HubGroupKeys | mallarddv/datavault/hash_generator.py:118-120 | a group name has a hub group iff a `bk` record carries it |
| HashGenerator.KeySourcesError | mallarddv/datavault/hash_generator.py:137-144 | a link group fails iff one of its `ll` members names no hub group, and then with `KeyError` |
| HashGenerator.LinkColumnsError | mallarddv/datavault/hash_generator.py:128-148 | the link loop fails iff some group has a dangling reference; otherwise one `<group>_hk` per link group over the referenced hubs' fields and its own keys |
| HashGenerator.HashColumnsErrorCause | mallarddv/datavault/hash_generator.py:141 | the view fails only with `KeyError`, and only for a dangling hub reference |
| HashGenerator.HashColumnsErrorComplete | mallarddv/datavault/hash_generator.py:141 | on transitions contiguous by group, every dangling reference makes the view fail |
| HashGenerator.HubColumnsCover | mallarddv/datavault/hash_generator.py:118-126 | every business-key group gets its `_hk` column, over exactly that group's fields |
| HashGenerator.SatColumnsCover | mallarddv/datavault/hash_generator.py:151-161 | every satellite group gets its `_hashdiff` column, over exactly that group's fields |
| HashGenerator.HashColumnsLayout | mallarddv/datavault/hash_generator.py:116-163 | when the link loop succeeds, column `i` is hub group `i`'s `_hk`, then link group `i`'s `<key>_hk` over the hub keys it names, then satellite group `i`'s `_hashdiff`, and nothing else |
| HashGenerator.KeySourcesStops | mallarddv/datavault/hash_generator.py:137-144 | once a member fails, the whole group fails with that error |
| HashGenerator.LinkColumnsStops | mallarddv/datavault/hash_generator.py:133-148 | once a group fails, the whole loop fails with that error |
| HashGenerator.AppendSourceFields | mallarddv/datavault/hash_generator.py:141-142 | the innermost loop appends a hub's source fields, in order |
| HashGenerator.LinkKeySourceNames | mallarddv/datavault/hash_generator.py:136-144 | the inner link loop computes the group's key sources, or the `KeyError` |
| HashGenerator.HubHashFields | mallarddv/datavault/hash_generator.py:122-126 | the hub loop renders the hub columns |
| HashGenerator.LinkHashFields | mallarddv/datavault/hash_generator.py:133-148 | the link loop renders the link columns, or raises their error |
| HashGenerator.SatHashFields | mallarddv/datavault/hash_generator.py:155-161 | the satellite loop renders the hash-diff columns |
| HashGenerator.BuildHashFieldList | mallarddv/datavault/hash_generator.py:116-161 | `hash_field_list` is the rendering of all hash columns, or the escaping `KeyError` |
| HashGenerator.ComputeHashView | mallarddv/datavault/hash_generator.py:69-181 | a failed fetch raises a `DVSQLError` and a dangling reference a `KeyError`; otherwise one CREATE VIEW is run, returning its error if any |
| HubManager.BkColumns | mallarddv/datavault/hub_manager.py:65-71 | one business-key column per record, in record order |
| HubManager.BuildBkList | mallarddv/datavault/hub_manager.py:65-71 | the loop builds `bk_list`, composite iff there is more than one key |
| HubManager.BkColumnNaming | mallarddv/datavault/hub_manager.py:67-70 | a key column is `<name>_bk`, or `<name>_cbk` when composite, quoted iff the name holds a space |
| HubManager.HubRecords | mallarddv/datavault/hub_manager.py:55-57 | the fetched rows are hub rows, contiguous by base name |
| HubManager.CreateHubGroups | mallarddv/datavault/hub_manager.py:59-61 | one CREATE TABLE per distinct hub base name, none twice |
| HubManager.CreateHubPlanAt | mallarddv/datavault/hub_manager.py:61-75 | each hub's DDL holds the columns of every business key of that hub |
| HubManager.CreateHubBound | mallarddv/datavault/hub_manager.py:54-83 | at most one error per hub and no run-history write; a failed fetch raises `DVSQLError` |
| HubManager.CreateHubFromMetadata | mallarddv/datavault/hub_manager.py:41-83 | runs the hub DDL plan against the engine |
| HubManager.SubAliases | mallarddv/datavault/hub_manager.py:126-131 | `SUB.<source> AS <target>` for each business key, in order |
| HubManager.SrcRefs | mallarddv/datavault/hub_manager.py:133-135 | `src.<source>` for each business key, in order |
| HubManager.HubHashKeyOfName | mallarddv/datavault/hub_manager.py:124 | a hub named `hub_x` has the hash key `x_hk`; a name shorter than four characters gives `_hk` |
| HubManager.HubLoadStmtNames | mallarddv/datavault/hub_manager.py:121-124 | a group's insert targets its transitions' table, with the key named after what follows `hub_` |
| HubManager.HubGroupsCorrect | mallarddv/datavault/hub_manager.py:111-120 | each load group comes from a `hub_` transition and holds exactly the transitions with its key |
| HubManager.LoadHubsPlanCorrect | mallarddv/datavault/hub_manager.py:120-147 | each insert goes to a `hub_` table of the staging table with that table's hash key, over exactly its group's keys |
| HubManager.LoadHubsBound | mallarddv/datavault/hub_manager.py:118-158 | at most one error per group and no run-history write |
| HubManager.LoadRelatedHubs | mallarddv/datavault/hub_manager.py:85-158 | runs one INSERT_HUB per group and collects the errors |
| LinkManager.HkColumns | mallarddv/datavault/link_manager.py:91-94 | one `<name>_hk CHAR(40)` per `ll` field, in order |
| LinkManager.DkColumns | mallarddv/datavault/link_manager.py:95-98 | one `<name>_dk <type>` per other field, in order |
| LinkManager.LinkColumnsStep | mallarddv/datavault/link_manager.py:88-98 | each field adds one column, to the list its mapping selects |
| LinkManager.BuildLinkColumns | mallarddv/datavault/link_manager.py:85-98 | the loop builds `hk_list` and `dk_list` |
| LinkManager.LinkColumnNaming | mallarddv/datavault/link_manager.py:89-98 | the column naming and quoting of hub references and dependent keys |
| LinkManager.LinkColumnAt | mallarddv/datavault/link_manager.py:103 | each field gives exactly one column: hub references first, then dependent keys, each in field order |
| LinkManager.LinkDdlStmtOf | mallarddv/datavault/link_manager.py:77-80 | a group's DDL names the type and base name of the rows behind its key |
| LinkManager.LinkGroupAt | mallarddv/datavault/link_manager.py:73-80 | with dot-free rel types, DDL `i` names one fetched row's type and base name |
| LinkManager.LinkRecordsShape | mallarddv/datavault/link_manager.py:61-71 | the fetched rows are contiguous by `rel_type.base_name` and of the requested types |
| LinkManager.CreateLinkPlanAt | mallarddv/datavault/link_manager.py:73-104 | each DDL is that of exactly the rows of one link |
| LinkManager.CreateLinkGroups | mallarddv/datavault/link_manager.py:73-77 | one DDL per distinct `rel_type.base_name` |
| LinkManager.CreateLinkBound | mallarddv/datavault/link_manager.py:58-112 | at most one error per link and no run-history write; a failed fetch raises `DVSQLError` |
| LinkManager.CreateLinkFromMetadata | mallarddv/datavault/link_manager.py:41-112 | runs the link DDL plan against the engine |
| LinkManager.LinkAliases | mallarddv/datavault/link_manager.py:163-168 | `SUB.<source>[_hk] AS <target>` per field, `_hk` exactly for `ll` |
| LinkManager.LinkSrcRefs | mallarddv/datavault/link_manager.py:170-175 | `src.<source>[_hk]` per field, `_hk` exactly for `ll` |
| LinkManager.LinkHashKeyNames | mallarddv/datavault/link_manager.py:159-161 | `link_x` and `nhl_x` both get the hash key `x_hk` |
| LinkManager.LinkGroupsCorrect | mallarddv/datavault/link_manager.py:142-151 | each load group comes from a link transition and holds exactly the transitions with its key |
| LinkManager.LoadLinksPlanCorrect | mallarddv/datavault/link_manager.py:155-187 | one insert per distinct `(target_table, group_name)` of link transitions, with its hash key and fields |
| LinkManager.LoadLinksBound | mallarddv/datavault/link_manager.py:153-198 | at most one error per group and no run-history write |
| LinkManager.LoadRelatedLinks | mallarddv/datavault/link_manager.py:114-198 | runs one INSERT_LINK per group and collects the errors |
| SatelliteManager.SatHkColumns | mallarddv/datavault/satellite_manager.py:91-94 | one hub-key column per `hk` field |
| SatelliteManager.SatFieldColumns | mallarddv/datavault/satellite_manager.py:95-98 | one payload column per other field |
| SatelliteManager.SatColumnsStep | mallarddv/datavault/satellite_manager.py:88-98 | each field adds one column, to the list its mapping selects |
| SatelliteManager.BuildSatColumns | mallarddv/datavault/satellite_manager.py:85-98 | the loop builds `hk_list` and `field_list` |
| SatelliteManager.SatColumnNaming | mallarddv/datavault/satellite_manager.py:171-181 | table columns carry a type and view columns none; names quoted iff they hold a space |
| SatelliteManager.SatActionCorrect | mallarddv/datavault/satellite_manager.py:100-120 | a satellite is built iff it has exactly one hub key; otherwise its statement is reported with the `DVEntityError` message |
| SatelliteManager.CreateSatPlanAt | mallarddv/datavault/satellite_manager.py:73-80 | each group holds exactly the rows of one satellite |
| SatelliteManager.CreateSatBound | mallarddv/datavault/satellite_manager.py:58-122 | at most one error per satellite and no run-history write; a failed fetch raises `DVSQLError` |
| SatelliteManager.CreateSatTables | mallarddv/datavault/satellite_manager.py:77-121 | the loop both builders share runs the satellite plan |
| SatelliteManager.CreateSatFromMetadata | mallarddv/datavault/satellite_manager.py:41-122 | the table builder |
| SatelliteManager.CreateCurrentSatFromMetadata | mallarddv/datavault/satellite_manager.py:124-209 | the current-view builder |
| SatelliteManager.TargetFields | mallarddv/datavault/satellite_manager.py:270-272 | the payload's target fields, in order |
| SatelliteManager.Qualified | mallarddv/datavault/satellite_manager.py:273-275 | `src.<source>` or `sat.<target>` per payload field |
| SatelliteManager.SatFieldsAll | mallarddv/datavault/satellite_manager.py:250-264 | the `groupby` over a marker's payload returns all of it |
| SatelliteManager.MarkerActionsCorrect | mallarddv/datavault/satellite_manager.py:264-323 | one INSERT_SAT_NEW per marker, plus INSERT_SAT_DELETE for `sat_full`, with the target table, hash key, fields and hash-diff column |
| SatelliteManager.SatLoadPlanSize | mallarddv/datavault/satellite_manager.py:245-334 | one insert per marker plus one per full-satellite marker |
| SatelliteManager.LoadSatsBound | mallarddv/datavault/satellite_manager.py:243-336 | at most one error per insert and no run-history write |
| SatelliteManager.SatLoadPlanWrites | mallarddv/datavault/satellite_manager.py:298-334 | no satellite insert writes run history |
| SatelliteManager.LoadMarker | mallarddv/datavault/satellite_manager.py:277-334 | runs one marker's statements |
| SatelliteManager.LoadRelatedSats | mallarddv/datavault/satellite_manager.py:211-336 | runs every marker's statements and collects the errors |
| SchemaManager.CreateSchemas | mallarddv/db/schema_manager.py:43-55 | one `CREATE SCHEMA IF NOT EXISTS` per schema, errors collected |
| SchemaManager.SchemasEffect | mallarddv/db/schema_manager.py:43-55 | the statements are submitted in list order, at most one error each, and nothing else changes |
| SchemaManager.CreateSchemasEffect | mallarddv/db/schema_manager.py:20 | exactly `stg`, `dv`, `bv`, `dm`, `metadata` are created, in that order |
| SchemaManager.StagingColumnsOf | mallarddv/db/schema_manager.py:86-92 | one staging column per record |
| SchemaManager.StagingColumnsPrefix | mallarddv/db/schema_manager.py:86-92 | a record adds its column exactly when its mapping is `c` |
| SchemaManager.BuildStagingColumns | mallarddv/db/schema_manager.py:85-92 | the loop builds `columns` |
| SchemaManager.StagingColumnNaming | mallarddv/db/schema_manager.py:88-91 | a column is `<name> <type>`, quoted iff the name holds a space |
| SchemaManager.StagingColumnsOrder | mallarddv/db/schema_manager.py:86-92 | the columns are exactly those of the `c` records |
| SchemaManager.StagingPlanSound | mallarddv/db/schema_manager.py:94-100 | every staging table created is named after a base name of the records and has that base name's non-empty column list |
| SchemaManager.StagingPlanComplete | mallarddv/db/schema_manager.py:81-100 | every base name with a `c` record gets its table |
| SchemaManager.StagingPlanDistinct | mallarddv/db/schema_manager.py:73-81 | no staging table is created twice |
| SchemaManager.CreateStagingBound | mallarddv/db/schema_manager.py:70-112 | at most one error per table, and no metadata change |
| SchemaManager.CreateStagingTableFromMetadata | mallarddv/db/schema_manager.py:57-112 | runs the staging plan over the first-seen grouping |
| SchemaManager.ScriptsRunConcat | mallarddv/db/schema_manager.py:144-169 | applying two record lists in turn is applying their concatenation |
| SchemaManager.ApplyScript | mallarddv/db/schema_manager.py:148-169 | one script: run it if the file reads, otherwise report the path with the read error |
| SchemaManager.ApplyGroupScripts | mallarddv/db/schema_manager.py:148-169 | one base name's scripts, in record order |
| SchemaManager.ApplyGroups | mallarddv/db/schema_manager.py:144-169 | every base name's scripts, in first-seen order |
| SchemaManager.ApplyScriptFromMetadata | mallarddv/db/schema_manager.py:114-171 | filter, group, then apply the scripts |
| SchemaManager.ScriptOrderPermutes | mallarddv/db/schema_manager.py:133-141 | every record of the requested type gets exactly one attempt, and no other record does |
| SchemaManager.ScriptPathPlain | mallarddv/db/schema_manager.py:151 | plain names are joined with one `/` between them |
| SchemaManager.ScriptPathAbsolute | mallarddv/db/schema_manager.py:151 | an absolute column name discards the scripts directory |
| SchemaManager.ScriptStepEffect | mallarddv/db/schema_manager.py:155-169 | a readable script is submitted; an unreadable one is reported by its path |
| SchemaManager.ScriptsEffect | mallarddv/db/schema_manager.py:144-169 | exactly the readable scripts are submitted, in order, and no metadata changes |
| SchemaManager.ScriptsErrorsNamed | mallarddv/db/schema_manager.py:166-169 | every error names an unreadable script path or a failed script |
| MetadataManager.TablesWhere | mallarddv/metadata/metadata_manager.py:57-67 | the clause and parameters for each combination of truthy filters, denoting the intended filter |
| MetadataManager.TablesStmt | mallarddv/metadata/metadata_manager.py:67-70 | the GET_TABLES statement selects the intended filter |
| MetadataManager.GetTables | mallarddv/metadata/metadata_manager.py:44-70 | the matching rows, sorted; an engine error raises `DVSQLError` |
| MetadataManager.GetTransitions | mallarddv/metadata/metadata_manager.py:30-42 | the source table's transitions, sorted, or `DVSQLError` |
| MetadataManager.GetEntityTables | mallarddv/datavault/link_manager.py:61-71 | one `get_tables` call with a rel type, otherwise two, concatenated |
| MetadataManager.EntityTablesValue | mallarddv/datavault/link_manager.py:61-71 | a successful fetch returns the rows as they were; a failed one raises `DVSQLError` |
| MetadataManager.TypedRecords | mallarddv/metadata/metadata_manager.py:44-70 | a fetch for one rel type returns that type's rows, contiguous by `rel_type.base_name` |
| MetadataManager.EntityRecordsContiguous | mallarddv/datavault/satellite_manager.py:61-75 | the builders' fetched rows are of the requested types and contiguous by `rel_type.base_name` |
| MetadataManager.CheckPreviousIngestion | mallarddv/metadata/metadata_manager.py:184-201 | true iff a history row has this file, table and status; an engine error raises `DVSQLError` |
| MetadataManager.GetNextRunId | mallarddv/metadata/metadata_manager.py:174-182 | one more than the largest recorded run id, 1 on an empty history |
| MetadataManager.RunInfoParamsColumns | mallarddv/metadata/metadata_manager.py:240-243 | each parameter lands in its own column of the stored row |
| MetadataManager.RegisterRunInfo | mallarddv/metadata/metadata_manager.py:221-243 | appends exactly one history row, or raises `DVSQLError` |
| MetadataManager.OverwriteMetadataFromFiles | mallarddv/metadata/metadata_manager.py:111-172 | truncate and reload each relation with a truthy path; always returns the error list |
| MetadataManager.OverwriteBound | mallarddv/metadata/metadata_manager.py:130-172 | with no path nothing runs; otherwise two statements per truthy path, at most one error each |
| EtlService.LoadFileToStaging | mallarddv/etl/etl_service.py:33-114 | runs the truncate, field query and load of the staging table |
| EtlService.StagingLoadEffect | mallarddv/etl/etl_service.py:61-114 | a failed truncate stops the load with that error; otherwise at most one error; only the log changes |
| FlowExecutor.BuildRunEndMessage | mallarddv/etl/flow_executor.py:223-229 | the message built by appending is the summary cut to 4095 characters |
| FlowExecutor.RunEndMessageShape | mallarddv/etl/flow_executor.py:223-237 | empty iff there is no error; at most 4095 characters; a prefix of count, first message and remainder count |
| FlowExecutor.RegisterRunEnd | mallarddv/etl/flow_executor.py:231-240 | one run-info write whose failure is swallowed |
| FlowExecutor.EndRunRow | mallarddv/etl/flow_executor.py:231-240 | the end record appends the end row exactly when its insert succeeds |
| FlowExecutor.EndRunHistory | mallarddv/etl/flow_executor.py:231-240 | the end record adds the end row or nothing |
| FlowExecutor.HashViewKeepsHistory | mallarddv/etl/flow_executor.py:139-147 | the hash stage writes no run history |
| FlowExecutor.GateSettled | mallarddv/etl/flow_executor.py:145-147 | a stage that returns errors stops the run with `failure`; one that raises leaves the run open |
| FlowExecutor.SatStageOutcome | mallarddv/etl/flow_executor.py:184-201 | the satellite stage decides `success` or `failure` and keeps the history |
| FlowExecutor.LinkStageOutcome | mallarddv/etl/flow_executor.py:168-179 | the link stage and the rest leave the run settled |
| FlowExecutor.HubStageOutcome | mallarddv/etl/flow_executor.py:152-163 | the hub stage and the rest leave the run settled |
| FlowExecutor.HashErrorsStop | mallarddv/etl/flow_executor.py:136-147 | unlike the legacy flow, hash-view errors stop the refactored load stages at once: no load statement follows them, their errors are returned, and the run is to end with `failure` |
| FlowExecutor.LoadStagesOutcome | mallarddv/etl/flow_executor.py:136-201 | the load stages leave the run settled: a terminal status exactly when they return, `success` only without error |
| FlowExecutor.StagesOutcome | mallarddv/etl/flow_executor.py:122-201 | the same with the staging load in front |
| FlowExecutor.AfterStartHistory | mallarddv/etl/flow_executor.py:121-203 | after the start record the history gains at most the end row, and none when an exception escapes |
| FlowExecutor.FromRunIdHistory | mallarddv/etl/flow_executor.py:100-203 | from the run id on: nothing new, or the start row, or the start row and the end row |
| FlowExecutor.FlowHistory | mallarddv/etl/flow_executor.py:59-203 | a run stopped before its start record adds nothing and returns at most one labelled error; otherwise the start row, then at most the end row |
| FlowExecutor.AlreadyIngestedSkips | mallarddv/etl/flow_executor.py:89-95 | a file already loaded with `success` is skipped unless forced; only the check runs |
| FlowExecutor.PermissiveFromRunId | mallarddv/etl/flow_executor.py:100-203 | on an engine where nothing fails, the start row and, unless an exception escapes, the end row are recorded |
| FlowExecutor.PermissiveAfterStart | mallarddv/etl/flow_executor.py:121-201 | on such an engine the end row is recorded whenever the stages return |
| FlowExecutor.PermissiveRunRecorded | mallarddv/etl/flow_executor.py:89-203 | on such an engine a run not skipped records its start and, unless an exception escapes, its end with the right status |
| FlowExecutor.RunLoadStages | mallarddv/etl/flow_executor.py:136-192 | the hash view, then the later stages while no stage reports an error |
| FlowExecutor.RunHubStage | mallarddv/etl/flow_executor.py:149-163 | the hub stage and its gate |
| FlowExecutor.RunLinkStage | mallarddv/etl/flow_executor.py:165-179 | the link stage and its gate |
| FlowExecutor.RunSatStage | mallarddv/etl/flow_executor.py:181-192 | the satellite stage |
| FlowExecutor.RunAfterStart | mallarddv/etl/flow_executor.py:121-203 | the stages, then the end record |
| FlowExecutor.ExecuteFlow | mallarddv/etl/flow_executor.py:59-203 | `execute_flow` as `FlowRun` |
| Legacy.TablesSlots | mallarddv.py:272-281 | the f-string's four slots between `FROM` and `ORDER BY` |
| Legacy.TablesClauseShape | mallarddv.py:272-281 | `WHERE` appears iff some filter is truthy, `AND` iff both are, each condition iff its value is truthy |
| Legacy.SameTableFilter | mallarddv.py:259-283 | for filter values without a quote, the legacy query selects what the refactored `get_tables` selects |
| Legacy.GetTables | mallarddv.py:259-283 | the legacy fetch of table metadata |
| Legacy.GetTransitions | mallarddv.py:242-257 | the legacy fetch of transitions |
| Legacy.QuotedNameBreaksFetch | mallarddv.py:251-256 | a table name that breaks its literal makes the legacy fetch fail with a parser error, where the parameterized one does not |
| Legacy.GetEntityTables | mallarddv.py:824-830 | one or two legacy `_get_tables` calls |
| Legacy.OverwriteMetadataFromFiles | mallarddv.py:158-214 | the legacy reload, which may return nothing |
| Legacy.OverwriteReturnsNone | mallarddv.py:196-214 | returns `None` iff there is no transitions path, even after reloading the tables; the state matches the refactored reload |
| Legacy.CreateHubFromMetadata | mallarddv.py:755-802 | the legacy hub DDL |
| Legacy.CreateLinkFromMetadata | mallarddv.py:804-874 | the legacy link DDL |
| Legacy.SatActionAgrees | mallarddv.py:943-948 | the legacy builder rejects exactly the groups the refactored one rejects, with a `ValueError` |
| Legacy.BuildSatAction | mallarddv.py:931-948 | the statement for one satellite, or its rejection |
| Legacy.CreateSatTables | mallarddv.py:896-950 | the legacy satellite loop |
| Legacy.CreateSatFromMetadata | mallarddv.py:876-950 | the legacy satellite tables |
| Legacy.CreateCurrentSatFromMetadata | mallarddv.py:952-1043 | the legacy current-value views |
| Legacy.CreateStagingTableFromMetadata | mallarddv.py:1045-1091 | the legacy staging DDL |
| Legacy.StagingKeepsEmpty | mallarddv.py:1074-1089 | every base name gets a CREATE TABLE, with an empty column list when it has no `c` column, which the refactored builder skips |
| Legacy.ComputeHashView | mallarddv.py:323-436 | the legacy hash view |
| Legacy.BuildHubInserts | mallarddv.py:474-501 | the hub inserts, built before any runs |
| Legacy.LoadRelatedHubs | mallarddv.py:438-512 | the legacy hub load |
| Legacy.BuildLinkInserts | mallarddv.py:555-583 | the link inserts, built before any runs |
| Legacy.LoadRelatedLinks | mallarddv.py:514-594 | the legacy link load |
| Legacy.BuildSatInserts | mallarddv.py:632-744 | the satellite inserts, built before any runs |
| Legacy.LoadRelatedSats | mallarddv.py:596-753 | the legacy satellite load |
| Legacy.LoadsMatchRefactored | mallarddv.py:504-511 | a legacy load leaves the refactored load's state, with errors at the same statements |
| LegacyFlow.Formatted | mallarddv.py:1170 | `str.format` writes a missing file path as `None` |
| LegacyFlow.EndMessageShape | mallarddv.py:1319 | empty iff there is no error; otherwise the count, `happend: `, then a prefix of at most 4095 characters of the JSON list of messages |
| LegacyFlow.LoadFileToStaging | mallarddv.py:1217-1262 | the legacy staging load |
| LegacyFlow.StagingBlamesRunId | mallarddv.py:1221-1262 | every staging error is reported against the run-id query |
| LegacyFlow.RunQuoted | mallarddv.py:510 | every error a legacy plan collects holds a single quote |
| LegacyFlow.StepQuoted | mallarddv.py:508-510 | so does every error of one legacy action |
| LegacyFlow.SubmitClean | mallarddv.py:508-510 | a legacy statement other than a run-info insert keeps the history and quotes its error |
| LegacyFlow.HashViewClean | mallarddv.py:1267 | the legacy hash stage keeps the history and quotes its errors |
| LegacyFlow.HubsClean | mallarddv.py:1271-1279 | the legacy hub load keeps the history and quotes its errors |
| LegacyFlow.LinksClean | mallarddv.py:1282-1290 | the legacy link load keeps the history and quotes its errors |
| LegacyFlow.SatsClean | mallarddv.py:1293-1301 | the legacy satellite load keeps the history and quotes its errors |
| LegacyFlow.LoadStagesClean | mallarddv.py:1267-1301 | the four legacy stages write no run history and return only quoted errors |
| LegacyFlow.StagesAccumulate | mallarddv.py:1267-1301 | when no stage raises, every stage runs on the state the previous one left, hash errors included, and the errors are the four lists concatenated; the hub stage's transitions fetch follows the hash stage's statements |
| LegacyFlow.RunLoadStages | mallarddv.py:1267-1301 | the four stages, all of them, errors accumulated |
| LegacyFlow.RunHubStage | mallarddv.py:1271-1279 | the hub stage |
| LegacyFlow.RunLinkStage | mallarddv.py:1282-1290 | the link stage |
| LegacyFlow.RunSatStage | mallarddv.py:1293-1301 | the satellite stage |
| LegacyFlow.BuildEndMessage | mallarddv.py:1303-1320 | the end record's message text |
| LegacyFlow.RecordEnd | mallarddv.py:1303-1328 | the end record; its failure is appended to the errors |
| LegacyFlow.RunAfterLoad | mallarddv.py:1264-1330 | the stages, then the end record |
| LegacyFlow.ExecuteFlow | mallarddv.py:1137-1330 | the legacy `execute_flow` |
| LegacyFlow.InsertMessageBreaks | mallarddv.py:1172 | a run-info insert whose message breaks its literal is broken |
| LegacyFlow.FailureEndBreaks | mallarddv.py:1313-1325 | when the first error message breaks its literal and fits the cut, so does the end message, and the spliced insert cannot parse |
| LegacyFlow.EmptyMessageEndParses | mallarddv.py:1313-1325 | an end message of one error whose exception has an empty message, `X('')`, does not break |
| LegacyFlow.FinishBroken | mallarddv.py:1323-1328 | then no end record is written and the insert's parser error is appended |
| LegacyFlow.FailureNeverRecorded | mallarddv.py:1303-1328 | whenever the stages fail, the first message breaks its literal and fits the cut, the run keeps no end record |
| LegacyFlow.RepeatRunSkipped | mallarddv.py:1172-1184 | on a permissive engine, repeating a successful unforced run skips it, even without a file |
| LegacyFlow.SuccessRecorded | mallarddv.py:1303-1311 | a run returning no error leaves a `success` row for its file (the text `None` when absent) and table |
| LegacyFlow.FinishRecords | mallarddv.py:1303-1328 | when the end step returns no error, the last history row is a `success` row for the run's file and table |
| LegacyFlow.AlreadyIngestedSkips | mallarddv.py:1172-1184 | unless forced, a run matching a `success` row is skipped, missing file included |
| LoadSemantics.Distinct | mallarddv/db/sql_templates.py:189 | `SELECT DISTINCT` keeps every element once, and only elements from the input |
| LoadSemantics.VaultKeys | mallarddv/db/sql_templates.py:193-195 | the hash keys present in a hub or link |
| LoadSemantics.ToVault | mallarddv/db/sql_templates.py:182-187 | one stored row per selected view row, stamped with load date, source and run |
| LoadSemantics.InsertKeysCorrect | mallarddv/db/sql_templates.py:180-197 | the hub/link load is insert-only and adds only absent keys from the view, stamped with the run; without a key clash it afterwards holds old and view keys alike, and with one the `PRIMARY KEY` rejects the whole insert and the target is unchanged |
| LoadSemantics.KeyClashExactly | mallarddv/db/sql_templates.py:100 | the selected rows repeat a hash key iff two different view rows share a key the target lacks |
| LoadSemantics.InsertKeysKeepsPrimaryKey | mallarddv/db/sql_templates.py:111 | the load keeps the hash key a primary key: no key is stored twice afterwards if none was before |
| LoadSemantics.NewKeyRowsFresh | mallarddv/db/sql_templates.py:189-195 | every selected row is a view row whose key the target lacks |
| LoadSemantics.InsertKeysCover | mallarddv/db/sql_templates.py:180-197 | after an insert without a key clash every view key is present |
| LoadSemantics.AbsentKeyInserted | mallarddv/db/sql_templates.py:193-195 | a view key the target lacks is present afterwards iff the insert has no key clash |
| LoadSemantics.InsertKeysIdempotent | mallarddv/db/sql_templates.py:180-197 | a second load of the same view inserts nothing, whatever its load date and run |
| LoadSemantics.Latest | mallarddv/db/sql_templates.py:239-245 | a key's latest version: a row of that key with the greatest `load_dts`, none iff the key is absent |
| LoadSemantics.ToSat | mallarddv/db/sql_templates.py:229-236 | one live version per selected view row |
| LoadSemantics.InsertSatNewChoice | mallarddv/db/sql_templates.py:219-251 | a view row gets a new version iff its key's latest version is not a live one with the same hash diff; old rows stay |
| LoadSemantics.LatestAfterAppend | mallarddv/db/sql_templates.py:243 | rows appended at a newer load date hold a key's latest version |
| LoadSemantics.NewVersionFromView | mallarddv/db/sql_templates.py:238-250 | every new version comes from a view row that differs from its key's latest |
| LoadSemantics.UnchangedAfterNew | mallarddv/db/sql_templates.py:219-251 | after the delta load every view row is unchanged with respect to the satellite |
| LoadSemantics.InsertSatNewIdempotent | mallarddv/db/sql_templates.py:219-251 | a second delta load of the same view at a later date inserts nothing |
| LoadSemantics.LatestUnaffected | mallarddv/db/sql_templates.py:240-244 | rows of other keys leave a key's latest version alone |
| LoadSemantics.SatKeys | mallarddv/db/sql_templates.py:274 | the distinct keys of a satellite |
| LoadSemantics.HkList | mallarddv/db/sql_templates.py:271 | the key column of a satellite, row by row |
| LoadSemantics.ClosedKeys | mallarddv/db/sql_templates.py:289-292 | exactly the keys whose latest version is live and which the full extract lacks |
| LoadSemantics.ClosedKeysUnique | mallarddv/db/sql_templates.py:279-292 | distinct keys are closed once each |
| LoadSemantics.ClosedKeysNone | mallarddv/db/sql_templates.py:289-292 | nothing is closed when no key vanished |
| LoadSemantics.TombstoneRows | mallarddv/db/sql_templates.py:281-289 | one deletion row per closed key, carrying its latest hash diff and payload |
| LoadSemantics.InsertSatDeleteRows | mallarddv/db/sql_templates.py:253-294 | the soft delete is insert-only; each added row closes a vanished key with its latest hash diff and payload |
| LoadSemantics.InsertSatDeleteCovers | mallarddv/db/sql_templates.py:253-294 | every vanished key gets its deletion row |
| LoadSemantics.InsertSatDeleteUnique | mallarddv/db/sql_templates.py:279 | at most one deletion row per key |
| LoadSemantics.ClosedKeyDeleted | mallarddv/db/sql_templates.py:253-294 | a closed key ends on its deletion row |
| LoadSemantics.ClosedAfterDelete | mallarddv/db/sql_templates.py:253-294 | after the soft delete no key is still vanished |
| LoadSemantics.InsertSatDeleteIdempotent | mallarddv/db/sql_templates.py:292 | a second soft delete with the key still absent appends nothing |
| LoadSemantics.CurrentRows | mallarddv/db/sql_templates.py:132-157 | the current view lists each key's latest version, deleted or not |
| LoadSemantics.CurrentViewCorrect | mallarddv/db/sql_templates.py:132-157 | exactly one row per key, the one with the greatest `load_dts` |
| LoadSemantics.CurrentViewKeys | mallarddv/db/sql_templates.py:132-157 | one current row per key, and one for every key |
| LoadSemantics.CurrentViewLatest | mallarddv/db/sql_templates.py:132-157 | each current row is a satellite row, and no row of its key is later |
| LoadSemantics.DistinctUnique | mallarddv/db/sql_templates.py:229 | `DISTINCT` changes nothing without repeats |
| LoadSemantics.IntoEmptyHub | tests/test_dv_integration.py:190-232 | a view loaded into an empty hub or link gives one row per view row when no two rows share a hash key, and nothing at all when two do |
| LoadSemantics.IntoEmptySat | tests/test_dv_integration.py:190-232 | a repeat-free view loaded into an empty satellite gives one version per view row |
| LoadSemantics.CurrentViewUniqueKeys | mallarddv/db/sql_templates.py:132-157 | when no key repeats the current view has as many rows as the satellite |
| LoadSemantics.TwoCustomersHub | tests/test_dv_integration.py:190-232 | two customers into an empty hub give two hub rows |
| LoadSemantics.TwoCustomersSat | tests/test_dv_integration.py:190-232 | two customers into an empty satellite give two versions and two current rows |

## Left out

- The engine is an oracle that decides failures. Only the three metadata relations are stored. The SQL text of the loads is not interpreted: `LoadSemantics` models what the insert templates do to rows as separate functions over row sequences.
- Time is a parameter: the `now` string, or a `Clock`. The verbose output (`print`) and logging are not modelled.
- File contents are not modelled. The scripts reader is a function parameter from a path to a text or an error. Staging loads are three abstract statements: truncate, column query and load. The `json.dumps` column mapping of the load statement is not spelled out.
- SHA-1 is an uninterpreted function. Only what the hash argument is built from is modelled.
- Python's `list(set(...))` order is unspecified. The model uses first-occurrence order.
- SQL whitespace and indentation of the templates are not modelled. Two statements that differ only in layout are the same `Stmt`.
- GET_TABLES runs with only the four `WHERE` clauses `get_tables` can build. Any other clause fails as invalid input.
- On equal `load_dts`, the latest version of a key is the row stored later. The templates leave this tie undefined.
- Ordering.Sort: `ORDER BY` is modelled as a stable sort, so rows tied on every sort key keep their stored order. The engine leaves the order of such rows unspecified.
- The facade `mallarddv/mallarddv.py`, the context-manager methods, and `init_mallard_db` in both versions are not modelled. They only construct managers and delegate.
- `init_metadata_tables` is not modelled: three fixed CREATE TABLE statements, with no logic.
- `check_source_for_ingestion` is not modelled: the flow never calls it.
- The legacy `_hash_fields` and `_groupby` are not modelled separately. They build the same text as the refactored functions, so the legacy model reuses them.
- The legacy `apply_script_from_metadata` (mallarddv.py:1093-1135) is not modelled. Only the refactored one is (`SchemaManager`). The legacy one differs from it in three ways:
  - it builds the path with an f-string, `{scripts_path}/{sub_folder}/{base_name}.sql`, not `os.path.join`;
  - its `open` sits outside the `try`, so a file that cannot be read raises out of the method instead of being reported;
  - it renders errors with `repr`.
- `mallarddv/utils/` (the test adapter and logging setup) and the unit tests are not modelled. One integration scenario appears as `TwoCustomersHub` and `TwoCustomersSat`.
- Three behaviours are modelled as the code has them:
  - A `KeyError` from a dangling link reference and a `DVSQLError` from a failed metadata fetch escape `execute_flow` as exceptions (`Outcome.Raised`). They are not returned as error entries.
  - The hash argument is not injective across values. A `||` inside a value collides (`HashOfSeparatorCollision`).
  - The full-extract delete pass joins the view on the source field and closes keys whose hash diff is NULL there.
- LegacyFlow.RepeatRunSkipped: stated only for an engine on which nothing fails, since any failure changes what the first run records.
- The engine's SQL parser is approximated by `SqlText.Breaks`. A spliced value breaks a statement when the first quote in it that is not doubled is followed right away by a word. That word must not be one of the keywords that may follow an expression (`AND`, `OR`, `AS`, `FROM`, `ORDER`, ...). A stray word after a space, a stray symbol, or an unterminated literal also make a real statement fail, and the model leaves those to the oracle.
- The model decides parse failure itself only for values spliced into a `WHERE` comparison or a `VALUES` row, since no alias may follow a literal there. These are the legacy queries (mallarddv.py:253, 278-279, 1170, 1172, 1232) and the refactored staging-fields query (mallarddv/etl/etl_service.py:74). Other failures of these statements are left to the oracle, as are three kinds of spliced text. The first is `record_source` in the refactored insert templates (mallarddv/db/sql_templates.py:185, 205, 234, 286), which sits in a `SELECT` list where a literal may take an alias. The second is the raw literals of the hash view. The third is the load-date override.
- Metadata columns are strings: a NULL `target_table`, `group_name` or `source_field` in `metadata.transitions` is not modelled. The source fails on such rows: a NULL `group_name` raises `TypeError` when the grouping key is built (mallarddv/datavault/hash_generator.py:65), and a NULL `target_table` raises `AttributeError` at `startswith` (mallarddv/datavault/hub_manager.py:112).
- Legacy.GetTables: a truthy filter value that holds a quote but does not break the statement is matched as written. The engine reads it as SQL text instead: a doubled quote as one quote, or a quote that closes the literal and continues the condition. Which rows such a value selects is not modelled.
- Legacy.GetTransitions: the same holds for the spliced source table name. A name with a quote that does not break is matched as written.
- Legacy.SameTableFilter: stated only for filter values without a quote, for the reason above.
- Run-history rows that the legacy flow splices into `INSERT` statements (`Engine.RunRowOf`) store each value as written. A value whose quotes do not break the statement is stored by the engine as it reads the literal, and that decoding is not modelled.
- PyText.PyRepr: a non-printable character above U+00FF is written as is. Python escapes it as `\u` or `\U`, which depends on the Unicode database.
- Common.Upper: only the ASCII letters `a`-`z` are case-mapped. The engine's `upper` also maps non-ASCII letters (`é` to `É`), by the Unicode case tables, which are not modelled.
- Common.UpperCaseInsensitive: stated for ASCII letter case only, for the reason above.
- HashGenerator.HashOfCaseAndNullBlind: stated for ASCII letter case only. Values such as `café` and `CAFÉ` hash alike in the engine, and the model does not show it.

## Findings

| source | as written | input that shows it | evidently intended | confidence | as-written member | corrected member |
|---|---|---|---|---|---|---|
| mallarddv.py:196-214 | the `return errors` is inside `if meta_transitions_path:`, so without a transitions path the method returns `None` even after reloading the tables | `overwrite_metadata_from_files(meta_tables_path="t.csv")` | always return the error list | not executed | Legacy.OverwriteReturnsNone | MetadataManager.OverwriteBound |
| mallarddv.py:1172-1184 | the skip check runs whenever the load is not forced, with the file path formatted as `None` when missing | two unforced `execute_flow("customer", "src")` calls without a file: the second is skipped | check only when a file is given | not executed | LegacyFlow.RepeatRunSkipped | FlowExecutor.PermissiveRunRecorded |
| mallarddv.py:1313-1327 | the failure message is the JSON list of `repr` messages, spliced unescaped between quotes into the insert | a stage error such as `CatalogException('Catalog Error: ...')`, whose `repr` ends the literal before the word `Catalog`, and whose JSON text fits in 4095 characters | a run-history row with status `failure` | not executed | LegacyFlow.FailureNeverRecorded | FlowExecutor.PermissiveRunRecorded |
| mallarddv.py:1226-1227 | staging truncate and load failures are recorded against `run_id_statement` | a failing `TRUNCATE stg.<table>` | report the statement that failed | not executed | LegacyFlow.StagingBlamesRunId | EtlService.StagingLoadEffect |
| mallarddv.py:1079-1089 | a base name with no `c` column still gets a CREATE TABLE with an empty column list, which cannot parse | staging metadata whose only row has mapping `x` | skip such tables | not executed | Legacy.StagingKeepsEmpty | SchemaManager.StagingPlanSound |
