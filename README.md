# Retail Insights Assistant — a Dafny model of its core

The Retail Insights Assistant answers questions about sales spreadsheets. Its
core has two parts, and this project models both of them.

- **`DataManager`** (`src/data_manager.py`) loads every CSV file into a
  catalog. Each file becomes a table whose name is sanitised from the file
  name, and each column name is sanitised as well. Nullable-integer columns
  get their nulls replaced by 0. An object column whose first 100 non-null
  values all look like numerals is converted to numbers. For every table the
  catalog records `rows`, `columns` and `dtypes` metadata. Lookups read the
  catalog: the table list, table info, sample rows, a case-insensitive
  column search and per-table insight lines.
- **`MultiAgentSystem`** (`src/agents.py`) threads one `AgentState` record
  through four agents in a fixed order: query understanding, data
  extraction (with at most one repair of a failed SQL query), validation,
  and response generation.

The model keeps the source's form:

- Pure code (the sanitisers, the numeral test, the reply cleanup, the
  fixable-error test, the stage logic) is written as functions.
- Code that mutates in place is written as classes:
  - `DataManager` holds its two dictionaries as fields, and its loops are
    methods with invariants.
  - `AgentState`, the chat-model client, the query executor and
    `MultiAgentSystem` are classes whose agent methods update the shared
    state.
- Every method is proved equal to a reference function. The
  properties are proved about those functions.

Modules, in dependency order:

| module | file | models |
|---|---|---|
| `Wrappers` | wrappers.dfy | `Option` |
| `PyDict` | pydict.dfy | Python dicts with insertion order |
| `Text` | text.dfy | `str.strip`, `str.lower`, `in`, `startswith`, `split` |
| `Frames` | frames.dfy | data frames, `head`, `.empty` |
| `Identifiers` | identifiers.dfy | the two sanitisers |
| `NumericText` | numeric_text.dfy | the `^-?\d+\.?\d*$` sample test |
| `Insights` | insights.dfy | column bucketing for insights |
| `Catalog` | catalog.dfy | loading and the lookups, class `DataManager` |
| `Replies` | replies.dfy | fence cleanup, fixable-error keywords |
| `Validation` | validation.dfy | the validation report |
| `Graph` | graph.dfy | the stage graph |
| `Pipeline` | pipeline.dfy | the four stages and `process_query` as functions |
| `Agents` | agents.dfy | the classes that run them in place |

How the outside world is represented:

- **Language model.** A function `reply: nat -> Reply`, where the reply to
  the n-th call is an answer or the text of an exception.
  - The class `LanguageModel` logs every prompt, so the number of calls is
    observable.
  - Both chat clients of `MultiAgentSystem` (the plain one and the
    "creative" one) draw from this one numbering of calls.
- **DuckDB.** A function `run: string -> ExecResult`, meaning rows or an
  error message. `QueryExecutor` logs every query it runs.
- **`json.loads`.** A function from text to an optional JSON value.
- **`pd.read_csv`.** The already-read frame: each `CsvFile` carries the
  parsed frame, or `None` when reading raises.
- **`pd.to_numeric`, per cell.** A function `parse` from text to an
  optional integer or real.

## Behaviour worth noting

- **Errors.** Setting `error` does not stop the pipeline: every later stage
  still runs, and the response quotes the raw error text ("I encountered an
  issue: …").
- **Repair.** A failed query gets at most one repair attempt, and only when
  its message contains one of 18 keywords.
- **No collapsing of runs.** A run of separators in a table name is not
  collapsed to a single underscore (`"a  b"` becomes `a__b`).
- **Failed SQL generation.** When the language model fails while generating
  SQL, `extracted_data` stays `None` and the validation stage raises (see
  Findings).

## Model

| member | source | states |
|---|---|---|
| PyDict.Put | src/data_manager.py:59 | assigning to a key sets its value and leaves every other entry alone; a new key goes to the end of the key order, an existing key keeps its position |
| PyDict.GetAfterPut | src/data_manager.py:91 | after `d[k] = v`, `d.get(k)` gives `v` and `d.get(j)` for any other key gives what it gave before |
| PyDict.FromDistinctPairs | src/agents.py:375 | `to_dict` over distinct labels keeps the label order and maps each label to its own value |
| Text.LowerIdempotent | src/data_manager.py:138 | lower-cased text holds no capital letter, so lower-casing it again changes nothing |
| Text.Strip | src/data_manager.py:143 | `strip()` returns a contiguous slice of the input that neither starts nor ends with whitespace, and everything it drops on either side is whitespace |
| Text.StripIdempotent | src/data_manager.py:143 | stripping twice is stripping once |
| Text.ContainsIff | src/data_manager.py:123 | the substring test `p in s` holds exactly when `p` occurs at some position of `s` |
| Text.ContainsAnyIff | src/data_manager.py:206-207 | `any(term in s for term in terms)` holds exactly when some term occurs in `s` |
| Text.UpTo | src/agents.py:230 | `split("```")[1]` is the prefix that ends where the separator first occurs (the whole text when it does not occur): no earlier position starts a separator |
| Frames.HeadOfHead | src/data_manager.py:97 | for `m, n >= 0`, `head(m).head(n)` is `head(min(m, n))` |
| Frames.Head | src/data_manager.py:97 | `head(n)` keeps every column, name and dtype, and each column's first rows in order |
| Frames.NullCount | src/agents.py:375 | a column's null count never exceeds its length |
| Identifiers.KeepIdentChars | src/data_manager.py:134 | the filter keeps only alphanumerics and `_` |
| Identifiers.SanitizeTableName | src/data_manager.py:129-138 | a table name is non-empty, uses only lower-case letters, digits and `_`, and never starts with a digit; it requires a non-empty filtered name, as `name[0]` raises otherwise |
| Identifiers.SanitizeColumnName | src/data_manager.py:141-146 | a column name uses only lower-case letters, digits and `_` |
| Identifiers.TableReplacementsOfChar | src/data_manager.py:132-134 | on one character, the replacements and the filter give the per-character rule for tables |
| Identifiers.ColumnReplacementsOfChar | src/data_manager.py:144-145 | on one character, the replacements and the filter give the per-character rule for columns |
| Identifiers.TableFilteredPerChar | src/data_manager.py:132-134 | each space and `-` becomes exactly one `_`, each `&` becomes `and`, other alphanumerics and `_` stay in order, and everything else is dropped |
| Identifiers.ColumnFilteredPerChar | src/data_manager.py:144-145 | the same rule without the `&` replacement, so `&` is dropped |
| Identifiers.TableNameCharacterised | src/data_manager.py:129-138 | the table name is the lower-cased expansion, prefixed by exactly `table_` when the expansion starts with a digit |
| Identifiers.ColumnNameCharacterised | src/data_manager.py:141-146 | the column name is the lower-cased expansion of the stripped name, with no digit rule |
| Identifiers.TableNameDefinedIff | src/data_manager.py:134-136 | the table sanitiser is defined exactly when some character is alphanumeric, `_`, a space, `-` or `&` |
| Identifiers.ExpandTableNonEmptyIff | src/data_manager.py:134 | the filtered table name is empty exactly when no character survives |
| Identifiers.IdentifierTextIsFixed | src/data_manager.py:132-146 | text already made of lower-case letters, digits and `_` passes the replacements, the filter and lower-casing unchanged |
| Identifiers.TableSanitiserIdempotent | src/data_manager.py:129-138 | sanitising a sanitised table name is defined and returns it unchanged |
| Identifiers.ColumnSanitiserIdempotent | src/data_manager.py:141-146 | sanitising a sanitised column name returns it unchanged |
| Identifiers.ExpandRun | src/data_manager.py:132-134 | two spaces expand to two underscores |
| Identifiers.NoCollapse | src/data_manager.py:132-138 | `"a  b"` becomes `a__b`: runs are not collapsed |
| Identifiers.ExpandDigitFirst | src/data_manager.py:132-134 | `"7 a"` expands to `7_a` |
| Identifiers.DigitFirstSanitised | src/data_manager.py:136-138 | a name expanding to `7_a` becomes `table_7_a` |
| Identifiers.DigitPrefixTable | src/data_manager.py:136-137 | `"7 a"` becomes `table_7_a` |
| Identifiers.ExpandColumnNothing | src/data_manager.py:144-145 | `"(%)"` expands to nothing as a column name |
| Identifiers.NothingSurvivesColumn | src/data_manager.py:141-146 | a column name can sanitise to the empty string |
| Identifiers.StripKeepsNonSpace | src/data_manager.py:143 | text with no whitespace at either end is unchanged by `strip()` |
| Identifiers.ExpandTableNothing | src/data_manager.py:132-134 | `"(%)"` expands to nothing as a table name |
| Identifiers.NothingSurvivesTable | src/data_manager.py:136 | for `"(%)"` the table sanitiser is undefined, because `name[0]` raises |
| NumericText.DigitRun | src/data_manager.py:53 | `\d*` consumes the longest run of digits |
| NumericText.MatchesWholeIff | src/data_manager.py:53 | the pattern matches exactly an optional `-`, one or more digits, an optional `.`, more digits, and at most one final newline |
| NumericText.DigitsAreNumeric | src/data_manager.py:53 | `42`, `-3.`, `0.50` and `7` followed by a newline match |
| NumericText.NonNumerals | src/data_manager.py:53 | the empty text, `-`, `.5`, `1e5`, `1.2.3` and ` 1` do not match |
| NumericText.NonNullPrefix | src/data_manager.py:52 | `dropna().head(100)` has at most 100 values, none of them null |
| NumericText.SampleNonEmptyIff | src/data_manager.py:52-53 | the sample is non-empty exactly when the column has a non-null value |
| NumericText.SampleAllIff | src/data_manager.py:52-53 | every sampled value matches exactly when every non-null value that has fewer than 100 non-nulls before it matches |
| NumericText.ShouldConvertIff | src/data_manager.py:52-53 | a column is converted exactly when it has a non-null value and each of its first 100 non-null values matches |
| NumericText.SampleOfPrefix | src/data_manager.py:52 | once a prefix holds 100 non-null values, the rest of the column does not change the sample |
| NumericText.SampleIgnoresTail | src/data_manager.py:52-53 | the conversion decision depends only on the first 100 non-null values |
| Catalog.FillNulls | src/data_manager.py:46 | `fillna(0)` keeps the length and every non-null value, and replaces each null by 0 |
| Catalog.NumericCell | src/data_manager.py:54 | a converted cell is always a number |
| Catalog.ConvertedDType | src/data_manager.py:54 | the dtype after `to_numeric` is a numeric dtype |
| Catalog.CleanColumn | src/data_manager.py:43-56 | cleaning a column keeps its name |
| Catalog.CleanColumnEffect | src/data_manager.py:43-56 | an `Int…` column becomes `int64` with its nulls filled; a convertible object column becomes numeric in every cell; every other column is left exactly as it was |
| Catalog.CleanedColumns | src/data_manager.py:39-56 | cleaning keeps the number of columns |
| Catalog.CleanedColumnsShape | src/data_manager.py:39 | each cleaned column carries the sanitised name of the column at its position |
| Catalog.Prepared | src/data_manager.py:39-56 | a frame can be prepared exactly when its sanitised column names are distinct, since `df[col]` on a duplicate raises; a prepared frame keeps the row count and has the sanitised names |
| Catalog.CleanEachColumn | src/data_manager.py:42-56 | the column loop computes the per-column cleanup of every column in order |
| Catalog.CleanFrame | src/data_manager.py:39-56 | renaming and then the column loop give the prepared frame, or nothing when a name repeats |
| Catalog.MetaOf | src/data_manager.py:65-70 | the metadata records the original file name, the row count, the column list and one dtype per column |
| Catalog.Load | src/data_manager.py:31-75 | a file loads exactly when its stem has a defined table name, it reads, and its sanitised columns are distinct; a loaded table has the sanitised name, the prepared frame and metadata describing that frame |
| Catalog.EmptyCatalog | src/data_manager.py:23-24 | the empty catalog is consistent |
| Catalog.AddTable | src/data_manager.py:59-70 | storing a loaded table into both dictionaries keeps them well formed |
| Catalog.AddTables | src/data_manager.py:30-75 | storing a sequence of loads keeps the dictionaries well formed |
| Catalog.LoadFiles | src/data_manager.py:30-77 | loading a list of files keeps the dictionaries well formed |
| Catalog.LoadFilesSnoc | src/data_manager.py:30 | loading one more file is one more step of the loop |
| Catalog.AddTableConsistent | src/data_manager.py:59-70 | after a store, both dictionaries have the same keys in the same order, and each table's metadata describes it |
| Catalog.AddTablesConsistent | src/data_manager.py:30-70 | a sequence of well-described stores keeps the catalog consistent |
| Catalog.LoadKeepsConsistent | src/data_manager.py:30-77 | after loading, every table key has metadata whose `rows` and `columns` are the table's row count and column list |
| Catalog.AddedMembership | src/data_manager.py:30-77 | a name is a table after loading exactly when it was one before or some file loaded under it |
| Catalog.AddedKeysInOrder | src/data_manager.py:30-77 | from an empty catalog, the table keys are the loaded names in order of first appearance |
| Catalog.LastAddWins | src/data_manager.py:59-70 | the last file loaded under a name supplies both that name's table and its metadata |
| Catalog.NoneAddsNothing | src/data_manager.py:74-75 | a failed load in the sequence changes nothing |
| Catalog.FailedFileAddsNothing | src/data_manager.py:31-75 | a file whose load raises leaves the result of loading the other files unchanged |
| Catalog.MatchingColumns | src/data_manager.py:123 | the matches are at most as many as the columns |
| Catalog.MatchingColumnsIff | src/data_manager.py:123 | a column matches exactly when its lower-cased name contains the lower-cased keyword |
| Catalog.EmptyKeywordMatchesAll | src/data_manager.py:123 | the empty keyword matches every column, in order |
| Catalog.TablesWithMatches | src/data_manager.py:122-125 | only tables that exist are listed |
| Catalog.SearchResults | src/data_manager.py:121-126 | the search result is a well-formed dictionary |
| Catalog.SearchResultsSnoc | src/data_manager.py:122-125 | one more table adds an entry exactly when it has matching columns |
| Catalog.SearchResultsCharacterised | src/data_manager.py:119-126 | a table is in the result exactly when some column matches; its entry is the matching columns in original order; keys follow table order |
| Catalog.DataManager.constructor | src/data_manager.py:20-24 | a new manager has empty `tables` and `metadata` |
| Catalog.DataManager.LoadAllDatasets | src/data_manager.py:26-77 | the loop leaves the catalog as loading every file in order prescribes, keeps it consistent, and returns `tables` |
| Catalog.DataManager.LoadOneFile | src/data_manager.py:31-75 | one loop iteration stores the file's table and metadata, or nothing when loading raises |
| Catalog.DataManager.GetAllTables | src/data_manager.py:115-117 | the list is the table keys in insertion order, without repeats; by `Catalog.AddedKeysInOrder` that is the order in which names were first loaded |
| Catalog.DataManager.GetTableInfo | src/data_manager.py:88-92 | a missing or empty name gives all metadata; a known name gives its metadata with the table's row count and columns; an unknown name gives `{}` |
| Catalog.DataManager.GetSampleData | src/data_manager.py:94-98 | an unknown table gives an empty frame; a known one gives its first `min(n, rows)` rows in order, with all columns |
| Catalog.DataManager.SearchColumns | src/data_manager.py:119-126 | the loop result holds exactly the tables with a matching column, each with its matching columns in order, keyed in table order |
| Catalog.DataManager.GenerateInsights | src/data_manager.py:195-229 | every table gets an entry, possibly empty, in table order, holding that table's insight lines |
| Insights.AmountInsights | src/data_manager.py:214-219 | amount lines are at most one per column, all of the total-and-average kind |
| Insights.QuantityInsights | src/data_manager.py:221-225 | quantity lines are at most one per column, all of the total kind |
| Insights.TableInsights | src/data_manager.py:200-225 | the loops give the amount lines followed by the quantity lines |
| Insights.AmountInsightsIff | src/data_manager.py:214-219 | a column has a total-and-average line exactly when its name holds an amount term and its dtype is numeric |
| Insights.QuantityInsightsIff | src/data_manager.py:221-225 | a column has a total line exactly when its name holds a quantity term and its dtype is numeric |
| Insights.InsightsCharacterised | src/data_manager.py:200-227 | both iff rules hold for a whole table; all amount lines come before all quantity lines; there are at most two lines per column |
| Insights.SalesCountTerms | src/data_manager.py:206-211 | `sales_count` is both an amount and a quantity column |
| Insights.BothBuckets | src/data_manager.py:214-225 | a numeric `sales_count` column yields a total-and-average line and then a total line |
| Graph.EdgeFrom | src/agents.py:82-85 | a stage's successor is one of the declared edges |
| Graph.Walk | src/agents.py:81-85 | a walk starts at its node and visits at most one node more than its step budget |
| Graph.EachNodeHasOneEdge | src/agents.py:82-85 | every stage has exactly one outgoing edge |
| Graph.ExecutionOrder | src/agents.py:75-87 | from the entry point the stages run as understanding, extraction, validation, response, and then the run ends |
| Replies.DropSqlTag | src/agents.py:231-232 | removing the `sql` tag leaves a suffix of the text |
| Replies.FencedPartHasNoFence | src/agents.py:229-233 | what is kept of a fenced reply contains no fence |
| Replies.CleanReplyShape | src/agents.py:226-233 | the cleaned reply is stripped, never starts with a fence, and holds no fence at all when the reply was fenced |
| Replies.CleanReplyIdempotent | src/agents.py:320-327 | cleaning a cleaned reply changes nothing |
| Replies.IsFixableIff | src/agents.py:249-253 | an error is fixable exactly when its lower-cased message contains one of the 18 keywords |
| Replies.IsFixableIgnoresCase | src/agents.py:253 | the fixable test does not depend on letter case |
| Replies.SyntaxErrorIsFixable | src/agents.py:249-253 | "Syntax Error" is fixable |
| Validation.NullCounts | src/agents.py:375 | the per-column null counts form a well-formed dictionary |
| Validation.NullCountsOfDistinct | src/agents.py:375 | with distinct column names, the counts are keyed by column in order and hold each column's null count |
| Validation.NullWarnings | src/agents.py:379-381 | there is at most one warning per column, each a high-null warning |
| Validation.ValidationOf | src/agents.py:357-389 | the report is valid exactly when the data is non-empty; empty data gives exactly the no-data warning and recommendation and no quality block; otherwise the quality block holds the row and column counts and there are no recommendations |
| Validation.WarnHighNulls | src/agents.py:379-381 | the loop over the null percentages yields the high-null warnings in column order |
| Validation.Validate | src/agents.py:348-391 | the validation agent computes the validation report |
| Validation.NullWarningsIff | src/agents.py:379-381 | there is a warning for a column exactly when it has more than 50% nulls, checked as `100*nulls > 50*rows` |
| Validation.NullWarningsDistinct | src/agents.py:379-381 | no column is warned about twice |
| Validation.ReportWarnings | src/agents.py:378-385 | the warnings are the high-null ones, then a large-result warning exactly when rows > 10000, never the no-data one |
| Validation.NonEmptyReport | src/agents.py:370-387 | for non-empty data, the report's warnings follow the same rules over the data's own null counts and row count |
| Pipeline.InitialState | src/agents.py:480-490 | a run starts with no error, no data and no validation report |
| Pipeline.FallbackIntent | src/agents.py:136-145 | a reply that is not JSON gives an intent object that carries the current mode |
| Pipeline.UnderstandingCalls | src/agents.py:129 | understanding makes exactly one model call, with the user's query |
| Pipeline.UnderstandingEffect | src/agents.py:123-156 | understanding changes only intent, mode and error, and leaves the user's query as it was; a raising call sets `error` to "Query understanding failed: " and the message; a JSON object reply becomes the intent, its `"mode"` (if present) becomes the mode, and `error` is kept; a non-JSON reply stores the fallback intent and keeps error and mode; a JSON value that is not an object is stored and sets the `.get` error |
| Pipeline.RepairCalls | src/agents.py:318-337 | the repair asks for one fix and runs at most one more query |
| Pipeline.ExecuteCalls | src/agents.py:239-340 | the generated query runs first; a second model call happens exactly after a fixable failure, and it is the fix prompt for that error and query; when the model answers it, the cleaned fix is the second and last query run |
| Pipeline.ExtractionCalls | src/agents.py:219-346 | extraction starts with the SQL request and makes at most two model calls and two executions |
| Pipeline.ExecuteOutcome | src/agents.py:239-340 | on success `sql_query` is the query that ran and `extracted_data` its rows; on failure `sql_query` stays the original, data is empty and `error` is set; a non-fixable failure sets "Query execution failed: " and the message without asking for a fix |
| Pipeline.ExtractionOutcome | src/agents.py:219-346 | a raising SQL request sets "Data extraction failed: " and the message and leaves data and query alone; otherwise the cleaned reply is stored and executed, and data is always set |
| Pipeline.ValidatingEffect | src/agents.py:348-391 | validation stores the report of the extracted data, changes nothing else and makes no calls |
| Pipeline.RespondingCalls | src/agents.py:404-467 | the response stage runs no query and makes at most one model call |
| Pipeline.RespondingEffect | src/agents.py:404-467 | the response stage changes only `final_response`; an error gives exactly the issue message with no model call; empty data gives the no-data message; otherwise the model is asked once and its reply is the response, or "I have the data but encountered an error generating the response: " and the message when it raises |
| Pipeline.GraphOrderIsRunOrder | src/agents.py:75-87 | `process_query` runs the agents along the graph's walk from the entry point: it completes exactly when that walk does, with the same result and the same model calls and executions |
| Pipeline.ErrorCarriedToResult | src/agents.py:469-502 | an understanding error survives extraction; a completed run returns the error as it stood after extraction; and if either of the first two stages set an error, the run answers with exactly the issue message |
| Pipeline.CrashIff | src/agents.py:355-366 | `process_query` raises exactly when the SQL-generation call raises |
| Pipeline.UnderstandingKeepsData | src/agents.py:123-156 | understanding never touches `extracted_data` |
| Pipeline.ExecuteStoresData | src/agents.py:239-340 | running a generated query always stores some data |
| Pipeline.ExtractionRaised | src/agents.py:342-344 | a raising SQL request changes only `error` |
| Pipeline.ExtractionData | src/agents.py:225-344 | after extraction the data is missing exactly when the SQL request raised and no data was there before |
| Pipeline.PipelineCalls | src/agents.py:469-502 | a completed run makes two to four model calls, the first with the user's query and the second a SQL request, and at most two executions |
| Pipeline.ErrorReported | src/agents.py:405-407 | a completed run with an error answers with exactly the issue message; a raising understanding call always leaves an error |
| Pipeline.DefaultedReportsExtractionFailure | src/agents.py:355 | with the missing result read as empty, a raising SQL request ends in the "Data extraction failed" issue message and the no-data report |
| Pipeline.DefaultedAgreesWhenCompleted | src/agents.py:469-502 | whenever the original run completes, the corrected run returns the same result |
| Agents.AgentState.constructor | src/agents.py:480-490 | a new state is the initial state of the run |
| Agents.LanguageModel.Invoke | src/agents.py:129 | one call appends its prompt to the log and returns the reply for that call number |
| Agents.QueryExecutor.Execute | src/agents.py:240 | one execution appends the query to the log and returns its outcome |
| Agents.MultiAgentSystem.constructor | src/agents.py:42-68 | the system holds the given model, executor and JSON parser |
| Agents.MultiAgentSystem.QueryUnderstandingAgent | src/agents.py:89-156 | the agent leaves state and logs as the understanding stage prescribes |
| Agents.MultiAgentSystem.ExecuteGenerated | src/agents.py:239-340 | executing a generated query, with its repair, leaves state and logs as prescribed |
| Agents.MultiAgentSystem.DataExtractionAgent | src/agents.py:158-346 | the agent leaves state and logs as the extraction stage prescribes |
| Agents.MultiAgentSystem.ValidationAgent | src/agents.py:348-391 | the agent stores the validation report; it requires data, since `.empty` on `None` raises |
| Agents.MultiAgentSystem.ResponseGenerationAgent | src/agents.py:393-467 | the agent leaves state and logs as the response stage prescribes |
| Agents.MultiAgentSystem.ProcessQuery | src/agents.py:469-502 | running the four agents gives the outcome of the pipeline function, including the crash |
| Agents.MultiAgentSystem.ValidationAgentDefaulted | src/agents.py:355-389 | the corrected agent validates a missing result as an empty frame |
| Agents.MultiAgentSystem.ProcessQueryDefaulted | src/agents.py:469-502 | the corrected run always returns the corrected pipeline's result |

## Left out

- Unicode: `isalnum`, `isdigit`, `lower` and the regex class `\d` of the numeral test are modelled for ASCII only. The non-ASCII letters and digits that Python keeps are dropped by the sanitisers here, and a column of non-ASCII decimal digits (such as "٣") that Python would convert is left as text.
- Reading CSV files and globbing the data directory: each file arrives as its stem, its name and its parsed frame, or `None` when reading raises.
- `pd.to_numeric`: each cell's parse is a parameter. Integer overflow to float and the `errors='coerce'` fallback are not modelled beyond that parameter.
- Catalog.DataManager.LoadAllDatasets: `conn.register` (src/data_manager.py:62) is assumed to succeed; DuckDB registration is not part of this model. It runs between the two stores. When it raises, the `except` at line 74 keeps the table just stored, with no metadata for a new name and the previous file's metadata for a replaced one. So tables and metadata can disagree after a raising register, which the model does not capture.
- Catalog.DataManager.LoadOneFile: stores table and metadata together, so it does not capture the table-only update a raising `conn.register` leaves behind (see the line above).
- Catalog.LoadKeepsConsistent: holds only when no `conn.register` raises. A raising one breaks `tables.keys == metadata.keys`, or leaves stale metadata for a replaced table.
- Catalog.FailedFileAddsNothing: covers files that fail before the table is stored (src/data_manager.py:59). A file whose `conn.register` raises still adds its table.
- `execute_query` and SQL semantics: a query's outcome is a parameter.
- `get_summary_statistics` and `get_schema_description`: these render numbers and markdown with pandas. The prompt wording, of which the schema text is a part, is not behaviour.
- Insights.TableInsights: the sums, means and their `:,.2f` formatting are left out. Only which lines appear, and in what order, is modelled.
- Validation.NullCounts: null percentages are compared exactly as `100*nulls > 50*rows`. The float percentage and its one-decimal rendering are left out.
- Frames: frames are stored column by column, with an explicit height. Row records are not modelled.
- Language-model clients: construction, credentials, temperature and the exact prompt text are left out. Both clients share one numbered sequence of replies.
- Pipeline: building a prompt (`json.dumps`, schema text, `describe()`, `to_string()`) is assumed not to raise.
- Pipeline.Snapshot: the `messages` field is never written by the agents and is left out.
- Logging and the `__main__` blocks.

## Findings

| source | as written | input that shows it | evidently intended | confidence | as-written member | corrected member |
|---|---|---|---|---|---|---|
| src/agents.py:355-366 | `state.get('extracted_data', pd.DataFrame())` returns the stored `None`, because `process_query` puts the key in the state with value `None`. When the SQL-generation call raises, `.empty` on `None` then raises `AttributeError` | any run whose second model call (the SQL request) raises, e.g. a timeout | treat a missing result as an empty frame and answer with "I encountered an issue: Data extraction failed: …" | not executed | Pipeline.CrashIff | Pipeline.DefaultedReportsExtractionFailure |
