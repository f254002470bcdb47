# EloquentDatatables server-side processing, modelled in Dafny

This project models the DataTables server-side-processing core of the PHP
package EloquentDatatables. On each draw, a grid client sends a request:
- a draw counter and a page window (`start`, `length`);
- a global search value;
- per column, its `data` and `name`, its `searchable` and `orderable` flags, and its own search value;
- a list of order directives.

The package turns that request and a list of column descriptors into
clauses on a Laravel query builder. It counts the rows before and after
filtering, reads one page, and reshapes the rows into the output the grid
expects.

Four parts of the package are modelled:

- **The request** (`GridRequests`, from `src/Models/Request.php`). It covers:
  - the request predicates `hasOrdering`, `isColumnOrderable`, `isSearchable`, `isColumnSearchable`;
  - `columnName` and `columnKeyword`;
  - the `orderableColumns` loop, proved against the function `Orderable`.
- **The static SSP builders.** Two copies exist:
  - `src/Request.php` and `src/Models/Request.php` hold `limit`, `order`, `group` and `filter`, identical up to whitespace. They are modelled once, in `SspClauses`. Their filter splices the raw search text into SQL.
  - `src/DatatablesService.php` (`DatatablesService`) adds `select`/`db`, an `order` that first wraps the query as a derived table, a `filter` that doubles single quotes, the row reshaper `data_output`, `pluck`, `_flatten`, and the pipelines `simple`, `complex` and `custom`. Its `limit` and `group` are the same code as the request helpers and reuse `SspClauses.Limit`/`SspClauses.Group`.
- **The Eloquent engine** (`Eloquent`, from `src/EloquentManager.php`). It is a class whose fields are the engine's state: `query`, `rawQuery`, `isFilterApplied`, `columns`, `exactSearchColumns` and `response`. Each method updates those fields as the PHP method does. `get()` is proved to leave a state described by the ghost predicate `Narrowed`. The pure helpers are functions with lemmas:
  - `setupKeyword`, `extractColumnName`, `getColumnName`, `getColumnSelect`;
  - column standardisation;
  - the count strategy;
  - `compileColumnSearch`.
- **The column descriptor** (`ColumnDescriptors`, from `src/Models/DatatableColumn.php`). It is a four-field datatype with a defaulting constructor. The row reshaping both engines share is stated as `FormatRow`/`FormatRows`.

Supporting modules:

| module | contents |
|---|---|
| `QueryBuilder` | The builder as a clause-list value: selects, where tree, groups, orders, limit/offset, and a source that is a table or a derived table. Bound values are derived from the structure. Rendering SQL, fetching rows and counting them belong to a `Connection` value supplied by the caller. |
| `PhpStrings` | The PHP string functions used: `strtolower`/`strtoupper` on ASCII, `explode`/`implode`, `str_replace`, `intval`, `is_numeric`, and loose `==` against an integer. |
| `SqlLiteral` | How a SQL string literal is read back. |
| `Selection` | The positions a filtering loop keeps. |
| `Responses` | The `DataTable` response record. |

Formatters, `settype` and the connection are function-valued parameters. Nothing about them is assumed.

### Behaviour of the code the model keeps

- **No global search in the Eloquent engine.** `filtering()` has its whole body commented out (src/EloquentManager.php:293-339). `EloquentManager.FilterRecords` therefore applies only the per-column search.
- **Filtered count.** With `get(false)`, the engine saves the unfiltered query as `rawQuery` before filtering, and `count()` reads `rawQuery` (src/EloquentManager.php:133-137 and 167). The filtered count is then the count of the unfiltered selection. `Narrowed` states this.
- **Global search pattern.** `DatatablesService::filter` doubles the single quotes of the search value and then passes it to the builder as a bound value (src/DatatablesService.php:230-239), so a quote in the search text arrives doubled (`GlobalPatternDoublesBoundQuote`).
- **No error handling.** A lookup miss indexes with `false`. The model makes every lookup total through a precondition (`Resolvable`, `DirectivesInRange`, `SearchResolvable`).
- **Empty total.** When the total count is 0, the code leaves `recordsFiltered` unset (PHP `null`). The response therefore holds `Option` counts.
- **PHP version.** `is_numeric` and loose `==` follow PHP 8. The one exception is the `data_output` cell lookup `$data[$i]->$column['dt']`, which is read as PHP 5 parsed it (described under "## Left out").

## Model

| member | source | states |
|---|---|---|
| ColumnDescriptors.NewColumn | src/Models/DatatableColumn.php:20-25 | the constructor stores `db`, `name`, `formatter` and `cast` exactly as given |
| ColumnDescriptors.NewColumnDefaults | src/Models/DatatableColumn.php:20 | omitting the last two arguments leaves formatter and cast null |
| ColumnDescriptors.FindByName | src/DatatablesService.php:174 | `array_search` of a name among the descriptors' names: the first position holding it, or none when no descriptor has it |
| ColumnDescriptors.FormatRowKeys | src/DatatablesService.php:66-79 | an output row has exactly one key per column name, and no other key |
| ColumnDescriptors.FormatRowValue | src/DatatablesService.php:69-78 | with distinct names, the value under a column's name is its cell: `formatter(raw, row)` when a formatter is set, else the raw value, then the cast if declared |
| ColumnDescriptors.FormatRows | src/DatatablesService.php:63-82 | one output row per input row, in input order |
| ColumnDescriptors.CastAfterFormatter | src/DatatablesService.php:70-78 | a declared cast is applied to the formatted value, not the formatter to the cast value |
| GridRequests.ColumnSearchableNarrows | src/Models/Request.php:231-239 | `isColumnSearchable(i, true)` implies `isColumnSearchable(i, false)`, and holds iff that plus a non-empty own value |
| GridRequests.Orderable | src/Models/Request.php:151-167 | the entries built from the first n directives are never more than n |
| GridRequests.OrderableKeepsExactly | src/Models/Request.php:157-163 | the k-th entry comes from the k-th directive whose column is orderable, with the integer cast of its column and its direction text unchanged |
| GridRequests.OrderableEntriesInRange | src/Models/Request.php:160-162 | every entry names an existing column whose flag is `true` |
| GridRequests.OrderableColumns | src/Models/Request.php:151-167 | the loop returns `Orderable` of all directives: empty when there is no ordering, never longer than the directive list |
| SspClauses.Descriptor | src/Request.php:57-59 | the descriptor a request column shows is one of the descriptors and its `dt` equals the column's `data` |
| SspClauses.Direction | src/Request.php:62-64 | `ASC` iff the direction text is exactly `asc`, otherwise `DESC` |
| SspClauses.Limit | src/Request.php:26-34 | unchanged when `start` is unset or `length == -1`; otherwise take = intval(length) and offset = intval(start); nothing else changes |
| SspClauses.LimitRoundTrip | src/Request.php:28-30 | a request whose start and length are printed integers gets exactly that offset and that limit |
| SspClauses.LimitAllRows | src/Request.php:28 | `length = -1` adds no window at all |
| SspClauses.LimitPageSize | src/Request.php:29 | the LIMIT/OFFSET window a paged query asks for keeps at most intval(length) rows, whatever rows it is applied to |
| SspClauses.OrderTerms | src/Request.php:53-68 | the first n directives add at most n order terms |
| SspClauses.OrderTermsFollowOrderable | src/Request.php:53-67 | the order terms correspond one-to-one, in directive order, to the `orderableColumns` entries: each orders by that column's `data` (the matching descriptor's `dt`) with `Direction` of the entry's text |
| SspClauses.NoDirectivesNoTerms | src/Request.php:49 | no order clause is added when there are no directives |
| SspClauses.Order | src/Request.php:47-72 | the order terms are appended to the query's orders; nothing else changes |
| SspClauses.DirectiveTerms | src/Request.php:53-68 | the loop over the directives collects exactly `OrderTerms` |
| SspClauses.DirectiveTerm | src/Request.php:55-67 | one directive adds at most one term, the one `OrderTerm` defines |
| SspClauses.Group | src/Request.php:81-88 | exactly the `groupBy` terms are appended, in order |
| SspClauses.RawLike | src/Request.php:121 | the fragment is the column, ` like '%`, the search text verbatim and `%'`, in that order |
| SspClauses.RawLikeLiteralClosesEarly | src/Request.php:121 | with the search text `' OR 'a'='a` the string literal closes after `%`, and the rest of the text is read as SQL |
| SspClauses.RawLikesNext | src/Request.php:111-144 | column i adds a global term iff searchable, and its own term iff searchable with a non-empty value |
| SspClauses.GlobalRawLikesExactly | src/Request.php:114-126 | the global OR-group holds one raw `like` per searchable column, in column order |
| SspClauses.ColumnRawLikesExactly | src/Request.php:130-144 | the per-column group holds one raw `like` per column searchable with a non-empty own value, in column order |
| SspClauses.Filter | src/Request.php:106-147 | the global group is added only for a non-empty global value, then the per-column group; each group is added only when non-empty |
| SspClauses.GlobalRawGroup | src/Request.php:114-126 | the closure's loop builds exactly the global terms |
| SspClauses.ColumnRawGroup | src/Request.php:130-144 | the closure's loop builds exactly the per-column terms |
| SspClauses.RawLikesBindNothing | src/Request.php:121 | the raw filter binds no value: every search text is in the SQL |
| DatatablesService.Projections | src/DatatablesService.php:118-122 | one `db as dt` projection per descriptor, in descriptor order |
| DatatablesService.Select | src/DatatablesService.php:114-125 | the projections are appended to the selects; nothing else changes |
| DatatablesService.Db | src/DatatablesService.php:99-104 | the named table with the descriptors' projections |
| DatatablesService.Order | src/DatatablesService.php:160-188 | the query becomes the derived table `sub` with the same bindings, ordered by the orderable directives |
| DatatablesService.EscapedLikeStaysInLiteral | src/DatatablesService.php:254-257 | with quotes doubled, the literal after ` LIKE ` reads back as exactly `%`, the search text and `%`, and ends with the fragment |
| DatatablesService.GlobalPatternDoublesBoundQuote | src/DatatablesService.php:230-239 | the bound global pattern holds the search text with each quote doubled, so a text with a quote is not searched as typed |
| DatatablesService.LikesNext | src/DatatablesService.php:233-260 | column i adds a bound global `LIKE` iff searchable, and an escaped own `LIKE` iff searchable with a non-empty (escaped) value |
| DatatablesService.GlobalLikesExactly | src/DatatablesService.php:232-244 | the global OR-group holds one bound `LIKE` per searchable column, in column order |
| DatatablesService.ColumnLikesExactly | src/DatatablesService.php:248-262 | the per-column group holds one escaped `LIKE` per column searchable with a non-empty own value, in column order |
| DatatablesService.FilteredOnlyAddsWheres | src/DatatablesService.php:224-265 | filtering changes nothing but the where list, and keeps the existing clauses first |
| DatatablesService.FilteredBindings | src/DatatablesService.php:224-265 | the filtered query binds its own values, then the global group's, then the per-column group's |
| DatatablesService.Filter | src/DatatablesService.php:224-265 | the global group is added only for a non-empty global value, then the per-column group |
| DatatablesService.GlobalGroup | src/DatatablesService.php:232-244 | the closure's loop builds exactly the global terms |
| DatatablesService.ColumnGroup | src/DatatablesService.php:248-262 | the closure's loop builds exactly the per-column terms |
| DatatablesService.GlobalLikesBindPattern | src/DatatablesService.php:239 | once a column is searchable, the global pattern is among the bound values |
| DatatablesService.DataOutput | src/DatatablesService.php:59-85 | the nested loops build exactly `FormatRows`: one row per input row, in order, each with one formatted and cast cell per column |
| DatatablesService.Pluck | src/DatatablesService.php:398-407 | the output has the same length as the input, with `out[i] = a[i][prop]` |
| DatatablesService.Flatten | src/DatatablesService.php:418-427 | `''` for a falsy value, a non-array value unchanged (arrays are joined) |
| DatatablesService.FlattenSplit | src/DatatablesService.php:418-427 | flattening the pieces of a string cut at the glue gives the string back |
| DatatablesService.Simple | src/DatatablesService.php:280-304 | the response: the total is the row count of the grouped projection, the filtered count is that of the filtered query, and the data is the formatted page of the ordered, windowed filtered query |
| DatatablesService.Custom | src/DatatablesService.php:361-387 | the same pipeline over the caller's query: projection, optional groups, connection counts before and after the filter |
| DatatablesService.Complex | src/DatatablesService.php:320-350 | the filter function runs before counting; the total and filtered counts come from the connection; the page is read over the filtered query wrapped with its bindings (corrected; see ## Findings) |
| DatatablesService.ComplexDropsSearchBindings | src/DatatablesService.php:333 | as written, the filtered query binds the global pattern, but the page query built over its SQL text binds nothing |
| DatatablesService.ComplexPageKeepsBindings | src/DatatablesService.php:162-163 | wrapped with its bindings merged, the page query binds exactly the filtered query's values |
| DatatablesService.PipelineStages | src/DatatablesService.php:280-304 | filtering only appends clauses; the page query wraps the filtered query whole and keeps its bindings |
| QueryBuilder.Wrap | src/DatatablesService.php:162-163 | a fresh query whose source is the given query as a derived table, with no clauses of its own |
| QueryBuilder.WrapText | src/DatatablesService.php:333 | a fresh query whose source is the SQL text of the given query alone |
| QueryBuilder.WrapKeepsBindings | src/DatatablesService.php:162-163 | `mergeBindings` keeps the wrapped query's bindings, in order |
| QueryBuilder.WhereNested | src/DatatablesService.php:232-244 | a closure `where` adds one nested group and changes nothing else; an empty closure adds nothing |
| QueryBuilder.WhereNestedBindings | src/DatatablesService.php:232-244 | a nested group's bindings follow the query's own |
| QueryBuilder.AddWheresBindings | src/EloquentManager.php:407-411 | appending where clauses appends their bindings |
| QueryBuilder.Window | src/Request.php:29-30 | the rows a LIMIT/OFFSET window keeps are never more than the rows it is applied to, nor more than a non-negative limit; no window keeps every row |
| Responses.EmptyDataTable | src/Models/DataTable.php:8-12 | a new response has no draw and no counts (its default `data` and `error` are described under ## Left out) |
| SqlLiteral.ReadDoubledLiteral | src/DatatablesService.php:254-257 | under ANSI quoting, a text with its quotes doubled, then a closing quote, reads back as exactly that text |
| PhpStrings.UpperAsIffLowerAs | src/EloquentManager.php:224-241 | the upper-case test for ` AS ` and the lower-case cut at ` as ` agree on every string, on ASCII case mapping |
| PhpStrings.JoinSplit | src/EloquentManager.php:241 | joining the pieces `explode` returns gives the string back |
| PhpStrings.SplitPiecesFree | src/EloquentManager.php:241 | no piece `explode` returns contains the separator |
| PhpStrings.SplitIsLeftToRightCut | src/EloquentManager.php:241 | `explode` returns pieces that join back into the text, with no occurrence of the separator starting inside any piece |
| PhpStrings.LeftToRightCutUnique | src/EloquentManager.php:241 | a text has only one such left-to-right cut |
| PhpStrings.SplitIsTheCut | src/EloquentManager.php:241 | every left-to-right cut of a text is the one `explode` returns |
| PhpStrings.DoubleQuotesAppend | src/DatatablesService.php:230 | quote doubling distributes over concatenation |
| PhpStrings.IntValRoundTrip | src/Models/Request.php:158 | `(int)` reads back every printed integer |
| PhpStrings.IntToStringIsNumeric | src/Request.php:28 | a printed integer is numeric and loosely equals its value |
| Eloquent.SetupKeyword | src/EloquentManager.php:348-354 | `%` + value + `%` with every backslash replaced by `%`: starts and ends with `%`, two characters longer, no backslash left |
| Eloquent.SetupKeywordPlain | src/EloquentManager.php:348-354 | without backslashes the keyword is exactly `%` + value + `%` |
| Eloquent.BackslashIsWildcard | src/EloquentManager.php:351 | a backslash in a search value is searched as the `%` wildcard |
| Eloquent.ExtractColumnNameCut | src/EloquentManager.php:239-248 | lower-cased text without ` as ` comes back whole; otherwise the alias follows an ` as ` at the end and the expression precedes one at the start; the result never holds ` as ` |
| Eloquent.ExtractColumnNamePiece | src/EloquentManager.php:241-248 | the alias is the last piece and the expression the first piece of the left-to-right cut of the lower-cased text at ` as `; the expression is the text before the first ` as ` |
| Eloquent.ColumnIdentityCut | src/EloquentManager.php:215-229 | a numeric name is replaced by the positional name, any other is kept; the text is kept whole when it holds no ` as ` in any case, else cut to the last piece (the alias) or the first piece (the expression) of the left-to-right cut at ` as `, which holds no ` as ` |
| Eloquent.PlainColumnIdentity | src/EloquentManager.php:215-229 | a plain, non-numeric name is used exactly as sent: the column's `name` when set and non-empty, otherwise its `data` |
| Eloquent.ColumnSelect | src/EloquentManager.php:152-158 | one `db AS name` per descriptor, in order |
| Eloquent.ArrayColumnNames | src/EloquentManager.php:389 | `array_column` gives the names of an array's descriptors and refuses an object |
| Eloquent.CollectionLookupFails | src/EloquentManager.php:387-390 | the as-written lookup fails even for a known alias, both on the stored `Collection` and on an array of descriptors; the intended lookup gives the `db` of the first descriptor with that name |
| Eloquent.DatabaseColumnName | src/EloquentManager.php:387-390 | the `db` of a descriptor named by the alias |
| Eloquent.StandardizeColumn | src/EloquentManager.php:534-548 | a descriptor is kept; an expression under a position names itself; an expression under a string key is named by the key |
| Eloquent.StandardizeColumns | src/EloquentManager.php:522-527 | every entry standardised, in order, re-indexed from 0 |
| Eloquent.StandardizeIdempotent | src/EloquentManager.php:522-548 | standardising standardised descriptors changes nothing |
| Eloquent.CountShape | src/EloquentManager.php:165-176 | the select becomes `'1' as row_count` iff the lower-cased SQL contains none of `union`, `having`, `distinct`, `order by`, `group by`; nothing else changes |
| Eloquent.CountKeepsConditions | src/EloquentManager.php:174-175 | the count query keeps the source, conditions, groups and bindings of the counted query |
| Eloquent.CompiledColumnSearch | src/EloquentManager.php:400-413 | `col = ?` bound to the keyword for an exact column, `col LIKE ?` bound to `setupKeyword(keyword)` otherwise, joined with AND |
| Eloquent.KeywordOnlyInBindings | src/EloquentManager.php:405-412 | the SQL text does not depend on the keyword; an exact case-sensitive search binds the keyword itself |
| Eloquent.SearchWheresNext | src/EloquentManager.php:365-378 | column i adds its clause exactly when it is searchable with its own value (corrected lookup; see ## Findings) |
| Eloquent.SearchClauseBinds | src/EloquentManager.php:368-375 | a searched column's clause binds its value, wildcarded unless its alias is exact (corrected lookup; see ## Findings) |
| Eloquent.SearchWheresExactly | src/EloquentManager.php:361-380 | one clause per column searchable with its own value, in column order (corrected lookup; see ## Findings) |
| Eloquent.OrderClauses | src/EloquentManager.php:192-203 | one order clause per entry, on the aliased column identity, with the direction text unchanged |
| Eloquent.OrderByEntries | src/EloquentManager.php:192-203 | the loop builds one `orderBy` per entry, in entry order |
| Eloquent.OrderableInRange | src/Models/Request.php:158-162 | every `orderableColumns` entry names an existing column |
| Eloquent.RequestOrders | src/EloquentManager.php:192-203 | the order clauses of the request follow the `orderableColumns` entries one-to-one |
| Eloquent.OrderedKeepsBindings | src/EloquentManager.php:183-184 | ordering over the derived table `sub` keeps the wrapped query's bindings |
| Eloquent.PageLength | src/EloquentManager.php:456 | the requested length when `(int)length > 0`, otherwise 10 |
| Eloquent.PagedWindow | src/EloquentManager.php:453-457 | the LIMIT/OFFSET window of a paged query keeps at most the page length, and at least one row when rows remain past the offset |
| Eloquent.PipelinesBindAlike | src/EloquentManager.php:130-141 | filtering inside `sub` or over it sends the same values: the query's own, then one per search clause |
| Eloquent.FormatterCallFails | src/EloquentManager.php:472-473 | as written a formatter column fails to resolve; applying the closure gives the formatted, then cast, value |
| Eloquent.EloquentManager.constructor | src/EloquentManager.php:85-94 | the builder and request are stored; nothing is filtered, no raw query is saved, the response is empty |
| Eloquent.EloquentManager.ExactColumnSearch | src/EloquentManager.php:498-503 | the exact-search aliases are replaced by the given list |
| Eloquent.EloquentManager.SetColumns | src/EloquentManager.php:510-515 | the columns become the standardised entries |
| Eloquent.EloquentManager.OrderRecords | src/EloquentManager.php:181-205 | the query becomes the derived table `sub` over the old query, ordered by the request's order clauses |
| Eloquent.EloquentManager.CompileColumnSearch | src/EloquentManager.php:400-413 | exactly one compiled search clause is appended to the query |
| Eloquent.EloquentManager.ColumnSearch | src/EloquentManager.php:361-380 | one clause per searched column is appended, and the filter flag is raised iff at least one column passes `isColumnSearchable` (corrected lookup; see ## Findings) |
| Eloquent.EloquentManager.SearchColumn | src/EloquentManager.php:367-378 | one column's clause is appended and the flag raised exactly when the column is searchable with its own value (corrected lookup; see ## Findings) |
| Eloquent.EloquentManager.FilterRecords | src/EloquentManager.php:263-274 | only the column search acts (the global search body is commented out) (corrected lookup; see ## Findings) |
| Eloquent.EloquentManager.Paging | src/EloquentManager.php:453-457 | skip `(int)start` (0 when unset), take `PageLength` |
| Eloquent.EloquentManager.Resolve | src/EloquentManager.php:462-491 | the response's draw is `intval(draw)` and its data is the formatted rows of the current query, with formatter closures applied (corrected; see ## Findings) |
| Eloquent.EloquentManager.Get | src/EloquentManager.php:126-147 | the total is the count of the selected query; with a zero total nothing is filtered, ordered or paged and `recordsFiltered` stays unset; otherwise the state is `Narrowed`; the data is the resolved page (corrected lookup and formatter call; see ## Findings) |
| Eloquent.EloquentManager.Narrow | src/EloquentManager.php:132-144 | filter and order in the order asked; `recordsFiltered` is a fresh count only when a filter applied, else the total; paging last (corrected lookup; see ## Findings) |

## Left out

- SQL rendering, execution and counting (`toSql`, `get`, `count`, `getBindings`, grammar `wrap`, `DB::raw`). These belong to Laravel and are fields of the `Connection` parameter, about which nothing is assumed.
- `castColumn` and the PostgreSQL `CAST(... as TEXT)` wrapping (src/EloquentManager.php:438-446). Whether the column is passed as `DB::raw` or as a string, `compileColumnSearch` concatenates the same text, so the model passes the column text.
- PHP `settype` coercion and user formatter callbacks. These are function parameters; no coercion rule is modelled.
- Floats. Cell values are null, booleans, integers and strings.
- User callbacks: `order($callback)`, the filter callback, `filter($fun)` and `distinct()`. They run arbitrary user code on the builder. The model takes the branch where none is set.
- Other plumbing: `keyword()`, `of()`, the service constructor's `Request::capture()`, `JsonResponse`, the service providers and interfaces, and `src/Models/DataTables.php`.
- `filtering()`. Its body is commented out, so the engine has no global search.
- `$this->columnDef` and `compileColumnQuery` are never defined. `isset` on the undefined property is false, so `orderRecords` always issues a plain `orderBy`.
- `getColumnNameByIndex` is never defined. It is the function parameter `columnNameByIndex`.
- `self::pluck` is never defined in either request class. It is read as the service's `pluck`, so the lookup of a request column's descriptor is `FindByName`.
- Unknown columns. An `array_search` miss used as an index, or an order directive on a missing column, is excluded by the preconditions `Resolvable`, `DirectivesInRange` and `SearchResolvable`, not modelled.
- `array_search` (src/DatatablesService.php:174) and `Collection::contains` (the exact-search test at src/EloquentManager.php:374) compare loosely in PHP. The model compares names strictly (`FindByName`, `in`); the two differ only for numeric-looking names.
- Cell lookup in `data_output`. `$data[$i]->$column['dt']` is read as PHP 5 parsed it: the property named by the descriptor's `dt`. PHP 7 and later read it left to right, as `($data[$i]->$column)['dt']`, and the lookup would differ.
- `get()` before `columns()`. It maps over `null` and fails. The model starts from an empty column list instead.
- `simple`/`complex` with `groupBy` omitted. `group` then calls `count(null)` (src/DatatablesService.php:200). Under PHP 8 that throws a `TypeError`, so `simple($request, $table, $columns)` with the default `groupBy` fails; PHP 7 warns and counts 0. The model does not model the failure: it treats an omitted `groupBy` as no group terms, as PHP 7 does.
- PhpStrings.IntVal: no exponent spellings (`"1e3"`), no 64-bit saturation, no floats. Only the leading space, sign and digits are read.
- SspClauses.Limit: `length != -1` is PHP loose comparison. The model recognises only integer spellings of -1, not `"-1.0"` or `"-1e0"`.
- Eloquent.KeywordOnlyInBindings: states the bound value only for an exact case-sensitive search. The other three forms are stated by `Eloquent.CompiledColumnSearch`.
- DatatablesService.Flatten: its contract covers falsy and non-array values. Joining an array is stated by `DatatablesService.FlattenSplit` for arrays that come from cutting a string.
- DatatablesService.Complex: states the page query over the filtered query wrapped with its bindings merged, the corrected form. As written (src/DatatablesService.php:333) the wrap keeps only the SQL text and the bindings are dropped; `DatatablesService.ComplexDropsSearchBindings` states that (see ## Findings).
- Eloquent.EloquentManager.Resolve: calls the formatter closure stored on the descriptor, the corrected form. As written (src/EloquentManager.php:472-473) a column with a formatter fails; `Eloquent.FormatterCallFails` states that (see ## Findings).
- SqlLiteral.ReadDoubledLiteral: reads a literal by ANSI rules, where `''` is the only escape. MySQL's default mode also reads a backslash as an escape, so a search text such as `\' OR 1=1 -- ` still ends the literal there even with its quotes doubled. That reading is not modelled.
- DatatablesService.EscapedLikeStaysInLiteral: holds under ANSI quoting only, for the reason given for `SqlLiteral.ReadDoubledLiteral`. Quote doubling does not make the column search safe under MySQL's default backslash escapes.
- PhpStrings.UpperAsIffLowerAs: holds for ASCII case mapping only. `Str::upper` and `Str::lower` are multibyte; under them `x aſ y` (with a long s) upper-cases to text holding ` AS `, while its lower case holds no ` as `. `PhpStrings.Lower` and `PhpStrings.Upper` map ASCII letters only.
- Responses.EmptyDataTable: a new PHP `DataTable` starts with `data` set to a map from `select`, `join`, `where`, `having`, `order` and `union` to empty arrays, and has an `error` property (src/Models/DataTable.php:14-23). Neither is modelled: `resolve()` always overwrites `data` (src/EloquentManager.php:488), and no code sets `error`.
- DatatablesService.GlobalLikesBindPattern: Laravel's operator validation is not modelled. `orWhere($col, ' LIKE ', $pattern)` passes the operator with surrounding spaces, and the builder is taken to record it as given and bind the pattern. Laravel's `Builder::where` checks the operator against its list and could instead treat an unknown operator as `=` with the operator text as the value. The Laravel builder is not part of this model.
- DatatablesService.GlobalPatternDoublesBoundQuote: rests on the same reading of `orWhere` as `DatatablesService.GlobalLikesBindPattern`.
- Eloquent.EloquentManager.SearchColumn: reads the column through the intended `Eloquent.DatabaseColumnName`. As written (src/EloquentManager.php:389) the lookup fails on the first column searched with its own value; `Eloquent.CollectionLookupFails` states that (see ## Findings).
- Eloquent.EloquentManager.ColumnSearch: uses the intended lookup, through `SearchColumn`. As written it fails on the first searched column; see `Eloquent.CollectionLookupFails`.
- Eloquent.EloquentManager.FilterRecords: uses the intended lookup, through `ColumnSearch`. As written it fails once a column is searched with its own value; see `Eloquent.CollectionLookupFails`.
- Eloquent.EloquentManager.Narrow: filters through the intended lookup. As written it fails once a column is searched with its own value; see `Eloquent.CollectionLookupFails`.
- Eloquent.EloquentManager.Get: filters through the intended lookup and resolves with the formatter closure called. As written it fails once a column is searched with its own value (`Eloquent.CollectionLookupFails`) or has a formatter (`Eloquent.FormatterCallFails`).
- Eloquent.SearchWheresNext: states the clauses built with the intended lookup; see `Eloquent.CollectionLookupFails`.
- Eloquent.SearchWheresExactly: states the clauses built with the intended lookup; see `Eloquent.CollectionLookupFails`.
- Eloquent.SearchClauseBinds: states the clause built with the intended lookup; see `Eloquent.CollectionLookupFails`.

## Findings

| source | as written | input that shows it | evidently intended | confidence | as-written member | corrected member |
|---|---|---|---|---|---|---|
| src/Request.php:121 | the global and per-column search texts are concatenated into `like '%...%'` unescaped (the same at :139 and in src/Models/Request.php:118,136) | the search text `' OR 'a'='a` closes the literal after `%`, and ` OR 'a'='a%'` is read as SQL | bind the search text, or escape it as `DatatablesService::filter` does (which holds under ANSI quoting; MySQL's backslash escapes are not modelled) | high, not executed | SspClauses.RawLikeLiteralClosesEarly | DatatablesService.EscapedLikeStaysInLiteral |
| src/EloquentManager.php:472-473 | `$column->formatter(...)` calls a method `formatter` that `DatatableColumn` does not have, and `$column['name']` reads an object as an array | any column with a formatter set | call the closure stored in the `formatter` property on the cell named by `name` | high, not executed | Eloquent.FormatterCallFails | ColumnDescriptors.CastAfterFormatter |
| src/EloquentManager.php:387-390 | `array_column` is applied to the `Collection` that `columns()` stores, which it does not accept; even on an array of descriptors, `['db']` is then read from a `DatatableColumn` object, which is not array-accessible | any column searched with its own value | look up the `db` of the descriptor named by the alias | medium, not executed | Eloquent.CollectionLookupFails | Eloquent.DatabaseColumnName |
| src/DatatablesService.php:333 | `complex` wraps the filtered query by its SQL text without `mergeBindings` | a non-empty global search with one searchable column: the page query keeps the `?` placeholders but binds no value | merge the bindings, as `order` does at src/DatatablesService.php:162-163 | medium, not executed | DatatablesService.ComplexDropsSearchBindings | DatatablesService.ComplexPageKeepsBindings |
