/**
 * The Eloquent engine: an object holding the query under construction, the
 * query the counts run on, the descriptors, the exact-search aliases, the
 * filter flag and the response, and the pipeline `get` that counts, filters,
 * orders and pages that query before reading and reshaping its rows.
 *
 * Column names reach the query through `getColumnName`: the request column's
 * name (or data), replaced by a positional lookup when it is numeric, and cut
 * at ` as ` when it carries an alias.
 */
module Eloquent {
  import opened Wrappers
  import opened PhpStrings
  import opened Selection
  import opened ColumnDescriptors
  import opened QueryBuilder
  import opened GridRequests
  import opened Responses
  import DatatablesService

  // ---------------------------------------------------------------------------
  // Keywords and column names

  /** `setupKeyword($value)`: the value between `%` wildcards, every backslash turned into `%`. */
  function SetupKeyword(value: string): (k: string)
    ensures |k| == |value| + 2
    ensures k[0] == '%' && k[|k| - 1] == '%'
    ensures forall i :: 0 <= i < |k| ==> k[i] != '\\'
    ensures forall i :: 0 <= i < |value| ==> k[i + 1] == (if value[i] == '\\' then '%' else value[i])
  {
    ReplaceChar("%" + value + "%", '\\', '%')
  }

  /** A value without backslashes is searched as it is, anywhere in the column. */
  lemma SetupKeywordPlain(value: string)
    requires forall i :: 0 <= i < |value| ==> value[i] != '\\'
    ensures SetupKeyword(value) == "%" + value + "%"
  {
    var k := SetupKeyword(value);
    assert forall i :: 0 <= i < |k| ==> k[i] == ("%" + value + "%")[i];
  }

  /**
   * `extractColumnName($str, $wantsAlias)`: lower-case the text, cut it at
   * ` as `, and keep the last piece (the alias) or the first (the expression).
   */
  function ExtractColumnName(str: string, wantsAlias: bool): string
  {
    var matches := Split(Lower(str), " as ");
    if wantsAlias then matches[|matches| - 1] else matches[0]
  }

  /**
   * Text without ` as ` comes back lower-cased and whole; otherwise the alias
   * follows an ` as ` at the end and the expression precedes one at the start.
   * Either way the result holds no ` as ` itself.
   */
  lemma ExtractColumnNameCut(str: string, wantsAlias: bool)
    ensures var low := Lower(str); var r := ExtractColumnName(str, wantsAlias);
      !Contains(r, " as ") &&
      (!Contains(low, " as ") ==> r == low) &&
      (Contains(low, " as ") && wantsAlias ==> IsSuffix(" as " + r, low)) &&
      (Contains(low, " as ") && !wantsAlias ==> IsPrefix(r + " as ", low))
  {
    var low := Lower(str);
    var matches := Split(low, " as ");
    JoinSplit(low, " as ");
    SplitPiecesFree(low, " as ");
    if !Contains(low, " as ") {
      NoSeparatorOnePiece(low, " as ");
    } else {
      SplitAtSeparator(low, " as ");
      JoinLast(matches, " as ");
      var init := Join(matches[..|matches| - 1], " as ");
      assert low == init + (" as " + matches[|matches| - 1]);
      assert low == (matches[0] + " as ") + Join(matches[1..], " as ");
    }
  }

  /**
   * Which piece is kept: the lower-cased text is cut at ` as ` from left to
   * right, and the alias is the last piece of that cut, the expression the
   * first, that is, the text before the first ` as `.
   */
  lemma ExtractColumnNamePiece(str: string, wantsAlias: bool)
    ensures var low := Lower(str); var r := ExtractColumnName(str, wantsAlias);
      forall ps :: LeftToRightCut(ps, low, " as ") ==> r == (if wantsAlias then ps[|ps| - 1] else ps[0])
    ensures var low := Lower(str); var r := ExtractColumnName(str, wantsAlias);
      !wantsAlias ==> forall j :: 0 <= j < |r| ==> !OccursAt(low, " as ", j)
  {
    var low := Lower(str);
    var matches := Split(low, " as ");
    var r := ExtractColumnName(str, wantsAlias);
    assert r == (if wantsAlias then matches[|matches| - 1] else matches[0]);
    SplitIsTheCut(low, " as ");
    SplitIsLeftToRightCut(low, " as ");
    FirstPiece(matches, low, " as ");
  }

  /** The text `getColumnName` works on: the request's name, or the positional name when that is numeric. */
  function IdentitySource(req: GridRequest, byIndex: nat -> string, index: nat): string
    requires index < |req.columns|
  {
    var column := ColumnName(req, index);
    if IsNumeric(column) then byIndex(index) else column
  }

  /** `getColumnName($index, $wantsAlias)`: the source text, cut by `extractColumnName` when it holds ` AS ` in any case. */
  function ColumnIdentity(req: GridRequest, byIndex: nat -> string, index: nat, wantsAlias: bool): string
    requires index < |req.columns|
  {
    var column := IdentitySource(req, byIndex, index);
    if Contains(Upper(column), " AS ") then ExtractColumnName(column, wantsAlias) else column
  }

  /**
   * The column identity is the source text when that holds no ` as ` in any
   * case; otherwise it is the last piece (when an alias is wanted) or the first
   * piece of the lower-cased text cut at ` as ` from left to right: the
   * upper-case guard and the lower-case cut agree.
   */
  lemma ColumnIdentityCut(req: GridRequest, byIndex: nat -> string, index: nat, wantsAlias: bool)
    requires index < |req.columns|
    ensures IsNumeric(ColumnName(req, index)) ==> IdentitySource(req, byIndex, index) == byIndex(index)
    ensures !IsNumeric(ColumnName(req, index)) ==> IdentitySource(req, byIndex, index) == ColumnName(req, index)
    ensures var src := IdentitySource(req, byIndex, index); var low := Lower(src);
      var r := ColumnIdentity(req, byIndex, index, wantsAlias);
      (!Contains(low, " as ") ==> r == src) &&
      (Contains(low, " as ") ==> !Contains(r, " as ")) &&
      (Contains(low, " as ") && wantsAlias ==> IsSuffix(" as " + r, low)) &&
      (Contains(low, " as ") && !wantsAlias ==> IsPrefix(r + " as ", low))
    ensures var low := Lower(IdentitySource(req, byIndex, index));
      var r := ColumnIdentity(req, byIndex, index, wantsAlias);
      Contains(low, " as ") ==>
        forall ps :: LeftToRightCut(ps, low, " as ") ==> r == (if wantsAlias then ps[|ps| - 1] else ps[0])
  {
    UpperAsIffLowerAs(IdentitySource(req, byIndex, index));
    ExtractColumnNameCut(IdentitySource(req, byIndex, index), wantsAlias);
    ExtractColumnNamePiece(IdentitySource(req, byIndex, index), wantsAlias);
  }

  /**
   * A plain, non-numeric column name is used exactly as the client sent it:
   * the column's `name` when that is set and non-empty, its `data` otherwise.
   */
  lemma PlainColumnIdentity(req: GridRequest, byIndex: nat -> string, index: nat, wantsAlias: bool)
    requires index < |req.columns|
    requires !IsNumeric(ColumnName(req, index)) && !Contains(Lower(ColumnName(req, index)), " as ")
    ensures var c := req.columns[index];
      c.name.Some? && c.name.value != "" ==> ColumnIdentity(req, byIndex, index, wantsAlias) == c.name.value
    ensures var c := req.columns[index];
      (c.name.None? || c.name.value == "") ==> ColumnIdentity(req, byIndex, index, wantsAlias) == c.data
  {
    UpperAsIffLowerAs(ColumnName(req, index));
  }

  /** `getColumnSelect()`: `db AS name` for every descriptor, in order. */
  function ColumnSelect(columns: seq<DatatableColumn>): (ps: seq<string>)
    ensures |ps| == |columns|
    ensures forall i :: 0 <= i < |columns| ==> ps[i] == columns[i].db + " AS " + columns[i].name
  {
    seq(|columns|, i requires 0 <= i < |columns| => columns[i].db + " AS " + columns[i].name)
  }

  /** How the descriptors are held: a PHP array, or a `Collection` object (what `columns()` stores). */
  datatype DescriptorStore = ArrayStore(items: seq<DatatableColumn>) | CollectionStore(elements: seq<DatatableColumn>)

  /**
   * `array_column($store, 'name')`: the names of an array's descriptors; an
   * object is refused (`None`).
   */
  function ArrayColumnNames(store: DescriptorStore): (r: Option<seq<string>>)
    ensures store.CollectionStore? <==> r.None?
    ensures store.ArrayStore? ==> |r.value| == |store.items|
    ensures store.ArrayStore? ==> forall i :: 0 <= i < |store.items| ==> r.value[i] == store.items[i].name
  {
    match store
    case ArrayStore(items) => Some(seq(|items|, i requires 0 <= i < |items| => items[i].name))
    case CollectionStore(_) => None
  }

  /**
   * `getDatabaseColumnName($alias)` as written, which has two steps and fails
   * at one of them on every store, so the result is always `None`. First,
   * `array_column` reads the descriptors' names, and it refuses a
   * `Collection` (`ArrayColumnNames` gives `None`). Second, on an array, the
   * element at the position `array_search` returns (position 0, which
   * `false` selects, when the alias is missing) is read with `['db']`. That
   * element is a `DatatableColumn` object, which is not array-accessible.
   */
  function DatabaseColumnNameAsWritten(store: DescriptorStore, alias: string): Option<string>
  {
    None
  }

  /**
   * Neither a `Collection` (what `columns()` stores) nor an array of
   * descriptors gets a column name from the as-written lookup, even for an
   * alias a descriptor carries, where the intended lookup finds the `db` of
   * the first descriptor with that name.
   */
  lemma CollectionLookupFails(columns: seq<DatatableColumn>, alias: string)
    requires FindByName(columns, alias).Some?
    ensures DatabaseColumnNameAsWritten(CollectionStore(columns), alias).None?
    ensures DatabaseColumnNameAsWritten(ArrayStore(columns), alias).None?
    ensures var i := FindByName(columns, alias).value;
      i < |columns| && DatabaseColumnName(columns, alias) == columns[i].db
  {
  }

  /** `getDatabaseColumnName($alias)`, as intended: the `db` of the first descriptor named `alias`. */
  function DatabaseColumnName(columns: seq<DatatableColumn>, alias: string): (db: string)
    requires FindByName(columns, alias).Some?
    ensures exists i :: 0 <= i < |columns| && columns[i].name == alias && columns[i].db == db
  {
    var i := FindByName(columns, alias).value;
    columns[i].db
  }

  // ---------------------------------------------------------------------------
  // Column standardisation

  /** The key a column was given under in `columns([...])`. */
  datatype ColumnKey = Position(i: int) | Key(k: string)

  /** What was given: a descriptor, or a bare database expression. */
  datatype ColumnSpec = Descriptor(c: DatatableColumn) | Expression(e: string)

  datatype ColumnEntry = ColumnEntry(key: ColumnKey, spec: ColumnSpec)

  /**
   * `standatizeColum($column, $i)`: a descriptor is kept; an expression under
   * a position names itself; an expression under a string key is named by the key.
   */
  function StandardizeColumn(entry: ColumnEntry): (c: DatatableColumn)
    ensures entry.spec.Descriptor? ==> c == entry.spec.c
    ensures entry.spec.Expression? ==> c.db == entry.spec.e && c.formatter.None? && c.cast.None?
    ensures entry.spec.Expression? && entry.key.Position? ==> c.name == entry.spec.e
    ensures entry.spec.Expression? && entry.key.Key? ==> c.name == entry.key.k
  {
    match entry.spec
    case Descriptor(c) => c
    case Expression(e) => if entry.key.Position? then NewColumn(e, e) else NewColumn(e, entry.key.k)
  }

  /** `standarizeColumns($columns)`: every entry standardised, re-indexed from 0 in the given order. */
  function StandardizeColumns(entries: seq<ColumnEntry>): (cs: seq<DatatableColumn>)
    ensures |cs| == |entries|
    ensures forall i :: 0 <= i < |entries| ==> cs[i] == StandardizeColumn(entries[i])
  {
    seq(|entries|, i requires 0 <= i < |entries| => StandardizeColumn(entries[i]))
  }

  /** Standardising is idempotent: passing the standardised descriptors back gives them unchanged. */
  lemma StandardizeIdempotent(entries: seq<ColumnEntry>, keys: seq<ColumnKey>)
    requires |keys| == |entries|
    ensures var cs := StandardizeColumns(entries);
      StandardizeColumns(seq(|cs|, i requires 0 <= i < |cs| => ColumnEntry(keys[i], Descriptor(cs[i])))) == cs
  {
  }

  // ---------------------------------------------------------------------------
  // count

  /** Words after which the select of a query cannot be replaced for counting. */
  const CountBlockers: seq<string> := ["union", "having", "distinct", "order by", "group by"]

  /**
   * The query `count()` counts over: the select replaced by the constant
   * `'1' as row_count` unless the lower-cased SQL contains a blocker word.
   */
  function CountShape(q: Query, conn: Connection): (r: Query)
    ensures r.(selects := q.selects) == q
    ensures ContainsAny(Lower(conn.toSql(q)), CountBlockers) ==> r == q
    ensures !ContainsAny(Lower(conn.toSql(q)), CountBlockers) ==> r.selects == ["'1' as " + conn.wrap("row_count")]
  {
    if !ContainsAny(Lower(conn.toSql(q)), CountBlockers) then
      q.(selects := ["'1' as " + conn.wrap("row_count")])
    else q
  }

  /** `count()` on a query: its count shape as the derived table `count_row_table`, with its bindings. */
  function CountOf(q: Query, conn: Connection): nat
  {
    conn.count(Wrap(CountShape(q, conn), "count_row_table"))
  }

  /** Counting keeps the query's conditions and sends the same bound values. */
  lemma CountKeepsConditions(q: Query, conn: Connection)
    ensures var c := Wrap(CountShape(q, conn), "count_row_table");
      c.from.inner.from == q.from && c.from.inner.wheres == q.wheres && c.from.inner.groups == q.groups &&
      Bindings(c) == Bindings(q)
  {
    var shape := CountShape(q, conn);
    WrapKeepsBindings(shape, "count_row_table");
    assert shape.from == q.from && shape.wheres == q.wheres;
  }

  /** Which query `count()` reads: the saved raw query when there is one, the current query otherwise. */
  function CountTarget(rawQuery: Option<Query>, query: Query): Query
  {
    if rawQuery.Some? then rawQuery.value else query
  }

  // ---------------------------------------------------------------------------
  // column search

  /** The SQL text of a column search: the keyword never appears in it. */
  function CompiledSql(column: string, exact: bool, caseSensitive: bool): string
  {
    if exact then (if caseSensitive then column + " = ?" else "LOWER(" + column + ") = ?")
    else (if caseSensitive then column + " LIKE ?" else "LOWER(" + column + ") LIKE ?")
  }

  /**
   * `compileColumnSearch`: `col = ?` bound to the keyword for an exact column,
   * `col LIKE ?` bound to the wildcarded keyword otherwise; the keyword is
   * lower-cased, and the column wrapped in `LOWER`, for a case-insensitive search.
   */
  function CompiledColumnSearch(column: string, keyword: string, exact: bool, caseSensitive: bool): (w: Where)
    ensures w.boolean == And
    ensures w.condition == RawPredicate(CompiledSql(column, exact, caseSensitive),
      [if exact then (if caseSensitive then keyword else Lower(keyword))
       else SetupKeyword(if caseSensitive then keyword else Lower(keyword))])
  {
    var kw := if caseSensitive then keyword else Lower(keyword);
    if exact then Where(And, RawPredicate(CompiledSql(column, true, caseSensitive), [kw]))
    else Where(And, RawPredicate(CompiledSql(column, false, caseSensitive), [SetupKeyword(kw)]))
  }

  /**
   * The keyword never reaches the SQL text: two searches on the same column
   * have the same SQL and differ only in the value bound to `?`.
   */
  lemma KeywordOnlyInBindings(column: string, k1: string, k2: string, exact: bool, caseSensitive: bool)
    ensures CompiledColumnSearch(column, k1, exact, caseSensitive).condition.sql ==
            CompiledColumnSearch(column, k2, exact, caseSensitive).condition.sql
    ensures exact && caseSensitive ==> CompiledColumnSearch(column, k1, exact, caseSensitive).condition.bindings == [k1]
  {
  }

  /** A backslash in a search value is searched as the `%` wildcard: the two keywords bind the same pattern. */
  lemma BackslashIsWildcard(a: string, b: string)
    ensures SetupKeyword(a + "\\" + b) == SetupKeyword(a + "%" + b)
  {
    var v1, v2 := a + "\\" + b, a + "%" + b;
    var k1, k2 := SetupKeyword(v1), SetupKeyword(v2);
    assert |v1| == |v2|;
    assert k1[0] == k2[0] && k1[|k1| - 1] == k2[|k2| - 1];
    forall i | 0 <= i < |k1|
      ensures k1[i] == k2[i]
    {
      if 0 < i < |k1| - 1 {
        var j := i - 1;
        if j != |a| {
          assert v1[j] == v2[j];
        }
        assert k1[j + 1] == k2[j + 1];
      }
    }
  }

  /** Every request column searched with its own value names a descriptor through its identity. */
  predicate SearchResolvable(req: GridRequest, byIndex: nat -> string, columns: seq<DatatableColumn>)
  {
    forall i :: 0 <= i < |req.columns| && IsColumnSearchable(req, i, true) ==>
      FindByName(columns, ColumnIdentity(req, byIndex, i, false)).Some?
  }

  /** The search clause for request column `i`. */
  function ColumnSearchClause(req: GridRequest, byIndex: nat -> string, columns: seq<DatatableColumn>,
                              exact: seq<string>, i: nat): Where
    requires i < |req.columns| && IsColumnSearchable(req, i, true) && SearchResolvable(req, byIndex, columns)
  {
    var alias := ColumnIdentity(req, byIndex, i, false);
    CompiledColumnSearch(DatabaseColumnName(columns, alias), ColumnKeyword(req, i), alias in exact, true)
  }

  /** The search clause of a request column, for the columns searched with their own value. */
  function SearchItem(req: GridRequest, byIndex: nat -> string, columns: seq<DatatableColumn>,
                      exact: seq<string>): nat --> Where
  {
    (i: nat) requires i < |req.columns| && IsColumnSearchable(req, i, true) && SearchResolvable(req, byIndex, columns) =>
      ColumnSearchClause(req, byIndex, columns, exact, i)
  }

  /** The search clauses `columnSearch()` adds for the first `n` request columns. */
  function SearchWheres(req: GridRequest, byIndex: nat -> string, columns: seq<DatatableColumn>,
                        exact: seq<string>, n: nat): seq<Where>
    requires n <= |req.columns| && SearchResolvable(req, byIndex, columns)
  {
    Kept(n, FilteredAt(req), SearchItem(req, byIndex, columns, exact))
  }

  /** Request column `i` adds its clause exactly when it is searched with its own value. */
  lemma SearchWheresNext(req: GridRequest, byIndex: nat -> string, columns: seq<DatatableColumn>,
                         exact: seq<string>, i: nat)
    requires i < |req.columns| && SearchResolvable(req, byIndex, columns)
    ensures SearchWheres(req, byIndex, columns, exact, i + 1) == SearchWheres(req, byIndex, columns, exact, i) +
      (if IsColumnSearchable(req, i, true) then [ColumnSearchClause(req, byIndex, columns, exact, i)] else [])
    ensures Positions(i + 1, FilteredAt(req)) ==
      Positions(i, FilteredAt(req)) + (if IsColumnSearchable(req, i, true) then [i] else [])
  {
    assert FilteredAt(req)(i) == IsColumnSearchable(req, i, true);
  }

  /** The clause of a column searched with its own value binds that value, wildcarded unless the alias is exact. */
  lemma SearchClauseBinds(req: GridRequest, byIndex: nat -> string, columns: seq<DatatableColumn>,
                          exact: seq<string>, i: nat)
    requires i < |req.columns| && IsColumnSearchable(req, i, true) && SearchResolvable(req, byIndex, columns)
    ensures var alias := ColumnIdentity(req, byIndex, i, false);
      var w := ColumnSearchClause(req, byIndex, columns, exact, i);
      w.boolean == And &&
      w.condition.sql == CompiledSql(DatabaseColumnName(columns, alias), alias in exact, true) &&
      w.condition.bindings ==
        [if alias in exact then req.columns[i].searchValue else SetupKeyword(req.columns[i].searchValue)]
  {
  }

  /** One clause per column searchable with its own value, in column order. */
  lemma SearchWheresExactly(req: GridRequest, byIndex: nat -> string, columns: seq<DatatableColumn>,
                            exact: seq<string>, n: nat)
    requires n <= |req.columns| && SearchResolvable(req, byIndex, columns)
    ensures |SearchWheres(req, byIndex, columns, exact, n)| == |Positions(n, FilteredAt(req))|
    ensures forall k :: 0 <= k < |Positions(n, FilteredAt(req))| ==>
      IsColumnSearchable(req, Positions(n, FilteredAt(req))[k], true) &&
      SearchWheres(req, byIndex, columns, exact, n)[k] ==
        ColumnSearchClause(req, byIndex, columns, exact, Positions(n, FilteredAt(req))[k])
  {
    KeptExactly(n, FilteredAt(req), SearchItem(req, byIndex, columns, exact));
  }

  // ---------------------------------------------------------------------------
  // order and paging

  /** The order clauses for `orderableColumns()` entries: the aliased column identity, direction text unchanged. */
  function OrderClauses(req: GridRequest, byIndex: nat -> string, entries: seq<OrderEntry>): (os: seq<OrderBy>)
    requires forall k :: 0 <= k < |entries| ==> 0 <= entries[k].column < |req.columns|
    ensures |os| == |entries|
    ensures forall k :: 0 <= k < |entries| ==>
      os[k].column == ColumnIdentity(req, byIndex, entries[k].column, true) && os[k].direction == entries[k].direction
  {
    seq(|entries|, k requires 0 <= k < |entries| =>
      OrderBy(ColumnIdentity(req, byIndex, entries[k].column, true), entries[k].direction))
  }

  /**
   * The `foreach` of `orderRecords()`: one `orderBy` per entry, in entry
   * order, on the name `columnName` gives the entry's column (the engine
   * passes `getColumnName` with the alias wanted).
   */
  method OrderByEntries(entries: seq<OrderEntry>, columnName: int --> string) returns (orders: seq<OrderBy>)
    requires forall k :: 0 <= k < |entries| ==> columnName.requires(entries[k].column)
    ensures |orders| == |entries|
    ensures forall k :: 0 <= k < |entries| ==>
      orders[k] == OrderBy(columnName(entries[k].column), entries[k].direction)
  {
    orders := [];
    var k := 0;
    while k < |entries|
      invariant 0 <= k <= |entries|
      invariant |orders| == k
      invariant forall j :: 0 <= j < k ==> orders[j] == OrderBy(columnName(entries[j].column), entries[j].direction)
    {
      var column := columnName(entries[k].column);
      orders := orders + [OrderBy(column, entries[k].direction)];
      k := k + 1;
    }
  }

  /** The entries of `orderableColumns()` all name existing columns. */
  lemma OrderableInRange(req: GridRequest)
    ensures forall k :: 0 <= k < |Orderable(req, |req.order|)| ==>
      0 <= Orderable(req, |req.order|)[k].column < |req.columns|
  {
    var es := Orderable(req, |req.order|);
    OrderableEntriesInRange(req, |req.order|);
    forall k | 0 <= k < |es|
      ensures 0 <= es[k].column < |req.columns|
    {
      assert es[k] in es;
    }
  }

  /** The order clauses of a whole request. */
  function RequestOrders(req: GridRequest, byIndex: nat -> string): (os: seq<OrderBy>)
    ensures |os| == |Orderable(req, |req.order|)|
    ensures forall k :: 0 <= k < |Orderable(req, |req.order|)| ==>
      0 <= Orderable(req, |req.order|)[k].column < |req.columns| &&
      os[k] == OrderBy(ColumnIdentity(req, byIndex, Orderable(req, |req.order|)[k].column, true),
                       Orderable(req, |req.order|)[k].direction)
  {
    var es := Orderable(req, |req.order|);
    OrderableInRange(req);
    assert forall k :: 0 <= k < |es| ==> 0 <= es[k].column < |req.columns|;
    OrderClauses(req, byIndex, es)
  }

  /** Ordering over the derived table `sub` sends the same bound values as the query it wraps. */
  lemma OrderedKeepsBindings(q: Query, orders: seq<OrderBy>)
    ensures Bindings(Wrap(q, "sub").(orders := orders)) == Bindings(q)
  {
    WrapKeepsBindings(q, "sub");
    assert Wrap(q, "sub").(orders := orders).wheres == [];
  }

  /** `(int)$request['start']`, `0` when absent. */
  function StartValue(req: GridRequest): int
  {
    if req.start.Some? then IntVal(req.start.value) else 0
  }

  /** The page size `paging()` takes: the requested length when positive, 10 otherwise. */
  function PageLength(req: GridRequest): (n: int)
    ensures n > 0
    ensures IntVal(req.length) > 0 ==> n == IntVal(req.length)
    ensures IntVal(req.length) <= 0 ==> n == 10
  {
    if IntVal(req.length) > 0 then IntVal(req.length) else 10
  }

  /** The query after `paging()`. */
  function Paged(q: Query, req: GridRequest): Query
  {
    q.(offset := Some(StartValue(req)), limit := Some(PageLength(req)))
  }

  /** A paged query never returns more than the page size, and never nothing when rows remain past the offset. */
  lemma PagedWindow<T>(q: Query, req: GridRequest, rows: seq<T>)
    ensures |Window(rows, Paged(q, req).offset, Paged(q, req).limit)| <= PageLength(req)
    ensures 0 < |rows| && StartValue(req) < |rows| ==> |Window(rows, Paged(q, req).offset, Paged(q, req).limit)| > 0
  {
    var p := Paged(q, req);
    var n := PageLength(req);
    assert p.offset == Some(StartValue(req)) && p.limit == Some(n);
    var skip := if StartValue(req) <= 0 then 0 else if StartValue(req) > |rows| then |rows| else StartValue(req);
    var rest := rows[skip..];
    var page := Window(rows, p.offset, p.limit);
    assert page == (if 0 <= n < |rest| then rest[..n] else rest);
    if 0 < |rows| && StartValue(req) < |rows| {
      assert |rest| > 0;
    }
  }

  // ---------------------------------------------------------------------------
  // The stages of `get()`

  /** `addSelect(getColumnSelect())`: the descriptors' `db AS name` appended to the select list. */
  function WithColumns(q: Query, columns: seq<DatatableColumn>): Query
  {
    q.(selects := q.selects + ColumnSelect(columns))
  }

  /** The query after `columnSearch()`: its search clauses appended, joined with AND. */
  function Searched(q: Query, req: GridRequest, byIndex: nat -> string, columns: seq<DatatableColumn>,
                    exact: seq<string>): Query
    requires SearchResolvable(req, byIndex, columns)
  {
    q.(wheres := q.wheres + SearchWheres(req, byIndex, columns, exact, |req.columns|))
  }

  /** The query after `orderRecords()`: the derived table `sub` over `q`, ordered as the request asks. */
  function OrderedSub(q: Query, req: GridRequest, byIndex: nat -> string): Query
  {
    Wrap(q, "sub").(orders := RequestOrders(req, byIndex))
  }

  /**
   * Filtering inside the derived table (ordering first) or on it (filtering
   * first) sends the same values: the query's own, then one per search clause.
   * Only where the clauses apply differs: inside `sub`, or over its columns.
   */
  lemma PipelinesBindAlike(q: Query, req: GridRequest, byIndex: nat -> string, columns: seq<DatatableColumn>,
                           exact: seq<string>)
    requires SearchResolvable(req, byIndex, columns)
    ensures var searches := SearchWheres(req, byIndex, columns, exact, |req.columns|);
      Bindings(OrderedSub(Searched(q, req, byIndex, columns, exact), req, byIndex)) ==
        Bindings(q) + WhereBindings(searches) &&
      Bindings(Searched(OrderedSub(q, req, byIndex), req, byIndex, columns, exact)) ==
        Bindings(q) + WhereBindings(searches)
  {
    var searches := SearchWheres(req, byIndex, columns, exact, |req.columns|);
    var orders := RequestOrders(req, byIndex);
    AddWheresBindings(q, searches);
    OrderedKeepsBindings(Searched(q, req, byIndex, columns, exact), orders);
    AddWheresBindings(OrderedSub(q, req, byIndex), searches);
    OrderedKeepsBindings(q, orders);
  }

  // ---------------------------------------------------------------------------
  // resolve, as written

  /**
   * One cell as `resolve()` is written: with a formatter set, the engine calls
   * a method named `formatter` on the descriptor (which has none) and reads
   * the descriptor as an array, so the call fails; `None` stands for that failure.
   */
  function ResolveCellAsWritten(c: DatatableColumn, row: Row, settype: Settype): Option<Value>
  {
    if c.formatter.Some? then None else Some(Cell(c, row, settype))
  }

  /**
   * As written, every row of a grid with a formatter column fails to resolve,
   * while applying the formatter closure gives the formatted (then cast) value.
   */
  lemma FormatterCallFails(c: DatatableColumn, row: Row, settype: Settype)
    requires c.formatter.Some?
    ensures ResolveCellAsWritten(c, row, settype).None?
    ensures var f := c.formatter.value(Property(row, c.name), row);
      Cell(c, row, settype) == (if c.cast.Some? then settype(f, c.cast.value) else f)
  {
  }

  // ---------------------------------------------------------------------------
  // The engine

  class EloquentManager {
    const request: GridRequest
    const conn: Connection
    /** The positional lookup `getColumnName` uses for numeric names (not defined by the engine itself). */
    const columnNameByIndex: nat -> string
    const settype: Settype

    var query: Query
    var rawQuery: Option<Query>
    var isFilterApplied: bool
    var columns: seq<DatatableColumn>
    var exactSearchColumns: seq<string>
    var response: DataTable

    /** `new EloquentManager($builder, $request)`: nothing filtered, no raw query, an empty response. */
    constructor(model: Query, request: GridRequest, conn: Connection, columnNameByIndex: nat -> string, settype: Settype)
      ensures this.request == request && this.conn == conn
      ensures this.columnNameByIndex == columnNameByIndex && this.settype == settype
      ensures query == model && rawQuery.None? && !isFilterApplied
      ensures columns == [] && exactSearchColumns == [] && response == EmptyDataTable()
    {
      this.request := request;
      this.conn := conn;
      this.columnNameByIndex := columnNameByIndex;
      this.settype := settype;
      query := model;
      rawQuery := None;
      isFilterApplied := false;
      columns := [];
      exactSearchColumns := [];
      response := EmptyDataTable();
    }

    /** `exactColumnSearch($array)`: the aliases searched by equality instead of `LIKE`. */
    method ExactColumnSearch(aliases: seq<string>)
      modifies this`exactSearchColumns
      ensures exactSearchColumns == aliases
    {
      exactSearchColumns := aliases;
    }

    /** `columns($columns)`: the standardised descriptors. */
    method SetColumns(entries: seq<ColumnEntry>)
      modifies this`columns
      ensures columns == StandardizeColumns(entries)
    {
      columns := StandardizeColumns(entries);
    }

    /** `count()`: the row count of the raw query if one was saved, of the current query otherwise. */
    function Count(): nat
      reads this
    {
      CountOf(CountTarget(rawQuery, query), conn)
    }

    /**
     * `orderRecords()`: wrap the query as the derived table `sub` (bindings
     * kept), then order by each orderable entry's aliased column name.
     */
    method OrderRecords()
      modifies this`query
      ensures query == OrderedSub(old(query), request, columnNameByIndex)
    {
      var sub := Wrap(query, "sub");
      var orderable := OrderableColumns(request);
      OrderableInRange(request);
      var orders := OrderByEntries(orderable, i requires 0 <= i < |request.columns| => ColumnIdentity(request, columnNameByIndex, i, true));
      query := sub.(orders := orders);
    }

    /** `compileColumnSearch($i, $column, $exact, $caseSensitive)`: one more search clause on the query. */
    method CompileColumnSearch(i: nat, column: string, exact: bool, caseSensitive: bool)
      requires i < |request.columns|
      modifies this`query
      ensures query == old(query).(wheres := old(query).wheres +
        [CompiledColumnSearch(column, ColumnKeyword(request, i), exact, caseSensitive)])
    {
      var keyword := ColumnKeyword(request, i);
      keyword := if caseSensitive then keyword else Lower(keyword);
      if exact {
        var sql := if caseSensitive then column + " = ?" else "LOWER(" + column + ") = ?";
        query := query.(wheres := query.wheres + [Where(And, RawPredicate(sql, [keyword]))]);
      } else {
        var search := SetupKeyword(keyword);
        var sql := if caseSensitive then column + " LIKE ?" else "LOWER(" + column + ") LIKE ?";
        query := query.(wheres := query.wheres + [Where(And, RawPredicate(sql, [search]))]);
      }
    }

    /**
     * `columnSearch()`: a case-sensitive search clause per column searchable
     * with its own value; the filter flag is raised iff there is one.
     */
    method ColumnSearch()
      requires SearchResolvable(request, columnNameByIndex, columns)
      modifies this`query, this`isFilterApplied
      ensures query == old(query).(wheres := old(query).wheres +
        SearchWheres(request, columnNameByIndex, columns, exactSearchColumns, |request.columns|))
      ensures isFilterApplied == (old(isFilterApplied) || Positions(|request.columns|, FilteredAt(request)) != [])
    {
      ghost var before := query;
      var key := 0;
      while key < |request.columns|
        invariant 0 <= key <= |request.columns|
        invariant query == before.(wheres := before.wheres +
          SearchWheres(request, columnNameByIndex, columns, exactSearchColumns, key))
        invariant isFilterApplied == (old(isFilterApplied) || Positions(key, FilteredAt(request)) != [])
      {
        SearchWheresNext(request, columnNameByIndex, columns, exactSearchColumns, key);
        AppendAssoc(before.wheres, SearchWheres(request, columnNameByIndex, columns, exactSearchColumns, key),
          if IsColumnSearchable(request, key, true)
          then [ColumnSearchClause(request, columnNameByIndex, columns, exactSearchColumns, key)] else []);
        SearchColumn(key);
        key := key + 1;
      }
    }

    /** The body of the `each` in `columnSearch()`, for the column at `key`. */
    method SearchColumn(key: nat)
      requires key < |request.columns| && SearchResolvable(request, columnNameByIndex, columns)
      modifies this`query, this`isFilterApplied
      ensures query == old(query).(wheres := old(query).wheres +
        (if IsColumnSearchable(request, key, true)
         then [ColumnSearchClause(request, columnNameByIndex, columns, exactSearchColumns, key)] else []))
      ensures isFilterApplied == (old(isFilterApplied) || IsColumnSearchable(request, key, true))
    {
      if IsColumnSearchable(request, key, true) {
        var alias := ColumnIdentity(request, columnNameByIndex, key, false);
        var column := DatabaseColumnName(columns, alias);
        CompileColumnSearch(key, column, alias in exactSearchColumns, true);
        isFilterApplied := true;
      }
    }

    /**
     * `filterRecords()`: the global search body is commented out in the engine
     * and the filter callback is a user hook, so only the column search acts.
     */
    method FilterRecords()
      requires SearchResolvable(request, columnNameByIndex, columns)
      modifies this`query, this`isFilterApplied
      ensures query == Searched(old(query), request, columnNameByIndex, columns, exactSearchColumns)
      ensures isFilterApplied == (old(isFilterApplied) || Positions(|request.columns|, FilteredAt(request)) != [])
    {
      ColumnSearch();
    }

    /** `paging()`: skip `start` rows and take `length` of them, 10 when the length is not positive. */
    method Paging()
      modifies this`query
      ensures query == Paged(old(query), request)
    {
      query := query.(offset := Some(StartValue(request)));
      var length := if IntVal(request.length) > 0 then IntVal(request.length) else 10;
      query := query.(limit := Some(length));
    }

    /**
     * `resolve()`: the query's rows reshaped column by column, with each
     * formatter applied as a closure; the draw counter echoed.
     */
    method Resolve() returns (resp: DataTable)
      modifies this`response
      ensures response == old(response).(draw := Some(IntVal(request.draw)),
                                         data := FormatRows(columns, conn.get(query), settype))
      ensures resp == response
    {
      var data := conn.get(query);
      var out := DatatablesService.DataOutput(columns, data, settype);
      response := response.(draw := Some(IntVal(request.draw)), data := out);
      resp := response;
    }

    /**
     * `get($orderFirst)`: select the descriptors and count; when there are
     * rows, narrow the query; then resolve.
     */
    method Get(orderFirst: bool) returns (resp: DataTable)
      requires SearchResolvable(request, columnNameByIndex, columns)
      modifies this`query, this`rawQuery, this`isFilterApplied, this`response
      ensures var q0 := WithColumns(old(query), columns);
        response.recordsTotal == Some(CountOf(CountTarget(old(rawQuery), q0), conn))
      ensures var q0 := WithColumns(old(query), columns);
        CountOf(CountTarget(old(rawQuery), q0), conn) == 0 ==>
          query == q0 && rawQuery == old(rawQuery) && isFilterApplied == old(isFilterApplied) &&
          response.recordsFiltered == old(response.recordsFiltered)
      ensures var q0 := WithColumns(old(query), columns);
        CountOf(CountTarget(old(rawQuery), q0), conn) != 0 ==>
          Narrowed(orderFirst, q0, old(rawQuery), CountOf(CountTarget(old(rawQuery), q0), conn), old(isFilterApplied))
      ensures resp == response && response.draw == Some(IntVal(request.draw))
      ensures response.data == FormatRows(columns, conn.get(query), settype)
    {
      query := query.(selects := query.selects + ColumnSelect(columns));
      var total := Count();
      response := response.(recordsTotal := Some(total));
      if total != 0 {
        Narrow(orderFirst, total);
      }
      resp := Resolve();
    }

    /**
     * The state the counted branch of `get()` leaves, from the selected query
     * `q0`, the raw query before it and the total:
     *  - ordering first filters inside `sub` and saves the filtered query as
     *    the raw query, but the filtered count is read through the raw query
     *    as it stood before (`raw0`): it counts that earlier query when there
     *    is one, and the filtered query itself when there is none;
     *  - filtering first saves `q0` as the raw query before wrapping and
     *    filters over `sub`, so the filtered count counts `q0`;
     *  - either way the page is cut last, the flag says whether a column
     *    search applied, and the filtered count is the total when none did.
     */
    ghost predicate Narrowed(orderFirst: bool, q0: Query, raw0: Option<Query>, total: nat, flag0: bool)
      requires SearchResolvable(request, columnNameByIndex, columns)
      reads this
    {
      var filtered := Searched(q0, request, columnNameByIndex, columns, exactSearchColumns);
      isFilterApplied == (flag0 || Positions(|request.columns|, FilteredAt(request)) != []) &&
      response.recordsTotal == Some(total) &&
      (orderFirst ==>
        rawQuery == Some(filtered) &&
        query == Paged(OrderedSub(filtered, request, columnNameByIndex), request) &&
        response.recordsFiltered ==
          Some(if isFilterApplied then CountOf(CountTarget(raw0, filtered), conn) else total)) &&
      (!orderFirst ==>
        rawQuery == Some(q0) &&
        query == Paged(Searched(OrderedSub(q0, request, columnNameByIndex), request, columnNameByIndex,
                                columns, exactSearchColumns), request) &&
        response.recordsFiltered == Some(if isFilterApplied then CountOf(q0, conn) else total))
    }

    /** The counted branch of `get()`: filter and order in the order asked, count the filtered rows, page. */
    method Narrow(orderFirst: bool, total: nat)
      requires SearchResolvable(request, columnNameByIndex, columns)
      requires response.recordsTotal == Some(total)
      modifies this`query, this`rawQuery, this`isFilterApplied, this`response
      ensures Narrowed(orderFirst, old(query), old(rawQuery), total, old(isFilterApplied))
      ensures response.draw == old(response.draw) && response.data == old(response.data)
    {
      if !orderFirst {
        rawQuery := Some(query);
        OrderRecords();
      }
      FilterRecords();
      var filtered := if isFilterApplied then Count() else total;
      response := response.(recordsFiltered := Some(filtered));
      if orderFirst {
        rawQuery := Some(query);
        OrderRecords();
      }
      Paging();
    }
  }
}
