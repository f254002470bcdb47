/**
 * The static DataTables service: builds the projection of the descriptors,
 * filters with every single quote of the search text doubled, orders over the
 * filtered query wrapped as a derived table, pages, and reshapes the rows.
 * `limit` and `group` are those of the request helpers.
 */
module DatatablesService {
  import opened Wrappers
  import opened PhpStrings
  import opened Selection
  import opened ColumnDescriptors
  import opened QueryBuilder
  import opened GridRequests
  import opened SqlLiteral
  import opened Responses
  import SspClauses

  // ---------------------------------------------------------------------------
  // select / db

  /** `DB::raw($column['db'] . ' as ' . $column['dt'])`. */
  function Projection(c: DatatableColumn): string
  {
    c.db + " as " + c.name
  }

  /** The projections of the descriptors, in descriptor order. */
  function Projections(columns: seq<DatatableColumn>): (ps: seq<string>)
    ensures |ps| == |columns|
    ensures forall i :: 0 <= i < |columns| ==> ps[i] == Projection(columns[i])
  {
    seq(|columns|, i requires 0 <= i < |columns| => Projection(columns[i]))
  }

  /** The query `select` leaves: the projections appended to what was selected. */
  function Selected(model: Query, columns: seq<DatatableColumn>): Query
  {
    model.(selects := model.selects + Projections(columns))
  }

  /** `select`: one `db as dt` projection per descriptor, in order; nothing else changes. */
  method Select(model: Query, columns: seq<DatatableColumn>) returns (r: Query)
    ensures r == Selected(model, columns)
    ensures |r.selects| == |model.selects| + |columns|
  {
    r := model;
    var i := 0;
    while i < |columns|
      invariant 0 <= i <= |columns|
      invariant r == model.(selects := model.selects + Projections(columns)[..i])
    {
      r := r.(selects := r.selects + [Projection(columns[i])]);
      i := i + 1;
      assert Projections(columns)[..i] == Projections(columns)[..i - 1] + [Projection(columns[i - 1])];
    }
    assert Projections(columns)[..i] == Projections(columns);
  }

  /** `db`: the table with the descriptors' projections. */
  method Db(table: string, columns: seq<DatatableColumn>) returns (r: Query)
    ensures r == Selected(NewQuery(table), columns)
    ensures r.from == Named(table) && r.selects == Projections(columns)
  {
    r := Select(NewQuery(table), columns);
  }

  /** The group terms `groupBy` adds; an absent `groupBy` adds none. */
  function GroupList(groupBy: Option<seq<string>>): seq<string>
  {
    if groupBy.Some? then groupBy.value else []
  }

  // ---------------------------------------------------------------------------
  // order

  /** The query `order` leaves: the input as a derived table `sub`, with the order terms. */
  function Ordered(db: Query, req: GridRequest, columns: seq<DatatableColumn>): Query
    requires SspClauses.Resolvable(req, columns) && SspClauses.DirectivesInRange(req)
  {
    Wrap(db, "sub").(orders := SspClauses.OrderTerms(req, columns, |req.order|))
  }

  /**
   * `order`: wrap the query as the derived table `sub`, keeping its bindings,
   * then order by the orderable directives.
   */
  method Order(db: Query, req: GridRequest, columns: seq<DatatableColumn>) returns (r: Query)
    requires SspClauses.Resolvable(req, columns) && SspClauses.DirectivesInRange(req)
    ensures r == Ordered(db, req, columns)
    ensures r.from == Derived(db, "sub") && Bindings(r) == Bindings(db)
  {
    r := Wrap(db, "sub");
    WrapKeepsBindings(db, "sub");
    r := SspClauses.Order(r, req, columns);
  }

  // ---------------------------------------------------------------------------
  // filter (single quotes doubled)

  /** `$column['db'] . ' LIKE ' . "'%" . $str . "%'"` with `$str` the search text, quotes doubled. */
  function EscapedLike(db: string, s: string): string
  {
    db + " LIKE '%" + DoubleQuotes(s) + "%'"
  }

  /**
   * With quotes doubled the literal opened after ` LIKE ` reads back as
   * exactly `%`, the search text and `%`, and closes at the end of the fragment.
   */
  lemma EscapedLikeStaysInLiteral(db: string, s: string)
    ensures ReadLiteralBody(EscapedLike(db, s)[|db| + 7..]) == Some(("%" + s + "%", ""))
  {
    var sql := EscapedLike(db, s);
    DoubleQuotesAppend("%", s);
    DoubleQuotesAppend("%" + s, "%");
    assert DoubleQuotes("%") == "%";
    assert sql[|db| + 7..] == DoubleQuotes("%" + s + "%") + "'" + "";
    ReadDoubledLiteral("%" + s + "%", "");
  }

  /** The bound pattern of the global search: the search text, quotes doubled, between `%`s. */
  function GlobalPattern(v: string): string
  {
    "%" + DoubleQuotes(v) + "%"
  }

  /**
   * The global value is bound, not spliced into the SQL, yet its quotes are
   * doubled too: the bound pattern for `O'Brien` asks for `O''Brien`, so a
   * value holding one quote is never searched as typed.
   */
  lemma GlobalPatternDoublesBoundQuote(a: string, b: string)
    requires forall i :: 0 <= i < |a| ==> a[i] != '\''
    requires forall i :: 0 <= i < |b| ==> b[i] != '\''
    ensures GlobalPattern(a + "'" + b) == "%" + a + "''" + b + "%"
    ensures GlobalPattern(a + "'" + b) != "%" + (a + "'" + b) + "%"
  {
    var q := "'";
    assert DoubleQuotes(q) == "''" by {
      assert q[1..] == "";
    }
    calc {
      DoubleQuotes(a + q + b);
      { DoubleQuotesAppend(a + q, b); }
      DoubleQuotes(a + q) + DoubleQuotes(b);
      { DoubleQuotesAppend(a, q); }
      DoubleQuotes(a) + "''" + DoubleQuotes(b);
      { DoubleQuotesWithoutQuote(a); DoubleQuotesWithoutQuote(b); }
      a + "''" + b;
    }
    assert |GlobalPattern(a + q + b)| != |"%" + (a + q + b) + "%"|;
  }

  /** The global term of request column `i`: an OR-ed bound `LIKE` of its descriptor's `db` against the global pattern. */
  function GlobalItem(req: GridRequest, columns: seq<DatatableColumn>): nat --> Where
  {
    (i: nat) requires i < |req.columns| && SspClauses.Resolvable(req, columns) =>
      Where(Or, BasicPredicate(SspClauses.Descriptor(req, columns, i).db, " LIKE ", GlobalPattern(req.searchValue)))
  }

  /** The own term of request column `i`: an AND-ed escaped raw `LIKE` of its descriptor's `db` against its own text. */
  function ColumnItem(req: GridRequest, columns: seq<DatatableColumn>): nat --> Where
  {
    (i: nat) requires i < |req.columns| && SspClauses.Resolvable(req, columns) =>
      Where(And, RawPredicate(EscapedLike(SspClauses.Descriptor(req, columns, i).db, req.columns[i].searchValue), []))
  }

  /** The global search terms of the first `n` request columns: one per searchable column. */
  function GlobalLikes(req: GridRequest, columns: seq<DatatableColumn>, n: nat): seq<Where>
    requires SspClauses.Resolvable(req, columns) && n <= |req.columns|
  {
    Kept(n, SearchableAt(req), GlobalItem(req, columns))
  }

  /**
   * The per-column search terms of the first `n` request columns: one per
   * column searched with its own text (a text is empty exactly when its
   * quote-doubled form is, so this is the `DoubleQuotes(...) != ''` test).
   */
  function ColumnLikes(req: GridRequest, columns: seq<DatatableColumn>, n: nat): seq<Where>
    requires SspClauses.Resolvable(req, columns) && n <= |req.columns|
  {
    Kept(n, FilteredAt(req), ColumnItem(req, columns))
  }

  /** Request column `i` adds its global term when searchable, its own term when also given a value. */
  lemma LikesNext(req: GridRequest, columns: seq<DatatableColumn>, i: nat)
    requires SspClauses.Resolvable(req, columns) && i < |req.columns|
    ensures var c := req.columns[i]; var db := SspClauses.Descriptor(req, columns, i).db;
      GlobalLikes(req, columns, i + 1) == GlobalLikes(req, columns, i) +
        (if c.searchable == "true" then [Where(Or, BasicPredicate(db, " LIKE ", GlobalPattern(req.searchValue)))] else []) &&
      ColumnLikes(req, columns, i + 1) == ColumnLikes(req, columns, i) +
        (if c.searchable == "true" && DoubleQuotes(c.searchValue) != ""
         then [Where(And, RawPredicate(EscapedLike(db, c.searchValue), []))] else [])
  {
    assert SearchableAt(req)(i) == (req.columns[i].searchable == "true");
    assert FilteredAt(req)(i) == (req.columns[i].searchable == "true" && req.columns[i].searchValue != "");
  }

  /** The global group holds one bound `LIKE` per searchable column, in column order. */
  lemma GlobalLikesExactly(req: GridRequest, columns: seq<DatatableColumn>, n: nat)
    requires SspClauses.Resolvable(req, columns) && n <= |req.columns|
    ensures var ps := Positions(n, SearchableAt(req)); var ws := GlobalLikes(req, columns, n);
      |ws| == |ps| &&
      forall k :: 0 <= k < |ps| ==>
        ws[k] == Where(Or, BasicPredicate(SspClauses.Descriptor(req, columns, ps[k]).db, " LIKE ", GlobalPattern(req.searchValue)))
  {
    KeptExactly(n, SearchableAt(req), GlobalItem(req, columns));
  }

  /**
   * The per-column group holds one escaped `LIKE` per column that is
   * searchable with a non-empty value of its own, in column order.
   */
  lemma ColumnLikesExactly(req: GridRequest, columns: seq<DatatableColumn>, n: nat)
    requires SspClauses.Resolvable(req, columns) && n <= |req.columns|
    ensures var ps := Positions(n, FilteredAt(req)); var ws := ColumnLikes(req, columns, n);
      |ws| == |ps| &&
      forall k :: 0 <= k < |ps| ==>
        ws[k] == Where(And, RawPredicate(EscapedLike(SspClauses.Descriptor(req, columns, ps[k]).db, req.columns[ps[k]].searchValue), []))
  {
    KeptExactly(n, FilteredAt(req), ColumnItem(req, columns));
  }

  /** The query `filter` leaves: the global group when searching, then the per-column group. */
  function Filtered(db: Query, req: GridRequest, columns: seq<DatatableColumn>): Query
    requires SspClauses.Resolvable(req, columns)
  {
    var global := if req.searchValue != "" then GlobalLikes(req, columns, |req.columns|) else [];
    db.(wheres := db.wheres + NestedGroup(global) + NestedGroup(ColumnLikes(req, columns, |req.columns|)))
  }

  /** Filtering only adds where clauses: the query's other parts are untouched and its clauses kept first. */
  lemma FilteredOnlyAddsWheres(db: Query, req: GridRequest, columns: seq<DatatableColumn>)
    requires SspClauses.Resolvable(req, columns)
    ensures var f := Filtered(db, req, columns);
      f.(wheres := db.wheres) == db && |f.wheres| >= |db.wheres| && f.wheres[..|db.wheres|] == db.wheres
  {
  }

  /** `filter` (escaped): a global OR-group when the global value is non-empty, then an AND-group per column. */
  method Filter(db: Query, req: GridRequest, columns: seq<DatatableColumn>) returns (r: Query)
    requires SspClauses.Resolvable(req, columns)
    ensures r == Filtered(db, req, columns)
  {
    r := db;
    if req.searchValue != "" {
      var group := GlobalGroup(req, columns);
      r := WhereNested(r, group);
    }
    var group := ColumnGroup(req, columns);
    r := WhereNested(r, group);
  }

  /** The closure of the global search: an OR-ed bound `LIKE` on every searchable column. */
  method GlobalGroup(req: GridRequest, columns: seq<DatatableColumn>) returns (group: seq<Where>)
    requires SspClauses.Resolvable(req, columns)
    ensures group == GlobalLikes(req, columns, |req.columns|)
  {
    var str := DoubleQuotes(req.searchValue);
    group := [];
    var i := 0;
    while i < |req.columns|
      invariant 0 <= i <= |req.columns|
      invariant group == GlobalLikes(req, columns, i)
    {
      var column := SspClauses.Descriptor(req, columns, i);
      if req.columns[i].searchable == "true" {
        group := group + [Where(Or, BasicPredicate(column.db, " LIKE ", "%" + str + "%"))];
      }
      LikesNext(req, columns, i);
      i := i + 1;
    }
  }

  /** The closure of the column search: an AND-ed escaped `LIKE` on every column searched with its own value. */
  method ColumnGroup(req: GridRequest, columns: seq<DatatableColumn>) returns (group: seq<Where>)
    requires SspClauses.Resolvable(req, columns)
    ensures group == ColumnLikes(req, columns, |req.columns|)
  {
    group := [];
    var i := 0;
    while i < |req.columns|
      invariant 0 <= i <= |req.columns|
      invariant group == ColumnLikes(req, columns, i)
    {
      var column := SspClauses.Descriptor(req, columns, i);
      var str := DoubleQuotes(req.columns[i].searchValue);
      if req.columns[i].searchable == "true" && str != "" {
        group := group + [Where(And, RawPredicate(EscapedLike(column.db, req.columns[i].searchValue), []))];
      }
      LikesNext(req, columns, i);
      i := i + 1;
    }
  }

  // ---------------------------------------------------------------------------
  // data_output

  /** `data_output`: one output row per result row, in order, each built column by column. */
  method DataOutput(columns: seq<DatatableColumn>, data: seq<Row>, settype: Settype) returns (out: seq<OutRow>)
    ensures out == FormatRows(columns, data, settype)
  {
    out := [];
    var i := 0;
    while i < |data|
      invariant 0 <= i <= |data|
      invariant |out| == i
      invariant forall k :: 0 <= k < i ==> out[k] == FormatRow(columns, data[k], settype, |columns|)
    {
      var row: OutRow := map[];
      var j := 0;
      while j < |columns|
        invariant 0 <= j <= |columns|
        invariant row == FormatRow(columns, data[i], settype, j)
      {
        var column := columns[j];
        var raw := Property(data[i], column.name);
        if column.formatter.Some? {
          row := row[column.name := column.formatter.value(raw, data[i])];
        } else {
          row := row[column.name := raw];
        }
        if column.cast.Some? {
          row := row[column.name := settype(row[column.name], column.cast.value)];
        }
        j := j + 1;
      }
      out := out + [row];
      i := i + 1;
    }
  }

  // ---------------------------------------------------------------------------
  // pluck / _flatten

  /** `pluck($a, $prop)`: the property of every item, in order. */
  method Pluck<T, U>(a: seq<T>, prop: T -> U) returns (out: seq<U>)
    ensures |out| == |a|
    ensures forall i :: 0 <= i < |a| ==> out[i] == prop(a[i])
  {
    out := [];
    var i := 0;
    while i < |a|
      invariant 0 <= i <= |a|
      invariant |out| == i
      invariant forall k :: 0 <= k < i ==> out[k] == prop(a[k])
    {
      out := out + [prop(a[i])];
      i := i + 1;
    }
  }

  /** What `_flatten` is given: nothing, a string, or an array of strings. */
  datatype Flattenable = Missing | Text(s: string) | Items(items: seq<string>)

  /** PHP truthiness: `null`, `''`, `'0'` and the empty array are false. */
  predicate Falsy(a: Flattenable)
  {
    a.Missing? || (a.Text? && (a.s == "" || a.s == "0")) || (a.Items? && a.items == [])
  }

  /** `_flatten($a, $join)`: `''` for a falsy value, an array glued with `join`, any other value as it is. */
  function Flatten(a: Flattenable, join: string := " AND "): (r: string)
    ensures Falsy(a) ==> r == ""
    ensures a.Text? && !Falsy(a) ==> r == a.s
  {
    if Falsy(a) then ""
    else if a.Items? then Join(a.items, join)
    else a.s
  }

  /** Flattening the pieces of a string cut at the glue gives the string back. */
  lemma FlattenSplit(s: string, join: string)
    requires join != ""
    ensures Flatten(Items(Split(s, join)), join) == s
  {
    JoinSplit(s, join);
  }

  // ---------------------------------------------------------------------------
  // simple / complex / custom

  /**
   * `simple`: the table's projection, grouped; the total counted before the
   * filter, the filtered count after it; the page read from the filtered query
   * ordered as a derived table and then windowed.
   */
  method Simple(req: GridRequest, table: string, columns: seq<DatatableColumn>, groupBy: Option<seq<string>>,
                conn: Connection, settype: Settype) returns (resp: DataTable)
    requires SspClauses.Resolvable(req, columns) && SspClauses.DirectivesInRange(req)
    ensures var sub := Query(Named(table), Projections(columns), [], GroupList(groupBy), [], None, None);
      var filtered := Filtered(sub, req, columns);
      var page := SspClauses.Limit(Ordered(filtered, req, columns), req);
      resp == DataTable(Some(IntVal(req.draw)), Some(|conn.get(sub)|), Some(|conn.get(filtered)|),
                        FormatRows(columns, conn.get(page), settype))
  {
    var sub := Db(table, columns);
    ghost var selected := sub;
    sub := SspClauses.Group(sub, GroupList(groupBy));
    assert selected.groups == [] && selected.wheres == [] && selected.orders == [];
    assert selected.limit == None && selected.offset == None;
    assert sub.groups == [] + GroupList(groupBy) == GroupList(groupBy);
    assert sub == Query(Named(table), Projections(columns), [], GroupList(groupBy), [], None, None);
    var recordsTotal := |conn.get(sub)|;
    sub := Filter(sub, req, columns);
    ghost var filtered := sub;
    var recordsFiltered := |conn.get(sub)|;
    var db := Order(sub, req, columns);
    db := SspClauses.Limit(db, req);
    assert db == SspClauses.Limit(Ordered(filtered, req, columns), req);
    var data := conn.get(db);
    var out := DataOutput(columns, data, settype);
    resp := DataTable(Some(IntVal(req.draw)), Some(recordsTotal), Some(recordsFiltered), out);
  }

  /**
   * `custom`: the caller's query with the projection and, when given, the
   * groups; counted by the connection before and after the filter.
   */
  method Custom(req: GridRequest, model: Query, columns: seq<DatatableColumn>, groupBy: Option<seq<string>>,
                conn: Connection, settype: Settype) returns (resp: DataTable)
    requires SspClauses.Resolvable(req, columns) && SspClauses.DirectivesInRange(req)
    ensures var query := Selected(model, columns).(groups := model.groups + GroupList(groupBy));
      var filtered := Filtered(query, req, columns);
      var page := SspClauses.Limit(Ordered(filtered, req, columns), req);
      resp == DataTable(Some(IntVal(req.draw)), Some(conn.count(query)), Some(conn.count(filtered)),
                        FormatRows(columns, conn.get(page), settype))
  {
    var query := Select(model, columns);
    if groupBy.Some? {
      query := SspClauses.Group(query, groupBy.value);
    } else {
      assert model.groups + [] == model.groups;
    }
    assert query == Selected(model, columns).(groups := model.groups + GroupList(groupBy));
    var recordsTotal := conn.count(query);
    query := Filter(query, req, columns);
    var recordsFiltered := conn.count(query);
    query := Order(query, req, columns);
    query := SspClauses.Limit(query, req);
    var data := conn.get(query);
    var out := DataOutput(columns, data, settype);
    resp := DataTable(Some(IntVal(req.draw)), Some(recordsTotal), Some(recordsFiltered), out);
  }

  /**
   * The page query `complex` builds as written: the filtered query wrapped by
   * its SQL text alone (no `mergeBindings`), then ordered and windowed.
   */
  function ComplexPageAsWritten(filtered: Query, req: GridRequest, columns: seq<DatatableColumn>, conn: Connection): Query
    requires SspClauses.Resolvable(req, columns) && SspClauses.DirectivesInRange(req)
  {
    SspClauses.Limit(Ordered(WrapText(filtered, conn, "sub"), req, columns), req)
  }

  /**
   * As written, `complex` loses the values the global search binds: the
   * filtered query sends the pattern, the page query built over its SQL text
   * sends no value at all for the placeholders that text still holds.
   */
  lemma ComplexDropsSearchBindings(sub: Query, req: GridRequest, columns: seq<DatatableColumn>, conn: Connection, i: nat)
    requires SspClauses.Resolvable(req, columns) && SspClauses.DirectivesInRange(req)
    requires req.searchValue != "" && IsColumnSearchable(req, i, false)
    ensures var filtered := Filtered(sub, req, columns);
      GlobalPattern(req.searchValue) in Bindings(filtered) &&
      Bindings(ComplexPageAsWritten(filtered, req, columns, conn)) == []
  {
    var filtered := Filtered(sub, req, columns);
    FilteredBindings(sub, req, columns);
    GlobalLikesBindPattern(req, columns, i);
    var page := ComplexPageAsWritten(filtered, req, columns, conn);
    assert page.from == Derived(WrapText(filtered, conn, "sub"), "sub") && page.wheres == [];
  }

  /** The filtered query sends its own values first, then those of the global group, then those of the per-column group. */
  lemma FilteredBindings(db: Query, req: GridRequest, columns: seq<DatatableColumn>)
    requires SspClauses.Resolvable(req, columns)
    ensures var n := |req.columns|;
      var global := if req.searchValue != "" then GlobalLikes(req, columns, n) else [];
      Bindings(Filtered(db, req, columns)) ==
        Bindings(db) + WhereBindings(global) + WhereBindings(ColumnLikes(req, columns, n))
  {
    var n := |req.columns|;
    var global := if req.searchValue != "" then GlobalLikes(req, columns, n) else [];
    var c := ColumnLikes(req, columns, n);
    assert Filtered(db, req, columns) == WhereNested(WhereNested(db, global), c);
    WhereNestedBindings(db, global);
    WhereNestedBindings(WhereNested(db, global), c);
  }

  /** Once one column is searchable, the global group binds the global pattern. */
  lemma GlobalLikesBindPattern(req: GridRequest, columns: seq<DatatableColumn>, i: nat)
    requires SspClauses.Resolvable(req, columns) && IsColumnSearchable(req, i, false)
    ensures GlobalPattern(req.searchValue) in WhereBindings(GlobalLikes(req, columns, |req.columns|))
  {
    var n := |req.columns|;
    var g := GlobalLikes(req, columns, n);
    GlobalLikesExactly(req, columns, n);
    assert SearchableAt(req)(i);
    var ps := Positions(n, SearchableAt(req));
    assert i in ps;
    assert |g| == |ps| > 0;
    var db := SspClauses.Descriptor(req, columns, ps[0]).db;
    assert g[0] == Where(Or, BasicPredicate(db, " LIKE ", GlobalPattern(req.searchValue)));
    assert WhereBinding(g[0]) == [GlobalPattern(req.searchValue)];
    assert WhereBindings(g) == WhereBinding(g[0]) + WhereBindings(g[1..]);
  }

  /**
   * The page query `complex` evidently means, as `order` itself does it: the
   * filtered query wrapped with its bindings merged, then ordered and windowed.
   */
  function ComplexPage(filtered: Query, req: GridRequest, columns: seq<DatatableColumn>): Query
    requires SspClauses.Resolvable(req, columns) && SspClauses.DirectivesInRange(req)
  {
    SspClauses.Limit(Ordered(Wrap(filtered, "sub"), req, columns), req)
  }

  /** With the bindings merged, the page query sends exactly the values of the filtered query, in order. */
  lemma ComplexPageKeepsBindings(filtered: Query, req: GridRequest, columns: seq<DatatableColumn>)
    requires SspClauses.Resolvable(req, columns) && SspClauses.DirectivesInRange(req)
    ensures Bindings(ComplexPage(filtered, req, columns)) == Bindings(filtered)
  {
    var inner := Wrap(filtered, "sub");
    WrapKeepsBindings(filtered, "sub");
    var page := ComplexPage(filtered, req, columns);
    assert page.from == Derived(inner, "sub") && page.wheres == [];
  }

  /**
   * `complex`, with the filtered query wrapped keeping its bindings: the
   * caller's filter function runs on the grouped projection before anything
   * is counted; the total and the filtered count come from the connection.
   */
  method Complex(req: GridRequest, table: string, columns: seq<DatatableColumn>, groupBy: Option<seq<string>>,
                 filterFunction: Query -> Query, conn: Connection, settype: Settype) returns (resp: DataTable)
    requires SspClauses.Resolvable(req, columns) && SspClauses.DirectivesInRange(req)
    ensures var sub := filterFunction(Query(Named(table), Projections(columns), [], GroupList(groupBy), [], None, None));
      var filtered := Filtered(sub, req, columns);
      resp == DataTable(Some(IntVal(req.draw)), Some(conn.count(sub)), Some(conn.count(filtered)),
                        FormatRows(columns, conn.get(ComplexPage(filtered, req, columns)), settype))
  {
    var sub := Db(table, columns);
    ghost var selected := sub;
    sub := SspClauses.Group(sub, GroupList(groupBy));
    assert selected.groups == [] && selected.wheres == [] && selected.orders == [];
    assert selected.limit == None && selected.offset == None;
    assert sub.groups == [] + GroupList(groupBy) == GroupList(groupBy);
    assert sub == Query(Named(table), Projections(columns), [], GroupList(groupBy), [], None, None);
    sub := filterFunction(sub);
    var recordsTotal := conn.count(sub);
    sub := Filter(sub, req, columns);
    ghost var filtered := sub;
    var recordsFiltered := conn.count(sub);
    var db := Wrap(sub, "sub");
    db := Order(db, req, columns);
    db := SspClauses.Limit(db, req);
    assert db == ComplexPage(filtered, req, columns);
    var data := conn.get(db);
    var out := DataOutput(columns, data, settype);
    resp := DataTable(Some(IntVal(req.draw)), Some(recordsTotal), Some(recordsFiltered), out);
  }

  /**
   * The stages of both pipelines: the total is counted on a query without the
   * search clauses, the filtered count on that query with them added, and the
   * page is read from the filtered query wrapped whole (same bindings), so
   * ordering and the window apply to filtered rows only.
   */
  lemma PipelineStages(sub: Query, req: GridRequest, columns: seq<DatatableColumn>)
    requires SspClauses.Resolvable(req, columns) && SspClauses.DirectivesInRange(req)
    ensures var filtered := Filtered(sub, req, columns);
      var page := SspClauses.Limit(Ordered(filtered, req, columns), req);
      filtered.(wheres := sub.wheres) == sub &&
      filtered.wheres[..|sub.wheres|] == sub.wheres &&
      page.from == Derived(filtered, "sub") && page.wheres == [] &&
      Bindings(page) == Bindings(filtered)
  {
    var filtered := Filtered(sub, req, columns);
    WrapKeepsBindings(filtered, "sub");
  }
}
