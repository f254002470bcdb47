/**
 * The static server-side-processing clause builders of `Request`: paging,
 * ordering, grouping and the unescaped search filter. Each takes the builder
 * and the request and returns the builder with the clauses appended.
 *
 * The request's columns are matched to the descriptors by name: a request
 * column's `data` is the `dt` (here `name`) of the descriptor it shows.
 */
module SspClauses {
  import opened Wrappers
  import opened PhpStrings
  import opened Selection
  import opened ColumnDescriptors
  import opened QueryBuilder
  import opened GridRequests
  import opened SqlLiteral

  /** Every request column's `data` names a descriptor. */
  predicate Resolvable(req: GridRequest, columns: seq<DatatableColumn>)
  {
    forall i {:trigger FindByName(columns, req.columns[i].data)} ::
      0 <= i < |req.columns| ==> FindByName(columns, req.columns[i].data).Some?
  }

  /** Every order directive's column index names a request column. */
  predicate DirectivesInRange(req: GridRequest)
  {
    forall j {:trigger IntVal(req.order[j].column)} ::
      0 <= j < |req.order| ==> 0 <= IntVal(req.order[j].column) < |req.columns|
  }

  /**
   * `$columns[array_search($requestColumn['data'], $dtColumns)]`: the
   * descriptor shown by request column `i`.
   */
  function Descriptor(req: GridRequest, columns: seq<DatatableColumn>, i: nat): (c: DatatableColumn)
    requires Resolvable(req, columns) && i < |req.columns|
    ensures c in columns && c.name == req.columns[i].data
  {
    columns[FindByName(columns, req.columns[i].data).value]
  }

  /** The SQL direction of a directive: `ASC` exactly for the text `asc`, `DESC` for anything else. */
  function Direction(dir: string): (r: string)
    ensures r == "ASC" <==> dir == "asc"
    ensures r == "ASC" || r == "DESC"
  {
    if dir == "asc" then "ASC" else "DESC"
  }

  // ---------------------------------------------------------------------------
  // limit

  /** Paging applies when `start` is set and `length` is not `-1`. */
  predicate Pages(req: GridRequest)
  {
    req.start.Some? && !LooselyEqualsInt(req.length, -1)
  }

  /**
   * `limit`: when the request pages, take `intval(length)` rows after skipping
   * `intval(start)`; otherwise the query is returned untouched.
   */
  function Limit(db: Query, req: GridRequest): (r: Query)
    ensures !Pages(req) ==> r == db
    ensures Pages(req) ==> r.limit == Some(IntVal(req.length)) && r.offset == Some(IntVal(req.start.value))
    ensures r.(limit := db.limit, offset := db.offset) == db
  {
    if Pages(req) then db.(limit := Some(IntVal(req.length)), offset := Some(IntVal(req.start.value)))
    else db
  }

  /** A client that sends `start` and `length` as integers gets exactly that window. */
  lemma LimitRoundTrip(db: Query, req: GridRequest, start: int, length: nat)
    requires req.start == Some(IntToString(start)) && req.length == IntToString(length)
    ensures Limit(db, req).offset == Some(start) && Limit(db, req).limit == Some(length)
  {
    IntValRoundTrip(start);
    IntValRoundTrip(length);
    IntToStringIsNumeric(length);
  }

  /** `length = -1` asks for every row: no window at all. */
  lemma LimitAllRows(db: Query, req: GridRequest)
    requires req.length == "-1"
    ensures Limit(db, req) == db
  {
    assert Unsigned("-1") == "1";
    assert LeadingDigits("1") == "1";
    assert DigitsValue("1") == 1;
  }

  /**
   * Once paged, the LIMIT/OFFSET window the query asks for never keeps more
   * rows than the requested length, whatever rows it is applied to.
   */
  lemma LimitPageSize<T>(db: Query, req: GridRequest, rows: seq<T>)
    requires Pages(req) && IntVal(req.length) >= 0
    ensures var r := Limit(db, req); |Window(rows, r.offset, r.limit)| <= IntVal(req.length)
  {
  }

  // ---------------------------------------------------------------------------
  // order

  /** The term directive `i` adds: one, on its descriptor's name, exactly when its request column is orderable. */
  function OrderTerm(req: GridRequest, columns: seq<DatatableColumn>, i: nat): seq<OrderBy>
    requires Resolvable(req, columns) && DirectivesInRange(req) && i < |req.order|
  {
    var idx := IntVal(req.order[i].column);
    if req.columns[idx].orderable == "true"
    then [OrderBy(Descriptor(req, columns, idx).name, Direction(req.order[i].dir))] else []
  }

  /** The order terms the first `n` directives add. */
  function OrderTerms(req: GridRequest, columns: seq<DatatableColumn>, n: nat): (terms: seq<OrderBy>)
    requires Resolvable(req, columns) && DirectivesInRange(req) && n <= |req.order|
    ensures |terms| <= n
  {
    if n == 0 then [] else OrderTerms(req, columns, n - 1) + OrderTerm(req, columns, n - 1)
  }

  /** Term `t` orders by the `data` of the orderable request column entry `e` names, in `e`'s direction. */
  predicate TermMatches(req: GridRequest, t: OrderBy, e: OrderEntry)
  {
    IsColumnOrderable(req, e.column) && t == OrderBy(req.columns[e.column].data, Direction(e.direction))
  }

  /** Terms and entries that match pairwise still do after a matching pair of tails is appended. */
  lemma MatchesAppend(req: GridRequest, ts: seq<OrderBy>, es: seq<OrderEntry>, t: seq<OrderBy>, e: seq<OrderEntry>)
    requires |ts| == |es| && forall k :: 0 <= k < |ts| ==> TermMatches(req, ts[k], es[k])
    requires |t| == |e| && forall k :: 0 <= k < |t| ==> TermMatches(req, t[k], e[k])
    ensures |ts + t| == |es + e|
    ensures forall k :: 0 <= k < |ts + t| ==> TermMatches(req, (ts + t)[k], (es + e)[k])
  {
    forall k | 0 <= k < |ts + t|
      ensures TermMatches(req, (ts + t)[k], (es + e)[k])
    {
      if k >= |ts| {
        assert (ts + t)[k] == t[k - |ts|] && (es + e)[k] == e[k - |es|];
      }
    }
  }

  /**
   * The static ordering agrees with `orderableColumns()`: one term per kept
   * directive, in the same order, on that request column's `data`, with the
   * directive's direction normalised to `ASC`/`DESC`.
   */
  lemma {:induction false} OrderTermsFollowOrderable(req: GridRequest, columns: seq<DatatableColumn>, n: nat)
    requires Resolvable(req, columns) && DirectivesInRange(req) && n <= |req.order|
    ensures var terms := OrderTerms(req, columns, n); var entries := Orderable(req, n);
      |terms| == |entries| &&
      forall k :: 0 <= k < |terms| ==> TermMatches(req, terms[k], entries[k])
  {
    if n > 0 {
      OrderTermsFollowOrderable(req, columns, n - 1);
      var d := req.order[n - 1];
      var idx := IntVal(d.column);
      var t := OrderTerm(req, columns, n - 1);
      var e := if DirectiveOrderable(req, d) then [OrderEntry(idx, d.dir)] else [];
      assert OrderTerms(req, columns, n) == OrderTerms(req, columns, n - 1) + t;
      assert Orderable(req, n) == Orderable(req, n - 1) + e;
      assert 0 <= idx < |req.columns|;
      if IsColumnOrderable(req, idx) {
        assert Descriptor(req, columns, idx).name == req.columns[idx].data;
        assert TermMatches(req, t[0], e[0]);
      }
      MatchesAppend(req, OrderTerms(req, columns, n - 1), Orderable(req, n - 1), t, e);
    }
  }

  /** A request without order directives adds no order term. */
  lemma NoDirectivesNoTerms(req: GridRequest, columns: seq<DatatableColumn>)
    requires Resolvable(req, columns) && DirectivesInRange(req) && !HasOrdering(req)
    ensures OrderTerms(req, columns, |req.order|) == []
  {
  }

  /**
   * `order`: for every directive, in turn, on an orderable column, order by
   * the descriptor's name in the directive's direction.
   */
  method Order(db: Query, req: GridRequest, columns: seq<DatatableColumn>) returns (r: Query)
    requires Resolvable(req, columns) && DirectivesInRange(req)
    ensures r == db.(orders := db.orders + OrderTerms(req, columns, |req.order|))
  {
    r := db;
    if |req.order| > 0 {
      var terms := DirectiveTerms(req, columns);
      r := db.(orders := db.orders + terms);
    } else {
      assert db.orders + [] == db.orders;
    }
  }

  /** The loop of `order`: the terms of all directives, in turn. */
  method DirectiveTerms(req: GridRequest, columns: seq<DatatableColumn>) returns (terms: seq<OrderBy>)
    requires Resolvable(req, columns) && DirectivesInRange(req)
    ensures terms == OrderTerms(req, columns, |req.order|)
  {
    terms := [];
    var i := 0;
    while i < |req.order|
      invariant 0 <= i <= |req.order|
      invariant terms == OrderTerms(req, columns, i)
    {
      var term := DirectiveTerm(req, columns, i);
      terms := terms + term;
      i := i + 1;
    }
  }

  /** The body of the loop in `order` for directive `i`: its term, or none when its column is not orderable. */
  method DirectiveTerm(req: GridRequest, columns: seq<DatatableColumn>, i: nat) returns (term: seq<OrderBy>)
    requires Resolvable(req, columns) && DirectivesInRange(req) && i < |req.order|
    ensures term == OrderTerm(req, columns, i)
    ensures |term| <= 1
  {
    var columnIdx := IntVal(req.order[i].column);
    var requestColumn := req.columns[columnIdx];
    var column := Descriptor(req, columns, columnIdx);
    term := [];
    if requestColumn.orderable == "true" {
      term := [OrderBy(column.name, Direction(req.order[i].dir))];
    }
  }

  // ---------------------------------------------------------------------------
  // group

  /** `group`: one `groupBy` per entry, in the given order. */
  method Group(db: Query, groupBy: seq<string>) returns (r: Query)
    ensures r == db.(groups := db.groups + groupBy)
    ensures |r.groups| == |db.groups| + |groupBy|
  {
    r := db;
    var i := 0;
    while i < |groupBy|
      invariant 0 <= i <= |groupBy|
      invariant r == db.(groups := db.groups + groupBy[..i])
    {
      r := r.(groups := r.groups + [groupBy[i]]);
      i := i + 1;
      assert groupBy[..i] == groupBy[..i - 1] + [groupBy[i - 1]];
    }
    assert groupBy[..i] == groupBy;
  }

  // ---------------------------------------------------------------------------
  // filter (search text concatenated into the SQL as is)

  /** `$column['db'] . ' like ' . "'%" . $str . "%'"`. */
  function RawLike(db: string, s: string): (sql: string)
    ensures IsPrefix(db + " like '%", sql) && IsSuffix("%'", sql) && |sql| == |db| + |s| + 10
    ensures sql[|db| + 8..|sql| - 2] == s
  {
    db + " like '%" + s + "%'"
  }

  /**
   * A search text with a quote ends the literal early: after `' like '` the
   * database reads the literal `%` and then takes the rest of the text as SQL.
   */
  lemma RawLikeLiteralClosesEarly(db: string)
    ensures var sql := RawLike(db, "' OR 'a'='a");
      ReadLiteralBody(sql[|db| + 7..]) == Some(("%", " OR 'a'='a%'"))
  {
    var sql := RawLike(db, "' OR 'a'='a");
    assert sql[|db| + 7..] == "%' OR 'a'='a%'";
    var body := "%' OR 'a'='a%'";
    var tail := body[1..];
    assert tail == "' OR 'a'='a%'";
    assert tail[1..] == " OR 'a'='a%'";
    assert ReadLiteralBody(tail) == Some(("", " OR 'a'='a%'"));
    assert [body[0]] + "" == "%";
  }

  /** The global term of request column `i`: an OR-ed raw `like` of its descriptor's `db` against the global text. */
  function GlobalRawItem(req: GridRequest, columns: seq<DatatableColumn>): nat --> Where
  {
    (i: nat) requires i < |req.columns| && Resolvable(req, columns) =>
      Where(Or, RawPredicate(RawLike(Descriptor(req, columns, i).db, req.searchValue), []))
  }

  /** The own term of request column `i`: an AND-ed raw `like` of its descriptor's `db` against its own text. */
  function ColumnRawItem(req: GridRequest, columns: seq<DatatableColumn>): nat --> Where
  {
    (i: nat) requires i < |req.columns| && Resolvable(req, columns) =>
      Where(And, RawPredicate(RawLike(Descriptor(req, columns, i).db, req.columns[i].searchValue), []))
  }

  /** The global search terms of the first `n` request columns: one per searchable column. */
  function GlobalRawLikes(req: GridRequest, columns: seq<DatatableColumn>, n: nat): seq<Where>
    requires Resolvable(req, columns) && n <= |req.columns|
  {
    Kept(n, SearchableAt(req), GlobalRawItem(req, columns))
  }

  /** The per-column search terms of the first `n` request columns: one per column searched with its own text. */
  function ColumnRawLikes(req: GridRequest, columns: seq<DatatableColumn>, n: nat): seq<Where>
    requires Resolvable(req, columns) && n <= |req.columns|
  {
    Kept(n, FilteredAt(req), ColumnRawItem(req, columns))
  }

  /** Request column `i` adds its global term when searchable, its own term when also given a value. */
  lemma RawLikesNext(req: GridRequest, columns: seq<DatatableColumn>, i: nat)
    requires Resolvable(req, columns) && i < |req.columns|
    ensures var c := req.columns[i]; var db := Descriptor(req, columns, i).db;
      GlobalRawLikes(req, columns, i + 1) == GlobalRawLikes(req, columns, i) +
        (if c.searchable == "true" then [Where(Or, RawPredicate(RawLike(db, req.searchValue), []))] else []) &&
      ColumnRawLikes(req, columns, i + 1) == ColumnRawLikes(req, columns, i) +
        (if c.searchable == "true" && c.searchValue != ""
         then [Where(And, RawPredicate(RawLike(db, c.searchValue), []))] else [])
  {
    assert SearchableAt(req)(i) == (req.columns[i].searchable == "true");
    assert FilteredAt(req)(i) == (req.columns[i].searchable == "true" && req.columns[i].searchValue != "");
  }

  /** The global group holds one term per searchable column, in column order, each on the global value. */
  lemma GlobalRawLikesExactly(req: GridRequest, columns: seq<DatatableColumn>, n: nat)
    requires Resolvable(req, columns) && n <= |req.columns|
    ensures var ps := Positions(n, SearchableAt(req)); var ws := GlobalRawLikes(req, columns, n);
      |ws| == |ps| &&
      forall k :: 0 <= k < |ps| ==>
        ws[k] == Where(Or, RawPredicate(RawLike(Descriptor(req, columns, ps[k]).db, req.searchValue), []))
  {
    KeptExactly(n, SearchableAt(req), GlobalRawItem(req, columns));
  }

  /** The per-column group holds one term per filtered column, in column order, each on that column's own value. */
  lemma ColumnRawLikesExactly(req: GridRequest, columns: seq<DatatableColumn>, n: nat)
    requires Resolvable(req, columns) && n <= |req.columns|
    ensures var ps := Positions(n, FilteredAt(req)); var ws := ColumnRawLikes(req, columns, n);
      |ws| == |ps| &&
      forall k :: 0 <= k < |ps| ==>
        ws[k] == Where(And, RawPredicate(RawLike(Descriptor(req, columns, ps[k]).db, req.columns[ps[k]].searchValue), []))
  {
    KeptExactly(n, FilteredAt(req), ColumnRawItem(req, columns));
  }

  /**
   * `filter` (unescaped): a global OR-group when the global value is
   * non-empty, then an AND-group of the per-column terms. Only `wheres` changes.
   */
  method Filter(db: Query, req: GridRequest, columns: seq<DatatableColumn>) returns (r: Query)
    requires Resolvable(req, columns)
    ensures var global := if req.searchValue != "" then GlobalRawLikes(req, columns, |req.columns|) else [];
      r == db.(wheres := db.wheres + NestedGroup(global) + NestedGroup(ColumnRawLikes(req, columns, |req.columns|)))
  {
    r := db;
    if req.searchValue != "" {
      var group := GlobalRawGroup(req, columns);
      r := WhereNested(r, group);
    }
    var group := ColumnRawGroup(req, columns);
    r := WhereNested(r, group);
  }

  /** The global closure: an OR-ed `like` with the global text spliced in, on every searchable column. */
  method GlobalRawGroup(req: GridRequest, columns: seq<DatatableColumn>) returns (group: seq<Where>)
    requires Resolvable(req, columns)
    ensures group == GlobalRawLikes(req, columns, |req.columns|)
  {
    var str := req.searchValue;
    group := [];
    var i := 0;
    while i < |req.columns|
      invariant 0 <= i <= |req.columns|
      invariant group == GlobalRawLikes(req, columns, i)
    {
      var column := Descriptor(req, columns, i);
      if req.columns[i].searchable == "true" {
        group := group + [Where(Or, RawPredicate(RawLike(column.db, str), []))];
      }
      RawLikesNext(req, columns, i);
      i := i + 1;
    }
  }

  /** The column closure: an AND-ed `like` with the column's own text spliced in, on every column searched with one. */
  method ColumnRawGroup(req: GridRequest, columns: seq<DatatableColumn>) returns (group: seq<Where>)
    requires Resolvable(req, columns)
    ensures group == ColumnRawLikes(req, columns, |req.columns|)
  {
    group := [];
    var i := 0;
    while i < |req.columns|
      invariant 0 <= i <= |req.columns|
      invariant group == ColumnRawLikes(req, columns, i)
    {
      var column := Descriptor(req, columns, i);
      var str := req.columns[i].searchValue;
      if req.columns[i].searchable == "true" && str != "" {
        group := group + [Where(And, RawPredicate(RawLike(column.db, str), []))];
      }
      RawLikesNext(req, columns, i);
      i := i + 1;
    }
  }

  /**
   * The unescaped filter sends no bound values: every search text travels
   * inside the SQL itself.
   */
  lemma {:induction false} RawLikesBindNothing(req: GridRequest, columns: seq<DatatableColumn>, n: nat)
    requires Resolvable(req, columns) && n <= |req.columns|
    ensures WhereBindings(GlobalRawLikes(req, columns, n)) == []
    ensures WhereBindings(ColumnRawLikes(req, columns, n)) == []
  {
    if n > 0 {
      RawLikesBindNothing(req, columns, n - 1);
      var g := GlobalRawLikes(req, columns, n - 1);
      var c := ColumnRawLikes(req, columns, n - 1);
      var gl := GlobalRawLikes(req, columns, n);
      var cl := ColumnRawLikes(req, columns, n);
      WhereBindingsAppend(g, gl[|g|..]);
      WhereBindingsAppend(c, cl[|c|..]);
      assert gl == g + gl[|g|..];
      assert cl == c + cl[|c|..];
      UnboundRaw(gl[|g|..]);
      UnboundRaw(cl[|c|..]);
    }
  }

  /** At most one raw clause without bindings sends no bound value. */
  lemma UnboundRaw(ws: seq<Where>)
    requires |ws| <= 1
    requires forall k :: 0 <= k < |ws| ==> ws[k].condition.RawPredicate? && ws[k].condition.bindings == []
    ensures WhereBindings(ws) == []
  {
    if ws != [] {
      assert ws[1..] == [];
      assert WhereBinding(ws[0]) == [];
      assert WhereBindings(ws) == WhereBinding(ws[0]) + WhereBindings(ws[1..]);
    }
  }
}
