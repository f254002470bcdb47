/**
 * The grid request: what the DataTables client sends on every draw, and the
 * questions the engines ask of it (is it searchable, which columns are
 * orderable, what is a column's name or keyword).
 *
 * Every field is kept as the text the client sent. A key the client left out
 * reads as PHP `null`; where that behaves like the empty string in every use
 * made of it (`!= ''`, `intval`), the field is a `string` holding `""`.
 */
module GridRequests {
  import opened Wrappers
  import opened PhpStrings
  import opened Selection

  /** One entry of `columns[]`. */
  datatype RequestColumn = RequestColumn(
    data: string,          // `columns[i][data]`: the descriptor name the column shows
    name: Option<string>,  // `columns[i][name]`, unset when the client sent none
    searchable: string,    // `columns[i][searchable]`, `"true"` or `"false"`
    orderable: string,     // `columns[i][orderable]`
    searchValue: string)   // `columns[i][search][value]`

  /** One entry of `order[]`: a column index and a direction, both as text. */
  datatype OrderDirective = OrderDirective(column: string, dir: string)

  datatype GridRequest = GridRequest(
    draw: string,
    start: Option<string>,     // `isset($request['start'])` distinguishes an absent start
    length: string,
    searchValue: string,       // `search[value]`
    columns: seq<RequestColumn>,
    order: seq<OrderDirective>)

  /** An entry of `orderableColumns()`: `['column' => int, 'direction' => dir]`. */
  datatype OrderEntry = OrderEntry(column: int, direction: string)

  /** `hasOrdering()`: the request carries at least one order directive. */
  predicate HasOrdering(req: GridRequest)
  {
    |req.order| > 0
  }

  /**
   * `isColumnOrderable($index)`: the column exists and its flag is the text
   * `true` (a missing column reads as `null`, which is not `'true'`).
   */
  predicate IsColumnOrderable(req: GridRequest, index: int)
  {
    0 <= index < |req.columns| && req.columns[index].orderable == "true"
  }

  /** Whether a directive survives `orderableColumns()`. */
  predicate DirectiveOrderable(req: GridRequest, d: OrderDirective)
  {
    IsColumnOrderable(req, IntVal(d.column))
  }

  /** `columnName($i)`: the column's `name` when set and non-empty, else its `data`. */
  function ColumnName(req: GridRequest, i: nat): string
    requires i < |req.columns|
  {
    var c := req.columns[i];
    if c.name.Some? && c.name.value != "" then c.name.value else c.data
  }

  /** `isSearchable()`: the global search value is not the empty string. */
  predicate IsSearchable(req: GridRequest)
  {
    req.searchValue != ""
  }

  /** `columnKeyword($index)`: the column's own search value. */
  function ColumnKeyword(req: GridRequest, index: nat): string
    requires index < |req.columns|
  {
    req.columns[index].searchValue
  }

  /**
   * `isColumnSearchable($i, $column_search)`: the searchable flag is `true`,
   * and, when `columnSearch` holds, the column's search value is non-empty.
   */
  predicate IsColumnSearchable(req: GridRequest, i: int, columnSearch: bool)
  {
    0 <= i < |req.columns| && req.columns[i].searchable == "true" &&
    (columnSearch ==> req.columns[i].searchValue != "")
  }

  /** A column searchable with its own value is searchable as a flag, and the two agree on a non-empty value. */
  lemma ColumnSearchableNarrows(req: GridRequest, i: int)
    ensures IsColumnSearchable(req, i, true) ==> IsColumnSearchable(req, i, false)
    ensures IsColumnSearchable(req, i, true) <==>
            (IsColumnSearchable(req, i, false) && req.columns[i].searchValue != "")
  {
  }

  /** The entries `orderableColumns()` builds from the first `n` directives. */
  function Orderable(req: GridRequest, n: nat): (entries: seq<OrderEntry>)
    requires n <= |req.order|
    ensures |entries| <= n
  {
    if n == 0 then []
    else
      var d := req.order[n - 1];
      Orderable(req, n - 1) +
      (if DirectiveOrderable(req, d) then [OrderEntry(IntVal(d.column), d.dir)] else [])
  }

  /** Directive `j` exists and is kept by `orderableColumns()`. */
  function OrderableAt(req: GridRequest): nat -> bool
  {
    (j: nat) => if j < |req.order| then DirectiveOrderable(req, req.order[j]) else false
  }

  /** Column `i` has the searchable flag set. */
  function SearchableAt(req: GridRequest): nat -> bool
  {
    i => IsColumnSearchable(req, i, false)
  }

  /** Column `i` has the searchable flag set and a non-empty search value of its own. */
  function FilteredAt(req: GridRequest): nat -> bool
  {
    i => IsColumnSearchable(req, i, true)
  }

  /**
   * `orderableColumns()` keeps exactly the directives on orderable columns,
   * in request order: the k-th entry comes from the k-th kept directive, with
   * the integer cast of its column and its direction text unchanged.
   */
  lemma {:induction false} OrderableKeepsExactly(req: GridRequest, n: nat)
    requires n <= |req.order|
    ensures var kept := Positions(n, OrderableAt(req));
      |kept| == |Orderable(req, n)| &&
      forall k :: 0 <= k < |kept| ==>
        Orderable(req, n)[k] == OrderEntry(IntVal(req.order[kept[k]].column), req.order[kept[k]].dir)
  {
    if n > 0 {
      OrderableKeepsExactly(req, n - 1);
      var d := req.order[n - 1];
      assert OrderableAt(req)(n - 1) == DirectiveOrderable(req, d);
      assert Positions(n, OrderableAt(req)) ==
        Positions(n - 1, OrderableAt(req)) + (if DirectiveOrderable(req, d) then [n - 1] else []);
      assert Orderable(req, n) ==
        Orderable(req, n - 1) + (if DirectiveOrderable(req, d) then [OrderEntry(IntVal(d.column), d.dir)] else []);
    }
  }

  /** Every entry names an existing, orderable column. */
  lemma {:induction false} OrderableEntriesInRange(req: GridRequest, n: nat)
    requires n <= |req.order|
    ensures forall e :: e in Orderable(req, n) ==> IsColumnOrderable(req, e.column)
  {
    if n > 0 {
      OrderableEntriesInRange(req, n - 1);
    }
  }

  /**
   * `orderableColumns()`: the list of `['column', 'direction']` entries of the
   * directives whose column is orderable; empty when there is no ordering.
   */
  method OrderableColumns(req: GridRequest) returns (order: seq<OrderEntry>)
    ensures order == Orderable(req, |req.order|)
    ensures !HasOrdering(req) ==> order == []
    ensures |order| <= |req.order|
  {
    if !HasOrdering(req) {
      return [];
    }
    order := [];
    var i := 0;
    while i < |req.order|
      invariant 0 <= i <= |req.order|
      invariant order == Orderable(req, i)
    {
      var orderCol := IntVal(req.order[i].column);
      var orderDir := req.order[i].dir;
      if IsColumnOrderable(req, orderCol) {
        order := order + [OrderEntry(orderCol, orderDir)];
      }
      i := i + 1;
    }
  }
}
