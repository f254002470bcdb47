/**
 * The query builder, seen as the list of clauses it has been given. Every
 * builder call the engines make (`addSelect`, `select`, `where` with a
 * closure, `orWhere`, `whereRaw`, `orWhereRaw`, `groupBy`, `orderBy`,
 * `take`, `offset`/`skip`, wrapping as a derived table) becomes an update of
 * this value. Rendering to SQL text, running the query and counting its rows
 * belong to the database connection, which is supplied from outside.
 */
module QueryBuilder {
  import opened Wrappers
  import opened ColumnDescriptors
  import opened Selection

  /** How a where clause is joined to the clauses before it. */
  datatype Boolean = And | Or

  datatype Predicate =
    | RawPredicate(sql: string, bindings: seq<string>)            // whereRaw / orWhereRaw
    | BasicPredicate(column: string, operator: string, value: string)  // where / orWhere; the value is bound
    | NestedPredicate(group: seq<Where>)                          // where(function ($q) { ... })

  datatype Where = Where(boolean: Boolean, condition: Predicate)

  /** `orderBy($column, $direction)`, with the direction text as passed. */
  datatype OrderBy = OrderBy(column: string, direction: string)

  datatype From =
    | Named(table: string)
      /** `DB::table(DB::raw("(<inner SQL>) as <alias>"))` with the inner bindings merged in. */
    | Derived(inner: Query, alias: string)
      /** `DB::table(DB::raw("(<sql>) as <alias>"))` alone: SQL text, with no bindings merged in. */
    | RawTable(sql: string, alias: string)

  datatype Query = Query(
    from: From,
    selects: seq<string>,
    wheres: seq<Where>,
    groups: seq<string>,
    orders: seq<OrderBy>,
    limit: Option<int>,
    offset: Option<int>)

  /** The database connection: SQL rendering, fetching rows, counting them, and quoting an identifier. */
  datatype Connection = Connection(
    toSql: Query -> string,
    get: Query -> seq<Row>,
    count: Query -> nat,
    wrap: string -> string)

  /** `DB::table($name)`. */
  function NewQuery(table: string): Query
  {
    Query(Named(table), [], [], [], [], None, None)
  }

  /**
   * `DB::table(DB::raw("({$q->toSql()}) as $alias"))->mergeBindings($q)`:
   * a fresh query over `q` as a derived table.
   */
  function Wrap(q: Query, alias: string): (w: Query)
    ensures w.from.Derived? && w.from.inner == q && w.from.alias == alias
    ensures w.selects == [] && w.wheres == [] && w.groups == [] && w.orders == []
    ensures w.limit.None? && w.offset.None?
  {
    Query(Derived(q, alias), [], [], [], [], None, None)
  }

  /**
   * `DB::table(DB::raw("({$q->toSql()}) as $alias"))` without `mergeBindings`:
   * a fresh query over the SQL text of `q`, whose bound values are not carried over.
   */
  function WrapText(q: Query, conn: Connection, alias: string): (w: Query)
    ensures w.from == RawTable(conn.toSql(q), alias)
    ensures w.selects == [] && w.wheres == [] && w.groups == [] && w.orders == []
    ensures w.limit.None? && w.offset.None?
  {
    Query(RawTable(conn.toSql(q), alias), [], [], [], [], None, None)
  }

  /** The values bound to the `?` placeholders, in the order they are sent. */
  function Bindings(q: Query): seq<string>
    decreases q
  {
    (match q.from
     case Named(_) => []
     case Derived(inner, _) => Bindings(inner)
     case RawTable(_, _) => [])
    + WhereBindings(q.wheres)
  }

  function WhereBindings(ws: seq<Where>): seq<string>
    decreases ws
  {
    if ws == [] then [] else WhereBinding(ws[0]) + WhereBindings(ws[1..])
  }

  function WhereBinding(w: Where): seq<string>
    decreases w
  {
    PredicateBindings(w.condition)
  }

  function PredicateBindings(p: Predicate): seq<string>
    decreases p
  {
    match p
    case RawPredicate(_, b) => b
    case BasicPredicate(_, _, v) => [v]
    case NestedPredicate(group) => WhereBindings(group)
  }

  /** Wrapping a query as a derived table keeps its bindings, in order. */
  lemma WrapKeepsBindings(q: Query, alias: string)
    ensures Bindings(Wrap(q, alias)) == Bindings(q)
  {
    assert Wrap(q, alias).wheres == [];
  }

  /** Appending where clauses appends their bindings. */
  lemma {:induction false} WhereBindingsAppend(a: seq<Where>, b: seq<Where>)
    ensures WhereBindings(a + b) == WhereBindings(a) + WhereBindings(b)
    decreases |a|
  {
    if a != [] {
      WhereBindingsAppend(a[1..], b);
      assert (a + b)[1..] == a[1..] + b;
    } else {
      assert a + b == b;
    }
  }

  /** Appending where clauses to a query appends their bindings to the query's. */
  lemma AddWheresBindings(q: Query, ws: seq<Where>)
    ensures Bindings(q.(wheres := q.wheres + ws)) == Bindings(q) + WhereBindings(ws)
  {
    WhereBindingsAppend(q.wheres, ws);
    var fromBindings := match q.from
      case Named(_) => []
      case Derived(inner, _) => Bindings(inner)
      case RawTable(_, _) => [];
    assert Bindings(q) == fromBindings + WhereBindings(q.wheres);
    assert Bindings(q.(wheres := q.wheres + ws)) == fromBindings + (WhereBindings(q.wheres) + WhereBindings(ws));
    AppendAssoc(fromBindings, WhereBindings(q.wheres), WhereBindings(ws));
  }

  /** The where clause a non-empty closure group adds: one parenthesised group joined with AND. */
  function NestedGroup(group: seq<Where>): seq<Where>
  {
    if group == [] then [] else [Where(And, NestedPredicate(group))]
  }

  /**
   * `where(function ($q) { ... })`: the clauses the closure added become one
   * nested group; a closure that added none leaves the query as it was.
   */
  function WhereNested(q: Query, group: seq<Where>): (r: Query)
    ensures r.from == q.from && r.selects == q.selects && r.groups == q.groups
    ensures r.orders == q.orders && r.limit == q.limit && r.offset == q.offset
    ensures group == [] ==> r == q
  {
    q.(wheres := q.wheres + NestedGroup(group))
  }

  /** A nested group sends the bindings of its clauses after those already on the query. */
  lemma WhereNestedBindings(q: Query, group: seq<Where>)
    ensures Bindings(WhereNested(q, group)) == Bindings(q) + WhereBindings(group)
  {
    var ng := NestedGroup(group);
    WhereBindingsAppend(q.wheres, ng);
    if group != [] {
      assert ng[1..] == [];
      assert WhereBindings(ng) == WhereBinding(ng[0]) + WhereBindings([]);
    }
  }

  /** The rows a LIMIT/OFFSET window keeps out of the rows the query matches. */
  function Window<T>(rows: seq<T>, offset: Option<int>, limit: Option<int>): (page: seq<T>)
    ensures |page| <= |rows|
    ensures limit.Some? && limit.value >= 0 ==> |page| <= limit.value
    ensures offset.None? && limit.None? ==> page == rows
  {
    var skip := if offset.None? || offset.value <= 0 then 0
                else if offset.value > |rows| then |rows| else offset.value;
    var rest := rows[skip..];
    if limit.Some? && 0 <= limit.value < |rest| then rest[..limit.value] else rest
  }
}
