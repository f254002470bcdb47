/**
 * Column descriptors (`DatatableColumn`: `db`, `name`, `formatter`, `cast`)
 * and the row reshaping both engines share: every output row holds, under each
 * column's name, the row's value for that name, passed through the column's
 * formatter and then through its cast.
 *
 * The array descriptors of the static service (`db`, `dt`, `formatter`,
 * `cast`) are the same record: `dt` is `name` here.
 */
module ColumnDescriptors {
  import opened Wrappers

  /** A cell value as the database driver returns it (floats are not modelled). */
  datatype Value = Null | Bool(b: bool) | Int(i: int) | Str(s: string)

  /** A raw result row: the properties of the row object, by name. */
  type Row = map<string, Value>

  /** An output row: the associative array sent to the grid, by column name. */
  type OutRow = map<string, Value>

  /** A user formatter callback, called with the raw value and the whole raw row. */
  type Formatter = (Value, Row) -> Value

  /** PHP's `settype($value, $type)`, supplied by the caller: dynamic coercion is not modelled. */
  type Settype = (Value, string) -> Value

  datatype DatatableColumn = DatatableColumn(
    db: string,                    // the expression selected from the database
    name: string,                  // the key of the column in the output (`dt`)
    formatter: Option<Formatter>,  // `null` when absent
    cast: Option<string>)          // a `settype` type name, `null` when absent

  /** `new DatatableColumn($db, $name, $formatter = null, $cast = null)`. */
  function NewColumn(db: string, name: string, formatter: Option<Formatter> := None,
                     cast: Option<string> := None): (c: DatatableColumn)
    ensures c.db == db && c.name == name
    ensures c.formatter == formatter && c.cast == cast
  {
    DatatableColumn(db, name, formatter, cast)
  }

  /** Omitting the last two constructor arguments leaves the descriptor without formatter and cast. */
  lemma NewColumnDefaults(db: string, name: string)
    ensures NewColumn(db, name).formatter == None && NewColumn(db, name).cast == None
  {
  }

  /**
   * `array_search($name, <names of columns>)` with strict comparison: the first
   * position whose name is `name`.
   */
  function FindByName(columns: seq<DatatableColumn>, name: string): (r: Option<nat>)
    ensures r.Some? ==> r.value < |columns| && columns[r.value].name == name
    ensures r.Some? ==> forall j :: 0 <= j < r.value ==> columns[j].name != name
    ensures r.None? ==> forall j :: 0 <= j < |columns| ==> columns[j].name != name
  {
    if columns == [] then None
    else if columns[0].name == name then Some(0)
    else match FindByName(columns[1..], name)
         case None => None
         case Some(j) => Some(j + 1)
  }

  /** `$row->$key`: an absent property reads as `null`. */
  function Property(row: Row, key: string): Value
  {
    if key in row then row[key] else Null
  }

  /** One output cell: formatter (if any) on the raw value, then cast (if any) on that. */
  function Cell(c: DatatableColumn, row: Row, settype: Settype): Value
  {
    var raw := Property(row, c.name);
    var formatted := if c.formatter.Some? then c.formatter.value(raw, row) else raw;
    if c.cast.Some? then settype(formatted, c.cast.value) else formatted
  }

  /** The output row built from the first `n` columns, in column order. */
  function FormatRow(columns: seq<DatatableColumn>, row: Row, settype: Settype, n: nat): OutRow
    requires n <= |columns|
  {
    if n == 0 then map[]
    else FormatRow(columns, row, settype, n - 1)[columns[n - 1].name := Cell(columns[n - 1], row, settype)]
  }

  function Names(columns: seq<DatatableColumn>): set<string>
  {
    set i | 0 <= i < |columns| :: columns[i].name
  }

  /** Column names are pairwise distinct (one descriptor per output key). */
  predicate UniqueNames(columns: seq<DatatableColumn>)
  {
    forall i, j :: 0 <= i < j < |columns| ==> columns[i].name != columns[j].name
  }

  /** Every output row has one key per column name, and no other key. */
  lemma {:induction false} FormatRowKeys(columns: seq<DatatableColumn>, row: Row, settype: Settype, n: nat)
    requires n <= |columns|
    ensures FormatRow(columns, row, settype, n).Keys == Names(columns[..n])
  {
    if n > 0 {
      FormatRowKeys(columns, row, settype, n - 1);
      assert columns[..n] == columns[..n - 1] + [columns[n - 1]];
    }
  }

  /**
   * With distinct names, the value under a column's name is that column's cell
   * (a later column with the same name would overwrite it).
   */
  lemma {:induction false} FormatRowValue(columns: seq<DatatableColumn>, row: Row, settype: Settype, n: nat, k: nat)
    requires n <= |columns| && k < n && UniqueNames(columns)
    ensures columns[k].name in FormatRow(columns, row, settype, n)
    ensures FormatRow(columns, row, settype, n)[columns[k].name] == Cell(columns[k], row, settype)
  {
    if k < n - 1 {
      FormatRowValue(columns, row, settype, n - 1, k);
    }
  }

  /** The output rows: one per input row, in input order. */
  function FormatRows(columns: seq<DatatableColumn>, rows: seq<Row>, settype: Settype): (out: seq<OutRow>)
    ensures |out| == |rows|
    ensures forall i :: 0 <= i < |rows| ==> out[i] == FormatRow(columns, rows[i], settype, |columns|)
  {
    seq(|rows|, i requires 0 <= i < |rows| => FormatRow(columns, rows[i], settype, |columns|))
  }

  /**
   * A declared cast runs after the formatter: the emitted value is the cast
   * of the formatted value, never the formatted cast.
   */
  lemma CastAfterFormatter(columns: seq<DatatableColumn>, rows: seq<Row>, settype: Settype, i: nat, k: nat)
    requires i < |rows| && k < |columns| && UniqueNames(columns)
    requires columns[k].formatter.Some? && columns[k].cast.Some?
    ensures var c := columns[k];
      c.name in FormatRows(columns, rows, settype)[i] &&
      FormatRows(columns, rows, settype)[i][c.name]
        == settype(c.formatter.value(Property(rows[i], c.name), rows[i]), c.cast.value)
  {
    FormatRowValue(columns, rows[i], settype, |columns|, k);
  }
}
