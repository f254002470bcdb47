/**
 * The response both engines send back: the echoed draw counter, the two
 * record counts and the formatted rows. A field the engine never set stays
 * `null`.
 */
module Responses {
  import opened Wrappers
  import opened ColumnDescriptors

  datatype DataTable = DataTable(
    draw: Option<int>,
    recordsTotal: Option<int>,
    recordsFiltered: Option<int>,
    data: seq<OutRow>)

  /** `new DataTable()`: nothing set yet. */
  function EmptyDataTable(): (t: DataTable)
    ensures t.draw.None? && t.recordsTotal.None? && t.recordsFiltered.None? && t.data == []
  {
    DataTable(None, None, None, [])
  }
}
