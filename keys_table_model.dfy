/** `KeysTableModel`: a read-only table backed by a list of rows, with the
    three columns Key, Size and Type. The change notifications it fires are
    kept as a log of events. */
module KeysTableModel {
  import opened Wrappers

  /** A notification to the table's listeners. */
  datatype TableEvent =
    | DataChanged
    | RowsInserted(firstRow: int, lastRow: int)

  /** The column headers. */
  const Columns: seq<string> := ["Key", "Size", "Type"]

  class KeysTable {
    var data: seq<seq<string>>
    var events: seq<TableEvent>

    constructor ()
      ensures data == [] && events == []
    {
      data := [];
      events := [];
    }

    /** `getRowCount`: the number of stored rows. */
    function RowCount(): (n: nat)
      reads this
      ensures n == |data|
    {
      |data|
    }

    /** `getColumnCount`: always three. */
    function ColumnCount(): (n: nat)
      ensures n == 3 && n == |Columns|
    {
      |Columns|
    }

    /** `getColumnName`; `None` where the array index is out of bounds. */
    function ColumnName(col: int): (r: Option<string>)
      ensures r.Some? <==> 0 <= col < 3
      ensures col == 0 ==> r == Some("Key")
      ensures col == 1 ==> r == Some("Size")
      ensures col == 2 ==> r == Some("Type")
    {
      if 0 <= col < |Columns| then Some(Columns[col]) else None
    }

    /** `getValueAt(row, col)`: the stored cell; `None` where the list or the
        row array is indexed out of bounds. */
    function ValueAt(row: int, col: int): (r: Option<string>)
      reads this
      ensures r.Some? <==> 0 <= row < |data| && 0 <= col < |data[row]|
      ensures r.Some? ==> r.value == data[row][col]
    {
      if 0 <= row < |data| && 0 <= col < |data[row]| then Some(data[row][col]) else None
    }

    /** `isCellEditable`: no cell is editable. */
    function IsCellEditable(row: int, col: int): (b: bool)
      ensures !b
    {
      false
    }

    method Clear()
      modifies this
      ensures data == [] && RowCount() == 0
      ensures events == old(events) + [DataChanged]
    {
      data := [];
      events := events + [DataChanged];
    }

    /** `addRow`: one row at the end, announced at its index. */
    method AddRow(row: seq<string>)
      modifies this
      ensures data == old(data) + [row]
      ensures RowCount() == old(RowCount()) + 1
      ensures forall i :: 0 <= i < old(|data|) ==> data[i] == old(data[i])
      ensures events == old(events) + [RowsInserted(|data| - 1, |data| - 1)]
    {
      data := data + [row];
      events := events + [RowsInserted(|data| - 1, |data| - 1)];
    }

    /** `setRows`: the contents become exactly `rows`, whatever was there. */
    method SetRows(rows: seq<seq<string>>)
      modifies this
      ensures data == rows
      ensures events == old(events) + [DataChanged]
    {
      data := [];
      data := data + rows;
      events := events + [DataChanged];
    }
  }

  /** Rows added one by one to a cleared table are the rows, in order, and
      each is announced at its own index. */
  method FillTable(table: KeysTable, rows: seq<seq<string>>)
    modifies table
    ensures table.data == rows
    ensures |table.events| == old(|table.events|) + 1 + |rows|
    ensures table.events[old(|table.events|)] == DataChanged
    ensures forall i :: 0 <= i < |rows| ==>
      table.events[old(|table.events|) + 1 + i] == RowsInserted(i, i)
  {
    ghost var start := |table.events|;
    table.Clear();
    for i := 0 to |rows|
      invariant table.data == rows[..i]
      invariant |table.events| == start + 1 + i
      invariant table.events[start] == DataChanged
      invariant forall j :: 0 <= j < i ==> table.events[start + 1 + j] == RowsInserted(j, j)
    {
      table.AddRow(rows[i]);
      assert rows[..i + 1] == rows[..i] + [rows[i]];
    }
    assert rows[..|rows|] == rows;
  }
}
