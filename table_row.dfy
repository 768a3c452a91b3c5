/** `RepositoryAnnotatedIntervalTableRow`: one row of a site table. Its cells come from
    the shared column table or, for the assay-metadata attributes, from the repository. */
module TableRow {
  import opened Outcomes
  import opened Geometry
  import opened ColumnTables

  /** What `getCell` returns: a cell of the table, or the repository's answer for the
      row's name and the attribute, represented by that query. */
  datatype CellValue = TableValue(value: string) | RepositoryQuery(name: string, attribute: string)

  /** `names` followed by each name of `more` not yet present, in order: what
      `LinkedHashSet.add` produces name by name. */
  function AddAll(names: seq<string>, more: seq<string>): (r: seq<string>)
    ensures forall x :: x in r <==> x in names || x in more
    ensures Distinct(names) ==> Distinct(r)
    ensures |names| <= |r| && r[..|names|] == names
    decreases |more|
  {
    if more == [] then names
    else
      var front := AddAll(names, more[..|more| - 1]);
      var last := more[|more| - 1];
      if last in front then front else front + [last]
  }

  /** The table with the cell in column `column`, row `row` replaced by `value`. */
  function SetColumnCell(c: Columns, column: string, row: int, value: string): (r: Columns)
    requires column in c.cols && 0 <= row < |c.cols[column]|
    ensures WellFormed(c) ==> WellFormed(r)
    ensures r.keys == c.keys && r.cols.Keys == c.cols.Keys
  {
    Columns(c.keys, c.cols[column := c.cols[column][row := value]])
  }

  /** After a cell is set, it reads back as the value written, every other cell reads as
      before, and every column keeps its length. */
  lemma SetCellReadsBack(c: Columns, column: string, row: int, value: string)
    requires column in c.cols && 0 <= row < |c.cols[column]|
    ensures SetColumnCell(c, column, row, value).cols[column][row] == value
    ensures forall k, i :: k in c.cols && 0 <= i < |c.cols[k]| ==>
      |SetColumnCell(c, column, row, value).cols[k]| == |c.cols[k]| &&
      ((k, i) != (column, row) ==> SetColumnCell(c, column, row, value).cols[k][i] == c.cols[k][i])
  {
  }

  class RepositoryAnnotatedIntervalTableRow {
    const name: string
    const interval: Option<Box>
    const table: ColumnTable
    const rowIndex: int
    /** `AssayMetadataRepository.attributes`: the column names the repository answers. */
    const attributes: seq<string>
    var columnNames: Option<seq<string>>

    /** Stores the row's name, interval, shared table and index; the column names are
        computed on first request. */
    constructor (name: string, interval: Option<Box>, table: ColumnTable, rowIndex: int, attributes: seq<string>)
      ensures GetName() == name && GetInterval() == interval && RowIndex() == rowIndex
      ensures this.table == table && this.attributes == attributes && columnNames == None
    {
      this.name := name;
      this.interval := interval;
      this.table := table;
      this.rowIndex := rowIndex;
      this.attributes := attributes;
      columnNames := None;
    }

    function GetName(): string
      reads this
    {
      name
    }

    function GetInterval(): Option<Box>
      reads this
    {
      interval
    }

    function RowIndex(): int
      reads this
    {
      rowIndex
    }

    /** `getCell`: a repository attribute is asked of the repository; a table column gives
        its entry at this row; any other name throws UnsupportedOperationException. */
    function GetCell(columnName: string): (r: Result<CellValue>)
      reads this, table
      ensures columnName in attributes ==> r == Ok(RepositoryQuery(name, columnName))
      ensures columnName !in attributes && columnName !in table.data.cols ==>
        r == Err(Unsupported("Column not present: " + columnName))
      ensures (columnName !in attributes && columnName in table.data.cols &&
               !(0 <= rowIndex < |table.data.cols[columnName]|)) ==> r == Err(IndexOutOfBounds)
      ensures r.Ok? && r.value.TableValue? ==>
        columnName in table.data.cols && 0 <= rowIndex < |table.data.cols[columnName]| &&
        r.value.value == table.data.cols[columnName][rowIndex]
    {
      if columnName in attributes then Ok(RepositoryQuery(name, columnName))
      else if columnName in table.data.cols then
        var column := table.data.cols[columnName];
        if 0 <= rowIndex < |column| then Ok(TableValue(column[rowIndex])) else Err(IndexOutOfBounds)
      else Err(Unsupported("Column not present: " + columnName))
    }

    /** `setCell`: writing a repository attribute changes nothing; writing a table column
        changes exactly its entry at this row, in the table every row shares. A missing
        column throws NullPointerException and a short one IndexOutOfBoundsException. */
    method SetCell(columnName: string, value: string) returns (failure: Option<Failure>)
      modifies table
      ensures columnName in attributes ==> failure == None && table.data == old(table.data)
      ensures columnName !in attributes && columnName !in old(table.data.cols) ==>
        failure == Some(NullPointer) && table.data == old(table.data)
      ensures (columnName !in attributes && columnName in old(table.data.cols) &&
               !(0 <= rowIndex < |old(table.data.cols[columnName])|)) ==>
        failure == Some(IndexOutOfBounds) && table.data == old(table.data)
      ensures columnName !in attributes && failure == None ==>
        columnName in old(table.data.cols) && 0 <= rowIndex < |old(table.data.cols[columnName])| &&
        table.data == SetColumnCell(old(table.data), columnName, rowIndex, value)
      ensures (columnName !in attributes && columnName in old(table.data.cols) &&
               0 <= rowIndex < |old(table.data.cols[columnName])|) ==>
        failure == None && table.data == SetColumnCell(old(table.data), columnName, rowIndex, value)
    {
      if columnName in attributes {
        return None;
      }
      if columnName !in table.data.cols {
        return Some(NullPointer);
      }
      if !(0 <= rowIndex < |table.data.cols[columnName]|) {
        return Some(IndexOutOfBounds);
      }
      table.data := SetColumnCell(table.data, columnName, rowIndex, value);
      return None;
    }

    /** `getColumnNames`: on the first call the table's column names in order followed by
        the repository attributes, kept from then on; later calls return the kept list
        even if the table has gained columns since. */
    method GetColumnNames() returns (names: seq<string>)
      modifies this`columnNames
      ensures old(columnNames).Some? ==> names == old(columnNames).value && columnNames == old(columnNames)
      ensures old(columnNames).None? ==> names == AddAll(table.data.keys, attributes) && columnNames == Some(names)
    {
      if columnNames.None? {
        var collected := table.data.keys;
        for i := 0 to |attributes|
          invariant collected == AddAll(table.data.keys, attributes[..i])
        {
          assert attributes[..i + 1][..i] == attributes[..i];
          if attributes[i] !in collected {
            collected := collected + [attributes[i]];
          }
        }
        assert attributes[..|attributes|] == attributes;
        columnNames := Some(collected);
      }
      names := columnNames.value;
    }
  }

  /** The column names list every table column and every attribute exactly once, table
      columns first in table order. */
  lemma ColumnNamesListEachOnce(c: Columns, attributes: seq<string>)
    requires WellFormed(c)
    ensures Distinct(AddAll(c.keys, attributes))
    ensures forall x :: x in AddAll(c.keys, attributes) <==> x in c.cols || x in attributes
    ensures AddAll(c.keys, attributes)[..|c.keys|] == c.keys
  {
  }
}
