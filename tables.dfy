/** `Tables`: loading a site table and turning it into one row per site. */
module Tables {
  import opened Outcomes
  import opened Geometry
  import opened ColumnTables
  import opened Text

  /** A `DefaultAnnotatedIntervalTableRow` as this model keeps it: the site name, its
      interval (None for null), the outlier column's name and the row's index. */
  datatype SiteRow = SiteRow(siteName: string, interval: Option<Box>, outlierColumnName: string, rowIndex: int)

  /** The two datasets `stringColumnsFromHDF5` reads under a table group: the column names
      and the cells, both flattened. */
  datatype Hdf5Table = Hdf5Table(columnNames: seq<string>, cells: seq<string>)

  /** `siteNameToInterval.get(siteName)`, with a null map giving null. */
  function IntervalOf(siteNameToInterval: Option<map<string, Box>>, siteName: string): (r: Option<Box>)
    ensures r.Some? <==> siteNameToInterval.Some? && siteName in siteNameToInterval.value
    ensures r.Some? ==> r.value == siteNameToInterval.value[siteName]
  {
    if siteNameToInterval.Some? && siteName in siteNameToInterval.value
    then Some(siteNameToInterval.value[siteName]) else None
  }

  /** The rows `createSiteNameTableRowsFromColumns` returns or the exception it throws:
      one row per entry of the first column, row i named by entry i of the site-name column
      and placed by that name's interval. An empty map throws NoSuchElementException; a
      missing site-name column NullPointerException and a short one
      IndexOutOfBoundsException, as soon as a row is read. */
  function SiteNameRows(
    columns: Columns, siteNameColumnName: string,
    siteNameToInterval: Option<map<string, Box>>, outlierColumnName: string): (r: Result<seq<SiteRow>>)
    requires WellFormed(columns)
    ensures r.Ok? <==> (|columns.keys| > 0 &&
      (|columns.cols[columns.keys[0]]| == 0 ||
       (siteNameColumnName in columns.cols &&
        |columns.cols[siteNameColumnName]| >= |columns.cols[columns.keys[0]]|)))
    ensures r.Ok? ==> (|r.value| == |columns.cols[columns.keys[0]]| &&
      forall i :: 0 <= i < |r.value| ==>
        siteNameColumnName in columns.cols && i < |columns.cols[siteNameColumnName]| &&
        r.value[i] == SiteRow(columns.cols[siteNameColumnName][i],
                              IntervalOf(siteNameToInterval, columns.cols[siteNameColumnName][i]),
                              outlierColumnName, i))
    ensures r.Err? ==> r.failure in {NoSuchElement, NullPointer, IndexOutOfBounds}
  {
    if |columns.keys| == 0 then Err(NoSuchElement)
    else
      var numRows := |columns.cols[columns.keys[0]]|;
      if numRows == 0 then Ok([])
      else if siteNameColumnName !in columns.cols then Err(NullPointer)
      else
        var column := columns.cols[siteNameColumnName];
        if |column| < numRows then Err(IndexOutOfBounds)
        else Ok(seq(numRows, i requires 0 <= i < numRows =>
                  SiteRow(column[i], IntervalOf(siteNameToInterval, column[i]), outlierColumnName, i)))
  }

  /** `createSiteNameTableRowsFromColumns`: the loop over the rows, proved to build
      `SiteNameRows`. */
  method CreateSiteNameTableRowsFromColumns(
    columns: Columns, siteNameColumnName: string,
    siteNameToInterval: Option<map<string, Box>>, outlierColumnName: string)
    returns (r: Result<seq<SiteRow>>)
    requires WellFormed(columns)
    ensures |columns.keys| == 0 ==> r == Err(NoSuchElement)
    ensures |columns.keys| > 0 && |columns.cols[columns.keys[0]]| > 0 && siteNameColumnName !in columns.cols ==>
      r == Err(NullPointer)
    ensures (|columns.keys| > 0 && siteNameColumnName in columns.cols &&
             |columns.cols[siteNameColumnName]| < |columns.cols[columns.keys[0]]|) ==> r == Err(IndexOutOfBounds)
    ensures r.Ok? ==> |columns.keys| > 0 && |r.value| == |columns.cols[columns.keys[0]]|
    ensures r.Ok? ==> forall i :: 0 <= i < |r.value| ==>
      siteNameColumnName in columns.cols && i < |columns.cols[siteNameColumnName]| &&
      r.value[i] == SiteRow(columns.cols[siteNameColumnName][i],
                            IntervalOf(siteNameToInterval, columns.cols[siteNameColumnName][i]),
                            outlierColumnName, i)
    ensures (|columns.keys| > 0 &&
             (|columns.cols[columns.keys[0]]| == 0 ||
              (siteNameColumnName in columns.cols &&
               |columns.cols[siteNameColumnName]| >= |columns.cols[columns.keys[0]]|))) ==> r.Ok?
    ensures r == SiteNameRows(columns, siteNameColumnName, siteNameToInterval, outlierColumnName)
  {
    var size := FirstColumnSize(columns);
    if size.None? {
      return Err(NoSuchElement);
    }
    var numRows := size.value;
    var rows: seq<SiteRow> := [];
    for row := 0 to numRows
      invariant |rows| == row
      invariant row > 0 ==> siteNameColumnName in columns.cols && row <= |columns.cols[siteNameColumnName]|
      invariant forall i :: 0 <= i < row ==>
        siteNameColumnName in columns.cols && i < |columns.cols[siteNameColumnName]| &&
        rows[i] == SiteRow(columns.cols[siteNameColumnName][i],
                           IntervalOf(siteNameToInterval, columns.cols[siteNameColumnName][i]),
                           outlierColumnName, i)
    {
      if siteNameColumnName !in columns.cols {
        return Err(NullPointer);
      }
      var column := columns.cols[siteNameColumnName];
      if row >= |column| {
        return Err(IndexOutOfBounds);
      }
      var siteName := column[row];
      rows := rows + [SiteRow(siteName, IntervalOf(siteNameToInterval, siteName), outlierColumnName, row)];
    }
    assert numRows > 0 ==> rows == SiteNameRows(columns, siteNameColumnName, siteNameToInterval, outlierColumnName).value;
    return Ok(rows);
  }

  /** The column `ensureSiteNameColumn` adds: for each of the first `numRows` image names,
      the site name of the file `<image>.h5`. */
  function SiteNameColumn(images: seq<string>, numRows: nat, createSiteName: string -> string): (r: seq<string>)
    requires numRows <= |images|
    ensures |r| == numRows && forall i :: 0 <= i < numRows ==> r[i] == createSiteName(images[i] + ".h5")
  {
    seq(numRows, i requires 0 <= i < numRows => createSiteName(images[i] + ".h5"))
  }

  /** The site-name column `ensureSiteNameColumn` settles on and the table it leaves:
      "site_name" or "site-name" as present, else a "site_name" column derived from the
      "image" column is added; every column already there is kept as it was. */
  function WithSiteNameColumn(c: Columns, createSiteName: string -> string): (r: Result<(string, Columns)>)
    requires WellFormed(c)
    ensures r.Ok? ==> WellFormed(r.value.1) && r.value.0 in r.value.1.cols
    ensures r.Ok? ==> |c.keys| > 0 && |r.value.1.keys| > 0 && r.value.1.keys[0] == c.keys[0]
    ensures r.Ok? ==> forall k :: k in c.cols ==> k in r.value.1.cols && r.value.1.cols[k] == c.cols[k]
    ensures r.Ok? ==> forall k :: k in r.value.1.cols ==> k in c.cols || k == r.value.0
    ensures r.Ok? && r.value.0 !in c.cols ==>
      |r.value.1.cols[r.value.0]| == |c.cols[c.keys[0]]| &&
      forall i :: 0 <= i < |c.cols[c.keys[0]]| ==>
        "image" in c.cols && i < |c.cols["image"]| &&
        r.value.1.cols[r.value.0][i] == createSiteName(c.cols["image"][i] + ".h5")
    ensures r.Err? <==> ("site_name" !in c.cols && "site-name" !in c.cols &&
      (|c.keys| == 0 ||
       (|c.cols[c.keys[0]]| > 0 && ("image" !in c.cols || |c.cols["image"]| < |c.cols[c.keys[0]]|))))
  {
    if "site_name" in c.cols then Ok(("site_name", c))
    else if "site-name" in c.cols then Ok(("site-name", c))
    else if |c.keys| == 0 then Err(NoSuchElement)
    else
      var numRows := |c.cols[c.keys[0]]|;
      if numRows > 0 && "image" !in c.cols then Err(NullPointer)
      else if "image" in c.cols && |c.cols["image"]| < numRows then Err(IndexOutOfBounds)
      else
        var images := if "image" in c.cols then c.cols["image"] else [];
        Ok(("site_name", PutColumn(c, "site_name", SiteNameColumn(images, numRows, createSiteName))))
  }

  /** `ensureSiteNameColumn`: the name of the table's site-name column — "site_name" if
      present, else "site-name" if present, else a "site_name" column derived from the
      "image" column is put into the shared table. The name returned is a column of the
      table afterwards. */
  method EnsureSiteNameColumn(table: ColumnTable, createSiteName: string -> string) returns (r: Result<string>)
    requires WellFormed(table.data)
    modifies table
    ensures WellFormed(table.data)
    ensures r.Ok? ==> r.value in table.data.cols
    ensures r.Err? ==> table.data == old(table.data)
    ensures "site_name" in old(table.data.cols) ==> r == Ok("site_name") && table.data == old(table.data)
    ensures "site_name" !in old(table.data.cols) && "site-name" in old(table.data.cols) ==>
      r == Ok("site-name") && table.data == old(table.data)
    ensures "site_name" !in old(table.data.cols) && "site-name" !in old(table.data.cols) ==>
      var c := old(table.data);
      if |c.keys| == 0 then r == Err(NoSuchElement)
      else if |c.cols[c.keys[0]]| > 0 && "image" !in c.cols then r == Err(NullPointer)
      else if "image" in c.cols && |c.cols["image"]| < |c.cols[c.keys[0]]| then r == Err(IndexOutOfBounds)
      else (r == Ok("site_name") &&
            table.data == PutColumn(c, "site_name", SiteNameColumn(if "image" in c.cols then c.cols["image"] else [], |c.cols[c.keys[0]]|, createSiteName)))
    ensures var w := WithSiteNameColumn(old(table.data), createSiteName);
      (w.Ok? ==> r == Ok(w.value.0) && table.data == w.value.1) && (w.Err? ==> r == Err(w.failure))
  {
    var c := table.data;
    if "site_name" in c.cols {
      return Ok("site_name");
    }
    if "site-name" in c.cols {
      return Ok("site-name");
    }
    var size := FirstColumnSize(c);
    if size.None? {
      return Err(NoSuchElement);
    }
    var numRows := size.value;
    var siteNames: seq<string> := [];
    for row := 0 to numRows
      invariant |siteNames| == row
      invariant row > 0 ==> "image" in c.cols && row <= |c.cols["image"]|
      invariant forall i :: 0 <= i < row ==>
        "image" in c.cols && i < |c.cols["image"]| && siteNames[i] == createSiteName(c.cols["image"][i] + ".h5")
    {
      if "image" !in c.cols {
        return Err(NullPointer);
      }
      if row >= |c.cols["image"]| {
        return Err(IndexOutOfBounds);
      }
      siteNames := siteNames + [createSiteName(c.cols["image"][row] + ".h5")];
    }
    assert numRows > 0 ==> siteNames == SiteNameColumn(c.cols["image"], numRows, createSiteName);
    table.Put("site_name", siteNames);
    return Ok("site_name");
  }

  /** The names of a list without repeats, in order of first occurrence. */
  function Dedup(s: seq<string>): (r: seq<string>)
    ensures Distinct(r)
    ensures forall x :: x in r <==> x in s
    decreases |s|
  {
    if s == [] then []
    else
      var d := Dedup(s[..|s| - 1]);
      if s[|s| - 1] in d then d else d + [s[|s| - 1]]
  }

  /** The cells among the first k of the flat array whose column (index modulo the number
      of columns) is named `name`, in order. */
  function Gather(names: seq<string>, cells: seq<string>, name: string, k: nat): seq<string>
    requires |names| > 0 && k <= |cells|
  {
    if k == 0 then []
    else Gather(names, cells, name, k - 1) + (if names[(k - 1) % |names|] == name then [cells[k - 1]] else [])
  }

  /** Row r of a table `n` columns wide starts at a multiple of n, and a row before row
      `rows` ends within the first rows * n cells. */
  lemma RowStart(r: int, rows: int, n: int)
    requires n > 0 && 0 <= r < rows
    ensures 0 <= r * n && r * n + n <= rows * n && (r * n) % n == 0
  {
    MulMonotone(r + 1, rows, n);
    MulMonotone(0, r, n);
    DivModUnique(r, 0, n);
  }

  /** The last of `rows` rows starts n cells before rows * n, at a multiple of n. */
  lemma LastRowStart(rows: int, n: int)
    requires n > 0 && rows > 0
    ensures 0 <= (rows - 1) * n && (rows - 1) * n + n == rows * n && ((rows - 1) * n) % n == 0
  {
    RowStart(rows - 1, rows, n);
  }

  /** The |cells| / n full rows of a flat array fit in it. */
  lemma FullRowsFit(len: nat, n: int)
    requires n > 0
    ensures 0 <= (len / n) * n <= len && ((len / n) * n) % n == 0
  {
    assert len == (len / n) * n + len % n;
    MulMonotone(0, len / n, n);
    DivModUnique(len / n, 0, n);
  }

  /** The number of cells in the |cells| / n full rows of a flat array n columns wide. */
  function FullRowsLength(len: nat, n: int): (k: nat)
    requires n > 0
    ensures k <= len && k % n == 0
  {
    FullRowsFit(len, n);
    (len / n) * n
  }

  /** The cell `base + c` of a row starting at `base` lies in column c. */
  lemma ColumnOfCell(base: int, c: int, n: int)
    requires n > 0 && base >= 0 && base % n == 0 && 0 <= c < n
    ensures (base + c) % n == c
  {
    DivModUnique(base / n, c, n);
    assert base == (base / n) * n;
  }

  /** Cell c of a row starting at `base` goes to the column named `names[c]` only. */
  lemma GatherNext(names: seq<string>, cells: seq<string>, name: string, base: nat, c: int)
    requires |names| > 0 && base % |names| == 0 && 0 <= c < |names| && base + c < |cells|
    ensures Gather(names, cells, name, base + c + 1) ==
      Gather(names, cells, name, base + c) + (if names[c] == name then [cells[base + c]] else [])
  {
    ColumnOfCell(base, c, |names|);
  }

  /** Within one row, starting at `base`, the column of name `names[c]` gains exactly the
      row's cell c. */
  lemma {:induction false} GatherWithinRow(names: seq<string>, cells: seq<string>, c: int, base: nat, j: nat)
    requires |names| > 0 && Distinct(names) && 0 <= c < |names| && j <= |names|
    requires base % |names| == 0 && base + j <= |cells|
    ensures Gather(names, cells, names[c], base + j) ==
      Gather(names, cells, names[c], base) + (if j > c then [cells[base + c]] else [])
    decreases j
  {
    if j > 0 {
      GatherWithinRow(names, cells, c, base, j - 1);
      ColumnOfCell(base, j - 1, |names|);
      assert names[j - 1] == names[c] <==> j - 1 == c;
    }
  }

  /** With distinct column names, the column named `names[c]` of `rows` full rows has one
      cell per row. */
  lemma {:induction false} ReshapeLength(names: seq<string>, cells: seq<string>, c: int, rows: nat)
    requires |names| > 0 && Distinct(names) && 0 <= c < |names|
    requires rows * |names| <= |cells|
    ensures |Gather(names, cells, names[c], rows * |names|)| == rows
    decreases rows
  {
    if rows > 0 {
      var n := |names|;
      LastRowStart(rows, n);
      ReshapeLength(names, cells, c, rows - 1);
      GatherWithinRow(names, cells, c, (rows - 1) * n, n);
    }
  }

  /** ... and its cell at row r is cell r * numColumns + c of the flat array. */
  lemma {:induction false} ReshapeCell(names: seq<string>, cells: seq<string>, c: int, rows: nat, r: int)
    requires |names| > 0 && Distinct(names) && 0 <= c < |names|
    requires rows * |names| <= |cells| && 0 <= r < rows
    ensures |Gather(names, cells, names[c], rows * |names|)| == rows
    ensures r * |names| + c < |cells| && Gather(names, cells, names[c], rows * |names|)[r] == cells[r * |names| + c]
    decreases rows
  {
    var n := |names|;
    var base := (rows - 1) * n;
    LastRowStart(rows, n);
    ReshapeLength(names, cells, c, rows);
    ReshapeLength(names, cells, c, rows - 1);
    GatherWithinRow(names, cells, c, base, n);
    if r < rows - 1 {
      ReshapeCell(names, cells, c, rows - 1, r);
    } else {
      assert r * n == base;
    }
  }

  /** The flat array is read row by row: with distinct column names, the column named
      `names[c]` of `rows` full rows holds cell r * numColumns + c at row r. */
  lemma ReshapePlacesCells(names: seq<string>, cells: seq<string>, c: int, rows: nat)
    requires |names| > 0 && Distinct(names) && 0 <= c < |names|
    requires rows * |names| <= |cells|
    ensures |Gather(names, cells, names[c], rows * |names|)| == rows
    ensures forall r :: 0 <= r < rows ==>
      r * |names| + c < |cells| && Gather(names, cells, names[c], rows * |names|)[r] == cells[r * |names| + c]
  {
    ReshapeLength(names, cells, c, rows);
    forall r | 0 <= r < rows
      ensures r * |names| + c < |cells| && Gather(names, cells, names[c], rows * |names|)[r] == cells[r * |names| + c]
    {
      ReshapeCell(names, cells, c, rows, r);
    }
  }

  /** The table `stringColumnsFromHDF5` builds from the two datasets: one column per
      distinct header name, in header order, each gathering its cells of the full rows;
      no column names is a division by zero. */
  function ColumnsOf(table: Hdf5Table): (r: Result<Columns>)
    ensures r.Err? <==> |table.columnNames| == 0
    ensures r.Err? ==> r.failure == Arithmetic
    ensures r.Ok? ==> WellFormed(r.value) && r.value.keys == Dedup(table.columnNames)
  {
    var names, cells := table.columnNames, table.cells;
    if |names| == 0 then Err(Arithmetic)
    else
      Ok(Columns(Dedup(names), map name | name in names :: Gather(names, cells, name, FullRowsLength(|cells|, |names|))))
  }

  /** `stringColumnsFromHDF5` once the two datasets are read: the columns in header order
      (a repeated header name shares one column), each holding its cells of the
      |cells| / |columnNames| full rows, read row by row. No column names throws
      ArithmeticException (division by zero). */
  method StringColumnsFromHdf5(table: Hdf5Table) returns (r: Result<Columns>)
    ensures r.Err? <==> |table.columnNames| == 0
    ensures r.Err? ==> r.failure == Arithmetic
    ensures r.Ok? ==> WellFormed(r.value) && r.value.keys == Dedup(table.columnNames)
    ensures r.Ok? ==> forall name :: name in r.value.cols ==>
      r.value.cols[name] == Gather(table.columnNames, table.cells, name, FullRowsLength(|table.cells|, |table.columnNames|))
    ensures r == ColumnsOf(table)
  {
    var names, cells := table.columnNames, table.cells;
    var numColumns := |names|;
    var columns := PutHeaders(names);
    if numColumns == 0 {
      return Err(Arithmetic);
    }
    var numRows := |cells| / numColumns;
    FullRowsFit(|cells|, numColumns);
    columns := AppendRows(names, cells, columns, numRows);
    assert numRows * numColumns == FullRowsLength(|cells|, numColumns);
    assert columns.cols == ColumnsOf(table).value.cols;
    return Ok(columns);
  }

  /** The header loop of `stringColumnsFromHDF5`: an empty column is put under each
      header name in turn. */
  method PutHeaders(names: seq<string>) returns (columns: Columns)
    ensures WellFormed(columns) && columns.keys == Dedup(names)
    ensures forall name :: name in names ==> name in columns.cols
    ensures forall name :: name in columns.cols ==> columns.cols[name] == []
  {
    columns := Empty;
    for c := 0 to |names|
      invariant WellFormed(columns) && columns.keys == Dedup(names[..c])
      invariant forall name :: name in columns.cols ==> columns.cols[name] == []
    {
      assert names[..c + 1][..c] == names[..c];
      columns := PutColumn(columns, names[c], []);
    }
    assert names[..|names|] == names;
  }

  /** The row loop of `stringColumnsFromHDF5`: cell `cellIndex++` goes to the column of
      name `names[columnIndex]`, for every column of every row. */
  method AppendRows(names: seq<string>, cells: seq<string>, start: Columns, numRows: nat) returns (columns: Columns)
    requires |names| > 0 && numRows * |names| <= |cells|
    requires WellFormed(start) && (forall name :: name in names ==> name in start.cols)
    requires forall name :: name in start.cols ==> start.cols[name] == []
    ensures WellFormed(columns) && columns.keys == start.keys
    ensures forall name :: name in columns.cols ==> columns.cols[name] == Gather(names, cells, name, numRows * |names|)
  {
    var numColumns := |names|;
    columns := start;
    var cellIndex := 0;
    for row := 0 to numRows
      invariant cellIndex == row * numColumns
      invariant WellFormed(columns) && columns.keys == start.keys
      invariant forall name :: name in names ==> name in columns.cols
      invariant forall name :: name in columns.cols ==> columns.cols[name] == Gather(names, cells, name, cellIndex)
    {
      RowStart(row, numRows, numColumns);
      columns := AppendRow(names, cells, columns, cellIndex);
      cellIndex := cellIndex + numColumns;
    }
  }

  /** One row of the row loop: the cells `base` .. `base + numColumns - 1` go, in order, to
      the columns named by the headers. */
  method AppendRow(names: seq<string>, cells: seq<string>, start: Columns, base: nat) returns (columns: Columns)
    requires |names| > 0 && base % |names| == 0 && base + |names| <= |cells|
    requires WellFormed(start) && (forall name :: name in names ==> name in start.cols)
    requires forall name :: name in start.cols ==> start.cols[name] == Gather(names, cells, name, base)
    ensures WellFormed(columns) && columns.keys == start.keys
    ensures forall name :: name in names ==> name in columns.cols
    ensures forall name :: name in columns.cols ==> columns.cols[name] == Gather(names, cells, name, base + |names|)
  {
    columns := start;
    var cellIndex := base;
    for c := 0 to |names|
      invariant cellIndex == base + c
      invariant WellFormed(columns) && columns.keys == start.keys
      invariant forall name :: name in names ==> name in columns.cols
      invariant forall name :: name in columns.cols ==> columns.cols[name] == Gather(names, cells, name, cellIndex)
    {
      forall name | name in columns.cols
        ensures Gather(names, cells, name, cellIndex + 1) ==
          Gather(names, cells, name, cellIndex) + (if names[c] == name then [cells[cellIndex]] else [])
      {
        GatherNext(names, cells, name, base, c);
      }
      columns := PutColumn(columns, names[c], columns.cols[names[c]] + [cells[cellIndex]]);
      cellIndex := cellIndex + 1;
    }
  }

  /** The two table file formats `createSiteTableRowsFromFile` reads. */
  datatype TableFormat = Csv | Hdf5

  /** The format chosen by the file's extension: ".csv", or ".hdf5" or ".h5"; anything else
      throws UnsupportedOperationException. */
  function TableFormatOf(filePath: string): (r: Result<TableFormat>)
    ensures r == Ok(Csv) <==> EndsWith(filePath, ".csv")
    ensures r == Ok(Hdf5) <==> !EndsWith(filePath, ".csv") && (EndsWith(filePath, ".hdf5") || EndsWith(filePath, ".h5"))
    ensures r.Err? ==> r.failure == Unsupported("Table file extension not supported: " + filePath)
  {
    if EndsWith(filePath, ".csv") then Ok(Csv)
    else if EndsWith(filePath, ".hdf5") || EndsWith(filePath, ".h5") then Ok(Hdf5)
    else Err(Unsupported("Table file extension not supported: " + filePath))
  }

  /** The table read in the given format: the CSV reader's columns, or the HDF5 datasets
      turned into columns. */
  function ReadColumns(format: TableFormat, csvColumns: Columns, hdf5Table: Hdf5Table): (r: Result<Columns>)
    requires WellFormed(csvColumns)
    ensures r.Ok? ==> WellFormed(r.value)
    ensures format == Csv ==> r == Ok(csvColumns)
    ensures format == Hdf5 ==> (r.Err? <==> |hdf5Table.columnNames| == 0)
  {
    if format == Csv then Ok(csvColumns) else ColumnsOf(hdf5Table)
  }

  /** The group of an HDF5 table file that holds the per-image table. */
  const ImageTableGroup: string := "tables/images/default"

  /** `createSiteTableRowsFromFile`: reads the table by its extension (the CSV reader's
      columns and the HDF5 group's datasets are given), then, for the Nikon Ti2 HDF5
      naming scheme only, ensures a site-name column and builds the rows over the table;
      any other scheme throws UnsupportedOperationException after reading. */
  method CreateSiteTableRowsFromFile(
    filePath: string, imageNamingScheme: string, nikonTi2Scheme: string,
    siteNameToInterval: Option<map<string, Box>>, outlierColumnName: string,
    csvColumns: Columns, hdf5Table: Hdf5Table, createSiteName: string -> string)
    returns (r: Result<seq<SiteRow>>)
    requires WellFormed(csvColumns)
    ensures TableFormatOf(filePath).Err? ==> r == Err(TableFormatOf(filePath).failure)
    ensures TableFormatOf(filePath) == Ok(Hdf5) && |hdf5Table.columnNames| == 0 ==> r == Err(Arithmetic)
    ensures (TableFormatOf(filePath).Ok? && !(TableFormatOf(filePath) == Ok(Hdf5) && |hdf5Table.columnNames| == 0) &&
             imageNamingScheme != nikonTi2Scheme) ==>
      r == Err(Unsupported("Appending a table for naming scheme " + imageNamingScheme + " is not yet supported."))
    ensures r.Ok? ==> TableFormatOf(filePath).Ok? && imageNamingScheme == nikonTi2Scheme
    ensures (TableFormatOf(filePath).Ok? && imageNamingScheme == nikonTi2Scheme &&
             ReadColumns(TableFormatOf(filePath).value, csvColumns, hdf5Table).Ok?) ==>
      var w := WithSiteNameColumn(ReadColumns(TableFormatOf(filePath).value, csvColumns, hdf5Table).value, createSiteName);
      (w.Err? ==> r == Err(w.failure)) &&
      (w.Ok? ==> r == SiteNameRows(w.value.1, w.value.0, siteNameToInterval, outlierColumnName))
    ensures r.Ok? ==> (
      ReadColumns(TableFormatOf(filePath).value, csvColumns, hdf5Table).Ok? &&
      var c := ReadColumns(TableFormatOf(filePath).value, csvColumns, hdf5Table).value;
      var w := WithSiteNameColumn(c, createSiteName);
      w.Ok? && |c.keys| > 0 && |r.value| == |c.cols[c.keys[0]]| &&
      forall i :: 0 <= i < |r.value| ==>
        w.value.0 in w.value.1.cols && i < |w.value.1.cols[w.value.0]| &&
        r.value[i] == SiteRow(w.value.1.cols[w.value.0][i],
                              IntervalOf(siteNameToInterval, w.value.1.cols[w.value.0][i]),
                              outlierColumnName, i))
  {
    var format :- TableFormatOf(filePath);
    var columns: Columns;
    if format == Csv {
      columns := csvColumns;
    } else {
      var read := StringColumnsFromHdf5(hdf5Table);
      if read.Err? {
        return Err(read.failure);
      }
      columns := read.value;
    }
    if imageNamingScheme != nikonTi2Scheme {
      return Err(Unsupported("Appending a table for naming scheme " + imageNamingScheme + " is not yet supported."));
    }
    var table := new ColumnTable(columns);
    var siteNameColumnName :- EnsureSiteNameColumn(table, createSiteName);
    r := CreateSiteNameTableRowsFromColumns(table.data, siteNameColumnName, siteNameToInterval, outlierColumnName);
  }
}
