/** A table held as `Map<String, List<String>>` from column name to column: a
    `LinkedHashMap`, so its key order is the order in which names were first put. */
module ColumnTables {
  import opened Outcomes

  /** The columns of a table and their names in iteration order. */
  datatype Columns = Columns(keys: seq<string>, cols: map<string, seq<string>>)

  predicate Distinct(s: seq<string>)
  {
    forall i, j :: 0 <= i < j < |s| ==> s[i] != s[j]
  }

  /** Each column name is listed once, and the listed names are the map's keys. */
  predicate WellFormed(c: Columns)
  {
    Distinct(c.keys) && (forall k :: k in c.cols ==> k in c.keys) && (forall k :: k in c.keys ==> k in c.cols)
  }

  const Empty: Columns := Columns([], map[])

  /** `put(name, column)`: a new name goes last in the order, an existing name keeps its
      place and has its column replaced. */
  function PutColumn(c: Columns, name: string, column: seq<string>): (r: Columns)
    requires WellFormed(c)
    ensures WellFormed(r)
    ensures name in r.cols && r.cols[name] == column
    ensures forall k :: k != name ==> (k in r.cols <==> k in c.cols)
    ensures forall k :: k != name && k in c.cols ==> r.cols[k] == c.cols[k]
    ensures |c.keys| <= |r.keys| && r.keys[..|c.keys|] == c.keys
  {
    if name in c.cols then Columns(c.keys, c.cols[name := column])
    else Columns(c.keys + [name], c.cols[name := column])
  }

  /** The size of the first column in iteration order, `values().iterator().next().size()`;
      on an empty map `next()` throws NoSuchElementException, None here. */
  function FirstColumnSize(c: Columns): (n: Option<nat>)
    requires WellFormed(c)
    ensures n.None? <==> |c.keys| == 0
    ensures n.Some? ==> c.keys[0] in c.cols && n.value == |c.cols[c.keys[0]]|
  {
    if |c.keys| == 0 then None else Some(|c.cols[c.keys[0]]|)
  }

  /** A table shared by reference: the loaders fill it and the rows built over it read and
      write its cells. */
  class ColumnTable {
    var data: Columns

    constructor (data: Columns)
      ensures this.data == data
    {
      this.data := data;
    }

    /** `put` on the shared map. */
    method Put(name: string, column: seq<string>)
      requires WellFormed(data)
      modifies this
      ensures data == PutColumn(old(data), name, column)
    {
      data := PutColumn(data, name, column);
    }
  }
}
