/** `MultiSiteLoader`: read-only searches over the loader's list of single-site channel
    files, each returning the first file that fits. */
module SiteLoader {
  import opened Outcomes
  import opened Geometry

  /** A `SingleSiteChannelFile` as the searches see it: its site name and pixel interval. */
  datatype SiteFile = SiteFile(siteName: string, interval: Box)

  /** The index of the first file named `siteName`, or |files| when none is. */
  function FirstNamed(files: seq<SiteFile>, siteName: string): (i: nat)
    ensures i <= |files|
    ensures i < |files| ==> files[i].siteName == siteName
    ensures forall j :: 0 <= j < i ==> files[j].siteName != siteName
    decreases |files|
  {
    if files == [] then 0
    else if files[0].siteName == siteName then 0
    else 1 + FirstNamed(files[1..], siteName)
  }

  /** `getChannelSource(String siteName)`: the first file with that site name; none
      throws UnsupportedOperationException. */
  function ByName(files: seq<SiteFile>, siteName: string): (r: Result<SiteFile>)
    ensures r.Ok? <==> exists i :: 0 <= i < |files| && files[i].siteName == siteName
    ensures r.Ok? ==> (r.value.siteName == siteName &&
      exists i :: 0 <= i < |files| && files[i] == r.value && forall j :: 0 <= j < i ==> files[j].siteName != siteName)
    ensures r.Err? ==> r.failure == Unsupported("Could not find image " + siteName)
  {
    var i := FirstNamed(files, siteName);
    if i < |files| then Ok(files[i]) else Err(Unsupported("Could not find image " + siteName))
  }

  /** `getChannelSource(int index)`: the list element at `index`; outside the list
      IndexOutOfBoundsException. */
  function ByIndex(files: seq<SiteFile>, index: int): (r: Result<SiteFile>)
    ensures r.Ok? <==> 0 <= index < |files|
    ensures r.Ok? ==> r.value == files[index]
    ensures r.Err? ==> r.failure == IndexOutOfBounds
  {
    if 0 <= index < |files| then Ok(files[index]) else Err(IndexOutOfBounds)
  }

  /** The index of the first file whose interval meets `cell`, or |files|. */
  function FirstIntersecting(files: seq<SiteFile>, cell: Box): (i: nat)
    ensures i <= |files|
    ensures i < |files| ==> Intersecting(cell, files[i].interval)
    ensures forall j :: 0 <= j < i ==> !Intersecting(cell, files[j].interval)
    decreases |files|
  {
    if files == [] then 0
    else if Intersecting(cell, files[0].interval) then 0
    else 1 + FirstIntersecting(files[1..], cell)
  }

  /** `getChannelSource(Interval cell)`: the first file whose interval intersects the
      requested cell, None (null) for a cell in a gap. */
  function ByInterval(files: seq<SiteFile>, cell: Box): (r: Option<SiteFile>)
    ensures r.None? <==> forall i :: 0 <= i < |files| ==> !Intersecting(cell, files[i].interval)
    ensures r.Some? ==> (Intersecting(cell, r.value.interval) &&
      exists i :: 0 <= i < |files| && files[i] == r.value && forall j :: 0 <= j < i ==> !Intersecting(cell, files[j].interval))
  {
    var i := FirstIntersecting(files, cell);
    if i < |files| then Some(files[i]) else None
  }

  /** The index of the first file whose interval contains `p`, or |files|. */
  function FirstContaining(files: seq<SiteFile>, p: Pos): (i: nat)
    ensures i <= |files|
    ensures i < |files| ==> Contains(files[i].interval, p)
    ensures forall j :: 0 <= j < i ==> !Contains(files[j].interval, p)
    decreases |files|
  {
    if files == [] then 0
    else if Contains(files[0].interval, p) then 0
    else 1 + FirstContaining(files[1..], p)
  }

  /** `getChannelSource(long[] coordinates)`: the first file whose interval has
      min <= c <= max on every axis, None (null) when there is none. */
  function ByPoint(files: seq<SiteFile>, p: Pos): (r: Option<SiteFile>)
    ensures r.None? <==> forall i :: 0 <= i < |files| ==> !Contains(files[i].interval, p)
    ensures r.Some? ==> (Contains(r.value.interval, p) &&
      exists i :: 0 <= i < |files| && files[i] == r.value && forall j :: 0 <= j < i ==> !Contains(files[j].interval, p))
  {
    var i := FirstContaining(files, p);
    if i < |files| then Some(files[i]) else None
  }

  /** No two files' intervals overlap, as for tiles of distinct grid cells. */
  predicate Disjoint(files: seq<SiteFile>)
  {
    forall i, j :: 0 <= i < j < |files| ==> !Intersecting(files[i].interval, files[j].interval)
  }

  /** Over disjoint intervals a point has a single owner, and the point search finds it. */
  lemma ByPointFindsOwner(files: seq<SiteFile>, k: int, p: Pos)
    requires Disjoint(files)
    requires 0 <= k < |files| && Contains(files[k].interval, p)
    ensures ByPoint(files, p) == Some(files[k])
  {
    var i := FirstContaining(files, p);
    if i != k {
      assert i < k;
      assert Intersecting(files[i].interval, files[k].interval);
      assert false;
    }
  }

  /** Over disjoint intervals, asking for a file's own interval finds that file. */
  lemma ByIntervalFindsOwnTile(files: seq<SiteFile>, k: int)
    requires Disjoint(files)
    requires 0 <= k < |files|
    requires files[k].interval.lo.x <= files[k].interval.hi.x && files[k].interval.lo.y <= files[k].interval.hi.y
    ensures ByInterval(files, files[k].interval) == Some(files[k])
  {
    var i := FirstIntersecting(files, files[k].interval);
    if i != k {
      assert false;
    }
  }
}
